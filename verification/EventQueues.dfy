/** The two-ended event queue, and when the manager's steps dispatch what was raised. */
module EventQueues {
  /** A raised event: its name, and when and how it was raised. The stamp counts the steps
      begun so far; `inside` tells whether one of them was running. */
  datatype Ticket = Ticket(event: nat, immediate: bool, stamp: nat, inside: bool)

  datatype Dispatch = Dispatch(ticket: Ticket, step: nat)

  datatype Manager = Manager(incoming: seq<Ticket>, outgoing: seq<Ticket>, steps: nat, stepping: bool,
                             raised: seq<Ticket>, dispatched: seq<Dispatch>)

  datatype Action = Raise(event: nat, immediate: bool) | Begin | Next | End

  const START := Manager([], [], 0, false, [], [])

  // ----- The queue

  function Raised(m: Manager, event: nat, immediate: bool): Manager {
    var t := Ticket(event, immediate, m.steps, m.stepping);
    var n := m.(raised := m.raised + [t]);
    if immediate then n.(outgoing := [t] + m.outgoing) else n.(incoming := m.incoming + [t])
  }

  /** `Switch` at the start of a step. */
  function Begun(m: Manager): Manager {
    m.(incoming := m.outgoing, outgoing := m.incoming, steps := m.steps + 1, stepping := true)
  }

  /** `NextEvent`, and the event is handled. */
  function Advanced(m: Manager): Manager
    requires m.outgoing != []
  {
    m.(outgoing := m.outgoing[1..], dispatched := m.dispatched + [Dispatch(m.outgoing[0], m.steps)])
  }

  predicate Enabled(m: Manager, a: Action) {
    match a
    case Raise(_, _) => true
    case Begin => !m.stepping
    case Next => m.stepping && m.outgoing != []
    case End => m.stepping && m.outgoing == []
  }

  function Apply(m: Manager, a: Action): Manager
    requires Enabled(m, a)
  {
    match a
    case Raise(event, immediate) => Raised(m, event, immediate)
    case Begin => Begun(m)
    case Next => Advanced(m)
    case End => m.(stepping := false)
  }

  predicate Legal(m: Manager, run: seq<Action>)
    decreases |run|
  {
    run == [] || (Enabled(m, run[0]) && Legal(Apply(m, run[0]), run[1..]))
  }

  function After(m: Manager, run: seq<Action>): Manager
    requires Legal(m, run)
    decreases |run|
  {
    if run == [] then m else After(Apply(m, run[0]), run[1..])
  }

  /** What the handler of one event raises, in order. */
  type Raises = seq<(nat, bool)>

  function RaiseAll(m: Manager, raises: Raises): (r: Manager)
    ensures r.stepping == m.stepping && r.steps == m.steps
    decreases |raises|
  {
    if raises == [] then m else RaiseAll(Raised(m, raises[0].0, raises[0].1), raises[1..])
  }

  /** The drain of one step. The n-th event handled raises what the n-th entry says; later
      ones raise nothing. */
  function Drained(m: Manager, handlers: seq<Raises>): (r: Manager)
    ensures r.outgoing == [] && r.stepping == m.stepping && r.steps == m.steps
    decreases |handlers|, |m.outgoing|
  {
    if m.outgoing == [] then m
    else if handlers == [] then Drained(Advanced(m), [])
    else Drained(RaiseAll(Advanced(m), handlers[0]), handlers[1..])
  }

  // ----- What is promised

  /** The step that dispatches a ticket. An immediate event raised by a handler belongs to the
      running step, and a deferred one to the next. An immediate event raised between steps
      is put where the next switch takes it away, so it comes one step later than a deferred
      one. */
  function DueStep(t: Ticket): nat {
    if !t.immediate then t.stamp + 1
    else if t.inside then t.stamp
    else t.stamp + 2
  }

  function Deferred(tickets: seq<Ticket>): seq<Ticket> {
    if tickets == [] then []
    else (if tickets[0].immediate then [] else [tickets[0]]) + Deferred(tickets[1..])
  }

  function Tickets(dispatched: seq<Dispatch>): (r: seq<Ticket>)
    ensures |r| == |dispatched|
    ensures forall i | 0 <= i < |r| :: r[i] == dispatched[i].ticket
  {
    seq(|dispatched|, i requires 0 <= i < |dispatched| => dispatched[i].ticket)
  }

  predicate AllImmediate(tickets: seq<Ticket>) {
    forall i | 0 <= i < |tickets| :: tickets[i].immediate
  }

  predicate AllDue(tickets: seq<Ticket>, step: nat) {
    forall i | 0 <= i < |tickets| :: DueStep(tickets[i]) == step
  }

  /** Everything raised is in one place, dispatched, outgoing or incoming. */
  predicate Counted(m: Manager) {
    multiset(m.raised) == multiset(Tickets(m.dispatched)) + multiset(m.outgoing) + multiset(m.incoming)
  }

  predicate Ordered(m: Manager) {
    Deferred(m.raised) == Deferred(Tickets(m.dispatched)) + Deferred(m.outgoing) + Deferred(m.incoming)
  }

  /** What can still be dispatched now is due now, and what is kept back is due in the next
      step, or the one after when immediate. */
  predicate OnTime(m: Manager) {
    && (forall i | 0 <= i < |m.dispatched| :: m.dispatched[i].step == DueStep(m.dispatched[i].ticket) <= m.steps)
    && AllDue(m.incoming, m.steps + 1)
    && AllDue(m.outgoing, if m.stepping then m.steps else m.steps + 2)
    && (!m.stepping ==> AllImmediate(m.outgoing))
  }

  predicate Inv(m: Manager) {
    Counted(m) && Ordered(m) && OnTime(m)
  }

  lemma {:induction false} DeferredSplits(a: seq<Ticket>, b: seq<Ticket>)
    ensures Deferred(a + b) == Deferred(a) + Deferred(b)
  {
    if a == [] {
      assert a + b == b;
    } else {
      DeferredSplits(a[1..], b);
      assert (a + b)[1..] == a[1..] + b && (a + b)[0] == a[0];
      assert Deferred(a + b) == (if a[0].immediate then [] else [a[0]]) + Deferred(a[1..] + b);
    }
  }

  lemma DeferredOne(t: Ticket)
    ensures Deferred([t]) == if t.immediate then [] else [t]
  {
    assert Deferred([t][1..]) == [];
  }

  lemma {:induction false} NoneDeferred(a: seq<Ticket>)
    requires AllImmediate(a)
    ensures Deferred(a) == []
  {
    if a != [] {
      NoneDeferred(a[1..]);
    }
  }

  lemma RaisingCounts(m: Manager, event: nat, immediate: bool)
    requires Counted(m)
    ensures Counted(Raised(m, event, immediate))
  {
    hide Tickets;
    var t := Ticket(event, immediate, m.steps, m.stepping);
    assert multiset([t] + m.outgoing) == multiset(m.outgoing) + multiset{t};
  }

  lemma RaisingKeepsOrder(m: Manager, event: nat, immediate: bool)
    requires Ordered(m)
    ensures Ordered(Raised(m, event, immediate))
  {
    hide Deferred, Tickets;
    var t := Ticket(event, immediate, m.steps, m.stepping);
    DeferredOne(t);
    DeferredSplits(m.raised, [t]);
    if immediate {
      DeferredSplits([t], m.outgoing);
      AddNothing(Deferred(m.raised), Deferred(m.outgoing));
    } else {
      DeferredSplits(m.incoming, [t]);
      AddLast(Deferred(Tickets(m.dispatched)), Deferred(m.outgoing), Deferred(m.incoming), t);
    }
  }

  lemma AddNothing(a: seq<Ticket>, b: seq<Ticket>)
    ensures a + [] == a && [] + b == b
  {
  }

  lemma AddLast(a: seq<Ticket>, b: seq<Ticket>, c: seq<Ticket>, t: Ticket)
    ensures a + b + c + [t] == a + b + (c + [t])
  {
  }

  lemma DueOneMore(tickets: seq<Ticket>, t: Ticket, step: nat)
    requires AllDue(tickets, step) && DueStep(t) == step
    ensures AllDue([t] + tickets, step) && AllDue(tickets + [t], step)
    ensures AllImmediate(tickets) && t.immediate ==> AllImmediate([t] + tickets)
  {
  }

  lemma RaisingKeepsTime(m: Manager, event: nat, immediate: bool)
    requires OnTime(m)
    ensures OnTime(Raised(m, event, immediate))
  {
    var t := Ticket(event, immediate, m.steps, m.stepping);
    if immediate {
      DueOneMore(m.outgoing, t, if m.stepping then m.steps else m.steps + 2);
    } else {
      DueOneMore(m.incoming, t, m.steps + 1);
    }
    hide AllDue, AllImmediate;
  }

  lemma RaisingKeeps(m: Manager, event: nat, immediate: bool)
    requires Inv(m)
    ensures Inv(Raised(m, event, immediate))
  {
    RaisingCounts(m, event, immediate);
    RaisingKeepsOrder(m, event, immediate);
    RaisingKeepsTime(m, event, immediate);
    hide Counted, Ordered, OnTime;
  }

  lemma BeginningKeeps(m: Manager)
    requires Inv(m) && !m.stepping
    ensures Inv(Begun(m))
  {
    hide Deferred;
    NoneDeferred(m.outgoing);
  }

  lemma TicketsGrow(dispatched: seq<Dispatch>, d: Dispatch)
    ensures Tickets(dispatched + [d]) == Tickets(dispatched) + [d.ticket]
  {
  }

  lemma DeferredMove(done: seq<Ticket>, first: seq<Ticket>, rest: seq<Ticket>)
    ensures Deferred(done + first) + Deferred(rest) == Deferred(done) + Deferred(first + rest)
  {
    hide Deferred;
    DeferredSplits(done, first);
    DeferredSplits(first, rest);
  }

  lemma CountsMove(done: seq<Ticket>, first: seq<Ticket>, rest: seq<Ticket>, more: seq<Ticket>)
    ensures multiset(done + first) + multiset(rest) + multiset(more) ==
            multiset(done) + multiset(first + rest) + multiset(more)
  {
  }

  lemma AdvancingKeeps(m: Manager)
    requires Inv(m) && m.stepping && m.outgoing != []
    ensures Inv(Advanced(m))
  {
    hide Deferred, Tickets;
    var first, rest := [m.outgoing[0]], m.outgoing[1..];
    assert m.outgoing == first + rest;
    TicketsGrow(m.dispatched, Dispatch(m.outgoing[0], m.steps));
    DeferredMove(Tickets(m.dispatched), first, rest);
    CountsMove(Tickets(m.dispatched), first, rest, m.incoming);
    assert m.raised == Advanced(m).raised;
  }

  lemma {:induction false} RunsKeep(m: Manager, run: seq<Action>)
    requires Inv(m) && Legal(m, run)
    ensures Inv(After(m, run))
    decreases |run|
  {
    hide Inv;
    if run != [] {
      ActionKeeps(m, run[0]);
      RunsKeep(Apply(m, run[0]), run[1..]);
    }
  }

  lemma ActionKeeps(m: Manager, a: Action)
    requires Inv(m) && Enabled(m, a)
    ensures Inv(Apply(m, a))
  {
    hide Deferred;
    match a
    case Raise(event, immediate) => RaisingKeeps(m, event, immediate);
    case Begin => BeginningKeeps(m);
    case Next => AdvancingKeeps(m);
    case End =>
  }

  lemma StartKeeps()
    ensures Inv(START)
  {
  }

  // ----- What was raised

  /** The tickets of the raising actions of a run, in order, each stamped with the steps begun
      before it and with whether a step is running. */
  function TicketsOf(run: seq<Action>, steps: nat, inside: bool): seq<Ticket> {
    if run == [] then []
    else
      match run[0]
      case Raise(event, immediate) => [Ticket(event, immediate, steps, inside)] + TicketsOf(run[1..], steps, inside)
      case Begin => TicketsOf(run[1..], steps + 1, true)
      case Next => TicketsOf(run[1..], steps, inside)
      case End => TicketsOf(run[1..], steps, false)
  }

  lemma {:induction false} RaisedAreTheRuns(m: Manager, run: seq<Action>)
    requires Legal(m, run)
    ensures After(m, run).raised == m.raised + TicketsOf(run, m.steps, m.stepping)
    decreases |run|
  {
    if run != [] {
      RaisedAreTheRuns(Apply(m, run[0]), run[1..]);
    }
  }

  /** The tickets of what one handler raises. */
  function TicketsOfAll(raises: Raises, steps: nat, inside: bool): (r: seq<Ticket>)
    ensures |r| == |raises|
  {
    seq(|raises|, i requires 0 <= i < |raises| => Ticket(raises[i].0, raises[i].1, steps, inside))
  }

  function Immediate(tickets: seq<Ticket>): seq<Ticket> {
    if tickets == [] then []
    else Immediate(tickets[1..]) + if tickets[0].immediate then [tickets[0]] else []
  }

  lemma RestOfAll(raises: Raises, steps: nat, inside: bool)
    requires raises != []
    ensures TicketsOfAll(raises, steps, inside) ==
            [Ticket(raises[0].0, raises[0].1, steps, inside)] + TicketsOfAll(raises[1..], steps, inside)
  {
  }

  /** All that a handler raises is queued: deferred events behind those that wait for the next
      step, in their order, and immediate ones in front, the last one first. */
  lemma {:induction false} RaisesAreQueued(m: Manager, raises: Raises)
    ensures var tickets := TicketsOfAll(raises, m.steps, m.stepping);
            RaiseAll(m, raises) == m.(raised := m.raised + tickets,
                                      incoming := m.incoming + Deferred(tickets),
                                      outgoing := Immediate(tickets) + m.outgoing)
    decreases |raises|
  {
    if raises == [] {
      assert m.raised + [] == m.raised && m.incoming + [] == m.incoming && [] + m.outgoing == m.outgoing;
    } else {
      hide TicketsOfAll, Deferred, Immediate;
      var t, rest := Raised(m, raises[0].0, raises[0].1), TicketsOfAll(raises[1..], m.steps, m.stepping);
      RaisesAreQueued(t, raises[1..]);
      RestOfAll(raises, m.steps, m.stepping);
      QueuedTogether(m, Ticket(raises[0].0, raises[0].1, m.steps, m.stepping), rest);
    }
  }

  lemma QueuedTogether(m: Manager, t: Ticket, rest: seq<Ticket>)
    ensures m.raised + [t] + rest == m.raised + ([t] + rest)
    ensures m.incoming + Deferred([t] + rest) == (if t.immediate then m.incoming else m.incoming + [t]) + Deferred(rest)
    ensures Immediate([t] + rest) + m.outgoing == Immediate(rest) + if t.immediate then [t] + m.outgoing else m.outgoing
  {
    assert ([t] + rest)[1..] == rest;
    var d, i := Deferred(rest), Immediate(rest);
    assert m.incoming + ([t] + d) == m.incoming + [t] + d;
    assert m.incoming + ([] + d) == m.incoming + d;
    assert i + [t] + m.outgoing == i + ([t] + m.outgoing);
    assert i + [] + m.outgoing == i + m.outgoing;
  }

  // ----- Main results

  /** In every run, each event raised is dispatched at most once, and in exactly the step it
      is due; once that step has ended it has been dispatched. */
  lemma DispatchTimes(run: seq<Action>)
    requires Legal(START, run)
    ensures var m := After(START, run);
            && m.raised == TicketsOf(run, 0, false)
            && (forall i | 0 <= i < |m.dispatched| :: m.dispatched[i].step == DueStep(m.dispatched[i].ticket))
            && (forall t :: multiset(Tickets(m.dispatched))[t] <= multiset(m.raised)[t])
            && (forall t | t in m.raised && (DueStep(t) < m.steps || (DueStep(t) == m.steps && !m.stepping)) ::
                  multiset(Tickets(m.dispatched))[t] == multiset(m.raised)[t])
  {
    StartKeeps();
    RunsKeep(START, run);
    RaisedAreTheRuns(START, run);
    var m := After(START, run);
    hide TicketsOf;
    hide Deferred, After, Legal;
    forall t | t in m.raised && (DueStep(t) < m.steps || (DueStep(t) == m.steps && !m.stepping))
      ensures t !in m.outgoing && t !in m.incoming
    {
    }
  }

  /** Deferred events are dispatched in the order in which they were raised: those already
      dispatched are a first part of those raised. */
  lemma DeferredInOrder(run: seq<Action>)
    requires Legal(START, run)
    ensures var m := After(START, run);
            Deferred(Tickets(m.dispatched)) <= Deferred(TicketsOf(run, 0, false))
  {
    StartKeeps();
    RunsKeep(START, run);
    RaisedAreTheRuns(START, run);
    hide TicketsOf;
    assert After(START, run).raised == TicketsOf(run, 0, false);
  }

  // ----- The queue object

  class EventQueue {
    var inEventList: seq<Ticket>
    var outEventList: seq<Ticket>

    constructor ()
      ensures inEventList == [] && outEventList == []
    {
      inEventList, outEventList := [], [];
    }

    method Switch()
      modifies this
      ensures inEventList == old(outEventList) && outEventList == old(inEventList)
    {
      inEventList, outEventList := outEventList, inEventList;
    }

    method AddEvent(ev: Ticket, immediate: bool)
      modifies this
      ensures outEventList == if immediate then [ev] + old(outEventList) else old(outEventList)
      ensures inEventList == if immediate then old(inEventList) else old(inEventList) + [ev]
    {
      if immediate {
        outEventList := [ev] + outEventList;
      } else {
        inEventList := inEventList + [ev];
      }
    }

    method NextEvent() returns (ev: Ticket)
      requires outEventList != []
      modifies this
      ensures [ev] + outEventList == old(outEventList) && inEventList == old(inEventList)
    {
      ev := outEventList[0];
      outEventList := outEventList[1..];
    }
  }

  // ----- The manager

  lemma {:induction false} RaisingAllKeeps(m: Manager, raises: Raises)
    requires Inv(m)
    ensures Inv(RaiseAll(m, raises))
    decreases |raises|
  {
    hide Inv;
    if raises != [] {
      RaisingKeeps(m, raises[0].0, raises[0].1);
      RaisingAllKeeps(Raised(m, raises[0].0, raises[0].1), raises[1..]);
    }
  }

  lemma {:induction false} DrainingKeeps(m: Manager, handlers: seq<Raises>)
    requires Inv(m) && m.stepping
    ensures Inv(Drained(m, handlers))
    decreases |handlers|, |m.outgoing|
  {
    if m.outgoing != [] {
      AdvancingKeeps(m);
      hide Inv;
      if handlers == [] {
        DrainingKeeps(Advanced(m), []);
      } else {
        RaisingAllKeeps(Advanced(m), handlers[0]);
        DrainingKeeps(RaiseAll(Advanced(m), handlers[0]), handlers[1..]);
      }
    }
  }

  /** A whole step keeps the invariant behind the dispatch times, whatever its handlers
      raise. */
  lemma StepsKeep(m: Manager, handlers: seq<Raises>)
    requires Inv(m) && !m.stepping
    ensures Inv(Drained(Begun(m), handlers).(stepping := false))
  {
    BeginningKeeps(m);
    DrainingKeeps(Begun(m), handlers);
    hide Deferred, Tickets;
  }

  /** The actions of what one handler raises, and of the drain of a step. */
  function RaisingActions(raises: Raises): seq<Action> {
    seq(|raises|, i requires 0 <= i < |raises| => Raise(raises[i].0, raises[i].1))
  }

  function DrainActions(m: Manager, handlers: seq<Raises>): seq<Action>
    decreases |handlers|, |m.outgoing|
  {
    if m.outgoing == [] then []
    else if handlers == [] then [Next] + DrainActions(Advanced(m), [])
    else [Next] + RaisingActions(handlers[0]) + DrainActions(RaiseAll(Advanced(m), handlers[0]), handlers[1..])
  }

  lemma {:induction false} RunsJoin(m: Manager, a: seq<Action>, b: seq<Action>)
    requires Legal(m, a) && Legal(After(m, a), b)
    ensures Legal(m, a + b) && After(m, a + b) == After(After(m, a), b)
    decreases |a|
  {
    if a == [] {
      assert a + b == b;
    } else {
      RunsJoin(Apply(m, a[0]), a[1..], b);
      assert (a + b)[1..] == a[1..] + b && (a + b)[0] == a[0];
    }
  }

  lemma {:induction false} RaisingIsARun(m: Manager, raises: Raises)
    ensures Legal(m, RaisingActions(raises)) && After(m, RaisingActions(raises)) == RaiseAll(m, raises)
    decreases |raises|
  {
    if raises != [] {
      RaisingIsARun(Raised(m, raises[0].0, raises[0].1), raises[1..]);
      assert RaisingActions(raises)[1..] == RaisingActions(raises[1..]);
    }
  }

  lemma OneAction(m: Manager, a: Action)
    requires Enabled(m, a)
    ensures Legal(m, [a]) && After(m, [a]) == Apply(m, a)
  {
    assert [a][1..] == [];
  }

  lemma {:induction false} DrainIsARun(m: Manager, handlers: seq<Raises>)
    requires m.stepping
    ensures Legal(m, DrainActions(m, handlers)) && After(m, DrainActions(m, handlers)) == Drained(m, handlers)
    decreases |handlers|, |m.outgoing|
  {
    hide RaisingActions, Legal, After;
    if m.outgoing == [] {
      NoAction(m);
    } else {
      OneAction(m, Next);
      var t := Advanced(m);
      if handlers == [] {
        DrainIsARun(t, []);
        RunsJoin(m, [Next], DrainActions(t, []));
      } else {
        RaisingIsARun(t, handlers[0]);
        RunsJoin(m, [Next], RaisingActions(handlers[0]));
        DrainIsARun(RaiseAll(t, handlers[0]), handlers[1..]);
        RunsJoin(m, [Next] + RaisingActions(handlers[0]), DrainActions(RaiseAll(t, handlers[0]), handlers[1..]));
      }
    }
  }

  lemma NoAction(m: Manager)
    ensures Legal(m, []) && After(m, []) == m
  {
  }

  /** A step of the manager is a legal run: it begins, takes one event after the other with what
      its handler raises, and ends; so all that is said of runs holds of steps. */
  lemma StepIsARun(m: Manager, handlers: seq<Raises>)
    requires !m.stepping
    ensures var run := [Begin] + DrainActions(Begun(m), handlers) + [End];
            Legal(m, run) && After(m, run) == Drained(Begun(m), handlers).(stepping := false)
  {
    hide Legal, After, DrainActions, Drained;
    OneAction(m, Begin);
    DrainIsARun(Begun(m), handlers);
    RunsJoin(m, [Begin], DrainActions(Begun(m), handlers));
    OneAction(Drained(Begun(m), handlers), End);
    RunsJoin(m, [Begin] + DrainActions(Begun(m), handlers), [End]);
  }

  class EventManager {
    const queue: EventQueue
    var steps: nat
    var inDrain: bool
    ghost var model: Manager

    ghost predicate Valid()
      reads this, queue
    {
      && model.incoming == queue.inEventList
      && model.outgoing == queue.outEventList
      && model.steps == steps
      && model.stepping == inDrain
    }

    constructor ()
      ensures Valid() && fresh(queue) && model == START
    {
      queue := new EventQueue();
      steps, inDrain, model := 0, false, START;
    }

    /** `Manager::Event`, for an event that is not triggered at once. */
    method Event(event: nat, immediate: bool)
      requires Valid()
      modifies this`model, queue
      ensures Valid() && model == Raised(old(model), event, immediate)
      ensures var t := Ticket(event, immediate, steps, inDrain);
              && queue.outEventList == (if immediate then [t] else []) + old(queue.outEventList)
              && queue.inEventList == old(queue.inEventList) + if immediate then [] else [t]
    {
      queue.AddEvent(Ticket(event, immediate, steps, inDrain), immediate);
      model := Raised(model, event, immediate);
    }

    method EventAll(raises: Raises)
      requires Valid()
      modifies this`model, queue
      ensures Valid() && model == RaiseAll(old(model), raises)
    {
      ghost var m := model;
      for i := 0 to |raises|
        invariant Valid()
        invariant RaiseAll(model, raises[i..]) == RaiseAll(m, raises)
      {
        assert raises[i..][1..] == raises[i + 1..];
        Event(raises[i].0, raises[i].1);
      }
    }

    /** The event part of `Manager::Step`. The switch is where a step begins: what the
        timers of the same step raised before it counts as raised between steps. */
    method Step(handlers: seq<Raises>)
      requires Valid() && !inDrain
      modifies this, queue
      ensures Valid() && !inDrain && queue.outEventList == []
      ensures model == Drained(Begun(old(model)), handlers).(stepping := false)
    {
      queue.Switch();
      steps, inDrain := steps + 1, true;
      model := Begun(model);
      ghost var m := model;
      var left := handlers;
      while queue.outEventList != []
        invariant Valid() && inDrain
        invariant Drained(model, left) == Drained(m, handlers)
        decreases |left|, |queue.outEventList|
      {
        model := Advanced(model);
        var ev := queue.NextEvent();
        if left != [] {
          EventAll(left[0]);
          left := left[1..];
        }
      }
      inDrain := false;
      model := model.(stepping := false);
    }
  }
}
