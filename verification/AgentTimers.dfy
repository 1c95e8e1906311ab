/** The timer of an agent: its callback posts a tick event and schedules itself again after
    the tick interval. Whatever step sizes drive the timer manager, it fires at exactly
    t0 + interval, t0 + 2 * interval, and so on. */
module AgentTimers {
  import opened FlatTimers
  import opened TimerArith
  import opened TimerModel
  import opened TimerHistory
  import opened TimerRuns

  // ----- The agent's timer

  /** The timer of an agent: its event, the tick interval, the tick of `Start()`, and the
      length of the history then. */
  datatype Beat = Beat(timer: EventId, interval: nat, t0: Tick, from: nat)

  /** `AgentTimer::execute` ends in `Start()`, which schedules the timer one interval ahead; no
      other callback touches the timer. */
  ghost predicate AgentDriven(cb: Callbacks, a: EventId, interval: nat) {
    forall log {:trigger cb(log)} :: log != [] ==>
      var last: Action := log[|log| - 1];
      last.Fired? ==> if last.e == a then cb(log) == [Schedule(a, interval)] else NoneAbout(cb(log), a)
  }

  ghost predicate NoneAbout(cmds: seq<Command>, a: EventId) {
    forall i :: 0 <= i < |cmds| ==> cmds[i].e != a
  }

  /** How often the timer has fired since its start. */
  function Firings(log: seq<Action>, b: Beat): nat {
    if |log| <= b.from then 0
    else Firings(log[..|log| - 1], b) + if log[|log| - 1] == Fired(b.timer) then 1 else 0
  }

  /** `t0 + n * interval`, see NthTickIsMultiple. */
  function NthTick(b: Beat, n: nat): Tick {
    if n == 0 then b.t0 else NthTick(b, n - 1) + b.interval
  }

  lemma {:induction false} NthTickIsMultiple(b: Beat, n: nat)
    ensures NthTick(b, n) == b.t0 + n * b.interval
  {
    if n > 0 {
      NthTickIsMultiple(b, n - 1);
    }
  }

  /** Every firing since the start came at t0 + k * interval for k = 1, 2, ... without a
      gap. */
  ghost predicate OnBeat(start: Tick, log: seq<Action>, b: Beat) {
    forall j :: b.from <= j < |log| && log[j] == Fired(b.timer) ==>
                  After(start, log[..j]).clock == NthTick(b, Firings(log[..j], b) + 1)
  }

  /** So far the timer has fired on the beat, and it is due again at the next one. */
  ghost predicate Periodic(start: Tick, log: seq<Action>, b: Beat) {
    var n, f := Firings(log, b), After(start, log);
    && b.from <= |log|
    && NthTick(b, n) <= f.clock
    && b.timer in f.due && f.due[b.timer] == NthTick(b, n + 1)
    && OnBeat(start, log, b)
  }

  lemma FiringsGrow(log: seq<Action>, x: Action, b: Beat)
    requires b.from <= |log|
    ensures Firings(log + [x], b) == Firings(log, b) + if x == Fired(b.timer) then 1 else 0
  {
    assert (log + [x])[..|log|] == log;
  }

  lemma BeatGoesOn(start: Tick, log: seq<Action>, b: Beat, x: Action)
    requires OnBeat(start, log, b) && b.from <= |log|
    requires x == Fired(b.timer) ==> After(start, log).clock == NthTick(b, Firings(log, b) + 1)
    ensures OnBeat(start, log + [x], b)
  {
    hide After, Firings;
    var l := log + [x];
    forall j | b.from <= j < |l| && l[j] == Fired(b.timer)
      ensures After(start, l[..j]).clock == NthTick(b, Firings(l[..j], b) + 1)
    {
      if j < |log| {
        assert l[..j] == log[..j] && log[j] == l[j];
      } else {
        assert l[..j] == log;
      }
    }
  }

  lemma PeriodicOther(start: Tick, log: seq<Action>, b: Beat, x: Action)
    requires Periodic(start, log, b) && !About(x, b.timer)
    ensures Periodic(start, log + [x], b)
  {
    AppendAction(start, log, x);
    FiringsGrow(log, x, b);
    BeatGoesOn(start, log, b, x);
    hide Firings, After, OnBeat, Legal;
  }

  lemma PeriodicFires(start: Tick, log: seq<Action>, b: Beat)
    requires Periodic(start, log, b) && After(start, log).due[b.timer] == After(start, log).clock
    ensures Periodic(start, log + [Fired(b.timer)] + [Scheduled(b.timer, After(start, log).clock + b.interval)], b)
  {
    hide After, Firings, Legal, OnBeat;
    var s := Scheduled(b.timer, After(start, log).clock + b.interval);
    var l1 := log + [Fired(b.timer)];
    AppendAction(start, log, Fired(b.timer));
    AppendAction(start, l1, s);
    FiringsGrow(log, Fired(b.timer), b);
    FiringsGrow(l1, s, b);
    BeatGoesOn(start, log, b, Fired(b.timer));
    BeatGoesOn(start, l1, b, s);
  }

  lemma {:induction false} OthersKeepPeriodic(w: Wheel, cmds: seq<Command>, b: Beat)
    requires Inv(w) && CommandsOk(cmds, w.now[0], w.at.Keys) && NoneAbout(cmds, b.timer)
    requires Periodic(w.start, w.log, b)
    ensures Periodic(w.start, PerformAll(w, cmds).log, b)
    decreases |cmds|
  {
    hide Linked, Placed, Recorded, Periodic;
    if cmds != [] {
      var r := Perform(w, cmds[0]);
      if r.log != w.log {
        PeriodicOther(w.start, w.log, b, r.log[|w.log|]);
        assert r.log == w.log + [r.log[|w.log|]];
      }
      OthersKeepPeriodic(r, cmds[1..], b);
    }
  }

  /** The callback of the agent's timer. */
  lemma AgentReschedules(p: Wheel, cb: Callbacks, a: EventId, interval: nat)
    requires Inv(p) && WellBehaved(cb, p.start, p.at.Keys, p.now[0]) && AgentDriven(cb, a, interval)
    requires p.log != [] && p.log[|p.log| - 1] == Fired(a)
    ensures CommandsOk(cb(p.log), p.now[0], p.at.Keys)
    ensures PerformAll(p, cb(p.log)).log == p.log + [Scheduled(a, p.now[0] + interval)]
  {
    hide Linked, Placed, ScheduleEvent;
    var cmds := cb(p.log);
    assert cmds == [Schedule(a, interval)] && CommandsOk(cmds, p.now[0], p.at.Keys);
    assert CommandOk(cmds[0], p.now[0], p.at.Keys);
    var r := Perform(p, cmds[0]);
    assert PerformAll(p, cmds) == PerformAll(r, cmds[1..]) == r;
  }

  lemma FiredWhenDue(w: Wheel, level: nat)
    requires Inv(w) && level < 8 && ZeroBelow(w.now, level)
    requires var l := w.lists[Hand(w, level)]; l != [] && l[0] in w.at && w.at[l[0]] <= w.now[0]
    ensures var e, f := w.lists[Hand(w, level)][0], After(w.start, w.log);
            e in f.due && f.due[e] == f.clock == w.now[0]
    ensures Inv(Popped(w, level)) && SameFrame(w, Popped(w, level))
  {
    hide SlotLinked, Placed, Popped;
    UnderHand(w, level);
    FiredKeeps(w, level);
    assert w.lists[Hand(w, level)][0] in DueTicks(w);
  }

  lemma CallbackCommandsOk(p: Wheel, cb: Callbacks)
    requires Inv(p) && WellBehaved(cb, p.start, p.at.Keys, p.now[0])
    ensures CommandsOk(cb(p.log), p.now[0], p.at.Keys)
  {
    hide Linked, Placed, After, Legal;
  }

  lemma CallbackKeepsPeriodic(p: Wheel, log: seq<Action>, cb: Callbacks, e: EventId, b: Beat)
    requires Inv(p) && WellBehaved(cb, p.start, p.at.Keys, p.now[0]) && p.log == log + [Fired(e)]
    requires AgentDriven(cb, b.timer, b.interval) && Periodic(p.start, log, b)
    requires After(p.start, log).clock == p.now[0] && e in After(p.start, log).due
    requires After(p.start, log).due[e] == p.now[0]
    ensures CommandsOk(cb(p.log), p.now[0], p.at.Keys)
    ensures Periodic(p.start, PerformAll(p, cb(p.log)).log, b)
  {
    hide Linked, Placed, Periodic, PerformAll, After, Legal, Recorded, WellBehaved;
    CallbackCommandsOk(p, cb);
    assert p.log[|p.log| - 1] == Fired(e);
    if e == b.timer {
      PeriodicFires(p.start, log, b);
      AgentReschedules(p, cb, b.timer, b.interval);
    } else {
      PeriodicOther(p.start, log, b, Fired(e));
      OthersKeepPeriodic(p, cb(p.log), b);
    }
  }

  lemma FiringKeepsPeriodic(w: Wheel, cb: Callbacks, level: nat, b: Beat)
    requires CanFire(w, cb, level)
    requires AgentDriven(cb, b.timer, b.interval) && Periodic(w.start, w.log, b)
    ensures Periodic(w.start, FireHand(w, cb, level).log, b)
  {
    hide SlotLinked, Placed, Periodic, PerformAll, Popped, AgentDriven;
    var e, p := w.lists[Hand(w, level)][0], Popped(w, level);
    FiredWhenDue(w, level);
    CallbackKeepsPeriodic(p, w.log, cb, e, b);
  }

  lemma PeriodicIsKept(cb: Callbacks, start: Tick, b: Beat)
    requires AgentDriven(cb, b.timer, b.interval)
    ensures KeptByFiring(log => Periodic(start, log, b), cb, start)
    ensures KeptByTicks(log => Periodic(start, log, b))
  {
    forall w, level | CanFire(w, cb, level) && w.start == start && Periodic(start, w.log, b)
      ensures Periodic(start, FireHand(w, cb, level).log, b)
    {
      FiringKeepsPeriodic(w, cb, level, b);
    }
    forall log | Periodic(start, log, b)
      ensures Periodic(start, log + [Ticked], b)
    {
      PeriodicOther(start, log, b, Ticked);
    }
  }

  // ----- The agent's tick events

  /** The tick events that the firings since the start have posted, by the tick they were posted
      at: one for each firing while the agent runs, which may depend on the history. */
  ghost function TickEvents(start: Tick, log: seq<Action>, b: Beat, running: seq<Action> -> bool): seq<Tick> {
    if |log| <= b.from then []
    else
      var before, last := log[..|log| - 1], log[|log| - 1];
      TickEvents(start, before, b, running)
      + if last == Fired(b.timer) && running(log) then [After(start, before).clock] else []
  }

  /** Which firings, counted from 1, found the agent running. */
  ghost function Posting(log: seq<Action>, b: Beat, running: seq<Action> -> bool): seq<nat> {
    if |log| <= b.from then []
    else
      var before, last := log[..|log| - 1], log[|log| - 1];
      Posting(before, b, running) + if last == Fired(b.timer) && running(log) then [Firings(log, b)] else []
  }

  /** Every firing that finds the agent running posts one event at its own beat, in order. */
  lemma {:induction false} EventsAreOnBeat(start: Tick, log: seq<Action>, b: Beat, running: seq<Action> -> bool)
    requires OnBeat(start, log, b)
    ensures var ks, ts := Posting(log, b, running), TickEvents(start, log, b, running);
            |ts| == |ks| && forall i | 0 <= i < |ks| :: ts[i] == NthTick(b, ks[i])
  {
    if |log| > b.from {
      var before := log[..|log| - 1];
      forall j | b.from <= j < |before|
        ensures before[j] == log[j] && before[..j] == log[..j]
      {
      }
      EventsAreOnBeat(start, before, b, running);
    }
  }

  /** An agent that runs all the time gets one tick event for every firing. */
  lemma {:induction false} RunningAgentsGetAll(log: seq<Action>, b: Beat, running: seq<Action> -> bool)
    requires forall l :: running(l)
    ensures Posting(log, b, running) == seq(Firings(log, b), k => k + 1)
  {
    if |log| > b.from {
      RunningAgentsGetAll(log[..|log| - 1], b, running);
    }
  }

  // ----- From the start on

  /** The callbacks of a wheel with the timer of an agent on it. */
  function AgentCallbacks(a: EventId, interval: nat, others: Callbacks): Callbacks {
    (log: seq<Action>) =>
      if log != [] && log[|log| - 1] == Fired(a) then [Schedule(a, interval)] else others(log)
  }

  /** With such callbacks the demands below are met, provided that the other callbacks meet
      theirs, leave the timer alone, and there is room for one more interval behind the end. */
  lemma AgentBehaves(start: Tick, pool: set<EventId>, end: Tick, a: EventId, interval: nat, others: Callbacks)
    requires a in pool && interval > 0 && end + interval < HORIZON
    requires WellBehaved(others, start, pool, end) && forall log :: NoneAbout(others(log), a)
    ensures WellBehaved(AgentCallbacks(a, interval, others), start, pool, end)
    ensures AgentDriven(AgentCallbacks(a, interval, others), a, interval)
  {
  }

  /** `Start()` at tick t0, of a timer that may have been used before. */
  lemma StartIsPeriodic(w: Wheel, a: EventId, interval: nat)
    requires Inv(w) && a in w.at && interval > 0 && w.now[0] + interval < HORIZON
    ensures Periodic(w.start, ScheduleEvent(w, a, interval).log, Beat(a, interval, w.now[0], |w.log| + 1))
  {
    hide ScheduleEvent;
    var b := Beat(a, interval, w.now[0], |w.log| + 1);
    AppendAction(w.start, w.log, Scheduled(a, w.now[0] + interval));
    assert NthTick(b, 1) == NthTick(b, 0) + interval;
  }

  /** The firings so far are all those that fit between t0 and now. */
  ghost predicate CaughtUp(now: Tick, n: nat, b: Beat) {
    b.t0 + n * b.interval <= now < b.t0 + (n + 1) * b.interval
  }

  lemma AdvanceKeepsBeat(w: Wheel, pending: nat, cb: Callbacks, delta: nat, limit: nat, b: Beat)
    requires Resting(w, pending) && Target(w, pending) + delta < HORIZON
    requires WellBehaved(cb, w.start, w.at.Keys, Target(w, pending) + delta)
    requires AgentDriven(cb, b.timer, b.interval) && Periodic(w.start, w.log, b)
    ensures Periodic(w.start, Advance(w, pending, cb, delta, limit).0.log, b)
  {
    hide Advance, Inv, Placed, Periodic, WellBehaved, AgentDriven, KeptByFiring, KeptByTicks;
    PeriodicIsKept(cb, w.start, b);
    AdvanceKeeps(w, pending, cb, delta, limit, log => Periodic(w.start, log, b));
  }

  /** Whatever advances drive the wheel, limited or not, the timer stays on its beat. */
  lemma {:induction false} BeatIsKept(w: Wheel, pending: nat, cb: Callbacks, calls: seq<(nat, nat)>, b: Beat)
    requires Resting(w, pending) && Target(w, pending) + TotalDelta(calls) < HORIZON
    requires WellBehaved(cb, w.start, w.at.Keys, Target(w, pending) + TotalDelta(calls))
    requires AgentDriven(cb, b.timer, b.interval) && Periodic(w.start, w.log, b)
    ensures var r := AdvanceEach(w, pending, cb, calls);
            Periodic(w.start, r.0.log, b) && (r.1 == 0 ==> CaughtUp(r.0.now[0], Firings(r.0.log, b), b))
    decreases |calls|
  {
    hide Advance, Periodic, WellBehaved, CaughtUp, AgentDriven, Firings, Resting, Target, Inv;
    if calls == [] {
      if pending == 0 {
        ExactCount(w, b);
      }
    } else {
      FirstBehaves(w, pending, cb, calls);
      AdvanceKeepsBeat(w, pending, cb, calls[0].0, calls[0].1, b);
      var r := Advance(w, pending, cb, calls[0].0, calls[0].1);
      BeatIsKept(r.0, r.1, cb, calls[1..], b);
    }
  }

  lemma ExactCount(w: Wheel, b: Beat)
    requires Resting(w, 0) && Periodic(w.start, w.log, b)
    ensures CaughtUp(w.now[0], Firings(w.log, b), b)
  {
    hide Linked, OnBeat, Firings;
    PlacedIsQuiet(w);
    var n := Firings(w.log, b);
    NthTickIsMultiple(b, n);
    NthTickIsMultiple(b, n + 1);
    assert b.timer in DueTicks(w);
  }

  /** What is asked for when an agent's timer is started on a wheel: the other callbacks leave
      it alone, and there is room for one more interval behind the last tick. */
  ghost predicate CanStart(w: Wheel, pending: nat, others: Callbacks, calls: seq<(nat, nat)>, a: EventId, interval: nat) {
    && Resting(w, pending) && a in w.at && interval > 0
    && Target(w, pending) + TotalDelta(calls) + interval < HORIZON
    && WellBehaved(others, w.start, w.at.Keys, Target(w, pending) + TotalDelta(calls))
    && forall log :: NoneAbout(others(log), a)
  }

  lemma StartBehaves(w: Wheel, pending: nat, others: Callbacks, calls: seq<(nat, nat)>, a: EventId, interval: nat)
    requires CanStart(w, pending, others, calls, a, interval)
    ensures Inv(w) && |w.now| == 8 && w.now[0] + interval < HORIZON && a in w.at && interval > 0
    ensures var s, cb := ScheduleEvent(w, a, interval), AgentCallbacks(a, interval, others);
            && Resting(s, pending) && s.start == w.start && s.now == w.now
            && Target(s, pending) + TotalDelta(calls) < HORIZON
            && WellBehaved(cb, s.start, s.at.Keys, Target(s, pending) + TotalDelta(calls))
            && AgentDriven(cb, a, interval)
            && Periodic(w.start, s.log, Beat(a, interval, w.now[0], |s.log|))
  {
    hide ScheduleEvent, Linked, Recorded, Coherent, AgentCallbacks, WellBehaved, AgentDriven, Placed, Periodic;
    AgentBehaves(w.start, w.at.Keys, Target(w, pending) + TotalDelta(calls), a, interval, others);
    StartIsPeriodic(w, a, interval);
  }

  /** The wheel after `Start()` and a sequence of advances. */
  ghost function AgentRun(w: Wheel, pending: nat, others: Callbacks, calls: seq<(nat, nat)>, a: EventId, interval: nat): (Wheel, nat)
    requires CanStart(w, pending, others, calls, a, interval)
  {
    StartBehaves(w, pending, others, calls, a, interval);
    hide ScheduleEvent, CanStart, WellBehaved, Resting, Periodic, AgentDriven, Inv;
    AdvanceEach(ScheduleEvent(w, a, interval), pending, AgentCallbacks(a, interval, others), calls)
  }

  lemma RunIsPeriodic(w: Wheel, pending: nat, others: Callbacks, calls: seq<(nat, nat)>, a: EventId, interval: nat)
    requires CanStart(w, pending, others, calls, a, interval)
    ensures var (r, left) := AgentRun(w, pending, others, calls, a, interval);
            var b := Beat(a, interval, w.now[0], |w.log| + 1);
            && |r.now| == 8
            && Periodic(w.start, r.log, b)
            && (left == 0 ==> CaughtUp(r.now[0], Firings(r.log, b), b))
  {
    hide ScheduleEvent, CanStart, WellBehaved, Periodic, AgentDriven, AgentCallbacks, AdvanceEach, CaughtUp, Firings, Shape, Placed, Recorded;
    StartBehaves(w, pending, others, calls, a, interval);
    var s, cb := ScheduleEvent(w, a, interval), AgentCallbacks(a, interval, others);
    BeatIsKept(s, pending, cb, calls, Beat(a, interval, w.now[0], |s.log|));
  }

  /** The main theorem, from `Start()` on: at whatever tick t0 and with whatever other timers the
      agent's timer is started, and whatever steps drive the timer manager afterwards, the k-th
      firing comes at exactly t0 + k * interval, and every firing that finds the agent running
      posts one tick event. When nothing is pending, the firings are all that fit up to now. */
  lemma AgentDoesNotDrift(w: Wheel, pending: nat, others: Callbacks, calls: seq<(nat, nat)>,
                          a: EventId, interval: nat, running: seq<Action> -> bool)
    requires CanStart(w, pending, others, calls, a, interval)
    ensures var (r, left) := AgentRun(w, pending, others, calls, a, interval);
            var b := Beat(a, interval, w.now[0], |w.log| + 1);
            && OnBeat(w.start, r.log, b)
            && TicksPosted(w.start, r.log, b, running)
            && |r.now| == 8
            && (left == 0 ==> CaughtUp(r.now[0], Firings(r.log, b), b))
  {
    RunIsPeriodic(w, pending, others, calls, a, interval);
    hide AgentRun, OnBeat, TicksPosted, CaughtUp, Firings, Inv, WellBehaved;
    var r := AgentRun(w, pending, others, calls, a, interval).0;
    TicksArePosted(w.start, r.log, Beat(a, interval, w.now[0], |w.log| + 1), running);
  }

  /** Tick events come on the beat, one for each firing that finds the agent running. */
  ghost predicate TicksPosted(start: Tick, log: seq<Action>, b: Beat, running: seq<Action> -> bool) {
    var ks, ts := Posting(log, b, running), TickEvents(start, log, b, running);
    && |ts| == |ks|
    && (forall i | 0 <= i < |ks| :: ts[i] == b.t0 + ks[i] * b.interval)
    && ((forall l :: running(l)) ==> ks == seq(Firings(log, b), k => k + 1))
  }

  lemma TicksArePosted(start: Tick, log: seq<Action>, b: Beat, running: seq<Action> -> bool)
    requires OnBeat(start, log, b)
    ensures TicksPosted(start, log, b, running)
  {
    EventsAreOnBeat(start, log, b, running);
    if forall l :: running(l) {
      RunningAgentsGetAll(log, b, running);
    }
    var ks, ts := Posting(log, b, running), TickEvents(start, log, b, running);
    hide Posting, TickEvents, Firings;
    forall i | 0 <= i < |ks|
      ensures ts[i] == b.t0 + ks[i] * b.interval
    {
      NthTickIsMultiple(b, ks[i]);
    }
  }

  /** All demands can be met: an agent alone on a new wheel. */
  lemma AgentsExist(start: Tick, a: EventId, interval: nat, calls: seq<(nat, nat)>)
    requires interval > 0 && start + TotalDelta(calls) + interval < HORIZON
    ensures CanStart(NewWheel(start, {a}), 0, (log: seq<Action>) => [], calls, a, interval)
  {
  }
}
