/** Events triggered from within a run: dispatch nests, on a bounded stack of executors and a
    bounded number of event frames. */
module NestedEvents {
  import opened Flowchart
  import opened FlowDispatch
  import opened Wrappers

  /** The sizes of the executor stack and of the nesting of triggered events. */
  datatype Limits = Limits(stack: nat, frames: nat)

  const LIMITS := Limits(16, 16)

  /** What happens in a run: the executor turns to a node, a node leaves the list it is in
      because it is stopped or pushed, a node waits, an event is triggered or queued, a chart
      is started with its start node, or a subchart returns to the node that owns it. */
  datatype Act =
    | Enter(node: nat)
    | Drop(node: nat)
    | Await(node: nat, event: nat)
    | Trigger(event: nat, immediate: bool)
    | Raise(event: nat, immediate: bool)
    | Start(node: nat)
    | Resume(node: nat)

  /** What has happened. The depth is that of the executor in use. */
  datatype Mark =
    | Waits(node: nat, event: nat)
    | Unlinked(node: nat)
    | Woken(node: nat, depth: nat)
    | Lost(node: nat, depth: nat)
    | Refused(event: nat, depth: nat)
    | Continued(node: nat, depth: nat)

  /** What the run of a node does may depend on all that happened before. */
  type Script = (seq<Mark>, nat) -> seq<Act>

  datatype Queued = Queued(event: nat, immediate: bool)

  /** Lists of waiting nodes by event; the batches of the dispatches under way, the innermost
      last; the current node of every executor in use, the innermost last; and the fields of
      the manager. */
  datatype State = State(waiting: seq<seq<nat>>, batches: seq<seq<nat>>, cursors: seq<Option<nat>>, frame: nat,
                         current: Option<nat>, queue: seq<Queued>, log: seq<Mark>)
  {
    /** `current_index_` */
    function Depth(): nat {
      if cursors == [] then 0 else |cursors| - 1
    }

    function Batch(): seq<nat> {
      if batches == [] then [] else batches[|batches| - 1]
    }

    /** What encloses the innermost dispatch. */
    function Outer(): State {
      this.(batches := if batches == [] then [] else batches[..|batches| - 1])
    }
  }

  /** The event that a node waits for when its chart could not be started at once. */
  const START_EVENT: nat := 0

  /** No node is linked twice; executors in use fit the stack; and at most as many triggered
      events are under way as runs. */
  ghost predicate Valid(c: Limits, s: State) {
    && Apart(s.waiting, s.batches)
    && 1 <= |s.cursors| <= c.stack
    && s.frame <= s.Depth()
  }

  ghost predicate Apart(waiting: seq<seq<nat>>, batches: seq<seq<nat>>) {
    forall n: nat :: Count(waiting, n) + Count(batches, n) <= 1
  }

  /** How often a node is linked in the lists. */
  ghost function Count(lists: seq<seq<nat>>, n: nat): nat {
    if lists == [] then 0 else multiset(lists[0])[n] + Count(lists[1..], n)
  }

  // ----- Lists

  predicate Listed(lists: seq<seq<nat>>, n: nat) {
    exists i | 0 <= i < |lists| :: n in lists[i]
  }

  predicate Linked(s: State, n: nat) {
    Listed(s.waiting, n) || Listed(s.batches, n)
  }

  function Less(q: seq<nat>, n: nat): seq<nat> {
    Without(q, {n})
  }

  function Strip(lists: seq<seq<nat>>, n: nat): (r: seq<seq<nat>>)
    ensures |r| == |lists|
    ensures forall i | 0 <= i < |r| :: r[i] == Less(lists[i], n)
  {
    seq(|lists|, i requires 0 <= i < |lists| => Less(lists[i], n))
  }

  /** Removes the node from the list that it is in. */
  function Unlink(s: State, n: nat): State {
    if !Linked(s, n) then s
    else s.(waiting := Strip(s.waiting, n), batches := Strip(s.batches, n), log := s.log + [Unlinked(n)])
  }

  /** `Agent::WaitEvent`: nothing happens when the event is out of range. */
  function WaitFor(s: State, n: nat, event: nat): State {
    if event >= |s.waiting| then s
    else
      var t := Unlink(s, n);
      t.(waiting := t.waiting[event := t.waiting[event] + [n]], log := t.log + [Waits(n, event)])
  }

  lemma {:induction false} CountUpdated(lists: seq<seq<nat>>, e: nat, q: seq<nat>, n: nat)
    requires e < |lists|
    ensures Count(lists[e := q], n) + multiset(lists[e])[n] == Count(lists, n) + multiset(q)[n]
  {
    if e == 0 {
      assert lists[0 := q][1..] == lists[1..];
    } else {
      CountUpdated(lists[1..], e - 1, q, n);
      assert lists[e := q][1..] == lists[1..][e - 1 := q];
    }
  }

  lemma {:induction false} CountWithLast(lists: seq<seq<nat>>, q: seq<nat>, n: nat)
    ensures Count(lists + [q], n) == Count(lists, n) + multiset(q)[n]
  {
    if lists == [] {
      assert Count([q][1..], n) == 0;
    } else {
      CountWithLast(lists[1..], q, n);
      assert (lists + [q])[1..] == lists[1..] + [q];
    }
  }

  lemma CountFirst(q: seq<nat>, n: nat)
    requires q != []
    ensures multiset(q)[n] == multiset(q[1..])[n] + if n == q[0] then 1 else 0
  {
    assert q == [q[0]] + q[1..];
  }

  lemma CountMore(q: seq<nat>, m: nat, n: nat)
    ensures multiset(q + [m])[n] == multiset(q)[n] + if n == m then 1 else 0
  {
  }

  lemma LessFirst(q: seq<nat>, n: nat)
    requires q != []
    ensures q[0] == n ==> Less(q, n) == Less(q[1..], n)
    ensures q[0] != n ==> Less(q, n) == [q[0]] + Less(q[1..], n) && Less(q, n)[1..] == Less(q[1..], n)
  {
  }

  lemma {:induction false} CountLess(q: seq<nat>, n: nat, m: nat)
    ensures multiset(Less(q, n))[m] == if m == n then 0 else multiset(q)[m]
  {
    if q != [] {
      CountLess(q[1..], n, m);
      CountFirst(q, m);
      LessFirst(q, n);
      hide Less;
      if q[0] != n {
        CountFirst(Less(q, n), m);
      }
    }
  }

  lemma {:induction false} CountStripped(lists: seq<seq<nat>>, n: nat, m: nat)
    ensures Count(Strip(lists, n), m) == if m == n then 0 else Count(lists, m)
  {
    hide Less;
    if lists != [] {
      CountStripped(lists[1..], n, m);
      CountLess(lists[0], n, m);
      assert Strip(lists, n)[1..] == Strip(lists[1..], n);
    }
  }

  lemma {:induction false} CountListed(lists: seq<seq<nat>>, n: nat)
    ensures Count(lists, n) > 0 ==> Listed(lists, n)
  {
    if lists != [] {
      var rest := lists[1..];
      CountListed(rest, n);
      if n in lists[0] {
      } else if Count(rest, n) > 0 {
        var i :| 0 <= i < |rest| && n in rest[i];
        assert n in lists[i + 1];
      }
    }
  }

  lemma {:induction false} CountHas(lists: seq<seq<nat>>, i: nat, n: nat)
    requires i < |lists|
    ensures multiset(lists[i])[n] <= Count(lists, n)
  {
    if i > 0 {
      CountHas(lists[1..], i - 1, n);
    }
  }

  lemma {:induction false} CountedOnce(q: seq<nat>)
    requires forall n: nat :: multiset(q)[n] <= 1
    ensures Distinct(q)
  {
    if q != [] {
      forall n: nat
        ensures multiset(q[1..])[n] + (if n == q[0] then 1 else 0) <= 1
      {
        CountFirst(q, n);
      }
      CountedOnce(q[1..]);
      assert q[0] !in multiset(q[1..]);
    }
  }

  // ----- Nested dispatch

  /** What an act or a run leaves as it was: enclosing runs, and batches except for nodes that
      were unlinked. */
  ghost predicate Steady(s: State, r: State) {
    && |r.cursors| == |s.cursors|
    && (s.cursors != [] ==> r.cursors[..|s.cursors| - 1] == s.cursors[..|s.cursors| - 1])
    && r.frame == s.frame
    && r.current == s.current
    && |r.waiting| == |s.waiting|
    && |r.batches| == |s.batches|
    && s.log <= r.log
    && s.queue <= r.queue
    && (forall i | 0 <= i < |s.batches| :: Shrinks(s.batches[i], r.batches[i]))
    && (forall i, n | 0 <= i < |s.batches| && n in s.batches[i] && n !in r.batches[i] ::
          Unlinked(n) in r.log[|s.log|..])
  }

  /** Nodes are woken while there is an executor left, and lost on the last one; a trigger is
      refused only where the executor stack is deeper than the event frames. */
  predicate Proper(c: Limits, mark: Mark, depth: nat) {
    match mark
    case Woken(_, k) => depth <= k && k + 1 < c.stack
    case Lost(_, k) => depth <= k && k + 1 == c.stack
    case Refused(_, k) => depth <= k && c.frames <= k < c.stack
    case _ => true
  }

  /** Everything that has happened since is proper, at the given depth or deeper. */
  ghost predicate Sound(c: Limits, s: State, r: State, depth: nat) {
    && s.log <= r.log
    && forall i | |s.log| <= i < |r.log| :: Proper(c, r.log[i], depth)
  }

  /** `StackExecutor::RunFlow`: false when the stack is used up. */
  ghost function RunFlow(c: Limits, script: Script, s: State, n: nat): (r: (State, bool))
    requires Apart(s.waiting, s.batches) && 1 <= |s.cursors| <= c.stack && s.frame <= s.Depth() + 1
    ensures Apart(r.0.waiting, r.0.batches) && Steady(s, r.0) && r.0.cursors == s.cursors
    ensures Sound(c, s, r.0, s.Depth() + 1)
    ensures r.1 <==> |s.cursors| < c.stack
    ensures !r.1 ==> r.0 == s
    decreases c.stack - |s.cursors|, 0, 2 * |s.Batch()| + 1
  {
    SteadySame(s);
    if |s.cursors| >= c.stack then (s, false)
    else
      var t := Perform(c, script, s.(cursors := s.cursors + [None]), script(s.log, n));
      (t.(cursors := t.cursors[..|s.cursors|]), true)
  }

  ghost function Perform(c: Limits, script: Script, s: State, acts: seq<Act>): (r: State)
    requires Valid(c, s)
    ensures Valid(c, r) && Steady(s, r) && Sound(c, s, r, s.Depth())
    decreases c.stack - |s.cursors|, 4, |acts|
  {
    SteadySame(s);
    if acts == [] then s
    else
      var t := Serve(c, script, s, acts[0]);
      var r := Perform(c, script, t, acts[1..]);
      SteadyTwice(s, t, r);
      r
  }

  ghost function Serve(c: Limits, script: Script, s: State, act: Act): (r: State)
    requires Valid(c, s)
    ensures Valid(c, r) && Steady(s, r) && Sound(c, s, r, s.Depth())
    decreases c.stack - |s.cursors|, 3, 0
  {
    SteadySame(s);
    match act
    case Enter(n) =>
      s.(cursors := s.cursors[|s.cursors| - 1 := Some(n)])
    case Drop(n) => UnlinkKeeps(s, n); Unlink(s, n)
    case Await(n, e) => WaitKeeps(s, n, e); WaitFor(s, n, e)
    case Trigger(e, immediate) => TriggerOrQueue(c, script, s, e, immediate)
    case Raise(e, immediate) => s.(queue := s.queue + [Queued(e, immediate)])
    case Start(n) => RunOrWait(c, script, s, n, false)
    case Resume(n) => ContinueFlow(c, script, s, n)
  }

  /** `StackExecutor::ContinueFlow` for the owner of a subchart that returns: a node whose run
      started the chart is pushed again there. */
  ghost function ContinueFlow(c: Limits, script: Script, s: State, n: nat): (r: State)
    requires Valid(c, s)
    ensures Valid(c, r) && Steady(s, r) && Sound(c, s, r, s.Depth())
    decreases c.stack - |s.cursors|, 2, 1
  {
    hide Apart, Shrinks, Steady, Continue;
    if |s.cursors| > 1 && s.cursors[|s.cursors| - 2] == Some(n) then
      ContinuedKeeps(s, n, |s.cursors| - 2);
      Continue(s, n, |s.cursors| - 2)
    else RunOrWait(c, script, s, n, true)
  }

  function Continue(s: State, n: nat, depth: nat): State {
    var t := Unlink(s, n);
    t.(log := t.log + [Continued(n, depth)])
  }

  /** `Manager::Event` for an event to be triggered. */
  ghost function TriggerOrQueue(c: Limits, script: Script, s: State, event: nat, immediate: bool): (r: State)
    requires Valid(c, s)
    ensures Valid(c, r) && Steady(s, r) && Sound(c, s, r, s.Depth())
    decreases c.stack - |s.cursors|, 2, 0
  {
    SteadySame(s);
    var (t, done) := TriggerEvent(c, script, s, event);
    if done then t else t.(queue := t.queue + [Queued(event, immediate)], log := t.log + [Refused(event, s.Depth())])
  }

  /** `Agent::StartChart` and `Chart::Return`: a node that cannot be run waits to be
      started. */
  ghost function RunOrWait(c: Limits, script: Script, s: State, n: nat, immediate: bool): (r: State)
    requires Valid(c, s)
    ensures Valid(c, r) && Steady(s, r) && Sound(c, s, r, s.Depth())
    decreases c.stack - |s.cursors|, 2, 0
  {
    var (t, ok) := RunFlow(c, script, s, n);
    if ok then t
    else
      WaitKeeps(s, n, START_EVENT);
      var u := WaitFor(s, n, START_EVENT);
      u.(queue := u.queue + [Queued(START_EVENT, immediate)])
  }

  /** `Manager::TriggerEvent` */
  ghost function TriggerEvent(c: Limits, script: Script, s: State, event: nat): (r: (State, bool))
    requires Valid(c, s)
    ensures Valid(c, r.0) && Steady(s, r.0) && Sound(c, s, r.0, s.Depth()) && r.0.cursors == s.cursors
    ensures !r.1 ==> r.0 == s && c.frames <= s.frame
    decreases c.stack - |s.cursors|, 1, 0
  {
    SteadySame(s);
    if event >= |s.waiting| || s.waiting[event] == [] then (s, true)
    else if s.frame >= c.frames then (s, false)
    else
      SwapKeeps(s, event);
      var t := HandleBatch(c, script, Swapped(s, event).(frame := s.frame + 1));
      EmptyLeaves(t);
      (t.Outer().(frame := s.frame, current := s.current), true)
  }

  /** The list of waiting nodes is taken away as the innermost batch. */
  function Swapped(s: State, event: nat): (r: State)
    requires event < |s.waiting|
    ensures r.Outer() == s.(waiting := s.waiting[event := []], current := Some(event)) && r.Batch() == s.waiting[event]
  {
    s.(batches := s.batches + [s.waiting[event]], waiting := s.waiting[event := []], current := Some(event))
  }

  /** Takes the first node out of the innermost batch. */
  function Popped(c: Limits, s: State): (r: State)
    requires s.Batch() != []
    ensures r.Batch() == s.Batch()[1..] && r.Outer() == s.Outer().(log := r.log)
  {
    var n := s.Batch()[0];
    s.(batches := s.batches[|s.batches| - 1 := s.Batch()[1..]],
    log := s.log + [if |s.cursors| < c.stack then Woken(n, s.Depth()) else Lost(n, s.Depth())])
  }

  /** `Manager::_handleEvent`, which does not look at the verdict of RunFlow. */
  ghost function HandleBatch(c: Limits, script: Script, s: State): (r: State)
    requires Apart(s.waiting, s.batches) && 1 <= |s.cursors| <= c.stack && s.frame <= s.Depth() + 1 && s.batches != []
    ensures Apart(r.waiting, r.batches) && Steady(s.Outer(), r.Outer().(current := s.current)) && r.cursors == s.cursors
    ensures |r.batches| == |s.batches| && r.Batch() == [] && r.current == None
    ensures Sound(c, s, r, s.Depth())
    decreases c.stack - |s.cursors|, 0, 2 * |s.Batch()|
  {
    hide Steady, Shrinks, Apart;
    SteadySame(s.Outer());
    if s.Batch() == [] then s.(current := None)
    else
      PopKeeps(c, s);
      var t := RunFlow(c, script, Popped(c, s), s.Batch()[0]).0;
      TurnIsSteady(c, s, t);
      var r := HandleBatch(c, script, t);
      SteadyTwice(s.Outer(), t.Outer(), r.Outer().(current := s.current));
      r
  }

  // ----- The steps of dispatch

  lemma SteadySame(s: State)
    ensures Steady(s, s)
  {
    forall i | 0 <= i < |s.batches|
      ensures Shrinks(s.batches[i], s.batches[i])
    {
      ShrinksNot(s.batches[i]);
    }
  }

  lemma SteadyTwice(s: State, t: State, r: State)
    requires Steady(s, t) && Steady(t, r)
    ensures Steady(s, r)
  {
    hide Shrinks;
    forall i | 0 <= i < |s.batches|
      ensures Shrinks(s.batches[i], r.batches[i])
    {
      ShrinksTwice(s.batches[i], t.batches[i], r.batches[i]);
    }
    var late, later := t.log[|s.log|..], r.log[|t.log|..];
    assert r.log[|s.log|..] == late + later;
  }

  lemma OuterIsSteady(s: State, r: State)
    requires Steady(s, r) && s.batches != []
    ensures Steady(s.Outer(), r.Outer()) && Shrinks(s.Batch(), r.Batch())
  {
  }

  lemma TurnIsSteady(c: Limits, s: State, t: State)
    requires s.Batch() != [] && Steady(s.Outer(), Popped(c, s).Outer()) && Steady(Popped(c, s), t)
    ensures Steady(s.Outer(), t.Outer()) && t.frame == s.frame && t.current == s.current && |t.batches| == |s.batches|
    ensures |t.Batch()| < |s.Batch()|
  {
    OuterIsSteady(Popped(c, s), t);
    SteadyTwice(s.Outer(), Popped(c, s).Outer(), t.Outer());
    ShrunkIsShorter(Popped(c, s).Batch(), t.Batch());
  }

  lemma UnlinkKeeps(s: State, n: nat)
    requires Apart(s.waiting, s.batches)
    ensures var r := Unlink(s, n);
            && Steady(s, r) && Apart(r.waiting, r.batches) && Count(r.waiting, n) + Count(r.batches, n) == 0
            && r == s.(waiting := r.waiting, batches := r.batches, log := r.log)
    ensures forall i | |s.log| <= i < |Unlink(s, n).log| :: Unlink(s, n).log[i] == Unlinked(n)
  {
    CountListed(s.waiting, n);
    CountListed(s.batches, n);
    SteadySame(s);
    hide Shrinks, Listed;
    if Linked(s, n) {
      UnlinkKeepsApart(s, n);
      UnlinkIsSteady(s, n);
      hide Steady;
    }
  }

  lemma ContinuedKeeps(s: State, n: nat, depth: nat)
    requires Apart(s.waiting, s.batches)
    ensures var r := Continue(s, n, depth);
            && Steady(s, r) && Apart(r.waiting, r.batches)
            && r == s.(waiting := r.waiting, batches := r.batches, log := r.log)
            && s.log <= r.log
            && forall i | |s.log| <= i < |r.log| :: r.log[i] == Unlinked(n) || r.log[i] == Continued(n, depth)
  {
    UnlinkKeeps(s, n);
    hide Unlink, Apart, Shrinks;
    var t, r := Unlink(s, n), Continue(s, n, depth);
    SteadySame(t);
    assert Steady(t, r);
    SteadyTwice(s, t, r);
    hide Steady;
  }

  lemma UnlinkKeepsApart(s: State, n: nat)
    requires Apart(s.waiting, s.batches) && Linked(s, n)
    ensures var r := Unlink(s, n); Apart(r.waiting, r.batches) && Count(r.waiting, n) + Count(r.batches, n) == 0
  {
    var r := Unlink(s, n);
    hide Listed;
    forall m: nat
      ensures Count(r.waiting, m) + Count(r.batches, m) == if m == n then 0 else Count(s.waiting, m) + Count(s.batches, m)
    {
      CountStripped(s.waiting, n, m);
      CountStripped(s.batches, n, m);
    }
  }

  lemma UnlinkIsSteady(s: State, n: nat)
    requires Linked(s, n)
    ensures Steady(s, Unlink(s, n))
  {
    var r := Unlink(s, n);
    forall i | 0 <= i < |s.batches|
      ensures Shrinks(s.batches[i], r.batches[i])
    {
      ShrinksBy(s.batches[i], {n});
    }
    hide Shrinks, Listed;
    assert r.log[|s.log|..] == [Unlinked(n)];
    assert Unlinked(n) in [Unlinked(n)];
  }

  lemma WaitKeeps(s: State, n: nat, event: nat)
    requires Apart(s.waiting, s.batches)
    ensures var r := WaitFor(s, n, event);
            && Steady(s, r) && Apart(r.waiting, r.batches)
            && r == s.(waiting := r.waiting, batches := r.batches, log := r.log)
            && forall i | |s.log| <= i < |r.log| :: r.log[i] == Unlinked(n) || r.log[i] == Waits(n, event)
  {
    UnlinkKeeps(s, n);
    SteadySame(s);
    if event < |s.waiting| {
      hide Unlink, Shrinks, Listed, Apart;
      var t, r := Unlink(s, n), WaitFor(s, n, event);
      PuttingKeepsApart(t, n, event);
      SteadySame(t);
      assert Steady(t, r);
      SteadyTwice(s, t, r);
      hide Steady;
    }
  }

  lemma PuttingKeepsApart(s: State, n: nat, event: nat)
    requires Apart(s.waiting, s.batches) && Count(s.waiting, n) + Count(s.batches, n) == 0 && event < |s.waiting|
    ensures Apart(s.waiting[event := s.waiting[event] + [n]], s.batches)
  {
    var waiting := s.waiting[event := s.waiting[event] + [n]];
    forall m: nat
      ensures Count(waiting, m) == Count(s.waiting, m) + if m == n then 1 else 0
    {
      CountUpdated(s.waiting, event, s.waiting[event] + [n], m);
      CountMore(s.waiting[event], n, m);
    }
  }

  lemma SwapKeeps(s: State, event: nat)
    requires Apart(s.waiting, s.batches) && event < |s.waiting|
    ensures var r := Swapped(s, event); Apart(r.waiting, r.batches)
  {
    var r := Swapped(s, event);
    forall n: nat
      ensures Count(r.waiting, n) + Count(r.batches, n) == Count(s.waiting, n) + Count(s.batches, n)
    {
      CountUpdated(s.waiting, event, [], n);
      CountWithLast(s.batches, s.waiting[event], n);
    }
  }

  lemma EmptyLeaves(s: State)
    requires Apart(s.waiting, s.batches) && s.batches != [] && s.Batch() == []
    ensures Apart(s.Outer().waiting, s.Outer().batches)
  {
    assert s.batches == s.Outer().batches + [[]];
    forall n: nat
      ensures Count(s.Outer().batches, n) == Count(s.batches, n)
    {
      CountWithLast(s.Outer().batches, [], n);
    }
  }

  lemma PopKeeps(c: Limits, s: State)
    requires Apart(s.waiting, s.batches) && s.Batch() != []
    ensures var r := Popped(c, s); Apart(r.waiting, r.batches) && Steady(s.Outer(), r.Outer())
  {
    var q, r := s.Batch(), Popped(c, s);
    SteadySame(s.Outer());
    hide Shrinks;
    forall n: nat
      ensures Count(r.batches, n) <= Count(s.batches, n)
    {
      CountUpdated(s.batches, |s.batches| - 1, q[1..], n);
      CountFirst(q, n);
    }
  }

  // ----- What a dispatch does with its batch

  /** The nodes popped from batches at one depth. */
  function Taken(log: seq<Mark>, depth: nat): seq<nat> {
    if log == [] then [] else TakenBy(log[0], depth) + Taken(log[1..], depth)
  }

  function TakenBy(mark: Mark, depth: nat): seq<nat> {
    if (mark.Woken? || mark.Lost?) && mark.depth == depth then [mark.node] else []
  }

  lemma {:induction false} TakenSplits(a: seq<Mark>, b: seq<Mark>, depth: nat)
    ensures Taken(a + b, depth) == Taken(a, depth) + Taken(b, depth)
  {
    hide TakenBy;
    if a == [] {
      assert a + b == b;
    } else {
      TakenSplits(a[1..], b, depth);
      assert (a + b)[1..] == a[1..] + b && (a + b)[0] == a[0];
    }
  }

  lemma {:induction false} DeeperIsNotTaken(c: Limits, log: seq<Mark>, depth: nat)
    requires forall i | 0 <= i < |log| :: Proper(c, log[i], depth + 1)
    ensures Taken(log, depth) == []
  {
    if log != [] {
      assert Proper(c, log[0], depth + 1);
      DeeperIsNotTaken(c, log[1..], depth);
    }
  }

  /** Nodes of a list that are not taken were unlinked. */
  ghost predicate Accounted(list: seq<nat>, log: seq<Mark>, depth: nat) {
    && Shrinks(list, Taken(log, depth))
    && (list != [] ==> Taken(log, depth) != [] && Taken(log, depth)[0] == list[0])
    && forall n | n in list && n !in Taken(log, depth) :: Unlinked(n) in log
  }

  lemma {:induction false} BatchIsTaken(c: Limits, script: Script, s: State)
    requires Apart(s.waiting, s.batches) && 1 <= |s.cursors| <= c.stack && s.frame <= s.Depth() + 1 && s.batches != []
    ensures Accounted(s.Batch(), HandleBatch(c, script, s).log[|s.log|..], s.Depth())
    decreases |s.Batch()|
  {
    var r, d := HandleBatch(c, script, s), s.Depth();
    if s.Batch() == [] {
      ShrinksNot([]);
      assert r.log[|s.log|..] == [];
    } else {
      PopKeeps(c, s);
      var p, n := Popped(c, s), s.Batch()[0];
      var t := RunFlow(c, script, p, n).0;
      OuterIsSteady(p, t);
      ShrunkIsShorter(p.Batch(), t.Batch());
      BatchIsTaken(c, script, t);
      FirstIsNotBehindIt(s);
      assert r == HandleBatch(c, script, t);
      StretchesJoin(c, s, p, t, r);
      OneMoreAccounted(c, s, p, t, r);
    }
  }

  /** What is new in the log comes from popping, from the run of the node, and from the rest
      of the batch. */
  lemma StretchesJoin(c: Limits, s: State, p: State, t: State, r: State)
    requires s.Batch() != [] && p == Popped(c, s) && p.log <= t.log <= r.log
    ensures r.log[|s.log|..] == p.log[|s.log|..] + t.log[|p.log|..] + r.log[|t.log|..]
    ensures Taken(p.log[|s.log|..], s.Depth()) == [s.Batch()[0]]
  {
    var first := p.log[|s.log|..];
    assert |first| == 1 && Taken(first[1..], s.Depth()) == [];
  }

  lemma FirstIsNotBehindIt(s: State)
    requires Apart(s.waiting, s.batches) && s.Batch() != []
    ensures s.Batch()[0] !in s.Batch()[1..]
  {
    BatchIsDistinct(s.waiting, s.batches, |s.batches| - 1);
    assert s.Batch() == [s.Batch()[0]] + s.Batch()[1..];
  }

  lemma BatchIsDistinct(waiting: seq<seq<nat>>, batches: seq<seq<nat>>, i: nat)
    requires Apart(waiting, batches) && i < |batches|
    ensures Distinct(batches[i])
  {
    forall n: nat
      ensures multiset(batches[i])[n] <= 1
    {
      CountHas(batches, i, n);
      assert Count(waiting, n) + Count(batches, n) <= 1;
    }
    CountedOnce(batches[i]);
  }

  lemma OneMoreTaken(c: Limits, s: State, p: State, t: State, r: State)
    requires s.Batch() != [] && p == Popped(c, s)
    requires p.log <= t.log <= r.log && Sound(c, p, t, s.Depth() + 1)
    ensures Taken(r.log[|s.log|..], s.Depth()) == [s.Batch()[0]] + Taken(r.log[|t.log|..], s.Depth())
  {
    var d := s.Depth();
    var first, run, rest := p.log[|s.log|..], t.log[|p.log|..], r.log[|t.log|..];
    StretchesJoin(c, s, p, t, r);
    hide Taken, Popped;
    TakenSplits(first + run, rest, d);
    TakenSplits(first, run, d);
    DeeperIsNotTaken(c, run, d);
  }

  lemma OneMoreAccounted(c: Limits, s: State, p: State, t: State, r: State)
    requires s.Batch() != [] && p == Popped(c, s) && s.Batch()[0] !in s.Batch()[1..]
    requires p.log <= t.log <= r.log && Sound(c, p, t, s.Depth() + 1)
    requires Shrinks(p.Batch(), t.Batch())
    requires forall n | n in p.Batch() && n !in t.Batch() :: Unlinked(n) in t.log[|p.log|..]
    requires Accounted(t.Batch(), r.log[|t.log|..], s.Depth())
    ensures Accounted(s.Batch(), r.log[|s.log|..], s.Depth())
  {
    var n, later := s.Batch()[0], Taken(r.log[|t.log|..], s.Depth());
    OneMoreTaken(c, s, p, t, r);
    hide Taken, Sound;
    ShrinksTwice(p.Batch(), t.Batch(), later);
    ShrinksBehind(n, p.Batch(), later);
    assert s.Batch() == [n] + p.Batch();
    StretchesJoin(c, s, p, t, r);
    hide Shrinks, Popped;
    forall m | m in s.Batch() && m !in [n] + later
      ensures Unlinked(m) in r.log[|s.log|..]
    {
      assert m in p.Batch();
    }
  }

  // ----- Main results

  /** A trigger that is not refused takes the nodes that waited when it came, each at most
      once, in waiting order, the first one always; the others only fail to be taken when they
      were unlinked meanwhile. They are woken while an executor is left, and lost on the last
      one. The current event, the frames and the executors in use are afterwards what they
      were, whatever was triggered and run inside. */
  lemma TriggersNest(c: Limits, script: Script, s: State, event: nat)
    requires Valid(c, s) && event < |s.waiting| && s.frame < c.frames
    ensures var (r, done) := TriggerEvent(c, script, s, event);
            var late := r.log[|s.log|..];
            && done
            && r.current == s.current && r.frame == s.frame && r.cursors == s.cursors
            && Accounted(s.waiting[event], late, s.Depth())
            && Distinct(Taken(late, s.Depth()))
            && (forall n | Woken(n, s.Depth()) in late :: |s.cursors| < c.stack)
            && (forall n | Lost(n, s.Depth()) in late :: |s.cursors| == c.stack)
  {
    hide TriggerEvent, Taken, Apart, Shrinks;
    TriggerAccounts(c, script, s, event);
    ListIsDistinct(s, event);
    var r := TriggerEvent(c, script, s, event).0;
    LateIsProper(c, s, r);
    ShrunkIsDistinct(s.waiting[event], Taken(r.log[|s.log|..], s.Depth()));
    hide Sound, Distinct, Steady;
  }

  lemma TriggerAccounts(c: Limits, script: Script, s: State, event: nat)
    requires Valid(c, s) && event < |s.waiting| && s.frame < c.frames
    ensures Accounted(s.waiting[event], TriggerEvent(c, script, s, event).0.log[|s.log|..], s.Depth())
    ensures TriggerEvent(c, script, s, event).1
  {
    hide Steady, Sound, Shrinks, Apart;
    if s.waiting[event] == [] {
      ShrinksNot([]);
      assert s.log[|s.log|..] == [];
    } else {
      SwapKeeps(s, event);
      BatchIsTaken(c, script, Swapped(s, event).(frame := s.frame + 1));
    }
  }

  lemma LateIsProper(c: Limits, s: State, r: State)
    requires Sound(c, s, r, s.Depth())
    ensures forall mark | mark in r.log[|s.log|..] :: Proper(c, mark, s.Depth())
  {
    forall mark | mark in r.log[|s.log|..]
      ensures Proper(c, mark, s.Depth())
    {
      var i :| 0 <= i < |r.log| - |s.log| && r.log[|s.log|..][i] == mark;
      assert r.log[|s.log| + i] == mark;
    }
  }

  lemma ListIsDistinct(s: State, event: nat)
    requires Apart(s.waiting, s.batches) && event < |s.waiting|
    ensures Distinct(s.waiting[event])
  {
    forall n: nat
      ensures multiset(s.waiting[event])[n] <= 1
    {
      CountHas(s.waiting, event, n);
      assert Count(s.waiting, n) + Count(s.batches, n) <= 1;
    }
    CountedOnce(s.waiting[event]);
  }

  function Losses(list: seq<nat>, depth: nat): seq<Mark> {
    seq(|list|, i requires 0 <= i < |list| => Lost(list[i], depth))
  }

  /** On the last executor a trigger is reported as dispatched, and its event is not queued;
      yet no node runs, and all that waited have left their list. */
  lemma LastExecutorLosesAll(c: Limits, script: Script, s: State, event: nat)
    requires Valid(c, s) && event < |s.waiting| && s.frame < c.frames && |s.cursors| == c.stack
    ensures TriggerEvent(c, script, s, event) ==
            (s.(waiting := s.waiting[event := []], log := s.log + Losses(s.waiting[event], s.Depth())), true)
  {
    if s.waiting[event] == [] {
      hide Steady, Sound, Shrinks, Apart;
      assert s.waiting[event := []] == s.waiting && s.log + Losses([], s.Depth()) == s.log;
    } else {
      SwapKeeps(s, event);
      BatchIsLost(c, script, Swapped(s, event).(frame := s.frame + 1));
      SpoiltSwap(s, event);
      hide HandleBatch, Steady, Sound, Shrinks, Apart, Swapped, Spoilt;
    }
  }

  lemma SpoiltSwap(s: State, event: nat)
    requires event < |s.waiting|
    ensures Spoilt(Swapped(s, event).(frame := s.frame + 1)).Outer().(frame := s.frame, current := s.current) ==
            s.(waiting := s.waiting[event := []], log := s.log + Losses(s.waiting[event], s.Depth()))
  {
    var t := Swapped(s, event);
    assert t.batches[|s.batches| := []][..|s.batches|] == s.batches;
  }

  lemma {:induction false} BatchIsLost(c: Limits, script: Script, s: State)
    requires Apart(s.waiting, s.batches) && 1 <= |s.cursors| == c.stack && s.frame <= s.Depth() + 1 && s.batches != []
    ensures HandleBatch(c, script, s) == Spoilt(s)
    decreases |s.Batch()|
  {
    if s.Batch() == [] {
      hide Steady, Sound, Shrinks, Apart;
      assert s.batches[|s.batches| - 1 := []] == s.batches;
      assert s.log + Losses([], s.Depth()) == s.log;
    } else {
      PopKeeps(c, s);
      OneIsLost(c, script, s);
      BatchIsLost(c, script, Popped(c, s));
      hide HandleBatch, Steady, Sound, Shrinks, Apart;
      SpoiltByOne(c, s);
    }
  }

  function Spoilt(s: State): State
    requires s.batches != []
  {
    s.(batches := s.batches[|s.batches| - 1 := []], log := s.log + Losses(s.Batch(), s.Depth()), current := None)
  }

  lemma SpoiltByOne(c: Limits, s: State)
    requires s.Batch() != [] && |s.cursors| == c.stack
    ensures Spoilt(Popped(c, s)) == Spoilt(s)
  {
    var p := Popped(c, s);
    assert p.log + Losses(p.Batch(), s.Depth()) == s.log + Losses(s.Batch(), s.Depth());
    assert p.batches[|s.batches| - 1 := []] == s.batches[|s.batches| - 1 := []];
  }

  /** One turn of the loop over a batch. */
  lemma WakingShortens(c: Limits, script: Script, s: State)
    requires Apart(s.waiting, s.batches) && 1 <= |s.cursors| <= c.stack && s.frame <= s.Depth() + 1 && s.Batch() != []
    ensures var p := Popped(c, s);
            && Apart(p.waiting, p.batches)
            && var t := RunFlow(c, script, p, s.Batch()[0]).0;
               && |t.batches| == |s.batches| && |t.Batch()| < |s.Batch()|
               && HandleBatch(c, script, s) == HandleBatch(c, script, t)
  {
    PopKeeps(c, s);
    var p := Popped(c, s);
    var t := RunFlow(c, script, p, s.Batch()[0]).0;
    OuterIsSteady(p, t);
    ShrunkIsShorter(p.Batch(), t.Batch());
  }

  lemma OneIsLost(c: Limits, script: Script, s: State)
    requires Apart(s.waiting, s.batches) && 1 <= |s.cursors| == c.stack && s.frame <= s.Depth() + 1 && s.batches != []
    requires s.Batch() != []
    ensures var p := Popped(c, s);
            Apart(p.waiting, p.batches) && HandleBatch(c, script, s) == HandleBatch(c, script, p)
  {
    PopKeeps(c, s);
    var p, n := Popped(c, s), s.Batch()[0];
    hide Steady, Sound, Shrinks, Apart, Popped;
    assert RunFlow(c, script, p, n) == (p, false);
    hide RunFlow;
  }

  // ----- Whole runs

  /** What the manager does between runs: what scripts ask for from outside, events from the
      queue, and nodes woken by timers and asynchronous calls. */
  datatype Call = Ask(act: Act) | Handle(event: nat) | Wake(node: nat)

  function Begin(events: nat): State {
    State.State(seq(events, _ => []), [], [None], 0, None, [], [])
  }

  /** `Manager::HandleEvent` */
  ghost function HandleEvent(c: Limits, script: Script, s: State, event: nat): (r: State)
    requires Valid(c, s)
    ensures Valid(c, r) && Sound(c, s, r, s.Depth()) && r.cursors == s.cursors && r.frame == s.frame
    ensures event < |s.waiting| && s.waiting[event] != [] ==> r.current == None
  {
    if event >= |s.waiting| || s.waiting[event] == [] then s
    else
      SwapKeeps(s, event);
      var t := HandleBatch(c, script, Swapped(s, event));
      EmptyLeaves(t);
      t.Outer()
  }

  ghost function Serviced(c: Limits, script: Script, s: State, call: Call): (r: State)
    requires Valid(c, s)
    ensures Valid(c, r) && Sound(c, s, r, s.Depth()) && |r.cursors| == |s.cursors| && r.frame == s.frame
    ensures s.current == None ==> r.current == None
  {
    match call
    case Ask(act) => Serve(c, script, s, act)
    case Handle(event) => HandleEvent(c, script, s, event)
    case Wake(n) => RunFlow(c, script, s, n).0
  }

  ghost function ServicedAll(c: Limits, script: Script, s: State, calls: seq<Call>): (r: State)
    requires Valid(c, s)
    ensures Valid(c, r) && Sound(c, s, r, s.Depth()) && |r.cursors| == |s.cursors| && r.frame == s.frame
    ensures s.current == None ==> r.current == None
    decreases |calls|
  {
    if calls == [] then s else ServicedAll(c, script, Serviced(c, script, s, calls[0]), calls[1..])
  }

  lemma {:induction false} NothingIsLinked(events: nat, n: nat)
    ensures Count(Begin(events).waiting, n) == 0
  {
    if events > 0 {
      NothingIsLinked(events - 1, n);
      assert Begin(events).waiting[1..] == Begin(events - 1).waiting;
    }
  }

  /** With the limits of the engine, whatever the scripts do: between calls no frame and no
      executor is left in use and no event current; no node is ever linked twice; the guard on
      event frames never refuses a trigger, since the executor stack is used up first; and
      nodes are lost only by events triggered on the last executor. */
  lemma FramesAreNeverRefused(script: Script, events: nat, calls: seq<Call>)
    ensures Valid(LIMITS, Begin(events))
    ensures var r := ServicedAll(LIMITS, script, Begin(events), calls);
            && Apart(r.waiting, r.batches) && r.frame == 0 && |r.cursors| == 1 && r.current == None
            && (forall i | 0 <= i < |r.log| :: !r.log[i].Refused?)
            && (forall i | 0 <= i < |r.log| && r.log[i].Lost? :: r.log[i].depth == LIMITS.stack - 1)
  {
    var s := Begin(events);
    forall n: nat
      ensures Count(s.waiting, n) + Count(s.batches, n) <= 1
    {
      NothingIsLinked(events, n);
    }
    var r := ServicedAll(LIMITS, script, s, calls);
    forall i | 0 <= i < |r.log|
      ensures !r.log[i].Refused? && (r.log[i].Lost? ==> r.log[i].depth == LIMITS.stack - 1)
    {
      assert Proper(LIMITS, r.log[i], 0);
    }
  }

  // ----- Nodes can be lost

  ghost predicate HasLoss(log: seq<Mark>) {
    exists i | 0 <= i < |log| :: log[i].Lost?
  }

  /** Every node starts a chart and then triggers the start event. */
  const CHAIN: Script := (log: seq<Mark>, n: nat) => [Start(n + 1), Trigger(START_EVENT, false)]

  lemma LossStays(s: State, r: State)
    requires HasLoss(s.log) && s.log <= r.log
    ensures HasLoss(r.log)
  {
    var i :| 0 <= i < |s.log| && s.log[i].Lost?;
    assert r.log[i].Lost?;
  }

  lemma RunsBoth(c: Limits, s: State, a: Act, b: Act)
    requires Valid(c, s)
    ensures Perform(c, CHAIN, s, [a, b]) == Serve(c, CHAIN, Serve(c, CHAIN, s, a), b)
  {
    hide Serve, Apart, Steady, Sound;
    var t := Serve(c, CHAIN, s, a);
    assert [a, b][1..] == [b] && [b][1..] == [];
    assert Perform(c, CHAIN, t, [b]) == Serve(c, CHAIN, t, b);
  }

  lemma StartWaits(c: Limits, s: State, n: nat)
    requires Valid(c, s) && |s.cursors| == c.stack && |s.waiting| > START_EVENT
    ensures var t := Serve(c, CHAIN, s, Start(n));
            |t.cursors| == c.stack && t.frame == s.frame && |t.waiting| == |s.waiting| && t.waiting[START_EVENT] != []
  {
    assert RunFlow(c, CHAIN, s, n) == (s, false);
    hide RunFlow, Apart, Unlink;
    assert |Unlink(s, n).waiting| == |s.waiting|;
  }

  lemma StartRuns(c: Limits, s: State, n: nat)
    requires Valid(c, s) && |s.cursors| < c.stack
    ensures Serve(c, CHAIN, s, Start(n)) == RunFlow(c, CHAIN, s, n).0
  {
    hide RunFlow, Apart, Steady, Sound;
  }

  lemma TriggerIsServed(c: Limits, s: State, event: nat)
    requires Valid(c, s) && s.frame < c.frames
    ensures Serve(c, CHAIN, s, Trigger(event, false)) == TriggerEvent(c, CHAIN, s, event).0
  {
    hide TriggerEvent, Apart, Steady, Sound;
  }

  /** On the last executor the chart that cannot be started waits, and is lost. */
  lemma LosesStart(c: Limits, s: State, n: nat)
    requires Valid(c, s) && |s.cursors| == c.stack && |s.waiting| > START_EVENT && s.frame < c.frames
    ensures HasLoss(Serve(c, CHAIN, Serve(c, CHAIN, s, Start(n)), Trigger(START_EVENT, false)).log)
  {
    StartWaits(c, s, n);
    var t := Serve(c, CHAIN, s, Start(n));
    LastExecutorLosesAll(c, CHAIN, t, START_EVENT);
    TriggerIsServed(c, t, START_EVENT);
    hide *;
    LossesAreLost(t.log, t.waiting[START_EVENT], t.Depth());
  }

  lemma LossesAreLost(log: seq<Mark>, list: seq<nat>, depth: nat)
    requires list != []
    ensures HasLoss(log + Losses(list, depth))
  {
    assert (log + Losses(list, depth))[|log|].Lost?;
  }

  lemma {:induction false} ChainLoses(c: Limits, s: State, n: nat)
    requires Valid(c, s) && |s.cursors| < c.stack && |s.waiting| > START_EVENT && s.frame < c.frames
    ensures HasLoss(RunFlow(c, CHAIN, s, n).0.log)
    decreases c.stack - |s.cursors|
  {
    hide Apart, Serve;
    var u := s.(cursors := s.cursors + [None]);
    RunsBoth(c, u, Start(n + 1), Trigger(START_EVENT, false));
    if |u.cursors| == c.stack {
      LosesStart(c, u, n + 1);
    } else {
      ChainLoses(c, u, n + 1);
      StartRuns(c, u, n + 1);
      var t := Serve(c, CHAIN, u, Start(n + 1));
      LossStays(t, Serve(c, CHAIN, t, Trigger(START_EVENT, false)));
    }
  }

  /** With the limits of the engine there are scripts and a call after which a node has been
      taken from its list and was not run. */
  lemma NodesCanBeLost(events: nat)
    requires events > START_EVENT
    ensures Valid(LIMITS, Begin(events)) && HasLoss(ServicedAll(LIMITS, CHAIN, Begin(events), [Wake(0)]).log)
  {
    FramesAreNeverRefused(CHAIN, events, []);
    var s := Begin(events);
    ChainLoses(LIMITS, s, 0);
    assert [Wake(0)][1..] == [];
    hide RunFlow;
    assert ServicedAll(LIMITS, CHAIN, s, [Wake(0)]) == Serviced(LIMITS, CHAIN, s, Wake(0));
  }
}
