/** Which nodes wait while events are dispatched within each other: exactly those that began
    to wait and have not been unlinked, woken or lost since. */
module NestedWaiting {
  import FlowDispatch
  import opened NestedEvents
  import opened Wrappers

  predicate Leaves(mark: Mark, n: nat) {
    (mark.Unlinked? || mark.Woken? || mark.Lost?) && mark.node == n
  }

  predicate WaitsAfter(mark: Mark, n: nat, event: nat, before: bool) {
    if mark.Waits? && mark.node == n then mark.event == event else !Leaves(mark, n) && before
  }

  /** Whether a node waits for an event after what has happened, if it did or did not before. */
  predicate Waiting(log: seq<Mark>, n: nat, event: nat, before: bool) {
    if log == [] then before
    else
      WaitsAfter(log[|log| - 1], n, event, Waiting(log[..|log| - 1], n, event, before))
  }

  /** The waiting lists have in them what the log says since. */
  ghost predicate Tracks(s: State, r: State) {
    && s.log <= r.log
    && |r.waiting| == |s.waiting|
    && forall e: nat, n: nat | e < |s.waiting| ::
         n in r.waiting[e] <==> Waiting(r.log[|s.log|..], n, e, n in s.waiting[e])
  }

  lemma {:induction false} WaitingSplits(a: seq<Mark>, b: seq<Mark>, n: nat, event: nat, before: bool)
    ensures Waiting(a + b, n, event, before) == Waiting(b, n, event, Waiting(a, n, event, before))
    decreases |b|
  {
    if b == [] {
      assert a + b == a;
    } else {
      var rest := b[..|b| - 1];
      WaitingSplits(a, rest, n, event, before);
      assert (a + b)[..|a + b| - 1] == a + rest;
      assert (a + b)[|a + b| - 1] == b[|b| - 1];
    }
  }

  lemma WaitingAfterOne(mark: Mark, n: nat, event: nat, before: bool)
    ensures Waiting([mark], n, event, before) == WaitsAfter(mark, n, event, before)
  {
    assert [mark][..0] == [];
  }

  /** A node that has left its list meanwhile waits by what happened after that. */
  lemma {:induction false} LeavingForgets(log: seq<Mark>, i: nat, n: nat, event: nat)
    requires i < |log| && Leaves(log[i], n)
    ensures Waiting(log, n, event, true) == Waiting(log, n, event, false)
    decreases |log|
  {
    if i < |log| - 1 {
      LeavingForgets(log[..|log| - 1], i, n, event);
    }
  }

  lemma TracksSame(s: State)
    ensures Tracks(s, s)
  {
    assert s.log[|s.log|..] == [];
  }

  lemma TracksTwice(s: State, t: State, r: State)
    requires Tracks(s, t) && Tracks(t, r)
    ensures Tracks(s, r)
  {
    var a, b := t.log[|s.log|..], r.log[|t.log|..];
    assert r.log[|s.log|..] == a + b;
    forall e: nat, n: nat | e < |s.waiting|
      ensures n in r.waiting[e] <==> Waiting(a + b, n, e, n in s.waiting[e])
    {
      WaitingSplits(a, b, n, e, n in s.waiting[e]);
      assert n in t.waiting[e] <==> Waiting(a, n, e, n in s.waiting[e]);
    }
  }

  /** Nothing but lists and log matters. */
  lemma TracksAlike(s: State, s': State, r: State, r': State)
    requires Tracks(s, r)
    requires s'.waiting == s.waiting && s'.log == s.log && r'.waiting == r.waiting && r'.log == r.log
    ensures Tracks(s', r')
  {
  }

  /** One mark that takes a node out of all lists. */
  lemma TracksOneMark(s: State, r: State, mark: Mark)
    requires r.log == s.log + [mark] && |r.waiting| == |s.waiting|
    requires forall e: nat, n: nat | e < |s.waiting| ::
               n in r.waiting[e] <==> WaitsAfter(mark, n, e, n in s.waiting[e])
    ensures Tracks(s, r)
  {
    assert r.log[|s.log|..] == [mark];
    forall e: nat, n: nat | e < |s.waiting|
      ensures n in r.waiting[e] <==> Waiting(r.log[|s.log|..], n, e, n in s.waiting[e])
    {
      WaitingAfterOne(mark, n, e, n in s.waiting[e]);
    }
  }

  // ----- Steps

  lemma InLess(q: seq<nat>, n: nat, m: nat)
    ensures m in Less(q, n) <==> m in q && m != n
  {
    CountLess(q, n, m);
    assert m in multiset(Less(q, n)) <==> m in multiset(q) && m != n;
  }

  lemma UnlinkTracks(s: State, n: nat)
    ensures Tracks(s, Unlink(s, n))
    ensures forall e | 0 <= e < |s.waiting| :: n !in Unlink(s, n).waiting[e]
  {
    hide Less;
    var r := Unlink(s, n);
    if Linked(s, n) {
      forall e: nat, m: nat | e < |s.waiting|
        ensures m in r.waiting[e] <==> m in s.waiting[e] && m != n
      {
        InLess(s.waiting[e], n, m);
      }
      TracksOneMark(s, r, Unlinked(n));
    } else {
      TracksSame(s);
    }
  }

  lemma WaitForTracks(s: State, n: nat, event: nat)
    ensures Tracks(s, WaitFor(s, n, event))
  {
    if event < |s.waiting| {
      UnlinkTracks(s, n);
      hide Unlink;
      var t, r := Unlink(s, n), WaitFor(s, n, event);
      TracksOneMark(t, r, Waits(n, event));
      TracksTwice(s, t, r);
    } else {
      TracksSame(s);
    }
  }

  lemma ContinuedTracks(s: State, n: nat, depth: nat)
    ensures Tracks(s, Continue(s, n, depth))
  {
    UnlinkTracks(s, n);
    hide Unlink;
    var t, r := Unlink(s, n), Continue(s, n, depth);
    TracksOneMark(t, r, Continued(n, depth));
    TracksTwice(s, t, r);
  }

  lemma BatchedDoesNotWait(s: State, n: nat, e: nat)
    requires Apart(s.waiting, s.batches) && n in s.Batch() && e < |s.waiting|
    ensures n !in s.waiting[e]
  {
    CountHas(s.batches, |s.batches| - 1, n);
    CountHas(s.waiting, e, n);
    assert Count(s.waiting, n) + Count(s.batches, n) <= 1;
    assert multiset(s.Batch())[n] > 0;
    assert n in s.waiting[e] <==> multiset(s.waiting[e])[n] > 0;
  }

  lemma PoppedTracks(c: Limits, s: State)
    requires Apart(s.waiting, s.batches) && s.Batch() != []
    ensures Tracks(s, Popped(c, s))
  {
    hide Apart;
    var n, r := s.Batch()[0], Popped(c, s);
    assert n in s.Batch();
    forall e: nat, m: nat | e < |s.waiting|
      ensures m in r.waiting[e] <==> m in s.waiting[e] && m != n
    {
      BatchedDoesNotWait(s, n, e);
    }
    TracksOneMark(s, r, r.log[|s.log|]);
  }

  lemma {:induction false} TakenLeave(log: seq<Mark>, n: nat, depth: nat) returns (i: nat)
    requires n in Taken(log, depth)
    ensures i < |log| && Leaves(log[i], n)
  {
    if n in TakenBy(log[0], depth) {
      i := 0;
    } else {
      i := TakenLeave(log[1..], n, depth);
      i := i + 1;
    }
  }

  lemma AccountedLeave(list: seq<nat>, log: seq<Mark>, depth: nat, n: nat) returns (i: nat)
    requires Accounted(list, log, depth) && n in list
    ensures i < |log| && Leaves(log[i], n)
  {
    hide FlowDispatch.Shrinks;
    if n in Taken(log, depth) {
      i := TakenLeave(log, n, depth);
    } else {
      i :| 0 <= i < |log| && log[i] == Unlinked(n);
    }
  }

  /** The nodes of a list that is swapped away have all left it when it is dispatched. */
  lemma SwapTracks(s: State, p: State, r: State, event: nat, depth: nat)
    requires event < |s.waiting| && p.waiting == s.waiting[event := []] && p.log == s.log && Tracks(p, r)
    requires Accounted(s.waiting[event], r.log[|s.log|..], depth)
    ensures Tracks(s, r)
  {
    var late := r.log[|s.log|..];
    hide Accounted;
    forall e: nat, n: nat | e < |s.waiting|
      ensures n in r.waiting[e] <==> Waiting(late, n, e, n in s.waiting[e])
    {
      assert n in r.waiting[e] <==> Waiting(late, n, e, n in p.waiting[e]);
      if e == event && n in s.waiting[event] {
        var i := AccountedLeave(s.waiting[event], late, depth, n);
        LeavingForgets(late, i, n, event);
      }
    }
  }

  // ----- Runs and dispatches

  lemma SteadySizes(s: State, r: State)
    requires Steady(s, r)
    ensures |r.cursors| == |s.cursors| && r.frame == s.frame && |r.batches| == |s.batches|
  {
  }

  lemma {:induction false} RunTracks(c: Limits, script: Script, s: State, n: nat)
    requires Apart(s.waiting, s.batches) && 1 <= |s.cursors| <= c.stack && s.frame <= s.Depth() + 1
    ensures Tracks(s, RunFlow(c, script, s, n).0)
    decreases c.stack - |s.cursors|, 0, 2 * |s.Batch()| + 1
  {
    hide Apart, Steady, Sound, Tracks;
    if |s.cursors| >= c.stack {
      TracksSame(s);
    } else {
      var u := s.(cursors := s.cursors + [None]);
      PerformTracks(c, script, u, script(s.log, n));
      TracksAlike(u, s, Perform(c, script, u, script(s.log, n)), RunFlow(c, script, s, n).0);
    }
  }

  lemma {:induction false} PerformTracks(c: Limits, script: Script, s: State, acts: seq<Act>)
    requires Valid(c, s)
    ensures Tracks(s, Perform(c, script, s, acts))
    decreases c.stack - |s.cursors|, 4, |acts|
  {
    hide Apart, Steady, Sound, Tracks;
    if acts == [] {
      TracksSame(s);
    } else {
      ServeTracks(c, script, s, acts[0]);
      var t := Serve(c, script, s, acts[0]);
      SteadySizes(s, t);
      PerformTracks(c, script, t, acts[1..]);
      TracksTwice(s, t, Perform(c, script, t, acts[1..]));
    }
  }

  lemma {:induction false} ServeTracks(c: Limits, script: Script, s: State, act: Act)
    requires Valid(c, s)
    ensures Tracks(s, Serve(c, script, s, act))
    decreases c.stack - |s.cursors|, 3, 0
  {
    hide Apart, Steady, Sound, Tracks;
    var r := Serve(c, script, s, act);
    match act
    case Enter(n) => TracksSame(s); TracksAlike(s, s, s, r);
    case Drop(n) => UnlinkTracks(s, n);
    case Await(n, e) => WaitForTracks(s, n, e);
    case Trigger(e, immediate) => TriggerOrQueueTracks(c, script, s, e, immediate);
    case Raise(e, immediate) => TracksSame(s); TracksAlike(s, s, s, r);
    case Start(n) => RunOrWaitTracks(c, script, s, n, false);
    case Resume(n) => ContinueTracks(c, script, s, n);
  }

  lemma {:induction false} ContinueTracks(c: Limits, script: Script, s: State, n: nat)
    requires Valid(c, s)
    ensures Tracks(s, ContinueFlow(c, script, s, n))
    decreases c.stack - |s.cursors|, 2, 1
  {
    hide Apart, Steady, Sound, Tracks, Continue, RunOrWait;
    if |s.cursors| > 1 && s.cursors[|s.cursors| - 2] == Some(n) {
      ContinuedTracks(s, n, |s.cursors| - 2);
    } else {
      RunOrWaitTracks(c, script, s, n, true);
    }
  }

  lemma {:induction false} TriggerOrQueueTracks(c: Limits, script: Script, s: State, event: nat, immediate: bool)
    requires Valid(c, s)
    ensures Tracks(s, TriggerOrQueue(c, script, s, event, immediate))
    decreases c.stack - |s.cursors|, 2, 0
  {
    hide Apart, Steady, Sound, TriggerEvent;
    TriggerTracks(c, script, s, event);
    var (t, done) := TriggerEvent(c, script, s, event);
    if !done {
      var u := t.(log := t.log + [Refused(event, s.Depth())]);
      hide Tracks;
      TracksOneMark(t, u, Refused(event, s.Depth()));
      TracksAlike(t, t, u, TriggerOrQueue(c, script, s, event, immediate));
    }
  }

  lemma {:induction false} RunOrWaitTracks(c: Limits, script: Script, s: State, n: nat, immediate: bool)
    requires Valid(c, s)
    ensures Tracks(s, RunOrWait(c, script, s, n, immediate))
    decreases c.stack - |s.cursors|, 2, 0
  {
    hide Apart, Steady, Sound, Tracks, RunFlow;
    RunTracks(c, script, s, n);
    var (t, ok) := RunFlow(c, script, s, n);
    if !ok {
      WaitForTracks(s, n, START_EVENT);
      TracksAlike(s, s, WaitFor(s, n, START_EVENT), RunOrWait(c, script, s, n, immediate));
    }
  }

  lemma {:induction false} TriggerTracks(c: Limits, script: Script, s: State, event: nat)
    requires Valid(c, s)
    ensures Tracks(s, TriggerEvent(c, script, s, event).0)
    decreases c.stack - |s.cursors|, 1, 0
  {
    hide Apart, Steady, Sound, Tracks, HandleBatch, Accounted;
    if event >= |s.waiting| || s.waiting[event] == [] || s.frame >= c.frames {
      TracksSame(s);
    } else {
      SwapKeeps(s, event);
      var p := Swapped(s, event).(frame := s.frame + 1);
      BatchTracks(c, script, p);
      BatchIsTaken(c, script, p);
      var t, r := HandleBatch(c, script, p), TriggerEvent(c, script, s, event).0;
      TracksAlike(p, p, t, r);
      SwapTracks(s, p, r, event, s.Depth());
    }
  }

  lemma {:induction false} BatchTracks(c: Limits, script: Script, s: State)
    requires Apart(s.waiting, s.batches) && 1 <= |s.cursors| <= c.stack && s.frame <= s.Depth() + 1 && s.batches != []
    ensures Tracks(s, HandleBatch(c, script, s))
    decreases c.stack - |s.cursors|, 0, 2 * |s.Batch()|
  {
    hide Apart, Steady, Sound, Tracks;
    if s.Batch() == [] {
      TracksSame(s);
      TracksAlike(s, s, s, HandleBatch(c, script, s));
    } else {
      PoppedTracks(c, s);
      WakingShortens(c, script, s);
      var p := Popped(c, s);
      var t := RunFlow(c, script, p, s.Batch()[0]).0;
      SteadySizes(p, t);
      RunTracks(c, script, p, s.Batch()[0]);
      BatchTracks(c, script, t);
      TracksTwice(s, p, t);
      TracksTwice(s, t, HandleBatch(c, script, t));
    }
  }

  lemma HandleTracks(c: Limits, script: Script, s: State, event: nat)
    requires Valid(c, s)
    ensures Tracks(s, HandleEvent(c, script, s, event))
  {
    hide Apart, Steady, Sound, Tracks, HandleBatch, Accounted;
    if event >= |s.waiting| || s.waiting[event] == [] {
      TracksSame(s);
    } else {
      SwapKeeps(s, event);
      var p := Swapped(s, event);
      BatchTracks(c, script, p);
      BatchIsTaken(c, script, p);
      var t, r := HandleBatch(c, script, p), HandleEvent(c, script, s, event);
      TracksAlike(p, p, t, r);
      SwapTracks(s, p, r, event, s.Depth());
    }
  }

  lemma {:induction false} ServicedTracks(c: Limits, script: Script, s: State, calls: seq<Call>)
    requires Valid(c, s)
    ensures Tracks(s, ServicedAll(c, script, s, calls))
    decreases |calls|
  {
    hide Apart, Steady, Sound, Tracks, Serve, HandleEvent, RunFlow;
    TracksSame(s);
    if calls != [] {
      match calls[0] {
        case Ask(act) => ServeTracks(c, script, s, act);
        case Handle(event) => HandleTracks(c, script, s, event);
        case Wake(n) => RunTracks(c, script, s, n);
      }
      var t := Serviced(c, script, s, calls[0]);
      ServicedTracks(c, script, t, calls[1..]);
      TracksTwice(s, t, ServicedAll(c, script, t, calls[1..]));
    }
  }

  // ----- Main results

  predicate Concerns(mark: Mark, n: nat) {
    Leaves(mark, n) || (mark.Waits? && mark.node == n)
  }

  predicate WaitsSince(log: seq<Mark>, i: nat, n: nat, event: nat)
    requires i < |log|
  {
    log[i] == Waits(n, event) && forall j | i < j < |log| :: !Concerns(log[j], n)
  }

  /** A node began to wait for the event and has not left the list or waited again since. */
  predicate StillWaits(log: seq<Mark>, n: nat, event: nat) {
    exists i | 0 <= i < |log| :: WaitsSince(log, i, n, event)
  }

  lemma LastDecides(log: seq<Mark>, n: nat, event: nat)
    requires log != [] && Concerns(log[|log| - 1], n)
    ensures StillWaits(log, n, event) <==> log[|log| - 1] == Waits(n, event)
  {
    if log[|log| - 1] == Waits(n, event) {
      assert WaitsSince(log, |log| - 1, n, event);
    }
  }

  lemma OthersDoNotMatter(log: seq<Mark>, mark: Mark, n: nat, event: nat)
    requires !Concerns(mark, n)
    ensures StillWaits(log + [mark], n, event) <==> StillWaits(log, n, event)
  {
    hide Concerns;
    if StillWaits(log, n, event) {
      var i :| 0 <= i < |log| && WaitsSince(log, i, n, event);
      assert WaitsSince(log + [mark], i, n, event);
    }
    if StillWaits(log + [mark], n, event) {
      var i :| 0 <= i < |log| + 1 && WaitsSince(log + [mark], i, n, event);
      if i == |log| {
        WaitsConcerns(mark, n);
      }
      assert forall j | i < j < |log| :: log[j] == (log + [mark])[j];
      assert WaitsSince(log, i, n, event);
    }
  }

  lemma WaitsConcerns(mark: Mark, n: nat)
    requires mark.Waits? && mark.node == n
    ensures Concerns(mark, n)
  {
  }

  lemma {:induction false} WaitingIsStillWaiting(log: seq<Mark>, n: nat, event: nat, before: bool)
    ensures StillWaits(log, n, event) ==> Waiting(log, n, event, before)
    ensures Waiting(log, n, event, false) ==> StillWaits(log, n, event)
    decreases |log|
  {
    hide StillWaits;
    if log == [] {
      NothingWaits(n, event);
    } else {
      var mark, rest := log[|log| - 1], log[..|log| - 1];
      if Concerns(mark, n) {
        LastDecides(log, n, event);
      } else {
        WaitingIsStillWaiting(rest, n, event, before);
        OthersDoNotMatter(rest, mark, n, event);
        assert log == rest + [mark];
      }
    }
  }

  lemma NothingWaits(n: nat, event: nat)
    ensures !StillWaits([], n, event)
  {
  }

  /** A node that begins to wait while an event is dispatched, be it for the same event, is
      in the waiting list afterwards unless it has left it meanwhile; and the list has no
      other nodes than such. */
  lemma NewWaitersAreKept(c: Limits, script: Script, s: State, event: nat)
    requires Valid(c, s) && event < |s.waiting|
    ensures var r := HandleEvent(c, script, s, event);
            && s.log <= r.log && |r.waiting| == |s.waiting|
            && var late := r.log[|s.log|..];
               && (forall n: nat :: n in r.waiting[event] <==> StillWaits(late, n, event))
               && (forall e: nat, n: nat | e < |s.waiting| && StillWaits(late, n, e) :: n in r.waiting[e])
  {
    hide Apart, Steady, Sound, HandleEvent;
    HandleTracks(c, script, s, event);
    HandledLeave(c, script, s, event);
    var r := HandleEvent(c, script, s, event);
    KeptAreTracked(s, r, event);
  }

  /** All that waited when the event came has left the list. */
  lemma HandledLeave(c: Limits, script: Script, s: State, event: nat)
    requires Valid(c, s) && event < |s.waiting|
    ensures var r := HandleEvent(c, script, s, event);
            s.log <= r.log && forall n: nat | n in s.waiting[event] :: HasLeft(r.log[|s.log|..], n)
  {
    hide Apart, Steady, HandleBatch, Accounted;
    if s.waiting[event] != [] {
      SwapKeeps(s, event);
      var p := Swapped(s, event);
      BatchIsTaken(c, script, p);
      var late := HandleBatch(c, script, p).log[|s.log|..];
      assert HandleEvent(c, script, s, event).log == HandleBatch(c, script, p).log;
      forall n: nat | n in s.waiting[event]
        ensures HasLeft(late, n)
      {
        var i := AccountedLeave(s.waiting[event], late, s.Depth(), n);
      }
    }
  }

  predicate HasLeft(log: seq<Mark>, n: nat) {
    exists i | 0 <= i < |log| :: Leaves(log[i], n)
  }

  lemma KeptAreTracked(s: State, r: State, event: nat)
    requires Tracks(s, r) && event < |s.waiting|
    requires forall n: nat | n in s.waiting[event] :: HasLeft(r.log[|s.log|..], n)
    ensures var late := r.log[|s.log|..];
            && (forall n: nat :: n in r.waiting[event] <==> StillWaits(late, n, event))
            && (forall e: nat, n: nat | e < |s.waiting| && StillWaits(late, n, e) :: n in r.waiting[e])
  {
    var late := r.log[|s.log|..];
    hide StillWaits, Waiting;
    forall e: nat, n: nat | e < |s.waiting|
      ensures StillWaits(late, n, e) ==> n in r.waiting[e]
    {
      WaitingIsStillWaiting(late, n, e, n in s.waiting[e]);
    }
    forall n: nat
      ensures n in r.waiting[event] ==> StillWaits(late, n, event)
    {
      WaitingIsStillWaiting(late, n, event, false);
      if n in s.waiting[event] {
        var i :| 0 <= i < |late| && Leaves(late[i], n);
        LeavingForgets(late, i, n, event);
      }
    }
  }

  /** In every sequence of calls on a new manager, with all scripts: between calls a node is
      in a waiting list if and only if it began to wait for the event and has not been
      unlinked, woken or lost since. */
  lemma WaitersAreExact(script: Script, events: nat, calls: seq<Call>)
    ensures Valid(LIMITS, Begin(events))
    ensures var r := ServicedAll(LIMITS, script, Begin(events), calls);
            |r.waiting| == events
            && forall e: nat, n: nat | e < events :: n in r.waiting[e] <==> StillWaits(r.log, n, e)
  {
    FramesAreNeverRefused(script, events, calls);
    var s := Begin(events);
    ServicedTracks(LIMITS, script, s, calls);
    var r := ServicedAll(LIMITS, script, s, calls);
    hide ServicedAll, StillWaits;
    assert r.log[0..] == r.log;
    forall e: nat, n: nat | e < events
      ensures n in r.waiting[e] <==> StillWaits(r.log, n, e)
    {
      WaitingIsStillWaiting(r.log, n, e, false);
    }
  }
}
