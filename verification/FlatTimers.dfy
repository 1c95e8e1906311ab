/** The specification of the timer queue: a clock and a flat map from event to due tick.

    A run is a log of actions. An action is only legal when the specification allows it:
    the clock may not leave a tick while an event is still due, and an event fires only
    when the clock shows exactly its due tick. */
module FlatTimers {
  type EventId = nat
  type Tick = nat

  datatype Action =
    | Ticked
    | Scheduled(e: EventId, at: Tick)
    | Cancelled(e: EventId)
    | Fired(e: EventId)

  datatype Flat = Flat(clock: Tick, due: map<EventId, Tick>)

  ghost predicate Enabled(f: Flat, a: Action) {
    match a
    case Ticked => forall e :: e in f.due ==> f.clock < f.due[e]
    case Scheduled(e, at) => f.clock < at
    case Cancelled(e) => true
    case Fired(e) => e in f.due && f.due[e] == f.clock
  }

  function Apply(f: Flat, a: Action): Flat {
    match a
    case Ticked => f.(clock := f.clock + 1)
    case Scheduled(e, at) => f.(due := f.due[e := at])
    case Cancelled(e) => f.(due := f.due - {e})
    case Fired(e) => f.(due := f.due - {e})
  }

  /** The specification state after a log, started at tick `start` with nothing scheduled. */
  function After(start: Tick, log: seq<Action>): Flat {
    if log == [] then Flat(start, map[])
    else Apply(After(start, log[..|log| - 1]), log[|log| - 1])
  }

  ghost predicate Legal(start: Tick, log: seq<Action>) {
    log == [] ||
    (Legal(start, log[..|log| - 1]) && Enabled(After(start, log[..|log| - 1]), log[|log| - 1]))
  }

  predicate About(a: Action, e: EventId) {
    !a.Ticked? && a.e == e
  }

  /** No action between the positions i and j (both excluded) concerns e. */
  predicate Untouched(log: seq<Action>, e: EventId, i: nat, j: nat)
    requires j <= |log|
  {
    forall m :: i < m < j ==> !About(log[m], e)
  }

  lemma AppendAction(start: Tick, log: seq<Action>, a: Action)
    ensures After(start, log + [a]) == Apply(After(start, log), a)
    ensures Legal(start, log + [a]) <==> Legal(start, log) && Enabled(After(start, log), a)
  {
    assert (log + [a])[..|log + [a]| - 1] == log;
  }

  lemma {:induction false} PrefixLegal(start: Tick, log: seq<Action>, i: nat)
    requires i <= |log|
    requires Legal(start, log)
    ensures Legal(start, log[..i])
  {
    if i == |log| {
      assert log[..i] == log;
    } else {
      PrefixLegal(start, log[..|log| - 1], i);
      assert log[..|log| - 1][..i] == log[..i];
    }
  }

  lemma EnabledAt(start: Tick, log: seq<Action>, i: nat)
    requires i < |log|
    requires Legal(start, log)
    ensures Enabled(After(start, log[..i]), log[i])
    ensures After(start, log[..i + 1]) == Apply(After(start, log[..i]), log[i])
  {
    PrefixLegal(start, log, i + 1);
    assert log[..i + 1][..i] == log[..i];
  }

  /** Time never runs backwards, so events fire in nondecreasing tick order. */
  lemma {:induction false} ClockMonotone(start: Tick, log: seq<Action>, i: nat, j: nat)
    requires i <= j <= |log|
    ensures After(start, log[..i]).clock <= After(start, log[..j]).clock
  {
    if i < j {
      ClockMonotone(start, log, i, j - 1);
      assert log[..j][..j - 1] == log[..j - 1];
    }
  }

  /** An event is due at tick t exactly when its latest action scheduled it at t. */
  lemma {:induction false} DueExplained(start: Tick, log: seq<Action>, e: EventId)
    ensures var f := After(start, log);
            e in f.due <==>
            exists i :: 0 <= i < |log| && log[i].Scheduled? && log[i].e == e && Untouched(log, e, i, |log|)
    ensures var f := After(start, log);
            (forall i :: 0 <= i < |log| && log[i].Scheduled? && log[i].e == e && Untouched(log, e, i, |log|)
                         ==> e in f.due && f.due[e] == log[i].at)
  {
    if log != [] {
      var prev, a := log[..|log| - 1], log[|log| - 1];
      DueExplained(start, prev, e);
      forall i | 0 <= i < |prev| && !About(a, e)
        ensures Untouched(prev, e, i, |prev|) <==> Untouched(log, e, i, |log|)
      {
        if Untouched(prev, e, i, |prev|) {
          forall m | i < m < |log| ensures !About(log[m], e) {
            assert m < |prev| ==> log[m] == prev[m];
          }
        }
        if Untouched(log, e, i, |log|) {
          forall m | i < m < |prev| ensures !About(prev[m], e) {
            assert log[m] == prev[m];
          }
        }
      }
      if About(a, e) {
        assert forall i :: 0 <= i < |prev| ==> !Untouched(log, e, i, |log|);
        assert Untouched(log, e, |prev|, |log|);
      }
      assert forall i :: 0 <= i < |prev| ==> log[i] == prev[i];
      if e in After(start, log).due && !About(a, e) {
        var i :| 0 <= i < |prev| && prev[i].Scheduled? && prev[i].e == e && Untouched(prev, e, i, |prev|);
        assert log[i].Scheduled? && log[i].e == e && Untouched(log, e, i, |log|);
      }
    }
  }

  /** Soundness: whatever fires was scheduled for exactly this tick, and has been neither
      cancelled, rescheduled nor fired since. In particular one scheduling fires at most once. */
  lemma FiringIsScheduled(start: Tick, log: seq<Action>, j: nat)
    requires Legal(start, log)
    requires j < |log| && log[j].Fired?
    ensures exists i :: 0 <= i < j
                     && log[i] == Scheduled(log[j].e, After(start, log[..j]).clock)
                     && Untouched(log, log[j].e, i, j)
  {
    var e, prev := log[j].e, log[..j];
    EnabledAt(start, log, j);
    DueExplained(start, prev, e);
    var i :| 0 <= i < |prev| && prev[i].Scheduled? && prev[i].e == e && Untouched(prev, e, i, |prev|);
    forall m | i < m < j ensures !About(log[m], e) {
      assert prev[m] == log[m];
    }
    assert log[i] == prev[i] == Scheduled(e, After(start, prev).clock);
  }

  lemma {:induction false} DueNotPassed(start: Tick, log: seq<Action>)
    requires Legal(start, log)
    ensures forall e :: e in After(start, log).due ==> After(start, log).clock <= After(start, log).due[e]
  {
    if log != [] {
      var prev, a := log[..|log| - 1], log[|log| - 1];
      DueNotPassed(start, prev);
      assert After(start, log) == Apply(After(start, prev), a);
    }
  }

  /** Completeness, the fate of one scheduling: while nothing has touched the event it is
      pending and its tick has not passed; the first action to touch it happens at the due
      tick or earlier, and if that action is the firing, exactly at the due tick. */
  lemma SchedulingFate(start: Tick, log: seq<Action>, i: nat)
    requires Legal(start, log)
    requires i < |log| && log[i].Scheduled?
    ensures Untouched(log, log[i].e, i, |log|) ==>
              log[i].e in After(start, log).due
              && After(start, log).due[log[i].e] == log[i].at
              && After(start, log).clock <= log[i].at
    ensures forall j :: i < j < |log| && About(log[j], log[i].e) && Untouched(log, log[i].e, i, j) ==>
              After(start, log[..j]).clock <= log[i].at
              && (log[j].Fired? ==> After(start, log[..j]).clock == log[i].at)
  {
    DueExplained(start, log, log[i].e);
    DueNotPassed(start, log);
    forall j | i < j < |log| && About(log[j], log[i].e) && Untouched(log, log[i].e, i, j)
      ensures After(start, log[..j]).clock <= log[i].at
      ensures log[j].Fired? ==> After(start, log[..j]).clock == log[i].at
    {
      PrefixLegal(start, log, j);
      DueExplained(start, log[..j], log[i].e);
      DueNotPassed(start, log[..j]);
      EnabledAt(start, log, j);
      assert log[..j][i] == log[i];
      assert Untouched(log[..j], log[i].e, i, j);
    }
  }
}
