/** Whole runs of the timer wheel: what an event can rely on, and that splitting the work of
    `advance` over many limited calls changes nothing. */
module TimerRuns {
  import opened FlatTimers
  import opened TimerArith
  import opened TimerModel
  import opened TimerHistory

  // ----- What an event can rely on

  /** Between calls, the fate of the scheduling at position i of the history: an event that
      nothing touched since is still active and its tick has not passed (not even been reached
      when no tick is pending); the first action to touch it comes at its tick or earlier, and
      if it is the firing, exactly at its tick. */
  lemma SchedulingIsKept(w: Wheel, pending: nat, i: nat)
    requires Resting(w, pending)
    requires i < |w.log| && w.log[i].Scheduled?
    ensures Untouched(w.log, w.log[i].e, i, |w.log|) ==>
              w.log[i].e in w.slotOf && w.at[w.log[i].e] == w.log[i].at
              && w.now[0] <= w.log[i].at && (pending == 0 ==> w.now[0] < w.log[i].at)
    ensures forall j :: i < j < |w.log| && About(w.log[j], w.log[i].e) && Untouched(w.log, w.log[i].e, i, j) ==>
              After(w.start, w.log[..j]).clock <= w.log[i].at
              && (w.log[j].Fired? ==> After(w.start, w.log[..j]).clock == w.log[i].at)
  {
    SchedulingFate(w.start, w.log, i);
    if pending == 0 {
      PlacedIsQuiet(w);
    }
  }

  /** Nothing fires without having been scheduled for that very tick, and a scheduling is used
      up by its firing, by a cancellation or by the next scheduling. */
  lemma FiringIsExplained(w: Wheel, pending: nat, j: nat)
    requires Resting(w, pending)
    requires j < |w.log| && w.log[j].Fired?
    ensures exists i :: 0 <= i < j
                     && w.log[i] == Scheduled(w.log[j].e, After(w.start, w.log[..j]).clock)
                     && Untouched(w.log, w.log[j].e, i, j)
  {
    FiringIsScheduled(w.start, w.log, j);
  }

  // ----- Runs of a driver

  datatype Call = Ask(c: Command) | AdvanceBy(delta: nat, limit: nat)

  /** What a call demands; of the callbacks only what they ask for up to the tick that the
      call is to reach. */
  ghost predicate CallOk(w: Wheel, pending: nat, cb: Callbacks, c: Call)
    requires Inv(w)
  {
    match c
    case Ask(cmd) => CommandOk(cmd, w.now[0], w.at.Keys)
    case AdvanceBy(delta, _) =>
      Target(w, pending) + delta < HORIZON && WellBehaved(cb, w.start, w.at.Keys, Target(w, pending) + delta)
  }

  function Step(w: Wheel, pending: nat, cb: Callbacks, c: Call): (r: (Wheel, nat))
    requires Resting(w, pending) && CallOk(w, pending, cb, c)
    ensures Resting(r.0, r.1) && r.0.start == w.start && r.0.at.Keys == w.at.Keys
  {
    match c
    case Ask(cmd) => (Perform(w, cmd), pending)
    case AdvanceBy(delta, limit) => Advance(w, pending, cb, delta, limit)
  }

  /** The wheel after a sequence of calls, or nothing if one of them broke its demands. */
  function Run(w: Wheel, pending: nat, cb: Callbacks, calls: seq<Call>): (r: (Wheel, nat))
    requires Resting(w, pending)
    requires RunOk(w, pending, cb, calls)
    ensures Resting(r.0, r.1) && r.0.start == w.start && r.0.at.Keys == w.at.Keys
    decreases |calls|
  {
    if calls == [] then (w, pending)
    else
      var s := Step(w, pending, cb, calls[0]);
      Run(s.0, s.1, cb, calls[1..])
  }

  ghost predicate RunOk(w: Wheel, pending: nat, cb: Callbacks, calls: seq<Call>)
    requires Resting(w, pending)
    decreases |calls|
  {
    calls == [] ||
    (CallOk(w, pending, cb, calls[0]) &&
     var s := Step(w, pending, cb, calls[0]);
     RunOk(s.0, s.1, cb, calls[1..]))
  }

  /** What one call does to the history: what is asked for is its next entry, and an advance
      goes on by ticks and firings with what the callbacks ask for. */
  ghost predicate Entered(start: Tick, cb: Callbacks, before: seq<Action>, c: Call, after: seq<Action>) {
    match c
    case Ask(cmd) => after == before + Acts(After(start, before), cmd)
    case AdvanceBy(_, _) => before <= after && GoesOn(start, cb, before, after)
  }

  /** The history has the actions of every call at its place. */
  ghost predicate Follows(start: Tick, cb: Callbacks, before: seq<Action>, calls: seq<Call>, after: seq<Action>)
    decreases |calls|
  {
    if calls == [] then after == before
    else exists mid :: Entered(start, cb, before, calls[0], mid) && Follows(start, cb, mid, calls[1..], after)
  }

  /** The ticks that a sequence of calls is to cover. */
  function Covered(calls: seq<Call>): nat
    decreases |calls|
  {
    if calls == [] then 0
    else Covered(calls[1..]) + match calls[0] case Ask(_) => 0 case AdvanceBy(delta, _) => delta
  }

  lemma StepEnters(w: Wheel, pending: nat, cb: Callbacks, c: Call)
    requires Resting(w, pending) && CallOk(w, pending, cb, c)
    ensures var r := Step(w, pending, cb, c);
            && Entered(w.start, cb, w.log, c, r.0.log)
            && Target(r.0, r.1) == Target(w, pending) + match c case Ask(_) => 0 case AdvanceBy(delta, _) => delta
  {
    hide Perform, Advance, Placed, WellBehaved, GoesOn, RangeDelta, Linked;
    match c
    case Ask(cmd) => OneCommand(w, cmd);
    case AdvanceBy(delta, limit) => AdvancesGoOn(w, pending, cb, delta, limit);
  }

  lemma {:induction false} RunFollows(w: Wheel, pending: nat, cb: Callbacks, calls: seq<Call>)
    requires Resting(w, pending) && RunOk(w, pending, cb, calls)
    ensures var r := Run(w, pending, cb, calls);
            Follows(w.start, cb, w.log, calls, r.0.log) && Target(r.0, r.1) == Target(w, pending) + Covered(calls)
    decreases |calls|
  {
    hide Step, Entered, Inv, Placed, CallOk, Target;
    if calls != [] {
      StepEnters(w, pending, cb, calls[0]);
      var s := Step(w, pending, cb, calls[0]);
      RunFollows(s.0, s.1, cb, calls[1..]);
    }
  }

  /** The main theorem on runs: whatever sequence of schedulings, cancellations and (limited or
      unlimited) advances is made on a new wheel, with callbacks that schedule and cancel
      themselves, the history is a legal run of the flat specification in which every request,
      of a caller or of a callback, has its place. */
  lemma RunsRefineFlat(start: Tick, pool: set<EventId>, cb: Callbacks, calls: seq<Call>)
    requires start < HORIZON
    requires RunOk(NewWheel(start, pool), 0, cb, calls)
    ensures var (w, pending) := Run(NewWheel(start, pool), 0, cb, calls);
            Legal(start, w.log)
            && After(start, w.log).clock == w.now[0]
            && After(start, w.log).due.Keys == w.slotOf.Keys
            && (forall e :: e in w.slotOf ==> w.at[e] == After(start, w.log).due[e] >= w.now[0])
            && Follows(start, cb, [], calls, w.log)
            && Target(w, pending) == start + Covered(calls)
  {
    hide Follows, Covered;
    RunFollows(NewWheel(start, pool), 0, cb, calls);
    var (w, pending) := Run(NewWheel(start, pool), 0, cb, calls);
    DueNotPassed(start, w.log);
  }

  // ----- Limited calls

  /** No slot holds more events than exist. */
  lemma ListBound(w: Wheel, s: Slot)
    requires Shape(w) && ValidSlot(s)
    ensures |w.lists[s]| <= |w.at.Keys|
  {
    assert SlotLinked(w.lists[s], s, w.slotOf);
    forall e | e in w.lists[s] ensures e in w.at.Keys {
    }
    DistinctBound(w.lists[s], w.at.Keys);
  }

  lemma {:induction false} DistinctBound(l: seq<EventId>, pool: set<EventId>)
    requires NoDuplicates(l) && forall e :: e in l ==> e in pool
    ensures |l| <= |pool|
  {
    if l != [] {
      forall e | e in l[1..] ensures e in pool - {l[0]} {
      }
      DistinctBound(l[1..], pool - {l[0]});
    }
  }

  /** The firings in a history. */
  function Fires(log: seq<Action>): nat {
    if log == [] then 0 else Fires(log[..|log| - 1]) + if log[|log| - 1].Fired? then 1 else 0
  }

  /** The number of firings at which a slot stops; a limit of 0 is the greatest one. */
  function Quota(limit: nat): nat {
    if limit == 0 then HORIZON else limit
  }

  lemma {:induction false} RequestsNeverFire(f: Flat, cmds: seq<Command>)
    ensures forall i | 0 <= i < |AllActs(f, cmds)| :: !AllActs(f, cmds)[i].Fired?
    decreases |cmds|
  {
    hide RangeDelta, Applied;
    if cmds != [] {
      RequestsNeverFire(Applied(f, Acts(f, cmds[0])), cmds[1..]);
    }
  }

  lemma {:induction false} NoneFires(log: seq<Action>, more: seq<Action>)
    requires forall i | 0 <= i < |more| :: !more[i].Fired?
    ensures Fires(log + more) == Fires(log)
    decreases |more|
  {
    if more == [] {
      assert log + more == log;
    } else {
      NoneFires(log, more[..|more| - 1]);
      assert (log + more)[..|log + more| - 1] == log + more[..|more| - 1];
    }
  }

  lemma OneFiring(w: Wheel, cb: Callbacks, level: nat)
    requires CanFire(w, cb, level)
    ensures Fires(FireHand(w, cb, level).log) == Fires(w.log) + 1
  {
    hide FireHand, WellBehaved, AllActs;
    FiringActs(w, cb, level);
    var fired := w.log + [Fired(w.lists[Hand(w, level)][0])];
    RequestsNeverFire(After(w.start, fired), cb(fired));
    NoneFires(fired, AllActs(After(w.start, fired), cb(fired)));
    assert fired[..|w.log|] == w.log;
  }

  /** A slot stops exactly when as many events have fired as the limit allows, and no more
      ever fire in it. */
  lemma {:induction false} DrainCountsFires(w: Wheel, cb: Callbacks, limit: nat, level: nat)
    requires Inv(w) && level < 8 && ZeroBelow(w.now, level) && Placed(w, level + 1)
    requires WellBehaved(cb, w.start, w.at.Keys, w.now[0])
    ensures var (r, done) := Drain(w, cb, limit, level);
            if done then Fires(r.log) < Fires(w.log) + Quota(limit)
            else Fires(r.log) == Fires(w.log) + Quota(limit)
    decreases |w.lists[Hand(w, level)]|
  {
    hide Placed, WellBehaved, Recorded, FireHand, Promote, Fires;
    if w.lists[Hand(w, level)] != [] {
      DrainRound(w, cb, limit, level);
      UnderHand(w, level);
      var r := Round(w, cb, limit, level);
      if !(level > 0 && w.now[0] < w.at[w.lists[Hand(w, level)][0]]) {
        OneFiring(w, cb, level);
      }
      if !(r.1 == 0 && limit != 0) {
        DrainCountsFires(r.0, cb, r.1, level);
      }
    }
  }

  /** A limit above the length of the list is never reached. */
  lemma {:induction false} DrainLimitUnreached(w: Wheel, cb: Callbacks, a: nat, b: nat, level: nat)
    requires Inv(w) && level < 8 && ZeroBelow(w.now, level) && Placed(w, level + 1)
    requires WellBehaved(cb, w.start, w.at.Keys, w.now[0])
    requires a > |w.lists[Hand(w, level)]| && b > |w.lists[Hand(w, level)]|
    ensures Drain(w, cb, a, level) == Drain(w, cb, b, level) && Drain(w, cb, a, level).1
    decreases |w.lists[Hand(w, level)]|
  {
    if w.lists[Hand(w, level)] != [] {
      var ra, rb := Round(w, cb, a, level), Round(w, cb, b, level);
      DrainRound(w, cb, a, level);
      DrainRound(w, cb, b, level);
      DrainLimitUnreached(ra.0, cb, ra.1, rb.1, level);
    }
  }

  /** A drain that stopped at its limit can be continued without a trace. */
  lemma {:induction false} DrainContinues(w: Wheel, cb: Callbacks, limit: nat, all: nat, level: nat)
    requires Inv(w) && level < 8 && ZeroBelow(w.now, level) && Placed(w, level + 1)
    requires WellBehaved(cb, w.start, w.at.Keys, w.now[0])
    requires all > |w.lists[Hand(w, level)]|
    ensures Drain(Drain(w, cb, limit, level).0, cb, all, level) == Drain(w, cb, all, level)
    ensures Drain(w, cb, limit, level).1 ==> Drain(w, cb, limit, level) == Drain(w, cb, all, level)
    decreases |w.lists[Hand(w, level)]|
  {
    if w.lists[Hand(w, level)] != [] {
      var r, rAll := Round(w, cb, limit, level), Round(w, cb, all, level);
      DrainRound(w, cb, limit, level);
      DrainRound(w, cb, all, level);
      DrainLimitUnreached(rAll.0, cb, rAll.1, all, level);
      if r.1 != 0 || limit == 0 {
        DrainContinues(r.0, cb, r.1, all, level);
      }
    }
  }

  /** With nothing left under the hands from `level` outwards, resuming does nothing. */
  lemma {:induction false} NothingToResume(w: Wheel, cb: Callbacks, limit: nat, level: nat)
    requires Inv(w) && level < 8 && ZeroBelow(w.now, level) && Placed(w, level)
    requires WellBehaved(cb, w.start, w.at.Keys, w.now[0])
    ensures Process(w, cb, limit, level, true) == (w, true)
    decreases 8 - level
  {
    HandEmpty(w, level);
    PlacedOutwards(w, level);
    if w.now[level] % 256 == 0 && level < 7 {
      NothingToResume(w, cb, limit, level + 1);
    }
  }

  lemma HandEmpty(w: Wheel, level: nat)
    requires Inv(w) && level < 8 && Placed(w, level)
    ensures w.lists[Hand(w, level)] == []
  {
    var l := w.lists[Hand(w, level)];
    assert l == [] || l[0] in l;
    assert SlotLinked(l, Hand(w, level), w.slotOf);
    forall e | e in w.slotOf
      ensures w.slotOf[e] != Hand(w, level)
    {
      assert EventPlaced(w, e, level);
    }
  }

  lemma PlacedOutwards(w: Wheel, level: nat)
    requires Shape(w) && Placed(w, level)
    ensures Placed(w, level + 1)
  {
    forall e | e in w.slotOf
      ensures EventPlaced(w, e, level + 1)
    {
      assert EventPlaced(w, e, level);
    }
  }

  /** A slot that stopped at its limit, at whatever level, can be continued without a trace. */
  lemma {:induction false} ProcessContinues(w: Wheel, cb: Callbacks, limit: nat, all: nat, level: nat, resuming: bool)
    requires Processable(w, level, resuming)
    requires WellBehaved(cb, w.start, w.at.Keys, w.now[0])
    requires all > |w.at.Keys|
    ensures Process(w, cb, all, level, resuming).1
    ensures var p := Process(w, cb, limit, level, resuming);
            if p.1 then p == Process(w, cb, all, level, resuming)
            else ZeroBelow(p.0.now, level) && Process(p.0, cb, all, level, true) == Process(w, cb, all, level, resuming)
    decreases 8 - level
  {
    hide Process, Drain, Linked, Placed, Recorded, WellBehaved, TickOuter;
    ProcessRound(w, cb, limit, level, resuming);
    ProcessRound(w, cb, all, level, resuming);
    var p := Process(w, cb, limit, level, resuming);
    if w.now[level] % 256 == 0 && level < 7 {
      var w' := if resuming then w else TickOuter(w, level + 1);
      ProcessContinues(w', cb, limit, all, level + 1, resuming);
      var outer := Process(w', cb, all, level + 1, resuming).0;
      DrainFromHere(outer, cb, limit, all, level);
      NothingToResume(Drain(outer, cb, limit, level).0, cb, all, level + 1);
    } else {
      DrainFromHere(w, cb, limit, all, level);
    }
    if !p.1 {
      ProcessRound(p.0, cb, all, level, true);
    }
  }

  lemma DrainFromHere(w: Wheel, cb: Callbacks, limit: nat, all: nat, level: nat)
    requires Inv(w) && level < 8 && ZeroBelow(w.now, level) && Placed(w, level + 1)
    requires WellBehaved(cb, w.start, w.at.Keys, w.now[0])
    requires all > |w.at.Keys|
    ensures Drain(w, cb, all, level).1
    ensures Drain(w, cb, limit, level).1 ==> Drain(w, cb, limit, level) == Drain(w, cb, all, level)
    ensures Drain(Drain(w, cb, limit, level).0, cb, all, level) == Drain(w, cb, all, level)
  {
    ListBound(w, Hand(w, level));
    DrainLimitUnreached(w, cb, all, all, level);
    DrainContinues(w, cb, limit, all, level);
  }

  lemma TickContinues(w: Wheel, cb: Callbacks, limit: nat, all: nat, extra: nat)
    requires Inv(w) && Placed(w, 0) && w.now[0] + 1 < HORIZON
    requires WellBehaved(cb, w.start, w.at.Keys, w.now[0] + 1)
    requires all > |w.at.Keys|
    ensures TickOnce(w, cb, all).1
    ensures var t := TickOnce(w, cb, limit);
            if t.1 then t == TickOnce(w, cb, all)
            else Process(t.0, cb, all, 0, true) == TickOnce(w, cb, all)
  {
    ProcessContinues(TickInner(w), cb, limit, all, 0, false);
  }

  lemma TickLeaves(w: Wheel, cb: Callbacks, all: nat)
    requires Inv(w) && Placed(w, 0) && w.now[0] + 1 < HORIZON
    requires WellBehaved(cb, w.start, w.at.Keys, w.now[0] + 1)
    requires all > |w.at.Keys|
    ensures var (r, done) := TickOnce(w, cb, all);
            && done && Inv(r) && Placed(r, 0) && r.now[0] == w.now[0] + 1 && r.start == w.start && r.at.Keys == w.at.Keys
  {
    hide TickOnce, Shape, Placed, Recorded, WellBehaved, Process;
    TickContinues(w, cb, all, all, 0);
  }

  lemma {:induction false} TicksSplit(w: Wheel, cb: Callbacks, a: nat, b: nat, all: nat)
    requires Inv(w) && Placed(w, 0) && w.now[0] + a + b < HORIZON
    requires WellBehaved(cb, w.start, w.at.Keys, w.now[0] + a + b)
    requires all > |w.at.Keys|
    ensures Ticks(w, cb, a, all).1 == 0
    ensures Ticks(w, cb, a + b, all) == Ticks(Ticks(w, cb, a, all).0, cb, b, all)
    decreases a
  {
    hide TickOnce, Ticks, Shape, Placed, Recorded, WellBehaved, Process;
    BehavedEarlier(cb, w.start, w.at.Keys, w.now[0] + a + b, w.now[0] + a);
    if a == 0 {
      TicksRound(w, cb, a, all);
    } else {
      BehavedEarlier(cb, w.start, w.at.Keys, w.now[0] + a + b, w.now[0] + 1);
      TickLeaves(w, cb, all);
      TicksRound(w, cb, a, all);
      TicksRound(w, cb, a + b, all);
      TicksSplit(TickOnce(w, cb, all).0, cb, a - 1, b, all);
    }
  }

  /** A tick loop that stopped at its limit and is resumed `extra` ticks later ends where an
      unlimited one ends. */
  lemma {:induction false} TicksContinue(w: Wheel, cb: Callbacks, delta: nat, extra: nat, limit: nat, all: nat)
    requires Inv(w) && Placed(w, 0) && w.now[0] + delta + extra < HORIZON
    requires WellBehaved(cb, w.start, w.at.Keys, w.now[0] + delta + extra)
    requires all > |w.at.Keys|
    ensures var r := Ticks(w, cb, delta, limit);
            Advance(r.0, r.1, cb, extra, all) == Ticks(w, cb, delta + extra, all)
    decreases delta
  {
    hide TickOnce, Shape, Placed, Recorded, WellBehaved, Process, Advance, Ticks;
    BehavedEarlier(cb, w.start, w.at.Keys, w.now[0] + delta + extra, w.now[0] + delta);
    TicksRound(w, cb, delta, limit);
    TicksRound(w, cb, delta + extra, all);
    if delta == 0 {
      AdvanceFresh(w, cb, extra, all);
    } else {
      BehavedEarlier(cb, w.start, w.at.Keys, w.now[0] + delta + extra, w.now[0] + 1);
      TickContinues(w, cb, limit, all, 0);
      var t := TickOnce(w, cb, limit);
      if t.1 {
        TicksContinue(t.0, cb, delta - 1, extra, limit, all);
      } else {
        AdvanceResumed(t.0, delta, cb, extra, all);
      }
    }
  }

  /** The main theorem on limits: after any limited call, an unlimited call for `extra` more
      ticks (possibly none) leaves the same wheel, with the same history of firings, as a single
      unlimited call for all the ticks. */
  lemma AdvanceContinues(w: Wheel, pending: nat, cb: Callbacks, delta: nat, extra: nat, limit: nat, all: nat)
    requires Resting(w, pending) && Target(w, pending) + delta + extra < HORIZON
    requires WellBehaved(cb, w.start, w.at.Keys, Target(w, pending) + delta + extra)
    requires all > |w.at.Keys|
    ensures var r := Advance(w, pending, cb, delta, limit);
            Advance(r.0, r.1, cb, extra, all) == Advance(w, pending, cb, delta + extra, all)
    ensures Advance(w, pending, cb, delta, all).1 == 0
  {
    if pending == 0 {
      FreshContinues(w, cb, delta, extra, limit, all);
    } else {
      ResumedContinues(w, pending, cb, delta, extra, limit, all);
    }
  }

  lemma FreshContinues(w: Wheel, cb: Callbacks, delta: nat, extra: nat, limit: nat, all: nat)
    requires Resting(w, 0) && w.now[0] + delta + extra < HORIZON
    requires WellBehaved(cb, w.start, w.at.Keys, w.now[0] + delta + extra)
    requires all > |w.at.Keys|
    ensures var r := Advance(w, 0, cb, delta, limit);
            Advance(r.0, r.1, cb, extra, all) == Advance(w, 0, cb, delta + extra, all)
    ensures Advance(w, 0, cb, delta, all).1 == 0
  {
    AdvanceFresh(w, cb, delta, limit);
    AdvanceFresh(w, cb, delta, all);
    AdvanceFresh(w, cb, delta + extra, all);
    TicksContinue(w, cb, delta, extra, limit, all);
    TicksSplit(w, cb, delta, extra, all);
  }

  lemma ResumedContinues(w: Wheel, pending: nat, cb: Callbacks, delta: nat, extra: nat, limit: nat, all: nat)
    requires Inv(w) && pending > 0 && Target(w, pending) + delta + extra < HORIZON
    requires WellBehaved(cb, w.start, w.at.Keys, Target(w, pending) + delta + extra)
    requires all > |w.at.Keys|
    ensures var r := Advance(w, pending, cb, delta, limit);
            Advance(r.0, r.1, cb, extra, all) == Advance(w, pending, cb, delta + extra, all)
    ensures Advance(w, pending, cb, delta, all).1 == 0
  {
    hide Ticks, Shape, Placed, Recorded, WellBehaved, Process;
    var end := Target(w, pending) + delta + extra;
    BehavedEarlier(cb, w.start, w.at.Keys, end, w.now[0]);
    BehavedEarlier(cb, w.start, w.at.Keys, end, Target(w, pending) + delta);
    ProcessContinues(w, cb, limit, all, 0, true);
    var p, pAll := Process(w, cb, limit, 0, true), Process(w, cb, all, 0, true);
    AdvanceResumed(w, pending, cb, delta, limit);
    AdvanceResumed(w, pending, cb, delta, all);
    AdvanceResumed(w, pending, cb, delta + extra, all);
    TicksSplit(pAll.0, cb, pending - 1 + delta, extra, all);
    if p.1 {
      TicksContinue(p.0, cb, pending - 1 + delta, extra, limit, all);
    } else {
      AdvanceResumed(p.0, pending + delta, cb, extra, all);
    }
  }

  /** Any sequence of advances, each with its own delta and limit. */
  function AdvanceEach(w: Wheel, pending: nat, cb: Callbacks, calls: seq<(nat, nat)>): (r: (Wheel, nat))
    requires Resting(w, pending) && Target(w, pending) + TotalDelta(calls) < HORIZON
    requires WellBehaved(cb, w.start, w.at.Keys, Target(w, pending) + TotalDelta(calls))
    ensures Resting(r.0, r.1) && r.0.start == w.start && r.0.at.Keys == w.at.Keys
    ensures Target(r.0, r.1) == Target(w, pending) + TotalDelta(calls)
    decreases |calls|
  {
    if calls == [] then (w, pending)
    else
      var r := Advance(w, pending, cb, calls[0].0, calls[0].1);
      AdvanceEach(r.0, r.1, cb, calls[1..])
  }

  function TotalDelta(calls: seq<(nat, nat)>): nat {
    if calls == [] then 0 else calls[0].0 + TotalDelta(calls[1..])
  }

  lemma FirstBehaves(w: Wheel, pending: nat, cb: Callbacks, calls: seq<(nat, nat)>)
    requires Resting(w, pending) && calls != []
    requires WellBehaved(cb, w.start, w.at.Keys, Target(w, pending) + TotalDelta(calls))
    ensures WellBehaved(cb, w.start, w.at.Keys, Target(w, pending) + calls[0].0)
    ensures TotalDelta(calls) == calls[0].0 + TotalDelta(calls[1..])
  {
    hide WellBehaved;
    BehavedEarlier(cb, w.start, w.at.Keys, Target(w, pending) + TotalDelta(calls), Target(w, pending) + calls[0].0);
  }

  lemma NoCalls(w: Wheel, pending: nat, cb: Callbacks, all: nat)
    requires Resting(w, pending) && Target(w, pending) < HORIZON
    requires WellBehaved(cb, w.start, w.at.Keys, Target(w, pending))
    ensures var r := AdvanceEach(w, pending, cb, []);
            r == (w, pending) && (pending == 0 ==> Advance(w, pending, cb, 0, all) == r)
  {
    if pending == 0 {
      AdvanceNothing(w, cb, all);
    }
    hide Advance;
  }

  /** Limits and the division into calls do not matter: any sequence of advances that leaves no
      tick pending ends in the same state as one unlimited advance over the total. */
  lemma {:induction false} LimitsDoNotMatter(w: Wheel, pending: nat, cb: Callbacks, calls: seq<(nat, nat)>, all: nat)
    requires Resting(w, pending) && Target(w, pending) + TotalDelta(calls) < HORIZON
    requires WellBehaved(cb, w.start, w.at.Keys, Target(w, pending) + TotalDelta(calls))
    requires all > |w.at.Keys|
    ensures var r := AdvanceEach(w, pending, cb, calls);
            Advance(r.0, r.1, cb, 0, all) == Advance(w, pending, cb, TotalDelta(calls), all)
            && (r.1 == 0 ==> r == Advance(w, pending, cb, TotalDelta(calls), all))
    decreases |calls|
  {
    hide Advance, Resting, WellBehaved, Target;
    if calls == [] {
      NoCalls(w, pending, cb, all);
    } else {
      FirstBehaves(w, pending, cb, calls);
      var r := Advance(w, pending, cb, calls[0].0, calls[0].1);
      AdvanceContinues(w, pending, cb, calls[0].0, TotalDelta(calls[1..]), calls[0].1, all);
      LimitsDoNotMatter(r.0, r.1, cb, calls[1..], all);
    }
  }
}
