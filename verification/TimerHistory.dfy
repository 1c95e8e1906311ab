/** The history of the wheel: what everything that happens keeps of it, and that nothing happens
    but ticks, firings and what was asked for, all of it and in order. */
module TimerHistory {
  import opened FlatTimers
  import opened TimerArith
  import opened TimerModel

  // ----- An induction principle: what every callback and every tick keeps, advancing keeps

  ghost predicate CanFire(w: Wheel, cb: Callbacks, level: nat) {
    && Inv(w) && level < 8 && ZeroBelow(w.now, level) && WellBehaved(cb, w.start, w.at.Keys, w.now[0])
    && w.lists[Hand(w, level)] != [] && w.lists[Hand(w, level)][0] in w.at
    && w.at[w.lists[Hand(w, level)][0]] <= w.now[0]
  }

  ghost predicate KeptByFiring(keep: seq<Action> -> bool, cb: Callbacks, start: Tick) {
    forall w, level :: CanFire(w, cb, level) && w.start == start && keep(w.log) ==> keep(FireHand(w, cb, level).log)
  }

  ghost predicate KeptByTicks(keep: seq<Action> -> bool) {
    forall log {:trigger keep(log)} :: keep(log) ==> keep(log + [Ticked])
  }

  lemma {:induction false} DrainKeeps(w: Wheel, cb: Callbacks, limit: nat, level: nat, keep: seq<Action> -> bool)
    requires Inv(w) && level < 8 && ZeroBelow(w.now, level) && Placed(w, level + 1)
    requires WellBehaved(cb, w.start, w.at.Keys, w.now[0])
    requires KeptByFiring(keep, cb, w.start) && keep(w.log)
    ensures keep(Drain(w, cb, limit, level).0.log)
    decreases |w.lists[Hand(w, level)]|
  {
    hide Placed, WellBehaved, Recorded, FireHand, Promote;
    if w.lists[Hand(w, level)] != [] {
      DrainRound(w, cb, limit, level);
      UnderHand(w, level);
      assert w.at[w.lists[Hand(w, level)][0]] <= w.now[0] ==> CanFire(w, cb, level);
      var r := Round(w, cb, limit, level);
      if !(r.1 == 0 && limit != 0) {
        DrainKeeps(r.0, cb, r.1, level, keep);
      }
    }
  }

  lemma {:induction false} ProcessKeeps(w: Wheel, cb: Callbacks, limit: nat, level: nat, resuming: bool, keep: seq<Action> -> bool)
    requires Processable(w, level, resuming)
    requires WellBehaved(cb, w.start, w.at.Keys, w.now[0])
    requires KeptByFiring(keep, cb, w.start) && keep(w.log)
    ensures keep(Process(w, cb, limit, level, resuming).0.log)
    decreases 8 - level
  {
    hide Drain, Placed, WellBehaved, Linked, Recorded, KeptByFiring;
    ProcessRound(w, cb, limit, level, resuming);
    if w.now[level] % 256 == 0 && level < 7 {
      ProcessKeeps(if resuming then w else TickOuter(w, level + 1), cb, limit, level + 1, resuming, keep);
      var outer := Outer(w, cb, limit, level + 1, resuming);
      if outer.1 {
        DrainKeeps(outer.0, cb, limit, level, keep);
      }
    } else {
      DrainKeeps(w, cb, limit, level, keep);
    }
  }

  lemma TickKeeps(w: Wheel, cb: Callbacks, limit: nat, keep: seq<Action> -> bool)
    requires Inv(w) && Placed(w, 0) && w.now[0] + 1 < HORIZON
    requires WellBehaved(cb, w.start, w.at.Keys, w.now[0] + 1)
    requires KeptByFiring(keep, cb, w.start) && KeptByTicks(keep) && keep(w.log)
    ensures keep(TickOnce(w, cb, limit).0.log)
  {
    hide Process, Placed, WellBehaved, Linked, Recorded, KeptByFiring;
    ProcessKeeps(TickInner(w), cb, limit, 0, false, keep);
  }

  lemma {:induction false} TicksKeep(w: Wheel, cb: Callbacks, delta: nat, limit: nat, keep: seq<Action> -> bool)
    requires Inv(w) && Placed(w, 0) && w.now[0] + delta < HORIZON
    requires WellBehaved(cb, w.start, w.at.Keys, w.now[0] + delta)
    requires KeptByFiring(keep, cb, w.start) && KeptByTicks(keep) && keep(w.log)
    ensures keep(Ticks(w, cb, delta, limit).0.log)
    decreases delta
  {
    hide Process, Ticks, TickInner, Placed, WellBehaved, Linked, Recorded, KeptByFiring, KeptByTicks;
    TicksRound(w, cb, delta, limit);
    hide TickOnce;
    if delta > 0 {
      BehavedEarlier(cb, w.start, w.at.Keys, w.now[0] + delta, w.now[0] + 1);
      TickKeeps(w, cb, limit, keep);
      var t := TickOnce(w, cb, limit);
      if t.1 {
        TicksKeep(t.0, cb, delta - 1, limit, keep);
      }
    }
  }

  lemma AdvanceKeeps(w: Wheel, pending: nat, cb: Callbacks, delta: nat, limit: nat, keep: seq<Action> -> bool)
    requires Resting(w, pending) && Target(w, pending) + delta < HORIZON
    requires WellBehaved(cb, w.start, w.at.Keys, Target(w, pending) + delta)
    requires KeptByFiring(keep, cb, w.start) && KeptByTicks(keep) && keep(w.log)
    ensures keep(Advance(w, pending, cb, delta, limit).0.log)
  {
    hide Process, Ticks, Placed, WellBehaved, Linked, Recorded, KeptByFiring, KeptByTicks;
    BehavedEarlier(cb, w.start, w.at.Keys, Target(w, pending) + delta, w.now[0]);
    if pending == 0 {
      TicksKeep(w, cb, delta, limit, keep);
    } else {
      ProcessKeeps(w, cb, limit, 0, true, keep);
      var p := Process(w, cb, limit, 0, true);
      if p.1 {
        TicksKeep(p.0, cb, pending - 1 + delta, limit, keep);
      }
    }
  }

  // ----- Nothing else, and nothing less

  function Applied(f: Flat, actions: seq<Action>): Flat
    decreases |actions|
  {
    if actions == [] then f else Applied(Apply(f, actions[0]), actions[1..])
  }

  /** The actions of commands that are carried out one after the other. */
  function AllActs(f: Flat, cmds: seq<Command>): seq<Action>
    decreases |cmds|
  {
    if cmds == [] then [] else Acts(f, cmds[0]) + AllActs(Applied(f, Acts(f, cmds[0])), cmds[1..])
  }

  /** The last stretch of a history, from position k on: a tick, or a firing with all that the
      callback asks for when it sees the history up to its own firing. */
  predicate Stretch(start: Tick, cb: Callbacks, log: seq<Action>, k: nat)
    requires k < |log|
  {
    match log[k]
    case Ticked => k + 1 == |log|
    case Fired(_) => log[k + 1..] == AllActs(After(start, log[..k + 1]), cb(log[..k + 1]))
    case _ => false
  }

  /** A history goes on by whole stretches. */
  predicate GoesOn(start: Tick, cb: Callbacks, from: seq<Action>, to: seq<Action>)
    decreases |to|
  {
    from == to || exists k | |from| <= k < |to| :: Stretch(start, cb, to, k) && GoesOn(start, cb, from, to[..k])
  }

  lemma {:induction false} PerformAllActs(w: Wheel, cmds: seq<Command>)
    requires Inv(w) && CommandsOk(cmds, w.now[0], w.at.Keys)
    ensures PerformAll(w, cmds).log == w.log + AllActs(AsFlat(w), cmds)
    decreases |cmds|
  {
    hide Shape, Placed, Recorded, Perform, AsFlat, Acts, Apply;
    if cmds != [] {
      var t := Perform(w, cmds[0]);
      OneCommand(w, cmds[0]);
      PerformAllActs(t, cmds[1..]);
      assert PerformAll(w, cmds) == PerformAll(t, cmds[1..]);
    }
  }

  lemma OneCommand(w: Wheel, c: Command)
    requires Inv(w) && CommandOk(c, w.now[0], w.at.Keys)
    ensures var t := Perform(w, c);
            t.log == w.log + Acts(AsFlat(w), c) && AsFlat(t) == Applied(AsFlat(w), Acts(AsFlat(w), c))
  {
    hide Shape, Placed, Recorded, Perform, RangeDelta;
    PerformDoes(w, c);
    ActsApplied(w, c);
  }

  lemma ActsApplied(w: Wheel, c: Command)
    requires Shape(w) && (c.ScheduleInRange? ==> c.first < c.last < HORIZON)
    ensures Applied(AsFlat(w), Acts(AsFlat(w), c)) ==
            AsFlat(w).(due :=
              match c
              case Schedule(e, delta) => DueTicks(w)[e := w.now[0] + delta]
              case ScheduleInRange(e, first, last) =>
                if e in w.slotOf && first <= w.at[e] - w.now[0] <= last then DueTicks(w)
                else DueTicks(w)[e := w.now[0] + RangeDelta(first, last)]
              case Cancel(e) => DueTicks(w) - {e})
  {
    hide RangeDelta, Linked;
    forall a: Action
      ensures Applied(AsFlat(w), [a]) == Apply(AsFlat(w), a)
    {
      assert [a][1..] == [];
    }
  }

  /** Firing appends the firing and the actions of all commands of the callback, in order. */
  lemma FiringActs(w: Wheel, cb: Callbacks, level: nat)
    requires CanFire(w, cb, level)
    ensures var fired := w.log + [Fired(w.lists[Hand(w, level)][0])];
            FireHand(w, cb, level).log == fired + AllActs(After(w.start, fired), cb(fired))
  {
    hide Linked, Placed, Coherent, Perform, PerformAll, AllActs;
    FiredKeeps(w, level);
    var p := Popped(w, level);
    assert WellBehaved(cb, p.start, p.at.Keys, p.now[0]);
    assert CommandsOk(cb(p.log), p.now[0], p.at.Keys);
    PerformAllActs(p, cb(p.log));
  }

  lemma GoesOnByTick(start: Tick, cb: Callbacks, from: seq<Action>, log: seq<Action>)
    requires GoesOn(start, cb, from, log) && from <= log
    ensures GoesOn(start, cb, from, log + [Ticked])
  {
    var to := log + [Ticked];
    assert to[..|log|] == log;
    assert Stretch(start, cb, to, |log|);
  }

  lemma GoesOnByFiring(start: Tick, cb: Callbacks, from: seq<Action>, log: seq<Action>, e: EventId)
    requires GoesOn(start, cb, from, log) && from <= log
    ensures var fired := log + [Fired(e)];
            GoesOn(start, cb, from, fired + AllActs(After(start, fired), cb(fired)))
  {
    var fired := log + [Fired(e)];
    var to := fired + AllActs(After(start, fired), cb(fired));
    assert to[..|log|] == log && to[..|log| + 1] == fired;
    assert Stretch(start, cb, to, |log|);
  }

  lemma FiringGoesOn(w: Wheel, cb: Callbacks, level: nat, from: seq<Action>)
    requires CanFire(w, cb, level) && from <= w.log && GoesOn(w.start, cb, from, w.log)
    ensures var r := FireHand(w, cb, level); from <= r.log && GoesOn(w.start, cb, from, r.log)
  {
    hide FireHand, GoesOn, AllActs;
    FiringActs(w, cb, level);
    GoesOnByFiring(w.start, cb, from, w.log, w.lists[Hand(w, level)][0]);
  }

  /** Whatever is advanced: the history goes on by ticks, and by firings each with exactly the
      actions that its callback asked for. */
  lemma AdvancesGoOn(w: Wheel, pending: nat, cb: Callbacks, delta: nat, limit: nat)
    requires Resting(w, pending) && Target(w, pending) + delta < HORIZON
    requires WellBehaved(cb, w.start, w.at.Keys, Target(w, pending) + delta)
    ensures var r := Advance(w, pending, cb, delta, limit).0;
            w.log <= r.log && GoesOn(w.start, cb, w.log, r.log)
  {
    hide Advance, Inv, Placed, WellBehaved, GoesOn, FireHand;
    var keep := (log: seq<Action>) => w.log <= log && GoesOn(w.start, cb, w.log, log);
    GoesOnHere(w.start, cb, w.log);
    assert keep(w.log);
    forall log | keep(log)
      ensures keep(log + [Ticked])
    {
      GoesOnByTick(w.start, cb, w.log, log);
    }
    forall v, level | CanFire(v, cb, level) && v.start == w.start && keep(v.log)
      ensures keep(FireHand(v, cb, level).log)
    {
      FiringGoesOn(v, cb, level, w.log);
    }
    AdvanceKeeps(w, pending, cb, delta, limit, keep);
  }

  lemma GoesOnHere(start: Tick, cb: Callbacks, log: seq<Action>)
    ensures GoesOn(start, cb, log, log)
  {
  }
}
