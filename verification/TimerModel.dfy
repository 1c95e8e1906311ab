/** The hierarchical timer wheel on values: eight wheels of 256 slots, each slot a list of
    events with the most recently linked one first.

    Every function keeps the invariant `Inv`, which contains the refinement: replaying the
    wheel's whole history on the flat specification is legal and ends in the wheel's own
    clock and due ticks. */
module TimerModel {
  import opened FlatTimers
  import opened TimerArith

  datatype Slot = Slot(level: nat, index: nat)

  predicate ValidSlot(s: Slot) {
    s.level < 8 && s.index < 256
  }

  /** `at` has an entry for every event that may ever be scheduled; `slotOf` only for the
      active ones. The history `log` is what callbacks can base their decisions on. */
  datatype Wheel = Wheel(
    start: Tick,
    now: seq<nat>,
    lists: map<Slot, seq<EventId>>,
    slotOf: map<EventId, Slot>,
    at: map<EventId, Tick>,
    log: seq<Action>)

  /** What a callback, or any other caller, may ask the wheel to do. */
  datatype Command =
    | Schedule(e: EventId, delta: nat)
    | ScheduleInRange(e: EventId, first: nat, last: nat)
    | Cancel(e: EventId)

  /** A callback sees the history up to and including its own firing. */
  type Callbacks = seq<Action> -> seq<Command>

  // ----- Invariants

  predicate NoDuplicates(l: seq<EventId>) {
    forall i, j :: 0 <= i < j < |l| ==> l[i] != l[j]
  }

  ghost predicate SlotLinked(l: seq<EventId>, s: Slot, slotOf: map<EventId, Slot>) {
    NoDuplicates(l) && forall e :: e in l ==> e in slotOf && slotOf[e] == s
  }

  ghost predicate EventLinked(lists: map<Slot, seq<EventId>>, slotOf: map<EventId, Slot>, e: EventId)
    requires e in slotOf
  {
    slotOf[e] in lists && e in lists[slotOf[e]]
  }

  /** Every active event is in exactly one list, once, and `slotOf` says which. */
  ghost predicate Linked(lists: map<Slot, seq<EventId>>, slotOf: map<EventId, Slot>) {
    && (forall s :: s in lists <==> ValidSlot(s))
    && (forall e :: e in slotOf ==> ValidSlot(slotOf[e]))
    && (forall s {:trigger SlotLinked(lists[s], s, slotOf)} :: s in lists ==> SlotLinked(lists[s], s, slotOf))
    && (forall e {:trigger EventLinked(lists, slotOf, e)} :: e in slotOf ==> EventLinked(lists, slotOf, e))
  }

  ghost predicate Shape(w: Wheel) {
    |w.now| == 8 && Linked(w.lists, w.slotOf) && w.slotOf.Keys <= w.at.Keys
  }

  /** An event due at `at` belongs in slot s: the slot is the due tick's byte at that level and
      lies 1 to 255 steps ahead of the hand. It may also lie under the hand, but only at a
      level inside `drained`, whose inner hands all point at slot 0. */
  ghost predicate Fits(now: seq<nat>, s: Slot, at: Tick, drained: nat)
    requires |now| == 8 && ValidSlot(s)
  {
    && at < HORIZON
    && s.index == Shr(at, s.level) % 256
    && now[s.level] <= Shr(at, s.level) < now[s.level] + 256
    && (now[s.level] == Shr(at, s.level) ==> s.level < drained && ZeroBelow(now, s.level))
  }

  ghost predicate EventPlaced(w: Wheel, e: EventId, drained: nat)
    requires Shape(w) && e in w.slotOf
  {
    Fits(w.now, w.slotOf[e], w.at[e], drained)
  }

  ghost predicate Placed(w: Wheel, drained: nat)
    requires Shape(w)
  {
    forall e {:trigger EventPlaced(w, e, drained)} :: e in w.slotOf ==> EventPlaced(w, e, drained)
  }

  ghost function DueTicks(w: Wheel): map<EventId, Tick>
    requires Shape(w)
  {
    map e | e in w.slotOf :: w.at[e]
  }

  /** The refinement: the history is a legal run of the flat specification and explains the
      wheel's state. */
  ghost predicate Recorded(w: Wheel)
    requires Shape(w)
  {
    Legal(w.start, w.log) && After(w.start, w.log) == Flat(w.now[0], DueTicks(w))
  }

  ghost predicate Inv(w: Wheel) {
    Shape(w) && Coherent(w.now) && w.now[0] < HORIZON && Placed(w, 8) && Recorded(w)
  }

  /** No event is due at or before the current tick. */
  ghost predicate Quiet(w: Wheel)
    requires Shape(w)
  {
    forall e :: e in w.slotOf ==> w.now[0] < w.at[e]
  }

  /** The lists under the hands of the wheels did not grow. */
  ghost predicate HandsShrink(w: Wheel, r: Wheel)
    requires Shape(w) && Shape(r)
  {
    forall s :: ValidSlot(s) && s.index == w.now[s.level] % 256 ==> |r.lists[s]| <= |w.lists[s]|
  }

  /** The parts that no operation other than a tick changes. */
  ghost predicate SameFrame(w: Wheel, r: Wheel) {
    r.start == w.start && r.now == w.now && r.at.Keys == w.at.Keys
  }

  // ----- Linking and unlinking

  function Without(l: seq<EventId>, e: EventId): (r: seq<EventId>)
    ensures e !in l ==> r == l
    ensures |r| <= |l|
    ensures forall x :: x in r ==> x in l
    ensures forall x :: x in l && x != e ==> x in r
  {
    if l == [] then []
    else if l[0] == e then l[1..]
    else [l[0]] + Without(l[1..], e)
  }

  lemma {:induction false} WithoutAt(l: seq<EventId>, i: nat)
    requires NoDuplicates(l) && i < |l|
    ensures Without(l, l[i]) == l[..i] + l[i + 1..]
    ensures l[i] !in Without(l, l[i]) && NoDuplicates(Without(l, l[i]))
  {
    if i > 0 {
      WithoutAt(l[1..], i - 1);
      assert l[1..][..i - 1] == l[1..i] && l[1..][i..] == l[i + 1..];
    }
  }

  lemma UnlinkLinked(lists: map<Slot, seq<EventId>>, slotOf: map<EventId, Slot>, e: EventId)
    requires Linked(lists, slotOf) && e in slotOf
    ensures Linked(lists[slotOf[e] := Without(lists[slotOf[e]], e)], slotOf - {e})
  {
    var s := slotOf[e];
    assert EventLinked(lists, slotOf, e);
    var i :| 0 <= i < |lists[s]| && lists[s][i] == e;
    assert SlotLinked(lists[s], s, slotOf);
    WithoutAt(lists[s], i);
    var lists', slotOf' := lists[s := Without(lists[s], e)], slotOf - {e};
    forall t | t in lists'
      ensures SlotLinked(lists'[t], t, slotOf')
    {
      assert SlotLinked(lists[t], t, slotOf);
    }
    forall x | x in slotOf'
      ensures EventLinked(lists', slotOf', x)
    {
      assert EventLinked(lists, slotOf, x);
    }
  }

  function Unlink(w: Wheel, e: EventId): (r: Wheel)
    requires Shape(w)
    ensures Shape(r) && r.slotOf == w.slotOf - {e} && r == w.(lists := r.lists, slotOf := r.slotOf)
    ensures forall t :: t in w.lists ==> |r.lists[t]| <= |w.lists[t]|
  {
    if e !in w.slotOf then w
    else
      UnlinkLinked(w.lists, w.slotOf, e);
      w.(lists := w.lists[w.slotOf[e] := Without(w.lists[w.slotOf[e]], e)], slotOf := w.slotOf - {e})
  }

  lemma PushLinked(lists: map<Slot, seq<EventId>>, slotOf: map<EventId, Slot>, e: EventId, s: Slot)
    requires Linked(lists, slotOf) && e !in slotOf && ValidSlot(s)
    ensures Linked(lists[s := [e] + lists[s]], slotOf[e := s])
  {
    var lists', slotOf' := lists[s := [e] + lists[s]], slotOf[e := s];
    forall t | t in lists'
      ensures SlotLinked(lists'[t], t, slotOf')
    {
      assert SlotLinked(lists[t], t, slotOf);
    }
    forall x | x in slotOf'
      ensures EventLinked(lists', slotOf', x)
    {
      assert x != e ==> EventLinked(lists, slotOf, x);
    }
  }

  function PushFront(w: Wheel, e: EventId, s: Slot): (r: Wheel)
    requires Shape(w) && ValidSlot(s) && e in w.at && e !in w.slotOf
    ensures Shape(r) && r.slotOf == w.slotOf[e := s] && r == w.(lists := r.lists, slotOf := r.slotOf)
    ensures forall t :: t in w.lists && t != s ==> r.lists[t] == w.lists[t]
  {
    PushLinked(w.lists, w.slotOf, e, s);
    w.(lists := w.lists[s := [e] + w.lists[s]], slotOf := w.slotOf[e := s])
  }

  /** Moving an event to the slot it is already in leaves its position alone. */
  function Relink(w: Wheel, e: EventId, s: Slot): (r: Wheel)
    requires Shape(w) && ValidSlot(s) && e in w.at
    ensures Shape(r) && r.slotOf == w.slotOf[e := s] && r == w.(lists := r.lists, slotOf := r.slotOf)
    ensures forall t :: t in w.lists && t != s ==> |r.lists[t]| <= |w.lists[t]|
  {
    if e in w.slotOf && w.slotOf[e] == s then w
    else PushFront(Unlink(w, e), e, s)
  }

  // ----- Scheduling

  /** The level loop of `schedule`: the level to use and the distance there. */
  function LevelFor(now: seq<nat>, delta: nat, level: nat, ghost at: Tick): (r: (nat, nat))
    requires Coherent(now) && level < 8 && at < HORIZON
    requires now[level] + delta == Shr(at, level)
    ensures r.0 < 8 && r.1 < 256
    ensures now[r.0] + r.1 == Shr(at, r.0)
    ensures delta > 0 ==> r.1 > 0
    decreases 8 - level, now
  {
    if delta < 256 then (level, delta)
    else
      ShrTop(at);
      assert level < 7;
      assert Agree(now, level);
      assert Shr(at, level + 1) == Shr(at, level) / 256;
      LevelFor(now, (delta + now[level] % 256) / 256, level + 1, at)
  }

  /** The slot that an event due `delta` ticks ahead belongs in; never one under a hand. */
  function TargetSlot(now: seq<nat>, delta: nat): (s: Slot)
    requires Coherent(now) && delta > 0 && now[0] + delta < HORIZON
    ensures ValidSlot(s) && Fits(now, s, now[0] + delta, 0)
    ensures s.index != now[s.level] % 256
  {
    var (level, d) := LevelFor(now, delta, 0, now[0] + delta);
    Slot(level, (now[level] + d) % 256)
  }

  /** Unchanged events and freshly placed ones keep the placement invariant. */
  lemma KeepsPlaced(w: Wheel, r: Wheel)
    requires Shape(w) && Shape(r) && r.now == w.now
    requires forall x :: x in r.slotOf ==>
                           (x in w.slotOf && r.slotOf[x] == w.slotOf[x] && r.at[x] == w.at[x])
                           || Fits(r.now, r.slotOf[x], r.at[x], 0)
    ensures forall k :: Placed(w, k) ==> Placed(r, k)
  {
    forall k | Placed(w, k)
      ensures Placed(r, k)
    {
      forall x | x in r.slotOf
        ensures EventPlaced(r, x, k)
      {
        assert x in w.slotOf ==> EventPlaced(w, x, k);
      }
    }
  }

  /** `schedule` without the entry in the history: also used to promote an event. */
  function Insert(w: Wheel, e: EventId, delta: nat): (r: Wheel)
    requires Shape(w) && Coherent(w.now) && e in w.at
    requires delta > 0 && w.now[0] + delta < HORIZON
    ensures Shape(r) && SameFrame(w, r) && HandsShrink(w, r)
    ensures r.log == w.log && r.at == w.at[e := w.now[0] + delta]
    ensures r.slotOf == w.slotOf[e := TargetSlot(w.now, delta)]
  {
    Relink(w.(at := w.at[e := w.now[0] + delta]), e, TargetSlot(w.now, delta))
  }

  /** Re-placing one event in a fitting slot keeps the placement and, with its entry in the
      history, the refinement. */
  lemma ScheduleKeeps(w: Wheel, r: Wheel, e: EventId, s: Slot, at: Tick)
    requires Inv(w) && Shape(r) && ValidSlot(s)
    requires r.start == w.start && r.now == w.now && w.now[0] < at && Fits(w.now, s, at, 0)
    requires r.slotOf == w.slotOf[e := s] && r.at == w.at[e := at]
    requires r.log == w.log + [Scheduled(e, at)]
    ensures Recorded(r) && forall k :: Placed(w, k) ==> Placed(r, k)
  {
    AppendAction(w.start, w.log, Scheduled(e, at));
    assert DueTicks(r) == DueTicks(w)[e := at];
    KeepsPlaced(w, r);
  }

  function ScheduleEvent(w: Wheel, e: EventId, delta: nat): (r: Wheel)
    requires Inv(w) && e in w.at
    requires delta > 0 && w.now[0] + delta < HORIZON
    ensures Inv(r) && SameFrame(w, r) && HandsShrink(w, r)
    ensures forall k :: Placed(w, k) ==> Placed(r, k)
    ensures r.log == w.log + [Scheduled(e, w.now[0] + delta)]
    ensures e in r.slotOf && r.at[e] == w.now[0] + delta
  {
    var r := Insert(w, e, delta).(log := w.log + [Scheduled(e, w.now[0] + delta)]);
    ScheduleKeeps(w, r, e, TargetSlot(w.now, delta), w.now[0] + delta);
    r
  }

  function CancelEvent(w: Wheel, e: EventId): (r: Wheel)
    requires Inv(w)
    ensures Inv(r) && SameFrame(w, r) && HandsShrink(w, r)
    ensures forall k :: Placed(w, k) ==> Placed(r, k)
    ensures r.log == w.log + [Cancelled(e)]
    ensures e !in r.slotOf
  {
    var r := Unlink(w, e).(log := w.log + [Cancelled(e)]);
    AppendAction(w.start, w.log, Cancelled(e));
    assert DueTicks(r) == DueTicks(w) - {e};
    KeepsPlaced(w, r);
    r
  }

  function ScheduleEventInRange(w: Wheel, e: EventId, first: nat, last: nat): (r: Wheel)
    requires Inv(w) && e in w.at
    requires first < last < HORIZON && RangeDelta(first, last) > 0 && w.now[0] + last < HORIZON
    ensures Inv(r) && SameFrame(w, r) && HandsShrink(w, r)
    ensures forall k :: Placed(w, k) ==> Placed(r, k)
    ensures e in r.slotOf
    ensures if e in w.slotOf && first <= w.at[e] - w.now[0] <= last then r == w
            else r.at[e] == w.now[0] + RangeDelta(first, last)
    ensures last < RANGE_HORIZON ==> w.now[0] + first <= r.at[e] <= w.now[0] + last
  {
    if e in w.slotOf && first <= w.at[e] - w.now[0] <= last then w
    else
      RangeDeltaInRange(first, last);
      RangeDeltaAtMost(first, last);
      ScheduleEvent(w, e, RangeDelta(first, last))
  }

  // ----- Commands of callbacks

  predicate CommandOk(c: Command, clock: Tick, pool: set<EventId>) {
    match c
    case Schedule(e, delta) => e in pool && delta > 0 && clock + delta < HORIZON
    case ScheduleInRange(e, first, last) => e in pool && first < last < HORIZON && RangeDelta(first, last) > 0 && clock + last < HORIZON
    case Cancel(e) => e in pool
  }

  ghost predicate CommandsOk(cmds: seq<Command>, clock: Tick, pool: set<EventId>) {
    forall i :: 0 <= i < |cmds| ==> CommandOk(cmds[i], clock, pool)
  }

  /** Up to the tick `end`, callbacks meet the demands of the scheduling functions. */
  ghost predicate WellBehaved(cb: Callbacks, start: Tick, pool: set<EventId>, end: Tick) {
    forall log {:trigger cb(log)} ::
      Legal(start, log) && After(start, log).clock <= end ==> CommandsOk(cb(log), After(start, log).clock, pool)
  }

  lemma BehavedEarlier(cb: Callbacks, start: Tick, pool: set<EventId>, end: Tick, earlier: Tick)
    requires WellBehaved(cb, start, pool, end) && earlier <= end
    ensures WellBehaved(cb, start, pool, earlier)
  {
  }

  function Perform(w: Wheel, c: Command): (r: Wheel)
    requires Inv(w) && CommandOk(c, w.now[0], w.at.Keys)
    ensures Inv(r) && SameFrame(w, r) && HandsShrink(w, r)
    ensures forall k :: Placed(w, k) ==> Placed(r, k)
  {
    match c
    case Schedule(e, delta) => ScheduleEvent(w, e, delta)
    case ScheduleInRange(e, first, last) => ScheduleEventInRange(w, e, first, last)
    case Cancel(e) => CancelEvent(w, e)
  }

  /** What the specification records of a command: the actions to be appended to the history. A
      range that is none is not to be asked for. */
  function Acts(f: Flat, c: Command): seq<Action> {
    match c
    case Schedule(e, delta) => [Scheduled(e, f.clock + delta)]
    case ScheduleInRange(e, first, last) =>
      if e in f.due && first <= f.due[e] - f.clock <= last then []
      else if first < last < HORIZON then [Scheduled(e, f.clock + RangeDelta(first, last))]
      else []
    case Cancel(e) => [Cancelled(e)]
  }

  /** The wheel as the specification sees it. */
  ghost function AsFlat(w: Wheel): Flat
    requires Shape(w)
  {
    Flat(w.now[0], DueTicks(w))
  }

  /** A command enters the history as its action, and does to the due ticks what the action
      says: a cancelled event is due no more, a scheduled one is due at its new tick, and all
      others are left alone. */
  lemma PerformDoes(w: Wheel, c: Command)
    requires Inv(w) && CommandOk(c, w.now[0], w.at.Keys)
    ensures var r := Perform(w, c);
            && r.log == w.log + Acts(AsFlat(w), c)
            && AsFlat(r) == AsFlat(w).(due :=
                 match c
                 case Schedule(e, delta) => DueTicks(w)[e := w.now[0] + delta]
                 case ScheduleInRange(e, first, last) =>
                   if e in w.slotOf && first <= w.at[e] - w.now[0] <= last then DueTicks(w)
                   else DueTicks(w)[e := w.now[0] + RangeDelta(first, last)]
                 case Cancel(e) => DueTicks(w) - {e})
  {
    hide ScheduleEvent, ScheduleEventInRange, CancelEvent, Shape, Placed, Recorded, HandsShrink, RangeDelta;
    DueActs(w);
    match c
    case Schedule(e, delta) => AppendedIsFlat(w, ScheduleEvent(w, e, delta), Scheduled(e, w.now[0] + delta));
    case ScheduleInRange(e, first, last) =>
      RangeActs(w, e, first, last);
      if Acts(AsFlat(w), c) != [] {
        AppendedIsFlat(w, Perform(w, c), Scheduled(e, w.now[0] + RangeDelta(first, last)));
      }
    case Cancel(e) => AppendedIsFlat(w, CancelEvent(w, e), Cancelled(e));
  }

  lemma DueActs(w: Wheel)
    requires Shape(w)
    ensures forall e :: e in DueTicks(w) <==> e in w.slotOf
    ensures forall e :: e in w.slotOf ==> DueTicks(w)[e] == w.at[e]
  {
  }

  lemma RangeActs(w: Wheel, e: EventId, first: nat, last: nat)
    requires Inv(w) && CommandOk(ScheduleInRange(e, first, last), w.now[0], w.at.Keys)
    ensures ScheduleEventInRange(w, e, first, last).log == w.log + Acts(AsFlat(w), ScheduleInRange(e, first, last))
    ensures Acts(AsFlat(w), ScheduleInRange(e, first, last)) == [] ==> ScheduleEventInRange(w, e, first, last) == w
  {
    hide ScheduleEvent, Linked, Placed, Recorded, HandsShrink, RangeDelta;
    RangeDeltaAtMost(first, last);
  }

  /** What is recorded of a wheel's next action is what the wheel has done. */
  lemma AppendedIsFlat(w: Wheel, r: Wheel, a: Action)
    requires Shape(w) && Recorded(w) && Shape(r) && Recorded(r) && r.start == w.start && r.log == w.log + [a]
    ensures AsFlat(r) == Apply(AsFlat(w), a)
  {
    AppendAction(w.start, w.log, a);
  }

  function PerformAll(w: Wheel, cmds: seq<Command>): (r: Wheel)
    requires Inv(w)
    requires CommandsOk(cmds, w.now[0], w.at.Keys)
    ensures Inv(r) && SameFrame(w, r) && HandsShrink(w, r)
    ensures forall k :: Placed(w, k) ==> Placed(r, k)
    decreases |cmds|
  {
    hide Shape, Placed, Recorded, Perform;
    HandsStay(w);
    if cmds == [] then w
    else
      var t := Perform(w, cmds[0]);
      var r := PerformAll(t, cmds[1..]);
      HandsShrinkTwice(w, t, r);
      r
  }

  lemma HandsStay(w: Wheel)
    requires Shape(w)
    ensures HandsShrink(w, w)
  {
  }

  lemma HandsShrinkTwice(w: Wheel, t: Wheel, r: Wheel)
    requires Shape(w) && Shape(t) && Shape(r) && SameFrame(w, t)
    requires HandsShrink(w, t) && HandsShrink(t, r)
    ensures HandsShrink(w, r)
  {
  }

  /** A new wheel at tick `start` that knows the events of `pool`. */
  function NewWheel(start: Tick, pool: set<EventId>): (w: Wheel)
    requires start < HORIZON
    ensures Resting(w, 0) && w.start == start && w.at.Keys == pool
    ensures w.now[0] == start && w.slotOf == map[] && w.log == []
  {
    var w := Wheel(start, seq(8, i requires 0 <= i < 8 => Shr(start, i)),
                   map l, i | 0 <= l < 8 && 0 <= i < 256 :: Slot(l, i) := [],
                   map[], map e | e in pool :: 0, []);
    w
  }

  // ----- Advancing

  /** `--max_events` on an unsigned 64-bit counter. */
  function Decrement(limit: nat): nat {
    if limit == 0 then HORIZON - 1 else limit - 1
  }

  /** The slot under the hand of a level. */
  function Hand(w: Wheel, level: nat): Slot
    requires |w.now| == 8 && level < 8
  {
    Slot(level, w.now[level] % 256)
  }

  function PopFront(w: Wheel, s: Slot): (r: Wheel)
    requires Shape(w) && ValidSlot(s) && w.lists[s] != []
    ensures Shape(r) && w.lists[s][0] in w.slotOf && r.slotOf == w.slotOf - {w.lists[s][0]}
    ensures |r.lists[s]| < |w.lists[s]|
    ensures r.lists == w.lists[s := w.lists[s][1..]] && r == w.(lists := r.lists, slotOf := r.slotOf)
  {
    assert SlotLinked(w.lists[s], s, w.slotOf);
    UnlinkLinked(w.lists, w.slotOf, w.lists[s][0]);
    w.(lists := w.lists[s := w.lists[s][1..]], slotOf := w.slotOf - {w.lists[s][0]})
  }

  /** An event under the hand of a level that is being drained is not in the past; under the
      hand of the innermost wheel it is due right now. */
  lemma UnderHand(w: Wheel, level: nat)
    requires Inv(w) && level < 8 && ZeroBelow(w.now, level)
    requires w.lists[Hand(w, level)] != []
    ensures var e := w.lists[Hand(w, level)][0];
            e in w.slotOf && w.slotOf[e] == Hand(w, level) && w.now[0] <= w.at[e] < HORIZON
            && Shr(w.at[e], level) == w.now[level]
            && (level == 0 ==> w.at[e] == w.now[0])
  {
    var e := w.lists[Hand(w, level)][0];
    assert SlotLinked(w.lists[Hand(w, level)], Hand(w, level), w.slotOf);
    assert EventPlaced(w, e, 8);
    NotPast(w.now, w.at[e], level);
  }

  /** The wheel when the callback of the event under the hand starts: the event is popped and
      its firing recorded. */
  function Popped(w: Wheel, level: nat): (r: Wheel)
    requires Shape(w) && level < 8 && w.lists[Hand(w, level)] != []
    ensures r.log == w.log + [Fired(w.lists[Hand(w, level)][0])]
  {
    PopFront(w, Hand(w, level)).(log := w.log + [Fired(w.lists[Hand(w, level)][0])])
  }

  lemma FiredKeeps(w: Wheel, level: nat)
    requires Inv(w) && level < 8 && ZeroBelow(w.now, level)
    requires var l := w.lists[Hand(w, level)]; l != [] && l[0] in w.at && w.at[l[0]] <= w.now[0]
    ensures var r := Popped(w, level);
            Inv(r) && SameFrame(w, r) && forall k :: Placed(w, k) ==> Placed(r, k)
  {
    var e, r := w.lists[Hand(w, level)][0], Popped(w, level);
    UnderHand(w, level);
    AppendAction(w.start, w.log, Fired(e));
    assert DueTicks(r) == DueTicks(w) - {e};
    KeepsPlaced(w, r);
  }

  /** Popping the event under the hand and running its callback. */
  function FireHand(w: Wheel, cb: Callbacks, level: nat): (r: Wheel)
    requires Inv(w) && level < 8 && ZeroBelow(w.now, level)
    requires WellBehaved(cb, w.start, w.at.Keys, w.now[0])
    requires var l := w.lists[Hand(w, level)]; l != [] && l[0] in w.at && w.at[l[0]] <= w.now[0]
    ensures Inv(r) && SameFrame(w, r)
    ensures forall k :: Placed(w, k) ==> Placed(r, k)
    ensures |r.lists[Hand(w, level)]| < |w.lists[Hand(w, level)]|
  {
    FiredKeeps(w, level);
    PerformAll(Popped(w, level), cb(Popped(w, level).log))
  }

  /** Popping the event under the hand of an outer wheel and scheduling it anew: it moves to a
      wheel strictly further in. */
  function Promote(w: Wheel, level: nat): (r: Wheel)
    requires Inv(w) && level < 8 && ZeroBelow(w.now, level)
    requires var l := w.lists[Hand(w, level)]; l != [] && l[0] in w.at && w.now[0] < w.at[l[0]]
    ensures Inv(r) && SameFrame(w, r) && r.log == w.log
    ensures forall k :: Placed(w, k) ==> Placed(r, k)
    ensures |r.lists[Hand(w, level)]| < |w.lists[Hand(w, level)]|
    ensures var e := w.lists[Hand(w, level)][0]; e in r.slotOf && r.slotOf[e].level < level
  {
    var e := w.lists[Hand(w, level)][0];
    UnderHand(w, level);
    var r := Insert(PopFront(w, Hand(w, level)), e, w.at[e] - w.now[0]);
    PromoteKeeps(w, r, e, TargetSlot(w.now, w.at[e] - w.now[0]));
    StrictlyInside(w.now, w.at[e], level, r.slotOf[e]);
    r
  }

  lemma PromoteKeeps(w: Wheel, r: Wheel, e: EventId, s: Slot)
    requires Inv(w) && Shape(r) && e in w.slotOf && ValidSlot(s)
    requires r.start == w.start && r.now == w.now && r.log == w.log && r.at == w.at
    requires r.slotOf == w.slotOf[e := s] && Fits(w.now, s, w.at[e], 0)
    ensures Recorded(r) && forall k :: Placed(w, k) ==> Placed(r, k)
  {
    assert DueTicks(r) == DueTicks(w);
    KeepsPlaced(w, r);
  }

  lemma StrictlyInside(now: seq<nat>, at: Tick, level: nat, s: Slot)
    requires Coherent(now) && level < 8 && ValidSlot(s)
    requires Shr(at, level) == now[level] && Fits(now, s, at, 0)
    ensures s.level < level
  {
    CoherentShr(now, level);
    CoherentShr(now, s.level);
    if level <= s.level {
      ShrEqualAbove(at, now[0], level, s.level);
    }
  }

  /** The drain loop of `process_current_slot`. False means the limit was reached. */
  function Drain(w: Wheel, cb: Callbacks, limit: nat, level: nat): (r: (Wheel, bool))
    requires Inv(w) && level < 8 && ZeroBelow(w.now, level) && Placed(w, level + 1)
    requires WellBehaved(cb, w.start, w.at.Keys, w.now[0])
    ensures Inv(r.0) && SameFrame(w, r.0) && Placed(r.0, level + 1)
    ensures r.1 ==> Placed(r.0, level)
    decreases |w.lists[Hand(w, level)]|
  {
    var l := w.lists[Hand(w, level)];
    if l == [] then
      HandClear(w, level);
      (w, true)
    else
      UnderHand(w, level);
      if level > 0 && w.now[0] < w.at[l[0]] then
        Drain(Promote(w, level), cb, limit, level)
      else
        var w' := FireHand(w, cb, level);
        if Decrement(limit) == 0 then (w', false)
        else Drain(w', cb, Decrement(limit), level)
  }

  /** One round of the drain loop: the wheel after the first event under the hand has been
      promoted or fired, and the limit that is left. */
  function Round(w: Wheel, cb: Callbacks, limit: nat, level: nat): (r: (Wheel, nat))
    requires Inv(w) && level < 8 && ZeroBelow(w.now, level) && Placed(w, level + 1)
    requires WellBehaved(cb, w.start, w.at.Keys, w.now[0])
    requires w.lists[Hand(w, level)] != []
    ensures Inv(r.0) && SameFrame(w, r.0) && Placed(r.0, level + 1)
    ensures |r.0.lists[Hand(w, level)]| < |w.lists[Hand(w, level)]|
    ensures limit > 0 ==> limit - 1 <= r.1
  {
    UnderHand(w, level);
    if level > 0 && w.now[0] < w.at[w.lists[Hand(w, level)][0]] then (Promote(w, level), limit)
    else (FireHand(w, cb, level), Decrement(limit))
  }

  lemma DrainRound(w: Wheel, cb: Callbacks, limit: nat, level: nat)
    requires Inv(w) && level < 8 && ZeroBelow(w.now, level) && Placed(w, level + 1)
    requires WellBehaved(cb, w.start, w.at.Keys, w.now[0])
    requires w.lists[Hand(w, level)] != []
    ensures var r := Round(w, cb, limit, level);
            if r.1 == 0 && limit != 0 then Drain(w, cb, limit, level) == (r.0, false)
            else Drain(w, cb, limit, level) == Drain(r.0, cb, r.1, level)
  {
    UnderHand(w, level);
  }

  lemma HandClear(w: Wheel, level: nat)
    requires Inv(w) && level < 8 && Placed(w, level + 1)
    requires w.lists[Hand(w, level)] == []
    ensures Placed(w, level)
  {
    forall e | e in w.slotOf
      ensures EventPlaced(w, e, level)
    {
      assert EventPlaced(w, e, level + 1);
      assert EventLinked(w.lists, w.slotOf, e);
    }
  }

  // ----- Cascading

  /** Between `++now_[level]` and the tick of the next level: the hands up to `level` show the
      new tick, the outer ones still the previous tick. */
  ghost predicate HalfTicked(w: Wheel, level: nat) {
    && Shape(w) && level < 8 && w.now[0] < HORIZON && Recorded(w)
    && ZeroBelow(w.now, level)
    && (forall j {:trigger Agree(w.now, j)} :: 0 <= j < level ==> Agree(w.now, j))
    && w.now[level] > 0
    && (level < 7 ==> w.now[level + 1] == (w.now[level] - 1) / 256)
    && (forall j {:trigger Agree(w.now, j)} :: level < j < 7 ==> Agree(w.now, j))
    && (forall e {:trigger EventHalfPlaced(w, e, level)} :: e in w.slotOf ==> EventHalfPlaced(w, e, level))
  }

  ghost predicate EventHalfPlaced(w: Wheel, e: EventId, level: nat)
    requires Shape(w) && e in w.slotOf
  {
    var s, at := w.slotOf[e], w.at[e];
    && at < HORIZON
    && s.index == Shr(at, s.level) % 256
    && w.now[s.level] <= Shr(at, s.level) < w.now[s.level] + 256
    && (w.now[s.level] == Shr(at, s.level) ==> s.level <= level)
  }

  /** `++now_[0]` at the start of a tick. */
  function TickInner(w: Wheel): (r: Wheel)
    requires Inv(w) && Placed(w, 0) && w.now[0] + 1 < HORIZON
    ensures HalfTicked(r, 0) && r.start == w.start && r.at == w.at
    ensures r.now[0] == w.now[0] + 1 && r.log == w.log + [Ticked]
  {
    var r := w.(now := w.now[0 := w.now[0] + 1], log := w.log + [Ticked]);
    AppendAction(w.start, w.log, Ticked);
    PlacedIsQuiet(w);
    assert DueTicks(r) == DueTicks(w);
    assert Agree(w.now, 0);
    forall j | 0 < j < 7
      ensures Agree(r.now, j)
    {
      assert Agree(w.now, j);
    }
    TickPlaced(w, r, 0);
    r
  }

  /** `++now_[level]` of an outer wheel. */
  function TickOuter(w: Wheel, level: nat): (r: Wheel)
    requires 0 < level < 8 && HalfTicked(w, level - 1) && w.now[level - 1] % 256 == 0
    ensures HalfTicked(r, level) && r.start == w.start && r.at == w.at
    ensures r.log == w.log && forall j :: 0 <= j < level ==> r.now[j] == w.now[j]
  {
    var r := w.(now := w.now[level := w.now[level] + 1]);
    assert DueTicks(r) == DueTicks(w);
    forall j | 0 <= j < 7 && (j < level || level < j)
      ensures Agree(r.now, j)
    {
      assert j != level - 1 ==> Agree(w.now, j);
    }
    assert level < 7 ==> Agree(w.now, level);
    forall e | e in r.slotOf
      ensures EventHalfPlaced(r, e, level)
    {
      assert EventHalfPlaced(w, e, level - 1);
    }
    r
  }

  lemma TickPlaced(w: Wheel, r: Wheel, level: nat)
    requires Shape(w) && Shape(r) && Placed(w, 0)
    requires r == w.(now := w.now[0 := w.now[0] + 1], log := r.log)
    ensures forall e :: e in r.slotOf ==> EventHalfPlaced(r, e, 0)
  {
    forall e | e in r.slotOf
      ensures EventHalfPlaced(r, e, 0)
    {
      assert EventPlaced(w, e, 0);
    }
  }

  lemma PlacedIsQuiet(w: Wheel)
    requires Inv(w) && Placed(w, 0)
    ensures Quiet(w)
  {
    forall e | e in w.slotOf
      ensures w.now[0] < w.at[e]
    {
      assert EventPlaced(w, e, 0);
      CoherentShr(w.now, w.slotOf[e].level);
      if w.at[e] <= w.now[0] {
        ShrMonotone(w.at[e], w.now[0], w.slotOf[e].level);
      }
    }
  }

  /** Once a hand is not at slot 0 no further wheel ticks. */
  lemma FullyTicked(w: Wheel, level: nat)
    requires HalfTicked(w, level)
    requires w.now[level] % 256 != 0 || level == 7
    ensures Inv(w) && Placed(w, level + 1)
  {
    assert level < 7 ==> Agree(w.now, level);
    forall e | e in w.slotOf
      ensures EventPlaced(w, e, level + 1) && EventPlaced(w, e, 8)
    {
      assert EventHalfPlaced(w, e, level);
    }
  }

  lemma NoWheelBeyond(w: Wheel, level: nat)
    requires Inv(w) && level < 8
    requires w.now[level] % 256 != 0 || level == 7
    ensures Placed(w, level + 1)
  {
    forall e | e in w.slotOf
      ensures EventPlaced(w, e, level + 1)
    {
      assert EventPlaced(w, e, 8);
    }
  }

  /** What `process_current_slot` may be called with: in the middle of a tick, or, when
      resuming a partial tick, with every wheel ticked and possibly undrained. */
  ghost predicate Processable(w: Wheel, level: nat, resuming: bool) {
    level < 8 &&
    if resuming then Inv(w) && ZeroBelow(w.now, level) else HalfTicked(w, level)
  }

  /** `process_current_slot`: first the next wheel, if this one has gone round, then the slot
      under the hand. When resuming, the outer wheels have ticked already. */
  function Process(w: Wheel, cb: Callbacks, limit: nat, level: nat, resuming: bool): (r: (Wheel, bool))
    requires Processable(w, level, resuming)
    requires WellBehaved(cb, w.start, w.at.Keys, w.now[0])
    ensures Inv(r.0) && r.0.start == w.start && r.0.at.Keys == w.at.Keys
    ensures forall j :: 0 <= j <= level ==> r.0.now[j] == w.now[j]
    ensures r.1 ==> Placed(r.0, level)
    decreases 8 - level, w
  {
    if w.now[level] % 256 == 0 && level < 7 then
      var outer := Process(if resuming then w else TickOuter(w, level + 1), cb, limit, level + 1, resuming);
      if outer.1 then Drain(outer.0, cb, limit, level) else outer
    else
      BeforeDrain(w, level, resuming);
      Drain(w, cb, limit, level)
  }

  /** `advance(1)` of an outer wheel: the hand moves, unless it already has, and its slot is
      processed. */
  function Outer(w: Wheel, cb: Callbacks, limit: nat, level: nat, resuming: bool): (r: (Wheel, bool))
    requires 0 < level < 8 && Processable(w, level - 1, resuming) && w.now[level - 1] % 256 == 0
    requires WellBehaved(cb, w.start, w.at.Keys, w.now[0])
    ensures Inv(r.0) && r.0.start == w.start && r.0.at.Keys == w.at.Keys
    ensures forall j :: 0 <= j < level ==> r.0.now[j] == w.now[j]
    ensures r.1 ==> Placed(r.0, level)
  {
    Process(if resuming then w else TickOuter(w, level), cb, limit, level, resuming)
  }

  lemma ProcessRound(w: Wheel, cb: Callbacks, limit: nat, level: nat, resuming: bool)
    requires Processable(w, level, resuming)
    requires WellBehaved(cb, w.start, w.at.Keys, w.now[0])
    ensures w.now[level] % 256 == 0 && level < 7 ==>
              var outer := Outer(w, cb, limit, level + 1, resuming);
              ZeroBelow(outer.0.now, level)
              && Process(w, cb, limit, level, resuming) == if outer.1 then Drain(outer.0, cb, limit, level) else outer
    ensures !(w.now[level] % 256 == 0 && level < 7) ==>
              Inv(w) && Placed(w, level + 1) && ZeroBelow(w.now, level)
              && Process(w, cb, limit, level, resuming) == Drain(w, cb, limit, level)
  {
    if !(w.now[level] % 256 == 0 && level < 7) {
      BeforeDrain(w, level, resuming);
    }
  }

  lemma BeforeDrain(w: Wheel, level: nat, resuming: bool)
    requires Processable(w, level, resuming)
    requires w.now[level] % 256 != 0 || level == 7
    ensures Inv(w) && Placed(w, level + 1) && ZeroBelow(w.now, level)
  {
    if resuming {
      NoWheelBeyond(w, level);
    } else {
      FullyTicked(w, level);
    }
  }

  // ----- The public operation

  /** The tick loop of `advance`. Returns the wheel and the ticks still pending, counting the
      partial one; 0 means that all were processed. */
  function Ticks(w: Wheel, cb: Callbacks, delta: nat, limit: nat): (r: (Wheel, nat))
    requires Inv(w) && Placed(w, 0) && w.now[0] + delta < HORIZON
    requires WellBehaved(cb, w.start, w.at.Keys, w.now[0] + delta)
    ensures Inv(r.0) && r.0.start == w.start && r.0.at.Keys == w.at.Keys
    ensures r.1 == 0 ==> Placed(r.0, 0) && r.0.now[0] == w.now[0] + delta
    ensures r.1 > 0 ==> r.0.now[0] + (r.1 - 1) == w.now[0] + delta
    decreases delta
  {
    if delta == 0 then (w, 0)
    else
      var p := Process(TickInner(w), cb, limit, 0, false);
      if p.1 then Ticks(p.0, cb, delta - 1, limit) else (p.0, delta)
  }

  /** At rest with no ticks pending, every event lies strictly ahead. */
  ghost predicate Resting(w: Wheel, pending: nat) {
    Inv(w) && (pending == 0 ==> Placed(w, 0))
  }

  /** The tick the wheel will have reached when everything pending is processed. */
  function Target(w: Wheel, pending: nat): Tick
    requires |w.now| == 8
  {
    if pending == 0 then w.now[0] else w.now[0] + (pending - 1)
  }

  /** `advance`: conserves time, whether it completes or stops in the middle of a tick. */
  function Advance(w: Wheel, pending: nat, cb: Callbacks, delta: nat, limit: nat): (r: (Wheel, nat))
    requires Resting(w, pending) && Target(w, pending) + delta < HORIZON
    requires WellBehaved(cb, w.start, w.at.Keys, Target(w, pending) + delta)
    ensures Resting(r.0, r.1) && r.0.start == w.start && r.0.at.Keys == w.at.Keys
    ensures Target(r.0, r.1) == Target(w, pending) + delta
    ensures r.1 == 0 ==> Quiet(r.0)
  {
    if pending == 0 then
      var r := Ticks(w, cb, delta, limit);
      if r.1 == 0 then PlacedIsQuiet(r.0); r else r
    else
      var p := Process(w, cb, limit, 0, true);
      if p.1 then
        var r := Ticks(p.0, cb, pending - 1 + delta, limit);
        if r.1 == 0 then PlacedIsQuiet(r.0); r else r
      else (p.0, pending + delta)
  }

  /** One tick of `advance`: the inner hand moves and its slot is processed. */
  function TickOnce(w: Wheel, cb: Callbacks, limit: nat): (r: (Wheel, bool))
    requires Inv(w) && Placed(w, 0) && w.now[0] + 1 < HORIZON
    requires WellBehaved(cb, w.start, w.at.Keys, w.now[0] + 1)
    ensures Inv(r.0) && r.0.start == w.start && r.0.at.Keys == w.at.Keys && r.0.now[0] == w.now[0] + 1
    ensures r.1 ==> Placed(r.0, 0)
  {
    Process(TickInner(w), cb, limit, 0, false)
  }

  lemma TicksRound(w: Wheel, cb: Callbacks, delta: nat, limit: nat)
    requires Inv(w) && Placed(w, 0) && w.now[0] + delta < HORIZON
    requires WellBehaved(cb, w.start, w.at.Keys, w.now[0] + delta)
    ensures delta == 0 ==> Ticks(w, cb, delta, limit) == (w, 0)
    ensures delta > 0 ==>
              var t := TickOnce(w, cb, limit);
              Ticks(w, cb, delta, limit) == if t.1 then Ticks(t.0, cb, delta - 1, limit) else (t.0, delta)
  {
  }

  lemma AdvanceFresh(w: Wheel, cb: Callbacks, delta: nat, limit: nat)
    requires Resting(w, 0) && w.now[0] + delta < HORIZON
    requires WellBehaved(cb, w.start, w.at.Keys, w.now[0] + delta)
    ensures Advance(w, 0, cb, delta, limit) == Ticks(w, cb, delta, limit)
  {
  }

  lemma AdvanceNothing(w: Wheel, cb: Callbacks, limit: nat)
    requires Resting(w, 0) && WellBehaved(cb, w.start, w.at.Keys, w.now[0])
    ensures Advance(w, 0, cb, 0, limit) == (w, 0)
  {
  }

  lemma AdvanceResumed(w: Wheel, pending: nat, cb: Callbacks, delta: nat, limit: nat)
    requires Inv(w) && pending > 0 && Target(w, pending) + delta < HORIZON
    requires WellBehaved(cb, w.start, w.at.Keys, Target(w, pending) + delta)
    ensures var p := Process(w, cb, limit, 0, true);
            Advance(w, pending, cb, delta, limit)
            == if p.1 then Ticks(p.0, cb, pending - 1 + delta, limit) else (p.0, pending + delta)
  {
  }

}
