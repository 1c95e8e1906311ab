/** Base-256 arithmetic of the hierarchical wheel: the clock of level L shows the tick
    shifted right by 8 * L bits, and a slot is the low byte of that. */
module TimerArith {
  const WIDTH: nat := 256
  const LEVELS: nat := 8
  const HORIZON: nat := 0x1_0000_0000_0000_0000
  const RANGE_HORIZON: nat := 0x100_0000_0000_0000

  /** `x >> (8 * level)` */
  function Shr(x: nat, level: nat): nat {
    if level == 0 then x else Shr(x, level - 1) / 256
  }

  /** The clocks of all levels agree with the clock of the innermost one. */
  ghost predicate Coherent(now: seq<nat>) {
    |now| == 8 && forall j {:trigger Agree(now, j)} :: 0 <= j < 7 ==> Agree(now, j)
  }

  ghost predicate Agree(now: seq<nat>, j: int)
    requires |now| == 8 && 0 <= j < 7
  {
    now[j + 1] == now[j] / 256
  }

  /** The hands of all wheels inside `level` point at slot 0. */
  ghost predicate ZeroBelow(now: seq<nat>, level: nat) {
    |now| == 8 && forall j :: 0 <= j < level && j < 8 ==> now[j] % 256 == 0
  }

  lemma {:induction false} ShrMonotone(a: nat, b: nat, level: nat)
    requires a <= b
    ensures Shr(a, level) <= Shr(b, level)
  {
    if level > 0 {
      ShrMonotone(a, b, level - 1);
    }
  }

  lemma ShrTop(x: nat)
    requires x < HORIZON
    ensures Shr(x, 7) < 256
  {
    assert Shr(x, 1) == x / 256;
    assert Shr(x, 2) == Shr(x, 1) / 256;
    assert Shr(x, 3) == Shr(x, 2) / 256;
    assert Shr(x, 4) == Shr(x, 3) / 256;
    assert Shr(x, 5) == Shr(x, 4) / 256;
    assert Shr(x, 6) == Shr(x, 5) / 256;
    assert Shr(x, 7) == Shr(x, 6) / 256;
  }

  lemma {:induction false} CoherentShr(now: seq<nat>, level: nat)
    requires Coherent(now) && level < 8
    ensures now[level] == Shr(now[0], level)
  {
    if level > 0 {
      CoherentShr(now, level - 1);
      assert Agree(now, level - 1);
    }
  }

  /** When the inner hands are all at 0, sharing the outer clock means not being in the past. */
  lemma {:induction false} NotPast(now: seq<nat>, x: nat, level: nat)
    requires |now| == 8 && level < 8
    requires forall j {:trigger Agree(now, j)} :: 0 <= j < level ==> Agree(now, j)
    requires ZeroBelow(now, level) && Shr(x, level) >= now[level]
    ensures x >= now[0]
  {
    if level > 0 {
      assert Agree(now, level - 1);
      assert now[level - 1] % 256 == 0;
      assert Shr(x, level) == Shr(x, level - 1) / 256;
      NotPast(now, x, level - 1);
    }
  }

  /** The mask loop of a range scheduling: `bytes` low bytes of the start and the end are ignored. */
  function RoundDown(x: nat, bytes: nat): nat {
    if bytes == 0 then x else 256 * RoundDown(x / 256, bytes - 1)
  }

  /** x is a multiple of 256 to the power `bytes`. */
  predicate MultipleOf(x: nat, bytes: nat) {
    bytes == 0 || (x % 256 == 0 && MultipleOf(x / 256, bytes - 1))
  }

  lemma {:induction false} ShrDiv(x: nat, level: nat)
    requires level > 0
    ensures Shr(x, level) == Shr(x / 256, level - 1)
  {
    if level > 1 {
      ShrDiv(x, level - 1);
    }
  }

  lemma {:induction false} RoundDownSpec(x: nat, bytes: nat)
    ensures RoundDown(x, bytes) <= x
    ensures MultipleOf(RoundDown(x, bytes), bytes)
    ensures Shr(RoundDown(x, bytes), bytes) == Shr(x, bytes)
    ensures forall y :: RoundDown(x, bytes) < y <= x ==> !MultipleOf(y, bytes)
  {
    if bytes > 0 {
      RoundDownSpec(x / 256, bytes - 1);
      ShrDiv(x, bytes);
      ShrDiv(RoundDown(x, bytes), bytes);
      forall y | RoundDown(x, bytes) < y <= x
        ensures !MultipleOf(y, bytes)
      {
        if y % 256 == 0 {
          assert RoundDown(x / 256, bytes - 1) < y / 256 <= x / 256;
        }
      }
    }
  }

  /** How many low bytes the mask loop of `schedule_in_range` clears until both bounds agree. */
  function AgreeingBytes(first: nat, last: nat, bytes: nat): (r: nat)
    requires first < HORIZON && last < HORIZON && bytes <= 8
    ensures bytes <= r <= 8
    ensures Shr(first, r) == Shr(last, r)
    ensures r > bytes ==> Shr(first, r - 1) != Shr(last, r - 1)
    decreases 8 - bytes, first
  {
    ShrTop(first);
    ShrTop(last);
    assert Shr(first, 8) == Shr(first, 7) / 256 && Shr(last, 8) == Shr(last, 7) / 256;
    if Shr(first, bytes) == Shr(last, bytes) then bytes
    else AgreeingBytes(first, last, bytes + 1)
  }

  /** `end & (mask >> 8)`: shifting the mask back also clears the top byte of the end. */
  function RangeDelta(first: nat, last: nat): nat
    requires first < last < HORIZON
  {
    RoundDown(last % RANGE_HORIZON, AgreeingBytes(first, last, 0) - 1)
  }

  /** The delay picked for a range lies in (first, last] if and only if last < 2^56. */
  lemma RangeDeltaInRange(first: nat, last: nat)
    requires first < last < HORIZON
    ensures first < RangeDelta(first, last) <= last <==> last < RANGE_HORIZON
  {
    if last < RANGE_HORIZON {
      RangeDeltaSmall(first, last);
    } else {
      RangeDeltaLarge(first, last);
    }
  }

  lemma RangeDeltaAtMost(first: nat, last: nat)
    requires first < last < HORIZON
    ensures RangeDelta(first, last) <= last
  {
    if last < RANGE_HORIZON {
      RangeDeltaSmall(first, last);
    } else {
      RangeDeltaLarge(first, last);
    }
  }

  lemma RangeDeltaSmall(first: nat, last: nat)
    requires first < last < RANGE_HORIZON
    ensures first < RangeDelta(first, last) <= last
  {
    var bytes := AgreeingBytes(first, last, 0);
    RoundDownAfter(first, last, bytes - 1);
  }

  /** Rounding down stays above a bound that differs from `last` above the cleared bytes. */
  lemma RoundDownAfter(first: nat, last: nat, bytes: nat)
    requires first < last && Shr(first, bytes) != Shr(last, bytes)
    ensures first < RoundDown(last, bytes) <= last
  {
    var r := RoundDown(last, bytes);
    RoundDownSpec(last, bytes);
    if r <= first {
      ShrMonotone(r, first, bytes);
      ShrMonotone(first, last, bytes);
    }
  }

  lemma RangeDeltaLarge(first: nat, last: nat)
    requires first < last < HORIZON && RANGE_HORIZON <= last
    ensures RangeDelta(first, last) <= first
  {
    var bytes := AgreeingBytes(first, last, 0);
    var x := last % RANGE_HORIZON;
    if first < RANGE_HORIZON {
      TopByteDiffers(first, last, bytes);
      TopByte(x);
      SmallRoundsToZero(x, 7);
    } else {
      RoundDownSpec(x, bytes - 1);
    }
  }

  lemma TopByteDiffers(first: nat, last: nat, bytes: nat)
    requires first < RANGE_HORIZON <= last
    requires bytes <= 8 && Shr(first, bytes) == Shr(last, bytes)
    ensures bytes == 8
  {
    TopByte(last);
    TopByte(first);
    if bytes <= 7 {
      ShrEqualAbove(first, last, bytes, 7);
    }
  }

  lemma TopByte(x: nat)
    ensures Shr(x, 7) == 0 <==> x < RANGE_HORIZON
  {
    assert Shr(x, 1) == x / 256;
    assert Shr(x, 2) == Shr(x, 1) / 256;
    assert Shr(x, 3) == Shr(x, 2) / 256;
    assert Shr(x, 4) == Shr(x, 3) / 256;
    assert Shr(x, 5) == Shr(x, 4) / 256;
    assert Shr(x, 6) == Shr(x, 5) / 256;
    assert Shr(x, 7) == Shr(x, 6) / 256;
  }

  lemma {:induction false} ShrEqualAbove(a: nat, b: nat, level: nat, above: nat)
    requires Shr(a, level) == Shr(b, level)
    requires level <= above
    ensures Shr(a, above) == Shr(b, above)
  {
    if level < above {
      ShrEqualAbove(a, b, level, above - 1);
    }
  }

  lemma SmallRoundsToZero(x: nat, bytes: nat)
    requires Shr(x, bytes) == 0
    ensures RoundDown(x, bytes) == 0
  {
    RoundDownSpec(x, bytes);
    var r := RoundDown(x, bytes);
    ZeroMultiple(r, bytes);
  }

  lemma {:induction false} ZeroMultiple(x: nat, bytes: nat)
    requires MultipleOf(x, bytes) && Shr(x, bytes) == 0
    ensures x == 0
  {
    if bytes > 0 {
      ShrDiv(x, bytes);
      ZeroMultiple(x / 256, bytes - 1);
    }
  }

  /** d is the greatest multiple not above `last` of some power of 256, it lies in
      (first, last], and the next power has no multiple there. */
  ghost predicate RoundestIn(d: nat, first: nat, last: nat, bytes: nat, next: nat) {
    && next == bytes + 1
    && first < d <= last && MultipleOf(d, bytes)
    && (forall y :: d < y <= last ==> !MultipleOf(y, bytes))
    && (forall y :: first < y <= last ==> !MultipleOf(y, next))
  }

  /** Below 2^56 the delay is the roundest one in the range, so promotion overhead is minimal. */
  lemma RangeDeltaIsRoundest(first: nat, last: nat)
    requires first < last < RANGE_HORIZON
    ensures exists bytes, next :: RoundestIn(RangeDelta(first, last), first, last, bytes, next)
  {
    var next := AgreeingBytes(first, last, 0);
    RoundestAt(first, last, next - 1, next);
    assert RoundestIn(RangeDelta(first, last), first, last, next - 1, next);
  }

  lemma RoundestAt(first: nat, last: nat, bytes: nat, next: nat)
    requires first < last && next == bytes + 1
    requires Shr(first, bytes) != Shr(last, bytes) && Shr(first, next) == Shr(last, next)
    ensures RoundestIn(RoundDown(last, bytes), first, last, bytes, next)
  {
    RoundDownAfter(first, last, bytes);
    RoundDownSpec(last, bytes);
    NoMultiple(first, last, next);
  }

  lemma NoMultiple(first: nat, last: nat, bytes: nat)
    requires Shr(first, bytes) == Shr(last, bytes)
    ensures forall y :: first < y <= last ==> !MultipleOf(y, bytes)
  {
    forall y | first < y <= last
      ensures !MultipleOf(y, bytes)
    {
      if MultipleOf(y, bytes) {
        ShrMonotone(first, y, bytes);
        ShrMonotone(y, last, bytes);
        MultipleUnique(y, first, bytes);
      }
    }
  }

  lemma {:induction false} MultipleUnique(y: nat, x: nat, bytes: nat)
    requires MultipleOf(y, bytes) && Shr(y, bytes) == Shr(x, bytes)
    ensures y <= x
  {
    if bytes > 0 {
      ShrDiv(y, bytes);
      ShrDiv(x, bytes);
      MultipleUnique(y / 256, x / 256, bytes - 1);
    }
  }
}
