/** The array index of a JSON Pointer token: the digits of its name in a 32-bit word, with the
    test for overflow that the parser makes after every digit. */
module PointerIndexes {
  import opened UtfCodecs

  const DIGIT0: Byte := 0x30
  const TWO_32: nat := 0x1_0000_0000
  const INVALID: nat := 0xFFFF_FFFF

  predicate AllDigits(name: seq<Byte>) {
    forall k | 0 <= k < |name| :: DIGIT0 <= name[k] <= DIGIT0 + 9
  }

  /** An array index of section 4 of RFC 6901: digits without a leading zero. */
  predicate IsNumeral(name: seq<Byte>) {
    name != [] && AllDigits(name) && (|name| > 1 ==> name[0] != DIGIT0)
  }

  /** The number that the digits denote. */
  function Value(name: seq<Byte>): nat
    requires AllDigits(name)
  {
    if name == [] then 0 else Value(name[..|name| - 1]) * 10 + (name[|name| - 1] - DIGIT0)
  }

  function Wrap(v: nat): nat {
    v % TWO_32
  }

  /** The word never gets smaller from one digit to the next. */
  predicate NeverFalls(name: seq<Byte>)
    requires AllDigits(name)
  {
    forall k | 0 <= k < |name| :: !FallsAt(name, k)
  }

  predicate FallsAt(name: seq<Byte>, k: nat)
    requires AllDigits(name) && k < |name|
  {
    Wrap(Value(name[..k + 1])) < Wrap(Value(name[..k]))
  }

  function IndexOf(name: seq<Byte>): nat {
    if IsNumeral(name) && NeverFalls(name) then Wrap(Value(name)) else INVALID
  }

  function Indexes(names: seq<seq<Byte>>): seq<nat> {
    seq(|names|, i requires 0 <= i < |names| => IndexOf(names[i]))
  }

  lemma ValueStep(name: seq<Byte>, k: nat)
    requires AllDigits(name) && k < |name|
    ensures Value(name[..k + 1]) == Value(name[..k]) * 10 + (name[k] - DIGIT0)
  {
    assert name[..k + 1][..k] == name[..k];
  }

  lemma WrapsAlike(v: nat, d: nat)
    ensures Wrap(Wrap(v) * 10 + d) == Wrap(v * 10 + d)
  {
    var q := v / TWO_32;
    assert v * 10 + d == v % TWO_32 * 10 + d + q * 10 * TWO_32;
    WrapsAway(v % TWO_32 * 10 + d, q * 10);
  }

  lemma {:induction false} WrapsAway(v: nat, q: nat)
    ensures (v + q * TWO_32) % TWO_32 == v % TWO_32
  {
    if q > 0 {
      WrapsAway(v, q - 1);
      assert v + q * TWO_32 == v + (q - 1) * TWO_32 + TWO_32;
    }
  }

  /** The loop over the digits, in a word of 32 bits. */
  method TokenIndex(name: seq<Byte>) returns (index: nat)
    ensures index == IndexOf(name)
  {
    var isNumber := name != [];
    for j := 0 to |name|
      invariant isNumber <==> name != [] && AllDigits(name[..j])
    {
      assert name[..j + 1] == name[..j] + [name[j]];
      if name[j] < DIGIT0 || name[j] > DIGIT0 + 9 {
        isNumber := false;
      }
    }
    assert name[..|name|] == name;
    if isNumber && |name| > 1 && name[0] == DIGIT0 {
      isNumber := false;
    }
    var n := 0;
    if isNumber {
      var j := 0;
      while j < |name|
        invariant j <= |name| && n == Wrap(Value(name[..j]))
        invariant forall k | 0 <= k < j :: !FallsAt(name, k)
      {
        var m := Wrap(n * 10 + (name[j] - DIGIT0));
        ValueStep(name, j);
        WrapsAlike(Value(name[..j]), name[j] - DIGIT0);
        if m < n {
          assert FallsAt(name, j);
          return INVALID;
        }
        n := m;
        j := j + 1;
      }
    }
    index := if isNumber then n else INVALID;
  }

  // ----- Which indexes are right

  lemma {:induction false} PrefixIsSmaller(name: seq<Byte>, k: nat)
    requires AllDigits(name) && k <= |name|
    ensures Value(name[..k]) <= Value(name)
    decreases |name| - k
  {
    if k < |name| {
      ValueStep(name, k);
      PrefixIsSmaller(name, k + 1);
    } else {
      assert name[..k] == name;
    }
  }

  /** A numeral that fits the word is read exactly. The greatest word means that there is no
      index, so that of 2^32 - 1 is none. */
  lemma SmallIndexesAreExact(name: seq<Byte>)
    requires IsNumeral(name) && Value(name) < TWO_32
    ensures IndexOf(name) == Value(name)
  {
    assert name[..|name|] == name;
    NoFallBelow(name, |name|);
  }

  lemma {:induction false} FewDigitsAreSmall(name: seq<Byte>)
    requires AllDigits(name)
    ensures |name| <= 9 ==> Value(name) < 1_000_000_000
    decreases |name|
  {
    if 0 < |name| <= 9 {
      TenthAtMost(name, 9);
    }
  }

  /** The greatest values by number of digits. */
  function Limit(digits: nat): nat {
    if digits == 0 then 1 else 10 * Limit(digits - 1)
  }

  lemma {:induction false} TenthAtMost(name: seq<Byte>, digits: nat)
    requires AllDigits(name) && |name| <= digits
    ensures Value(name) < Limit(digits)
    decreases digits
  {
    if name != [] {
      TenthAtMost(name[..|name| - 1], digits - 1);
    } else if digits > 0 {
      TenthAtMost(name, digits - 1);
    }
  }

  /** The test misses an overflow: an index is right, or marked as none, exactly when the value
      fits, or the word falls at some digit, or what is left of the value marks none by chance. */
  lemma IndexesAreRightExactlyWhen(name: seq<Byte>)
    requires IsNumeral(name)
    ensures IndexOf(name) == Value(name) || IndexOf(name) == INVALID <==>
            Value(name) < TWO_32 || (exists k | 0 <= k < |name| :: FallsAt(name, k)) || Wrap(Value(name)) == INVALID
  {
    if Value(name) < TWO_32 {
      SmallIndexesAreExact(name);
    }
  }

  lemma NoFallBelow(name: seq<Byte>, last: nat)
    requires AllDigits(name) && last <= |name| && Value(name[..last]) < TWO_32
    ensures forall k | 0 <= k < last :: !FallsAt(name, k)
  {
    var start := name[..last];
    forall k | 0 <= k < last
      ensures !FallsAt(name, k)
    {
      assert start[..k] == name[..k] && start[..k + 1] == name[..k + 1];
      PrefixIsSmaller(start, k + 1);
      ValueStep(name, k);
    }
  }

  lemma LastFall(name: seq<Byte>)
    requires AllDigits(name) && name != [] && Value(name[..|name| - 1]) < TWO_32
    ensures FallsAt(name, |name| - 1) <==> Wrap(Value(name)) < Value(name) / 10
  {
    hide Value, Wrap;
    var last := |name| - 1;
    assert name[..last + 1] == name;
    ValueStep(name, last);
    Tenth(Value(name[..last]), name[last] - DIGIT0);
    WrapKeeps(Value(name[..last]));
  }

  lemma WrapKeeps(v: nat)
    requires v < TWO_32
    ensures Wrap(v) == v
  {
  }

  lemma Tenth(v: nat, d: nat)
    requires d < 10
    ensures (v * 10 + d) / 10 == v
  {
  }

  /** Up to ten digits, only the last digit can overflow, and that is missed exactly when the
      rest of the value is not below a tenth of it. */
  lemma TenDigitsFallExactlyWhen(name: seq<Byte>)
    requires IsNumeral(name) && |name| <= 10 && Value(name) >= TWO_32
    ensures IndexOf(name) == (if Wrap(Value(name)) < Value(name) / 10 then INVALID else Wrap(Value(name)))
  {
    var last := |name| - 1;
    FewDigitsAreSmall(name[..last]);
    NoFallBelow(name, last);
    LastFall(name);
    hide FallsAt, Value;
    assert NeverFalls(name) <==> !FallsAt(name, last);
  }

  /** The token 5000000000 is taken for the index 705032704. */
  lemma OverflowCanBeMissed()
    ensures var name := DigitsOf(5_000_000_000);
            IsNumeral(name) && Value(name) == 5_000_000_000 && IndexOf(name) == 705_032_704
  {
    var n := 5_000_000_000;
    DigitsInvert(n);
    DigitsAreFew(n, 10);
    TenDigitsFallExactlyWhen(DigitsOf(n));
  }

  // ----- Round trip

  /** The name of the token that `Append` makes from an index. */
  function DigitsOf(n: nat): (name: seq<Byte>)
    ensures name != []
  {
    if n < 10 then [DIGIT0 + n] else DigitsOf(n / 10) + [DIGIT0 + n % 10]
  }

  lemma {:induction false} DigitsInvert(n: nat)
    ensures var name := DigitsOf(n);
            AllDigits(name) && Value(name) == n && IsNumeral(name) && (n > 0 ==> name[0] != DIGIT0)
  {
    var name := DigitsOf(n);
    if n < 10 {
      assert Value([]) == 0 && name[..0] == [];
    } else {
      DigitsInvert(n / 10);
      assert name[..|name| - 1] == DigitsOf(n / 10);
    }
  }

  /** A name has an index only if it is the decimal numeral of a number, as it is printed; an
      empty name, one with another character and one with a leading zero have none. */
  lemma OnlyNumeralsHaveIndexes(name: seq<Byte>)
    requires IndexOf(name) != INVALID
    ensures exists n: nat :: name == DigitsOf(n) && IndexOf(name) == n % TWO_32
  {
    NumeralIsPrinted(name);
    assert name == DigitsOf(Value(name));
  }

  lemma {:induction false} NumeralIsPrinted(name: seq<Byte>)
    requires IsNumeral(name)
    ensures name == DigitsOf(Value(name))
    decreases |name|
  {
    var most, d := name[..|name| - 1], name[|name| - 1] - DIGIT0;
    if most == [] {
      assert Value(most) == 0;
      assert name == [DIGIT0 + d];
    } else {
      assert |most| > 1 ==> most[0] != DIGIT0;
      NumeralIsPrinted(most);
      HeadIsPositive(most);
      var v := Value(most);
      assert (v * 10 + d) / 10 == v && (v * 10 + d) % 10 == d;
      assert name == most + [DIGIT0 + d];
    }
  }

  lemma {:induction false} HeadIsPositive(name: seq<Byte>)
    requires AllDigits(name) && name != [] && name[0] != DIGIT0
    ensures Value(name) > 0
    decreases |name|
  {
    if |name| > 1 {
      HeadIsPositive(name[..|name| - 1]);
    } else {
      assert Value(name[..0]) == 0;
    }
  }

  lemma {:induction false} DigitsAreFew(n: nat, digits: nat)
    requires digits > 0 && n < Limit(digits)
    ensures |DigitsOf(n)| <= digits
    decreases digits
  {
    if n >= 10 {
      DigitsAreFew(n / 10, digits - 1);
    }
  }

  /** An index that is appended to a pointer is read back from the token's name. */
  lemma IndexRoundTrip(n: nat)
    requires n < TWO_32
    ensures IndexOf(DigitsOf(n)) == n
  {
    DigitsInvert(n);
    SmallIndexesAreExact(DigitsOf(n));
  }
}
