/** Number literals: the integer path of the scanner, in 32-bit and 64-bit words. */
module JsonNumbers {
  import opened JsonGrammar
  import opened JsonAutomaton
  import opened JsonDom
  import opened JsonTexts
  import opened JsonWriter

  newtype Word32 = x: int | 0 <= x < TWO_32
  newtype Word64 = x: int | 0 <= x < TWO_64
  newtype Signed32 = x: int | -TWO_31 <= x < TWO_31
  newtype Signed64 = x: int | -TWO_63 <= x < TWO_63

  /** Reads a literal with a fraction, an exponent or too many digits; its value is a double. */
  type DoubleScanner = (string, nat) -> Lex<Number>

  predicate IsDigit(ch: char) {
    '0' <= ch <= '9'
  }

  function DigitOf(ch: char): (d: nat)
    requires IsDigit(ch)
    ensures d < 10
  {
    ch as int - '0' as int
  }

  /** The end of the digits that start at p. */
  function DigitsEnd(s: string, p: nat): (q: nat)
    ensures p <= q && (p <= |s| ==> q <= |s|)
    ensures !IsDigit(Peek(s, q)) && forall k :: p <= k < q ==> IsDigit(Peek(s, k))
    decreases |s| - p
  {
    if IsDigit(Peek(s, p)) then DigitsEnd(s, p + 1) else p
  }

  /** The number that the digits from p to q denote. */
  function ValueOf(s: string, p: nat, q: nat): nat
    requires p <= q && forall k :: p <= k < q ==> IsDigit(Peek(s, k))
    decreases q
  {
    if p == q then 0 else ValueOf(s, p, q - 1) * 10 + DigitOf(Peek(s, q - 1))
  }

  /** The end of the integer part: a zero stands alone. */
  function IntegerEnd(s: string, p: nat): (q: nat)
    requires IsDigit(Peek(s, p))
    ensures p < q <= |s| && forall k :: p <= k < q ==> IsDigit(Peek(s, k))
  {
    if Peek(s, p) == '0' then p + 1 else DigitsEnd(s, p)
  }

  /** The handler function for an integer literal, if one can take it: the narrower of two. */
  datatype Choice = Use(kind: IntegerKind) | Neither

  function Choose(minus: bool, v: int): Choice {
    if minus then
      if InRange(Int, -v) then Use(Int) else if InRange(Int64, -v) then Use(Int64) else Neither
    else
      if InRange(Uint, v) then Use(Uint) else if InRange(Uint64, v) then Use(Uint64) else Neither
  }

  /** What the scanner must report for the literal at p. */
  function NumberAt(s: string, p: nat, doubles: DoubleScanner): Lex<Number> {
    var minus := Peek(s, p) == '-';
    var q := if minus then p + 1 else p;
    if !IsDigit(Peek(s, q)) then Bad(ValueInvalid, q)
    else
      var e := IntegerEnd(s, q);
      var v: int := ValueOf(s, q, e);
      match Choose(minus, v)
      case Use(kind) =>
        if Peek(s, e) == '.' || Peek(s, e) == 'e' || Peek(s, e) == 'E' then doubles(s, p)
        else Token(e, Integer(kind, if minus then -v else v))
      case Neither => doubles(s, p)
  }

  lemma {:induction false} ValueGrows(s: string, p: nat, q: nat, r: nat)
    requires p <= q <= r && forall k :: p <= k < r ==> IsDigit(Peek(s, k))
    ensures ValueOf(s, p, q) <= ValueOf(s, p, r)
  {
    if q < r {
      ValueGrows(s, p, q, r - 1);
    }
  }

  /** The 32-bit digit loop: stops at the end of the digits, or before a digit that would carry
      the value above 2^31 or 2^32 - 1. */
  method Digits32(s: string, p: nat, minus: bool) returns (i: Word32, q: nat, use64bit: bool)
    requires '1' <= Peek(s, p) <= '9'
    ensures p < q <= DigitsEnd(s, p)
    ensures i as int == ValueOf(s, p, q)
    ensures !use64bit ==> q == DigitsEnd(s, p) && Choose(minus, i as int) == Use(if minus then Int else Uint)
    ensures use64bit ==>
              q < DigitsEnd(s, p)
              && (if minus then ValueOf(s, p, q + 1) > TWO_31 else ValueOf(s, p, q + 1) >= TWO_32)
  {
    i := DigitOf(Peek(s, p)) as Word32;
    q := p + 1;
    use64bit := false;
    while IsDigit(Peek(s, q))
      invariant p < q <= DigitsEnd(s, p)
      invariant i as int == ValueOf(s, p, q) && (if minus then i as int <= TWO_31 else true)
      decreases DigitsEnd(s, p) - q
    {
      Within(s, p, q);
      if minus {
        if i >= 214748364 {
          if i != 214748364 || Peek(s, q) > '8' {
            return i, q, true;
          }
        }
      } else {
        if i >= 429496729 {
          if i != 429496729 || Peek(s, q) > '5' {
            return i, q, true;
          }
        }
      }
      i := i * 10 + DigitOf(Peek(s, q)) as Word32;
      q := q + 1;
    }
    Within(s, p, q);
  }

  lemma {:induction false} Within(s: string, p: nat, q: nat)
    requires p <= q <= DigitsEnd(s, p)
    ensures IsDigit(Peek(s, q)) <==> q < DigitsEnd(s, p)
  {
  }

  /** The 64-bit digit loop, which takes over where the 32-bit one stopped. */
  method Digits64(s: string, p: nat, start: Word64, from: nat, minus: bool) returns (i64: Word64, q: nat, useDouble: bool)
    requires p < from <= DigitsEnd(s, p) && start as int == ValueOf(s, p, from)
    requires minus ==> start as int <= TWO_63
    ensures from <= q <= DigitsEnd(s, p)
    ensures i64 as int == ValueOf(s, p, q) && (minus ==> i64 as int <= TWO_63)
    ensures !useDouble ==> q == DigitsEnd(s, p)
    ensures useDouble ==>
              q < DigitsEnd(s, p)
              && (if minus then ValueOf(s, p, q + 1) > TWO_63 else ValueOf(s, p, q + 1) >= TWO_64)
  {
    i64 := start;
    q := from;
    useDouble := false;
    while IsDigit(Peek(s, q))
      invariant from <= q <= DigitsEnd(s, p)
      invariant i64 as int == ValueOf(s, p, q) && (minus ==> i64 as int <= TWO_63)
      decreases DigitsEnd(s, p) - q
    {
      Within(s, p, q);
      if minus {
        if i64 >= 0x0CCCCCCC_CCCCCCCC {
          if i64 != 0x0CCCCCCC_CCCCCCCC || Peek(s, q) > '8' {
            return i64, q, true;
          }
        }
      } else {
        if i64 >= 0x19999999_99999999 {
          if i64 != 0x19999999_99999999 || Peek(s, q) > '5' {
            return i64, q, true;
          }
        }
      }
      i64 := i64 * 10 + DigitOf(Peek(s, q)) as Word64;
      q := q + 1;
    }
    Within(s, p, q);
  }

  /** The complement of a word is its distance from the greatest one, and complement plus one
      adds up to zero with it. */
  lemma ComplementIsArithmetic(x: bv32, y: bv64)
    ensures !x == 0xFFFF_FFFF - x && x + (!x + 1) == 0
    ensures !y == 0xFFFF_FFFF_FFFF_FFFF - y && y + (!y + 1) == 0
  {
  }

  /** `~i + 1` on an unsigned word, read as a signed one; ComplementIsArithmetic justifies the
      complement. */
  function Negate32(i: Word32): (r: Signed32)
    requires i as int <= TWO_31
    ensures r as int == -(i as int)
  {
    var complement := TWO_32 - 1 - i as int;
    var word := (complement + 1) % TWO_32;
    (if word >= TWO_31 then word - TWO_32 else word) as Signed32
  }

  function Negate64(i: Word64): (r: Signed64)
    requires i as int <= TWO_63
    ensures r as int == -(i as int)
  {
    var complement := TWO_64 - 1 - i as int;
    var word := (complement + 1) % TWO_64;
    (if word >= TWO_63 then word - TWO_64 else word) as Signed64
  }

  lemma ZeroAlone(s: string, p: nat)
    ensures Peek(s, p) == '0' ==> ValueOf(s, p, p + 1) == 0
  {
    if Peek(s, p) == '0' {
      assert ValueOf(s, p, p + 1) == ValueOf(s, p, p) * 10 + 0;
    }
  }

  /** The integer part: a lone zero, or the digit loops one after the other. */
  method IntegerPart(s: string, q: nat, minus: bool)
    returns (i: Word32, i64: Word64, use64bit: bool, useDouble: bool, e: nat)
    requires IsDigit(Peek(s, q))
    ensures var all := ValueOf(s, q, IntegerEnd(s, q));
            if useDouble then Choose(minus, all) == Neither
            else
              && e == IntegerEnd(s, q)
              && (if use64bit then i64 as int == all && Choose(minus, all) == Use(if minus then Int64 else Uint64)
                  else i as int == all && Choose(minus, all) == Use(if minus then Int else Uint))
  {
    i, i64, use64bit, useDouble, e := 0, 0, false, false, q;
    ZeroAlone(s, q);
    hide ValueOf;
    if Peek(s, q) == '0' {
      e := q + 1;
    } else {
      i, e, use64bit := Digits32(s, q, minus);
    }
    if use64bit {
      ghost var stopped := e;
      i64, e, useDouble := Digits64(s, q, i as Word64, e, minus);
      ValueGrows(s, q, stopped + 1, DigitsEnd(s, q));
      if useDouble {
        ValueGrows(s, q, e + 1, DigitsEnd(s, q));
      }
    }
  }

  /** `ParseNumber` up to the first character behind the integer part. Integers are exact: no
      word overflows on the way, and the integer path is left exactly when the value is outside
      the range or a fraction or exponent follows. */
  method ParseNumber(s: string, p: nat, doubles: DoubleScanner) returns (r: Lex<Number>)
    requires p <= |s|
    ensures r == NumberAt(s, p, doubles)
  {
    hide ValueOf, Choose, DigitsEnd, IntegerEnd;
    var q := p;
    var minus := Peek(s, q) == '-';
    if minus {
      q := q + 1;
    }
    if !('0' <= Peek(s, q) <= '9') {
      return Bad(ValueInvalid, q);
    }
    var i, i64, use64bit, useDouble, e := IntegerPart(s, q, minus);
    if useDouble || Peek(s, e) == '.' || Peek(s, e) == 'e' || Peek(s, e) == 'E' {
      return doubles(s, p);
    }
    if use64bit {
      if minus {
        ChoiceFits(i64 as int);
      }
      r := Token(e, if minus then Integer(Int64, Negate64(i64) as int) else Integer(Uint64, i64 as int));
    } else {
      if minus {
        ChoiceFits(i as int);
      }
      r := Token(e, if minus then Integer(Int, Negate32(i) as int) else Integer(Uint, i as int));
    }
  }

  lemma ChoiceFits(v: int)
    requires v >= 0
    ensures Choose(true, v) == Use(Int) ==> v <= TWO_31
    ensures Choose(true, v) == Use(Int64) ==> v <= TWO_63
  {
  }

  // ----- Round trip

  /** The decimal numeral of a number, without leading zeros. */
  function Numeral(n: nat): (s: string)
    ensures |s| > 0 && forall k :: 0 <= k < |s| ==> IsDigit(s[k])
    ensures s[0] == '0' <==> n == 0
    ensures n == 0 ==> |s| == 1
  {
    if n < 10 then [('0' as int + n) as char]
    else Numeral(n / 10) + [('0' as int + n % 10) as char]
  }

  function Literal(v: int): string {
    if v < 0 then "-" + Numeral(-v) else Numeral(v)
  }

  lemma {:induction false} ValueInContext(a: string, s: string, p: nat, q: nat)
    requires p <= q <= |s| && forall k :: p <= k < q ==> IsDigit(s[k])
    ensures ValueOf(a + s, |a| + p, |a| + q) == ValueOf(s, p, q)
    decreases q
  {
    if p < q {
      ValueInContext(a, s, p, q - 1);
      assert Peek(a + s, |a| + q - 1) == s[q - 1];
    }
  }

  lemma {:induction false} ValueOfPrefix(s: string, t: string, p: nat, q: nat)
    requires p <= q <= |s| && forall k :: p <= k < q ==> IsDigit(s[k])
    ensures ValueOf(s + t, p, q) == ValueOf(s, p, q)
    decreases q
  {
    if p < q {
      ValueOfPrefix(s, t, p, q - 1);
      assert Peek(s + t, q - 1) == s[q - 1];
    }
  }

  lemma {:induction false} NumeralValue(n: nat)
    ensures ValueOf(Numeral(n), 0, |Numeral(n)|) == n
  {
    var s := Numeral(n);
    if n < 10 {
      assert ValueOf(s, 0, 1) == ValueOf(s, 0, 0) * 10 + DigitOf(s[0]);
    } else {
      var t := Numeral(n / 10);
      NumeralValue(n / 10);
      ValueOfPrefix(t, [s[|s| - 1]], 0, |t|);
      assert s == t + [s[|s| - 1]];
    }
  }

  lemma {:induction false} DigitsEndAt(s: string, p: nat, q: nat)
    requires p <= q && !IsDigit(Peek(s, q)) && forall k :: p <= k < q ==> IsDigit(Peek(s, k))
    ensures DigitsEnd(s, p) == q
    decreases q - p
  {
    if p < q {
      DigitsEndAt(s, p + 1, q);
    }
  }

  /** Every integer from -2^63 to 2^64 - 1 is read back exactly from its decimal literal; every
      integer outside that range is left to the double scanner. */
  lemma LiteralRoundTrip(v: int, doubles: DoubleScanner)
    ensures -TWO_63 <= v < TWO_64 ==>
              exists kind :: InRange(kind, v) && NumberAt(Literal(v), 0, doubles) == Token(|Literal(v)|, Integer(kind, v))
    ensures !(-TWO_63 <= v < TWO_64) ==> NumberAt(Literal(v), 0, doubles) == doubles(Literal(v), 0)
  {
    hide ValueOf, Numeral, DigitsEnd, IntegerEnd, Literal, NumberAt;
    var n: nat := if v < 0 then -v else v;
    LiteralInContext("", v, "", doubles);
    assert "" + Literal(v) + "" == Literal(v);
    if Choose(v < 0, n).Use? {
      assert InRange(Choose(v < 0, n).kind, v);
    }
  }

  /** What is read from a literal, whatever stands before it, when no digit follows: a fraction
      or an exponent leaves it to the double scanner, like a value out of range. */
  lemma LiteralInContext(a: string, v: int, b: string, doubles: DoubleScanner)
    requires b == "" || !IsDigit(b[0])
    ensures var n, s := if v < 0 then -v else v, a + Literal(v) + b;
            NumberAt(s, |a|, doubles)
            == match Choose(v < 0, n)
               case Use(kind) =>
                 if b != "" && (b[0] == '.' || b[0] == 'e' || b[0] == 'E') then doubles(s, |a|)
                 else Token(|a| + |Literal(v)|, Integer(kind, v))
               case Neither => doubles(s, |a|)
  {
    hide ValueOf, DigitsEnd, IntegerEnd, NumberAt, Numeral;
    var s, e := a + Literal(v) + b, |a| + |Literal(v)|;
    var n: nat := if v < 0 then -v else v;
    var start := if v < 0 then a + "-" else a;
    assert s == start + Numeral(n) + b;
    NumeralInContext(start, n, b);
    assert Peek(s, |a|) == '-' <==> v < 0;
    assert Peek(s, e) == if b == "" then '\0' else b[0];
    hide Literal;
    NumberFrom(s, |a|, v, e, doubles);
  }

  lemma NumberFrom(s: string, p: nat, v: int, e: nat, doubles: DoubleScanner)
    requires Peek(s, p) == '-' <==> v < 0
    requires var n, q := if v < 0 then -v else v, if v < 0 then p + 1 else p;
             IsDigit(Peek(s, q)) && IntegerEnd(s, q) == e && ValueOf(s, q, e) == n
    ensures NumberAt(s, p, doubles)
            == match Choose(v < 0, if v < 0 then -v else v)
               case Use(kind) =>
                 if Peek(s, e) == '.' || Peek(s, e) == 'e' || Peek(s, e) == 'E' then doubles(s, p)
                 else Token(e, Integer(kind, v))
               case Neither => doubles(s, p)
  {
    hide ValueOf, IntegerEnd;
  }

  lemma NumeralInContext(a: string, n: nat, b: string)
    requires b == "" || !IsDigit(b[0])
    ensures var s, e := a + Numeral(n) + b, |a| + |Numeral(n)|;
            IsDigit(Peek(s, |a|)) && IntegerEnd(s, |a|) == e && ValueOf(s, |a|, e) == n
  {
    NumeralValue(n);
    hide ValueOf, IntegerEnd, Numeral;
    DigitsInContext(a, Numeral(n), b);
  }

  lemma DigitsInContext(a: string, m: string, b: string)
    requires m != "" && (forall k | 0 <= k < |m| :: IsDigit(m[k])) && (m[0] == '0' ==> |m| == 1)
    requires b == "" || !IsDigit(b[0])
    ensures var s, e := a + m + b, |a| + |m|;
            IsDigit(Peek(s, |a|)) && IntegerEnd(s, |a|) == e && ValueOf(s, |a|, e) == ValueOf(m, 0, |m|)
  {
    hide ValueOf, IntegerEnd;
    var s, e := a + m + b, |a| + |m|;
    forall k | |a| <= k < e
      ensures IsDigit(s[k]) && (a + m)[k] == s[k]
    {
      assert s[k] == m[k - |a|];
    }
    ValueInContext(a, m, 0, |m|);
    ValueOfPrefix(a + m, b, |a|, e);
    NumeralEnds(s, |a|, e);
  }

  lemma NumeralEnds(s: string, p: nat, e: nat)
    requires p < e <= |s| && (forall k | p <= k < e :: IsDigit(s[k])) && !IsDigit(Peek(s, e))
    requires s[p] == '0' ==> e == p + 1
    ensures IntegerEnd(s, p) == e
  {
    if s[p] != '0' {
      DigitsEndAt(s, p, e);
    }
  }

  // ----- Whole documents

  predicate IsInteger(n: Number, v: int) {
    n.Integer? && n.value == v
  }

  /** The reader's configuration with the scanner of this module. */
  function WithNumbers(c: Config, doubles: DoubleScanner): Config {
    c.(numbers := (s: string, p: nat) => NumberAt(s, p, doubles))
  }

  ghost predicate GoodDoubles(doubles: DoubleScanner) {
    Scans(doubles) && forall s: string, p: nat :: doubles(s, p).Token? ==> Representable(doubles(s, p).value)
  }

  /** With this scanner of numbers the parsers agree on every text, and what they accept is one
      value that is rebuilt by its own events. */
  lemma ParsersReadNumbers(c: Config, doubles: DoubleScanner, s: string)
    requires Scans(c.strings) && GoodDoubles(doubles)
    ensures var with := WithNumbers(c, doubles);
            && Good(with)
            && (Parse(with, s).Ok? <==> IterativeParse(with, s).Ok?)
            && Parse(with, s).log == IterativeParse(with, s).log
            && (Parse(with, s).Ok? ==>
                  exists v :: IsDocument(with, s, v) && All(v, Representable) && Parse(with, s).log == Accept(v)
                              && HandleAll([], Parse(with, s).log) == Stack([Keep(v)])
                              && HandleAll([], Accept(Keep(v))) == Stack([Keep(v)]))
  {
    hide Parse, IterativeParse, NumberAt, IsDocument;
    NumberScannerIsGood(doubles);
    var with := WithNumbers(c, doubles);
    assert Good(with) && GoodNumbers(with);
    ParsersAgree(with, s);
    if Parse(with, s).Ok? {
      var v := ParseBuildsOneValue(with, s);
    }
  }

  /** Every integer from -2^63 to 2^64 - 1, as a text of its own, becomes the document that
      holds it, with either parser. */
  lemma IntegersBecomeDocuments(c: Config, doubles: DoubleScanner, v: int)
    requires Scans(c.strings) && GoodDoubles(doubles) && -TWO_63 <= v < TWO_64
    requires forall log :: c.handler(log)
    ensures var with := WithNumbers(c, doubles);
            && Good(with)
            && exists n: Number :: IsInteger(n, v) && IsStored(n)
                 && HandleAll([], Parse(with, Literal(v)).log) == Stack([VNum(n)])
                 && HandleAll([], IterativeParse(with, Literal(v)).log) == Stack([VNum(n)])
                 && Parse(with, Literal(v)).Ok? && IterativeParse(with, Literal(v)).Ok?
  {
    hide Parse, IterativeParse, NumberAt, Literal;
    ParsersReadNumbers(c, doubles, Literal(v));
    var with := WithNumbers(c, doubles);
    LiteralRoundTrip(v, doubles);
    var kind :| InRange(kind, v) && NumberAt(Literal(v), 0, doubles) == Token(|Literal(v)|, Integer(kind, v));
    LiteralParses(with, v, Integer(kind, v));
    var n := Integer(kind, v);
    StoredOnce(n);
    assert HandleAll([], [Num(n)]) == Stack([VNum(Stored(n))]) by { BuildsNumber(n); }
    assert IsInteger(Stored(n), v);
  }

  lemma BuildsNumber(n: Number)
    requires Representable(n)
    ensures HandleAll([], [Num(n)]) == Stack([VNum(Stored(n))])
  {
    AcceptBuilds([], VNum(n));
  }

  lemma LiteralParses(c: Config, v: int, n: Number)
    requires Good(c) && (forall log :: c.handler(log))
    requires c.numbers(Literal(v), 0) == Token(|Literal(v)|, n)
    ensures Parse(c, Literal(v)) == Ok(|Literal(v)|, [Num(n)])
  {
    var s := Literal(v);
    assert Peek(s, 0) == '-' || IsDigit(Peek(s, 0));
    hide Literal;
    assert Skip(c, s, 0) == Token(0, ());
    assert ParseValue(c, s, 0, []) == Ok(|s|, [Num(n)]);
    assert Skip(c, s, |s|) == Token(|s|, ());
  }

  /** Integers are printed in decimal. */
  ghost predicate PrintsIntegers(w: Printers) {
    forall n: Number {:trigger w.num(n)} | n.Integer? :: w.num(n) == Literal(n.value)
  }

  /** The handler function by which an integer comes back. */
  function AsRead(n: Number): Number {
    match n
    case Integer(kind, v) => if Choose(v < 0, if v < 0 then -v else v).Use? then Integer(Choose(v < 0, if v < 0 then -v else v).kind, v) else n
    case Double(_) => n
  }

  /** Every stored integer is read back from its decimal literal, whatever follows a value, and
      stored as it was. */
  lemma IntegersAreReadBack(c: Config, doubles: DoubleScanner, w: Printers, n: Number)
    requires PrintsIntegers(w) && n.Integer? && IsStored(n)
    ensures ReadsNumber(WithNumbers(c, doubles), w, AsRead, n) && StoredAs(AsRead, n)
  {
    hide NumberAt, Literal, StoredAs, AsRead;
    LiteralStarts(n.value);
    ReadAsStored(n);
    var with := WithNumbers(c, doubles);
    forall a: string, b: string | JsonWriter.Follows(b)
      ensures with.numbers(a + w.num(n) + b, |a|) == Token(|a| + |w.num(n)|, AsRead(n))
    {
      IntegerInContext(a, n, b, doubles);
    }
  }

  lemma IntegerInContext(a: string, n: Number, b: string, doubles: DoubleScanner)
    requires n.Integer? && IsStored(n) && JsonWriter.Follows(b)
    ensures NumberAt(a + Literal(n.value) + b, |a|, doubles) == Token(|a| + |Literal(n.value)|, AsRead(n))
  {
    hide NumberAt, Literal;
    LiteralInContext(a, n.value, b, doubles);
  }

  lemma ReadAsStored(n: Number)
    requires n.Integer? && IsStored(n)
    ensures StoredAs(AsRead, n)
  {
    FlagsAreRanges(n.kind, n.value);
    FlagsAreRanges(AsRead(n).kind, n.value);
    hide ConstructorFlags;
  }

  lemma LiteralStarts(v: int)
    ensures Literal(v) != "" && StartsNumber(Literal(v)[0])
  {
  }

  lemma {:induction false} AllOfMore(v: Value, p: Number -> bool, q: Number -> bool)
    requires All(v, p) && forall n :: p(n) ==> q(n)
    ensures All(v, q)
    decreases v
  {
    match v
    case VArray(es) =>
      forall i | 0 <= i < |es| ensures All(es[i], q) {
        AllOfMore(es[i], p, q);
      }
    case VObject(ms) =>
      forall i | 0 <= i < |ms| ensures All(ms[i].value, q) {
        AllOfMore(ms[i].value, p, q);
      }
    case _ =>
  }

  /** The round trip of documents whose numbers are integers, with this scanner: printed and
      parsed again, by either parser, they are the same. */
  lemma IntegerDocumentsRoundTrip(c: Config, doubles: DoubleScanner, w: Printers, v: Value)
    requires Scans(c.strings) && GoodDoubles(doubles) && TakesAll(c) && PrintsIntegers(w)
    requires ReadsStrings(WithNumbers(c, doubles), w) && All(v, (n: Number) => n.Integer? && IsStored(n))
    ensures var with, s := WithNumbers(c, doubles), Text(w, v);
            && Good(with)
            && Parse(with, s).Ok? && HandleAll([], Parse(with, s).log) == Stack([v])
            && IterativeParse(with, s).Ok? && HandleAll([], IterativeParse(with, s).log) == Stack([v])
  {
    hide Parse, IterativeParse, NumberAt, Text, All, ReadsNumber, StoredAs, IsStored, ReadsStrings, AsRead;
    NumberScannerIsGood(doubles);
    var with := WithNumbers(c, doubles);
    forall n: Number | n.Integer? && IsStored(n)
      ensures ReadsNumber(with, w, AsRead, n) && StoredAs(AsRead, n)
    {
      IntegersAreReadBack(c, doubles, w, n);
    }
    AllOfMore(v, (n: Number) => n.Integer? && IsStored(n), n => ReadsNumber(with, w, AsRead, n));
    AllOfMore(v, (n: Number) => n.Integer? && IsStored(n), n => StoredAs(AsRead, n));
    DocumentRoundTrip(with, w, AsRead, v);
  }

  /** With doubles that scan, the number scanner meets what both parsers and the document ask
      of it. */
  lemma NumberScannerIsGood(doubles: DoubleScanner)
    requires GoodDoubles(doubles)
    ensures Scans((s: string, p: nat) => NumberAt(s, p, doubles))
    ensures forall s: string, p: nat :: NumberAt(s, p, doubles).Token? ==> Representable(NumberAt(s, p, doubles).value)
  {
  }
}
