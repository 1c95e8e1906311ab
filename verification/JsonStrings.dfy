/** Strings: the scanner with its escapes, and the escaping that it takes back. Characters stand
    for bytes of UTF-8. */
module JsonStrings {
  import opened JsonGrammar
  import opened UtfCodecs
  import opened Wrappers

  const UnicodeEscapeInvalidHex := Lexical(8)
  const UnicodeSurrogateInvalid := Lexical(9)
  const EscapeInvalid := Lexical(10)
  const MissQuotationMark := Lexical(11)
  const InvalidEncoding := Lexical(12)

  // ----- Reading

  /** The table of short escapes. */
  function Short(e: char): Option<char> {
    if e == '"' || e == '\\' || e == '/' then Some(e)
    else if e == 'b' then Some(8 as char)
    else if e == 'f' then Some(12 as char)
    else if e == 'n' then Some('\n')
    else if e == 'r' then Some('\r')
    else if e == 't' then Some('\t')
    else None
  }

  function HexOf(ch: char): (r: Option<nat>)
    ensures r.Some? ==> r.value < 16 && ch != '\0'
  {
    if '0' <= ch <= '9' then Some(ch as int - '0' as int)
    else if 'A' <= ch <= 'F' then Some(ch as int - 'A' as int + 10)
    else if 'a' <= ch <= 'f' then Some(ch as int - 'a' as int + 10)
    else None
  }

  /** The number that so many hexadecimal digits denote. */
  function Hex(s: string, p: nat, digits: nat): (r: Option<nat>)
    ensures r.Some? && digits > 0 ==> p + digits <= |s|
  {
    if digits == 0 then Some(0)
    else
      var most, last := Hex(s, p, digits - 1), HexOf(Peek(s, p + digits - 1));
      if most.None? || last.None? then None else Some(most.value * 16 + last.value)
  }

  /** `ParseHex4` */
  function Hex4(s: string, p: nat): (r: Option<nat>)
    ensures r.Some? ==> p + 4 <= |s| && r.value < 0x10000
  {
    assert Hex(s, p, 1).Some? ==> Hex(s, p, 1).value < 0x10;
    assert Hex(s, p, 2).Some? ==> Hex(s, p, 2).value < 0x100;
    assert Hex(s, p, 3).Some? ==> Hex(s, p, 3).value < 0x1000;
    Hex(s, p, 4)
  }

  function Chars(bytes: seq<Byte>): string {
    seq(|bytes|, i requires 0 <= i < |bytes| => bytes[i] as char)
  }

  /** A code point behind `\u`, and where it ends; both halves of a surrogate pair make one. An
      error is reported where the escape begins. */
  function CodePoint(s: string, p: nat, escape: nat): (r: Lex<nat>)
    ensures if r.Token? then p + 4 <= r.pos <= |s| && r.value <= 0x10FFFF else r.code.Lexical?
  {
    var high := Hex4(s, p);
    if high.None? then Bad(UnicodeEscapeInvalidHex, escape)
    else if !(0xD800 <= high.value <= 0xDBFF) then Token(p + 4, high.value)
    else if Peek(s, p + 4) != '\\' || Peek(s, p + 5) != 'u' then Bad(UnicodeSurrogateInvalid, escape)
    else
      var low := Hex4(s, p + 6);
      if low.None? then Bad(UnicodeEscapeInvalidHex, escape)
      else if !(0xDC00 <= low.value <= 0xDFFF) then Bad(UnicodeSurrogateInvalid, escape)
      else Token(p + 10, (high.value - 0xD800) * 0x400 + (low.value - 0xDC00) + 0x10000)
  }

  /** The rest of a string, behind its quote and the characters read so far. */
  function Scan(s: string, p: nat, read: string): (r: Lex<string>)
    ensures if r.Token? then p < r.pos <= |s| else r.code.Lexical?
    decreases |s| - p
  {
    var ch := Peek(s, p);
    if ch == '\\' then
      var e := Peek(s, p + 1);
      if Short(e).Some? then Scan(s, p + 2, read + [Short(e).value])
      else if e == 'u' then
        var u := CodePoint(s, p + 2, p);
        if u.Bad? then Bad(u.code, u.at) else Scan(s, u.pos, read + Chars(Encode8(u.value)))
      else Bad(EscapeInvalid, p)
    else if ch == '"' then Token(p + 1, read)
    else if ch == '\0' then Bad(MissQuotationMark, p)
    else if ch < ' ' then Bad(InvalidEncoding, p)
    else Scan(s, p + 1, read + [ch])
  }

  /** `ParseString`, up to the handler, on a quote. */
  function StringAt(s: string, p: nat): Lex<string> {
    Scan(s, p + 1, "")
  }

  lemma StringScannerIsGood()
    ensures Scans(StringAt)
  {
  }

  // ----- The loops

  method ReadHex4(s: string, p: nat) returns (r: Option<nat>)
    ensures r == Hex4(s, p)
  {
    var codepoint: nat := 0;
    for i := 0 to 4
      invariant Hex(s, p, i) == Some(codepoint)
    {
      var h := HexOf(Peek(s, p + i));
      if h.None? {
        HexFails(s, p, i + 1, 4);
        return None;
      }
      codepoint := codepoint * 16 + h.value;
    }
    r := Some(codepoint);
  }

  lemma {:induction false} HexFails(s: string, p: nat, few: nat, digits: nat)
    requires few <= digits && Hex(s, p, few).None?
    ensures Hex(s, p, digits).None?
  {
    if few < digits {
      HexFails(s, p, few, digits - 1);
    }
  }

  /** `ParseStringToStream` */
  method ReadString(s: string, start: nat) returns (r: Lex<string>)
    ensures r == StringAt(s, start)
  {
    hide Short, Hex4, Encode8;
    var p, read := start + 1, "";
    while true
      invariant Scan(s, p, read) == StringAt(s, start)
      decreases |s| - p
    {
      var ch := Peek(s, p);
      if ch == '\\' {
        var escapeOffset := p;
        var e := Peek(s, p + 1);
        if Short(e).Some? {
          read := read + [Short(e).value];
          p := p + 2;
        } else if e == 'u' {
          var high := ReadHex4(s, p + 2);
          if high.None? {
            return Bad(UnicodeEscapeInvalidHex, escapeOffset);
          }
          var codepoint := high.value;
          p := p + 6;
          if 0xD800 <= codepoint <= 0xDBFF {
            if Peek(s, p) != '\\' || Peek(s, p + 1) != 'u' {
              return Bad(UnicodeSurrogateInvalid, escapeOffset);
            }
            var low := ReadHex4(s, p + 2);
            if low.None? {
              return Bad(UnicodeEscapeInvalidHex, escapeOffset);
            }
            if low.value < 0xDC00 || low.value > 0xDFFF {
              return Bad(UnicodeSurrogateInvalid, escapeOffset);
            }
            codepoint := (codepoint - 0xD800) * 0x400 + (low.value - 0xDC00) + 0x10000;
            p := p + 6;
          }
          read := read + Chars(Encode8(codepoint));
        } else {
          return Bad(EscapeInvalid, escapeOffset);
        }
      } else if ch == '"' {
        return Token(p + 1, read);
      } else if ch < ' ' {
        return Bad(if ch == '\0' then MissQuotationMark else InvalidEncoding, p);
      } else {
        read := read + [ch];
        p := p + 1;
      }
    }
  }

  // ----- Writing

  function HexDigit(d: nat): (ch: char)
    requires d < 16
    ensures HexOf(ch) == Some(d)
  {
    if d < 10 then ('0' as int + d) as char else ('A' as int + d - 10) as char
  }

  function FourDigits(n: nat): (r: string)
    requires n < 0x10000
    ensures |r| == 4
  {
    [HexDigit(n / 0x1000), HexDigit(n / 0x100 % 16), HexDigit(n / 16 % 16), HexDigit(n % 16)]
  }

  /** The escape of a character, by the table of the writer. */
  function Escaped(ch: char): (r: string)
    ensures r != ""
  {
    if ch == '"' then "\\\""
    else if ch == '\\' then "\\\\"
    else if ch == 8 as char then "\\b"
    else if ch == 12 as char then "\\f"
    else if ch == '\n' then "\\n"
    else if ch == '\r' then "\\r"
    else if ch == '\t' then "\\t"
    else if ch < ' ' then "\\u" + FourDigits(ch as int)
    else [ch]
  }

  function EscapedAll(t: string): string {
    if t == "" then "" else Escaped(t[0]) + EscapedAll(t[1..])
  }

  /** `WriteString` */
  function Quoted(t: string): (r: string)
    ensures r != "" && r[0] == '"'
  {
    "\"" + EscapedAll(t) + "\""
  }

  lemma OneMoreEscaped(out: string, t: string)
    requires t != ""
    ensures out + EscapedAll(t) == out + Escaped(t[0]) + EscapedAll(t[1..])
  {
    hide Escaped;
  }

  lemma NothingEscaped()
    ensures EscapedAll("") == ""
  {
  }

  method WriteString(t: string) returns (out: string)
    ensures out == Quoted(t)
  {
    hide Escaped, EscapedAll;
    out := "\"";
    for i := 0 to |t|
      invariant out + EscapedAll(t[i..]) == "\"" + EscapedAll(t)
    {
      assert t[i..][1..] == t[i + 1..];
      OneMoreEscaped(out, t[i..]);
      out := out + Escaped(t[i]);
    }
    NothingEscaped();
    assert t[|t|..] == "" && out + "" == out;
    out := out + "\"";
  }

  /** A code point in escapes only, as the writer prints it for targets without Unicode. */
  function UnicodeEscape(cp: nat): string
    requires Scalar(cp)
  {
    if cp < 0x10000 then "\\u" + FourDigits(cp)
    else "\\u" + FourDigits(0xD800 + (cp - 0x10000) / 0x400) + "\\u" + FourDigits(0xDC00 + (cp - 0x10000) % 0x400)
  }

  // ----- Round trips

  lemma FourDigitsRead(a: string, n: nat, b: string)
    requires n < 0x10000
    ensures Hex4(a + FourDigits(n) + b, |a|) == Some(n)
  {
    var s := a + FourDigits(n) + b;
    assert s[|a|] == HexDigit(n / 0x1000) && s[|a| + 1] == HexDigit(n / 0x100 % 16);
    assert s[|a| + 2] == HexDigit(n / 16 % 16) && s[|a| + 3] == HexDigit(n % 16);
    hide HexOf, HexDigit;
    assert n / 0x100 == n / 0x1000 * 16 + n / 0x100 % 16 && n / 16 == n / 0x100 * 16 + n / 16 % 16;
    assert Hex(s, |a|, 0) == Some(0);
    assert Hex(s, |a|, 1) == Some(n / 0x1000);
    assert Hex(s, |a|, 2) == Some(n / 0x100);
    assert Hex(s, |a|, 3) == Some(n / 16);
  }

  lemma UnicodeStep(s: string, p: nat, read: string, cp: nat, e: nat)
    requires p + 1 < |s| && s[p] == '\\' && s[p + 1] == 'u' && cp <= 0x10FFFF && CodePoint(s, p + 2, p) == Token(e, cp)
    ensures Scan(s, p, read) == Scan(s, e, read + Chars(Encode8(cp)))
  {
    hide CodePoint, Encode8, Chars;
  }

  lemma ShortStep(s: string, p: nat, read: string, ch: char)
    requires p + 1 < |s| && s[p] == '\\' && Short(s[p + 1]) == Some(ch)
    ensures Scan(s, p, read) == Scan(s, p + 2, read + [ch])
  {
    hide CodePoint, Short;
  }

  lemma PlainStep(s: string, p: nat, read: string)
    requires p < |s| && s[p] != '\\' && s[p] != '"' && s[p] >= ' '
    ensures Scan(s, p, read) == Scan(s, p + 1, read + [s[p]])
  {
    hide CodePoint, Short;
  }

  lemma ControlReads(a: string, ch: char, b: string)
    requires ch < ' '
    ensures var s := a + ("\\u" + FourDigits(ch as int)) + b;
            CodePoint(s, |a| + 2, |a|) == Token(|a| + 6, ch as int) && Chars(Encode8(ch as int)) == [ch]
  {
    hide FourDigits, Hex4;
    var n := ch as int;
    assert a + ("\\u" + FourDigits(n)) + b == (a + "\\u") + FourDigits(n) + b;
    FourDigitsRead(a + "\\u", n, b);
  }

  /** One escaped character is read back. */
  lemma EscapeReads(a: string, ch: char, b: string, read: string)
    ensures Scan(a + Escaped(ch) + b, |a|, read) == Scan(a + Escaped(ch) + b, |a| + |Escaped(ch)|, read + [ch])
  {
    hide Scan, CodePoint, FourDigits, Encode8, Chars;
    var s := a + Escaped(ch) + b;
    assert forall k | 0 <= k < |Escaped(ch)| :: s[|a| + k] == Escaped(ch)[k];
    if |Escaped(ch)| == 1 {
      PlainStep(s, |a|, read);
    } else if |Escaped(ch)| == 2 {
      assert s[|a|] == '\\' && s[|a| + 1] == Escaped(ch)[1];
      ShortStep(s, |a|, read, ch);
    } else {
      assert s[|a|] == '\\' && s[|a| + 1] == 'u';
      ControlReads(a, ch, b);
      UnicodeStep(s, |a|, read, ch as int, |a| + 6);
    }
  }

  lemma QuoteEnds(s: string, p: nat, read: string)
    requires p < |s| && s[p] == '"'
    ensures Scan(s, p, read) == Token(p + 1, read)
  {
  }

  lemma Regroup(a: string, first: string, rest: string, b: string)
    ensures a + (first + rest) + "\"" + b == a + first + (rest + "\"" + b)
    ensures a + (first + rest) + "\"" + b == (a + first) + rest + "\"" + b
  {
  }

  lemma {:induction false} EscapesRead(a: string, t: string, b: string, read: string)
    ensures Scan(a + EscapedAll(t) + "\"" + b, |a|, read) == Token(|a| + |EscapedAll(t)| + 1, read + t)
    decreases |t|
  {
    hide Escaped, Scan;
    var s := a + EscapedAll(t) + "\"" + b;
    if t == "" {
      QuoteEnds(s, |a|, read);
      assert read + t == read;
    } else {
      var first, rest := Escaped(t[0]), EscapedAll(t[1..]);
      Regroup(a, first, rest, b);
      EscapeReads(a, t[0], rest + "\"" + b, read);
      EscapesRead(a + first, t[1..], b, read + [t[0]]);
      assert read + [t[0]] + t[1..] == read + t;
    }
  }

  /** Every string is read back from what is written for it, whatever stands around it. */
  lemma StringsReadBack(a: string, t: string, b: string)
    ensures StringAt(a + Quoted(t) + b, |a|) == Token(|a| + |Quoted(t)|, t)
  {
    hide Scan, EscapedAll;
    assert a + Quoted(t) + b == (a + "\"") + EscapedAll(t) + "\"" + b;
    EscapesRead(a + "\"", t, b, "");
    assert "" + t == t;
  }

  lemma SingleReads(a: string, cp: nat, b: string)
    requires Scalar(cp) && cp < 0x10000
    ensures CodePoint(a + UnicodeEscape(cp) + b, |a| + 2, |a|) == Token(|a| + 6, cp)
  {
    hide FourDigits, Hex4;
    assert a + UnicodeEscape(cp) + b == (a + "\\u") + FourDigits(cp) + b;
    FourDigitsRead(a + "\\u", cp, b);
  }

  lemma PairReads(a: string, cp: nat, b: string)
    requires Scalar(cp) && cp >= 0x10000
    ensures CodePoint(a + UnicodeEscape(cp) + b, |a| + 2, |a|) == Token(|a| + 12, cp)
  {
    hide FourDigits, Hex4;
    var s := a + UnicodeEscape(cp) + b;
    var high, low := 0xD800 + (cp - 0x10000) / 0x400, 0xDC00 + (cp - 0x10000) % 0x400;
    var first := a + "\\u" + FourDigits(high) + "\\u";
    assert s == (a + "\\u") + FourDigits(high) + ("\\u" + FourDigits(low) + b);
    assert s == first + FourDigits(low) + b;
    FourDigitsRead(a + "\\u", high, "\\u" + FourDigits(low) + b);
    FourDigitsRead(first, low, b);
    assert s[|a| + 6] == '\\' && s[|a| + 7] == 'u';
    hide UnicodeEscape;
  }

  lemma EscapeBegins(cp: nat)
    requires Scalar(cp)
    ensures |UnicodeEscape(cp)| == if cp < 0x10000 then 6 else 12
    ensures UnicodeEscape(cp)[0] == '\\' && UnicodeEscape(cp)[1] == 'u'
  {
    hide FourDigits;
  }

  /** Every code point is read from its escapes, one or a surrogate pair, as its UTF-8 bytes. */
  lemma UnicodeEscapesRead(a: string, cp: nat, b: string, read: string)
    requires Scalar(cp)
    ensures var s, e := a + UnicodeEscape(cp) + b, |a| + |UnicodeEscape(cp)|;
            Scan(s, |a|, read) == Scan(s, e, read + Chars(Encode8(cp)))
  {
    hide UnicodeEscape, CodePoint, Encode8, Scan, Chars;
    var s := a + UnicodeEscape(cp) + b;
    EscapeBegins(cp);
    if cp < 0x10000 {
      SingleReads(a, cp, b);
    } else {
      PairReads(a, cp, b);
    }
    assert s[|a|] == UnicodeEscape(cp)[0] && s[|a| + 1] == UnicodeEscape(cp)[1];
    UnicodeStep(s, |a|, read, cp, |a| + |UnicodeEscape(cp)|);
  }
}
