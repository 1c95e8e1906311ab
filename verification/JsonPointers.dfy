/** JSON Pointer: the parser and the printer for the string form and for the URI fragment
    form, RFC 6901. */
module JsonPointers {
  import opened UtfCodecs
  import opened Wrappers
  import I = PointerIndexes

  const SLASH: Byte := 0x2F
  const TILDE: Byte := 0x7E
  const HASH: Byte := 0x23
  const PERCENT: Byte := 0x25
  const DIGIT0: Byte := 0x30
  const DIGIT1: Byte := 0x31

  datatype ErrorCode = MustBeginWithSolidus | InvalidEscape | InvalidPercentEncoding | MustPercentEncode

  /** Names are followed by a rest that is empty or begins with a slash. */
  datatype NameResult = Name(name: seq<Byte>, rest: seq<Byte>) | BadName(code: ErrorCode, offset: nat)

  datatype PointerResult = Parsed(names: seq<seq<Byte>>) | Bad(code: ErrorCode, offset: nat)

  predicate NeedPercentEncode(c: Byte) {
    !((0x30 <= c <= 0x39) || (0x41 <= c <= 0x5A) || (0x61 <= c <= 0x7A) || c in {0x2D, 0x2E, 0x5F, TILDE})
  }

  // ----- Percent triplets

  function HexDigit(d: nat): Byte
    requires d < 16
  {
    if d < 10 then 0x30 + d else 0x41 + d - 10
  }

  function HexValue(h: Byte): Option<nat> {
    if 0x30 <= h <= 0x39 then Some(h - 0x30)
    else if 0x41 <= h <= 0x46 then Some(h - 0x41 + 10)
    else if 0x61 <= h <= 0x66 then Some(h - 0x61 + 10)
    else None
  }

  lemma HexInverts(d: nat)
    requires d < 16
    ensures HexValue(HexDigit(d)) == Some(d)
  {
  }

  /** The hexadecimal digits of both cases. */
  predicate Denotes(h: Byte, d: nat) {
    || (d < 10 && h == 0x30 + d)
    || (10 <= d < 16 && (h == 0x41 + d - 10 || h == 0x61 + d - 10))
  }

  /** A triplet is a percent sign and two hexadecimal digits of either case, and stands for the
      byte that they denote. */
  lemma TripletsAreExact(s: seq<Byte>)
    ensures TakePercent(s).Some? ==>
              |s| >= 3 && s[0] == PERCENT && Denotes(s[1], TakePercent(s).value / 16) && Denotes(s[2], TakePercent(s).value % 16)
    ensures forall b: Byte :: |s| >= 3 && s[0] == PERCENT && Denotes(s[1], b / 16) && Denotes(s[2], b % 16) ==>
                        TakePercent(s) == Some(b)
  {
  }

  function Percent(b: Byte): seq<Byte> {
    [PERCENT, HexDigit(b / 16), HexDigit(b % 16)]
  }

  function PercentAll(bytes: seq<Byte>): seq<Byte> {
    if bytes == [] then [] else Percent(bytes[0]) + PercentAll(bytes[1..])
  }

  /** `PercentDecodeStream::Take`; None marks the stream invalid. */
  function TakePercent(s: seq<Byte>): (r: Option<Byte>)
    ensures r.Some? ==> |s| >= 3 && SLASH !in s[..3]
  {
    if |s| < 3 || s[0] != PERCENT then None
    else
      var hi, lo := HexValue(s[1]), HexValue(s[2]);
      if hi.None? || lo.None? then None else Some(hi.value * 16 + lo.value)
  }

  lemma PercentInverts(b: Byte, t: seq<Byte>)
    ensures TakePercent(Percent(b) + t) == Some(b) && (Percent(b) + t)[3..] == t
  {
    HexInverts(b / 16);
    HexInverts(b % 16);
  }

  /** The continuation bytes of a character, read through triplets. */
  function TailPercent(s: seq<Byte>, masks: seq<bv8>): (r: Option<(seq<Byte>, seq<Byte>)>)
    ensures r.Some? ==> |r.value.0| == |masks| && |s| == 3 * |masks| + |r.value.1| && Slashes(r.value.1) == Slashes(s)
    decreases |masks|
  {
    if masks == [] then Some(([], s))
    else
      var c := TakePercent(s);
      if c.None? || !InRange(c.value, masks[0]) then None
      else
        var r := TailPercent(s[3..], masks[1..]);
        NoSlashesBefore(s, 3);
        if r.None? then None else Some(([c.value] + r.value.0, r.value.1))
  }

  /** One validated character: its bytes, and the rest. */
  function TakeCharacter(s: seq<Byte>): (r: Option<(seq<Byte>, seq<Byte>)>)
    ensures r.Some? ==> r.value.0 != [] && |s| == 3 * |r.value.0| + |r.value.1| && Slashes(r.value.1) == Slashes(s)
  {
    var c := TakePercent(s);
    if c.None? then None
    else
      NoSlashesBefore(s, 3);
      if c.value < 0x80 then Some(([c.value], s[3..]))
      else if Masks(c.value) == [] then None
      else
        var r := TailPercent(s[3..], Masks(c.value));
        if r.None? then None else Some(([c.value] + r.value.0, r.value.1))
  }

  // ----- Counting separators

  function Slashes(s: seq<Byte>): nat {
    if s == [] then 0 else (if s[0] == SLASH then 1 else 0) + Slashes(s[1..])
  }

  lemma {:induction false} NoSlashesBefore(s: seq<Byte>, n: nat)
    requires n <= |s| && SLASH !in s[..n]
    ensures Slashes(s[n..]) == Slashes(s)
    decreases n
  {
    if n > 0 {
      assert s[0] in s[..n];
      assert forall c | c in s[1..][..n - 1] :: c in s[..n];
      NoSlashesBefore(s[1..], n - 1);
      assert s[1..][n - 1..] == s[n..];
    } else {
      assert s[0..] == s;
    }
  }

  // ----- Parsing

  function Prepend(bytes: seq<Byte>, r: NameResult): NameResult {
    if r.Name? then Name(bytes + r.name, r.rest) else r
  }

  /** Whether parse results account for the input: the name is no longer than what was taken,
      and took no separator. */
  predicate Accounts(s: seq<Byte>, r: NameResult) {
    r.Name? ==> |r.name| + |r.rest| <= |s| && Slashes(r.rest) == Slashes(s) && (r.rest == [] || r.rest[0] == SLASH)
  }

  /** The inner loop of `Parse`, at an absolute offset. */
  function ParseName(s: seq<Byte>, at: nat, uri: bool): (r: NameResult)
    ensures Accounts(s, r)
    decreases |s|, 1
  {
    if s == [] || s[0] == SLASH then Name([], s)
    else if uri && s[0] == PERCENT then
      var taken := TakeCharacter(s);
      if taken.None? then BadName(InvalidPercentEncoding, at)
      else if |taken.value.0| == 1 then ParseEscape(taken.value.0[0], taken.value.1, at + 3, uri)
      else Prepend(taken.value.0, ParseName(taken.value.1, at + 3 * |taken.value.0|, uri))
    else if uri && NeedPercentEncode(s[0]) then BadName(MustPercentEncode, at)
    else
      NoSlashesBefore(s, 1);
      ParseEscape(s[0], s[1..], at + 1, uri)
  }

  /** A tilde makes an escape with the character that follows it in the source. */
  function ParseEscape(c: Byte, s: seq<Byte>, at: nat, uri: bool): (r: NameResult)
    ensures r.Name? ==> |r.name| + |r.rest| <= |s| + 1 && Slashes(r.rest) == Slashes(s) && (r.rest == [] || r.rest[0] == SLASH)
    decreases |s|, 2
  {
    if c != TILDE then Prepend([c], ParseName(s, at, uri))
    else if s == [] || s[0] !in {DIGIT0, DIGIT1} then BadName(InvalidEscape, at)
    else
      NoSlashesBefore(s, 1);
      Prepend([if s[0] == DIGIT0 then TILDE else SLASH], ParseName(s[1..], at + 1, uri))
  }

  /** What the names take in the buffer, with their terminators. */
  function Size(names: seq<seq<Byte>>): nat {
    if names == [] then 0 else |names[0]| + 1 + Size(names[1..])
  }

  /** The outer loop. Exactly as many names are found as slashes were counted, and they fit
      the buffer of the length of the source. */
  function ParseNames(s: seq<Byte>, at: nat, uri: bool): (r: PointerResult)
    requires s == [] || s[0] == SLASH
    ensures r.Parsed? ==> |r.names| == Slashes(s) && Size(r.names) <= |s|
    decreases |s|
  {
    if s == [] then Parsed([])
    else
      var n := ParseName(s[1..], at + 1, uri);
      if n.BadName? then Bad(n.code, n.offset)
      else
        var rest := ParseNames(n.rest, at + |s| - |n.rest|, uri);
        if rest.Bad? then rest
        else Parsed([n.name] + rest.names)
  }

  function ParsePointer(s: seq<Byte>): PointerResult {
    var uri := s != [] && s[0] == HASH;
    var i := if uri then 1 else 0;
    if i != |s| && s[i] != SLASH then Bad(MustBeginWithSolidus, i)
    else ParseNames(s[i..], i, uri)
  }

  // ----- Printing

  function Escape(c: Byte): seq<Byte> {
    if c == TILDE then [TILDE, DIGIT0] else if c == SLASH then [TILDE, DIGIT1] else [c]
  }

  function PrintName(name: seq<Byte>): seq<Byte> {
    if name == [] then [] else Escape(name[0]) + PrintName(name[1..])
  }

  function Print(names: seq<seq<Byte>>): seq<Byte> {
    if names == [] then [] else [SLASH] + PrintName(names[0]) + Print(names[1..])
  }

  function PrintUriName(name: seq<Byte>): Option<seq<Byte>>
    decreases |name|
  {
    if name == [] then Some([])
    else if name[0] == TILDE || name[0] == SLASH || !NeedPercentEncode(name[0]) then
      var rest := PrintUriName(name[1..]);
      if rest.None? then None else Some(Escape(name[0]) + rest.value)
    else
      var v := Validate8(name);
      if !v.ok then None
      else
        ValidatesAsItDecodes(name);
        var rest := PrintUriName(v.rest);
        if rest.None? then None else Some(PercentAll(v.out) + rest.value)
  }

  function PrintUriNames(names: seq<seq<Byte>>): Option<seq<Byte>> {
    if names == [] then Some([])
    else
      var first, rest := PrintUriName(names[0]), PrintUriNames(names[1..]);
      if first.None? || rest.None? then None else Some([SLASH] + first.value + rest.value)
  }

  function PrintUri(names: seq<seq<Byte>>): Option<seq<Byte>> {
    var r := PrintUriNames(names);
    if r.None? then None else Some([HASH] + r.value)
  }

  // ----- The string form is exact

  /** A tilde that nothing follows but the end or another character than 0 and 1. */
  predicate BadEscape(s: seq<Byte>, k: nat) {
    0 < k <= |s| && s[k - 1] == TILDE && (k == |s| || (s[k] != DIGIT0 && s[k] != DIGIT1))
  }

  lemma {:induction false} NamePrintsBack(s: seq<Byte>, at: nat)
    ensures match ParseName(s, at, false)
            case Name(name, rest) => s == PrintName(name) + rest
            case BadName(code, offset) => code == InvalidEscape && offset > at && BadEscape(s, offset - at)
    decreases |s|
  {
    if s != [] && s[0] != SLASH {
      var escaped := s[0] == TILDE && |s| > 1 && (s[1] == DIGIT0 || s[1] == DIGIT1);
      if escaped || s[0] != TILDE {
        var c: Byte := if !escaped then s[0] else if s[1] == DIGIT0 then TILDE else SLASH;
        var k := if escaped then 2 else 1;
        var t := s[k..];
        assert s == Escape(c) + t;
        assert ParseName(s, at, false) == Prepend([c], ParseName(t, at + k, false));
        NamePrintsBack(t, at + k);
        OneMorePrints(c, t, ParseName(t, at + k, false));
      }
    }
  }

  lemma OneMorePrints(c: Byte, t: seq<Byte>, r: NameResult)
    requires r.Name? ==> t == PrintName(r.name) + r.rest
    ensures r.Name? ==> Escape(c) + t == PrintName([c] + r.name) + r.rest
  {
    if r.Name? {
      assert ([c] + r.name)[1..] == r.name;
      assert Escape(c) + (PrintName(r.name) + r.rest) == Escape(c) + PrintName(r.name) + r.rest;
    }
  }

  lemma {:induction false} NamesPrintBack(s: seq<Byte>, at: nat)
    requires s == [] || s[0] == SLASH
    ensures match ParseNames(s, at, false)
            case Parsed(names) => Print(names) == s
            case Bad(code, offset) => code == InvalidEscape && offset > at && BadEscape(s, offset - at)
    decreases |s|
  {
    hide ParseName, PrintName, BadEscape, Slashes, Size;
    if s != [] {
      NamePrintsBack(s[1..], at + 1);
      var n := ParseName(s[1..], at + 1, false);
      if n.Name? {
        var later := at + |s| - |n.rest|;
        NamesPrintBack(n.rest, later);
        var start := [SLASH] + PrintName(n.name);
        assert s == start + n.rest;
        var rest := ParseNames(n.rest, later, false);
        if rest.Bad? {
          EscapeIsFarther(start, n.rest, rest.offset - later);
        }
      } else {
        assert s == [SLASH] + s[1..];
        EscapeIsFarther([SLASH], s[1..], n.offset - (at + 1));
      }
    }
  }

  lemma EscapeIsFarther(start: seq<Byte>, s: seq<Byte>, k: nat)
    requires BadEscape(s, k)
    ensures BadEscape(start + s, |start| + k)
  {
  }

  /** A text in string form is parsed into the only names that print it, and refused exactly
      where it does not begin with a slash or has a tilde without 0 or 1 behind it. */
  lemma StringFormIsExact(s: seq<Byte>)
    requires s == [] || s[0] != HASH
    ensures match ParsePointer(s)
            case Parsed(names) => Print(names) == s
            case Bad(code, offset) =>
              if s[0] != SLASH then code == MustBeginWithSolidus && offset == 0
              else code == InvalidEscape && BadEscape(s, offset)
  {
    hide ParseNames, Print;
    assert s[0..] == s;
    if s == [] || s[0] == SLASH {
      NamesPrintBack(s, 0);
      NoNames(0, false);
    }
  }

  // ----- Round trips

  /** What may follow a name. */
  predicate Separates(t: seq<Byte>) {
    t == [] || t[0] == SLASH
  }

  lemma EscapeInverts(c: Byte, t: seq<Byte>, at: nat, uri: bool)
    requires uri ==> c == TILDE || c == SLASH || !NeedPercentEncode(c)
    ensures exists later: nat :: ParseName(Escape(c) + t, at, uri) == Prepend([c], ParseName(t, later, uri))
  {
    var s := Escape(c) + t;
    if c == TILDE || c == SLASH {
      assert s[0] == TILDE && s[1..][0] == Escape(c)[1] && s[1..][1..] == t;
      assert ParseName(s, at, uri) == ParseEscape(TILDE, s[1..], at + 1, uri);
      assert ParseName(s, at, uri) == Prepend([c], ParseName(t, at + 2, uri));
    } else {
      assert s[0] == c && s[1..] == t;
      assert ParseName(s, at, uri) == ParseEscape(c, t, at + 1, uri);
      assert ParseName(s, at, uri) == Prepend([c], ParseName(t, at + 1, uri));
    }
  }

  lemma {:induction false} NameInverts(name: seq<Byte>, t: seq<Byte>, at: nat)
    requires Separates(t)
    ensures ParseName(PrintName(name) + t, at, false) == Name(name, t)
    decreases |name|
  {
    hide ParseName, Escape;
    if name == [] {
      assert PrintName(name) + t == t;
      EmptyName(t, at, false);
    } else {
      var rest := PrintName(name[1..]) + t;
      assert PrintName(name) + t == Escape(name[0]) + rest;
      EscapeInverts(name[0], rest, at, false);
      var later: nat :| ParseName(Escape(name[0]) + rest, at, false) == Prepend([name[0]], ParseName(rest, later, false));
      NameInverts(name[1..], t, later);
    }
  }

  lemma EmptyName(t: seq<Byte>, at: nat, uri: bool)
    requires Separates(t)
    ensures ParseName(t, at, uri) == Name([], t)
  {
  }

  lemma {:induction false} PrintSeparates(names: seq<seq<Byte>>)
    ensures Separates(Print(names))
  {
  }

  lemma {:induction false} NamesInvert(names: seq<seq<Byte>>, at: nat)
    ensures Separates(Print(names)) && ParseNames(Print(names), at, false) == Parsed(names)
    decreases |names|
  {
    hide ParseName, PrintName;
    if names != [] {
      var s, rest := Print(names), Print(names[1..]);
      assert s[1..] == PrintName(names[0]) + rest;
      PrintSeparates(names[1..]);
      NameInverts(names[0], rest, at + 1);
      NamesInvert(names[1..], at + |s| - |rest|);
    }
  }

  /** Printing a pointer in string form and parsing it again gives the same pointer, section 3
      of RFC 6901, whatever bytes its names hold. */
  lemma StringRoundTrip(names: seq<seq<Byte>>)
    ensures ParsePointer(Print(names)) == Parsed(names)
  {
    hide ParseNames;
    PrintSeparates(names);
    NamesInvert(names, 0);
    assert Print(names)[0..] == Print(names);
  }

  // ----- The URI fragment form

  /** Checked continuation bytes come back through their triplets. */
  lemma {:induction false} TailInverts(v: Checked, masks: seq<bv8>, t: seq<Byte>) returns (bytes: seq<Byte>)
    requires CheckTail(v, masks).ok
    ensures CheckTail(v, masks).out == v.out + bytes
    ensures TailPercent(PercentAll(bytes) + t, masks) == Some((bytes, t))
    decreases |masks|
  {
    if masks == [] {
      bytes := [];
      assert PercentAll([]) + t == t;
    } else {
      var u := Copied(v, masks[0]);
      assert CheckTail(v, masks) == CheckTail(u, masks[1..]);
      hide PercentAll, TailPercent, InRange, CheckTail;
      var later := TailInverts(u, masks[1..], t);
      TailFails(u, masks[1..]);
      var c := Taken(v.rest);
      bytes := [c] + later;
      AppendOne(v.out, c, later);
      TailStep(c, later, masks, t);
    }
  }

  lemma AppendOne(a: seq<Byte>, c: Byte, b: seq<Byte>)
    ensures a + ([c] + b) == a + [c] + b
  {
  }

  lemma TailStep(c: Byte, later: seq<Byte>, masks: seq<bv8>, t: seq<Byte>)
    requires masks != [] && InRange(c, masks[0])
    requires TailPercent(PercentAll(later) + t, masks[1..]) == Some((later, t))
    ensures TailPercent(PercentAll([c] + later) + t, masks) == Some(([c] + later, t))
  {
    hide PercentAll, Percent, TakePercent, InRange;
    PercentAllOf(c, later);
    var s := Percent(c) + (PercentAll(later) + t);
    assert PercentAll([c] + later) + t == s;
    PercentInverts(c, PercentAll(later) + t);
  }

  lemma PercentAllOf(c: Byte, later: seq<Byte>)
    ensures PercentAll([c] + later) == Percent(c) + PercentAll(later)
  {
    assert ([c] + later)[1..] == later;
  }

  lemma {:induction false} TailFails(v: Checked, masks: seq<bv8>)
    requires CheckTail(v, masks).ok
    ensures v.ok
    decreases |masks|
  {
    if masks != [] {
      TailFails(Copied(v, masks[0]), masks[1..]);
    }
  }

  lemma CharacterInverts(name: seq<Byte>, t: seq<Byte>)
    requires name != [] && Validate8(name).ok
    ensures TakeCharacter(PercentAll(Validate8(name).out) + t) == Some((Validate8(name).out, t))
  {
    hide TailPercent, CheckTail, Percent, TakePercent;
    var c := name[0];
    if c < 0x80 {
      PercentInverts(c, t);
      assert PercentAll([c]) == Percent(c) + PercentAll([]) == Percent(c);
    } else {
      var v := Checked(Masks(c) != [], [c], Left(name));
      var later := TailInverts(v, Masks(c), t);
      TailFails(v, Masks(c));
      var w := CheckTail(v, Masks(c));
      assert PercentAll(w.out) + t == Percent(c) + (PercentAll(later) + t);
      PercentInverts(c, PercentAll(later) + t);
    }
  }

  /** A character that needs percent-encoding comes back from its triplets. */
  lemma CharacterParses(name: seq<Byte>, rest: seq<Byte>, at: nat)
    requires name != [] && NeedPercentEncode(name[0]) && Validate8(name).ok
    ensures exists later: nat :: ParseName(PercentAll(Validate8(name).out) + rest, at, true) ==
                                 Prepend(Validate8(name).out, ParseName(rest, later, true))
  {
    CharacterInverts(name, rest);
    FirstIsCopied(name);
    hide Validate8, PercentAll, TakeCharacter;
    var out := Validate8(name).out;
    var s := PercentAll(out) + rest;
    BeginsWithPercent(out);
    if |out| == 1 {
      assert out == [name[0]];
      assert ParseName(s, at, true) == ParseEscape(name[0], rest, at + 3, true);
      assert ParseName(s, at, true) == Prepend(out, ParseName(rest, at + 3, true));
    } else {
      assert ParseName(s, at, true) == Prepend(out, ParseName(rest, at + 3 * |out|, true));
    }
  }

  lemma BeginsWithPercent(bytes: seq<Byte>)
    requires bytes != []
    ensures PercentAll(bytes) != [] && PercentAll(bytes)[0] == PERCENT
  {
  }

  lemma FirstIsCopied(name: seq<Byte>)
    requires name != [] && Validate8(name).ok
    ensures var v := Validate8(name); v.out != [] && v.out[0] == name[0]
  {
    hide CheckTail;
    if name[0] >= 0x80 {
      var later := TailInverts(Checked(Masks(name[0]) != [], [name[0]], Left(name)), Masks(name[0]), []);
    }
  }

  lemma {:induction false} UriNameInverts(name: seq<Byte>, t: seq<Byte>, at: nat)
    requires Separates(t) && PrintUriName(name).Some?
    ensures ParseName(PrintUriName(name).value + t, at, true) == Name(name, t)
    decreases |name|
  {
    hide ParseName, Escape, Validate8, PercentAll;
    var u := PrintUriName(name).value;
    if name == [] {
      assert u + t == t;
      EmptyName(t, at, true);
    } else if name[0] == TILDE || name[0] == SLASH || !NeedPercentEncode(name[0]) {
      var rest := PrintUriName(name[1..]).value + t;
      assert u + t == Escape(name[0]) + rest;
      EscapeInverts(name[0], rest, at, true);
      var later: nat :| ParseName(Escape(name[0]) + rest, at, true) == Prepend([name[0]], ParseName(rest, later, true));
      UriNameInverts(name[1..], t, later);
    } else {
      var v := Validate8(name);
      ValidatesAsItDecodes(name);
      var rest := PrintUriName(v.rest).value + t;
      assert u + t == PercentAll(v.out) + rest;
      CharacterParses(name, rest, at);
      var later: nat :| ParseName(PercentAll(v.out) + rest, at, true) == Prepend(v.out, ParseName(rest, later, true));
      UriNameInverts(v.rest, t, later);
      ValidIsExact(name);
    }
  }

  lemma ValidIsExact(name: seq<Byte>)
    requires name != [] && Validate8(name).ok
    ensures Validate8(name).out + Validate8(name).rest == name
  {
    ValidatesAsItDecodes(name);
    hide Validate8;
    var v := Validate8(name);
    assert Zeros(0) == [] && name + [] == name;
  }

  lemma {:induction false} UriNamesInvert(names: seq<seq<Byte>>, at: nat)
    requires PrintUriNames(names).Some?
    ensures var u := PrintUriNames(names).value;
            Separates(u) && ParseNames(u, at, true) == Parsed(names)
    decreases |names|
  {
    hide ParseName, PrintUriName;
    if names != [] {
      var u, rest := PrintUriNames(names).value, PrintUriNames(names[1..]).value;
      assert u[1..] == PrintUriName(names[0]).value + rest;
      UriNamesInvert(names[1..], at + |u| - |rest|);
      UriNameInverts(names[0], rest, at + 1);
    }
  }

  lemma {:induction false} NamePrints(name: seq<Byte>)
    ensures PrintUriName(name).Some? <==> DecodeAll8(name).Some?
    decreases |name|
  {
    if name != [] {
      ValidatesAsItDecodes(name);
      if name[0] < 0x80 {
        AsciiValidates(name);
      }
      hide Validate8, Decode8, PercentAll, Escape;
      if Decode8(name).ok {
        NamePrints(Decode8(name).rest);
      }
    }
  }

  lemma AsciiValidates(name: seq<Byte>)
    requires name != [] && name[0] < 0x80
    ensures Decode8(name).ok && Decode8(name).rest == name[1..]
  {
  }

  lemma {:induction false} NamesPrint(names: seq<seq<Byte>>)
    ensures PrintUriNames(names).Some? <==> forall i | 0 <= i < |names| :: DecodeAll8(names[i]).Some?
    decreases |names|
  {
    hide PrintUriName, DecodeAll8;
    if names != [] {
      NamePrints(names[0]);
      NamesPrint(names[1..]);
      assert forall i | 0 < i < |names| :: names[i] == names[1..][i - 1];
    }
  }

  /** A pointer prints as a URI fragment, section 6 of RFC 6901, exactly when its names are
      valid UTF-8, and the fragment parses to the same pointer. */
  lemma UriRoundTrip(names: seq<seq<Byte>>)
    ensures PrintUri(names).Some? <==> forall i | 0 <= i < |names| :: DecodeAll8(names[i]).Some?
    ensures PrintUri(names).Some? ==> ParsePointer(PrintUri(names).value) == Parsed(names)
  {
    hide ParseNames, PrintUriNames;
    NamesPrint(names);
    if PrintUri(names).Some? {
      var u := PrintUriNames(names).value;
      UriNamesInvert(names, 1);
      assert ([HASH] + u)[1..] == u;
    }
  }

  // ----- The pointer object

  function Combine(names: seq<seq<Byte>>, r: PointerResult): PointerResult {
    if r.Parsed? then Parsed(names + r.names) else r
  }

  class JsonPointer {
    var tokens: seq<seq<Byte>>
    /** The array index of every token. */
    var indexes: seq<nat>
    var parseErrorCode: Option<ErrorCode>
    var parseErrorOffset: nat

    ghost predicate Holds(r: PointerResult)
      reads this
    {
      match r
      case Parsed(names) => tokens == names && indexes == I.Indexes(names) && parseErrorCode == None
      case Bad(code, offset) => tokens == [] && indexes == [] && parseErrorCode == Some(code) && parseErrorOffset == offset
    }

    constructor ()
      ensures Holds(Parsed([]))
    {
      tokens, indexes, parseErrorCode, parseErrorOffset := [], [], None, 0;
    }

    method Fail(code: ErrorCode, i: nat)
      modifies this
      ensures Holds(Bad(code, i))
    {
      tokens, indexes, parseErrorCode, parseErrorOffset := [], [], Some(code), i;
    }

    method Parse(source: seq<Byte>)
      modifies this
      ensures Holds(ParsePointer(source))
    {
      hide ParseNames, ParseName, Slashes, I.IndexOf;
      tokens, indexes := [], [];
      var i := 0;
      var uriFragment := false;
      if source != [] && source[i] == HASH {
        uriFragment := true;
        i := i + 1;
      }
      if i != |source| && source[i] != SLASH {
        Fail(MustBeginWithSolidus, i);
        return;
      }
      ghost var result := ParseNames(source[i..], i, uriFragment);
      while i < |source|
        invariant i <= |source| && Separates(source[i..])
        invariant indexes == I.Indexes(tokens)
        invariant Combine(tokens, ParseNames(source[i..], i, uriFragment)) == result
        decreases |source| - i
      {
        OneName(source[i..], i, uriFragment);
        assert source[i..][1..] == source[i + 1..];
        i := i + 1;
        var n := ScanName(source, i, uriFragment);
        if n.BadName? {
          Fail(n.code, n.offset);
          return;
        }
        i := |source| - |n.rest|;
        CombineTwice(tokens, [n.name], ParseNames(n.rest, i, uriFragment));
        var index := I.TokenIndex(n.name);
        tokens, indexes := tokens + [n.name], indexes + [index];
      }
      assert source[i..] == [];
      NoNames(i, uriFragment);
      parseErrorCode := None;
    }

    /** The inner loop: one name, its escapes and its percent-encodings. */
    method ScanName(source: seq<Byte>, begin: nat, uriFragment: bool) returns (r: NameResult)
      requires begin <= |source|
      ensures r == ParseName(source[begin..], begin, uriFragment)
      ensures r.Name? ==> |r.rest| <= |source| - begin && r.rest == source[|source| - |r.rest|..]
    {
      hide ParseName, ParseEscape, TakeCharacter, Accounts, NeedPercentEncode;
      var i: nat := begin;
      var name: seq<Byte> := [];
      ghost var result := ParseName(source[begin..], begin, uriFragment);
      NothingBefore(result);
      while i < |source| && source[i] != SLASH
        invariant begin <= i <= |source|
        invariant Prepend(name, ParseName(source[i..], i, uriFragment)) == result
        decreases |source| - i
      {
        var s := source[i..];
        var c := s[0];
        OneCharacter(s, i, uriFragment);
        if uriFragment && c == PERCENT {
          var taken := TakeCharacter(s);
          if taken.None? {
            return BadName(InvalidPercentEncoding, i);
          }
          var bytes := taken.value.0;
          TakenIsRest(s);
          i := i + 3 * |bytes|;
          assert source[i..] == taken.value.1;
          if |bytes| != 1 {
            PrependTwice(name, bytes, ParseName(source[i..], i, uriFragment));
            name := name + bytes;
            continue;
          }
          c := bytes[0];
        } else if uriFragment && NeedPercentEncode(c) {
          return BadName(MustPercentEncode, i);
        } else {
          i := i + 1;
          assert source[i..] == s[1..];
        }
        OneEscape(c, source[i..], i, uriFragment);
        if c == TILDE {
          if i == |source| || source[i] !in {DIGIT0, DIGIT1} {
            return BadName(InvalidEscape, i);
          }
          c := if source[i] == DIGIT0 then TILDE else SLASH;
          assert source[i..][1..] == source[i + 1..];
          i := i + 1;
        }
        PrependTwice(name, [c], ParseName(source[i..], i, uriFragment));
        name := name + [c];
      }
      EmptyName(source[i..], i, uriFragment);
      assert name + [] == name;
      return Name(name, source[i..]);
    }

    method Stringify() returns (out: seq<Byte>)
      ensures out == Print(tokens)
    {
      hide PrintName;
      out := [];
      for t := 0 to |tokens|
        invariant out + Print(tokens[t..]) == Print(tokens)
      {
        assert tokens[t..][1..] == tokens[t + 1..];
        out := StringifyName(out + [SLASH], tokens[t]);
      }
    }

    method StringifyName(before: seq<Byte>, name: seq<Byte>) returns (out: seq<Byte>)
      ensures out == before + PrintName(name)
    {
      out := before;
      for j := 0 to |name|
        invariant out + PrintName(name[j..]) == before + PrintName(name)
      {
        assert name[j..][1..] == name[j + 1..];
        out := out + Escape(name[j]);
      }
    }
  }

  // ----- Single steps of the parser

  lemma NothingBefore(r: NameResult)
    ensures Prepend([], r) == r
  {
  }

  lemma PrependTwice(a: seq<Byte>, b: seq<Byte>, r: NameResult)
    ensures Prepend(a, Prepend(b, r)) == Prepend(a + b, r)
  {
    if r.Name? {
      assert a + (b + r.name) == a + b + r.name;
    }
  }

  lemma CombineTwice(a: seq<seq<Byte>>, b: seq<seq<Byte>>, r: PointerResult)
    ensures Combine(a, Combine(b, r)) == Combine(a + b, r)
  {
    if r.Parsed? {
      assert a + (b + r.names) == a + b + r.names;
    }
  }

  lemma NoNames(at: nat, uri: bool)
    ensures ParseNames([], at, uri) == Parsed([])
  {
  }

  lemma OneName(s: seq<Byte>, at: nat, uri: bool)
    requires s != [] && s[0] == SLASH
    ensures var n := ParseName(s[1..], at + 1, uri);
            ParseNames(s, at, uri) == if n.BadName? then Bad(n.code, n.offset)
                                      else Combine([n.name], ParseNames(n.rest, at + |s| - |n.rest|, uri))
  {
    hide ParseName;
  }

  lemma OneCharacter(s: seq<Byte>, at: nat, uri: bool)
    requires s != [] && s[0] != SLASH
    ensures var taken := TakeCharacter(s);
            ParseName(s, at, uri) ==
            if uri && s[0] == PERCENT then
              if taken.None? then BadName(InvalidPercentEncoding, at)
              else if |taken.value.0| == 1 then ParseEscape(taken.value.0[0], taken.value.1, at + 3, uri)
              else Prepend(taken.value.0, ParseName(taken.value.1, at + 3 * |taken.value.0|, uri))
            else if uri && NeedPercentEncode(s[0]) then BadName(MustPercentEncode, at)
            else ParseEscape(s[0], s[1..], at + 1, uri)
  {
    hide TakeCharacter, ParseEscape;
  }

  lemma OneEscape(c: Byte, s: seq<Byte>, at: nat, uri: bool)
    ensures ParseEscape(c, s, at, uri) ==
            if c != TILDE then Prepend([c], ParseName(s, at, uri))
            else if s == [] || s[0] !in {DIGIT0, DIGIT1} then BadName(InvalidEscape, at)
            else Prepend([if s[0] == DIGIT0 then TILDE else SLASH], ParseName(s[1..], at + 1, uri))
  {
    hide ParseName;
  }

  lemma {:induction false} TailRest(s: seq<Byte>, masks: seq<bv8>)
    requires TailPercent(s, masks).Some?
    ensures s[3 * |masks|..] == TailPercent(s, masks).value.1
    decreases |masks|
  {
    if masks != [] {
      TailRest(s[3..], masks[1..]);
      assert s[3..][3 * |masks[1..]|..] == s[3 * |masks|..];
    }
  }

  lemma TakenIsRest(s: seq<Byte>)
    requires TakeCharacter(s).Some?
    ensures s[3 * |TakeCharacter(s).value.0|..] == TakeCharacter(s).value.1
  {
    var c := TakePercent(s).value;
    if c >= 0x80 {
      TailRest(s[3..], Masks(c));
      assert s[3..][3 * |Masks(c)|..] == s[3 + 3 * |Masks(c)|..];
    }
  }
}
