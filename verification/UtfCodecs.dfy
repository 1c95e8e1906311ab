/** UTF-8 and UTF-16: the range-table decoders against the arithmetic encoders.

    Shifts and masks are written as divisions and remainders; on 32-bit words this is
    justified by BitsAreArithmetic for the encoders and by DecoderBitsAreArithmetic. */
module UtfCodecs {
  import opened Wrappers

  type Byte = b: int | 0 <= b < 256
  type Unit = u: int | 0 <= u < 65536

  lemma BitsAreArithmetic(x: bv32)
    ensures x & 0x3F == x % 0x40 && x & 0x3FF == x % 0x400
    ensures x >> 6 == x / 0x40 && x >> 10 == x / 0x400 && x >> 12 == x / 0x40 / 0x40
    ensures x >> 18 == x / 0x40 / 0x40 / 0x40
    ensures 0x80 | (x & 0x3F) == 0x80 + x % 0x40
    ensures x <= 0x7FF ==> 0xC0 | ((x >> 6) & 0xFF) == 0xC0 + x / 0x40
    ensures x <= 0xFFFF ==> 0xE0 | ((x >> 12) & 0xFF) == 0xE0 + x / 0x40 / 0x40
    ensures x <= 0x10FFFF ==> 0xF0 | ((x >> 18) & 0xFF) == 0xF0 + x / 0x40 / 0x40 / 0x40
    ensures x <= 0xFFFFF ==> (x >> 10) | 0xD800 == 0xD800 + x / 0x400 && (x & 0x3FF) | 0xDC00 == 0xDC00 + x % 0x400
  {
  }

  /** Appending six bits, masking a lead byte by its type, and joining two surrogates. */
  lemma DecoderBitsAreArithmetic(x: bv32, c: bv32)
    ensures (x << 6) | (c & 0x3F) == x * 0x40 + c % 0x40
    ensures (0xFF >> 2) & c == c % 0x40 && (0xFF >> 3) & c == c % 0x20 && (0xFF >> 4) & c == c % 0x10
    ensures (0xFF >> 5) & c == c % 8 && (0xFF >> 6) & c == c % 4
    ensures (0xFF >> 8) & c == 0 && (0xFF >> 10) & c == 0 && (0xFF >> 11) & c == 0
    ensures ((x & 0x3FF) << 10) | (c & 0x3FF) == x % 0x400 * 0x400 + c % 0x400
  {
  }

  /** A Unicode scalar value. */
  predicate Scalar(cp: int) {
    0 <= cp <= 0x10FFFF && !(0xD800 <= cp <= 0xDFFF)
  }

  /** What a decoder reports, and the input it leaves. */
  datatype Decoded<T> = Decoded(ok: bool, codepoint: nat, rest: seq<T>)

  // ----- Memory streams

  /** Taking at the end yields zero and stays there. */
  function Taken(s: seq<int>): int {
    if s == [] then 0 else s[0]
  }

  function Left<T>(s: seq<T>): (r: seq<T>)
    ensures |r| <= |s|
  {
    if s == [] then s else s[1..]
  }

  // ----- UTF-8

  /** Code points above 0x10FFFF are a caller's error. */
  function Encode8(cp: nat): (r: seq<Byte>)
    requires cp <= 0x10FFFF
    ensures r != []
  {
    if cp <= 0x7F then [cp]
    else if cp <= 0x7FF then [0xC0 + cp / 0x40, 0x80 + cp % 0x40]
    else if cp <= 0xFFFF then [0xE0 + cp / 0x40 / 0x40, 0x80 + cp / 0x40 % 0x40, 0x80 + cp % 0x40]
    else [0xF0 + cp / 0x40 / 0x40 / 0x40, 0x80 + cp / 0x40 / 0x40 % 0x40, 0x80 + cp / 0x40 % 0x40, 0x80 + cp % 0x40]
  }

  /** The range table. */
  function GetRange(c: Byte): bv8 {
    if c < 0x80 then 0
    else if c < 0x90 then 0x10
    else if c < 0xA0 then 0x40
    else if c < 0xC0 then 0x20
    else if c < 0xC2 then 8
    else if c < 0xE0 then 2
    else if c == 0xE0 then 10
    else if c == 0xED then 4
    else if c < 0xF0 then 3
    else if c == 0xF0 then 11
    else if c < 0xF4 then 6
    else if c == 0xF4 then 5
    else 8
  }

  predicate InRange(c: Byte, mask: bv8) {
    GetRange(c) & mask != 0
  }

  /** Which continuation bytes the masks of the decoder let through. */
  lemma MasksMean(c: Byte)
    ensures InRange(c, 0x70) <==> 0x80 <= c <= 0xBF
    ensures InRange(c, 0x50) <==> 0x80 <= c <= 0x9F
    ensures InRange(c, 0x10) <==> 0x80 <= c <= 0x8F
    ensures InRange(c, 0x20) <==> 0xA0 <= c <= 0xBF
    ensures InRange(c, 0x60) <==> 0x90 <= c <= 0xBF
  {
  }

  /** The masks for the bytes behind a lead byte; none for a byte that cannot lead. */
  function Masks(c: Byte): (r: seq<bv8>) {
    match GetRange(c)
    case 2 => [0x70]
    case 3 => [0x70, 0x70]
    case 4 => [0x50, 0x70]
    case 5 => [0x10, 0x70, 0x70]
    case 6 => [0x70, 0x70, 0x70]
    case 10 => [0x20, 0x70]
    case 11 => [0x60, 0x70, 0x70]
    case _ => []
  }

  /** The payload of a lead byte: the byte under the mask 0xFF shifted right by its type. */
  function LeadBits(c: Byte): nat {
    match GetRange(c)
    case 0 => c
    case 2 => c % 0x40
    case 3 => c % 0x20
    case 4 => c % 0x10
    case 5 => c % 8
    case 6 => c % 4
    case _ => 0
  }

  /** Appends the six payload bits of a continuation byte. */
  function Six(cp: nat, c: Byte): nat {
    cp * 0x40 + c % 0x40
  }

  /** Copies and checks one continuation byte. */
  function Fed(d: Decoded<Byte>, mask: bv8): Decoded<Byte> {
    var c := Taken(d.rest);
    Decoded(d.ok && InRange(c, mask), Six(d.codepoint, c), Left(d.rest))
  }

  function Tail(d: Decoded<Byte>, masks: seq<bv8>): (r: Decoded<Byte>)
    ensures |r.rest| <= |d.rest|
    decreases |masks|
  {
    if masks == [] then d else Tail(Fed(d, masks[0]), masks[1..])
  }

  function Decode8(s: seq<Byte>): (r: Decoded<Byte>)
    ensures |r.rest| <= |s| && (s != [] ==> |r.rest| < |s|)
  {
    var c := Taken(s);
    if c < 0x80 then Decoded(true, c, Left(s))
    else Tail(Decoded(Masks(c) != [], LeadBits(c), Left(s)), Masks(c))
  }

  // ----- The standard

  predicate IsTail(c: Byte) {
    0x80 <= c <= 0xBF
  }

  /** The rule UTF8-char in section 4 of RFC 3629. */
  predicate Utf8Char(s: seq<Byte>) {
    match |s|
    case 1 => s[0] <= 0x7F
    case 2 => 0xC2 <= s[0] <= 0xDF && IsTail(s[1])
    case 3 =>
      || (s[0] == 0xE0 && 0xA0 <= s[1] <= 0xBF && IsTail(s[2]))
      || (0xE1 <= s[0] <= 0xEC && IsTail(s[1]) && IsTail(s[2]))
      || (s[0] == 0xED && 0x80 <= s[1] <= 0x9F && IsTail(s[2]))
      || (0xEE <= s[0] <= 0xEF && IsTail(s[1]) && IsTail(s[2]))
    case 4 =>
      || (s[0] == 0xF0 && 0x90 <= s[1] <= 0xBF && IsTail(s[2]) && IsTail(s[3]))
      || (0xF1 <= s[0] <= 0xF3 && IsTail(s[1]) && IsTail(s[2]) && IsTail(s[3]))
      || (s[0] == 0xF4 && 0x80 <= s[1] <= 0x8F && IsTail(s[2]) && IsTail(s[3]))
    case _ => false
  }

  /** The value a well-formed sequence stands for, section 3 of RFC 3629. */
  function Payload(s: seq<Byte>): nat
    requires Utf8Char(s)
  {
    match |s|
    case 1 => s[0]
    case 2 => Six(s[0] - 0xC0, s[1])
    case 3 => Six(Six(s[0] - 0xE0, s[1]), s[2])
    case 4 => Six(Six(Six(s[0] - 0xF0, s[1]), s[2]), s[3])
  }

  lemma SixSplits(cp: nat, c: Byte)
    requires IsTail(c)
    ensures Six(cp, c) / 0x40 == cp && 0x80 + Six(cp, c) % 0x40 == c
    ensures Six(cp, c) == cp * 0x40 + c - 0x80
  {
  }

  lemma SixJoins(cp: nat, c: Byte)
    requires c == 0x80 + cp % 0x40
    ensures Six(cp / 0x40, c) == cp
  {
  }

  lemma PayloadOfEncoding(cp: nat)
    requires Scalar(cp)
    ensures Utf8Char(Encode8(cp)) && Payload(Encode8(cp)) == cp
  {
    hide Six;
    var r: seq<Byte> := Encode8(cp);
    if |r| > 1 { SixJoins(cp, r[|r| - 1]); }
    if |r| > 2 { SixJoins(cp / 0x40, r[|r| - 2]); }
    if |r| > 3 { SixJoins(cp / 0x40 / 0x40, r[|r| - 3]); }
  }

  lemma EncodingOfPayload(s: seq<Byte>)
    requires Utf8Char(s)
    ensures Scalar(Payload(s)) && Encode8(Payload(s)) == s
  {
    hide Six;
    if |s| == 2 {
      SixSplits(s[0] - 0xC0, s[1]);
    } else if |s| == 3 {
      var a := s[0] - 0xE0;
      SixSplits(a, s[1]);
      SixSplits(Six(a, s[1]), s[2]);
    } else if |s| == 4 {
      var a := s[0] - 0xF0;
      SixSplits(a, s[1]);
      SixSplits(Six(a, s[1]), s[2]);
      SixSplits(Six(Six(a, s[1]), s[2]), s[3]);
    }
  }

  // ----- The decoder

  /** A decode step by step for the three lengths of a tail. */
  lemma Tails(d: Decoded<Byte>, masks: seq<bv8>)
    requires |masks| <= 3
    ensures |masks| == 0 ==> Tail(d, masks) == d
    ensures |masks| == 1 ==> Tail(d, masks) == Fed(d, masks[0])
    ensures |masks| == 2 ==> Tail(d, masks) == Fed(Fed(d, masks[0]), masks[1])
    ensures |masks| == 3 ==> Tail(d, masks) == Fed(Fed(Fed(d, masks[0]), masks[1]), masks[2])
  {
    if |masks| > 0 {
      assert Tail(d, masks) == Tail(Fed(d, masks[0]), masks[1..]);
    }
    if |masks| > 1 {
      assert Tail(d, masks) == Tail(Fed(Fed(d, masks[0]), masks[1]), masks[1..][1..]);
    }
  }

  lemma LeadsMean(c: Byte)
    ensures 0xC2 <= c <= 0xDF ==> Masks(c) == [0x70] && LeadBits(c) == c - 0xC0
    ensures c == 0xE0 ==> Masks(c) == [0x20, 0x70] && LeadBits(c) == c - 0xE0
    ensures 0xE1 <= c <= 0xEF && c != 0xED ==> Masks(c) == [0x70, 0x70] && LeadBits(c) == c - 0xE0
    ensures c == 0xED ==> Masks(c) == [0x50, 0x70] && LeadBits(c) == c - 0xE0
    ensures c == 0xF0 ==> Masks(c) == [0x60, 0x70, 0x70] && LeadBits(c) == c - 0xF0
    ensures 0xF1 <= c <= 0xF3 ==> Masks(c) == [0x70, 0x70, 0x70] && LeadBits(c) == c - 0xF0
    ensures c == 0xF4 ==> Masks(c) == [0x10, 0x70, 0x70] && LeadBits(c) == c - 0xF0
    ensures c < 0xC2 || c > 0xF4 ==> Masks(c) == []
  {
  }

  lemma Lefts(s: seq<Byte>, k: nat)
    requires k < |s|
    ensures Taken(s[k..]) == s[k] && Left(s[k..]) == s[k + 1..]
  {
  }

  /** A well-formed sequence is accepted whatever follows it, and read exactly. */
  lemma AcceptsWellFormed(s: seq<Byte>, n: nat)
    requires n <= |s| && Utf8Char(s[..n])
    ensures Decode8(s) == Decoded(true, Payload(s[..n]), s[n..])
  {
    hide Six, InRange, Tail, Masks, LeadBits;
    var c, t := s[0], s[..n];
    LeadsMean(c);
    assert t[0] == c;
    if n > 1 {
      assert t[1] == s[1];
      MasksMean(s[1]);
      Lefts(s, 1);
      Tails(Decoded(true, LeadBits(c), Left(s)), Masks(c));
    }
    if n == 3 {
      assert t[2] == s[2];
      MasksMean(s[2]);
      Lefts(s, 2);
    } else if n == 4 {
      assert t[2] == s[2] && t[3] == s[3];
      MasksMean(s[2]);
      Lefts(s, 2);
      MasksMean(s[3]);
      Lefts(s, 3);
    }
  }

  /** Whatever is accepted is well formed; the end of the input, read as zero, never
      completes a sequence. */
  lemma AcceptedIsWellFormed(s: seq<Byte>)
    requires s != [] && Decode8(s).ok
    ensures Utf8Char(s[..|s| - |Decode8(s).rest|])
  {
    hide Six, InRange, Tail, Masks, LeadBits;
    var c := s[0];
    LeadsMean(c);
    var one, two, three := Left(s), Left(Left(s)), Left(Left(Left(s)));
    if c >= 0x80 {
      Tails(Decoded(Masks(c) != [], LeadBits(c), one), Masks(c));
      MasksMean(Taken(one));
      MasksMean(Taken(two));
      MasksMean(Taken(three));
    }
  }

  /** The decoder accepts exactly what begins with a well-formed sequence of the standard;
      it then returns the scalar value whose encoding it has taken, and nothing else. */
  lemma DecodesTheStandard(s: seq<Byte>)
    requires s != []
    ensures Decode8(s).ok <==> exists n | 0 < n <= |s| :: Utf8Char(s[..n])
    ensures Decode8(s).ok ==>
              var d := Decode8(s);
              Scalar(d.codepoint) && s == Encode8(d.codepoint) + d.rest
  {
    hide Decode8, Utf8Char, Encode8, Payload;
    if Decode8(s).ok {
      AcceptedIsWellFormed(s);
      var n := |s| - |Decode8(s).rest|;
      AcceptsWellFormed(s, n);
      EncodingOfPayload(s[..n]);
    }
    if n: nat :| 0 < n <= |s| && Utf8Char(s[..n]) {
      AcceptsWellFormed(s, n);
    }
  }

  lemma DecodesItsEncoding(cp: nat, s: seq<Byte>)
    requires Scalar(cp)
    ensures Decode8(Encode8(cp) + s) == Decoded(true, cp, s)
  {
    hide Decode8, Utf8Char, Encode8, Payload;
    PayloadOfEncoding(cp);
    var t := Encode8(cp) + s;
    assert t[..|Encode8(cp)|] == Encode8(cp) && t[|Encode8(cp)|..] == s;
    AcceptsWellFormed(t, |Encode8(cp)|);
  }

  /** The encoder does not refuse surrogates, but the decoder does. */
  lemma SurrogatesAreRefused(cp: nat, s: seq<Byte>)
    requires cp <= 0x10FFFF
    ensures Decode8(Encode8(cp) + s).ok <==> Scalar(cp)
  {
    if Scalar(cp) {
      DecodesItsEncoding(cp, s);
    } else {
      hide Decode8;
      var t := Encode8(cp) + s;
      assert t[0] == 0xED && t[1] >= 0xA0;
      if Decode8(t).ok {
        AcceptedIsWellFormed(t);
        assert false;
      }
    }
  }

  // ----- Whole texts

  predicate Scalars(cps: seq<nat>) {
    forall i | 0 <= i < |cps| :: Scalar(cps[i])
  }

  function EncodeAll8(cps: seq<nat>): seq<Byte>
    requires Scalars(cps)
  {
    if cps == [] then [] else Encode8(cps[0]) + EncodeAll8(cps[1..])
  }

  function DecodeAll8(s: seq<Byte>): Option<seq<nat>>
    decreases |s|
  {
    if s == [] then Some([])
    else
      var d := Decode8(s);
      if !d.ok then None
      else
        var cps := DecodeAll8(d.rest);
        if cps.None? then None else Some([d.codepoint] + cps.value)
  }

  /** Decoding and encoding are inverse to each other on texts of scalar values, and no
      other bytes decode. */
  lemma {:induction false} Utf8IsExact(s: seq<Byte>, cps: seq<nat>)
    ensures DecodeAll8(s) == Some(cps) <==> Scalars(cps) && EncodeAll8(cps) == s
    decreases |cps|
  {
    hide Decode8, Encode8;
    if s != [] && cps != [] {
      var d := Decode8(s);
      DecodesTheStandard(s);
      Utf8IsExact(d.rest, cps[1..]);
      assert cps == [cps[0]] + cps[1..];
      assert Scalars(cps) <==> Scalar(cps[0]) && Scalars(cps[1..]);
      if Scalars(cps) && EncodeAll8(cps) == s {
        DecodesItsEncoding(cps[0], EncodeAll8(cps[1..]));
      }
    }
  }

  // ----- UTF-16

  /** Surrogates are a caller's error. */
  function Encode16(cp: nat): (r: seq<Unit>)
    requires Scalar(cp)
    ensures r != []
  {
    if cp <= 0xFFFF then [cp]
    else [0xD800 + (cp - 0x10000) / 0x400, 0xDC00 + (cp - 0x10000) % 0x400]
  }

  function Decode16(s: seq<Unit>): (r: Decoded<Unit>)
    ensures |r.rest| <= |s| && (s != [] ==> |r.rest| < |s|)
  {
    var c := Taken(s);
    if c < 0xD800 || c > 0xDFFF then Decoded(true, c, Left(s))
    else if c <= 0xDBFF then
      var d := Taken(Left(s));
      Decoded(0xDC00 <= d <= 0xDFFF, c % 0x400 * 0x400 + d % 0x400 + 0x10000, Left(Left(s)))
    else Decoded(false, 0, Left(s))
  }

  /** Section 2.1 of RFC 2781: one unit outside the surrogates, or a high surrogate and a
      low one. */
  predicate Utf16Char(s: seq<Unit>) {
    || (|s| == 1 && !(0xD800 <= s[0] <= 0xDFFF))
    || (|s| == 2 && 0xD800 <= s[0] <= 0xDBFF && 0xDC00 <= s[1] <= 0xDFFF)
  }

  lemma DecodesTheStandard16(s: seq<Unit>)
    requires s != []
    ensures Decode16(s).ok <==> exists n | 0 < n <= |s| :: Utf16Char(s[..n])
    ensures Decode16(s).ok ==>
              var d := Decode16(s);
              Scalar(d.codepoint) && s == Encode16(d.codepoint) + d.rest
  {
    if Utf16Char(s[..1]) {
    } else if |s| > 1 && Utf16Char(s[..2]) {
      var a: int, b: int := s[0] - 0xD800, s[1] - 0xDC00;
      assert Decode16(s).codepoint == a * 0x400 + b + 0x10000;
      assert (a * 0x400 + b) / 0x400 == a && (a * 0x400 + b) % 0x400 == b;
    }
  }

  lemma DecodesItsEncoding16(cp: nat, s: seq<Unit>)
    requires Scalar(cp)
    ensures Decode16(Encode16(cp) + s) == Decoded(true, cp, s)
  {
    var t := Encode16(cp) + s;
    assert t[|Encode16(cp)|..] == s;
    if cp > 0xFFFF {
      var v := cp - 0x10000;
      assert t[0] == 0xD800 + v / 0x400 && t[1] == 0xDC00 + v % 0x400;
      assert (0xD800 + v / 0x400) % 0x400 == v / 0x400;
      assert (0xDC00 + v % 0x400) % 0x400 == v % 0x400;
    }
  }

  function EncodeAll16(cps: seq<nat>): seq<Unit>
    requires Scalars(cps)
  {
    if cps == [] then [] else Encode16(cps[0]) + EncodeAll16(cps[1..])
  }

  function DecodeAll16(s: seq<Unit>): Option<seq<nat>>
    decreases |s|
  {
    if s == [] then Some([])
    else
      var d := Decode16(s);
      if !d.ok then None
      else
        var cps := DecodeAll16(d.rest);
        if cps.None? then None else Some([d.codepoint] + cps.value)
  }

  lemma {:induction false} Utf16IsExact(s: seq<Unit>, cps: seq<nat>)
    ensures DecodeAll16(s) == Some(cps) <==> Scalars(cps) && EncodeAll16(cps) == s
    decreases |cps|
  {
    hide Decode16, Encode16;
    if s != [] && cps != [] {
      var d := Decode16(s);
      DecodesTheStandard16(s);
      Utf16IsExact(d.rest, cps[1..]);
      assert cps == [cps[0]] + cps[1..];
      assert Scalars(cps) <==> Scalar(cps[0]) && Scalars(cps[1..]);
      if Scalars(cps) && EncodeAll16(cps) == s {
        DecodesItsEncoding16(cps[0], EncodeAll16(cps[1..]));
      }
    }
  }

  // ----- Transcoding

  /** `Transcoder<UTF8, UTF16>::Transcode` until the input ends or one step fails. */
  function To16(s: seq<Byte>): Option<seq<Unit>>
    decreases |s|
  {
    if s == [] then Some([])
    else
      var d := Decode8(s);
      if !d.ok then None
      else
        DecodesTheStandard(s);
        var t := To16(d.rest);
        if t.None? then None else Some(Encode16(d.codepoint) + t.value)
  }

  function To8(s: seq<Unit>): Option<seq<Byte>>
    decreases |s|
  {
    if s == [] then Some([])
    else
      var d := Decode16(s);
      if !d.ok then None
      else
        DecodesTheStandard16(s);
        var t := To8(d.rest);
        if t.None? then None else Some(Encode8(d.codepoint) + t.value)
  }

  /** Transcoding there and back is the identity, in both directions at once: a byte text
      becomes a unit text exactly when the unit text becomes the byte text. */
  lemma {:induction false} TranscodingInverts(s: seq<Byte>, t: seq<Unit>)
    ensures To16(s) == Some(t) <==> To8(t) == Some(s)
    decreases |s| + |t|
  {
    hide Decode8, Encode8, Decode16, Encode16;
    if To16(s) == Some(t) && s != [] {
      var d := Decode8(s);
      DecodesTheStandard(s);
      var u := To16(d.rest).value;
      DecodesItsEncoding16(d.codepoint, u);
      TranscodingInverts(d.rest, u);
    }
    if To8(t) == Some(s) && t != [] {
      var d := Decode16(t);
      DecodesTheStandard16(t);
      var u := To8(d.rest).value;
      DecodesItsEncoding(d.codepoint, u);
      TranscodingInverts(u, d.rest);
    }
  }

  /** Transcoding succeeds exactly on the well-formed texts, and keeps the code points. */
  lemma {:induction false} TranscodingKeepsText(s: seq<Byte>)
    ensures To16(s).Some? <==> DecodeAll8(s).Some?
    ensures To16(s).Some? ==> DecodeAll16(To16(s).value) == DecodeAll8(s)
    decreases |s|
  {
    hide Decode8, Encode8, Decode16, Encode16;
    if s != [] && Decode8(s).ok {
      var d := Decode8(s);
      DecodesTheStandard(s);
      TranscodingKeepsText(d.rest);
      if To16(d.rest).Some? {
        DecodesItsEncoding16(d.codepoint, To16(d.rest).value);
      }
    }
  }

  // ----- Validation

  /** What a validator reports, the bytes it copies, and the input it leaves. */
  datatype Checked = Checked(ok: bool, out: seq<Byte>, rest: seq<Byte>)

  function Copied(v: Checked, mask: bv8): Checked {
    var c := Taken(v.rest);
    Checked(v.ok && InRange(c, mask), v.out + [c], Left(v.rest))
  }

  function CheckTail(v: Checked, masks: seq<bv8>): Checked
    decreases |masks|
  {
    if masks == [] then v else CheckTail(Copied(v, masks[0]), masks[1..])
  }

  function Validate8(s: seq<Byte>): Checked {
    var c := Taken(s);
    if c < 0x80 then Checked(true, [c], Left(s))
    else CheckTail(Checked(Masks(c) != [], [c], Left(s)), Masks(c))
  }

  function Zeros(n: nat): seq<Byte> {
    seq(n, _ => 0)
  }

  /** The copy is what was taken; behind the end of the input it is padded with zeros,
      which no valid copy holds. */
  predicate CopyOf(v: Checked, s: seq<Byte>) {
    var padding := |v.out| + |v.rest| - |s|;
    && padding >= 0
    && v.out + v.rest == s + Zeros(padding)
    && (padding > 0 ==> v.rest == [] && !v.ok)
  }

  lemma CopyOneMore(v: Checked, mask: bv8, s: seq<Byte>)
    requires CopyOf(v, s)
    ensures CopyOf(Copied(v, mask), s)
  {
    if v.rest == [] {
      var k := |v.out| - |s|;
      assert v.out == v.out + v.rest == s + Zeros(k);
      assert v.out + [0] + [] == s + Zeros(k) + [0] == s + Zeros(k + 1);
    } else {
      assert v.out + [v.rest[0]] + v.rest[1..] == v.out + v.rest;
    }
  }

  lemma {:induction false} TailsAgree(v: Checked, d: Decoded<Byte>, masks: seq<bv8>, s: seq<Byte>)
    requires v.ok == d.ok && v.rest == d.rest && CopyOf(v, s)
    ensures var w, e := CheckTail(v, masks), Tail(d, masks);
            w.ok == e.ok && w.rest == e.rest && CopyOf(w, s)
    decreases |masks|
  {
    hide CopyOf;
    if masks != [] {
      CopyOneMore(v, masks[0], s);
      TailsAgree(Copied(v, masks[0]), Fed(d, masks[0]), masks[1..], s);
    }
  }

  /** Validation gives the decoder's verdict, takes the same bytes and copies them. */
  lemma ValidatesAsItDecodes(s: seq<Byte>)
    requires s != []
    ensures var v, d := Validate8(s), Decode8(s);
            v.ok == d.ok && v.rest == d.rest && CopyOf(v, s)
  {
    hide Tail, CheckTail;
    var c := s[0];
    assert [c] + s[1..] == s + Zeros(0);
    if c >= 0x80 {
      TailsAgree(Checked(Masks(c) != [], [c], s[1..]), Decoded(Masks(c) != [], LeadBits(c), s[1..]), Masks(c), s);
    }
  }
}
