/** The codecs as they run: on an input stream that is taken from and an output stream
    that is put to. */
module UtfStreams {
  import opened UtfCodecs

  class InputStream<T(==)> {
    const src: seq<T>
    const zero: T
    var pos: nat

    constructor (src: seq<T>, zero: T)
      ensures this.src == src && this.zero == zero && Valid() && Rest() == src
    {
      this.src, this.zero, pos := src, zero, 0;
    }

    predicate Valid()
      reads this
    {
      pos <= |src|
    }

    function Rest(): seq<T>
      requires Valid()
      reads this
    {
      src[pos..]
    }

    method Take() returns (c: T)
      requires Valid()
      modifies this
      ensures Valid() && Rest() == Left(old(Rest()))
      ensures c == if old(Rest()) == [] then zero else old(Rest())[0]
    {
      if pos == |src| {
        return zero;
      }
      c := src[pos];
      pos := pos + 1;
    }
  }

  class OutputStream<T> {
    var dst: seq<T>

    constructor ()
      ensures dst == []
    {
      dst := [];
    }

    method Put(c: T)
      modifies this
      ensures dst == old(dst) + [c]
    {
      dst := dst + [c];
    }
  }

  // ----- UTF8

  method EncodeUtf8(output: OutputStream<Byte>, codepoint: nat)
    requires codepoint <= 0x10FFFF
    modifies output
    ensures output.dst == old(output.dst) + Encode8(codepoint)
  {
    if codepoint <= 0x7F {
      output.Put(codepoint);
    } else if codepoint <= 0x7FF {
      output.Put(0xC0 + codepoint / 0x40);
      output.Put(0x80 + codepoint % 0x40);
    } else if codepoint <= 0xFFFF {
      output.Put(0xE0 + codepoint / 0x40 / 0x40);
      output.Put(0x80 + codepoint / 0x40 % 0x40);
      output.Put(0x80 + codepoint % 0x40);
    } else {
      output.Put(0xF0 + codepoint / 0x40 / 0x40 / 0x40);
      output.Put(0x80 + codepoint / 0x40 / 0x40 % 0x40);
      output.Put(0x80 + codepoint / 0x40 % 0x40);
      output.Put(0x80 + codepoint % 0x40);
    }
  }

  /** Takes one continuation byte into the code point and checks it. */
  method TakeTail(input: InputStream<Byte>, mask: bv8, result: bool, bits: nat) returns (ok: bool, codepoint: nat)
    requires input.Valid() && input.zero == 0
    modifies input
    ensures input.Valid()
    ensures Decoded(ok, codepoint, input.Rest()) == Fed(Decoded(result, bits, old(input.Rest())), mask)
  {
    var c := input.Take();
    codepoint := bits * 0x40 + c % 0x40;
    ok := result && GetRange(c) & mask != 0;
  }

  method DecodeUtf8(input: InputStream<Byte>) returns (ok: bool, codepoint: nat)
    requires input.Valid() && input.zero == 0
    modifies input
    ensures input.Valid()
    ensures Decoded(ok, codepoint, input.Rest()) == Decode8(old(input.Rest()))
  {
    hide Fed;
    ghost var s := input.Rest();
    var c := input.Take();
    if c < 0x80 {
      return true, c;
    }
    ok, codepoint := true, LeadBits(c);
    Tails(Decoded(Masks(c) != [], LeadBits(c), Left(s)), Masks(c));
    var kind := GetRange(c);
    if kind == 2 {
      ok, codepoint := TakeTail(input, 0x70, ok, codepoint);
    } else if kind == 3 {
      ok, codepoint := TakeTail(input, 0x70, ok, codepoint);
      ok, codepoint := TakeTail(input, 0x70, ok, codepoint);
    } else if kind == 4 {
      ok, codepoint := TakeTail(input, 0x50, ok, codepoint);
      ok, codepoint := TakeTail(input, 0x70, ok, codepoint);
    } else if kind == 5 {
      ok, codepoint := TakeTail(input, 0x10, ok, codepoint);
      ok, codepoint := TakeTail(input, 0x70, ok, codepoint);
      ok, codepoint := TakeTail(input, 0x70, ok, codepoint);
    } else if kind == 6 {
      ok, codepoint := TakeTail(input, 0x70, ok, codepoint);
      ok, codepoint := TakeTail(input, 0x70, ok, codepoint);
      ok, codepoint := TakeTail(input, 0x70, ok, codepoint);
    } else if kind == 10 {
      ok, codepoint := TakeTail(input, 0x20, ok, codepoint);
      ok, codepoint := TakeTail(input, 0x70, ok, codepoint);
    } else if kind == 11 {
      ok, codepoint := TakeTail(input, 0x60, ok, codepoint);
      ok, codepoint := TakeTail(input, 0x70, ok, codepoint);
      ok, codepoint := TakeTail(input, 0x70, ok, codepoint);
    } else {
      ok := false;
    }
  }

  /** Copies one continuation byte and checks it. */
  method CopyTail(input: InputStream<Byte>, output: OutputStream<Byte>, mask: bv8, result: bool) returns (ok: bool)
    requires input.Valid() && input.zero == 0
    modifies input, output
    ensures input.Valid()
    ensures Checked(ok, output.dst, input.Rest()) == Copied(Checked(result, old(output.dst), old(input.Rest())), mask)
  {
    ghost var rest := input.Rest();
    var c := input.Take();
    output.Put(c);
    hide GetRange;
    assert c == Taken(rest) && input.Rest() == Left(rest);
    ok := result && GetRange(c) & mask != 0;
  }

  method ValidateUtf8(input: InputStream<Byte>, output: OutputStream<Byte>) returns (ok: bool)
    requires input.Valid() && input.zero == 0
    modifies input, output
    ensures input.Valid()
    ensures var v := Validate8(old(input.Rest()));
            ok == v.ok && input.Rest() == v.rest && output.dst == old(output.dst) + v.out
  {
    hide Copied;
    ghost var s, before := input.Rest(), output.dst;
    var c := input.Take();
    output.Put(c);
    if c < 0x80 {
      return true;
    }
    ok := true;
    CheckTails(Checked(Masks(c) != [], before + [c], Left(s)), Masks(c));
    CheckTailAppends(before, Checked(Masks(c) != [], [c], Left(s)), Masks(c));
    var kind := GetRange(c);
    if kind == 2 {
      ok := CopyTail(input, output, 0x70, ok);
    } else if kind == 3 {
      ok := CopyTail(input, output, 0x70, ok);
      ok := CopyTail(input, output, 0x70, ok);
    } else if kind == 4 {
      ok := CopyTail(input, output, 0x50, ok);
      ok := CopyTail(input, output, 0x70, ok);
    } else if kind == 5 {
      ok := CopyTail(input, output, 0x10, ok);
      ok := CopyTail(input, output, 0x70, ok);
      ok := CopyTail(input, output, 0x70, ok);
    } else if kind == 6 {
      ok := CopyTail(input, output, 0x70, ok);
      ok := CopyTail(input, output, 0x70, ok);
      ok := CopyTail(input, output, 0x70, ok);
    } else if kind == 10 {
      ok := CopyTail(input, output, 0x20, ok);
      ok := CopyTail(input, output, 0x70, ok);
    } else if kind == 11 {
      ok := CopyTail(input, output, 0x60, ok);
      ok := CopyTail(input, output, 0x70, ok);
      ok := CopyTail(input, output, 0x70, ok);
    } else {
      ok := false;
    }
  }

  lemma CheckTails(v: Checked, masks: seq<bv8>)
    requires |masks| <= 3
    ensures |masks| == 0 ==> CheckTail(v, masks) == v
    ensures |masks| == 1 ==> CheckTail(v, masks) == Copied(v, masks[0])
    ensures |masks| == 2 ==> CheckTail(v, masks) == Copied(Copied(v, masks[0]), masks[1])
    ensures |masks| == 3 ==> CheckTail(v, masks) == Copied(Copied(Copied(v, masks[0]), masks[1]), masks[2])
  {
    if |masks| > 0 {
      assert CheckTail(v, masks) == CheckTail(Copied(v, masks[0]), masks[1..]);
    }
    if |masks| > 1 {
      assert CheckTail(v, masks) == CheckTail(Copied(Copied(v, masks[0]), masks[1]), masks[1..][1..]);
    }
  }

  lemma {:induction false} CheckTailAppends(before: seq<Byte>, v: Checked, masks: seq<bv8>)
    ensures CheckTail(v.(out := before + v.out), masks) ==
            var w := CheckTail(v, masks); w.(out := before + w.out)
    decreases |masks|
  {
    if masks != [] {
      CheckTailAppends(before, Copied(v, masks[0]), masks[1..]);
      assert Copied(v.(out := before + v.out), masks[0]).out == before + Copied(v, masks[0]).out;
    }
  }

  // ----- UTF16

  method EncodeUtf16(output: OutputStream<Unit>, codepoint: nat)
    requires Scalar(codepoint)
    modifies output
    ensures output.dst == old(output.dst) + Encode16(codepoint)
  {
    if codepoint <= 0xFFFF {
      output.Put(codepoint);
    } else {
      var v := codepoint - 0x10000;
      output.Put(0xD800 + v / 0x400);
      output.Put(0xDC00 + v % 0x400);
    }
  }

  method DecodeUtf16(input: InputStream<Unit>) returns (ok: bool, codepoint: nat)
    requires input.Valid() && input.zero == 0
    modifies input
    ensures input.Valid()
    ensures Decoded(ok, codepoint, input.Rest()) == Decode16(old(input.Rest()))
  {
    var c := input.Take();
    if c < 0xD800 || c > 0xDFFF {
      return true, c;
    } else if c <= 0xDBFF {
      var high: nat := c % 0x400;
      codepoint := high * 0x400;
      c := input.Take();
      codepoint := codepoint + c % 0x400;
      codepoint := codepoint + 0x10000;
      return 0xDC00 <= c <= 0xDFFF, codepoint;
    }
    return false, 0;
  }

  // ----- Transcoder

  /** One step of `Transcoder<UTF8, UTF16>`: on success one whole character has moved from
      the input to the output and keeps its code point; on failure nothing is put. */
  method Transcode(input: InputStream<Byte>, output: OutputStream<Unit>) returns (ok: bool)
    requires input.Valid() && input.zero == 0
    modifies input, output
    ensures input.Valid()
    ensures ok == Decode8(old(input.Rest())).ok
    ensures input.Rest() == Decode8(old(input.Rest())).rest
    ensures !ok ==> output.dst == old(output.dst)
    ensures ok && old(input.Rest()) != [] ==>
              exists cp :: && Scalar(cp)
                           && old(input.Rest()) == Encode8(cp) + input.Rest()
                           && output.dst == old(output.dst) + Encode16(cp)
  {
    hide Decode8, Encode8, Encode16;
    ghost var s := input.Rest();
    var codepoint;
    ok, codepoint := DecodeUtf8(input);
    if !ok {
      return;
    }
    if s != [] {
      DecodesTheStandard(s);
    } else {
      DecodesEmpty();
    }
    EncodeUtf16(output, codepoint);
  }

  lemma DecodesEmpty()
    ensures Decode8([]) == Decoded(true, 0, [])
  {
  }
}
