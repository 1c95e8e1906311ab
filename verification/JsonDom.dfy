/** The document: a handler that builds a tree on a stack, and `Accept`, which replays a tree
    as events. */
module JsonDom {
  import opened JsonGrammar

  datatype Value =
    | VNull
    | VBool(b: bool)
    | VNum(n: Number)
    | VStr(s: string)
    | VArray(elements: seq<Value>)
    | VObject(members: seq<Member>)

  datatype Member = Member(name: string, value: Value)

  // ----- Integer flags

  datatype Flags = Flags(isInt: bool, isUint: bool, isInt64: bool, isUint64: bool)

  const TWO_31 := 0x8000_0000
  const TWO_32 := 0x1_0000_0000
  const TWO_63 := 0x8000_0000_0000_0000
  const TWO_64 := 0x1_0000_0000_0000_0000

  /** The arguments that each of the four integer constructors can be called with. */
  predicate InRange(kind: IntegerKind, v: int) {
    match kind
    case Int => -TWO_31 <= v < TWO_31
    case Uint => 0 <= v < TWO_32
    case Int64 => -TWO_63 <= v < TWO_63
    case Uint64 => 0 <= v < TWO_64
  }

  /** The flags set by the constructor for `int`, `unsigned`, `int64_t` or `uint64_t`. A test of
      the high bits of a word is a comparison of its unsigned value. */
  function ConstructorFlags(kind: IntegerKind, v: int): Flags
    requires InRange(kind, v)
  {
    match kind
    case Int => if v >= 0 then Flags(true, true, true, true) else Flags(true, false, true, false)
    case Uint => if v / TWO_31 % 2 == 1 then Flags(false, true, true, true) else Flags(true, true, true, true)
    case Int64 =>
      if v >= 0 then Flags(v / TWO_31 == 0, v / TWO_32 == 0, true, true)
      else Flags(v >= -TWO_31, false, true, false)
    case Uint64 => Flags(v / TWO_31 == 0, v / TWO_32 == 0, v / TWO_63 % 2 == 0, true)
  }

  /** The flags are exactly the types that can represent the value, whichever constructor made
      it. */
  lemma FlagsAreRanges(kind: IntegerKind, v: int)
    requires InRange(kind, v)
    ensures ConstructorFlags(kind, v)
            == Flags(InRange(Int, v), InRange(Uint, v), InRange(Int64, v), InRange(Uint64, v))
  {
    assert kind.Int64? && v >= 0 ==> (v / TWO_32 == 0 <==> v < TWO_32);
  }

  /** The handler function that `Accept` calls for a value with these flags. */
  function AcceptKind(f: Flags): IntegerKind {
    if f.isInt then Int else if f.isUint then Uint else if f.isInt64 then Int64 else Uint64
  }

  predicate Representable(n: Number) {
    n.Integer? ==> InRange(n.kind, n.value)
  }

  /** What the document keeps of a number: the value, and the flags, which fix the kind. */
  function Stored(n: Number): Number
    requires Representable(n)
  {
    match n
    case Integer(kind, v) => Integer(AcceptKind(ConstructorFlags(kind, v)), v)
    case Double(_) => n
  }

  /** Storing a stored number changes nothing. */
  lemma StoredOnce(n: Number)
    requires Representable(n)
    ensures Representable(Stored(n)) && Stored(Stored(n)) == Stored(n)
  {
    if n.Integer? {
      FlagsAreRanges(n.kind, n.value);
      FlagsAreRanges(Stored(n).kind, n.value);
    }
  }

  // ----- Trees

  ghost predicate All(v: Value, p: Number -> bool)
    decreases v
  {
    match v
    case VNum(n) => p(n)
    case VArray(es) => forall i :: 0 <= i < |es| ==> All(es[i], p)
    case VObject(ms) => forall i :: 0 <= i < |ms| ==> All(ms[i].value, p)
    case _ => true
  }

  /** The number is kept as the document keeps it. */
  ghost predicate IsStored(n: Number) {
    Representable(n) && Stored(n) == n
  }

  /** `Accept`: the events of a tree. */
  function Accept(v: Value): seq<Event>
    decreases v
  {
    match v
    case VNull => [Null]
    case VBool(b) => [Bool(b)]
    case VNum(n) => [Num(n)]
    case VStr(s) => [Str(s)]
    case VArray(es) => [StartArray] + AcceptElements(es) + [EndArray(|es|)]
    case VObject(ms) => [StartObject] + AcceptMembers(ms) + [EndObject(|ms|)]
  }

  function AcceptElements(es: seq<Value>): seq<Event>
    decreases es
  {
    if es == [] then [] else Accept(es[0]) + AcceptElements(es[1..])
  }

  function AcceptMembers(ms: seq<Member>): seq<Event>
    decreases ms
  {
    if ms == [] then [] else [Key(ms[0].name)] + Accept(ms[0].value) + AcceptMembers(ms[1..])
  }

  // ----- The handler

  datatype Stack = Stack(values: seq<Value>) | Broken

  /** The members taken off the stack: names and values alternate. */
  function Pairs(vs: seq<Value>): (r: seq<Member>)
    requires |vs| % 2 == 0
    ensures |r| == |vs| / 2
  {
    if vs == [] then []
    else [Member(if vs[0].VStr? then vs[0].s else "", vs[1])] + Pairs(vs[2..])
  }

  /** One handler call. It relies on the caller for well nested events; here the stack breaks
      if they are not. */
  function Handle(st: seq<Value>, e: Event): Stack {
    match e
    case Null => Stack(st + [VNull])
    case Bool(b) => Stack(st + [VBool(b)])
    case Num(n) => if Representable(n) then Stack(st + [VNum(Stored(n))]) else Broken
    case Str(s) => Stack(st + [VStr(s)])
    case Key(s) => Stack(st + [VStr(s)])
    case StartObject => Stack(st + [VObject([])])
    case StartArray => Stack(st + [VArray([])])
    case EndObject(n) =>
      if |st| > 2 * n && st[|st| - 2 * n - 1].VObject? then
        Stack(st[..|st| - 2 * n - 1] + [VObject(Pairs(st[|st| - 2 * n..]))])
      else Broken
    case EndArray(n) =>
      if |st| > n && st[|st| - n - 1].VArray? then
        Stack(st[..|st| - n - 1] + [VArray(st[|st| - n..])])
      else Broken
  }

  function HandleAll(st: seq<Value>, es: seq<Event>): Stack
    decreases |es|
  {
    if es == [] then Stack(st)
    else
      match Handle(st, es[0])
      case Broken => Broken
      case Stack(st1) => HandleAll(st1, es[1..])
  }

  lemma {:induction false} HandleConcat(st: seq<Value>, a: seq<Event>, b: seq<Event>)
    ensures HandleAll(st, a + b) ==
            match HandleAll(st, a) { case Broken => Broken case Stack(st1) => HandleAll(st1, b) }
    decreases |a|
  {
    if a == [] {
      assert a + b == b;
    } else {
      assert (a + b)[1..] == a[1..] + b;
      if Handle(st, a[0]).Stack? {
        HandleConcat(Handle(st, a[0]).values, a[1..], b);
      }
    }
  }

  lemma HandleOne(st: seq<Value>, e: Event)
    ensures HandleAll(st, [e]) == Handle(st, e)
  {
    if Handle(st, e).Stack? {
      assert HandleAll(Handle(st, e).values, [e][1..]) == Handle(st, e);
    }
  }

  /** A tree as the document keeps it when it was built from these numbers. */
  function Keep(v: Value): Value
    requires All(v, Representable)
    decreases v
  {
    match v
    case VNum(n) => VNum(Stored(n))
    case VArray(es) => VArray(seq(|es|, i requires 0 <= i < |es| => Keep(es[i])))
    case VObject(ms) => VObject(seq(|ms|, i requires 0 <= i < |ms| => Member(ms[i].name, Keep(ms[i].value))))
    case _ => v
  }

  /** Replaying any tree pushes exactly one value, the tree with its numbers as kept. */
  lemma {:induction false} AcceptBuilds(st: seq<Value>, v: Value)
    requires All(v, Representable)
    ensures HandleAll(st, Accept(v)) == Stack(st + [Keep(v)])
    decreases v
  {
    match v
    case VArray(es) =>
      ElementsBuild(st + [VArray([])], es);
      ArrayCloses(st, AcceptElements(es), Keep(v).elements);
    case VObject(ms) =>
      MembersBuild(st + [VObject([])], ms);
      ObjectCloses(st, AcceptMembers(ms), Keep(v).members);
    case _ =>
      HandleOne(st, Accept(v)[0]);
  }

  lemma ArrayCloses(st: seq<Value>, inner: seq<Event>, kept: seq<Value>)
    requires HandleAll(st + [VArray([])], inner) == Stack(st + [VArray([])] + kept)
    ensures HandleAll(st, [StartArray] + inner + [EndArray(|kept|)]) == Stack(st + [VArray(kept)])
  {
    var open := st + [VArray([])];
    HandleOne(st, StartArray);
    HandleConcat(st, [StartArray] + inner, [EndArray(|kept|)]);
    HandleConcat(st, [StartArray], inner);
    HandleOne(open + kept, EndArray(|kept|));
    assert (open + kept)[..|st|] == st && (open + kept)[|st| + 1..] == kept;
  }

  lemma ObjectCloses(st: seq<Value>, inner: seq<Event>, kept: seq<Member>)
    requires HandleAll(st + [VObject([])], inner) == Stack(st + [VObject([])] + Flat(kept))
    ensures HandleAll(st, [StartObject] + inner + [EndObject(|kept|)]) == Stack(st + [VObject(kept)])
  {
    var open := st + [VObject([])];
    HandleOne(st, StartObject);
    HandleConcat(st, [StartObject] + inner, [EndObject(|kept|)]);
    HandleConcat(st, [StartObject], inner);
    HandleOne(open + Flat(kept), EndObject(|kept|));
    assert (open + Flat(kept))[..|st|] == st && (open + Flat(kept))[|st| + 1..] == Flat(kept);
    PairsOfFlat(kept);
  }

  lemma {:induction false} ElementsBuild(st: seq<Value>, es: seq<Value>)
    requires forall i :: 0 <= i < |es| ==> All(es[i], Representable)
    ensures HandleAll(st, AcceptElements(es)) == Stack(st + seq(|es|, i requires 0 <= i < |es| => Keep(es[i])))
    decreases es
  {
    var kept := seq(|es|, i requires 0 <= i < |es| => Keep(es[i]));
    if es == [] {
      assert st + kept == st;
    } else {
      AcceptBuilds(st, es[0]);
      HandleConcat(st, Accept(es[0]), AcceptElements(es[1..]));
      ElementsBuild(st + [Keep(es[0])], es[1..]);
      var rest := seq(|es[1..]|, i requires 0 <= i < |es[1..]| => Keep(es[1..][i]));
      assert st + kept == st + [Keep(es[0])] + rest;
    }
  }

  /** Members as they lie on the stack. */
  function Flat(ms: seq<Member>): (r: seq<Value>)
    ensures |r| == 2 * |ms|
  {
    if ms == [] then [] else [VStr(ms[0].name), ms[0].value] + Flat(ms[1..])
  }

  lemma {:induction false} PairsOfFlat(ms: seq<Member>)
    ensures Pairs(Flat(ms)) == ms
  {
    if ms != [] {
      assert Flat(ms)[2..] == Flat(ms[1..]);
      PairsOfFlat(ms[1..]);
    }
  }

  lemma {:induction false} MembersBuild(st: seq<Value>, ms: seq<Member>)
    requires forall i :: 0 <= i < |ms| ==> All(ms[i].value, Representable)
    ensures HandleAll(st, AcceptMembers(ms))
            == Stack(st + Flat(seq(|ms|, i requires 0 <= i < |ms| => Member(ms[i].name, Keep(ms[i].value)))))
    decreases ms
  {
    var kept := seq(|ms|, i requires 0 <= i < |ms| => Member(ms[i].name, Keep(ms[i].value)));
    if ms == [] {
      assert st + Flat(kept) == st;
    } else {
      var name, v, rest := Key(ms[0].name), ms[0].value, ms[1..];
      var st1 := st + [VStr(ms[0].name)];
      HandleOne(st, name);
      AcceptBuilds(st1, v);
      HandleConcat(st, [name] + Accept(v), AcceptMembers(rest));
      HandleConcat(st, [name], Accept(v));
      MembersBuild(st1 + [Keep(v)], rest);
      var keptRest := seq(|rest|, i requires 0 <= i < |rest| => Member(rest[i].name, Keep(rest[i].value)));
      assert kept[1..] == keptRest;
      assert st + Flat(kept) == st1 + [Keep(v)] + Flat(keptRest);
    }
  }

  /** The clone theorem: replaying a tree of the document into an empty document rebuilds it. */
  lemma CloneIsEqual(v: Value)
    requires All(v, IsStored)
    ensures HandleAll([], Accept(v)) == Stack([v])
  {
    StoredRepresentable(v);
    AcceptBuilds([], v);
    KeepStored(v);
  }

  lemma {:induction false} StoredRepresentable(v: Value)
    requires All(v, IsStored)
    ensures All(v, Representable)
    decreases v
  {
    match v
    case VArray(es) =>
      forall i | 0 <= i < |es| ensures All(es[i], Representable) {
        StoredRepresentable(es[i]);
      }
    case VObject(ms) =>
      forall i | 0 <= i < |ms| ensures All(ms[i].value, Representable) {
        StoredRepresentable(ms[i].value);
      }
    case _ =>
  }

  lemma {:induction false} KeepStored(v: Value)
    requires All(v, IsStored) && All(v, Representable)
    ensures Keep(v) == v
    decreases v
  {
    match v
    case VArray(es) =>
      forall i | 0 <= i < |es| ensures Keep(v).elements[i] == es[i] {
        KeepStored(es[i]);
      }
      assert Keep(v).elements == es;
    case VObject(ms) =>
      forall i | 0 <= i < |ms| ensures Keep(v).members[i] == ms[i] {
        KeepStored(ms[i].value);
      }
      assert Keep(v).members == ms;
    case _ =>
  }

  /** The handler half of `GenericDocument`. */
  class Document {
    var stack: seq<Value>

    constructor ()
      ensures stack == []
    {
      stack := [];
    }

    /** `Null`, `Bool`, `Int` .. `Double`, `String` and `Key` push a value; `StartObject` and
        `StartArray` push an empty container. */
    method Push(e: Event)
      requires !e.EndObject? && !e.EndArray? && (e.Num? ==> Representable(e.n))
      modifies this
      ensures Stack(stack) == Handle(old(stack), e)
    {
      match e
      case Null => stack := stack + [VNull];
      case Bool(b) => stack := stack + [VBool(b)];
      case Num(n) => stack := stack + [VNum(Stored(n))];
      case Str(s) => stack := stack + [VStr(s)];
      case Key(s) => stack := stack + [VStr(s)];
      case StartObject => stack := stack + [VObject([])];
      case StartArray => stack := stack + [VArray([])];
    }

    method EndObject(memberCount: nat)
      requires Handle(stack, Event.EndObject(memberCount)).Stack?
      modifies this
      ensures Stack(stack) == Handle(old(stack), Event.EndObject(memberCount))
    {
      var members := stack[|stack| - 2 * memberCount..];
      stack := stack[..|stack| - 2 * memberCount];
      stack := stack[|stack| - 1 := VObject(Pairs(members))];
    }

    method EndArray(elementCount: nat)
      requires Handle(stack, Event.EndArray(elementCount)).Stack?
      modifies this
      ensures Stack(stack) == Handle(old(stack), Event.EndArray(elementCount))
    {
      var elements := stack[|stack| - elementCount..];
      stack := stack[..|stack| - elementCount];
      stack := stack[|stack| - 1 := VArray(elements)];
    }
  }

  lemma {:induction false} KeepIsStored(v: Value)
    requires All(v, Representable)
    ensures All(Keep(v), IsStored)
    decreases v
  {
    match v
    case VNum(n) => StoredOnce(n);
    case VArray(es) =>
      forall i | 0 <= i < |es| ensures All(Keep(v).elements[i], IsStored) {
        KeepIsStored(es[i]);
      }
    case VObject(ms) =>
      forall i | 0 <= i < |ms| ensures All(Keep(v).members[i].value, IsStored) {
        KeepIsStored(ms[i].value);
      }
    case _ =>
  }
}
