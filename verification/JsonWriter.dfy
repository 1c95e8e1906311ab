/** The writer: a handler that prints events as text, and that parsing takes back what it has
    printed. */
module JsonWriter {
  import opened JsonGrammar
  import opened JsonAutomaton
  import opened JsonDom
  import opened JsonTexts

  /** How strings and numbers are printed. */
  datatype Printers = Printers(str: string -> string, num: Number -> string)

  // ----- The text of a value

  function Text(w: Printers, v: Value): string
    decreases v
  {
    match v
    case VNull => "null"
    case VBool(b) => if b then "true" else "false"
    case VNum(n) => w.num(n)
    case VStr(t) => w.str(t)
    case VArray(es) => "[" + ElementsText(w, es) + "]"
    case VObject(ms) => "{" + MembersText(w, ms) + "}"
  }

  function ElementsText(w: Printers, es: seq<Value>): string
    decreases es
  {
    if es == [] then "" else Text(w, es[0]) + if |es| == 1 then "" else "," + ElementsText(w, es[1..])
  }

  function MembersText(w: Printers, ms: seq<Member>): string
    decreases ms
  {
    if ms == [] then ""
    else MemberText(w, ms[0]) + if |ms| == 1 then "" else "," + MembersText(w, ms[1..])
  }

  // ----- Printed texts denote their values

  /** What may follow a value. */
  predicate Follows(b: string) {
    b == "" || b[0] == ',' || b[0] == ']' || b[0] == '}'
  }

  /** The scanner reads back what the printer prints, whatever stands around it. */
  ghost predicate ReadsString(c: Config, w: Printers, t: string) {
    && w.str(t) != "" && w.str(t)[0] == '"'
    && forall a: string, b: string {:trigger a + w.str(t) + b} ::
         c.strings(a + w.str(t) + b, |a|) == Token(|a| + |w.str(t)|, t)
  }

  ghost predicate ReadsStrings(c: Config, w: Printers) {
    forall t: string {:trigger w.str(t)} :: ReadsString(c, w, t)
  }

  /** A number is read back as the reader reports it, which need not be how it was stored. */
  ghost predicate ReadsNumber(c: Config, w: Printers, f: Number -> Number, n: Number) {
    && w.num(n) != "" && StartsNumber(w.num(n)[0])
    && forall a: string, b: string {:trigger a + w.num(n) + b} | Follows(b) ::
         c.numbers(a + w.num(n) + b, |a|) == Token(|a| + |w.num(n)|, f(n))
  }

  /** The value with all its numbers as they are reported. */
  function Reported(f: Number -> Number, v: Value): Value
    decreases v
  {
    match v
    case VNum(n) => VNum(f(n))
    case VArray(es) => VArray(ReportedElements(f, es))
    case VObject(ms) => VObject(ReportedMembers(f, ms))
    case _ => v
  }

  function ReportedElements(f: Number -> Number, es: seq<Value>): (r: seq<Value>)
    ensures |r| == |es| && forall i | 0 <= i < |es| :: r[i] == Reported(f, es[i])
    decreases es
  {
    if es == [] then [] else [Reported(f, es[0])] + ReportedElements(f, es[1..])
  }

  function ReportedMembers(f: Number -> Number, ms: seq<Member>): (r: seq<Member>)
    ensures |r| == |ms| && forall i | 0 <= i < |ms| :: r[i] == Member(ms[i].name, Reported(f, ms[i].value))
    decreases ms
  {
    if ms == [] then [] else [Member(ms[0].name, Reported(f, ms[0].value))] + ReportedMembers(f, ms[1..])
  }

  lemma WordIn(a: string, word: string, b: string)
    ensures IsWord(a + word + b, |a|, |a| + |word|, word)
  {
    assert (a + word + b)[|a|..|a| + |word|] == word;
  }

  lemma {:induction false} TextDenotes(c: Config, w: Printers, f: Number -> Number, a: string, v: Value, b: string)
    requires ReadsStrings(c, w) && All(v, n => ReadsNumber(c, w, f, n)) && Follows(b)
    ensures IsValue(c, a + Text(w, v) + b, |a|, |a| + |Text(w, v)|, Reported(f, v))
    decreases v
  {
    hide Gap, IsElements, IsMembers, ElementsText, MembersText, IsWord, ReadsNumber;
    var s := a + Text(w, v) + b;
    match v
    case VNull => WordIn(a, "null", b);
    case VBool(x) => WordIn(a, if x then "true" else "false", b);
    case VNum(n) => NumberDenotes(c, w, f, a, n, b);
    case VStr(t) => StringDenotes(c, w, a, t, b);
    case VArray(es) =>
      ElementsDenote(c, w, f, a + "[", es, b);
      assert s == a + "[" + ElementsText(w, es) + "]" + b;
      NoGap(c, s, |a| + 1);
    case VObject(ms) =>
      MembersDenote(c, w, f, a + "{", ms, b);
      assert s == a + "{" + MembersText(w, ms) + "}" + b;
      NoGap(c, s, |a| + 1);
  }

  lemma NumberDenotes(c: Config, w: Printers, f: Number -> Number, a: string, n: Number, b: string)
    requires ReadsNumber(c, w, f, n) && Follows(b)
    ensures IsValue(c, a + w.num(n) + b, |a|, |a| + |w.num(n)|, VNum(f(n)))
  {
  }

  lemma StringDenotes(c: Config, w: Printers, a: string, t: string, b: string)
    requires ReadsStrings(c, w)
    ensures At(a + w.str(t) + b, |a|, '"') && c.strings(a + w.str(t) + b, |a|) == Token(|a| + |w.str(t)|, t)
  {
    assert ReadsString(c, w, t);
  }

  lemma {:induction false} ElementsDenote(c: Config, w: Printers, f: Number -> Number, a: string, es: seq<Value>, b: string)
    requires ReadsStrings(c, w) && forall i | 0 <= i < |es| :: All(es[i], n => ReadsNumber(c, w, f, n))
    ensures var s := a + ElementsText(w, es) + "]" + b;
            IsElements(c, s, |a|, |a| + |ElementsText(w, es)| + 1, ReportedElements(f, es))
    decreases es
  {
    hide Gap, IsValue, All, ReadsNumber, Text, Reported;
    var s := a + ElementsText(w, es) + "]" + b;
    if es == [] {
      assert s == a + "]" + b;
    } else {
      var first := Text(w, es[0]);
      var m := |a| + |first|;
      var rest := if |es| == 1 then "]" + b else "," + ElementsText(w, es[1..]) + "]" + b;
      assert s == a + first + rest;
      TextDenotes(c, w, f, a, es[0], rest);
      NoGap(c, s, m);
      if |es| == 1 {
        ClosesHere(c, s, m, ']');
      } else {
        ElementsDenote(c, w, f, a + first + ",", es[1..], b);
        assert s == a + first + "," + ElementsText(w, es[1..]) + "]" + b;
        NoGap(c, s, m + 1);
      }
      var reported := ReportedElements(f, es);
      assert reported[1..] == ReportedElements(f, es[1..]);
      assert MoreElements(c, s, m, |a| + |ElementsText(w, es)| + 1, reported);
    }
  }

  /** The text of one member. */
  function MemberText(w: Printers, m: Member): string
    decreases m, 1
  {
    w.str(m.name) + ":" + Text(w, m.value)
  }

  lemma {:induction false} MemberDenotes(c: Config, w: Printers, f: Number -> Number, a: string, member: Member, b: string)
    requires ReadsStrings(c, w) && All(member.value, n => ReadsNumber(c, w, f, n)) && Follows(b)
    ensures var s, n, m := a + MemberText(w, member) + b, |a| + |w.str(member.name)|, |a| + |MemberText(w, member)|;
            IsMember(c, s, |a|, n, n, n + 1, m, m, Member(member.name, Reported(f, member.value)))
    decreases member
  {
    hide Gap, IsValue, All, ReadsNumber, Text;
    var name, value := w.str(member.name), Text(w, member.value);
    var s, n, m := a + MemberText(w, member) + b, |a| + |name|, |a| + |name| + 1 + |value|;
    assert s == a + name + (":" + value + b);
    StringDenotes(c, w, a, member.name, ":" + value + b);
    assert s == (a + name + ":") + value + b;
    TextDenotes(c, w, f, a + name + ":", member.value, b);
    NoGap(c, s, n);
    NoGap(c, s, n + 1);
    NoGap(c, s, m);
  }

  lemma {:induction false} MembersDenote(c: Config, w: Printers, f: Number -> Number, a: string, ms: seq<Member>, b: string)
    requires ReadsStrings(c, w) && forall i | 0 <= i < |ms| :: All(ms[i].value, n => ReadsNumber(c, w, f, n))
    ensures var s := a + MembersText(w, ms) + "}" + b;
            IsMembers(c, s, |a|, |a| + |MembersText(w, ms)| + 1, ReportedMembers(f, ms))
    decreases ms
  {
    hide Gap, IsMember, All, ReadsNumber, MemberText;
    var s := a + MembersText(w, ms) + "}" + b;
    if ms == [] {
      assert s == a + "}" + b;
    } else {
      var first := MemberText(w, ms[0]);
      var m := |a| + |first|;
      var rest := if |ms| == 1 then "}" + b else "," + MembersText(w, ms[1..]) + "}" + b;
      assert s == a + first + rest;
      MemberDenotes(c, w, f, a, ms[0], rest);
      if |ms| == 1 {
        ClosesHere(c, s, m, '}');
      } else {
        MembersDenote(c, w, f, a + first + ",", ms[1..], b);
        assert s == a + first + "," + MembersText(w, ms[1..]) + "}" + b;
        NoGap(c, s, m + 1);
      }
      var reported := ReportedMembers(f, ms);
      assert reported[1..] == ReportedMembers(f, ms[1..]);
      assert MoreMembers(c, s, m, |a| + |MembersText(w, ms)| + 1, reported);
    }
  }

  /** With scanners that read back what is printed, either parser accepts the text of every
      value and sends the events of that very value, with its numbers as they are reported. */
  lemma PrintedTextsParse(c: Config, w: Printers, f: Number -> Number, v: Value)
    requires Good(c) && TakesAll(c) && ReadsStrings(c, w) && All(v, n => ReadsNumber(c, w, f, n))
    ensures Parse(c, Text(w, v)).Ok? && Parse(c, Text(w, v)).log == Accept(Reported(f, v))
    ensures IterativeParse(c, Text(w, v)).Ok? && IterativeParse(c, Text(w, v)).log == Accept(Reported(f, v))
  {
    hide Parse, IterativeParse, IsValue, Gap, Text, All, ReadsNumber, ReadsStrings, Reported;
    var s := Text(w, v);
    TextDenotes(c, w, f, "", v, "");
    assert "" + s + "" == s;
    NoGap(c, s, 0);
    NoGap(c, s, |s|);
    assert EndsDocument(c, s, |s|);
    TextsParse(c, s, Reported(f, v));
  }

  /** What is reported of a number is stored as that number. */
  predicate StoredAs(f: Number -> Number, n: Number) {
    Representable(f(n)) && Stored(f(n)) == n
  }

  lemma {:induction false} ReportedIsKept(f: Number -> Number, v: Value)
    requires All(v, n => StoredAs(f, n))
    ensures All(Reported(f, v), Representable) && Keep(Reported(f, v)) == v
    decreases v
  {
    match v
    case VArray(es) =>
      forall i | 0 <= i < |es|
        ensures All(Reported(f, es[i]), Representable) && Keep(Reported(f, es[i])) == es[i]
      {
        ReportedIsKept(f, es[i]);
      }
    case VObject(ms) =>
      forall i | 0 <= i < |ms|
        ensures All(Reported(f, ms[i].value), Representable) && Keep(Reported(f, ms[i].value)) == ms[i].value
      {
        ReportedIsKept(f, ms[i].value);
      }
    case _ =>
  }

  /** The round trip of documents: what is printed and parsed again, by either parser, is the
      same document. */
  lemma DocumentRoundTrip(c: Config, w: Printers, f: Number -> Number, v: Value)
    requires Good(c) && TakesAll(c) && ReadsStrings(c, w)
    requires All(v, n => ReadsNumber(c, w, f, n)) && All(v, n => StoredAs(f, n))
    ensures Parse(c, Text(w, v)).Ok? && HandleAll([], Parse(c, Text(w, v)).log) == Stack([v])
    ensures IterativeParse(c, Text(w, v)).Ok? && HandleAll([], IterativeParse(c, Text(w, v)).log) == Stack([v])
  {
    hide Parse, IterativeParse, Text, Accept, HandleAll, ReadsStrings, All, ReadsNumber, Reported, Keep;
    PrintedTextsParse(c, w, f, v);
    ReportedIsKept(f, v);
    AcceptBuilds([], Reported(f, v));
    assert [] + [v] == [v];
  }

  // ----- The handler that prints

  /** An open array or object, and how many values and names it has so far. */
  datatype Level = Level(inArray: bool, valueCount: nat)

  datatype Printed = Printed(out: string, levels: seq<Level>, hasRoot: bool)

  const NOTHING := Printed("", [], false)

  /** The assertions of the writer: one root, names and values in turn, brackets that match. */
  predicate CanPrint(st: Printed, e: Event) {
    var top := if st.levels == [] then Level(true, 0) else st.levels[|st.levels| - 1];
    match e
    case EndObject(_) => st.levels != [] && !top.inArray && top.valueCount % 2 == 0
    case EndArray(_) => st.levels != [] && top.inArray
    case Str(_) => st.levels != [] || !st.hasRoot
    case Key(_) => st.levels != [] || !st.hasRoot
    case _ => if st.levels == [] then !st.hasRoot else top.inArray || top.valueCount % 2 == 1
  }

  /** `Prefix`: the separator before a value or a name. */
  function Prefix(st: Printed): Printed {
    if st.levels == [] then st.(hasRoot := true)
    else
      var last := |st.levels| - 1;
      var top := st.levels[last];
      st.(levels := st.levels[last := top.(valueCount := top.valueCount + 1)],
      out := st.out + if top.valueCount == 0 then ""
                      else if top.inArray || top.valueCount % 2 == 0 then "," else ":")
  }

  function Put(st: Printed, s: string): Printed {
    st.(out := st.out + s)
  }

  function Opened(st: Printed, inArray: bool, s: string): Printed {
    Put(st, s).(levels := st.levels + [Level(inArray, 0)])
  }

  function Closed(st: Printed, s: string): Printed
    requires st.levels != []
  {
    Put(st, s).(levels := st.levels[..|st.levels| - 1])
  }

  function Print(w: Printers, st: Printed, e: Event): Printed
    requires CanPrint(st, e)
  {
    match e
    case Null => Put(Prefix(st), "null")
    case Bool(b) => Put(Prefix(st), if b then "true" else "false")
    case Num(n) => Put(Prefix(st), w.num(n))
    case Str(t) => Put(Prefix(st), w.str(t))
    case Key(t) => Put(Prefix(st), w.str(t))
    case StartObject => Opened(Prefix(st), false, "{")
    case EndObject(_) => Closed(st, "}")
    case StartArray => Opened(Prefix(st), true, "[")
    case EndArray(_) => Closed(st, "]")
  }

  /** The state after printing events one after the other, if all of them can be printed. */
  predicate Prints(w: Printers, st: Printed, events: seq<Event>, r: Printed)
    decreases |events|
  {
    if events == [] then r == st
    else CanPrint(st, events[0]) && Prints(w, Print(w, st, events[0]), events[1..], r)
  }

  lemma {:induction false} PrintsJoin(w: Printers, st: Printed, a: seq<Event>, mid: Printed, b: seq<Event>, r: Printed)
    requires Prints(w, st, a, mid) && Prints(w, mid, b, r)
    ensures Prints(w, st, a + b, r)
    decreases |a|
  {
    hide Print;
    if a == [] {
      assert a + b == b;
    } else {
      PrintsJoin(w, Print(w, st, a[0]), a[1..], mid, b, r);
      assert (a + b)[1..] == a[1..] + b && (a + b)[0] == a[0];
    }
  }

  lemma PrintsOne(w: Printers, st: Printed, e: Event)
    requires CanPrint(st, e)
    ensures Prints(w, st, [e], Print(w, st, e))
  {
    assert [e][1..] == [];
  }

  /** A value is expected: at the root, in an array, or behind a name. */
  predicate ExpectsOne(st: Printed) {
    CanPrint(st, Null)
  }

  lemma {:induction false} ValueIsPrinted(w: Printers, st: Printed, v: Value)
    requires ExpectsOne(st)
    ensures Prints(w, st, Accept(v), Put(Prefix(st), Text(w, v)))
    decreases v
  {
    hide Prints, Prefix, AcceptElements, AcceptMembers, ElementsText, MembersText;
    match v
    case VNull => PrintsOne(w, st, Null);
    case VBool(b) => PrintsOne(w, st, Bool(b));
    case VNum(n) => PrintsOne(w, st, Num(n));
    case VStr(t) => PrintsOne(w, st, Str(t));
    case VArray(es) =>
      PrintsOne(w, st, StartArray);
      var t := Opened(Prefix(st), true, "[");
      ElementsArePrinted(w, t, es);
      assert (if es == [] then "" else Comma(t)) + ElementsText(w, es) == ElementsText(w, es);
      BracketIsPrinted(w, st, StartArray, AcceptElements(es), EndArray(|es|), Filled(t, |es|, ElementsText(w, es)), ElementsText(w, es));
    case VObject(ms) =>
      PrintsOne(w, st, StartObject);
      var t := Opened(Prefix(st), false, "{");
      MembersArePrinted(w, t, ms);
      assert (if ms == [] then "" else Comma(t)) + MembersText(w, ms) == MembersText(w, ms);
      BracketIsPrinted(w, st, StartObject, AcceptMembers(ms), EndObject(|ms|), Filled(t, 2 * |ms|, MembersText(w, ms)), MembersText(w, ms));
  }

  /** More text, and more values on the innermost level. */
  function Filled(st: Printed, count: nat, s: string): Printed
    requires st.levels != []
  {
    var last := |st.levels| - 1;
    Put(st, s).(levels := st.levels[last := st.levels[last].(valueCount := st.levels[last].valueCount + count)])
  }

  lemma BracketIsPrinted(w: Printers, st: Printed, first: Event, inner: seq<Event>, last: Event, mid: Printed, s: string)
    requires CanPrint(st, first) && CanPrint(mid, last)
    requires first.StartArray? || first.StartObject?
    requires if first.StartArray? then last.EndArray? else last.EndObject?
    requires Prints(w, Print(w, st, first), inner, mid)
    requires mid.levels != [] && mid.levels[..|mid.levels| - 1] == Prefix(st).levels && mid.hasRoot == Prefix(st).hasRoot
    requires mid.out == Prefix(st).out + (if first.StartArray? then "[" else "{") + s
    ensures var text := if first.StartArray? then "[" + s + "]" else "{" + s + "}";
            Prints(w, st, [first] + inner + [last], Put(Prefix(st), text))
  {
    hide Prints, Prefix;
    PrintsOne(w, st, first);
    PrintsOne(w, mid, last);
    PrintsJoin(w, st, [first], Print(w, st, first), inner, mid);
    PrintsJoin(w, st, [first] + inner, mid, [last], Print(w, mid, last));
    ClosesText(w, st, first, last, mid, s);
  }

  lemma ClosesText(w: Printers, st: Printed, first: Event, last: Event, mid: Printed, s: string)
    requires CanPrint(mid, last)
    requires if first.StartArray? then last.EndArray? else last.EndObject?
    requires mid.levels != [] && mid.levels[..|mid.levels| - 1] == Prefix(st).levels && mid.hasRoot == Prefix(st).hasRoot
    requires mid.out == Prefix(st).out + (if first.StartArray? then "[" else "{") + s
    ensures Print(w, mid, last) == Put(Prefix(st), if first.StartArray? then "[" + s + "]" else "{" + s + "}")
  {
    hide Prefix;
    var out := Prefix(st).out;
    assert out + "[" + s + "]" == out + ("[" + s + "]");
    assert out + "{" + s + "}" == out + ("{" + s + "}");
  }

  /** The separator before the next element or name of the innermost level. */
  function Comma(st: Printed): string
    requires st.levels != []
  {
    if st.levels[|st.levels| - 1].valueCount == 0 then "" else ","
  }

  lemma {:induction false} ElementsArePrinted(w: Printers, st: Printed, es: seq<Value>)
    requires st.levels != [] && st.levels[|st.levels| - 1].inArray
    ensures Prints(w, st, AcceptElements(es), Filled(st, |es|, (if es == [] then "" else Comma(st)) + ElementsText(w, es)))
    decreases es
  {
    hide Prints, Accept, Text;
    var r := Filled(st, |es|, (if es == [] then "" else Comma(st)) + ElementsText(w, es));
    if es == [] {
      assert r == st;
      PrintsNothing(w, st);
    } else {
      ValueIsPrinted(w, st, es[0]);
      var t := Put(Prefix(st), Text(w, es[0]));
      PutIsFilled(st, Text(w, es[0]));
      hide Filled;
      FilledTwice(st, 1, Comma(st) + Text(w, es[0]), |es| - 1, (if |es| == 1 then "" else ",") + ElementsText(w, es[1..]));
      ElementsArePrinted(w, t, es[1..]);
      var u := Filled(t, |es| - 1, (if |es| == 1 then "" else ",") + ElementsText(w, es[1..]));
      FewerElements(w, st, es);
      PrintsJoin(w, st, Accept(es[0]), t, AcceptElements(es[1..]), u);
    }
  }

  lemma PutIsFilled(st: Printed, s: string)
    requires st.levels != [] && st.levels[|st.levels| - 1].inArray
    ensures Put(Prefix(st), s) == Filled(st, 1, Comma(st) + s)
  {
  }

  lemma FewerElements(w: Printers, st: Printed, es: seq<Value>)
    requires es != [] && st.levels != []
    ensures Comma(st) + Text(w, es[0]) + ((if |es| == 1 then "" else ",") + ElementsText(w, es[1..])) ==
            Comma(st) + ElementsText(w, es)
    ensures |es| == 1 ==> ElementsText(w, es[1..]) == ""
  {
    hide Text;
  }

  lemma PrintsNothing(w: Printers, st: Printed)
    ensures Prints(w, st, [], st)
  {
  }

  lemma {:induction false} MembersArePrinted(w: Printers, st: Printed, ms: seq<Member>)
    requires st.levels != [] && !st.levels[|st.levels| - 1].inArray && st.levels[|st.levels| - 1].valueCount % 2 == 0
    ensures Prints(w, st, AcceptMembers(ms), Filled(st, 2 * |ms|, (if ms == [] then "" else Comma(st)) + MembersText(w, ms)))
    decreases ms
  {
    hide Prints, Accept, Text;
    var r := Filled(st, 2 * |ms|, (if ms == [] then "" else Comma(st)) + MembersText(w, ms));
    if ms == [] {
      assert r == st;
      PrintsNothing(w, st);
    } else {
      hide Filled, MemberText;
      var t := MemberIsPrinted(w, st, ms[0]);
      FilledTwice(st, 2, Comma(st) + MemberText(w, ms[0]), 2 * (|ms| - 1), (if |ms| == 1 then "" else ",") + MembersText(w, ms[1..]));
      MembersArePrinted(w, t, ms[1..]);
      var u := Filled(t, 2 * (|ms| - 1), (if |ms| == 1 then "" else ",") + MembersText(w, ms[1..]));
      FewerMembers(w, st, ms);
      PrintsJoin(w, st, [Key(ms[0].name)] + Accept(ms[0].value), t, AcceptMembers(ms[1..]), u);
    }
  }

  lemma FilledTwice(st: Printed, n: nat, a: string, m: nat, b: string)
    requires st.levels != []
    ensures var t := Filled(st, n, a);
            && |t.levels| == |st.levels|
            && t.levels[|t.levels| - 1] == st.levels[|st.levels| - 1].(valueCount := st.levels[|st.levels| - 1].valueCount + n)
            && Filled(t, m, b) == Filled(st, n + m, a + b)
  {
  }

  lemma FewerMembers(w: Printers, st: Printed, ms: seq<Member>)
    requires ms != [] && st.levels != []
    ensures Comma(st) + MemberText(w, ms[0]) + ((if |ms| == 1 then "" else ",") + MembersText(w, ms[1..])) ==
            Comma(st) + MembersText(w, ms)
    ensures |ms| == 1 ==> MembersText(w, ms[1..]) == ""
  {
    hide MemberText;
  }

  lemma {:induction false} MemberIsPrinted(w: Printers, st: Printed, m: Member) returns (r: Printed)
    requires st.levels != [] && !st.levels[|st.levels| - 1].inArray && st.levels[|st.levels| - 1].valueCount % 2 == 0
    ensures r == Filled(st, 2, Comma(st) + MemberText(w, m))
    ensures Prints(w, st, [Key(m.name)] + Accept(m.value), r)
    decreases m
  {
    hide Prints, Accept, Text;
    var t := Print(w, st, Key(m.name));
    PrintsOne(w, st, Key(m.name));
    ValueIsPrinted(w, t, m.value);
    r := Put(Prefix(t), Text(w, m.value));
    assert r.out == st.out + (Comma(st) + MemberText(w, m));
    PrintsJoin(w, st, [Key(m.name)], t, Accept(m.value), r);
  }

  /** Replaying a value into a new writer prints its text. */
  lemma WritesItsText(w: Printers, v: Value)
    ensures Prints(w, NOTHING, Accept(v), Printed(Text(w, v), [], true))
  {
    hide Prints, Text, Accept;
    ValueIsPrinted(w, NOTHING, v);
    assert "" + Text(w, v) == Text(w, v);
  }

  class Writer {
    const printers: Printers
    var out: string
    var levels: seq<Level>
    var hasRoot: bool

    constructor (printers: Printers)
      ensures this.printers == printers && View() == NOTHING
    {
      this.printers := printers;
      out, levels, hasRoot := "", [], false;
    }

    function View(): Printed
      reads this
    {
      Printed(out, levels, hasRoot)
    }

    method PutPrefix()
      modifies this
      ensures View() == Prefix(old(View()))
    {
      if levels != [] {
        var last := |levels| - 1;
        var level := levels[last];
        if level.valueCount > 0 {
          if level.inArray {
            out := out + ",";
          } else {
            out := out + if level.valueCount % 2 == 0 then "," else ":";
          }
        }
        levels := levels[last := level.(valueCount := level.valueCount + 1)];
      } else {
        hasRoot := true;
      }
    }

    /** One of the handler functions. */
    method Write(e: Event)
      requires CanPrint(View(), e)
      modifies this
      ensures View() == Print(printers, old(View()), e)
    {
      hide Prefix;
      if !e.EndObject? && !e.EndArray? {
        PutPrefix();
      }
      match e
      case Null => out := out + "null";
      case Bool(b) => out := out + if b then "true" else "false";
      case Num(n) => out := out + printers.num(n);
      case Str(t) => out := out + printers.str(t);
      case Key(t) => out := out + printers.str(t);
      case StartObject => levels, out := levels + [Level(false, 0)], out + "{";
      case EndObject(_) => levels, out := levels[..|levels| - 1], out + "}";
      case StartArray => levels, out := levels + [Level(true, 0)], out + "[";
      case EndArray(_) => levels, out := levels[..|levels| - 1], out + "]";
    }

    /** `Accept` of a value with this writer, which has printed nothing yet. */
    method WriteValue(v: Value)
      requires View() == NOTHING
      modifies this
      ensures out == Text(printers, v) && levels == []
    {
      WritesItsText(printers, v);
      var events := Accept(v);
      ghost var r := Printed(Text(printers, v), [], true);
      for i := 0 to |events|
        invariant Prints(printers, View(), events[i..], r)
      {
        assert events[i..][1..] == events[i + 1..];
        Write(events[i]);
      }
      assert events[|events|..] == [];
    }
  }
}
