/** Which texts denote which values, as a grammar of its own, and that the parsers accept exactly
    these texts and build exactly these values. */
module JsonTexts {
  import opened JsonGrammar
  import opened JsonAutomaton
  import opened JsonDom

  // ----- The grammar

  /** A comment from p up to r: a block comment with its first end, or a line comment with its
      line break; where the text shows its end first, a line comment ends there. */
  predicate IsComment(s: string, p: nat, r: nat) {
    && p + 2 <= r <= |s| && s[p] == '/'
    && if s[p + 1] == '*' then p + 4 <= r && EndsBlock(s, r - 2) && forall k | p + 2 <= k < r - 2 :: s[k] != '\0' && !EndsBlock(s, k)
       else
         && s[p + 1] == '/'
         && if p + 2 < r && s[r - 1] == '\n' then forall k | p + 2 <= k < r - 1 :: !EndsLine(s, k)
            else Peek(s, r) == '\0' && forall k | p + 2 <= k < r :: !EndsLine(s, k)
  }

  predicate EndsBlock(s: string, k: nat) {
    k + 1 < |s| && s[k] == '*' && s[k + 1] == '/'
  }

  predicate EndsLine(s: string, k: nat) {
    k < |s| && (s[k] == '\0' || s[k] == '\n')
  }

  /** White space, and comments where they are allowed. */
  ghost predicate Gap(c: Config, s: string, p: nat, q: nat)
    decreases |s| - p
  {
    p <= q <= |s| &&
    (p == q
     || (p < q && IsBlank(s[p]) && Gap(c, s, p + 1, q))
     || (c.comments && exists r | p < r <= q :: IsComment(s, p, r) && Gap(c, s, r, q)))
  }

  predicate IsWord(s: string, p: nat, q: nat, word: string) {
    p <= q <= |s| && s[p..q] == word
  }

  predicate At(s: string, p: nat, ch: char) {
    p < |s| && s[p] == ch
  }

  /** The text from p up to q denotes the value. Strings and numbers are what their scanners
      read. */
  ghost predicate IsValue(c: Config, s: string, p: nat, q: nat, v: Value)
    decreases v
  {
    match v
    case VNull => IsWord(s, p, q, "null")
    case VBool(b) => IsWord(s, p, q, if b then "true" else "false")
    case VNum(n) => p < |s| && StartsNumber(s[p]) && c.numbers(s, p) == Token(q, n)
    case VStr(t) => At(s, p, '"') && c.strings(s, p) == Token(q, t)
    case VArray(es) => At(s, p, '[') && exists a: nat :: Gap(c, s, p + 1, a) && IsElements(c, s, a, q, es)
    case VObject(ms) => At(s, p, '{') && exists a: nat :: Gap(c, s, p + 1, a) && IsMembers(c, s, a, q, ms)
  }

  /** The rest of an array behind its bracket and the gap there, with the closing bracket. */
  ghost predicate IsElements(c: Config, s: string, p: nat, q: nat, es: seq<Value>)
    decreases es, 1
  {
    if es == [] then At(s, p, ']') && q == p + 1
    else exists m: nat, a: nat :: IsValue(c, s, p, m, es[0]) && Gap(c, s, m, a) && MoreElements(c, s, a, q, es)
  }

  /** Behind an element: a comma and more elements, or the end, possibly behind a trailing
      comma. */
  ghost predicate MoreElements(c: Config, s: string, p: nat, q: nat, es: seq<Value>)
    requires es != []
    decreases es, 0
  {
    if |es| > 1 then At(s, p, ',') && exists a: nat :: Gap(c, s, p + 1, a) && IsElements(c, s, a, q, es[1..])
    else Closes(c, s, p, q, ']')
  }

  ghost predicate Closes(c: Config, s: string, p: nat, q: nat, bracket: char) {
    || (At(s, p, bracket) && q == p + 1)
    || (c.trailingCommas && At(s, p, ',') && exists a: nat :: Gap(c, s, p + 1, a) && At(s, a, bracket) && q == a + 1)
  }

  ghost predicate IsMembers(c: Config, s: string, p: nat, q: nat, ms: seq<Member>)
    decreases ms, 1
  {
    if ms == [] then At(s, p, '}') && q == p + 1
    else exists n: nat, a: nat, b: nat, m: nat, d: nat :: IsMember(c, s, p, n, a, b, m, d, ms[0]) && MoreMembers(c, s, d, q, ms)
  }

  /** A name up to n, a colon at a, a value from b up to m, and gaps up to d. */
  ghost predicate IsMember(c: Config, s: string, p: nat, n: nat, a: nat, b: nat, m: nat, d: nat, member: Member)
    decreases member
  {
    && At(s, p, '"') && c.strings(s, p) == Token(n, member.name)
    && Gap(c, s, n, a) && At(s, a, ':') && Gap(c, s, a + 1, b)
    && IsValue(c, s, b, m, member.value) && Gap(c, s, m, d)
  }

  ghost predicate MoreMembers(c: Config, s: string, p: nat, q: nat, ms: seq<Member>)
    requires ms != []
    decreases ms, 0
  {
    if |ms| > 1 then At(s, p, ',') && exists a: nat :: Gap(c, s, p + 1, a) && IsMembers(c, s, a, q, ms[1..])
    else Closes(c, s, p, q, '}')
  }

  /** The text denotes the value; behind it is nothing but a gap, unless the parser stops there. */
  ghost predicate IsDocument(c: Config, s: string, v: Value) {
    exists p, q :: Gap(c, s, 0, p) && IsValue(c, s, p, q, v) && EndsDocument(c, s, q)
  }

  ghost predicate EndsDocument(c: Config, s: string, q: nat) {
    c.stopWhenDone || exists e :: Gap(c, s, q, e) && Peek(s, e) == '\0'
  }

  // ----- Gaps are what is skipped

  predicate Stops(c: Config, ch: char) {
    !IsBlank(ch) && (c.comments ==> ch != '/')
  }

  lemma {:induction false} WhitespaceIsGap(c: Config, s: string, p: nat, q: nat)
    requires p <= |s| && Gap(c, s, SkipWhitespace(s, p), q)
    ensures Gap(c, s, p, q)
    decreases |s| - p
  {
    if p < |s| && IsBlank(s[p]) {
      WhitespaceIsGap(c, s, p + 1, q);
    }
  }

  lemma {:induction false} BlockIsFirst(s: string, p: nat)
    requires p <= |s|
    ensures var (q, closed) := SkipBlock(s, p);
            closed ==> p + 2 <= q <= |s| && EndsBlock(s, q - 2) && forall k | p <= k < q - 2 :: s[k] != '\0' && !EndsBlock(s, k)
    decreases |s| - p
  {
    if Peek(s, p) != '\0' && !(Peek(s, p) == '*' && Peek(s, p + 1) == '/') {
      BlockIsFirst(s, p + 1);
    }
  }

  lemma {:induction false} LineIsFirst(s: string, p: nat)
    requires p <= |s|
    ensures var q := SkipLine(s, p);
            if p < q && s[q - 1] == '\n' then forall k | p <= k < q - 1 :: !EndsLine(s, k)
            else Peek(s, q) == '\0' && forall k | p <= k < q :: !EndsLine(s, k)
    decreases |s| - p
  {
    if Peek(s, p) != '\0' && Peek(s, p) != '\n' {
      LineIsFirst(s, p + 1);
    }
  }

  lemma CommentIsGap(c: Config, s: string, p: nat, r: nat, q: nat)
    requires c.comments && IsComment(s, p, r) && r <= q && Gap(c, s, r, q)
    ensures Gap(c, s, p, q)
  {
  }

  lemma {:induction false} CommentsAreGap(c: Config, s: string, p: nat)
    requires p <= |s| && c.comments && SkipComments(s, p).Token?
    ensures Gap(c, s, p, SkipComments(s, p).pos)
    decreases |s| - p
  {
    hide Gap;
    var q := SkipComments(s, p).pos;
    if Peek(s, p) == '/' {
      var r := if Peek(s, p + 1) == '*' then SkipBlock(s, p + 2).0 else SkipLine(s, p + 2);
      BlockIsFirst(s, p + 2);
      LineIsFirst(s, p + 2);
      CommentsAreGap(c, s, SkipWhitespace(s, r));
      WhitespaceIsGap(c, s, r, q);
      CommentIsGap(c, s, p, r, q);
    } else {
      NoGap(c, s, p);
    }
  }

  lemma NoGap(c: Config, s: string, p: nat)
    requires p <= |s|
    ensures Gap(c, s, p, p)
  {
  }

  lemma SkippedIsGap(c: Config, s: string, p: nat)
    requires p <= |s| && Skip(c, s, p).Token?
    ensures var q := Skip(c, s, p).pos; Gap(c, s, p, q) && Stops(c, Peek(s, q))
  {
    var w := SkipWhitespace(s, p);
    hide Gap;
    if c.comments {
      CommentsAreGap(c, s, w);
    } else {
      NoGap(c, s, w);
    }
    WhitespaceIsGap(c, s, p, Skip(c, s, p).pos);
    SkipIsComplete(c, s, p);
  }

  lemma {:induction false} FirstBlock(s: string, p: nat, q: nat)
    requires p + 2 <= q <= |s| && EndsBlock(s, q - 2) && forall k | p <= k < q - 2 :: s[k] != '\0' && !EndsBlock(s, k)
    ensures SkipBlock(s, p) == (q, true)
    decreases q - p
  {
    if p < q - 2 {
      assert !EndsBlock(s, p);
      FirstBlock(s, p + 1, q);
    }
  }

  lemma {:induction false} FirstLine(s: string, p: nat, q: nat)
    requires p <= q <= |s|
    requires if p < q && s[q - 1] == '\n' then forall k | p <= k < q - 1 :: !EndsLine(s, k)
             else Peek(s, q) == '\0' && forall k | p <= k < q :: !EndsLine(s, k)
    ensures SkipLine(s, p) == q
    decreases q - p
  {
    if p < q && !(p == q - 1 && s[p] == '\n') {
      assert !EndsLine(s, p);
      FirstLine(s, p + 1, q);
    }
  }

  lemma CommentIsSkipped(c: Config, s: string, p: nat, r: nat)
    requires c.comments && IsComment(s, p, r)
    ensures Skip(c, s, p) == Skip(c, s, r)
  {
    if s[p + 1] == '*' {
      FirstBlock(s, p + 2, r);
    } else {
      FirstLine(s, p + 2, r);
    }
  }

  /** A gap that ends where nothing is left to skip is skipped. */
  lemma {:induction false} GapIsSkipped(c: Config, s: string, p: nat, q: nat)
    requires Gap(c, s, p, q) && Stops(c, Peek(s, q))
    ensures Skip(c, s, p) == Token(q, ())
    decreases |s| - p
  {
    if p < q {
      if IsBlank(s[p]) && Gap(c, s, p + 1, q) {
        GapIsSkipped(c, s, p + 1, q);
      } else {
        var r :| p < r <= q && IsComment(s, p, r) && Gap(c, s, r, q);
        hide Skip, IsComment;
        GapIsSkipped(c, s, r, q);
        CommentIsSkipped(c, s, p, r);
      }
    }
  }

  // ----- What is accepted is in the grammar

  /** The number scanner reports integers that the handler functions can take. */
  ghost predicate GoodNumbers(c: Config) {
    forall s: string, p: nat :: c.numbers(s, p).Token? ==> Representable(c.numbers(s, p).value)
  }

  lemma {:induction false} MatchingIsWord(s: string, p: nat, word: string)
    requires p <= |s| && '\0' !in word
    ensures Matching(s, p, word) == |word| <==> IsWord(s, p, p + |word|, word)
    decreases |word|
  {
    if word != [] {
      var rest := word[1..];
      assert word == [word[0]] + rest;
      if Peek(s, p) == word[0] {
        MatchingIsWord(s, p + 1, rest);
        if p + |word| <= |s| {
          assert s[p..p + |word|] == [s[p]] + s[p + 1..p + 1 + |rest|];
        }
      } else if p + |word| <= |s| {
        assert s[p..p + |word|][0] == s[p];
      }
    }
  }

  lemma {:induction false} MatchesUpTo(s: string, p: nat, word: string)
    ensures var n := Matching(s, p, word);
            && (forall k | 0 <= k < n :: Peek(s, p + k) == word[k])
            && (n < |word| ==> Peek(s, p + n) != word[n])
    decreases |word|
  {
    if word != [] && Peek(s, p) == word[0] {
      MatchesUpTo(s, p + 1, word[1..]);
      forall k | 0 <= k < Matching(s, p, word)
        ensures Peek(s, p + k) == word[k]
      {
        assert k > 0 ==> Peek(s, p + 1 + (k - 1)) == word[1..][k - 1];
      }
    }
  }

  /** A misspelt literal is reported at the first character that differs. */
  lemma LiteralsAreExact(c: Config, s: string, p: nat, log: seq<Event>, word: string, e: Event)
    requires p <= |s| && '\0' !in word
    ensures var r := ParseLiteral(c, s, p, log, word, e);
            if IsWord(s, p, p + |word|, word) then r == Emit(c, p + |word|, log, e)
            else r.Err? && r.code == ValueInvalid && r.log == log && p <= r.at < p + |word|
                 && (forall k | 0 <= k < r.at - p :: Peek(s, p + k) == word[k]) && Peek(s, r.at) != word[r.at - p]
  {
    hide Matching, IsWord;
    MatchingIsWord(s, p, word);
    MatchesUpTo(s, p, word);
  }

  lemma ClosesHere(c: Config, s: string, p: nat, bracket: char)
    requires At(s, p, bracket)
    ensures Closes(c, s, p, p + 1, bracket)
  {
  }

  lemma ClosesBehindComma(c: Config, s: string, p: nat, a: nat, bracket: char)
    requires c.trailingCommas && At(s, p, ',') && Gap(c, s, p + 1, a) && At(s, a, bracket)
    ensures Closes(c, s, p, a + 1, bracket)
  {
  }

  lemma ArrayIsValue(c: Config, s: string, p: nat, a: nat, q: nat, es: seq<Value>)
    requires At(s, p, '[') && Gap(c, s, p + 1, a)
    requires IsElements(c, s, a, q, es) || (es == [] && At(s, a, ']') && q == a + 1)
    ensures IsValue(c, s, p, q, VArray(es))
  {
  }

  lemma ObjectIsValue(c: Config, s: string, p: nat, a: nat, q: nat, ms: seq<Member>)
    requires At(s, p, '{') && Gap(c, s, p + 1, a)
    requires IsMembers(c, s, a, q, ms) || (ms == [] && At(s, a, '}') && q == a + 1)
    ensures IsValue(c, s, p, q, VObject(ms))
  {
  }

  lemma ElementsAre(c: Config, s: string, p: nat, m: nat, a: nat, q: nat, es: seq<Value>)
    requires es != [] && IsValue(c, s, p, m, es[0]) && Gap(c, s, m, a) && MoreElements(c, s, a, q, es)
    ensures IsElements(c, s, p, q, es)
  {
  }

  /** A text that parses as a value denotes it, and the events sent are those of the value. */
  lemma {:induction false} ValueTree(c: Config, s: string, p: nat, log: seq<Event>) returns (v: Value)
    requires Good(c) && p <= |s| && ParseValue(c, s, p, log).Ok?
    ensures var r := ParseValue(c, s, p, log); r.log == log + Accept(v) && IsValue(c, s, p, r.pos, v)
    ensures GoodNumbers(c) ==> All(v, Representable)
    decreases |s| - p, 3
  {
    hide Skip, ParseMembers, ParseElements, ParseScalar, Scans, Gap;
    if Peek(s, p) == '{' {
      var q, log1 := Skip(c, s, p + 1).pos, log + [StartObject];
      SkippedIsGap(c, s, p + 1);
      var ms := [];
      if Peek(s, q) != '}' {
        ms := MembersTree(c, s, q, log1, 0);
      }
      v := VObject(ms);
      ObjectIsValue(c, s, p, q, ParseValue(c, s, p, log).pos, ms);
    } else if Peek(s, p) == '[' {
      var q, log1 := Skip(c, s, p + 1).pos, log + [StartArray];
      SkippedIsGap(c, s, p + 1);
      var es := [];
      if Peek(s, q) != ']' {
        es := ElementsTree(c, s, q, log1, 0);
      }
      v := VArray(es);
      ArrayIsValue(c, s, p, q, ParseValue(c, s, p, log).pos, es);
    } else {
      v := ScalarTree(c, s, p, log);
    }
  }

  lemma ScalarTree(c: Config, s: string, p: nat, log: seq<Event>) returns (v: Value)
    requires Good(c) && p <= |s| && ParseScalar(c, s, p, log).Ok?
    ensures var r := ParseScalar(c, s, p, log); r.log == log + Accept(v) && IsValue(c, s, p, r.pos, v)
    ensures GoodNumbers(c) ==> All(v, Representable)
  {
    hide Matching, IsWord;
    match Peek(s, p)
    case 'n' => MatchingIsWord(s, p, "null"); v := VNull;
    case 't' => MatchingIsWord(s, p, "true"); v := VBool(true);
    case 'f' => MatchingIsWord(s, p, "false"); v := VBool(false);
    case '"' => v := VStr(c.strings(s, p).value);
    case _ => v := VNum(c.numbers(s, p).value);
  }

  /** The member loop sends every member, and counts those it has sent. */
  lemma {:induction false} MembersTree(c: Config, s: string, p: nat, log: seq<Event>, count: nat) returns (ms: seq<Member>)
    requires Good(c) && p <= |s| && ParseMembers(c, s, p, log, count).Ok?
    ensures var r := ParseMembers(c, s, p, log, count);
            && ms != [] && IsMembers(c, s, p, r.pos, ms)
            && r.log == log + AcceptMembers(ms) + [EndObject(count + |ms|)]
    ensures GoodNumbers(c) ==> forall i :: 0 <= i < |ms| ==> All(ms[i].value, Representable)
    decreases |s| - p, 1
  {
    hide Skip, ParseValue, AfterMember, Scans, Gap;
    var k := ParseString(c, s, p, log, true);
    StringEnd(c, s, p, log, true);
    var p2 := Skip(c, s, k.pos).pos;
    var p3 := Skip(c, s, p2 + 1).pos;
    var name := c.strings(s, p).value;
    assert k.log == log + [Key(name)];
    var v := ValueTree(c, s, p3, k.log);
    var r := ParseValue(c, s, p3, k.log);
    var p4 := Skip(c, s, r.pos).pos;
    SkippedIsGap(c, s, k.pos);
    SkippedIsGap(c, s, p2 + 1);
    SkippedIsGap(c, s, r.pos);
    var member := Member(name, v);
    assert IsMember(c, s, p, k.pos, p2, p3, r.pos, p4, member);
    hide IsMember;
    ms := AfterMemberTree(c, s, p4, r.log, count + 1, member);
    assert AcceptMembers(ms) == [Key(name)] + Accept(v) + AcceptMembers(ms[1..]);
  }

  /** What follows a member. */
  lemma {:induction false} AfterMemberTree(c: Config, s: string, p: nat, log: seq<Event>, count: nat, member: Member)
    returns (ms: seq<Member>)
    requires Good(c) && p <= |s| && count > 0 && AfterMember(c, s, p, log, count).Ok?
    ensures var r := AfterMember(c, s, p, log, count);
            && ms != [] && ms[0] == member && MoreMembers(c, s, p, r.pos, ms)
            && r.log == log + AcceptMembers(ms[1..]) + [EndObject(count - 1 + |ms|)]
    ensures GoodNumbers(c) ==> forall i :: 1 <= i < |ms| ==> All(ms[i].value, Representable)
    decreases |s| - p, 0
  {
    hide Skip, ParseMembers, Scans, Gap;
    ms := [member];
    if Peek(s, p) == ',' {
      SkippedIsGap(c, s, p + 1);
      var q := Skip(c, s, p + 1).pos;
      if !(c.trailingCommas && Peek(s, q) == '}') {
        var rest := MembersTree(c, s, q, log, count);
        ms := [member] + rest;
        assert ms[1..] == rest;
      } else {
        ClosesBehindComma(c, s, p, q, '}');
      }
    } else {
      ClosesHere(c, s, p, '}');
    }
  }

  /** The element loop sends every element, and counts those it has sent. */
  lemma {:induction false} ElementsTree(c: Config, s: string, p: nat, log: seq<Event>, count: nat) returns (es: seq<Value>)
    requires Good(c) && p <= |s| && ParseElements(c, s, p, log, count).Ok?
    ensures var r := ParseElements(c, s, p, log, count);
            && es != [] && IsElements(c, s, p, r.pos, es)
            && r.log == log + AcceptElements(es) + [EndArray(count + |es|)]
    ensures GoodNumbers(c) ==> forall i :: 0 <= i < |es| ==> All(es[i], Representable)
    decreases |s| - p, 4
  {
    hide Skip, ParseValue, AfterElement, Scans, Gap;
    var v := ValueTree(c, s, p, log);
    var r := ParseValue(c, s, p, log);
    SkippedIsGap(c, s, r.pos);
    var a := Skip(c, s, r.pos).pos;
    es := AfterElementTree(c, s, a, r.log, count + 1, v);
    hide IsValue, MoreElements, Accept;
    ElementsAre(c, s, p, r.pos, a, ParseElements(c, s, p, log, count).pos, es);
    assert AcceptElements(es) == Accept(v) + AcceptElements(es[1..]);
  }

  lemma {:induction false} AfterElementTree(c: Config, s: string, p: nat, log: seq<Event>, count: nat, first: Value)
    returns (es: seq<Value>)
    requires Good(c) && p <= |s| && count > 0 && AfterElement(c, s, p, log, count).Ok?
    ensures var r := AfterElement(c, s, p, log, count);
            && es != [] && es[0] == first && MoreElements(c, s, p, r.pos, es)
            && r.log == log + AcceptElements(es[1..]) + [EndArray(count - 1 + |es|)]
    ensures GoodNumbers(c) ==> forall i :: 1 <= i < |es| ==> All(es[i], Representable)
    decreases |s| - p, 0
  {
    hide Skip, ParseElements, Scans, Gap;
    es := [first];
    if Peek(s, p) == ',' {
      SkippedIsGap(c, s, p + 1);
      var q := Skip(c, s, p + 1).pos;
      if !(c.trailingCommas && Peek(s, q) == ']') {
        var rest := ElementsTree(c, s, q, log, count);
        es := [first] + rest;
        assert es[1..] == rest;
      } else {
        ClosesBehindComma(c, s, p, q, ']');
      }
    } else {
      ClosesHere(c, s, p, ']');
    }
  }

  // ----- What is in the grammar is accepted

  ghost predicate TakesAll(c: Config) {
    forall log {:trigger c.handler(log)} :: c.handler(log)
  }

  /** No value begins like a gap. */
  lemma ValuesStop(c: Config, s: string, p: nat, q: nat, v: Value)
    requires IsValue(c, s, p, q, v)
    ensures p < |s| && Stops(c, s[p]) && s[p] !in "\0]},:"
  {
    hide Gap, IsElements, IsMembers;
    if v.VNull? {
      assert s[p..q][0] == s[p];
    } else if v.VBool? {
      assert s[p..q][0] == s[p];
    }
  }

  lemma {:induction false} ValueParses(c: Config, s: string, p: nat, q: nat, v: Value, log: seq<Event>)
    requires Good(c) && TakesAll(c) && IsValue(c, s, p, q, v)
    ensures p <= |s| && ParseValue(c, s, p, log) == Ok(q, log + Accept(v))
    decreases v
  {
    hide Skip, ParseObject, ParseArray, ParseScalar, Scans, Gap, IsElements, IsMembers, AcceptElements, AcceptMembers;
    match v
    case VArray(es) =>
      var a: nat :| Gap(c, s, p + 1, a) && IsElements(c, s, a, q, es);
      ArrayParses(c, s, p, a, q, es, log);
      Wrapped(log, StartArray, AcceptElements(es), EndArray(|es|));
    case VObject(ms) =>
      var a: nat :| Gap(c, s, p + 1, a) && IsMembers(c, s, a, q, ms);
      ObjectParses(c, s, p, a, q, ms, log);
      Wrapped(log, StartObject, AcceptMembers(ms), EndObject(|ms|));
    case _ => ScalarParses(c, s, p, q, v, log);
  }

  lemma Wrapped(log: seq<Event>, first: Event, inner: seq<Event>, last: Event)
    ensures log + [first] + inner + [last] == log + ([first] + inner + [last])
  {
  }

  lemma Joined(log: seq<Event>, first: seq<Event>, rest: seq<Event>, last: Event)
    ensures log + first + rest + [last] == log + (first + rest) + [last]
  {
  }

  lemma ScalarParses(c: Config, s: string, p: nat, q: nat, v: Value, log: seq<Event>)
    requires Good(c) && TakesAll(c) && IsValue(c, s, p, q, v) && !v.VArray? && !v.VObject?
    ensures p <= |s| && ParseValue(c, s, p, log) == Ok(q, log + Accept(v))
  {
    hide Matching, ParseObject, ParseArray;
    ValuesStop(c, s, p, q, v);
    if v.VNull? {
      MatchingIsWord(s, p, "null");
      assert s[p..q][0] == s[p];
    } else if v.VBool? {
      MatchingIsWord(s, p, "true");
      MatchingIsWord(s, p, "false");
      assert s[p..q][0] == s[p];
    }
  }

  lemma {:induction false} ArrayParses(c: Config, s: string, p: nat, a: nat, q: nat, es: seq<Value>, log: seq<Event>)
    requires Good(c) && TakesAll(c) && At(s, p, '[') && Gap(c, s, p + 1, a) && IsElements(c, s, a, q, es)
    ensures ParseArray(c, s, p, log) == Ok(q, log + [StartArray] + AcceptElements(es) + [EndArray(|es|)])
    decreases es, 2
  {
    hide Skip, ParseElements, Scans, Gap;
    if es == [] {
      GapIsSkipped(c, s, p + 1, a);
    } else {
      ElementsStop(c, s, a, q, es);
      GapIsSkipped(c, s, p + 1, a);
      ElementsParse(c, s, a, q, es, log + [StartArray], 0);
    }
  }

  lemma ElementsStop(c: Config, s: string, p: nat, q: nat, es: seq<Value>)
    requires es != [] && IsElements(c, s, p, q, es)
    ensures p < |s| && Stops(c, s[p]) && s[p] != ']'
  {
    hide Gap, IsValue, MoreElements;
    var m: nat, a: nat :| IsValue(c, s, p, m, es[0]) && Gap(c, s, m, a) && MoreElements(c, s, a, q, es);
    ValuesStop(c, s, p, m, es[0]);
  }

  lemma {:induction false} ElementsParse(c: Config, s: string, p: nat, q: nat, es: seq<Value>, log: seq<Event>, count: nat)
    requires Good(c) && TakesAll(c) && es != [] && IsElements(c, s, p, q, es)
    ensures p <= |s| && ParseElements(c, s, p, log, count) == Ok(q, log + AcceptElements(es) + [EndArray(count + |es|)])
    decreases es, 1
  {
    hide Skip, ParseValue, AfterElement, Scans, Gap, IsValue, MoreElements;
    var m: nat, a: nat :| IsValue(c, s, p, m, es[0]) && Gap(c, s, m, a) && MoreElements(c, s, a, q, es);
    ValueParses(c, s, p, m, es[0], log);
    MoreStops(c, s, a, q, es);
    GapIsSkipped(c, s, m, a);
    AfterElementParses(c, s, a, q, es, log + Accept(es[0]), count + 1);
    Joined(log, Accept(es[0]), AcceptElements(es[1..]), EndArray(count + |es|));
    hide Accept;
  }

  lemma MoreStops(c: Config, s: string, p: nat, q: nat, es: seq<Value>)
    requires es != [] && MoreElements(c, s, p, q, es)
    ensures p < |s| && Stops(c, s[p])
  {
    hide Gap, IsElements;
  }

  lemma {:induction false} AfterElementParses(c: Config, s: string, p: nat, q: nat, es: seq<Value>, log: seq<Event>, count: nat)
    requires Good(c) && TakesAll(c) && es != [] && count > 0 && MoreElements(c, s, p, q, es)
    ensures p <= |s| && AfterElement(c, s, p, log, count) == Ok(q, log + AcceptElements(es[1..]) + [EndArray(count - 1 + |es|)])
    decreases es, 0
  {
    hide Skip, ParseElements, Scans, Gap, IsElements;
    if |es| > 1 {
      var a: nat :| Gap(c, s, p + 1, a) && IsElements(c, s, a, q, es[1..]);
      ElementsStop(c, s, a, q, es[1..]);
      GapIsSkipped(c, s, p + 1, a);
      ElementsParse(c, s, a, q, es[1..], log, count);
    } else {
      assert AcceptElements(es[1..]) == [];
      if At(s, p, ',') {
        var a: nat :| Gap(c, s, p + 1, a) && At(s, a, ']') && q == a + 1;
        GapIsSkipped(c, s, p + 1, a);
      }
    }
  }

  lemma {:induction false} ObjectParses(c: Config, s: string, p: nat, a: nat, q: nat, ms: seq<Member>, log: seq<Event>)
    requires Good(c) && TakesAll(c) && At(s, p, '{') && Gap(c, s, p + 1, a) && IsMembers(c, s, a, q, ms)
    ensures ParseObject(c, s, p, log) == Ok(q, log + [StartObject] + AcceptMembers(ms) + [EndObject(|ms|)])
    decreases ms, 2
  {
    hide Skip, ParseMembers, Scans, Gap;
    if ms == [] {
      GapIsSkipped(c, s, p + 1, a);
    } else {
      MembersStop(c, s, a, q, ms);
      GapIsSkipped(c, s, p + 1, a);
      MembersParse(c, s, a, q, ms, log + [StartObject], 0);
    }
  }

  lemma MembersStop(c: Config, s: string, p: nat, q: nat, ms: seq<Member>)
    requires ms != [] && IsMembers(c, s, p, q, ms)
    ensures At(s, p, '"') && Stops(c, s[p])
  {
    hide Gap, IsValue, MoreMembers;
  }

  lemma {:induction false} MembersParse(c: Config, s: string, p: nat, q: nat, ms: seq<Member>, log: seq<Event>, count: nat)
    requires Good(c) && TakesAll(c) && ms != [] && IsMembers(c, s, p, q, ms)
    ensures p <= |s| && ParseMembers(c, s, p, log, count) == Ok(q, log + AcceptMembers(ms) + [EndObject(count + |ms|)])
    decreases ms, 1
  {
    hide Skip, ParseValue, AfterMember, Scans, Gap, IsValue, MoreMembers;
    var n: nat, a: nat, b: nat, m: nat, d: nat :| IsMember(c, s, p, n, a, b, m, d, ms[0]) && MoreMembers(c, s, d, q, ms);
    var member := ms[0];
    var named := log + [Key(member.name)];
    ValueParses(c, s, b, m, member.value, named);
    ValuesStop(c, s, b, m, member.value);
    MoreMembersStop(c, s, d, q, ms);
    GapIsSkipped(c, s, n, a);
    GapIsSkipped(c, s, a + 1, b);
    GapIsSkipped(c, s, m, d);
    AfterMemberParses(c, s, d, q, ms, named + Accept(member.value), count + 1);
    assert ParseString(c, s, p, log, true) == Ok(n, named);
    Joined(log, [Key(member.name)] + Accept(member.value), AcceptMembers(ms[1..]), EndObject(count + |ms|));
    assert log + ([Key(member.name)] + Accept(member.value)) == named + Accept(member.value);
  }

  lemma MoreMembersStop(c: Config, s: string, p: nat, q: nat, ms: seq<Member>)
    requires ms != [] && MoreMembers(c, s, p, q, ms)
    ensures p < |s| && Stops(c, s[p])
  {
    hide Gap, IsMembers;
  }

  lemma {:induction false} AfterMemberParses(c: Config, s: string, p: nat, q: nat, ms: seq<Member>, log: seq<Event>, count: nat)
    requires Good(c) && TakesAll(c) && ms != [] && count > 0 && MoreMembers(c, s, p, q, ms)
    ensures p <= |s| && AfterMember(c, s, p, log, count) == Ok(q, log + AcceptMembers(ms[1..]) + [EndObject(count - 1 + |ms|)])
    decreases ms, 0
  {
    hide Skip, ParseMembers, Scans, Gap, IsMembers;
    if |ms| > 1 {
      var a: nat :| Gap(c, s, p + 1, a) && IsMembers(c, s, a, q, ms[1..]);
      MembersStop(c, s, a, q, ms[1..]);
      GapIsSkipped(c, s, p + 1, a);
      MembersParse(c, s, a, q, ms[1..], log, count);
    } else {
      assert AcceptMembers(ms[1..]) == [];
      if At(s, p, ',') {
        var a: nat :| Gap(c, s, p + 1, a) && At(s, a, '}') && q == a + 1;
        GapIsSkipped(c, s, p + 1, a);
      }
    }
  }

  // ----- What errors mean

  /** What a reported error says of the text at its offset and of the events before it. */
  predicate Explains(c: Config, s: string, code: ErrorCode, at: nat, log: seq<Event>) {
    match code
    case DocumentEmpty => Peek(s, at) == '\0' && log == []
    case DocumentRootNotSingular => Peek(s, at) != '\0' && log != []
    case ObjectMissName => Peek(s, at) != '"' && log != []
    case ObjectMissColon => Peek(s, at) != ':' && log != [] && log[|log| - 1].Key?
    case ObjectMissCommaOrCurlyBracket => Peek(s, at) != ',' && Peek(s, at) != '}' && log != []
    case ArrayMissCommaOrSquareBracket => Peek(s, at) != ',' && Peek(s, at) != ']' && log != []
    case Termination => log != [] && !c.handler(log)
    case UnspecificSyntaxError => c.comments
    case _ => true
  }

  predicate Explained(c: Config, s: string, r: Result) {
    r.Err? ==> Explains(c, s, r.code, r.at, r.log)
  }

  /** Events are only added. */
  predicate Longer(log: seq<Event>, r: Result) {
    r.Ok? ==> |log| < |r.log|
  }

  lemma {:induction false} ValueErrors(c: Config, s: string, p: nat, log: seq<Event>)
    requires Good(c) && p <= |s|
    ensures var r := ParseValue(c, s, p, log); Explained(c, s, r) && Longer(log, r)
    decreases |s| - p, 3
  {
    hide Skip, ParseMembers, ParseElements, ParseScalar, Scans;
    if Peek(s, p) == '{' {
      var w := Skip(c, s, p + 1);
      SkipErrors(c, s, p + 1);
      if w.Token? && Peek(s, w.pos) != '}' {
        MembersErrors(c, s, w.pos, log + [StartObject], 0);
      }
    } else if Peek(s, p) == '[' {
      var w := Skip(c, s, p + 1);
      SkipErrors(c, s, p + 1);
      if w.Token? && Peek(s, w.pos) != ']' {
        ElementsErrors(c, s, w.pos, log + [StartArray], 0);
      }
    } else {
      ScalarErrors(c, s, p, log);
    }
  }

  lemma SkipErrors(c: Config, s: string, p: nat)
    requires p <= |s|
    ensures var w := Skip(c, s, p); w.Bad? ==> w.code == UnspecificSyntaxError && c.comments
  {
  }

  lemma ScalarErrors(c: Config, s: string, p: nat, log: seq<Event>)
    requires Good(c) && p <= |s|
    ensures var r := ParseScalar(c, s, p, log); Explained(c, s, r) && Longer(log, r)
    ensures var k := ParseString(c, s, p, log, true);
            Explained(c, s, k) && Longer(log, k) && (k.Ok? ==> k.log[|k.log| - 1].Key?)
  {
    hide Matching;
  }

  lemma {:induction false} MembersErrors(c: Config, s: string, p: nat, log: seq<Event>, count: nat)
    requires Good(c) && p <= |s| && log != []
    ensures var r := ParseMembers(c, s, p, log, count); Explained(c, s, r) && Longer(log, r)
    decreases |s| - p, 1
  {
    hide Skip, ParseMember, ParseString, ParseScalar, Scans;
    if Peek(s, p) == '"' {
      ScalarErrors(c, s, p, log);
      StringEnd(c, s, p, log, true);
      var k := ParseString(c, s, p, log, true);
      if k.Ok? {
        SkipErrors(c, s, k.pos);
        var w := Skip(c, s, k.pos);
        if w.Token? {
          MemberErrors(c, s, w.pos, k.log, count);
        }
      }
    }
  }

  lemma {:induction false} MemberErrors(c: Config, s: string, p: nat, log: seq<Event>, count: nat)
    requires Good(c) && p <= |s| && log != [] && log[|log| - 1].Key?
    ensures var r := ParseMember(c, s, p, log, count); Explained(c, s, r) && Longer(log, r)
    decreases |s| - p, 4
  {
    hide Skip, ParseValue, AfterMember, Scans;
    if Peek(s, p) == ':' {
      SkipErrors(c, s, p + 1);
      var w := Skip(c, s, p + 1);
      if w.Token? {
        ValueErrors(c, s, w.pos, log);
        var v := ParseValue(c, s, w.pos, log);
        if v.Ok? {
          SkipErrors(c, s, v.pos);
          if Skip(c, s, v.pos).Token? {
            AfterMemberErrors(c, s, Skip(c, s, v.pos).pos, v.log, count + 1);
          }
        }
      }
    }
  }

  lemma {:induction false} AfterMemberErrors(c: Config, s: string, p: nat, log: seq<Event>, count: nat)
    requires Good(c) && p <= |s| && log != []
    ensures var r := AfterMember(c, s, p, log, count); Explained(c, s, r) && Longer(log, r)
    decreases |s| - p, 0
  {
    hide Skip, ParseMembers, Scans;
    if Peek(s, p) == ',' {
      SkipErrors(c, s, p + 1);
      var w := Skip(c, s, p + 1);
      if w.Token? && !(c.trailingCommas && Peek(s, w.pos) == '}') {
        MembersErrors(c, s, w.pos, log, count);
      }
    }
  }

  lemma {:induction false} ElementsErrors(c: Config, s: string, p: nat, log: seq<Event>, count: nat)
    requires Good(c) && p <= |s| && log != []
    ensures var r := ParseElements(c, s, p, log, count); Explained(c, s, r) && Longer(log, r)
    decreases |s| - p, 4
  {
    hide Skip, ParseValue, AfterElement, Scans;
    ValueErrors(c, s, p, log);
    var v := ParseValue(c, s, p, log);
    if v.Ok? {
      SkipErrors(c, s, v.pos);
      if Skip(c, s, v.pos).Token? {
        AfterElementErrors(c, s, Skip(c, s, v.pos).pos, v.log, count + 1);
      }
    }
  }

  lemma {:induction false} AfterElementErrors(c: Config, s: string, p: nat, log: seq<Event>, count: nat)
    requires Good(c) && p <= |s| && log != []
    ensures var r := AfterElement(c, s, p, log, count); Explained(c, s, r) && Longer(log, r)
    decreases |s| - p, 0
  {
    hide Skip, ParseElements, Scans;
    if Peek(s, p) == ',' {
      SkipErrors(c, s, p + 1);
      var w := Skip(c, s, p + 1);
      if w.Token? && !(c.trailingCommas && Peek(s, w.pos) == ']') {
        ElementsErrors(c, s, w.pos, log, count);
      }
    }
  }

  /** Every error of the recursive parser means what its code says. */
  lemma ErrorsAreExplained(c: Config, s: string)
    requires Good(c)
    ensures Explained(c, s, Parse(c, s))
  {
    hide Skip, ParseValue, Scans;
    SkipErrors(c, s, 0);
    if Skip(c, s, 0).Token? {
      var p := Skip(c, s, 0).pos;
      ValueErrors(c, s, p, []);
      var v := ParseValue(c, s, p, []);
      if v.Ok? {
        SkipErrors(c, s, v.pos);
      }
    }
  }

  // ----- Whole documents

  /** Both parsers accept exactly the texts of the grammar, and send exactly the events of the
      value that the text denotes. */
  lemma TextsParse(c: Config, s: string, v: Value)
    requires Good(c) && TakesAll(c) && IsDocument(c, s, v)
    ensures Parse(c, s).Ok? && Parse(c, s).log == Accept(v)
    ensures IterativeParse(c, s).Ok? && IterativeParse(c, s).log == Accept(v)
  {
    hide Skip, ParseValue, Scans, Gap, IsValue, IterativeParse;
    ParsersAgree(c, s);
    var p, q :| Gap(c, s, 0, p) && IsValue(c, s, p, q, v) && EndsDocument(c, s, q);
    ValuesStop(c, s, p, q, v);
    GapIsSkipped(c, s, 0, p);
    ValueParses(c, s, p, q, v, []);
    if !c.stopWhenDone {
      var e :| Gap(c, s, q, e) && Peek(s, e) == '\0';
      GapIsSkipped(c, s, q, e);
    }
  }

  lemma ParsedAreTexts(c: Config, s: string) returns (v: Value)
    requires Good(c) && (Parse(c, s).Ok? || IterativeParse(c, s).Ok?)
    ensures IsDocument(c, s, v) && Parse(c, s).log == Accept(v) && IterativeParse(c, s).log == Accept(v)
    ensures GoodNumbers(c) ==> All(v, Representable)
  {
    hide ParseValue, Skip, Scans, Gap, IsValue, IterativeParse;
    ParsersAgree(c, s);
    SkippedIsGap(c, s, 0);
    var p := Skip(c, s, 0).pos;
    v := ValueTree(c, s, p, []);
    var q := ParseValue(c, s, p, []).pos;
    if !c.stopWhenDone {
      SkippedIsGap(c, s, q);
    }
    assert EndsDocument(c, s, q);
  }

  /** The document theorem: a successful parse, by either parser, leaves exactly one value on the
      stack: the one that the text denotes, with every number as it is stored; its own events
      build it again. */
  lemma ParseBuildsOneValue(c: Config, s: string) returns (v: Value)
    requires Good(c) && GoodNumbers(c) && Parse(c, s).Ok?
    ensures IsDocument(c, s, v) && All(v, Representable) && Parse(c, s).log == Accept(v)
    ensures HandleAll([], Parse(c, s).log) == Stack([Keep(v)])
    ensures HandleAll([], Accept(Keep(v))) == Stack([Keep(v)])
  {
    hide Parse, IsDocument;
    v := ParsedAreTexts(c, s);
    AcceptBuilds([], v);
    KeepIsStored(v);
    CloneIsEqual(Keep(v));
  }
}
