/** The iterative parser: a table-driven pushdown automaton over the same text. */
module JsonAutomaton {
  import opened JsonGrammar

  datatype State =
    | Finish | Error | Start
    | ObjectInitial | MemberKey | MemberValue | ObjectFinish
    | ArrayInitial | Element | ArrayFinish
    | SingleValue
    | ElementDelimiter | MemberDelimiter | KeyValueDelimiter

  datatype TokenKind =
    | LeftBracket | RightBracket | LeftCurly | RightCurly | Comma | Colon
    | StringToken | FalseToken | TrueToken | NullToken | NumberToken

  function Tokenize(ch: char): TokenKind {
    match ch
    case '[' => LeftBracket
    case ']' => RightBracket
    case '{' => LeftCurly
    case '}' => RightCurly
    case ',' => Comma
    case ':' => Colon
    case '"' => StringToken
    case 'f' => FalseToken
    case 't' => TrueToken
    case 'n' => NullToken
    case _ => NumberToken
  }

  predicate IsScalar(t: TokenKind) {
    t.StringToken? || t.FalseToken? || t.TrueToken? || t.NullToken? || t.NumberToken?
  }

  /** The transition table. */
  function Predict(state: State, t: TokenKind): State {
    match state
    case Start =>
      if t.LeftBracket? then ArrayInitial else if t.LeftCurly? then ObjectInitial
      else if IsScalar(t) then SingleValue else Error
    case ObjectInitial | MemberDelimiter =>
      if t.RightCurly? then ObjectFinish else if t.StringToken? then MemberKey else Error
    case MemberKey => if t.Colon? then KeyValueDelimiter else Error
    case MemberValue =>
      if t.RightCurly? then ObjectFinish else if t.Comma? then MemberDelimiter else Error
    case ArrayInitial | ElementDelimiter =>
      if t.LeftBracket? then ArrayInitial else if t.RightBracket? then ArrayFinish
      else if t.LeftCurly? then ObjectInitial else if IsScalar(t) then Element else Error
    case Element =>
      if t.RightBracket? then ArrayFinish else if t.Comma? then ElementDelimiter else Error
    case KeyValueDelimiter =>
      if t.LeftBracket? then ArrayInitial else if t.LeftCurly? then ObjectInitial
      else if IsScalar(t) then MemberValue else Error
    case _ => Error
  }

  /** What the stack holds for an open object or array: the state to return to and the number
      of members or elements already followed by a comma. */
  datatype Frame = Frame(ret: State, count: nat)

  ghost predicate StackOk(state: State, stack: seq<Frame>) {
    && (forall i :: 0 <= i < |stack| ==> if i == 0 then stack[i].ret.Start? else stack[i].ret.Element? || stack[i].ret.MemberValue?)
    && (if state.Start? || state.Finish? then stack == [] else stack != [])
    && (state.Start? || state.Finish? || state.ObjectInitial? || state.MemberKey? || state.MemberValue?
        || state.ArrayInitial? || state.Element? || state.ElementDelimiter? || state.MemberDelimiter? || state.KeyValueDelimiter?)
  }

  datatype Move = Moved(state: State, stack: seq<Frame>, pos: nat, log: seq<Event>)
                | Failed(code: ErrorCode, at: nat, log: seq<Event>)

  /** The code `HandleError` reports when no other error has been set. */
  function StateError(state: State): ErrorCode {
    match state
    case Start => DocumentEmpty
    case Finish => DocumentRootNotSingular
    case ObjectInitial | MemberDelimiter => ObjectMissName
    case MemberKey => ObjectMissColon
    case MemberValue => ObjectMissCommaOrCurlyBracket
    case KeyValueDelimiter | ArrayInitial | ElementDelimiter => ValueInvalid
    case _ => ArrayMissCommaOrSquareBracket
  }

  /** The state to return to once a value that was expected in `src` is complete. */
  function AfterValue(src: State): State {
    match src
    case Start => Finish
    case ArrayInitial | ElementDelimiter => Element
    case KeyValueDelimiter => MemberValue
    case _ => src
  }

  function Open(c: Config, src: State, stack: seq<Frame>, p: nat, log: seq<Event>, dst: State, e: Event): Move {
    var ret := if src.Start? then Start else AfterValue(src);
    match Emit(c, p, log, e)
    case Ok(_, log1) => Moved(dst, stack + [Frame(ret, 0)], p + 1, log1)
    case Err(code, at, log1) => Failed(code, at, log1)
  }

  /** Closing an object or array; `extra` counts the last member, which no comma followed. */
  function Close(c: Config, stack: seq<Frame>, p: nat, log: seq<Event>, isObject: bool, extra: nat): Move
    requires stack != []
  {
    var top := stack[|stack| - 1];
    var n := if top.ret.Start? then Finish else top.ret;
    match Emit(c, p, log, if isObject then EndObject(top.count + extra) else EndArray(top.count + extra))
    case Ok(_, log1) => Moved(n, stack[..|stack| - 1], p + 1, log1)
    case Err(code, at, log1) => Failed(code, at, log1)
  }

  function Carry(r: Result, dst: State, stack: seq<Frame>): Move {
    match r
    case Ok(q, log) => Moved(dst, stack, q, log)
    case Err(code, at, log) => Failed(code, at, log)
  }

  /** `Predict`, `Transit` and, on an error, `HandleError`. */
  function Transit(c: Config, s: string, src: State, stack: seq<Frame>, p: nat, log: seq<Event>): (m: Move)
    requires Good(c) && p < |s| && Peek(s, p) != '\0' && StackOk(src, stack)
    ensures m.Moved? ==> p < m.pos <= |s| && StackOk(m.state, m.stack)
  {
    match Predict(src, Tokenize(Peek(s, p)))
    case Error => Failed(StateError(src), p, log)
    case ObjectInitial => Open(c, src, stack, p, log, ObjectInitial, StartObject)
    case ArrayInitial => Open(c, src, stack, p, log, ArrayInitial, StartArray)
    case MemberKey => Carry(ParseString(c, s, p, log, true), MemberKey, stack)
    case KeyValueDelimiter => Moved(KeyValueDelimiter, stack, p + 1, log)
    case MemberValue => Carry(ParseScalar(c, s, p, log), MemberValue, stack)
    case Element => Carry(ParseScalar(c, s, p, log), Element, stack)
    case MemberDelimiter =>
      var top := stack[|stack| - 1];
      Moved(MemberDelimiter, stack[|stack| - 1 := top.(count := top.count + 1)], p + 1, log)
    case ElementDelimiter =>
      var top := stack[|stack| - 1];
      Moved(ElementDelimiter, stack[|stack| - 1 := top.(count := top.count + 1)], p + 1, log)
    case ObjectFinish =>
      if !c.trailingCommas && src.MemberDelimiter? then Failed(ObjectMissName, p, log)
      else Close(c, stack, p, log, true, if src.MemberValue? then 1 else 0)
    case ArrayFinish =>
      if !c.trailingCommas && src.ElementDelimiter? then Failed(ValueInvalid, p, log)
      else Close(c, stack, p, log, false, if src.Element? then 1 else 0)
    case _ => Carry(ParseScalar(c, s, p, log), Finish, stack)
  }

  /** The loop of `IterativeParse`, entered behind white space. */
  function Run(c: Config, s: string, state: State, stack: seq<Frame>, p: nat, log: seq<Event>): Result
    requires Good(c) && p <= |s| && StackOk(state, stack)
    decreases |s| - p, 1
  {
    if Peek(s, p) == '\0' then
      if state.Finish? then Ok(p, log) else Err(StateError(state), p, log)
    else
      match Transit(c, s, state, stack, p, log)
      case Failed(code, at, log1) => Err(code, at, log1)
      case Moved(state1, stack1, p1, log1) => Continue(c, s, state1, stack1, p1, log1)
  }

  /** The end of the loop body. */
  function Continue(c: Config, s: string, state: State, stack: seq<Frame>, p: nat, log: seq<Event>): Result
    requires Good(c) && p <= |s| && StackOk(state, stack)
    decreases |s| - p, 2
  {
    if c.stopWhenDone && state.Finish? then Ok(p, log)
    else
      match Skip(c, s, p)
      case Bad(code, at) => Err(code, at, log)
      case Token(q, _) => Run(c, s, state, stack, q, log)
  }

  /** `IterativeParse` */
  function IterativeParse(c: Config, s: string): Result
    requires Good(c)
  {
    match Skip(c, s, 0)
    case Bad(code, at) => Err(code, at, [])
    case Token(p, _) => Run(c, s, Start, [], p, [])
  }

  // ----- Equivalence with recursive descent

  /** Whether the last event is that of the bracket in front of a position. */
  predicate BehindItsBracket(s: string, p: nat, log: seq<Event>) {
    && 0 < p <= |s|
    && log != []
    && match log[|log| - 1]
       case StartObject => s[p - 1] == '{'
       case EndObject(_) => s[p - 1] == '}'
       case StartArray => s[p - 1] == '['
       case EndArray(_) => s[p - 1] == ']'
       case _ => false
  }

  /** Same outcome: the same end and events, or the same error after the same events. Only when
      the handler rejects a bracket that the recursive parser has taken is the offset one less,
      because the iterative parser calls the handler first. */
  ghost predicate Same(s: string, iterative: Result, recursive: Result) {
    match recursive
    case Ok(_, _) => iterative == recursive
    case Err(code, at, log) =>
      && iterative.Err? && iterative.code == code && iterative.log == log
      && at == iterative.at + if code.Termination? && BehindItsBracket(s, at, log) then 1 else 0
  }

  /** The iterative parser's run follows the recursive parser's result r for a part of the
      text: if r is a success it goes on behind that part in the given state, and otherwise it
      ends in the same error. */
  ghost predicate Follows(run: Result, c: Config, s: string, r: Result, state: State, stack: seq<Frame>)
    requires Good(c) && StackOk(state, stack) && (r.Ok? ==> r.pos <= |s|)
  {
    match r
    case Ok(p, log) => run == Continue(c, s, state, stack, p, log)
    case Err(_, _, _) => Same(s, run, r)
  }

  function Returned(ret: State): State {
    if ret.Start? then Finish else ret
  }

  ghost predicate ExpectsValue(src: State) {
    src.Start? || src.ArrayInitial? || src.ElementDelimiter? || src.KeyValueDelimiter?
  }

  // ----- Single rounds of the loop

  /** A token that the table rejects, or the end of the text. */
  lemma RejectStep(c: Config, s: string, src: State, stack: seq<Frame>, p: nat, log: seq<Event>)
    requires Good(c) && p <= |s| && StackOk(src, stack) && !src.Finish?
    requires Peek(s, p) == '\0' || Predict(src, Tokenize(Peek(s, p))).Error?
    ensures Run(c, s, src, stack, p, log) == Err(StateError(src), p, log)
  {
  }

  lemma KeyStep(c: Config, s: string, src: State, stack: seq<Frame>, p: nat, log: seq<Event>)
    requires Good(c) && p < |s| && StackOk(src, stack) && Peek(s, p) == '"'
    requires src.ObjectInitial? || src.MemberDelimiter?
    ensures StackOk(MemberKey, stack)
    ensures var k := ParseString(c, s, p, log, true);
            Run(c, s, src, stack, p, log) == if k.Ok? then Continue(c, s, MemberKey, stack, k.pos, k.log) else k
  {
  }

  lemma ColonStep(c: Config, s: string, stack: seq<Frame>, p: nat, log: seq<Event>)
    requires Good(c) && p < |s| && StackOk(MemberKey, stack) && Peek(s, p) == ':'
    ensures StackOk(KeyValueDelimiter, stack)
    ensures Run(c, s, MemberKey, stack, p, log) == Continue(c, s, KeyValueDelimiter, stack, p + 1, log)
  {
  }

  lemma CommaStep(c: Config, s: string, src: State, stack: seq<Frame>, frame: Frame, p: nat, log: seq<Event>)
    requires Good(c) && p < |s| && StackOk(src, stack + [frame]) && Peek(s, p) == ','
    requires src.MemberValue? || src.Element?
    ensures var dst, next := if src.MemberValue? then MemberDelimiter else ElementDelimiter, Frame(frame.ret, frame.count + 1);
            StackOk(dst, stack + [next])
            && Run(c, s, src, stack + [frame], p, log) == Continue(c, s, dst, stack + [next], p + 1, log)
  {
    var stk, next := stack + [frame], Frame(frame.ret, frame.count + 1);
    assert stk[|stk| - 1] == frame && stk[|stk| - 1 := next] == stack + [next];
  }

  lemma ScalarStep(c: Config, s: string, src: State, stack: seq<Frame>, p: nat, log: seq<Event>)
    requires Good(c) && p < |s| && StackOk(src, stack) && ExpectsValue(src)
    requires Peek(s, p) != '\0' && IsScalar(Tokenize(Peek(s, p)))
    ensures StackOk(AfterValue(src), stack)
    ensures var v := ParseScalar(c, s, p, log);
            Run(c, s, src, stack, p, log) == if v.Ok? then Continue(c, s, AfterValue(src), stack, v.pos, v.log) else v
  {
  }

  lemma OpenStep(c: Config, s: string, src: State, stack: seq<Frame>, p: nat, log: seq<Event>)
    requires Good(c) && p < |s| && StackOk(src, stack) && ExpectsValue(src)
    requires Peek(s, p) == '{' || Peek(s, p) == '['
    ensures var obj := Peek(s, p) == '{';
            var dst := if obj then ObjectInitial else ArrayInitial;
            var stk := stack + [Frame(if src.Start? then Start else AfterValue(src), 0)];
            var e := Emit(c, p + 1, log, if obj then StartObject else StartArray);
            StackOk(dst, stk)
            && Run(c, s, src, stack, p, log) == if e.Ok? then Continue(c, s, dst, stk, p + 1, e.log) else Err(Termination, p, e.log)
  {
    var stk := stack + [Frame(if src.Start? then Start else AfterValue(src), 0)];
    assert forall i :: 0 <= i < |stack| ==> stk[i] == stack[i];
  }

  lemma PoppedOk(src: State, stack: seq<Frame>, frame: Frame)
    requires StackOk(src, stack + [frame])
    ensures StackOk(Returned(frame.ret), stack)
  {
    assert forall i :: 0 <= i < |stack| ==> (stack + [frame])[i] == stack[i];
    assert (stack + [frame])[|stack|] == frame;
  }

  /** A closing bracket, in any state that accepts one. */
  lemma CloseStep(c: Config, s: string, src: State, stack: seq<Frame>, frame: Frame, p: nat, log: seq<Event>)
    requires Good(c) && p < |s| && StackOk(src, stack + [frame])
    requires if Peek(s, p) == '}' then src.ObjectInitial? || src.MemberValue? || (src.MemberDelimiter? && c.trailingCommas)
             else Peek(s, p) == ']' && (src.ArrayInitial? || src.Element? || (src.ElementDelimiter? && c.trailingCommas))
    ensures StackOk(Returned(frame.ret), stack)
    ensures var n := frame.count + if src.MemberValue? || src.Element? then 1 else 0;
            var e := Emit(c, p + 1, log, if Peek(s, p) == '}' then EndObject(n) else EndArray(n));
            Run(c, s, src, stack + [frame], p, log)
            == if e.Ok? then Continue(c, s, Returned(frame.ret), stack, p + 1, e.log) else Err(Termination, p, e.log)
  {
    PoppedOk(src, stack, frame);
    var stk := stack + [frame];
    assert stk[..|stk| - 1] == stack && stk[|stk| - 1] == frame;
  }

  /** A closing bracket behind a comma, when trailing commas are not allowed. */
  lemma TrailingStep(c: Config, s: string, src: State, stack: seq<Frame>, p: nat, log: seq<Event>)
    requires Good(c) && p < |s| && StackOk(src, stack) && !c.trailingCommas
    requires (Peek(s, p) == '}' && src.MemberDelimiter?) || (Peek(s, p) == ']' && src.ElementDelimiter?)
    ensures Run(c, s, src, stack, p, log) == Err(StateError(src), p, log)
  {
  }

  lemma SkipStep(c: Config, s: string, state: State, stack: seq<Frame>, p: nat, log: seq<Event>)
    requires Good(c) && p <= |s| && StackOk(state, stack) && !state.Finish?
    ensures var w := Skip(c, s, p);
            Continue(c, s, state, stack, p, log)
            == if w.Token? then Run(c, s, state, stack, w.pos, log) else Err(w.code, w.at, log)
  {
  }

  // ----- Where a rejected event is reported

  /** An event without brackets is reported at the same place by both parsers. */
  lemma ScalarSame(c: Config, s: string, p: nat, log: seq<Event>)
    requires Good(c)
    ensures var v := ParseScalar(c, s, p, log); v.Err? ==> Same(s, v, v)
    ensures var k := ParseString(c, s, p, log, true); k.Err? ==> Same(s, k, k)
  {
  }

  /** What white space and comments end with. */
  predicate EndsBlank(s: string, p: nat) {
    0 < p <= |s| && (s[p - 1] == ' ' || s[p - 1] == '\n' || s[p - 1] == '\r' || s[p - 1] == '\t' || s[p - 1] == '/')
  }

  lemma {:induction false} WhitespaceEndsBlank(s: string, p: nat)
    requires p <= |s|
    ensures var q := SkipWhitespace(s, p); q == p || EndsBlank(s, q)
    decreases |s| - p
  {
    if SkipWhitespace(s, p) != p {
      WhitespaceEndsBlank(s, p + 1);
    }
  }

  lemma {:induction false} BlockEndsBlank(s: string, p: nat)
    requires p <= |s|
    ensures var (q, closed) := SkipBlock(s, p); closed ==> EndsBlank(s, q)
    decreases |s| - p
  {
    if Peek(s, p) != '\0' && !(Peek(s, p) == '*' && Peek(s, p + 1) == '/') {
      BlockEndsBlank(s, p + 1);
    }
  }

  lemma {:induction false} LineEndsBlank(s: string, p: nat)
    requires p <= |s|
    ensures var q := SkipLine(s, p); Peek(s, q) == '\0' || EndsBlank(s, q)
    decreases |s| - p
  {
    if Peek(s, p) != '\0' && Peek(s, p) != '\n' {
      LineEndsBlank(s, p + 1);
    }
  }

  lemma {:induction false} CommentsEndBlank(s: string, p: nat)
    requires p <= |s|
    ensures var r := SkipComments(s, p); r.Token? ==> r.pos == p || Peek(s, r.pos) == '\0' || EndsBlank(s, r.pos)
    decreases |s| - p
  {
    if Peek(s, p) == '/' && Peek(s, p + 1) == '*' {
      var (q, closed) := SkipBlock(s, p + 2);
      BlockEndsBlank(s, p + 2);
      if closed {
        WhitespaceEndsBlank(s, q);
        CommentsEndBlank(s, SkipWhitespace(s, q));
      }
    } else if Peek(s, p) == '/' && Peek(s, p + 1) == '/' {
      var q := SkipLine(s, p + 2);
      LineEndsBlank(s, p + 2);
      WhitespaceEndsBlank(s, q);
      CommentsEndBlank(s, SkipWhitespace(s, q));
    }
  }

  /** Behind a comma there is no bracket in front of the bracket that the handler rejects. */
  lemma TrailingSame(c: Config, s: string, p: nat, log: seq<Event>, e: Event)
    requires p < |s| && s[p] == ',' && (e.EndObject? || e.EndArray?)
    ensures var w := Skip(c, s, p + 1);
            w.Token? && Peek(s, w.pos) != '\0' ==> !BehindItsBracket(s, w.pos, log + [e])
  {
    var q := SkipWhitespace(s, p + 1);
    WhitespaceEndsBlank(s, p + 1);
    if c.comments {
      CommentsEndBlank(s, q);
    }
  }

  // ----- The simulation

  lemma {:induction false} ValueSame(c: Config, s: string, src: State, stack: seq<Frame>, p: nat, log: seq<Event>)
    requires Good(c) && p <= |s| && StackOk(src, stack) && ExpectsValue(src)
    requires src.Start? ==> Peek(s, p) !in "\0]},:"
    requires src.ArrayInitial? || src.ElementDelimiter? ==> Peek(s, p) != ']'
    ensures StackOk(AfterValue(src), stack)
    ensures Follows(Run(c, s, src, stack, p, log), c, s, ParseValue(c, s, p, log), AfterValue(src), stack)
    decreases |s| - p, 3
  {
    hide Run, Transit, Continue, Skip, ParseScalar, ParseMembers, ParseElements, Scans;
    if Peek(s, p) == '{' || Peek(s, p) == '[' {
      OpenStep(c, s, src, stack, p, log);
      ContainerSame(c, s, if src.Start? then Start else AfterValue(src), stack, p, log);
    } else if Peek(s, p) in "\0]},:" {
      RejectStep(c, s, src, stack, p, log);
      NotScalar(c, s, p, log);
    } else {
      ScalarStep(c, s, src, stack, p, log);
      ScalarSame(c, s, p, log);
    }
  }

  lemma NotScalar(c: Config, s: string, p: nat, log: seq<Event>)
    requires Peek(s, p) in "\0]},:"
    ensures ParseScalar(c, s, p, log) == Err(ValueInvalid, p, log)
  {
  }

  lemma {:induction false} ContainerSame(c: Config, s: string, ret: State, stack: seq<Frame>, p: nat, log: seq<Event>)
    requires Good(c) && p < |s| && (Peek(s, p) == '{' || Peek(s, p) == '[')
    requires StackOk(if Peek(s, p) == '{' then ObjectInitial else ArrayInitial, stack + [Frame(ret, 0)])
    ensures StackOk(Returned(ret), stack)
    ensures var obj := Peek(s, p) == '{';
            var e := Emit(c, p + 1, log, if obj then StartObject else StartArray);
            var dst, stk := if obj then ObjectInitial else ArrayInitial, stack + [Frame(ret, 0)];
            e.Ok? ==> Follows(Continue(c, s, dst, stk, p + 1, e.log), c, s, ParseValue(c, s, p, log), Returned(ret), stack)
    decreases |s| - p, 2
  {
    hide Run, Transit, Skip, ParseScalar, ParseMembers, ParseElements, Scans;
    var obj, frame := Peek(s, p) == '{', Frame(ret, 0);
    var dst := if obj then ObjectInitial else ArrayInitial;
    PoppedOk(dst, stack, frame);
    var log1 := log + [if obj then StartObject else StartArray];
    var w := Skip(c, s, p + 1);
    if w.Token? {
      if Peek(s, w.pos) == (if obj then '}' else ']') {
        CloseStep(c, s, dst, stack, frame, w.pos, log1);
      } else if obj {
        MembersSame(c, s, dst, stack, frame, w.pos, log1);
      } else {
        ElementsSame(c, s, dst, stack, frame, w.pos, log1);
      }
    }
  }

  lemma {:induction false} MembersSame(c: Config, s: string, src: State, stack: seq<Frame>, frame: Frame, p: nat, log: seq<Event>)
    requires Good(c) && p <= |s| && StackOk(src, stack + [frame])
    requires src.ObjectInitial? || src.MemberDelimiter?
    requires Peek(s, p) == '}' ==> src.MemberDelimiter? && !c.trailingCommas
    ensures StackOk(Returned(frame.ret), stack)
    ensures Follows(Run(c, s, src, stack + [frame], p, log), c, s,
                    ParseMembers(c, s, p, log, frame.count), Returned(frame.ret), stack)
    decreases |s| - p, 1
  {
    hide Run, Transit, Continue, Skip, ParseString, ParseValue, AfterMember, Scans;
    PoppedOk(src, stack, frame);
    var stk := stack + [frame];
    if Peek(s, p) == '}' {
      TrailingStep(c, s, src, stk, p, log);
    } else if Peek(s, p) != '"' {
      RejectStep(c, s, src, stk, p, log);
    } else {
      KeyStep(c, s, src, stk, p, log);
      StringEnd(c, s, p, log, true);
      ScalarSame(c, s, p, log);
      var k := ParseString(c, s, p, log, true);
      if k.Ok? {
        SkipStep(c, s, MemberKey, stk, k.pos, k.log);
        var w := Skip(c, s, k.pos);
        if w.Token? {
          NameSame(c, s, stack, frame, w.pos, k.log);
        }
      }
    }
  }

  /** Behind a name: the colon, the value and what follows it. */
  lemma {:induction false} NameSame(c: Config, s: string, stack: seq<Frame>, frame: Frame, p: nat, log: seq<Event>)
    requires Good(c) && p <= |s| && StackOk(MemberKey, stack + [frame])
    ensures StackOk(Returned(frame.ret), stack)
    ensures Follows(Run(c, s, MemberKey, stack + [frame], p, log), c, s,
                    ParseMember(c, s, p, log, frame.count), Returned(frame.ret), stack)
    decreases |s| - p, 4
  {
    hide Run, Transit, Continue, Skip, ParseValue, AfterMember, Scans;
    PoppedOk(MemberKey, stack, frame);
    var stk := stack + [frame];
    if Peek(s, p) != ':' {
      RejectStep(c, s, MemberKey, stk, p, log);
    } else {
      ColonStep(c, s, stk, p, log);
      SkipStep(c, s, KeyValueDelimiter, stk, p + 1, log);
      var w := Skip(c, s, p + 1);
      if w.Token? {
        ValueSame(c, s, KeyValueDelimiter, stk, w.pos, log);
        var v := ParseValue(c, s, w.pos, log);
        if v.Ok? {
          SkipStep(c, s, MemberValue, stk, v.pos, v.log);
          if Skip(c, s, v.pos).Token? {
            AfterMemberSame(c, s, stack, frame, Skip(c, s, v.pos).pos, v.log);
          }
        }
      }
    }
  }

  lemma {:induction false} AfterMemberSame(c: Config, s: string, stack: seq<Frame>, frame: Frame, p: nat, log: seq<Event>)
    requires Good(c) && p <= |s| && StackOk(MemberValue, stack + [frame])
    ensures StackOk(Returned(frame.ret), stack)
    ensures Follows(Run(c, s, MemberValue, stack + [frame], p, log), c, s,
                    AfterMember(c, s, p, log, frame.count + 1), Returned(frame.ret), stack)
    decreases |s| - p, 0
  {
    hide Run, Transit, Continue, Skip, ParseMembers, Scans;
    PoppedOk(MemberValue, stack, frame);
    if Peek(s, p) == '}' {
      CloseStep(c, s, MemberValue, stack, frame, p, log);
    } else if Peek(s, p) == ',' {
      var next := Frame(frame.ret, frame.count + 1);
      CommaStep(c, s, MemberValue, stack, frame, p, log);
      SkipStep(c, s, MemberDelimiter, stack + [next], p + 1, log);
      var w := Skip(c, s, p + 1);
      if w.Token? {
        if c.trailingCommas && Peek(s, w.pos) == '}' {
          CloseStep(c, s, MemberDelimiter, stack, next, w.pos, log);
          TrailingSame(c, s, p, log, EndObject(next.count));
        } else {
          MembersSame(c, s, MemberDelimiter, stack, next, w.pos, log);
        }
      }
    } else {
      RejectStep(c, s, MemberValue, stack + [frame], p, log);
    }
  }

  lemma {:induction false} ElementsSame(c: Config, s: string, src: State, stack: seq<Frame>, frame: Frame, p: nat, log: seq<Event>)
    requires Good(c) && p <= |s| && StackOk(src, stack + [frame])
    requires src.ArrayInitial? || src.ElementDelimiter?
    requires Peek(s, p) == ']' ==> src.ElementDelimiter? && !c.trailingCommas
    ensures StackOk(Returned(frame.ret), stack)
    ensures Follows(Run(c, s, src, stack + [frame], p, log), c, s,
                    ParseElements(c, s, p, log, frame.count), Returned(frame.ret), stack)
    decreases |s| - p, 4
  {
    hide Run, Transit, Continue, Skip, AfterElement, ParseScalar, Scans;
    PoppedOk(src, stack, frame);
    var stk := stack + [frame];
    if Peek(s, p) == ']' {
      TrailingStep(c, s, src, stk, p, log);
      NotScalar(c, s, p, log);
    } else {
      ValueSame(c, s, src, stk, p, log);
      var v := ParseValue(c, s, p, log);
      if v.Ok? {
        SkipStep(c, s, Element, stk, v.pos, v.log);
        if Skip(c, s, v.pos).Token? {
          AfterElementSame(c, s, stack, frame, Skip(c, s, v.pos).pos, v.log);
        }
      }
    }
  }

  lemma {:induction false} AfterElementSame(c: Config, s: string, stack: seq<Frame>, frame: Frame, p: nat, log: seq<Event>)
    requires Good(c) && p <= |s| && StackOk(Element, stack + [frame])
    ensures StackOk(Returned(frame.ret), stack)
    ensures Follows(Run(c, s, Element, stack + [frame], p, log), c, s,
                    AfterElement(c, s, p, log, frame.count + 1), Returned(frame.ret), stack)
    decreases |s| - p, 0
  {
    hide Run, Transit, Continue, Skip, ParseElements, Scans;
    PoppedOk(Element, stack, frame);
    if Peek(s, p) == ']' {
      CloseStep(c, s, Element, stack, frame, p, log);
    } else if Peek(s, p) == ',' {
      var next := Frame(frame.ret, frame.count + 1);
      CommaStep(c, s, Element, stack, frame, p, log);
      SkipStep(c, s, ElementDelimiter, stack + [next], p + 1, log);
      var w := Skip(c, s, p + 1);
      if w.Token? {
        if c.trailingCommas && Peek(s, w.pos) == ']' {
          CloseStep(c, s, ElementDelimiter, stack, next, w.pos, log);
          TrailingSame(c, s, p, log, EndArray(next.count));
        } else {
          ElementsSame(c, s, ElementDelimiter, stack, next, w.pos, log);
        }
      }
    } else {
      RejectStep(c, s, Element, stack + [frame], p, log);
    }
  }

  /** The main theorem: on every text, with every combination of flags and every handler, the
      two parsers agree; except that a text whose first token cannot begin a value is reported
      as empty by the iterative parser and as an invalid value by the recursive one, and that a
      bracket which the handler rejects is reported one earlier, if it does not follow a
      trailing comma. */
  lemma ParsersAgree(c: Config, s: string)
    requires Good(c)
    ensures Parse(c, s).Ok? <==> IterativeParse(c, s).Ok?
    ensures Parse(c, s).log == IterativeParse(c, s).log
    ensures var first := Skip(c, s, 0);
            if first.Token? && Peek(s, first.pos) in "]},:" then
              Parse(c, s) == Err(ValueInvalid, first.pos, [])
              && IterativeParse(c, s) == Err(DocumentEmpty, first.pos, [])
            else Same(s, IterativeParse(c, s), Parse(c, s))
  {
    hide Run, Transit, Skip, ParseScalar, ParseObject, ParseArray, Scans;
    var first := Skip(c, s, 0);
    if first.Token? {
      var p := first.pos;
      if Peek(s, p) in "\0]},:" {
        RejectStep(c, s, Start, [], p, []);
        NotScalar(c, s, p, []);
      } else {
        ValueSame(c, s, Start, [], p, []);
        var v := ParseValue(c, s, p, []);
        if v.Ok? && Skip(c, s, v.pos).Token? {
          RootStep(c, s, Skip(c, s, v.pos).pos, v.log);
        }
      }
    }
  }

  /** Takes a number of events. */
  function Taking(events: nat, trailingCommas: bool): Config {
    Config.Config(false, trailingCommas, false, (log: seq<Event>) => |log| <= events,
                  (s: string, p: nat) => Bad(ValueInvalid, p), (s: string, p: nat) => Bad(ValueInvalid, p))
  }

  /** A handler that rejects the end of an empty array: the offsets differ. */
  lemma BracketIsReportedEarlier()
    ensures var c, log := Taking(1, false), [StartArray, EndArray(0)];
            && Good(c)
            && Parse(c, "[]") == Err(Termination, 2, log)
            && IterativeParse(c, "[]") == Err(Termination, 1, log)
  {
    var c, s := Taking(1, false), "[]";
    assert Skip(c, s, 0) == Token(0, ()) && Skip(c, s, 1) == Token(1, ());
    assert ParseValue(c, s, 0, []) == Err(Termination, 2, [StartArray, EndArray(0)]);
    hide Run, Transit, Continue, Skip, ParseValue;
    OpenStep(c, s, Start, [], 0, []);
    var stack := [Frame(Start, 0)];
    assert [] + stack == stack && [] + [StartArray] == [StartArray];
    SkipStep(c, s, ArrayInitial, stack, 1, [StartArray]);
    CloseStep(c, s, ArrayInitial, [], Frame(Start, 0), 1, [StartArray]);
    assert [StartArray] + [EndArray(0)] == [StartArray, EndArray(0)];
  }

  /** A handler that rejects the end of an array behind a trailing comma: the offsets are the
      same. */
  lemma TrailingBracketIsReportedAlike()
    ensures var c, log := Taking(3, true), [StartArray, StartArray, EndArray(0), EndArray(1)];
            && Good(c)
            && Parse(c, "[[],]") == Err(Termination, 4, log)
            && IterativeParse(c, "[[],]") == Err(Termination, 4, log)
  {
    var c, s := Taking(3, true), "[[],]";
    NothingToSkip();
    InnerArray();
    hide Skip;
    var three := [StartArray, StartArray, EndArray(0)];
    assert three + [EndArray(1)] == [StartArray, StartArray, EndArray(0), EndArray(1)];
    assert AfterElement(c, s, 3, three, 1) == Err(Termination, 4, three + [EndArray(1)]);
    hide AfterElement, ParseArray;
    assert ParseElements(c, s, 1, [StartArray], 0) == Err(Termination, 4, three + [EndArray(1)]);
    OuterArray();
    ParsersAgree(c, s);
  }

  lemma NothingToSkip()
    ensures forall p: nat | p < 5 :: Skip(Taking(3, true), "[[],]", p) == Token(p, ())
  {
  }

  lemma InnerArray()
    ensures ParseArray(Taking(3, true), "[[],]", 1, [StartArray]) == Ok(3, [StartArray, StartArray, EndArray(0)])
  {
    NothingToSkip();
    hide Skip;
    assert [StartArray] + [StartArray] + [EndArray(0)] == [StartArray, StartArray, EndArray(0)];
  }

  lemma OuterArray()
    ensures var c, s := Taking(3, true), "[[],]";
            var inner := ParseElements(c, s, 1, [StartArray], 0);
            inner.Err? ==> Parse(c, s) == inner
  {
    NothingToSkip();
    hide Skip, ParseElements;
    assert [] + [StartArray] == [StartArray];
  }

  lemma RootStep(c: Config, s: string, p: nat, log: seq<Event>)
    requires Good(c) && p <= |s|
    ensures Run(c, s, Finish, [], p, log)
            == if Peek(s, p) == '\0' then Ok(p, log) else Err(DocumentRootNotSingular, p, log)
  {
  }
}
