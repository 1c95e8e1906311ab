/** The reader object: a cursor on the text, the parse result, the stack, and both parsers as
    they run. Each method is proved to compute what the function of the same purpose in
    JsonGrammar or JsonAutomaton says. */
module JsonReader {
  import G = JsonGrammar
  import A = JsonAutomaton

  datatype ParseError = NoError | ParseError(code: G.ErrorCode, at: nat)

  class Reader {
    const config: G.Config
    const text: string
    var pos: nat
    var parseError: ParseError
    var stack: seq<A.Frame>
    /** The events sent to the handler, the newest last. */
    var events: seq<G.Event>

    constructor (config: G.Config, text: string)
      ensures this.config == config && this.text == text
      ensures pos == 0 && events == [] && parseError == NoError && stack == []
    {
      this.config, this.text := config, text;
      pos, events, parseError, stack := 0, [], NoError, [];
    }

    ghost predicate Ready()
      reads `pos, `parseError
    {
      G.Good(config) && pos <= |text| && parseError == NoError
    }

    /** The reader's state as the result of a parse. */
    ghost function Outcome(): G.Result
      reads `pos, `parseError, `events
    {
      match parseError
      case NoError => G.Ok(pos, events)
      case ParseError(code, at) => G.Err(code, at, events)
    }

    // ----- The cursor

    function Peek(): char
      reads `pos
    {
      G.Peek(text, pos)
    }

    method Consume(wanted: char) returns (found: bool)
      requires wanted != '\0' && pos <= |text|
      modifies `pos
      ensures found == (G.Peek(text, old(pos)) == wanted)
      ensures pos == (if found then old(pos) + 1 else old(pos)) <= |text|
    {
      found := Peek() == wanted;
      if found {
        pos := pos + 1;
      }
    }

    method SetError(code: G.ErrorCode, at: nat)
      modifies `parseError
      ensures parseError == ParseError(code, at)
    {
      parseError := ParseError(code, at);
    }

    method SkipWhitespace()
      requires pos <= |text|
      modifies `pos
      ensures pos == G.SkipWhitespace(text, old(pos)) <= |text|
    {
      while pos < |text| && (text[pos] == ' ' || text[pos] == '\n' || text[pos] == '\r' || text[pos] == '\t')
        invariant pos <= |text| && G.SkipWhitespace(text, pos) == G.SkipWhitespace(text, old(pos))
      {
        pos := pos + 1;
      }
    }

    /** The rest of a block comment, behind the opening. */
    method SkipBlockComment() returns (closed: bool)
      requires pos <= |text|
      modifies `pos
      ensures (pos, closed) == G.SkipBlock(text, old(pos)) && pos <= |text|
    {
      while true
        invariant pos <= |text| && G.SkipBlock(text, pos) == G.SkipBlock(text, old(pos))
        decreases |text| - pos
      {
        if Peek() == '\0' {
          return false;
        }
        var star := Consume('*');
        if star {
          var slash := Consume('/');
          if slash {
            return true;
          }
        } else {
          pos := pos + 1;
        }
      }
    }

    method SkipLineComment()
      requires pos <= |text|
      modifies `pos
      ensures pos == G.SkipLine(text, old(pos)) <= |text|
    {
      while Peek() != '\0'
        invariant pos <= |text| && G.SkipLine(text, pos) == G.SkipLine(text, old(pos))
        decreases |text| - pos
      {
        pos := pos + 1;
        if text[pos - 1] == '\n' {
          return;
        }
      }
    }

    /** One comment, behind its first slash. */
    method SkipComment()
      requires Ready() && pos > 0 && text[pos - 1] == '/'
      modifies `pos, `parseError
      ensures var r := G.SkipComments(text, old(pos) - 1);
              if parseError == NoError then old(pos) < pos <= |text| && r == G.SkipComments(text, G.SkipWhitespace(text, pos))
              else r.Bad? && parseError == ParseError(r.code, r.at)
    {
      var star := Consume('*');
      if star {
        var closed := SkipBlockComment();
        if !closed {
          SetError(G.UnspecificSyntaxError, pos);
        }
      } else {
        var second := Consume('/');
        if second {
          SkipLineComment();
        } else {
          SetError(G.UnspecificSyntaxError, pos);
        }
      }
    }

    method SkipWhitespaceAndComments()
      requires Ready()
      modifies `pos, `parseError
      ensures match G.Skip(config, text, old(pos))
              case Token(q, _) => Ready() && pos == q
              case Bad(code, at) => parseError == ParseError(code, at)
    {
      SkipWhitespace();
      if config.comments {
        ghost var from := pos;
        var slash := Consume('/');
        while slash
          invariant pos <= |text| && parseError == NoError
          invariant if slash then 0 < pos && text[pos - 1] == '/' && G.SkipComments(text, pos - 1) == G.SkipComments(text, from)
                    else G.Peek(text, pos) != '/' && G.SkipComments(text, pos) == G.SkipComments(text, from)
          decreases |text| - pos + if slash then 1 else 0
        {
          SkipComment();
          if parseError != NoError { return; }
          SkipWhitespace();
          slash := Consume('/');
        }
      }
    }

    // ----- Values without structure

    /** Sends an event to the handler; an error is raised at the cursor if it is rejected. */
    method Send(e: G.Event)
      requires Ready()
      modifies `parseError, `events
      ensures Outcome() == G.Emit(config, pos, old(events), e)
    {
      events := events + [e];
      if !config.handler(events) {
        SetError(G.Termination, pos);
      }
    }

    method ParseLiteral(word: string, e: G.Event)
      requires Ready() && '\0' !in word
      modifies `pos, `parseError, `events
      ensures Outcome() == G.ParseLiteral(config, text, old(pos), old(events), word, e)
    {
      var i := 0;
      while i < |word|
        invariant i <= |word| && pos == old(pos) + i <= |text| && Ready() && events == old(events)
        invariant G.Matching(text, old(pos), word) == i + G.Matching(text, pos, word[i..])
      {
        assert word[i..][1..] == word[i + 1..];
        var found := Consume(word[i]);
        if !found {
          SetError(G.ValueInvalid, pos);
          return;
        }
        i := i + 1;
      }
      Send(e);
    }

    method ParseString(isKey: bool)
      requires Ready()
      modifies `pos, `parseError, `events
      ensures Outcome() == G.ParseString(config, text, old(pos), old(events), isKey)
      ensures parseError == NoError ==> old(pos) < pos <= |text|
    {
      var t := config.strings(text, pos);
      match t
      case Token(q, str) =>
        pos := q;
        Send(if isKey then G.Key(str) else G.Str(str));
      case Bad(code, at) => SetError(code, at);
    }

    method ParseNumber()
      requires Ready()
      modifies `pos, `parseError, `events
      ensures Outcome() == G.ParseNumber(config, text, old(pos), old(events))
    {
      if G.StartsNumber(Peek()) {
        var t := config.numbers(text, pos);
        match t
        case Token(q, n) =>
          var startOffset := pos;
          pos := q;
          events := events + [G.Num(n)];
          if !config.handler(events) {
            SetError(G.Termination, startOffset);
          }
        case Bad(code, at) => SetError(code, at);
      } else {
        SetError(G.ValueInvalid, pos);
      }
    }

    // ----- Recursive descent

    method ParseValue()
      requires Ready()
      modifies `pos, `parseError, `events
      ensures Outcome() == G.ParseValue(config, text, old(pos), old(events))
      decreases |text| - pos, 3
    {
      match Peek()
      case 'n' => ParseLiteral("null", G.Null);
      case 't' => ParseLiteral("true", G.Bool(true));
      case 'f' => ParseLiteral("false", G.Bool(false));
      case '"' => ParseString(false);
      case '{' => ParseObject();
      case '[' => ParseArray();
      case _ => ParseNumber();
    }

    method ParseObject()
      requires Ready() && G.Peek(text, pos) == '{'
      modifies `pos, `parseError, `events
      ensures Outcome() == G.ParseObject(config, text, old(pos), old(events))
      decreases |text| - pos, 2
    {
      hide G.Skip, G.ParseString, G.ParseValue, G.ParseMember, G.Scans;
      ghost var result := G.ParseObject(config, text, pos, events);
      pos := pos + 1;
      Send(G.StartObject);
      if parseError != NoError { return; }
      SkipWhitespaceAndComments();
      if parseError != NoError { return; }
      var empty := Consume('}');
      if empty {
        Send(G.EndObject(0));
        return;
      }
      var memberCount := 0;
      while true
        invariant Ready() && old(pos) < pos
        invariant G.ParseMembers(config, text, pos, events, memberCount) == result
        decreases |text| - pos
      {
        if Peek() != '"' {
          SetError(G.ObjectMissName, pos);
          return;
        }
        ParseString(true);
        if parseError != NoError { return; }
        SkipWhitespaceAndComments();
        if parseError != NoError { return; }
        assert G.ParseMember(config, text, pos, events, memberCount) == result;
        ParseAfterName(memberCount);
        if parseError != NoError { return; }
        memberCount := memberCount + 1;
        assert G.AfterMember(config, text, pos, events, memberCount) == result;
        match Peek() {
          case ',' =>
            pos := pos + 1;
            SkipWhitespaceAndComments();
            if parseError != NoError { return; }
          case '}' =>
            pos := pos + 1;
            Send(G.EndObject(memberCount));
            return;
          case _ =>
            SetError(G.ObjectMissCommaOrCurlyBracket, pos);
            return;
        }
        if config.trailingCommas && Peek() == '}' {
          Send(G.EndObject(memberCount));
          if parseError != NoError { return; }
          pos := pos + 1;
          return;
        }
      }
    }

    /** The part of the member loop behind a name: colon, value and white space. */
    method ParseAfterName(ghost memberCount: nat)
      requires Ready()
      modifies `pos, `parseError, `events
      ensures parseError != NoError ==> Outcome() == G.ParseMember(config, text, old(pos), old(events), memberCount)
      ensures parseError == NoError ==>
                Ready() && old(pos) < pos
                && G.AfterMember(config, text, pos, events, memberCount + 1)
                   == G.ParseMember(config, text, old(pos), old(events), memberCount)
      decreases |text| - pos, 4
    {
      hide G.Skip, G.ParseValue, G.AfterMember, G.Scans;
      var colon := Consume(':');
      if !colon {
        SetError(G.ObjectMissColon, pos);
        return;
      }
      SkipWhitespaceAndComments();
      if parseError != NoError { return; }
      ParseValue();
      if parseError != NoError { return; }
      SkipWhitespaceAndComments();
    }

    method ParseArray()
      requires Ready() && G.Peek(text, pos) == '['
      modifies `pos, `parseError, `events
      ensures Outcome() == G.ParseArray(config, text, old(pos), old(events))
      decreases |text| - pos, 2
    {
      hide G.Skip, G.ParseValue, G.Scans;
      ghost var result := G.ParseArray(config, text, pos, events);
      pos := pos + 1;
      Send(G.StartArray);
      if parseError != NoError { return; }
      SkipWhitespaceAndComments();
      if parseError != NoError { return; }
      var empty := Consume(']');
      if empty {
        Send(G.EndArray(0));
        return;
      }
      var elementCount := 0;
      while true
        invariant Ready() && old(pos) < pos
        invariant G.ParseElements(config, text, pos, events, elementCount) == result
        decreases |text| - pos
      {
        ParseValue();
        if parseError != NoError { return; }
        elementCount := elementCount + 1;
        SkipWhitespaceAndComments();
        if parseError != NoError { return; }
        var comma := Consume(',');
        if comma {
          SkipWhitespaceAndComments();
          if parseError != NoError { return; }
        } else {
          var close := Consume(']');
          if close {
            Send(G.EndArray(elementCount));
          } else {
            SetError(G.ArrayMissCommaOrSquareBracket, pos);
          }
          return;
        }
        if config.trailingCommas && Peek() == ']' {
          Send(G.EndArray(elementCount));
          if parseError != NoError { return; }
          pos := pos + 1;
          return;
        }
      }
    }

    method Parse()
      requires Ready() && pos == 0 && events == []
      modifies `pos, `parseError, `events
      ensures Outcome() == G.Parse(config, text)
    {
      SkipWhitespaceAndComments();
      if parseError != NoError { return; }
      if Peek() == '\0' {
        SetError(G.DocumentEmpty, pos);
        return;
      }
      ParseValue();
      if parseError != NoError { return; }
      if !config.stopWhenDone {
        SkipWhitespaceAndComments();
        if parseError != NoError { return; }
        if Peek() != '\0' {
          SetError(G.DocumentRootNotSingular, pos);
        }
      }
    }

    // ----- The automaton

    /** `HandleError` keeps an error that has already been set. */
    method HandleError(src: A.State)
      modifies `parseError
      ensures parseError == if old(parseError) != NoError then old(parseError) else ParseError(A.StateError(src), pos)
    {
      if parseError == NoError {
        SetError(A.StateError(src), pos);
      }
    }

    /** `Transit`: acts on the predicted state; returns the error state if that fails. */
    method Transit(src: A.State, predicted: A.State) returns (d: A.State)
      requires Ready() && G.Peek(text, pos) != '\0' && A.StackOk(src, stack)
      requires predicted == A.Predict(src, A.Tokenize(G.Peek(text, pos)))
      modifies `pos, `parseError, `events, `stack
      ensures match A.Transit(config, text, src, old(stack), old(pos), old(events))
              case Moved(state, stk, q, log) => Ready() && (d, stack, pos, events) == (state, stk, q, log)
              case Failed(code, at, log) =>
                d == A.Error && events == log
                && (parseError == ParseError(code, at)
                    || (parseError == NoError && code == A.StateError(src) && at == pos))
    {
      hide G.ParseScalar, G.ParseString, G.Scans, A.Open, A.Close;
      if predicted == A.Error {
        d := A.Error;
      } else if predicted == A.ObjectInitial || predicted == A.ArrayInitial {
        d := Open(src, predicted);
      } else if predicted == A.MemberKey {
        ParseString(true);
        d := if parseError != NoError then A.Error else predicted;
      } else if predicted == A.KeyValueDelimiter {
        pos := pos + 1;
        d := predicted;
      } else if predicted == A.MemberDelimiter || predicted == A.ElementDelimiter {
        pos := pos + 1;
        var top := stack[|stack| - 1];
        stack := stack[|stack| - 1 := top.(count := top.count + 1)];
        d := predicted;
      } else if predicted == A.ObjectFinish || predicted == A.ArrayFinish {
        d := Close(src, predicted == A.ObjectFinish);
      } else {
        d := TakeScalar(if predicted == A.SingleValue then A.Finish else predicted);
      }
    }

    method TakeScalar(dst: A.State) returns (d: A.State)
      requires Ready() && G.Peek(text, pos) != '{' && G.Peek(text, pos) != '['
      modifies `pos, `parseError, `events
      ensures match G.ParseScalar(config, text, old(pos), old(events))
              case Ok(q, log) => Ready() && (d, pos, events) == (dst, q, log)
              case Err(code, at, log) => d == A.Error && events == log && parseError == ParseError(code, at)
    {
      hide G.ParseScalar, G.Scans;
      ParseValue();
      d := if parseError != NoError then A.Error else dst;
    }

    method Open(src: A.State, dst: A.State) returns (d: A.State)
      requires Ready() && pos < |text| && (dst == A.ObjectInitial || dst == A.ArrayInitial)
      modifies `pos, `parseError, `events, `stack
      ensures match A.Open(config, src, old(stack), old(pos), old(events), dst, if dst == A.ObjectInitial then G.StartObject else G.StartArray)
              case Moved(state, stk, q, log) => Ready() && (d, stack, pos, events) == (state, stk, q, log)
              case Failed(code, at, log) => d == A.Error && events == log && parseError == ParseError(code, at)
    {
      var n := src;
      if src == A.ArrayInitial || src == A.ElementDelimiter {
        n := A.Element;
      } else if src == A.KeyValueDelimiter {
        n := A.MemberValue;
      }
      stack := stack + [A.Frame(n, 0)];
      Send(if dst == A.ObjectInitial then G.StartObject else G.StartArray);
      if parseError != NoError {
        return A.Error;
      }
      pos := pos + 1;
      d := dst;
    }

    method Close(src: A.State, isObject: bool) returns (d: A.State)
      requires Ready() && pos < |text| && stack != []
      modifies `pos, `parseError, `events, `stack
      ensures if !config.trailingCommas && src == (if isObject then A.MemberDelimiter else A.ElementDelimiter) then
                d == A.Error && events == old(events)
                && parseError == ParseError(if isObject then G.ObjectMissName else G.ValueInvalid, old(pos))
              else
                match A.Close(config, old(stack), old(pos), old(events), isObject,
                              if src == (if isObject then A.MemberValue else A.Element) then 1 else 0)
                case Moved(state, stk, q, log) => Ready() && (d, stack, pos, events) == (state, stk, q, log)
                case Failed(code, at, log) => d == A.Error && events == log && parseError == ParseError(code, at)
    {
      if !config.trailingCommas && src == (if isObject then A.MemberDelimiter else A.ElementDelimiter) {
        SetError(if isObject then G.ObjectMissName else G.ValueInvalid, pos);
        return A.Error;
      }
      var c := stack[|stack| - 1].count;
      if src == (if isObject then A.MemberValue else A.Element) {
        c := c + 1;
      }
      var n := stack[|stack| - 1].ret;
      stack := stack[..|stack| - 1];
      if n == A.Start {
        n := A.Finish;
      }
      Send(if isObject then G.EndObject(c) else G.EndArray(c));
      if parseError != NoError {
        return A.Error;
      }
      pos := pos + 1;
      d := n;
    }

    method IterativeParse()
      requires Ready() && pos == 0 && events == [] && stack == []
      modifies `pos, `parseError, `events, `stack
      ensures Outcome() == A.IterativeParse(config, text)
    {
      var state := A.Start;
      SkipWhitespaceAndComments();
      if parseError != NoError { return; }
      while Peek() != '\0'
        invariant Ready() && A.StackOk(state, stack)
        invariant A.Run(config, text, state, stack, pos, events) == A.IterativeParse(config, text)
        decreases |text| - pos
      {
        var n := A.Predict(state, A.Tokenize(Peek()));
        var d := Transit(state, n);
        if d == A.Error {
          HandleError(state);
          return;
        }
        state := d;
        if config.stopWhenDone && state == A.Finish {
          return;
        }
        SkipWhitespaceAndComments();
        if parseError != NoError { return; }
      }
      if state != A.Finish {
        HandleError(state);
      }
    }
  }

  /** Both parsers on the same text leave the same events, and succeed together. */
  method ParseBothWays(config: G.Config, text: string) returns (recursive: Reader, iterative: Reader)
    requires G.Good(config)
    ensures recursive.events == iterative.events
    ensures recursive.parseError == NoError <==> iterative.parseError == NoError
  {
    recursive := new Reader(config, text);
    recursive.Parse();
    iterative := new Reader(config, text);
    iterative.IterativeParse();
    A.ParsersAgree(config, text);
  }
}
