/** JSON text as both parsers read it, and the recursive-descent parser as functions.

    A parser threads a position and the list of handler events so far. The handler is a
    function of all events sent to it, the newest last; it may reject an event, which ends the
    parse. The scanners for strings and numbers are parameters: both parsers share them. */
module JsonGrammar {
  datatype ErrorCode =
    | DocumentEmpty
    | DocumentRootNotSingular
    | ValueInvalid
    | ObjectMissName
    | ObjectMissColon
    | ObjectMissCommaOrCurlyBracket
    | ArrayMissCommaOrSquareBracket
    | Termination
    | UnspecificSyntaxError
    | Lexical(n: nat)

  /** Which handler function reports an integer. */
  datatype IntegerKind = Int | Uint | Int64 | Uint64

  /** A double is only known by its bits. */
  datatype Number = Integer(kind: IntegerKind, value: int) | Double(bits: nat)

  datatype Event =
    | Null
    | Bool(b: bool)
    | Num(n: Number)
    | Str(str: string)
    | Key(name: string)
    | StartObject
    | EndObject(memberCount: nat)
    | StartArray
    | EndArray(elementCount: nat)

  type Handler = seq<Event> -> bool

  datatype Lex<T> = Token(pos: nat, value: T) | Bad(code: ErrorCode, at: nat)

  /** `numbers` is only called on a minus sign or a digit, `strings` only on a quote. */
  datatype Config = Config(
    comments: bool,
    trailingCommas: bool,
    stopWhenDone: bool,
    handler: Handler,
    strings: (string, nat) -> Lex<string>,
    numbers: (string, nat) -> Lex<Number>)

  /** Scanners that succeed consume something, and nothing beyond the end; those that fail report
      an error of their own, or that there is no value. */
  ghost predicate Scans<T(!new)>(lex: (string, nat) -> Lex<T>) {
    forall s: string, p: nat :: if lex(s, p).Token? then p < lex(s, p).pos <= |s| else lex(s, p).code.Lexical? || lex(s, p).code.ValueInvalid?
  }

  ghost predicate Good(c: Config) {
    Scans(c.strings) && Scans(c.numbers)
  }

  datatype Result =
    | Ok(pos: nat, log: seq<Event>)
    | Err(code: ErrorCode, at: nat, log: seq<Event>)

  /** The stream shows a zero at and behind the end of the text. */
  function Peek(s: string, p: nat): char {
    if p < |s| then s[p] else '\0'
  }

  // ----- White space and comments

  function SkipWhitespace(s: string, p: nat): (r: nat)
    ensures p <= r && (p <= |s| ==> r <= |s|)
    decreases |s| - p
  {
    if p < |s| && (s[p] == ' ' || s[p] == '\n' || s[p] == '\r' || s[p] == '\t') then SkipWhitespace(s, p + 1)
    else p
  }

  /** Behind the end of a block comment, or the position of the end of the text. */
  function SkipBlock(s: string, p: nat): (r: (nat, bool))
    ensures p <= r.0 && (p <= |s| ==> r.0 <= |s|)
    decreases |s| - p
  {
    if Peek(s, p) == '\0' then (p, false)
    else if Peek(s, p) == '*' && Peek(s, p + 1) == '/' then (p + 2, true)
    else SkipBlock(s, p + 1)
  }

  function SkipLine(s: string, p: nat): (r: nat)
    ensures p <= r && (p <= |s| ==> r <= |s|)
    decreases |s| - p
  {
    if Peek(s, p) == '\0' then p
    else if Peek(s, p) == '\n' then p + 1
    else SkipLine(s, p + 1)
  }

  function SkipComments(s: string, p: nat): (r: Lex<()>)
    requires p <= |s|
    ensures if r.Token? then p <= r.pos <= |s| else r.code == UnspecificSyntaxError
    decreases |s| - p
  {
    if Peek(s, p) != '/' then Token(p, ())
    else if Peek(s, p + 1) == '*' then
      var (q, closed) := SkipBlock(s, p + 2);
      if closed then SkipComments(s, SkipWhitespace(s, q)) else Bad(UnspecificSyntaxError, q)
    else if Peek(s, p + 1) == '/' then SkipComments(s, SkipWhitespace(s, SkipLine(s, p + 2)))
    else Bad(UnspecificSyntaxError, p + 1)
  }

  /** `SkipWhitespaceAndComments` */
  function Skip(c: Config, s: string, p: nat): (r: Lex<()>)
    requires p <= |s|
    ensures if r.Token? then p <= r.pos <= |s| else r.code == UnspecificSyntaxError
  {
    var q := SkipWhitespace(s, p);
    if c.comments then SkipComments(s, q) else Token(q, ())
  }

  predicate IsBlank(ch: char) {
    ch == ' ' || ch == '\n' || ch == '\r' || ch == '\t'
  }

  lemma {:induction false} WhitespaceIsSkipped(s: string, p: nat)
    ensures forall k | p <= k < SkipWhitespace(s, p) :: IsBlank(Peek(s, k))
    ensures !IsBlank(Peek(s, SkipWhitespace(s, p)))
    decreases |s| - p
  {
    if p < |s| && IsBlank(s[p]) {
      WhitespaceIsSkipped(s, p + 1);
    }
  }

  lemma {:induction false} CommentsAreSkipped(s: string, p: nat)
    requires p <= |s| && !IsBlank(Peek(s, p))
    ensures var r := SkipComments(s, p); r.Token? ==> Peek(s, r.pos) != '/' && !IsBlank(Peek(s, r.pos))
    decreases |s| - p
  {
    if Peek(s, p) == '/' && Peek(s, p + 1) == '*' {
      var (q, closed) := SkipBlock(s, p + 2);
      if closed {
        WhitespaceIsSkipped(s, q);
        CommentsAreSkipped(s, SkipWhitespace(s, q));
      }
    } else if Peek(s, p) == '/' && Peek(s, p + 1) == '/' {
      var q := SkipLine(s, p + 2);
      WhitespaceIsSkipped(s, q);
      CommentsAreSkipped(s, SkipWhitespace(s, q));
    }
  }

  /** Skipping leaves nothing to skip: it ends at a character that begins neither white space
      nor, where comments are allowed, a comment; without comments all before that is blank. */
  lemma SkipIsComplete(c: Config, s: string, p: nat)
    requires p <= |s|
    ensures var r := Skip(c, s, p);
            && (r.Token? ==> !IsBlank(Peek(s, r.pos)) && (c.comments ==> Peek(s, r.pos) != '/') && Skip(c, s, r.pos) == r)
            && (!c.comments ==> r.Token? && forall k | p <= k < r.pos :: IsBlank(Peek(s, k)))
  {
    WhitespaceIsSkipped(s, p);
    if c.comments {
      CommentsAreSkipped(s, SkipWhitespace(s, p));
    }
    var r := Skip(c, s, p);
    if r.Token? {
      assert SkipWhitespace(s, r.pos) == r.pos;
      assert r.value == ();
    }
  }

  // ----- Values without structure

  function Emit(c: Config, pos: nat, log: seq<Event>, e: Event): Result {
    if c.handler(log + [e]) then Ok(pos, log + [e]) else Err(Termination, pos, log + [e])
  }

  /** `ParseNull`, `ParseTrue` and `ParseFalse`: how many characters of the word match. */
  function Matching(s: string, p: nat, word: string): (n: nat)
    ensures n <= |word| && (p <= |s| && '\0' !in word ==> p + n <= |s|)
    decreases |word|
  {
    if word != [] && Peek(s, p) == word[0] then 1 + Matching(s, p + 1, word[1..]) else 0
  }

  function ParseLiteral(c: Config, s: string, p: nat, log: seq<Event>, word: string, e: Event): Result {
    var n := Matching(s, p, word);
    if n == |word| then Emit(c, p + n, log, e) else Err(ValueInvalid, p + n, log)
  }

  function ParseString(c: Config, s: string, p: nat, log: seq<Event>, isKey: bool): Result {
    match c.strings(s, p)
    case Token(q, str) => Emit(c, q, log, if isKey then Key(str) else Str(str))
    case Bad(code, at) => Err(code, at, log)
  }

  lemma StringEnd(c: Config, s: string, p: nat, log: seq<Event>, isKey: bool)
    requires Good(c)
    ensures var k := ParseString(c, s, p, log, isKey); k.Ok? ==> p < k.pos <= |s|
  {
  }

  predicate StartsNumber(ch: char) {
    ch == '-' || '0' <= ch <= '9'
  }

  /** A number that the handler rejects is reported where it starts. */
  function ParseNumber(c: Config, s: string, p: nat, log: seq<Event>): Result {
    if StartsNumber(Peek(s, p)) then
      match c.numbers(s, p)
      case Token(q, n) =>
        if c.handler(log + [Num(n)]) then Ok(q, log + [Num(n)]) else Err(Termination, p, log + [Num(n)])
      case Bad(code, at) => Err(code, at, log)
    else Err(ValueInvalid, p, log)
  }

  function ParseScalar(c: Config, s: string, p: nat, log: seq<Event>): (r: Result)
    ensures Good(c) && p <= |s| && r.Ok? ==> p < r.pos <= |s|
  {
    match Peek(s, p)
    case 'n' => ParseLiteral(c, s, p, log, "null", Null)
    case 't' => ParseLiteral(c, s, p, log, "true", Bool(true))
    case 'f' => ParseLiteral(c, s, p, log, "false", Bool(false))
    case '"' => ParseString(c, s, p, log, false)
    case _ => ParseNumber(c, s, p, log)
  }

  // ----- Recursive descent

  function ParseValue(c: Config, s: string, p: nat, log: seq<Event>): (r: Result)
    requires Good(c) && p <= |s|
    ensures r.Ok? ==> p < r.pos <= |s|
    decreases |s| - p, 3
  {
    match Peek(s, p)
    case '{' => ParseObject(c, s, p, log)
    case '[' => ParseArray(c, s, p, log)
    case _ => ParseScalar(c, s, p, log)
  }

  function ParseObject(c: Config, s: string, p: nat, log: seq<Event>): (r: Result)
    requires Good(c) && p <= |s| && Peek(s, p) == '{'
    ensures r.Ok? ==> p < r.pos <= |s|
    decreases |s| - p, 2
  {
    match Emit(c, p + 1, log, StartObject)
    case Err(code, at, log1) => Err(code, at, log1)
    case Ok(_, log1) =>
      match Skip(c, s, p + 1)
      case Bad(code, at) => Err(code, at, log1)
      case Token(q, _) =>
        if Peek(s, q) == '}' then Emit(c, q + 1, log1, EndObject(0))
        else ParseMembers(c, s, q, log1, 0)
  }

  /** The member loop: at a name, with `count` members behind it. */
  function ParseMembers(c: Config, s: string, p: nat, log: seq<Event>, count: nat): (r: Result)
    requires Good(c) && p <= |s|
    ensures r.Ok? ==> p < r.pos <= |s|
    decreases |s| - p, 1
  {
    if Peek(s, p) != '"' then Err(ObjectMissName, p, log)
    else
      match ParseString(c, s, p, log, true)
      case Err(code, at, log1) => Err(code, at, log1)
      case Ok(p1, log1) =>
        match Skip(c, s, p1)
        case Bad(code, at) => Err(code, at, log1)
        case Token(p2, _) => ParseMember(c, s, p2, log1, count)
  }

  /** The rest of a member behind its name. */
  function ParseMember(c: Config, s: string, p: nat, log: seq<Event>, count: nat): (r: Result)
    requires Good(c) && p <= |s|
    ensures r.Ok? ==> p < r.pos <= |s|
    decreases |s| - p, 4
  {
    if Peek(s, p) != ':' then Err(ObjectMissColon, p, log)
    else
      match Skip(c, s, p + 1)
      case Bad(code, at) => Err(code, at, log)
      case Token(p1, _) =>
        match ParseValue(c, s, p1, log)
        case Err(code, at, log1) => Err(code, at, log1)
        case Ok(p2, log1) =>
          match Skip(c, s, p2)
          case Bad(code, at) => Err(code, at, log1)
          case Token(p3, _) => AfterMember(c, s, p3, log1, count + 1)
  }

  /** Behind a member: a comma, possibly a trailing one, or the closing bracket. */
  function AfterMember(c: Config, s: string, p: nat, log: seq<Event>, count: nat): (r: Result)
    requires Good(c) && p <= |s|
    ensures r.Ok? ==> p < r.pos <= |s|
    decreases |s| - p, 0
  {
    match Peek(s, p)
    case ',' =>
      (match Skip(c, s, p + 1)
       case Bad(code, at) => Err(code, at, log)
       case Token(q, _) =>
         if c.trailingCommas && Peek(s, q) == '}' then
           match Emit(c, q, log, EndObject(count))
           case Err(code, at, log1) => Err(code, at, log1)
           case Ok(_, log1) => Ok(q + 1, log1)
         else ParseMembers(c, s, q, log, count))
    case '}' => Emit(c, p + 1, log, EndObject(count))
    case _ => Err(ObjectMissCommaOrCurlyBracket, p, log)
  }

  function ParseArray(c: Config, s: string, p: nat, log: seq<Event>): (r: Result)
    requires Good(c) && p <= |s| && Peek(s, p) == '['
    ensures r.Ok? ==> p < r.pos <= |s|
    decreases |s| - p, 2
  {
    match Emit(c, p + 1, log, StartArray)
    case Err(code, at, log1) => Err(code, at, log1)
    case Ok(_, log1) =>
      match Skip(c, s, p + 1)
      case Bad(code, at) => Err(code, at, log1)
      case Token(q, _) =>
        if Peek(s, q) == ']' then Emit(c, q + 1, log1, EndArray(0))
        else ParseElements(c, s, q, log1, 0)
  }

  /** The element loop: at a value, with `count` elements behind it. */
  function ParseElements(c: Config, s: string, p: nat, log: seq<Event>, count: nat): (r: Result)
    requires Good(c) && p <= |s|
    ensures r.Ok? ==> p < r.pos <= |s|
    decreases |s| - p, 4
  {
    match ParseValue(c, s, p, log)
    case Err(code, at, log1) => Err(code, at, log1)
    case Ok(p1, log1) =>
      match Skip(c, s, p1)
      case Bad(code, at) => Err(code, at, log1)
      case Token(p2, _) => AfterElement(c, s, p2, log1, count + 1)
  }

  function AfterElement(c: Config, s: string, p: nat, log: seq<Event>, count: nat): (r: Result)
    requires Good(c) && p <= |s|
    ensures r.Ok? ==> p < r.pos <= |s|
    decreases |s| - p, 0
  {
    match Peek(s, p)
    case ',' =>
      (match Skip(c, s, p + 1)
       case Bad(code, at) => Err(code, at, log)
       case Token(q, _) =>
         if c.trailingCommas && Peek(s, q) == ']' then
           match Emit(c, q, log, EndArray(count))
           case Err(code, at, log1) => Err(code, at, log1)
           case Ok(_, log1) => Ok(q + 1, log1)
         else ParseElements(c, s, q, log, count))
    case ']' => Emit(c, p + 1, log, EndArray(count))
    case _ => Err(ArrayMissCommaOrSquareBracket, p, log)
  }

  /** `Parse` */
  function Parse(c: Config, s: string): Result
    requires Good(c)
  {
    match Skip(c, s, 0)
    case Bad(code, at) => Err(code, at, [])
    case Token(p, _) =>
      if Peek(s, p) == '\0' then Err(DocumentEmpty, p, [])
      else
        match ParseValue(c, s, p, [])
        case Err(code, at, log) => Err(code, at, log)
        case Ok(q, log) =>
          if c.stopWhenDone then Ok(q, log)
          else
            match Skip(c, s, q)
            case Bad(code, at) => Err(code, at, log)
            case Token(e, _) => if Peek(s, e) == '\0' then Ok(e, log) else Err(DocumentRootNotSingular, e, log)
  }
}
