/** The scanner (src/Scanner.cs): a cursor over the source text that appends
    tokens one lexeme at a time. `ScanFrom` and the functions below it state
    what one run computes; the `Scanner` class is the cursor itself, and each
    of its methods is proved to compute what the matching function says. */
module Scanner {
  import opened Ast

  /** .NET exceptions that escape the scanner and end the run: `Substring`
      outside the string, indexing past the end, `Double.Parse` rejecting
      its text. */
  datatype Crash =
    | SubstringOutOfRange(startIndex: int, length: int)
    | IndexOutOfRange(index: int)
    | FormatError(text: string)

  /** The scanner's fields as one value. */
  datatype ScanState = ScanState(tokens: seq<Token>, current: nat, start: nat, line: int, reports: seq<Report>)

  /** A run either reaches a state or crashes in one (reports made before
      the crash have already gone to the host). */
  datatype Outcome = Done(st: ScanState) | Crashed(crash: Crash, st: ScanState)

  const InitialState := ScanState([], 0, 0, 1, [])

  predicate IsAtEnd(src: string, current: int)
  {
    current >= |src|
  }

  /** One character of lookahead; `'\0'` at the end of the source. */
  function Peek(src: string, current: nat): char
  {
    if current >= |src| then '\0' else src[current]
  }

  /** Two characters of lookahead; `'\0'` past the end of the source. */
  function PeekNext(src: string, current: nat): char
  {
    if current + 1 >= |src| then '\0' else src[current + 1]
  }

  predicate IsDigit(c: char)
  {
    '0' <= c <= '9'
  }

  /** Whether `Match(expected)` accepts the character at `current`. */
  predicate MatchAt(src: string, current: nat, expected: char)
  {
    current < |src| && src[current] == expected
  }

  /** .NET `String.Substring(startIndex, length)`: the second argument is a
      length, and a range past the end throws. */
  function Substring(src: string, startIndex: int, length: int): (r: Result<string>)
    ensures r.Ok? <==> 0 <= startIndex && 0 <= length && startIndex + length <= |src|
    ensures r.Ok? ==> |r.value| == length && forall k :: 0 <= k < length ==> r.value[k] == src[startIndex + k]
  {
    if 0 <= startIndex && 0 <= length && startIndex + length <= |src|
    then Ok(src[startIndex..startIndex + length])
    else Err(SubstringOutOfRange(startIndex, length))
  }

  datatype Result<T> = Ok(value: T) | Err(crash: Crash)

  /** The tokens of `after` are those of `before` plus at most one token,
      which is never an EOF token. */
  predicate ExtendsByOne(before: seq<Token>, after: seq<Token>)
  {
    after == before ||
    (|after| == |before| + 1 && after[..|before|] == before && after[|before|].kind != Eof)
  }

  /** `AddToken(kind, literal)`: the lexeme is `Substring(start, current)`. */
  function AddTokenSpec(src: string, st: ScanState, kind: TokenType, literal: Lit): (r: Outcome)
    ensures r.st.current == st.current && r.st.line == st.line && r.st.reports == st.reports
    ensures r.Done? <==> st.start + st.current <= |src|
    ensures r.Done? ==> r.st.tokens == st.tokens + [Token(kind, src[st.start..st.start + st.current], literal, st.line)]
    ensures r.Crashed? ==> r.st == st
  {
    match Substring(src, st.start, st.current)
    case Ok(text) => Done(st.(tokens := st.tokens + [Token(kind, text, literal, st.line)]))
    case Err(c) => Crashed(c, st)
  }

  /** The loop of `String`: advances to the closing quote or the end,
      counting newlines; the result is the final (current, line). */
  function StringLoop(src: string, current: nat, line: int): (r: (nat, int))
    requires current <= |src|
    ensures current <= r.0 <= |src|
    ensures r.0 == |src| || src[r.0] == '"'
    ensures forall k :: current <= k < r.0 ==> src[k] != '"'
    decreases |src| - current
  {
    if Peek(src, current) != '"' && !IsAtEnd(src, current)
    then StringLoop(src, current + 1, if Peek(src, current) == '\n' then line + 1 else line)
    else (current, line)
  }

  /** `String`, entered with the opening quote consumed. An unterminated
      string is reported and then `Advance` indexes past the end; the crash
      state keeps `current` at the end of the source, where the original
      has already incremented it (the state is not observed after the
      crash). Otherwise the value is `Substring(start + 1, current - 1)`
      with `current` one past the closing quote: a length of the closing
      quote's offset, not the length of the quoted text. */
  function StringSpec(src: string, st: ScanState): (r: Outcome)
    requires st.current <= |src|
    ensures r.Done? ==> st.current < r.st.current <= |src| && r.st.reports == st.reports
    ensures r.Done? ==> |r.st.tokens| == |st.tokens| + 1 && r.st.tokens[..|st.tokens|] == st.tokens
                        && r.st.tokens[|st.tokens|].kind == String
    ensures var (e, l) := StringLoop(src, st.current, st.line);
      e == |src| ==>
        r == Crashed(IndexOutOfRange(e), st.(current := e, line := l,
                                             reports := st.reports + [LineReport(l, "Unterminated string")]))
    ensures var (e, l) := StringLoop(src, st.current, st.line);
      e < |src| ==>
        && r.st == st.(current := e + 1, line := l, tokens := r.st.tokens)
        && (r.Done? <==> st.start + e + 1 <= |src|)
        && (r.Done? ==> r.st.tokens == st.tokens + [Token(String, src[st.start..st.start + e + 1],
                                                          StrLit(src[st.start + 1..st.start + 1 + e]), l)])
        && (r.Crashed? ==> r.crash == SubstringOutOfRange(st.start + 1, e))
  {
    var (cur, line) := StringLoop(src, st.current, st.line);
    if IsAtEnd(src, cur) then
      Crashed(IndexOutOfRange(cur), st.(current := cur, line := line,
                                        reports := st.reports + [LineReport(line, "Unterminated string")]))
    else
      var st2 := st.(current := cur + 1, line := line);
      match Substring(src, st.start + 1, st2.current - 1)
      case Err(c) => Crashed(c, st2)
      case Ok(value) => AddTokenSpec(src, st2, String, StrLit(value))
  }

  /** The first position at or after `i` whose lookahead is not a digit. */
  function DigitsEnd(src: string, i: nat): (r: nat)
    requires i <= |src|
    ensures i <= r <= |src| && !IsDigit(Peek(src, r))
    ensures forall k :: i <= k < r ==> IsDigit(src[k])
    decreases |src| - i
  {
    if IsDigit(Peek(src, i)) then DigitsEnd(src, i + 1) else i
  }

  /** Where `Number` stops: a digit run, then `.` and a second digit run only
      when a digit follows the `.`. */
  function NumberEnd(src: string, i: nat): (r: nat)
    requires i <= |src|
    ensures i <= r <= |src| && !IsDigit(Peek(src, r))
    ensures forall k :: i <= k < r ==> IsDigit(src[k]) || src[k] == '.'
  {
    var d := DigitsEnd(src, i);
    if Peek(src, d) == '.' && IsDigit(PeekNext(src, d)) then DigitsEnd(src, d + 1) else d
  }

  /** `Number`, entered with the first digit consumed; `parse` is
      `Double.Parse`, which gives `None` where it throws. */
  function NumberSpec(src: string, parse: string -> Option<real>, st: ScanState): (r: Outcome)
    requires st.current <= |src|
    ensures r.Done? ==> st.current <= r.st.current <= |src| && r.st.reports == st.reports
    ensures r.Done? ==> |r.st.tokens| == |st.tokens| + 1 && r.st.tokens[..|st.tokens|] == st.tokens
                        && r.st.tokens[|st.tokens|].kind == Number
    ensures var end := NumberEnd(src, st.current);
      && r.st == st.(current := end, tokens := r.st.tokens)
      && (r.Done? <==> st.start + end <= |src| && parse(src[st.start..st.start + end]).Some?)
      && (r.Done? ==> r.st.tokens == st.tokens + [Token(Number, src[st.start..st.start + end],
                                                        NumLit(parse(src[st.start..st.start + end]).value), st.line)])
      && (r.Crashed? ==> r.st.tokens == st.tokens)
      && (r.Crashed? && st.start + end <= |src| ==> r.crash == FormatError(src[st.start..st.start + end]))
      && (r.Crashed? && st.start + end > |src| ==> r.crash == SubstringOutOfRange(st.start, end))
  {
    var st1 := st.(current := NumberEnd(src, st.current));
    match Substring(src, st1.start, st1.current)
    case Err(c) => Crashed(c, st1)
    case Ok(text) =>
      match parse(text)
      case None => Crashed(FormatError(text), st1)
      case Some(n) => AddTokenSpec(src, st1, Number, NumLit(n))
  }

  /** The loop of a `//` comment: it stops where the lookahead is `'\0'`,
      that is at the end of the source or at a NUL character. */
  function CommentEnd(src: string, i: nat): (r: nat)
    requires i <= |src|
    ensures i <= r <= |src| && Peek(src, r) == '\0'
    ensures forall k :: i <= k < r ==> src[k] != '\0'
    decreases |src| - i
  {
    if Peek(src, i) != '\0' && !IsAtEnd(src, i) then CommentEnd(src, i + 1) else i
  }

  /** The cases of `ScanToken`'s switch that add a one-character token. */
  function SingleCharToken(c: char): Option<TokenType>
  {
    match c
    case '(' => Some(LeftParen)
    case ')' => Some(RightParen)
    case '{' => Some(LeftBrace)
    case '}' => Some(RightBrace)
    case ',' => Some(Comma)
    case '.' => Some(Dot)
    case '-' => Some(Minus)
    case '+' => Some(Plus)
    case ';' => Some(Semicolon)
    case '*' => Some(Star)
    case _ => None
  }

  /** The cases that add `AddToken(Match('=') ? double : single)`. */
  function OperatorPair(c: char): Option<(TokenType, TokenType)>
  {
    match c
    case '!' => Some((Bang, BangEqual))
    case '=' => Some((Equal, EqualEqual))
    case '<' => Some((Less, LessEqual))
    case '>' => Some((Greater, GreaterEqual))
    case _ => None
  }

  predicate IsBlank(c: char)
  {
    c == ' ' || c == '\r' || c == '\t'
  }

  /** `ScanToken`: consumes one character and whatever lexeme it starts. */
  function ScanTokenSpec(src: string, parse: string -> Option<real>, st: ScanState): (r: Outcome)
    requires st.start == st.current < |src|
    ensures r.Done? ==> st.current < r.st.current <= |src|
    ensures r.Done? ==> ExtendsByOne(st.tokens, r.st.tokens)
  {
    var c := src[st.current];
    var st1 := st.(current := st.current + 1);
    if SingleCharToken(c).Some? then
      AddTokenSpec(src, st1, SingleCharToken(c).value, NilLit)
    else if OperatorPair(c).Some? then
      var (single, double) := OperatorPair(c).value;
      if MatchAt(src, st1.current, '=')
      then AddTokenSpec(src, st1.(current := st1.current + 1), double, NilLit)
      else AddTokenSpec(src, st1, single, NilLit)
    else if c == '/' then
      if MatchAt(src, st1.current, '/')
      then Done(st1.(current := CommentEnd(src, st1.current + 1)))
      else AddTokenSpec(src, st1, Slash, NilLit)
    else if IsBlank(c) then Done(st1)
    else if c == '\n' then Done(st1.(line := st1.line + 1))
    else if c == '"' then StringSpec(src, st1)
    else if IsDigit(c) then NumberSpec(src, parse, st1)
    else Done(st1.(reports := st1.reports + [LineReport(st1.line, "Unexpected character")]))
  }

  /** The loop of `ScanTokens`: `start = current; ScanToken()` until the end. */
  function ScanLoop(src: string, parse: string -> Option<real>, st: ScanState): (r: Outcome)
    requires st.current <= |src|
    ensures r.Done? ==> IsAtEnd(src, r.st.current) && r.st.current == |src|
    ensures r.Done? ==> |st.tokens| <= |r.st.tokens| && r.st.tokens[..|st.tokens|] == st.tokens
    ensures r.Done? ==> forall k :: |st.tokens| <= k < |r.st.tokens| ==> r.st.tokens[k].kind != Eof
    decreases |src| - st.current
  {
    if IsAtEnd(src, st.current) then Done(st)
    else
      match ScanTokenSpec(src, parse, st.(start := st.current))
      case Crashed(c, s) => Crashed(c, s)
      case Done(s) =>
        var r := ScanLoop(src, parse, s);
        assert r.Done? ==> r.st.tokens[..|st.tokens|] == r.st.tokens[..|s.tokens|][..|st.tokens|];
        r
  }

  /** `ScanTokens` from a given state: the loop, then one EOF token carrying
      the current line. */
  function ScanFrom(src: string, parse: string -> Option<real>, st: ScanState): Outcome
    requires st.current <= |src|
  {
    match ScanLoop(src, parse, st)
    case Crashed(c, s) => Crashed(c, s)
    case Done(s) => Done(s.(tokens := s.tokens + [Token(Eof, "", NilLit, s.line)]))
  }

  /** A whole run of a fresh scanner over `src`. */
  function Scan(src: string, parse: string -> Option<real>): Outcome
  {
    ScanFrom(src, parse, InitialState)
  }

  /** How a method's failure flag and final state agree with a spec outcome. */
  predicate Agrees(o: Outcome, crash: Option<Crash>, st: ScanState)
  {
    if crash.None? then o == Done(st) else o == Crashed(crash.value, st)
  }

  class Scanner {
    const source: string
    /** `Double.Parse`, which this model does not define. */
    const parseDouble: string -> Option<real>
    var tokens: seq<Token>
    var current: nat
    var start: nat
    var line: int
    /** Diagnostics passed to the host's `Error(line, message)`. */
    var reports: seq<Report>

    function State(): ScanState
      reads this
    {
      ScanState(tokens, current, start, line, reports)
    }

    constructor (src: string, parse: string -> Option<real>)
      ensures source == src && parseDouble == parse && State() == InitialState
    {
      source := src;
      parseDouble := parse;
      tokens := [];
      current := 0;
      start := 0;
      line := 1;
      reports := [];
    }

    /** `source_code[current++]`. */
    method Advance() returns (c: char)
      requires current < |source|
      modifies this`current
      ensures c == source[old(current)] && current == old(current) + 1
    {
      c := source[current];
      current := current + 1;
    }

    method Match(expected: char) returns (matched: bool)
      modifies this`current
      ensures matched == MatchAt(source, old(current), expected)
      ensures current == if matched then old(current) + 1 else old(current)
    {
      if IsAtEnd(source, current) {
        return false;
      }
      if source[current] != expected {
        return false;
      }
      current := current + 1;
      return true;
    }

    method AddToken(kind: TokenType, literal: Lit) returns (crash: Option<Crash>)
      modifies this`tokens
      ensures Agrees(AddTokenSpec(source, old(State()), kind, literal), crash, State())
    {
      var text := Substring(source, start, current);
      if text.Err? {
        return Some(text.crash);
      }
      tokens := tokens + [Token(kind, text.value, literal, line)];
      return None;
    }

    method String() returns (crash: Option<Crash>)
      requires current <= |source|
      modifies this`current, this`line, this`tokens, this`reports
      ensures Agrees(StringSpec(source, old(State())), crash, State())
    {
      while Peek(source, current) != '"' && !IsAtEnd(source, current)
        invariant old(current) <= current <= |source|
        invariant StringLoop(source, current, line) == StringLoop(source, old(current), old(line))
        invariant tokens == old(tokens) && reports == old(reports)
        decreases |source| - current
      {
        if Peek(source, current) == '\n' {
          line := line + 1;
        }
        var c := Advance();
      }
      if IsAtEnd(source, current) {
        reports := reports + [LineReport(line, "Unterminated string")];
        // the following Advance indexes past the end of the source
        return Some(IndexOutOfRange(current));
      }
      var c := Advance();
      var value := Substring(source, start + 1, current - 1);
      if value.Err? {
        return Some(value.crash);
      }
      crash := AddToken(TokenType.String, StrLit(value.value));
    }

    method Number() returns (crash: Option<Crash>)
      requires current <= |source|
      modifies this`current, this`tokens
      ensures Agrees(NumberSpec(source, parseDouble, old(State())), crash, State())
    {
      while IsDigit(Peek(source, current))
        invariant old(current) <= current <= |source|
        invariant DigitsEnd(source, current) == DigitsEnd(source, old(current))
        invariant tokens == old(tokens)
        decreases |source| - current
      {
        var c := Advance();
      }
      if Peek(source, current) == '.' && IsDigit(PeekNext(source, current)) {
        var c := Advance();
        ghost var afterDot := current;
        while IsDigit(Peek(source, current))
          invariant afterDot <= current <= |source|
          invariant DigitsEnd(source, current) == DigitsEnd(source, afterDot)
          invariant tokens == old(tokens)
          decreases |source| - current
        {
          c := Advance();
        }
      }
      assert current == NumberEnd(source, old(current));
      assert State() == old(State()).(current := current);
      var text := Substring(source, start, current);
      if text.Err? {
        return Some(text.crash);
      }
      var n := parseDouble(text.value);
      if n.None? {
        return Some(FormatError(text.value));
      }
      crash := AddToken(TokenType.Number, NumLit(n.value));
    }

    method ScanToken() returns (crash: Option<Crash>)
      requires start == current < |source|
      modifies this`current, this`line, this`tokens, this`reports
      ensures Agrees(ScanTokenSpec(source, parseDouble, old(State())), crash, State())
    {
      ghost var spec := ScanTokenSpec(source, parseDouble, State());
      var c := Advance();
      ghost var st1 := State();
      if SingleCharToken(c).Some? {
        assert spec == AddTokenSpec(source, st1, SingleCharToken(c).value, NilLit);
        crash := AddToken(SingleCharToken(c).value, NilLit);
      } else if OperatorPair(c).Some? {
        var (single, double) := OperatorPair(c).value;
        var two := Match('=');
        assert spec == AddTokenSpec(source, State(), if two then double else single, NilLit);
        crash := AddToken(if two then double else single, NilLit);
      } else if c == '/' {
        var comment := Match('/');
        if comment {
          while Peek(source, current) != '\0' && !IsAtEnd(source, current)
            invariant old(current) + 2 <= current <= |source|
            invariant CommentEnd(source, current) == CommentEnd(source, old(current) + 2)
            invariant State() == old(State()).(current := current)
            decreases |source| - current
          {
            var skipped := Advance();
          }
          assert spec == Done(State());
          crash := None;
        } else {
          assert spec == AddTokenSpec(source, st1, Slash, NilLit);
          crash := AddToken(Slash, NilLit);
        }
      } else if IsBlank(c) {
        assert spec == Done(st1);
        crash := None;
      } else if c == '\n' {
        line := line + 1;
        assert spec == Done(State());
        crash := None;
      } else if c == '"' {
        assert spec == StringSpec(source, st1);
        crash := String();
      } else if IsDigit(c) {
        assert spec == NumberSpec(source, parseDouble, st1);
        crash := Number();
      } else {
        reports := reports + [LineReport(line, "Unexpected character")];
        assert spec == Done(State());
        crash := None;
      }
    }

    method ScanTokens() returns (r: Outcome)
      requires current <= |source|
      modifies this
      ensures r == ScanFrom(source, parseDouble, old(State()))
      ensures r.Done? ==> tokens == r.st.tokens
    {
      while !IsAtEnd(source, current)
        invariant current <= |source|
        invariant ScanLoop(source, parseDouble, State()) == ScanLoop(source, parseDouble, old(State()))
        decreases |source| - current
      {
        start := current;
        var crash := ScanToken();
        if crash.Some? {
          return Crashed(crash.value, State());
        }
      }
      tokens := tokens + [Token(Eof, "", NilLit, line)];
      return Done(State());
    }
  }
}
