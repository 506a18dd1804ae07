/** What one run of the recursive-descent parser (src/Parser.cs) computes.
    Each grammar method becomes a function from the cursor state to either
    a value and the state after it, or a thrown `ParseError` and the state
    at the throw. The `Parser` class in module Parser is proved, method by
    method, to compute what these functions say. */
module Grammar {
  import opened Ast

  /** More parameters or arguments than this are reported. */
  const MaxArgs := 255

  /** The token lists the parser is given: the scanner's output, which ends
      with an EOF token. */
  predicate WellFormed(toks: seq<Token>)
  {
    |toks| > 0 && toks[|toks| - 1].kind == Eof
  }

  /** The parser's fields besides the token list. */
  datatype PState = PState(current: nat, reports: seq<Report>)

  predicate Valid(toks: seq<Token>, st: PState)
  {
    WellFormed(toks) && st.current < |toks|
  }

  /** A grammar method either returns a value or throws `ParseError`. */
  datatype PResult<T> = Ok(value: T, st: PState) | Thrown(st: PState)

  /** What the methods of the `Parser` class return alongside a throw,
      where the original returns nothing. */
  const NoExpr := Literal(NilLit)
  const NoStmt := Expression(NoExpr)

  /** The result of a method with value `v`, throw flag `thrown` and final
      state `st`. */
  function Returned<T>(v: T, thrown: bool, st: PState): PResult<T>
  {
    if thrown then Thrown(st) else Ok(v, st)
  }

  /** The cursor ends on a token and never moves back, and the number of
      reports never shrinks. */
  predicate Advances<T>(toks: seq<Token>, st: PState, r: PResult<T>)
  {
    st.current <= r.st.current < |toks| && |st.reports| <= |r.st.reports|
  }

  /** As `Advances`, and a returned value consumed at least one token. */
  predicate Progresses<T>(toks: seq<Token>, st: PState, r: PResult<T>)
  {
    Advances(toks, st, r) && (r.Ok? ==> st.current < r.st.current)
  }

  predicate AtEnd(toks: seq<Token>, current: nat)
    requires current < |toks|
  {
    toks[current].kind == Eof
  }

  /** `Check(kind)`: false at EOF. */
  predicate Checks(toks: seq<Token>, current: nat, kind: TokenType)
    requires current < |toks|
  {
    !AtEnd(toks, current) && toks[current].kind == kind
  }

  /** `Match(kinds)` succeeds when `Check` accepts one of the kinds. */
  predicate MatchAny(toks: seq<Token>, current: nat, kinds: seq<TokenType>)
    requires current < |toks|
  {
    !AtEnd(toks, current) && toks[current].kind in kinds
  }

  /** `Advance`: one token forward, except at EOF. */
  function AdvanceSpec(toks: seq<Token>, st: PState): (r: PState)
    requires Valid(toks, st)
    ensures r.current < |toks| && r.reports == st.reports
    ensures r.current == if AtEnd(toks, st.current) then st.current else st.current + 1
  {
    if AtEnd(toks, st.current) then st
    else
      assert st.current != |toks| - 1;
      st.(current := st.current + 1)
  }

  /** `Error(token, message)`: the report the host receives. */
  function Reported(st: PState, token: Token, message: string): PState
  {
    st.(reports := st.reports + [TokenReport(token, message)])
  }

  /** `Consume(kind, message)`: the token, one step forward; otherwise a
      report at the current token and a throw, without moving. */
  function ConsumeSpec(toks: seq<Token>, st: PState, kind: TokenType, message: string): (r: PResult<Token>)
    requires Valid(toks, st)
    ensures Progresses(toks, st, r)
    ensures r.Ok? <==> Checks(toks, st.current, kind)
    ensures r.Ok? ==> r.value == toks[st.current] && r.st == st.(current := st.current + 1)
    ensures r.Thrown? ==> r.st == Reported(st, toks[st.current], message)
  {
    if Checks(toks, st.current, kind) then Ok(toks[st.current], AdvanceSpec(toks, st))
    else Thrown(Reported(st, toks[st.current], message))
  }

  /** `Synchronize`: one `Advance`, after which every path of its loop
      returns. */
  function SynchronizeSpec(toks: seq<Token>, st: PState): (r: PState)
    requires Valid(toks, st)
  {
    AdvanceSpec(toks, st)
  }

  /** The operators of the four binary levels: 4 is equality, 3 comparison,
      2 term, 1 factor. */
  function OpsAt(level: nat): seq<TokenType>
  {
    if level >= 4 then [EqualEqual, BangEqual]
    else if level == 3 then [Greater, GreaterEqual, Less, LessEqual]
    else if level == 2 then [Plus, Minus]
    else [Slash, Star]
  }

  // ---------------------------------------------------------------------
  // Expressions. Each function's `decreases` is the number of tokens left,
  // then the method's rank in the grammar.

  /** `Expression`: an assignment. */
  function ParseExpression(toks: seq<Token>, st: PState): (r: PResult<Expr>)
    requires Valid(toks, st)
    ensures Progresses(toks, st, r)
    ensures r.Ok? ==> !HasLogical(r.value)
    decreases |toks| - st.current, 14
  {
    ParseAssignment(toks, st)
  }

  /** `Assignment`: an equality, then, after `=`, a right-recursive
      assignment; an `Assign` node only when the target is a variable. */
  function ParseAssignment(toks: seq<Token>, st: PState): (r: PResult<Expr>)
    requires Valid(toks, st)
    ensures Progresses(toks, st, r)
    ensures r.Ok? ==> !HasLogical(r.value)
    decreases |toks| - st.current, 12
  {
    match ParseLevel(toks, st, 4)
    case Thrown(s) => Thrown(s)
    case Ok(expr, s) =>
      if MatchAny(toks, s.current, [Equal]) then
        var equals := toks[s.current];
        match ParseAssignment(toks, AdvanceSpec(toks, s))
        case Thrown(s2) => Thrown(s2)
        case Ok(value, s2) =>
          if expr.Variable? then Ok(Assign(s.current, expr.name, value), s2)
          else Ok(expr, Reported(s2, equals, "Invalid assignment target"))
      else Ok(expr, s)
  }

  /** `Or`: an `And`, then `or` operands; its right operand is a whole
      `Or`. */
  function ParseOr(toks: seq<Token>, st: PState): (r: PResult<Expr>)
    requires Valid(toks, st)
    ensures Progresses(toks, st, r)
    decreases |toks| - st.current, 13
  {
    match ParseAnd(toks, st)
    case Thrown(s) => Thrown(s)
    case Ok(e, s) => OrLoop(toks, e, s)
  }

  function OrLoop(toks: seq<Token>, left: Expr, st: PState): (r: PResult<Expr>)
    requires Valid(toks, st)
    ensures Advances(toks, st, r)
    decreases |toks| - st.current, 13
  {
    if MatchAny(toks, st.current, [Or]) then
      var op := toks[st.current];
      match ParseOr(toks, AdvanceSpec(toks, st))
      case Thrown(s) => Thrown(s)
      case Ok(right, s) => OrLoop(toks, Logical(left, op, right), s)
    else Ok(left, st)
  }

  /** `And`: equality operands joined by `and`, left-associative. */
  function ParseAnd(toks: seq<Token>, st: PState): (r: PResult<Expr>)
    requires Valid(toks, st)
    ensures Progresses(toks, st, r)
    decreases |toks| - st.current, 12
  {
    match ParseLevel(toks, st, 4)
    case Thrown(s) => Thrown(s)
    case Ok(e, s) => AndLoop(toks, e, s)
  }

  function AndLoop(toks: seq<Token>, left: Expr, st: PState): (r: PResult<Expr>)
    requires Valid(toks, st)
    ensures Advances(toks, st, r)
    decreases |toks| - st.current, 12
  {
    if MatchAny(toks, st.current, [And]) then
      var op := toks[st.current];
      match ParseLevel(toks, AdvanceSpec(toks, st), 4)
      case Thrown(s) => Thrown(s)
      case Ok(right, s) => AndLoop(toks, Logical(left, op, right), s)
    else Ok(left, st)
  }

  /** `Equality`, `Comparison`, `Term` and `Factor` (levels 4 down to 1):
      an operand of the level below, then a loop over this level's
      operators. */
  function ParseLevel(toks: seq<Token>, st: PState, level: nat): (r: PResult<Expr>)
    requires Valid(toks, st) && 1 <= level <= 4
    ensures Progresses(toks, st, r)
    ensures r.Ok? ==> !HasLogical(r.value)
    decreases |toks| - st.current, 2 * level + 3
  {
    match ParseOperand(toks, st, level)
    case Thrown(s) => Thrown(s)
    case Ok(e, s) => LevelLoop(toks, level, e, s)
  }

  /** The operand of a level: the level below, or `Unary` below level 1. */
  function ParseOperand(toks: seq<Token>, st: PState, level: nat): (r: PResult<Expr>)
    requires Valid(toks, st) && 1 <= level <= 4
    ensures Progresses(toks, st, r)
    ensures r.Ok? ==> !HasLogical(r.value)
    decreases |toks| - st.current, 2 * level + 2
  {
    if level == 1 then ParseUnary(toks, st) else ParseLevel(toks, st, level - 1)
  }

  function LevelLoop(toks: seq<Token>, level: nat, left: Expr, st: PState): (r: PResult<Expr>)
    requires Valid(toks, st) && 1 <= level <= 4
    ensures Advances(toks, st, r)
    ensures r.Ok? && !HasLogical(left) ==> !HasLogical(r.value)
    decreases |toks| - st.current, 2 * level + 3
  {
    if MatchAny(toks, st.current, OpsAt(level)) then
      var op := toks[st.current];
      match ParseOperand(toks, AdvanceSpec(toks, st), level)
      case Thrown(s) => Thrown(s)
      case Ok(right, s) => LevelLoop(toks, level, Binary(left, op, right), s)
    else Ok(left, st)
  }

  /** `Unary`: `!` or `-` and a unary operand, otherwise a call. */
  function ParseUnary(toks: seq<Token>, st: PState): (r: PResult<Expr>)
    requires Valid(toks, st)
    ensures Progresses(toks, st, r)
    ensures r.Ok? ==> !HasLogical(r.value)
    decreases |toks| - st.current, 2
  {
    if MatchAny(toks, st.current, [Bang, Minus]) then
      var op := toks[st.current];
      match ParseUnary(toks, AdvanceSpec(toks, st))
      case Thrown(s) => Thrown(s)
      case Ok(right, s) => Ok(Unary(op, right), s)
    else ParseCall(toks, st)
  }

  /** `Call`: a primary, then any number of argument lists. */
  function ParseCall(toks: seq<Token>, st: PState): (r: PResult<Expr>)
    requires Valid(toks, st)
    ensures Progresses(toks, st, r)
    ensures r.Ok? ==> !HasLogical(r.value)
    decreases |toks| - st.current, 1
  {
    match ParsePrimary(toks, st)
    case Thrown(s) => Thrown(s)
    case Ok(e, s) => CallLoop(toks, e, s)
  }

  function CallLoop(toks: seq<Token>, callee: Expr, st: PState): (r: PResult<Expr>)
    requires Valid(toks, st)
    ensures Advances(toks, st, r)
    ensures r.Ok? && !HasLogical(callee) ==> !HasLogical(r.value)
    ensures !MatchAny(toks, st.current, [LeftParen]) ==> r == Ok(callee, st)
    ensures MatchAny(toks, st.current, [LeftParen]) && r.Ok? ==> r.value.Call?
    decreases |toks| - st.current, 1
  {
    if MatchAny(toks, st.current, [LeftParen]) then
      match ParseFinishCall(toks, callee, AdvanceSpec(toks, st))
      case Thrown(s) => Thrown(s)
      case Ok(e, s) => CallLoop(toks, e, s)
    else Ok(callee, st)
  }

  /** `FinishCall`, entered after `(`: arguments unless `)` follows, then
      the closing `)`. */
  function ParseFinishCall(toks: seq<Token>, callee: Expr, st: PState): (r: PResult<Expr>)
    requires Valid(toks, st)
    ensures Progresses(toks, st, r)
    ensures r.Ok? && !HasLogical(callee) ==> !HasLogical(r.value)
    ensures r.Ok? ==> && r.value.Call? && r.value.callee == callee
                      && r.value.paren == toks[r.st.current - 1] && r.value.paren.kind == RightParen
    decreases |toks| - st.current, 17
  {
    match ParseArguments(toks, st)
    case Thrown(s) => Thrown(s)
    case Ok(list, s) =>
      match ConsumeSpec(toks, s, RightParen, "Expected ')' after arguments")
      case Thrown(s2) => Thrown(s2)
      case Ok(paren, s2) => Ok(Call(callee, paren, list), s2)
  }

  /** The argument list, entered after `(`: empty when `)` follows. */
  function ParseArguments(toks: seq<Token>, st: PState): (r: PResult<seq<Expr>>)
    requires Valid(toks, st)
    ensures Advances(toks, st, r)
    ensures r.Ok? ==> forall i :: 0 <= i < |r.value| ==> !HasLogical(r.value[i])
    decreases |toks| - st.current, 16
  {
    if Checks(toks, st.current, RightParen) then Ok([], st) else ArgsLoop(toks, [], st)
  }

  /** The do-while loop over arguments: the 256th and later arguments are
      reported at the current token, and parsed all the same. */
  function ArgsLoop(toks: seq<Token>, args: seq<Expr>, st: PState): (r: PResult<seq<Expr>>)
    requires Valid(toks, st)
    ensures Progresses(toks, st, r)
    ensures r.Ok? ==> |r.value| > |args| && r.value[..|args|] == args
    ensures r.Ok? && (forall i :: 0 <= i < |args| ==> !HasLogical(args[i])) ==> forall i :: 0 <= i < |r.value| ==> !HasLogical(r.value[i])
    decreases |toks| - st.current, 15
  {
    var st1 := if |args| >= MaxArgs then Reported(st, toks[st.current], "Too many arguments") else st;
    match ParseExpression(toks, st1)
    case Thrown(s) => Thrown(s)
    case Ok(e, s) =>
      if MatchAny(toks, s.current, [Comma]) then ArgsLoop(toks, args + [e], AdvanceSpec(toks, s))
      else Ok(args + [e], s)
  }

  /** `Primary`: a literal, a variable, or a parenthesized expression;
      anything else is reported and thrown. */
  function ParsePrimary(toks: seq<Token>, st: PState): (r: PResult<Expr>)
    requires Valid(toks, st)
    ensures Progresses(toks, st, r)
    ensures r.Ok? ==> !HasLogical(r.value)
    decreases |toks| - st.current, 0
  {
    var next := AdvanceSpec(toks, st);
    if MatchAny(toks, st.current, [False]) then Ok(Literal(BoolLit(false)), next)
    else if MatchAny(toks, st.current, [True]) then Ok(Literal(BoolLit(true)), next)
    else if MatchAny(toks, st.current, [Nil]) then Ok(Literal(NilLit), next)
    else if MatchAny(toks, st.current, [Number, String]) then Ok(Literal(toks[st.current].literal), next)
    else if MatchAny(toks, st.current, [Identifier]) then Ok(Variable(st.current, toks[st.current]), next)
    else if MatchAny(toks, st.current, [LeftParen]) then ParseGrouping(toks, next)
    else Thrown(Reported(st, toks[st.current], "Expected expression [primary]"))
  }

  /** A parenthesized expression, entered after `(`. */
  function ParseGrouping(toks: seq<Token>, st: PState): (r: PResult<Expr>)
    requires Valid(toks, st)
    ensures Progresses(toks, st, r)
    ensures r.Ok? ==> !HasLogical(r.value)
    decreases |toks| - st.current, 15
  {
    match ParseExpression(toks, st)
    case Thrown(s) => Thrown(s)
    case Ok(e, s) =>
      match ConsumeSpec(toks, s, RightParen, "Expected ')' after expression")
      case Thrown(s2) => Thrown(s2)
      case Ok(_, s2) => Ok(Grouping(e), s2)
  }

  // ---------------------------------------------------------------------
  // Statements.

  /** `Declaration`, entered before a token other than EOF: a `var`
      declaration or a statement; a thrown `ParseError` is caught,
      `Synchronize` runs and the entry is null (`None`). It always
      consumes at least one token. */
  function ParseDeclaration(toks: seq<Token>, st: PState): (r: PResult<Option<Stmt>>)
    requires Valid(toks, st) && !AtEnd(toks, st.current)
    ensures r.Ok? && Progresses(toks, st, r)
    decreases |toks| - st.current, 18
  {
    var attempt := if MatchAny(toks, st.current, [TokenType.Var]) then ParseVarDeclaration(toks, AdvanceSpec(toks, st))
                   else ParseStatement(toks, st);
    match attempt
    case Ok(s, s1) => Ok(Some(s), s1)
    case Thrown(s1) =>
      var s2 := SynchronizeSpec(toks, s1);
      assert s1.current == st.current ==> !AtEnd(toks, s1.current);
      Ok(None, s2)
  }

  /** `Statement`: dispatch on the first token; `for` and `class` are not
      among the cases, and fall through to an expression statement. */
  function ParseStatement(toks: seq<Token>, st: PState): (r: PResult<Stmt>)
    requires Valid(toks, st)
    ensures Progresses(toks, st, r)
    ensures r.Ok? && r.value.If? && r.value.elseBranch.None? ==> !MatchAny(toks, r.st.current, [Else])
    decreases |toks| - st.current, 17
  {
    var next := AdvanceSpec(toks, st);
    if MatchAny(toks, st.current, [TokenType.Print]) then ParsePrintStatement(toks, next)
    else if MatchAny(toks, st.current, [LeftBrace]) then
      match ParseBlock(toks, next)
      case Thrown(s) => Thrown(s)
      case Ok(ss, s) => Ok(Block(ss), s)
    else if MatchAny(toks, st.current, [TokenType.If]) then ParseIfStatement(toks, next)
    else if MatchAny(toks, st.current, [TokenType.While]) then ParseWhileStatement(toks, next)
    else if MatchAny(toks, st.current, [Fun]) then ParseFunction(toks, next)
    else if MatchAny(toks, st.current, [TokenType.Return]) then ParseReturnStatement(toks, next)
    else ParseExpressionStatement(toks, st)
  }

  /** `Block`, entered after `{`: declarations up to `}` or EOF, then `}`. */
  function ParseBlock(toks: seq<Token>, st: PState): (r: PResult<StmtList>)
    requires Valid(toks, st)
    ensures Progresses(toks, st, r)
    decreases |toks| - st.current, 20
  {
    var body := BlockLoop(toks, [], st);
    match ConsumeSpec(toks, body.st, RightBrace, "Expected '}'")
    case Thrown(s) => Thrown(s)
    case Ok(_, s) => Ok(body.value, s)
  }

  function BlockLoop(toks: seq<Token>, acc: StmtList, st: PState): (r: PResult<StmtList>)
    requires Valid(toks, st)
    ensures r.Ok? && Advances(toks, st, r)
    decreases |toks| - st.current, 19
  {
    if !Checks(toks, st.current, RightBrace) && !AtEnd(toks, st.current) then
      var d := ParseDeclaration(toks, st);
      BlockLoop(toks, acc + [d.value], d.st)
    else Ok(acc, st)
  }

  /** `ReturnStatement`, entered after `return`: the keyword is the token
      just consumed; the value is absent when `;` follows. */
  function ParseReturnStatement(toks: seq<Token>, st: PState): (r: PResult<Stmt>)
    requires Valid(toks, st) && st.current >= 1
    ensures Progresses(toks, st, r)
    ensures r.Ok? ==> r.value.Return?
    decreases |toks| - st.current, 15
  {
    var keyword := toks[st.current - 1];
    match ParseOptionalExpression(toks, st, Semicolon)
    case Thrown(s) => Thrown(s)
    case Ok(v, s) =>
      match ConsumeSpec(toks, s, Semicolon, "Expected ';' after return statement")
      case Thrown(s2) => Thrown(s2)
      case Ok(_, s2) => Ok(Stmt.Return(keyword, v), s2)
  }

  /** `Function`, entered after `fun`: name, `(`, parameters, `)`, `{`,
      body. */
  function ParseFunction(toks: seq<Token>, st: PState): (r: PResult<Stmt>)
    requires Valid(toks, st)
    ensures Progresses(toks, st, r)
    ensures r.Ok? ==> r.value.Function?
    decreases |toks| - st.current, 15
  {
    match ConsumeSpec(toks, st, Identifier, "Expected function name")
    case Thrown(s) => Thrown(s)
    case Ok(name, s) =>
      match ConsumeSpec(toks, s, LeftParen, "Expected '(' after function declaration")
      case Thrown(s1) => Thrown(s1)
      case Ok(_, s1) =>
        match ParseParameters(toks, s1)
        case Thrown(s2) => Thrown(s2)
        case Ok(params, s2) =>
          match ConsumeSpec(toks, s2, RightParen, "Expected ')' after parameter list")
          case Thrown(s3) => Thrown(s3)
          case Ok(_, s3) =>
            match ConsumeSpec(toks, s3, LeftBrace, "Expected '{' after function declaration")
            case Thrown(s4) => Thrown(s4)
            case Ok(_, s4) =>
              match ParseBlock(toks, s4)
              case Thrown(s5) => Thrown(s5)
              case Ok(body, s5) => Ok(Function(FunctionDecl(name, params, body)), s5)
  }

  /** The parameter list, entered after `(`: empty when `)` follows. */
  function ParseParameters(toks: seq<Token>, st: PState): (r: PResult<seq<Token>>)
    requires Valid(toks, st)
    ensures Advances(toks, st, r)
    ensures r.Ok? && !Checks(toks, st.current, RightParen) ==> |r.value| > 0 && r.st.current > st.current
    decreases |toks| - st.current, 1
  {
    if Checks(toks, st.current, RightParen) then Ok([], st) else ParamsLoop(toks, [], st)
  }

  /** The do-while loop over parameters: the 256th and later parameters
      are reported at the current token, and added all the same. */
  function ParamsLoop(toks: seq<Token>, params: seq<Token>, st: PState): (r: PResult<seq<Token>>)
    requires Valid(toks, st)
    ensures Progresses(toks, st, r)
    ensures r.Ok? ==> |r.value| > |params| && r.value[..|params|] == params
    decreases |toks| - st.current, 0
  {
    var st1 := if |params| >= MaxArgs then Reported(st, toks[st.current], "Too many parameters") else st;
    match ConsumeSpec(toks, st1, Identifier, "Expected parameter name")
    case Thrown(s) => Thrown(s)
    case Ok(p, s) =>
      if MatchAny(toks, s.current, [Comma]) then ParamsLoop(toks, params + [p], AdvanceSpec(toks, s))
      else Ok(params + [p], s)
  }

  /** `WhileStatement`, entered after `while`: the condition sits between
      `{` and `}`, then the body statement. */
  function ParseWhileStatement(toks: seq<Token>, st: PState): (r: PResult<Stmt>)
    requires Valid(toks, st)
    ensures Progresses(toks, st, r)
    ensures r.Ok? ==> r.value.While?
    decreases |toks| - st.current, 15
  {
    match ConsumeSpec(toks, st, LeftBrace, "Expect '(' after while")
    case Thrown(s) => Thrown(s)
    case Ok(_, s) =>
      match ParseExpression(toks, s)
      case Thrown(s1) => Thrown(s1)
      case Ok(cond, s1) =>
        match ConsumeSpec(toks, s1, RightBrace, "Expect ')' after expression in while loop")
        case Thrown(s2) => Thrown(s2)
        case Ok(_, s2) =>
          match ParseStatement(toks, s2)
          case Thrown(s3) => Thrown(s3)
          case Ok(body, s3) => Ok(Stmt.While(cond, body), s3)
  }

  /** `IfStatement`, entered after `if`: `(` condition `)`, a statement,
      and an `else` statement when `else` follows it. */
  function ParseIfStatement(toks: seq<Token>, st: PState): (r: PResult<Stmt>)
    requires Valid(toks, st)
    ensures Progresses(toks, st, r)
    ensures r.Ok? ==> r.value.If?
    ensures r.Ok? && r.value.elseBranch.None? ==> !MatchAny(toks, r.st.current, [Else])
    ensures r.Ok? && r.value.thenBranch.If? && r.value.thenBranch.elseBranch.None? ==> r.value.elseBranch.None?
    decreases |toks| - st.current, 15
  {
    match ConsumeSpec(toks, st, LeftParen, "Expect '(' after if")
    case Thrown(s) => Thrown(s)
    case Ok(_, s) =>
      match ParseExpression(toks, s)
      case Thrown(s1) => Thrown(s1)
      case Ok(cond, s1) =>
        match ConsumeSpec(toks, s1, RightParen, "Expect ')' after expression in if")
        case Thrown(s2) => Thrown(s2)
        case Ok(_, s2) =>
          match ParseStatement(toks, s2)
          case Thrown(s3) => Thrown(s3)
          case Ok(thenBranch, s3) =>
            if MatchAny(toks, s3.current, [Else]) then
              match ParseStatement(toks, AdvanceSpec(toks, s3))
              case Thrown(s4) => Thrown(s4)
              case Ok(elseBranch, s4) => Ok(Stmt.If(cond, thenBranch, Some(elseBranch)), s4)
            else Ok(Stmt.If(cond, thenBranch, None), s3)
  }

  /** `PrintStatement`, entered after `print`. */
  function ParsePrintStatement(toks: seq<Token>, st: PState): (r: PResult<Stmt>)
    requires Valid(toks, st)
    ensures Progresses(toks, st, r)
    ensures r.Ok? ==> r.value.Print?
    decreases |toks| - st.current, 15
  {
    match ParseExpression(toks, st)
    case Thrown(s) => Thrown(s)
    case Ok(e, s) =>
      match ConsumeSpec(toks, s, Semicolon, "Expected ';' at the end of a print statement")
      case Thrown(s1) => Thrown(s1)
      case Ok(_, s1) => Ok(Stmt.Print(e), s1)
  }

  /** `ExpressionStatement`: an expression and `;`. */
  function ParseExpressionStatement(toks: seq<Token>, st: PState): (r: PResult<Stmt>)
    requires Valid(toks, st)
    ensures Progresses(toks, st, r)
    ensures r.Ok? ==> r.value.Expression?
    decreases |toks| - st.current, 15
  {
    match ParseExpression(toks, st)
    case Thrown(s) => Thrown(s)
    case Ok(e, s) =>
      match ConsumeSpec(toks, s, Semicolon, "Expected ';' at the end of a expression statement")
      case Thrown(s1) => Thrown(s1)
      case Ok(_, s1) => Ok(Expression(e), s1)
  }

  /** `VarDeclaration`, entered after `var`: a name, an initializer after
      `=`, and `;`. */
  function ParseVarDeclaration(toks: seq<Token>, st: PState): (r: PResult<Stmt>)
    requires Valid(toks, st)
    ensures Progresses(toks, st, r)
    ensures r.Ok? ==> r.value.Var?
    decreases |toks| - st.current, 15
  {
    match ConsumeSpec(toks, st, Identifier, "Expected an identifier")
    case Thrown(s) => Thrown(s)
    case Ok(name, s) =>
      var init := if MatchAny(toks, s.current, [Equal]) then
                    match ParseExpression(toks, AdvanceSpec(toks, s))
                    case Thrown(s1) => Thrown(s1)
                    case Ok(e, s1) => Ok(Some(e), s1)
                  else Ok(None, s);
      match init
      case Thrown(s1) => Thrown(s1)
      case Ok(i, s1) =>
        match ConsumeSpec(toks, s1, Semicolon, "Expected ';' after variable declaration")
        case Thrown(s2) => Thrown(s2)
        case Ok(_, s2) => Ok(Stmt.Var(name, i), s2)
  }

  /** The loop a `for` becomes: a `while` on the condition, or on `true`
      when there is none, whose body runs the increment after the loop
      body when there is one. */
  predicate IsForLoop(s: Stmt, cond: Option<Expr>, incr: Option<Expr>, body: Stmt)
  {
    && s.While?
    && s.condition == (if cond.Some? then cond.value else Literal(BoolLit(true)))
    && s.body == (if incr.Some? then Block([Some(body), Some(Expression(incr.value))]) else body)
  }

  /** How `ForStatement` assembles its parts into a `while` loop. */
  function DesugarFor(init: Option<Stmt>, cond: Option<Expr>, incr: Option<Expr>, body: Stmt): (s: Stmt)
    ensures s.Block? <==> init.Some?
    ensures init.Some? ==> |s.statements| == 2 && s.statements[0] == Some(init.value)
                           && s.statements[1].Some? && IsForLoop(s.statements[1].value, cond, incr, body)
    ensures init.None? ==> IsForLoop(s, cond, incr, body)
  {
    var inner := if incr.Some? then Block([Some(body), Some(Expression(incr.value))]) else body;
    var loop := Stmt.While(if cond.Some? then cond.value else Literal(BoolLit(true)), inner);
    if init.Some? then Block([Some(init.value), Some(loop)]) else loop
  }

  /** `ForStatement`, entered after `for` (no call to it exists). */
  function ParseForStatement(toks: seq<Token>, st: PState): (r: PResult<Stmt>)
    requires Valid(toks, st)
    ensures Progresses(toks, st, r)
  {
    match ConsumeSpec(toks, st, LeftParen, "Expected '(' after for")
    case Thrown(s) => Thrown(s)
    case Ok(_, s) =>
      match ParseForInitializer(toks, s)
      case Thrown(s1) => Thrown(s1)
      case Ok(initializer, s1) =>
        match ParseForHeader(toks, s1)
        case Thrown(s2) => Thrown(s2)
        case Ok(clauses, s2) =>
          match ParseStatement(toks, s2)
          case Thrown(s3) => Thrown(s3)
          case Ok(body, s3) => Ok(DesugarFor(initializer, clauses.0, clauses.1, body), s3)
  }

  /** The initializer clause of a `for`: none after `;`, a `var`
      declaration, or an expression statement. */
  function ParseForInitializer(toks: seq<Token>, st: PState): (r: PResult<Option<Stmt>>)
    requires Valid(toks, st)
    ensures Progresses(toks, st, r)
  {
    if MatchAny(toks, st.current, [Semicolon]) then Ok(None, AdvanceSpec(toks, st))
    else if MatchAny(toks, st.current, [TokenType.Var]) then Present(ParseVarDeclaration(toks, AdvanceSpec(toks, st)))
    else Present(ParseExpressionStatement(toks, st))
  }

  /** A parsed value as a present optional one. */
  function Present<T>(r: PResult<T>): (o: PResult<Option<T>>)
    ensures o.st == r.st && o.Ok? == r.Ok?
  {
    match r
    case Thrown(s) => Thrown(s)
    case Ok(v, s) => Ok(Some(v), s)
  }

  /** The condition and increment clauses of a `for`, with the `;` and the
      `)` that close them. */
  function ParseForHeader(toks: seq<Token>, st: PState): (r: PResult<(Option<Expr>, Option<Expr>)>)
    requires Valid(toks, st)
    ensures Progresses(toks, st, r)
  {
    match ParseOptionalExpression(toks, st, Semicolon)
    case Thrown(s) => Thrown(s)
    case Ok(cond, s) =>
      match ConsumeSpec(toks, s, Semicolon, "Expect ';' after condition")
      case Thrown(s1) => Thrown(s1)
      case Ok(_, s1) =>
        match ParseOptionalExpression(toks, s1, RightParen)
        case Thrown(s2) => Thrown(s2)
        case Ok(incr, s2) =>
          match ConsumeSpec(toks, s2, RightParen, "Expected ')' to close for")
          case Thrown(s3) => Thrown(s3)
          case Ok(_, s3) => Ok((cond, incr), s3)
  }

  /** An expression unless the next token is `stop` (the `for` clauses). */
  function ParseOptionalExpression(toks: seq<Token>, st: PState, stop: TokenType): (r: PResult<Option<Expr>>)
    requires Valid(toks, st)
    ensures Advances(toks, st, r)
    ensures r.Ok? && r.value.None? <==> Checks(toks, st.current, stop) && r == Ok(None, st)
  {
    if Checks(toks, st.current, stop) then Ok(None, st)
    else match ParseExpression(toks, st)
         case Thrown(s) => Thrown(s)
         case Ok(e, s) => Ok(Some(e), s)
  }

  /** `Parse`: declarations until EOF, one entry each. */
  function Parse(toks: seq<Token>): (r: (StmtList, seq<Report>))
    requires WellFormed(toks)
  {
    var end := ParseLoop(toks, [], PState(0, []));
    (end.value, end.st.reports)
  }

  function ParseLoop(toks: seq<Token>, acc: StmtList, st: PState): (r: PResult<StmtList>)
    requires Valid(toks, st)
    ensures r.Ok? && Advances(toks, st, r) && AtEnd(toks, r.st.current)
    ensures |r.value| >= |acc| && r.value[..|acc|] == acc
    decreases |toks| - st.current
  {
    if !AtEnd(toks, st.current) then
      var d := ParseDeclaration(toks, st);
      var r := ParseLoop(toks, acc + [d.value], d.st);
      assert r.value[..|acc|] == r.value[..|acc| + 1][..|acc|];
      r
    else Ok(acc, st)
  }
}
