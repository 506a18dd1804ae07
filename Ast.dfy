/** Tokens, diagnostics and the syntax trees shared by the scanner, the parser,
    the resolver and the interpreter. */
module Ast {

  datatype Option<T> = None | Some(value: T)

  /** The token kinds the scanner and the parser refer to. */
  datatype TokenType =
    | LeftParen | RightParen | LeftBrace | RightBrace
    | Comma | Dot | Minus | Plus | Semicolon | Slash | Star
    | Bang | BangEqual | Equal | EqualEqual
    | Greater | GreaterEqual | Less | LessEqual
    | Identifier | String | Number
    | And | Class | Else | False | Fun | For | If | Nil | Or
    | Print | Return | True | Var | While
    | Eof

  /** A literal payload: the token's `literal` object and the value of a
      `Literal` expression node (a missing object is `NilLit`). */
  datatype Lit = NilLit | BoolLit(b: bool) | NumLit(n: real) | StrLit(s: string)

  datatype Token = Token(kind: TokenType, lexeme: string, literal: Lit, line: int)

  /** A static diagnostic, as passed to the host's error channel: either
      with a bare line number (scanner) or with the offending token. */
  datatype Report =
    | LineReport(line: int, message: string)
    | TokenReport(token: Token, message: string)

  /** Expression nodes are compared by identity in the original; the nodes
      the resolver annotates carry an explicit identity instead. */
  type NodeId = nat

  datatype Expr =
    | Literal(lit: Lit)
    | Grouping(expression: Expr)
    | Unary(op: Token, right: Expr)
    | Binary(left: Expr, op: Token, right: Expr)
    | Logical(left: Expr, op: Token, right: Expr)
    | Variable(id: NodeId, name: Token)
    | Assign(id: NodeId, name: Token, value: Expr)
    | Call(callee: Expr, paren: Token, arguments: seq<Expr>)
    | Get(object: Expr, name: Token)
    | Set(object: Expr, name: Token, value: Expr)
    | This(id: NodeId, keyword: Token)

  /** A statement list as the parser builds it: a declaration that failed to
      parse leaves a `None` entry where the original stores null. */
  type StmtList = seq<Option<Stmt>>

  datatype Stmt =
    | Expression(expression: Expr)
    | Print(expression: Expr)
    | Var(name: Token, initializer: Option<Expr>)
    | Block(statements: StmtList)
    | If(condition: Expr, thenBranch: Stmt, elseBranch: Option<Stmt>)
    | While(condition: Expr, body: Stmt)
    | Function(decl: FunctionDecl)
    | Return(keyword: Token, value: Option<Expr>)
    | Class(name: Token, methods: seq<FunctionDecl>)

  datatype FunctionDecl = FunctionDecl(name: Token, params: seq<Token>, body: StmtList)

  /** Size measures for statements, used to prove that the passes over the
      tree terminate. */
  function Size(s: Stmt): (n: nat)
    ensures n >= 1
    decreases s, 1
  {
    match s
    case Block(ss) => 1 + ListSizeWithin(s, ss)
    case If(_, t, e) => 1 + Size(t) + (if e.Some? then Size(e.value) else 0)
    case While(_, b) => 1 + Size(b)
    case _ => 1
  }

  function ListSizeWithin(ghost parent: Stmt, ss: StmtList): (n: nat)
    requires forall i :: 0 <= i < |ss| ==> ss[i] < parent
    ensures forall i :: 0 <= i < |ss| && ss[i].Some? ==> Size(ss[i].value) <= n
    decreases parent, 0, |ss|
  {
    if ss == [] then 0
    else (if ss[0].Some? then Size(ss[0].value) else 0) + ListSizeWithin(parent, ss[1..])
  }

  /** The size of a statement list: below the size of the block holding it,
      and at least the size of each statement in it. */
  function ListSize(ss: StmtList): (n: nat)
    ensures n < Size(Block(ss))
    ensures forall i :: 0 <= i < |ss| && ss[i].Some? ==> Size(ss[i].value) <= n
    ensures ss != [] ==> ListSize(ss[1..]) <= n
  {
    if ss != [] then ListSizeAnyParent(Block(ss), Block(ss[1..]), ss[1..]); ListSizeWithin(Block(ss), ss)
    else ListSizeWithin(Block(ss), ss)
  }

  lemma {:induction false} ListSizeAnyParent(p: Stmt, q: Stmt, ss: StmtList)
    requires forall i :: 0 <= i < |ss| ==> ss[i] < p && ss[i] < q
    ensures ListSizeWithin(p, ss) == ListSizeWithin(q, ss)
    decreases |ss|
  {
    if ss != [] {
      ListSizeAnyParent(p, q, ss[1..]);
    }
  }

  /** Number of `Class` declarations a statement resolves outside function
      bodies (each leaves one scope pushed in the resolver). */
  function ClassDecls(s: Stmt): nat
    decreases Size(s), 1
  {
    match s
    case Block(ss) => ListClassDecls(ss)
    case If(_, t, e) => ClassDecls(t) + (if e.Some? then ClassDecls(e.value) else 0)
    case While(_, b) => ClassDecls(b)
    case Class(_, _) => 1
    case _ => 0
  }

  function ListClassDecls(ss: StmtList): nat
    decreases ListSize(ss), 2, |ss|
  {
    if ss == [] then 0
    else (if ss[0].Some? then ClassDecls(ss[0].value) else 0) + ListClassDecls(ss[1..])
  }

  /** True when an expression tree contains a `Logical` node. */
  predicate HasLogical(e: Expr)
  {
    match e
    case Literal(_) => false
    case Grouping(x) => HasLogical(x)
    case Unary(_, r) => HasLogical(r)
    case Binary(l, _, r) => HasLogical(l) || HasLogical(r)
    case Logical(_, _, _) => true
    case Variable(_, _) => false
    case Assign(_, _, v) => HasLogical(v)
    case Call(c, _, args) => HasLogical(c) || exists i :: 0 <= i < |args| && HasLogical(args[i])
    case Get(o, _) => HasLogical(o)
    case Set(o, _, v) => HasLogical(o) || HasLogical(v)
    case This(_, _) => false
  }
}
