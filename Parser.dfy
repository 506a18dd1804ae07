/** The parser of src/Parser.cs: a cursor over the scanner's tokens. Each
    grammar method returns its node, or sets `thrown` where the original
    throws `ParseError`; every method is proved to compute what the
    function of the same name in module Grammar says. */
module Parser {
  import opened Ast
  import opened Grammar

  class Parser {
    const tokens: seq<Token>
    /** The next token to be read. */
    var current: nat
    /** Diagnostics passed to the host's `Error(token, message)`. */
    var reports: seq<Report>

    ghost predicate Valid()
      reads this
    {
      Grammar.Valid(tokens, State())
    }

    function State(): PState
      reads this
    {
      PState(current, reports)
    }

    constructor (toks: seq<Token>)
      requires WellFormed(toks)
      ensures tokens == toks && State() == PState(0, []) && Valid()
    {
      tokens := toks;
      current := 0;
      reports := [];
    }

    // -------------------------------------------------------------------
    // The cursor.

    function Peek(): Token
      reads this
      requires Valid()
    {
      tokens[current]
    }

    /** Only called once a token has been consumed. */
    function Previous(): Token
      reads this
      requires 1 <= current <= |tokens|
    {
      tokens[current - 1]
    }

    predicate IsAtEnd()
      reads this
      requires Valid()
    {
      Peek().kind == Eof
    }

    predicate Check(kind: TokenType)
      reads this
      requires Valid()
    {
      if IsAtEnd() then false else Peek().kind == kind
    }

    /** One token forward, except at EOF; returns the token behind the
        cursor, which exists unless nothing was ever consumed. */
    method Advance() returns (t: Token)
      requires Valid() && (current >= 1 || !IsAtEnd())
      modifies this`current
      ensures Valid() && State() == AdvanceSpec(tokens, old(State()))
      ensures current >= 1 && t == tokens[current - 1]
    {
      if !IsAtEnd() {
        current := current + 1;
      }
      return Previous();
    }

    /** Consumes the first listed kind that `Check` accepts. */
    method Match(kinds: seq<TokenType>) returns (matched: bool)
      requires Valid()
      modifies this`current
      ensures Valid() && matched == MatchAny(tokens, old(current), kinds)
      ensures current == if matched then old(current) + 1 else old(current)
      ensures State() == if matched then AdvanceSpec(tokens, old(State())) else old(State())
    {
      for i := 0 to |kinds|
        invariant current == old(current)
        invariant forall j :: 0 <= j < i ==> !Check(kinds[j])
      {
        if Check(kinds[i]) {
          var _ := Advance();
          return true;
        }
      }
      return false;
    }

    method Consume(kind: TokenType, message: string) returns (t: Token, thrown: bool)
      requires Valid()
      modifies this
      ensures Valid() && ConsumeSpec(tokens, old(State()), kind, message) == Returned(t, thrown, State())
    {
      if Check(kind) {
        t := Advance();
        return t, false;
      }
      Error(Peek(), message);
      return Peek(), true;
    }

    method Error(token: Token, message: string)
      modifies this`reports
      ensures reports == old(reports) + [TokenReport(token, message)]
    {
      reports := reports + [TokenReport(token, message)];
    }

    /** Advances once. The loop that follows returns on every path of its
        first iteration (the `default` of its switch returns too), so it is
        written here as the `if` it amounts to. */
    method Synchronize()
      requires Valid() && (current >= 1 || !IsAtEnd())
      modifies this`current
      ensures Valid() && State() == SynchronizeSpec(tokens, old(State()))
    {
      var _ := Advance();
      if !IsAtEnd() {
        if Previous().kind == Semicolon {
          return;
        }
        match Peek().kind
        case Class | Fun | Var | If | While | Print | Return | For =>
          return;
        case _ =>
          return;
      }
    }

    // -------------------------------------------------------------------
    // Program and statements.

    method Parse() returns (statements: StmtList)
      requires Valid()
      modifies this
      ensures Valid() && ParseLoop(tokens, [], old(State())) == Ok(statements, State())
    {
      statements := [];
      while !IsAtEnd()
        invariant Valid() && old(current) <= current
        invariant ParseLoop(tokens, [], old(State())) == ParseLoop(tokens, statements, State())
        decreases |tokens| - current
      {
        var d := Declaration();
        statements := statements + [d];
      }
    }

    method Block() returns (statements: StmtList, thrown: bool)
      requires Valid()
      modifies this
      ensures Valid() && ParseBlock(tokens, old(State())) == Returned(statements, thrown, State())
      decreases |tokens| - current, 20
    {
      statements := [];
      while !Check(RightBrace) && !IsAtEnd()
        invariant Valid() && old(current) <= current
        invariant BlockLoop(tokens, [], old(State())) == BlockLoop(tokens, statements, State())
        decreases |tokens| - current
      {
        var d := Declaration();
        statements := statements + [d];
      }
      var brace;
      brace, thrown := Consume(RightBrace, "Expected '}'");
    }

    /** A failed declaration is synchronized past and leaves `None`. */
    method Declaration() returns (s: Option<Stmt>)
      requires Valid() && !IsAtEnd()
      modifies this
      ensures Valid() && ParseDeclaration(tokens, old(State())) == Ok(s, State())
      decreases |tokens| - current, 18
    {
      ghost var st := State();
      var isVar := Match([TokenType.Var]);
      var d, thrown;
      if isVar {
        d, thrown := VarDeclaration();
        assert ParseVarDeclaration(tokens, AdvanceSpec(tokens, st)) == Returned(d, thrown, State());
      } else {
        d, thrown := Statement();
        assert ParseStatement(tokens, st) == Returned(d, thrown, State());
      }
      if thrown {
        Synchronize();
        return None;
      }
      return Some(d);
    }

    method Statement() returns (s: Stmt, thrown: bool)
      requires Valid()
      modifies this
      ensures Valid() && ParseStatement(tokens, old(State())) == Returned(s, thrown, State())
      decreases |tokens| - current, 17
    {
      ghost var next := AdvanceSpec(tokens, State());
      var m := Match([TokenType.Print]);
      if m {
        assert State() == next;
        s, thrown := PrintStatement();
        return;
      }
      m := Match([LeftBrace]);
      if m {
        assert State() == next;
        var statements;
        statements, thrown := Block();
        return Stmt.Block(statements), thrown;
      }
      m := Match([TokenType.If]);
      if m {
        assert State() == next;
        s, thrown := IfStatement();
        return;
      }
      m := Match([TokenType.While]);
      if m {
        assert State() == next;
        s, thrown := WhileStatement();
        return;
      }
      m := Match([Fun]);
      if m {
        assert State() == next;
        s, thrown := Function();
        return;
      }
      m := Match([TokenType.Return]);
      if m {
        assert State() == next;
        s, thrown := ReturnStatement();
        return;
      }
      s, thrown := ExpressionStatement();
    }

    method ReturnStatement() returns (s: Stmt, thrown: bool)
      requires Valid() && current >= 1
      modifies this
      ensures Valid() && ParseReturnStatement(tokens, old(State())) == Returned(s, thrown, State())
      decreases |tokens| - current, 15
    {
      s := NoStmt;
      var keyword := Previous();
      var value;
      value, thrown := OptionalExpression(Semicolon);
      if thrown {
        return;
      }
      var semicolon;
      semicolon, thrown := Consume(Semicolon, "Expected ';' after return statement");
      s := Stmt.Return(keyword, value);
    }

    method Function() returns (s: Stmt, thrown: bool)
      requires Valid()
      modifies this
      ensures Valid() && ParseFunction(tokens, old(State())) == Returned(s, thrown, State())
      decreases |tokens| - current, 15
    {
      s := NoStmt;
      var name, paren;
      name, thrown := Consume(Identifier, "Expected function name");
      if thrown {
        return;
      }
      paren, thrown := Consume(LeftParen, "Expected '(' after function declaration");
      if thrown {
        return;
      }
      var parameters;
      parameters, thrown := Parameters();
      if thrown {
        return;
      }
      paren, thrown := Consume(RightParen, "Expected ')' after parameter list");
      if thrown {
        return;
      }
      paren, thrown := Consume(LeftBrace, "Expected '{' after function declaration");
      if thrown {
        return;
      }
      var body;
      body, thrown := Block();
      s := Stmt.Function(FunctionDecl(name, parameters, body));
    }

    method Parameters() returns (parameters: seq<Token>, thrown: bool)
      requires Valid()
      modifies this
      ensures Valid() && ParseParameters(tokens, old(State())) == Returned(parameters, thrown, State())
    {
      parameters := [];
      thrown := false;
      if !Check(RightParen) {
        while true
          invariant Valid() && old(current) <= current
          invariant ParamsLoop(tokens, [], old(State())) == ParamsLoop(tokens, parameters, State())
          decreases |tokens| - current
        {
          ghost var st := State();
          ghost var before := parameters;
          if |parameters| >= MaxArgs {
            Error(Peek(), "Too many parameters");
          }
          ghost var st1 := State();
          var p;
          p, thrown := Consume(Identifier, "Expected parameter name");
          if thrown {
            return;
          }
          ghost var st2 := State();
          parameters := parameters + [p];
          var more := Match([Comma]);
          if !more {
            assert ParamsLoop(tokens, before, st) == Ok(parameters, st2);
            break;
          }
          assert ParamsLoop(tokens, before, st) == ParamsLoop(tokens, parameters, State());
        }
      }
    }

    /** The condition is bracketed by `{` and `}`. */
    method WhileStatement() returns (s: Stmt, thrown: bool)
      requires Valid()
      modifies this
      ensures Valid() && ParseWhileStatement(tokens, old(State())) == Returned(s, thrown, State())
      decreases |tokens| - current, 15
    {
      s := NoStmt;
      var brace, condition, body;
      brace, thrown := Consume(LeftBrace, "Expect '(' after while");
      if thrown {
        return;
      }
      condition, thrown := Expression();
      if thrown {
        return;
      }
      brace, thrown := Consume(RightBrace, "Expect ')' after expression in while loop");
      if thrown {
        return;
      }
      body, thrown := Statement();
      s := Stmt.While(condition, body);
    }

    method IfStatement() returns (s: Stmt, thrown: bool)
      requires Valid()
      modifies this
      ensures Valid() && ParseIfStatement(tokens, old(State())) == Returned(s, thrown, State())
      decreases |tokens| - current, 15
    {
      s := NoStmt;
      var paren, condition, thenBranch;
      paren, thrown := Consume(LeftParen, "Expect '(' after if");
      if thrown {
        return;
      }
      condition, thrown := Expression();
      if thrown {
        return;
      }
      paren, thrown := Consume(RightParen, "Expect ')' after expression in if");
      if thrown {
        return;
      }
      thenBranch, thrown := Statement();
      if thrown {
        return;
      }
      var elseBranch := None;
      var hasElse := Match([Else]);
      if hasElse {
        var e;
        e, thrown := Statement();
        if thrown {
          return;
        }
        elseBranch := Some(e);
      }
      s := Stmt.If(condition, thenBranch, elseBranch);
    }

    method PrintStatement() returns (s: Stmt, thrown: bool)
      requires Valid()
      modifies this
      ensures Valid() && ParsePrintStatement(tokens, old(State())) == Returned(s, thrown, State())
      decreases |tokens| - current, 15
    {
      s := NoStmt;
      var value, semicolon;
      value, thrown := Expression();
      if thrown {
        return;
      }
      semicolon, thrown := Consume(Semicolon, "Expected ';' at the end of a print statement");
      s := Stmt.Print(value);
    }

    method ExpressionStatement() returns (s: Stmt, thrown: bool)
      requires Valid()
      modifies this
      ensures Valid() && ParseExpressionStatement(tokens, old(State())) == Returned(s, thrown, State())
      decreases |tokens| - current, 15
    {
      s := NoStmt;
      var e, semicolon;
      e, thrown := Expression();
      if thrown {
        return;
      }
      semicolon, thrown := Consume(Semicolon, "Expected ';' at the end of a expression statement");
      s := Stmt.Expression(e);
    }

    method VarDeclaration() returns (s: Stmt, thrown: bool)
      requires Valid()
      modifies this
      ensures Valid() && ParseVarDeclaration(tokens, old(State())) == Returned(s, thrown, State())
      decreases |tokens| - current, 15
    {
      s := NoStmt;
      var name, semicolon;
      name, thrown := Consume(Identifier, "Expected an identifier");
      if thrown {
        return;
      }
      var initializer := None;
      var hasInit := Match([Equal]);
      if hasInit {
        var e;
        e, thrown := Expression();
        if thrown {
          return;
        }
        initializer := Some(e);
      }
      semicolon, thrown := Consume(Semicolon, "Expected ';' after variable declaration");
      s := Stmt.Var(name, initializer);
    }

    /** Desugars `for` into `while`; nothing calls it. Its clauses are
        parsed by the two methods after it, which hold its first lines. */
    method ForStatement() returns (s: Stmt, thrown: bool)
      requires Valid()
      modifies this
      ensures Valid() && ParseForStatement(tokens, old(State())) == Returned(s, thrown, State())
    {
      s := NoStmt;
      var paren;
      paren, thrown := Consume(LeftParen, "Expected '(' after for");
      if thrown {
        return;
      }
      var initializer, condition, increment, body;
      initializer, thrown := ForInitializer();
      if thrown {
        return;
      }
      condition, increment, thrown := ForHeader();
      if thrown {
        return;
      }
      body, thrown := Statement();
      if thrown {
        return;
      }
      ghost var loopBody := body;
      if increment.Some? {
        body := Stmt.Block([Some(body), Some(Stmt.Expression(increment.value))]);
      }
      var cond := if condition.Some? then condition.value else Literal(BoolLit(true));
      body := Stmt.While(cond, body);
      if initializer.Some? {
        body := Stmt.Block([Some(initializer.value), Some(body)]);
      }
      s := body;
      assert s == DesugarFor(initializer, condition, increment, loopBody);
    }

    method ForInitializer() returns (initializer: Option<Stmt>, thrown: bool)
      requires Valid()
      modifies this
      ensures Valid() && ParseForInitializer(tokens, old(State())) == Returned(initializer, thrown, State())
    {
      var m := Match([Semicolon]);
      if m {
        return None, false;
      }
      m := Match([TokenType.Var]);
      var d;
      if m {
        d, thrown := VarDeclaration();
      } else {
        d, thrown := ExpressionStatement();
      }
      assert Present(Returned(d, thrown, State())) == Returned(Some(d), thrown, State());
      initializer := Some(d);
    }

    method ForHeader() returns (condition: Option<Expr>, increment: Option<Expr>, thrown: bool)
      requires Valid()
      modifies this
      ensures Valid() && ParseForHeader(tokens, old(State())) == Returned((condition, increment), thrown, State())
    {
      increment := None;
      condition, thrown := OptionalExpression(Semicolon);
      if thrown {
        return;
      }
      var semicolon;
      semicolon, thrown := Consume(Semicolon, "Expect ';' after condition");
      if thrown {
        return;
      }
      increment, thrown := OptionalExpression(RightParen);
      if thrown {
        return;
      }
      var paren;
      paren, thrown := Consume(RightParen, "Expected ')' to close for");
    }

    /** A `for` clause: an expression unless `stop` comes first. */
    method OptionalExpression(stop: TokenType) returns (e: Option<Expr>, thrown: bool)
      requires Valid()
      modifies this
      ensures Valid() && ParseOptionalExpression(tokens, old(State()), stop) == Returned(e, thrown, State())
    {
      e, thrown := None, false;
      if !Check(stop) {
        var x;
        x, thrown := Expression();
        e := Some(x);
      }
    }

    // -------------------------------------------------------------------
    // Expressions.

    method Expression() returns (e: Expr, thrown: bool)
      requires Valid()
      modifies this
      ensures Valid() && ParseExpression(tokens, old(State())) == Returned(e, thrown, State())
      decreases |tokens| - current, 14
    {
      e, thrown := Assignment();
    }

    method Assignment() returns (e: Expr, thrown: bool)
      requires Valid()
      modifies this
      ensures Valid() && ParseAssignment(tokens, old(State())) == Returned(e, thrown, State())
      decreases |tokens| - current, 12
    {
      e := NoExpr;
      e, thrown := Equality();
      if thrown {
        return;
      }
      var isAssign := Match([Equal]);
      if isAssign {
        var equals := Previous();
        var id := current - 1;
        var value;
        value, thrown := Assignment();
        if thrown {
          return;
        }
        if e.Variable? {
          return Assign(id, e.name, value), false;
        }
        Error(equals, "Invalid assignment target");
      }
    }

    method Or() returns (e: Expr, thrown: bool)
      requires Valid()
      modifies this
      ensures Valid() && ParseOr(tokens, old(State())) == Returned(e, thrown, State())
      decreases |tokens| - current, 13
    {
      e, thrown := And();
      if thrown {
        return;
      }
      while true
        invariant Valid() && old(current) < current
        invariant ParseOr(tokens, old(State())) == OrLoop(tokens, e, State())
        decreases |tokens| - current
      {
        ghost var st := State();
        var m := Match([TokenType.Or]);
        if !m {
          return;
        }
        var op := Previous();
        ghost var after := State();
        var right;
        right, thrown := Or();
        if thrown {
          return;
        }
        assert ParseOr(tokens, after) == Ok(right, State());
        assert OrLoop(tokens, e, st) == OrLoop(tokens, Logical(e, op, right), State());
        e := Logical(e, op, right);
      }
    }

    method And() returns (e: Expr, thrown: bool)
      requires Valid()
      modifies this
      ensures Valid() && ParseAnd(tokens, old(State())) == Returned(e, thrown, State())
      decreases |tokens| - current, 12
    {
      e, thrown := Equality();
      if thrown {
        return;
      }
      while true
        invariant Valid() && old(current) < current
        invariant ParseAnd(tokens, old(State())) == AndLoop(tokens, e, State())
        decreases |tokens| - current
      {
        var m := Match([TokenType.And]);
        if !m {
          return;
        }
        var op := Previous();
        var right;
        right, thrown := Equality();
        if thrown {
          return;
        }
        e := Logical(e, op, right);
      }
    }

    method Equality() returns (e: Expr, thrown: bool)
      requires Valid()
      modifies this
      ensures Valid() && ParseLevel(tokens, old(State()), 4) == Returned(e, thrown, State())
      decreases |tokens| - current, 11
    {
      e, thrown := Comparison();
      if thrown {
        return;
      }
      while true
        invariant Valid() && old(current) < current
        invariant ParseLevel(tokens, old(State()), 4) == LevelLoop(tokens, 4, e, State())
        decreases |tokens| - current
      {
        var m := Match([EqualEqual, BangEqual]);
        if !m {
          return;
        }
        var op := Previous();
        var right;
        right, thrown := Comparison();
        if thrown {
          return;
        }
        e := Binary(e, op, right);
      }
    }

    method Comparison() returns (e: Expr, thrown: bool)
      requires Valid()
      modifies this
      ensures Valid() && ParseLevel(tokens, old(State()), 3) == Returned(e, thrown, State())
      decreases |tokens| - current, 9
    {
      e, thrown := Term();
      if thrown {
        return;
      }
      while true
        invariant Valid() && old(current) < current
        invariant ParseLevel(tokens, old(State()), 3) == LevelLoop(tokens, 3, e, State())
        decreases |tokens| - current
      {
        var m := Match([Greater, GreaterEqual, Less, LessEqual]);
        if !m {
          return;
        }
        var op := Previous();
        var right;
        right, thrown := Term();
        if thrown {
          return;
        }
        e := Binary(e, op, right);
      }
    }

    method Term() returns (e: Expr, thrown: bool)
      requires Valid()
      modifies this
      ensures Valid() && ParseLevel(tokens, old(State()), 2) == Returned(e, thrown, State())
      decreases |tokens| - current, 7
    {
      e, thrown := Factor();
      if thrown {
        return;
      }
      while true
        invariant Valid() && old(current) < current
        invariant ParseLevel(tokens, old(State()), 2) == LevelLoop(tokens, 2, e, State())
        decreases |tokens| - current
      {
        var m := Match([Plus, Minus]);
        if !m {
          return;
        }
        var op := Previous();
        var right;
        right, thrown := Factor();
        if thrown {
          return;
        }
        e := Binary(e, op, right);
      }
    }

    method Factor() returns (e: Expr, thrown: bool)
      requires Valid()
      modifies this
      ensures Valid() && ParseLevel(tokens, old(State()), 1) == Returned(e, thrown, State())
      decreases |tokens| - current, 5
    {
      e, thrown := Unary();
      if thrown {
        return;
      }
      while true
        invariant Valid() && old(current) < current
        invariant ParseLevel(tokens, old(State()), 1) == LevelLoop(tokens, 1, e, State())
        decreases |tokens| - current
      {
        var m := Match([Slash, Star]);
        if !m {
          return;
        }
        var op := Previous();
        var right;
        right, thrown := Unary();
        if thrown {
          return;
        }
        e := Binary(e, op, right);
      }
    }

    method Unary() returns (e: Expr, thrown: bool)
      requires Valid()
      modifies this
      ensures Valid() && ParseUnary(tokens, old(State())) == Returned(e, thrown, State())
      decreases |tokens| - current, 2
    {
      e := NoExpr;
      var m := Match([Bang, Minus]);
      if m {
        var op := Previous();
        var right;
        right, thrown := Unary();
        if thrown {
          return;
        }
        return Expr.Unary(op, right), false;
      }
      e, thrown := Call();
    }

    method Call() returns (e: Expr, thrown: bool)
      requires Valid()
      modifies this
      ensures Valid() && ParseCall(tokens, old(State())) == Returned(e, thrown, State())
      decreases |tokens| - current, 1
    {
      e, thrown := Primary();
      if thrown {
        return;
      }
      while true
        invariant Valid() && old(current) < current
        invariant ParseCall(tokens, old(State())) == CallLoop(tokens, e, State())
        decreases |tokens| - current
      {
        ghost var st := State();
        ghost var callee := e;
        var m := Match([LeftParen]);
        if !m {
          assert CallLoop(tokens, e, st) == Ok(e, st);
          return;
        }
        assert State() == AdvanceSpec(tokens, st);
        e, thrown := FinishCall(e);
        if thrown {
          assert CallLoop(tokens, callee, st) == Thrown(State());
          return;
        }
        assert CallLoop(tokens, callee, st) == CallLoop(tokens, e, State());
      }
    }

    method FinishCall(callee: Expr) returns (e: Expr, thrown: bool)
      requires Valid()
      modifies this
      ensures Valid() && ParseFinishCall(tokens, callee, old(State())) == Returned(e, thrown, State())
      decreases |tokens| - current, 17
    {
      e := NoExpr;
      var args;
      args, thrown := Arguments();
      if thrown {
        return;
      }
      var paren;
      paren, thrown := Consume(RightParen, "Expected ')' after arguments");
      e := Expr.Call(callee, paren, args);
    }

    method Arguments() returns (args: seq<Expr>, thrown: bool)
      requires Valid()
      modifies this
      ensures Valid() && ParseArguments(tokens, old(State())) == Returned(args, thrown, State())
      decreases |tokens| - current, 16
    {
      args := [];
      thrown := false;
      if !Check(RightParen) {
        while true
          invariant Valid() && old(current) <= current
          invariant ArgsLoop(tokens, [], old(State())) == ArgsLoop(tokens, args, State())
          decreases |tokens| - current
        {
          ghost var st := State();
          ghost var before := args;
          if |args| >= MaxArgs {
            Error(Peek(), "Too many arguments");
          }
          var a;
          a, thrown := Expression();
          if thrown {
            assert ArgsLoop(tokens, before, st) == Thrown(State());
            return;
          }
          ghost var st2 := State();
          args := args + [a];
          var more := Match([Comma]);
          if !more {
            assert ArgsLoop(tokens, before, st) == Ok(args, st2);
            break;
          }
          assert ArgsLoop(tokens, before, st) == ArgsLoop(tokens, args, State());
        }
      }
    }

    method Primary() returns (e: Expr, thrown: bool)
      requires Valid()
      modifies this
      ensures Valid() && ParsePrimary(tokens, old(State())) == Returned(e, thrown, State())
      decreases |tokens| - current, 0
    {
      e := NoExpr;
      var m := Match([False]);
      if m {
        return Literal(BoolLit(false)), false;
      }
      m := Match([True]);
      if m {
        return Literal(BoolLit(true)), false;
      }
      m := Match([Nil]);
      if m {
        return Literal(NilLit), false;
      }
      m := Match([Number, String]);
      if m {
        return Literal(Previous().literal), false;
      }
      m := Match([Identifier]);
      if m {
        return Variable(current - 1, Previous()), false;
      }
      m := Match([LeftParen]);
      if m {
        e, thrown := Expression();
        if thrown {
          return;
        }
        var paren;
        paren, thrown := Consume(RightParen, "Expected ')' after expression");
        return Grouping(e), thrown;
      }
      Error(Peek(), "Expected expression [primary]");
      return NoExpr, true;
    }
  }
}
