/** What the resolver computes on small programs and in general, stated
    over the functions of module Resolution. */
module ResolverProperties {
  import opened Ast
  import opened Resolution

  /** `ResolveLocal` logs exactly one depth when some scope holds the name
      and none otherwise; the depth `d` names scope `n - 1 - d` of a stack
      of `n`, the outermost one holding the name. */
  lemma ResolveLocalLogsOutermost(id: NodeId, name: Token, st: RState)
    ensures var r := ResolveLocal(id, name, st);
      && (r.resolved == st.resolved <==> forall k :: 0 <= k < |st.scopes| ==> name.lexeme !in st.scopes[k])
      && (r.resolved != st.resolved ==>
            exists d: nat :: && r.resolved == st.resolved + [(id, d)] && d < |st.scopes|
                             && name.lexeme in st.scopes[|st.scopes| - 1 - d]
                             && forall k :: |st.scopes| - 1 - d < k < |st.scopes| ==> name.lexeme !in st.scopes[k])
  {
    var r := ResolveLocal(id, name, st);
    match Outermost(st.scopes, name.lexeme)
    case Some(i) =>
      assert r.resolved == st.resolved + [(id, |st.scopes| - 1 - i)];
      assert r.resolved != st.resolved by {
        assert |r.resolved| == |st.resolved| + 1;
      }
    case None =>
  }

  /** A name held only by the innermost scope is logged at depth `n - 1`
      of a stack of `n`, not at depth 0. */
  lemma InnermostNameLoggedAtStackHeight(id: NodeId, name: Token, st: RState)
    requires |st.scopes| > 0 && name.lexeme in st.scopes[0]
    requires forall k :: 0 < k < |st.scopes| ==> name.lexeme !in st.scopes[k]
    ensures ResolveLocal(id, name, st).resolved == st.resolved + [(id, |st.scopes| - 1)]
  {
    assert Outermost(st.scopes, name.lexeme) == Some(0);
  }

  /** Outside any block the stack is empty, so reading a variable at the
      top level of a program makes `Peek` throw. */
  lemma TopLevelReadAborts(id: NodeId, name: Token, keyword: Token)
    ensures ResolveList([Some(Stmt.Print(Variable(id, name)))], InitialState) == Aborted(EmptyStack, InitialState)
  {
    assert ResolveStmt(Stmt.Print(Variable(id, name)), InitialState) == Aborted(EmptyStack, InitialState);
  }

  /** A variable read, for every state: `Peek` on an empty stack throws;
      otherwise the read is reported exactly when the name is missing from,
      or not yet defined in, the innermost scope (a global read inside a
      block included), and then logged as `ResolveLocal` does. */
  lemma VariableReadChecksInnermostScope(id: NodeId, name: Token, st: RState)
    ensures var r := ResolveExpr(Variable(id, name), st);
      && (r.Aborted? <==> st.scopes == [])
      && (st.scopes == [] ==> r == Aborted(EmptyStack, st))
      && (st.scopes != [] ==>
            var defined := name.lexeme in st.scopes[0] && st.scopes[0][name.lexeme];
            && r.st.scopes == st.scopes
            && r.st.reports == st.reports + (if defined then [] else [TokenReport(name, OwnInitializerMessage)])
            && r.st.resolved == ResolveLocal(id, name, st).resolved)
  {
  }

  /** A `var` declares its name, resolves the initializer while the name is
      declared but not defined, and defines it afterwards; on an empty
      stack both are no-ops and only the initializer is resolved. */
  lemma VarDeclaresResolvesThenDefines(name: Token, e: Expr, st: RState)
    ensures var r := ResolveVar(name, Some(e), st);
      && (st.scopes == [] ==> r == ResolveExpr(e, st))
      && (st.scopes != [] && name.lexeme in st.scopes[0] ==>
            r == Aborted(DuplicateKey(name.lexeme), AddReport(st, name, DuplicateMessage)))
      && (st.scopes != [] && name.lexeme !in st.scopes[0] ==>
            var during := st.(scopes := st.scopes[0 := st.scopes[0][name.lexeme := false]]);
            && (r.Aborted? <==> ResolveExpr(e, during).Aborted?)
            && (r.Resolved? ==> r.st == ResolveExpr(e, during).st.(scopes := st.scopes[0 := st.scopes[0][name.lexeme := true]])))
  {
    if st.scopes == [] {
      var x := ResolveExpr(e, st);
      assert x.Resolved? ==> Define(name, x.st) == x.st;
    } else if name.lexeme !in st.scopes[0] {
      var during := st.(scopes := st.scopes[0 := st.scopes[0][name.lexeme := false]]);
      assert Declare(name, st) == Resolved(during);
      var x := ResolveExpr(e, during);
      if x.Resolved? {
        assert x.st.scopes == during.scopes;
        assert during.scopes[0][name.lexeme := true] == st.scopes[0][name.lexeme := true];
        assert Define(name, x.st).scopes == st.scopes[0 := st.scopes[0][name.lexeme := true]];
      }
    }
  }

  /** Reading a variable in its own initializer is reported, whatever the
      stack holds, as long as the name is new to the innermost scope. */
  lemma OwnInitializerReadIsReported(id: NodeId, name: Token, st: RState)
    requires st.scopes != [] && name.lexeme !in st.scopes[0]
    ensures var r := ResolveVar(name, Some(Variable(id, name)), st);
      r.Resolved? && r.st.reports == st.reports + [TokenReport(name, OwnInitializerMessage)]
  {
    var during := st.(scopes := st.scopes[0 := st.scopes[0][name.lexeme := false]]);
    VarDeclaresResolvesThenDefines(name, Variable(id, name), st);
    VariableReadChecksInnermostScope(id, name, during);
  }

  /** `{ var a = a; }`: the initializer reads `a` while it is declared but
      not defined, which is reported; resolution goes on and logs the read
      at the depth of the block's scope counted from the bottom. */
  lemma OwnInitializerIsReported(id: NodeId, a: Token, st: RState)
    requires forall k :: 0 <= k < |st.scopes| ==> a.lexeme !in st.scopes[k]
    ensures ResolveStmt(Block([Some(Stmt.Var(a, Some(Variable(id, a))))]), st)
         == Resolved(st.(reports := st.reports + [TokenReport(a, OwnInitializerMessage)],
                         resolved := st.resolved + [(id, |st.scopes|)]))
  {
    var s0 := BeginScope(st);
    var s1 := s0.(scopes := s0.scopes[0 := map[a.lexeme := false]]);
    assert Declare(a, s0) == Resolved(s1);
    InnermostNameLoggedAtStackHeight(id, a, AddReport(s1, a, OwnInitializerMessage));
    var s2 := AddReport(s1, a, OwnInitializerMessage).(resolved := st.resolved + [(id, |st.scopes|)]);
    assert ResolveExpr(Variable(id, a), s1) == Resolved(s2);
    var s3 := Define(a, s2);
    assert ResolveVar(a, Some(Variable(id, a)), s0) == Resolved(s3);
    assert ResolveList([Some(Stmt.Var(a, Some(Variable(id, a))))], s0) == Resolved(s3) by {
      assert [Some(Stmt.Var(a, Some(Variable(id, a))))][1..] == [];
    }
  }

  /** `{ var a; var a; }`: the second declaration is reported, then the
      dictionary's `Add` throws. */
  lemma RedeclarationReportsThenAborts(a: Token, st: RState)
    ensures var r := ResolveStmt(Block([Some(Stmt.Var(a, None)), Some(Stmt.Var(a, None))]), st);
      && r.Aborted? && r.fault == DuplicateKey(a.lexeme)
      && r.st.reports == st.reports + [TokenReport(a, DuplicateMessage)]
  {
    var ss: StmtList := [Some(Stmt.Var(a, None)), Some(Stmt.Var(a, None))];
    var s0 := BeginScope(st);
    var s1 := s0.(scopes := s0.scopes[0 := map[a.lexeme := true]]);
    assert map[a.lexeme := false][a.lexeme := true] == map[a.lexeme := true];
    assert ResolveVar(a, None, s0) == Resolved(s1);
    assert ResolveStmt(ss[0].value, s0) == Resolved(s1);
    assert ResolveList(ss, s0) == ResolveList(ss[1..], s1);
    var r := Aborted(DuplicateKey(a.lexeme), AddReport(s1, a, DuplicateMessage));
    assert ResolveVar(a, None, s1) == r;
    assert ResolveStmt(ss[1].value, s1) == r;
    assert ResolveList(ss[1..], s1) == r;
  }

  /** `fun f(a, a) {}` inside a block: the repeated parameter makes `Add`
      throw with the function's scope still pushed. */
  lemma DuplicateParameterAborts(f: Token, a: Token, body: StmtList, st: RState)
    requires |st.scopes| > 0 && f.lexeme !in st.scopes[0]
    ensures var r := ResolveStmt(Function(FunctionDecl(f, [a, a], body)), st);
      && r.Aborted? && r.fault == DuplicateKey(a.lexeme)
      && |r.st.scopes| == |st.scopes| + 1 && r.st.functionType == PlainFunction
  {
    var s1 := Define(f, Declare(f, st).st);
    var s2 := BeginScope(s1).(functionType := PlainFunction);
    var s3 := Define(a, Declare(a, s2).st);
    assert DeclareParams([a, a], s2) == DeclareParams([a], s3);
  }

  /** The body of a function is never visited: resolving a declaration
      depends on its name and parameters only. */
  lemma FunctionBodyIsNotResolved(decl: FunctionDecl, body: StmtList, kind: FunctionType, st: RState)
    ensures ResolveFunction(decl, kind, st) == ResolveFunction(decl.(body := body), kind, st)
  {
  }

  /** `{ class A {} }` leaves the stack one scope deeper: the block's
      `EndScope` pops the class scope, and the block's own, empty, scope
      stays behind. */
  lemma ClassInBlockLeavesBlockScope(a: Token, st: RState)
    requires a.lexeme != "this"
    ensures ResolveStmt(Block([Some(Stmt.Class(a, []))]), st) == Resolved(st.(scopes := [map[]] + st.scopes))
  {
    var s0 := BeginScope(st);
    var s1 := ClassScope(a, s0).(classType := st.classType);
    EmptyClass(a, s0);
    assert ResolveList([Some(Stmt.Class(a, []))], s0) == Resolved(s1) by {
      assert [Some(Stmt.Class(a, []))][1..] == [];
    }
    assert s1.scopes[1..] == [map[]] + st.scopes;
  }

  lemma EmptyClass(a: Token, st: RState)
    requires a.lexeme != "this"
    ensures ResolveStmt(Stmt.Class(a, []), st) == Resolved(ClassScope(a, st).(classType := st.classType))
  {
    var c0 := BeginScope(st.(classType := InClass));
    var c1 := c0.(scopes := c0.scopes[0 := map[a.lexeme := false]]);
    assert Declare(a, c0) == Resolved(c1);
    assert map[a.lexeme := false][a.lexeme := true] == map[a.lexeme := true];
    assert ResolveMethods([], ClassScope(a, st)) == Resolved(ClassScope(a, st));
  }

  /** A class named `this` makes the `Add` of `this` throw. */
  lemma ClassNamedThisAborts(a: Token, methods: seq<FunctionDecl>, st: RState)
    requires a.lexeme == "this"
    ensures ResolveClass(a, methods, st).Aborted? && ResolveClass(a, methods, st).fault == DuplicateKey("this")
  {
  }

  /** The right operand of a binary expression is resolved before the
      left: its read is logged first. */
  lemma RightOperandIsLoggedFirst(left: NodeId, right: NodeId, a: Token, op: Token, b: Token, st: RState)
    requires st.scopes == [map[a.lexeme := true, b.lexeme := true]]
    ensures ResolveExpr(Binary(Variable(left, a), op, Variable(right, b)), st)
         == Resolved(st.(resolved := st.resolved + [(right, 0), (left, 0)]))
  {
    var e := Binary(Variable(left, a), op, Variable(right, b));
    var s1 := st.(resolved := st.resolved + [(right, 0)]);
    DefinedVariableIsLogged(right, b, st);
    DefinedVariableIsLogged(left, a, s1);
    assert ResolveExpr(e, st) == ResolveOperands(e, Variable(right, b), Variable(left, a), st);
    assert s1.resolved + [(left, 0)] == st.resolved + [(right, 0), (left, 0)];
  }

  /** A read of a name defined in the only scope logs depth 0. */
  lemma DefinedVariableIsLogged(id: NodeId, name: Token, st: RState)
    requires |st.scopes| == 1 && name.lexeme in st.scopes[0] && st.scopes[0][name.lexeme]
    ensures ResolveExpr(Variable(id, name), st) == Resolved(st.(resolved := st.resolved + [(id, 0)]))
  {
    assert Outermost(st.scopes, name.lexeme) == Some(0);
  }

  /** `this` outside a class is reported, and resolution goes on. */
  lemma ThisOutsideClassIsReported(id: NodeId, keyword: Token, st: RState)
    requires st.classType == NoClass
    ensures var r := ResolveExpr(This(id, keyword), st);
      r.Resolved? && r.st.reports == st.reports + [TokenReport(keyword, ThisOutsideClassMessage)]
  {
  }

  /** A returned value is reported exactly when the enclosing function is
      an initializer. */
  lemma ReturnReportsOnlyInInitializer(keyword: Token, value: Expr, st: RState)
    ensures var r := ResolveReturn(keyword, Some(value), st);
      (|r.st.reports| > |st.reports| && r.st.reports[|st.reports|] == TokenReport(keyword, InitializerReturnMessage))
      <==> st.functionType == Initializer
  {
    var r := ResolveReturn(keyword, Some(value), st);
    if st.functionType != Initializer {
      assert r == ResolveExpr(value, st);
      ExprReportsAreNotAboutReturns(value, st);
    }
  }

  /** No report added between `before` and `after` is about a returned value. */
  ghost predicate NoReturnReports(before: seq<Report>, after: seq<Report>)
  {
    forall k :: |before| <= k < |after| ==> after[k].message != InitializerReturnMessage
  }

  lemma NoReturnReportsTransitive(a: seq<Report>, b: seq<Report>, c: seq<Report>)
    requires a <= b <= c && NoReturnReports(a, b) && NoReturnReports(b, c)
    ensures NoReturnReports(a, c)
  {
    forall k | |a| <= k < |c|
      ensures c[k].message != InitializerReturnMessage
    {
      if k < |b| {
        assert c[k] == b[k];
      }
    }
  }

  /** Expressions report only a read in an initializer or a stray `this`. */
  lemma {:induction false} ExprReportsAreNotAboutReturns(e: Expr, st: RState)
    ensures NoReturnReports(st.reports, ResolveExpr(e, st).st.reports)
    decreases e, 1
  {
    match e
    case Literal(_) =>
    case Grouping(x) => ExprReportsAreNotAboutReturns(x, st);
    case Unary(_, x) => ExprReportsAreNotAboutReturns(x, st);
    case Binary(l, _, x) => OperandReportsAreNotAboutReturns(e, x, l, st);
    case Logical(l, _, x) => OperandReportsAreNotAboutReturns(e, x, l, st);
    case Variable(_, _) =>
    case Assign(_, _, v) => ExprReportsAreNotAboutReturns(v, st);
    case Call(c, _, args) =>
      ExprReportsAreNotAboutReturns(c, st);
      var s := ResolveExpr(c, st);
      if s.Resolved? {
        ArgsReportsAreNotAboutReturns(e, args, s.st);
        NoReturnReportsTransitive(st.reports, s.st.reports, ResolveExprs(e, args, s.st).st.reports);
      }
    case Get(o, _) => ExprReportsAreNotAboutReturns(o, st);
    case Set(o, _, v) => OperandReportsAreNotAboutReturns(e, o, v, st);
    case This(_, _) =>
  }

  lemma {:induction false} OperandReportsAreNotAboutReturns(parent: Expr, first: Expr, second: Expr, st: RState)
    requires first < parent && second < parent
    ensures NoReturnReports(st.reports, ResolveOperands(parent, first, second, st).st.reports)
    decreases parent, 0
  {
    ExprReportsAreNotAboutReturns(first, st);
    var s := ResolveExpr(first, st);
    if s.Resolved? {
      ExprReportsAreNotAboutReturns(second, s.st);
      NoReturnReportsTransitive(st.reports, s.st.reports, ResolveExpr(second, s.st).st.reports);
    }
  }

  lemma {:induction false} ArgsReportsAreNotAboutReturns(parent: Expr, args: seq<Expr>, st: RState)
    requires forall i :: 0 <= i < |args| ==> args[i] < parent
    ensures NoReturnReports(st.reports, ResolveExprs(parent, args, st).st.reports)
    decreases parent, 0, |args|
  {
    if args != [] {
      ExprReportsAreNotAboutReturns(args[0], st);
      var s := ResolveExpr(args[0], st);
      if s.Resolved? {
        ArgsReportsAreNotAboutReturns(parent, args[1..], s.st);
        NoReturnReportsTransitive(st.reports, s.st.reports, ResolveExprs(parent, args[1..], s.st).st.reports);
      }
    }
  }

  /** Outside an initializer no statement reports a returned value: the
      only statement that adds that report is a `return`, inside an
      initializer, and function bodies are never visited. */
  lemma {:induction false} StmtReportsAreNotAboutReturns(s: Stmt, st: RState)
    requires st.functionType != Initializer
    ensures var r := ResolveStmt(s, st);
      st.reports <= r.st.reports && NoReturnReports(st.reports, r.st.reports)
    decreases Size(s), 1
  {
    match s
    case Expression(e) => ExprReportsAreNotAboutReturns(e, st);
    case Print(e) => ExprReportsAreNotAboutReturns(e, st);
    case Var(name, init) => VarReportsAreNotAboutReturns(name, init, st);
    case Block(ss) => ListReportsAreNotAboutReturns(ss, BeginScope(st));
    case If(c, t, e) => IfReportsAreNotAboutReturns(c, t, e, st);
    case While(c, b) => WhileReportsAreNotAboutReturns(c, b, st);
    case Function(decl) => FunctionDeclReportsAreNotAboutReturns(decl, st);
    case Return(_, value) =>
      if value.Some? {
        ExprReportsAreNotAboutReturns(value.value, st);
      }
    case Class(name, methods) => ClassReportsAreNotAboutReturns(name, methods, st);
  }

  lemma VarReportsAreNotAboutReturns(name: Token, init: Option<Expr>, st: RState)
    ensures var r := ResolveVar(name, init, st);
      st.reports <= r.st.reports && NoReturnReports(st.reports, r.st.reports)
  {
    var s1 := Declare(name, st);
    if s1.Resolved? && init.Some? {
      ExprReportsAreNotAboutReturns(init.value, s1.st);
    }
  }

  lemma FunctionDeclReportsAreNotAboutReturns(decl: FunctionDecl, st: RState)
    ensures var r := ResolveFunctionDecl(decl, st);
      st.reports <= r.st.reports && NoReturnReports(st.reports, r.st.reports)
  {
    var s1 := Declare(decl.name, st);
    if s1.Resolved? {
      FunctionReportsAreNotAboutReturns(decl, PlainFunction, Define(decl.name, s1.st));
    }
  }

  lemma ClassReportsAreNotAboutReturns(name: Token, methods: seq<FunctionDecl>, st: RState)
    ensures var r := ResolveClass(name, methods, st);
      st.reports <= r.st.reports && NoReturnReports(st.reports, r.st.reports)
  {
    var s0 := BeginScope(st.(classType := InClass));
    var s1 := Declare(name, s0);
    if s1.Resolved? {
      var s2 := Define(name, s1.st);
      MethodsReportsAreNotAboutReturns(methods, s2.(scopes := s2.scopes[0 := s2.scopes[0]["this" := true]]));
    }
  }

  lemma {:induction false} IfReportsAreNotAboutReturns(c: Expr, t: Stmt, e: Option<Stmt>, st: RState)
    requires st.functionType != Initializer
    ensures var r := ResolveStmt(Stmt.If(c, t, e), st);
      st.reports <= r.st.reports && NoReturnReports(st.reports, r.st.reports)
    decreases Size(Stmt.If(c, t, e)), 0
  {
    ExprReportsAreNotAboutReturns(c, st);
    var s1 := ResolveExpr(c, st);
    if s1.Resolved? {
      StmtReportsAreNotAboutReturns(t, s1.st);
      var s2 := ResolveStmt(t, s1.st);
      NoReturnReportsTransitive(st.reports, s1.st.reports, s2.st.reports);
      if s2.Resolved? && e.Some? {
        StmtReportsAreNotAboutReturns(e.value, s2.st);
        NoReturnReportsTransitive(st.reports, s2.st.reports, ResolveStmt(e.value, s2.st).st.reports);
      }
    }
  }

  lemma {:induction false} WhileReportsAreNotAboutReturns(c: Expr, b: Stmt, st: RState)
    requires st.functionType != Initializer
    ensures var r := ResolveStmt(Stmt.While(c, b), st);
      st.reports <= r.st.reports && NoReturnReports(st.reports, r.st.reports)
    decreases Size(Stmt.While(c, b)), 0
  {
    ExprReportsAreNotAboutReturns(c, st);
    var s1 := ResolveExpr(c, st);
    if s1.Resolved? {
      StmtReportsAreNotAboutReturns(b, s1.st);
      NoReturnReportsTransitive(st.reports, s1.st.reports, ResolveStmt(b, s1.st).st.reports);
    }
  }

  /** The list partner of `StmtReportsAreNotAboutReturns`. */
  lemma {:induction false} ListReportsAreNotAboutReturns(ss: StmtList, st: RState)
    requires st.functionType != Initializer
    ensures var r := ResolveList(ss, st);
      st.reports <= r.st.reports && NoReturnReports(st.reports, r.st.reports)
    decreases ListSize(ss), 2, |ss|
  {
    if ss != [] && ss[0].Some? {
      StmtReportsAreNotAboutReturns(ss[0].value, st);
      var s1 := ResolveStmt(ss[0].value, st);
      if s1.Resolved? {
        ListReportsAreNotAboutReturns(ss[1..], s1.st);
        NoReturnReportsTransitive(st.reports, s1.st.reports, ResolveList(ss[1..], s1.st).st.reports);
      }
    }
  }

  /** Over a whole resolution, which starts outside any function, the
      initializer-return report never fires. */
  lemma ProgramNeverReportsReturns(ss: StmtList)
    ensures forall k :: 0 <= k < |ResolveList(ss, InitialState).st.reports| ==>
      ResolveList(ss, InitialState).st.reports[k].message != InitializerReturnMessage
  {
    ListReportsAreNotAboutReturns(ss, InitialState);
  }

  /** Resolving parameters reports only duplicates. */
  lemma {:induction false} ParamsReportsAreNotAboutReturns(params: seq<Token>, st: RState)
    ensures var r := DeclareParams(params, st);
      st.reports <= r.st.reports && NoReturnReports(st.reports, r.st.reports)
    decreases |params|
  {
    if params != [] {
      var s1 := Declare(params[0], st);
      if s1.Resolved? {
        ParamsReportsAreNotAboutReturns(params[1..], Define(params[0], s1.st));
      }
    }
  }

  lemma FunctionReportsAreNotAboutReturns(decl: FunctionDecl, kind: FunctionType, st: RState)
    ensures var r := ResolveFunction(decl, kind, st);
      st.reports <= r.st.reports && NoReturnReports(st.reports, r.st.reports)
  {
    ParamsReportsAreNotAboutReturns(decl.params, BeginScope(st).(functionType := kind));
  }

  lemma {:induction false} MethodsReportsAreNotAboutReturns(methods: seq<FunctionDecl>, st: RState)
    ensures var r := ResolveMethods(methods, st);
      st.reports <= r.st.reports && NoReturnReports(st.reports, r.st.reports)
    decreases |methods|
  {
    if methods != [] {
      FunctionReportsAreNotAboutReturns(methods[0], Method, st);
      var s1 := ResolveFunction(methods[0], Method, st);
      if s1.Resolved? {
        MethodsReportsAreNotAboutReturns(methods[1..], s1.st);
        NoReturnReportsTransitive(st.reports, s1.st.reports, ResolveMethods(methods[1..], s1.st).st.reports);
      }
    }
  }
}
