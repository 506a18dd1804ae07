/** The resolver of src/Resolver.cs: a stack of scopes that its methods push,
    pop and update in place. Each visitor returns the exception it lets
    escape, if any, and is proved to compute what module Resolution says. */
module Resolver {
  import opened Ast
  import opened Resolution

  class Resolver {
    /** Index 0 is the top of the stack. */
    var scopes: seq<Scope>
    var functionType: FunctionType
    var classType: ClassType
    /** Diagnostics passed to the host's `Error(token, message)`. */
    var reports: seq<Report>
    /** The calls made to the interpreter's `Resolve(expr, depth)`. */
    var resolved: seq<(NodeId, nat)>

    function State(): RState
      reads this
    {
      RState(scopes, functionType, classType, reports, resolved)
    }

    constructor ()
      ensures State() == InitialState
    {
      scopes := [];
      functionType := NoFunction;
      classType := NoClass;
      reports := [];
      resolved := [];
    }

    // -------------------------------------------------------------------
    // The scope stack.

    method BeginScope()
      modifies this
      ensures State() == Resolution.BeginScope(old(State()))
    {
      scopes := [map[]] + scopes;
    }

    method EndScope()
      requires |scopes| > 0
      modifies this
      ensures State() == Resolution.EndScope(old(State()))
    {
      scopes := scopes[1..];
    }

    method Declare(name: Token) returns (fault: Option<Fault>)
      modifies this
      ensures Finished(fault, State()) == Resolution.Declare(name, old(State()))
    {
      fault := None;
      if |scopes| == 0 {
        return;
      }
      var scope := scopes[0];
      if name.lexeme in scope {
        reports := reports + [TokenReport(name, DuplicateMessage)];
        return Some(DuplicateKey(name.lexeme));
      }
      scopes := scopes[0 := scope[name.lexeme := false]];
    }

    method Define(name: Token)
      modifies this
      ensures State() == Resolution.Define(name, old(State()))
    {
      if |scopes| == 0 {
        return;
      }
      scopes := scopes[0 := scopes[0][name.lexeme := true]];
    }

    /** Scans `i` from the bottom of the stack up and logs `Count - 1 - i`
        for the first scope holding the name. */
    method ResolveLocal(id: NodeId, name: Token)
      modifies this
      ensures State() == Resolution.ResolveLocal(id, name, old(State()))
    {
      var i := |scopes| - 1;
      while i >= 0
        invariant -1 <= i < |scopes|
        invariant State() == old(State())
        invariant forall k :: i < k < |scopes| ==> name.lexeme !in scopes[k]
      {
        if name.lexeme in scopes[i] {
          resolved := resolved + [(id, |scopes| - 1 - i)];
          return;
        }
        i := i - 1;
      }
    }

    // -------------------------------------------------------------------
    // Expressions.

    method ResolveExpr(e: Expr) returns (fault: Option<Fault>)
      modifies this
      ensures Finished(fault, State()) == Resolution.ResolveExpr(e, old(State()))
      decreases e, 2
    {
      match e
      case Literal(_) =>
        fault := None;
      case Grouping(x) =>
        fault := ResolveExpr(x);
      case Unary(_, x) =>
        fault := ResolveExpr(x);
      case Binary(left, _, right) =>
        fault := ResolveExpr(right);
        if fault.None? {
          fault := ResolveExpr(left);
        }
      case Logical(left, _, right) =>
        fault := ResolveExpr(right);
        if fault.None? {
          fault := ResolveExpr(left);
        }
      case Variable(_, _) =>
        fault := VisitVariable(e);
      case Assign(id, name, value) =>
        fault := ResolveExpr(value);
        if fault.None? {
          ResolveLocal(id, name);
        }
      case Call(_, _, _) =>
        fault := VisitCall(e);
      case Get(obj, _) =>
        fault := ResolveExpr(obj);
      case Set(obj, _, value) =>
        fault := ResolveExpr(obj);
        if fault.None? {
          fault := ResolveExpr(value);
        }
      case This(id, keyword) =>
        fault := None;
        if classType == NoClass {
          reports := reports + [TokenReport(keyword, ThisOutsideClassMessage)];
        }
        ResolveLocal(id, keyword);
    }

    /** Reading a variable peeks at the top scope first, so it needs one. */
    method VisitVariable(e: Expr) returns (fault: Option<Fault>)
      requires e.Variable?
      modifies this
      ensures Finished(fault, State()) == Resolution.ResolveExpr(e, old(State()))
      decreases e, 1
    {
      if |scopes| == 0 {
        return Some(EmptyStack);
      }
      var defined := e.name.lexeme in scopes[0] && scopes[0][e.name.lexeme];
      if !defined {
        reports := reports + [TokenReport(e.name, OwnInitializerMessage)];
      }
      ResolveLocal(e.id, e.name);
      fault := None;
    }

    method VisitCall(e: Expr) returns (fault: Option<Fault>)
      requires e.Call?
      modifies this
      ensures Finished(fault, State()) == Resolution.ResolveExpr(e, old(State()))
      decreases e, 1
    {
      fault := ResolveExpr(e.callee);
      if fault.Some? {
        return;
      }
      var args := e.arguments;
      ghost var st := State();
      assert Resolution.ResolveExpr(e, old(State())) == ResolveExprs(e, args, st);
      var i := 0;
      while i < |args|
        invariant 0 <= i <= |args|
        invariant fault.None? && forall j :: i <= j < |args| ==> args[j] < e
        invariant ResolveExprs(e, args, st) == ResolveExprs(e, args[i..], State())
      {
        assert args[i..][0] == args[i] && args[i..][1..] == args[i + 1..];
        fault := ResolveExpr(args[i]);
        if fault.Some? {
          return;
        }
        i := i + 1;
      }
      assert ResolveExprs(e, args[i..], State()) == Resolved(State());
    }

    // -------------------------------------------------------------------
    // Statements.

    /** The statement list of a program or a block, in order. */
    method ResolveList(ss: StmtList) returns (fault: Option<Fault>)
      modifies this
      ensures Finished(fault, State()) == Resolution.ResolveList(ss, old(State()))
      decreases ListSize(ss), 3
    {
      var i := 0;
      while i < |ss|
        invariant 0 <= i <= |ss|
        invariant Resolution.ResolveList(ss, old(State())) == Resolution.ResolveList(ss[i..], State())
      {
        assert ss[i..][1..] == ss[i + 1..];
        if ss[i].None? {
          return Some(NullStatement);
        }
        fault := ResolveStmt(ss[i].value);
        if fault.Some? {
          return;
        }
        i := i + 1;
      }
      fault := None;
    }

    method ResolveStmt(s: Stmt) returns (fault: Option<Fault>)
      modifies this
      ensures Finished(fault, State()) == Resolution.ResolveStmt(s, old(State()))
      decreases Size(s), 2
    {
      match s
      case Expression(e) =>
        fault := ResolveExpr(e);
      case Print(e) =>
        fault := ResolveExpr(e);
      case Var(name, init) =>
        fault := VisitVar(name, init);
      case Block(ss) =>
        BeginScope();
        fault := ResolveList(ss);
        if fault.None? {
          EndScope();
        }
      case If(_, _, _) =>
        fault := VisitIf(s);
      case While(c, b) =>
        fault := ResolveExpr(c);
        if fault.None? {
          fault := ResolveStmt(b);
        }
      case Function(decl) =>
        fault := VisitFunction(decl);
      case Return(keyword, value) =>
        fault := VisitReturn(keyword, value);
      case Class(name, methods) =>
        fault := VisitClass(name, methods);
    }

    /** Declared before its initializer is resolved, defined after. */
    method VisitVar(name: Token, init: Option<Expr>) returns (fault: Option<Fault>)
      modifies this
      ensures Finished(fault, State()) == ResolveVar(name, init, old(State()))
    {
      fault := Declare(name);
      if fault.Some? {
        return;
      }
      if init.Some? {
        fault := ResolveExpr(init.value);
        if fault.Some? {
          return;
        }
      }
      Define(name);
    }

    method VisitIf(s: Stmt) returns (fault: Option<Fault>)
      requires s.If?
      modifies this
      ensures Finished(fault, State()) == Resolution.ResolveStmt(s, old(State()))
      decreases Size(s), 1
    {
      fault := ResolveExpr(s.condition);
      if fault.Some? {
        return;
      }
      fault := ResolveStmt(s.thenBranch);
      if fault.Some? {
        return;
      }
      if s.elseBranch.Some? {
        fault := ResolveStmt(s.elseBranch.value);
      }
    }

    method VisitFunction(decl: FunctionDecl) returns (fault: Option<Fault>)
      modifies this
      ensures Finished(fault, State()) == ResolveFunctionDecl(decl, old(State()))
    {
      fault := Declare(decl.name);
      if fault.None? {
        Define(decl.name);
        fault := ResolveFunction(decl, PlainFunction);
      }
    }

    method VisitReturn(keyword: Token, value: Option<Expr>) returns (fault: Option<Fault>)
      modifies this
      ensures Finished(fault, State()) == ResolveReturn(keyword, value, old(State()))
    {
      fault := None;
      if value.Some? {
        if functionType == Initializer {
          reports := reports + [TokenReport(keyword, InitializerReturnMessage)];
        }
        fault := ResolveExpr(value.value);
      }
    }

    /** A fresh scope holding the parameters under `kind`; the enclosing
        kind is restored after it is popped. */
    method ResolveFunction(decl: FunctionDecl, kind: FunctionType) returns (fault: Option<Fault>)
      modifies this
      ensures Finished(fault, State()) == Resolution.ResolveFunction(decl, kind, old(State()))
    {
      BeginScope();
      var enclosing := functionType;
      functionType := kind;
      ghost var st := State();
      var i := 0;
      while i < |decl.params|
        invariant 0 <= i <= |decl.params|
        invariant DeclareParams(decl.params, st) == DeclareParams(decl.params[i..], State())
        invariant enclosing == old(functionType)
      {
        assert decl.params[i..][1..] == decl.params[i + 1..];
        fault := Declare(decl.params[i]);
        if fault.Some? {
          return;
        }
        Define(decl.params[i]);
        i := i + 1;
      }
      EndScope();
      functionType := enclosing;
      fault := None;
    }

    /** The class scope is pushed and never popped. */
    method VisitClass(name: Token, methods: seq<FunctionDecl>) returns (fault: Option<Fault>)
      modifies this
      ensures Finished(fault, State()) == Resolution.ResolveClass(name, methods, old(State()))
    {
      var enclosing := classType;
      classType := InClass;
      BeginScope();
      fault := Declare(name);
      if fault.Some? {
        return;
      }
      Define(name);
      assert scopes[0] == map[name.lexeme := true] && scopes[1..] == old(scopes);
      if "this" in scopes[0] {
        return Some(DuplicateKey("this"));
      }
      scopes := scopes[0 := scopes[0]["this" := true]];
      ghost var st := State();
      assert st == ClassScope(name, old(State()));
      var i := 0;
      while i < |methods|
        invariant 0 <= i <= |methods|
        invariant ResolveMethods(methods, st) == ResolveMethods(methods[i..], State())
        invariant enclosing == old(classType) && fault.None?
      {
        assert methods[i..][1..] == methods[i + 1..];
        fault := ResolveFunction(methods[i], Method);
        if fault.Some? {
          return;
        }
        i := i + 1;
      }
      assert ResolveMethods(methods, st) == Resolved(State());
      classType := enclosing;
    }
  }
}
