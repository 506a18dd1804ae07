/** The static pass of src/Resolver.cs as functions over an explicit state:
    the scope stack, the kinds of the enclosing function and class, the
    diagnostics, and the log of the scope distances handed to the
    interpreter. Module Resolver's class is proved to compute these. */
module Resolution {
  import opened Ast

  datatype FunctionType = NoFunction | PlainFunction | Method | Initializer
  datatype ClassType = NoClass | InClass

  /** A scope maps a name to whether its declaration is complete. */
  type Scope = map<string, bool>

  /** The stack is a sequence whose index 0 is the top, the order in which
      the original's `ElementAt` enumerates it. `resolved` logs each call
      of the interpreter's `Resolve(expr, depth)` as a node and a depth. */
  datatype RState = RState(
    scopes: seq<Scope>,
    functionType: FunctionType,
    classType: ClassType,
    reports: seq<Report>,
    resolved: seq<(NodeId, nat)>)

  const InitialState := RState([], NoFunction, NoClass, [], [])

  /** The exceptions that escape the pass. */
  datatype Fault =
    | DuplicateKey(key: string)  // `Dictionary.Add` of a key already present
    | EmptyStack                 // `Stack.Peek` on an empty stack
    | NullStatement              // a statement the parser left null

  datatype Outcome = Resolved(st: RState) | Aborted(fault: Fault, st: RState)

  const DuplicateMessage := "Variable already exists in this scope with this name"
  const OwnInitializerMessage := "Can not read a variable in it's own initializer"
  const InitializerReturnMessage := "_$init() can not return explicit values"
  const ThisOutsideClassMessage := "Can not use 'this' outside a class"

  function AddReport(st: RState, t: Token, message: string): RState
  {
    st.(reports := st.reports + [TokenReport(t, message)])
  }

  function BeginScope(st: RState): RState
  {
    st.(scopes := [map[]] + st.scopes)
  }

  function EndScope(st: RState): RState
    requires |st.scopes| > 0
  {
    st.(scopes := st.scopes[1..])
  }

  /** `Declare`: nothing without a scope; a name already in the top scope
      is reported and then makes `Add` throw; otherwise the name enters
      the top scope as not yet defined. */
  function Declare(name: Token, st: RState): (r: Outcome)
    ensures |r.st.scopes| == |st.scopes| && (|st.scopes| > 0 ==> r.st.scopes[1..] == st.scopes[1..])
    ensures r.st.functionType == st.functionType && r.st.classType == st.classType
    ensures r.st.resolved == st.resolved && st.reports <= r.st.reports
    ensures r.Aborted? <==> |st.scopes| > 0 && name.lexeme in st.scopes[0]
    ensures r.Resolved? && |st.scopes| > 0 ==> r.st.scopes[0] == st.scopes[0][name.lexeme := false]
  {
    if |st.scopes| == 0 then Resolved(st)
    else if name.lexeme in st.scopes[0] then
      Aborted(DuplicateKey(name.lexeme), AddReport(st, name, DuplicateMessage))
    else Resolved(st.(scopes := st.scopes[0 := st.scopes[0][name.lexeme := false]]))
  }

  /** `Define`: nothing without a scope; otherwise the name is marked
      defined in the top scope. */
  function Define(name: Token, st: RState): (r: RState)
    ensures |r.scopes| == |st.scopes| && (|st.scopes| > 0 ==> r.scopes[1..] == st.scopes[1..])
    ensures r == st.(scopes := r.scopes)
    ensures |st.scopes| > 0 ==> r.scopes[0] == st.scopes[0][name.lexeme := true]
  {
    if |st.scopes| == 0 then st else st.(scopes := st.scopes[0 := st.scopes[0][name.lexeme := true]])
  }

  /** The scope `ResolveLocal` stops at. It scans from the bottom of the
      stack towards the top, so it finds the OUTERMOST scope holding the name. */
  function Outermost(scopes: seq<Scope>, name: string): (r: Option<nat>)
    ensures r.Some? ==> r.value < |scopes| && name in scopes[r.value]
                        && forall k :: r.value < k < |scopes| ==> name !in scopes[k]
    ensures r.None? <==> forall k :: 0 <= k < |scopes| ==> name !in scopes[k]
    decreases |scopes|
  {
    if |scopes| == 0 then None
    else if name in scopes[|scopes| - 1] then Some(|scopes| - 1)
    else Outermost(scopes[..|scopes| - 1], name)
  }

  /** `ResolveLocal`: the depth logged for scope `i` of a stack of `n` is
      `n - 1 - i`, which counts from the bottom of the stack. */
  function ResolveLocal(id: NodeId, name: Token, st: RState): (r: RState)
    ensures r == st.(resolved := r.resolved)
  {
    match Outermost(st.scopes, name.lexeme)
    case Some(i) => st.(resolved := st.resolved + [(id, |st.scopes| - 1 - i)])
    case None => st
  }

  /** What resolving an expression may change: diagnostics and the log
      grow; the scopes and the enclosing kinds stay as they are. */
  ghost predicate ExprKeeps(st: RState, r: RState)
  {
    && r.scopes == st.scopes && r.functionType == st.functionType && r.classType == st.classType
    && st.reports <= r.reports && st.resolved <= r.resolved
  }

  /** The expression visitors: operands of `Binary` and `Logical` are
      visited right first; a variable read needs a scope to `Peek` at. */
  function ResolveExpr(e: Expr, st: RState): (r: Outcome)
    ensures ExprKeeps(st, r.st)
    ensures r.Aborted? ==> r.fault == EmptyStack && st.scopes == []
    decreases e, 1
  {
    match e
    case Literal(_) => Resolved(st)
    case Grouping(x) => ResolveExpr(x, st)
    case Unary(_, x) => ResolveExpr(x, st)
    case Binary(left, _, right) => ResolveOperands(e, right, left, st)
    case Logical(left, _, right) => ResolveOperands(e, right, left, st)
    case Variable(id, name) =>
      if |st.scopes| == 0 then Aborted(EmptyStack, st)
      else
        var defined := name.lexeme in st.scopes[0] && st.scopes[0][name.lexeme];
        Resolved(ResolveLocal(id, name, if defined then st else AddReport(st, name, OwnInitializerMessage)))
    case Assign(id, name, value) =>
      (match ResolveExpr(value, st)
       case Aborted(f, s) => Aborted(f, s)
       case Resolved(s) => Resolved(ResolveLocal(id, name, s)))
    case Call(callee, _, args) =>
      (match ResolveExpr(callee, st)
       case Aborted(f, s) => Aborted(f, s)
       case Resolved(s) => ResolveExprs(e, args, s))
    case Get(obj, _) => ResolveExpr(obj, st)
    case Set(obj, _, value) => ResolveOperands(e, obj, value, st)
    case This(id, keyword) =>
      Resolved(ResolveLocal(id, keyword, if st.classType == NoClass then AddReport(st, keyword, ThisOutsideClassMessage) else st))
  }

  /** Two sub-expressions, in the order given. */
  function ResolveOperands(ghost parent: Expr, first: Expr, second: Expr, st: RState): (r: Outcome)
    requires first < parent && second < parent
    ensures ExprKeeps(st, r.st)
    ensures r.Aborted? ==> r.fault == EmptyStack && st.scopes == []
    decreases parent, 0
  {
    match ResolveExpr(first, st)
    case Aborted(f, s) => Aborted(f, s)
    case Resolved(s) => ResolveExpr(second, s)
  }

  /** The arguments of a call, left to right. */
  function ResolveExprs(ghost parent: Expr, args: seq<Expr>, st: RState): (r: Outcome)
    requires forall i :: 0 <= i < |args| ==> args[i] < parent
    ensures ExprKeeps(st, r.st)
    ensures r.Aborted? ==> r.fault == EmptyStack && st.scopes == []
    decreases parent, 0, |args|
  {
    if args == [] then Resolved(st)
    else
      match ResolveExpr(args[0], st)
      case Aborted(f, s) => Aborted(f, s)
      case Resolved(s) => ResolveExprs(parent, args[1..], s)
  }

  /** Declares and defines each parameter in the top scope. */
  function DeclareParams(params: seq<Token>, st: RState): (r: Outcome)
    ensures |r.st.scopes| == |st.scopes| && (|st.scopes| > 0 ==> r.st.scopes[1..] == st.scopes[1..])
    ensures r.st.functionType == st.functionType && r.st.classType == st.classType
    ensures r.st.resolved == st.resolved
    decreases |params|
  {
    if params == [] then Resolved(st)
    else
      match Declare(params[0], st)
      case Aborted(f, s) => Aborted(f, s)
      case Resolved(s) => DeclareParams(params[1..], Define(params[0], s))
  }

  /** `ResolveFunction`: a fresh scope holding the parameters, under the
      given function kind; the body is never visited. */
  function ResolveFunction(decl: FunctionDecl, kind: FunctionType, st: RState): (r: Outcome)
    ensures r.Resolved? ==> r.st.scopes == st.scopes && r.st.functionType == st.functionType
    ensures r.st.classType == st.classType && r.st.resolved == st.resolved
  {
    match DeclareParams(decl.params, BeginScope(st).(functionType := kind))
    case Aborted(f, s) => Aborted(f, s)
    case Resolved(s) => Resolved(EndScope(s).(functionType := st.functionType))
  }

  /** The methods of a class, each as a method. */
  function ResolveMethods(methods: seq<FunctionDecl>, st: RState): (r: Outcome)
    ensures r.Resolved? ==> r.st.scopes == st.scopes && r.st.functionType == st.functionType
    ensures r.st.classType == st.classType
    decreases |methods|
  {
    if methods == [] then Resolved(st)
    else
      match ResolveFunction(methods[0], Method, st)
      case Aborted(f, s) => Aborted(f, s)
      case Resolved(s) => ResolveMethods(methods[1..], s)
  }

  /** The statement visitors. A resolved statement leaves the enclosing
      kinds as it found them and the stack one scope deeper for each class
      it declares outside a function body: a class scope is never popped. */
  function ResolveStmt(s: Stmt, st: RState): (r: Outcome)
    ensures r.Resolved? ==> |r.st.scopes| == |st.scopes| + ClassDecls(s)
    ensures r.Resolved? ==> r.st.functionType == st.functionType && r.st.classType == st.classType
    decreases Size(s), 1
  {
    match s
    case Expression(e) => ResolveExpr(e, st)
    case Print(e) => ResolveExpr(e, st)
    case Var(name, init) => ResolveVar(name, init, st)
    case Block(ss) =>
      (match ResolveList(ss, BeginScope(st))
       case Aborted(f, s1) => Aborted(f, s1)
       case Resolved(s1) => Resolved(EndScope(s1)))
    case If(c, t, e) =>
      (match ResolveExpr(c, st)
       case Aborted(f, s1) => Aborted(f, s1)
       case Resolved(s1) =>
         match ResolveStmt(t, s1)
         case Aborted(f, s2) => Aborted(f, s2)
         case Resolved(s2) => if e.None? then Resolved(s2) else ResolveStmt(e.value, s2))
    case While(c, b) =>
      (match ResolveExpr(c, st)
       case Aborted(f, s1) => Aborted(f, s1)
       case Resolved(s1) => ResolveStmt(b, s1))
    case Function(decl) => ResolveFunctionDecl(decl, st)
    case Return(keyword, value) => ResolveReturn(keyword, value, st)
    case Class(name, methods) => ResolveClass(name, methods, st)
  }

  /** A variable is declared before its initializer is resolved and
      defined after it, so the initializer sees it as not yet defined. */
  function ResolveVar(name: Token, init: Option<Expr>, st: RState): (r: Outcome)
    ensures |r.st.scopes| == |st.scopes| && r.st.functionType == st.functionType && r.st.classType == st.classType
  {
    match Declare(name, st)
    case Aborted(f, s1) => Aborted(f, s1)
    case Resolved(s1) =>
      if init.None? then Resolved(Define(name, s1))
      else match ResolveExpr(init.value, s1)
        case Aborted(f, s2) => Aborted(f, s2)
        case Resolved(s2) => Resolved(Define(name, s2))
  }

  /** A function is declared and defined, then its parameters resolved. */
  function ResolveFunctionDecl(decl: FunctionDecl, st: RState): (r: Outcome)
    ensures r.Resolved? ==> |r.st.scopes| == |st.scopes| && r.st.functionType == st.functionType
    ensures r.st.classType == st.classType
  {
    match Declare(decl.name, st)
    case Aborted(f, s1) => Aborted(f, s1)
    case Resolved(s1) => ResolveFunction(decl, PlainFunction, Define(decl.name, s1))
  }

  /** A returned value is reported inside an initializer, then resolved. */
  function ResolveReturn(keyword: Token, value: Option<Expr>, st: RState): (r: Outcome)
    ensures r.st.scopes == st.scopes && r.st.functionType == st.functionType && r.st.classType == st.classType
  {
    if value.None? then Resolved(st)
    else ResolveExpr(value.value, if st.functionType == Initializer then AddReport(st, keyword, InitializerReturnMessage) else st)
  }

  /** A class: its scope holds the class name and `this`, both defined,
      and stays on the stack. */
  function ResolveClass(name: Token, methods: seq<FunctionDecl>, st: RState): (r: Outcome)
    ensures r.Resolved? ==> && |r.st.scopes| == |st.scopes| + 1 && r.st.scopes[1..] == st.scopes
                            && r.st.scopes[0] == map[name.lexeme := true, "this" := true]
                            && r.st.functionType == st.functionType && r.st.classType == st.classType
    ensures r.Aborted? <==> name.lexeme == "this" || ResolveMethods(methods, ClassScope(name, st)).Aborted?
  {
    var s0 := BeginScope(st.(classType := InClass));
    match Declare(name, s0)
    case Aborted(f, s1) => Aborted(f, s1)
    case Resolved(s1) =>
      var s2 := Define(name, s1);
      assert s2.scopes[0] == map[name.lexeme := true];
      assert s2.scopes[1..] == st.scopes;
      assert s2.scopes == [map[name.lexeme := true]] + st.scopes;
      assert name.lexeme != "this" ==> s2.(scopes := s2.scopes[0 := s2.scopes[0]["this" := true]]).(classType := InClass) == ClassScope(name, st);
      if "this" in s2.scopes[0] then Aborted(DuplicateKey("this"), s2)
      else
        match ResolveMethods(methods, s2.(scopes := s2.scopes[0 := s2.scopes[0]["this" := true]]))
        case Aborted(f, s3) => Aborted(f, s3)
        case Resolved(s3) => Resolved(s3.(classType := st.classType))
  }

  /** The state in which a class's methods are resolved. */
  function ClassScope(name: Token, st: RState): RState
  {
    st.(classType := InClass, scopes := [map[name.lexeme := true, "this" := true]] + st.scopes)
  }

  /** A statement list in order; a null entry throws. */
  function ResolveList(ss: StmtList, st: RState): (r: Outcome)
    ensures r.Resolved? ==> |r.st.scopes| == |st.scopes| + ListClassDecls(ss)
    ensures r.Resolved? ==> r.st.functionType == st.functionType && r.st.classType == st.classType
    decreases ListSize(ss), 2, |ss|
  {
    if ss == [] then Resolved(st)
    else if ss[0].None? then Aborted(NullStatement, st)
    else
      match ResolveStmt(ss[0].value, st)
      case Aborted(f, s1) => Aborted(f, s1)
      case Resolved(s1) => ResolveList(ss[1..], s1)
  }

  /** The outcome a method reports through an optional fault. */
  function Finished(fault: Option<Fault>, st: RState): Outcome
  {
    if fault.Some? then Aborted(fault.value, st) else Resolved(st)
  }
}
