/** The evaluator of src/Interpreter.cs and the call of src/LoxFunction.cs
    as functions over an explicit state. The state is the maps of the
    current environment chain, innermost first, plus what was printed and
    the runtime errors handed to the host. Module Interpreter's class is
    proved to compute these functions. */
module Evaluation {
  import opened Ast
  import opened Runtime

  datatype IState = IState(frames: seq<map<string, Value>>, output: seq<string>, errors: seq<RuntimeError>)

  /** Other .NET exceptions: a key added twice to an environment, a null
      statement left by the parser, an argument list shorter than the
      parameter list. */
  datatype HostFault = DuplicateDefinition(name: string) | NullStatement | MissingArgument(index: nat)

  /** What ends an evaluation early. */
  datatype Abrupt =
    | Raise(error: RuntimeError)  // a RuntimeError, caught by `Interpret`
    | ReturnSignal(value: Value)  // a `return` unwinding to its call
    | HostFault(fault: HostFault)
    | Unmodelled                  // a visitor the interpreter does not define

  datatype Eval = Val(v: Value, st: IState) | Fail(abrupt: Abrupt, st: IState)
  datatype Exec = Completed(st: IState) | Interrupted(abrupt: Abrupt, st: IState)

  /** The result of an operator applied to values. */
  datatype Outcome = Produced(v: Value) | Threw(error: RuntimeError)

  /** `null` and `false` are false; everything else is true. */
  predicate Truthy(v: Value)
  {
    match v
    case NilValue => false
    case Bool(b) => b
    case _ => true
  }

  /** Two nulls are equal, null equals nothing else, and otherwise `Equals`
      decides: by value for numbers, booleans and strings, by reference
      for objects. */
  predicate IsEqual(a: Value, b: Value)
  {
    if a.NilValue? && b.NilValue? then true
    else if a.NilValue? then false
    else a == b
  }

  /** How `print` shows a value: `nil` for null, a number's text without a
      trailing `.0`, and `ToString` otherwise. */
  function Stringify(v: Value, numText: real -> string): string
  {
    match v
    case NilValue => "nil"
    case Num(n) =>
      var text := numText(n);
      if |text| >= 2 && text[|text| - 2..] == ".0" then text[..|text| - 2] else text
    case _ => Text(v, numText)
  }

  function NumberOperands(op: Token, left: Value, right: Value, f: (real, real) -> Value): Outcome
  {
    if left.Num? && right.Num? then Produced(f(left.n, right.n))
    else Threw(RuntimeError(op, "Operands must be numbers"))
  }

  /** A binary operator applied to its evaluated operands. */
  function BinaryOp(op: Token, left: Value, right: Value, numText: real -> string): Outcome
  {
    match op.kind
    case Plus =>
      if left.Num? && right.Num? then Produced(Num(left.n + right.n))
      else if left.Str? || right.Str? then Produced(Str(Text(left, numText) + Text(right, numText)))
      else Threw(RuntimeError(op, "Expected numbers or strings"))
    case Minus => NumberOperands(op, left, right, (x, y) => Num(x - y))
    case Star => NumberOperands(op, left, right, (x, y) => Num(x * y))
    case Slash =>
      if !(left.Num? && right.Num?) then Threw(RuntimeError(op, "Operands must be numbers"))
      else if right.n == 0.0 then Threw(RuntimeError(op, "Zero Division"))
      else Produced(Num(left.n / right.n))
    case Greater => NumberOperands(op, left, right, (x, y) => Bool(x > y))
    case Less => NumberOperands(op, left, right, (x, y) => Bool(x < y))
    case GreaterEqual => NumberOperands(op, left, right, (x, y) => Bool(x >= y))
    case LessEqual => NumberOperands(op, left, right, (x, y) => Bool(x <= y))
    case BangEqual => Produced(Bool(!IsEqual(left, right)))
    case EqualEqual => Produced(Bool(IsEqual(left, right)))
    case _ => Produced(NilValue)
  }

  /** A unary operator applied to its evaluated operand. */
  function UnaryOp(op: Token, right: Value): Outcome
  {
    match op.kind
    case Minus => if right.Num? then Produced(Num(-right.n)) else Threw(RuntimeError(op, "Operand must be a number"))
    case Bang => Produced(Bool(!Truthy(right)))
    case _ => Produced(NilValue)
  }

  function Applied(r: Outcome, st: IState): Eval
  {
    match r
    case Produced(v) => Val(v, st)
    case Threw(err) => Fail(Raise(err), st)
  }

  /** What evaluating an expression may change: the values, not the
      names, of the innermost environment; the enclosing environments,
      the output and the errors stay as they are. */
  ghost predicate EvalKeeps(st: IState, r: IState)
  {
    && |st.frames| > 0 && |r.frames| == |st.frames| && r.frames[0].Keys == st.frames[0].Keys && r.frames[1..] == st.frames[1..]
    && r.output == st.output && r.errors == st.errors
  }

  /** The expression visitors: operands left to right, `and`/`or` short
      circuit, a variable is looked up through the chain and an
      assignment writes the innermost environment only. */
  function Evaluate(e: Expr, st: IState, numText: real -> string): (r: Eval)
    requires |st.frames| > 0
    ensures EvalKeeps(st, r.st)
    decreases e
  {
    match e
    case Literal(lit) => Val(LiteralValue(lit), st)
    case Grouping(x) => Evaluate(x, st, numText)
    case Unary(op, x) =>
      (match Evaluate(x, st, numText)
       case Fail(a, s) => Fail(a, s)
       case Val(v, s) => Applied(UnaryOp(op, v), s))
    case Binary(l, op, x) =>
      (match Evaluate(l, st, numText)
       case Fail(a, s) => Fail(a, s)
       case Val(left, s) =>
         match Evaluate(x, s, numText)
         case Fail(a, s2) => Fail(a, s2)
         case Val(right, s2) => Applied(BinaryOp(op, left, right, numText), s2))
    case Logical(l, op, x) =>
      (match Evaluate(l, st, numText)
       case Fail(a, s) => Fail(a, s)
       case Val(left, s) =>
         if op.kind == Or && Truthy(left) then Val(left, s)
         else if op.kind == And && !Truthy(left) then Val(left, s)
         else Evaluate(x, s, numText))
    case Variable(_, name) =>
      (match Lookup(st.frames, name.lexeme)
       case Some(v) => Val(v, st)
       case None => Fail(Raise(RuntimeError(name, "Undefined variable '" + name.lexeme + "'")), st))
    case Assign(_, name, value) =>
      (match Evaluate(value, st, numText)
       case Fail(a, s) => Fail(a, s)
       case Val(v, s) => AssignInnermost(name, v, s))
    case _ => Fail(Unmodelled, st)
  }

  /** `Assign` on the current environment: the name must be in it. */
  function AssignInnermost(name: Token, v: Value, st: IState): (r: Eval)
    requires |st.frames| > 0
    ensures EvalKeeps(st, r.st)
  {
    if name.lexeme in st.frames[0] then Val(v, st.(frames := st.frames[0 := st.frames[0][name.lexeme := v]]))
    else Fail(Raise(RuntimeError(name, "Undefined variable " + name.lexeme)), st)
  }

  /** `Define` on the current environment: a name already there is
      overwritten, then `Add` throws. */
  function DefineInnermost(name: string, v: Value, st: IState): (r: Exec)
    requires |st.frames| > 0
  {
    var s := st.(frames := st.frames[0 := st.frames[0][name := v]]);
    if name in st.frames[0] then Interrupted(HostFault(DuplicateDefinition(name)), s) else Completed(s)
  }

  /** What executing a statement may change: the innermost environment,
      and lines appended to the output; the enclosing environments and the
      errors stay. */
  ghost predicate ExecKeeps(st: IState, r: IState)
  {
    && |st.frames| > 0 && |r.frames| == |st.frames| && r.frames[1..] == st.frames[1..]
    && st.output <= r.output && r.errors == st.errors
  }

  /** The statement visitors. A `while` tests the condition NODE, which is
      never null or a boolean, so its body runs exactly once and the
      condition is never evaluated. */
  function Execute(s: Stmt, st: IState, numText: real -> string): (r: Exec)
    requires |st.frames| > 0
    ensures ExecKeeps(st, r.st)
    decreases Size(s), 1
  {
    match s
    case Expression(e) =>
      (match Evaluate(e, st, numText)
       case Fail(a, s1) => Interrupted(a, s1)
       case Val(_, s1) => Completed(s1))
    case Print(e) =>
      (match Evaluate(e, st, numText)
       case Fail(a, s1) => Interrupted(a, s1)
       case Val(v, s1) => Completed(s1.(output := s1.output + [Stringify(v, numText)])))
    case Var(name, init) => ExecuteVar(name, init, st, numText)
    case Block(ss) => ExecuteBlock(ss, [map[]] + st.frames, st, numText)
    case If(c, t, e) =>
      (match Evaluate(c, st, numText)
       case Fail(a, s1) => Interrupted(a, s1)
       case Val(v, s1) =>
         if Truthy(v) then Execute(t, s1, numText)
         else if e.Some? then Execute(e.value, s1, numText)
         else Completed(s1))
    case While(_, body) => Execute(body, st, numText)
    case Return(_, value) =>
      if value.None? then Interrupted(ReturnSignal(NilValue), st)
      else
        (match Evaluate(value.value, st, numText)
         case Fail(a, s1) => Interrupted(a, s1)
         case Val(v, s1) => Interrupted(ReturnSignal(v), s1))
    case _ => Interrupted(Unmodelled, st)
  }

  /** A `var` statement: nil, or the initializer's value, is defined in
      the current environment. */
  function ExecuteVar(name: Token, init: Option<Expr>, st: IState, numText: real -> string): (r: Exec)
    requires |st.frames| > 0
    ensures ExecKeeps(st, r.st)
  {
    if init.None? then DefineInnermost(name.lexeme, NilValue, st)
    else match Evaluate(init.value, st, numText)
      case Fail(a, s1) => Interrupted(a, s1)
      case Val(v, s1) => DefineInnermost(name.lexeme, v, s1)
  }

  /** `ExecuteBlock`: the statements run in the environment chain
      `frames`; the previous environment is restored however they end. */
  function ExecuteBlock(ss: StmtList, frames: seq<map<string, Value>>, st: IState, numText: real -> string): (r: Exec)
    requires |frames| > 0
    ensures r.st.frames == st.frames && st.output <= r.st.output && r.st.errors == st.errors
    decreases ListSize(ss), 3
  {
    match ExecuteList(ss, st.(frames := frames), numText)
    case Completed(s1) => Completed(s1.(frames := st.frames))
    case Interrupted(a, s1) => Interrupted(a, s1.(frames := st.frames))
  }

  /** Statements in order; a null statement throws. */
  function ExecuteList(ss: StmtList, st: IState, numText: real -> string): (r: Exec)
    requires |st.frames| > 0
    ensures ExecKeeps(st, r.st)
    decreases ListSize(ss), 2, |ss|
  {
    if ss == [] then Completed(st)
    else if ss[0].None? then Interrupted(HostFault(NullStatement), st)
    else
      match Execute(ss[0].value, st, numText)
      case Interrupted(a, s1) => Interrupted(a, s1)
      case Completed(s1) => ExecuteList(ss[1..], s1, numText)
  }

  /** `Interpret`: the program runs in the current environment; a
      RuntimeError stops it and is handed to the host, any other
      exception escapes. */
  function Interpret(ss: StmtList, st: IState, numText: real -> string): (r: Exec)
    requires |st.frames| > 0
    ensures r.Completed? <==> ExecuteList(ss, st, numText).Completed? || ExecuteList(ss, st, numText).abrupt.Raise?
    ensures |r.st.frames| == |st.frames|
  {
    match ExecuteList(ss, st, numText)
    case Interrupted(Raise(err), s1) => Completed(s1.(errors := s1.errors + [err]))
    case other => other
  }

  /** Binds `args[i]` to each parameter from `i` on, in order. */
  function BindParams(params: seq<Token>, args: seq<Value>, i: nat, frame: map<string, Value>): (r: Result)
    requires i <= |params|
    ensures r.Bound? ==> frame.Keys <= r.frame.Keys && forall k :: i <= k < |params| ==> params[k].lexeme in r.frame
    decreases |params| - i
  {
    if i == |params| then Bound(frame)
    else if i >= |args| then Unbound(MissingArgument(i))
    else if params[i].lexeme in frame then Unbound(DuplicateDefinition(params[i].lexeme))
    else BindParams(params, args, i + 1, frame[params[i].lexeme := args[i]])
  }

  datatype Result = Bound(frame: map<string, Value>) | Unbound(fault: HostFault)

  /** `LoxFunction.Call`: the parameters are bound in a new environment
      enclosed by the closure, the body runs there, a `return` gives the
      call's value and running off the end gives nil. */
  function CallFunction(decl: FunctionDecl, closure: seq<map<string, Value>>, args: seq<Value>, st: IState, numText: real -> string): (r: Eval)
    ensures r.st.frames == st.frames && st.output <= r.st.output && r.st.errors == st.errors
  {
    match BindParams(decl.params, args, 0, map[])
    case Unbound(fault) => Fail(HostFault(fault), st)
    case Bound(frame) =>
      match ExecuteBlock(decl.body, [frame] + closure, st, numText)
      case Completed(s1) => Val(NilValue, s1)
      case Interrupted(ReturnSignal(v), s1) => Val(v, s1)
      case Interrupted(a, s1) => Fail(a, s1)
  }
}
