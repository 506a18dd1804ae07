/** The interpreter of src/Interpreter.cs as a class whose `env` field is
    swapped in place by `ExecuteBlock`, and the call of src/LoxFunction.cs.
    Each method returns the exception it lets escape, if any, and is proved
    to compute what module Evaluation says. */
module Interpreter {
  import opened Ast
  import opened Runtime
  import opened Evaluation

  /** A statement's outcome, from the exception it let escape. */
  function Ended(abrupt: Option<Abrupt>, st: IState): (r: Exec)
    ensures r.st == st && (r.Completed? <==> abrupt.None?)
  {
    if abrupt.Some? then Interrupted(abrupt.value, st) else Completed(st)
  }

  /** An expression's outcome, from its value or the exception it let escape. */
  function Returned(v: Value, abrupt: Option<Abrupt>, st: IState): (r: Eval)
    ensures r.st == st && (r.Val? <==> abrupt.None?)
  {
    if abrupt.Some? then Fail(abrupt.value, st) else Val(v, st)
  }

  class Interpreter {
    /** The current environment. */
    var env: LoxEnvironment
    /** The lines `print` wrote. */
    var output: seq<string>
    /** The runtime errors handed to the host's `RuntimeError`. */
    var errors: seq<RuntimeError>
    /** The host's text of a number. */
    const numText: real -> string

    ghost predicate Valid()
      reads this
    {
      env.Valid()
    }

    function State(): IState
      requires Valid()
      reads this, env.Chain
    {
      IState(env.Frames(), output, errors)
    }

    /** The interpreter starts in a fresh global environment. */
    constructor (numText: real -> string)
      ensures Valid() && fresh(env) && State() == IState([map[]], [], [])
    {
      env := new LoxEnvironment();
      output := [];
      errors := [];
      this.numText := numText;
    }

    // -------------------------------------------------------------------
    // Expressions.

    method Evaluate(e: Expr) returns (v: Value, abrupt: Option<Abrupt>)
      requires Valid()
      modifies env
      ensures Valid()
      ensures Returned(v, abrupt, State()) == Evaluation.Evaluate(e, old(State()), numText)
      decreases e, 2
    {
      abrupt := None;
      v := NilValue;
      match e
      case Literal(lit) =>
        v := LiteralValue(lit);
      case Grouping(x) =>
        v, abrupt := Evaluate(x);
      case Unary(op, x) =>
        var right: Value;
        right, abrupt := Evaluate(x);
        if abrupt.None? {
          v, abrupt := Apply(UnaryOp(op, right));
        }
      case Binary(_, _, _) =>
        v, abrupt := VisitBinary(e);
      case Logical(_, _, _) =>
        v, abrupt := VisitLogical(e);
      case Variable(_, name) =>
        v, abrupt := VisitVariable(name);
      case Assign(_, _, _) =>
        v, abrupt := VisitAssign(e);
      case Call(_, _, _) =>
        abrupt := Some(Unmodelled);
      case Get(_, _) =>
        abrupt := Some(Unmodelled);
      case Set(_, _, _) =>
        abrupt := Some(Unmodelled);
      case This(_, _) =>
        abrupt := Some(Unmodelled);
    }

    /** A variable is read through the whole environment chain. */
    method VisitVariable(name: Token) returns (v: Value, abrupt: Option<Abrupt>)
      requires Valid()
      ensures Returned(v, abrupt, State()) == Evaluation.Evaluate(Variable(0, name), State(), numText)
    {
      ghost var found := Lookup(env.Frames(), name.lexeme);
      ghost var error := RuntimeError(name, "Undefined variable '" + name.lexeme + "'");
      assert Evaluation.Evaluate(Variable(0, name), State(), numText)
          == if found.Some? then Val(found.value, State()) else Fail(Raise(error), State());
      var err;
      v, err := env.Get(name);
      abrupt := None;
      if err.Some? {
        abrupt := Some(Raise(err.value));
      }
    }

    /** An assignment writes the current environment only, and its value is
        the assigned value. */
    method VisitAssign(e: Expr) returns (v: Value, abrupt: Option<Abrupt>)
      requires Valid() && e.Assign?
      modifies env
      ensures Valid()
      ensures Returned(v, abrupt, State()) == Evaluation.Evaluate(e, old(State()), numText)
      decreases e, 1
    {
      ghost var st := State();
      v, abrupt := Evaluate(e.value);
      if abrupt.None? {
        ghost var s1 := State();
        assert Evaluation.Evaluate(e, st, numText) == AssignInnermost(e.name, v, s1);
        var err := env.Assign(e.name, v);
        if err.Some? {
          abrupt := Some(Raise(err.value));
        }
        assert State() == s1.(frames := State().frames);
      }
    }

    /** A value, or the RuntimeError thrown in its place. */
    method Apply(r: Outcome) returns (v: Value, abrupt: Option<Abrupt>)
      ensures r.Produced? ==> abrupt.None? && v == r.v
      ensures r.Threw? ==> abrupt == Some(Raise(r.error))
    {
      match r
      case Produced(x) =>
        v, abrupt := x, None;
      case Threw(err) =>
        v, abrupt := NilValue, Some(Raise(err));
    }

    /** Both operands, left first, then the operator. */
    method VisitBinary(e: Expr) returns (v: Value, abrupt: Option<Abrupt>)
      requires Valid() && e.Binary?
      modifies env
      ensures Valid()
      ensures Returned(v, abrupt, State()) == Evaluation.Evaluate(e, old(State()), numText)
      decreases e, 1
    {
      var left: Value, right: Value;
      v := NilValue;
      left, abrupt := Evaluate(e.left);
      if abrupt.Some? {
        return;
      }
      right, abrupt := Evaluate(e.right);
      if abrupt.Some? {
        return;
      }
      v, abrupt := Apply(BinaryOp(e.op, left, right, numText));
    }

    /** `or` keeps a truthy left operand and `and` a falsy one; otherwise
        the right operand is the value. */
    method VisitLogical(e: Expr) returns (v: Value, abrupt: Option<Abrupt>)
      requires Valid() && e.Logical?
      modifies env
      ensures Valid()
      ensures Returned(v, abrupt, State()) == Evaluation.Evaluate(e, old(State()), numText)
      decreases e, 1
    {
      v, abrupt := Evaluate(e.left);
      if abrupt.Some? {
        return;
      }
      if e.op.kind == Or {
        if Truthy(v) {
          return;
        }
      } else if e.op.kind == And {
        if !Truthy(v) {
          return;
        }
      }
      v, abrupt := Evaluate(e.right);
    }

    // -------------------------------------------------------------------
    // Statements.

    method Execute(s: Stmt) returns (abrupt: Option<Abrupt>)
      requires Valid()
      modifies this, env
      ensures Valid() && env == old(env)
      ensures Ended(abrupt, State()) == Evaluation.Execute(s, old(State()), numText)
      decreases Size(s), 2
    {
      abrupt := None;
      match s
      case Expression(e) =>
        var v: Value;
        v, abrupt := Evaluate(e);
      case Print(e) =>
        var v: Value;
        v, abrupt := Evaluate(e);
        if abrupt.None? {
          output := output + [Stringify(v, numText)];
        }
      case Var(name, init) =>
        abrupt := VisitVar(name, init);
      case Block(_) =>
        abrupt := VisitBlock(s);
      case If(_, _, _) =>
        abrupt := VisitIf(s);
      case While(_, body) =>
        abrupt := Execute(body);
      case Return(_, value) =>
        var v: Value := NilValue;
        if value.Some? {
          v, abrupt := Evaluate(value.value);
        }
        if abrupt.None? {
          abrupt := Some(ReturnSignal(v));
        }
      case Function(_) =>
        abrupt := Some(Unmodelled);
      case Class(_, _) =>
        abrupt := Some(Unmodelled);
    }

    /** nil, or the initializer's value, is defined in the current
        environment. */
    method VisitVar(name: Token, init: Option<Expr>) returns (abrupt: Option<Abrupt>)
      requires Valid()
      modifies this, env
      ensures Valid() && env == old(env)
      ensures Ended(abrupt, State()) == ExecuteVar(name, init, old(State()), numText)
    {
      var v := NilValue;
      abrupt := None;
      if init.Some? {
        v, abrupt := Evaluate(init.value);
        if abrupt.Some? {
          return;
        }
      }
      var duplicate := env.Define(name.lexeme, v);
      if duplicate {
        abrupt := Some(HostFault(DuplicateDefinition(name.lexeme)));
      }
    }

    /** A block runs in a new environment enclosed by the current one. */
    method VisitBlock(s: Stmt) returns (abrupt: Option<Abrupt>)
      requires Valid() && s.Block?
      modifies this, env
      ensures Valid() && env == old(env)
      ensures Ended(abrupt, State()) == Evaluation.Execute(s, old(State()), numText)
      decreases Size(s), 1
    {
      var inner := new LoxEnvironment.Enclosed(env);
      abrupt := ExecuteBlock(s.statements, inner);
    }

    method VisitIf(s: Stmt) returns (abrupt: Option<Abrupt>)
      requires Valid() && s.If?
      modifies this, env
      ensures Valid() && env == old(env)
      ensures Ended(abrupt, State()) == Evaluation.Execute(s, old(State()), numText)
      decreases Size(s), 1
    {
      var c: Value;
      c, abrupt := Evaluate(s.condition);
      if abrupt.Some? {
        return;
      }
      if Truthy(c) {
        abrupt := Execute(s.thenBranch);
      } else if s.elseBranch.Some? {
        abrupt := Execute(s.elseBranch.value);
      }
    }

    /** The `foreach` over a statement list in the current environment,
        shared by `Interpret` and `ExecuteBlock`; a null statement
        throws. */
    method ExecuteList(ss: StmtList) returns (abrupt: Option<Abrupt>)
      requires Valid()
      modifies this, env
      ensures Valid() && env == old(env)
      ensures Ended(abrupt, State()) == Evaluation.ExecuteList(ss, old(State()), numText)
      decreases ListSize(ss), 3
    {
      ghost var st := State();
      abrupt := None;
      var i := 0;
      while i < |ss| && abrupt.None?
        invariant 0 <= i <= |ss|
        invariant env == old(env) && Valid()
        invariant abrupt.None? ==> Evaluation.ExecuteList(ss, st, numText) == Evaluation.ExecuteList(ss[i..], State(), numText)
        invariant abrupt.Some? ==> Evaluation.ExecuteList(ss, st, numText) == Ended(abrupt, State())
      {
        assert ss[i..][1..] == ss[i + 1..];
        if ss[i].None? {
          abrupt := Some(HostFault(NullStatement));
        } else {
          abrupt := Execute(ss[i].value);
        }
        i := i + 1;
      }
    }

    /** Runs the statements with `inner` as the current environment and
        puts the previous one back however they end. */
    method ExecuteBlock(ss: StmtList, inner: LoxEnvironment) returns (abrupt: Option<Abrupt>)
      requires Valid() && inner.Valid() && inner !in env.Chain
      modifies this, inner
      ensures Valid() && env == old(env)
      ensures Ended(abrupt, State()) == Evaluation.ExecuteBlock(ss, old(inner.Frames()), old(State()), numText)
      decreases ListSize(ss), 4
    {
      var previous := env;
      previous.ChainSuffixes();
      env := inner;
      abrupt := ExecuteList(ss);
      env := previous;
    }

    /** The program's statements in order; a RuntimeError stops them and is
        handed to the host. */
    method Interpret(ss: StmtList) returns (abrupt: Option<Abrupt>)
      requires Valid()
      modifies this, env
      ensures Valid() && env == old(env)
      ensures Ended(abrupt, State()) == Evaluation.Interpret(ss, old(State()), numText)
    {
      abrupt := ExecuteList(ss);
      if abrupt.Some? && abrupt.value.Raise? {
        errors := errors + [abrupt.value.error];
        abrupt := None;
      }
    }

    /** `LoxFunction.Call`: a new environment enclosed by the closure gets
        argument `i` under parameter `i`, the body runs there, and a
        `return` signal gives the call's value; otherwise it is nil. */
    method CallFunction(f: LoxFunction, args: seq<Value>) returns (v: Value, abrupt: Option<Abrupt>)
      requires Valid() && f.closure.Valid()
      modifies this
      ensures Valid() && env == old(env)
      ensures Returned(v, abrupt, State()) == Evaluation.CallFunction(f.declaration, old(f.closure.Frames()), args, old(State()), numText)
    {
      ghost var st := State();
      ghost var closure := f.closure.Frames();
      var callEnv := new LoxEnvironment.Enclosed(f.closure);
      var fault := DefineParameters(callEnv, f.declaration.params, args);
      if fault.Some? {
        return NilValue, Some(HostFault(fault.value));
      }
      assert callEnv.Frames() == [callEnv.values] + closure && State() == st;
      abrupt := ExecuteBlock(f.declaration.body, callEnv);
      v := NilValue;
      if abrupt.Some? && abrupt.value.ReturnSignal? {
        v, abrupt := abrupt.value.value, None;
      }
    }
  }

  /** The `for` loop of `LoxFunction.Call`: parameter `i` is defined as
      `args[i]`, in order. A missing argument or a parameter defined twice
      throws. */
  method DefineParameters(env: LoxEnvironment, params: seq<Token>, args: seq<Value>) returns (fault: Option<HostFault>)
    requires env.Valid() && env.values == map[]
    modifies env
    ensures fault.None? ==> BindParams(params, args, 0, map[]) == Bound(env.values)
    ensures fault.Some? ==> BindParams(params, args, 0, map[]) == Unbound(fault.value)
  {
    var i := 0;
    while i < |params|
      invariant 0 <= i <= |params|
      invariant BindParams(params, args, 0, map[]) == BindParams(params, args, i, env.values)
    {
      if i >= |args| {
        return Some(MissingArgument(i));
      }
      var duplicate := env.Define(params[i].lexeme, args[i]);
      if duplicate {
        return Some(DuplicateDefinition(params[i].lexeme));
      }
      i := i + 1;
    }
    fault := None;
  }
}
