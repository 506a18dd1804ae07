/** What the evaluator of src/Interpreter.cs and the call of
    src/LoxFunction.cs guarantee, and where they differ from the usual Lox
    semantics, stated over module Evaluation. */
module InterpreterProperties {
  import opened Ast
  import opened Runtime
  import opened Evaluation

  // ---------------------------------------------------------------------
  // Values and operators.

  /** Only nil and false are falsy. */
  lemma OnlyNilAndFalseAreFalsy(v: Value)
    ensures !Truthy(v) <==> v == NilValue || v == Bool(false)
  {
  }

  /** `==` is value equality on the model's values, so it is reflexive and
      symmetric, and `!=` is exactly its negation. */
  lemma EqualityOperators(eq: Token, ne: Token, a: Value, b: Value, numText: real -> string)
    requires eq.kind == EqualEqual && ne.kind == BangEqual
    ensures BinaryOp(eq, a, b, numText) == Produced(Bool(a == b))
    ensures BinaryOp(eq, a, b, numText) == BinaryOp(eq, b, a, numText)
    ensures BinaryOp(ne, a, b, numText) == Produced(Bool(a != b))
  {
  }

  /** `+` adds two numbers; otherwise a string on either side makes it
      string interpolation, where nil is the empty text and a boolean is
      `True` or `False`; anything else throws. */
  lemma PlusAddsOrInterpolates(op: Token, a: Value, b: Value, numText: real -> string)
    requires op.kind == Plus
    ensures a.Num? && b.Num? ==> BinaryOp(op, a, b, numText) == Produced(Num(a.n + b.n))
    ensures !(a.Num? && b.Num?) && (a.Str? || b.Str?) ==>
              BinaryOp(op, a, b, numText) == Produced(Str(Text(a, numText) + Text(b, numText)))
    ensures BinaryOp(op, a, b, numText).Threw? <==> !(a.Num? && b.Num?) && !a.Str? && !b.Str?
    ensures BinaryOp(op, a, b, numText).Threw? ==>
              BinaryOp(op, a, b, numText).error == RuntimeError(op, "Expected numbers or strings")
  {
  }

  /** A string plus nil is the string itself, and `"x" + true` is `"xTrue"`. */
  lemma InterpolationOfNilAndBooleans(op: Token, s: string, numText: real -> string)
    requires op.kind == Plus
    ensures BinaryOp(op, Str(s), NilValue, numText) == Produced(Str(s))
    ensures BinaryOp(op, Str(s), Bool(true), numText) == Produced(Str(s + "True"))
  {
    assert s + "" == s;
  }

  predicate NumericOperator(kind: TokenType)
  {
    kind == Minus || kind == Star || kind == Slash
    || kind == Greater || kind == GreaterEqual || kind == Less || kind == LessEqual
  }

  /** The arithmetic and comparison operators throw unless both operands
      are numbers, and `/` also throws on a zero divisor. */
  lemma NumericOperatorsNeedNumbers(op: Token, a: Value, b: Value, numText: real -> string)
    requires NumericOperator(op.kind)
    ensures var r := BinaryOp(op, a, b, numText);
      && (r.Threw? <==> !(a.Num? && b.Num?) || (op.kind == Slash && b.n == 0.0))
      && (!(a.Num? && b.Num?) ==> r == Threw(RuntimeError(op, "Operands must be numbers")))
      && (a.Num? && b.Num? && op.kind == Slash && b.n == 0.0 ==> r == Threw(RuntimeError(op, "Zero Division")))
      && (a.Num? && b.Num? && op.kind == Less ==> r == Produced(Bool(a.n < b.n)))
  {
  }

  /** Unary `-` throws unless its operand is a number; `!` never throws. */
  lemma UnaryOperators(op: Token, v: Value)
    ensures op.kind == Minus ==>
              UnaryOp(op, v) == if v.Num? then Produced(Num(-v.n)) else Threw(RuntimeError(op, "Operand must be a number"))
    ensures op.kind == Bang ==> UnaryOp(op, v) == Produced(Bool(!Truthy(v)))
  {
  }

  /** `print` drops a trailing `.0` from a number's text, shows nil as `nil`
      and a boolean as `True` or `False`. */
  lemma StringifyDropsPointZero(n: real, t: string, numText: real -> string)
    requires numText(n) == t + ".0"
    ensures Stringify(Num(n), numText) == t
  {
    var text := t + ".0";
    assert text[|text| - 2..] == ".0";
    assert text[..|text| - 2] == t;
  }

  lemma StringifyOtherValues(v: Value, numText: real -> string)
    ensures v == NilValue ==> Stringify(v, numText) == "nil"
    ensures v.Bool? ==> Stringify(v, numText) == if v.b then "True" else "False"
    ensures v.Str? ==> Stringify(v, numText) == v.s
  {
  }

  /** Functions, classes and instances print, and interpolate after a
      string, as `<fn name>`, the class name, and `name instance`. */
  lemma ObjectsShowTheirNames(op: Token, s: string, v: Value, numText: real -> string)
    requires op.kind == Plus
    ensures v.FunctionValue? ==> Stringify(v, numText) == "<fn " + v.f.declaration.name.lexeme + ">"
    ensures v.BoundMethod? ==> Stringify(v, numText) == "<fn " + v.fn.declaration.name.lexeme + ">"
    ensures v.ClassValue? ==> Stringify(v, numText) == v.c.name
    ensures v.InstanceValue? ==> Stringify(v, numText) == v.i.loxClass.name + " instance"
    ensures !v.NilValue? && !v.Num? ==> BinaryOp(op, Str(s), v, numText) == Produced(Str(s + Stringify(v, numText)))
  {
  }

  // ---------------------------------------------------------------------
  // Expressions.

  /** A failing left operand ends a binary expression before the right one
      is evaluated. */
  lemma LeftOperandFirst(l: Expr, op: Token, r: Expr, st: IState, numText: real -> string)
    requires |st.frames| > 0 && Evaluate(l, st, numText).Fail?
    ensures Evaluate(Binary(l, op, r), st, numText) == Evaluate(l, st, numText)
  {
  }

  /** `or` returns a truthy left operand and `and` a falsy one whatever the
      right operand is, without evaluating it; otherwise the right operand
      is evaluated in the state the left one left. */
  lemma LogicalShortCircuits(l: Expr, op: Token, r: Expr, st: IState, numText: real -> string, v: Value, s: IState)
    requires |st.frames| > 0 && Evaluate(l, st, numText) == Val(v, s)
    ensures op.kind == Or && Truthy(v) ==> Evaluate(Logical(l, op, r), st, numText) == Val(v, s)
    ensures op.kind == And && !Truthy(v) ==> Evaluate(Logical(l, op, r), st, numText) == Val(v, s)
    ensures !(op.kind == Or && Truthy(v)) && !(op.kind == And && !Truthy(v)) ==>
      Evaluate(Logical(l, op, r), st, numText) == Evaluate(r, s, numText)
  {
    var whole := Evaluate(Logical(l, op, r), st, numText);
    if op.kind == Or && Truthy(v) {
      assert whole == Val(v, s);
    } else if op.kind == And && !Truthy(v) {
      assert whole == Val(v, s);
    } else {
      assert whole == Evaluate(r, s, numText);
    }
  }

  /** An assignment's value is the assigned value, and a read of the same
      name right after it gives that value. */
  lemma AssignThenRead(id: NodeId, id2: NodeId, name: Token, e: Expr, st: IState, numText: real -> string)
    requires |st.frames| > 0
    requires Evaluate(e, st, numText).Val? && name.lexeme in Evaluate(e, st, numText).st.frames[0]
    ensures var v := Evaluate(e, st, numText).v;
      var r := Evaluate(Assign(id, name, e), st, numText);
      r.Val? && r.v == v && Evaluate(Variable(id2, name), r.st, numText) == Val(v, r.st)
  {
    var ev := Evaluate(e, st, numText);
    AssignWritesValue(id, name, e, st, numText);
    ReadAfterWrite(id2, name, ev.v, ev.st, numText);
  }

  lemma AssignWritesValue(id: NodeId, name: Token, e: Expr, st: IState, numText: real -> string)
    requires |st.frames| > 0 && Evaluate(e, st, numText).Val?
    ensures Evaluate(Assign(id, name, e), st, numText)
              == AssignInnermost(name, Evaluate(e, st, numText).v, Evaluate(e, st, numText).st)
  {
  }

  lemma ReadAfterWrite(id: NodeId, name: Token, v: Value, st: IState, numText: real -> string)
    requires |st.frames| > 0 && name.lexeme in st.frames[0]
    ensures var r := AssignInnermost(name, v, st);
      r.Val? && r.v == v && Evaluate(Variable(id, name), r.st, numText) == Val(v, r.st)
  {
    var frames := st.frames[0 := st.frames[0][name.lexeme := v]];
    assert Lookup(frames, name.lexeme) == Some(v);
  }

  // ---------------------------------------------------------------------
  // Statements.

  /** A `while` runs its body once, even when its condition is false or
      would throw: the condition is never evaluated. */
  lemma WhileRunsBodyOnce(c: Expr, body: Stmt, st: IState, numText: real -> string)
    requires |st.frames| > 0
    ensures Execute(Stmt.While(c, body), st, numText) == Execute(body, st, numText)
  {
    var w := Stmt.While(c, body);
    assert Size(body) < Size(w);
  }

  /** An `if` evaluates its condition once and runs at most one branch. */
  lemma IfRunsOneBranch(c: Expr, t: Stmt, e: Option<Stmt>, st: IState, numText: real -> string)
    requires |st.frames| > 0 && Evaluate(c, st, numText).Val?
    ensures var cond := Evaluate(c, st, numText);
      Execute(Stmt.If(c, t, e), st, numText)
        == if Truthy(cond.v) then Execute(t, cond.st, numText)
           else if e.Some? then Execute(e.value, cond.st, numText)
           else Completed(cond.st)
  {
  }

  /** A block leaves the environment as it found it, whatever it declares
      and however it ends. */
  lemma BlockRestoresEnvironment(ss: StmtList, st: IState, numText: real -> string)
    requires |st.frames| > 0
    ensures Execute(Block(ss), st, numText).st.frames == st.frames
  {
  }

  /** `{ var a = 1; } print a;` with `a` undefined outside: the block's
      variable does not leak, so the read throws. */
  lemma BlockVariableDoesNotLeak(a: Token, id: NodeId, st: IState, numText: real -> string)
    requires |st.frames| > 0 && Lookup(st.frames, a.lexeme).None?
    ensures var program := [Some(Block([Some(Stmt.Var(a, Some(Literal(NumLit(1.0)))))])), Some(Stmt.Print(Variable(id, a)))];
      ExecuteList(program, st, numText) == Interrupted(Raise(RuntimeError(a, "Undefined variable '" + a.lexeme + "'")), st)
  {
    var program := [Some(Block([Some(Stmt.Var(a, Some(Literal(NumLit(1.0)))))])), Some(Stmt.Print(Variable(id, a)))];
    BlockWithOneVariable(a, st, numText);
    assert ExecuteList(program, st, numText) == ExecuteList(program[1..], st, numText);
    var err := RuntimeError(a, "Undefined variable '" + a.lexeme + "'");
    assert Evaluate(Variable(id, a), st, numText) == Fail(Raise(err), st);
    assert ExecuteList(program[1..], st, numText) == Interrupted(Raise(err), st);
  }

  /** `{ var a = 1; }` completes and leaves no trace. */
  lemma BlockWithOneVariable(a: Token, st: IState, numText: real -> string)
    requires |st.frames| > 0
    ensures Execute(Block([Some(Stmt.Var(a, Some(Literal(NumLit(1.0)))))]), st, numText) == Completed(st)
  {
    var decl: StmtList := [Some(Stmt.Var(a, Some(Literal(NumLit(1.0)))))];
    var inner := st.(frames := [map[]] + st.frames);
    var defined := inner.(frames := inner.frames[0 := map[a.lexeme := Num(1.0)]]);
    assert ExecuteVar(a, Some(Literal(NumLit(1.0))), inner, numText) == Completed(defined);
    assert ExecuteList(decl, inner, numText) == Completed(defined);
    assert defined.(frames := st.frames) == st;
  }

  /** `{ a = 1; }`: an assignment looks only at the current environment,
      so inside a block it never reaches a variable of an enclosing one. */
  lemma AssignmentInBlockNeverReachesOuterVariable(a: Token, id: NodeId, st: IState, numText: real -> string)
    requires |st.frames| > 0
    ensures Execute(Block([Some(Expression(Assign(id, a, Literal(NumLit(1.0)))))]), st, numText)
              == Interrupted(Raise(RuntimeError(a, "Undefined variable " + a.lexeme)), st)
  {
    var ss: StmtList := [Some(Expression(Assign(id, a, Literal(NumLit(1.0)))))];
    var inner := st.(frames := [map[]] + st.frames);
    var err := RuntimeError(a, "Undefined variable " + a.lexeme);
    assert Evaluate(Literal(NumLit(1.0)), inner, numText) == Val(Num(1.0), inner);
    assert AssignInnermost(a, Num(1.0), inner) == Fail(Raise(err), inner);
    assert Evaluate(Assign(id, a, Literal(NumLit(1.0))), inner, numText) == Fail(Raise(err), inner);
    assert Execute(ss[0].value, inner, numText) == Interrupted(Raise(err), inner);
    assert ExecuteList(ss, inner, numText) == Interrupted(Raise(err), inner);
    assert inner.(frames := st.frames) == st;
    assert ExecuteBlock(ss, [map[]] + st.frames, st, numText) == Interrupted(Raise(err), st);
  }

  /** `var a; var a;`: a second definition in the same environment
      overwrites and then throws. */
  lemma RedefinitionThrows(a: Token, st: IState, numText: real -> string)
    requires |st.frames| > 0
    ensures var r := ExecuteList([Some(Stmt.Var(a, None)), Some(Stmt.Var(a, None))], st, numText);
      && r == Interrupted(HostFault(DuplicateDefinition(a.lexeme)), r.st)
      && r.st.frames[0] == st.frames[0][a.lexeme := NilValue]
  {
    var ss: StmtList := [Some(Stmt.Var(a, None)), Some(Stmt.Var(a, None))];
    var s1 := st.(frames := st.frames[0 := st.frames[0][a.lexeme := NilValue]]);
    DefinesNil(a, st, numText);
    if a.lexeme !in st.frames[0] {
      assert ExecuteList(ss, st, numText) == ExecuteList(ss[1..], s1, numText);
      DefinesNil(a, s1, numText);
      assert s1.frames[0][a.lexeme := NilValue] == s1.frames[0];
    }
  }

  /** `var a;` defines nil under `a` in the current environment. */
  lemma DefinesNil(a: Token, st: IState, numText: real -> string)
    requires |st.frames| > 0
    ensures var s1 := st.(frames := st.frames[0 := st.frames[0][a.lexeme := NilValue]]);
      Execute(Stmt.Var(a, None), st, numText)
        == if a.lexeme in st.frames[0] then Interrupted(HostFault(DuplicateDefinition(a.lexeme)), s1) else Completed(s1)
  {
  }

  // ---------------------------------------------------------------------
  // Programs.

  /** Running `p + q` is running `p`, then `q` if `p` completed. */
  lemma {:induction false} ExecuteListAppend(p: StmtList, q: StmtList, st: IState, numText: real -> string)
    requires |st.frames| > 0
    ensures ExecuteList(p + q, st, numText)
              == match ExecuteList(p, st, numText)
                 case Completed(s) => ExecuteList(q, s, numText)
                 case Interrupted(a, s) => Interrupted(a, s)
    decreases |p|
  {
    if p == [] {
      assert p + q == q;
    } else {
      assert (p + q)[0] == p[0] && (p + q)[1..] == p[1..] + q;
      if p[0].Some? {
        match Execute(p[0].value, st, numText)
        case Completed(s1) =>
          ExecuteListAppend(p[1..], q, s1, numText);
        case Interrupted(_, _) =>
      }
    }
  }

  /** A program stops at its first runtime error: the error is handed to
      the host, the effects of the statements before it stay, and the
      statements after it never run. */
  lemma InterpretStopsAtFirstError(ss: StmtList, k: nat, st: IState, numText: real -> string)
    requires |st.frames| > 0 && k < |ss| && ss[k].Some?
    requires ExecuteList(ss[..k], st, numText).Completed?
    requires Execute(ss[k].value, ExecuteList(ss[..k], st, numText).st, numText).Interrupted?
    requires Execute(ss[k].value, ExecuteList(ss[..k], st, numText).st, numText).abrupt.Raise?
    ensures var before := ExecuteList(ss[..k], st, numText).st;
      var failed := Execute(ss[k].value, before, numText);
      && Interpret(ss, st, numText) == Completed(failed.st.(errors := failed.st.errors + [failed.abrupt.error]))
      && before.output <= Interpret(ss, st, numText).st.output
  {
    var before := ExecuteList(ss[..k], st, numText).st;
    var failed := Execute(ss[k].value, before, numText);
    SplitAt(ss, k);
    ExecuteListAppend(ss[..k], ss[k..], st, numText);
    assert ExecuteList(ss, st, numText) == ExecuteList(ss[k..], before, numText);
    assert ss[k..][0] == ss[k];
    assert ExecuteList(ss[k..], before, numText) == failed;
  }

  lemma SplitAt<T>(s: seq<T>, k: nat)
    requires k <= |s|
    ensures s[..k] + s[k..] == s
  {
  }

  // ---------------------------------------------------------------------
  // Calls.

  /** The parameters from `i` on have distinct names, none already bound. */
  ghost predicate FreshNames(params: seq<Token>, i: nat, frame: map<string, Value>)
  {
    forall j :: i <= j < |params| ==>
      params[j].lexeme !in frame && forall k :: i <= k < j ==> params[k].lexeme != params[j].lexeme
  }

  /** Binding is positional: it succeeds exactly when every parameter has
      an argument and no name repeats, and then parameter `k` holds
      `args[k]`; extra arguments are ignored. */
  lemma {:induction false} BindingIsPositional(params: seq<Token>, args: seq<Value>, i: nat, frame: map<string, Value>)
    requires i <= |params|
    ensures var r := BindParams(params, args, i, frame);
      && (r.Bound? <==> (i == |params| || |params| <= |args|) && FreshNames(params, i, frame))
      && (r.Bound? ==> forall k :: i <= k < |params| ==> r.frame[params[k].lexeme] == args[k])
      && (r.Bound? ==> forall n :: n in frame ==> r.frame[n] == frame[n])
    decreases |params| - i
  {
    if i < |params| && i < |args| && params[i].lexeme !in frame {
      var next := frame[params[i].lexeme := args[i]];
      BindingIsPositional(params, args, i + 1, next);
      assert FreshNames(params, i, frame) <==> FreshNames(params, i + 1, next);
    }
  }

  /** Too few arguments, with distinct parameter names: the first
      parameter without an argument throws. */
  lemma {:induction false} MissingArgumentIsFirstUnmatched(params: seq<Token>, args: seq<Value>, i: nat, frame: map<string, Value>)
    requires i <= |args| < |params| && FreshNames(params, i, frame)
    ensures BindParams(params, args, i, frame) == Unbound(MissingArgument(|args|))
    decreases |args| - i
  {
    if i < |args| {
      var next := frame[params[i].lexeme := args[i]];
      assert FreshNames(params, i + 1, next);
      MissingArgumentIsFirstUnmatched(params, args, i + 1, next);
    }
  }

  /** A call's value is what the body's `return` signalled, or nil when the
      body completes; the caller's environment is back in place either
      way. */
  lemma CallValue(decl: FunctionDecl, closure: seq<map<string, Value>>, args: seq<Value>, st: IState, numText: real -> string)
    requires BindParams(decl.params, args, 0, map[]).Bound?
    ensures var run := ExecuteBlock(decl.body, [BindParams(decl.params, args, 0, map[]).frame] + closure, st, numText);
      var r := CallFunction(decl, closure, args, st, numText);
      && (run.Completed? ==> r == Val(NilValue, run.st))
      && (run.Interrupted? && run.abrupt.ReturnSignal? ==> r == Val(run.abrupt.value, run.st))
      && r.st.frames == st.frames
  {
  }

  /** Calling with fewer arguments than parameters throws before the body
      runs, leaving the state as it was. */
  lemma TooFewArgumentsThrow(decl: FunctionDecl, closure: seq<map<string, Value>>, args: seq<Value>, st: IState, numText: real -> string)
    requires |args| < |decl.params| && FreshNames(decl.params, 0, map[])
    ensures CallFunction(decl, closure, args, st, numText) == Fail(HostFault(MissingArgument(|args|)), st)
  {
    MissingArgumentIsFirstUnmatched(decl.params, args, 0, map[]);
  }

  // ---------------------------------------------------------------------
  // Objects.

  /** A field set on an instance reads back, and hides a method of the same
      name. */
  lemma FieldReadsBackAndShadowsMethod(fields: map<string, Value>, cls: LoxClass, self: LoxInstance, name: string, v: Value)
    ensures Property(fields[name := v], cls, self, name) == Some(v)
  {
  }

  /** Without a field of that name, a property is the class's method bound
      to the instance. */
  lemma MethodIsBoundToInstance(cls: LoxClass, self: LoxInstance, name: string)
    requires name in cls.methods
    ensures Property(map[], cls, self, name) == Some(BoundMethod(cls.methods[name], self))
  {
  }
}
