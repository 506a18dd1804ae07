/** What the grammar of module Grammar does with some inputs, stated over
    all token lists where possible. */
module ParserProperties {
  import opened Ast
  import opened Grammar

  /** The chain of left operands of `e` reaches `left`: the operand a
      binary level started from stays at the bottom left. */
  predicate OnLeftSpine(e: Expr, left: Expr)
  {
    e == left || (e.Binary? && OnLeftSpine(e.left, left))
  }

  /** The level of the binary operators: 4 for equality, 3 for comparison,
      2 for terms, 1 for factors and 0 for any other token. */
  function Precedence(kind: TokenType): (p: nat)
    ensures p <= 4
    ensures forall level :: 1 <= level <= 4 ==> (kind in OpsAt(level) <==> p == level)
  {
    if kind in OpsAt(4) then 4
    else if kind in OpsAt(3) then 3
    else if kind in OpsAt(2) then 2
    else if kind in OpsAt(1) then 1
    else 0
  }

  /** `e` is `left` extended by a left fold of operators of `level`: every
      node down the left spine to `left` is a binary operator of that
      level whose right operand binds tighter (its root is no binary
      operator of `level` or a lower precedence). */
  predicate LeftAssoc(e: Expr, left: Expr, level: nat)
  {
    e == left
    || (&& e.Binary? && e.op.kind in OpsAt(level)
        && (e.right.Binary? ==> Precedence(e.right.op.kind) < level)
        && LeftAssoc(e.left, left, level))
  }

  /** The loop of a binary level folds to the left: what it builds from
      `left` is a left fold of that level's operators over operands that
      bind tighter, so `a - b - c` is `(a - b) - c` and never `a - (b - c)`. */
  lemma {:induction false} LevelLoopIsLeftAssociative(toks: seq<Token>, level: nat, left: Expr, st: PState)
    requires Valid(toks, st) && 1 <= level <= 4
    ensures var r := LevelLoop(toks, level, left, st);
      r.Ok? ==> LeftAssoc(r.value, left, level) && OnLeftSpine(r.value, left)
    decreases level, 1, |toks| - st.current
  {
    if MatchAny(toks, st.current, OpsAt(level)) {
      var op := toks[st.current];
      match ParseOperand(toks, AdvanceSpec(toks, st), level)
      case Thrown(_) =>
      case Ok(right, s) =>
        OperandBindsTighter(toks, AdvanceSpec(toks, st), level);
        var mid := Binary(left, op, right);
        assert LeftAssoc(mid, left, level);
        LevelLoopIsLeftAssociative(toks, level, mid, s);
        var r := LevelLoop(toks, level, mid, s);
        if r.Ok? {
          OnLeftSpineTransitive(r.value, mid, left);
          LeftAssocTransitive(r.value, mid, left, level);
        }
    }
  }

  /** The operand of a level is no binary operator of that level or above. */
  lemma {:induction false} OperandBindsTighter(toks: seq<Token>, st: PState, level: nat)
    requires Valid(toks, st) && 1 <= level <= 4
    ensures var r := ParseOperand(toks, st, level);
      r.Ok? && r.value.Binary? ==> 1 <= Precedence(r.value.op.kind) < level
    decreases level, 0
  {
    if level == 1 {
      UnaryIsNoAssignment(toks, st);
      assert ParseOperand(toks, st, level) == ParseUnary(toks, st);
    } else {
      LevelIsLeftAssociative(toks, st, level - 1);
      assert ParseOperand(toks, st, level) == ParseLevel(toks, st, level - 1);
    }
  }

  /** A whole level is a left fold of its operators over its first operand,
      which binds tighter; so its root is no binary operator above it. */
  lemma {:induction false} LevelIsLeftAssociative(toks: seq<Token>, st: PState, level: nat)
    requires Valid(toks, st) && 1 <= level <= 4
    ensures match ParseOperand(toks, st, level)
      case Thrown(s) => ParseLevel(toks, st, level) == Thrown(s)
      case Ok(first, s) =>
        && (first.Binary? ==> 1 <= Precedence(first.op.kind) < level)
        && (ParseLevel(toks, st, level).Ok? ==> LeftAssoc(ParseLevel(toks, st, level).value, first, level))
    ensures var r := ParseLevel(toks, st, level);
      r.Ok? && r.value.Binary? ==> 1 <= Precedence(r.value.op.kind) <= level
    decreases level, 2
  {
    OperandBindsTighter(toks, st, level);
    match ParseOperand(toks, st, level)
    case Thrown(_) =>
    case Ok(first, s) =>
      LevelLoopIsLeftAssociative(toks, level, first, s);
      var r := ParseLevel(toks, st, level);
      if r.Ok? && r.value != first {
        assert r.value.op.kind in OpsAt(level);
      }
  }

  /** A right-nested chain `a op (b op c)` of one level is no left fold
      from `a`. */
  lemma RightNestingIsNotLeftAssoc(a: Expr, op: Token, b: Expr, op2: Token, c: Expr, level: nat)
    requires 1 <= level <= 4 && op.kind in OpsAt(level) && op2.kind in OpsAt(level) && !a.Binary?
    ensures !LeftAssoc(Binary(a, op, Binary(b, op2, c)), a, level)
  {
  }

  lemma {:induction false} LeftAssocTransitive(e: Expr, mid: Expr, left: Expr, level: nat)
    requires LeftAssoc(e, mid, level) && LeftAssoc(mid, left, level)
    ensures LeftAssoc(e, left, level)
    decreases e
  {
    if e != mid {
      LeftAssocTransitive(e.left, mid, left, level);
    }
  }

  lemma {:induction false} OnLeftSpineTransitive(e: Expr, mid: Expr, left: Expr)
    requires OnLeftSpine(e, mid) && mid.Binary? && mid.left == left
    ensures OnLeftSpine(e, left)
    decreases e
  {
    if e != mid {
      OnLeftSpineTransitive(e.left, mid, left);
    }
  }

  /** `e` under the prefix operators `ops`, the first outermost. */
  function Prefixed(ops: seq<Token>, e: Expr): (r: Expr)
    ensures ops == [] ==> r == e
    ensures ops != [] ==> r.Unary? && r.op == ops[0]
  {
    if ops == [] then e else Unary(ops[0], Prefixed(ops[1..], e))
  }

  /** `Unary` is a right-recursive prefix: a run of `!` and `-` wraps the
      call after it, the first operator outermost. */
  lemma {:induction false} UnaryIsRightRecursive(toks: seq<Token>, st: PState, n: nat)
    requires Valid(toks, st) && st.current + n < |toks|
    requires forall k :: st.current <= k < st.current + n ==> toks[k].kind == Bang || toks[k].kind == Minus
    requires !MatchAny(toks, st.current + n, [Bang, Minus])
    ensures ParseUnary(toks, st)
         == match ParseCall(toks, st.(current := st.current + n))
            case Thrown(s) => Thrown(s)
            case Ok(e, s) => Ok(Prefixed(toks[st.current..st.current + n], e), s)
    decreases n
  {
    var k := st.current;
    if n == 0 {
      assert st.(current := k) == st;
    } else {
      var st1 := st.(current := k + 1);
      var ops := toks[k..k + n];
      assert MatchAny(toks, k, [Bang, Minus]) && AdvanceSpec(toks, st) == st1;
      UnaryIsRightRecursive(toks, st1, n - 1);
      assert st1.(current := st1.current + (n - 1)) == st.(current := k + n);
      assert ops[0] == toks[k] && ops[1..] == toks[k + 1..k + n];
      match ParseCall(toks, st.(current := k + n))
      case Thrown(s) =>
        assert ParseUnary(toks, st1) == Thrown(s);
      case Ok(e, s) =>
        assert ParseUnary(toks, st1) == Ok(Prefixed(ops[1..], e), s);
        assert Prefixed(ops, e) == Unary(toks[k], Prefixed(ops[1..], e));
    }
  }

  /** The chain of callees of `e` reaches `callee`. */
  predicate OnCallSpine(e: Expr, callee: Expr)
  {
    e == callee || (e.Call? && OnCallSpine(e.callee, callee))
  }

  /** Each turn of the call loop wraps the expression so far as the callee
      of a new `Call`: the primary stays at the bottom of the callee chain,
      and a `(` after it always makes a `Call`. */
  lemma {:induction false} CallLoopNestsCalls(toks: seq<Token>, callee: Expr, st: PState)
    requires Valid(toks, st)
    ensures var r := CallLoop(toks, callee, st);
      && (!MatchAny(toks, st.current, [LeftParen]) ==> r == Ok(callee, st))
      && (MatchAny(toks, st.current, [LeftParen]) && r.Ok? ==> r.value.Call? && OnCallSpine(r.value.callee, callee))
    decreases |toks| - st.current
  {
    if MatchAny(toks, st.current, [LeftParen]) {
      match ParseFinishCall(toks, callee, AdvanceSpec(toks, st))
      case Thrown(_) =>
      case Ok(e, s) =>
        CallLoopNestsCalls(toks, e, s);
        var r := CallLoop(toks, e, s);
        if r.Ok? && r.value != e {
          OnCallSpineStep(r.value.callee, e, callee);
        }
    }
  }

  lemma {:induction false} OnCallSpineStep(e: Expr, mid: Expr, callee: Expr)
    requires OnCallSpine(e, mid) && mid.Call? && mid.callee == callee
    ensures OnCallSpine(e, callee)
    decreases e
  {
    if e != mid {
      OnCallSpineStep(e.callee, mid, callee);
    }
  }

  /** `()` adds one argument-less `Call` around the callee. */
  lemma EmptyCallTurn(toks: seq<Token>, callee: Expr, st: PState)
    requires Valid(toks, st) && st.current + 2 < |toks|
    requires toks[st.current].kind == LeftParen && toks[st.current + 1].kind == RightParen
    ensures CallLoop(toks, callee, st)
         == CallLoop(toks, Call(callee, toks[st.current + 1], []), st.(current := st.current + 2))
  {
    var s1 := st.(current := st.current + 1);
    assert ParseArguments(toks, s1) == Ok([], s1);
    assert ParseFinishCall(toks, callee, s1) == Ok(Call(callee, toks[st.current + 1], []), st.(current := st.current + 2));
  }

  /** An identifier is a primary on its own: a `Variable` node. */
  lemma IdentifierIsVariable(toks: seq<Token>, st: PState)
    requires Valid(toks, st) && toks[st.current].kind == Identifier
    ensures ParsePrimary(toks, st) == Ok(Variable(st.current, toks[st.current]), st.(current := st.current + 1))
  {
  }

  /** `f()()` is a call of the call `f()`. */
  lemma CallsNestToTheLeft(toks: seq<Token>, st: PState)
    requires Valid(toks, st) && st.current + 5 < |toks|
    requires var k := st.current;
      && toks[k].kind == Identifier && toks[k + 1].kind == LeftParen && toks[k + 2].kind == RightParen
      && toks[k + 3].kind == LeftParen && toks[k + 4].kind == RightParen && toks[k + 5].kind == Semicolon
    ensures var k := st.current;
      ParseCall(toks, st) == Ok(Call(Call(Variable(k, toks[k]), toks[k + 2], []), toks[k + 4], []), st.(current := k + 5))
  {
    var k := st.current;
    var f := Variable(k, toks[k]);
    IdentifierIsVariable(toks, st);
    assert ParseCall(toks, st) == CallLoop(toks, f, st.(current := k + 1));
    TwoEmptyCalls(toks, f, st.(current := k + 1));
  }

  /** `()()` and then no `(`: two calls, the first one innermost. */
  lemma TwoEmptyCalls(toks: seq<Token>, callee: Expr, st: PState)
    requires Valid(toks, st) && st.current + 4 < |toks|
    requires var k := st.current;
      && toks[k].kind == LeftParen && toks[k + 1].kind == RightParen
      && toks[k + 2].kind == LeftParen && toks[k + 3].kind == RightParen && toks[k + 4].kind != LeftParen
    ensures var k := st.current;
      CallLoop(toks, callee, st) == Ok(Call(Call(callee, toks[k + 1], []), toks[k + 3], []), st.(current := k + 4))
  {
    var k := st.current;
    var inner := Call(callee, toks[k + 1], []);
    var outer := Call(inner, toks[k + 3], []);
    var s2, s4 := st.(current := k + 2), st.(current := k + 4);
    calc {
      CallLoop(toks, callee, st);
    == { EmptyCallTurn(toks, callee, st); }
      CallLoop(toks, inner, s2);
    == { EmptyCallTurn(toks, inner, s2); }
      CallLoop(toks, outer, s4);
    == { assert !MatchAny(toks, s4.current, [LeftParen]); }
      Ok(outer, s4);
    }
  }

  /** The operand parsed before a possible `=` is never itself an
      assignment: the binary levels build `Binary` nodes over a unary
      operand, which is a `Unary`, a `Call` or a primary. */
  lemma {:induction false} LevelIsNoAssignment(toks: seq<Token>, st: PState, level: nat)
    requires Valid(toks, st) && 1 <= level <= 4
    ensures var r := ParseLevel(toks, st, level);
      r.Ok? ==> !r.value.Assign?
    decreases level
  {
    match ParseOperand(toks, st, level)
    case Thrown(_) =>
    case Ok(e, s) =>
      LevelLoopIsLeftAssociative(toks, level, e, s);
      if level == 1 {
        UnaryIsNoAssignment(toks, st);
      } else {
        LevelIsNoAssignment(toks, st, level - 1);
      }
  }

  lemma UnaryIsNoAssignment(toks: seq<Token>, st: PState)
    requires Valid(toks, st)
    ensures var r := ParseUnary(toks, st);
      r.Ok? ==> !r.value.Assign? && !r.value.Binary?
  {
    if !MatchAny(toks, st.current, [Bang, Minus]) {
      match ParsePrimary(toks, st)
      case Thrown(_) =>
      case Ok(e, s) =>
        var g := ParseGrouping(toks, AdvanceSpec(toks, st));
        assert g.Ok? ==> g.value.Grouping?;
        assert !e.Assign?;
        CallLoopNestsCalls(toks, e, s);
    }
  }

  /** `Assignment` is right-recursive and builds an `Assign` exactly when
      the left side is a variable, `=` follows and the right side, itself
      an assignment, parses; the node names the variable. */
  lemma AssignmentIsRightRecursive(toks: seq<Token>, st: PState)
    requires Valid(toks, st)
    ensures match ParseLevel(toks, st, 4)
      case Thrown(s) => ParseAssignment(toks, st) == Thrown(s)
      case Ok(lhs, s) =>
        var r := ParseAssignment(toks, st);
        var after := AdvanceSpec(toks, s);
        && ((r.Ok? && r.value.Assign?)
              <==> (lhs.Variable? && MatchAny(toks, s.current, [Equal]) && ParseAssignment(toks, after).Ok?))
        && (r.Ok? && r.value.Assign? ==>
              r == Ok(Assign(s.current, lhs.name, ParseAssignment(toks, after).value), ParseAssignment(toks, after).st))
  {
    LevelIsNoAssignment(toks, st, 4);
  }

  /** A primary followed by none of the operators that could extend it is
      a whole expression. */
  lemma PrimaryIsWholeExpression(toks: seq<Token>, st: PState, e: Expr, s: PState)
    requires Valid(toks, st) && !MatchAny(toks, st.current, [Bang, Minus])
    requires ParsePrimary(toks, st) == Ok(e, s)
    requires !MatchAny(toks, s.current, [LeftParen, Slash, Star, Plus, Minus, Greater, GreaterEqual,
                                         Less, LessEqual, EqualEqual, BangEqual, Equal])
    ensures ParseLevel(toks, st, 1) == Ok(e, s)
    ensures ParseExpression(toks, st) == Ok(e, s)
  {
    assert ParseCall(toks, st) == Ok(e, s);
    assert ParseUnary(toks, st) == Ok(e, s);
    assert ParseLevel(toks, st, 1) == Ok(e, s);
    assert ParseLevel(toks, st, 2) == Ok(e, s);
    assert ParseLevel(toks, st, 3) == Ok(e, s);
    assert ParseLevel(toks, st, 4) == Ok(e, s);
  }

  /** A primary followed by none of `(`, `/` and `*` is a whole factor. */
  lemma PrimaryIsWholeFactor(toks: seq<Token>, st: PState, e: Expr, s: PState)
    requires Valid(toks, st) && !MatchAny(toks, st.current, [Bang, Minus])
    requires ParsePrimary(toks, st) == Ok(e, s)
    requires !MatchAny(toks, s.current, [LeftParen, Slash, Star])
    ensures ParseLevel(toks, st, 1) == Ok(e, s)
  {
    assert ParseCall(toks, st) == Ok(e, s);
    assert ParseUnary(toks, st) == Ok(e, s);
  }

  /** A variable followed by none of `(`, `/` and `*` is a whole factor. */
  lemma VariableIsWholeFactor(toks: seq<Token>, st: PState)
    requires Valid(toks, st) && st.current + 1 < |toks|
    requires toks[st.current].kind == Identifier
    requires !MatchAny(toks, st.current + 1, [LeftParen, Slash, Star])
    ensures ParseLevel(toks, st, 1) == Ok(Variable(st.current, toks[st.current]), st.(current := st.current + 1))
  {
    PrimaryIsWholeFactor(toks, st, Variable(st.current, toks[st.current]), st.(current := st.current + 1));
  }

  /** One turn of the term loop: `- x`, with `x` a whole factor, is added
      to the left operand. */
  lemma SubtractVariable(toks: seq<Token>, left: Expr, st: PState)
    requires Valid(toks, st) && st.current + 2 < |toks|
    requires toks[st.current].kind == Minus && toks[st.current + 1].kind == Identifier
    requires !MatchAny(toks, st.current + 2, [LeftParen, Slash, Star])
    ensures var k := st.current;
      LevelLoop(toks, 2, left, st)
        == LevelLoop(toks, 2, Binary(left, toks[k], Variable(k + 1, toks[k + 1])), st.(current := k + 2))
  {
    VariableIsWholeFactor(toks, st.(current := st.current + 1));
  }

  /** `a - b - c` groups as `(a - b) - c`. */
  lemma SubtractionGroupsLeft(toks: seq<Token>, st: PState)
    requires Valid(toks, st) && st.current + 5 < |toks|
    requires var k := st.current;
      && toks[k].kind == Identifier && toks[k + 1].kind == Minus && toks[k + 2].kind == Identifier
      && toks[k + 3].kind == Minus && toks[k + 4].kind == Identifier && toks[k + 5].kind == Semicolon
    ensures var k := st.current;
      ParseLevel(toks, st, 2)
        == Ok(Binary(Binary(Variable(k, toks[k]), toks[k + 1], Variable(k + 2, toks[k + 2])),
                     toks[k + 3], Variable(k + 4, toks[k + 4])),
              st.(current := k + 5))
  {
    var k := st.current;
    VariableIsWholeFactor(toks, st);
    assert ParseOperand(toks, st, 2) == Ok(Variable(k, toks[k]), st.(current := k + 1));
    SubtractTwoVariables(toks, Variable(k, toks[k]), st.(current := k + 1));
  }

  /** `- b - c;` after a left operand extends it twice, to the left. */
  lemma SubtractTwoVariables(toks: seq<Token>, a: Expr, st: PState)
    requires Valid(toks, st) && st.current + 4 < |toks|
    requires var k := st.current;
      && toks[k].kind == Minus && toks[k + 1].kind == Identifier
      && toks[k + 2].kind == Minus && toks[k + 3].kind == Identifier && toks[k + 4].kind == Semicolon
    ensures var k := st.current;
      LevelLoop(toks, 2, a, st)
        == Ok(Binary(Binary(a, toks[k], Variable(k + 1, toks[k + 1])), toks[k + 2], Variable(k + 3, toks[k + 3])),
              st.(current := k + 4))
  {
    var k := st.current;
    var ab := Binary(a, toks[k], Variable(k + 1, toks[k + 1]));
    var abc := Binary(ab, toks[k + 2], Variable(k + 3, toks[k + 3]));
    SubtractVariable(toks, a, st);
    SubtractVariable(toks, ab, st.(current := k + 2));
    assert LevelLoop(toks, 2, abc, st.(current := k + 4)) == Ok(abc, st.(current := k + 4));
  }

  /** A token that starts no expression is reported as such, and the
      whole expression throws without consuming anything. */
  lemma NoOperandThrows(toks: seq<Token>, st: PState)
    requires Valid(toks, st)
    requires !MatchAny(toks, st.current, [Bang, Minus, False, True, Nil, Number, String, Identifier, LeftParen])
    ensures ParseExpression(toks, st) == Thrown(Reported(st, toks[st.current], "Expected expression [primary]"))
  {
    var x := Thrown(Reported(st, toks[st.current], "Expected expression [primary]"));
    assert ParsePrimary(toks, st) == x;
    assert ParseCall(toks, st) == x;
    assert ParseUnary(toks, st) == x;
    assert ParseLevel(toks, st, 1) == x;
    assert ParseLevel(toks, st, 2) == x;
    assert ParseLevel(toks, st, 3) == x;
    assert ParseLevel(toks, st, 4) == x;
    assert ParseAssignment(toks, st) == x;
  }

  /** `Expression` goes through `Equality`, never through `Or` or `And`: no
      parsed expression holds a `Logical` node, so `and` and `or` are never
      parsed as operators. */
  lemma ExpressionsHaveNoLogical(toks: seq<Token>, st: PState)
    requires Valid(toks, st)
    ensures var r := ParseExpression(toks, st);
      r.Ok? ==> !HasLogical(r.value)
  {
  }

  /** A statement that begins with `and` or `or` is an error at that token. */
  lemma LogicalOperatorIsNoExpression(toks: seq<Token>, st: PState)
    requires Valid(toks, st) && toks[st.current].kind in [And, Or]
    ensures ParseExpression(toks, st) == Thrown(Reported(st, toks[st.current], "Expected expression [primary]"))
  {
    NoOperandThrows(toks, st);
  }

  /** Assigning to something other than a variable is reported, does not
      throw, and yields the left-hand side. */
  lemma InvalidTargetIsReported(toks: seq<Token>, st: PState)
    requires Valid(toks, st)
    requires var lhs := ParseLevel(toks, st, 4);
      lhs.Ok? && !lhs.value.Variable? && MatchAny(toks, lhs.st.current, [Equal])
    ensures var lhs := ParseLevel(toks, st, 4);
      var rhs := ParseAssignment(toks, AdvanceSpec(toks, lhs.st));
      var r := ParseAssignment(toks, st);
      rhs.Ok? ==> r == Ok(lhs.value, Reported(rhs.st, toks[lhs.st.current], "Invalid assignment target"))
  {
  }

  /** The argument lists of calls are reported from the 256th argument on,
      and the argument is still added. */
  lemma TooManyArgumentsStillParsed(toks: seq<Token>, args: seq<Expr>, st: PState)
    requires Valid(toks, st) && |args| >= MaxArgs
    ensures var r := ArgsLoop(toks, args, st);
      && |r.st.reports| > |st.reports|
      && (r.Ok? ==> |r.value| > |args| && r.value[..|args|] == args)
  {
  }

  /** As for arguments, so for parameters. */
  lemma TooManyParametersStillParsed(toks: seq<Token>, params: seq<Token>, st: PState)
    requires Valid(toks, st) && |params| >= MaxArgs
    ensures var r := ParamsLoop(toks, params, st);
      && |r.st.reports| > |st.reports|
      && (r.Ok? ==> |r.value| > |params| && r.value[..|params|] == params)
  {
  }

  /** A failed declaration leaves `None` and the cursor one token past the
      point of the throw: `Synchronize` does not look for a `;` or a
      keyword. */
  lemma FailedDeclarationSkipsOneToken(toks: seq<Token>, st: PState)
    requires Valid(toks, st) && !AtEnd(toks, st.current)
    requires !MatchAny(toks, st.current, [TokenType.Var]) && ParseStatement(toks, st).Thrown?
    ensures var thrownAt := ParseStatement(toks, st).st;
      ParseDeclaration(toks, st) == Ok(None, AdvanceSpec(toks, thrownAt))
  {
  }

  /** The expression a number, string or identifier token stands for. */
  function Atom(toks: seq<Token>, i: nat): Expr
    requires i < |toks|
  {
    if toks[i].kind == Identifier then Variable(i, toks[i]) else Literal(toks[i].literal)
  }

  /** A number, string or identifier followed by none of the tokens that
      could extend it is a whole expression. */
  lemma AtomIsWholeExpression(toks: seq<Token>, st: PState)
    requires Valid(toks, st) && st.current + 1 < |toks|
    requires toks[st.current].kind in [Number, String, Identifier]
    requires !MatchAny(toks, st.current + 1, [LeftParen, Slash, Star, Plus, Minus, Greater, GreaterEqual,
                                              Less, LessEqual, EqualEqual, BangEqual, Equal])
    ensures ParseExpression(toks, st) == Ok(Atom(toks, st.current), st.(current := st.current + 1))
  {
    var s := st.(current := st.current + 1);
    assert ParsePrimary(toks, st) == Ok(Atom(toks, st.current), s);
    PrimaryIsWholeExpression(toks, st, Atom(toks, st.current), s);
  }

  /** A statement that starts with no statement keyword is an expression
      statement: the expression and then `;`. */
  lemma ExpressionStatementAt(toks: seq<Token>, st: PState, e: Expr, s: PState)
    requires Valid(toks, st)
    requires !MatchAny(toks, st.current, [TokenType.Print, LeftBrace, TokenType.If, TokenType.While, Fun, TokenType.Return])
    requires ParseExpression(toks, st) == Ok(e, s)
    ensures ParseStatement(toks, st)
         == if Checks(toks, s.current, Semicolon) then Ok(Expression(e), AdvanceSpec(toks, s))
            else Thrown(Reported(s, toks[s.current], "Expected ';' at the end of a expression statement"))
  {
    assert ParseStatement(toks, st) == ParseExpressionStatement(toks, st);
  }

  /** Two numbers in a row: the first is a whole expression statement
      that lacks its `;`, reported at the second number. */
  lemma MissingSemicolonThrows(toks: seq<Token>, st: PState)
    requires Valid(toks, st) && st.current + 1 < |toks|
    requires toks[st.current].kind == Number && toks[st.current + 1].kind == Number
    ensures ParseStatement(toks, st)
         == Thrown(Reported(st.(current := st.current + 1), toks[st.current + 1],
                            "Expected ';' at the end of a expression statement"))
  {
    AtomIsWholeExpression(toks, st);
    ExpressionStatementAt(toks, st, Atom(toks, st.current), st.(current := st.current + 1));
  }

  /** A statement that starts with a token no expression starts with, and
      no statement keyword either, throws where it stands. */
  lemma StrayTokenThrows(toks: seq<Token>, st: PState)
    requires Valid(toks, st)
    requires !MatchAny(toks, st.current, [TokenType.Print, LeftBrace, TokenType.If, TokenType.While, Fun, TokenType.Return])
    requires !MatchAny(toks, st.current, [Bang, Minus, False, True, Nil, Number, String, Identifier, LeftParen])
    ensures ParseStatement(toks, st) == Thrown(Reported(st, toks[st.current], "Expected expression [primary]"))
  {
    NoOperandThrows(toks, st);
  }

  /** `1 2 ;` gives two failed declarations: the first stops at `2`, and
      synchronizing moves only onto the `;`, which fails again. */
  lemma RecoveryStopsAfterOneToken(toks: seq<Token>)
    requires |toks| == 4 && toks[0].kind == Number && toks[1].kind == Number
    requires toks[2].kind == Semicolon && toks[3].kind == Eof
    ensures Parse(toks) == ([None, None],
                            [TokenReport(toks[1], "Expected ';' at the end of a expression statement"),
                             TokenReport(toks[2], "Expected expression [primary]")])
  {
    var r1 := [TokenReport(toks[1], "Expected ';' at the end of a expression statement")];
    var r2 := r1 + [TokenReport(toks[2], "Expected expression [primary]")];
    assert ParseDeclaration(toks, PState(0, [])) == Ok(None, PState(2, r1)) by {
      MissingSemicolonThrows(toks, PState(0, []));
      FailedDeclarationSkipsOneToken(toks, PState(0, []));
    }
    assert ParseDeclaration(toks, PState(2, r1)) == Ok(None, PState(3, r2)) by {
      StrayTokenThrows(toks, PState(2, r1));
      FailedDeclarationSkipsOneToken(toks, PState(2, r1));
    }
    assert ParseLoop(toks, [None, None], PState(3, r2)) == Ok([None, None], PState(3, r2));
    var none: StmtList := [None];
    assert none + [None] == [None, None];
    assert [] + none == none;
    assert ParseLoop(toks, none, PState(2, r1)) == ParseLoop(toks, [None, None], PState(3, r2));
    assert ParseLoop(toks, [], PState(0, [])) == ParseLoop(toks, none, PState(2, r1));
    assert r2 == [TokenReport(toks[1], "Expected ';' at the end of a expression statement"),
                  TokenReport(toks[2], "Expected expression [primary]")];
  }

  /** `while` wants its condition between braces: a `(` after it is
      reported and thrown. */
  lemma WhileRejectsParenthesis(toks: seq<Token>, st: PState)
    requires Valid(toks, st) && st.current + 1 < |toks|
    requires toks[st.current].kind == TokenType.While && toks[st.current + 1].kind == LeftParen
    ensures ParseStatement(toks, st)
         == Thrown(Reported(st.(current := st.current + 1), toks[st.current + 1], "Expect '(' after while"))
  {
  }

  /** The only statements `Statement` builds as `If` come from
      `IfStatement`. */
  lemma IfStatementsComeFromIf(toks: seq<Token>, st: PState)
    requires Valid(toks, st)
    ensures var r := ParseStatement(toks, st);
      r.Ok? && r.value.If? ==>
        MatchAny(toks, st.current, [TokenType.If]) && r == ParseIfStatement(toks, AdvanceSpec(toks, st))
  {
  }

  /** `for` is not one of `Statement`'s cases: it is taken as the start of
      an expression and rejected there. */
  lemma ForIsNotAStatement(toks: seq<Token>, st: PState)
    requires Valid(toks, st) && toks[st.current].kind in [For, TokenType.Class]
    ensures ParseStatement(toks, st) == Thrown(Reported(st, toks[st.current], "Expected expression [primary]"))
  {
    NoOperandThrows(toks, st);
  }

  /** The header `;)` of a `for` holds neither a condition nor an
      increment. */
  lemma EmptyForHeader(toks: seq<Token>, st: PState)
    requires Valid(toks, st) && st.current + 2 < |toks|
    requires toks[st.current].kind == Semicolon && toks[st.current + 1].kind == RightParen
    ensures ParseForHeader(toks, st) == Ok((None, None), st.(current := st.current + 2))
  {
    var s1 := st.(current := st.current + 1);
    assert ParseOptionalExpression(toks, st, Semicolon) == Ok(None, st);
    assert ParseOptionalExpression(toks, s1, RightParen) == Ok(None, s1);
  }

  /** `x;` is an expression statement holding the variable `x`. */
  lemma VariableStatement(toks: seq<Token>, st: PState)
    requires Valid(toks, st) && st.current + 2 < |toks|
    requires toks[st.current].kind == Identifier && toks[st.current + 1].kind == Semicolon
    ensures ParseStatement(toks, st)
         == Ok(Expression(Variable(st.current, toks[st.current])), st.(current := st.current + 2))
  {
    AtomIsWholeExpression(toks, st);
    ExpressionStatementAt(toks, st, Atom(toks, st.current), st.(current := st.current + 1));
  }


  /** `for (;;) x;`, entered after `for`, is a `while (true)` loop. */
  lemma EmptyForIsWhileTrue(toks: seq<Token>, st: PState)
    requires Valid(toks, st) && st.current + 6 < |toks|
    requires var k := st.current;
      && toks[k].kind == LeftParen && toks[k + 1].kind == Semicolon && toks[k + 2].kind == Semicolon
      && toks[k + 3].kind == RightParen && toks[k + 4].kind == Identifier && toks[k + 5].kind == Semicolon
    ensures var k := st.current;
      ParseForStatement(toks, st)
        == Ok(Stmt.While(Literal(BoolLit(true)), Expression(Variable(k + 4, toks[k + 4]))), st.(current := k + 6))
  {
    var k := st.current;
    assert ConsumeSpec(toks, st, LeftParen, "Expected '(' after for") == Ok(toks[k], st.(current := k + 1));
    assert ParseForInitializer(toks, st.(current := k + 1)) == Ok(None, st.(current := k + 2));
    EmptyForHeader(toks, st.(current := k + 2));
    VariableStatement(toks, st.(current := k + 4));
    var body := Expression(Variable(k + 4, toks[k + 4]));
    assert DesugarFor(None, None, None, body) == Stmt.While(Literal(BoolLit(true)), body);
  }

}
