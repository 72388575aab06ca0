/** What the expression semantics promises: the operator rules, short
    circuits, one-branch ternaries, the order of a call's steps, where an
    assignment writes, and that effect-free expressions can be re-evaluated. */
module EvaluationProperties {
  import opened Tokens
  import opened Values
  import opened Strings
  import opened Syntax
  import opened Environment
  import opened Evaluator

  // ---------------------------------------------------------------------
  // Operators

  /** `!` negates truthiness on any value; `-` needs a number. */
  lemma UnaryRules(operator: Token, v: Value)
    ensures operator.tokenType == Bang ==> UnaryOp(operator, v) == Ok(Bool(!IsTruthy(v)))
    ensures operator.tokenType == Minus && v.Num? ==> UnaryOp(operator, v) == Ok(Num(-v.x))
    ensures operator.tokenType == Minus && !v.Num? ==>
              UnaryOp(operator, v) == Err(RuntimeError(TypeError, operator, "Operand must be a number"))
  {
  }

  /** `+` adds two numbers, concatenates two strings, stringifies both sides
      when exactly one is a string, and is a type error otherwise. */
  lemma PlusRules(h: Host, operator: Token, l: Value, r: Value)
    requires operator.tokenType == Plus
    ensures l.Num? && r.Num? ==> BinaryOp(h, operator, l, r) == Ok(Num(l.x + r.x))
    ensures l.Str? && r.Str? ==> BinaryOp(h, operator, l, r) == Ok(Str(l.s + r.s))
    ensures l.Str? != r.Str? ==> BinaryOp(h, operator, l, r) == Ok(Str(Stringify(h, l) + Stringify(h, r)))
    ensures l.Str? || r.Str? ==> BinaryOp(h, operator, l, r) == Ok(Str(Stringify(h, l) + Stringify(h, r)))
    ensures BinaryOp(h, operator, l, r).Err? <==> !(l.Num? && r.Num?) && !l.Str? && !r.Str?
    ensures BinaryOp(h, operator, l, r).Err? ==> BinaryOp(h, operator, l, r).error.kind == TypeError
  {
  }

  /** `- * / > >= < <=` are type errors unless both operands are numbers, and
      otherwise (but for division by zero) give the arithmetic result. */
  lemma NumericOperatorRules(h: Host, operator: Token, l: Value, r: Value)
    requires operator.tokenType in {Minus, Star, Slash, Greater, GreaterEqual, Less, LessEqual}
    ensures !(l.Num? && r.Num?) ==>
              BinaryOp(h, operator, l, r) == Err(RuntimeError(TypeError, operator, "Operands must be numbers."))
    ensures l.Num? && r.Num? && operator.tokenType == Minus ==> BinaryOp(h, operator, l, r) == Ok(Num(l.x - r.x))
    ensures l.Num? && r.Num? && operator.tokenType == Star ==> BinaryOp(h, operator, l, r) == Ok(Num(l.x * r.x))
    ensures l.Num? && r.Num? && operator.tokenType == Greater ==> BinaryOp(h, operator, l, r) == Ok(Bool(l.x > r.x))
    ensures l.Num? && r.Num? && operator.tokenType == GreaterEqual ==> BinaryOp(h, operator, l, r) == Ok(Bool(l.x >= r.x))
    ensures l.Num? && r.Num? && operator.tokenType == Less ==> BinaryOp(h, operator, l, r) == Ok(Bool(l.x < r.x))
    ensures l.Num? && r.Num? && operator.tokenType == LessEqual ==> BinaryOp(h, operator, l, r) == Ok(Bool(l.x <= r.x))
  {
    if l.Num? && r.Num? && operator.tokenType == Star {
      assert NumericResult(Star, l.x, r.x) == Num(l.x * r.x);
    }
  }

  /** `/` checks the operand types first, then fails with division by zero
      exactly when the divisor is 0, and otherwise divides. */
  lemma DivisionRules(h: Host, operator: Token, l: Value, r: Value)
    requires operator.tokenType == Slash
    ensures !(l.Num? && r.Num?) ==> BinaryOp(h, operator, l, r).error.kind == TypeError
    ensures l.Num? && r.Num? && r.x == 0.0 ==>
              BinaryOp(h, operator, l, r) == Err(RuntimeError(DivisionByZero, operator, "Division by zero not allowed."))
    ensures l.Num? && r.Num? && r.x != 0.0 ==> BinaryOp(h, operator, l, r) == Ok(Num(l.x / r.x))
    ensures (BinaryOp(h, operator, l, r).Err? && BinaryOp(h, operator, l, r).error.kind == DivisionByZero)
              <==> (l.Num? && r.Num? && r.x == 0.0)
  {
  }

  /** `==` is nil-aware equality without coercion and `!=` is its negation. */
  lemma EqualityRules(h: Host, eq: Token, ne: Token, l: Value, r: Value)
    requires eq.tokenType == EqualEqual && ne.tokenType == BangEqual
    ensures BinaryOp(h, eq, l, r) == Ok(Bool(l == r))
    ensures BinaryOp(h, ne, l, r) == Ok(Bool(!BinaryOp(h, eq, l, r).value.b))
    ensures l == Nil && r == Nil ==> BinaryOp(h, eq, l, r) == Ok(Bool(true))
    ensures (l == Nil) != (r == Nil) ==> BinaryOp(h, eq, l, r) == Ok(Bool(false))
    ensures l.Num? && r.Str? ==> BinaryOp(h, eq, l, r) == Ok(Bool(false))
  {
  }

  /** Display text drops a number's trailing ".0" and is Java's own text for
      everything else (which is what a literal prints as). */
  lemma StringifyDropsOnlyTrailingPointZero(h: Host, v: Value)
    ensures v.Num? && EndsWith(ValueText(h, v), ".0") ==> Stringify(h, v) + ".0" == ValueText(h, v)
    ensures !(v.Num? && EndsWith(ValueText(h, v), ".0")) ==> Stringify(h, v) == ValueText(h, v)
  {
  }

  /** The string examples: "a" + "b", "a" + 1, 1 + "a", and the one-string
      rule applied to nil and true. Double.toString(1.0) is "1.0". */
  lemma ConcatenationExamples(h: Host, plus: Token)
    requires plus.tokenType == Plus && h.numberText(1.0) == "1.0"
    ensures BinaryOp(h, plus, Str("a"), Str("b")) == Ok(Str("ab"))
    ensures BinaryOp(h, plus, Str("a"), Num(1.0)) == Ok(Str("a1"))
    ensures BinaryOp(h, plus, Num(1.0), Str("a")) == Ok(Str("1a"))
    ensures BinaryOp(h, plus, Str("a"), Nil) == Ok(Str("anil"))
    ensures BinaryOp(h, plus, Str("a"), Bool(true)) == Ok(Str("atrue"))
  {
    assert EndsWith("1.0", ".0");
    assert Stringify(h, Num(1.0)) == "1";
    assert "a" + "b" == "ab";
    assert "a" + "1" == "a1";
    assert "1" + "a" == "1a";
    assert "a" + "nil" == "anil";
    assert "a" + "true" == "atrue";
  }

  // ---------------------------------------------------------------------
  // Short circuits and branches

  /** `or` yields a truthy left operand and `and` a falsy one without
      evaluating the right side: the outcome is the left side's, whatever the
      right side is. Otherwise the right side is evaluated after the left. */
  lemma LogicalShortCircuits(ctx: Context, left: Expr, operator: Token, right: Expr, other: Expr, st: State)
    requires Fits(ctx, st)
    ensures var l := Evaluate(ctx, left, st);
            var short := l.result.Err? || (operator.tokenType == Or) == IsTruthy(l.result.value);
            (short ==> (Evaluate(ctx, Logical(left, operator, right), st) == l &&
                        Evaluate(ctx, Logical(left, operator, other), st) == l)) &&
            (!short ==> Evaluate(ctx, Logical(left, operator, right), st) == Evaluate(ctx, right, l.state))
  {
  }

  /** A ternary evaluates its condition, then exactly one branch; the branch
      not taken does not affect the outcome. */
  lemma TernaryEvaluatesOneBranch(ctx: Context, c: Expr, q: Token, t: Expr, colon: Token, f: Expr, other: Expr, st: State)
    requires Fits(ctx, st)
    ensures var cond := Evaluate(ctx, c, st);
            cond.result.Ok? && IsTruthy(cond.result.value) ==>
              Evaluate(ctx, Ternary(c, q, t, colon, f), st) == Evaluate(ctx, t, cond.state) &&
              Evaluate(ctx, Ternary(c, q, t, colon, f), st) == Evaluate(ctx, Ternary(c, q, t, colon, other), st)
    ensures var cond := Evaluate(ctx, c, st);
            cond.result.Ok? && !IsTruthy(cond.result.value) ==>
              Evaluate(ctx, Ternary(c, q, t, colon, f), st) == Evaluate(ctx, f, cond.state) &&
              Evaluate(ctx, Ternary(c, q, t, colon, f), st) == Evaluate(ctx, Ternary(c, q, other, colon, f), st)
  {
    var cond := Evaluate(ctx, c, st);
    if cond.result.Ok? {
      assert Evaluate(ctx, Ternary(c, q, t, colon, f), st) ==
             if IsTruthy(cond.result.value) then Evaluate(ctx, t, cond.state) else Evaluate(ctx, f, cond.state);
    }
  }

  /** Short-circuit evidence: in `false and f()` and `true or f()` the call is
      never made, so the call log is unchanged. */
  lemma ShortCircuitSkipsCall(ctx: Context, and: Token, or: Token, f: Expr, paren: Token, st: State)
    requires Fits(ctx, st) && and.tokenType == And && or.tokenType == Or
    ensures Evaluate(ctx, Logical(Literal(Bool(false)), and, Call(f, paren, [])), st) == Evaluated(Ok(Bool(false)), st)
    ensures Evaluate(ctx, Logical(Literal(Bool(true)), or, Call(f, paren, [])), st) == Evaluated(Ok(Bool(true)), st)
  {
    assert Evaluate(ctx, Literal(Bool(false)), st) == Evaluated(Ok(Bool(false)), st);
    assert Evaluate(ctx, Literal(Bool(true)), st) == Evaluated(Ok(Bool(true)), st);
    assert EvaluateLogical(ctx, Logical(Literal(Bool(false)), and, Call(f, paren, [])), st) == Evaluated(Ok(Bool(false)), st);
    assert EvaluateLogical(ctx, Logical(Literal(Bool(true)), or, Call(f, paren, [])), st) == Evaluated(Ok(Bool(true)), st);
  }

  // ---------------------------------------------------------------------
  // Calls

  /** A call evaluates the callee, then the arguments; an error in either
      ends the call with that error, before anything is checked or called. */
  lemma CallStopsAtEvaluationError(ctx: Context, callee: Expr, paren: Token, args: seq<Expr>, st: State)
    requires Fits(ctx, st)
    ensures var c := Evaluate(ctx, callee, st);
            c.result.Err? ==> Evaluate(ctx, Call(callee, paren, args), st) == c
    ensures var c := Evaluate(ctx, callee, st);
            c.result.Ok? && EvaluateArguments(ctx, args, c.state).result.Err? ==>
              var a := EvaluateArguments(ctx, args, c.state);
              Evaluate(ctx, Call(callee, paren, args), st) == Evaluated(Err(a.result.error), a.state)
  {
  }

  /** Only once the callee and every argument have been evaluated is the
      callee checked to be callable and its arity against the argument
      count; the callable is invoked (and logged) only when both hold. */
  lemma CallChecksFollowEvaluation(ctx: Context, callee: Expr, paren: Token, args: seq<Expr>, st: State)
    requires Fits(ctx, st)
    requires Evaluate(ctx, callee, st).result.Ok?
    requires EvaluateArguments(ctx, args, Evaluate(ctx, callee, st).state).result.Ok?
    ensures var c := Evaluate(ctx, callee, st);
            var a := EvaluateArguments(ctx, args, c.state);
            var f := c.result.value;
            var r := Evaluate(ctx, Call(callee, paren, args), st);
            (!f.Fn? ==>
               r.state == a.state && r.result.Err? && r.result.error.kind == NotCallable && r.result.error.token == paren) &&
            (f.Fn? && |args| != f.arity ==>
               r.state == a.state && r.result.Err? && r.result.error.kind == ArityMismatch && r.result.error.token == paren) &&
            (f.Fn? && |args| == f.arity ==>
               var effect := ctx.host.invoke(f.id, a.result.value, Bindings(a.state.frames));
               r.result == effect.result &&
               r.state == State(AfterCall(a.state.frames, effect.globals), a.state.calls + [CallRecord(f.id, a.result.value)]))
  {
    var c := Evaluate(ctx, callee, st);
    var a := EvaluateArguments(ctx, args, c.state);
    assert Evaluate(ctx, Call(callee, paren, args), st) == Invoke(ctx.host, paren, c.result.value, a.result.value, a.state);
  }

  /** Arguments are evaluated left to right: the i-th value is what the i-th
      argument evaluates to in the state the arguments before it left. */
  lemma {:induction false} ArgumentsLeftToRight(ctx: Context, args: seq<Expr>, st: State, i: nat)
    requires Fits(ctx, st) && i < |args|
    requires EvaluateArguments(ctx, args, st).result.Ok?
    ensures var before := EvaluateArguments(ctx, args[..i], st);
            before.result.Ok? && Evaluate(ctx, args[i], before.state).result.Ok? &&
            EvaluateArguments(ctx, args, st).result.value[i] == Evaluate(ctx, args[i], before.state).result.value
    decreases |args|
  {
    var n := |args|;
    if i < n - 1 {
      var front := args[..n - 1];
      ArgumentsLeftToRight(ctx, front, st, i);
      assert front[..i] == args[..i];
      assert front[i] == args[i];
    }
  }

  /** An argument's error is raised before the callee is checked: in
      `nil(1 + true)` the error is the type error, not "not callable". */
  lemma ArgumentErrorComesFirst(ctx: Context, paren: Token, plus: Token, st: State)
    requires Fits(ctx, st) && plus.tokenType == Plus
    ensures var r := Evaluate(ctx, Call(Literal(Nil), paren, [Binary(Literal(Num(1.0)), plus, Literal(Bool(true)))]), st);
            r.result.Err? && r.result.error.kind == TypeError && r.result.error.token == plus
  {
    var arg := Binary(Literal(Num(1.0)), plus, Literal(Bool(true)));
    var a := Evaluate(ctx, arg, st);
    assert Evaluate(ctx, Literal(Num(1.0)), st) == Evaluated(Ok(Num(1.0)), st);
    assert Evaluate(ctx, Literal(Bool(true)), st) == Evaluated(Ok(Bool(true)), st);
    assert EvaluateBinary(ctx, arg, st).result == Err(RuntimeError(TypeError, plus, "Operands must be two numbers of two string."));
    assert a.result == Err(RuntimeError(TypeError, plus, "Operands must be two numbers of two string."));
    OneArgument(ctx, arg, st);
    var call := Call(Literal(Nil), paren, [arg]);
    assert Evaluate(ctx, Literal(Nil), st) == Evaluated(Ok(Nil), st);
    assert EvaluateCall(ctx, call, st) == Evaluated(Err(a.result.error), a.state);
  }

  /** `1 + true` is a type error on the `+`. */
  lemma MixedPlusIsTypeError(ctx: Context, plus: Token, st: State)
    requires Fits(ctx, st) && plus.tokenType == Plus
    ensures Evaluate(ctx, Binary(Literal(Num(1.0)), plus, Literal(Bool(true))), st).result ==
            Err(RuntimeError(TypeError, plus, "Operands must be two numbers of two string."))
  {
    assert Evaluate(ctx, Literal(Num(1.0)), st) == Evaluated(Ok(Num(1.0)), st);
    assert Evaluate(ctx, Literal(Bool(true)), st) == Evaluated(Ok(Bool(true)), st);
    assert EvaluateBinary(ctx, Binary(Literal(Num(1.0)), plus, Literal(Bool(true))), st).result ==
           Err(RuntimeError(TypeError, plus, "Operands must be two numbers of two string."));
  }

  /** `nil()` is not callable. */
  lemma NilIsNotCallable(ctx: Context, paren: Token, st: State)
    requires Fits(ctx, st)
    ensures Evaluate(ctx, Call(Literal(Nil), paren, []), st).result ==
            Err(RuntimeError(NotCallable, paren, "Can only call functions and classes."))
  {
    assert Evaluate(ctx, Literal(Nil), st) == Evaluated(Ok(Nil), st);
    assert EvaluateArguments(ctx, [], st) == Evaluated(Ok([]), st);
    assert EvaluateCall(ctx, Call(Literal(Nil), paren, []), st).result ==
           Err(RuntimeError(NotCallable, paren, "Can only call functions and classes."));
  }

  /** A single argument list is that argument's evaluation. */
  lemma OneArgument(ctx: Context, a: Expr, st: State)
    requires Fits(ctx, st)
    ensures var v := Evaluate(ctx, a, st);
            EvaluateArguments(ctx, [a], st) ==
            if v.result.Err? then Evaluated(Err(v.result.error), v.state) else Evaluated(Ok([v.result.value]), v.state)
  {
    assert [a][..0] == [];
    assert EvaluateArguments(ctx, [a][..0], st) == Evaluated(Ok([]), st);
    var v := Evaluate(ctx, a, st);
    if v.result.Ok? {
      assert [] + [v.result.value] == [v.result.value];
    }
  }

  /** A 2-ary callable given one argument is an arity mismatch, reported
      with the source's message (no space before the count it got). */
  lemma WrongArgumentCount(ctx: Context, paren: Token, st: State)
    requires Fits(ctx, st)
    ensures var r := Evaluate(ctx, Call(Literal(Fn(7, 2)), paren, [Literal(Num(1.0))]), st);
            r == Evaluated(Err(RuntimeError(ArityMismatch, paren, "Expected 2 arguments but got1.")), st)
  {
    var one := Literal(Num(1.0));
    var call := Call(Literal(Fn(7, 2)), paren, [one]);
    assert Evaluate(ctx, one, st) == Evaluated(Ok(Num(1.0)), st);
    OneArgument(ctx, one, st);
    assert Evaluate(ctx, Literal(Fn(7, 2)), st) == Evaluated(Ok(Fn(7, 2)), st);
    assert EvaluateCall(ctx, call, st) == Invoke(ctx.host, paren, Fn(7, 2), [Num(1.0)], st);
    ArityMessage();
  }

  /** The arity message for a 2-ary callable given one argument. */
  lemma ArityMessage()
    ensures "Expected " + NatText(2) + " arguments but got" + NatText(1) + "." == "Expected 2 arguments but got1."
  {
    assert NatText(2) == "2" && NatText(1) == "1";
  }

  /** In `f() + x`, where the body of f assigns the global x, the right
      operand reads the value the call left in x: the call's writes to the
      globals are visible to what is evaluated after it. */
  lemma CallAssignmentIsSeen(ctx: Context, f: Token, fnode: nat, paren: Token, plus: Token,
                             x: Token, xnode: nat, id: nat, st: State)
    requires Fits(ctx, st) && plus.tokenType == Plus
    requires fnode !in ctx.locals && xnode !in ctx.locals
    requires f.lexeme in st.frames[Globals].values && st.frames[Globals].values[f.lexeme] == Fn(id, 0)
    requires x.lexeme in st.frames[Globals].values
    requires ctx.host.invoke(id, [], Bindings(st.frames)) == CallEffect(Ok(Num(1.0)), map[x.lexeme := Num(2.0)])
    ensures Evaluate(ctx, Binary(Call(Variable(fnode, f), paren, []), plus, Variable(xnode, x)), st).result == Ok(Num(3.0))
  {
    var call := Call(Variable(fnode, f), paren, []);
    assert Evaluate(ctx, Variable(fnode, f), st) == Evaluated(Ok(Fn(id, 0)), st);
    assert EvaluateArguments(ctx, [], st) == Evaluated(Ok([]), st);
    CallChecksFollowEvaluation(ctx, Variable(fnode, f), paren, [], st);
    var after := Evaluate(ctx, call, st).state;
    assert after.frames[Globals].values[x.lexeme] == Num(2.0);
    assert Evaluate(ctx, Variable(xnode, x), after) == Evaluated(Ok(Num(2.0)), after);
    assert EvaluateBinary(ctx, Binary(call, plus, Variable(xnode, x)), st).result == Ok(Num(3.0));
  }

  lemma UndeclaredVariable(ctx: Context, name: Token, node: nat, st: State)
    requires Fits(ctx, st)
    requires node !in ctx.locals && name.lexeme !in st.frames[Globals].values
    ensures Evaluate(ctx, Variable(node, name), st).result == Err(UndefinedVariable(name))
  {
  }

  // ---------------------------------------------------------------------
  // Assignment

  /** visitAssignExpr looks its distance up with the name token in a table
      keyed by expression nodes, which never matches: every assignment goes
      to `globals.assign`, whatever the resolver recorded. */
  lemma AssignmentGoesToGlobals(ctx: Context, name: Token, newValue: Expr, st: State)
    requires Fits(ctx, st)
    ensures var v := Evaluate(ctx, newValue, st);
            v.result.Ok? ==>
              Evaluate(ctx, Assign(name, newValue), st) ==
                match Environment.Assign(v.state.frames, Globals, name, v.result.value)
                case Err(error) => Evaluated(Err(error), v.state)
                case Ok(frames) => Evaluated(Ok(v.result.value), v.state.(frames := frames))
  {
  }

  /** A local `x` that the resolver bound (node 7 at distance 0) reads
      correctly, yet assigning to it fails: assignment never sees locals. */
  lemma LocalAssignmentMisses(h: Host, name: Token)
    requires name.lexeme == "x"
    ensures var frames := [Frame(map[], None), Frame(map["x" := Num(1.0)], Some(Globals))];
            var ctx := Context(h, 1, map[7 := 0]);
            var st := State(frames, []);
            Evaluate(ctx, Variable(7, name), st).result == Ok(Num(1.0)) &&
            Evaluate(ctx, Assign(name, Literal(Num(2.0))), st).result == Err(UndefinedVariable(name))
  {
    var frames := [Frame(map[], None), Frame(map["x" := Num(1.0)], Some(Globals))];
    assert WellFormed(frames);
    var ctx := Context(h, 1, map[7 := 0]);
    var st := State(frames, []);
    var assign := Assign(name, Literal(Num(2.0)));
    assert Evaluate(ctx, Literal(Num(2.0)), st) == Evaluated(Ok(Num(2.0)), st);
    assert EvaluateAssign(ctx, assign, st).result == Err(UndefinedVariable(name));
  }

  /** When globals also bind the name, assigning to a resolved local
      succeeds, but it writes the global and leaves the local as it was. */
  lemma LocalAssignmentWritesGlobal(h: Host, name: Token)
    requires name.lexeme == "x"
    ensures var ctx := Context(h, 1, map[7 := 0]);
            var st := State([Frame(map["x" := Num(0.0)], None), Frame(map["x" := Num(1.0)], Some(Globals))], []);
            var r := Evaluate(ctx, Assign(name, Literal(Num(2.0))), st);
            r.result == Ok(Num(2.0)) &&
            r.state.frames == [Frame(map["x" := Num(2.0)], None), Frame(map["x" := Num(1.0)], Some(Globals))] &&
            Evaluate(ctx, Variable(7, name), r.state).result == Ok(Num(1.0))
  {
    var frames := [Frame(map["x" := Num(0.0)], None), Frame(map["x" := Num(1.0)], Some(Globals))];
    assert WellFormed(frames);
    var ctx := Context(h, 1, map[7 := 0]);
    var st := State(frames, []);
    var assign := Assign(name, Literal(Num(2.0)));
    assert Evaluate(ctx, Literal(Num(2.0)), st) == Evaluated(Ok(Num(2.0)), st);
    var written := Define(frames, Globals, "x", Num(2.0));
    assert map["x" := Num(0.0)]["x" := Num(2.0)] == map["x" := Num(2.0)];
    assert Environment.Assign(frames, Globals, name, Num(2.0)) == Ok(written);
    assert EvaluateAssign(ctx, assign, st) == Evaluated(Ok(Num(2.0)), State(written, []));
    assert written == [Frame(map["x" := Num(2.0)], None), Frame(map["x" := Num(1.0)], Some(Globals))];
  }

  // ---------------------------------------------------------------------
  // Effect-free expressions

  /** No assignment and no call anywhere in the expression. */
  predicate NoEffects(e: Expr)
  {
    match e
    case Literal(_) => true
    case Variable(_, _) => true
    case Grouping(inner) => NoEffects(inner)
    case Unary(_, right) => NoEffects(right)
    case Binary(left, _, right) => NoEffects(left) && NoEffects(right)
    case Logical(left, _, right) => NoEffects(left) && NoEffects(right)
    case Ternary(c, _, t, _, f) => NoEffects(c) && NoEffects(t) && NoEffects(f)
    case Call(_, _, _) => false
    case Assign(_, _) => false
  }

  /** Evaluating an effect-free expression changes no frame and makes no call. */
  lemma {:induction false} NoEffectsLeaveStateAlone(ctx: Context, e: Expr, st: State)
    requires Fits(ctx, st) && NoEffects(e)
    ensures Evaluate(ctx, e, st).state == st
    decreases e
  {
    match e
    case Literal(_) =>
    case Variable(_, _) =>
    case Grouping(inner) => NoEffectsLeaveStateAlone(ctx, inner, st);
    case Unary(_, right) => NoEffectsLeaveStateAlone(ctx, right, st);
    case Binary(left, _, right) =>
      NoEffectsLeaveStateAlone(ctx, left, st);
      NoEffectsLeaveStateAlone(ctx, right, st);
    case Logical(left, _, right) =>
      NoEffectsLeaveStateAlone(ctx, left, st);
      NoEffectsLeaveStateAlone(ctx, right, st);
    case Ternary(c, _, t, _, f) =>
      NoEffectsLeaveStateAlone(ctx, c, st);
      NoEffectsLeaveStateAlone(ctx, t, st);
      NoEffectsLeaveStateAlone(ctx, f, st);
  }

  /** Re-evaluating an effect-free expression gives the identical outcome. */
  lemma PureEvaluationIsRepeatable(ctx: Context, e: Expr, st: State)
    requires Fits(ctx, st) && NoEffects(e)
    ensures Evaluate(ctx, e, Evaluate(ctx, e, st).state) == Evaluate(ctx, e, st)
  {
    NoEffectsLeaveStateAlone(ctx, e, st);
  }
}
