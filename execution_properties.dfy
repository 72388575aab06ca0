/** What the statement visitors promise: statements of a block run in order
    up to the first that does not complete, a while loop stops at a break
    without testing its condition again, an if runs one branch, var binds
    in the active frame, a block leaves the frames around it alone, and the
    prompt echoes expression statements. */
module ExecutionProperties {
  import opened Tokens
  import opened Values
  import opened Syntax
  import opened Environment
  import opened Evaluator
  import opened Execution

  /** Running `a + b` is running `a`, then, if every statement of `a`
      completed normally, running `b` from where `a` left off. */
  lemma {:induction false} RunSeqAppend(h: Host, locals: map<nat, nat>, a: seq<Stmt>, b: seq<Stmt>, i: nat, m: Machine, fuel: nat)
    requires i <= |a| && Runs(m)
    ensures var first := RunSeq(h, locals, a, i, m, fuel);
            RunSeq(h, locals, a + b, i, m, fuel) ==
            if first.outcome == Normal then RunSeq(h, locals, b, 0, first.machine, fuel) else first
    decreases |a| - i
  {
    if i == |a| {
      assert a + b == a + b[0..];
      RunSeqShift(h, locals, a, b, 0, m, fuel);
    } else {
      assert (a + b)[i] == a[i];
      var s := Exec(h, locals, a[i], m, fuel);
      if s.outcome == Normal {
        RunSeqAppend(h, locals, a, b, i + 1, s.machine, fuel);
      }
    }
  }

  /** Running `a + b` from position |a| + j is running `b` from j. */
  lemma {:induction false} RunSeqShift(h: Host, locals: map<nat, nat>, a: seq<Stmt>, b: seq<Stmt>, j: nat, m: Machine, fuel: nat)
    requires j <= |b| && Runs(m)
    ensures RunSeq(h, locals, a + b, |a| + j, m, fuel) == RunSeq(h, locals, b, j, m, fuel)
    decreases |b| - j
  {
    if j < |b| {
      assert (a + b)[|a| + j] == b[j];
      var s := Exec(h, locals, b[j], m, fuel);
      if s.outcome == Normal {
        RunSeqShift(h, locals, a, b, j + 1, s.machine, fuel);
      }
    }
  }

  /** A return (or break, or error) ends a statement list: what follows
      it is never executed. */
  lemma StatementsAfterAbruptAreSkipped(h: Host, locals: map<nat, nat>, a: seq<Stmt>, b: seq<Stmt>, m: Machine, fuel: nat)
    requires Runs(m) && RunSeq(h, locals, a, 0, m, fuel).outcome != Normal
    ensures RunSeq(h, locals, a + b, 0, m, fuel) == RunSeq(h, locals, a, 0, m, fuel)
  {
    RunSeqAppend(h, locals, a, b, 0, m, fuel);
  }

  /** The body's break ends the loop normally, in the state the body left,
      and the condition is not evaluated again. */
  lemma BreakEndsLoop(h: Host, locals: map<nat, nat>, s: Stmt, m: Machine, fuel: nat)
    requires s.While? && Runs(m) && fuel > 0
    requires Eval(h, locals, s.condition, m).result.Ok?
    requires IsTruthy(Eval(h, locals, s.condition, m).result.value)
    requires Exec(h, locals, s.body, After(m, Eval(h, locals, s.condition, m).state), fuel).outcome == Breaking
    ensures Exec(h, locals, s, m, fuel) ==
            Executed(Normal, Exec(h, locals, s.body, After(m, Eval(h, locals, s.condition, m).state), fuel).machine)
  {
  }

  /** `while (true) break;` completes at once and changes nothing. */
  lemma WhileTrueBreak(h: Host, locals: map<nat, nat>, m: Machine, fuel: nat)
    requires Runs(m) && fuel > 0
    ensures Exec(h, locals, While(Literal(Bool(true)), Break), m, fuel) == Executed(Normal, m)
  {
  }

  /** A return in the body leaves the loop: the loop ends with the body's
      returned value, in the state the body left, without testing its
      condition again. */
  lemma ReturnLeavesLoop(h: Host, locals: map<nat, nat>, s: Stmt, m: Machine, fuel: nat)
    requires s.While? && Runs(m) && fuel > 0
    requires Eval(h, locals, s.condition, m).result.Ok?
    requires IsTruthy(Eval(h, locals, s.condition, m).result.value)
    requires Exec(h, locals, s.body, After(m, Eval(h, locals, s.condition, m).state), fuel).outcome.Returning?
    ensures Exec(h, locals, s, m, fuel) ==
            Exec(h, locals, s.body, After(m, Eval(h, locals, s.condition, m).state), fuel)
  {
  }

  /** `while (true) return v;` returns v at once and changes nothing. */
  lemma WhileTrueReturn(h: Host, locals: map<nat, nat>, keyword: Token, v: Value, m: Machine, fuel: nat)
    requires Runs(m) && fuel > 0
    ensures Exec(h, locals, While(Literal(Bool(true)), Return(keyword, Some(Literal(v)))), m, fuel) ==
            Executed(Returning(v), m)
  {
    var c := Eval(h, locals, Literal(Bool(true)), m);
    assert c == Evaluated(Ok(Bool(true)), StateOf(m));
    assert After(m, c.state) == m;
    var e := EvalOptional(h, locals, Some(Literal(v)), m);
    assert e == Evaluated(Ok(v), StateOf(m));
    assert Exec(h, locals, Return(keyword, Some(Literal(v))), m, fuel) == Executed(Returning(v), m);
  }

  /** A loop whose condition evaluates to a falsy value runs its body zero
      times: it ends normally once the condition has been evaluated. */
  lemma FalseConditionSkipsLoop(h: Host, locals: map<nat, nat>, s: Stmt, m: Machine, fuel: nat)
    requires s.While? && Runs(m) && fuel > 0
    requires Eval(h, locals, s.condition, m).result.Ok?
    requires !IsTruthy(Eval(h, locals, s.condition, m).result.value)
    ensures Exec(h, locals, s, m, fuel) == Executed(Normal, After(m, Eval(h, locals, s.condition, m).state))
  {
  }

  /** An if runs only the branch its condition selects: the other branch
      can be anything. */
  lemma IfRunsOneBranch(h: Host, locals: map<nat, nat>, c: Expr, t: Stmt, f: Stmt, other: Stmt, m: Machine, fuel: nat)
    requires Runs(m)
    ensures var v := Eval(h, locals, c, m);
            v.result.Ok? && IsTruthy(v.result.value) ==>
              Exec(h, locals, If(c, t, Some(f)), m, fuel) == Exec(h, locals, If(c, t, Some(other)), m, fuel) &&
              Exec(h, locals, If(c, t, Some(f)), m, fuel) == Exec(h, locals, t, After(m, v.state), fuel)
    ensures var v := Eval(h, locals, c, m);
            v.result.Ok? && !IsTruthy(v.result.value) ==>
              Exec(h, locals, If(c, t, Some(f)), m, fuel) == Exec(h, locals, If(c, other, Some(f)), m, fuel) &&
              Exec(h, locals, If(c, t, Some(f)), m, fuel) == Exec(h, locals, f, After(m, v.state), fuel) &&
              Exec(h, locals, If(c, t, None), m, fuel) == Executed(Normal, After(m, v.state))
  {
  }

  /** `var x = e;` binds x in the active frame to e's value (nil without an
      initializer), so that reading x there gives that value; no other
      frame changes. */
  lemma VarBindsInActiveFrame(h: Host, locals: map<nat, nat>, name: Token, initializer: Option<Expr>, m: Machine, fuel: nat)
    requires Runs(m)
    ensures var v := EvalOptional(h, locals, initializer, m);
            var r := Exec(h, locals, Var(name, initializer), m, fuel);
            v.result.Ok? ==>
              r.outcome == Normal &&
              Get(r.machine.frames, m.environment, name) == Ok(v.result.value) &&
              forall i :: 0 <= i < |m.frames| && i != m.environment ==> r.machine.frames[i] == v.state.frames[i]
    ensures var r := Exec(h, locals, Var(name, None), m, fuel);
            r.machine.frames[m.environment].values == m.frames[m.environment].values[name.lexeme := Nil]
  {
    var v := EvalOptional(h, locals, initializer, m);
    if v.result.Ok? {
      DefineShadows(v.state.frames, m.environment, name, v.result.value);
    }
  }

  /** A variable declared in a block lives in the block's own frame: once
      the block is done, the frames that existed before it are exactly as
      they were, and the same frame is active. */
  lemma BlockVariableDoesNotLeak(h: Host, locals: map<nat, nat>, name: Token, v: Value, m: Machine, fuel: nat)
    requires Runs(m)
    ensures var r := Exec(h, locals, Block([Var(name, Some(Literal(v)))]), m, fuel);
            r.outcome == Normal && r.machine.environment == m.environment &&
            r.machine.frames[..|m.frames|] == m.frames &&
            Get(r.machine.frames, |m.frames|, name) == Ok(v)
  {
    var statements := [Var(name, Some(Literal(v)))];
    var inner := m.(frames := Push(m.frames, m.environment), environment := |m.frames|);
    var e := Eval(h, locals, Literal(v), inner);
    assert e == Evaluated(Ok(v), StateOf(inner));
    var d := Exec(h, locals, statements[0], inner, fuel);
    assert d == Executed(Normal, inner.(frames := Define(inner.frames, |m.frames|, name.lexeme, v)));
    DefineShadows(inner.frames, |m.frames|, name, v);
    assert RunSeq(h, locals, statements, 1, d.machine, fuel) == Executed(Normal, d.machine);
    assert RunSeq(h, locals, statements, 0, inner, fuel) == Executed(Normal, d.machine);
    var pushed := m.(frames := Push(m.frames, m.environment));
    assert pushed.(environment := |m.frames|) == inner;
    assert ExecBlock(h, locals, statements, |m.frames|, pushed, fuel) == Executed(Normal, d.machine.(environment := m.environment));
    var r := Exec(h, locals, Block(statements), m, fuel);
    assert r.machine.frames == d.machine.frames;
    assert r.machine.frames[..|m.frames|] == m.frames;
  }

  /** At the prompt an expression statement's value is printed; in a file
      it is evaluated and discarded. Either way its error ends the run. */
  lemma PromptEchoesExpressions(h: Host, locals: map<nat, nat>, e: Expr, m: Machine, fuel: nat)
    requires Runs(m)
    ensures var v := Eval(h, locals, e, m);
            v.result.Ok? ==>
              InterpretFrom(h, locals, [Expression(e)], true, 0, m, fuel) ==
                Executed(Normal, After(m, v.state).(output := m.output + [Stringify(h, v.result.value)])) &&
              InterpretFrom(h, locals, [Expression(e)], false, 0, m, fuel) == Executed(Normal, After(m, v.state))
    ensures var v := Eval(h, locals, e, m);
            v.result.Err? ==>
              InterpretFrom(h, locals, [Expression(e)], true, 0, m, fuel) == Executed(Failed(v.result.error), After(m, v.state)) &&
              InterpretFrom(h, locals, [Expression(e)], false, 0, m, fuel) == Executed(Failed(v.result.error), After(m, v.state))
  {
    var v := Eval(h, locals, e, m);
    var prompt := TopLevel(h, locals, Expression(e), true, m, fuel);
    var file := TopLevel(h, locals, Expression(e), false, m, fuel);
    assert InterpretFrom(h, locals, [Expression(e)], true, 1, prompt.machine, fuel) == Executed(Normal, prompt.machine);
    assert InterpretFrom(h, locals, [Expression(e)], false, 1, file.machine, fuel) == Executed(Normal, file.machine);
  }

  /** A run stops at the first statement that fails, at the prompt as from a
      file: the statements after it are never executed. */
  lemma {:induction false} InterpretStopsAtFailure(h: Host, locals: map<nat, nat>, statements: seq<Stmt>, rest: seq<Stmt>, isPrompt: bool, i: nat, m: Machine, fuel: nat)
    requires i <= |statements| && Runs(m)
    requires InterpretFrom(h, locals, statements, isPrompt, i, m, fuel).outcome.Failed?
    ensures InterpretFrom(h, locals, statements + rest, isPrompt, i, m, fuel) ==
            InterpretFrom(h, locals, statements, isPrompt, i, m, fuel)
    decreases |statements| - i
  {
    if i < |statements| {
      assert (statements + rest)[i] == statements[i];
      var step := TopLevel(h, locals, statements[i], isPrompt, m, fuel);
      if step.outcome == Normal {
        InterpretStopsAtFailure(h, locals, statements, rest, isPrompt, i + 1, step.machine, fuel);
      }
    }
  }
}
