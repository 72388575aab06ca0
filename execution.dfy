/** Statement execution: the interpreter's state, what each statement does
    to it (as functions), and the Interpreter class whose methods do it in
    place and are proved to agree with those functions. The Return and Break
    exceptions of the Java code are outcome values here. */
module Execution {
  import opened Tokens
  import opened Values
  import opened Strings
  import opened Syntax
  import opened Environment
  import opened Evaluator

  /** How a statement finished. OutOfFuel is the model's: a while loop ran
      out of the iterations it was granted. */
  datatype Outcome = Normal | Returning(value: Value) | Breaking | Failed(error: RuntimeError) | OutOfFuel

  /** A LoxFunction: the declaration and the frame active where it was
      declared, which it closes over. */
  datatype LoxFunction = LoxFunction(declaration: Stmt, closure: nat)

  /** The native `clock` is callable 0; the k-th function declared is callable k + 1. */
  const ClockId: nat := 0

  /** Everything statements change: the frames, the active frame, the call
      log, the printed lines and the functions declared so far. */
  datatype Machine = Machine(
    frames: seq<Frame>,
    environment: nat,
    calls: seq<CallRecord>,
    output: seq<string>,
    functions: seq<LoxFunction>)

  datatype Executed = Executed(outcome: Outcome, machine: Machine)

  /** The frames are well formed and hold the globals, the active frame and
      every closure's frame. */
  predicate Runs(m: Machine)
  {
    WellFormed(m.frames) && Globals < |m.frames| && m.environment < |m.frames| &&
    forall k :: 0 <= k < |m.functions| ==> m.functions[k].closure < |m.frames|
  }

  /** From m to m': frames are only added and never relinked; of the frames
      m had, only the globals and `active` may change; the active frame is
      the same again; the logs only grow. */
  predicate Advances(m: Machine, m': Machine, active: nat)
  {
    |m.frames| <= |m'.frames| &&
    (forall i :: 0 <= i < |m.frames| ==> m'.frames[i].enclosing == m.frames[i].enclosing) &&
    (forall i :: Globals < i < |m.frames| && i != active ==> m'.frames[i] == m.frames[i]) &&
    m'.environment == m.environment &&
    m.calls <= m'.calls && m.output <= m'.output && m.functions <= m'.functions
  }

  lemma AdvancesTransitive(m1: Machine, m2: Machine, m3: Machine, active: nat)
    requires Advances(m1, m2, active) && Advances(m2, m3, active)
    ensures Advances(m1, m3, active)
  {
  }

  function ContextOf(h: Host, locals: map<nat, nat>, m: Machine): Context
  {
    Context(h, m.environment, locals)
  }

  function StateOf(m: Machine): State
  {
    State(m.frames, m.calls)
  }

  /** `evaluate(expr)` in the machine's active frame. */
  function Eval(h: Host, locals: map<nat, nat>, e: Expr, m: Machine): (r: Evaluated<Value>)
    requires Runs(m)
    ensures Runs(After(m, r.state)) && Advances(m, After(m, r.state), Globals)
  {
    var r := Evaluate(ContextOf(h, locals, m), e, StateOf(m));
    SameShapeWellFormed(m.frames, r.state.frames);
    r
  }

  /** The machine once evaluation has left `st`. */
  function After(m: Machine, st: State): Machine
  {
    m.(frames := st.frames, calls := st.calls)
  }

  /** An optional expression's value, nil when absent (an initializer or a
      return value). */
  function EvalOptional(h: Host, locals: map<nat, nat>, e: Option<Expr>, m: Machine): (r: Evaluated<Value>)
    requires Runs(m)
    ensures Runs(After(m, r.state)) && Advances(m, After(m, r.state), Globals)
    ensures e.None? ==> r == Evaluated(Ok(Nil), StateOf(m))
  {
    if e.Some? then Eval(h, locals, e.value, m) else Evaluated(Ok(Nil), StateOf(m))
  }

  /** Evaluate, then print the display text as one line (visitPrintStmt and
      the prompt's echo of an expression statement). */
  function Show(h: Host, locals: map<nat, nat>, e: Expr, m: Machine): (r: Executed)
    requires Runs(m)
    ensures Runs(r.machine) && Advances(m, r.machine, Globals)
    ensures r.outcome == Normal || r.outcome.Failed?
  {
    var v := Eval(h, locals, e, m);
    if v.result.Err? then Executed(Failed(v.result.error), After(m, v.state))
    else Executed(Normal, After(m, v.state).(output := m.output + [Stringify(h, v.result.value)]))
  }

  /** `execute(stmt)`: each statement visitor. A block leaves every frame
      that existed before it, other than the globals, unchanged. */
  function Exec(h: Host, locals: map<nat, nat>, s: Stmt, m: Machine, fuel: nat): (r: Executed)
    requires Runs(m)
    ensures Runs(r.machine) && Advances(m, r.machine, m.environment)
    ensures s.Block? ==> forall i :: Globals < i < |m.frames| ==> r.machine.frames[i] == m.frames[i]
    decreases s, 1, 0
  {
    match s
    case Expression(e) =>
      var v := Eval(h, locals, e, m);
      Executed(if v.result.Err? then Failed(v.result.error) else Normal, After(m, v.state))
    case Print(e) => Show(h, locals, e, m)
    case Var(_, _) => ExecVar(h, locals, s, m)
    case Block(statements) =>
      var inner := m.(frames := Push(m.frames, m.environment));
      var r := ExecBlock(h, locals, statements, |m.frames|, inner, fuel);
      r
    case If(_, _, _) => ExecIf(h, locals, s, m, fuel)
    case While(_, _) => Loop(h, locals, s, m, fuel)
    case Function(_, _, _) => ExecFunction(s, m)
    case Return(_, value) =>
      var v := EvalOptional(h, locals, value, m);
      Executed(if v.result.Err? then Failed(v.result.error) else Returning(v.result.value), After(m, v.state))
    case Break => Executed(Breaking, m)
  }

  /** visitVarStmt: the initializer's value (nil without one), defined
      under the name in the active frame. */
  function ExecVar(h: Host, locals: map<nat, nat>, s: Stmt, m: Machine): (r: Executed)
    requires s.Var? && Runs(m)
    ensures Runs(r.machine) && Advances(m, r.machine, m.environment)
  {
    var v := EvalOptional(h, locals, s.initializer, m);
    var m1 := After(m, v.state);
    if v.result.Err? then Executed(Failed(v.result.error), m1)
    else
      var frames := Define(m1.frames, m.environment, s.name.lexeme, v.result.value);
      SameShapeWellFormed(m1.frames, frames);
      Executed(Normal, m1.(frames := frames))
  }

  /** visitIfStmt: the condition, then the branch it selects, if any. */
  function ExecIf(h: Host, locals: map<nat, nat>, s: Stmt, m: Machine, fuel: nat): (r: Executed)
    requires s.If? && Runs(m)
    ensures Runs(r.machine) && Advances(m, r.machine, m.environment)
    decreases s, 0, 0
  {
    var c := Eval(h, locals, s.condition, m);
    var m1 := After(m, c.state);
    if c.result.Err? then Executed(Failed(c.result.error), m1)
    else
      var r := if IsTruthy(c.result.value) then Exec(h, locals, s.thenBranch, m1, fuel)
               else if s.elseBranch.Some? then Exec(h, locals, s.elseBranch.value, m1, fuel)
               else Executed(Normal, m1);
      AdvancesTransitive(m, m1, r.machine, m.environment);
      r
  }

  /** visitFunctionStmt: a function closing over the active frame, defined
      under its name there as the next callable. */
  function ExecFunction(s: Stmt, m: Machine): (r: Executed)
    requires s.Function? && Runs(m)
    ensures Runs(r.machine) && Advances(m, r.machine, m.environment)
    ensures r.outcome == Normal && |r.machine.functions| == |m.functions| + 1
    ensures var f := Get(r.machine.frames, m.environment, s.name);
            f.Ok? && f.value.Fn? && f.value.arity == |s.params| && 0 < f.value.id <= |r.machine.functions| &&
            r.machine.functions[f.value.id - 1] == LoxFunction(s, m.environment)
  {
    var frames := Define(m.frames, m.environment, s.name.lexeme, Fn(|m.functions| + 1, |s.params|));
    SameShapeWellFormed(m.frames, frames);
    Executed(Normal, m.(frames := frames, functions := m.functions + [LoxFunction(s, m.environment)]))
  }

  /** visitWhileStmt: test the condition, run the body, repeat. A break ends
      the loop at once (normally, without testing the condition again);
      a return, an error or exhausted fuel ends it and propagates. */
  function Loop(h: Host, locals: map<nat, nat>, s: Stmt, m: Machine, fuel: nat): (r: Executed)
    requires s.While? && Runs(m)
    ensures Runs(r.machine) && Advances(m, r.machine, m.environment)
    ensures r.outcome != Breaking
    decreases s, 0, fuel
  {
    if fuel == 0 then Executed(OutOfFuel, m)
    else
      var c := Eval(h, locals, s.condition, m);
      var m1 := After(m, c.state);
      if c.result.Err? then Executed(Failed(c.result.error), m1)
      else if !IsTruthy(c.result.value) then Executed(Normal, m1)
      else
        var b := Exec(h, locals, s.body, m1, fuel);
        AdvancesTransitive(m, m1, b.machine, m.environment);
        match b.outcome
        case Breaking => Executed(Normal, b.machine)
        case Normal =>
          var r := Loop(h, locals, s, b.machine, fuel - 1);
          AdvancesTransitive(m, b.machine, r.machine, m.environment);
          r
        case _ => b
  }

  /** What is left of a loop as its method sees it between two turns: the
      rest of the loop while it goes on, its final outcome once it ended. */
  function LoopRest(h: Host, locals: map<nat, nat>, s: Stmt, m: Machine, o: Outcome, again: bool, fuel: nat): Executed
    requires s.While? && Runs(m)
  {
    if again then Loop(h, locals, s, m, fuel) else Executed(o, m)
  }

  lemma ExecWhileIsLoop(h: Host, locals: map<nat, nat>, s: Stmt, m: Machine, fuel: nat)
    requires s.While? && Runs(m)
    ensures Exec(h, locals, s, m, fuel) == Loop(h, locals, s, m, fuel)
  {
  }

  /** One turn of the loop, as the loop method takes it. */
  lemma LoopStep(h: Host, locals: map<nat, nat>, s: Stmt, m: Machine, fuel: nat)
    requires s.While? && Runs(m) && fuel > 0
    ensures var c := Eval(h, locals, s.condition, m);
            var m1 := After(m, c.state);
            (c.result.Err? ==> Loop(h, locals, s, m, fuel) == Executed(Failed(c.result.error), m1)) &&
            (c.result.Ok? && !IsTruthy(c.result.value) ==> Loop(h, locals, s, m, fuel) == Executed(Normal, m1)) &&
            (c.result.Ok? && IsTruthy(c.result.value) ==>
              var b := Exec(h, locals, s.body, m1, fuel);
              (b.outcome == Breaking ==> Loop(h, locals, s, m, fuel) == Executed(Normal, b.machine)) &&
              (b.outcome == Normal ==> Loop(h, locals, s, m, fuel) == Loop(h, locals, s, b.machine, fuel - 1)) &&
              (b.outcome != Breaking && b.outcome != Normal ==> Loop(h, locals, s, m, fuel) == b))
  {
  }

  /** executeBlock: run the statements with `env` active, then make the
      previous frame active again, whatever the outcome. */
  function ExecBlock(h: Host, locals: map<nat, nat>, statements: seq<Stmt>, env: nat, m: Machine, fuel: nat): (r: Executed)
    requires Runs(m) && env < |m.frames|
    ensures Runs(r.machine) && Advances(m, r.machine, env)
    decreases statements, 1
  {
    var inner := RunSeq(h, locals, statements, 0, m.(environment := env), fuel);
    Executed(inner.outcome, inner.machine.(environment := m.environment))
  }

  /** The statements from the i-th on, in order, up to the first one that
      does not complete normally. */
  function RunSeq(h: Host, locals: map<nat, nat>, statements: seq<Stmt>, i: nat, m: Machine, fuel: nat): (r: Executed)
    requires i <= |statements| && Runs(m)
    ensures Runs(r.machine) && Advances(m, r.machine, m.environment)
    decreases statements, 0, |statements| - i
  {
    if i == |statements| then Executed(Normal, m)
    else
      var first := Exec(h, locals, statements[i], m, fuel);
      if first.outcome != Normal then first
      else
        var r := RunSeq(h, locals, statements, i + 1, first.machine, fuel);
        AdvancesTransitive(m, first.machine, r.machine, m.environment);
        r
  }

  /** One top-level statement: at the prompt an expression statement is
      evaluated and its display text printed; anything else is executed. */
  function TopLevel(h: Host, locals: map<nat, nat>, s: Stmt, isPrompt: bool, m: Machine, fuel: nat): (r: Executed)
    requires Runs(m)
    ensures Runs(r.machine) && Advances(m, r.machine, m.environment)
    ensures isPrompt && s.Expression? ==> r.outcome == Normal || r.outcome.Failed?
  {
    if isPrompt && s.Expression? then Show(h, locals, s.expression, m) else Exec(h, locals, s, m, fuel)
  }

  /** interpret: each top-level statement in turn; at the prompt an
      expression statement's value is printed instead of discarded. The
      first statement that does not complete normally ends the run (a
      runtime error is what gets reported). */
  function InterpretFrom(h: Host, locals: map<nat, nat>, statements: seq<Stmt>, isPrompt: bool, i: nat, m: Machine, fuel: nat): (r: Executed)
    requires i <= |statements| && Runs(m)
    ensures Runs(r.machine) && Advances(m, r.machine, m.environment)
    decreases |statements| - i
  {
    if i == |statements| then Executed(Normal, m)
    else
      var step := TopLevel(h, locals, statements[i], isPrompt, m, fuel);
      if step.outcome != Normal then step
      else
        var r := InterpretFrom(h, locals, statements, isPrompt, i + 1, step.machine, fuel);
        AdvancesTransitive(m, step.machine, r.machine, m.environment);
        r
  }

  /** The interpreter object: the globals frame, the active frame (the
      `environment` field that executeBlock swaps and restores), the
      resolver's table, and the frames store, call log, output and
      declared functions that its statements change in place. */
  class Interpreter {
    const host: Host
    const globals: nat
    var frames: seq<Frame>
    var environment: nat
    var locals: map<nat, nat>
    var calls: seq<CallRecord>
    var output: seq<string>
    var functions: seq<LoxFunction>

    function Snapshot(): Machine
      reads this
    {
      Machine(frames, environment, calls, output, functions)
    }

    ghost predicate Valid()
      reads this
    {
      globals == Globals && Runs(Snapshot())
    }

    /** A fresh interpreter: the globals frame is active and binds `clock`,
        the native 0-argument callable. */
    constructor (host: Host)
      ensures Valid() && this.host == host
      ensures frames == [Frame(map["clock" := Fn(ClockId, 0)], None)]
      ensures environment == globals && locals == map[]
      ensures calls == [] && output == [] && functions == []
    {
      this.host := host;
      globals := Globals;
      frames := Define([Frame(map[], None)], Globals, "clock", Fn(ClockId, 0));
      environment := Globals;
      locals := map[];
      calls := [];
      output := [];
      functions := [];
    }

    /** resolve: record the resolver's distance for a Variable node. */
    method Resolve(node: nat, depth: nat)
      modifies this`locals
      ensures locals == old(locals)[node := depth]
    {
      locals := locals[node := depth];
    }

    /** evaluate: a call goes to visitCallExpr; every other visitor is a pure
        computation and is applied as the function Evaluate. */
    method Evaluate(e: Expr) returns (r: Result<Value>)
      requires Valid()
      modifies this`frames, this`calls
      ensures Valid()
      ensures Evaluated(r, State(frames, calls)) ==
              Evaluator.Evaluate(Context(host, environment, locals), e, old(State(frames, calls)))
      decreases e, 2
    {
      if e.Call? {
        r := VisitCallExpr(e);
      } else {
        var out := Evaluator.Evaluate(Context(host, environment, locals), e, State(frames, calls));
        frames, calls := out.state.frames, out.state.calls;
        r := out.result;
      }
    }

    /** visitCallExpr: the callee, then each argument in order, then the
        callable and arity checks, then the call. */
    method VisitCallExpr(e: Expr) returns (r: Result<Value>)
      requires Valid() && e.Call?
      modifies this`frames, this`calls
      ensures Valid()
      ensures Evaluated(r, State(frames, calls)) ==
              Evaluator.Evaluate(Context(host, environment, locals), e, old(State(frames, calls)))
      decreases e, 1
    {
      ghost var ctx := Context(host, environment, locals);
      var callee := Evaluate(e.callee);
      if callee.Err? {
        return callee;
      }
      ghost var afterCallee := State(frames, calls);
      var evaluated := EvaluateEach(e.arguments, e);
      if evaluated.Err? {
        return Err(evaluated.error);
      }
      var arguments := evaluated.value;
      assert Evaluator.Evaluate(ctx, e, old(State(frames, calls))) ==
             Invoke(host, e.paren, callee.value, arguments, State(frames, calls));
      if !callee.value.Fn? {
        return Err(RuntimeError(NotCallable, e.paren, "Can only call functions and classes."));
      }
      if |arguments| != callee.value.arity {
        return Err(RuntimeError(ArityMismatch, e.paren,
          "Expected " + NatText(callee.value.arity) + " arguments but got" + NatText(|arguments|) + "."));
      }
      var effect := host.invoke(callee.value.id, arguments, Bindings(frames));
      frames := AfterCall(frames, effect.globals);
      calls := calls + [CallRecord(callee.value.id, arguments)];
      r := effect.result;
    }

    /** The argument loop of visitCallExpr: each argument in order, stopping
        at the first error. `call` is the call they belong to. */
    method EvaluateEach(args: seq<Expr>, ghost call: Expr) returns (r: Result<seq<Value>>)
      requires Valid() && forall k :: 0 <= k < |args| ==> args[k] < call
      modifies this`frames, this`calls
      ensures Valid()
      ensures Evaluated(r, State(frames, calls)) ==
              EvaluateArguments(Context(host, environment, locals), args, old(State(frames, calls)))
      decreases call, 0
    {
      ghost var ctx := Context(host, environment, locals);
      ghost var start := State(frames, calls);
      var arguments: seq<Value> := [];
      var i := 0;
      while i < |args|
        invariant 0 <= i <= |args|
        invariant Valid()
        invariant EvaluateArguments(ctx, args[..i], start) == Evaluated(Ok(arguments), State(frames, calls))
      {
        assert args[..i + 1][..i] == args[..i];
        var argument := Evaluate(args[i]);
        if argument.Err? {
          ArgumentErrorStops(ctx, args, start, i + 1);
          return Err(argument.error);
        }
        arguments := arguments + [argument.value];
        i := i + 1;
      }
      assert args[..i] == args;
      r := Ok(arguments);
    }

    /** execute: dispatch to the statement's visitor. */
    method Execute(s: Stmt, fuel: nat) returns (o: Outcome)
      requires Valid()
      modifies this`frames, this`environment, this`calls, this`output, this`functions
      ensures Valid()
      ensures Executed(o, Snapshot()) == Exec(host, locals, s, old(Snapshot()), fuel)
      decreases s, 1
    {
      match s
      case Expression(_) => o := VisitExpressionStmt(s);
      case Print(_) => o := VisitPrintStmt(s);
      case Var(_, _) => o := VisitVarStmt(s);
      case Block(_) => o := VisitBlockStmt(s, fuel);
      case If(_, _, _) => o := VisitIfStmt(s, fuel);
      case While(_, _) => o := VisitWhileStmt(s, fuel);
      case Function(_, _, _) => o := VisitFunctionStmt(s);
      case Return(_, _) => o := VisitReturnStmt(s);
      case Break => o := VisitBreakStmt(s);
    }

    /** executeBlock: make `env` the active frame, run the statements until
        one does not complete normally, and make the previous frame active
        again on every way out. */
    method ExecuteBlock(statements: seq<Stmt>, env: nat, fuel: nat) returns (o: Outcome)
      requires Valid() && env < |frames|
      modifies this`frames, this`environment, this`calls, this`output, this`functions
      ensures Valid()
      ensures environment == old(environment)
      ensures Executed(o, Snapshot()) == ExecBlock(host, locals, statements, env, old(Snapshot()), fuel)
      decreases statements
    {
      var previous := environment;
      environment := env;
      ghost var start := Snapshot();
      o := Normal;
      var i := 0;
      while i < |statements| && o == Normal
        invariant 0 <= i <= |statements|
        invariant Valid() && environment == env
        invariant RunSeq(host, locals, statements, 0, start, fuel) ==
                  if o == Normal then RunSeq(host, locals, statements, i, Snapshot(), fuel)
                  else Executed(o, Snapshot())
      {
        o := Execute(statements[i], fuel);
        i := i + 1;
      }
      environment := previous;
    }

    method VisitBlockStmt(s: Stmt, fuel: nat) returns (o: Outcome)
      requires Valid() && s.Block?
      modifies this`frames, this`environment, this`calls, this`output, this`functions
      ensures Valid()
      ensures Executed(o, Snapshot()) == Exec(host, locals, s, old(Snapshot()), fuel)
      decreases s, 0
    {
      var env := |frames|;
      frames := Push(frames, environment);
      o := ExecuteBlock(s.statements, env, fuel);
    }

    method VisitExpressionStmt(s: Stmt) returns (o: Outcome)
      requires Valid() && s.Expression?
      modifies this`frames, this`environment, this`calls, this`output, this`functions
      ensures Valid()
      ensures Executed(o, Snapshot()) == Exec(host, locals, s, old(Snapshot()), 0)
    {
      var value := Evaluate(s.expression);
      o := if value.Err? then Failed(value.error) else Normal;
    }

    method VisitPrintStmt(s: Stmt) returns (o: Outcome)
      requires Valid() && s.Print?
      modifies this`frames, this`environment, this`calls, this`output, this`functions
      ensures Valid()
      ensures Executed(o, Snapshot()) == Exec(host, locals, s, old(Snapshot()), 0)
    {
      var value := Evaluate(s.expression);
      if value.Err? {
        return Failed(value.error);
      }
      output := output + [Stringify(host, value.value)];
      o := Normal;
    }

    method VisitVarStmt(s: Stmt) returns (o: Outcome)
      requires Valid() && s.Var?
      modifies this`frames, this`environment, this`calls, this`output, this`functions
      ensures Valid()
      ensures Executed(o, Snapshot()) == Exec(host, locals, s, old(Snapshot()), 0)
    {
      var value := Nil;
      if s.initializer.Some? {
        var v := Evaluate(s.initializer.value);
        if v.Err? {
          return Failed(v.error);
        }
        value := v.value;
      }
      SameShapeWellFormed(frames, Define(frames, environment, s.name.lexeme, value));
      frames := Define(frames, environment, s.name.lexeme, value);
      o := Normal;
    }

    method VisitIfStmt(s: Stmt, fuel: nat) returns (o: Outcome)
      requires Valid() && s.If?
      modifies this`frames, this`environment, this`calls, this`output, this`functions
      ensures Valid()
      ensures Executed(o, Snapshot()) == Exec(host, locals, s, old(Snapshot()), fuel)
      decreases s, 0
    {
      var condition := Evaluate(s.condition);
      if condition.Err? {
        o := Failed(condition.error);
      } else if IsTruthy(condition.value) {
        o := Execute(s.thenBranch, fuel);
      } else if s.elseBranch.Some? {
        o := Execute(s.elseBranch.value, fuel);
      } else {
        o := Normal;
      }
    }

    /** visitWhileStmt: the loop of the Java code, at most `fuel` iterations. */
    method VisitWhileStmt(s: Stmt, fuel: nat) returns (o: Outcome)
      requires Valid() && s.While?
      modifies this`frames, this`environment, this`calls, this`output, this`functions
      ensures Valid()
      ensures Executed(o, Snapshot()) == Exec(host, locals, s, old(Snapshot()), fuel)
      decreases s, 0, 1
    {
      ExecWhileIsLoop(host, locals, s, Snapshot(), fuel);
      ghost var goal := Loop(host, locals, s, Snapshot(), fuel);
      var remaining := fuel;
      var again := true;
      o := Normal;
      while again && remaining > 0
        invariant Valid()
        invariant LoopRest(host, locals, s, Snapshot(), o, again, remaining) == goal
        decreases remaining
      {
        o, again := WhileIteration(s, remaining, goal);
        remaining := remaining - 1;
      }
      if again {
        o := OutOfFuel;
      }
    }

    /** One pass of visitWhileStmt's loop: test the condition and, when it
        holds, run the body; `again` says the loop goes on. */
    method WhileIteration(s: Stmt, remaining: nat, ghost goal: Executed) returns (o: Outcome, again: bool)
      requires Valid() && s.While? && remaining > 0
      requires Loop(host, locals, s, Snapshot(), remaining) == goal
      modifies this`frames, this`environment, this`calls, this`output, this`functions
      ensures Valid()
      ensures LoopRest(host, locals, s, Snapshot(), o, again, remaining - 1) == goal
      decreases s, 0, 0
    {
      ghost var before := Snapshot();
      LoopStep(host, locals, s, before, remaining);
      var condition := Evaluate(s.condition);
      assert Snapshot() == After(before, Eval(host, locals, s.condition, before).state);
      if condition.Err? {
        return Failed(condition.error), false;
      }
      if !IsTruthy(condition.value) {
        return Normal, false;
      }
      ghost var afterCondition := Snapshot();
      var body := Execute(s.body, remaining);
      assert Executed(body, Snapshot()) == Exec(host, locals, s.body, afterCondition, remaining);
      if body == Breaking {
        return Normal, false;
      }
      o, again := body, body == Normal;
    }

    /** visitFunctionStmt: a LoxFunction closing over the active frame,
        defined under its name in that frame. */
    method VisitFunctionStmt(s: Stmt) returns (o: Outcome)
      requires Valid() && s.Function?
      modifies this`frames, this`environment, this`calls, this`output, this`functions
      ensures Valid()
      ensures Executed(o, Snapshot()) == Exec(host, locals, s, old(Snapshot()), 0)
    {
      var declared := LoxFunction(s, environment);
      SameShapeWellFormed(frames, Define(frames, environment, s.name.lexeme, Fn(|functions| + 1, |s.params|)));
      frames := Define(frames, environment, s.name.lexeme, Fn(|functions| + 1, |s.params|));
      functions := functions + [declared];
      o := Normal;
    }

    method VisitReturnStmt(s: Stmt) returns (o: Outcome)
      requires Valid() && s.Return?
      modifies this`frames, this`environment, this`calls, this`output, this`functions
      ensures Valid()
      ensures Executed(o, Snapshot()) == Exec(host, locals, s, old(Snapshot()), 0)
    {
      var value := Nil;
      if s.value.Some? {
        var v := Evaluate(s.value.value);
        if v.Err? {
          return Failed(v.error);
        }
        value := v.value;
      }
      o := Returning(value);
    }

    method VisitBreakStmt(s: Stmt) returns (o: Outcome)
      requires Valid() && s.Break?
      ensures Executed(o, Snapshot()) == Exec(host, locals, s, Snapshot(), 0)
    {
      o := Breaking;
    }

    /** The body of interpret's loop for one statement. */
    method InterpretStatement(statement: Stmt, isPrompt: bool, fuel: nat) returns (o: Outcome)
      requires Valid()
      modifies this`frames, this`environment, this`calls, this`output, this`functions
      ensures Valid()
      ensures Executed(o, Snapshot()) == TopLevel(host, locals, statement, isPrompt, old(Snapshot()), fuel)
    {
      if isPrompt && statement.Expression? {
        var value := Evaluate(statement.expression);
        if value.Err? {
          return Failed(value.error);
        }
        output := output + [Stringify(host, value.value)];
        o := Normal;
      } else {
        o := Execute(statement, fuel);
      }
    }

    /** interpret: run the program's statements; at the prompt, print the
        value of each expression statement. The outcome is Failed with the
        error that is reported when a runtime error stops the run. */
    method Interpret(statements: seq<Stmt>, isPrompt: bool, fuel: nat) returns (o: Outcome)
      requires Valid()
      modifies this`frames, this`environment, this`calls, this`output, this`functions
      ensures Valid()
      ensures Executed(o, Snapshot()) == InterpretFrom(host, locals, statements, isPrompt, 0, old(Snapshot()), fuel)
    {
      ghost var start := Snapshot();
      o := Normal;
      var i := 0;
      while i < |statements| && o == Normal
        invariant 0 <= i <= |statements|
        invariant Valid() && environment == start.environment
        invariant InterpretFrom(host, locals, statements, isPrompt, 0, start, fuel) ==
                  if o == Normal then InterpretFrom(host, locals, statements, isPrompt, i, Snapshot(), fuel)
                  else Executed(o, Snapshot())
      {
        o := InterpretStatement(statements[i], isPrompt, fuel);
        i := i + 1;
      }
    }
  }
}
