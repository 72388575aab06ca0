/** Expression semantics of the interpreter: truthiness, equality,
    stringification, the operand checks, the operator switches, and the
    recursive evaluation of an expression against the frames store. A call
    invokes the callable through the host (its body is not modelled), takes
    over the globals it assigned, and is recorded in a call log, the observable trace of side effects that makes
    "this subexpression was not evaluated" provable. */
module Evaluator {
  import opened Tokens
  import opened Values
  import opened Strings
  import opened Syntax
  import opened Environment

  // ---------------------------------------------------------------------
  // Helpers

  /** nil and false are falsy; every other value, 0 and "" included, is truthy. */
  function IsTruthy(v: Value): (r: bool)
    ensures r <==> !(v == Nil || v == Bool(false))
  {
    match v
    case Nil => false
    case Bool(b) => b
    case _ => true
  }

  /** nil equals only nil; otherwise Java's equals, which never coerces
      across types. */
  function IsEqual(a: Value, b: Value): (r: bool)
    ensures r <==> a == b
  {
    if a == Nil && b == Nil then true
    else if a == Nil then false
    else a == b
  }

  /** The display text of a value: "nil" for nil, a number's Java text with
      a trailing ".0" dropped, and the value's own text otherwise. */
  function Stringify(h: Host, v: Value): (r: string)
    ensures v == Nil ==> r == "nil"
    ensures v.Num? && EndsWith(h.numberText(v.x), ".0") ==> r + ".0" == h.numberText(v.x)
    ensures v.Num? && !EndsWith(h.numberText(v.x), ".0") ==> r == h.numberText(v.x)
    ensures !v.Nil? && !v.Num? ==> r == ValueText(h, v)
  {
    if v == Nil then "nil"
    else if v.Num? then
      var text := h.numberText(v.x);
      if EndsWith(text, ".0") then text[..|text| - 2] else text
    else ValueText(h, v)
  }

  /** The unary check: None when the operand is a number. */
  function CheckNumberOperand(operator: Token, operand: Value): (r: Option<RuntimeError>)
    ensures r.None? <==> operand.Num?
    ensures r.Some? ==> r.value.kind == TypeError && r.value.token == operator
  {
    if operand.Num? then None
    else Some(RuntimeError(TypeError, operator, "Operand must be a number"))
  }

  /** The binary check: None when both operands are numbers. */
  function CheckNumberOperands(operator: Token, left: Value, right: Value): (r: Option<RuntimeError>)
    ensures r.None? <==> left.Num? && right.Num?
    ensures r.Some? ==> r.value.kind == TypeError && r.value.token == operator
  {
    if left.Num? && right.Num? then None
    else Some(RuntimeError(TypeError, operator, "Operands must be numbers."))
  }

  /** Run after the number check: None unless the divisor is zero. */
  function CheckDivByZero(operator: Token, right: Value): (r: Option<RuntimeError>)
    requires right.Num?
    ensures r.None? <==> right.x != 0.0
    ensures r.Some? ==> r.value.kind == DivisionByZero && r.value.token == operator
  {
    if right.x != 0.0 then None
    else Some(RuntimeError(DivisionByZero, operator, "Division by zero not allowed."))
  }

  // ---------------------------------------------------------------------
  // The operator switches of the unary and binary visitors

  /** visitUnaryExpr after its operand is evaluated. An operator the switch
      does not list falls through to `return null`. */
  function UnaryOp(operator: Token, right: Value): (r: Result<Value>)
    ensures r.Err? <==> operator.tokenType == Minus && !right.Num?
    ensures r.Err? ==> r.error == RuntimeError(TypeError, operator, "Operand must be a number")
    ensures operator.tokenType == Bang ==> r.Ok? && (r.value == Bool(true) <==> !IsTruthy(right))
    ensures operator.tokenType == Minus && right.Num? ==> r == Ok(Num(-right.x))
    ensures operator.tokenType != Bang && operator.tokenType != Minus ==> r == Ok(Nil)
  {
    match operator.tokenType
    case Bang => Ok(Bool(!IsTruthy(right)))
    case Minus =>
      var check := CheckNumberOperand(operator, right);
      if check.Some? then Err(check.value) else Ok(Num(-right.x))
    case _ => Ok(Nil)
  }

  /** The one-number-check operators of visitBinaryExpr after the check passed. */
  function NumericResult(operator: TokenType, x: real, y: real): (r: Value)
    ensures r.Bool? <==> operator in {Greater, GreaterEqual, Less, LessEqual}
    ensures r.Num? <==> operator == Minus || operator == Star
    ensures x == y && (operator == Greater || operator == Less) ==> r == Bool(false)
    ensures x == y && (operator == GreaterEqual || operator == LessEqual) ==> r == Bool(true)
    ensures operator == Minus ==> r.Num? && r.x + y == x
  {
    match operator
    case Greater => Bool(x > y)
    case GreaterEqual => Bool(x >= y)
    case Less => Bool(x < y)
    case LessEqual => Bool(x <= y)
    case Minus => Num(x - y)
    case Star => Num(x * y)
    case _ => Nil
  }

  /** visitBinaryExpr after both operands are evaluated. An operator the
      switch does not list falls through to `return null`. */
  function BinaryOp(h: Host, operator: Token, left: Value, right: Value): (r: Result<Value>)
    ensures r.Err? <==>
      (operator.tokenType == Plus && !(left.Num? && right.Num?) && !left.Str? && !right.Str?) ||
      (operator.tokenType in {Slash, Greater, GreaterEqual, Less, LessEqual, Minus, Star} && !(left.Num? && right.Num?)) ||
      (operator.tokenType == Slash && left.Num? && right.Num? && right.x == 0.0)
    ensures r.Err? ==> r.error.token == operator
    ensures r.Err? ==> (r.error.kind == DivisionByZero <==> operator.tokenType == Slash && left.Num? && right.Num?)
    ensures r.Err? ==> r.error.kind in {TypeError, DivisionByZero}
    ensures operator.tokenType !in {BangEqual, EqualEqual, Plus, Slash, Greater, GreaterEqual, Less, LessEqual, Minus, Star} ==> r == Ok(Nil)
  {
    match operator.tokenType
    case BangEqual => Ok(Bool(!IsEqual(left, right)))
    case EqualEqual => Ok(Bool(IsEqual(left, right)))
    case Plus =>
      if left.Num? && right.Num? then Ok(Num(left.x + right.x))
      else if left.Str? && right.Str? then Ok(Str(left.s + right.s))
      else if left.Str? || right.Str? then Ok(Str(Stringify(h, left) + Stringify(h, right)))
      else Err(RuntimeError(TypeError, operator, "Operands must be two numbers of two string."))
    case Slash =>
      var check := CheckNumberOperands(operator, left, right);
      if check.Some? then Err(check.value)
      else
        var zero := CheckDivByZero(operator, right);
        if zero.Some? then Err(zero.value) else Ok(Num(left.x / right.x))
    case Greater | GreaterEqual | Less | LessEqual | Minus | Star =>
      var check := CheckNumberOperands(operator, left, right);
      if check.Some? then Err(check.value)
      else Ok(NumericResult(operator.tokenType, left.x, right.x))
    case _ => Ok(Nil)
  }

  // ---------------------------------------------------------------------
  // Evaluation state

  /** What evaluation reads but never changes: the host, the active frame and
      the resolver's table from Variable node identities to distances. */
  datatype Context = Context(host: Host, environment: nat, locals: map<nat, nat>)

  /** One invocation of a callable: its identity and its arguments. */
  datatype CallRecord = CallRecord(callee: nat, arguments: seq<Value>)

  /** What evaluation may change: the frames store and the call log. */
  datatype State = State(frames: seq<Frame>, calls: seq<CallRecord>)

  /** A result together with the state after producing it. */
  datatype Evaluated<T> = Evaluated(result: Result<T>, state: State)

  /** The store is well formed, holds the globals frame and the active frame. */
  predicate Fits(ctx: Context, st: State)
  {
    WellFormed(st.frames) && Globals < |st.frames| && ctx.environment < |st.frames|
  }

  /** What evaluating an expression may do to the state: no frame is created
      or relinked, no frame but the globals changes, the call log only grows. */
  predicate Follows(st: State, st': State)
    ensures Follows(st, st') ==> |st'.frames| == |st.frames| && |st'.calls| >= |st.calls|
  {
    SameShape(st.frames, st'.frames) &&
    (forall i :: Globals < i < |st.frames| ==> st'.frames[i] == st.frames[i]) &&
    st.calls <= st'.calls
  }

  lemma FollowsTransitive(s1: State, s2: State, s3: State)
    requires Follows(s1, s2) && Follows(s2, s3)
    ensures Follows(s1, s3)
  {
  }

  /** The key a lookup in the resolver's table is made with. The table's keys
      are expression nodes; Map.get accepts any object, and visitAssignExpr
      passes the name Token. */
  datatype LocalsKey = ExprKey(node: nat) | TokenKey(token: Token)

  /** `locals.get(key)`: a Token is never equal to an Expr key, so a Token
      lookup always misses. */
  function LocalsGet(locals: map<nat, nat>, key: LocalsKey): (r: Option<nat>)
    ensures key.TokenKey? ==> r == None
    ensures key.ExprKey? ==> (r.Some? <==> key.node in locals)
    ensures key.ExprKey? && r.Some? ==> r.value == locals[key.node]
  {
    match key
    case ExprKey(node) => if node in locals then Some(locals[node]) else None
    case TokenKey(_) => None
  }

  /** lookUpVariable: exact-distance lookup when the resolver bound the node,
      dynamic lookup in the globals otherwise. */
  function LookUpVariable(ctx: Context, frames: seq<Frame>, name: Token, node: nat): (r: Result<Value>)
    requires WellFormed(frames) && Globals < |frames| && ctx.environment < |frames|
    ensures node in ctx.locals ==> r == GetAt(frames, ctx.environment, ctx.locals[node], name)
    ensures node !in ctx.locals ==> r == Get(frames, Globals, name)
  {
    match LocalsGet(ctx.locals, ExprKey(node))
    case Some(distance) => GetAt(frames, ctx.environment, distance, name)
    case None => Get(frames, Globals, name)
  }

  /** The write of visitAssignExpr once the table lookup is done: assignAt
      when it found a distance, globals.assign otherwise. */
  function AssignWith(frames: seq<Frame>, env: nat, distance: Option<nat>, name: Token, v: Value): (r: Result<seq<Frame>>)
    requires WellFormed(frames) && Globals < |frames| && env < |frames|
    ensures r.Ok? ==> SameShape(frames, r.value)
    ensures distance.None? && r.Ok? ==> forall i :: Globals < i < |frames| ==> r.value[i] == frames[i]
  {
    match distance
    case Some(d) => AssignAt(frames, env, d, name, v)
    case None => Environment.Assign(frames, Globals, name, v)
  }

  /** The bindings of every frame, as the callable's body could read them. */
  function Bindings(frames: seq<Frame>): (r: seq<map<string, Value>>)
    ensures |r| == |frames| && forall i :: 0 <= i < |frames| ==> r[i] == frames[i].values
  {
    seq(|frames|, i requires 0 <= i < |frames| => frames[i].values)
  }

  /** The store after a call whose body left the globals bound as `globals`.
      A body only assigns (through globals.assign, which never declares) and
      defines in the frames the call itself creates, so the globals keep their
      names and every other frame of the store keeps its bindings. */
  function AfterCall(frames: seq<Frame>, globals: map<string, Value>): (r: seq<Frame>)
    requires Globals < |frames|
    ensures SameShape(frames, r)
    ensures forall i :: Globals < i < |frames| ==> r[i] == frames[i]
    ensures r[Globals].values.Keys == frames[Globals].values.Keys
    ensures forall name :: name in frames[Globals].values && name in globals ==> r[Globals].values[name] == globals[name]
    ensures forall name :: name in frames[Globals].values && name !in globals ==> r[Globals].values[name] == frames[Globals].values[name]
  {
    var before := frames[Globals].values;
    frames[Globals := frames[Globals].(values := map name | name in before :: if name in globals then globals[name] else before[name])]
  }

  /** visitCallExpr after the callee and the arguments are evaluated: the
      callee must be callable, then the argument count must match its arity,
      and only then is it invoked. */
  function Invoke(h: Host, paren: Token, callee: Value, args: seq<Value>, st: State): (r: Evaluated<Value>)
    requires Globals < |st.frames|
    ensures SameShape(st.frames, r.state.frames)
    ensures forall i :: Globals < i < |st.frames| ==> r.state.frames[i] == st.frames[i]
    ensures callee.Fn? && |args| == callee.arity ==>
              var effect := h.invoke(callee.id, args, Bindings(st.frames));
              r == Evaluated(effect.result, State(AfterCall(st.frames, effect.globals), st.calls + [CallRecord(callee.id, args)]))
    ensures !(callee.Fn? && |args| == callee.arity) ==> r.state == st && r.result.Err?
    ensures !callee.Fn? ==> r.result.error.kind == NotCallable
    ensures callee.Fn? && |args| != callee.arity ==> r.result.error.kind == ArityMismatch
  {
    if !callee.Fn? then
      Evaluated(Err(RuntimeError(NotCallable, paren, "Can only call functions and classes.")), st)
    else if |args| != callee.arity then
      Evaluated(Err(RuntimeError(ArityMismatch, paren,
        "Expected " + NatText(callee.arity) + " arguments but got" + NatText(|args|) + ".")), st)
    else
      var effect := h.invoke(callee.id, args, Bindings(st.frames));
      Evaluated(effect.result, State(AfterCall(st.frames, effect.globals), st.calls + [CallRecord(callee.id, args)]))
  }

  // ---------------------------------------------------------------------
  // evaluate

  /** `evaluate(expr)`: the visitor of each node. Literals, groupings and
      variables are answered here; each other kind has its own visitor. */
  function Evaluate(ctx: Context, e: Expr, st: State): (r: Evaluated<Value>)
    requires Fits(ctx, st)
    ensures Fits(ctx, r.state) && Follows(st, r.state)
    decreases e, 1
  {
    match e
    case Literal(v) => Evaluated(Ok(v), st)
    case Grouping(inner) => Evaluate(ctx, inner, st)
    case Variable(node, name) => Evaluated(LookUpVariable(ctx, st.frames, name, node), st)
    case Logical(_, _, _) => EvaluateLogical(ctx, e, st)
    case Ternary(_, _, _, _, _) => EvaluateTernary(ctx, e, st)
    case Unary(_, _) => EvaluateUnary(ctx, e, st)
    case Binary(_, _, _) => EvaluateBinary(ctx, e, st)
    case Call(_, _, _) => EvaluateCall(ctx, e, st)
    case Assign(_, _) => EvaluateAssign(ctx, e, st)
  }

  /** visitLogicalExpr: the right operand only when the left does not
      decide the answer; the answer is the deciding operand's value. */
  function EvaluateLogical(ctx: Context, e: Expr, st: State): (r: Evaluated<Value>)
    requires Fits(ctx, st) && e.Logical?
    ensures Fits(ctx, r.state) && Follows(st, r.state)
    decreases e, 0
  {
    var l := Evaluate(ctx, e.left, st);
    if l.result.Err? then l
    else if e.operator.tokenType == Or && IsTruthy(l.result.value) then l
    else if e.operator.tokenType != Or && !IsTruthy(l.result.value) then l
    else
      var r := Evaluate(ctx, e.right, l.state);
      FollowsTransitive(st, l.state, r.state);
      r
  }

  /** visitTernaryExpr: the condition, then one branch. */
  function EvaluateTernary(ctx: Context, e: Expr, st: State): (r: Evaluated<Value>)
    requires Fits(ctx, st) && e.Ternary?
    ensures Fits(ctx, r.state) && Follows(st, r.state)
    decreases e, 0
  {
    var c := Evaluate(ctx, e.condition, st);
    if c.result.Err? then c
    else
      var r := if IsTruthy(c.result.value) then Evaluate(ctx, e.thenBranch, c.state)
               else Evaluate(ctx, e.elseBranch, c.state);
      FollowsTransitive(st, c.state, r.state);
      r
  }

  /** visitUnaryExpr: the operand, then the operator. */
  function EvaluateUnary(ctx: Context, e: Expr, st: State): (r: Evaluated<Value>)
    requires Fits(ctx, st) && e.Unary?
    ensures Fits(ctx, r.state) && Follows(st, r.state)
    decreases e, 0
  {
    var r := Evaluate(ctx, e.right, st);
    if r.result.Err? then r else Evaluated(UnaryOp(e.operator, r.result.value), r.state)
  }

  /** visitBinaryExpr: the left operand, the right operand, then the operator. */
  function EvaluateBinary(ctx: Context, e: Expr, st: State): (r: Evaluated<Value>)
    requires Fits(ctx, st) && e.Binary?
    ensures Fits(ctx, r.state) && Follows(st, r.state)
    decreases e, 0
  {
    var l := Evaluate(ctx, e.left, st);
    if l.result.Err? then l
    else
      var r := Evaluate(ctx, e.right, l.state);
      FollowsTransitive(st, l.state, r.state);
      if r.result.Err? then r
      else Evaluated(BinaryOp(ctx.host, e.operator, l.result.value, r.result.value), r.state)
  }

  /** visitCallExpr: the callee, the arguments in order, then the call. */
  function EvaluateCall(ctx: Context, e: Expr, st: State): (r: Evaluated<Value>)
    requires Fits(ctx, st) && e.Call?
    ensures Fits(ctx, r.state) && Follows(st, r.state)
    decreases e, 0
  {
    var c := Evaluate(ctx, e.callee, st);
    if c.result.Err? then c
    else
      var a := EvaluateArguments(ctx, e.arguments, c.state);
      FollowsTransitive(st, c.state, a.state);
      if a.result.Err? then Evaluated(Err(a.result.error), a.state)
      else
        var r := Invoke(ctx.host, e.paren, c.result.value, a.result.value, a.state);
        SameShapeWellFormed(a.state.frames, r.state.frames);
        r
  }

  /** visitAssignExpr: the value, then the assignment, which looks its
      target up in `locals` by the name token. */
  function EvaluateAssign(ctx: Context, e: Expr, st: State): (r: Evaluated<Value>)
    requires Fits(ctx, st) && e.Assign?
    ensures Fits(ctx, r.state) && Follows(st, r.state)
    decreases e, 0
  {
    var v := Evaluate(ctx, e.newValue, st);
    if v.result.Err? then v
    else
      match AssignWith(v.state.frames, ctx.environment, LocalsGet(ctx.locals, TokenKey(e.name)), e.name, v.result.value)
      case Err(error) => Evaluated(Err(error), v.state)
      case Ok(frames) =>
        SameShapeWellFormed(v.state.frames, frames);
        Evaluated(Ok(v.result.value), v.state.(frames := frames))
  }

  /** The argument loop of visitCallExpr: every argument in order, each in the
      state the previous one left, stopping at the first error. */
  function EvaluateArguments(ctx: Context, args: seq<Expr>, st: State): (r: Evaluated<seq<Value>>)
    requires Fits(ctx, st)
    ensures Fits(ctx, r.state) && Follows(st, r.state)
    ensures r.result.Ok? ==> |r.result.value| == |args|
    decreases args
  {
    if args == [] then Evaluated(Ok([]), st)
    else
      var front := EvaluateArguments(ctx, args[..|args| - 1], st);
      if front.result.Err? then front
      else
        var last := Evaluate(ctx, args[|args| - 1], front.state);
        FollowsTransitive(st, front.state, last.state);
        if last.result.Err? then Evaluated(Err(last.result.error), last.state)
        else Evaluated(Ok(front.result.value + [last.result.value]), last.state)
  }

  /** Once an argument fails, the arguments after it are not evaluated: the
      whole list fails with the same error and state as the failing prefix. */
  lemma {:induction false} ArgumentErrorStops(ctx: Context, args: seq<Expr>, st: State, k: nat)
    requires Fits(ctx, st) && k <= |args|
    requires EvaluateArguments(ctx, args[..k], st).result.Err?
    ensures EvaluateArguments(ctx, args, st) == EvaluateArguments(ctx, args[..k], st)
    decreases |args|
  {
    if k < |args| {
      var front := args[..|args| - 1];
      assert front[..k] == args[..k];
      ArgumentErrorStops(ctx, front, st, k);
    } else {
      assert args[..k] == args;
    }
  }
}
