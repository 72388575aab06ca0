/** The chain of scope frames the interpreter reads and writes through the
    operations it calls on Environment: define, get, getAt, assign, assignAt
    and the creation of a frame enclosed by the active one. Every frame ever
    created lives in a store and is named by its index, so that a closure and
    a block can share a frame by holding the same index. */
module Environment {
  import opened Tokens
  import opened Values

  /** The globals frame is the first one created. */
  const Globals: nat := 0

  /** One scope: its bindings and the index of the enclosing frame. */
  datatype Frame = Frame(values: map<string, Value>, enclosing: Option<nat>)

  /** Every enclosing link points to an older frame, so every chain ends. */
  predicate WellFormed(frames: seq<Frame>)
  {
    forall i :: 0 <= i < |frames| && frames[i].enclosing.Some? ==> frames[i].enclosing.value < i
  }

  /** Two stores with the same frames and the same links; only bindings may differ. */
  predicate SameShape(frames: seq<Frame>, frames': seq<Frame>)
  {
    |frames'| == |frames| &&
    forall i :: 0 <= i < |frames| ==> frames'[i].enclosing == frames[i].enclosing
  }

  lemma SameShapeWellFormed(frames: seq<Frame>, frames': seq<Frame>)
    requires WellFormed(frames) && SameShape(frames, frames')
    ensures WellFormed(frames')
  {
  }

  /** The error Environment raises for a name no frame of the chain holds. */
  function UndefinedVariable(name: Token): (e: RuntimeError)
    ensures e.kind == UnboundVariable && e.token == name
  {
    RuntimeError(UnboundVariable, name, "Undefined variable '" + name.lexeme + "'.")
  }

  /** The frame reached by following exactly `distance` enclosing links. */
  function Ancestor(frames: seq<Frame>, env: nat, distance: nat): (r: Option<nat>)
    requires WellFormed(frames) && env < |frames|
    ensures r.Some? ==> r.value <= env
    ensures distance == 0 ==> r == Some(env)
    decreases distance
  {
    if distance == 0 then Some(env)
    else match frames[env].enclosing
      case None => None
      case Some(outer) => Ancestor(frames, outer, distance - 1)
  }

  /** The frame `distance` links out from `env` exists and binds `name`. */
  predicate Defines(frames: seq<Frame>, env: nat, distance: nat, name: string)
    requires WellFormed(frames) && env < |frames|
  {
    var a := Ancestor(frames, env, distance);
    a.Some? && name in frames[a.value].values
  }

  /** The distance of the nearest frame of the chain that binds `name`. */
  function Depth(frames: seq<Frame>, env: nat, name: string): (r: Option<nat>)
    requires WellFormed(frames) && env < |frames|
    ensures r.Some? ==> Defines(frames, env, r.value, name)
    ensures forall d :: Defines(frames, env, d, name) ==> r.Some? && r.value <= d
    decreases env
  {
    if name in frames[env].values then Some(0)
    else match frames[env].enclosing
      case None => None
      case Some(outer) =>
        var inner := Depth(frames, outer, name);
        forall d: nat | Defines(frames, env, d, name) ensures d > 0 && Defines(frames, outer, d - 1, name) { }
        if inner.None? then None else Some(inner.value + 1)
  }

  /** `define`: bind `name` in frame `env` only. */
  function Define(frames: seq<Frame>, env: nat, name: string, v: Value): (r: seq<Frame>)
    requires env < |frames|
    ensures SameShape(frames, r)
    ensures r[env].values == frames[env].values[name := v]
    ensures forall i :: 0 <= i < |frames| && i != env ==> r[i] == frames[i]
  {
    frames[env := frames[env].(values := frames[env].values[name := v])]
  }

  /** `new Environment(enclosing)`: a fresh empty frame whose handle is |frames|. */
  function Push(frames: seq<Frame>, enclosing: nat): (r: seq<Frame>)
    requires WellFormed(frames) && enclosing < |frames|
    ensures WellFormed(r) && |r| == |frames| + 1
    ensures r[..|frames|] == frames
    ensures r[|frames|].values == map[] && r[|frames|].enclosing == Some(enclosing)
  {
    frames + [Frame(map[], Some(enclosing))]
  }

  /** `get`: look `name` up from `env` outward, failing once the chain ends. */
  function Get(frames: seq<Frame>, env: nat, name: Token): (r: Result<Value>)
    requires WellFormed(frames) && env < |frames|
    ensures r.Err? ==> r.error == UndefinedVariable(name)
    decreases env
  {
    if name.lexeme in frames[env].values then Ok(frames[env].values[name.lexeme])
    else match frames[env].enclosing
      case None => Err(UndefinedVariable(name))
      case Some(outer) => Get(frames, outer, name)
  }

  /** `getAt`: read `name` in the single frame exactly `distance` links out.
      The resolver guarantees that frame binds the name; when it does not,
      the lookup fails as an unbound variable. */
  function GetAt(frames: seq<Frame>, env: nat, distance: nat, name: Token): (r: Result<Value>)
    requires WellFormed(frames) && env < |frames|
    ensures r.Ok? <==> Defines(frames, env, distance, name.lexeme)
    ensures r.Ok? ==> r.value == frames[Ancestor(frames, env, distance).value].values[name.lexeme]
    ensures r.Err? ==> r.error == UndefinedVariable(name)
  {
    match Ancestor(frames, env, distance)
    case None => Err(UndefinedVariable(name))
    case Some(a) =>
      if name.lexeme in frames[a].values then Ok(frames[a].values[name.lexeme])
      else Err(UndefinedVariable(name))
  }

  /** `assign`: overwrite the nearest binding of `name` from `env` outward;
      assignment never declares, so a name bound nowhere is an error. */
  function Assign(frames: seq<Frame>, env: nat, name: Token, v: Value): (r: Result<seq<Frame>>)
    requires WellFormed(frames) && env < |frames|
    ensures r.Ok? ==> SameShape(frames, r.value)
    ensures r.Ok? ==> forall i :: env < i < |frames| ==> r.value[i] == frames[i]
    ensures r.Err? ==> r.error == UndefinedVariable(name)
    decreases env
  {
    if name.lexeme in frames[env].values then Ok(Define(frames, env, name.lexeme, v))
    else match frames[env].enclosing
      case None => Err(UndefinedVariable(name))
      case Some(outer) => Assign(frames, outer, name, v)
  }

  /** `assignAt`: overwrite `name` in the single frame exactly `distance`
      links out, failing as an unbound variable when it is not bound there. */
  function AssignAt(frames: seq<Frame>, env: nat, distance: nat, name: Token, v: Value): (r: Result<seq<Frame>>)
    requires WellFormed(frames) && env < |frames|
    ensures r.Ok? <==> Defines(frames, env, distance, name.lexeme)
    ensures r.Ok? ==> r.value == Define(frames, Ancestor(frames, env, distance).value, name.lexeme, v)
    ensures r.Err? ==> r.error == UndefinedVariable(name)
  {
    match Ancestor(frames, env, distance)
    case None => Err(UndefinedVariable(name))
    case Some(a) =>
      if name.lexeme in frames[a].values then Ok(Define(frames, a, name.lexeme, v))
      else Err(UndefinedVariable(name))
  }

  /** Dynamic lookup finds exactly what exact-distance lookup finds at the
      distance of the nearest binding: this is why the resolver may replace
      one by the other. */
  lemma {:induction false} GetIsGetAtNearest(frames: seq<Frame>, env: nat, name: Token)
    requires WellFormed(frames) && env < |frames|
    ensures Get(frames, env, name) ==
      match Depth(frames, env, name.lexeme)
      case None => Err(UndefinedVariable(name))
      case Some(d) => GetAt(frames, env, d, name)
    decreases env
  {
    if name.lexeme !in frames[env].values && frames[env].enclosing.Some? {
      var outer := frames[env].enclosing.value;
      GetIsGetAtNearest(frames, outer, name);
      var d := Depth(frames, outer, name.lexeme);
      if d.Some? {
        assert Ancestor(frames, env, d.value + 1) == Ancestor(frames, outer, d.value);
      }
    }
  }

  /** Dynamic assignment writes exactly where exact-distance assignment at
      the distance of the nearest binding writes. */
  lemma {:induction false} AssignIsAssignAtNearest(frames: seq<Frame>, env: nat, name: Token, v: Value)
    requires WellFormed(frames) && env < |frames|
    ensures Assign(frames, env, name, v) ==
      match Depth(frames, env, name.lexeme)
      case None => Err(UndefinedVariable(name))
      case Some(d) => AssignAt(frames, env, d, name, v)
    decreases env
  {
    if name.lexeme !in frames[env].values && frames[env].enclosing.Some? {
      var outer := frames[env].enclosing.value;
      AssignIsAssignAtNearest(frames, outer, name, v);
      var d := Depth(frames, outer, name.lexeme);
      if d.Some? {
        assert Ancestor(frames, env, d.value + 1) == Ancestor(frames, outer, d.value);
      }
    }
  }

  /** A definition in a frame shadows every binding of the same name further
      out, and leaves those bindings as they were. */
  lemma DefineShadows(frames: seq<Frame>, env: nat, name: Token, v: Value)
    requires WellFormed(frames) && env < |frames|
    ensures WellFormed(Define(frames, env, name.lexeme, v))
    ensures Get(Define(frames, env, name.lexeme, v), env, name) == Ok(v)
    ensures forall i :: 0 <= i < |frames| && i != env ==> Define(frames, env, name.lexeme, v)[i] == frames[i]
  {
    SameShapeWellFormed(frames, Define(frames, env, name.lexeme, v));
  }
}
