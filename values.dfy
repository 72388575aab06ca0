/** Runtime values of Lox, runtime errors, and what the host supplies. */
module Values {
  import opened Tokens

  datatype Option<+T> = None | Some(value: T)

  /** A Lox runtime value: Java null, a Boolean, a Double, a String or a
      LoxCallable. Numbers are exact reals (Java's double rounding, NaN and
      -0.0 are not modelled); a callable is known by its identity and arity. */
  datatype Value =
    | Nil
    | Bool(b: bool)
    | Num(x: real)
    | Str(s: string)
    | Fn(id: nat, arity: nat)

  /** The five kinds of runtime error the evaluator raises. */
  datatype ErrorKind = TypeError | DivisionByZero | NotCallable | ArityMismatch | UnboundVariable

  /** A RuntimeError carries the offending token and its message. */
  datatype RuntimeError = RuntimeError(kind: ErrorKind, token: Token, message: string)

  /** A value or the RuntimeError that was thrown instead. */
  datatype Result<+T> = Ok(value: T) | Err(error: RuntimeError)

  /** What a call leaves behind: the value returned or the error thrown,
      and the globals' bindings once the body has run (a body may assign
      globals). */
  datatype CallEffect = CallEffect(result: Result<Value>, globals: map<string, Value>)

  /** What the Java host provides and this model does not define:
      Double.toString, the toString of callables, and LoxCallable.call, which
      is given the callable, the arguments and the bindings of every frame. */
  datatype Host = Host(
    numberText: real -> string,
    callableText: nat -> string,
    invoke: (nat, seq<Value>, seq<map<string, Value>>) -> CallEffect)

  /** Java's toString of a non-null runtime value ("nil" for null, which
      both callers treat separately). */
  function ValueText(h: Host, v: Value): (r: string)
    ensures v.Bool? ==> (r == "true" <==> v.b) && (r == "false" <==> !v.b)
    ensures v.Num? ==> r == h.numberText(v.x)
    ensures v.Str? ==> r == v.s
    ensures v.Fn? ==> r == h.callableText(v.id)
  {
    match v
    case Nil => "nil"
    case Bool(b) => if b then "true" else "false"
    case Num(x) => h.numberText(x)
    case Str(s) => s
    case Fn(id, _) => h.callableText(id)
  }
}
