/** Runtime values of the Lox evaluator, truthiness, the unary operators and
    the callables the evaluator can invoke (lox/ast.py). */
module LoxValues {

  /** Reference to an object (an instance with a mutable field map). */
  type Ref = nat

  /** The two prefix operators the tree builder ever creates. The source
      recognises them by identity with the runtime's `neg` and `not_`. */
  datatype UnOp = Neg | Not

  /** The binary operators of the operator table: `mul`, `truediv`, `sub`,
      `add` and the six comparisons. */
  datatype BinOpKind = Mul | TrueDiv | Sub | Add | Gt | Lt | Ge | Le | Eq | Ne

  /** A callable value: a host-provided function, or the wrapper that a
      `UnaryOp` builds around a callable operand. */
  datatype Callable =
    | Native(id: nat)
    | Wrapped(op: UnOp, inner: Callable)

  /** Values: the literal kinds (None, bool, float, str), callables and objects. */
  datatype Value =
    | VNil
    | VBool(b: bool)
    | VNum(n: real)
    | VStr(s: string)
    | VFn(fn: Callable)
    | VObj(ref: Ref)

  /** The two TypeErrors the evaluator itself raises. */
  datatype TypeErrorKind = OperandNotNumber | CallOfNonFunction

  /** The exceptions evaluation can raise. `Raised` is any other exception a
      host function raises, named by its class. */
  datatype Error =
    | NameError(name: string)
    | TypeError(kind: TypeErrorKind)
    | AttributeError(attr: string)
    | Raised(exception: string)

  datatype Result<T> = Ok(value: T) | Err(error: Error)

  /** The host runtime the evaluator calls into: the binary operator
      functions of the operator table and the native callables. */
  datatype Host = Host(
    binop: (BinOpKind, Value, Value) -> Result<Value>,
    native: (nat, seq<Value>) -> Result<Value>)

  /** Lox truthiness: only `false` and `nil` are falsy. */
  predicate IsTruthy(v: Value)
    ensures !IsTruthy(v) <==> v == VBool(false) || v == VNil
  {
    match v
    case VBool(b) => b
    case VNil => false
    case _ => true
  }

  /** Python's `callable(v)`. */
  predicate IsCallable(v: Value)
    ensures IsCallable(v) ==> IsTruthy(v)
  {
    v.VFn?
  }

  /** `UnaryOp._apply`: `neg` accepts numbers and booleans (a Python bool is
      an int, so `-True` is `-1`) and raises TypeError otherwise; `not`
      negates truthiness, computed inline as the source does. */
  function ApplyUnary(op: UnOp, v: Value): (r: Result<Value>)
    ensures op == Not ==> r == Ok(VBool(!IsTruthy(v)))
    ensures op == Neg ==> (r.Ok? <==> v.VNum? || v.VBool?)
    ensures op == Neg && r.Ok? ==> r.value.VNum?
    ensures op == Neg && v.VNum? ==> r == Ok(VNum(-v.n))
    ensures op == Neg && v.VBool? ==> r == Ok(VNum(if v.b then -1.0 else 0.0))
    ensures op == Neg && r.Err? ==> r.error == TypeError(OperandNotNumber)
  {
    match op
    case Neg =>
      (match v
       case VNum(x) => Ok(VNum(-x))
       case VBool(b) => Ok(VNum(if b then -1.0 else 0.0))
       case _ => Err(TypeError(OperandNotNumber)))
    case Not =>
      var truthy := v != VBool(false) && v != VNil;
      Ok(VBool(!truthy))
  }

  /** The wrapper's result: the operator applied to the wrapped call's result,
      or that call's exception unchanged. */
  function Lift(op: UnOp, r: Result<Value>): (l: Result<Value>)
    ensures r.Err? ==> l == r
    ensures r.Ok? && op == Not ==> l == Ok(VBool(!IsTruthy(r.value)))
    ensures r.Ok? && l.Err? ==> op == Neg && l.error == TypeError(OperandNotNumber)
    ensures r.Ok? && op == Neg ==> (l.Ok? <==> r.value.VNum? || r.value.VBool?)
    ensures r.Ok? && op == Neg && r.value.VNum? ==> l == Ok(VNum(-r.value.n))
    ensures r.Ok? && op == Neg && r.value.VBool? ==> l == Ok(VNum(if r.value.b then -1.0 else 0.0))
  {
    match r
    case Ok(v) => ApplyUnary(op, v)
    case Err(e) => Err(e)
  }

  /** `fn(*args)` for a callable value. A wrapper calls the callable it wraps
      with the same arguments and then applies its operator to the result. */
  function Invoke(host: Host, c: Callable, args: seq<Value>): (r: Result<Value>)
    ensures c.Wrapped? && c.op == Not && r.Ok? ==> r.value.VBool?
    ensures c.Wrapped? && c.op == Neg && r.Ok? ==> r.value.VNum?
    decreases c
  {
    match c
    case Native(id) => host.native(id, args)
    case Wrapped(op, inner) => Lift(op, Invoke(host, inner, args))
  }

  /** Two `not` wrappers turn any call result into its truthiness. */
  lemma {:induction false} DoubleNotIsTruthiness(host: Host, c: Callable, args: seq<Value>)
    requires Invoke(host, c, args).Ok?
    ensures Invoke(host, Wrapped(Not, Wrapped(Not, c)), args)
         == Ok(VBool(IsTruthy(Invoke(host, c, args).value)))
  {
    var v := Invoke(host, c, args).value;
    assert Invoke(host, Wrapped(Not, c), args) == Ok(VBool(!IsTruthy(v)));
  }

  /** The truthiness table: `0`, `""` and callables are truthy, as is any object. */
  lemma TruthinessTable(c: Callable, r: Ref)
    ensures IsTruthy(VNum(0.0)) && IsTruthy(VStr("")) && IsTruthy(VFn(c)) && IsTruthy(VObj(r))
    ensures IsTruthy(VBool(true)) && !IsTruthy(VBool(false)) && !IsTruthy(VNil)
  {
  }
}
