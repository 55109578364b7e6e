/** The `eval` methods of lox/ast.py as a big-step evaluator. The mutable
    context (`ctx`) and the objects' field maps are threaded through as a
    `Store`; an exception carries the store as it was when it was raised,
    since writes made before the raise are not undone. */
module LoxEval {
  import opened LoxValues
  import opened LoxSyntax

  type Ctx = map<string, Value>
  type Fields = map<string, Value>
  type Heap = map<Ref, Fields>

  datatype Store = Store(ctx: Ctx, heap: Heap)

  datatype Outcome = Outcome(result: Result<Value>, store: Store)
  datatype ArgsOutcome = ArgsOutcome(result: Result<seq<Value>>, store: Store)

  datatype Status = Done | Failed(error: Error)
  /** What running statements did: how it ended, the store, and what `print` wrote. */
  datatype RunOutcome = RunOutcome(status: Status, store: Store, printed: seq<Value>)

  /** The field map of an object; an object never written to has none. */
  function FieldsOf(heap: Heap, r: Ref): Fields {
    if r in heap then heap[r] else map[]
  }

  /** Python's `getattr(value, attr)` on the values of the model. */
  function GetField(heap: Heap, v: Value, attr: string): (r: Result<Value>)
    ensures r.Ok? <==> v.VObj? && attr in FieldsOf(heap, v.ref)
    ensures r.Ok? ==> r.value == FieldsOf(heap, v.ref)[attr]
    ensures r.Err? ==> r.error == AttributeError(attr)
  {
    if v.VObj? && attr in FieldsOf(heap, v.ref) then Ok(FieldsOf(heap, v.ref)[attr])
    else Err(AttributeError(attr))
  }

  /** Python's `setattr(obj, attr, v)` on an object: its field map gains or
      replaces `attr`. */
  function SetField(heap: Heap, r: Ref, attr: string, v: Value): Heap {
    heap[r := FieldsOf(heap, r)[attr := v]]
  }

  /** Evaluation never unbinds a name and never forgets an object. */
  predicate Extends(st: Store, st': Store) {
    st.ctx.Keys <= st'.ctx.Keys && st.heap.Keys <= st'.heap.Keys
  }

  /** `Expr.eval(ctx)` for every node kind that has one. */
  function Evaluate(host: Host, e: Expr, st: Store): (out: Outcome)
    ensures Extends(st, out.store)
    decreases e
  {
    match e
    case Literal(v) => Outcome(Ok(v), st)
    case Var(name) =>
      if name in st.ctx then Outcome(Ok(st.ctx[name]), st)
      else Outcome(Err(NameError(name)), st)
    case BinOp(l, r, op) =>
      var a := Evaluate(host, l, st);
      if a.result.Err? then a
      else
        var b := Evaluate(host, r, a.store);
        if b.result.Err? then b
        else Outcome(host.binop(op, a.result.value, b.result.value), b.store)
    case And(l, r) =>
      var a := Evaluate(host, l, st);
      if a.result.Err? || !IsTruthy(a.result.value) then a
      else Evaluate(host, r, a.store)
    case Or(l, r) =>
      var a := Evaluate(host, l, st);
      if a.result.Err? || IsTruthy(a.result.value) then a
      else Evaluate(host, r, a.store)
    case UnaryOp(op, x) =>
      var a := Evaluate(host, x, st);
      if a.result.Err? then a
      else if IsCallable(a.result.value) then Outcome(Ok(VFn(Wrapped(op, a.result.value.fn))), a.store)
      else Outcome(ApplyUnary(op, a.result.value), a.store)
    case Call(callee, ps) =>
      var f := Evaluate(host, callee, st);
      if f.result.Err? then f
      else
        var args := EvalArgs(host, ps, f.store);
        if args.result.Err? then Outcome(Err(args.result.error), args.store)
        else if IsCallable(f.result.value) then Outcome(Invoke(host, f.result.value.fn, args.result.value), args.store)
        else Outcome(Err(TypeError(CallOfNonFunction)), args.store)
    case Assign(name, rhs) =>
      var a := Evaluate(host, rhs, st);
      if a.result.Err? then a
      else Outcome(a.result, Store(a.store.ctx[name := a.result.value], a.store.heap))
    case Getattr(obj, attr) =>
      var a := Evaluate(host, obj, st);
      if a.result.Err? then a
      else Outcome(GetField(a.store.heap, a.result.value, attr), a.store)
    case Setattr(obj, name, rhs) =>
      var t := Evaluate(host, obj, st);
      if t.result.Err? then t
      else
        var a := Evaluate(host, rhs, t.store);
        if a.result.Err? then a
        else if t.result.value.VObj? then
          Outcome(a.result, Store(a.store.ctx, SetField(a.store.heap, t.result.value.ref, name, a.result.value)))
        else Outcome(Err(AttributeError(name)), a.store)
  }

  /** `[arg.eval(ctx) for arg in params]`: left to right, stopping at the first exception. */
  function EvalArgs(host: Host, es: seq<Expr>, st: Store): (out: ArgsOutcome)
    ensures Extends(st, out.store)
    ensures out.result.Ok? ==> |out.result.value| == |es|
    decreases es
  {
    if es == [] then ArgsOutcome(Ok([]), st)
    else
      var a := Evaluate(host, es[0], st);
      if a.result.Err? then ArgsOutcome(Err(a.result.error), a.store)
      else Prefixed([a.result.value], EvalArgs(host, es[1..], a.store))
  }

  /** Puts already computed values in front of a successful argument list. */
  function Prefixed(vs: seq<Value>, o: ArgsOutcome): ArgsOutcome {
    if o.result.Ok? then ArgsOutcome(Ok(vs + o.result.value), o.store) else o
  }

  /** `Print.eval` and a bare expression statement. */
  function Execute(host: Host, s: Stmt, st: Store): (out: RunOutcome)
    ensures out.status.Done? <==> Evaluate(host, s.expr, st).result.Ok?
    ensures out.store == Evaluate(host, s.expr, st).store
    ensures out.printed == if s.Print? && out.status.Done? then [Evaluate(host, s.expr, st).result.value] else []
  {
    var a := Evaluate(host, s.expr, st);
    match a.result
    case Err(e) => RunOutcome(Failed(e), a.store, [])
    case Ok(v) => RunOutcome(Done, a.store, if s.Print? then [v] else [])
  }

  /** Output written earlier, in front of what a run wrote. */
  function AfterPrinting(printed: seq<Value>, o: RunOutcome): RunOutcome {
    o.(printed := printed + o.printed)
  }

  /** `Program.eval`: the statements in order; the first exception ends the run. */
  function RunStmts(host: Host, ss: seq<Stmt>, st: Store): (out: RunOutcome)
    ensures Extends(st, out.store)
    ensures |out.printed| <= |ss|
    decreases |ss|
  {
    if ss == [] then RunOutcome(Done, st, [])
    else
      var first := Execute(host, ss[0], st);
      if first.status.Failed? then first
      else AfterPrinting(first.printed, RunStmts(host, ss[1..], first.store))
  }
}
