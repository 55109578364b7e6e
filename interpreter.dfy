/** The evaluator as the source runs it: one mutable context shared by every
    node, objects whose fields are written in place, and `Program.eval`'s
    loop over the statements. Each method is proved against the evaluator
    of `LoxEval`. */
module LoxInterpreter {
  import opened LoxValues
  import opened LoxSyntax
  import opened LoxEval

  /** One turn of `Program.eval`'s loop: if the whole run is the output so
      far followed by the run from statement `i`, then it is the output so far
      and that statement's, followed by the run from `i + 1` unless the
      statement raised, in which case the run ends there. */
  lemma {:induction false} RunStmtsStep(host: Host, ss: seq<Stmt>, i: nat, st0: Store, printed: seq<Value>, st: Store)
    requires i < |ss|
    requires RunStmts(host, ss, st0) == AfterPrinting(printed, RunStmts(host, ss[i..], st))
    ensures var step := Execute(host, ss[i], st);
            if step.status.Failed? then RunStmts(host, ss, st0) == RunOutcome(step.status, step.store, printed)
            else RunStmts(host, ss, st0) == AfterPrinting(printed + step.printed, RunStmts(host, ss[i + 1..], step.store))
  {
    assert ss[i..][0] == ss[i] && ss[i..][1..] == ss[i + 1..];
    var step := Execute(host, ss[i], st);
    if step.status.Failed? {
      assert printed + step.printed == printed;
    } else {
      var rest := RunStmts(host, ss[i + 1..], step.store);
      assert printed + (step.printed + rest.printed) == (printed + step.printed) + rest.printed;
    }
  }

  class Interpreter {
    const host: Host
    /** The `ctx` mapping every `eval` receives. */
    var ctx: Ctx
    /** The field maps of the objects. */
    var heap: Heap
    /** What `print` has written so far. */
    var output: seq<Value>

    function Current(): Store
      reads this
    {
      Store(ctx, heap)
    }

    constructor (host: Host, globals: Ctx, objects: Heap)
      ensures this.host == host && ctx == globals && heap == objects && output == []
    {
      this.host := host;
      ctx := globals;
      heap := objects;
      output := [];
    }

    /** `e.eval(ctx)`: the value or the exception, with `ctx` and the objects
        left as the evaluator says. */
    method Eval(e: Expr) returns (r: Result<Value>)
      modifies this
      ensures Evaluate(host, e, old(Current())) == Outcome(r, Current())
      ensures output == old(output)
      decreases e
    {
      match e
      case Literal(v) =>
        r := Ok(v);
      case Var(name) =>
        if name in ctx {
          r := Ok(ctx[name]);
        } else {
          r := Err(NameError(name));
        }
      case BinOp(left, right, op) =>
        var a := Eval(left);
        if a.Err? { return a; }
        var b := Eval(right);
        if b.Err? { return b; }
        r := host.binop(op, a.value, b.value);
      case And(left, right) =>
        r := Eval(left);
        if r.Ok? && IsTruthy(r.value) {
          r := Eval(right);
        }
      case Or(left, right) =>
        r := Eval(left);
        if r.Ok? && !IsTruthy(r.value) {
          r := Eval(right);
        }
      case UnaryOp(op, right) =>
        var a := Eval(right);
        if a.Err? { return a; }
        if IsCallable(a.value) {
          r := Ok(VFn(Wrapped(op, a.value.fn)));
        } else {
          r := ApplyUnary(op, a.value);
        }
      case Call(callee, ps) =>
        var f := Eval(callee);
        if f.Err? { return f; }
        var args;
        args := EvalParams(ps);
        if args.Err? { return Err(args.error); }
        if IsCallable(f.value) {
          r := Invoke(host, f.value.fn, args.value);
        } else {
          r := Err(TypeError(CallOfNonFunction));
        }
      case Assign(name, rhs) =>
        r := Eval(rhs);
        if r.Ok? {
          ctx := ctx[name := r.value];
        }
      case Getattr(obj, attr) =>
        var a := Eval(obj);
        if a.Err? { return a; }
        r := GetField(heap, a.value, attr);
      case Setattr(obj, name, rhs) =>
        var target := Eval(obj);
        if target.Err? { return target; }
        r := Eval(rhs);
        if r.Err? { return; }
        if target.value.VObj? {
          heap := SetField(heap, target.value.ref, name, r.value);
        } else {
          r := Err(AttributeError(name));
        }
    }

    /** The argument list of a call, evaluated left to right. */
    method EvalParams(ps: seq<Expr>) returns (r: Result<seq<Value>>)
      modifies this
      ensures EvalArgs(host, ps, old(Current())) == ArgsOutcome(r, Current())
      ensures output == old(output)
      decreases ps, 0
    {
      var vals: seq<Value> := [];
      var i := 0;
      assert ps[i..] == ps;
      ghost var all := EvalArgs(host, ps, Current());
      if all.result.Ok? { assert vals + all.result.value == all.result.value; }
      while i < |ps|
        invariant 0 <= i <= |ps|
        invariant output == old(output)
        invariant EvalArgs(host, ps, old(Current())) == Prefixed(vals, EvalArgs(host, ps[i..], Current()))
      {
        ghost var before := Current();
        assert ps[i..][0] == ps[i] && ps[i..][1..] == ps[i + 1..];
        var a := Eval(ps[i]);
        if a.Err? {
          return Err(a.error);
        }
        ghost var rest := EvalArgs(host, ps[i + 1..], Current());
        if rest.result.Ok? {
          assert vals + ([a.value] + rest.result.value) == (vals + [a.value]) + rest.result.value;
        }
        vals := vals + [a.value];
        i := i + 1;
      }
      assert vals + [] == vals;
      r := Ok(vals);
    }

    /** One statement: `print` appends the value it evaluated to the output. */
    method Exec(s: Stmt) returns (status: Status)
      modifies this
      ensures var o := Execute(host, s, old(Current()));
              status == o.status && Current() == o.store && output == old(output) + o.printed
    {
      var v := Eval(s.expr);
      match v
      case Err(e) =>
        status := Failed(e);
      case Ok(x) =>
        if s.Print? {
          output := output + [x];
        }
        status := Done;
    }

    /** `Program.eval`: the statements in order, stopping at the first exception. */
    method Run(p: Program) returns (status: Status)
      modifies this
      ensures var o := RunStmts(host, p.stmts, old(Current()));
              status == o.status && Current() == o.store && output == old(output) + o.printed
    {
      ghost var printed: seq<Value> := [];
      var i := 0;
      while i < |p.stmts|
        invariant 0 <= i <= |p.stmts|
        invariant output == old(output) + printed
        invariant RunStmts(host, p.stmts, old(Current()))
               == AfterPrinting(printed, RunStmts(host, p.stmts[i..], Current()))
      {
        RunStmtsStep(host, p.stmts, i, old(Current()), printed, Current());
        ghost var step := Execute(host, p.stmts[i], Current());
        status := Exec(p.stmts[i]);
        if status.Failed? {
          return;
        }
        printed := printed + step.printed;
        i := i + 1;
      }
      assert printed + [] == printed;
      status := Done;
    }
  }
}
