/** What the evaluator of lox/ast.py promises: short-circuiting, operand
    order, names and fields, the `UnaryOp` wrapper, and statement order. */
module LoxEvalProperties {
  import opened LoxValues
  import opened LoxSyntax
  import opened LoxEval

  /** A literal yields its stored value and leaves the store alone. */
  lemma LiteralIsConstant(host: Host, v: Value, st: Store)
    ensures Evaluate(host, Literal(v), st) == Outcome(Ok(v), st)
  {
  }

  /** `And` on a falsy left operand returns that operand's own value and
      the store it left: the right operand, whatever it is, is never run. */
  lemma {:induction false} AndShortCircuits(host: Host, l: Expr, r1: Expr, r2: Expr, st: Store)
    requires Evaluate(host, l, st).result.Ok? && !IsTruthy(Evaluate(host, l, st).result.value)
    ensures Evaluate(host, And(l, r1), st) == Evaluate(host, l, st)
    ensures Evaluate(host, And(l, r1), st) == Evaluate(host, And(l, r2), st)
  {
  }

  /** `Or` on a truthy left operand returns that operand's own value without
      running the right one. */
  lemma {:induction false} OrShortCircuits(host: Host, l: Expr, r1: Expr, r2: Expr, st: Store)
    requires Evaluate(host, l, st).result.Ok? && IsTruthy(Evaluate(host, l, st).result.value)
    ensures Evaluate(host, Or(l, r1), st) == Evaluate(host, l, st)
    ensures Evaluate(host, Or(l, r1), st) == Evaluate(host, Or(l, r2), st)
  {
  }

  /** `And` on a truthy left operand is exactly the right operand's
      evaluation in the store the left one left: its value, its store and its
      exception. */
  lemma {:induction false} AndRunsRightOnTruthyLeft(host: Host, l: Expr, r: Expr, st: Store)
    requires Evaluate(host, l, st).result.Ok? && IsTruthy(Evaluate(host, l, st).result.value)
    ensures Evaluate(host, And(l, r), st) == Evaluate(host, r, Evaluate(host, l, st).store)
  {
  }

  /** `Or` on a falsy left operand is exactly the right operand's evaluation. */
  lemma {:induction false} OrRunsRightOnFalsyLeft(host: Host, l: Expr, r: Expr, st: Store)
    requires Evaluate(host, l, st).result.Ok? && !IsTruthy(Evaluate(host, l, st).result.value)
    ensures Evaluate(host, Or(l, r), st) == Evaluate(host, r, Evaluate(host, l, st).store)
  {
  }

  /** An exception of the left operand is the exception of `And` and `Or`;
      the right operand never runs. */
  lemma {:induction false} LogicalPropagatesLeftError(host: Host, l: Expr, r: Expr, st: Store)
    requires Evaluate(host, l, st).result.Err?
    ensures Evaluate(host, And(l, r), st) == Evaluate(host, l, st)
    ensures Evaluate(host, Or(l, r), st) == Evaluate(host, l, st)
  {
  }

  /** When both operands evaluate, `And` gives the left value if it is falsy
      and the right value otherwise, never a coerced boolean; so it is truthy
      exactly when both are. */
  lemma {:induction false} AndIsConjunction(host: Host, l: Expr, r: Expr, st: Store)
    requires Evaluate(host, l, st).result.Ok?
    requires Evaluate(host, r, Evaluate(host, l, st).store).result.Ok?
    ensures var a := Evaluate(host, l, st).result.value;
            var b := Evaluate(host, r, Evaluate(host, l, st).store).result.value;
            var o := Evaluate(host, And(l, r), st);
            o.result == Ok(if IsTruthy(a) then b else a)
            && (IsTruthy(o.result.value) <==> IsTruthy(a) && IsTruthy(b))
  {
  }

  /** Mirror of `AndIsConjunction`: `Or` gives the left value if it is truthy
      and the right value otherwise, so it is truthy exactly when one operand is. */
  lemma {:induction false} OrIsDisjunction(host: Host, l: Expr, r: Expr, st: Store)
    requires Evaluate(host, l, st).result.Ok?
    requires Evaluate(host, r, Evaluate(host, l, st).store).result.Ok?
    ensures var a := Evaluate(host, l, st).result.value;
            var b := Evaluate(host, r, Evaluate(host, l, st).store).result.value;
            var o := Evaluate(host, Or(l, r), st);
            o.result == Ok(if IsTruthy(a) then a else b)
            && (IsTruthy(o.result.value) <==> IsTruthy(a) || IsTruthy(b))
  {
  }

  /** `BinOp` evaluates its operands exactly as an argument list `[left, right]`
      is evaluated (both, left first, stopping at an exception) and then
      applies its operator to the two values. */
  lemma {:induction false} BinOpEvaluatesBothInOrder(host: Host, l: Expr, r: Expr, op: BinOpKind, st: Store)
    ensures var args := EvalArgs(host, [l, r], st);
            Evaluate(host, BinOp(l, r, op), st)
              == if args.result.Ok?
                 then Outcome(host.binop(op, args.result.value[0], args.result.value[1]), args.store)
                 else Outcome(Err(args.result.error), args.store)
  {
    assert [l, r][1..] == [r];
    var a := Evaluate(host, l, st);
    if a.result.Ok? {
      var b := Evaluate(host, r, a.store);
      assert [r][1..] == [];
      if b.result.Ok? { assert [b.result.value] + [] == [b.result.value]; }
      assert EvalArgs(host, [r], a.store)
          == if b.result.Ok? then ArgsOutcome(Ok([b.result.value]), b.store)
             else ArgsOutcome(Err(b.result.error), b.store);
    }
  }

  /** `Call` evaluates the callee and then the arguments exactly as the list
      `[callee] + params`; then it calls a callable, and raises TypeError for
      anything else, after the arguments have been evaluated. */
  lemma {:induction false} CallEvaluatesCalleeThenArgs(host: Host, callee: Expr, ps: seq<Expr>, st: Store)
    ensures var all := EvalArgs(host, [callee] + ps, st);
            Evaluate(host, Call(callee, ps), st)
              == if all.result.Err? then Outcome(Err(all.result.error), all.store)
                 else if IsCallable(all.result.value[0])
                 then Outcome(Invoke(host, all.result.value[0].fn, all.result.value[1..]), all.store)
                 else Outcome(Err(TypeError(CallOfNonFunction)), all.store)
  {
    assert ([callee] + ps)[0] == callee;
    assert ([callee] + ps)[1..] == ps;
    var f := Evaluate(host, callee, st);
    if f.result.Ok? {
      var rest := EvalArgs(host, ps, f.store);
      if rest.result.Ok? {
        assert ([f.result.value] + rest.result.value)[1..] == rest.result.value;
      }
    }
  }

  /** A name that is not bound raises NameError and changes nothing. */
  lemma UnboundNameRaises(host: Host, x: string, st: Store)
    requires x !in st.ctx
    ensures Evaluate(host, Var(x), st) == Outcome(Err(NameError(x)), st)
  {
  }

  /** `Assign` stores the right side's value under the name (binding it if it
      was unbound), returns it, and a following `Var` reads it back. Every
      other name keeps the value the right side left it with. */
  lemma {:induction false} AssignThenVar(host: Host, x: string, rhs: Expr, st: Store)
    requires Evaluate(host, Assign(x, rhs), st).result.Ok?
    ensures var o := Evaluate(host, Assign(x, rhs), st);
            var a := Evaluate(host, rhs, st);
            o.result == a.result
            && Evaluate(host, Var(x), o.store) == Outcome(o.result, o.store)
            && o.store.heap == a.store.heap
            && (forall y | y in a.store.ctx && y != x :: y in o.store.ctx && o.store.ctx[y] == a.store.ctx[y])
            && o.store == Store(a.store.ctx[x := a.result.value], a.store.heap)
  {
  }

  /** Expressions without `Assign` or `Setattr` leave the store unchanged. */
  lemma {:induction false} WritesNothingKeepsStore(host: Host, e: Expr, st: Store)
    requires WritesNothing(e)
    ensures Evaluate(host, e, st).store == st
    decreases e
  {
    match e
    case Literal(_) =>
    case Var(_) =>
    case BinOp(l, r, _) =>
      WritesNothingKeepsStore(host, l, st);
      WritesNothingKeepsStore(host, r, st);
    case And(l, r) =>
      WritesNothingKeepsStore(host, l, st);
      WritesNothingKeepsStore(host, r, st);
    case Or(l, r) =>
      WritesNothingKeepsStore(host, l, st);
      WritesNothingKeepsStore(host, r, st);
    case UnaryOp(_, x) =>
      WritesNothingKeepsStore(host, x, st);
    case Call(c, ps) =>
      WritesNothingKeepsStore(host, c, st);
      ArgsWritingNothingKeepStore(host, ps, st);
    case Getattr(o, _) =>
      WritesNothingKeepsStore(host, o, st);
  }

  lemma {:induction false} ArgsWritingNothingKeepStore(host: Host, es: seq<Expr>, st: Store)
    requires forall i | 0 <= i < |es| :: WritesNothing(es[i])
    ensures EvalArgs(host, es, st).store == st
    decreases es
  {
    if es != [] {
      WritesNothingKeepsStore(host, es[0], st);
      ArgsWritingNothingKeepStore(host, es[1..], st);
    }
  }

  /** A successful `obj.f = rhs` on any target: the target evaluated to an
      object, the value is the right side's, and in the store the right side
      left only field `f` of that object changes: it now holds the value,
      while the context, the object's other fields and every other object
      stay as they were. */
  lemma {:induction false} SetattrWritesOneField(host: Host, obj: Expr, f: string, rhs: Expr, st: Store)
    requires Evaluate(host, Setattr(obj, f, rhs), st).result.Ok?
    ensures var t := Evaluate(host, obj, st);
            var a := Evaluate(host, rhs, t.store);
            var o := Evaluate(host, Setattr(obj, f, rhs), st);
            t.result.Ok? && t.result.value.VObj? && a.result.Ok? && o.result == a.result
            && o.store.ctx == a.store.ctx
            && GetField(o.store.heap, t.result.value, f) == a.result
            && (forall g | g != f :: GetField(o.store.heap, t.result.value, g) == GetField(a.store.heap, t.result.value, g))
            && (forall r | r != t.result.value.ref :: FieldsOf(o.store.heap, r) == FieldsOf(a.store.heap, r))
  {
    var t := Evaluate(host, obj, st);
    if t.result.Err? {
      SetattrTargetRaises(host, obj, f, rhs, st);
      assert false;
    }
    var a := Evaluate(host, rhs, t.store);
    if a.result.Err? {
      SetattrValueRaises(host, obj, f, rhs, st);
      assert false;
    }
    if !t.result.value.VObj? {
      SetattrOnNonObjectRaises(host, obj, f, rhs, st);
      assert false;
    }
    SetattrOnObject(host, obj, f, rhs, st);
    SetFieldWritesOneField(a.store.heap, t.result.value.ref, f, a.result.value);
  }

  /** An exception from the target is the outcome of `Setattr`; the right side is never run. */
  lemma {:induction false} SetattrTargetRaises(host: Host, obj: Expr, name: string, rhs: Expr, st: Store)
    requires Evaluate(host, obj, st).result.Err?
    ensures Evaluate(host, Setattr(obj, name, rhs), st) == Evaluate(host, obj, st)
  {
  }

  /** An exception from the right side is the outcome of `Setattr`; nothing is written. */
  lemma {:induction false} SetattrValueRaises(host: Host, obj: Expr, name: string, rhs: Expr, st: Store)
    requires Evaluate(host, obj, st).result.Ok?
    requires Evaluate(host, rhs, Evaluate(host, obj, st).store).result.Err?
    ensures Evaluate(host, Setattr(obj, name, rhs), st) == Evaluate(host, rhs, Evaluate(host, obj, st).store)
  {
  }

  /** `Setattr` on an object whose right side evaluates: the field write. */
  lemma {:induction false} SetattrOnObject(host: Host, obj: Expr, name: string, rhs: Expr, st: Store)
    requires var t := Evaluate(host, obj, st);
             t.result.Ok? && t.result.value.VObj? && Evaluate(host, rhs, t.store).result.Ok?
    ensures var t := Evaluate(host, obj, st);
            var a := Evaluate(host, rhs, t.store);
            Evaluate(host, Setattr(obj, name, rhs), st)
            == Outcome(a.result, Store(a.store.ctx, SetField(a.store.heap, t.result.value.ref, name, a.result.value)))
  {
  }

  /** `setattr` on an object: the field now holds the value, while the
      object's other fields and every other object are untouched. */
  lemma SetFieldWritesOneField(heap: Heap, r: Ref, attr: string, v: Value)
    ensures var h := SetField(heap, r, attr, v);
            GetField(h, VObj(r), attr) == Ok(v)
            && (forall g | g != attr :: GetField(h, VObj(r), g) == GetField(heap, VObj(r), g))
            && (forall q | q != r :: FieldsOf(h, q) == FieldsOf(heap, q))
  {
  }

  /** The read-back for a variable target: after `x.f = rhs` succeeds, `x.f` reads back the value it returned,
      provided `rhs` writes nothing (so `x` still names the same object). */
  lemma {:induction false} SetattrThenGetattr(host: Host, x: string, f: string, rhs: Expr, st: Store)
    requires WritesNothing(rhs)
    requires Evaluate(host, Setattr(Var(x), f, rhs), st).result.Ok?
    ensures var o := Evaluate(host, Setattr(Var(x), f, rhs), st);
            o.result == Evaluate(host, rhs, st).result
            && Evaluate(host, Getattr(Var(x), f), o.store) == Outcome(o.result, o.store)
  {
    WritesNothingKeepsStore(host, rhs, st);
    SetattrWritesOneField(host, Var(x), f, rhs, st);
  }

  /** `Getattr` of an attribute the value does not have raises AttributeError. */
  lemma {:induction false} MissingAttributeRaises(host: Host, obj: Expr, attr: string, st: Store)
    requires Evaluate(host, obj, st).result.Ok?
    requires var o := Evaluate(host, obj, st);
             !o.result.value.VObj? || attr !in FieldsOf(o.store.heap, o.result.value.ref)
    ensures Evaluate(host, Getattr(obj, attr), st).result == Err(AttributeError(attr))
  {
  }

  /** `Setattr` on anything but an object raises AttributeError, but only after
      both the target and the value have been evaluated. */
  lemma {:induction false} SetattrOnNonObjectRaises(host: Host, obj: Expr, name: string, rhs: Expr, st: Store)
    requires Evaluate(host, obj, st).result.Ok? && !Evaluate(host, obj, st).result.value.VObj?
    requires Evaluate(host, rhs, Evaluate(host, obj, st).store).result.Ok?
    ensures Evaluate(host, Setattr(obj, name, rhs), st)
         == Outcome(Err(AttributeError(name)), Evaluate(host, rhs, Evaluate(host, obj, st).store).store)
  {
  }

  /** `UnaryOp` on a callable calls nothing: it yields, in the operand's
      store, a new callable whose result on any arguments is the operator
      applied to the wrapped callable's result on the same arguments. */
  lemma {:induction false} UnaryOpOnCallableDefers(host: Host, op: UnOp, x: Expr, st: Store)
    requires Evaluate(host, x, st).result.Ok? && IsCallable(Evaluate(host, x, st).result.value)
    ensures var o := Evaluate(host, UnaryOp(op, x), st);
            var c := Evaluate(host, x, st).result.value.fn;
            o.store == Evaluate(host, x, st).store
            && o.result.Ok? && IsCallable(o.result.value)
            && forall args :: Invoke(host, o.result.value.fn, args) == Lift(op, Invoke(host, c, args))
  {
  }

  /** `UnaryOp` on any other value applies the operator at once. */
  lemma {:induction false} UnaryOpOnValueApplies(host: Host, op: UnOp, x: Expr, st: Store)
    requires Evaluate(host, x, st).result.Ok? && !IsCallable(Evaluate(host, x, st).result.value)
    ensures Evaluate(host, UnaryOp(op, x), st)
         == Outcome(ApplyUnary(op, Evaluate(host, x, st).result.value), Evaluate(host, x, st).store)
  {
  }

  /** Arguments are evaluated in list order: the list `xs + ys` evaluates as
      `xs` followed by `ys` in the store `xs` left, and `ys` is not touched
      when `xs` raises. */
  lemma {:induction false} EvalArgsAppend(host: Host, xs: seq<Expr>, ys: seq<Expr>, st: Store)
    ensures var a := EvalArgs(host, xs, st);
            EvalArgs(host, xs + ys, st)
              == if a.result.Err? then a else Prefixed(a.result.value, EvalArgs(host, ys, a.store))
    decreases xs
  {
    if xs == [] {
      assert xs + ys == ys;
      var b := EvalArgs(host, ys, st);
      if b.result.Ok? { assert [] + b.result.value == b.result.value; }
    } else {
      assert (xs + ys)[0] == xs[0];
      assert (xs + ys)[1..] == xs[1..] + ys;
      var h := Evaluate(host, xs[0], st);
      if h.result.Ok? {
        EvalArgsAppend(host, xs[1..], ys, h.store);
        var t := EvalArgs(host, xs[1..], h.store);
        if t.result.Ok? {
          var b := EvalArgs(host, ys, t.store);
          if b.result.Ok? {
            assert [h.result.value] + (t.result.value + b.result.value)
                == ([h.result.value] + t.result.value) + b.result.value;
          }
        }
      }
    }
  }

  /** Statements run in order: `xs + ys` runs `xs`, then `ys` from the store
      `xs` left, with the output of both in order; when a statement of `xs`
      raises, nothing of `ys` runs. */
  lemma {:induction false} RunStmtsAppend(host: Host, xs: seq<Stmt>, ys: seq<Stmt>, st: Store)
    ensures var a := RunStmts(host, xs, st);
            RunStmts(host, xs + ys, st)
              == if a.status.Failed? then a else AfterPrinting(a.printed, RunStmts(host, ys, a.store))
    decreases |xs|
  {
    if xs == [] {
      assert xs + ys == ys;
      var b := RunStmts(host, ys, st);
      assert b.(printed := [] + b.printed) == b;
    } else {
      assert (xs + ys)[0] == xs[0];
      assert (xs + ys)[1..] == xs[1..] + ys;
      var h := Execute(host, xs[0], st);
      if h.status.Done? {
        RunStmtsAppend(host, xs[1..], ys, h.store);
        var t := RunStmts(host, xs[1..], h.store);
        if t.status.Done? {
          var b := RunStmts(host, ys, t.store);
          assert h.printed + (t.printed + b.printed) == (h.printed + t.printed) + b.printed;
        }
      }
    }
  }

  /** A program without `print` prints nothing. */
  lemma {:induction false} NoPrintPrintsNothing(host: Host, ss: seq<Stmt>, st: Store)
    ensures (forall i | 0 <= i < |ss| :: !ss[i].Print?) ==> RunStmts(host, ss, st).printed == []
    decreases |ss|
  {
    if ss != [] {
      NoPrintPrintsNothing(host, ss[1..], Execute(host, ss[0], st).store);
    }
  }

  /** `x = e; print x;` prints the value of `e`. */
  lemma {:induction false} AssignThenPrint(host: Host, x: string, e: Expr, st: Store)
    requires Evaluate(host, e, st).result.Ok?
    ensures RunStmts(host, [ExprStmt(Assign(x, e)), Print(Var(x))], st).status == Done
    ensures RunStmts(host, [ExprStmt(Assign(x, e)), Print(Var(x))], st).printed
         == [Evaluate(host, e, st).result.value]
  {
    var ss := [ExprStmt(Assign(x, e)), Print(Var(x))];
    var v := Evaluate(host, e, st).result.value;
    var first := Execute(host, ss[0], st);
    assert first.status == Done && first.printed == [];
    var second := Execute(host, Print(Var(x)), first.store);
    assert second == RunOutcome(Done, first.store, [v]);
    assert ss[1..] == [Print(Var(x))];
    assert [Print(Var(x))][1..] == [];
    assert RunStmts(host, [Print(Var(x))], first.store) == RunOutcome(Done, first.store, [v] + []);
  }
}
