/** How the tree-building rules of lox/transformer.py and the evaluator of
    lox/ast.py fit together, above all the rewrite of `-f(x)` and `!f(x)`
    into a call of a wrapped callee. */
module RewriteSemantics {
  import opened LoxValues
  import opened LoxSyntax
  import opened LoxEval
  import opened LoxTransformer

  /** The operator applied to an evaluation's value; an exception passes through. */
  function LiftOutcome(op: UnOp, o: Outcome): Outcome {
    Outcome(Lift(op, o.result), o.store)
  }

  /** When the callee evaluates to a callable or raises, the rewritten `op f(args)`
      evaluates to the operator applied to the result of `f(args)`, with the
      same effects on the store and the same exceptions. */
  lemma {:induction false} PrefixRuleAppliesToCallResult(host: Host, op: UnOp, f: Expr, args: seq<Expr>, st: Store)
    requires Evaluate(host, f, st).result.Err? || IsCallable(Evaluate(host, f, st).result.value)
    ensures Evaluate(host, PrefixRule(op, Call(f, args)), st) == LiftOutcome(op, Evaluate(host, Call(f, args), st))
  {
    var fo := Evaluate(host, f, st);
    if fo.result.Ok? {
      assert Evaluate(host, UnaryOp(op, f), st) == Outcome(Ok(VFn(Wrapped(op, fo.result.value.fn))), fo.store);
    }
  }

  /** In particular `-f(x)` is the negation of `f(x)` whenever `f(x)` yields
      a number, and `!f(x)` is `true` exactly when `f(x)` yields a falsy value. */
  lemma {:induction false} RewrittenNegAndNot(host: Host, f: Expr, args: seq<Expr>, st: Store)
    requires Evaluate(host, f, st).result.Ok? && IsCallable(Evaluate(host, f, st).result.value)
    requires Evaluate(host, Call(f, args), st).result.Ok?
    ensures var v := Evaluate(host, Call(f, args), st).result.value;
            (v.VNum? ==> Evaluate(host, PrefixRule(Neg, Call(f, args)), st).result == Ok(VNum(-v.n)))
            && Evaluate(host, PrefixRule(Not, Call(f, args)), st).result == Ok(VBool(!IsTruthy(v)))
  {
    PrefixRuleAppliesToCallResult(host, Neg, f, args, st);
    PrefixRuleAppliesToCallResult(host, Not, f, args, st);
  }

  /** The rewrite agrees with a plain `UnaryOp` around the call whenever the
      callee is callable and the call does not itself return a callable. */
  lemma {:induction false} PrefixRuleAgreesWithUnaryOp(host: Host, op: UnOp, f: Expr, args: seq<Expr>, st: Store)
    requires Evaluate(host, f, st).result.Ok? && IsCallable(Evaluate(host, f, st).result.value)
    requires var c := Evaluate(host, Call(f, args), st).result; c.Ok? ==> !IsCallable(c.value)
    ensures Evaluate(host, PrefixRule(op, Call(f, args)), st) == Evaluate(host, UnaryOp(op, Call(f, args)), st)
  {
    PrefixRuleAppliesToCallResult(host, op, f, args, st);
  }

  /** On a callee that is not callable, both the rewritten and the plain form
      raise TypeError once the arguments evaluate. */
  lemma {:induction false} PrefixRuleOnNonCallableRaises(host: Host, op: UnOp, f: Expr, args: seq<Expr>, st: Store)
    requires Evaluate(host, f, st).result.Ok? && !IsCallable(Evaluate(host, f, st).result.value)
    requires EvalArgs(host, args, Evaluate(host, f, st).store).result.Ok?
    ensures Evaluate(host, PrefixRule(op, Call(f, args)), st).result.Err?
    ensures Evaluate(host, PrefixRule(op, Call(f, args)), st).result.error.TypeError?
    ensures Evaluate(host, UnaryOp(op, Call(f, args)), st).result == Err(TypeError(CallOfNonFunction))
  {
    var fo := Evaluate(host, f, st);
    var u := ApplyUnary(op, fo.result.value);
    assert Evaluate(host, UnaryOp(op, f), st) == Outcome(u, fo.store);
    if u.Ok? {
      assert !IsCallable(u.value);
    }
  }

  /** The rewrite checks the operand before the arguments run: `-"s"(y)` with
      `y` unbound raises the operand TypeError, while the call it replaces
      would have raised NameError for `y` first. */
  lemma RewriteChecksOperandBeforeArguments(host: Host)
    ensures var e := Call(Literal(VStr("s")), [Var("y")]);
            var st := Store(map[], map[]);
            Evaluate(host, PrefixRule(Neg, e), st).result == Err(TypeError(OperandNotNumber))
            && Evaluate(host, UnaryOp(Neg, e), st).result == Err(NameError("y"))
  {
    var st := Store(map[], map[]);
    assert EvalArgs(host, [Var("y")], st).result == Err(NameError("y"));
  }

  /** `-sqrt(9)` with a host whose native `sqrt` maps 9 to 3 evaluates to -3. */
  lemma NegatedNativeCall(host: Host, sqrt: nat)
    requires host.native(sqrt, [VNum(9.0)]) == Ok(VNum(3.0))
    ensures var st := Store(map["sqrt" := VFn(Native(sqrt))], map[]);
            var e := PrefixRule(Neg, CallRule(VarToken("sqrt"), ParamsRule([Literal(VNum(9.0))])));
            Evaluate(host, e, st) == Outcome(Ok(VNum(-3.0)), st)
  {
    var st := Store(map["sqrt" := VFn(Native(sqrt))], map[]);
    assert [Literal(VNum(9.0))][1..] == [];
    assert EvalArgs(host, [Literal(VNum(9.0))], st) == ArgsOutcome(Ok([VNum(9.0)] + []), st);
    assert [VNum(9.0)] + [] == [VNum(9.0)];
    assert Evaluate(host, Var("sqrt"), st) == Outcome(Ok(VFn(Native(sqrt))), st);
    assert Evaluate(host, UnaryOp(Neg, Var("sqrt")), st) == Outcome(Ok(VFn(Wrapped(Neg, Native(sqrt)))), st);
    assert Invoke(host, Wrapped(Neg, Native(sqrt)), [VNum(9.0)]) == Ok(VNum(-3.0));
  }

  /** A binary rule evaluates both children, left first, and applies the
      operator its rule name stands for. */
  lemma {:induction false} BinaryRuleEvaluation(host: Host, rule: string, l: Expr, r: Expr, st: Store)
    requires rule in OperatorTable
    requires Evaluate(host, l, st).result.Ok?
    requires Evaluate(host, r, Evaluate(host, l, st).store).result.Ok?
    ensures var a := Evaluate(host, l, st);
            var b := Evaluate(host, r, a.store);
            Evaluate(host, BinaryRule(rule, l, r), st)
              == Outcome(host.binop(OperatorTable[rule], a.result.value, b.result.value), b.store)
  {
  }

  /** A quoted string token evaluates to its unquoted text. */
  lemma {:induction false} StringTokenEvaluates(host: Host, s: string, st: Store)
    ensures Evaluate(host, StringToken("\"" + s + "\""), st) == Outcome(Ok(VStr(s)), st)
  {
    StringTokenUnquotes(s);
  }

  /** `nil` and every boolean token other than `true` evaluate to a falsy
      value; `true` to a truthy one. None of them touches the store. */
  lemma {:induction false} TokenTruthiness(host: Host, token: string, st: Store)
    ensures Evaluate(host, NilToken(), st).store == st && Evaluate(host, BoolToken(token), st).store == st
    ensures Evaluate(host, NilToken(), st).result.Ok? && !IsTruthy(Evaluate(host, NilToken(), st).result.value)
    ensures Evaluate(host, BoolToken(token), st).result.Ok?
    ensures IsTruthy(Evaluate(host, BoolToken(token), st).result.value) <==> token == "true"
  {
    var v := BoolToken(token).value;
    assert Evaluate(host, BoolToken(token), st) == Outcome(Ok(v), st);
  }
}
