# Lox expression evaluator — a Dafny model

This project models the evaluator of a small Lox interpreter written in Python
(`lox/ast.py`) and the rules that build its syntax tree from parse results
(`lox/transformer.py`), and proves what they promise.

- `values.dfy` (module `LoxValues`): runtime values (nil, booleans, numbers,
  strings, callables, objects), Lox truthiness, the two prefix operators
  (`UnaryOp._apply`), and callables. A callable is either a host-provided
  native or the wrapper that `UnaryOp` builds around a callable operand.
- `syntax.dfy` (module `LoxSyntax`): the node kinds that have an `eval`.
  `ExprStmt` stands for an expression placed directly in a program's
  statement list, which `Program.eval` evaluates for its effect.
- `eval.dfy` (module `LoxEval`): every `eval` as one big-step function
  `Evaluate`. It threads a `Store` holding the shared name→value context and
  the objects' field maps. An exception keeps the store as it was when the
  exception was raised, because Python does not undo earlier writes.
  `Call` evaluates every argument before it rejects a callee that is not
  callable, as the code does.
- `properties.dfy` (module `LoxEvalProperties`): what the evaluator promises.
  This covers short-circuiting, left-to-right operand order, names and
  fields, the deferred `UnaryOp` wrapper, and statement order.
- `interpreter.dfy` (module `LoxInterpreter`): the evaluator in its
  imperative form. The class `Interpreter` has mutable `ctx`, `heap` and
  `output` fields. `Assign` and `Setattr` write those fields in place.
  `Program.eval` and the argument list of a call are loops. Each method is
  proved equal to `Evaluate`, `EvalArgs`, `Execute` or `RunStmts`.
- `transformer.dfy` (module `LoxTransformer`): the tree-building rules,
  the operator table, and the token converters.
- `rewrite.dfy` (module `RewriteSemantics`): how the rules and the
  evaluator fit together. The main result is that the rewrite of `-f(x)`
  into `(-f)(x)` evaluates to the negation of `f(x)`.

The binary operators and the native functions belong to the `runtime`
module, which is not part of this model. They are a `Host` record of two
total functions that the evaluator takes as a parameter. Every lemma holds
for every host.

Where standard Lox and the code disagree, the model follows the code:
- `Assign` binds a name that was never bound. It does not raise for an
  undeclared name.
- `neg` accepts booleans, because a Python `bool` is an `int`. So `-true`
  gives `-1`.

The lemma `RewriteChecksOperandBeforeArguments` records a consequence of the
`neg`/`not_` rewrite. In `-"s"(y)` the operand check now runs before the
arguments. So the rewritten tree raises the operand TypeError, where the call
it replaces would first have raised NameError for an unbound `y`.

## Model

| member | source | states |
|---|---|---|
| `LoxValues.IsTruthy` | lox/ast.py:134-138 | a value is falsy exactly when it is `false` or `nil` |
| `LoxValues.TruthinessTable` | lox/ast.py:134-138 | `0`, `""`, callables and objects are truthy; `false` and `nil` are not |
| `LoxValues.ApplyUnary` | lox/ast.py:190-200 | `not` gives the negated truthiness; `neg` succeeds exactly on numbers and booleans, negates numbers, and otherwise raises the operand TypeError |
| `LoxValues.IsCallable` | lox/ast.py:205 | `callable(v)`, also the test of `Call` at lox/ast.py:227: a callable value is truthy |
| `LoxValues.Lift` | lox/ast.py:206-207 | the wrapper passes an exception of the wrapped call through unchanged, gives the negated truthiness for `not`, gives `-n` for a number `n` and `-1`/`0` for a boolean under `neg`, succeeds under `neg` exactly for numbers and booleans, and can only fail on its own with the `neg` operand TypeError |
| `LoxValues.Invoke` | lox/ast.py:205-208 | a `not` wrapper only ever returns a boolean and a `neg` wrapper only a number |
| `LoxValues.DoubleNotIsTruthiness` | lox/ast.py:196-208 | two nested `not` wrappers turn any call result into its truthiness |
| `LoxEval.GetField` | lox/ast.py:277-282 | attribute lookup succeeds exactly on an object that has the field and returns it; otherwise it raises AttributeError naming the attribute |
| `LoxEval.Evaluate` | lox/ast.py:98-300 | evaluation never unbinds a name and never drops an object |
| `LoxEval.EvalArgs` | lox/ast.py:225 | argument evaluation never unbinds a name; on success it yields one value per argument |
| `LoxEval.Execute` | lox/ast.py:315-316 | a statement succeeds exactly when its expression does; `print` outputs that value and a bare expression outputs nothing |
| `LoxEval.RunStmts` | lox/ast.py:78-80 | running statements never unbinds a name or drops an object, and outputs at most one value per statement |
| `LoxEvalProperties.LiteralIsConstant` | lox/ast.py:130-131 | a literal yields its stored value and leaves the store unchanged |
| `LoxEvalProperties.AndShortCircuits` | lox/ast.py:152-157 | on a falsy left value `And` returns the left value and store, whatever the right operand is |
| `LoxEvalProperties.OrShortCircuits` | lox/ast.py:170-175 | on a truthy left value `Or` returns the left value and store, whatever the right operand is |
| `LoxEvalProperties.AndRunsRightOnTruthyLeft` | lox/ast.py:152-157 | on a truthy left value `And` is exactly the right operand's evaluation in the store the left one left: its value, store and exception |
| `LoxEvalProperties.OrRunsRightOnFalsyLeft` | lox/ast.py:170-175 | on a falsy left value `Or` is exactly the right operand's evaluation in the store the left one left |
| `LoxEvalProperties.LogicalPropagatesLeftError` | lox/ast.py:152-175 | an exception of the left operand is the outcome of `And` and of `Or`, and the right operand never runs |
| `LoxEvalProperties.AndIsConjunction` | lox/ast.py:152-157 | when both operands evaluate, `And` gives the left value if it is falsy and the right value otherwise, never a coerced boolean, and is truthy exactly when both operands are |
| `LoxEvalProperties.OrIsDisjunction` | lox/ast.py:170-175 | when both operands evaluate, `Or` gives the left value if it is truthy and the right value otherwise, and is truthy exactly when one operand is |
| `LoxEvalProperties.BinOpEvaluatesBothInOrder` | lox/ast.py:98-99 | `BinOp` evaluates its operands like the argument list `[left, right]`, then applies its operator to both values |
| `LoxEvalProperties.CallEvaluatesCalleeThenArgs` | lox/ast.py:223-229 | `Call` evaluates like the list `[callee] + params`, then calls a callable or raises TypeError, after the arguments have run |
| `LoxEvalProperties.UnboundNameRaises` | lox/ast.py:112-116 | a `Var` of an unbound name raises NameError and changes nothing |
| `LoxEvalProperties.AssignThenVar` | lox/ast.py:260-264 | `Assign` returns the right side's value, a later `Var` of the name reads it back, the new store is the right side's store with only that name bound to the value: other names keep their values, no other name becomes bound, and the objects are untouched |
| `LoxEvalProperties.WritesNothingKeepsStore` | lox/ast.py:260-300 | only `Assign` and `Setattr` write: an expression without them leaves the store unchanged |
| `LoxEvalProperties.ArgsWritingNothingKeepStore` | lox/ast.py:225 | an argument list without `Assign` or `Setattr` leaves the store unchanged |
| `LoxEvalProperties.SetattrWritesOneField` | lox/ast.py:296-300 | `obj.f = e` on any target succeeds only when the target is an object and both sides evaluate; it returns `e`'s value, keeps the context `e` left, and changes only field `f` of that object, which now holds the value |
| `LoxEvalProperties.SetattrTargetRaises` | lox/ast.py:296-297 | an exception of the target is the outcome of `Setattr`, and the right side never runs |
| `LoxEvalProperties.SetattrValueRaises` | lox/ast.py:296-298 | an exception of the right side is the outcome of `Setattr`, and nothing is written |
| `LoxEvalProperties.SetattrOnObject` | lox/ast.py:296-300 | on an object target whose right side evaluates, `Setattr` returns the value and writes it into the object's field in the store the right side left |
| `LoxEvalProperties.SetFieldWritesOneField` | lox/ast.py:299 | `setattr` on an object makes the field hold the value and leaves the object's other fields and every other object unchanged |
| `LoxEvalProperties.SetattrThenGetattr` | lox/ast.py:277-300 | for a variable target whose right side writes nothing, after `x.f = e` succeeds it returns `e`'s value and `x.f` reads that value back |
| `LoxEvalProperties.MissingAttributeRaises` | lox/ast.py:277-282 | `Getattr` of a missing attribute raises AttributeError |
| `LoxEvalProperties.SetattrOnNonObjectRaises` | lox/ast.py:296-300 | `Setattr` on a non-object raises AttributeError, after both target and value have been evaluated |
| `LoxEvalProperties.UnaryOpOnCallableDefers` | lox/ast.py:202-208 | `UnaryOp` on a callable calls nothing; it returns a callable whose result on any arguments is the operator applied to the wrapped result |
| `LoxEvalProperties.UnaryOpOnValueApplies` | lox/ast.py:202-210 | `UnaryOp` on a non-callable applies the operator at once |
| `LoxEvalProperties.EvalArgsAppend` | lox/ast.py:225 | arguments run in list order; an exception stops the rest of the list |
| `LoxEvalProperties.RunStmtsAppend` | lox/ast.py:78-80 | statements run in order, output accumulates in order, and the first exception stops the program |
| `LoxEvalProperties.NoPrintPrintsNothing` | lox/ast.py:78-80 | a program without `print` prints nothing |
| `LoxEvalProperties.AssignThenPrint` | lox/ast.py:260-264 | `x = e; print x;` outputs the value of `e` |
| `LoxInterpreter.Interpreter.Eval` | lox/ast.py:98-300 | evaluation on the mutable context and objects leaves exactly the result and state that `Evaluate` gives |
| `LoxInterpreter.Interpreter.EvalParams` | lox/ast.py:225 | the argument loop yields exactly what `EvalArgs` gives |
| `LoxInterpreter.Interpreter.Exec` | lox/ast.py:315-316 | one statement; `print` appends its value to the output |
| `LoxInterpreter.RunStmtsStep` | lox/ast.py:79-80 | one turn of the statement loop: the run so far is followed by the next statement, and the run ends there if it raised |
| `LoxInterpreter.Interpreter.Run` | lox/ast.py:78-80 | the statement loop ends with the status, state and output `RunStmts` gives |
| `LoxTransformer.RuleOf` | lox/transformer.py:36-48 | every operator has a rule in the operator table that builds it |
| `LoxTransformer.RuleOfInvertsTable` | lox/transformer.py:36-48 | distinct rules build distinct operators, so the table is a bijection |
| `LoxTransformer.BinaryRule` | lox/transformer.py:17-27 | a binary rule builds a `BinOp` of its two children in order, with the operator of that rule |
| `LoxTransformer.OrRule` | lox/transformer.py:51-52 | `or_` builds `Or` of the children in order |
| `LoxTransformer.AndRule` | lox/transformer.py:54-55 | `and_` builds `And` of the children in order |
| `LoxTransformer.PrefixRule` | lox/transformer.py:57-65 | on a call, the operator moves onto the callee and the parameters are kept; on anything else it builds `UnaryOp` |
| `LoxTransformer.AssignRule` | lox/transformer.py:68-69 | `assign` keeps only the variable's name and the value subtree |
| `LoxTransformer.SetattrRule` | lox/transformer.py:72-73 | `setattr` keeps the object and value subtrees and only the attribute's name |
| `LoxTransformer.GetattrRule` | lox/transformer.py:76-77 | `getattr` keeps the object subtree and only the attribute's name |
| `LoxTransformer.CallRule` | lox/transformer.py:79-80 | `call` keeps the callee and the parameter list |
| `LoxTransformer.ParamsRule` | lox/transformer.py:82-83 | `params` returns the arguments in order |
| `LoxTransformer.ProgramRule` | lox/transformer.py:33-34 | `program` keeps every statement, in order |
| `LoxTransformer.PrintRule` | lox/transformer.py:86-87 | `print_cmd` builds `Print` of its expression |
| `LoxTransformer.VarToken` | lox/transformer.py:89-90 | `VAR` builds a `Var` of the token text |
| `LoxTransformer.DropEnds` | lox/transformer.py:96 | `s[1:-1]` drops the first and last characters, or is empty below two characters |
| `LoxTransformer.StringToken` | lox/transformer.py:95-96 | `STRING` yields a string literal that, put back between the token's first and last characters, is the token |
| `LoxTransformer.StringTokenUnquotes` | lox/transformer.py:95-96 | a quoted token unquotes to its contents |
| `LoxTransformer.NilToken` | lox/transformer.py:98-99 | `NIL` builds the literal `nil`, whatever the token |
| `LoxTransformer.BoolToken` | lox/transformer.py:101-102 | `BOOL` is `true` exactly for the token `true` and `false` for any other token |
| `LoxTransformer.BoolTokenRoundTrip` | lox/transformer.py:101-102 | the text of a boolean reads back as that boolean |
| `RewriteSemantics.PrefixRuleAppliesToCallResult` | lox/transformer.py:57-65 | for a callee that evaluates to a callable or raises, the rewritten `op f(args)` evaluates to the operator applied to `f(args)`, with the same store and exceptions |
| `RewriteSemantics.RewrittenNegAndNot` | lox/transformer.py:62-64 | rewritten `-f(x)` is the negation of a numeric `f(x)`; rewritten `!f(x)` is its negated truthiness |
| `RewriteSemantics.PrefixRuleAgreesWithUnaryOp` | lox/transformer.py:57-65 | the rewrite agrees with a plain `UnaryOp` around the call when the callee is callable and the call does not return a callable |
| `RewriteSemantics.PrefixRuleOnNonCallableRaises` | lox/transformer.py:57-65 | with a non-callable callee, once the arguments evaluate, both forms raise TypeError |
| `RewriteSemantics.RewriteChecksOperandBeforeArguments` | lox/transformer.py:62-64 | the rewritten form checks the operand before the arguments run |
| `RewriteSemantics.NegatedNativeCall` | lox/transformer.py:62-64 | `-sqrt(9)` evaluates to `-3` when the native `sqrt` maps 9 to 3 |
| `RewriteSemantics.BinaryRuleEvaluation` | lox/transformer.py:24-25 | a tree built by a binary rule evaluates both children left first and applies that rule's operator |
| `RewriteSemantics.StringTokenEvaluates` | lox/transformer.py:95-96 | a quoted string token evaluates to its contents |
| `RewriteSemantics.TokenTruthiness` | lox/transformer.py:98-102 | `nil` and every boolean token other than `true` evaluate to falsy values, `true` to a truthy one, and the store is unchanged |

## Left out

- The test shim that patches the host's `eval` (lox/ast.py:19-38) is a
  textual rewrite handed to a host function.
- `Print` formatting and the standard output stream: `print` appends the
  value itself to `output`, with no text formatting.
- The node classes without `eval` (`This`, `Super`, `Return`, `VarDef`, `If`,
  `For`, `While`, `Block`, `Function`, `Class`) have no behaviour in the code
  to model.
- `NUMBER` (lox/transformer.py:92-93) parses text as a float. Numbers are
  unbounded reals, with no rounding, infinities or NaN.
- The `runtime` module is not part of this model. Its arithmetic and
  comparisons, including their exceptions such as division by zero, are the
  host's `binop`. Its native functions are the host's `native`.
- Native functions are pure in the model: they cannot read or change the
  context or the objects. A native's exception is any `Error` it returns.
- Lark's `Transformer` base class and `v_args` dispatch: each rule is a
  function over its already-built children. The binary rules are looked up
  in the operator table by rule name.
- The `ctx` object is a plain map: its own internals are not part of this
  model.
- `LoxEval.GetField`: attribute lookup and assignment work only on objects
  with a field map. Python attributes of functions, strings and numbers, and
  class attributes and methods, are not modelled: such a lookup raises
  AttributeError here, and so does an assignment of a field of a function.
- `LoxValues.ApplyUnary`: `-true` is the real `-1`. The model keeps no
  distinction between Python's `int` and `float`.
- The generic fallback `self.op(val)` of `UnaryOp._apply` (lox/ast.py:200)
  is unreachable: the tree builder only creates `neg` and `not_`, and the
  operator is a closed enumeration of those two.
- `callable(v)` holds only for natives and wrappers. Python objects with a
  `__call__` method are not modelled.
- Identity of wrappers: each evaluation of `UnaryOp` on a callable creates a
  new Python function object (lox/ast.py:206-208), so two such wrappers are
  distinct under `is` and `==`. In the model a wrapper is the value
  `VFn(Wrapped(op, inner))`, and two wrappers of the same operator and callee
  are equal.
- Exceptions are kinds: the texts of the messages are not modelled.
