/** The rules of lox/transformer.py that build AST nodes from the already
    built children of a grammar rule. */
module LoxTransformer {
  import opened LoxValues
  import opened LoxSyntax

  /** The operator table: which operator each binary grammar rule builds. */
  const OperatorTable: map<string, BinOpKind> := map[
    "mul" := Mul, "div" := TrueDiv, "sub" := Sub, "add" := Add,
    "gt" := Gt, "lt" := Lt, "ge" := Ge, "le" := Le, "eq" := Eq, "ne" := Ne]

  /** The grammar rule that builds a given operator. */
  function RuleOf(op: BinOpKind): (rule: string)
    ensures rule in OperatorTable && OperatorTable[rule] == op
  {
    match op
    case Mul => "mul"
    case TrueDiv => "div"
    case Sub => "sub"
    case Add => "add"
    case Gt => "gt"
    case Lt => "lt"
    case Ge => "ge"
    case Le => "le"
    case Eq => "eq"
    case Ne => "ne"
  }

  /** Each rule of the table builds its own operator: the table is a
      bijection between the ten rules and the ten operators. */
  lemma RuleOfInvertsTable(rule: string)
    requires rule in OperatorTable
    ensures RuleOf(OperatorTable[rule]) == rule
  {
  }

  /** `op_handler(op)` installed under a rule name: a `BinOp` of the two
      children, in their order, with the rule's operator. */
  function BinaryRule(rule: string, left: Expr, right: Expr): (r: Expr)
    requires rule in OperatorTable
    ensures r.BinOp? && r.left == left && r.right == right
    ensures RuleOf(r.op) == rule
  {
    RuleOfInvertsTable(rule);
    BinOp(left, right, OperatorTable[rule])
  }

  function OrRule(left: Expr, right: Expr): (r: Expr)
    ensures r.Or? && r.left == left && r.right == right
  {
    Or(left, right)
  }

  function AndRule(left: Expr, right: Expr): (r: Expr)
    ensures r.And? && r.left == left && r.right == right
  {
    And(left, right)
  }

  /** `not_` and `neg`: on a call the operator moves onto the callee, so
      `-f(x)` becomes a call of `-f` with the same parameters; on anything
      else it is a plain `UnaryOp`. */
  function PrefixRule(op: UnOp, right: Expr): (r: Expr)
    ensures r.Call? <==> right.Call?
    ensures right.Call? ==> r.callee == UnaryOp(op, right.callee) && r.params == right.params
    ensures !right.Call? ==> r == UnaryOp(op, right)
  {
    if right.Call? then Call(UnaryOp(op, right.callee), right.params)
    else UnaryOp(op, right)
  }

  /** `assign`: keeps only the name of the target variable. */
  function AssignRule(name: Expr, value: Expr): (r: Expr)
    requires name.Var?
    ensures r.Assign? && Var(r.name) == name && r.rhs == value
  {
    Assign(name.name, value)
  }

  /** `setattr`: keeps only the attribute's name. */
  function SetattrRule(obj: Expr, attr: Expr, value: Expr): (r: Expr)
    requires attr.Var?
    ensures r.Setattr? && r.obj == obj && Var(r.name) == attr && r.rhs == value
  {
    Setattr(obj, attr.name, value)
  }

  /** `getattr`: keeps only the attribute's name. */
  function GetattrRule(obj: Expr, attr: Expr): (r: Expr)
    requires attr.Var?
    ensures r.Getattr? && r.obj == obj && Var(r.attr) == attr
  {
    Getattr(obj, attr.name)
  }

  function CallRule(callee: Expr, params: seq<Expr>): (r: Expr)
    ensures r.Call? && r.callee == callee && r.params == params
  {
    Call(callee, params)
  }

  /** `params`: the arguments as a list, in order. */
  function ParamsRule(args: seq<Expr>): (r: seq<Expr>)
    ensures |r| == |args| && forall i | 0 <= i < |args| :: r[i] == args[i]
  {
    args
  }

  /** `program`: the statements, in order and all of them. */
  function ProgramRule(stmts: seq<Stmt>): (r: Program)
    ensures |r.stmts| == |stmts| && forall i | 0 <= i < |stmts| :: r.stmts[i] == stmts[i]
  {
    Program(stmts)
  }

  function PrintRule(e: Expr): (r: Stmt)
    ensures r.Print? && r.expr == e
  {
    Print(e)
  }

  function VarToken(token: string): (r: Expr)
    ensures r.Var? && r.name == token
  {
    Var(token)
  }

  /** Python's `s[1:-1]`: drops the first and the last character, and gives
      the empty string for a string shorter than two characters. */
  function DropEnds(s: string): (r: string)
    ensures |r| == if |s| >= 2 then |s| - 2 else 0
    ensures forall i | 0 <= i < |r| :: r[i] == s[i + 1]
  {
    if |s| >= 2 then s[1..|s| - 1] else ""
  }

  /** `STRING`: the token without its quotes. */
  function StringToken(token: string): (r: Expr)
    ensures r.Literal? && r.value.VStr?
    ensures |token| >= 2 ==> token == [token[0]] + r.value.s + [token[|token| - 1]]
  {
    Literal(VStr(DropEnds(token)))
  }

  /** A quoted string token unquotes to its contents. */
  lemma StringTokenUnquotes(s: string)
    ensures StringToken("\"" + s + "\"") == Literal(VStr(s))
  {
    var t := "\"" + s + "\"";
    assert t[1..|t| - 1] == s;
  }

  /** `NIL`: the literal `nil`, whatever the token. */
  function NilToken(): (r: Expr)
    ensures r.Literal? && r.value == VNil
  {
    Literal(VNil)
  }

  /** `BOOL`: true exactly for the token `true`; any other token is false. */
  function BoolToken(token: string): (r: Expr)
    ensures r.Literal? && r.value.VBool?
    ensures r.value.b <==> token == "true"
  {
    Literal(VBool(token == "true"))
  }

  /** The source text of a boolean literal. */
  function BoolText(b: bool): string {
    if b then "true" else "false"
  }

  /** Reading back the text of a boolean gives the boolean. */
  lemma BoolTokenRoundTrip(b: bool)
    ensures BoolToken(BoolText(b)) == Literal(VBool(b))
  {
  }
}
