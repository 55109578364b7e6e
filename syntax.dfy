/** The AST node kinds that have an `eval` in lox/ast.py. */
module LoxSyntax {
  import opened LoxValues

  /** Expression nodes. `BinOp` carries the operator-table entry the tree
      builder chose; `UnaryOp` one of the two prefix operators. */
  datatype Expr =
    | Literal(value: Value)
    | Var(name: string)
    | BinOp(left: Expr, right: Expr, op: BinOpKind)
    | And(left: Expr, right: Expr)
    | Or(left: Expr, right: Expr)
    | UnaryOp(uop: UnOp, right: Expr)
    | Call(callee: Expr, params: seq<Expr>)
    | Assign(name: string, rhs: Expr)
    | Getattr(obj: Expr, attr: string)
    | Setattr(obj: Expr, name: string, rhs: Expr)

  /** Statements a program runs: `print`, and `ExprStmt`, which stands for an
      expression placed directly in a program's statement list (`Program.eval`
      calls its `eval` and drops the value). */
  datatype Stmt =
    | Print(expr: Expr)
    | ExprStmt(expr: Expr)

  datatype Program = Program(stmts: seq<Stmt>)

  /** Expressions that contain no `Assign` and no `Setattr` node. */
  predicate WritesNothing(e: Expr) {
    match e
    case Literal(_) => true
    case Var(_) => true
    case BinOp(l, r, _) => WritesNothing(l) && WritesNothing(r)
    case And(l, r) => WritesNothing(l) && WritesNothing(r)
    case Or(l, r) => WritesNothing(l) && WritesNothing(r)
    case UnaryOp(_, x) => WritesNothing(x)
    case Call(c, ps) => WritesNothing(c) && forall i | 0 <= i < |ps| :: WritesNothing(ps[i])
    case Assign(_, _) => false
    case Getattr(o, _) => WritesNothing(o)
    case Setattr(_, _, _) => false
  }
}
