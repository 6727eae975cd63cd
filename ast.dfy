/**
 * Expression and statement trees (src/expr.py, src/stmt.py).
 *
 * Each Python node class is a constructor here; its fields are the
 * constructor's parameters, stored unchanged. The `accept`/`visit_*` double
 * dispatch becomes a `match` in the interpreter and in the printer.
 *
 * src/stmt.py defines only `Expression` and `Print`; the parser and the
 * interpreter also use a variable declaration, a block and an if statement,
 * so those are added with exactly the fields that code reads.
 */
module Ast {
  import opened Wrappers
  import opened Tokens

  /** The seven expression kinds of src/expr.py. */
  datatype Expr =
    | AssignExpr(name: Token, value: Expr)
    | BinaryExpr(left: Expr, operator: Token, right: Expr)
    | UnaryExpr(operator: Token, right: Expr)
    | GroupingExpr(expression: Expr)
    | LiteralExpr(literal: Value)
    | LogicalExpr(left: Expr, operator: Token, right: Expr)
    | VariableExpr(name: Token)

  /** Statements: the two of src/stmt.py and the three the parser and interpreter use. */
  datatype Stmt =
    | ExpressionStmt(expression: Expr)
    | PrintStmt(expression: Expr)
    | VarStmt(name: Token, initializer: Option<Expr>)
    | BlockStmt(statements: seq<Stmt>)
    | IfStmt(condition: Expr, thenBranch: Stmt, elseBranch: Option<Stmt>)
}
