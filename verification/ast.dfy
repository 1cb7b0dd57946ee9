/** The syntax tree the interpreter walks: one constructor per node type its two dispatch
    switches handle (statements in `evaluateStatement`, expressions in `evaluateExpression`).
    The parser produces only a few of them; the rest are reachable by building trees directly. */
module Ast {
  datatype Expr =
    | Number(value: real)
    | String(text: string)
    | Variable(name: string)
    | BinaryExpression(left: Expr, operator: string, right: Expr)
    | ComparisonExpression(left: Expr, operator: string, right: Expr)
    | ArrayLiteral(elements: seq<Expr>)
    | ArrayElementAccess(array: string, index: Expr)
    | ArrayMethodExpression(array: string, methodName: string, args: seq<Expr>)
    | ArrayProperty(array: string, property: string)
    | FunctionCall(name: string, args: seq<Expr>)

  datatype Stmt =
    | Assignment(name: string, value: Expr)
    | Print(value: Expr)
    | ExpressionStatement(expression: Expr)
    | IfStatement(condition: Expr, ifBlock: seq<Stmt>, elseBlock: ElseBranch)
    | WhileStatement(condition: Expr, body: seq<Stmt>)
    | ArrayElementAssignment(array: string, index: Expr, value: Expr)
    | ArrayMethodCall(array: string, methodName: string, args: seq<Expr>)
    | FunctionDeclaration(name: string, params: seq<string>, body: seq<Stmt>)
    | ReturnStatement(value: Expr)

  /** The `elseBlock` of an if statement: the source's `null` when no `else` follows, or the
      block's statements. An empty else block is present, and the interpreter treats it
      differently from a missing one. */
  datatype ElseBranch = NoElse | ElseBlock(stmts: seq<Stmt>)
}
