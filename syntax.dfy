/** The abstract syntax the interpreter walks: immutable expression and
    statement trees. Java's double dispatch through `accept` becomes a
    `match` over these closed datatypes. */
module Syntax {
  import opened Tokens
  import opened Values

  /** The six node classes of Expr.java, plus Logical, Call and Assign,
      which the interpreter evaluates as well. A Variable carries `node`,
      the identity of the Java object, because the resolver's table is
      keyed by node identity and not by structure. The value expression of
      an Assign is called `newValue` here (`value` names a Literal's value). */
  datatype Expr =
    | Binary(left: Expr, operator: Token, right: Expr)
    | Grouping(expression: Expr)
    | Literal(value: Value)
    | Unary(operator: Token, right: Expr)
    | Ternary(condition: Expr, operator1: Token, thenBranch: Expr, operator2: Token, elseBranch: Expr)
    | Variable(node: nat, name: Token)
    | Logical(left: Expr, operator: Token, right: Expr)
    | Call(callee: Expr, paren: Token, arguments: seq<Expr>)
    | Assign(name: Token, newValue: Expr)

  /** Statements, with the fields the interpreter reads from them; an
      optional part (an initializer, an else branch, a return value) that
      Java leaves null is None. */
  datatype Stmt =
    | Expression(expression: Expr)
    | Print(expression: Expr)
    | Var(name: Token, initializer: Option<Expr>)
    | Block(statements: seq<Stmt>)
    | If(condition: Expr, thenBranch: Stmt, elseBranch: Option<Stmt>)
    | While(condition: Expr, body: Stmt)
    | Function(name: Token, params: seq<Token>, functionBody: seq<Stmt>)
    | Return(keyword: Token, value: Option<Expr>)
    | Break
}
