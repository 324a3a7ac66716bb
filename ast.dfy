/**
 * The part of the syntax tree that the compiler, the object model and the
 * scope chain look at. Every node keeps the literal text of the token it was
 * parsed from in `tok` (its `Token().Literal`).
 */
module Ast {
  import opened Common

  /** A float, kept as its IEEE-754 bit pattern; no arithmetic is modelled. */
  type Float = bv64

  datatype Expr =
    | Number(tok: string, number: Float)
    | String(tok: string, text: string)
    | Boolean(tok: string, truth: bool)
    | Char(tok: string, ch: char)
    | Null(tok: string)
    | Identifier(tok: string, value: string)
      /** An infix operation `left op right`; `op` is the operator's text. */
    | Infix(tok: string, op: string, left: Expr, right: Expr)
      /** A prefix operation `op right`. */
    | Prefix(tok: string, op: string, right: Expr)
      /** `name = newValue`; `name` is the target identifier's value. */
    | Assign(tok: string, name: string, newValue: Expr)
    | If(tok: string, condition: Expr, consequence: Stmt, alternative: Stmt)
      /** A parameter placeholder in a function pattern. */
    | Parameter(tok: string)
      /** An argument placeholder in a call pattern. */
    | Argument(tok: string)
      /** Any other node kind (arrays, tuples, maps, function and block literals, ...), by its type name. */
    | Other(tok: string, kind: string)

  /**
   * A statement. Statement compilation is not part of this model: a statement
   * is represented by the bytes its compilation appends and by whether that
   * compilation succeeds. It appends its bytes in either case.
   */
  datatype Stmt = Stmt(code: seq<Byte>, ok: bool)

  /** The node's Go type name, as used in "not yet implemented" errors. */
  function KindName(e: Expr): string {
    match e
    case Number(_, _) => "*ast.Number"
    case String(_, _) => "*ast.String"
    case Boolean(_, _) => "*ast.Boolean"
    case Char(_, _) => "*ast.Char"
    case Null(_) => "*ast.Null"
    case Identifier(_, _) => "*ast.Identifier"
    case Infix(_, _, _, _) => "*ast.InfixExpression"
    case Prefix(_, _, _) => "*ast.PrefixExpression"
    case Assign(_, _, _) => "*ast.AssignExpression"
    case If(_, _, _, _) => "*ast.IfExpression"
    case Parameter(_) => "*ast.Parameter"
    case Argument(_) => "*ast.Argument"
    case Other(_, kind) => kind
  }
}
