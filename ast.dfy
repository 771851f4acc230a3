/** The syntax tree the parser of `lib/src/parser.rs` builds. */
module Ast {
  import opened Tokens

  /** How a definition is to be compiled. */
  datatype DefineMode = Regular | Inline | Constant

  /** A word to look up, or a literal string, number or real. */
  datatype Expr =
    | WordExpr(name: Token)
    | LiteralExpr(value: Token)

  /** An expression statement, a block of statements, or a named definition
      whose body is a block. */
  datatype Stmt =
    | ExprStmt(expr: Expr)
    | BlockStmt(body: seq<Stmt>)
    | DefineStmt(name: Token, block: Stmt, mode: DefineMode)

  /** The text a statement or a builtin compiles to. */
  datatype Compiled = Compiled(code: seq<string>)
}
