/**
 * The part of the syntax tree the semantic analyzer visits. A node carries
 * the source line its diagnostics report; a type node is represented by the
 * BuiltInType it names.
 */
module Ast {
  import opened Types

  /** Expressions: literals and identifier references. */
  datatype Exp =
    | Num(value: int)
    | NumB(value: int, line: int)
    | String(text: string)
    | ID(name: string, line: int)

  /** A formal parameter of a function declaration. */
  datatype Formal = Formal(typ: BuiltInType, name: string, line: int)

  /** Statements and declarations. */
  datatype Stmt =
    | VarDecl(typ: BuiltInType, name: string, init: Option<Exp>, line: int)
    | FuncDecl(returnType: BuiltInType, name: string, formals: seq<Formal>, body: Stmt, line: int)
    | If(condition: Exp, thenBranch: Stmt, elseBranch: Option<Stmt>, line: int)
    | While(condition: Exp, body: Stmt, line: int)
    | Break(line: int)
    | Continue(line: int)
    | Return(exp: Option<Exp>, line: int)
}
