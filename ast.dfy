/// The syntax tree and definition tables the parser produces.
module Ast {

  /** Types as the type parser builds them. `Unit` is a parenthesised tuple,
      `Anna` a type followed by `<` (its argument list is always empty). */
  datatype Type =
    | I8 | I16 | I32 | I64 | I128
    | U8 | U16 | U32 | U64 | U128
    | Bool | F32 | F64
    | Unit(elems: seq<Type>)
    | Anna(base: Type, args: seq<Type>)
    | Unknown

  datatype AstExpr =
    | Var(name: string)
    | LiteralNum(num: int)
    | LiteralStr(text: string)
    | Add(lhs: AstExpr, rhs: AstExpr)
    | Sub(lhs: AstExpr, rhs: AstExpr)
    | Mul(lhs: AstExpr, rhs: AstExpr)
    | Div(lhs: AstExpr, rhs: AstExpr)
    | FnCall(callee: AstExpr, args: seq<AstExpr>)

  datatype AstNode =
    | Empty
    | Expr(expr: AstExpr)
    | Fn(name: string, body: seq<AstNode>)
    | Program(nodes: seq<AstNode>)

  /** A half-open token-index range, or the whole program. */
  datatype Scope = Global | Block(start: nat, end: nat)

  /** An argument's type is not stored inline: it sits in the owning
      definition's `types` map under `typeSymbol`. */
  datatype FnArg = FnArg(name: string, typeSymbol: string)

  datatype FnDef = FnDef(
    name: string,
    types: map<string, Type>,
    arguments: seq<FnArg>,
    retType: string)

  datatype WithScope<T> = WithScope(value: T, scope: Scope)
}
