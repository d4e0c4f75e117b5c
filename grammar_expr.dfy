/// Reference definition of the expression and type grammars, as pure
/// functions over a token sequence and a start index. Each function returns
/// what it built and the index just past what it consumed; the class methods
/// in module `Parsing` are proved to compute exactly these results.
module ExprGrammar {
  import opened Wrappers
  import opened Token
  import opened Ast

  /** A value built from tokens, and the index just past them. */
  datatype Parsed<T> = Done(value: T, next: nat) | Fail(error: ParseError)

  // ---------------------------------------------------------------- expressions

  /** `parse_expr`: the additive level. */
  function ExprAt(toks: seq<TokenType>, p: nat): (r: Parsed<AstExpr>)
    ensures r.Done? ==> p < r.next <= |toks|
    decreases Remaining(toks, p), 5
  {
    AddAt(toks, p)
  }

  /** `parse_expr_primary`: a variable, a literal or a parenthesised expression. */
  function PrimaryAt(toks: seq<TokenType>, p: nat): (r: Parsed<AstExpr>)
    ensures r.Done? ==> p < r.next <= |toks|
    decreases Remaining(toks, p), 1
  {
    match PeekAt(toks, p)
    case Identifier(x) => Done(Var(x), p + 1)
    case LiteralNum(n) => Done(AstExpr.LiteralNum(n), p + 1)
    case LiteralStr(s) => Done(AstExpr.LiteralStr(s), p + 1)
    case OpenParen =>
      (match ExprAt(toks, p + 1)
       case Fail(e) => Fail(e)
       case Done(e, q) => if PeekAt(toks, q) == CloseParen then Done(e, q + 1) else Fail(Syntax(q)))
    case _ => Fail(Syntax(p))
  }

  /** `parse_expr_call`: a primary, then at most one argument list. */
  function CallAt(toks: seq<TokenType>, p: nat): (r: Parsed<AstExpr>)
    ensures r.Done? ==> p < r.next <= |toks|
    decreases Remaining(toks, p), 2
  {
    match PrimaryAt(toks, p)
    case Fail(e) => Fail(e)
    case Done(callee, q) =>
      if PeekAt(toks, q) == OpenParen then
        match ArgsAt(toks, q + 1, [])
        case Fail(e) => Fail(e)
        case Done(args, q') => Done(FnCall(callee, args), q')
      else Done(callee, q)
  }

  /** The argument loop of `parse_expr_call`: an expression, then either `)`
      or one token that is skipped unchecked. `acc` holds the arguments
      parsed so far. */
  function ArgsAt(toks: seq<TokenType>, p: nat, acc: seq<AstExpr>): (r: Parsed<seq<AstExpr>>)
    ensures r.Done? ==> p < r.next <= |toks| && |r.value| > |acc| && r.value[..|acc|] == acc
    decreases Remaining(toks, p), 6
  {
    match ExprAt(toks, p)
    case Fail(e) => Fail(e)
    case Done(e, q) =>
      if PeekAt(toks, q) == CloseParen then Done(acc + [e], q + 1)
      else ArgsAt(toks, q + 1, acc + [e])
  }

  /** `parse_expr_mul`. */
  function MulAt(toks: seq<TokenType>, p: nat): (r: Parsed<AstExpr>)
    ensures r.Done? ==> p < r.next <= |toks|
    decreases Remaining(toks, p), 3
  {
    match CallAt(toks, p)
    case Fail(e) => Fail(e)
    case Done(lhs, q) => MulTail(toks, lhs, q)
  }

  /** The loop of `parse_expr_mul` with `lhs` built so far: folds `*` and `/`
      to the left. */
  function MulTail(toks: seq<TokenType>, lhs: AstExpr, p: nat): (r: Parsed<AstExpr>)
    requires p <= |toks|
    ensures r.Done? ==> p <= r.next <= |toks|
    decreases Remaining(toks, p), 0
  {
    if IsEofAt(toks, p) then Done(lhs, p)
    else if PeekAt(toks, p) == OperatorMul || PeekAt(toks, p) == OperatorDiv then
      match CallAt(toks, p + 1)
      case Fail(e) => Fail(e)
      case Done(rhs, q) =>
        MulTail(toks, if PeekAt(toks, p) == OperatorMul then Mul(lhs, rhs) else Div(lhs, rhs), q)
    else Done(lhs, p)
  }

  /** `parse_expr_add`. */
  function AddAt(toks: seq<TokenType>, p: nat): (r: Parsed<AstExpr>)
    ensures r.Done? ==> p < r.next <= |toks|
    decreases Remaining(toks, p), 4
  {
    match MulAt(toks, p)
    case Fail(e) => Fail(e)
    case Done(lhs, q) => AddTail(toks, lhs, q)
  }

  /** The loop of `parse_expr_add` with `lhs` built so far: folds `+` and `-`
      to the left over multiplicative operands. */
  function AddTail(toks: seq<TokenType>, lhs: AstExpr, p: nat): (r: Parsed<AstExpr>)
    requires p <= |toks|
    ensures r.Done? ==> p <= r.next <= |toks|
    decreases Remaining(toks, p), 0
  {
    if IsEofAt(toks, p) then Done(lhs, p)
    else if PeekAt(toks, p) == OperatorAdd || PeekAt(toks, p) == OperatorSub then
      match MulAt(toks, p + 1)
      case Fail(e) => Fail(e)
      case Done(rhs, q) =>
        AddTail(toks, if PeekAt(toks, p) == OperatorAdd then Add(lhs, rhs) else Sub(lhs, rhs), q)
    else Done(lhs, p)
  }

  // ---------------------------------------------------------------------- types

  /** The primitive-name table of `parse_type_primary`. */
  function PrimitiveType(name: string): Type {
    match name
    case "i8" => I8
    case "i16" => I16
    case "i32" => I32
    case "i64" => I64
    case "i128" => I128
    case "u8" => U8
    case "u16" => U16
    case "u32" => U32
    case "u64" => U64
    case "u128" => U128
    case "bool" => Bool
    case "f32" => F32
    case "f64" => F64
    case _ => Unknown
  }

  /** The 13 names the table knows. */
  const PrimitiveNames: seq<string> :=
    ["i8", "i16", "i32", "i64", "i128", "u8", "u16", "u32", "u64", "u128", "bool", "f32", "f64"]

  predicate IsPrimitive(t: Type) {
    !(t.Unit? || t.Anna? || t.Unknown?)
  }

  /** The name the table maps to a primitive type. */
  function PrimitiveName(t: Type): (n: string)
    requires IsPrimitive(t)
    ensures n in PrimitiveNames && PrimitiveType(n) == t
  {
    match t
    case I8 => "i8"
    case I16 => "i16"
    case I32 => "i32"
    case I64 => "i64"
    case I128 => "i128"
    case U8 => "u8"
    case U16 => "u16"
    case U32 => "u32"
    case U64 => "u64"
    case U128 => "u128"
    case Bool => "bool"
    case F32 => "f32"
    case F64 => "f64"
  }

  /** Each of the 13 names maps to a primitive type that maps back to it. */
  lemma PrimitiveKnown(name: string)
    requires name in PrimitiveNames
    ensures IsPrimitive(PrimitiveType(name)) && PrimitiveName(PrimitiveType(name)) == name
  {
    var i :| 0 <= i < |PrimitiveNames| && PrimitiveNames[i] == name;
    if i < 5 {
      PrimitiveSigned(i);
    } else if i < 10 {
      PrimitiveUnsigned(i);
    } else {
      PrimitiveOther(i);
    }
  }

  predicate KnownAt(i: nat)
    requires i < |PrimitiveNames|
  {
    IsPrimitive(PrimitiveType(PrimitiveNames[i])) && PrimitiveName(PrimitiveType(PrimitiveNames[i])) == PrimitiveNames[i]
  }

  lemma PrimitiveSigned(i: nat)
    requires i < 5
    ensures KnownAt(i)
  {
    if i == 0 {} else if i == 1 {} else if i == 2 {} else if i == 3 {} else {}
  }

  lemma PrimitiveUnsigned(i: nat)
    requires 5 <= i < 10
    ensures KnownAt(i)
  {
    if i == 5 {} else if i == 6 {} else if i == 7 {} else if i == 8 {} else {}
  }

  lemma PrimitiveOther(i: nat)
    requires 10 <= i < 13
    ensures KnownAt(i)
  {
    if i == 10 {} else if i == 11 {} else {}
  }

  /** Every identifier outside the table is `Unknown`. */
  lemma PrimitiveUnknown(name: string)
    requires name !in PrimitiveNames
    ensures PrimitiveType(name) == Unknown
  {
  }

  /** Exactly the 13 names are known, each to a different primitive type. */
  lemma PrimitiveTable(name: string)
    ensures PrimitiveType(name) != Unknown <==> name in PrimitiveNames
    ensures PrimitiveType(name) != Unknown ==>
      IsPrimitive(PrimitiveType(name)) && PrimitiveName(PrimitiveType(name)) == name
  {
    if name in PrimitiveNames {
      PrimitiveKnown(name);
    } else {
      PrimitiveUnknown(name);
    }
  }

  /** `parse_type` / `parse_type_anna`: a primary type, wrapped in `Anna`
      when `<` follows it. */
  function TypeAt(toks: seq<TokenType>, p: nat): (r: Parsed<Type>)
    ensures r.Done? ==> p < r.next <= |toks|
    decreases Remaining(toks, p), 1
  {
    match TypePrimaryAt(toks, p)
    case Fail(e) => Fail(e)
    case Done(t, q) => if PeekAt(toks, q) == OperatorLes then Done(Anna(t, []), q + 1) else Done(t, q)
  }

  /** `parse_type_primary`: an identifier or a parenthesised tuple. */
  function TypePrimaryAt(toks: seq<TokenType>, p: nat): (r: Parsed<Type>)
    ensures r.Done? ==> p < r.next <= |toks|
    decreases Remaining(toks, p), 0
  {
    match PeekAt(toks, p)
    case Identifier(t) => Done(PrimitiveType(t), p + 1)
    case OpenParen => UnitAt(toks, p + 1, [])
    case _ => Fail(Syntax(p))
  }

  /** The element loop of a tuple type, with the elements parsed so far. */
  function UnitAt(toks: seq<TokenType>, p: nat, acc: seq<Type>): (r: Parsed<Type>)
    ensures r.Done? ==> p < r.next <= |toks|
    ensures r.Done? ==> r.value.Unit? && |r.value.elems| > |acc| && r.value.elems[..|acc|] == acc
    decreases Remaining(toks, p), 2
  {
    match TypeAt(toks, p)
    case Fail(e) => Fail(e)
    case Done(t, q) =>
      if PeekAt(toks, q) == CloseParen then Done(Unit(acc + [t]), q + 1)
      else UnitAt(toks, q + 1, acc + [t])
  }
}
