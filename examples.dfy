/// Concrete token streams and what the reference grammars make of them. They
/// illustrate precedence, left association, the argument separator that is
/// skipped unchecked, the symbols of a declaration, and how a block body
/// ends. Expressions and types are read back through the printer's round
/// trips; the definition examples follow the grammar one step at a time.
module Examples {
  import opened Wrappers
  import opened Token
  import opened Ast
  import opened Symbols
  import opened ExprGrammar
  import opened DefGrammar
  import opened Printer

  function Num(n: int): TokenType {
    TokenType.LiteralNum(n)
  }

  function N(n: int): AstExpr {
    AstExpr.LiteralNum(n)
  }

  /** A single-token expression ended by a token that continues no level. */
  lemma AtomAt(toks: seq<TokenType>, p: nat, e: AstExpr)
    requires e.Var? || e.LiteralNum? || e.LiteralStr?
    requires p < |toks| && [toks[p]] == PrintExpr(e) && EndsExpr(PeekAt(toks, p + 1))
    ensures ExprAt(toks, p) == Done(e, p + 1)
  {
    assert toks[p + 0] == PrintExpr(e)[0];
    ExprRoundTrip(e, toks, p, p + 1);
  }

  // ------------------------------------------------------------- expressions

  /** `2 + 3 * 4`: `*` binds tighter than `+`. */
  lemma Precedence(toks: seq<TokenType>)
    requires toks == [Num(2), OperatorAdd, Num(3), OperatorMul, Num(4)]
    ensures ExprAt(toks, 0) == Done(Add(N(2), Mul(N(3), N(4))), 5)
  {
    var e := Add(N(2), Mul(N(3), N(4)));
    assert PrintExpr(e) == toks;
    ParsePrintedExpr(e);
  }

  /** `a - b - c`: operators of one level fold to the left. */
  lemma LeftAssociative(toks: seq<TokenType>)
    requires toks == [Identifier("a"), OperatorSub, Identifier("b"), OperatorSub, Identifier("c")]
    ensures ExprAt(toks, 0) == Done(Sub(Sub(Var("a"), Var("b")), Var("c")), 5)
  {
    var e := Sub(Sub(Var("a"), Var("b")), Var("c"));
    assert PrintExpr(e) == toks;
    ParsePrintedExpr(e);
  }

  /** `(2 + 3) * 4`: parentheses regroup. */
  lemma Parenthesised(toks: seq<TokenType>)
    requires toks == [OpenParen, Num(2), OperatorAdd, Num(3), CloseParen, OperatorMul, Num(4)]
    ensures ExprAt(toks, 0) == Done(Mul(Add(N(2), N(3)), N(4)), 7)
  {
    var e := Mul(Add(N(2), N(3)), N(4));
    assert PrintExpr(e) == toks;
    ParsePrintedExpr(e);
  }

  /** `f(1, 2, 3)`. */
  lemma Call(toks: seq<TokenType>)
    requires toks == [Identifier("f"), OpenParen, Num(1), Comma, Num(2), Comma, Num(3), CloseParen]
    ensures ExprAt(toks, 0) == Done(FnCall(Var("f"), [N(1), N(2), N(3)]), 8)
  {
    var e := FnCall(Var("f"), [N(1), N(2), N(3)]);
    assert PrintExpr(e) == toks;
    ParsePrintedExpr(e);
  }

  /** `f(1 x 2)`: whatever single token follows an argument is taken as the
      separator. */
  lemma UncheckedSeparator(toks: seq<TokenType>)
    requires toks == [Identifier("f"), OpenParen, Num(1), Identifier("x"), Num(2), CloseParen]
    ensures ExprAt(toks, 0) == Done(FnCall(Var("f"), [N(1), N(2)]), 6)
  {
    var call := FnCall(Var("f"), [N(1), N(2)]);
    AtomAt(toks, 2, N(1));
    AtomAt(toks, 4, N(2));
    assert [N(1)] + [N(2)] == [N(1), N(2)];
    assert [] + [N(1)] == [N(1)];
    assert ArgsAt(toks, 2, []) == Done([N(1), N(2)], 6);
    assert PrimaryAt(toks, 0) == Done(Var("f"), 1);
    assert CallAt(toks, 0) == Done(call, 6);
    assert MulAt(toks, 0) == Done(call, 6);
    assert AddAt(toks, 0) == Done(call, 6);
  }

  /** `f(1`: the argument loop skips the end of input as a separator and
      fails at the expression after it. */
  lemma UnclosedCall(toks: seq<TokenType>)
    requires toks == [Identifier("f"), OpenParen, Num(1)]
    ensures ExprAt(toks, 0) == Fail(Syntax(4))
  {
    AtomAt(toks, 2, N(1));
    assert PrimaryAt(toks, 4) == Fail(Syntax(4));
    assert CallAt(toks, 4) == Fail(Syntax(4));
    assert MulAt(toks, 4) == Fail(Syntax(4));
    assert ExprAt(toks, 4) == Fail(Syntax(4));
    assert ArgsAt(toks, 2, []) == Fail(Syntax(4));
    assert PrimaryAt(toks, 0) == Done(Var("f"), 1);
    assert CallAt(toks, 0) == Fail(Syntax(4));
    assert MulAt(toks, 0) == Fail(Syntax(4));
  }

  // ------------------------------------------------------------------- types

  /** `(i32, bool<)`: a tuple type with a wrapped element. */
  lemma TupleType(toks: seq<TokenType>)
    requires toks == [OpenParen, Identifier("i32"), Comma, Identifier("bool"), OperatorLes, CloseParen]
    ensures TypeAt(toks, 0) == Done(Unit([I32, Anna(Bool, [])]), 6)
  {
    var t := Unit([I32, Anna(Bool, [])]);
    assert PrintType(t) == toks;
    ParsePrintedType(t);
  }

  /** A name outside the table is `Unknown`, not an error. */
  lemma UnknownType()
    ensures TypeAt([Identifier("str")], 0) == Done(Unknown, 1)
  {
    PrimitiveUnknown("str");
  }

  // ------------------------------------------------------------------ scopes

  /** A tier-1 block starting at index 1 ends at the tier-0 marker, not at
      the nested tier-2 one; with no such marker the scan fails, unless the
      cursor is already at the end. */
  lemma Scopes()
    ensures FindScopeAt([IdentTier(1), Identifier("x"), IdentTier(2), Identifier("y"), IdentTier(0)], 1, 1)
      == Ok(Block(1, 4))
    ensures FindScopeAt([IdentTier(1), Identifier("x")], 1, 1) == Err(OutOfRange(2))
    ensures FindScopeAt([IdentTier(1)], 1, 1) == Ok(Block(1, 1))
  {
  }

  // ---------------------------------------------------------------- programs

  /** `fn name (` hands the definition over to the signature part, whose
      node the definition result wraps. */
  lemma FnDefinitionOf(toks: seq<TokenType>, tier: nat, st: PState, fname: string, n: Option<AstNode>, st': PState)
    requires st.curr >= 1
    requires PeekAt(toks, st.curr) == KeywordFn && PeekAt(toks, st.curr + 1) == Identifier(fname)
    requires PeekAt(toks, st.curr + 2) == OpenParen
    requires FnSignatureAt(toks, tier, fname, PState(st.curr + 3, st.symId, st.fnDefs)) == Ran(n, st')
    ensures DefinitionAt(toks, tier, st) == Ran(Some(n), st')
  {
    var s1 := PState(st.curr + 1, st.symId, st.fnDefs);
    assert st.(curr := st.curr + 1) == s1;
    FnDefinitionAtSignature(toks, tier, s1, fname);
    assert s1.(curr := s1.curr + 2) == PState(st.curr + 3, st.symId, st.fnDefs);
  }

  /** One top-level item of the program loop that is a definition. */
  lemma ProgramStep(toks: seq<TokenType>, st: PState, acc: seq<AstNode>, d: Option<AstNode>, st': PState)
    requires PeekAt(toks, st.curr) == IdentTier(0) && !IsEofAt(toks, st.curr + 1)
    requires DefinitionAt(toks, 0, st.(curr := st.curr + 1)) == Ran(Some(d), st')
    ensures ProgramLoop(toks, st, acc) == ProgramLoop(toks, st', if d.Some? then acc + [d.value] else acc)
  {
  }

  /** The `fn f(x: i32) -> bool` stream. */
  predicate IsDeclaration(toks: seq<TokenType>) {
    toks == [IdentTier(0), KeywordFn, Identifier("f"), OpenParen, Identifier("x"), OperatorColon,
             Identifier("i32"), CloseParen, OperatorArrow, Identifier("bool")]
  }

  lemma DeclarationSignature(toks: seq<TokenType>)
    requires IsDeclaration(toks)
    ensures FnArgsAt(toks, 4, 0, [], map[]) == Done(Signature([FnArg("x", "$1")], map["$1" := I32]), 8)
    ensures ReturnTypeAt(toks, 8) == Done(Bool, 10)
  {
    assert SymbolName(1) == "$1";
    assert TypeAt(toks, 6) == Done(I32, 7);
    assert FnArgAt(toks, 4) == Done(("x", I32), 7);
    assert [] + [FnArg("x", "$1")] == [FnArg("x", "$1")];
    assert map[]["$1" := I32] == map["$1" := I32];
    assert TypeAt(toks, 9) == Done(Bool, 10);
  }

  /** `fn f(x: i32) -> bool` at top level: no node, and one table entry with
      `$1` for `x` and `$2` for the return type. */
  lemma Declaration(toks: seq<TokenType>)
    requires IsDeclaration(toks)
    ensures ParseAt(toks)
      == Ran(Program([]), PState(10, 2, [WithScope(FnDef("f", map["$1" := I32, "$2" := Bool],
                                                          [FnArg("x", "$1")], "$2"), Global)]))
  {
    DeclarationSignature(toks);
    assert SymbolName(2) == "$2";
    var sig := Signature([FnArg("x", "$1")], map["$1" := I32]);
    var entry := WithScope(FnDef("f", map["$1" := I32, "$2" := Bool], [FnArg("x", "$1")], "$2"), Global);
    assert FnEntry("f", 0, sig, Bool) == entry;
    var st := PState(10, 2, [entry]);
    assert [] + [entry] == [entry];
    assert FnBodyAt(toks, 0, "f", st) == Ran(None, st);
    FnSignatureAtBody(toks, 0, PState(4, 0, []), "f", sig, 8, Bool, 10);
    FnHeader(toks, 1, "f");
    FnDefinitionOf(toks, 0, PState(1, 0, []), "f", None, st);
    ProgramStep(toks, PState(0, 0, []), [], None, st);
  }

  /** The `fn f() = 1 + 2` stream. */
  predicate IsExpressionBody(toks: seq<TokenType>) {
    toks == [IdentTier(0), KeywordFn, Identifier("f"), OpenParen, CloseParen, OperatorAssign,
             Num(1), OperatorAdd, Num(2)]
  }

  lemma ExpressionBodyParts(toks: seq<TokenType>)
    requires IsExpressionBody(toks)
    ensures FnArgsAt(toks, 4, 0, [], map[]) == Done(Signature([], map[]), 5)
    ensures ExprAt(toks, 6) == Done(Add(N(1), N(2)), 9)
  {
    var e := Add(N(1), N(2));
    assert PrintExpr(e) == toks[6..];
    ExprRoundTrip(e, toks, 6, 9);
  }

  /** `fn f() = 1 + 2` at top level: a function node whose body is the one
      expression, and an entry typing the return symbol `$1` as `()`. */
  lemma ExpressionBody(toks: seq<TokenType>)
    requires IsExpressionBody(toks)
    ensures ParseAt(toks) == Ran(Program([Fn("f", [Expr(Add(N(1), N(2)))])]),
             PState(9, 1, [WithScope(FnDef("f", map["$1" := Unit([])], [], "$1"), Global)]))
  {
    ExpressionBodyParts(toks);
    assert SymbolName(1) == "$1";
    var e := Add(N(1), N(2));
    var node := Fn("f", [Expr(e)]);
    var sig := Signature([], map[]);
    var entry := WithScope(FnDef("f", map["$1" := Unit([])], [], "$1"), Global);
    assert FnEntry("f", 0, sig, Unit([])) == entry;
    var st := PState(9, 1, [entry]);
    assert [] + [entry] == [entry];
    FnBodyExpression(toks, 0, "f", PState(5, 1, [entry]));
    FnSignatureAtBody(toks, 0, PState(4, 0, []), "f", sig, 5, Unit([]), 5);
    FnHeader(toks, 1, "f");
    FnDefinitionOf(toks, 0, PState(1, 0, []), "f", Some(node), st);
    ProgramStep(toks, PState(0, 0, []), [], Some(node), st);
    assert [] + [node] == [node];
  }

  /** `fn f() =`, a tier-1 line `x`, then a tier-0 line `fn g()`. */
  predicate IsBlockThenDefinition(toks: seq<TokenType>) {
    toks == [IdentTier(0), KeywordFn, Identifier("f"), OpenParen, CloseParen, OperatorAssign,
             IdentTier(1), Identifier("x"),
             IdentTier(0), KeywordFn, Identifier("g"), OpenParen, CloseParen]
  }

  /** The block is the one statement `x`, and its loop stops after consuming
      the tier-0 marker at index 8. */
  lemma BlockBody(toks: seq<TokenType>, sid: nat, defs: seq<WithScope<FnDef>>)
    requires IsBlockThenDefinition(toks)
    ensures BlockAt(toks, 1, PState(7, sid, defs)) == Ran([Expr(Var("x"))], PState(9, sid, defs))
  {
    var x := Expr(Var("x"));
    AtomAt(toks, 7, Var("x"));
    assert FindScopeAt(toks, 7, 1) == Ok(Block(7, 8));
    assert DefinitionAt(toks, 1, PState(7, sid, defs)) == Ran(None, PState(6, sid, defs));
    assert StmtAt(toks, 1, PState(6, sid, defs)) == Ran(Some(x), PState(8, sid, defs));
    assert StmtAt(toks, 1, PState(8, sid, defs)) == Ran(None, PState(9, sid, defs));
    assert [] + [x] == [x];
    assert BlockLoop(toks, 1, PState(8, sid, defs), [x]) == Ran([x], PState(9, sid, defs));
  }

  /** No arguments and no return type: the entry for `f` types `$1` as `()`,
      and the body part is the tier-1 block. */
  lemma BlockSignature(toks: seq<TokenType>, entry: WithScope<FnDef>)
    requires IsBlockThenDefinition(toks) && entry == FnEntry("f", 0, Signature([], map[]), Unit([]))
    ensures FnSignatureAt(toks, 0, "f", PState(4, 0, [])) == Ran(Some(Fn("f", [Expr(Var("x"))])), PState(9, 1, [entry]))
  {
    assert FnArgsAt(toks, 4, 0, [], map[]) == Done(Signature([], map[]), 5);
    FnSignatureAtBody(toks, 0, PState(4, 0, []), "f", Signature([], map[]), 5, Unit([]), 5);
    assert [] + [entry] == [entry];
    BlockBody(toks, 1, [entry]);
  }

  /** A definition `fn name (` starting at index `p`, read through `PeekAt`. */
  lemma FnHeader(toks: seq<TokenType>, p: nat, fname: string)
    requires p + 2 < |toks| && toks[p] == KeywordFn && toks[p + 1] == Identifier(fname) && toks[p + 2] == OpenParen
    ensures PeekAt(toks, p) == KeywordFn && PeekAt(toks, p + 1) == Identifier(fname) && PeekAt(toks, p + 2) == OpenParen
  {
  }

  /** The first definition is `f` with the block as its body. */
  lemma BlockFunction(toks: seq<TokenType>)
    requires IsBlockThenDefinition(toks)
    ensures DefinitionAt(toks, 0, PState(1, 0, []))
         == Ran(Some(Some(Fn("f", [Expr(Var("x"))]))), PState(9, 1, [FnEntry("f", 0, Signature([], map[]), Unit([]))]))
  {
    var entry := FnEntry("f", 0, Signature([], map[]), Unit([]));
    FnHeader(toks, 1, "f");
    BlockSignature(toks, entry);
    FnDefinitionOf(toks, 0, PState(1, 0, []), "f", Some(Fn("f", [Expr(Var("x"))])), PState(9, 1, [entry]));
  }

  /** A block body that returns to tier 0 before another top-level `fn`: the
      statement loop consumes the tier-0 marker that ends the block, so the
      program loop meets `fn` where it expects a marker and halts there. */
  lemma BlockThenDefinition(toks: seq<TokenType>)
    requires IsBlockThenDefinition(toks)
    ensures ParseAt(toks) == Halt(Syntax(9))
  {
    var node := Fn("f", [Expr(Var("x"))]);
    var st := PState(9, 1, [FnEntry("f", 0, Signature([], map[]), Unit([]))]);
    BlockFunction(toks);
    ProgramStep(toks, PState(0, 0, []), [], Some(node), st);
    assert ProgramLoop(toks, st, [] + [node]) == Halt(Syntax(9));
  }
}
