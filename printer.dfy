/// A printer from trees back to tokens, the inverse partner of the
/// expression and type grammars: every well-formed tree, printed and parsed
/// again, comes back unchanged and the parse consumes exactly the printed
/// tokens. The printer inserts parentheses only where the grammar needs them,
/// so the round trips below also pin down precedence and left association.
module Printer {
  import opened Token
  import opened Ast
  import opened ExprGrammar

  // ------------------------------------------------------------ token layout

  /** `toks` holds `s` starting at index `p`. */
  predicate Spells(toks: seq<TokenType>, p: nat, s: seq<TokenType>) {
    p + |s| <= |toks| && forall i :: 0 <= i < |s| ==> toks[p + i] == s[i]
  }

  lemma SpellsSplit(toks: seq<TokenType>, p: nat, a: seq<TokenType>, b: seq<TokenType>)
    requires Spells(toks, p, a + b)
    ensures Spells(toks, p, a) && Spells(toks, p + |a|, b)
  {
    forall i | 0 <= i < |a| ensures toks[p + i] == a[i] {
      assert (a + b)[i] == a[i];
    }
    forall i | 0 <= i < |b| ensures toks[p + |a| + i] == b[i] {
      assert (a + b)[|a| + i] == b[i];
    }
  }

  /** `a`, then the single token `t`, then `b`. */
  lemma SpellsAround(toks: seq<TokenType>, p: nat, a: seq<TokenType>, t: TokenType, b: seq<TokenType>)
    requires Spells(toks, p, a + [t] + b)
    ensures Spells(toks, p, a) && PeekAt(toks, p + |a|) == t && Spells(toks, p + |a| + 1, b)
  {
    SpellsSplit(toks, p, a + [t], b);
    SpellsSplit(toks, p, a, [t]);
    assert toks[p + |a| + 0] == [t][0];
  }

  /** Moving the head of `s` onto the end of `acc` keeps their concatenation. */
  lemma AppendHead<T>(acc: seq<T>, s: seq<T>)
    requires |s| >= 1
    ensures acc + [s[0]] + s[1..] == acc + s
  {
    assert s == [s[0]] + s[1..];
  }

  // ------------------------------------------------------------- expressions

  /** Trees the expression grammar can build: every call has an argument. */
  predicate WellFormed(e: AstExpr)
    decreases e, 1
  {
    match e
    case Add(l, r) => WellFormed(l) && WellFormed(r)
    case Sub(l, r) => WellFormed(l) && WellFormed(r)
    case Mul(l, r) => WellFormed(l) && WellFormed(r)
    case Div(l, r) => WellFormed(l) && WellFormed(r)
    case FnCall(c, args) => |args| >= 1 && WellFormed(c) && WellFormedArgs(args)
    case _ => true
  }

  predicate WellFormedArgs(args: seq<AstExpr>)
    decreases args, 0
  {
    |args| == 0 || (WellFormed(args[0]) && WellFormedArgs(args[1..]))
  }

  predicate IsAtom(e: AstExpr) {
    e.Var? || e.LiteralNum? || e.LiteralStr?
  }

  /** An additive tree: left operand at the additive level, right operand at
      the multiplicative level, so `a - (b - c)` keeps its parentheses. */
  function PrintExpr(e: AstExpr): seq<TokenType>
    decreases e, 4
  {
    PrintAdd(e)
  }

  function PrintAdd(e: AstExpr): seq<TokenType>
    decreases e, 3
  {
    match e
    case Add(l, r) => PrintAdd(l) + [OperatorAdd] + PrintMul(r)
    case Sub(l, r) => PrintAdd(l) + [OperatorSub] + PrintMul(r)
    case _ => PrintMul(e)
  }

  function PrintMul(e: AstExpr): seq<TokenType>
    decreases e, 2
  {
    match e
    case Mul(l, r) => PrintMul(l) + [OperatorMul] + PrintCall(r)
    case Div(l, r) => PrintMul(l) + [OperatorDiv] + PrintCall(r)
    case _ => PrintCall(e)
  }

  /** A call prints its callee as a primary: a callee that is itself a call
      is parenthesised, because the grammar takes one argument list only. */
  function PrintCall(e: AstExpr): seq<TokenType>
    decreases e, 1
  {
    match e
    case FnCall(c, args) => PrintPrimary(c) + [OpenParen] + PrintArgs(args)
    case _ => PrintPrimary(e)
  }

  /** An atom as its token; anything else in parentheses. */
  function PrintPrimary(e: AstExpr): seq<TokenType>
    decreases e, 0
  {
    match e
    case Var(x) => [Identifier(x)]
    case LiteralNum(n) => [TokenType.LiteralNum(n)]
    case LiteralStr(s) => [TokenType.LiteralStr(s)]
    case Add(l, r) => [OpenParen] + PrintAdd(l) + [OperatorAdd] + PrintMul(r) + [CloseParen]
    case Sub(l, r) => [OpenParen] + PrintAdd(l) + [OperatorSub] + PrintMul(r) + [CloseParen]
    case Mul(l, r) => [OpenParen] + PrintMul(l) + [OperatorMul] + PrintCall(r) + [CloseParen]
    case Div(l, r) => [OpenParen] + PrintMul(l) + [OperatorDiv] + PrintCall(r) + [CloseParen]
    case FnCall(c, args) => [OpenParen] + PrintPrimary(c) + [OpenParen] + PrintArgs(args) + [CloseParen]
  }

  /** Arguments separated by commas, then the closing `)`. */
  function PrintArgs(args: seq<AstExpr>): seq<TokenType>
    decreases args, 5
  {
    if |args| == 0 then [CloseParen]
    else if |args| == 1 then PrintExpr(args[0]) + [CloseParen]
    else PrintExpr(args[0]) + [Comma] + PrintArgs(args[1..])
  }

  /** A compound primary is the whole expression in parentheses. */
  lemma PrimaryParen(e: AstExpr)
    requires !IsAtom(e)
    ensures PrintPrimary(e) == [OpenParen] + PrintExpr(e) + [CloseParen]
  {
    match e
    case Add(l, r) =>
    case Sub(l, r) =>
    case Mul(l, r) =>
      assert PrintExpr(e) == PrintMul(e);
    case Div(l, r) =>
      assert PrintExpr(e) == PrintMul(e);
    case FnCall(c, args) =>
      assert PrintExpr(e) == PrintMul(e) == PrintCall(e);
  }

  /** Tokens after which each level stops: a call level stops at anything
      but `(`, the multiplicative level also needs no `*` or `/`, and a whole
      expression no `+` or `-` either. */
  predicate EndsCall(t: TokenType) {
    t != OpenParen
  }

  predicate EndsMul(t: TokenType) {
    EndsCall(t) && t != OperatorMul && t != OperatorDiv
  }

  predicate EndsExpr(t: TokenType) {
    EndsMul(t) && t != OperatorAdd && t != OperatorSub
  }

  /** Position of each round-trip lemma in the cycle expression → additive →
      multiplicative → call → primary → expression, and the position where a
      tree's root is taken apart. The distance between the two drops by one
      along the cycle until the root is taken apart into smaller trees; the
      lemmas' termination measure is twice that distance, plus one for a
      lemma and plus none for the helper that takes its root apart. */
  function Native(e: AstExpr): nat {
    match e
    case Add(_, _) => 1
    case Sub(_, _) => 1
    case Mul(_, _) => 3
    case Div(_, _) => 3
    case FnCall(_, _) => 4
    case _ => 5
  }

  function Rank(pos: nat, e: AstExpr): nat
    requires pos < 6
  {
    if pos <= Native(e) then Native(e) - pos else Native(e) + 6 - pos
  }

  // How a printed operator tree lies in the token sequence.

  lemma AddLayout(e: AstExpr, toks: seq<TokenType>, p: nat)
    requires (e.Add? || e.Sub?) && Spells(toks, p, PrintAdd(e))
    ensures |PrintAdd(e)| == |PrintAdd(e.lhs)| + 1 + |PrintMul(e.rhs)|
    ensures Spells(toks, p, PrintAdd(e.lhs))
    ensures PeekAt(toks, p + |PrintAdd(e.lhs)|) == if e.Add? then OperatorAdd else OperatorSub
    ensures Spells(toks, p + |PrintAdd(e.lhs)| + 1, PrintMul(e.rhs))
  {
    var op := if e.Add? then OperatorAdd else OperatorSub;
    assert PrintAdd(e) == PrintAdd(e.lhs) + [op] + PrintMul(e.rhs);
    SpellsAround(toks, p, PrintAdd(e.lhs), op, PrintMul(e.rhs));
  }

  lemma MulLayout(e: AstExpr, toks: seq<TokenType>, p: nat)
    requires (e.Mul? || e.Div?) && Spells(toks, p, PrintMul(e))
    ensures |PrintMul(e)| == |PrintMul(e.lhs)| + 1 + |PrintCall(e.rhs)|
    ensures Spells(toks, p, PrintMul(e.lhs))
    ensures PeekAt(toks, p + |PrintMul(e.lhs)|) == if e.Mul? then OperatorMul else OperatorDiv
    ensures Spells(toks, p + |PrintMul(e.lhs)| + 1, PrintCall(e.rhs))
  {
    var op := if e.Mul? then OperatorMul else OperatorDiv;
    assert PrintMul(e) == PrintMul(e.lhs) + [op] + PrintCall(e.rhs);
    SpellsAround(toks, p, PrintMul(e.lhs), op, PrintCall(e.rhs));
  }

  lemma CallLayout(e: AstExpr, toks: seq<TokenType>, p: nat)
    requires e.FnCall? && Spells(toks, p, PrintCall(e))
    ensures |PrintCall(e)| == |PrintPrimary(e.callee)| + 1 + |PrintArgs(e.args)|
    ensures Spells(toks, p, PrintPrimary(e.callee))
    ensures PeekAt(toks, p + |PrintPrimary(e.callee)|) == OpenParen
    ensures Spells(toks, p + |PrintPrimary(e.callee)| + 1, PrintArgs(e.args))
  {
    assert PrintCall(e) == PrintPrimary(e.callee) + [OpenParen] + PrintArgs(e.args);
    SpellsAround(toks, p, PrintPrimary(e.callee), OpenParen, PrintArgs(e.args));
  }

  // One step of each operator loop, and how each loop stops.

  lemma AddTailStep(toks: seq<TokenType>, e: AstExpr, q: nat, q': nat)
    requires e.Add? || e.Sub?
    requires q <= |toks| && PeekAt(toks, q) == if e.Add? then OperatorAdd else OperatorSub
    requires MulAt(toks, q + 1) == Done(e.rhs, q')
    ensures AddTail(toks, e.lhs, q) == AddTail(toks, e, q')
  {
  }

  lemma AddTailStop(toks: seq<TokenType>, lhs: AstExpr, q: nat)
    requires q <= |toks| && EndsExpr(PeekAt(toks, q))
    ensures AddTail(toks, lhs, q) == Done(lhs, q)
  {
  }

  lemma MulTailStep(toks: seq<TokenType>, e: AstExpr, q: nat, q': nat)
    requires e.Mul? || e.Div?
    requires q <= |toks| && PeekAt(toks, q) == if e.Mul? then OperatorMul else OperatorDiv
    requires CallAt(toks, q + 1) == Done(e.rhs, q')
    ensures MulTail(toks, e.lhs, q) == MulTail(toks, e, q')
  {
  }

  lemma MulTailStop(toks: seq<TokenType>, lhs: AstExpr, q: nat)
    requires q <= |toks| && EndsMul(PeekAt(toks, q))
    ensures MulTail(toks, lhs, q) == Done(lhs, q)
  {
  }

  // The round trips, level by level. Each reads the tokens printed for `e`
  // from index `p` up to index `q`, where a token that ends the level stands.

  /** `parse_expr` reads back a printed expression. */
  lemma {:induction false} ExprRoundTrip(e: AstExpr, toks: seq<TokenType>, p: nat, q: nat)
    requires WellFormed(e) && Spells(toks, p, PrintExpr(e)) && q == p + |PrintExpr(e)|
    requires EndsExpr(PeekAt(toks, q))
    ensures ExprAt(toks, p) == Done(e, q)
    decreases e, 2 * Rank(0, e) + 1
  {
    AddPrefix(e, toks, p, q);
    AddTailStop(toks, e, q);
  }

  /** The additive level reads a printed tree and then continues its loop
      with that tree as the left operand. */
  lemma {:induction false} AddPrefix(e: AstExpr, toks: seq<TokenType>, p: nat, q: nat)
    requires WellFormed(e) && Spells(toks, p, PrintAdd(e)) && q == p + |PrintAdd(e)|
    requires EndsMul(PeekAt(toks, q))
    ensures q <= |toks| && AddAt(toks, p) == AddTail(toks, e, q)
    decreases e, 2 * Rank(1, e) + 1
  {
    if e.Add? || e.Sub? {
      AddPrefixOperator(e, toks, p, q);
    } else {
      assert PrintAdd(e) == PrintMul(e);
      MulRoundTrip(e, toks, p, q);
    }
  }

  lemma {:induction false} AddPrefixOperator(e: AstExpr, toks: seq<TokenType>, p: nat, q: nat)
    requires e.Add? || e.Sub?
    requires WellFormed(e) && Spells(toks, p, PrintAdd(e)) && q == p + |PrintAdd(e)|
    requires EndsMul(PeekAt(toks, q))
    ensures q <= |toks| && AddAt(toks, p) == AddTail(toks, e, q)
    decreases e, 2 * Rank(1, e)
  {
    AddLayout(e, toks, p);
    var k := p + |PrintAdd(e.lhs)|;
    AddPrefix(e.lhs, toks, p, k);
    MulRoundTrip(e.rhs, toks, k + 1, q);
    AddTailStep(toks, e, k, q);
  }

  lemma {:induction false} MulRoundTrip(e: AstExpr, toks: seq<TokenType>, p: nat, q: nat)
    requires WellFormed(e) && Spells(toks, p, PrintMul(e)) && q == p + |PrintMul(e)|
    requires EndsMul(PeekAt(toks, q))
    ensures MulAt(toks, p) == Done(e, q)
    decreases e, 2 * Rank(2, e) + 1
  {
    MulPrefix(e, toks, p, q);
    MulTailStop(toks, e, q);
  }

  /** The multiplicative level reads a printed tree and then continues its
      loop with that tree as the left operand. */
  lemma {:induction false} MulPrefix(e: AstExpr, toks: seq<TokenType>, p: nat, q: nat)
    requires WellFormed(e) && Spells(toks, p, PrintMul(e)) && q == p + |PrintMul(e)|
    requires EndsCall(PeekAt(toks, q))
    ensures q <= |toks| && MulAt(toks, p) == MulTail(toks, e, q)
    decreases e, 2 * Rank(3, e) + 1
  {
    if e.Mul? || e.Div? {
      MulPrefixOperator(e, toks, p, q);
    } else {
      assert PrintMul(e) == PrintCall(e);
      CallRoundTrip(e, toks, p, q);
    }
  }

  lemma {:induction false} MulPrefixOperator(e: AstExpr, toks: seq<TokenType>, p: nat, q: nat)
    requires e.Mul? || e.Div?
    requires WellFormed(e) && Spells(toks, p, PrintMul(e)) && q == p + |PrintMul(e)|
    requires EndsCall(PeekAt(toks, q))
    ensures q <= |toks| && MulAt(toks, p) == MulTail(toks, e, q)
    decreases e, 2 * Rank(3, e)
  {
    MulLayout(e, toks, p);
    var k := p + |PrintMul(e.lhs)|;
    MulPrefix(e.lhs, toks, p, k);
    CallRoundTrip(e.rhs, toks, k + 1, q);
    MulTailStep(toks, e, k, q);
  }

  lemma {:induction false} CallRoundTrip(e: AstExpr, toks: seq<TokenType>, p: nat, q: nat)
    requires WellFormed(e) && Spells(toks, p, PrintCall(e)) && q == p + |PrintCall(e)|
    requires EndsCall(PeekAt(toks, q))
    ensures CallAt(toks, p) == Done(e, q)
    decreases e, 2 * Rank(4, e) + 1
  {
    if e.FnCall? {
      CallRoundTripArgs(e, toks, p, q);
    } else {
      assert PrintCall(e) == PrintPrimary(e);
      PrimaryRoundTrip(e, toks, p, q);
    }
  }

  lemma {:induction false} CallRoundTripArgs(e: AstExpr, toks: seq<TokenType>, p: nat, q: nat)
    requires e.FnCall? && WellFormed(e) && Spells(toks, p, PrintCall(e)) && q == p + |PrintCall(e)|
    ensures CallAt(toks, p) == Done(e, q)
    decreases e, 2 * Rank(4, e)
  {
    CallLayout(e, toks, p);
    var k := p + |PrintPrimary(e.callee)|;
    PrimaryRoundTrip(e.callee, toks, p, k);
    ArgsRoundTrip(e.args, toks, k + 1, q, []);
  }

  /** A primary is read back whatever follows it. */
  lemma {:induction false} PrimaryRoundTrip(e: AstExpr, toks: seq<TokenType>, p: nat, q: nat)
    requires WellFormed(e) && Spells(toks, p, PrintPrimary(e)) && q == p + |PrintPrimary(e)|
    ensures PrimaryAt(toks, p) == Done(e, q)
    decreases e, 2 * Rank(5, e) + 1
  {
    if IsAtom(e) {
      assert toks[p + 0] == PrintPrimary(e)[0];
    } else {
      PrimaryRoundTripParen(e, toks, p, q);
    }
  }

  lemma {:induction false} PrimaryRoundTripParen(e: AstExpr, toks: seq<TokenType>, p: nat, q: nat)
    requires !IsAtom(e) && WellFormed(e) && Spells(toks, p, PrintPrimary(e)) && q == p + |PrintPrimary(e)|
    ensures PrimaryAt(toks, p) == Done(e, q)
    decreases e, 2 * Rank(5, e)
  {
    var x := PrintExpr(e);
    PrimaryParen(e);
    assert PrintPrimary(e) == [] + [OpenParen] + (x + [CloseParen]);
    SpellsAround(toks, p, [], OpenParen, x + [CloseParen]);
    SpellsAround(toks, p + 1, x, CloseParen, []);
    ExprRoundTrip(e, toks, p + 1, q - 1);
    PrimaryAtParen(toks, p, e, q - 1);
  }

  /** `(`, an expression, then `)`. */
  lemma PrimaryAtParen(toks: seq<TokenType>, p: nat, e: AstExpr, k: nat)
    requires PeekAt(toks, p) == OpenParen && ExprAt(toks, p + 1) == Done(e, k) && PeekAt(toks, k) == CloseParen
    ensures PrimaryAt(toks, p) == Done(e, k + 1)
  {
  }

  /** The argument loop reads back printed arguments after those in `acc`. */
  lemma {:induction false} ArgsRoundTrip(args: seq<AstExpr>, toks: seq<TokenType>, p: nat, q: nat, acc: seq<AstExpr>)
    requires |args| >= 1 && WellFormedArgs(args) && Spells(toks, p, PrintArgs(args)) && q == p + |PrintArgs(args)|
    ensures ArgsAt(toks, p, acc) == Done(acc + args, q)
    decreases args, 1
  {
    if |args| == 1 {
      var x := PrintExpr(args[0]);
      SpellsAround(toks, p, x, CloseParen, []);
      ExprRoundTrip(args[0], toks, p, q - 1);
      assert acc + args == acc + [args[0]];
    } else {
      ArgsRoundTripMore(args, toks, p, q, acc);
    }
  }

  lemma {:induction false} ArgsRoundTripMore(args: seq<AstExpr>, toks: seq<TokenType>, p: nat, q: nat, acc: seq<AstExpr>)
    requires |args| >= 2 && WellFormedArgs(args) && Spells(toks, p, PrintArgs(args)) && q == p + |PrintArgs(args)|
    ensures ArgsAt(toks, p, acc) == Done(acc + args, q)
    decreases args, 0
  {
    var x, rest := PrintExpr(args[0]), PrintArgs(args[1..]);
    SpellsAround(toks, p, x, Comma, rest);
    var k := p + |x|;
    ExprRoundTrip(args[0], toks, p, k);
    ArgsRoundTrip(args[1..], toks, k + 1, q, acc + [args[0]]);
    AppendHead(acc, args);
  }

  /** The whole token sequence of a printed expression parses back to it. */
  lemma ParsePrintedExpr(e: AstExpr)
    requires WellFormed(e)
    ensures ExprAt(PrintExpr(e), 0) == Done(e, |PrintExpr(e)|)
  {
    ExprRoundTrip(e, PrintExpr(e), 0, |PrintExpr(e)|);
  }

  // ------------------------------------------------------------------- types

  /** Types the type grammar can build: a tuple has an element, and `<`
      wraps a type that is not itself wrapped, with no arguments. */
  predicate WellFormedType(t: Type)
    decreases t, 1
  {
    match t
    case Unit(elems) => |elems| >= 1 && WellFormedTypes(elems)
    case Anna(b, args) => args == [] && !b.Anna? && WellFormedType(b)
    case _ => true
  }

  predicate WellFormedTypes(ts: seq<Type>)
    decreases ts, 0
  {
    |ts| == 0 || (WellFormedType(ts[0]) && WellFormedTypes(ts[1..]))
  }

  /** The identifier printed for `Unknown`: any name outside the table. */
  const UnknownName: string := "_"

  /** The identifier a type outside a tuple or `<` prints as. */
  function TypeName(t: Type): (n: string)
    requires !t.Unit? && !t.Anna?
    ensures PrimitiveType(n) == t
  {
    if t.Unknown? then UnknownName else PrimitiveName(t)
  }

  function PrintType(t: Type): seq<TokenType>
    decreases t, 1
  {
    match t
    case Anna(b, _) => PrintTypePrimary(b) + [OperatorLes]
    case _ => PrintTypePrimary(t)
  }

  /** A wrapped type never stands as a primary; it prints as its base. */
  function PrintTypePrimary(t: Type): seq<TokenType>
    decreases t, 0
  {
    match t
    case Unit(elems) => [OpenParen] + PrintTypes(elems)
    case Anna(b, _) => PrintTypePrimary(b)
    case _ => [Identifier(TypeName(t))]
  }

  /** Tuple elements separated by commas, then the closing `)`. */
  function PrintTypes(ts: seq<Type>): seq<TokenType>
    decreases ts, 2
  {
    if |ts| == 0 then [CloseParen]
    else if |ts| == 1 then PrintType(ts[0]) + [CloseParen]
    else PrintType(ts[0]) + [Comma] + PrintTypes(ts[1..])
  }

  /** `parse_type` reads back a printed type that no `<` follows. */
  lemma {:induction false} TypeRoundTrip(t: Type, toks: seq<TokenType>, p: nat, q: nat)
    requires WellFormedType(t) && Spells(toks, p, PrintType(t)) && q == p + |PrintType(t)|
    requires PeekAt(toks, q) != OperatorLes
    ensures TypeAt(toks, p) == Done(t, q)
    decreases t, 2
  {
    if t.Anna? {
      var b := PrintTypePrimary(t.base);
      assert PrintType(t) == b + [OperatorLes] + [];
      SpellsAround(toks, p, b, OperatorLes, []);
      TypePrimaryRoundTrip(t.base, toks, p, q - 1);
    } else {
      assert PrintType(t) == PrintTypePrimary(t);
      TypePrimaryRoundTrip(t, toks, p, q);
    }
  }

  lemma {:induction false} TypePrimaryRoundTrip(t: Type, toks: seq<TokenType>, p: nat, q: nat)
    requires !t.Anna? && WellFormedType(t) && Spells(toks, p, PrintTypePrimary(t)) && q == p + |PrintTypePrimary(t)|
    ensures TypePrimaryAt(toks, p) == Done(t, q)
    decreases t, 1
  {
    if t.Unit? {
      TupleRoundTrip(t, toks, p, q);
    } else {
      assert toks[p + 0] == PrintTypePrimary(t)[0];
      NameRoundTrip(t, toks, p);
    }
  }

  lemma {:induction false} TupleRoundTrip(t: Type, toks: seq<TokenType>, p: nat, q: nat)
    requires t.Unit? && WellFormedType(t) && Spells(toks, p, PrintTypePrimary(t)) && q == p + |PrintTypePrimary(t)|
    ensures TypePrimaryAt(toks, p) == Done(t, q)
    decreases t, 0
  {
    var s := PrintTypes(t.elems);
    assert PrintTypePrimary(t) == [] + [OpenParen] + s;
    SpellsAround(toks, p, [], OpenParen, s);
    UnitRoundTrip(t.elems, toks, p + 1, q, []);
    assert [] + t.elems == t.elems;
  }

  /** A named type is the one identifier it prints as. */
  lemma NameRoundTrip(t: Type, toks: seq<TokenType>, p: nat)
    requires !t.Unit? && !t.Anna? && p < |toks| && toks[p] == Identifier(TypeName(t))
    ensures TypePrimaryAt(toks, p) == Done(t, p + 1)
  {
  }

  /** The element loop of a tuple type reads back printed elements after
      those in `acc`. */
  lemma {:induction false} UnitRoundTrip(ts: seq<Type>, toks: seq<TokenType>, p: nat, q: nat, acc: seq<Type>)
    requires |ts| >= 1 && WellFormedTypes(ts) && Spells(toks, p, PrintTypes(ts)) && q == p + |PrintTypes(ts)|
    ensures UnitAt(toks, p, acc) == Done(Unit(acc + ts), q)
    decreases ts, 3
  {
    if |ts| == 1 {
      UnitRoundTripLast(ts[0], toks, p, q, acc);
      assert acc + ts == acc + [ts[0]];
    } else {
      UnitRoundTripMore(ts, toks, p, q, acc);
    }
  }

  lemma {:induction false} UnitRoundTripLast(t: Type, toks: seq<TokenType>, p: nat, q: nat, acc: seq<Type>)
    requires WellFormedType(t) && Spells(toks, p, PrintType(t) + [CloseParen]) && q == p + |PrintType(t)| + 1
    ensures UnitAt(toks, p, acc) == Done(Unit(acc + [t]), q)
    decreases t, 3
  {
    var x := PrintType(t);
    assert x + [CloseParen] == x + [CloseParen] + [];
    SpellsAround(toks, p, x, CloseParen, []);
    TypeRoundTrip(t, toks, p, q - 1);
  }

  /** The first element of a printed tuple and its comma are read, and the
      loop goes on at the printed rest. */
  lemma {:induction false} UnitRoundTripHead(ts: seq<Type>, toks: seq<TokenType>, p: nat, k: nat, q: nat, acc: seq<Type>)
    requires |ts| >= 2 && WellFormedTypes(ts) && Spells(toks, p, PrintTypes(ts)) && q == p + |PrintTypes(ts)|
    requires k == p + |PrintType(ts[0])| + 1
    ensures Spells(toks, k, PrintTypes(ts[1..])) && q == k + |PrintTypes(ts[1..])|
    ensures UnitAt(toks, p, acc) == UnitAt(toks, k, acc + [ts[0]])
    decreases ts, 1
  {
    var x := PrintType(ts[0]);
    var rest := PrintTypes(ts[1..]);
    assert PrintTypes(ts) == x + [Comma] + rest;
    SpellsAround(toks, p, x, Comma, rest);
    TypeRoundTrip(ts[0], toks, p, k - 1);
    UnitAtStep(toks, p, acc, ts[0], k - 1);
  }

  lemma {:induction false} UnitRoundTripMore(ts: seq<Type>, toks: seq<TokenType>, p: nat, q: nat, acc: seq<Type>)
    requires |ts| >= 2 && WellFormedTypes(ts) && Spells(toks, p, PrintTypes(ts)) && q == p + |PrintTypes(ts)|
    ensures UnitAt(toks, p, acc) == Done(Unit(acc + ts), q)
    decreases ts, 2
  {
    var k := p + |PrintType(ts[0])| + 1;
    UnitRoundTripHead(ts, toks, p, k, q, acc);
    UnitRoundTrip(ts[1..], toks, k, q, acc + [ts[0]]);
    AppendHead(acc, ts);
  }

  /** After an element and a token other than `)`, the loop goes on. */
  lemma UnitAtStep(toks: seq<TokenType>, p: nat, acc: seq<Type>, t: Type, k: nat)
    requires TypeAt(toks, p) == Done(t, k) && PeekAt(toks, k) != CloseParen
    ensures UnitAt(toks, p, acc) == UnitAt(toks, k + 1, acc + [t])
  {
  }

  /** The whole token sequence of a printed type parses back to it. */
  lemma ParsePrintedType(t: Type)
    requires WellFormedType(t)
    ensures TypeAt(PrintType(t), 0) == Done(t, |PrintType(t)|)
  {
    TypeRoundTrip(t, PrintType(t), 0, |PrintType(t)|);
  }
}
