/// Reference definition of the definition, statement, block and program
/// grammars. These parsers also draw fresh symbols and append to the function
/// table, so they thread a `PState`: the cursor, the symbol counter and the
/// table, exactly the three parts of the parser object they change.
module DefGrammar {
  import opened Wrappers
  import opened Token
  import opened Ast
  import opened Symbols
  import opened ExprGrammar

  datatype PState = PState(curr: nat, symId: nat, fnDefs: seq<WithScope<FnDef>>)

  /** A value built together with the state after it, or the first error. */
  datatype Run<T> = Ran(value: T, st: PState) | Halt(error: ParseError)

  /** The counter never goes down and the table is only appended to. */
  predicate Grows(st: PState, st': PState) {
    st.symId <= st'.symId && st.fnDefs <= st'.fnDefs
  }

  // ------------------------------------------------------------------ symbols

  /** The names `sym_name` hands out while the counter goes from `base` to
      `base + n`. */
  function SymSet(base: nat, n: nat): set<string>
    decreases n
  {
    if n == 0 then {} else SymSet(base, n - 1) + {SymbolName(base + n)}
  }

  /** The arguments drawn so far got the symbols `base + 1`, `base + 2`, ... in
      order, and the type map holds exactly those keys. */
  predicate Keyed(args: seq<FnArg>, types: map<string, Type>, base: nat) {
    && (forall i :: 0 <= i < |args| ==> args[i].typeSymbol == SymbolName(base + i + 1))
    && types.Keys == SymSet(base, |args|)
  }

  /** The shape of every table entry made while the counter stood at `base`:
      one symbol per argument in order, then one for the return type, and no
      other key. */
  predicate WellFormedDef(def: FnDef, base: nat) {
    && (forall i :: 0 <= i < |def.arguments| ==> def.arguments[i].typeSymbol == SymbolName(base + i + 1))
    && def.retType == SymbolName(base + |def.arguments| + 1)
    && def.types.Keys == SymSet(base, |def.arguments| + 1)
  }

  /** Drawing the next symbol for one more argument keeps `Keyed`. */
  lemma KeyedStep(args: seq<FnArg>, types: map<string, Type>, base: nat, name: string, t: Type)
    requires Keyed(args, types, base)
    ensures var a := SymbolName(base + |args| + 1);
      Keyed(args + [FnArg(name, a)], types[a := t], base)
  {
    var a := SymbolName(base + |args| + 1);
    assert types[a := t].Keys == types.Keys + {a};
  }

  /** Drawing the return symbol after the arguments gives a well-formed entry. */
  lemma KeyedToWellFormed(args: seq<FnArg>, types: map<string, Type>, base: nat, name: string, ret: Type)
    requires Keyed(args, types, base)
    ensures var a := SymbolName(base + |args| + 1);
      WellFormedDef(FnDef(name, types[a := ret], args, a), base)
  {
    var a := SymbolName(base + |args| + 1);
    assert types[a := ret].Keys == types.Keys + {a};
  }

  /** Every symbol drawn in the range is in the set. */
  lemma {:induction false} SymSetHas(base: nat, n: nat, i: nat)
    requires 1 <= i <= n
    ensures SymbolName(base + i) in SymSet(base, n)
    decreases n
  {
    if i < n {
      SymSetHas(base, n - 1, i);
    }
  }

  /** A symbol drawn later is not among the earlier ones. */
  lemma {:induction false} SymSetFresh(base: nat, n: nat, m: nat)
    requires m > n
    ensures SymbolName(base + m) !in SymSet(base, n)
    decreases n
  {
    if n > 0 {
      SymbolNameInjective(base + m, base + n);
      SymSetFresh(base, n - 1, m);
    }
  }

  /** Drawing `n` symbols gives `n` different names. */
  lemma {:induction false} SymSetCard(base: nat, n: nat)
    ensures |SymSet(base, n)| == n
    decreases n
  {
    if n > 0 {
      SymSetFresh(base, n - 1, n);
      SymSetCard(base, n - 1);
    }
  }

  /** A table entry types every symbol it names, its symbols are pairwise
      different, and its type map has no key besides them. */
  lemma WellFormedDefTyped(def: FnDef, base: nat)
    requires WellFormedDef(def, base)
    ensures |def.types| == |def.arguments| + 1
    ensures def.retType in def.types
    ensures forall i :: 0 <= i < |def.arguments| ==> def.arguments[i].typeSymbol in def.types
    ensures forall i, j :: 0 <= i < j < |def.arguments| ==> def.arguments[i].typeSymbol != def.arguments[j].typeSymbol
    ensures forall i :: 0 <= i < |def.arguments| ==> def.arguments[i].typeSymbol != def.retType
  {
    var n := |def.arguments|;
    SymSetCard(base, n + 1);
    assert |def.types| == |def.types.Keys|;
    SymSetHas(base, n + 1, n + 1);
    forall i | 0 <= i < n
      ensures def.arguments[i].typeSymbol in def.types
      ensures def.arguments[i].typeSymbol != def.retType
    {
      SymSetHas(base, n + 1, i + 1);
      SymbolNameInjective(base + i + 1, base + n + 1);
    }
    forall i, j | 0 <= i < j < n
      ensures def.arguments[i].typeSymbol != def.arguments[j].typeSymbol
    {
      SymbolNameInjective(base + i + 1, base + j + 1);
    }
  }

  // -------------------------------------------------------------- scope finder

  predicate IsDedent(t: TokenType, tier: nat) {
    t.IdentTier? && t.tier < tier
  }

  /** The first index at or after `idx` holding a tier marker below `tier`. */
  function DedentFrom(toks: seq<TokenType>, idx: nat, tier: nat): (r: Option<nat>)
    ensures r.Some? ==> idx <= r.value < |toks| && IsDedent(toks[r.value], tier)
    ensures r.Some? ==> forall k :: idx <= k < r.value ==> !IsDedent(toks[k], tier)
    ensures r.None? ==> forall k :: idx <= k < |toks| ==> !IsDedent(toks[k], tier)
    decreases |toks| - idx
  {
    if idx >= |toks| then None
    else if IsDedent(toks[idx], tier) then Some(idx)
    else DedentFrom(toks, idx + 1, tier)
  }

  /** `find_scope`: the block that starts at the cursor ends just before the
      first token dedenting below `tier`. The loop tests the cursor's end of
      input, not the scan index, so without such a token the scan reads past
      the end and fails. */
  function FindScopeAt(toks: seq<TokenType>, curr: nat, tier: nat): (r: Result<Scope>)
    ensures r.Ok? ==> r.value.Block? && r.value.start == curr && curr <= r.value.end
    ensures r.Ok? && IsEofAt(toks, curr) ==> r.value.end == curr
    ensures r.Ok? && !IsEofAt(toks, curr) ==>
      r.value.end < |toks| && IsDedent(toks[r.value.end], tier)
      && forall k :: curr <= k < r.value.end ==> !IsDedent(toks[k], tier)
    ensures r.Err? <==>
      !IsEofAt(toks, curr) && forall k :: curr <= k < |toks| ==> !IsDedent(toks[k], tier)
    ensures r.Err? ==> r.error == OutOfRange(|toks|)
  {
    if IsEofAt(toks, curr) then Ok(Block(curr, curr))
    else match DedentFrom(toks, curr, tier)
      case Some(e) => Ok(Block(curr, e))
      case None => Err(OutOfRange(|toks|))
  }

  // ------------------------------------------------------- function definitions

  /** What the argument loop has built: the arguments and their type map. */
  datatype Signature = Signature(args: seq<FnArg>, types: map<string, Type>)

  /** One argument of `parse_fn_definion`: `name : type`. */
  function FnArgAt(toks: seq<TokenType>, p: nat): (r: Parsed<(string, Type)>)
    ensures r.Done? ==> p + 2 < r.next <= |toks| && PeekAt(toks, p) == Identifier(r.value.0)
  {
    match PeekAt(toks, p)
    case Identifier(argn) =>
      if PeekAt(toks, p + 1) != OperatorColon then Fail(Syntax(p + 1))
      else
        (match TypeAt(toks, p + 2)
         case Fail(e) => Fail(e)
         case Done(t, q) => Done((argn, t), q))
    case _ => Fail(Syntax(p))
  }

  /** The argument loop of `parse_fn_definion`: `)` ends it; otherwise an
      argument, then `)` or one skipped separator. With the counter at
      `base` when the loop began, the argument after `args` has its type
      stored under symbol `base + |args| + 1`. */
  function FnArgsAt(toks: seq<TokenType>, p: nat, base: nat, args: seq<FnArg>, types: map<string, Type>)
    : (r: Parsed<Signature>)
    ensures r.Done? ==> p < r.next <= |toks|
    decreases Remaining(toks, p)
  {
    if PeekAt(toks, p) == CloseParen then Done(Signature(args, types), p + 1)
    else match FnArgAt(toks, p)
      case Fail(e) => Fail(e)
      case Done((argn, t), q) =>
        var a := SymbolName(base + |args| + 1);
        var args' := args + [FnArg(argn, a)];
        var types' := types[a := t];
        if PeekAt(toks, q) == CloseParen then Done(Signature(args', types'), q + 1)
        else if IsEofAt(toks, q + 1) then Fail(Unterminated(q + 1))
        else FnArgsAt(toks, q + 1, base, args', types')
  }

  /** The argument list read as plain `(name, type)` pairs, drawing no
      symbols: the reference the argument loop's signature is checked
      against. */
  function ArgPairsAt(toks: seq<TokenType>, p: nat, acc: seq<(string, Type)>): (r: Parsed<seq<(string, Type)>>)
    ensures r.Done? ==> p < r.next <= |toks|
    decreases Remaining(toks, p)
  {
    if PeekAt(toks, p) == CloseParen then Done(acc, p + 1)
    else match FnArgAt(toks, p)
      case Fail(e) => Fail(e)
      case Done(pr, q) =>
        if PeekAt(toks, q) == CloseParen then Done(acc + [pr], q + 1)
        else if IsEofAt(toks, q + 1) then Fail(Unterminated(q + 1))
        else ArgPairsAt(toks, q + 1, acc + [pr])
  }

  /** `args` and `types` record `pairs`: the symbols are keyed from `base`,
      the names come in the same order, and each argument's symbol maps to
      the type read for it. */
  predicate Binds(args: seq<FnArg>, types: map<string, Type>, base: nat, pairs: seq<(string, Type)>) {
    && Keyed(args, types, base)
    && |args| == |pairs|
    && forall i :: 0 <= i < |args| ==>
         args[i].name == pairs[i].0 && args[i].typeSymbol in types && types[args[i].typeSymbol] == pairs[i].1
  }

  /** Recording one more pair under the next symbol keeps `Binds`: the new
      symbol is fresh, so no earlier argument's type is overwritten. */
  lemma BindsStep(args: seq<FnArg>, types: map<string, Type>, base: nat, pairs: seq<(string, Type)>, name: string, t: Type)
    requires Binds(args, types, base, pairs)
    ensures var a := SymbolName(base + |args| + 1);
      Binds(args + [FnArg(name, a)], types[a := t], base, pairs + [(name, t)])
  {
    var a := SymbolName(base + |args| + 1);
    KeyedStep(args, types, base, name, t);
    SymSetFresh(base, |args|, |args| + 1);
    assert a !in types;
  }

  /** One round of the argument loop that neither closes nor fails hands
      over to the next round with one more argument. */
  lemma FnArgsAtStep(toks: seq<TokenType>, p: nat, base: nat, args: seq<FnArg>, types: map<string, Type>,
                     argn: string, t: Type, q: nat, a: string)
    requires PeekAt(toks, p) != CloseParen && FnArgAt(toks, p) == Done((argn, t), q)
    requires PeekAt(toks, q) != CloseParen && !IsEofAt(toks, q + 1) && a == SymbolName(base + |args| + 1)
    ensures FnArgsAt(toks, p, base, args, types) == FnArgsAt(toks, q + 1, base, args + [FnArg(argn, a)], types[a := t])
  {
  }

  // The ways one round of the argument loop ends it.

  /** `)` before an argument closes the list. */
  lemma FnArgsAtClose(toks: seq<TokenType>, p: nat, base: nat, args: seq<FnArg>, types: map<string, Type>)
    requires PeekAt(toks, p) == CloseParen
    ensures FnArgsAt(toks, p, base, args, types) == Done(Signature(args, types), p + 1)
  {
  }

  /** An argument that does not parse ends the loop with its error. */
  lemma FnArgsAtArgFails(toks: seq<TokenType>, p: nat, base: nat, args: seq<FnArg>, types: map<string, Type>)
    requires PeekAt(toks, p) != CloseParen && FnArgAt(toks, p).Fail?
    ensures FnArgsAt(toks, p, base, args, types) == Fail(FnArgAt(toks, p).error)
  {
  }

  /** `)` after an argument closes the list with that argument recorded
      under the next symbol. */
  lemma FnArgsAtLast(toks: seq<TokenType>, p: nat, base: nat, args: seq<FnArg>, types: map<string, Type>,
                     argn: string, t: Type, q: nat, a: string)
    requires PeekAt(toks, p) != CloseParen && FnArgAt(toks, p) == Done((argn, t), q)
    requires PeekAt(toks, q) == CloseParen && a == SymbolName(base + |args| + 1)
    ensures FnArgsAt(toks, p, base, args, types) == Done(Signature(args + [FnArg(argn, a)], types[a := t]), q + 1)
  {
  }

  /** The end of input right after the skipped separator. */
  lemma FnArgsAtUnterminated(toks: seq<TokenType>, p: nat, base: nat, args: seq<FnArg>, types: map<string, Type>,
                             argn: string, t: Type, q: nat)
    requires PeekAt(toks, p) != CloseParen && FnArgAt(toks, p) == Done((argn, t), q)
    requires PeekAt(toks, q) != CloseParen && IsEofAt(toks, q + 1)
    ensures FnArgsAt(toks, p, base, args, types) == Fail(Unterminated(q + 1))
  {
  }

  /** An optional `-> type`; without it the return type is the empty tuple. */
  function ReturnTypeAt(toks: seq<TokenType>, p: nat): (r: Parsed<Type>)
    ensures r.Done? ==> p <= r.next && (p <= |toks| ==> r.next <= |toks|)
    ensures PeekAt(toks, p) != OperatorArrow ==> r == Done(Unit([]), p)
  {
    if PeekAt(toks, p) == OperatorArrow then TypeAt(toks, p + 1) else Done(Unit([]), p)
  }

  /** `parse_fn_definion`, entered just after `fn`. The table entry is
      appended before the body is parsed, so definitions nested in the body
      come after it in the table. */
  function FnDefinitionAt(toks: seq<TokenType>, tier: nat, st: PState): (r: Run<Option<AstNode>>)
    ensures r.Ran? ==> st.curr < r.st.curr <= |toks| && Grows(st, r.st)
    decreases Remaining(toks, st.curr), 0
  {
    var p := st.curr;
    var t := PeekAt(toks, p);
    if t == OperatorLes then Halt(Unsupported(p))
    else if !t.Identifier? then Halt(Syntax(p + 1))
    else if PeekAt(toks, p + 1) != OpenParen then Halt(Syntax(p + 1))
    else FnSignatureAt(toks, tier, t.name, st.(curr := p + 2))
  }

  /** The table entry `parse_fn_definion` appends when the counter stood at
      `base` before the arguments. */
  function FnEntry(fname: string, base: nat, sig: Signature, ret: Type): WithScope<FnDef> {
    var sym := SymbolName(base + |sig.args| + 1);
    WithScope(FnDef(fname, sig.types[sym := ret], sig.args, sym), Global)
  }

  /** The part of `parse_fn_definion` after `(`: the arguments, the return
      type, the new entry, then the body. */
  function FnSignatureAt(toks: seq<TokenType>, tier: nat, fname: string, st: PState): (r: Run<Option<AstNode>>)
    ensures r.Ran? ==> st.curr < r.st.curr <= |toks| && Grows(st, r.st)
    decreases Remaining(toks, st.curr), 1
  {
    match FnArgsAt(toks, st.curr, st.symId, [], map[])
    case Fail(e) => Halt(e)
    case Done(sig, q) =>
      match ReturnTypeAt(toks, q)
      case Fail(e) => Halt(e)
      case Done(ret, q') =>
        var st1 := PState(q', st.symId + |sig.args| + 1, st.fnDefs + [FnEntry(fname, st.symId, sig, ret)]);
        FnBodyAt(toks, tier, fname, st1)
  }

  /** `fn name (` hands over to the signature part. */
  lemma FnDefinitionAtSignature(toks: seq<TokenType>, tier: nat, st: PState, fname: string)
    requires PeekAt(toks, st.curr) == Identifier(fname) && PeekAt(toks, st.curr + 1) == OpenParen
    ensures FnDefinitionAt(toks, tier, st) == FnSignatureAt(toks, tier, fname, st.(curr := st.curr + 2))
  {
  }

  /** `fn` followed by `<` is the unimplemented generic form; any other
      token than a name, or a name without `(`, is an error at the token
      after the name position. A definition that yields a node yields a
      function node. */
  lemma FnDefinitionAtCases(toks: seq<TokenType>, tier: nat, st: PState)
    ensures var r := FnDefinitionAt(toks, tier, st);
      && (PeekAt(toks, st.curr) == OperatorLes ==> r == Halt(Unsupported(st.curr)))
      && (PeekAt(toks, st.curr) != OperatorLes && !PeekAt(toks, st.curr).Identifier? ==>
            r == Halt(Syntax(st.curr + 1)))
      && (PeekAt(toks, st.curr).Identifier? && PeekAt(toks, st.curr + 1) != OpenParen ==>
            r == Halt(Syntax(st.curr + 1)))
      && (r.Ran? && r.value.Some? ==> r.value.value.Fn? && r.value.value.name == PeekAt(toks, st.curr).name)
  {
    var p := st.curr;
    if PeekAt(toks, p).Identifier? && PeekAt(toks, p + 1) == OpenParen {
      var fname := PeekAt(toks, p).name;
      var sr := FnArgsAt(toks, p + 2, st.symId, [], map[]);
      if sr.Done? {
        var rr := ReturnTypeAt(toks, sr.next);
        if rr.Done? {
          FnSignatureAtBody(toks, tier, st.(curr := p + 2), fname, sr.value, sr.next, rr.value, rr.next);
        }
      }
    }
  }

  /** Arguments and a return type that both parse hand over to the body, with
      the new entry appended. */
  lemma FnSignatureAtBody(toks: seq<TokenType>, tier: nat, st: PState, fname: string,
                          sig: Signature, q: nat, ret: Type, q': nat)
    requires FnArgsAt(toks, st.curr, st.symId, [], map[]) == Done(sig, q)
    requires ReturnTypeAt(toks, q) == Done(ret, q')
    ensures q' <= |toks|
    ensures FnSignatureAt(toks, tier, fname, st)
         == FnBodyAt(toks, tier, fname, PState(q', st.symId + |sig.args| + 1, st.fnDefs + [FnEntry(fname, st.symId, sig, ret)]))
  {
  }

  /** The optional body: `=` then either a block one tier deeper, or a single
      expression that becomes a one-statement block. No `=` means a
      declaration only. */
  function FnBodyAt(toks: seq<TokenType>, tier: nat, fname: string, st: PState): (r: Run<Option<AstNode>>)
    requires st.curr <= |toks|
    ensures r.Ran? ==> st.curr <= r.st.curr <= |toks| && Grows(st, r.st)
    ensures r.Ran? ==> (r.value.None? <==> PeekAt(toks, st.curr) != OperatorAssign)
    ensures r.Ran? && r.value.None? ==> r.st == st
    ensures r.Ran? && r.value.Some? ==> r.value.value.Fn? && r.value.value.name == fname
    decreases Remaining(toks, st.curr), 1
  {
    var c := st.curr;
    if PeekAt(toks, c) != OperatorAssign then Ran(None, st)
    else if PeekAt(toks, c + 1) == IdentTier(tier + 1) then
      match BlockAt(toks, tier + 1, st.(curr := c + 2))
      case Halt(e) => Halt(e)
      case Ran(body, st') => Ran(Some(Fn(fname, body)), st')
    else
      match ExprAt(toks, c + 1)
      case Fail(e) => Halt(e)
      case Done(e, q) => Ran(Some(Fn(fname, [Expr(e)])), st.(curr := q))
  }

  /** The argument loop keeps the arguments it started with as a prefix. */
  lemma {:induction false} FnArgsAtPrefix(toks: seq<TokenType>, p: nat, base: nat, args: seq<FnArg>, types: map<string, Type>)
    ensures FnArgsAt(toks, p, base, args, types).Done? ==>
      |args| <= |FnArgsAt(toks, p, base, args, types).value.args|
      && FnArgsAt(toks, p, base, args, types).value.args[..|args|] == args
    decreases Remaining(toks, p)
  {
    var r := FnArgsAt(toks, p, base, args, types);
    if PeekAt(toks, p) == CloseParen {
      assert r.value.args[..|args|] == args;
    } else if FnArgAt(toks, p).Done? {
      var (argn, t) := FnArgAt(toks, p).value;
      var q := FnArgAt(toks, p).next;
      var a := SymbolName(base + |args| + 1);
      var args' := args + [FnArg(argn, a)];
      if PeekAt(toks, q) == CloseParen {
        assert args'[..|args|] == args;
      } else if !IsEofAt(toks, q + 1) {
        FnArgsAtPrefix(toks, q + 1, base, args', types[a := t]);
        if r.Done? {
          assert r.value.args[..|args|] == r.value.args[..|args'|][..|args|];
        }
      }
    }
  }

  /** The argument loop and the symbol-free reading of the same tokens
      succeed together, stop at the same index or fail with the same error,
      and the signature records the pairs read: one fresh symbol per
      argument, in order, mapped to its type. */
  lemma {:induction false} FnArgsAtBinds(toks: seq<TokenType>, p: nat, base: nat, args: seq<FnArg>,
                                         types: map<string, Type>, pairs: seq<(string, Type)>)
    requires Binds(args, types, base, pairs)
    ensures FnArgsAt(toks, p, base, args, types).Done? <==> ArgPairsAt(toks, p, pairs).Done?
    ensures FnArgsAt(toks, p, base, args, types).Fail? ==>
      ArgPairsAt(toks, p, pairs) == Fail(FnArgsAt(toks, p, base, args, types).error)
    ensures FnArgsAt(toks, p, base, args, types).Done? ==>
      && FnArgsAt(toks, p, base, args, types).next == ArgPairsAt(toks, p, pairs).next
      && Binds(FnArgsAt(toks, p, base, args, types).value.args, FnArgsAt(toks, p, base, args, types).value.types,
               base, ArgPairsAt(toks, p, pairs).value)
    decreases Remaining(toks, p)
  {
    if PeekAt(toks, p) != CloseParen && FnArgAt(toks, p).Done? {
      var (argn, t) := FnArgAt(toks, p).value;
      var q := FnArgAt(toks, p).next;
      var a := SymbolName(base + |args| + 1);
      BindsStep(args, types, base, pairs, argn, t);
      if PeekAt(toks, q) != CloseParen && !IsEofAt(toks, q + 1) {
        FnArgsAtBinds(toks, q + 1, base, args + [FnArg(argn, a)], types[a := t], pairs + [(argn, t)]);
      }
    }
  }

  /** The entry built from a recorded signature keeps each argument's type
      and stores the return type under the return symbol. */
  lemma FnEntryBinds(fname: string, base: nat, sig: Signature, ret: Type, pairs: seq<(string, Type)>)
    requires Binds(sig.args, sig.types, base, pairs)
    ensures var d := FnEntry(fname, base, sig, ret).value;
      && d.name == fname && d.arguments == sig.args
      && d.retType in d.types && d.types[d.retType] == ret
      && forall i :: 0 <= i < |pairs| ==>
           d.arguments[i].name == pairs[i].0 && d.arguments[i].typeSymbol in d.types
           && d.types[d.arguments[i].typeSymbol] == pairs[i].1
  {
    var n := |sig.args|;
    forall i | 0 <= i < n
      ensures sig.args[i].typeSymbol != SymbolName(base + n + 1)
    {
      SymbolNameInjective(base + i + 1, base + n + 1);
    }
  }

  /** A successful `parse_fn_definion` appends its own entry first: a global
      entry named by the identifier after `fn`, with one fresh symbol per
      argument and one for the return type. A declaration-only function appends
      exactly that entry; FnDefinitionExpressionEntry shows the same for a body
      that is a single expression. */
  lemma FnDefinitionEntry(toks: seq<TokenType>, tier: nat, st: PState)
    ensures var r := FnDefinitionAt(toks, tier, st);
      r.Ran? ==>
        && |r.st.fnDefs| > |st.fnDefs|
        && var d := r.st.fnDefs[|st.fnDefs|];
        && d.scope == Global
        && PeekAt(toks, st.curr) == Identifier(d.value.name)
        && WellFormedDef(d.value, st.symId)
        && st.symId + |d.value.arguments| + 1 <= r.st.symId
        && (r.value.None? ==> r.st.fnDefs == st.fnDefs + [d] && r.st.symId == st.symId + |d.value.arguments| + 1)
        && (r.value.Some? ==> r.value.value.Fn? && r.value.value.name == d.value.name)
  {
    var r := FnDefinitionAt(toks, tier, st);
    if r.Ran? {
      var p := st.curr;
      var fname := PeekAt(toks, p).name;
      assert PeekAt(toks, p).Identifier? && PeekAt(toks, p + 1) == OpenParen;
      assert r == FnSignatureAt(toks, tier, fname, st.(curr := p + 2));
      var sr := FnArgsAt(toks, p + 2, st.symId, [], map[]);
      assert sr.Done?;
      assert Keyed(sr.value.args, sr.value.types, st.symId) by {
        assert Binds([], map[], st.symId, []);
        FnArgsAtBinds(toks, p + 2, st.symId, [], map[], []);
      }
      var rr := ReturnTypeAt(toks, sr.next);
      assert rr.Done?;
      var sig, ret := sr.value, rr.value;
      var d := FnEntry(fname, st.symId, sig, ret);
      var st1 := PState(rr.next, st.symId + |sig.args| + 1, st.fnDefs + [d]);
      assert r == FnBodyAt(toks, tier, fname, st1) by {
        FnSignatureAtBody(toks, tier, st.(curr := p + 2), fname, sig, sr.next, ret, rr.next);
      }
      assert WellFormedDef(d.value, st.symId) by {
        KeyedToWellFormed(sig.args, sig.types, st.symId, fname, ret);
      }
      assert r.st.fnDefs[|st.fnDefs|] == d by {
        assert st1.fnDefs <= r.st.fnDefs;
        assert st1.fnDefs[|st.fnDefs|] == d;
      }
    }
  }

  /** A function whose body is `= expr` on the same line succeeds exactly when
      that expression parses, and then appends exactly its own entry and draws
      exactly one symbol per argument plus one for the return type. */
  lemma FnDefinitionExpressionEntry(toks: seq<TokenType>, tier: nat, st: PState,
                                    sig: Signature, q: nat, ret: Type, q': nat)
    requires PeekAt(toks, st.curr).Identifier? && PeekAt(toks, st.curr + 1) == OpenParen
    requires FnArgsAt(toks, st.curr + 2, st.symId, [], map[]) == Done(sig, q)
    requires ReturnTypeAt(toks, q) == Done(ret, q')
    requires PeekAt(toks, q') == OperatorAssign && PeekAt(toks, q' + 1) != IdentTier(tier + 1)
    ensures FnDefinitionAt(toks, tier, st).Ran? <==> ExprAt(toks, q' + 1).Done?
    ensures FnDefinitionAt(toks, tier, st).Ran? ==>
      && FnDefinitionAt(toks, tier, st).st.fnDefs
           == st.fnDefs + [FnEntry(PeekAt(toks, st.curr).name, st.symId, sig, ret)]
      && FnDefinitionAt(toks, tier, st).st.symId == st.symId + |sig.args| + 1
  {
    var fname := PeekAt(toks, st.curr).name;
    var s2 := PState(st.curr + 2, st.symId, st.fnDefs);
    assert st.(curr := st.curr + 2) == s2;
    FnDefinitionAtSignature(toks, tier, st, fname);
    FnSignatureAtBody(toks, tier, s2, fname, sig, q, ret, q');
    var st1 := PState(q', st.symId + |sig.args| + 1, st.fnDefs + [FnEntry(fname, st.symId, sig, ret)]);
    FnBodyExpression(toks, tier, fname, st1);
  }

  /** What the new entry records: the arguments as the symbol-free reading
      gives them, in order, each symbol mapped to the type read for it, and
      under the return symbol the type after `->`, or `()` without one. */
  lemma FnDefinitionTypes(toks: seq<TokenType>, tier: nat, st: PState)
    ensures var r := FnDefinitionAt(toks, tier, st);
      r.Ran? ==>
        var pr := ArgPairsAt(toks, st.curr + 2, []);
        && pr.Done? && ReturnTypeAt(toks, pr.next).Done?
        && |r.st.fnDefs| > |st.fnDefs|
        && var d := r.st.fnDefs[|st.fnDefs|].value;
        && |d.arguments| == |pr.value|
        && (forall i :: 0 <= i < |d.arguments| ==>
              d.arguments[i].name == pr.value[i].0 && d.arguments[i].typeSymbol in d.types
              && d.types[d.arguments[i].typeSymbol] == pr.value[i].1)
        && d.retType in d.types && d.types[d.retType] == ReturnTypeAt(toks, pr.next).value
        && (PeekAt(toks, pr.next) != OperatorArrow ==> d.types[d.retType] == Unit([]))
  {
    var r := FnDefinitionAt(toks, tier, st);
    if r.Ran? {
      var p := st.curr;
      var fname := PeekAt(toks, p).name;
      assert r == FnSignatureAt(toks, tier, fname, st.(curr := p + 2));
      var sr := FnArgsAt(toks, p + 2, st.symId, [], map[]);
      var pr := ArgPairsAt(toks, p + 2, []);
      assert Binds([], map[], st.symId, []);
      FnArgsAtBinds(toks, p + 2, st.symId, [], map[], []);
      assert sr.Done? && pr.Done? && sr.next == pr.next;
      var rr := ReturnTypeAt(toks, sr.next);
      assert rr.Done?;
      var sig, ret := sr.value, rr.value;
      var d := FnEntry(fname, st.symId, sig, ret);
      FnEntryBinds(fname, st.symId, sig, ret, pr.value);
      var st1 := PState(rr.next, st.symId + |sig.args| + 1, st.fnDefs + [d]);
      assert r == FnBodyAt(toks, tier, fname, st1) by {
        FnSignatureAtBody(toks, tier, st.(curr := p + 2), fname, sig, sr.next, ret, rr.next);
      }
      assert r.st.fnDefs[|st.fnDefs|] == d by {
        assert st1.fnDefs <= r.st.fnDefs;
        assert st1.fnDefs[|st.fnDefs|] == d;
      }
    }
  }

  /** `= expr` as a body: a function node whose block is exactly that
      expression, and nothing else in the state changes but the cursor. */
  lemma FnBodyExpression(toks: seq<TokenType>, tier: nat, fname: string, st: PState)
    requires st.curr <= |toks| && PeekAt(toks, st.curr) == OperatorAssign
    requires PeekAt(toks, st.curr + 1) != IdentTier(tier + 1)
    ensures var r := FnBodyAt(toks, tier, fname, st);
      match ExprAt(toks, st.curr + 1)
      case Fail(e) => r == Halt(e)
      case Done(e, q) => r == Ran(Some(Fn(fname, [Expr(e)])), st.(curr := q))
  {
  }

  // ------------------------------------------------------- definition dispatch

  predicate IsDefinitionKeyword(t: TokenType) {
    t.KeywordFn? || t.KeywordEnum? || t.KeywordStruct? || t.KeywordTrait? || t.KeywordImpl?
  }

  /** `parse_definion`: consumes one token; `fn` starts a function, the other
      definition keywords are unimplemented, and anything else is not a
      definition: the cursor is then stepped back twice and `None` returned. */
  function DefinitionAt(toks: seq<TokenType>, tier: nat, st: PState): (r: Run<Option<Option<AstNode>>>)
    requires st.curr >= 1
    ensures r.Ran? ==> (r.value.None? <==> !IsDefinitionKeyword(PeekAt(toks, st.curr)))
    ensures !IsDefinitionKeyword(PeekAt(toks, st.curr)) ==> r == Ran(None, st.(curr := st.curr - 1))
    ensures r.Ran? && r.value.Some? ==> st.curr < r.st.curr <= |toks| && Grows(st, r.st)
    ensures IsDefinitionKeyword(PeekAt(toks, st.curr)) && !PeekAt(toks, st.curr).KeywordFn? ==>
      r == Halt(Unsupported(st.curr))
    decreases Remaining(toks, st.curr), 1
  {
    var p := st.curr;
    if PeekAt(toks, p) == KeywordFn then
      match FnDefinitionAt(toks, tier, st.(curr := p + 1))
      case Halt(e) => Halt(e)
      case Ran(n, st') => Ran(Some(n), st')
    else if IsDefinitionKeyword(PeekAt(toks, p)) then Halt(Unsupported(p))
    else Ran(None, st.(curr := p - 1))
  }

  // --------------------------------------------------- statements and blocks

  /** After a matching tier marker, a token that starts no definition: the
      look-ahead, the two steps back and the step forward add up to reading
      an expression from the token right after the marker. */
  lemma StmtAtExpression(toks: seq<TokenType>, tier: nat, st: PState)
    requires PeekAt(toks, st.curr) == IdentTier(tier) && !IsDefinitionKeyword(PeekAt(toks, st.curr + 1))
    ensures var r := StmtAt(toks, tier, st);
      match ExprAt(toks, st.curr + 1)
      case Fail(e) => r == Halt(e)
      case Done(e, q) => r == Ran(Some(Expr(e)), st.(curr := q))
  {
  }

  /** A definition that yields no node, such as a declaration-only
      function, stands in the block as `Empty`. */
  lemma StmtAtDeclaration(toks: seq<TokenType>, tier: nat, st: PState, st': PState)
    requires PeekAt(toks, st.curr) == IdentTier(tier)
    requires DefinitionAt(toks, tier, st.(curr := st.curr + 1)) == Ran(Some(None), st')
    ensures StmtAt(toks, tier, st) == Ran(Some(Empty), st')
  {
  }


  /** `parse_stmt`: a tier marker other than `IdentTier(tier)` ends the block
      (and is consumed); otherwise a definition, or else an expression. */
  function StmtAt(toks: seq<TokenType>, tier: nat, st: PState): (r: Run<Option<AstNode>>)
    ensures r.Ran? && r.value.Some? ==> st.curr < r.st.curr <= |toks| && Grows(st, r.st)
    ensures r.Ran? ==> (r.value.None? <==> PeekAt(toks, st.curr) != IdentTier(tier))
    ensures PeekAt(toks, st.curr) != IdentTier(tier) ==> r == Ran(None, st.(curr := st.curr + 1))
    decreases Remaining(toks, st.curr), 0
  {
    var c := st.curr;
    if PeekAt(toks, c) == IdentTier(tier) then
      match DefinitionAt(toks, tier, st.(curr := c + 1))
      case Halt(e) => Halt(e)
      case Ran(Some(d), st') => Ran(Some(if d.Some? then d.value else Empty), st')
      case Ran(None, st') =>
        (match ExprAt(toks, st'.curr + 1)
         case Fail(e) => Halt(e)
         case Done(e, q) => Ran(Some(Expr(e)), st'.(curr := q)))
    else Ran(None, st.(curr := c + 1))
  }

  /** The loop of `parse_block`: statements until the end of input or the
      first `None`, appended in order to `acc`. */
  function BlockLoop(toks: seq<TokenType>, tier: nat, st: PState, acc: seq<AstNode>): (r: Run<seq<AstNode>>)
    requires st.curr <= |toks|
    ensures r.Ran? ==> st.curr <= r.st.curr <= |toks| && Grows(st, r.st) && acc <= r.value
    decreases Remaining(toks, st.curr), 2
  {
    if IsEofAt(toks, st.curr) then Ran(acc, st)
    else match StmtAt(toks, tier, st)
      case Halt(e) => Halt(e)
      case Ran(None, st') => Ran(acc, st')
      case Ran(Some(n), st') => BlockLoop(toks, tier, st', acc + [n])
  }

  /** `parse_block`, entered just after the block's tier marker: resolves the
      scope, steps back onto the marker and runs the statement loop. */
  function BlockAt(toks: seq<TokenType>, tier: nat, st: PState): (r: Run<seq<AstNode>>)
    requires 1 <= st.curr <= |toks|
    ensures r.Ran? ==> st.curr - 1 <= r.st.curr <= |toks| && Grows(st, r.st)
    decreases Remaining(toks, st.curr - 1), 3
  {
    match FindScopeAt(toks, st.curr, tier)
    case Err(e) => Halt(e)
    case Ok(_) => BlockLoop(toks, tier, st.(curr := st.curr - 1), [])
  }

  // ------------------------------------------------------------------ program

  /** The loop of `parse`: every top-level item starts with `IdentTier(0)`;
      only definitions that produce a node are kept. */
  function ProgramLoop(toks: seq<TokenType>, st: PState, acc: seq<AstNode>): (r: Run<seq<AstNode>>)
    ensures r.Ran? ==> Grows(st, r.st) && acc <= r.value && IsEofAt(toks, r.st.curr)
    decreases Remaining(toks, st.curr)
  {
    if IsEofAt(toks, st.curr) then Ran(acc, st)
    else if PeekAt(toks, st.curr) != IdentTier(0) then Halt(Syntax(st.curr))
    else
      var st1 := st.(curr := st.curr + 1);
      if IsEofAt(toks, st1.curr) then Ran(acc, st1)
      else match DefinitionAt(toks, 0, st1)
        case Halt(e) => Halt(e)
        case Ran(Some(Some(n)), st2) => ProgramLoop(toks, st2, acc + [n])
        case Ran(Some(None), st2) => ProgramLoop(toks, st2, acc)
        case Ran(None, st2) => ProgramLoop(toks, st2.(curr := st2.curr + 1), acc)
  }

  /** A definition that yields a node yields a function node. */
  lemma DefinitionAtFunction(toks: seq<TokenType>, tier: nat, st: PState)
    requires st.curr >= 1
    ensures var r := DefinitionAt(toks, tier, st);
      r.Ran? && r.value.Some? && r.value.value.Some? ==> r.value.value.value.Fn?
  {
    if PeekAt(toks, st.curr) == KeywordFn {
      FnDefinitionAtCases(toks, tier, st.(curr := st.curr + 1));
    }
  }

  /** One round of the top-level loop after a definition that parses. */
  lemma ProgramLoopRound(toks: seq<TokenType>, st: PState, acc: seq<AstNode>)
    requires !IsEofAt(toks, st.curr) && PeekAt(toks, st.curr) == IdentTier(0) && !IsEofAt(toks, st.curr + 1)
    requires DefinitionAt(toks, 0, st.(curr := st.curr + 1)).Ran?
    ensures var d := DefinitionAt(toks, 0, st.(curr := st.curr + 1));
      ProgramLoop(toks, st, acc)
      == ProgramLoop(toks, if d.value.None? then d.st.(curr := d.st.curr + 1) else d.st,
                     if d.value.Some? && d.value.value.Some? then acc + [d.value.value.value] else acc)
  {
  }

  /** Only function nodes reach the program: every other outcome of a
      top-level definition is dropped. */
  lemma {:induction false} ProgramLoopFunctions(toks: seq<TokenType>, st: PState, acc: seq<AstNode>)
    requires forall i :: 0 <= i < |acc| ==> acc[i].Fn?
    ensures var r := ProgramLoop(toks, st, acc);
      r.Ran? ==> forall i :: 0 <= i < |r.value| ==> r.value[i].Fn?
    decreases Remaining(toks, st.curr)
  {
    var st1 := st.(curr := st.curr + 1);
    if !IsEofAt(toks, st.curr) && PeekAt(toks, st.curr) == IdentTier(0) && !IsEofAt(toks, st1.curr) {
      var d := DefinitionAt(toks, 0, st1);
      if d.Ran? {
        ProgramLoopRound(toks, st, acc);
        DefinitionAtFunction(toks, 0, st1);
        var st' := if d.value.None? then d.st.(curr := d.st.curr + 1) else d.st;
        var acc' := if d.value.Some? && d.value.value.Some? then acc + [d.value.value.value] else acc;
        assert Remaining(toks, st'.curr) < Remaining(toks, st.curr);
        ProgramLoopFunctions(toks, st', acc');
      }
    }
  }

  /** `parse` on a fresh parser: counter 0, empty table. */
  function ParseAt(toks: seq<TokenType>): (r: Run<AstNode>)
    ensures r.Ran? ==> r.value.Program? && IsEofAt(toks, r.st.curr)
  {
    match ProgramLoop(toks, PState(0, 0, []), [])
    case Halt(e) => Halt(e)
    case Ran(nodes, st) => Ran(Program(nodes), st)
  }

  /** Every node of a parsed program is a function. */
  lemma ParseAtFunctions(toks: seq<TokenType>)
    ensures var r := ParseAt(toks);
      r.Ran? ==> forall i :: 0 <= i < |r.value.nodes| ==> r.value.nodes[i].Fn?
  {
    ProgramLoopFunctions(toks, PState(0, 0, []), []);
  }
}
