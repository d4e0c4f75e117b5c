/// The parser object: a token stream, the symbol counter, the function table
/// and the tree of the last parse. Every method below mirrors one function of
/// the recursive-descent parser and is proved to compute what the matching
/// reference function of `ExprGrammar` / `DefGrammar` computes, both the
/// value (or the first error) and the cursor, counter and table afterwards.
/// The source aborts on a syntax error; here the error is returned instead and
/// the caller returns it unchanged.
module Parsing {
  import opened Wrappers
  import opened Token
  import opened Ast
  import opened Symbols
  import opened ExprGrammar
  import opened DefGrammar

  /** A method result `r` with the cursor at `curr` is what the reference
      parse `spec` describes. */
  predicate Agrees<T(==)>(r: Result<T>, curr: nat, spec: Parsed<T>) {
    match r
    case Ok(v) => spec == Done(v, curr)
    case Err(e) => spec == Fail(e)
  }

  /** The same for parsers that also change the counter and the table. */
  predicate AgreesRun<T(==)>(r: Result<T>, st: PState, spec: Run<T>) {
    match r
    case Ok(v) => spec == Ran(v, st)
    case Err(e) => spec == Halt(e)
  }

  /** The outcome of the argument loop, wrapped as the call it ends. */
  function AsCall(callee: AstExpr, r: Parsed<seq<AstExpr>>): Parsed<AstExpr> {
    match r
    case Fail(e) => Fail(e)
    case Done(args, q) => Done(FnCall(callee, args), q)
  }

  class Parser {
    const tokens: TokenStream
    var symId: nat
    var fnDefs: seq<WithScope<FnDef>>
    var ast: AstNode

    constructor (tokens: TokenStream)
      ensures this.tokens == tokens && symId == 0 && fnDefs == [] && ast == Empty
    {
      this.tokens := tokens;
      symId := 0;
      fnDefs := [];
      ast := Empty;
    }

    /** The three parts of the object the parsing methods change. */
    function State(): PState
      reads this, tokens
    {
      PState(tokens.curr, symId, fnDefs)
    }

    // ---------------------------------------------------------------- program

    /** `parse`: top-level items until the end of input, each introduced by
        `IdentTier(0)`; the nodes of the definitions become the program. */
    method Parse() returns (r: Result<()>)
      modifies this, tokens
      ensures var spec := ProgramLoop(tokens.toks, old(State()), []);
        && (r.Ok? <==> spec.Ran?)
        && (r.Ok? ==> ast == Program(spec.value) && State() == spec.st)
        && (r.Err? ==> spec == Halt(r.error))
    {
      ghost var st0 := State();
      var program: seq<AstNode> := [];
      while !tokens.IsEof()
        invariant ProgramLoop(tokens.toks, st0, []) == ProgramLoop(tokens.toks, State(), program)
        decreases Remaining(tokens.toks, tokens.curr)
      {
        var tiered := tokens.AssertNextTier(0);
        if !tiered {
          return Err(Syntax(tokens.curr));
        }
        if tokens.IsEof() {
          break;
        }
        var d := ParseDefinition(0, Global);
        if d.Err? {
          return Err(d.error);
        }
        if d.value.Some? {
          if d.value.value.Some? {
            program := program + [d.value.value.value];
          }
        } else {
          tokens.Forward();
        }
      }
      ast := Program(program);
      r := Ok(());
    }

    /** `sym_name`: bumps the counter and names the new value. */
    method SymName() returns (s: string)
      modifies this`symId
      ensures symId == old(symId) + 1 && s == SymbolName(symId)
    {
      symId := symId + 1;
      s := SymbolName(symId);
    }

    // ------------------------------------------------------------ definitions

    /** `parse_definion`. `enum`, `struct`, `trait` and `impl` reach
        unimplemented parsers, reported as `Unsupported` at the keyword. */
    method ParseDefinition(tier: nat, scope: Scope) returns (r: Result<Option<Option<AstNode>>>)
      requires tokens.curr >= 1
      modifies this`symId, this`fnDefs, tokens
      ensures AgreesRun(r, State(), DefinitionAt(tokens.toks, tier, old(State())))
      decreases Remaining(tokens.toks, tokens.curr), 1
    {
      var p := tokens.curr;
      var token := tokens.Next();
      if token == KeywordFn {
        var f := ParseFnDefinition(tier, scope);
        if f.Err? {
          return Err(f.error);
        }
        r := Ok(Some(f.value));
      } else if token == KeywordEnum || token == KeywordStruct || token == KeywordTrait || token == KeywordImpl {
        r := Err(Unsupported(p));
      } else {
        tokens.Backward();
        tokens.Backward();
        r := Ok(None);
      }
    }

    /** `parse_fn_definion`, entered just after `fn`. */
    method ParseFnDefinition(tier: nat, scope: Scope) returns (r: Result<Option<AstNode>>)
      modifies this`symId, this`fnDefs, tokens
      ensures AgreesRun(r, State(), FnDefinitionAt(tokens.toks, tier, old(State())))
      decreases Remaining(tokens.toks, tokens.curr), 0
    {
      ghost var st0 := State();
      var p := tokens.curr;
      var first := tokens.Next();
      if first == OperatorLes {
        return Err(Unsupported(p));
      } else if !first.Identifier? {
        return Err(Syntax(tokens.curr));
      }
      var fname := first.name;
      var open := tokens.AssertNext(OpenParen);
      if !open {
        return Err(Syntax(tokens.curr));
      }
      FnDefinitionAtSignature(tokens.toks, tier, st0, fname);
      r := ParseFnSignature(tier, fname);
    }

    /** The rest of `parse_fn_definion`, entered just after `(`: the
        arguments and the return type, then the new table entry, then the
        body. */
    method ParseFnSignature(tier: nat, fname: string) returns (r: Result<Option<AstNode>>)
      modifies this`symId, this`fnDefs, tokens
      ensures AgreesRun(r, State(), FnSignatureAt(tokens.toks, tier, fname, old(State())))
      decreases Remaining(tokens.toks, tokens.curr), 1
    {
      ghost var st0 := State();
      var sig := ParseFnArgs();
      if sig.Err? {
        return Err(sig.error);
      }
      var fargs, types := sig.value.args, sig.value.types;
      ghost var q := tokens.curr;
      var ret := ParseReturnType();
      if ret.Err? {
        return Err(ret.error);
      }
      var retType := ret.value;
      FnSignatureAtBody(tokens.toks, tier, st0, fname, sig.value, q, retType, tokens.curr);
      var a := SymName();
      types := types[a := retType];
      fnDefs := fnDefs + [WithScope(FnDef(fname, types, fargs, a), Global)];
      assert State() == PState(tokens.curr, st0.symId + |fargs| + 1, st0.fnDefs + [FnEntry(fname, st0.symId, sig.value, retType)]);
      r := ParseFnBody(tier, fname);
    }

    /** The argument loop of `parse_fn_definion`, entered just after `(`. */
    method ParseFnArgs() returns (r: Result<Signature>)
      modifies this`symId, tokens
      ensures Agrees(r, tokens.curr, FnArgsAt(tokens.toks, old(tokens.curr), old(symId), [], map[]))
      ensures r.Ok? ==> symId == old(symId) + |r.value.args|
    {
      ghost var st0 := State();
      var types: map<string, Type> := map[];
      var fargs: seq<FnArg> := [];
      while true
        invariant st0.curr <= tokens.curr && symId == st0.symId + |fargs|
        invariant FnArgsAt(tokens.toks, st0.curr, st0.symId, [], map[])
               == FnArgsAt(tokens.toks, tokens.curr, st0.symId, fargs, types)
        decreases Remaining(tokens.toks, tokens.curr)
      {
        var fin;
        fin, fargs, types := ParseFnArgsRound(st0.symId, fargs, types);
        if fin.Some? {
          return fin.value;
        }
      }
    }

    /** One round of the argument loop: `)` ends it; otherwise one argument
        is parsed and then either `)` ends the loop or one separator token is
        skipped. `fin` is the loop's result when the round ends it. */
    method ParseFnArgsRound(ghost base: nat, fargs: seq<FnArg>, types: map<string, Type>)
      returns (fin: Option<Result<Signature>>, fargs': seq<FnArg>, types': map<string, Type>)
      requires symId == base + |fargs|
      modifies this`symId, tokens
      ensures symId == base + |fargs'|
      ensures fin.Some? ==> Agrees(fin.value, tokens.curr, FnArgsAt(tokens.toks, old(tokens.curr), base, fargs, types))
      ensures fin.Some? && fin.value.Ok? ==> fin.value.value.args == fargs'
      ensures fin.None? ==> old(tokens.curr) < tokens.curr <= |tokens.toks|
      ensures fin.None? ==>
        FnArgsAt(tokens.toks, old(tokens.curr), base, fargs, types)
        == FnArgsAt(tokens.toks, tokens.curr, base, fargs', types')
    {
      ghost var c := tokens.curr;
      fargs', types' := fargs, types;
      var closed := tokens.AssertNext(CloseParen);
      if closed {
        FnArgsAtClose(tokens.toks, c, base, fargs, types);
        return Some(Ok(Signature(fargs, types))), fargs', types';
      }
      var arg := ParseFnArg();
      if arg.Err? {
        FnArgsAtArgFails(tokens.toks, c, base, fargs, types);
        return Some(Err(arg.error)), fargs', types';
      }
      var (argn, argt) := arg.value;
      ghost var q := tokens.curr;
      var a := SymName();
      types' := types[a := argt];
      fargs' := fargs + [FnArg(argn, a)];
      closed := tokens.AssertNext(CloseParen);
      if closed {
        FnArgsAtLast(tokens.toks, c, base, fargs, types, argn, argt, q, a);
        return Some(Ok(Signature(fargs', types'))), fargs', types';
      }
      tokens.Forward();
      if tokens.IsEof() {
        FnArgsAtUnterminated(tokens.toks, c, base, fargs, types, argn, argt, q);
        return Some(Err(Unterminated(tokens.curr))), fargs', types';
      }
      FnArgsAtStep(tokens.toks, c, base, fargs, types, argn, argt, q, a);
      fin := None;
    }

    /** One argument of `parse_fn_definion`: an identifier, `:` and a type. */
    method ParseFnArg() returns (r: Result<(string, Type)>)
      modifies tokens
      ensures Agrees(r, tokens.curr, FnArgAt(tokens.toks, old(tokens.curr)))
    {
      var argTok := tokens.Next();
      if !argTok.Identifier? {
        return Err(Syntax(tokens.curr - 1));
      }
      var colon := tokens.AssertNext(OperatorColon);
      if !colon {
        return Err(Syntax(tokens.curr));
      }
      var argt := ParseType();
      if argt.Err? {
        return Err(argt.error);
      }
      r := Ok((argTok.name, argt.value));
    }

    /** The optional return type of `parse_fn_definion`. */
    method ParseReturnType() returns (r: Result<Type>)
      modifies tokens
      ensures Agrees(r, tokens.curr, ReturnTypeAt(tokens.toks, old(tokens.curr)))
    {
      var hasArrow := tokens.AssertNext(OperatorArrow);
      if hasArrow {
        r := ParseType();
      } else {
        r := Ok(Unit([]));
      }
    }

    /** The body part of `parse_fn_definion`, entered after the table entry
        is appended. */
    method ParseFnBody(tier: nat, fname: string) returns (r: Result<Option<AstNode>>)
      requires tokens.curr <= |tokens.toks|
      modifies this`symId, this`fnDefs, tokens
      ensures AgreesRun(r, State(), FnBodyAt(tokens.toks, tier, fname, old(State())))
      decreases Remaining(tokens.toks, tokens.curr), 1
    {
      var assign := tokens.AssertNext(OperatorAssign);
      if !assign {
        return Ok(None);
      }
      var fbody: seq<AstNode>;
      var deeper := tokens.AssertNextTier(tier + 1);
      if deeper {
        var b := ParseBlock(tier + 1);
        if b.Err? {
          return Err(b.error);
        }
        fbody := b.value;
      } else {
        var expr := ParseExpr();
        if expr.Err? {
          return Err(expr.error);
        }
        fbody := [Expr(expr.value)];
      }
      r := Ok(Some(Fn(fname, fbody)));
    }

    // ----------------------------------------------------- blocks, statements

    /** `find_scope`: reads only. The scan stops at the first tier marker
        below `tier`; the loop tests the cursor, so a scan without one reads
        past the end, which is the `OutOfRange` error. */
    method FindScope(tier: nat) returns (r: Result<Scope>)
      ensures r == FindScopeAt(tokens.toks, tokens.curr, tier)
    {
      var idx := tokens.curr;
      while !tokens.IsEof()
        invariant tokens.curr <= idx
        invariant tokens.IsEof() ==> idx == tokens.curr
        invariant idx == tokens.curr || idx <= |tokens.toks|
        invariant forall k :: tokens.curr <= k < idx ==> !IsDedent(tokens.toks[k], tier)
        decreases |tokens.toks| - idx
      {
        var t := tokens.At(idx);
        if t.None? {
          return Err(OutOfRange(idx));
        }
        if t.value.IdentTier? && t.value.tier < tier {
          break;
        }
        idx := idx + 1;
      }
      assert !tokens.IsEof() ==> DedentFrom(tokens.toks, tokens.curr, tier) == Some(idx);
      r := Ok(Block(tokens.curr, idx));
    }

    /** `parse_block`, entered just after the block's tier marker. */
    method ParseBlock(tier: nat) returns (r: Result<seq<AstNode>>)
      requires 1 <= tokens.curr <= |tokens.toks|
      modifies this`symId, this`fnDefs, tokens
      ensures AgreesRun(r, State(), BlockAt(tokens.toks, tier, old(State())))
      decreases Remaining(tokens.toks, tokens.curr - 1), 3
    {
      ghost var st0 := State();
      var block: seq<AstNode> := [];
      var scope := FindScope(tier);
      if scope.Err? {
        return Err(scope.error);
      }
      tokens.Backward();
      while !tokens.IsEof()
        invariant st0.curr - 1 <= tokens.curr <= |tokens.toks|
        invariant BlockAt(tokens.toks, tier, st0) == BlockLoop(tokens.toks, tier, State(), block)
        decreases Remaining(tokens.toks, tokens.curr)
      {
        var node := ParseStmt(tier, scope.value);
        if node.Err? {
          return Err(node.error);
        }
        if node.value.Some? {
          block := block + [node.value.value];
        } else {
          break;
        }
      }
      r := Ok(block);
    }

    /** `parse_stmt`. */
    method ParseStmt(tier: nat, scope: Scope) returns (r: Result<Option<AstNode>>)
      modifies this`symId, this`fnDefs, tokens
      ensures AgreesRun(r, State(), StmtAt(tokens.toks, tier, old(State())))
      decreases Remaining(tokens.toks, tokens.curr), 0
    {
      var inTier := tokens.AssertNextTier(tier);
      if inTier {
        var d := ParseDefinition(tier, scope);
        if d.Err? {
          return Err(d.error);
        }
        if d.value.Some? {
          r := Ok(Some(if d.value.value.Some? then d.value.value.value else Empty));
        } else {
          tokens.Forward();
          var expr := ParseExpr();
          if expr.Err? {
            return Err(expr.error);
          }
          r := Ok(Some(Expr(expr.value)));
        }
      } else {
        tokens.Forward();
        r := Ok(None);
      }
    }

    // ------------------------------------------------------------ expressions

    /** `parse_expr`. */
    method ParseExpr() returns (r: Result<AstExpr>)
      modifies tokens
      ensures Agrees(r, tokens.curr, ExprAt(tokens.toks, old(tokens.curr)))
      decreases Remaining(tokens.toks, tokens.curr), 5
    {
      r := ParseExprAdd();
    }

    /** `parse_expr_primary`. */
    method ParseExprPrimary() returns (r: Result<AstExpr>)
      modifies tokens
      ensures Agrees(r, tokens.curr, PrimaryAt(tokens.toks, old(tokens.curr)))
      decreases Remaining(tokens.toks, tokens.curr), 1
    {
      var at := tokens.curr;
      var curr := tokens.Next();
      match curr {
        case Identifier(x) =>
          r := Ok(Var(x));
        case LiteralNum(n) =>
          r := Ok(AstExpr.LiteralNum(n));
        case LiteralStr(s) =>
          r := Ok(AstExpr.LiteralStr(s));
        case OpenParen =>
          var expr := ParseExpr();
          if expr.Err? {
            return expr;
          }
          var closed := tokens.AssertNext(CloseParen);
          if !closed {
            return Err(Syntax(tokens.curr));
          }
          r := expr;
        case _ =>
          r := Err(Syntax(at));
      }
    }

    /** `parse_expr_add`. */
    method ParseExprAdd() returns (r: Result<AstExpr>)
      modifies tokens
      ensures Agrees(r, tokens.curr, AddAt(tokens.toks, old(tokens.curr)))
      decreases Remaining(tokens.toks, tokens.curr), 4
    {
      ghost var start := tokens.curr;
      var first := ParseExprMul();
      if first.Err? {
        return first;
      }
      var lhs := first.value;
      while !tokens.IsEof()
        invariant start < tokens.curr <= |tokens.toks|
        invariant AddAt(tokens.toks, start) == AddTail(tokens.toks, lhs, tokens.curr)
        decreases Remaining(tokens.toks, tokens.curr)
      {
        var curr := tokens.Peek();
        if curr == OperatorAdd {
          tokens.Forward();
          var rhs := ParseExprMul();
          if rhs.Err? {
            return rhs;
          }
          lhs := Add(lhs, rhs.value);
        } else if curr == OperatorSub {
          tokens.Forward();
          var rhs := ParseExprMul();
          if rhs.Err? {
            return rhs;
          }
          lhs := Sub(lhs, rhs.value);
        } else {
          break;
        }
      }
      r := Ok(lhs);
    }

    /** `parse_expr_mul`. */
    method ParseExprMul() returns (r: Result<AstExpr>)
      modifies tokens
      ensures Agrees(r, tokens.curr, MulAt(tokens.toks, old(tokens.curr)))
      decreases Remaining(tokens.toks, tokens.curr), 3
    {
      ghost var start := tokens.curr;
      var first := ParseExprCall();
      if first.Err? {
        return first;
      }
      var lhs := first.value;
      while !tokens.IsEof()
        invariant start < tokens.curr <= |tokens.toks|
        invariant MulAt(tokens.toks, start) == MulTail(tokens.toks, lhs, tokens.curr)
        decreases Remaining(tokens.toks, tokens.curr)
      {
        var curr := tokens.Peek();
        if curr == OperatorMul {
          tokens.Forward();
          var rhs := ParseExprCall();
          if rhs.Err? {
            return rhs;
          }
          lhs := Mul(lhs, rhs.value);
        } else if curr == OperatorDiv {
          tokens.Forward();
          var rhs := ParseExprCall();
          if rhs.Err? {
            return rhs;
          }
          lhs := Div(lhs, rhs.value);
        } else {
          break;
        }
      }
      r := Ok(lhs);
    }

    /** `parse_expr_call`. */
    method ParseExprCall() returns (r: Result<AstExpr>)
      modifies tokens
      ensures Agrees(r, tokens.curr, CallAt(tokens.toks, old(tokens.curr)))
      decreases Remaining(tokens.toks, tokens.curr), 2
    {
      ghost var start := tokens.curr;
      var member := ParseExprPrimary();
      if member.Err? {
        return member;
      }
      var open := tokens.AssertNext(OpenParen);
      if !open {
        return member;
      }
      var args: seq<AstExpr> := [];
      while true
        invariant start < tokens.curr
        invariant start < |tokens.toks|
        invariant CallAt(tokens.toks, start) == AsCall(member.value, ArgsAt(tokens.toks, tokens.curr, args))
        decreases Remaining(tokens.toks, tokens.curr)
      {
        var expr := ParseExpr();
        if expr.Err? {
          return Err(expr.error);
        }
        args := args + [expr.value];
        var closed := tokens.AssertNext(CloseParen);
        if closed {
          return Ok(FnCall(member.value, args));
        }
        tokens.Forward();
      }
    }

    // ------------------------------------------------------------------ types

    /** `parse_type`. */
    method ParseType() returns (r: Result<Type>)
      modifies tokens
      ensures Agrees(r, tokens.curr, TypeAt(tokens.toks, old(tokens.curr)))
      decreases Remaining(tokens.toks, tokens.curr), 2
    {
      r := ParseTypeAnna();
    }

    /** `parse_type_anna`: a `<` after the primary type is consumed and wraps
        it with no parameters. */
    method ParseTypeAnna() returns (r: Result<Type>)
      modifies tokens
      ensures Agrees(r, tokens.curr, TypeAt(tokens.toks, old(tokens.curr)))
      decreases Remaining(tokens.toks, tokens.curr), 1
    {
      var t := ParseTypePrimary();
      if t.Err? {
        return t;
      }
      var les := tokens.AssertNext(OperatorLes);
      if les {
        r := Ok(Anna(t.value, []));
      } else {
        r := t;
      }
    }

    /** `parse_type_primary`. */
    method ParseTypePrimary() returns (r: Result<Type>)
      modifies tokens
      ensures Agrees(r, tokens.curr, TypePrimaryAt(tokens.toks, old(tokens.curr)))
      decreases Remaining(tokens.toks, tokens.curr), 0
    {
      var at := tokens.curr;
      var curr := tokens.Next();
      match curr {
        case Identifier(t) =>
          r := Ok(PrimitiveType(t));
        case OpenParen =>
          var unit: seq<Type> := [];
          while true
            invariant at < tokens.curr && at < |tokens.toks|
            invariant TypePrimaryAt(tokens.toks, at) == UnitAt(tokens.toks, tokens.curr, unit)
            decreases Remaining(tokens.toks, tokens.curr)
          {
            var t := ParseType();
            if t.Err? {
              return t;
            }
            unit := unit + [t.value];
            var closed := tokens.AssertNext(CloseParen);
            if closed {
              return Ok(Unit(unit));
            }
            tokens.Forward();
          }
        case _ =>
          r := Err(Syntax(at));
      }
    }
  }
}
