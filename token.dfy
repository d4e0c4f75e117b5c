/// The token stream the parser consumes: a sequence of token kinds and one
/// cursor index into it. The lexer producing it is not part of this model.
module Token {
  import opened Wrappers

  /** Token kinds the parser distinguishes. `IdentTier(n)` is the marker the
      lexer places where a line of indentation tier `n` starts. */
  datatype TokenType =
    | KeywordFn | KeywordEnum | KeywordStruct | KeywordTrait | KeywordImpl
    | Identifier(name: string)
    | LiteralNum(num: int)
    | LiteralStr(text: string)
    | OpenParen | CloseParen
    | OperatorColon | OperatorArrow | OperatorAssign | OperatorLes
    | OperatorAdd | OperatorSub | OperatorMul | OperatorDiv
    | Comma
    | IdentTier(tier: nat)
    | Eof

  /** The kind at index `i`; every index past the end reads as `Eof`. */
  function PeekAt(toks: seq<TokenType>, i: nat): (t: TokenType)
    ensures i >= |toks| ==> t == Eof
    ensures t != Eof ==> i < |toks| && t == toks[i]
  {
    if i < |toks| then toks[i] else Eof
  }

  predicate IsEofAt(toks: seq<TokenType>, i: nat) {
    PeekAt(toks, i) == Eof
  }

  /** Number of tokens at or after `i`: the measure every parsing loop and
      every recursive descent makes smaller. */
  function Remaining(toks: seq<TokenType>, i: nat): nat {
    if i < |toks| then |toks| - i else 0
  }

  /** The cursor over an immutable token sequence. */
  class TokenStream {
    const toks: seq<TokenType>
    var curr: nat

    constructor (toks: seq<TokenType>)
      ensures this.toks == toks && curr == 0
    {
      this.toks := toks;
      curr := 0;
    }

    /** The current token, without consuming it. */
    function Peek(): TokenType
      reads this
    {
      PeekAt(toks, curr)
    }

    function IsEof(): bool
      reads this
    {
      IsEofAt(toks, curr)
    }

    /** Random access: `None` past the end. */
    function At(i: nat): (r: Option<TokenType>)
      ensures r.Some? <==> i < |toks|
      ensures r.Some? ==> r.value == toks[i]
    {
      if i < |toks| then Some(toks[i]) else None
    }

    /** The most recently consumed token. */
    function Last(): (t: TokenType)
      reads this
      requires curr > 0
      ensures t == PeekAt(toks, curr - 1)
    {
      PeekAt(toks, curr - 1)
    }

    /** Consumes and returns the current token. */
    method Next() returns (t: TokenType)
      modifies this
      ensures t == PeekAt(toks, old(curr)) && curr == old(curr) + 1
    {
      t := Peek();
      curr := curr + 1;
    }

    method Forward()
      modifies this
      ensures curr == old(curr) + 1
    {
      curr := curr + 1;
    }

    method Backward()
      requires curr > 0
      modifies this
      ensures curr == old(curr) - 1
    {
      curr := curr - 1;
    }

    /** Consumes the current token iff it is `k`, and says whether it did. */
    method AssertNext(k: TokenType) returns (b: bool)
      modifies this
      ensures b <==> PeekAt(toks, old(curr)) == k
      ensures curr == if b then old(curr) + 1 else old(curr)
    {
      b := Peek() == k;
      if b {
        curr := curr + 1;
      }
    }

    /** Consumes the current token iff it is the tier marker `IdentTier(tier)`. */
    method AssertNextTier(tier: nat) returns (b: bool)
      modifies this
      ensures b <==> PeekAt(toks, old(curr)) == IdentTier(tier)
      ensures curr == if b then old(curr) + 1 else old(curr)
    {
      b := AssertNext(IdentTier(tier));
    }
  }
}
