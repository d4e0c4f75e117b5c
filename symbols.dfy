/// The synthetic symbols the parser hands out: `$` followed by the decimal
/// value of the parser's counter.
module Symbols {
  import opened Wrappers

  function Digit(d: nat): char
    requires d < 10
  {
    (48 + d) as char
  }

  /** Decimal rendering, as Rust's `format!("{}", n)`. */
  function NatToString(n: nat): (s: string)
    decreases n
  {
    if n < 10 then [Digit(n)] else NatToString(n / 10) + [Digit(n % 10)]
  }

  /** The name `sym_name` returns once the counter has reached `n`. */
  function SymbolName(n: nat): (s: string)
  {
    "$" + NatToString(n)
  }

  /** Reads a non-empty string of decimal digits back. */
  function StringToNat(s: string): (r: Option<nat>)
    ensures r.Some? <==> |s| >= 1 && forall k :: 0 <= k < |s| ==> '0' <= s[k] <= '9'
    decreases |s|
  {
    if |s| == 0 || !('0' <= s[|s| - 1] <= '9') then None
    else
      var d := (s[|s| - 1] as int - 48) as nat;
      if |s| == 1 then Some(d)
      else match StringToNat(s[..|s| - 1])
        case None => None
        case Some(m) => Some(m * 10 + d)
  }

  /** The counter value a symbol was made from, if it is one. */
  function SymIndex(s: string): Option<nat> {
    if |s| >= 2 && s[0] == '$' then StringToNat(s[1..]) else None
  }

  lemma {:induction false} StringToNatOfNatToString(n: nat)
    ensures StringToNat(NatToString(n)) == Some(n)
    decreases n
  {
    if n >= 10 {
      var s := NatToString(n);
      assert s[..|s| - 1] == NatToString(n / 10);
      StringToNatOfNatToString(n / 10);
    }
  }

  /** `SymIndex` inverts `SymbolName`. */
  lemma SymIndexOfSymbolName(n: nat)
    ensures SymIndex(SymbolName(n)) == Some(n)
  {
    assert SymbolName(n)[1..] == NatToString(n);
    StringToNatOfNatToString(n);
  }

  /** Distinct counter values give distinct names. */
  lemma SymbolNameInjective(m: nat, n: nat)
    ensures SymbolName(m) == SymbolName(n) <==> m == n
  {
    SymIndexOfSymbolName(m);
    SymIndexOfSymbolName(n);
  }
}
