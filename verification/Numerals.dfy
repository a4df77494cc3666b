/** Digits by their places in the usual row of digits, and the numbers they spell. */
module Numerals {

  const DIGITS := "0123456789abcdef"
  const CAPITAL_DIGITS := "0123456789ABCDEF"

  /** `c` is the digit `n`, as a small or a capital letter from ten on. */
  predicate Stands(c: char, n: nat) {
    n < 16 && (c == DIGITS[n] || c == CAPITAL_DIGITS[n])
  }

  /** The digits of `d` are `ns`, all below the base. */
  predicate Spells(d: string, ns: seq<nat>, base: nat) {
    |d| == |ns| && forall k :: 0 <= k < |d| ==> ns[k] < base && Stands(d[k], ns[k])
  }

  function Positional(ns: seq<nat>, base: nat): nat {
    if ns == [] then 0 else Positional(ns[..|ns| - 1], base) * base + ns[|ns| - 1]
  }

  lemma Places(n: nat)
    requires n < 16
    ensures DIGITS[n] as int == if n < 10 then 48 + n else 87 + n
    ensures CAPITAL_DIGITS[n] as int == if n < 10 then 48 + n else 55 + n
  {
  }

  lemma StandsFor(c: char, n: nat)
    ensures Stands(c, n) <==>
              n < 16 && (if n < 10 then c as int == 48 + n else c as int == 87 + n || c as int == 55 + n)
  {
    if n < 16 {
      Places(n);
    }
  }

  lemma SpellsFront(d: string, ns: seq<nat>, base: nat)
    requires Spells(d, ns, base) && d != ""
    ensures Spells(d[..|d| - 1], ns[..|ns| - 1], base)
    ensures ns[|ns| - 1] < base && Stands(d[|d| - 1], ns[|ns| - 1])
  {
    hide Stands;
  }

  lemma {:induction false} PositionalBound(ns: seq<nat>, base: nat, bound: nat)
    requires forall k :: 0 <= k < |ns| ==> ns[k] < base
    requires bound == Power(base, |ns|)
    ensures Positional(ns, base) < bound
  {
    if ns != [] {
      var k := |ns| - 1;
      PositionalBound(ns[..k], base, Power(base, k));
      assert (Positional(ns[..k], base) + 1) * base <= Power(base, k) * base;
    }
  }

  function Power(base: nat, n: nat): nat {
    if n == 0 then 1 else Power(base, n - 1) * base
  }

  lemma {:induction false} LeadingZero(ns: seq<nat>, base: nat)
    ensures Positional([0] + ns, base) == Positional(ns, base)
  {
    if ns == [] {
      assert [0] + ns == [0] && [0][..0] == [];
    } else {
      var k := |ns| - 1;
      LeadingZero(ns[..k], base);
      assert ([0] + ns)[..|ns|] == [0] + ns[..k];
    }
  }
}
