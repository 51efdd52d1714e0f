/** Decimal numerals: how Go's strconv writes an unsigned number and reads it back. */
module Decimals {
  import opened Text
  import opened Wrappers

  type Str = seq<Rune>

  predicate IsDigit(r: Rune) { 0x30 <= r <= 0x39 }

  predicate AllDigits(s: Str) { forall i :: 0 <= i < |s| ==> IsDigit(s[i]) }

  function DigitValue(r: int): int { r - 0x30 }

  /** strconv.Itoa on a non-negative number. */
  function Dec(n: nat): (s: Str)
    ensures s != [] && AllDigits(s)
  {
    if n < 10 then [0x30 + n] else Dec(n / 10) + [0x30 + n % 10]
  }

  function Value(s: Str): nat
    requires AllDigits(s)
  {
    if s == [] then 0 else 10 * Value(s[..|s| - 1]) + DigitValue(s[|s| - 1])
  }

  /** strconv.ParseUint(s, 10, bits), with `limit` standing for two to the power of bits. */
  function ParseUint(s: Str, limit: nat): (r: Option<nat>)
    ensures r.Some? <==> s != [] && AllDigits(s) && Value(s) < limit
    ensures r.Some? ==> r.value == Value(s)
  {
    if s != [] && AllDigits(s) && Value(s) < limit then Some(Value(s)) else None
  }

  /** Reading back what was written gives the number. */
  lemma {:induction false} ValueOfDec(n: nat)
    ensures Value(Dec(n)) == n
  {
    if n >= 10 {
      ValueOfDec(n / 10);
      var s := Dec(n);
      assert s[..|s| - 1] == Dec(n / 10);
    } else {
      assert Dec(n)[..0] == [];
    }
  }

  lemma DecInjective(a: nat, b: nat)
    requires Dec(a) == Dec(b)
    ensures a == b
  {
    ValueOfDec(a);
    ValueOfDec(b);
  }
}
