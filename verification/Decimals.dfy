/** Decimal numerals, printed and parsed. */
module Decimals {
  predicate IsDigit(c: char) { '0' <= c <= '9' }

  function DigitValue(c: char): nat
    requires IsDigit(c)
  {
    c as int - '0' as int
  }

  predicate AllDigits(s: string) { s != [] && forall k :: 0 <= k < |s| ==> IsDigit(s[k]) }

  function Decimal(k: nat): (s: string)
    ensures AllDigits(s)
  {
    if k < 10 then [('0' as int + k) as char] else Decimal(k / 10) + [('0' as int + k % 10) as char]
  }

  function ParseDecimal(s: string): nat
    requires forall k :: 0 <= k < |s| ==> IsDigit(s[k])
  {
    if s == [] then 0 else ParseDecimal(s[..|s| - 1]) * 10 + DigitValue(s[|s| - 1])
  }

  lemma {:induction false} DecimalRoundTrip(k: nat)
    ensures ParseDecimal(Decimal(k)) == k
  {
    if k < 10 {
      assert Decimal(k)[..0] == [];
    } else {
      DecimalRoundTrip(k / 10);
      assert Decimal(k)[..|Decimal(k)| - 1] == Decimal(k / 10);
    }
  }
}
