/** Maxima, minima and bounds on quotients. */
module Arithmetic {
  function Max(a: int, b: int): int { if a < b then b else a }

  function Min(a: int, b: int): int { if a < b then a else b }

  lemma Monotone(a: nat, b: nat, c: nat)
    requires b <= c
    ensures a * b <= a * c
  {
  }

  lemma DivLess(p: nat, d: nat, x: nat)
    requires d > 0 && p < d * x
    ensures p / d < x
  {
    var q := p / d;
    assert d * q <= p;
    if q >= x {
      Monotone(d, x, q);
    }
  }

  lemma DivAtLeast(p: nat, d: nat, x: nat)
    requires d > 0 && d * x <= p
    ensures x <= p / d
  {
    var q := p / d;
    assert p < d * q + d == d * (q + 1);
    if q < x {
      Monotone(d, q + 1, x);
    }
  }

  /** The nearest integer to p / q, halves rounded up. */
  function Round(p: nat, q: nat): nat
    requires q > 0
  {
    (2 * p + q) / (2 * q)
  }

  /** r is the integer nearest to p / q; of two, the upper one. */
  ghost predicate IsNearest(r: int, p: int, q: int) {
    2 * q * r <= 2 * p + q < 2 * q * r + 2 * q
  }

  lemma RoundIsNearest(p: nat, q: nat)
    requires q > 0
    ensures IsNearest(Round(p, q), p, q)
  {
    var n, d := 2 * p + q, 2 * q;
    assert n == d * (n / d) + n % d;
  }

  /** Rounding keeps integer bounds. */
  lemma RoundAtMost(p: nat, q: nat, m: nat)
    requires q > 0 && p <= q * m
    ensures Round(p, q) <= m
  {
    var d := 2 * q;
    assert d * (m + 1) == 2 * (q * m) + 2 * q;
    DivLess(2 * p + q, d, m + 1);
  }

  lemma RoundAtLeast(p: nat, q: nat, m: nat)
    requires q > 0 && q * m <= p
    ensures Round(p, q) >= m
  {
    var d := 2 * q;
    assert d * m == 2 * (q * m);
    DivAtLeast(2 * p + q, d, m);
  }
}
