/** Facts about products and remainders, and 32-bit integers. */
module Arithmetic {

  const HALF32 := 0x8000_0000
  const WORD32 := 0x1_0000_0000
  const INT_MAX := 0x7FFF_FFFF

  /** A number as a 32-bit integer holds it. */
  function Wrap(n: int): (w: int)
    ensures -HALF32 <= w < HALF32
  {
    (n + HALF32) % WORD32 - HALF32
  }

  lemma PositiveFactor(x: int, n: nat)
    requires x * n > 0
    ensures x > 0
  {
  }

  lemma ModUnique(n: nat, q: nat, r: nat)
    requires r < n
    ensures (r + q * n) % n == r
  {
    var e := r + q * n;
    var d := e / n;
    assert e == d * n + e % n;
    assert (d + 1 - q) * n > 0 by { assert (d + 1 - q) * n == d * n + n - q * n; }
    assert (q + 1 - d) * n > 0 by { assert (q + 1 - d) * n == q * n + n - d * n; }
    PositiveFactor(d + 1 - q, n);
    PositiveFactor(q + 1 - d, n);
    assert d == q;
  }

  lemma ModAdd(a: nat, b: nat, n: nat)
    requires n > 0
    ensures (a + b) % n == (a % n + b % n) % n
  {
    var c := a % n + b % n;
    var q := a / n + b / n + c / n;
    assert (a / n + b / n + c / n) * n == (a / n) * n + (b / n) * n + (c / n) * n;
    assert a + b == c % n + q * n;
    ModUnique(n, q, c % n);
  }

  lemma ScaleLess(s: nat, e: nat, f: nat)
    requires s > 0 && e < f
    ensures s * e < s * f
  {
  }

  lemma ScaleMost(a: nat, b: nat, c: nat)
    requires a <= b
    ensures a * c <= b * c && c * a <= c * b
  {
  }

  lemma QuotientIs(n: nat, d: nat, q: nat)
    requires d > 0 && q * d == n
    ensures n / d == q
  {
    ModUnique(d, q, 0);
    var e := n / d;
    assert e * d == n;
    SameFactor(e, q, d);
  }

  lemma SameFactor(a: int, b: int, d: nat)
    requires d > 0 && a * d == b * d
    ensures a == b
  {
    assert (a - b) * d == 0;
  }

  lemma MultipleMod(a: nat, d: nat)
    requires d > 0
    ensures (a * d) % d == 0
  {
    ModUnique(d, a, 0);
  }
}
