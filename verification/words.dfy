/** Bit operations on the naturals that stand for unsigned machine words. */
module Words {
  import opened Arithmetic

  function Pow2(k: nat): (p: nat)
    ensures p > 0
  {
    if k == 0 then 1 else 2 * Pow2(k - 1)
  }

  /** Bitwise or. */
  function Or(a: nat, b: nat): nat {
    if a == 0 && b == 0 then 0
    else 2 * Or(a / 2, b / 2) + (if a % 2 == 1 || b % 2 == 1 then 1 else 0)
  }

  /** On disjoint bits, or is addition: a has its low k bits clear and b has only those. */
  lemma {:induction false} OrAdds(a: nat, b: nat, k: nat)
    requires b < Pow2(k)
    ensures Or(a * Pow2(k), b) == a * Pow2(k) + b
  {
    if k == 0 {
      assert a * 1 == a;
      OrZero(a);
    } else {
      var h := a * Pow2(k - 1);
      assert a * Pow2(k) == 2 * h;
      OrAdds(a, b / 2, k - 1);
      OrZero(0);
    }
  }

  lemma {:induction false} OrZero(a: nat)
    ensures Or(a, 0) == a
  {
    if a > 0 {
      OrZero(a / 2);
    }
  }

  lemma {:induction false} Pow2Adds(j: nat, k: nat)
    ensures Pow2(j + k) == Pow2(j) * Pow2(k)
  {
    if j == 0 {
      assert Pow2(0) * Pow2(k) == Pow2(k);
    } else {
      Pow2Adds(j - 1, k);
      Doubles(Pow2(j - 1), Pow2(k));
    }
  }

  lemma Doubles(a: nat, b: nat)
    ensures 2 * a * b == 2 * (a * b)
  {
  }

  predicate Bytes(s: seq<nat>) {
    forall i :: 0 <= i < |s| ==> s[i] < 256
  }

  /** The number big-endian bytes spell. */
  function Value(s: seq<nat>): nat {
    if s == [] then 0 else Value(s[..|s| - 1]) * 256 + s[|s| - 1]
  }

  function Pow256(n: nat): (p: nat)
    ensures p > 0
  {
    if n == 0 then 1 else 256 * Pow256(n - 1)
  }

  lemma {:induction false} ValueBound(s: seq<nat>)
    requires Bytes(s)
    ensures Value(s) < Pow256(|s|)
  {
    if s != [] {
      ValueBound(s[..|s| - 1]);
    }
  }

  lemma ValueNext(s: seq<nat>, k: nat)
    requires k < |s|
    ensures Value(s[..k + 1]) == Value(s[..k]) * 256 + s[k]
  {
    assert s[..k + 1][..k] == s[..k];
  }

  lemma {:induction false} ValueConcat(s: seq<nat>, t: seq<nat>)
    ensures Value(s + t) == Value(s) * Pow256(|t|) + Value(t)
  {
    if t == [] {
      assert s + t == s;
      assert Value(s) * 1 == Value(s);
    } else {
      var n := |t| - 1;
      ValueConcat(s, t[..n]);
      assert (s + t)[..|s + t| - 1] == s + t[..n];
      assert Value(s) * Pow256(|t|) == Value(s) * Pow256(n) * 256 by {
        Assoc(Value(s), Pow256(n));
      }
    }
  }

  lemma Assoc(a: nat, b: nat)
    ensures a * (256 * b) == a * b * 256
  {
  }

  // ----- shifts -----

  function Shl(n: nat, k: nat): nat {
    n * Pow2(k)
  }

  function Shr(n: nat, k: nat): nat {
    hide Pow2;
    n / Pow2(k)
  }

  function U8(n: nat): (b: nat)
    ensures b < 256
  {
    n % 256
  }

  lemma Pow2Byte(k: nat)
    ensures Pow2(k + 8) == 256 * Pow2(k)
  {
    assert Pow2(8) == 256;
    Pow2Adds(8, k);
  }

  /** Or with a number that only has the cleared low bits. */
  lemma OrLow(v: nat, x: nat, k: nat)
    requires x < Pow2(k)
    ensures Or(Shl(v, k), x) == Shl(v, k) + x
  {
    OrAdds(v, x, k);
  }

  /** Or-ing the next byte in extends a number by that byte. */
  lemma OrByteIn(v: nat, x: nat, k: nat)
    requires x < 256
    ensures Or(Shl(v, k + 8), Shl(x, k)) == Shl(v * 256 + x, k)
  {
    hide Or, Pow2;
    Pow2Byte(k);
    var p := Pow2(k);
    assert x * p < 256 * p by { ScaleLess(p, x, 256); }
    OrLow(v, x * p, k + 8);
    assert v * (256 * p) == v * 256 * p;
    assert (v * 256 + x) * p == v * 256 * p + x * p;
  }

  lemma QuotientUnique(n: nat, d: nat, q: nat, r: nat)
    requires n == q * d + r && r < d
    ensures n / d == q && n % d == r
  {
    ModUnique(d, q, r);
    var e := n / d;
    assert e * d + r == q * d + r;
    assert (e - q) * d == 0;
    if e != q {
      ZeroProduct(e - q, d);
    }
  }

  lemma ZeroProduct(a: int, d: nat)
    requires d > 0 && a * d == 0
    ensures a == 0
  {
  }

  /** Shifting in two steps. */
  lemma ShrTwice(n: nat, k: nat)
    ensures Shr(n, k + 8) == Shr(n, k) / 256
  {
    hide Pow2;
    Pow2Byte(k);
    var p := Pow2(k);
    var q := n / p;
    QuotientTwice(n, p, q, n % p, q / 256, q % 256);
  }

  lemma QuotientTwice(n: nat, p: nat, q: nat, r: nat, h: nat, l: nat)
    requires p > 0 && n == q * p + r && r < p && q == h * 256 + l && l < 256
    ensures n / (256 * p) == h
  {
    assert q * p == h * (256 * p) + l * p by {
      assert (h * 256 + l) * p == h * 256 * p + l * p;
      assert h * 256 * p == h * (256 * p);
    }
    assert l * p + r < 256 * p by {
      assert (255 - l) * p >= 0;
      assert (255 - l) * p == 255 * p - l * p;
    }
    QuotientUnique(n, 256 * p, h, l * p + r);
  }

  /** A number is its high part and its byte. */
  lemma ByteSplit(n: nat, k: nat)
    ensures Shr(n, k) == Shr(n, k + 8) * 256 + U8(Shr(n, k))
  {
    hide Shr;
    ShrTwice(n, k);
  }

  lemma ShrBound(n: nat, j: nat, k: nat)
    requires n < Pow2(j + k)
    ensures Shr(n, k) < Pow2(j)
  {
    hide Pow2;
    Pow2Adds(j, k);
    var p, q := Pow2(k), n / Pow2(k);
    assert q * p <= n;
    assert (Pow2(j) - q) * p == Pow2(j) * p - q * p;
    PositiveFactor(Pow2(j) - q, p);
  }

  lemma Pow2Table()
    ensures Pow2(0) == 1 && Pow2(1) == 2 && Pow2(2) == 4 && Pow2(3) == 8 && Pow2(4) == 16 && Pow2(5) == 32
    ensures Pow2(6) == 64 && Pow2(7) == 128 && Pow2(8) == 256 && Pow2(12) == 4096
  {
  }

  /** Shifts by small counts, as products and quotients. */
  lemma SmallShifts(n: nat)
    ensures Shl(n, 1) == 2 * n && Shl(n, 2) == 4 * n && Shl(n, 3) == 8 * n && Shl(n, 4) == 16 * n
    ensures Shl(n, 6) == 64 * n && Shl(n, 7) == 128 * n
    ensures Shr(n, 1) == n / 2 && Shr(n, 2) == n / 4 && Shr(n, 3) == n / 8 && Shr(n, 4) == n / 16
    ensures Shr(n, 6) == n / 64 && Shr(n, 7) == n / 128
  {
    hide Pow2;
    Pow2Table();
  }

  /** The low byte of a shifted number. */
  lemma ShiftedByte(n: nat, k: nat)
    requires k <= 8
    ensures U8(Shl(n, k)) == Shl(n % Pow2(8 - k), k) < 256
  {
    hide Pow2;
    var c, p := Pow2(8 - k), Pow2(k);
    Pow2Adds(8 - k, k);
    Pow2Table();
    ShiftedParts(n, c, p, n / c, n % c);
  }

  lemma ShiftedParts(n: nat, c: nat, p: nat, q: nat, r: nat)
    requires c * p == 256 && n == q * c + r && r < c
    ensures U8(n * p) == r * p < 256
  {
    assert n * p == q * 256 + r * p by {
      assert (q * c + r) * p == q * (c * p) + r * p;
    }
    assert r * p < 256 by {
      ScaleLess(p, r, c);
    }
    SharedByte(n * p, q, r * p);
  }

  lemma SharedByte(v: nat, q: nat, r: nat)
    requires v == q * 256 + r && r < 256
    ensures U8(v) == r
  {
  }
}
