/** The discrete Fourier transform as a sum over powers of a root of unity, and how it decomposes. */
module Dft {
  import opened Arithmetic
  import opened Complex

  /** A table of the powers of a primitive root of unity: a homomorphism from the integers modulo its
      length that is injective at zero. */
  ghost predicate IsRootTable(tw: seq<Cpx>) {
    && |tw| > 0
    && tw[0] == ONE
    && (forall a, b :: 0 <= a < |tw| && 0 <= b < |tw| ==> AddsExponents(tw, a, b))
    && (forall a :: 0 < a < |tw| ==> tw[a] != ONE)
  }

  predicate AddsExponents(tw: seq<Cpx>, a: nat, b: nat)
    requires a < |tw| && b < |tw|
  {
    tw[(a + b) % |tw|] == Mul(tw[a], tw[b])
  }

  /** The root to the power e. */
  function W(tw: seq<Cpx>, e: nat): Cpx
    requires |tw| > 0
  {
    tw[e % |tw|]
  }

  lemma WAdd(tw: seq<Cpx>, a: nat, b: nat)
    requires IsRootTable(tw)
    ensures W(tw, a + b) == Mul(W(tw, a), W(tw, b))
  {
    hide Mul;
    ModAdd(a, b, |tw|);
    assert AddsExponents(tw, a % |tw|, b % |tw|);
  }

  lemma WPeriodic(tw: seq<Cpx>, e: nat, k: nat)
    requires |tw| > 0
    ensures W(tw, e + k * |tw|) == W(tw, e)
  {
    var r, q := e % |tw|, e / |tw|;
    assert e + k * |tw| == r + (q + k) * |tw|;
    ModUnique(|tw|, q + k, r);
  }

  /** Terms of the transform at frequency k, for a root that is the table's root to the power s. */
  ghost function Terms(tw: seq<Cpx>, s: nat, x: nat -> Cpx, k: nat): nat -> Cpx
    requires |tw| > 0
  {
    (j: nat) => Mul(x(j), W(tw, s * j * k))
  }

  /** The transform of x(0) .. x(len - 1) at frequency k. */
  ghost function Transform(tw: seq<Cpx>, s: nat, len: nat, x: nat -> Cpx, k: nat): Cpx
    requires |tw| > 0
  {
    Sum(len, Terms(tw, s, x, k))
  }

  /** The recombination of p column values at frequency k. */
  ghost function Twisted(tw: seq<Cpx>, s: nat, column: nat -> Cpx, k: nat): nat -> Cpx
    requires |tw| > 0
  {
    (q: nat) => Mul(column(q), W(tw, s * q * k))
  }

  /** The transforms of length m of the p decimated inputs, at frequency u. */
  ghost function SubTransforms(tw: seq<Cpx>, s: nat, p: nat, m: nat, x: nat -> Cpx, u: nat): nat -> Cpx
    requires |tw| > 0
  {
    (q: nat) => Transform(tw, s * p, m, Strided(x, q, p), u)
  }

  lemma Exponent(n: nat, s: nat, p: nat, m: nat, q: nat, j: nat, u: nat, q1: nat)
    requires s * p * m == n
    ensures s * (q + j * p) * (u + q1 * m) == (s * p * j * u + (j * q1) * n) + s * q * (u + q1 * m)
  {
    var k := u + q1 * m;
    assert s * (q + j * p) * k == s * q * k + s * (j * p) * k by {
      assert s * (q + j * p) == s * q + s * (j * p);
      assert (s * q + s * (j * p)) * k == s * q * k + s * (j * p) * k;
    }
    assert s * (j * p) * k == s * (j * p) * u + s * (j * p) * (q1 * m);
    assert s * (j * p) * u == s * p * j * u by { assert s * (j * p) == s * p * j; }
    assert s * (j * p) * (q1 * m) == (j * q1) * (s * p * m) by {
      assert s * (j * p) == (s * p) * j;
      assert (s * p) * j * (q1 * m) == (s * p) * (j * (q1 * m));
      assert j * (q1 * m) == (j * q1) * m;
      assert (s * p) * ((j * q1) * m) == (j * q1) * ((s * p) * m);
    }
  }

  lemma TermSplits(tw: seq<Cpx>, s: nat, p: nat, m: nat, x: nat -> Cpx, u: nat, q1: nat, q: nat, j: nat)
    requires IsRootTable(tw) && s * p * m == |tw|
    ensures Terms(tw, s, x, u + q1 * m)(q + j * p) ==
            Mul(Terms(tw, s * p, Strided(x, q, p), u)(j), W(tw, s * q * (u + q1 * m)))
  {
    hide Mul, W;
    var k := u + q1 * m;
    Exponent(|tw|, s, p, m, q, j, u, q1);
    WAdd(tw, s * p * j * u + (j * q1) * |tw|, s * q * k);
    WPeriodic(tw, s * p * j * u, j * q1);
    MulAssoc(x(q + j * p), W(tw, s * p * j * u), W(tw, s * q * k));
  }

  lemma DecimatedTerm(tw: seq<Cpx>, s: nat, p: nat, m: nat, x: nat -> Cpx, u: nat, q1: nat, q: nat, k: nat, e: nat)
    requires |tw| > 0 && IsRootTable(tw) && s * p * m == |tw| && k == u + q1 * m && e == s * q * k
    ensures DecimatedSums(Terms(tw, s, x, k), p, m)(q) == Mul(SubTransforms(tw, s, p, m, x, u)(q), W(tw, e))
  {
    hide Mul, W, Terms, IsRootTable;
    var g, part := Terms(tw, s, x, k), Terms(tw, s * p, Strided(x, q, p), u);
    forall j: nat | j < m
      ensures Strided(g, q, p)(j) == Mul(part(j), W(tw, e))
    {
      TermSplits(tw, s, p, m, x, u, q1, q, j);
    }
    SumMul(m, part, W(tw, e), Strided(g, q, p));
  }

  /** Decimation in time: a transform of length p * m from p transforms of length m. */
  lemma Decimation(tw: seq<Cpx>, s: nat, p: nat, m: nat, x: nat -> Cpx, u: nat, q1: nat)
    requires |tw| > 0 && IsRootTable(tw) && s * p * m == |tw|
    ensures Transform(tw, s, p * m, x, u + q1 * m) ==
            Sum(p, Twisted(tw, s, SubTransforms(tw, s, p, m, x, u), u + q1 * m))
  {
    hide Mul, W, Terms, IsRootTable, DecimatedSums, SubTransforms;
    var k := u + q1 * m;
    var g := Terms(tw, s, x, k);
    SumSplit(p, m, g);
    forall q: nat | q < p
      ensures DecimatedSums(g, p, m)(q) == Twisted(tw, s, SubTransforms(tw, s, p, m, x, u), k)(q)
    {
      DecimatedTerm(tw, s, p, m, x, u, q1, q, k, s * q * k);
    }
    SumEq(p, DecimatedSums(g, p, m), Twisted(tw, s, SubTransforms(tw, s, p, m, x, u), k));
  }
}
