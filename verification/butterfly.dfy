/** The in-place recombination steps of the mixed-radix transform: one per small radix and a generic one. */
module Butterflies {
  import opened Arithmetic
  import opened Complex
  import opened Dft

  /** What the transform is set up with: its length and direction, radices, and the table of roots. */
  datatype Config = Config(nfft: nat, inverse: bool, factors: seq<nat>, twiddles: seq<Cpx>) {
    /** The table holds the powers of a primitive root, turning clockwise for a forward transform. */
    ghost predicate Valid() {
      && |twiddles| == nfft && nfft > 0
      && IsRootTable(twiddles)
      && (forall e: nat :: 4 * e == nfft ==> twiddles[e] == Cpx(0.0, if inverse then 1.0 else -1.0))
    }
  }

  // ----- what a recombination step must leave behind -----

  /** Cells u, u + m, u + 2m, ... of the block of x that starts at o. */
  function Column(x: seq<Cpx>, o: nat, u: nat, m: nat): nat -> Cpx {
    (q: nat) => if o + u + q * m < |x| then x[o + u + q * m] else ZERO
  }

  function ColumnOf(k: nat, m: nat): nat
    requires m > 0
  {
    k % m
  }

  /** The transform value at frequency k out of the p values of k's column. */
  ghost function Recombine(tw: seq<Cpx>, s: nat, p: nat, m: nat, x: seq<Cpx>, o: nat, k: nat): Cpx
    requires |tw| > 0 && m > 0
  {
    Sum(p, Twisted(tw, s, Column(x, o, ColumnOf(k, m), m), k))
  }

  /** The content of cell i once columns 0 .. u - 1 of the block at o are recombined. */
  ghost function Cell(tw: seq<Cpx>, s: nat, p: nat, m: nat, x: seq<Cpx>, o: nat, u: nat, i: nat): Cpx
    requires |tw| > 0 && m > 0 && i < |x|
  {
    if o <= i < o + p * m && ColumnOf(i - o, m) < u then Recombine(tw, s, p, m, x, o, i - o) else x[i]
  }

  ghost predicate Progress(tw: seq<Cpx>, s: nat, p: nat, m: nat, x: seq<Cpx>, o: nat, u: nat, now: seq<Cpx>)
    requires |tw| > 0 && m > 0
  {
    |now| == |x| && forall i :: 0 <= i < |x| ==> now[i] == Cell(tw, s, p, m, x, o, u, i)
  }

  /** The whole block is recombined and nothing outside it has changed. */
  ghost predicate Recombined(tw: seq<Cpx>, s: nat, p: nat, m: nat, x: seq<Cpx>, o: nat, now: seq<Cpx>)
    requires |tw| > 0 && m > 0
  {
    && |now| == |x|
    && (forall i :: 0 <= i < |x| && !(o <= i < o + p * m) ==> now[i] == x[i])
    && (forall i :: o <= i < o + p * m && i < |x| ==> now[i] == Recombine(tw, s, p, m, x, o, i - o))
  }

  lemma ColumnOfCell(u: nat, q: nat, m: nat)
    requires u < m
    ensures ColumnOf(u + q * m, m) == u
  {
    ModUnique(m, q, u);
  }

  lemma ColumnsEnd(tw: seq<Cpx>, s: nat, p: nat, m: nat, x: seq<Cpx>, o: nat, now: seq<Cpx>)
    requires |tw| > 0 && m > 0
    requires Progress(tw, s, p, m, x, o, m, now)
    ensures Recombined(tw, s, p, m, x, o, now)
  {
    hide Recombine;
  }

  /** Cells of a column that has not been recombined still hold their first values. */
  lemma Untouched(tw: seq<Cpx>, s: nat, p: nat, m: nat, x: seq<Cpx>, o: nat, u: nat, now: seq<Cpx>, q: nat)
    requires |tw| > 0 && u < m
    requires Progress(tw, s, p, m, x, o, u, now) && o + u + q * m < |x|
    ensures now[o + u + q * m] == x[o + u + q * m]
  {
    hide Recombine;
    ColumnOfCell(u, q, m);
  }

  ghost predicate CellDone(tw: seq<Cpx>, s: nat, p: nat, m: nat, x: seq<Cpx>, o: nat, u: nat, now: seq<Cpx>, q: nat)
    requires |tw| > 0 && m > 0
  {
    o + u + q * m < |now| && now[o + u + q * m] == Recombine(tw, s, p, m, x, o, u + q * m)
  }

  lemma InColumn(k: nat, p: nat, m: nat) returns (q: nat)
    requires m > 0 && k < p * m
    ensures q < p && k == ColumnOf(k, m) + q * m
  {
    q := k / m;
    assert (p - q) * m > 0;
    PositiveFactor(p - q, m);
  }

  /** Recombining all cells of column u and no other is one step. */
  lemma ColumnStep(tw: seq<Cpx>, s: nat, p: nat, m: nat, x: seq<Cpx>, o: nat, u: nat, now: seq<Cpx>, next: seq<Cpx>)
    requires |tw| > 0 && u < m
    requires Progress(tw, s, p, m, x, o, u, now) && |next| == |x|
    requires forall q: nat :: q < p ==> CellDone(tw, s, p, m, x, o, u, next, q)
    requires forall i :: 0 <= i < |x| && !(o <= i < o + p * m && ColumnOf(i - o, m) == u) ==> next[i] == now[i]
    ensures Progress(tw, s, p, m, x, o, u + 1, next)
  {
    hide Recombine, ColumnOf;
    forall i | 0 <= i < |x|
      ensures next[i] == Cell(tw, s, p, m, x, o, u + 1, i)
    {
      if o <= i < o + p * m && ColumnOf(i - o, m) == u {
        var q := InColumn(i - o, p, m);
        assert CellDone(tw, s, p, m, x, o, u, next, q);
      }
    }
  }

  // ----- roots of small order -----

  /** The e-th power of the root of order p = n / d. */
  function Z(tw: seq<Cpx>, d: nat, e: nat): Cpx
    requires |tw| > 0
  {
    W(tw, d * e)
  }

  lemma ZAdd(tw: seq<Cpx>, d: nat, a: nat, b: nat)
    requires IsRootTable(tw)
    ensures Z(tw, d, a + b) == Mul(Z(tw, d, a), Z(tw, d, b))
  {
    hide Mul, W;
    assert d * (a + b) == d * a + d * b;
    WAdd(tw, d * a, d * b);
  }

  lemma ZPeriodic(tw: seq<Cpx>, d: nat, p: nat, e: nat, k: nat)
    requires |tw| > 0 && d * p == |tw|
    ensures Z(tw, d, e + k * p) == Z(tw, d, e)
  {
    hide W;
    assert d * (e + k * p) == d * e + k * (d * p) by {
      assert d * (k * p) == k * (d * p);
    }
    WPeriodic(tw, d * e, k);
  }

  lemma ZPrimitive(tw: seq<Cpx>, d: nat, p: nat)
    requires IsRootTable(tw) && d * p == |tw| && p > 1
    ensures Z(tw, d, 0) == ONE && Z(tw, d, 1) != ONE && Z(tw, d, 1) == tw[d]
  {
    hide Mul, AddsExponents;
    ProperDivisor(d, p, |tw|);
    assert d * 0 == 0 && d * 1 == d;
    WSmall(tw, 0);
    WSmall(tw, d);
  }

  lemma ProperDivisor(d: nat, p: nat, n: nat)
    requires d * p == n && n > 0 && p > 1
    ensures 0 < d < n
  {
    assert d > 0;
    assert d * p >= d * 2;
  }

  lemma Radix2Root(tw: seq<Cpx>, d: nat)
    requires IsRootTable(tw) && d * 2 == |tw|
    ensures Z(tw, d, 1) == Cpx(-1.0, 0.0)
  {
    hide W;
    var z := Z(tw, d, 1);
    ZPrimitive(tw, d, 2);
    ZAdd(tw, d, 1, 1);
    ZPeriodic(tw, d, 2, 0, 1);
    MinusOne(z);
  }

  /** The only square root of one besides one itself. */
  lemma MinusOne(z: Cpx)
    requires Mul(z, z) == ONE && z != ONE
    ensures z == Cpx(-1.0, 0.0)
  {
    var a, b := Sub(z, ONE), Add(z, ONE);
    assert Mul(b, a) == ZERO by {
      assert Mul(b, a) == Sub(Mul(z, z), ONE);
    }
    NoZeroDivisors(b, a);
  }

  lemma Radix4Roots(st: Config, d: nat)
    requires st.Valid() && d * 4 == st.nfft
    ensures Z(st.twiddles, d, 1) == Cpx(0.0, if st.inverse then 1.0 else -1.0)
    ensures Z(st.twiddles, d, 2) == Cpx(-1.0, 0.0)
    ensures Z(st.twiddles, d, 3) == Cpx(0.0, if st.inverse then -1.0 else 1.0)
  {
    hide W, Mul, IsRootTable;
    var t := if st.inverse then 1.0 else -1.0;
    ZPrimitive(st.twiddles, d, 4);
    ZAdd(st.twiddles, d, 1, 1);
    ZAdd(st.twiddles, d, 2, 1);
    assert Mul(Cpx(0.0, t), Cpx(0.0, t)) == Cpx(-1.0, 0.0) by { QuarterSquared(t); }
    assert Mul(Cpx(-1.0, 0.0), Cpx(0.0, t)) == Cpx(0.0, -t) by { NegTimes(Cpx(0.0, t)); }
  }

  lemma QuarterSquared(t: real)
    requires t == 1.0 || t == -1.0
    ensures Mul(Cpx(0.0, t), Cpx(0.0, t)) == Cpx(-1.0, 0.0)
  {
  }

  lemma NegTimes(z: Cpx)
    ensures Mul(Cpx(-1.0, 0.0), z) == Neg(z)
  {
  }

  lemma Radix3Roots(tw: seq<Cpx>, d: nat)
    requires IsRootTable(tw) && d * 3 == |tw|
    ensures Z(tw, d, 1).r == -0.5
    ensures Z(tw, d, 2) == Cpx(-0.5, -Z(tw, d, 1).i)
  {
    hide W;
    var z := Z(tw, d, 1);
    ZPrimitive(tw, d, 3);
    ZAdd(tw, d, 1, 1);
    ZAdd(tw, d, 2, 1);
    ZPeriodic(tw, d, 3, 0, 1);
    CubeRoot(z);
  }

  lemma CubeRoot(z: Cpx)
    requires Mul(Mul(z, z), z) == ONE && z != ONE
    ensures z.r == -0.5 && Mul(z, z) == Cpx(-0.5, -z.i)
  {
    var a, b := Sub(z, ONE), Add(Add(Mul(z, z), z), ONE);
    assert Mul(b, a) == ZERO by {
      assert Mul(b, a) == Sub(Mul(Mul(z, z), z), ONE);
    }
    NoZeroDivisors(b, a);
    var x, y := z.r, z.i;
    assert x * x - y * y + x + 1.0 == 0.0;
    assert 2.0 * (x * y) + y == 0.0;
    NoRealRoot(x);
    assert y * y > 0.0;
    assert y != 0.0;
    assert (2.0 * x + 1.0) * y == 0.0;
  }

  lemma NoRealRoot(x: real)
    ensures x * x + x + 1.0 > 0.0
  {
    assert (x + 0.5) * (x + 0.5) >= 0.0;
    assert (x + 0.5) * (x + 0.5) == x * x + x + 0.25;
  }

  // ----- radix 5 -----

  function Norm(z: Cpx): real {
    z.r * z.r + z.i * z.i
  }

  lemma NormMul(a: Cpx, b: Cpx)
    ensures Norm(Mul(a, b)) == Norm(a) * Norm(b)
  {
  }

  lemma FifthPowerOne(n: real)
    requires n >= 0.0 && n * n * n * n * n == 1.0
    ensures n == 1.0
  {
    var f := n * n * n * n + n * n * n + n * n + n + 1.0;
    assert (n - 1.0) * f == n * n * n * n * n - 1.0;
    assert n * n >= 0.0 && n * n * n >= 0.0 && n * n * n * n >= 0.0;
    assert f >= 1.0;
  }

  function Conj(z: Cpx): Cpx {
    Cpx(z.r, -z.i)
  }

  lemma Radix5Roots(tw: seq<Cpx>, d: nat)
    requires IsRootTable(tw) && d * 5 == |tw|
    ensures Z(tw, d, 3) == Conj(Z(tw, d, 2)) && Z(tw, d, 4) == Conj(Z(tw, d, 1))
  {
    hide W, Mul, Norm, Conj;
    var z := Z(tw, d, 1);
    ZPrimitive(tw, d, 5);
    ZAdd(tw, d, 1, 1);
    ZAdd(tw, d, 2, 1);
    ZAdd(tw, d, 3, 1);
    ZAdd(tw, d, 4, 1);
    ZAdd(tw, d, 3, 2);
    ZPeriodic(tw, d, 5, 0, 1);
    var n := Norm(z);
    NormMul(z, z);
    NormMul(Z(tw, d, 2), z);
    NormMul(Z(tw, d, 3), z);
    NormMul(Z(tw, d, 4), z);
    NormOne();
    NormNat(z);
    FifthPowerOne(n);
    Inverse(Z(tw, d, 4), z);
    Inverse(Z(tw, d, 3), Z(tw, d, 2));
  }

  lemma NormOne()
    ensures Norm(ONE) == 1.0
  {
  }

  lemma NormNat(z: Cpx)
    ensures Norm(z) >= 0.0
  {
  }

  lemma Inverse(a: Cpx, z: Cpx)
    requires Norm(z) == 1.0 && Mul(a, z) == ONE
    ensures a == Conj(z)
  {
    MulAssoc(a, z, Conj(z));
    MulOne(Conj(z));
    MulOne(a);
    assert Mul(z, Conj(z)) == ONE;
  }

  // ----- the recombined values as short sums -----

  /** Value q of column u after its twiddle factor. */
  function Twiddled(tw: seq<Cpx>, s: nat, m: nat, x: seq<Cpx>, o: nat, u: nat, q: nat): Cpx
    requires |tw| > 0
  {
    Mul(Column(x, o, u, m)(q), W(tw, s * q * u))
  }

  function Turned(tw: seq<Cpx>, s: nat, m: nat, x: seq<Cpx>, o: nat, u: nat, q1: nat): nat -> Cpx
    requires |tw| > 0
  {
    (q: nat) => Mul(Twiddled(tw, s, m, x, o, u, q), Z(tw, s * m, q * q1))
  }

  lemma TurnExponent(s: nat, m: nat, q: nat, u: nat, q1: nat)
    ensures s * q * (u + q1 * m) == s * q * u + s * m * (q * q1)
  {
    assert s * q * (u + q1 * m) == s * q * u + s * q * (q1 * m);
    assert s * q * (q1 * m) == s * m * (q * q1) by {
      assert s * q * (q1 * m) == s * (q * (q1 * m));
      assert q * (q1 * m) == m * (q * q1);
    }
  }

  /** Every value of column u is the sum of its twiddled values turned by roots of order p. */
  lemma Recombination(tw: seq<Cpx>, s: nat, p: nat, m: nat, x: seq<Cpx>, o: nat, u: nat, q1: nat)
    requires IsRootTable(tw) && u < m
    ensures Recombine(tw, s, p, m, x, o, u + q1 * m) == Sum(p, Turned(tw, s, m, x, o, u, q1))
  {
    hide Mul, W, Column;
    var col := Column(x, o, u, m);
    var k := u + q1 * m;
    ColumnOfCell(u, q1, m);
    forall q: nat | q < p
      ensures Twisted(tw, s, col, k)(q) == Turned(tw, s, m, x, o, u, q1)(q)
    {
      TurnExponent(s, m, q, u, q1);
      WAdd(tw, s * q * u, s * m * (q * q1));
      MulAssoc(col(q), W(tw, s * q * u), W(tw, s * m * (q * q1)));
    }
    SumEq(p, Twisted(tw, s, col, k), Turned(tw, s, m, x, o, u, q1));
  }

  /** The table index of a twiddle factor stays inside the table. */
  lemma TwiddleIndex(n: nat, s: nat, p: nat, m: nat, q: nat, u: nat)
    requires s * p * m == n && n > 0 && q < p && u < m
    ensures s * q * u < n && s * u < n
  {
    var e, f := q * u, p * m;
    Regrouped(s, p, m);
    Regrouped(s, q, u);
    SmallerProduct(p, m, q, u);
    PositiveFactor(s, f);
    ScaleLess(s, e, f);
    ScaleLess(s, u, f);
  }

  lemma Regrouped(a: nat, b: nat, c: nat)
    ensures a * b * c == a * (b * c)
  {
  }

  lemma SmallerProduct(p: nat, m: nat, q: nat, u: nat)
    requires q < p && u < m
    ensures q * u < p * m && u < p * m
  {
    ScaleMost(u, m, q);
    ScaleMost(q + 1, p, m);
    var a := q * m;
    assert a >= 0 && (q + 1) * m == a + m;
  }

  lemma WSmall(tw: seq<Cpx>, e: nat)
    requires e < |tw|
    ensures W(tw, e) == tw[e]
  {
  }

  lemma TwiddledIs(tw: seq<Cpx>, s: nat, m: nat, x: seq<Cpx>, o: nat, u: nat, q: nat)
    requires IsRootTable(tw) && s * q * u < |tw| && o + u + q * m < |x|
    ensures Twiddled(tw, s, m, x, o, u, q) == Mul(x[o + u + q * m], tw[s * q * u])
    ensures q == 0 ==> Twiddled(tw, s, m, x, o, u, q) == x[o + u]
  {
    hide Mul, W;
    WSmall(tw, s * q * u);
    MulOne(x[o + u]);
    if q == 0 {
      assert s * q * u == 0;
    }
  }

  lemma UnrollSum(f: nat -> Cpx)
    ensures Sum(2, f) == Add(f(0), f(1))
    ensures Sum(3, f) == Add(Add(f(0), f(1)), f(2))
    ensures Sum(4, f) == Add(Add(Add(f(0), f(1)), f(2)), f(3))
    ensures Sum(5, f) == Add(Add(Add(Add(f(0), f(1)), f(2)), f(3)), f(4))
  {
    hide Add;
    AddZero(f(0));
    assert Sum(1, f) == f(0);
    assert Sum(2, f) == Add(Sum(1, f), f(1));
    assert Sum(3, f) == Add(Sum(2, f), f(2));
    assert Sum(4, f) == Add(Sum(3, f), f(3));
  }

  lemma Recombined2(tw: seq<Cpx>, s: nat, m: nat, x: seq<Cpx>, o: nat, u: nat)
    requires IsRootTable(tw) && s * 2 * m == |tw| && u < m
    ensures var a0, a1 := Twiddled(tw, s, m, x, o, u, 0), Twiddled(tw, s, m, x, o, u, 1);
            && Recombine(tw, s, 2, m, x, o, u) == Add(a0, a1)
            && Recombine(tw, s, 2, m, x, o, u + m) == Sub(a0, a1)
  {
    hide Mul, W, Column, Twiddled, Recombine;
    var d := s * m;
    var a0, a1 := Twiddled(tw, s, m, x, o, u, 0), Twiddled(tw, s, m, x, o, u, 1);
    Recombination(tw, s, 2, m, x, o, u, 0);
    Recombination(tw, s, 2, m, x, o, u, 1);
    UnrollSum(Turned(tw, s, m, x, o, u, 0));
    UnrollSum(Turned(tw, s, m, x, o, u, 1));
    assert d * 2 == |tw|;
    ZPrimitive(tw, d, 2);
    Radix2Root(tw, d);
    MulOne(a0);
    MulOne(a1);
    MulComm(a1, Z(tw, d, 1));
    NegTimes(a1);
  }

  lemma ColumnsBegin(tw: seq<Cpx>, s: nat, p: nat, m: nat, x: seq<Cpx>, o: nat)
    requires |tw| > 0 && m > 0
    ensures Progress(tw, s, p, m, x, o, 0, x)
  {
  }

  /** What the loop of the radix-2 step reads in column u gives the column's two values. */
  lemma Reads2(st: Config, s: nat, m: nat, x: seq<Cpx>, o: nat, u: nat, now: seq<Cpx>)
    requires st.Valid() && s * 2 * m == st.nfft && u < m && o + 2 * m <= |x|
    requires Progress(st.twiddles, s, 2, m, x, o, u, now)
    ensures s * u < st.nfft
    ensures var a, t := now[o + u], Mul(now[o + u + m], st.twiddles[s * u]);
            Recombine(st.twiddles, s, 2, m, x, o, u) == Add(a, t)
            && Recombine(st.twiddles, s, 2, m, x, o, u + m) == Sub(a, t)
  {
    hide Mul, Add, Sub, Recombine, Twiddled, ColumnOf, Cell;
    Untouched(st.twiddles, s, 2, m, x, o, u, now, 0);
    Untouched(st.twiddles, s, 2, m, x, o, u, now, 1);
    TwiddleIndex(st.nfft, s, 2, m, 1, u);
    TwiddleIndex(st.nfft, s, 2, m, 0, u);
    assert s * 1 * u == s * u;
    TwiddledIs(st.twiddles, s, m, x, o, u, 0);
    TwiddledIs(st.twiddles, s, m, x, o, u, 1);
    Recombined2(st.twiddles, s, m, x, o, u);
  }

  lemma Writes2(tw: seq<Cpx>, s: nat, m: nat, x: seq<Cpx>, o: nat, u: nat, now: seq<Cpx>, next: seq<Cpx>)
    requires |tw| > 0 && u < m && o + 2 * m <= |x|
    requires Progress(tw, s, 2, m, x, o, u, now)
    requires next == now[o + u := Recombine(tw, s, 2, m, x, o, u)][o + u + m := Recombine(tw, s, 2, m, x, o, u + m)]
    ensures Progress(tw, s, 2, m, x, o, u + 1, next)
  {
    hide Recombine, ColumnOf, Cell;
    ColumnOfCell(u, 0, m);
    ColumnOfCell(u, 1, m);
    assert CellDone(tw, s, 2, m, x, o, u, next, 0);
    assert CellDone(tw, s, 2, m, x, o, u, next, 1);
    ColumnStep(tw, s, 2, m, x, o, u, now, next);
  }

  lemma ProgressLength(tw: seq<Cpx>, s: nat, p: nat, m: nat, x: seq<Cpx>, o: nat, u: nat, now: seq<Cpx>)
    requires |tw| > 0 && m > 0 && Progress(tw, s, p, m, x, o, u, now)
    ensures |now| == |x|
  {
  }

  /** A stride further on, the index of a column's first twiddle factor. */
  lemma NextIndex(s: nat, u: nat, e: nat)
    requires e == s * u
    ensures e + s == s * (u + 1)
  {
  }

  /** Radix 2. */
  method KfBfly2(fout: array<Cpx>, o: nat, fstride: nat, st: Config, m: nat)
    requires st.Valid() && m > 0 && fstride * 2 * m == st.nfft && o + 2 * m <= fout.Length
    modifies fout
    ensures Recombined(st.twiddles, fstride, 2, m, old(fout[..]), o, fout[..])
  {
    hide Mul, Add, Sub, Recombine, ColumnOf, Progress, Recombined, IsRootTable;
    ghost var x := fout[..];
    ghost var u, e := 0, 0;
    var k, cell, fout2, tw1 := m, o, o + m, 0;
    ColumnsBegin(st.twiddles, fstride, 2, m, x, o);
    while k > 0
      invariant k + u == m && cell == o + u && fout2 == o + u + m && tw1 == e == fstride * u
      invariant Progress(st.twiddles, fstride, 2, m, x, o, u, fout[..])
    {
      ghost var now := fout[..];
      Reads2(st, fstride, m, x, o, u, now);
      var t := Mul(fout[fout2], st.twiddles[tw1]);
      fout[fout2] := Sub(fout[cell], t);
      fout[cell] := Add(fout[cell], t);
      Writes2(st.twiddles, fstride, m, x, o, u, now, fout[..]);
      fout2, cell, tw1 := fout2 + 1, cell + 1, tw1 + fstride;
      k := k - 1;
      NextIndex(fstride, u, e);
      u, e := u + 1, e + fstride;
    }
    ColumnsEnd(st.twiddles, fstride, 2, m, x, o, fout[..]);
  }

  // ----- radix 3, 4 and 5 -----

  function Three(a0: Cpx, a1: Cpx, a2: Cpx, w1: Cpx, w2: Cpx): Cpx {
    Add(Add(a0, Mul(a1, w1)), Mul(a2, w2))
  }

  lemma Turn3(tw: seq<Cpx>, s: nat, m: nat, x: seq<Cpx>, o: nat, u: nat, q1: nat, k: nat, d: nat)
    requires |tw| > 0 && IsRootTable(tw) && u < m && q1 < 3 && k == u + q1 * m && d == s * m
    ensures Recombine(tw, s, 3, m, x, o, k) ==
            Three(Twiddled(tw, s, m, x, o, u, 0),
                  Twiddled(tw, s, m, x, o, u, 1),
                  Twiddled(tw, s, m, x, o, u, 2),
                  Z(tw, d, q1), Z(tw, d, 2 * q1))
  {
    hide Mul, Add, W, Z, Column, Twiddled, Recombine, IsRootTable;
    Recombination(tw, s, 3, m, x, o, u, q1);
    UnrollSum(Turned(tw, s, m, x, o, u, q1));
    ZeroTurn(tw, d, Twiddled(tw, s, m, x, o, u, 0), q1);
  }

  lemma Recombined3(tw: seq<Cpx>, s: nat, m: nat, x: seq<Cpx>, o: nat, u: nat, d: nat)
    requires |tw| > 0 && IsRootTable(tw) && d == s * m && 3 * d == |tw| && u < m
    ensures var a0, a1, a2 :=
              Twiddled(tw, s, m, x, o, u, 0),
              Twiddled(tw, s, m, x, o, u, 1),
              Twiddled(tw, s, m, x, o, u, 2);
            var z0, z1, z2 := ONE, Z(tw, d, 1), Z(tw, d, 2);
            && Recombine(tw, s, 3, m, x, o, u) == Three(a0, a1, a2, z0, z0)
            && Recombine(tw, s, 3, m, x, o, u + m) == Three(a0, a1, a2, z1, z2)
            && Recombine(tw, s, 3, m, x, o, u + 2 * m) == Three(a0, a1, a2, z2, z1)
  {
    hide Mul, Add, W, Z, Column, Twiddled, Recombine, Three, IsRootTable;
    Turn3(tw, s, m, x, o, u, 0, u, d);
    Turn3(tw, s, m, x, o, u, 1, u + m, d);
    Turn3(tw, s, m, x, o, u, 2, u + 2 * m, d);
    ZPrimitive(tw, d, 3);
    ZPeriodic(tw, d, 3, 1, 1);
  }

  lemma Writes3(tw: seq<Cpx>, s: nat, m: nat, x: seq<Cpx>, o: nat, u: nat, now: seq<Cpx>, next: seq<Cpx>)
    requires |tw| > 0 && u < m && o + 3 * m <= |x|
    requires Progress(tw, s, 3, m, x, o, u, now)
    requires next == now[o + u := Recombine(tw, s, 3, m, x, o, u)]
                         [o + u + m := Recombine(tw, s, 3, m, x, o, u + m)]
                         [o + u + 2 * m := Recombine(tw, s, 3, m, x, o, u + 2 * m)]
    ensures Progress(tw, s, 3, m, x, o, u + 1, next)
  {
    hide Recombine, ColumnOf, Cell;
    ColumnOfCell(u, 0, m);
    ColumnOfCell(u, 1, m);
    ColumnOfCell(u, 2, m);
    assert CellDone(tw, s, 3, m, x, o, u, next, 0);
    assert CellDone(tw, s, 3, m, x, o, u, next, 1);
    assert CellDone(tw, s, 3, m, x, o, u, next, 2);
    ColumnStep(tw, s, 3, m, x, o, u, now, next);
  }

  function Four(a0: Cpx, a1: Cpx, a2: Cpx, a3: Cpx, w1: Cpx, w2: Cpx, w3: Cpx): Cpx {
    Add(Add(Add(a0, Mul(a1, w1)), Mul(a2, w2)), Mul(a3, w3))
  }

  lemma Turn4(tw: seq<Cpx>, s: nat, m: nat, x: seq<Cpx>, o: nat, u: nat, q1: nat, k: nat, d: nat)
    requires |tw| > 0 && IsRootTable(tw) && u < m && q1 < 4 && k == u + q1 * m && d == s * m
    ensures Recombine(tw, s, 4, m, x, o, k) ==
            Four(Twiddled(tw, s, m, x, o, u, 0),
                 Twiddled(tw, s, m, x, o, u, 1),
                 Twiddled(tw, s, m, x, o, u, 2),
                 Twiddled(tw, s, m, x, o, u, 3),
                 Z(tw, d, q1), Z(tw, d, 2 * q1), Z(tw, d, 3 * q1))
  {
    hide Mul, Add, W, Z, Column, Twiddled, Recombine, IsRootTable;
    Recombination(tw, s, 4, m, x, o, u, q1);
    UnrollSum(Turned(tw, s, m, x, o, u, q1));
    ZeroTurn(tw, d, Twiddled(tw, s, m, x, o, u, 0), q1);
  }

  lemma Recombined4(tw: seq<Cpx>, s: nat, m: nat, x: seq<Cpx>, o: nat, u: nat, d: nat)
    requires |tw| > 0 && IsRootTable(tw) && d == s * m && 4 * d == |tw| && u < m
    ensures var a0, a1, a2, a3 :=
              Twiddled(tw, s, m, x, o, u, 0),
              Twiddled(tw, s, m, x, o, u, 1),
              Twiddled(tw, s, m, x, o, u, 2),
              Twiddled(tw, s, m, x, o, u, 3);
            var z0, z1, z2, z3 := ONE, Z(tw, d, 1), Z(tw, d, 2), Z(tw, d, 3);
            && Recombine(tw, s, 4, m, x, o, u) == Four(a0, a1, a2, a3, z0, z0, z0)
            && Recombine(tw, s, 4, m, x, o, u + m) == Four(a0, a1, a2, a3, z1, z2, z3)
            && Recombine(tw, s, 4, m, x, o, u + 2 * m) == Four(a0, a1, a2, a3, z2, z0, z2)
            && Recombine(tw, s, 4, m, x, o, u + 3 * m) == Four(a0, a1, a2, a3, z3, z2, z1)
  {
    hide Mul, Add, W, Z, Column, Twiddled, Recombine, Four, IsRootTable;
    Turn4(tw, s, m, x, o, u, 0, u, d);
    Turn4(tw, s, m, x, o, u, 1, u + m, d);
    Turn4(tw, s, m, x, o, u, 2, u + 2 * m, d);
    Turn4(tw, s, m, x, o, u, 3, u + 3 * m, d);
    ZPrimitive(tw, d, 4);
    ZPeriodic(tw, d, 4, 0, 1);
    ZPeriodic(tw, d, 4, 2, 1);
    ZPeriodic(tw, d, 4, 1, 2);
  }

  lemma Writes4(tw: seq<Cpx>, s: nat, m: nat, x: seq<Cpx>, o: nat, u: nat, now: seq<Cpx>, next: seq<Cpx>)
    requires |tw| > 0 && u < m && o + 4 * m <= |x|
    requires Progress(tw, s, 4, m, x, o, u, now)
    requires next == now[o + u := Recombine(tw, s, 4, m, x, o, u)]
                         [o + u + m := Recombine(tw, s, 4, m, x, o, u + m)]
                         [o + u + 2 * m := Recombine(tw, s, 4, m, x, o, u + 2 * m)]
                         [o + u + 3 * m := Recombine(tw, s, 4, m, x, o, u + 3 * m)]
    ensures Progress(tw, s, 4, m, x, o, u + 1, next)
  {
    hide Recombine, ColumnOf, Cell;
    ColumnOfCell(u, 0, m);
    ColumnOfCell(u, 1, m);
    ColumnOfCell(u, 2, m);
    ColumnOfCell(u, 3, m);
    assert CellDone(tw, s, 4, m, x, o, u, next, 0);
    assert CellDone(tw, s, 4, m, x, o, u, next, 1);
    assert CellDone(tw, s, 4, m, x, o, u, next, 2);
    assert CellDone(tw, s, 4, m, x, o, u, next, 3);
    ColumnStep(tw, s, 4, m, x, o, u, now, next);
  }

  function Five(a0: Cpx, a1: Cpx, a2: Cpx, a3: Cpx, a4: Cpx, w1: Cpx, w2: Cpx, w3: Cpx, w4: Cpx): Cpx {
    Add(Add(Add(Add(a0, Mul(a1, w1)), Mul(a2, w2)), Mul(a3, w3)), Mul(a4, w4))
  }

  lemma Turn5(tw: seq<Cpx>, s: nat, m: nat, x: seq<Cpx>, o: nat, u: nat, q1: nat, k: nat, d: nat)
    requires |tw| > 0 && IsRootTable(tw) && u < m && q1 < 5 && k == u + q1 * m && d == s * m
    ensures Recombine(tw, s, 5, m, x, o, k) ==
            Five(Twiddled(tw, s, m, x, o, u, 0),
                 Twiddled(tw, s, m, x, o, u, 1),
                 Twiddled(tw, s, m, x, o, u, 2),
                 Twiddled(tw, s, m, x, o, u, 3),
                 Twiddled(tw, s, m, x, o, u, 4),
                 Z(tw, d, q1), Z(tw, d, 2 * q1), Z(tw, d, 3 * q1), Z(tw, d, 4 * q1))
  {
    hide Mul, Add, W, Z, Column, Twiddled, Recombine, IsRootTable;
    Recombination(tw, s, 5, m, x, o, u, q1);
    UnrollSum(Turned(tw, s, m, x, o, u, q1));
    ZeroTurn(tw, d, Twiddled(tw, s, m, x, o, u, 0), q1);
  }

  lemma Recombined5(tw: seq<Cpx>, s: nat, m: nat, x: seq<Cpx>, o: nat, u: nat, d: nat)
    requires |tw| > 0 && IsRootTable(tw) && d == s * m && 5 * d == |tw| && u < m
    ensures var a0, a1, a2, a3, a4 :=
              Twiddled(tw, s, m, x, o, u, 0),
              Twiddled(tw, s, m, x, o, u, 1),
              Twiddled(tw, s, m, x, o, u, 2),
              Twiddled(tw, s, m, x, o, u, 3),
              Twiddled(tw, s, m, x, o, u, 4);
            var z0, z1, z2, z3, z4 := ONE, Z(tw, d, 1), Z(tw, d, 2), Z(tw, d, 3), Z(tw, d, 4);
            && Recombine(tw, s, 5, m, x, o, u) == Five(a0, a1, a2, a3, a4, z0, z0, z0, z0)
            && Recombine(tw, s, 5, m, x, o, u + m) == Five(a0, a1, a2, a3, a4, z1, z2, z3, z4)
            && Recombine(tw, s, 5, m, x, o, u + 2 * m) == Five(a0, a1, a2, a3, a4, z2, z4, z1, z3)
            && Recombine(tw, s, 5, m, x, o, u + 3 * m) == Five(a0, a1, a2, a3, a4, z3, z1, z4, z2)
            && Recombine(tw, s, 5, m, x, o, u + 4 * m) == Five(a0, a1, a2, a3, a4, z4, z3, z2, z1)
  {
    hide Mul, Add, W, Z, Column, Twiddled, Recombine, Five, IsRootTable;
    Turn5(tw, s, m, x, o, u, 0, u, d);
    Turn5(tw, s, m, x, o, u, 1, u + m, d);
    Turn5(tw, s, m, x, o, u, 2, u + 2 * m, d);
    Turn5(tw, s, m, x, o, u, 3, u + 3 * m, d);
    Turn5(tw, s, m, x, o, u, 4, u + 4 * m, d);
    ZPrimitive(tw, d, 5);
    ZPeriodic(tw, d, 5, 1, 1);
    ZPeriodic(tw, d, 5, 3, 1);
    ZPeriodic(tw, d, 5, 4, 1);
    ZPeriodic(tw, d, 5, 2, 2);
    ZPeriodic(tw, d, 5, 1, 3);
  }

  lemma Writes5(tw: seq<Cpx>, s: nat, m: nat, x: seq<Cpx>, o: nat, u: nat, now: seq<Cpx>, next: seq<Cpx>)
    requires |tw| > 0 && u < m && o + 5 * m <= |x|
    requires Progress(tw, s, 5, m, x, o, u, now)
    requires next == now[o + u := Recombine(tw, s, 5, m, x, o, u)]
                         [o + u + m := Recombine(tw, s, 5, m, x, o, u + m)]
                         [o + u + 2 * m := Recombine(tw, s, 5, m, x, o, u + 2 * m)]
                         [o + u + 3 * m := Recombine(tw, s, 5, m, x, o, u + 3 * m)]
                         [o + u + 4 * m := Recombine(tw, s, 5, m, x, o, u + 4 * m)]
    ensures Progress(tw, s, 5, m, x, o, u + 1, next)
  {
    hide Recombine, ColumnOf, Cell;
    ColumnOfCell(u, 0, m);
    ColumnOfCell(u, 1, m);
    ColumnOfCell(u, 2, m);
    ColumnOfCell(u, 3, m);
    ColumnOfCell(u, 4, m);
    assert CellDone(tw, s, 5, m, x, o, u, next, 0);
    assert CellDone(tw, s, 5, m, x, o, u, next, 1);
    assert CellDone(tw, s, 5, m, x, o, u, next, 2);
    assert CellDone(tw, s, 5, m, x, o, u, next, 3);
    assert CellDone(tw, s, 5, m, x, o, u, next, 4);
    ColumnStep(tw, s, 5, m, x, o, u, now, next);
  }

  lemma ZeroTurn(tw: seq<Cpx>, d: nat, a: Cpx, q1: nat)
    requires IsRootTable(tw)
    ensures Mul(a, Z(tw, d, 0 * q1)) == a
  {
    hide Mul;
    MulOne(a);
  }

  lemma TwiddlePlace(s: nat, q: nat, u: nat, e: nat)
    requires e == s * u
    ensures s * q * u == q * e
  {
  }

  /** What the loop of a recombination step reads in column u, whose first twiddle factor is number e. */
  lemma ReadsCell(st: Config, s: nat, p: nat, m: nat, x: seq<Cpx>, o: nat, u: nat, now: seq<Cpx>, q: nat, e: nat)
    requires st.Valid() && s * p * m == st.nfft && u < m && o + p * m <= |x| && q < p && e == s * u
    requires Progress(st.twiddles, s, p, m, x, o, u, now)
    ensures q * e < st.nfft && |now| == |x| && o + u + q * m < |x|
    ensures q > 0 ==> Twiddled(st.twiddles, s, m, x, o, u, q) == Mul(now[o + u + q * m], st.twiddles[q * e])
    ensures q == 0 ==> Twiddled(st.twiddles, s, m, x, o, u, q) == now[o + u]
  {
    hide Mul, Recombine, Twiddled, ColumnOf, Cell, IsRootTable;
    TwiddleIndex(st.nfft, s, p, m, q, u);
    TwiddlePlace(s, q, u, e);
    assert u + q * m < p * m by {
      assert (q + 1) * m <= p * m;
      assert (q + 1) * m == q * m + m;
    }
    Untouched(st.twiddles, s, p, m, x, o, u, now, q);
    TwiddledIs(st.twiddles, s, m, x, o, u, q);
  }

  function SMul(a: real, b: real): real {
    a * b
  }

  function HalfOf(a: real): real {
    a * 0.5
  }

  /** The radix-3 arithmetic, from the imaginary part y of the root alone. */
  function Bfly3(a0: Cpx, a1: Cpx, a2: Cpx, y: real): (Cpx, Cpx, Cpx) {
    var s3, s0 := Add(a1, a2), Sub(a1, a2);
    var h := Cpx(a0.r - HalfOf(s3.r), a0.i - HalfOf(s3.i));
    (Add(a0, s3), Cpx(h.r - SMul(s0.i, y), h.i + SMul(s0.r, y)), Cpx(h.r + SMul(s0.i, y), h.i - SMul(s0.r, y)))
  }

  lemma Arithmetic3(a0: Cpx, a1: Cpx, a2: Cpx, y: real)
    ensures var b := Bfly3(a0, a1, a2, y);
            && b.0 == Three(a0, a1, a2, ONE, ONE)
            && b.1 == Three(a0, a1, a2, Cpx(-0.5, y), Cpx(-0.5, -y))
            && b.2 == Three(a0, a1, a2, Cpx(-0.5, -y), Cpx(-0.5, y))
  {
  }

  lemma Reads3(st: Config, s: nat, m: nat, x: seq<Cpx>, o: nat, u: nat, now: seq<Cpx>, e: nat, d: nat)
    requires st.Valid() && s * 3 * m == st.nfft && u < m && o + 3 * m <= |x|
    requires e == s * u && d == s * m
    requires Progress(st.twiddles, s, 3, m, x, o, u, now)
    ensures |now| == |x| && 2 * e < st.nfft && d < st.nfft
    ensures var b := Bfly3(now[o + u], Mul(now[o + u + m], st.twiddles[e]),
                           Mul(now[o + u + 2 * m], st.twiddles[2 * e]), st.twiddles[d].i);
            && Recombine(st.twiddles, s, 3, m, x, o, u) == b.0
            && Recombine(st.twiddles, s, 3, m, x, o, u + m) == b.1
            && Recombine(st.twiddles, s, 3, m, x, o, u + 2 * m) == b.2
  {
    hide Mul, Bfly3, Z, Three, Recombine, Progress, Twiddled, IsRootTable;
    ReadsCell(st, s, 3, m, x, o, u, now, 0, e);
    ReadsCell(st, s, 3, m, x, o, u, now, 1, e);
    ReadsCell(st, s, 3, m, x, o, u, now, 2, e);
    Recombined3(st.twiddles, s, m, x, o, u, d);
    ZPrimitive(st.twiddles, d, 3);
    Radix3Roots(st.twiddles, d);
    Arithmetic3(Twiddled(st.twiddles, s, m, x, o, u, 0), Twiddled(st.twiddles, s, m, x, o, u, 1),
                Twiddled(st.twiddles, s, m, x, o, u, 2), st.twiddles[d].i);
  }

  /** The radix-3 arithmetic on the three cells of a column, in place. */
  method Column3(fout: array<Cpx>, f0: nat, f1: nat, f2: nat, t1: Cpx, t2: Cpx, y: real)
    requires f0 < f1 < f2 < fout.Length
    modifies fout
    ensures var x := old(fout[..]);
            var b := Bfly3(x[f0], Mul(x[f1], t1), Mul(x[f2], t2), y);
            fout[..] == x[f0 := b.0][f1 := b.1][f2 := b.2]
  {
    hide Mul, Add, Sub, SMul, HalfOf;
    var s1, s2 := Mul(fout[f1], t1), Mul(fout[f2], t2);
    var s3, s0 := Add(s1, s2), Sub(s1, s2);
    fout[f1] := Cpx(fout[f0].r - HalfOf(s3.r), fout[f0].i - HalfOf(s3.i));
    s0 := Cpx(SMul(s0.r, y), SMul(s0.i, y));
    fout[f0] := Add(fout[f0], s3);
    fout[f2] := Cpx(fout[f1].r + s0.i, fout[f1].i - s0.r);
    fout[f1] := Cpx(fout[f1].r - s0.i, fout[f1].i + s0.r);
  }

  /** Radix 3. */
  method KfBfly3(fout: array<Cpx>, o: nat, fstride: nat, st: Config, m: nat)
    requires st.Valid() && m > 0 && fstride * 3 * m == st.nfft && o + 3 * m <= fout.Length
    modifies fout
    ensures Recombined(st.twiddles, fstride, 3, m, old(fout[..]), o, fout[..])
  {
    hide Mul, Add, Sub, SMul, HalfOf, Recombine, ColumnOf, Progress, Recombined, IsRootTable, Bfly3;
    ghost var x := fout[..];
    ghost var u, e, d := 0, 0, fstride * m;
    var k, m2, cell, tw1, tw2 := m, 2 * m, o, 0, 0;
    ColumnsBegin(st.twiddles, fstride, 3, m, x, o);
    Reads3(st, fstride, m, x, o, 0, x, 0, d);
    var epi3 := st.twiddles[fstride * m];
    while k > 0
      invariant k + u == m && cell == o + u && e == fstride * u && tw1 == e && tw2 == 2 * e
      invariant Progress(st.twiddles, fstride, 3, m, x, o, u, fout[..])
    {
      ghost var now := fout[..];
      Reads3(st, fstride, m, x, o, u, now, e, d);
      Column3(fout, cell, cell + m, cell + m2, st.twiddles[tw1], st.twiddles[tw2], epi3.i);
      Writes3(st.twiddles, fstride, m, x, o, u, now, fout[..]);
      cell, tw1, tw2 := cell + 1, tw1 + fstride, tw2 + fstride * 2;
      k := k - 1;
      NextIndex(fstride, u, e);
      u, e := u + 1, e + fstride;
    }
    ColumnsEnd(st.twiddles, fstride, 3, m, x, o, fout[..]);
  }

  /** The radix-4 arithmetic, from the direction alone. */
  function Bfly4(a0: Cpx, a1: Cpx, a2: Cpx, a3: Cpx, inverse: bool): (Cpx, Cpx, Cpx, Cpx) {
    var s5, s3, s4 := Sub(a0, a2), Add(a1, a3), Sub(a1, a3);
    var up, down := Cpx(s5.r - s4.i, s5.i + s4.r), Cpx(s5.r + s4.i, s5.i - s4.r);
    (Add(Add(a0, a2), s3), if inverse then up else down, Sub(Add(a0, a2), s3), if inverse then down else up)
  }

  lemma Arithmetic4(a0: Cpx, a1: Cpx, a2: Cpx, a3: Cpx, inverse: bool)
    ensures var t := if inverse then 1.0 else -1.0;
            var w1, w2, w3 := Cpx(0.0, t), Cpx(-1.0, 0.0), Cpx(0.0, -t);
            var b := Bfly4(a0, a1, a2, a3, inverse);
            && b.0 == Four(a0, a1, a2, a3, ONE, ONE, ONE)
            && b.1 == Four(a0, a1, a2, a3, w1, w2, w3)
            && b.2 == Four(a0, a1, a2, a3, w2, ONE, w2)
            && b.3 == Four(a0, a1, a2, a3, w3, w2, w1)
  {
    hide Mul;
    var t := if inverse then 1.0 else -1.0;
    MulOne(a1);
    MulOne(a2);
    MulOne(a3);
    TimesMinusOne(a1);
    TimesMinusOne(a2);
    TimesMinusOne(a3);
    TimesQuarter(a1, t);
    TimesQuarter(a3, t);
    TimesQuarter(a1, -t);
    TimesQuarter(a3, -t);
  }

  lemma TimesMinusOne(a: Cpx)
    ensures Mul(a, Cpx(-1.0, 0.0)) == Neg(a)
  {
  }

  lemma TimesQuarter(a: Cpx, t: real)
    requires t == 1.0 || t == -1.0
    ensures Mul(a, Cpx(0.0, t)) == if t == 1.0 then Cpx(-a.i, a.r) else Cpx(a.i, -a.r)
  {
    if t == 1.0 {
    } else {
    }
  }

  lemma Reads4(st: Config, s: nat, m: nat, x: seq<Cpx>, o: nat, u: nat, now: seq<Cpx>, e: nat, d: nat)
    requires st.Valid() && s * 4 * m == st.nfft && u < m && o + 4 * m <= |x|
    requires e == s * u && d == s * m
    requires Progress(st.twiddles, s, 4, m, x, o, u, now)
    ensures |now| == |x| && 3 * e < st.nfft
    ensures var b := Bfly4(now[o + u], Mul(now[o + u + m], st.twiddles[e]),
                           Mul(now[o + u + 2 * m], st.twiddles[2 * e]),
                           Mul(now[o + u + 3 * m], st.twiddles[3 * e]), st.inverse);
            && Recombine(st.twiddles, s, 4, m, x, o, u) == b.0
            && Recombine(st.twiddles, s, 4, m, x, o, u + m) == b.1
            && Recombine(st.twiddles, s, 4, m, x, o, u + 2 * m) == b.2
            && Recombine(st.twiddles, s, 4, m, x, o, u + 3 * m) == b.3
  {
    hide Mul, Bfly4, Z, Four, Recombine, Progress, Twiddled, IsRootTable;
    ReadsCell(st, s, 4, m, x, o, u, now, 0, e);
    ReadsCell(st, s, 4, m, x, o, u, now, 1, e);
    ReadsCell(st, s, 4, m, x, o, u, now, 2, e);
    ReadsCell(st, s, 4, m, x, o, u, now, 3, e);
    Recombined4(st.twiddles, s, m, x, o, u, d);
    Radix4Roots(st, d);
    Arithmetic4(Twiddled(st.twiddles, s, m, x, o, u, 0), Twiddled(st.twiddles, s, m, x, o, u, 1),
                Twiddled(st.twiddles, s, m, x, o, u, 2), Twiddled(st.twiddles, s, m, x, o, u, 3),
                st.inverse);
  }

  /** The radix-4 arithmetic on the four cells of a column, in place. */
  method Column4(fout: array<Cpx>, f0: nat, f1: nat, f2: nat, f3: nat, t1: Cpx, t2: Cpx, t3: Cpx, inverse: bool)
    requires f0 < f1 < f2 < f3 < fout.Length
    modifies fout
    ensures var x := old(fout[..]);
            var b := Bfly4(x[f0], Mul(x[f1], t1), Mul(x[f2], t2), Mul(x[f3], t3), inverse);
            fout[..] == x[f0 := b.0][f1 := b.1][f2 := b.2][f3 := b.3]
  {
    hide Mul, Add, Sub;
    var s0, s1, s2 := Mul(fout[f1], t1), Mul(fout[f2], t2), Mul(fout[f3], t3);
    var s5 := Sub(fout[f0], s1);
    fout[f0] := Add(fout[f0], s1);
    var s3 := Add(s0, s2);
    var s4 := Sub(s0, s2);
    fout[f2] := Sub(fout[f0], s3);
    fout[f0] := Add(fout[f0], s3);
    if inverse {
      fout[f1] := Cpx(s5.r - s4.i, s5.i + s4.r);
      fout[f3] := Cpx(s5.r + s4.i, s5.i - s4.r);
    } else {
      fout[f1] := Cpx(s5.r + s4.i, s5.i - s4.r);
      fout[f3] := Cpx(s5.r - s4.i, s5.i + s4.r);
    }
  }

  /** Radix 4. */
  method KfBfly4(fout: array<Cpx>, o: nat, fstride: nat, st: Config, m: nat)
    requires st.Valid() && m > 0 && fstride * 4 * m == st.nfft && o + 4 * m <= fout.Length
    modifies fout
    ensures Recombined(st.twiddles, fstride, 4, m, old(fout[..]), o, fout[..])
  {
    hide Mul, Add, Sub, SMul, HalfOf, Recombine, ColumnOf, Progress, Recombined, IsRootTable, Bfly4;
    ghost var x := fout[..];
    ghost var u, e, d := 0, 0, fstride * m;
    var k, m2, m3, cell := m, 2 * m, 3 * m, o;
    var tw1, tw2, tw3 := 0, 0, 0;
    ColumnsBegin(st.twiddles, fstride, 4, m, x, o);
    while k > 0
      invariant k + u == m && cell == o + u
      invariant e == fstride * u && tw1 == e && tw2 == 2 * e && tw3 == 3 * e
      invariant Progress(st.twiddles, fstride, 4, m, x, o, u, fout[..])
    {
      ghost var now := fout[..];
      Reads4(st, fstride, m, x, o, u, now, e, d);
      Column4(fout, cell, cell + m, cell + m2, cell + m3, st.twiddles[tw1], st.twiddles[tw2], st.twiddles[tw3],
              st.inverse);
      tw1, tw2, tw3 := tw1 + fstride, tw2 + fstride * 2, tw3 + fstride * 3;
      Writes4(st.twiddles, fstride, m, x, o, u, now, fout[..]);
      cell := cell + 1;
      k := k - 1;
      NextIndex(fstride, u, e);
      u, e := u + 1, e + fstride;
    }
    ColumnsEnd(st.twiddles, fstride, 4, m, x, o, fout[..]);
  }

  /** The radix-5 arithmetic, from the roots ya and yb alone. */
  function Bfly5(a0: Cpx, a1: Cpx, a2: Cpx, a3: Cpx, a4: Cpx, ya: Cpx, yb: Cpx): (Cpx, Cpx, Cpx, Cpx, Cpx) {
    var s7, s10, s8, s9 := Add(a1, a4), Sub(a1, a4), Add(a2, a3), Sub(a2, a3);
    var s5 := Cpx(a0.r + SMul(s7.r, ya.r) + SMul(s8.r, yb.r), a0.i + SMul(s7.i, ya.r) + SMul(s8.i, yb.r));
    var s6 := Cpx(SMul(s10.i, ya.i) + SMul(s9.i, yb.i), -SMul(s10.r, ya.i) - SMul(s9.r, yb.i));
    var s11 := Cpx(a0.r + SMul(s7.r, yb.r) + SMul(s8.r, ya.r), a0.i + SMul(s7.i, yb.r) + SMul(s8.i, ya.r));
    var s12 := Cpx(-SMul(s10.i, yb.i) + SMul(s9.i, ya.i), SMul(s10.r, yb.i) - SMul(s9.r, ya.i));
    (Cpx(a0.r + (s7.r + s8.r), a0.i + (s7.i + s8.i)), Sub(s5, s6), Add(s11, s12), Sub(s11, s12), Add(s5, s6))
  }

  /** Turning a and b by a root and its conjugate, in the sums and differences the radix-5 step uses. */
  lemma ConjugatePair(a: Cpx, b: Cpx, w: Cpx)
    ensures var c, d := Add(a, b), Sub(a, b);
            Add(Mul(a, w), Mul(b, Conj(w))) ==
            Cpx(SMul(c.r, w.r) - SMul(d.i, w.i), SMul(c.i, w.r) + SMul(d.r, w.i))
  {
  }

  lemma Arithmetic5(a0: Cpx, a1: Cpx, a2: Cpx, a3: Cpx, a4: Cpx, ya: Cpx, yb: Cpx)
    ensures var b := Bfly5(a0, a1, a2, a3, a4, ya, yb);
            var yc, yd := Conj(yb), Conj(ya);
            && b.0 == Five(a0, a1, a2, a3, a4, ONE, ONE, ONE, ONE)
            && b.1 == Five(a0, a1, a2, a3, a4, ya, yb, yc, yd)
            && b.2 == Five(a0, a1, a2, a3, a4, yb, yd, ya, yc)
            && b.3 == Five(a0, a1, a2, a3, a4, yc, ya, yd, yb)
            && b.4 == Five(a0, a1, a2, a3, a4, yd, yc, yb, ya)
  {
    hide Mul, SMul;
    var yc, yd := Conj(yb), Conj(ya);
    assert Conj(yc) == yb && Conj(yd) == ya;
    MulOne(a1);
    MulOne(a2);
    MulOne(a3);
    MulOne(a4);
    ConjugatePair(a1, a4, ya);
    ConjugatePair(a2, a3, yb);
    ConjugatePair(a1, a4, yb);
    ConjugatePair(a2, a3, yd);
    ConjugatePair(a1, a4, yc);
    ConjugatePair(a2, a3, ya);
    ConjugatePair(a1, a4, yd);
    ConjugatePair(a2, a3, yc);
    SMulNeg(a1, a4, ya.i);
    SMulNeg(a1, a4, yb.i);
    SMulNeg(a2, a3, ya.i);
    SMulNeg(a2, a3, yb.i);
  }

  lemma SMulNeg(a: Cpx, b: Cpx, y: real)
    ensures var d := Sub(a, b); SMul(d.r, -y) == -SMul(d.r, y) && SMul(d.i, -y) == -SMul(d.i, y)
  {
  }

  lemma Reads5(st: Config, s: nat, m: nat, x: seq<Cpx>, o: nat, u: nat, now: seq<Cpx>, e: nat, d: nat)
    requires st.Valid() && s * 5 * m == st.nfft && u < m && o + 5 * m <= |x|
    requires e == s * u && d == s * m
    requires Progress(st.twiddles, s, 5, m, x, o, u, now)
    ensures |now| == |x| && 4 * e < st.nfft && 2 * d < st.nfft
    ensures var b := Bfly5(now[o + u], Mul(now[o + u + m], st.twiddles[e]),
                           Mul(now[o + u + 2 * m], st.twiddles[2 * e]),
                           Mul(now[o + u + 3 * m], st.twiddles[3 * e]),
                           Mul(now[o + u + 4 * m], st.twiddles[4 * e]),
                           st.twiddles[d], st.twiddles[2 * d]);
            && Recombine(st.twiddles, s, 5, m, x, o, u) == b.0
            && Recombine(st.twiddles, s, 5, m, x, o, u + m) == b.1
            && Recombine(st.twiddles, s, 5, m, x, o, u + 2 * m) == b.2
            && Recombine(st.twiddles, s, 5, m, x, o, u + 3 * m) == b.3
            && Recombine(st.twiddles, s, 5, m, x, o, u + 4 * m) == b.4
  {
    hide Mul, Bfly5, Five, Conj, Z, Recombine, Progress, Twiddled, IsRootTable;
    ReadsCell(st, s, 5, m, x, o, u, now, 0, e);
    ReadsCell(st, s, 5, m, x, o, u, now, 1, e);
    ReadsCell(st, s, 5, m, x, o, u, now, 2, e);
    ReadsCell(st, s, 5, m, x, o, u, now, 3, e);
    ReadsCell(st, s, 5, m, x, o, u, now, 4, e);
    Recombined5(st.twiddles, s, m, x, o, u, d);
    ZPrimitive(st.twiddles, d, 5);
    Radix5Roots(st.twiddles, d);
    SecondRoot(st.twiddles, d);
    Arithmetic5(Twiddled(st.twiddles, s, m, x, o, u, 0), Twiddled(st.twiddles, s, m, x, o, u, 1),
                Twiddled(st.twiddles, s, m, x, o, u, 2), Twiddled(st.twiddles, s, m, x, o, u, 3),
                Twiddled(st.twiddles, s, m, x, o, u, 4), st.twiddles[d], st.twiddles[2 * d]);
  }

  lemma SecondRoot(tw: seq<Cpx>, d: nat)
    requires 2 * d < |tw|
    ensures Z(tw, d, 2) == tw[2 * d]
  {
    assert d * 2 == 2 * d;
    WSmall(tw, 2 * d);
  }

  lemma Multiples(u: nat, s: nat, e: nat)
    requires e == s * u
    ensures u * s == e && 2 * u * s == 2 * e && 3 * u * s == 3 * e && 4 * u * s == 4 * e && s * 2 * u == 2 * e
  {
  }

  /** The radix-5 arithmetic on the five cells of a column, in place. */
  method Column5(fout: array<Cpx>, f0: nat, f1: nat, f2: nat, f3: nat, f4: nat, t1: Cpx, t2: Cpx, t3: Cpx, t4: Cpx,
                 ya: Cpx, yb: Cpx)
    requires f0 < f1 < f2 < f3 < f4 < fout.Length
    modifies fout
    ensures var x := old(fout[..]);
            var b := Bfly5(x[f0], Mul(x[f1], t1), Mul(x[f2], t2), Mul(x[f3], t3), Mul(x[f4], t4), ya, yb);
            fout[..] == x[f0 := b.0][f1 := b.1][f2 := b.2][f3 := b.3][f4 := b.4]
  {
    hide Mul, Add, Sub, SMul;
    var s0 := fout[f0];
    var s1, s2, s3, s4 := Mul(fout[f1], t1), Mul(fout[f2], t2), Mul(fout[f3], t3), Mul(fout[f4], t4);
    var s7, s10, s8, s9 := Add(s1, s4), Sub(s1, s4), Add(s2, s3), Sub(s2, s3);
    fout[f0] := Cpx(fout[f0].r + (s7.r + s8.r), fout[f0].i + (s7.i + s8.i));
    var s5 := Cpx(s0.r + SMul(s7.r, ya.r) + SMul(s8.r, yb.r), s0.i + SMul(s7.i, ya.r) + SMul(s8.i, yb.r));
    var s6 := Cpx(SMul(s10.i, ya.i) + SMul(s9.i, yb.i), -SMul(s10.r, ya.i) - SMul(s9.r, yb.i));
    fout[f1] := Sub(s5, s6);
    fout[f4] := Add(s5, s6);
    var s11 := Cpx(s0.r + SMul(s7.r, yb.r) + SMul(s8.r, ya.r), s0.i + SMul(s7.i, yb.r) + SMul(s8.i, ya.r));
    var s12 := Cpx(-SMul(s10.i, yb.i) + SMul(s9.i, ya.i), SMul(s10.r, yb.i) - SMul(s9.r, ya.i));
    fout[f2] := Add(s11, s12);
    fout[f3] := Sub(s11, s12);
  }

  /** Radix 5. */
  method KfBfly5(fout: array<Cpx>, o: nat, fstride: nat, st: Config, m: nat)
    requires st.Valid() && m > 0 && fstride * 5 * m == st.nfft && o + 5 * m <= fout.Length
    modifies fout
    ensures Recombined(st.twiddles, fstride, 5, m, old(fout[..]), o, fout[..])
  {
    hide Mul, Add, Sub, SMul, HalfOf, Recombine, ColumnOf, Progress, Recombined, IsRootTable, Bfly5;
    ghost var x := fout[..];
    ghost var d := fstride * m;
    ColumnsBegin(st.twiddles, fstride, 5, m, x, o);
    Reads5(st, fstride, m, x, o, 0, x, 0, d);
    var ya := st.twiddles[fstride * m];
    Multiples(m, fstride, d);
    var yb := st.twiddles[fstride * 2 * m];
    var f0, f1, f2, f3, f4 := o, o + m, o + 2 * m, o + 3 * m, o + 4 * m;
    var tw := st.twiddles;
    var u := 0;
    while u < m
      invariant u <= m && f0 == o + u && f1 == f0 + m && f2 == f0 + 2 * m && f3 == f0 + 3 * m && f4 == f0 + 4 * m
      invariant Progress(tw, fstride, 5, m, x, o, u, fout[..])
    {
      ghost var now := fout[..];
      ghost var e := fstride * u;
      Reads5(st, fstride, m, x, o, u, now, e, d);
      Multiples(u, fstride, e);
      Column5(fout, f0, f1, f2, f3, f4, tw[u * fstride], tw[2 * u * fstride], tw[3 * u * fstride], tw[4 * u * fstride],
              ya, yb);
      Writes5(tw, fstride, m, x, o, u, now, fout[..]);
      f0, f1, f2, f3, f4 := f0 + 1, f1 + 1, f2 + 1, f3 + 1, f4 + 1;
      u := u + 1;
    }
    ColumnsEnd(tw, fstride, 5, m, x, o, fout[..]);
  }
}
