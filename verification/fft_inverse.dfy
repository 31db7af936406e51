/** A forward transform followed by the transform over the opposite roots gives back n times the input. */
module Inversion {
  import opened Arithmetic
  import opened Complex
  import opened Dft

  /** The roots of one table are the inverses of the other's: the two directions of one length. */
  ghost predicate Opposite(tw: seq<Cpx>, tv: seq<Cpx>) {
    |tw| == |tv| && forall e :: 0 <= e < |tw| ==> Inverses(tw, tv, e)
  }

  predicate Inverses(tw: seq<Cpx>, tv: seq<Cpx>, e: nat)
    requires e < |tw| == |tv|
  {
    Mul(tw[e], tv[e]) == ONE
  }

  ghost function Powers(tw: seq<Cpx>, d: nat): nat -> Cpx
    requires |tw| > 0
  {
    (k: nat) => W(tw, k * d)
  }

  lemma {:induction false} Geometric(tw: seq<Cpx>, d: nat, count: nat)
    requires |tw| > 0 && IsRootTable(tw)
    ensures Add(Mul(Sum(count, Powers(tw, d)), W(tw, d)), ONE) == Add(Sum(count, Powers(tw, d)), W(tw, count * d))
  {
    hide Add, Mul, W, IsRootTable;
    var z, s := W(tw, d), Powers(tw, d);
    if count == 0 {
      MulZero(z);
      assert W(tw, 0 * d) == ONE by { WZero(tw, d); }
    } else {
      var c := count - 1;
      var sum, term := Sum(c, s), W(tw, c * d);
      Geometric(tw, d, c);
      MulAdd(sum, term, z);
      WAdd(tw, c * d, d);
      assert c * d + d == count * d;
      // (sum + term) z + 1 == (sum z + 1) + term z
      AddAssoc(Mul(sum, z), Mul(term, z), ONE);
      AddComm(Mul(term, z), ONE);
      AddAssoc(Mul(sum, z), ONE, Mul(term, z));
    }
  }

  lemma WZero(tw: seq<Cpx>, d: nat)
    requires |tw| > 0 && IsRootTable(tw)
    ensures W(tw, 0 * d) == ONE
  {
  }

  /** The powers of a root other than one sum to zero over a period. */
  lemma PowersCancel(tw: seq<Cpx>, d: nat)
    requires |tw| > 0 && IsRootTable(tw) && d % |tw| != 0
    ensures Sum(|tw|, Powers(tw, d)) == ZERO
  {
    hide Mul;
    var n, z, s := |tw|, W(tw, d), Sum(|tw|, Powers(tw, d));
    Geometric(tw, d, n);
    assert W(tw, n * d) == ONE by { MultipleMod(d, n); assert n * d == d * n; }
    assert Mul(s, z) == s;
    assert z != ONE;
    assert Mul(s, Sub(z, ONE)) == ZERO by { MulMinusOne(s, z); }
    NoZeroDivisors(s, Sub(z, ONE));
  }

  lemma MulMinusOne(s: Cpx, z: Cpx)
    requires Mul(s, z) == s
    ensures Mul(s, Sub(z, ONE)) == ZERO
  {
  }

  lemma {:induction false} OnesSum(n: nat, f: nat -> Cpx)
    requires forall k: nat :: k < n ==> f(k) == ONE
    ensures Sum(n, f) == Cpx(n as real, 0.0)
  {
    if n > 0 {
      OnesSum(n - 1, f);
    }
  }

  lemma {:induction false} SumSingle(n: nat, f: nat -> Cpx, j: nat)
    requires j < n && forall i: nat :: i < n && i != j ==> f(i) == ZERO
    ensures Sum(n, f) == f(j)
  {
    hide Add;
    if j == n - 1 {
      SumOfZeros(n - 1, f);
      AddZero(f(j));
    } else {
      SumSingle(n - 1, f, j);
      AddZero(f(j));
    }
  }

  // ----- exchanging the order of summation -----

  ghost function InnerRow(f: (nat, nat) -> Cpx, k: nat): nat -> Cpx {
    (i: nat) => f(i, k)
  }

  ghost function InnerColumn(f: (nat, nat) -> Cpx, i: nat): nat -> Cpx {
    (k: nat) => f(i, k)
  }

  ghost function RowSums(f: (nat, nat) -> Cpx, b: nat): nat -> Cpx {
    (k: nat) => Sum(b, InnerRow(f, k))
  }

  ghost function ColumnSums(f: (nat, nat) -> Cpx, a: nat): nat -> Cpx {
    (i: nat) => Sum(a, InnerColumn(f, i))
  }

  lemma {:induction false} SumSwap(a: nat, b: nat, f: (nat, nat) -> Cpx)
    ensures Sum(a, RowSums(f, b)) == Sum(b, ColumnSums(f, a))
  {
    hide Add;
    if a == 0 {
      SumOfZeros(b, ColumnSums(f, 0));
    } else {
      SumSwap(a - 1, b, f);
      SumAdd(b, ColumnSums(f, a - 1), InnerRow(f, a - 1), ColumnSums(f, a));
    }
  }

  // ----- the round trip -----

  ghost function Spectrum(tw: seq<Cpx>, x: nat -> Cpx): nat -> Cpx
    requires |tw| > 0
  {
    (k: nat) => Transform(tw, 1, |tw|, x, k)
  }

  /** x(i) turned by the k-th power of the root numbered i - j. */
  ghost function Kernel(tw: seq<Cpx>, x: nat -> Cpx, j: nat): (nat, nat) -> Cpx
    requires |tw| > 0 && j < |tw|
  {
    (i: nat, k: nat) => Mul(x(i), W(tw, k * (i + (|tw| - j))))
  }

  /** The opposite root to the power k j is the root to the power k (n - j). */
  lemma OppositePower(tw: seq<Cpx>, tv: seq<Cpx>, k: nat, j: nat, i: nat)
    requires |tw| == |tv| > 0 && IsRootTable(tw) && Opposite(tw, tv) && i + j == |tw|
    ensures W(tv, k * j) == W(tw, k * i)
  {
    hide Mul, IsRootTable;
    var n := |tw|;
    WAdd(tw, k * i, k * j);
    assert k * i + k * j == k * n;
    WMultiple(tw, k);
    var e := (k * j) % n;
    assert Inverses(tw, tv, e);
    Cancel(W(tw, k * i), W(tw, k * j), W(tv, k * j));
  }

  lemma Cancel(c: Cpx, a: Cpx, b: Cpx)
    requires Mul(c, a) == ONE && Mul(a, b) == ONE
    ensures b == c
  {
    hide Mul;
    MulAssoc(c, a, b);
    MulOne(b);
    MulOne(c);
  }

  lemma InverseTerm(tw: seq<Cpx>, tv: seq<Cpx>, x: nat -> Cpx, j: nat, k: nat)
    requires |tw| == |tv| > 0 && IsRootTable(tw) && Opposite(tw, tv) && j < |tw|
    ensures Terms(tv, 1, Spectrum(tw, x), j)(k) == RowSums(Kernel(tw, x, j), |tw|)(k)
  {
    hide Mul, W, IsRootTable, Opposite;
    var n, c := |tw|, W(tv, k * j);
    OppositePower(tw, tv, k, j, n - j);
    var terms, row := Terms(tw, 1, x, k), InnerRow(Kernel(tw, x, j), k);
    forall i: nat | i < n
      ensures row(i) == Mul(terms(i), c)
    {
      assert k * (i + (n - j)) == i * k + k * (n - j);
      WAdd(tw, i * k, k * (n - j));
      assert 1 * i * k == i * k;
      MulAssoc(x(i), W(tw, i * k), c);
    }
    SumMul(n, terms, c, row);
    assert 1 * k * j == k * j;
  }

  lemma KernelColumn(tw: seq<Cpx>, x: nat -> Cpx, j: nat, i: nat)
    requires |tw| > 0 && IsRootTable(tw) && j < |tw| && i < |tw|
    ensures ColumnSums(Kernel(tw, x, j), |tw|)(i) ==
            if i == j then Mul(x(j), Cpx(|tw| as real, 0.0)) else ZERO
  {
    hide Mul, IsRootTable, W;
    var n, d := |tw|, i + (|tw| - j);
    var column := InnerColumn(Kernel(tw, x, j), i);
    forall k: nat | k < n
      ensures column(k) == Mul(Powers(tw, d)(k), x(i))
    {
      MulComm(x(i), W(tw, k * d));
    }
    SumMul(n, Powers(tw, d), x(i), column);
    if i == j {
      forall k: nat | k < n
        ensures Powers(tw, d)(k) == ONE
      {
        WMultiple(tw, k);
      }
      OnesSum(n, Powers(tw, d));
      MulComm(x(j), Cpx(n as real, 0.0));
    } else {
      NotMultiple(n, i, j);
      PowersCancel(tw, d);
      MulZero(x(i));
    }
  }

  lemma WMultiple(tw: seq<Cpx>, k: nat)
    requires |tw| > 0 && IsRootTable(tw)
    ensures W(tw, k * |tw|) == ONE
  {
    MultipleMod(k, |tw|);
  }

  lemma NotMultiple(n: nat, i: nat, j: nat)
    requires i < n && j < n && i != j
    ensures (i + (n - j)) % n != 0
  {
    var d := i + (n - j);
    if d < n {
      assert d % n == d;
    } else {
      assert (d - n) % n == d - n;
      assert d % n == (d - n) % n by { ModUnique(n, 1, d - n); }
    }
  }

  /** Transforming forth and back multiplies every value by the length. */
  lemma RoundTrip(tw: seq<Cpx>, tv: seq<Cpx>, x: nat -> Cpx, j: nat)
    requires |tw| == |tv| > 0 && IsRootTable(tw) && Opposite(tw, tv) && j < |tw|
    ensures Transform(tv, 1, |tv|, Spectrum(tw, x), j) == Mul(x(j), Cpx(|tw| as real, 0.0))
  {
    hide Mul, IsRootTable, Opposite, Spectrum, RowSums, ColumnSums;
    var n := |tw|;
    var kernel := Kernel(tw, x, j);
    forall k: nat | k < n
      ensures Terms(tv, 1, Spectrum(tw, x), j)(k) == RowSums(kernel, n)(k)
    {
      InverseTerm(tw, tv, x, j, k);
    }
    SumEq(n, Terms(tv, 1, Spectrum(tw, x), j), RowSums(kernel, n));
    SumSwap(n, n, kernel);
    forall i: nat | i < n && i != j
      ensures ColumnSums(kernel, n)(i) == ZERO
    {
      KernelColumn(tw, x, j, i);
    }
    SumSingle(n, ColumnSums(kernel, n), j);
    KernelColumn(tw, x, j, j);
  }
}
