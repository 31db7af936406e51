/** Complex numbers over the reals, finite sums, and tables of roots of unity. */
module Complex {

  datatype Cpx = Cpx(r: real, i: real)

  const ZERO := Cpx(0.0, 0.0)
  const ONE := Cpx(1.0, 0.0)

  function Add(a: Cpx, b: Cpx): Cpx {
    Cpx(a.r + b.r, a.i + b.i)
  }

  function Sub(a: Cpx, b: Cpx): Cpx {
    Cpx(a.r - b.r, a.i - b.i)
  }

  function Mul(a: Cpx, b: Cpx): Cpx {
    Cpx(a.r * b.r - a.i * b.i, a.r * b.i + a.i * b.r)
  }

  function Neg(a: Cpx): Cpx {
    Cpx(-a.r, -a.i)
  }

  lemma AddAssoc(a: Cpx, b: Cpx, c: Cpx)
    ensures Add(Add(a, b), c) == Add(a, Add(b, c))
  {
  }

  lemma AddComm(a: Cpx, b: Cpx)
    ensures Add(a, b) == Add(b, a)
  {
  }

  lemma AddZero(a: Cpx)
    ensures Add(a, ZERO) == a && Add(ZERO, a) == a
  {
  }

  lemma MulComm(a: Cpx, b: Cpx)
    ensures Mul(a, b) == Mul(b, a)
  {
  }

  lemma MulAssoc(a: Cpx, b: Cpx, c: Cpx)
    ensures Mul(Mul(a, b), c) == Mul(a, Mul(b, c))
  {
  }

  lemma MulAdd(a: Cpx, b: Cpx, c: Cpx)
    ensures Mul(Add(a, b), c) == Add(Mul(a, c), Mul(b, c))
  {
  }

  lemma MulOne(a: Cpx)
    ensures Mul(a, ONE) == a && Mul(ONE, a) == a
  {
  }

  lemma MulZero(a: Cpx)
    ensures Mul(a, ZERO) == ZERO && Mul(ZERO, a) == ZERO
  {
  }

  /** No zero divisors: eliminate to each component of a times the norm of b, which is positive. */
  lemma NoZeroDivisors(a: Cpx, b: Cpx)
    requires Mul(a, b) == ZERO && b != ZERO
    ensures a == ZERO
  {
    var p, q := Mul(a, b).r, Mul(a, b).i;
    assert p == 0.0 && q == 0.0;
    var n := b.r * b.r + b.i * b.i;
    NormPositive(b.r, b.i, n);
    Eliminated(a.r, a.i, b.r, b.i, p, q);
    ZeroFactor(a.r, n, p, b.r, q, b.i);
    ZeroFactor(a.i, n, q, b.r, -p, b.i);
  }

  lemma Eliminated(x: real, y: real, u: real, v: real, p: real, q: real)
    requires p == x * u - y * v && q == x * v + y * u
    ensures p * u + q * v == x * (u * u + v * v)
    ensures q * u + (-p) * v == y * (u * u + v * v)
  {
  }

  lemma ZeroFactor(x: real, n: real, p: real, u: real, q: real, v: real)
    requires p == 0.0 && q == 0.0 && p * u + q * v == x * n && n > 0.0
    ensures x == 0.0
  {
  }

  lemma NormPositive(u: real, v: real, n: real)
    requires n == u * u + v * v && (u != 0.0 || v != 0.0)
    ensures n > 0.0
  {
    var s, t := u * u, v * v;
    assert n == s + t;
    SquarePositive(u, s);
    SquarePositive(v, t);
  }

  lemma SquarePositive(x: real, s: real)
    requires s == x * x
    ensures s >= 0.0 && (x != 0.0 ==> s > 0.0)
  {
    if x > 0.0 {
      ProductPositive(x, x, s);
    } else if x < 0.0 {
      ProductPositive(-x, -x, s);
    }
  }

  lemma ProductPositive(x: real, y: real, p: real)
    requires x > 0.0 && y > 0.0 && p == x * y
    ensures p > 0.0
  {
  }

  // ----- finite sums -----

  /** The sum of f(0) .. f(n - 1). */
  ghost function Sum(n: nat, f: nat -> Cpx): Cpx {
    if n == 0 then ZERO else Add(Sum(n - 1, f), f(n - 1))
  }

  lemma {:induction false} SumEq(n: nat, f: nat -> Cpx, g: nat -> Cpx)
    requires forall i :: 0 <= i < n ==> f(i) == g(i)
    ensures Sum(n, f) == Sum(n, g)
  {
    if n > 0 {
      SumEq(n - 1, f, g);
    }
  }

  lemma {:induction false} SumAdd(n: nat, f: nat -> Cpx, g: nat -> Cpx, h: nat -> Cpx)
    requires forall i :: 0 <= i < n ==> h(i) == Add(f(i), g(i))
    ensures Sum(n, h) == Add(Sum(n, f), Sum(n, g))
  {
    hide Add;
    if n == 0 {
      AddZero(ZERO);
    } else {
      SumAdd(n - 1, f, g, h);
      Shuffle(Sum(n - 1, f), Sum(n - 1, g), f(n - 1), g(n - 1));
    }
  }

  lemma Shuffle(a: Cpx, b: Cpx, c: Cpx, d: Cpx)
    ensures Add(Add(a, b), Add(c, d)) == Add(Add(a, c), Add(b, d))
  {
  }

  lemma {:induction false} SumMul(n: nat, f: nat -> Cpx, c: Cpx, h: nat -> Cpx)
    requires forall i :: 0 <= i < n ==> h(i) == Mul(f(i), c)
    ensures Sum(n, h) == Mul(Sum(n, f), c)
  {
    hide Add, Mul;
    if n == 0 {
      MulZero(c);
    } else {
      SumMul(n - 1, f, c, h);
      MulAdd(Sum(n - 1, f), f(n - 1), c);
    }
  }

  /** A sum of n + k terms is the first n and the next k. */
  lemma {:induction false} SumConcat(n: nat, k: nat, f: nat -> Cpx, g: nat -> Cpx)
    requires forall i :: 0 <= i < k ==> g(i) == f(n + i)
    ensures Sum(n + k, f) == Add(Sum(n, f), Sum(k, g))
  {
    hide Add;
    if k == 0 {
      AddZero(Sum(n, f));
    } else {
      SumConcat(n, k - 1, f, g);
      AddAssoc(Sum(n, f), Sum(k - 1, g), f(n + k - 1));
    }
  }

  /** Every p-th term of g from the q-th on. */
  ghost function Strided(g: nat -> Cpx, q: nat, p: nat): nat -> Cpx {
    (j: nat) => g(q + j * p)
  }

  /** The sums of the first m terms of each of the p decimated sequences. */
  ghost function DecimatedSums(g: nat -> Cpx, p: nat, m: nat): nat -> Cpx {
    (q: nat) => Sum(m, Strided(g, q, p))
  }

  /** The terms p * m .. p * m + p - 1. */
  ghost function RowOf(g: nat -> Cpx, p: nat, m: nat): nat -> Cpx {
    (q: nat) => g(q + m * p)
  }

  /** A sum over p * m terms is the sum of its p decimated sums. */
  lemma {:induction false} SumSplit(p: nat, m: nat, g: nat -> Cpx)
    ensures Sum(p * m, g) == Sum(p, DecimatedSums(g, p, m))
  {
    hide Add;
    if m == 0 {
      SumOfZeros(p, DecimatedSums(g, p, m));
      assert p * m == 0;
    } else {
      var k := m - 1;
      SumSplit(p, k, g);
      SumConcat(p * k, p, g, RowOf(g, p, k));
      SumAdd(p, DecimatedSums(g, p, k), RowOf(g, p, k), DecimatedSums(g, p, m));
      assert p * m == p * k + p;
    }
  }

  lemma {:induction false} SumOfZeros(n: nat, f: nat -> Cpx)
    requires forall i :: 0 <= i < n ==> f(i) == ZERO
    ensures Sum(n, f) == ZERO
  {
    if n > 0 {
      SumOfZeros(n - 1, f);
    }
  }
}
