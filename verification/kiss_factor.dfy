/** Factoring a transform length into radices. */
module KissFactor {
  import opened Arithmetic
  import Words

  const MAXFACTORS := 32

  ghost predicate Prime(n: nat) {
    n > 1 && forall d :: 2 <= d < n ==> n % d != 0
  }

  ghost predicate Radix(p: nat) {
    p == 4 || Prime(p)
  }

  function RadixAt(s: seq<nat>, i: nat): nat
    requires 2 * i + 1 < |s|
  {
    s[2 * i]
  }

  function StageAt(s: seq<nat>, i: nat): nat
    requires 2 * i + 1 < |s|
  {
    s[2 * i + 1]
  }

  /** The length stage i has to transform. */
  function LengthAt(s: seq<nat>, n: nat, i: nat): nat
    requires 2 * i <= |s|
  {
    if i == 0 then n else s[2 * i - 1]
  }

  /** The first count pairs of s split n: each stage's radix times what is left is the stage's length. */
  ghost predicate Splits(s: seq<nat>, n: nat, count: nat) {
    && 2 * count <= |s|
    && forall i :: 0 <= i < count ==>
         && RadixAt(s, i) * StageAt(s, i) == LengthAt(s, n, i)
         && RadixAt(s, i) > 0
         && Chosen(LengthAt(s, n, i), RadixAt(s, i))
         && (n > 1 ==> Radix(RadixAt(s, i)))
  }

  /** The small radix the search finds first: 4, then 2, 3, 5; none of them divides when it is 0. */
  function SmallRadix(n: nat): (p: nat)
    ensures p != 0 ==> p in {2, 3, 4, 5} && n % p == 0
  {
    if n % 4 == 0 then 4 else if n % 2 == 0 then 2 else if n % 3 == 0 then 3 else if n % 5 == 0 then 5 else 0
  }

  /** A small radix is taken whenever one divides, and any other only when none does. */
  predicate Chosen(n: nat, p: nat) {
    if SmallRadix(n) != 0 then p == SmallRadix(n) else p !in {2, 3, 4, 5}
  }

  /** The product of the first count radices. */
  function Product(s: seq<nat>, count: nat): nat
    requires 2 * count <= |s|
  {
    if count == 0 then 1 else Product(s, count - 1) * RadixAt(s, count - 1)
  }

  lemma TimesAssoc(a: nat, b: nat, c: nat)
    ensures a * b * c == a * (b * c)
  {
  }

  /** Each stored stage length is n divided by the radices so far. */
  lemma {:induction false} StageTimesRadices(s: seq<nat>, n: nat, count: nat)
    requires Splits(s, n, count)
    ensures Product(s, count) * LengthAt(s, n, count) == n
  {
    if count > 0 {
      var i := count - 1;
      StageTimesRadices(s, n, i);
      assert RadixAt(s, i) * StageAt(s, i) == LengthAt(s, n, i);
      TimesAssoc(Product(s, i), RadixAt(s, i), StageAt(s, i));
    }
  }

  // ----- square roots and primes -----

  function FloorSqrt(n: nat): (r: nat)
    ensures r * r <= n < (r + 1) * (r + 1)
  {
    if n == 0 then 0
    else
      var r := FloorSqrt(n - 1);
      if (r + 1) * (r + 1) <= n then r + 1 else r
  }

  ghost predicate NoneBelow(n: nat, p: nat) {
    forall d :: 2 <= d < p ==> n % d != 0
  }

  /** What is known of n when radix p is tried: 4 first, then 2, then the odd numbers, or n itself at the end. */
  ghost predicate Tried(n: nat, p: nat) {
    || p == 4
    || (p == 2 && n % 4 != 0)
    || (p > 2 && p % 2 == 1 && NoneBelow(n, p))
    || (p == n && (n == 1 || Prime(n)))
  }

  lemma Divides(d: nat, p: nat, n: nat)
    requires d > 0 && p > 0 && p % d == 0 && n % p == 0
    ensures n % d == 0
  {
    var a, b := p / d, n / p;
    assert n == b * a * d by {
      assert p == a * d;
      assert n == b * p;
      assert b * (a * d) == b * a * d;
    }
    MultipleMod(b * a, d);
  }

  /** The radix that divides at the end of a search is 4 or a prime. */
  lemma FoundRadix(n: nat, p: nat)
    requires n > 1 && p > 0 && Tried(n, p) && n % p == 0
    ensures Radix(p) && p >= 2
  {
    if p > 2 && p % 2 == 1 && NoneBelow(n, p) {
      forall d | 2 <= d < p
        ensures p % d != 0
      {
        if p % d == 0 {
          Divides(d, p, n);
        }
      }
    } else if p == 2 {
      assert Prime(2);
    }
  }

  /** The radix found is the first small one that divides, and another one only when none does. */
  lemma FoundChosen(n: nat, p: nat)
    requires n > 0 && p > 0 && Tried(n, p) && n % p == 0
    ensures Chosen(n, p)
  {
    if p > 2 && p % 2 == 1 && NoneBelow(n, p) {
      if n % 4 == 0 {
        EvenDivides(n, 4);
      }
    }
  }

  /** Of a divisor and its cofactor one is below the square root. */
  lemma SmallDivisor(n: nat, p: nat, d: nat)
    requires n < p * p && 2 <= d < n && n % d == 0
    ensures exists e :: 2 <= e < p && n % e == 0
  {
    if d < p {
      assert n % d == 0;
    } else {
      var e := n / d;
      assert n == e * d;
      BelowRoot(n, p, d, e);
      MultipleMod(d, e);
    }
  }

  lemma BelowRoot(n: nat, p: nat, d: nat, e: nat)
    requires n == e * d && n < p * p && p <= d < n
    ensures 2 <= e < p && n == d * e
  {
    assert e >= 2 by {
      assert 1 * d == d && 0 * d == 0;
    }
    var a, b := e * p, p * p;
    assert a <= e * d;
    assert (p - e) * p == b - a;
    PositiveFactor(p - e, p);
  }

  /** A number without divisors up to its square root is prime. */
  lemma NoneUpToRoot(n: nat, p: nat)
    requires n > 1 && n < p * p && NoneBelow(n, p)
    ensures Prime(n)
  {
    forall d | 2 <= d < n
      ensures n % d != 0
    {
      if n % d == 0 {
        SmallDivisor(n, p, d);
      }
    }
  }

  // ----- the search -----

  /** The next radix tried after p has failed, before the square-root test. */
  function Next(p: nat): nat {
    match p
    case 4 => 2
    case 2 => 3
    case _ => p + 2
  }

  lemma EvenDivides(n: nat, q: nat)
    requires q > 0 && q % 2 == 0 && n % q == 0
    ensures n % 2 == 0
  {
    Divides(2, q, n);
  }

  lemma NextNoneBelow(n: nat, p: nat)
    requires n > 0 && p > 0 && Tried(n, p) && n % p != 0
    ensures p != 4 ==> NoneBelow(n, Next(p))
    ensures Next(p) == 2 || Next(p) % 2 == 1
    ensures p == 4 ==> n % 4 != 0
  {
    if p > 2 && p % 2 == 1 {
      TwoMore(n, p);
    }
  }

  lemma TwoMore(n: nat, p: nat)
    requires p > 2 && p % 2 == 1 && NoneBelow(n, p) && n % p != 0
    ensures NoneBelow(n, p + 2)
  {
    forall d | 2 <= d < p + 2
      ensures n % d != 0
    {
      if d == p + 1 && n % d == 0 {
        EvenDivides(n, d);
      }
    }
  }

  /** A failed radix is replaced by one that keeps what is known, and the search gets closer to its end. */
  lemma SearchStep(n: nat, p: nat, fs: nat, p': nat)
    requires n > 0 && p > 0 && Tried(n, p) && n % p != 0 && n < (fs + 1) * (fs + 1)
    requires p == 4 || p <= fs
    requires p' == (if Next(p) > fs then n else Next(p))
    ensures p' > 0 && Tried(n, p') && (p' <= fs || p' == n)
    ensures 0 <= Rank(n, p', fs) < Rank(n, p, fs)
  {
    NextNoneBelow(n, p);
    var q := Next(p);
    if q > fs {
      assert (fs + 1) * (fs + 1) <= q * q by { Squares(fs + 1, q); }
      if n > 1 {
        NoneUpToRoot(n, q);
      }
      assert n % n == 0;
    }
  }

  lemma Squares(a: nat, b: nat)
    requires a <= b
    ensures a * a <= b * b
  {
    assert a * a <= a * b <= b * b;
  }

  function Rank(n: nat, p: nat, fs: nat): int
    requires p > 0
  {
    if n % p == 0 then 0 else if p == 4 then fs + 3 else if p == 2 then fs + 2
    else if p <= fs then fs + 1 - p + 1 else 1
  }

  /** What was tried on n stays tried on n / p. */
  lemma TriedOnQuotient(n: nat, p: nat)
    requires p > 0 && Tried(n, p) && n % p == 0 && n / p > 1
    ensures Tried(n / p, p)
  {
    var m := n / p;
    CofactorDivides(n, p, m);
    if p > 2 && p % 2 == 1 && NoneBelow(n, p) {
      forall d | 2 <= d < p
        ensures m % d != 0
      {
        if m % d == 0 {
          Divides(d, m, n);
        }
      }
    }
  }

  lemma CofactorDivides(n: nat, p: nat, m: nat)
    requires p > 0 && n % p == 0 && m == n / p && m > 1
    ensures n % m == 0 && p != n && (p == 2 && n % 4 != 0 ==> m % 4 != 0)
  {
    assert n == m * p;
    assert m * p == p * m;
    MultipleMod(p, m);
    assert m * p >= 2 * p;
  }

  // ----- the number of radices -----

  lemma {:induction false} Pow2Grows(j: nat, k: nat)
    requires j <= k
    ensures Words.Pow2(j) <= Words.Pow2(k)
  {
    if j < k {
      Pow2Grows(j, k - 1);
    }
  }

  lemma FewRadices(k: nat, n: nat, n0: nat)
    requires n > 0 && Words.Pow2(k) * n <= n0 <= INT_MAX
    ensures k < MAXFACTORS - 1
  {
    if k >= 31 {
      Pow2Grows(31, k);
      Pow2Of31();
    }
  }

  lemma Pow2Of31()
    ensures Words.Pow2(31) == 0x8000_0000
  {
    assert Words.Pow2(8) == 256;
    assert Words.Pow2(16) == 65536;
    assert Words.Pow2(24) == 16777216;
  }

  lemma FewerLeft(k: nat, n: nat, p: nat, n0: nat)
    requires p >= 2 && n % p == 0 && Words.Pow2(k) * n <= n0
    ensures Words.Pow2(k + 1) * (n / p) <= n0
  {
    var m := n / p;
    assert 2 * m <= p * m == n;
    assert Words.Pow2(k) * (2 * m) <= Words.Pow2(k) * n by { assert Words.Pow2(k) > 0 || Words.Pow2(k) == 0; }
    assert Words.Pow2(k + 1) * m == Words.Pow2(k) * (2 * m);
  }

  /** The stored pairs split n down to 1, and only the last stage length is 1. */
  ghost predicate Complete(s: seq<nat>, n: nat, count: nat) {
    && count > 0
    && Splits(s, n, count)
    && StageAt(s, count - 1) == 1
    && forall i :: 0 <= i < count - 1 ==> StageAt(s, i) > 1
  }

  lemma SplitsOneMore(s: seq<nat>, n0: nat, i: nat, p: nat, m: nat, s': seq<nat>)
    requires Splits(s, n0, i) && 2 * i + 1 < |s| && p > 0 && p * m == LengthAt(s, n0, i)
    requires Chosen(LengthAt(s, n0, i), p)
    requires n0 > 1 ==> Radix(p)
    requires s' == s[2 * i := p][2 * i + 1 := m]
    requires forall j :: 0 <= j < i ==> StageAt(s, j) > 1
    ensures Splits(s', n0, i + 1) && StageAt(s', i) == m && LengthAt(s', n0, i + 1) == m
    ensures forall j :: 0 <= j < i ==> StageAt(s', j) > 1
  {
    hide Radix, Chosen;
    forall j | 0 <= j < i + 1
      ensures Chosen(LengthAt(s', n0, j), RadixAt(s', j))
      ensures RadixAt(s', j) * StageAt(s', j) == LengthAt(s', n0, j) && RadixAt(s', j) > 0
      ensures n0 > 1 ==> Radix(RadixAt(s', j))
      ensures j < i ==> StageAt(s', j) > 1
    {
      if j < i {
        assert RadixAt(s', j) == RadixAt(s, j) && StageAt(s', j) == StageAt(s, j);
        assert LengthAt(s', n0, j) == LengthAt(s, n0, j);
      }
    }
  }

  /** The inner loop: 4, then 2, then the odd numbers up to the square root of the whole length, then n itself. */
  method FindRadix(n: nat, tried: nat, floorSqrt: nat) returns (p: nat)
    requires n > 0 && tried > 0 && Tried(n, tried) && n < (floorSqrt + 1) * (floorSqrt + 1)
    requires tried == 4 || tried <= floorSqrt
    ensures p > 0 && n % p == 0 && Tried(n, p) && (p == 4 || p <= floorSqrt || p == n)
    ensures n > 1 ==> Radix(p) && p >= 2
    ensures Chosen(n, p)
  {
    hide Radix, Tried, Rank, Chosen;
    p := tried;
    while n % p != 0
      invariant p > 0 && Tried(n, p) && (p == 4 || p <= floorSqrt || p == n)
      decreases Rank(n, p, floorSqrt)
    {
      ghost var failed := p;
      match p {
        case 4 => p := 2;
        case 2 => p := 3;
        case _ => p := p + 2;
      }
      if p > floorSqrt {
        p := n;
      }
      SearchStep(n, failed, floorSqrt, p);
    }
    FoundChosen(n, p);
    if n > 1 {
      FoundRadix(n, p);
    }
  }

  /** Fills facbuf with the radices of n0 and the stage lengths, and ends for every length an int can hold. */
  method KfFactor(n0: nat, facbuf: array<nat>) returns (ghost count: nat)
    requires 1 <= n0 <= INT_MAX && facbuf.Length == 2 * MAXFACTORS
    modifies facbuf
    ensures count <= MAXFACTORS && Complete(facbuf[..], n0, count)
    ensures Product(facbuf[..], count) == n0
  {
    hide Radix, Tried, Splits, Complete, Chosen, Words.Pow2, Product, Rank, RadixAt, LengthAt, StageAt;
    var p, n, i := 4, n0, 0;
    var floorSqrt := FloorSqrt(n0);
    assert Tried(n, p) && Splits(facbuf[..], n0, 0) && LengthAt(facbuf[..], n0, 0) == n && Words.Pow2(0) == 1
    by { Start(facbuf[..], n0); }
    while n > 1 || i == 0
      invariant 1 <= n <= n0 && p > 0 && facbuf.Length == 2 * MAXFACTORS && (n0 == 1 ==> i <= 1) && (i == 0 ==> n == n0)
      invariant 2 * i <= facbuf.Length && Splits(facbuf[..], n0, i) && LengthAt(facbuf[..], n0, i) == n
      invariant n > 1 || i == 0 ==> Tried(n, p) && forall j :: 0 <= j < i ==> StageAt(facbuf[..], j) > 1
      invariant n > 1 || i == 0 ==> p == 4 || p <= floorSqrt
      invariant i > 0 && n == 1 ==> Complete(facbuf[..], n0, i)
      invariant n0 > 1 ==> Words.Pow2(i) * n <= n0
      decreases n, if i == 0 then 1 else 0
    {
      ghost var s := facbuf[..];
      p := FindRadix(n, p, floorSqrt);
      if n0 > 1 {
        FewRadices(i, n, n0);
        FewerLeft(i, n, p, n0);
      }
      if n / p > 1 {
        TriedOnQuotient(n, p);
      }
      Cofactor(n, p);
      n := n / p;
      facbuf[2 * i] := p;
      facbuf[2 * i + 1] := n;
      SplitsOneMore(s, n0, i, p, n, facbuf[..]);
      i := i + 1;
      if n == 1 {
        LastStage(facbuf[..], n0, i);
      }
    }
    count := i;
    StageTimesRadices(facbuf[..], n0, i);
  }

  lemma CofactorSize(n: nat, p: nat, m: nat)
    requires n > 0 && p * m == n
    ensures 1 <= m <= n && (p == n ==> m == 1) && (p >= 2 ==> m < n)
  {
    assert p * m >= m;
    if p == n {
      assert n * (m - 1) == 0;
    }
    if p >= 2 {
      assert p * m >= 2 * m;
    }
  }

  lemma Cofactor(n: nat, p: nat)
    requires n > 0 && p > 0 && n % p == 0
    ensures p * (n / p) == n && 1 <= n / p <= n && (p == n ==> n / p == 1) && (p >= 2 ==> n / p < n)
  {
    var m := n / p;
    assert n == m * p;
    assert p * m == n;
    CofactorSize(n, p, m);
  }

  lemma LastStage(s: seq<nat>, n0: nat, count: nat)
    requires count > 0 && Splits(s, n0, count) && StageAt(s, count - 1) == 1
    requires forall j :: 0 <= j < count - 1 ==> StageAt(s, j) > 1
    ensures Complete(s, n0, count)
  {
  }

  lemma Start(s: seq<nat>, n0: nat)
    ensures Tried(n0, 4) && Splits(s, n0, 0) && LengthAt(s, n0, 0) == n0 && Words.Pow2(0) == 1
  {
  }

  // ----- the part of a length that the small radices take -----

  /** The product of the small radices taken out of n, one after the other. */
  function Smooth(n: nat): (r: nat)
    requires n > 0
    ensures 1 <= r <= n
  {
    var p := SmallRadix(n);
    if p == 0 then 1
    else
      Cofactor(n, p);
      ScaleMost(Smooth(n / p), n / p, p);
      p * Smooth(n / p)
  }

  /** The factors of a stage whose radix is small. */
  lemma SmoothStage(s: seq<nat>, n: nat, count: nat, i: nat)
    requires Splits(s, n, count) && i < count && n > 0 && LengthAt(s, n, i) > 0
    ensures LengthAt(s, n, i + 1) > 0
    ensures Smooth(LengthAt(s, n, i)) ==
            if RadixAt(s, i) in {2, 3, 4, 5} then RadixAt(s, i) * Smooth(LengthAt(s, n, i + 1)) else 1
  {
    hide Radix;
    var p, m, l := RadixAt(s, i), StageAt(s, i), LengthAt(s, n, i);
    assert Chosen(l, p) && p * m == l && LengthAt(s, n, i + 1) == m;
    QuotientIs(l, p, m);
  }

  /** The radices up to a stage take at least the smooth part out together with the stage's own, and exactly that
      while they are small. */
  lemma {:induction false} SmoothSoFar(s: seq<nat>, n: nat, count: nat, i: nat)
    requires Splits(s, n, count) && i <= count && n > 0
    ensures LengthAt(s, n, i) > 0
    ensures Smooth(n) <= Product(s, i) * Smooth(LengthAt(s, n, i))
    ensures (forall j :: 0 <= j < i ==> RadixAt(s, j) in {2, 3, 4, 5}) ==>
              Smooth(n) == Product(s, i) * Smooth(LengthAt(s, n, i))
  {
    hide Radix, Chosen, Smooth;
    if i > 0 {
      SmoothSoFar(s, n, count, i - 1);
      SmoothStage(s, n, count, i - 1);
      Regroup(Product(s, i - 1), RadixAt(s, i - 1), Smooth(LengthAt(s, n, i)), Smooth(LengthAt(s, n, i - 1)));
    }
  }

  lemma Regroup(a: nat, p: nat, y: nat, x: nat)
    requires p > 0 && y > 0 && (x == 1 || x == p * y)
    ensures a * x <= a * p * y && (x == p * y ==> a * x == a * p * y)
  {
    TimesAssoc(a, p, y);
    ScaleMost(1, p, y);
    ScaleMost(x, p * y, a);
  }
}
