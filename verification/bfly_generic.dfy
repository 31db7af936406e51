/** The recombination step for any radix. */
module GenericButterfly {
  import opened Arithmetic
  import opened Complex
  import opened Dft
  import opened Butterflies

  /** The first cells of column u, as read into the scratch buffer. */
  ghost predicate Gathered(x: seq<Cpx>, o: nat, u: nat, m: nat, scratch: seq<Cpx>, count: nat) {
    count <= |scratch| && forall q: nat :: q < count ==> scratch[q] == Column(x, o, u, m)(q)
  }

  /** The first cells of column u are recombined; every cell outside the column is as in now. */
  ghost predicate Partial(tw: seq<Cpx>, s: nat, p: nat, m: nat, x: seq<Cpx>, o: nat, u: nat, now: seq<Cpx>,
                          next: seq<Cpx>, count: nat)
    requires |tw| > 0 && m > 0
  {
    && |next| == |now| == |x|
    && (forall q: nat :: q < count ==> CellDone(tw, s, p, m, x, o, u, next, q))
    && (forall i :: 0 <= i < |x| && !(o <= i < o + p * m && ColumnOf(i - o, m) == u) ==> next[i] == now[i])
  }

  lemma CellIndex(p: nat, m: nat, u: nat, q: nat)
    requires u < m && q < p
    ensures u + q * m < p * m
  {
    assert (q + 1) * m <= p * m;
    assert (q + 1) * m == q * m + m;
  }

  lemma PartialStep(tw: seq<Cpx>, s: nat, p: nat, m: nat, x: seq<Cpx>, o: nat, u: nat, now: seq<Cpx>,
                    next: seq<Cpx>, count: nat, k: nat, next': seq<Cpx>)
    requires |tw| > 0 && u < m && count < p && o + p * m <= |x|
    requires Partial(tw, s, p, m, x, o, u, now, next, count)
    requires k == u + count * m && o + k < |next| && next' == next[o + k := Recombine(tw, s, p, m, x, o, k)]
    ensures Partial(tw, s, p, m, x, o, u, now, next', count + 1)
  {
    hide Recombine, ColumnOf;
    CellIndex(p, m, u, count);
    ColumnOfCell(u, count, m);
    forall q: nat | q < count + 1
      ensures CellDone(tw, s, p, m, x, o, u, next', q)
    {
      if q < count {
        assert CellDone(tw, s, p, m, x, o, u, next, q);
      }
    }
  }

  lemma PartialEnds(tw: seq<Cpx>, s: nat, p: nat, m: nat, x: seq<Cpx>, o: nat, u: nat, now: seq<Cpx>, next: seq<Cpx>)
    requires |tw| > 0 && u < m
    requires Progress(tw, s, p, m, x, o, u, now)
    requires Partial(tw, s, p, m, x, o, u, now, next, p)
    ensures Progress(tw, s, p, m, x, o, u + 1, next)
  {
    hide Recombine, ColumnOf, Progress, CellDone;
    ColumnStep(tw, s, p, m, x, o, u, now, next);
  }

  // ----- the running twiddle index, an int -----

  /** The index before the conditional subtraction, after q terms of frequency k. */
  function RunningSum(n: nat, s: nat, q: nat, k: nat): nat
    requires n > 0
  {
    (s * q * k) % n + s * k
  }

  /** With a radix above 2, the largest running index of a stage is an int. */
  predicate IndexFits(n: nat, s: nat, p: nat) {
    p > 2 ==> 2 * (n - s) <= INT_MAX
  }

  /** A running index is a multiple of the stride, at most twice the last one below n. */
  lemma RunningBound(n: nat, s: nat, f: nat, q: nat, k: nat)
    requires s * f == n && n > 0 && k < f
    ensures RunningSum(n, s, q, k) <= 2 * (n - s)
    ensures q == 0 ==> RunningSum(n, s, q, k) <= n - s
    ensures q == 1 && k == f - 1 ==> RunningSum(n, s, q, k) == 2 * (n - s)
  {
    hide RunningSum;
    PositiveFactor(s, f);
    var a := RemainderOf(n, s, f, q, k);
    LastMultiple(s, f, a);
    LastMultiple(s, f, k);
    SumIs(n, s, q, k, s * a);
  }

  lemma SumIs(n: nat, s: nat, q: nat, k: nat, r: nat)
    requires n > 0 && (s * q * k) % n == r
    ensures RunningSum(n, s, q, k) == r + s * k
  {
  }

  /** Multiples of the stride have multiples of the stride as remainders. */
  lemma RemainderOf(n: nat, s: nat, f: nat, q: nat, k: nat) returns (a: nat)
    requires s * f == n && n > 0 && s > 0 && k < f
    ensures a < f && (s * q * k) % n == s * a && (q == 0 ==> a == 0) && (q == 1 ==> a == k)
  {
    var c := q * k;
    Regrouped(s, q, k);
    a := c % f;
    ScaledRemainder(n, s, f, c, s * q * k);
    Smallest(q, k, c, f);
  }

  lemma Smallest(q: nat, k: nat, c: nat, f: nat)
    requires c == q * k && k < f
    ensures (q == 0 ==> c % f == 0) && (q == 1 ==> c % f == k)
  {
  }

  lemma ScaledRemainder(n: nat, s: nat, f: nat, a: nat, e: nat)
    requires s > 0 && f > 0 && n == s * f && n > 0 && e == s * a
    ensures e % n == s * (a % f)
  {
    var q, r := a / f, a % f;
    ScaleLess(s, r, f);
    assert e == s * r + q * n by {
      assert a == r + q * f;
      assert s * (r + q * f) == s * r + s * (q * f);
      assert s * (q * f) == q * (s * f);
    }
    ModUnique(n, q, s * r);
  }

  lemma LastMultiple(s: nat, f: nat, a: nat)
    requires a < f
    ensures s * a <= s * f - s && (a == f - 1 ==> s * a == s * f - s) && (a == 0 ==> s * a == 0)
  {
    ScaleMost(a, f - 1, s);
    assert s * (f - 1) == s * f - s;
  }

  /** A stage's running indices are all ints exactly when the bound holds. */
  lemma IndexFitsExactly(n: nat, s: nat, f: nat, p: nat)
    requires s * f == n && 0 < n <= INT_MAX && f > 0
    ensures IndexFits(n, s, p) <==>
            forall q: nat, k: nat :: q + 1 < p && k < f ==> RunningSum(n, s, q, k) <= INT_MAX
  {
    hide RunningSum;
    forall q: nat, k: nat | q + 1 < p && k < f
      ensures RunningSum(n, s, q, k) <= 2 * (n - s)
      ensures q == 0 ==> RunningSum(n, s, q, k) <= n - s
    {
      RunningBound(n, s, f, q, k);
    }
    if p > 2 {
      RunningBound(n, s, f, 1, f - 1);
    }
  }

  /** The running twiddle index: one conditional subtraction keeps it the exponent modulo n. */
  lemma IndexWraps(n: nat, a: nat, b: nat, next: nat)
    requires n > 0 && b < n
    requires next == (if a % n + b >= n then a % n + b - n else a % n + b)
    ensures next == (a + b) % n && next < n
  {
    var c, r := a / n, a % n;
    assert a + b == c * n + (r + b);
    assert c * n + n == (c + 1) * n;
    if r + b >= n {
      ModUnique(n, c + 1, next);
    } else {
      ModUnique(n, c, next);
    }
  }

  /** One step of the index, kept in an int, as long as the running sum fits. */
  lemma IndexStep(tw: seq<Cpx>, s: nat, q: nat, k: nat, twidx: nat, next: int)
    requires 0 < |tw| && s * k < |tw| && RunningSum(|tw|, s, q, k) <= INT_MAX
    requires twidx == (s * q * k) % |tw|
    requires var sum := Wrap(twidx + s * k); next == (if sum >= |tw| then sum - |tw| else sum)
    ensures 0 <= next < |tw| && next == (s * (q + 1) * k) % |tw| && tw[next] == W(tw, s * (q + 1) * k)
  {
    IndexWraps(|tw|, s * q * k, s * k, next);
    assert s * (q + 1) * k == s * q * k + s * k by {
      assert s * (q + 1) == s * q + s;
      assert (s * q + s) * k == s * q * k + s * k;
    }
  }

  lemma FrequencyBound(n: nat, s: nat, p: nat, m: nat, k: nat)
    requires s * p * m == n && n > 0 && k < p * m
    ensures s * k < n
  {
    assert s * p * m == s * (p * m);
    assert s > 0;
    ScaleLess(s, k, p * m);
  }

  /** The sum a frequency's cell has accumulated after its first terms. */
  ghost function Accumulated(tw: seq<Cpx>, s: nat, m: nat, x: seq<Cpx>, o: nat, u: nat, k: nat, count: nat): Cpx
    requires |tw| > 0
  {
    Sum(count, Twisted(tw, s, Column(x, o, u, m), k))
  }

  lemma AccumulateFirst(tw: seq<Cpx>, s: nat, m: nat, x: seq<Cpx>, o: nat, u: nat, k: nat)
    requires IsRootTable(tw)
    ensures Accumulated(tw, s, m, x, o, u, k, 1) == Column(x, o, u, m)(0)
  {
    hide Add, Mul, Column;
    assert s * 0 * k == 0;
    var f := Twisted(tw, s, Column(x, o, u, m), k);
    assert f(0) == Mul(Column(x, o, u, m)(0), ONE);
    MulOne(Column(x, o, u, m)(0));
    AddZero(f(0));
    assert Sum(1, f) == Add(Sum(0, f), f(0));
  }

  lemma AccumulateNext(tw: seq<Cpx>, s: nat, m: nat, x: seq<Cpx>, o: nat, u: nat, k: nat, q: nat)
    requires |tw| > 0
    ensures Accumulated(tw, s, m, x, o, u, k, q + 1) ==
            Add(Accumulated(tw, s, m, x, o, u, k, q), Mul(Column(x, o, u, m)(q), W(tw, s * q * k)))
  {
    hide Add, Mul, Column, W;
  }

  lemma AccumulateAll(tw: seq<Cpx>, s: nat, p: nat, m: nat, x: seq<Cpx>, o: nat, u: nat, q1: nat)
    requires |tw| > 0 && u < m
    ensures Accumulated(tw, s, m, x, o, u, u + q1 * m, p) == Recombine(tw, s, p, m, x, o, u + q1 * m)
  {
    ColumnOfCell(u, q1, m);
  }

  lemma GatherNext(tw: seq<Cpx>, s: nat, p: nat, m: nat, x: seq<Cpx>, o: nat, u: nat, now: seq<Cpx>, k: nat, q: nat)
    requires |tw| > 0 && u < m && q < p && o + p * m <= |x|
    requires Progress(tw, s, p, m, x, o, u, now) && k == u + q * m
    ensures |now| == |x| && k < p * m && now[o + k] == Column(x, o, u, m)(q)
  {
    hide Recombine, ColumnOf;
    CellIndex(p, m, u, q);
    Untouched(tw, s, p, m, x, o, u, now, q);
  }

  /** The innermost loop: the cell at frequency k accumulates its terms. */
  method RecombineCell(fout: array<Cpx>, o: nat, k: nat, fstride: nat, twiddles: seq<Cpx>, scratch: array<Cpx>,
                       ghost x: seq<Cpx>, ghost u: nat, ghost m: nat)
    requires IsRootTable(twiddles) && fstride * k < |twiddles| <= INT_MAX && o + k < fout.Length
    requires forall q: nat :: q + 1 < scratch.Length ==> RunningSum(|twiddles|, fstride, q, k) <= INT_MAX
    requires scratch != fout && scratch.Length > 0 && Gathered(x, o, u, m, scratch[..], scratch.Length)
    modifies fout
    ensures fout[..] == old(fout[..])[o + k := Accumulated(twiddles, fstride, m, x, o, u, k, scratch.Length)]
  {
    hide Mul, Add, W, Column, Gathered, Accumulated, IsRootTable;
    var p, norig := scratch.Length, |twiddles|;
    var twidx: int := 0;
    GatheredIs(x, o, u, m, scratch[..], p, 0);
    AccumulateFirst(twiddles, fstride, m, x, o, u, k);
    ZeroIndex(fstride, k, norig);
    fout[o + k] := scratch[0];
    var q := 1;
    while q < p
      invariant 1 <= q <= p
      invariant twidx == (fstride * (q - 1) * k) % norig
      invariant fout[..] == old(fout[..])[o + k := Accumulated(twiddles, fstride, m, x, o, u, k, q)]
    {
      ghost var before := twidx;
      assert RunningSum(norig, fstride, q - 1, k) <= INT_MAX;
      twidx := Wrap(twidx + fstride * k);
      if twidx >= norig { twidx := twidx - norig; }
      IndexStep(twiddles, fstride, q - 1, k, before, twidx);
      GatheredIs(x, o, u, m, scratch[..], p, q);
      AccumulateNext(twiddles, fstride, m, x, o, u, k, q);
      var t := Mul(scratch[q], twiddles[twidx]);
      fout[o + k] := Add(fout[o + k], t);
      q := q + 1;
    }
  }

  /** The first inner loop: column u is copied into the scratch buffer. */
  method GatherColumn(fout: array<Cpx>, o: nat, ghost twiddles: seq<Cpx>, ghost s: nat, p: nat, m: nat,
                      ghost x: seq<Cpx>, u: nat, scratch: array<Cpx>)
    requires |twiddles| > 0 && u < m && o + p * m <= fout.Length
    requires scratch != fout && scratch.Length == p && Progress(twiddles, s, p, m, x, o, u, fout[..])
    modifies scratch
    ensures Gathered(x, o, u, m, scratch[..], p)
  {
    hide Column, Gathered, Progress, Cell;
    ghost var now := fout[..];
    var k := u;
    var q1 := 0;
    ProgressLength(twiddles, s, p, m, x, o, u, now);
    GatherBegin(x, o, u, m, scratch[..]);
    while q1 < p
      invariant q1 <= p && k == u + q1 * m && fout[..] == now
      invariant Gathered(x, o, u, m, scratch[..], q1)
    {
      GatherNext(twiddles, s, p, m, x, o, u, now, k, q1);
      ghost var s0 := scratch[..];
      scratch[q1] := fout[o + k];
      GatherStep(x, o, u, m, s0, q1, scratch[..]);
      k := k + m;
      q1 := q1 + 1;
    }
  }

  /** Any radix. */
  method KfBflyGeneric(fout: array<Cpx>, o: nat, fstride: nat, st: Config, m: nat, p: nat)
    requires st.Valid() && m > 0 && p > 0 && fstride * p * m == st.nfft && o + p * m <= fout.Length
    requires st.nfft <= INT_MAX && IndexFits(st.nfft, fstride, p)
    modifies fout
    ensures Recombined(st.twiddles, fstride, p, m, old(fout[..]), o, fout[..])
  {
    hide *;
    assert st.nfft == |st.twiddles| > 0 && IsRootTable(st.twiddles) by { Facts(st); }
    ghost var x := fout[..];
    var twiddles, norig := st.twiddles, st.nfft;
    var scratch := new Cpx[p];
    ColumnsBegin(twiddles, fstride, p, m, x, o);
    var u := 0;
    while u < m
      invariant u <= m && scratch.Length == p
      invariant Progress(twiddles, fstride, p, m, x, o, u, fout[..])
    {
      ghost var now := fout[..];
      GatherColumn(fout, o, twiddles, fstride, p, m, x, u, scratch);
      ghost var col := scratch[..];
      var k := u;
      var q1 := 0;
      PartialBegin(twiddles, fstride, p, m, x, o, u, now);
      while q1 < p
        invariant q1 <= p && k == u + q1 * m && scratch[..] == col
        invariant Partial(twiddles, fstride, p, m, x, o, u, now, fout[..], q1)
      {
        ghost var next := fout[..];
        CellIndex(p, m, u, q1);
        FrequencyBound(norig, fstride, p, m, k);
        IndicesFit(norig, fstride, p, m, k);
        RecombineCell(fout, o, k, fstride, twiddles, scratch, x, u, m);
        AccumulateAll(twiddles, fstride, p, m, x, o, u, q1);
        PartialStep(twiddles, fstride, p, m, x, o, u, now, next, q1, k, fout[..]);
        k := k + m;
        q1 := q1 + 1;
      }
      PartialEnds(twiddles, fstride, p, m, x, o, u, now, fout[..]);
      u := u + 1;
    }
    ColumnsEnd(twiddles, fstride, p, m, x, o, fout[..]);
  }

  lemma IndicesFit(n: nat, s: nat, p: nat, m: nat, k: nat)
    requires s * p * m == n && 0 < n <= INT_MAX && k < p * m && IndexFits(n, s, p)
    ensures forall q: nat :: q + 1 < p ==> RunningSum(n, s, q, k) <= INT_MAX
  {
    hide RunningSum, IndexFits;
    assert s * p * m == s * (p * m);
    IndexFitsExactly(n, s, p * m, p);
  }

  lemma Facts(st: Config)
    requires st.Valid()
    ensures st.nfft == |st.twiddles| > 0 && IsRootTable(st.twiddles)
  {
  }

  lemma ZeroIndex(s: nat, k: nat, n: nat)
    requires n > 0
    ensures (s * 0 * k) % n == 0
  {
    assert s * 0 * k == 0;
  }

  lemma GatherBegin(x: seq<Cpx>, o: nat, u: nat, m: nat, scratch: seq<Cpx>)
    ensures Gathered(x, o, u, m, scratch, 0)
  {
  }

  lemma GatherStep(x: seq<Cpx>, o: nat, u: nat, m: nat, scratch: seq<Cpx>, count: nat, scratch': seq<Cpx>)
    requires Gathered(x, o, u, m, scratch, count) && count < |scratch|
    requires scratch' == scratch[count := Column(x, o, u, m)(count)]
    ensures Gathered(x, o, u, m, scratch', count + 1)
  {
  }

  lemma GatheredIs(x: seq<Cpx>, o: nat, u: nat, m: nat, scratch: seq<Cpx>, count: nat, q: nat)
    requires Gathered(x, o, u, m, scratch, count) && q < count
    ensures q < |scratch| && scratch[q] == Column(x, o, u, m)(q)
  {
  }

  lemma PartialBegin(tw: seq<Cpx>, s: nat, p: nat, m: nat, x: seq<Cpx>, o: nat, u: nat, now: seq<Cpx>)
    requires |tw| > 0 && m > 0 && Progress(tw, s, p, m, x, o, u, now)
    ensures Partial(tw, s, p, m, x, o, u, now, now, 0)
  {
  }
}
