/** The mixed-radix transform: recursion over the radices, and the user's entry points. */
module KissFft {
  import opened Arithmetic
  import opened Complex
  import opened Dft
  import opened Butterflies
  import opened GenericButterfly
  import opened KissFactor
  import Words

  /** Every stride-th value of f from the start-th on. */
  function Input(f: seq<Cpx>, start: nat, stride: nat): nat -> Cpx {
    (j: nat) => if start + j * stride < |f| then f[start + j * stride] else ZERO
  }

  lemma TransformEq(tw: seq<Cpx>, s: nat, len: nat, x: nat -> Cpx, y: nat -> Cpx, k: nat)
    requires |tw| > 0 && forall j: nat :: j < len ==> x(j) == y(j)
    ensures Transform(tw, s, len, x, k) == Transform(tw, s, len, y, k)
  {
    hide Mul, W;
    SumEq(len, Terms(tw, s, x, k), Terms(tw, s, y, k));
  }

  /** Decimating a strided input is another strided input. */
  lemma InputStrided(f: seq<Cpx>, start: nat, stride: nat, q: nat, p: nat, j: nat)
    ensures Strided(Input(f, start, stride), q, p)(j) == Input(f, start + q * stride, stride * p)(j)
  {
    assert (q + j * p) * stride == q * stride + j * (stride * p) by {
      assert (q + j * p) * stride == q * stride + j * p * stride;
      assert j * p * stride == j * (stride * p) by { assert p * stride == stride * p; }
    }
  }

  /** Block q of x holds the transform of the q-th decimated input. */
  ghost predicate BlockDone(tw: seq<Cpx>, s: nat, p: nat, m: nat, input: nat -> Cpx, x: seq<Cpx>, o: nat, q: nat)
    requires |tw| > 0
  {
    forall u: nat :: u < m ==> BlockCell(tw, s, p, m, input, x, o, q, u)
  }

  ghost predicate BlockCell(tw: seq<Cpx>, s: nat, p: nat, m: nat, input: nat -> Cpx, x: seq<Cpx>, o: nat, q: nat,
                            u: nat)
    requires |tw| > 0
  {
    o + u + q * m < |x| && x[o + u + q * m] == SubTransforms(tw, s, p, m, input, u)(q)
  }

  ghost predicate BlocksDone(tw: seq<Cpx>, s: nat, p: nat, m: nat, input: nat -> Cpx, x: seq<Cpx>, o: nat,
                             y: seq<Cpx>, count: nat)
    requires |tw| > 0
  {
    && |y| == |x|
    && (forall q: nat :: q < count ==> BlockDone(tw, s, p, m, input, y, o, q))
    && (forall i :: 0 <= i < |x| && !(o <= i < o + p * m) ==> y[i] == x[i])
  }

  /** The transform of length n fills the block at o, and nothing else changes. */
  ghost predicate Transformed(tw: seq<Cpx>, s: nat, n: nat, input: nat -> Cpx, x: seq<Cpx>, o: nat, y: seq<Cpx>)
    requires |tw| > 0
  {
    && |y| == |x|
    && (forall k: nat :: k < n && o + k < |y| ==> y[o + k] == Transform(tw, s, n, input, k))
    && (forall i :: 0 <= i < |x| && !(o <= i < o + n) ==> y[i] == x[i])
  }

  /** Sub-transforms in place, then one recombination: the whole transform. */
  lemma RecombinedIsTransformed(tw: seq<Cpx>, s: nat, p: nat, m: nat, input: nat -> Cpx, x: seq<Cpx>, o: nat,
                                y: seq<Cpx>, z: seq<Cpx>)
    requires |tw| > 0 && IsRootTable(tw) && s * p * m == |tw| && m > 0 && o + p * m <= |x|
    requires BlocksDone(tw, s, p, m, input, x, o, y, p)
    requires Recombined(tw, s, p, m, y, o, z)
    ensures Transformed(tw, s, p * m, input, x, o, z)
  {
    hide Mul, Add, W, IsRootTable, Sum, Transform, BlockDone, Recombine;
    forall k: nat | k < p * m && o + k < |z|
      ensures z[o + k] == Transform(tw, s, p * m, input, k)
    {
      assert z[o + k] == Recombine(tw, s, p, m, y, o, k);
      RecombineIsTransform(tw, s, p, m, input, x, o, y, k);
    }
  }

  lemma RecombineIsTransform(tw: seq<Cpx>, s: nat, p: nat, m: nat, input: nat -> Cpx, x: seq<Cpx>, o: nat,
                             y: seq<Cpx>, k: nat)
    requires |tw| > 0 && IsRootTable(tw) && s * p * m == |tw| && m > 0 && k < p * m
    requires BlocksDone(tw, s, p, m, input, x, o, y, p)
    ensures Recombine(tw, s, p, m, y, o, k) == Transform(tw, s, p * m, input, k)
  {
    hide Mul, Add, W, IsRootTable, Sum, SubTransforms, Transform;
    var q1 := InColumn(k, p, m);
    var u := ColumnOf(k, m);
    var col := Column(y, o, u, m);
    var subs := SubTransforms(tw, s, p, m, input, u);
    forall q: nat | q < p
      ensures Twisted(tw, s, col, k)(q) == Twisted(tw, s, subs, k)(q)
    {
      assert BlockDone(tw, s, p, m, input, y, o, q);
      assert BlockCell(tw, s, p, m, input, y, o, q, u);
    }
    SumEq(p, Twisted(tw, s, col, k), Twisted(tw, s, subs, k));
    Decimation(tw, s, p, m, input, u, q1);
  }

  /** The last input value a transform of length n reads is inside f. */
  ghost predicate Reads(f: seq<Cpx>, start: nat, stride: nat, n: nat) {
    n > 0 ==> start + (n - 1) * stride < |f|
  }

  lemma ReadsInput(f: seq<Cpx>, start: nat, stride: nat, n: nat, q: nat)
    requires Reads(f, start, stride, n) && q < n
    ensures start + q * stride < |f| && f[start + q * stride] == Input(f, start, stride)(q)
  {
    assert q * stride <= (n - 1) * stride;
  }

  lemma ReadsStrided(f: seq<Cpx>, start: nat, stride: nat, p: nat, m: nat, q: nat)
    requires Reads(f, start, stride, p * m) && q < p
    ensures Reads(f, start + q * stride, stride * p, m)
  {
    if m > 0 {
      var last := q + (m - 1) * p;
      assert last <= p * m - 1 by { assert (m - 1) * p == p * m - p; }
      assert last * stride <= (p * m - 1) * stride;
      InputIndex(start, stride, q, p, m - 1);
    }
  }

  lemma InputIndex(start: nat, stride: nat, q: nat, p: nat, j: nat)
    ensures start + (q + j * p) * stride == start + q * stride + j * (stride * p)
  {
    assert (q + j * p) * stride == q * stride + j * p * stride;
    assert j * p * stride == j * (stride * p) by { assert p * stride == stride * p; }
  }

  /** A sub-transform of one value is that value. */
  lemma SingleValue(tw: seq<Cpx>, s: nat, p: nat, f: seq<Cpx>, start: nat, stride: nat, q: nat)
    requires IsRootTable(tw)
    ensures SubTransforms(tw, s, p, 1, Input(f, start, stride), 0)(q) == Input(f, start, stride)(q)
  {
    hide Mul, Add;
    var x := Strided(Input(f, start, stride), q, p);
    var terms := Terms(tw, s * p, x, 0);
    assert s * p * 0 * 0 == 0;
    assert terms(0) == Mul(x(0), ONE);
    MulOne(x(0));
    AddZero(x(0));
    assert Sum(1, terms) == Add(Sum(0, terms), terms(0));
    assert q + 0 * p == q;
  }

  lemma BlocksBegin(tw: seq<Cpx>, s: nat, p: nat, m: nat, input: nat -> Cpx, x: seq<Cpx>, o: nat)
    requires |tw| > 0
    ensures BlocksDone(tw, s, p, m, input, x, o, x, 0)
  {
  }

  lemma BlockPlaces(o: nat, m: nat, q: nat, p: nat)
    requires q < p
    ensures o + q * m + m <= o + p * m
  {
    assert (q + 1) * m <= p * m;
    assert (q + 1) * m == q * m + m;
  }

  /** Writing block q alone adds it to the finished blocks. */
  lemma BlocksStep(tw: seq<Cpx>, s: nat, p: nat, m: nat, input: nat -> Cpx, x: seq<Cpx>, o: nat, y: seq<Cpx>,
                   q: nat, y': seq<Cpx>)
    requires |tw| > 0 && q < p && m > 0
    requires BlocksDone(tw, s, p, m, input, x, o, y, q) && |y'| == |y|
    requires BlockDone(tw, s, p, m, input, y', o, q)
    requires forall i :: 0 <= i < |y| && !(o + q * m <= i < o + q * m + m) ==> y'[i] == y[i]
    ensures BlocksDone(tw, s, p, m, input, x, o, y', q + 1)
  {
    hide SubTransforms;
    BlockPlaces(o, m, q, p);
    forall r: nat | r < q + 1
      ensures BlockDone(tw, s, p, m, input, y', o, r)
    {
      if r < q {
        assert BlockDone(tw, s, p, m, input, y, o, r);
        BlockPlaces(o, m, r, q);
        forall u: nat | u < m
          ensures BlockCell(tw, s, p, m, input, y', o, r, u)
        {
          assert BlockCell(tw, s, p, m, input, y, o, r, u);
        }
      }
    }
  }

  lemma CellsMakeBlock(tw: seq<Cpx>, s: nat, p: nat, m: nat, input: nat -> Cpx, y: seq<Cpx>, o: nat, q: nat)
    requires |tw| > 0 && forall u: nat :: u < m ==> BlockCell(tw, s, p, m, input, y, o, q, u)
    ensures BlockDone(tw, s, p, m, input, y, o, q)
  {
  }

  /** A stage of single values: copying the next input value finishes its block. */
  lemma CopyStep(tw: seq<Cpx>, s: nat, p: nat, f: seq<Cpx>, start: nat, stride: nat, x: seq<Cpx>, o: nat,
                 y: seq<Cpx>, q: nat, y': seq<Cpx>)
    requires |tw| > 0 && IsRootTable(tw) && q < p && o + p <= |x| && Reads(f, start, stride, p)
    requires BlocksDone(tw, s, p, 1, Input(f, start, stride), x, o, y, q)
    requires start + q * stride < |f| && o + q < |y| && y' == y[o + q := f[start + q * stride]]
    ensures BlocksDone(tw, s, p, 1, Input(f, start, stride), x, o, y', q + 1)
  {
    hide SubTransforms, IsRootTable, Input;
    ReadsInput(f, start, stride, p, q);
    SingleValue(tw, s, p, f, start, stride, q);
    forall u: nat | u < 1
      ensures BlockCell(tw, s, p, 1, Input(f, start, stride), y', o, q, u)
    {
    }
    BlocksStep(tw, s, p, 1, Input(f, start, stride), x, o, y, q, y');
  }

  /** A recursive stage: transforming the next decimated input finishes its block. */
  lemma RecurseStep(tw: seq<Cpx>, s: nat, p: nat, m: nat, f: seq<Cpx>, start: nat, stride: nat, x: seq<Cpx>, o: nat,
                    y: seq<Cpx>, q: nat, y': seq<Cpx>)
    requires |tw| > 0 && q < p && m > 0 && o + p * m <= |x|
    requires BlocksDone(tw, s, p, m, Input(f, start, stride), x, o, y, q)
    requires Transformed(tw, s * p, m, Input(f, start + q * stride, stride * p), y, o + q * m, y')
    ensures BlocksDone(tw, s, p, m, Input(f, start, stride), x, o, y', q + 1)
  {
    hide Transform, Input, IsRootTable, BlockDone;
    var input := Input(f, start, stride);
    var part := Input(f, start + q * stride, stride * p);
    BlockPlaces(o, m, q, p);
    forall u: nat | u < m
      ensures BlockCell(tw, s, p, m, input, y', o, q, u)
    {
      forall j: nat | j < m
        ensures part(j) == Strided(input, q, p)(j)
      {
        InputStrided(f, start, stride, q, p, j);
      }
      TransformEq(tw, s * p, m, part, Strided(input, q, p), u);
      assert y'[(o + q * m) + u] == Transform(tw, s * p, m, part, u);
      assert o + u + q * m == (o + q * m) + u;
    }
    assert BlockDone(tw, s, p, m, input, y', o, q) by { CellsMakeBlock(tw, s, p, m, input, y', o, q); }
    BlocksStep(tw, s, p, m, input, x, o, y, q, y');
  }

  lemma StageFacts(st: Config, count: nat, i: nat, fstride: nat) returns (p: nat, m: nat)
    requires st.Valid() && Complete(st.factors, st.nfft, count) && i < count
    requires fstride * LengthAt(st.factors, st.nfft, i) == st.nfft
    ensures 2 * i + 1 < |st.factors| && p == st.factors[2 * i] && m == st.factors[2 * i + 1]
    ensures p > 0 && m > 0 && p * m == LengthAt(st.factors, st.nfft, i)
    ensures fstride * p * m == st.nfft == |st.twiddles| > 0 && IsRootTable(st.twiddles)
    ensures m > 1 ==> i + 1 < count && LengthAt(st.factors, st.nfft, i + 1) == m
  {
    hide Radix, IsRootTable;
    p, m := RadixAt(st.factors, i), StageAt(st.factors, i);
    assert p * m == LengthAt(st.factors, st.nfft, i);
    assert fstride * p * m == fstride * (p * m) by { TimesAssoc(fstride, p, m); }
    assert st.nfft == |st.twiddles| > 0 && IsRootTable(st.twiddles) by { Facts(st); }
  }

  lemma Next0(a: nat, q: nat, d: nat)
    ensures a + (q + 1) * d == a + q * d + d
  {
  }

  lemma Commute(a: nat, b: nat, c: nat)
    ensures a * b * c == a * c * b
  {
  }

  // ----- lengths whose running indices are ints -----

  /** The generic step, if stage i uses it, keeps its running index in an int. */
  predicate StageFits(s: seq<nat>, n: nat, i: nat) {
    2 * i + 1 < |s| && 0 < LengthAt(s, n, i) &&
    (RadixAt(s, i) in {2, 3, 4, 5} || IndexFits(n, n / LengthAt(s, n, i), RadixAt(s, i)))
  }

  ghost predicate RestFits(s: seq<nat>, n: nat, i: nat, count: nat) {
    forall j :: i <= j < count ==> StageFits(s, n, j)
  }

  /** The stride of a stage is the product of the radices before it. */
  lemma StrideIs(s: seq<nat>, n: nat, count: nat, i: nat)
    requires Splits(s, n, count) && i <= count && LengthAt(s, n, i) > 0
    ensures n / LengthAt(s, n, i) == Product(s, i)
  {
    hide Radix, Chosen;
    StageTimesRadices(s, n, i);
    QuotientIs(n, LengthAt(s, n, i), Product(s, i));
  }

  /** The first stage with a radix that is not small, or the end. */
  lemma FirstGeneric(s: seq<nat>, count: nat) returns (i: nat)
    requires 2 * count <= |s|
    ensures i <= count && forall j :: 0 <= j < i ==> RadixAt(s, j) in {2, 3, 4, 5}
    ensures i < count ==> RadixAt(s, i) !in {2, 3, 4, 5}
  {
    i := 0;
    while i < count && RadixAt(s, i) in {2, 3, 4, 5}
      invariant i <= count && forall j :: 0 <= j < i ==> RadixAt(s, j) in {2, 3, 4, 5}
    {
      i := i + 1;
    }
  }

  lemma EveryStageFits(s: seq<nat>, n: nat, count: nat, i: nat)
    requires Splits(s, n, count) && n > 0 && i < count && 2 * (n - Smooth(n)) <= INT_MAX
    ensures StageFits(s, n, i)
  {
    hide Smooth, Product, Radix, Chosen, LengthAt;
    SmoothSoFar(s, n, count, i);
    SmoothStage(s, n, count, i);
    StrideIs(s, n, count, i);
  }

  /** The first generic stage has the smallest stride, the product of the small radices before it. */
  lemma FirstGenericFits(s: seq<nat>, n: nat, count: nat, i: nat)
    requires Splits(s, n, count) && n > 0 && i < count && StageFits(s, n, i)
    requires RadixAt(s, i) !in {2, 3, 4, 5} && forall j :: 0 <= j < i ==> RadixAt(s, j) in {2, 3, 4, 5}
    ensures 2 * (n - Smooth(n)) <= INT_MAX
  {
    hide Smooth, Product, Radix, LengthAt;
    SmoothSoFar(s, n, count, i);
    SmoothStage(s, n, count, i);
    StrideIs(s, n, count, i);
    GenericRadix(LengthAt(s, n, i), RadixAt(s, i), StageAt(s, i), n);
  }

  lemma AllSmall(s: seq<nat>, n: nat, count: nat)
    requires Complete(s, n, count) && n > 0 && forall j :: 0 <= j < count ==> RadixAt(s, j) in {2, 3, 4, 5}
    ensures Smooth(n) == n
  {
    hide Smooth, Product, Radix, Chosen;
    SmoothSoFar(s, n, count, count);
    StageTimesRadices(s, n, count);
    LastLength(s, n, count);
    assert Smooth(1) == 1 by { SmoothOne(); }
  }

  lemma SmoothOne()
    ensures Smooth(1) == 1
  {
  }

  /** All running indices of a transform are ints exactly when twice what the small radices leave of its length
      is one. */
  lemma FitsExactly(s: seq<nat>, n: nat, count: nat)
    requires Complete(s, n, count) && n > 0
    ensures (forall i :: 0 <= i < count ==> StageFits(s, n, i)) <==> 2 * (n - Smooth(n)) <= INT_MAX
  {
    hide Smooth, Radix, Chosen, LengthAt, StageFits;
    if 2 * (n - Smooth(n)) <= INT_MAX {
      forall i | 0 <= i < count
        ensures StageFits(s, n, i)
      {
        EveryStageFits(s, n, count, i);
      }
    } else if forall i :: 0 <= i < count ==> StageFits(s, n, i) {
      var i := FirstGeneric(s, count);
      if i < count {
        FirstGenericFits(s, n, count, i);
      } else {
        AllSmall(s, n, count);
      }
    }
  }

  /** No running index of stage i leaves an int; stage i has the radices before it as its stride. */
  ghost predicate StageRuns(s: seq<nat>, n: nat, i: nat)
    requires 2 * i + 1 < |s| && n > 0
  {
    RadixAt(s, i) in {2, 3, 4, 5} ||
    forall q: nat, k: nat :: q + 1 < RadixAt(s, i) && k < LengthAt(s, n, i) ==>
      RunningSum(n, Product(s, i), q, k) <= INT_MAX
  }

  lemma StageRunsExactly(s: seq<nat>, n: nat, count: nat, i: nat)
    requires Splits(s, n, count) && 0 < n <= INT_MAX && i < count
    ensures StageRuns(s, n, i) <==> StageFits(s, n, i)
  {
    hide Product, Radix, Chosen, LengthAt, RunningSum, IndexFits, Smooth;
    SmoothSoFar(s, n, count, i);
    StrideIs(s, n, count, i);
    StageTimesRadices(s, n, i);
    IndexFitsExactly(n, Product(s, i), LengthAt(s, n, i), RadixAt(s, i));
  }

  /** The exact condition on a length: no stage of its transform has a running index that leaves an int. */
  lemma RunningIndicesFit(s: seq<nat>, n: nat, count: nat)
    requires Complete(s, n, count) && 0 < n <= INT_MAX
    ensures (forall i :: 0 <= i < count ==> StageRuns(s, n, i)) <==> 2 * (n - Smooth(n)) <= INT_MAX
  {
    hide Product, Radix, Chosen, LengthAt, Smooth, StageRuns, StageFits;
    FitsExactly(s, n, count);
    forall i | 0 <= i < count
      ensures StageRuns(s, n, i) <==> StageFits(s, n, i)
    {
      StageRunsExactly(s, n, count, i);
    }
  }

  lemma LastLength(s: seq<nat>, n: nat, count: nat)
    requires Complete(s, n, count)
    ensures LengthAt(s, n, count) == 1
  {
  }

  /** A radix that is not small is above 2, or the length is 1. */
  lemma GenericRadix(l: nat, p: nat, m: nat, n: nat)
    requires p * m == l && p > 0 && p !in {2, 3, 4, 5}
    requires n > 1 ==> Radix(p)
    ensures p > 2 || n <= 1
  {
  }

  /** Lengths up to 2^30 always fit, and so do lengths without prime factors above 5. */
  lemma ShortLengthsFit(n: nat)
    requires 0 < n <= INT_MAX && (n <= 0x4000_0000 || Smooth(n) == n)
    ensures 2 * (n - Smooth(n)) <= INT_MAX
  {
    hide Smooth;
  }

  lemma {:induction false} FoursAndSeven(k: nat, n: nat, r: nat)
    requires r == Words.Pow2(2 * k) && n == 7 * r
    ensures Smooth(n) == r
  {
    hide Smooth;
    if k == 0 {
      SmoothSeven();
    } else {
      var r' := Words.Pow2(2 * (k - 1));
      assert r == 4 * r';
      FoursAndSeven(k - 1, 7 * r', r');
      FourTimes(7 * r');
    }
  }

  lemma SmoothSeven()
    ensures Smooth(7) == 1
  {
  }

  lemma FourTimes(m: nat)
    requires m > 0
    ensures Smooth(4 * m) == 4 * Smooth(m)
  {
    assert (4 * m) % 4 == 0 && (4 * m) / 4 == m;
  }

  /** A length an int holds that does not fit: after two terms of the last frequency of its last stage the running
      index is negative, and no subtraction follows. */
  lemma LongLengthOverflows()
    ensures var n, s := 0x7000_0000, 0x1000_0000;
            && n <= INT_MAX && Smooth(n) == s && 2 * (n - Smooth(n)) > INT_MAX
            && Wrap(RunningSum(n, s, 1, 6)) == -0x4000_0000
  {
    hide Smooth;
    assert Words.Pow2(8) == 256 && Words.Pow2(16) == 65536;
    assert Words.Pow2(24) == 16777216;
    assert Words.Pow2(28) == 0x1000_0000;
    FoursAndSeven(14, 0x7000_0000, 0x1000_0000);
  }

  /** Recombines with the step made for the radix. */
  method Recombination(fout: array<Cpx>, o: nat, fstride: nat, st: Config, m: nat, p: nat)
    requires st.Valid() && m > 0 && p > 0 && fstride * p * m == st.nfft && o + p * m <= fout.Length
    requires st.nfft <= INT_MAX && (p in {2, 3, 4, 5} || IndexFits(st.nfft, fstride, p))
    modifies fout
    ensures Recombined(st.twiddles, fstride, p, m, old(fout[..]), o, fout[..])
  {
    hide Recombined, IsRootTable;
    match p {
      case 2 => KfBfly2(fout, o, fstride, st, m);
      case 3 => KfBfly3(fout, o, fstride, st, m);
      case 4 => KfBfly4(fout, o, fstride, st, m);
      case 5 => KfBfly5(fout, o, fstride, st, m);
      case _ => KfBflyGeneric(fout, o, fstride, st, m, p);
    }
  }

  /** The stage of single values: p input values, fstride * inStride apart, are copied. */
  method CopyValues(fout: array<Cpx>, o: nat, f: array<Cpx>, fi: nat, fstride: nat, inStride: nat, p: nat,
                    ghost tw: seq<Cpx>)
    requires |tw| > 0 && IsRootTable(tw) && fout != f && o + p <= fout.Length
    requires Reads(f[..], fi, fstride * inStride, p)
    modifies fout
    ensures BlocksDone(tw, fstride, p, 1, Input(f[..], fi, fstride * inStride), old(fout[..]), o, fout[..], p)
  {
    hide *;
    ghost var x, fs, stride, q := fout[..], f[..], fstride * inStride, 0;
    var cell, fin, cellEnd := o, fi, o + p;
    BlocksBegin(tw, fstride, p, 1, Input(fs, fi, stride), x, o);
    while cell != cellEnd
      invariant q <= p && cell == o + q && fin == fi + q * stride && f[..] == fs
      invariant BlocksDone(tw, fstride, p, 1, Input(fs, fi, stride), x, o, fout[..], q)
      decreases p - q
    {
      ghost var y := fout[..];
      ReadsInput(fs, fi, stride, p, q);
      fout[cell] := f[fin];
      CopyStep(tw, fstride, p, fs, fi, stride, x, o, y, q, fout[..]);
      Next0(fi, q, stride);
      fin := fin + fstride * inStride;
      cell := cell + 1;
      q := q + 1;
    }
  }

  /** The stages of a transform from pair number factors on, of the input values fstride * inStride apart. */
  method KfWork(fout: array<Cpx>, o: nat, f: array<Cpx>, fi: nat, fstride: nat, inStride: nat, factors: nat,
                st: Config, ghost count: nat)
    requires st.Valid() && Complete(st.factors, st.nfft, count) && factors < count
    requires fstride * LengthAt(st.factors, st.nfft, factors) == st.nfft
    requires fout != f && o + LengthAt(st.factors, st.nfft, factors) <= fout.Length
    requires Reads(f[..], fi, fstride * inStride, LengthAt(st.factors, st.nfft, factors))
    requires st.nfft <= INT_MAX && RestFits(st.factors, st.nfft, factors, count)
    modifies fout
    ensures Transformed(st.twiddles, fstride, LengthAt(st.factors, st.nfft, factors),
                        Input(f[..], fi, fstride * inStride), old(fout[..]), o, fout[..])
    decreases count - factors
  {
    hide *;
    ghost var p0, m0 := StageFacts(st, count, factors, fstride);
    var p, m := st.factors[2 * factors], st.factors[2 * factors + 1];
    ghost var tw, x, fs, stride, q := st.twiddles, fout[..], f[..], fstride * inStride, 0;
    var cell, fin, cellEnd := o, fi, o + p * m;
    BlocksBegin(tw, fstride, p, m, Input(fs, fi, stride), x, o);
    if m == 1 {
      CopyValues(fout, o, f, fi, fstride, inStride, p, tw);
      q := p;
    } else {
      while cell != cellEnd
        invariant q <= p && cell == o + q * m && fin == fi + q * stride && f[..] == fs && fout.Length == |x|
        invariant BlocksDone(tw, fstride, p, m, Input(fs, fi, stride), x, o, fout[..], q)
        decreases p - q
      {
        ghost var y := fout[..];
        assert q < p;
        BlockPlaces(o, m, q, p);
        ReadsStrided(fs, fi, stride, p, m, q);
        Commute(fstride, p, inStride);
        RestNext(st.factors, st.nfft, factors, count);
        KfWork(fout, cell, f, fin, fstride * p, inStride, factors + 1, st, count);
        RecurseStep(tw, fstride, p, m, fs, fi, stride, x, o, y, q, fout[..]);
        Next0(fi, q, stride);
        Next0(o, q, m);
        fin := fin + fstride * inStride;
        cell := cell + m;
        q := q + 1;
      }
    }
    assert q == p by { SamePlace(q, p, m); }
    ghost var y := fout[..];
    StageIndexFits(st.factors, st.nfft, factors, count, fstride, p);
    Recombination(fout, o, fstride, st, m, p);
    RecombinedIsTransformed(tw, fstride, p, m, Input(fs, fi, stride), x, o, y, fout[..]);
  }

  lemma RestNext(s: seq<nat>, n: nat, i: nat, count: nat)
    requires RestFits(s, n, i, count)
    ensures RestFits(s, n, i + 1, count)
  {
  }

  lemma StageIndexFits(s: seq<nat>, n: nat, i: nat, count: nat, fstride: nat, p: nat)
    requires i < count && RestFits(s, n, i, count) && 2 * i < |s| && fstride * LengthAt(s, n, i) == n && p == s[2 * i]
    ensures p in {2, 3, 4, 5} || IndexFits(n, fstride, p)
  {
    assert StageFits(s, n, i);
    QuotientIs(n, LengthAt(s, n, i), fstride);
  }

  lemma SamePlace(q: nat, p: nat, m: nat)
    requires m > 0 && q * m == p * m
    ensures q == p
  {
    assert (q - p) * m == 0;
  }

  // ----- the user's entry points -----

  /** Sets a transform up; the table of roots stands for the cosines and sines. */
  method KissFftAlloc(nfft: nat, inverse: bool, twiddles: seq<Cpx>) returns (st: Config, ghost count: nat)
    requires 1 <= nfft <= INT_MAX
    requires Config(nfft, inverse, [], twiddles).Valid()
    ensures st.Valid() && st.nfft == nfft && st.inverse == inverse && st.twiddles == twiddles
    ensures Complete(st.factors, nfft, count) && Product(st.factors, count) == nfft
  {
    hide Complete, Product, IsRootTable;
    var facbuf := new nat[2 * MAXFACTORS];
    count := KfFactor(nfft, facbuf);
    st := Config(nfft, inverse, facbuf[..], twiddles);
  }

  /** The transform of every inStride-th value of fin, into fout; fout may be fin itself. */
  method KissFftStride(st: Config, fin: array<Cpx>, fout: array<Cpx>, inStride: nat, ghost count: nat)
    requires st.Valid() && Complete(st.factors, st.nfft, count)
    requires Reads(fin[..], 0, inStride, st.nfft) && st.nfft <= fout.Length
    requires 0 < st.nfft <= INT_MAX && 2 * (st.nfft - Smooth(st.nfft)) <= INT_MAX
    modifies fout
    ensures forall k :: 0 <= k < st.nfft ==>
              fout[k] == Transform(st.twiddles, 1, st.nfft, Input(old(fin[..]), 0, inStride), k)
    ensures forall i :: st.nfft <= i < fout.Length ==> fout[i] == old(fout[i])
  {
    hide Complete, IsRootTable, Transform, Input, Reads, Splits, Smooth, StageFits;
    assert RestFits(st.factors, st.nfft, 0, count) by { FitsExactly(st.factors, st.nfft, count); }
    assert st.nfft == |st.twiddles| > 0 && IsRootTable(st.twiddles) by { Facts(st); }
    assert 0 < count && LengthAt(st.factors, st.nfft, 0) == st.nfft by { FirstStage(st.factors, st.nfft, count); }
    ghost var input := Input(fin[..], 0, inStride);
    assert 1 * inStride == inStride;
    if fin == fout {
      var tmpbuf := new Cpx[st.nfft];
      KfWork(tmpbuf, 0, fin, 0, 1, inStride, 0, st, count);
      forall i | 0 <= i < st.nfft {
        fout[i] := tmpbuf[i];
      }
      ghost var y := tmpbuf[..];
      assert forall k: nat :: k < st.nfft ==> y[0 + k] == Transform(st.twiddles, 1, st.nfft, input, k);
    } else {
      KfWork(fout, 0, fin, 0, 1, inStride, 0, st, count);
      ghost var y := fout[..];
      assert forall k: nat :: k < st.nfft ==> y[0 + k] == Transform(st.twiddles, 1, st.nfft, input, k);
    }
  }

  lemma FirstStage(s: seq<nat>, n: nat, count: nat)
    requires Complete(s, n, count)
    ensures 0 < count && LengthAt(s, n, 0) == n
  {
  }
}
