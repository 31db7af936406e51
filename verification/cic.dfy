/** The receiver's mixer and decimator: integrators that overflow freely, and outputs that are exact all the same. */
module Cic {
  import opened Arithmetic

  lemma WrapSmall(n: int)
    requires -HALF32 <= n < HALF32
    ensures Wrap(n) == n
  {
  }

  /** Wrapping late is wrapping early. */
  lemma WrapAdds(a: int, b: int)
    ensures Wrap(Wrap(a) + b) == Wrap(a + b)
    ensures Wrap(Wrap(a) - Wrap(b)) == Wrap(a - b)
    ensures Wrap(Wrap(a) + Wrap(b)) == Wrap(a + b)
  {
    var p, q := (a + HALF32) / WORD32, (b + HALF32) / WORD32;
    assert Wrap(a) == a - p * WORD32 && Wrap(b) == b - q * WORD32;
    WrapShifts(a + b, p);
    WrapShifts(a - b, p - q);
    WrapShifts(a + b, p + q);
  }

  lemma WrapShifts(n: int, p: int)
    ensures Wrap(n - p * WORD32) == Wrap(n)
  {
    var q := (n + HALF32) / WORD32;
    var r := (n + HALF32) % WORD32;
    assert n - p * WORD32 + HALF32 == (q - p) * WORD32 + r;
  }

  // ----- sums of a stream -----

  /** The stream's sample at i; before its start there are zeros. */
  function At(xs: seq<int>, i: int): int {
    if 0 <= i < |xs| then xs[i] else 0
  }

  /** The sum of the samples before n. */
  function P1(xs: seq<int>, n: int): int
    decreases if n > 0 then n else 0
  {
    if n <= 0 then 0 else P1(xs, n - 1) + At(xs, n - 1)
  }

  /** The sum of the sums. */
  function P2(xs: seq<int>, n: int): int
    decreases if n > 0 then n else 0
  {
    if n <= 0 then 0 else P2(xs, n - 1) + P1(xs, n)
  }

  /** The moving sum of width d that ends at sample m. */
  function Moving(xs: seq<int>, m: int, d: nat): int {
    if d == 0 then 0 else Moving(xs, m, d - 1) + At(xs, m - (d - 1))
  }

  /** The moving sum of moving sums: the sum over a < count, b < d of the sample at m - a - b. */
  function DoubleSum(xs: seq<int>, m: int, d: nat, count: nat): int {
    if count == 0 then 0 else DoubleSum(xs, m, d, count - 1) + Moving(xs, m - (count - 1), d)
  }

  lemma {:induction false} MovingIsDifference(xs: seq<int>, m: int, d: nat)
    ensures Moving(xs, m, d) == P1(xs, m + 1) - P1(xs, m + 1 - d)
  {
    if d > 0 {
      MovingIsDifference(xs, m, d - 1);
    }
  }

  lemma {:induction false} DoubleIsDifference(xs: seq<int>, m: int, d: nat, count: nat)
    ensures DoubleSum(xs, m, d, count) ==
            P2(xs, m + 1) - P2(xs, m + 1 - count) - P2(xs, m + 1 - d) + P2(xs, m + 1 - d - count)
  {
    if count > 0 {
      DoubleIsDifference(xs, m, d, count - 1);
      MovingIsDifference(xs, m - (count - 1), d);
    }
  }

  /** Samples of eight bits. */
  predicate EightBit(xs: seq<int>) {
    forall i :: 0 <= i < |xs| ==> -128 <= xs[i] < 128
  }

  lemma {:induction false} MovingBound(xs: seq<int>, m: int, d: nat)
    requires EightBit(xs)
    ensures -128 * d <= Moving(xs, m, d) <= 128 * d
  {
    if d > 0 {
      MovingBound(xs, m, d - 1);
    }
  }

  lemma {:induction false} DoubleBound(xs: seq<int>, m: int, d: nat, count: nat)
    requires EightBit(xs)
    ensures -128 * d * count <= DoubleSum(xs, m, d, count) <= 128 * d * count
  {
    if count > 0 {
      DoubleBound(xs, m, d, count - 1);
      MovingBound(xs, m - (count - 1), d);
      assert 128 * d * count == 128 * d * (count - 1) + 128 * d;
    }
  }

  /** Later samples do not change earlier sums. */
  lemma {:induction false} P1Extends(xs: seq<int>, ys: seq<int>, n: int)
    requires n <= |xs|
    ensures P1(xs + ys, n) == P1(xs, n)
    decreases if n > 0 then n else 0
  {
    if n > 0 {
      P1Extends(xs, ys, n - 1);
    }
  }

  lemma {:induction false} P2Extends(xs: seq<int>, ys: seq<int>, n: int)
    requires n <= |xs|
    ensures P2(xs + ys, n) == P2(xs, n)
    decreases if n > 0 then n else 0
  {
    if n > 0 {
      P1Extends(xs, ys, n);
      P2Extends(xs, ys, n - 1);
    }
  }

  // ----- one rail of the decimator -----

  /** The integrators, the combs and their delays. */
  datatype Rail = Rail(x1: int, x2: int, y1: int, t1y: int, t1z: int, y2: int, t2y: int, t2z: int)

  const ZERO_RAIL := Rail(0, 0, 0, 0, 0, 0, 0, 0)

  function Integrate(r: Rail, x: int): Rail {
    var x1 := Wrap(r.x1 + x);
    r.(x1 := x1, x2 := Wrap(r.x2 + x1))
  }

  function Comb(r: Rail): Rail {
    var y1 := Wrap(r.x2 - r.t1z);
    r.(y1 := y1, t1z := r.t1y, t1y := r.x2, y2 := Wrap(y1 - r.t2z), t2z := r.t2y, t2y := y1)
  }

  /** The first comb's exact output number k, after k * t samples. */
  function Y1(xs: seq<int>, t: nat, k: int): int {
    P2(xs, k * t) - P2(xs, (k - 2) * t)
  }

  /** The rail's state after the samples xs and k outputs. */
  ghost predicate RailHolds(r: Rail, xs: seq<int>, t: nat, k: nat) {
    && r.x1 == Wrap(P1(xs, |xs|)) && r.x2 == Wrap(P2(xs, |xs|))
    && r.t1y == Wrap(P2(xs, k * t)) && r.t1z == Wrap(P2(xs, (k - 1) * t))
    && r.t2y == Wrap(Y1(xs, t, k)) && r.t2z == Wrap(Y1(xs, t, k - 1))
  }

  lemma IntegrateHolds(r: Rail, xs: seq<int>, t: nat, k: nat, x: int)
    requires RailHolds(r, xs, t, k) && k * t <= |xs|
    ensures RailHolds(Integrate(r, x), xs + [x], t, k)
  {
    hide Wrap;
    var n, ys := |xs|, xs + [x];
    P1Extends(xs, [x], n);
    P2Extends(xs, [x], n);
    WrapAdds(P1(xs, n), x);
    assert P1(ys, n + 1) == P1(ys, n) + x;
    assert P2(ys, n + 1) == P2(ys, n) + P1(ys, n + 1);
    WrapAdds(P2(xs, n), P1(ys, n + 1));
    EarlierOutputs(t, k);
    P2Extends(xs, [x], k * t);
    P2Extends(xs, [x], (k - 1) * t);
    P2Extends(xs, [x], (k - 2) * t);
    P2Extends(xs, [x], (k - 3) * t);
  }

  lemma EarlierOutputs(t: nat, k: nat)
    ensures (k - 3) * t <= (k - 2) * t <= (k - 1) * t <= k * t
    ensures (k - 1) * t == k * t - t && (k - 2) * t == k * t - 2 * t && (k - 3) * t == k * t - 3 * t
    ensures (k + 1) * t == k * t + t
  {
  }

  /** The decimator's exact output number k: the double moving sum over twice t samples. */
  function Output(xs: seq<int>, t: nat, k: nat): int {
    DoubleSum(xs, k * t - 1, 2 * t, 2 * t)
  }

  /** Taking an output keeps the rail, and the output is exact. */
  lemma CombHolds(r: Rail, xs: seq<int>, t: nat, k: nat)
    requires RailHolds(r, xs, t, k) && |xs| == (k + 1) * t && EightBit(xs) && 128 * (2 * t) * (2 * t) < HALF32
    ensures RailHolds(Comb(r), xs, t, k + 1)
    ensures Comb(r).y2 == Output(xs, t, k + 1)
  {
    hide Wrap, P1, P2, DoubleSum;
    var n := (k + 1) * t;
    EarlierOutputs(t, k);
    WrapAdds(P2(xs, n), P2(xs, (k - 1) * t));
    assert (k + 1 - 2) * t == (k - 1) * t;
    assert Comb(r).y1 == Wrap(Y1(xs, t, k + 1));
    WrapAdds(Y1(xs, t, k + 1), Y1(xs, t, k - 1));
    DoubleIsDifference(xs, n - 1, 2 * t, 2 * t);
    assert (k - 1 - 2) * t == (k - 3) * t;
    DoubleBound(xs, n - 1, 2 * t, 2 * t);
    WrapSmall(Output(xs, t, k + 1));
  }

  // ----- the mixer -----

  /** A sample byte with its top bit flipped, as a signed byte. */
  function Flip(b: int): int
    requires -128 <= b < 128
  {
    if b < 0 then b + 128 else b - 128
  }

  /** Negation as a signed byte holds it: -128 stays. */
  function Neg8(v: int): int {
    if v == -128 then -128 else -v
  }

  /** The exact product of the pair (re, im) with the k-th power of j. */
  function Turned(re: int, im: int, k: nat): (int, int) {
    match k % 4
    case 0 => (re, im)
    case 1 => (-im, re)
    case 2 => (-re, -im)
    case _ => (im, -re)
  }

  /** What the mixer makes of the k-th pair, negations as signed bytes. */
  function MixedPair(re: int, im: int, k: nat): (int, int) {
    match k % 4
    case 0 => (re, im)
    case 1 => (Neg8(im), re)
    case 2 => (Neg8(re), Neg8(im))
    case _ => (im, Neg8(re))
  }

  /** The mixer multiplies by the power of j exactly, unless a component it negates is -128. */
  lemma MixIsExact(re: int, im: int, k: nat)
    requires -128 <= re < 128 && -128 <= im < 128
    ensures MixedPair(re, im, k) == Turned(re, im, k) <==>
            (k % 4 == 1 || k % 4 == 2 ==> im != -128) && (k % 4 == 2 || k % 4 == 3 ==> re != -128)
  {
  }

  predicate Signed8(s: seq<int>) {
    forall i :: 0 <= i < |s| ==> -128 <= s[i] < 128
  }

  /** The in-phase samples of a mixed buffer. */
  function MixedI(s: seq<int>): (r: seq<int>)
    requires |s| % 8 == 0 && Signed8(s)
    ensures |r| == |s| / 2 && EightBit(r)
  {
    seq(|s| / 2, k requires 0 <= k < |s| / 2 => MixedPair(Flip(s[2 * k]), Flip(s[2 * k + 1]), k).0)
  }

  function MixedQ(s: seq<int>): (r: seq<int>)
    requires |s| % 8 == 0 && Signed8(s)
    ensures |r| == |s| / 2 && EightBit(r)
  {
    seq(|s| / 2, k requires 0 <= k < |s| / 2 => MixedPair(Flip(s[2 * k]), Flip(s[2 * k + 1]), k).1)
  }

  /** Mixing two buffers one after the other is mixing them as one: the phase carries over. */
  lemma MixSplits(s: seq<int>, t: seq<int>)
    requires |s| % 8 == 0 && |t| % 8 == 0 && Signed8(s) && Signed8(t)
    ensures MixedI(s + t) == MixedI(s) + MixedI(t) && MixedQ(s + t) == MixedQ(s) + MixedQ(t)
  {
    hide Flip, MixedPair;
    var c := |s| / 8;
    forall k | 0 <= k < |s + t| / 2
      ensures MixedI(s + t)[k] == (MixedI(s) + MixedI(t))[k]
      ensures MixedQ(s + t)[k] == (MixedQ(s) + MixedQ(t))[k]
    {
      if k >= 4 * c {
        var j := k - 4 * c;
        PhaseCarries(Flip(t[2 * j]), Flip(t[2 * j + 1]), j, c);
        assert (s + t)[2 * k] == t[2 * j] && (s + t)[2 * k + 1] == t[2 * j + 1];
      } else {
        assert (s + t)[2 * k] == s[2 * k] && (s + t)[2 * k + 1] == s[2 * k + 1];
      }
    }
  }

  lemma PhaseCarries(re: int, im: int, j: nat, c: nat)
    ensures MixedPair(re, im, j + 4 * c) == MixedPair(re, im, j)
  {
    assert (j + 4 * c) % 4 == j % 4;
  }

  // ----- the callback -----

  class Receiver {
    const downsampling: nat
    var i: Rail
    var q: Rail
    var decimationIndex: nat
    var outputs: seq<(int, int)>
    ghost var streamI: seq<int>
    ghost var streamQ: seq<int>

    /** One more than the ratio: the counter is tested with <= before it starts over. */
    function Period(): nat {
      downsampling + 1
    }

    ghost predicate Valid()
      reads this
    {
      var k := |outputs|;
      && 128 * (2 * Period()) * (2 * Period()) < HALF32
      && |streamI| == |streamQ| == k * Period() + decimationIndex && decimationIndex <= downsampling
      && EightBit(streamI) && EightBit(streamQ)
      && RailHolds(i, streamI, Period(), k) && RailHolds(q, streamQ, Period(), k)
      && Exact(outputs, streamI, streamQ, Period())
    }

    constructor (downsampling: nat)
      requires 128 * (2 * (downsampling + 1)) * (2 * (downsampling + 1)) < HALF32
      ensures Valid() && this.downsampling == downsampling && streamI == streamQ == [] && outputs == []
    {
      this.downsampling := downsampling;
      i, q, decimationIndex, outputs := ZERO_RAIL, ZERO_RAIL, 0, [];
      streamI, streamQ := [], [];
      StartHolds(downsampling + 1);
    }

    /** One pair of mixed samples through the integrators and, once a period, the combs. */
    method Sample(xi: int, xq: int)
      requires Valid() && -128 <= xi < 128 && -128 <= xq < 128
      modifies this
      ensures Valid() && streamI == old(streamI) + [xi] && streamQ == old(streamQ) + [xq]
    {
      hide RailHolds, Exact, Wrap, Integrate, Comb;
      ghost var t, k := Period(), |outputs|;
      assert k * t <= |streamI|;
      IntegrateHolds(i, streamI, t, k, xi);
      IntegrateHolds(q, streamQ, t, k, xq);
      ExactExtends(outputs, streamI, streamQ, t, xi, xq);
      i := Integrate(i, xi);
      q := Integrate(q, xq);
      streamI, streamQ := streamI + [xi], streamQ + [xq];
      decimationIndex := decimationIndex + 1;
      if decimationIndex > downsampling {
        decimationIndex := 0;
        NextPeriod(k, t);
        CombHolds(i, streamI, t, k);
        CombHolds(q, streamQ, t, k);
        i := Comb(i);
        q := Comb(q);
        ExactGrows(outputs, streamI, streamQ, t, (i.y2, q.y2));
        outputs := outputs + [(i.y2, q.y2)];
      }
    }

    /** A buffer of samples: mixed in place, then decimated. */
    method Callback(sigIn: array<int>)
      requires Valid() && sigIn.Length % 8 == 0 && Signed8(sigIn[..])
      modifies this, sigIn
      ensures Valid()
      ensures streamI == old(streamI) + MixedI(old(sigIn[..])) && streamQ == old(streamQ) + MixedQ(old(sigIn[..]))
      ensures Exact(outputs, streamI, streamQ, downsampling + 1)
      ensures |outputs| * (downsampling + 1) <= |streamI| < |outputs| * (downsampling + 1) + downsampling + 1
    {
      hide MixedI, MixedQ, MixedUpTo, Signed8, RailHolds, Exact, EightBit;
      ghost var raw := sigIn[..];
      Mix(sigIn);
      ghost var before, beforeQ, mixed := streamI, streamQ, sigIn[..];
      var n := 0;
      while n < sigIn.Length / 2
        invariant 0 <= n <= sigIn.Length / 2 && Valid() && sigIn[..] == mixed
        invariant streamI == before + MixedI(raw)[..n] && streamQ == beforeQ + MixedQ(raw)[..n]
      {
        MixedPairAt(raw, mixed, n);
        Sample(sigIn[n * 2], sigIn[n * 2 + 1]);
        assert MixedI(raw)[..n + 1] == MixedI(raw)[..n] + [MixedI(raw)[n]];
        assert MixedQ(raw)[..n + 1] == MixedQ(raw)[..n] + [MixedQ(raw)[n]];
        n := n + 1;
      }
      assert MixedI(raw)[..n] == MixedI(raw) && MixedQ(raw)[..n] == MixedQ(raw);
    }
  }

  /** Output number k + 1 is the double moving sum, on both rails. */
  ghost predicate Exact(outputs: seq<(int, int)>, xs: seq<int>, ys: seq<int>, t: nat) {
    forall k :: 0 <= k < |outputs| ==> outputs[k] == (Output(xs, t, k + 1), Output(ys, t, k + 1))
  }

  lemma StartHolds(t: nat)
    ensures RailHolds(ZERO_RAIL, [], t, 0) && Exact([], [], [], t)
  {
    EarlierOutputs(t, 0);
    assert P1([], 0) == 0 && P2([], 0) == 0;
    assert P2([], 0 - t) == 0 && P2([], 0 - 2 * t) == 0 && P2([], 0 - 3 * t) == 0;
    assert Wrap(0) == 0;
  }

  lemma NextPeriod(k: nat, t: nat)
    ensures (k + 1) * t == k * t + t
  {
  }

  lemma {:induction false} MovingExtends(xs: seq<int>, x: int, m: int, d: nat)
    requires m < |xs|
    ensures Moving(xs + [x], m, d) == Moving(xs, m, d)
  {
    if d > 0 {
      MovingExtends(xs, x, m, d - 1);
    }
  }

  lemma {:induction false} DoubleExtends(xs: seq<int>, x: int, m: int, d: nat, count: nat)
    requires m < |xs|
    ensures DoubleSum(xs + [x], m, d, count) == DoubleSum(xs, m, d, count)
  {
    if count > 0 {
      DoubleExtends(xs, x, m, d, count - 1);
      MovingExtends(xs, x, m - (count - 1), d);
    }
  }

  lemma ExactExtends(outputs: seq<(int, int)>, xs: seq<int>, ys: seq<int>, t: nat, x: int, y: int)
    requires t > 0 && Exact(outputs, xs, ys, t) && |outputs| * t <= |xs| == |ys|
    ensures Exact(outputs, xs + [x], ys + [y], t)
  {
    hide DoubleSum;
    forall k | 0 <= k < |outputs|
      ensures outputs[k] == (Output(xs + [x], t, k + 1), Output(ys + [y], t, k + 1))
    {
      assert (k + 1) * t <= |outputs| * t;
      DoubleExtends(xs, x, (k + 1) * t - 1, 2 * t, 2 * t);
      DoubleExtends(ys, y, (k + 1) * t - 1, 2 * t, 2 * t);
    }
  }

  lemma ExactGrows(outputs: seq<(int, int)>, xs: seq<int>, ys: seq<int>, t: nat, out: (int, int))
    requires Exact(outputs, xs, ys, t)
    requires out == (Output(xs, t, |outputs| + 1), Output(ys, t, |outputs| + 1))
    ensures Exact(outputs + [out], xs, ys, t)
  {
  }

  /** The first c groups of four pairs are mixed, the rest is as it was. */
  ghost predicate MixedUpTo(raw: seq<int>, s: seq<int>, c: nat)
    requires |raw| % 8 == 0 && Signed8(raw) && 8 * c <= |raw|
  {
    && |s| == |raw|
    && (forall k :: 8 * c <= k < |raw| ==> s[k] == raw[k])
    && (forall k {:trigger MixedI(raw)[k]} {:trigger MixedQ(raw)[k]} :: 0 <= k < 4 * c ==>
          s[2 * k] == MixedI(raw)[k] && s[2 * k + 1] == MixedQ(raw)[k])
  }

  lemma MixedPairAt(raw: seq<int>, s: seq<int>, k: nat)
    requires |raw| % 8 == 0 && Signed8(raw) && k < |raw| / 2 && MixedUpTo(raw, s, |raw| / 8)
    ensures |s| == |raw| && s[2 * k] == MixedI(raw)[k] && s[2 * k + 1] == MixedQ(raw)[k]
    ensures |MixedI(raw)| == |MixedQ(raw)| == |raw| / 2
    ensures -128 <= s[2 * k] < 128 && -128 <= s[2 * k + 1] < 128
  {
  }

  lemma MixStart(raw: seq<int>)
    requires |raw| % 8 == 0 && Signed8(raw)
    ensures MixedUpTo(raw, raw, 0)
  {
  }

  /** One group of four pairs, as the mixer leaves it. */
  lemma GroupMixed(raw: seq<int>, s: seq<int>, c: nat, s': seq<int>)
    requires |raw| % 8 == 0 && Signed8(raw) && 8 * c + 8 <= |raw| && MixedUpTo(raw, s, c)
    requires |s'| == |s| && forall k :: 0 <= k < |s| && !(8 * c <= k < 8 * c + 8) ==> s'[k] == s[k]
    requires var i := 8 * c;
             && s'[i] == Flip(raw[i]) && s'[i + 1] == Flip(raw[i + 1])
             && s'[i + 2] == Neg8(Flip(raw[i + 3])) && s'[i + 3] == Flip(raw[i + 2])
             && s'[i + 4] == Neg8(Flip(raw[i + 4])) && s'[i + 5] == Neg8(Flip(raw[i + 5]))
             && s'[i + 6] == Flip(raw[i + 7]) && s'[i + 7] == Neg8(Flip(raw[i + 6]))
    ensures MixedUpTo(raw, s', c + 1)
  {
    hide Flip, Neg8;
    Phases(c);
    forall k | 0 <= k < 4 * (c + 1)
      ensures s'[2 * k] == MixedI(raw)[k] && s'[2 * k + 1] == MixedQ(raw)[k]
    {
      if k < 4 * c {
        assert s[2 * k] == MixedI(raw)[k];
      } else {
        assert k == 4 * c || k == 4 * c + 1 || k == 4 * c + 2 || k == 4 * c + 3;
      }
    }
  }

  /** The mixer, four pairs at a time, in place. */
  method Mix(sigIn: array<int>)
    requires sigIn.Length % 8 == 0 && Signed8(sigIn[..])
    modifies sigIn
    ensures MixedUpTo(old(sigIn[..]), sigIn[..], sigIn.Length / 8)
  {
    hide Flip, Neg8, MixedUpTo, MixedI, MixedQ;
    ghost var raw, c := sigIn[..], 0;
    MixStart(raw);
    var i := 0;
    while i < sigIn.Length
      invariant 0 <= i <= sigIn.Length && i == 8 * c && MixedUpTo(raw, sigIn[..], c)
    {
      ghost var s := sigIn[..];
      GroupUntouched(raw, s, c);
      sigIn[i] := Flip(sigIn[i]);
      sigIn[i + 1] := Flip(sigIn[i + 1]);
      var tmp := Flip(sigIn[i + 3]);
      sigIn[i + 3] := Flip(sigIn[i + 2]);
      sigIn[i + 2] := Neg8(tmp);
      sigIn[i + 4] := Neg8(Flip(sigIn[i + 4]));
      sigIn[i + 5] := Neg8(Flip(sigIn[i + 5]));
      tmp := Flip(sigIn[i + 6]);
      sigIn[i + 6] := Flip(sigIn[i + 7]);
      sigIn[i + 7] := Neg8(tmp);
      GroupMixed(raw, s, c, sigIn[..]);
      i := i + 8;
      c := c + 1;
    }
  }

  lemma GroupUntouched(raw: seq<int>, s: seq<int>, c: nat)
    requires |raw| % 8 == 0 && Signed8(raw) && 8 * c + 8 <= |raw| && MixedUpTo(raw, s, c)
    ensures |s| == |raw| && s[8 * c..8 * c + 8] == raw[8 * c..8 * c + 8]
    ensures forall k :: 8 * c <= k < 8 * c + 8 ==> s[k] == raw[k] && -128 <= s[k] < 128
  {
  }

  lemma Phases(c: nat)
    ensures (4 * c) % 4 == 0 && (4 * c + 1) % 4 == 1 && (4 * c + 2) % 4 == 2 && (4 * c + 3) % 4 == 3
  {
  }
}
