/** The two directions of the transform, set up for one length, one after the other. */
module TransformRoundTrip {
  import opened Arithmetic
  import opened Complex
  import opened Dft
  import opened Butterflies
  import opened KissFactor
  import opened KissFft
  import opened Inversion

  /** Reading every value reads the whole buffer. */
  lemma ReadsAll(f: seq<Cpx>, n: nat)
    requires 0 < n <= |f|
    ensures Reads(f, 0, 1, n) && forall k: nat :: k < n ==> Input(f, 0, 1)(k) == f[k]
  {
  }

  /** What a buffer that holds the spectrum is transformed to. */
  lemma SpectrumBack(tw: seq<Cpx>, tv: seq<Cpx>, x: seq<Cpx>, mid: seq<Cpx>, j: nat)
    requires |x| == |mid| == |tw| == |tv| > 0 && IsRootTable(tw) && Opposite(tw, tv) && j < |x|
    requires forall k :: 0 <= k < |mid| ==> mid[k] == Transform(tw, 1, |tw|, Input(x, 0, 1), k)
    ensures Transform(tv, 1, |tv|, Input(mid, 0, 1), j) == Mul(x[j], Cpx(|x| as real, 0.0))
  {
    hide Mul, IsRootTable, Opposite, Transform, Input, Reads;
    ReadsAll(mid, |mid|);
    ReadsAll(x, |x|);
    var spectrum := Spectrum(tw, Input(x, 0, 1));
    forall k: nat | k < |mid|
      ensures Input(mid, 0, 1)(k) == spectrum(k)
    {
    }
    TransformEq(tv, 1, |tv|, Input(mid, 0, 1), spectrum, j);
    RoundTrip(tw, tv, Input(x, 0, 1), j);
  }

  /** Forward and inverse setups of one length, and a transform with each: every value comes back times the length. */
  method ForthAndBack(nfft: nat, tw: seq<Cpx>, tv: seq<Cpx>, x: array<Cpx>) returns (back: array<Cpx>)
    requires 1 <= nfft <= INT_MAX && 2 * (nfft - Smooth(nfft)) <= INT_MAX && x.Length == nfft
    requires Config(nfft, false, [], tw).Valid() && Config(nfft, true, [], tv).Valid() && Opposite(tw, tv)
    ensures fresh(back) && back.Length == nfft
    ensures forall j :: 0 <= j < nfft ==> back[j] == Mul(x[j], Cpx(nfft as real, 0.0))
  {
    hide *;
    assert |tw| == |tv| == nfft && IsRootTable(tw) by {
      Tables(Config(nfft, false, [], tw));
      Tables(Config(nfft, true, [], tv));
    }
    var forward, count := KissFftAlloc(nfft, false, tw);
    var inverse, inverseCount := KissFftAlloc(nfft, true, tv);
    var mid := new Cpx[nfft];
    ReadsAll(x[..], nfft);
    KissFftStride(forward, x, mid, 1, count);
    back := new Cpx[nfft];
    ghost var spectrum := mid[..];
    ReadsAll(spectrum, nfft);
    KissFftStride(inverse, mid, back, 1, inverseCount);
    forall j | 0 <= j < nfft
      ensures back[j] == Mul(x[j], Cpx(nfft as real, 0.0))
    {
      SpectrumBack(tw, tv, x[..], spectrum, j);
    }
  }

  lemma Tables(st: Config)
    requires st.Valid()
    ensures |st.twiddles| == st.nfft > 0 && IsRootTable(st.twiddles)
  {
  }
}
