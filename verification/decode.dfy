/** From a waterfall and a candidate position back to the payload. Likelihoods are reals; the factor
    sqrt(24 / variance) of the normalisation is a parameter. */
module Decoder {
  import opened Bits
  import opened Constants
  import opened Crc
  import opened LdpcCode
  import opened BeliefPropagation
  import opened Encoder
  import opened Waterfalls

  // ----- where a candidate's bins are -----

  /** Index of bin 0 of the candidate's symbol 0; negative when the candidate starts before the data. */
  function CandOffset(wf: Waterfall, c: Candidate): int {
    ((c.timeOffset * wf.timeOsr + c.timeSub) * wf.freqOsr + c.freqSub) * wf.numBins + c.freqOffset
  }

  function BinIndex(wf: Waterfall, c: Candidate, sym: nat, bin: nat): int {
    CandOffset(wf, c) + sym * wf.blockStride + bin
  }

  /** Two digits of a mixed-radix number. */
  lemma Digits(a: nat, aBound: nat, b: nat, bBound: nat)
    requires a < aBound && b < bBound
    ensures 0 <= a * bBound + b < aBound * bBound
  {
    assert (a + 1) * bBound <= aBound * bBound;
    assert (a + 1) * bBound == a * bBound + bBound;
  }

  /** Bins of a symbol whose block was recorded lie inside the waterfall. */
  lemma BinInWaterfall(wf: Waterfall, c: Candidate, sym: nat, bin: nat)
    requires wf.Valid() && c.Fits(wf) && bin < wf.NumTones()
    requires 0 <= c.timeOffset + sym < wf.numBlocks
    ensures 0 <= BinIndex(wf, c, sym, bin) < |wf.mag|
  {
    hide BinIndex;
    BinIndexSplit(wf, c, sym, bin);
    var sub := c.timeSub * wf.freqOsr + c.freqSub;
    Digits(c.timeSub, wf.timeOsr, c.freqSub, wf.freqOsr);
    Digits(sub, wf.timeOsr * wf.freqOsr, c.freqOffset + bin, wf.numBins);
    Digits(c.timeOffset + sym, wf.numBlocks, sub * wf.numBins + c.freqOffset + bin, wf.blockStride);
  }

  /** A symbol counts as recorded exactly when its bins lie in the waterfall at all. */
  lemma RecordedExactly(wf: Waterfall, c: Candidate, sym: nat, bin: nat)
    requires wf.Valid() && c.Fits(wf) && bin < wf.NumTones()
    ensures Recorded(wf, c, sym) <==> 0 <= BinIndex(wf, c, sym, bin) < |wf.mag|
  {
    hide BinIndex;
    BinIndexSplit(wf, c, sym, bin);
    var sub, block := c.timeSub * wf.freqOsr + c.freqSub, c.timeOffset + sym;
    Digits(c.timeSub, wf.timeOsr, c.freqSub, wf.freqOsr);
    Digits(sub, wf.timeOsr * wf.freqOsr, c.freqOffset + bin, wf.numBins);
    InBlocks(block, wf.blockStride, sub * wf.numBins + c.freqOffset + bin, wf.numBlocks);
  }

  lemma InBlocks(block: int, stride: nat, rest: nat, blocks: nat)
    requires rest < stride
    ensures 0 <= block * stride + rest < blocks * stride <==> 0 <= block < blocks
  {
    if 0 <= block < blocks {
      Digits(block, blocks, rest, stride);
    } else if block < 0 {
      assert block * stride <= -1 * stride;
    } else {
      assert block * stride >= blocks * stride;
    }
  }

  lemma BinIndexSplit(wf: Waterfall, c: Candidate, sym: nat, bin: nat)
    requires wf.Valid()
    ensures BinIndex(wf, c, sym, bin) ==
            (c.timeOffset + sym) * wf.blockStride
            + ((c.timeSub * wf.freqOsr + c.freqSub) * wf.numBins + c.freqOffset + bin)
  {
    var a, b, f, n := c.timeOffset, wf.timeOsr, wf.freqOsr, wf.numBins;
    assert ((a * b + c.timeSub) * f + c.freqSub) * n == (a * b) * f * n + (c.timeSub * f + c.freqSub) * n by {
      assert (a * b + c.timeSub) * f == (a * b) * f + c.timeSub * f;
      assert ((a * b) * f + (c.timeSub * f + c.freqSub)) * n == (a * b) * f * n + (c.timeSub * f + c.freqSub) * n;
    }
    assert (a * b) * f * n == a * (b * f * n) by {
      assert (a * b) * f == a * (b * f);
      assert a * (b * f) * n == a * (b * f * n);
    }
    assert (a + sym) * wf.blockStride == a * wf.blockStride + sym * wf.blockStride;
  }

  /** The level of one bin, in dB. */
  function Level(wf: Waterfall, c: Candidate, sym: nat, bin: nat): real
    requires wf.Valid() && c.Fits(wf) && bin < wf.NumTones()
    requires 0 <= c.timeOffset + sym < wf.numBlocks
  {
    BinInWaterfall(wf, c, sym, bin);
    wf.mag[BinIndex(wf, c, sym, bin)] as real * 0.5 - 120.0
  }

  function Max2(a: real, b: real): real {
    if a >= b then a else b
  }

  function Max4(a: real, b: real, c: real, d: real): real {
    Max2(Max2(a, b), Max2(c, d))
  }

  /** The likelihoods of the three bits of one FT8 symbol, from its eight levels in Gray order. */
  function Symbol8(s: seq<real>): (logl: seq<real>)
    requires |s| == 8
    ensures |logl| == 3
  {
    [Max4(s[4], s[5], s[6], s[7]) - Max4(s[0], s[1], s[2], s[3]),
     Max4(s[2], s[3], s[6], s[7]) - Max4(s[0], s[1], s[4], s[5]),
     Max4(s[1], s[3], s[5], s[7]) - Max4(s[0], s[2], s[4], s[6])]
  }

  function Symbol4(s: seq<real>): (logl: seq<real>)
    requires |s| == 4
    ensures |logl| == 2
  {
    [Max2(s[2], s[3]) - Max2(s[0], s[1]), Max2(s[1], s[3]) - Max2(s[0], s[2])]
  }

  /** Index i has the bit of the given place value (4, 2 or 1) set. */
  predicate IsSet(i: nat, place: nat)
    requires place > 0
  {
    i / place % 2 == 1
  }

  /** Among the levels whose index has that bit set, or clear, no level exceeds s[i]. */
  predicate Greatest(s: seq<real>, place: nat, one: bool, i: nat)
    requires place > 0
  {
    i < |s| && IsSet(i, place) == one && forall j :: 0 <= j < |s| && IsSet(j, place) == one ==> s[j] <= s[i]
  }

  /** x is how far the best level with a one in that place is above the best level with a zero. */
  ghost predicate IsLead(s: seq<real>, place: nat, x: real)
    requires place > 0
  {
    exists i: nat, j: nat :: Greatest(s, place, true, i) && Greatest(s, place, false, j) && x == s[i] - s[j]
  }

  lemma GreatestOf2(s: seq<real>, place: nat, one: bool, a: nat, b: nat)
    requires |s| == 4 && place > 0 && a < 4 && b < 4
    requires forall j :: 0 <= j < 4 ==> (IsSet(j, place) == one <==> j == a || j == b)
    ensures exists i: nat :: Greatest(s, place, one, i) && s[i] == Max2(s[a], s[b])
  {
    assert Greatest(s, place, one, if s[a] >= s[b] then a else b);
  }

  lemma GreatestOf4(s: seq<real>, place: nat, one: bool, a: nat, b: nat, c: nat, d: nat)
    requires |s| == 8 && place > 0 && a < 8 && b < 8 && c < 8 && d < 8
    requires forall j :: 0 <= j < 8 ==> (IsSet(j, place) == one <==> j == a || j == b || j == c || j == d)
    ensures exists i: nat :: Greatest(s, place, one, i) && s[i] == Max4(s[a], s[b], s[c], s[d])
  {
    var ab, cd := if s[a] >= s[b] then a else b, if s[c] >= s[d] then c else d;
    assert Greatest(s, place, one, if s[ab] >= s[cd] then ab else cd);
  }

  /** The likelihood of each bit of a symbol is the lead of its ones over its zeros, whatever the levels are. */
  lemma Symbol8Leads(s: seq<real>)
    requires |s| == 8
    ensures IsLead(s, 4, Symbol8(s)[0]) && IsLead(s, 2, Symbol8(s)[1]) && IsLead(s, 1, Symbol8(s)[2])
  {
    hide Max4, Greatest;
    GreatestOf4(s, 4, true, 4, 5, 6, 7); GreatestOf4(s, 4, false, 0, 1, 2, 3);
    GreatestOf4(s, 2, true, 2, 3, 6, 7); GreatestOf4(s, 2, false, 0, 1, 4, 5);
    GreatestOf4(s, 1, true, 1, 3, 5, 7); GreatestOf4(s, 1, false, 0, 2, 4, 6);
  }

  lemma Symbol4Leads(s: seq<real>)
    requires |s| == 4
    ensures IsLead(s, 2, Symbol4(s)[0]) && IsLead(s, 1, Symbol4(s)[1])
  {
    hide Max2, Greatest;
    GreatestOf2(s, 2, true, 2, 3); GreatestOf2(s, 2, false, 0, 1);
    GreatestOf2(s, 1, true, 1, 3); GreatestOf2(s, 1, false, 0, 2);
  }

  /** There is only one lead. */
  lemma LeadIsUnique(s: seq<real>, place: nat, x: real, y: real)
    requires place > 0 && IsLead(s, place, x) && IsLead(s, place, y)
    ensures x == y
  {
    hide IsSet;
    var i: nat, j: nat :| Greatest(s, place, true, i) && Greatest(s, place, false, j) && x == s[i] - s[j];
    var i': nat, j': nat :| Greatest(s, place, true, i') && Greatest(s, place, false, j') && y == s[i'] - s[j'];
    assert s[i] == s[i'] && s[j] == s[j'];
  }

  // ----- likelihoods of the 174 bits -----

  predicate Recorded(wf: Waterfall, c: Candidate, sym: nat) {
    0 <= c.timeOffset + sym < wf.numBlocks
  }

  /** The eight levels of a symbol in Gray order. */
  function Levels8(wf: Waterfall, c: Candidate, sym: nat): (s: seq<real>)
    requires wf.Valid() && c.Fits(wf) && wf.protocol == FT8 && Recorded(wf, c, sym)
    ensures |s| == 8
  {
    seq(8, j requires 0 <= j < 8 => Level(wf, c, sym, Gray8(j)))
  }

  function Levels4(wf: Waterfall, c: Candidate, sym: nat): (s: seq<real>)
    requires wf.Valid() && c.Fits(wf) && wf.protocol == FT4 && Recorded(wf, c, sym)
    ensures |s| == 4
  {
    seq(4, j requires 0 <= j < 4 => Level(wf, c, sym, Gray4(j)))
  }

  /** What data symbol k says about its bits; nothing when its block was not recorded. */
  function SymbolLikelihood(wf: Waterfall, c: Candidate, k: nat): (logl: seq<real>)
    requires wf.Valid() && c.Fits(wf)
    ensures |logl| == if wf.protocol == FT4 then 2 else 3
  {
    if wf.protocol == FT4 then
      if Recorded(wf, c, DataSymbol4(k)) then Symbol4(Levels4(wf, c, DataSymbol4(k))) else [0.0, 0.0]
    else
      if Recorded(wf, c, DataSymbol8(k)) then Symbol8(Levels8(wf, c, DataSymbol8(k))) else [0.0, 0.0, 0.0]
  }

  /** The likelihoods of the bits of the first n data symbols. */
  function Likelihood(wf: Waterfall, c: Candidate, n: nat): (logl: seq<real>)
    requires wf.Valid() && c.Fits(wf)
    ensures |logl| == if wf.protocol == FT4 then 2 * n else 3 * n
  {
    if n == 0 then [] else Likelihood(wf, c, n - 1) + SymbolLikelihood(wf, c, n - 1)
  }

  /** The likelihoods of all 174 bits. */
  function Likelihoods(wf: Waterfall, c: Candidate): (logl: seq<real>)
    requires wf.Valid() && c.Fits(wf)
    ensures |logl| == N
  {
    Likelihood(wf, c, if wf.protocol == FT4 then FT4_ND else FT8_ND)
  }

  lemma LikelihoodSteps(wf: Waterfall, c: Candidate, k: nat)
    requires wf.Valid() && c.Fits(wf)
    ensures Likelihood(wf, c, 0) == []
    ensures Likelihood(wf, c, k + 1) == Likelihood(wf, c, k) + SymbolLikelihood(wf, c, k)
  {
  }

  method Ft8ExtractSymbol(wf: Waterfall, c: Candidate, sym: nat, logl: array<real>, at: nat)
    requires wf.Valid() && c.Fits(wf) && wf.protocol == FT8 && Recorded(wf, c, sym) && at + 3 <= logl.Length
    modifies logl
    ensures logl[..] == old(logl[..at]) + Symbol8(Levels8(wf, c, sym)) + old(logl[at + 3..])
    ensures IsLead(Levels8(wf, c, sym), 4, logl[at]) && IsLead(Levels8(wf, c, sym), 2, logl[at + 1])
    ensures IsLead(Levels8(wf, c, sym), 1, logl[at + 2])
  {
    hide Gray8, Max4, IsLead;
    var s2 := new real[8];
    for j := 0 to 8
      invariant logl[..] == old(logl[..])
      invariant forall i :: 0 <= i < j ==> s2[i] == Levels8(wf, c, sym)[i]
    {
      s2[j] := Level(wf, c, sym, Gray8(j));
    }
    assert s2[..] == Levels8(wf, c, sym);
    Symbol8Leads(s2[..]);
    logl[at] := Max4(s2[4], s2[5], s2[6], s2[7]) - Max4(s2[0], s2[1], s2[2], s2[3]);
    logl[at + 1] := Max4(s2[2], s2[3], s2[6], s2[7]) - Max4(s2[0], s2[1], s2[4], s2[5]);
    logl[at + 2] := Max4(s2[1], s2[3], s2[5], s2[7]) - Max4(s2[0], s2[2], s2[4], s2[6]);
  }

  method Ft4ExtractSymbol(wf: Waterfall, c: Candidate, sym: nat, logl: array<real>, at: nat)
    requires wf.Valid() && c.Fits(wf) && wf.protocol == FT4 && Recorded(wf, c, sym) && at + 2 <= logl.Length
    modifies logl
    ensures logl[..] == old(logl[..at]) + Symbol4(Levels4(wf, c, sym)) + old(logl[at + 2..])
    ensures IsLead(Levels4(wf, c, sym), 2, logl[at]) && IsLead(Levels4(wf, c, sym), 1, logl[at + 1])
  {
    hide Gray4, Max2, IsLead;
    var s2 := new real[4];
    for j := 0 to 4
      invariant logl[..] == old(logl[..])
      invariant forall i :: 0 <= i < j ==> s2[i] == Levels4(wf, c, sym)[i]
    {
      s2[j] := Level(wf, c, sym, Gray4(j));
    }
    assert s2[..] == Levels4(wf, c, sym);
    Symbol4Leads(s2[..]);
    logl[at] := Max2(s2[2], s2[3]) - Max2(s2[0], s2[1]);
    logl[at + 1] := Max2(s2[1], s2[3]) - Max2(s2[0], s2[2]);
  }

  method Ft8ExtractLikelihood(wf: Waterfall, c: Candidate, log174: array<real>)
    requires wf.Valid() && c.Fits(wf) && wf.protocol == FT8 && log174.Length == N
    modifies log174
    ensures log174[..] == Likelihoods(wf, c)
  {
    hide Symbol8, Levels8, Likelihood;
    assert Likelihood(wf, c, 0) == [] by { LikelihoodSteps(wf, c, 0); }
    for k := 0 to FT8_ND
      invariant log174[..3 * k] == Likelihood(wf, c, k)
    {
      var symIdx, bitIdx := k + if k < 29 then 7 else 14, 3 * k;
      if Recorded(wf, c, symIdx) {
        Ft8ExtractSymbol(wf, c, symIdx, log174, bitIdx);
      } else {
        log174[bitIdx], log174[bitIdx + 1], log174[bitIdx + 2] := 0.0, 0.0, 0.0;
      }
      LikelihoodSteps(wf, c, k);
      assert log174[3 * k..3 * k + 3] == SymbolLikelihood(wf, c, k);
      assert log174[..3 * (k + 1)] == log174[..3 * k] + log174[3 * k..3 * k + 3];
    }
    assert log174[..] == log174[..3 * FT8_ND];
  }

  method Ft4ExtractLikelihood(wf: Waterfall, c: Candidate, log174: array<real>)
    requires wf.Valid() && c.Fits(wf) && wf.protocol == FT4 && log174.Length == N
    modifies log174
    ensures log174[..] == Likelihoods(wf, c)
  {
    hide Symbol4, Levels4, Likelihood;
    assert Likelihood(wf, c, 0) == [] by { LikelihoodSteps(wf, c, 0); }
    for k := 0 to FT4_ND
      invariant log174[..2 * k] == Likelihood(wf, c, k)
    {
      var symIdx, bitIdx := k + if k < 29 then 5 else if k < 58 then 9 else 13, 2 * k;
      if Recorded(wf, c, symIdx) {
        Ft4ExtractSymbol(wf, c, symIdx, log174, bitIdx);
      } else {
        log174[bitIdx], log174[bitIdx + 1] := 0.0, 0.0;
      }
      LikelihoodSteps(wf, c, k);
      assert log174[2 * k..2 * k + 2] == SymbolLikelihood(wf, c, k);
      assert log174[..2 * (k + 1)] == log174[..2 * k] + log174[2 * k..2 * k + 2];
    }
    assert log174[..] == log174[..2 * FT4_ND];
  }

  // ----- normalisation -----

  function Sum(l: seq<real>): real {
    if l == [] then 0.0 else Sum(l[..|l| - 1]) + l[|l| - 1]
  }

  function SumSquares(l: seq<real>): real {
    if l == [] then 0.0 else SumSquares(l[..|l| - 1]) + l[|l| - 1] * l[|l| - 1]
  }

  /** (sum2 - sum * sum / n) / n. */
  function Variance(l: seq<real>): real
    requires |l| > 0
  {
    (SumSquares(l) - Sum(l) * Sum(l) * (1.0 / |l| as real)) * (1.0 / |l| as real)
  }

  function Scale(l: seq<real>, factor: real): (s: seq<real>)
    ensures |s| == |l| && forall i :: 0 <= i < |l| ==> s[i] == l[i] * factor
  {
    seq(|l|, i requires 0 <= i < |l| => l[i] * factor)
  }

  method ComputeVariance(log174: array<real>) returns (variance: real)
    requires log174.Length == N
    ensures variance == Variance(log174[..])
  {
    ghost var l := log174[..];
    var sum, sum2 := 0.0, 0.0;
    for i := 0 to N
      invariant sum == Sum(l[..i]) && sum2 == SumSquares(l[..i])
    {
      assert l[..i + 1][..i] == l[..i];
      sum := sum + log174[i];
      sum2 := sum2 + log174[i] * log174[i];
    }
    assert l[..N] == l;
    var invN := 1.0 / N as real;
    variance := (sum2 - sum * sum * invN) * invN;
  }

  /** Scales the likelihoods by the factor that their variance calls for. */
  method NormalizeLogl(norm: real -> real, log174: array<real>)
    requires log174.Length == N
    modifies log174
    ensures log174[..] == Scale(old(log174[..]), norm(Variance(old(log174[..]))))
  {
    hide Variance, Scale;
    ghost var l := log174[..];
    var variance := ComputeVariance(log174);
    var normFactor := norm(variance);
    ghost var scaled := Scale(l, normFactor);
    for i := 0 to N
      invariant forall j :: 0 <= j < i ==> log174[j] == scaled[j]
      invariant forall j :: i <= j < N ==> log174[j] == l[j]
    {
      log174[i] := log174[i] * normFactor;
    }
    assert log174[..] == scaled;
  }

  // ----- from decoded bits to the payload -----

  /** Packs 0 and nonzero bytes into bits, most significant first. */
  method PackBits(bitArray: array<Byte>, numBits: nat, packed: array<Byte>)
    requires numBits <= bitArray.Length && packed.Length == (numBits + 7) / 8 && bitArray != packed
    modifies packed
    ensures BitsOf(packed[..]) == BoolsOf(bitArray[..])[..numBits] + Zeros(8 * packed.Length - numBits)
  {
    hide BitsOf, Mask, Or, ShiftMask;
    for i := 0 to packed.Length
      invariant bitArray[..] == old(bitArray[..])
      invariant forall k :: 0 <= k < i ==> packed[k] == 0
    {
      packed[i] := 0;
    }
    ghost var bits := BoolsOf(bitArray[..]);
    BitsOfZeroBytes(packed[..]);
    var mask, byteIdx := Mask(0), 0;
    for i := 0 to numBits
      invariant bitArray[..] == old(bitArray[..])
      invariant byteIdx == i / 8 && mask == Mask(i % 8)
      invariant BitsOf(packed[..]) == bits[..i] + Zeros(8 * packed.Length - i)
    {
      ghost var before := packed[..];
      assert 8 * byteIdx + i % 8 == i;
      if bitArray[i] != 0 {
        BitsOfSet(before, byteIdx, i % 8);
        packed[byteIdx] := Or(packed[byteIdx], mask);
        assert packed[..] == before[byteIdx := Or(before[byteIdx], Mask(i % 8))];
      }
      assert BitsOf(packed[..]) == BitsOf(before)[i := bits[i]];
      MaskStep(i % 8);
      mask := ShiftMask(mask);
      if mask == 0 {
        mask := Mask(0);
        byteIdx := byteIdx + 1;
      }
    }
  }

  /** What a decoder run yields. */
  datatype Outcome = Rejected | Accepted(payload: seq<bool>)

  /** The decision on 174 decoded bits that the parity checks found nErrors wrong in: accepted when all
      checks hold and the first 91 bits are 77 bits with their CRC. */
  function Judge(bits: seq<bool>, errors: nat): Outcome
    requires |bits| == N
  {
    if errors == 0 && bits[..K] == WithCrc(bits[..77]) then Accepted(bits[..77]) else Rejected
  }

  /** The decision on a candidate. */
  function Outcomes(f: Tanh, norm: real -> real, wf: Waterfall, c: Candidate, maxIters: nat): Outcome
    requires wf.Valid() && c.Fits(wf) && maxIters > 0
  {
    var raw := Likelihoods(wf, c);
    var l := Scale(raw, norm(Variance(raw)));
    Judge(Decoded(f, l, maxIters), LeastFailures(f, l, Tested(f, l, maxIters)))
  }

  /** The comparison of the two CRC words decides whether the 91 bits are 77 bits with their CRC. */
  lemma CrcVerdict(b: seq<bool>, packed: seq<Byte>, cleared: seq<Byte>, calculated: bv16)
    requires |b| == K && |packed| == |cleared| == 12 && BitsOf(packed) == b + Zeros(5)
    requires cleared[..9] == packed[..9] && cleared[9] == ClearSpare(packed[9]) && cleared[10] == 0
    requires calculated < 0x4000
    requires Bits14(calculated) == XorBits(CrcOf(BitsOf(cleared)[..82]), Unfed(cleared, 82))
    ensures ExtractCrc(packed[9], packed[10], packed[11]) == calculated <==> b == WithCrc(b[..77])
    ensures BitsOf(cleared[..10]) == b[..77] + Zeros(3)
  {
    hide BitsOf, ClearSpare, ExtractCrc, Bits14, CrcOf, XorBits, Unfed;
    var payload := packed[..10];
    assert payload[..9] == packed[..9] && payload[9] == packed[9];
    CrcInput(payload, cleared);
    CrcNeedsClearTail(cleared, 82);
    BitsOfPrefix(packed, 10);
    BitsOfPrefix(cleared, 10);
    assert BitsOf(payload)[..77] == b[..77];
    ExtractedBits(packed);
    assert BitsOf(packed)[77..91] == b[77..];
    var extracted := ExtractCrc(packed[9], packed[10], packed[11]);
    if Bits14(extracted) == Bits14(calculated) {
      Bits14Injective(extracted, calculated);
    }
    assert b == b[..77] + b[77..];
    assert BitsOf(cleared)[..80] == BitsOf(cleared)[..82][..80];
  }

  /** Checks the CRC of decoded bits and unpacks the payload; the payload's last three bits come out
      clear. */
  method CheckAndUnpack(plain174: array<Byte>, payload: array<Byte>) returns (ok: bool)
    requires plain174.Length == N && AreBits(plain174[..]) && payload.Length == 10 && plain174 != payload
    modifies payload
    ensures ok <==> BoolsOf(plain174[..])[..K] == WithCrc(BoolsOf(plain174[..])[..77])
    ensures !ok ==> payload[..] == old(payload[..])
    ensures ok ==> BitsOf(payload[..]) == BoolsOf(plain174[..])[..77] + Zeros(3)
  {
    hide BitsOf, WithCrc, ClearSpare, ExtractCrc, Bits14, BoolsOf, Unfed;
    var a91 := new Byte[12];
    PackBits(plain174, K, a91);
    ghost var b, packed := BoolsOf(plain174[..])[..K], a91[..];
    assert b[..77] == BoolsOf(plain174[..])[..77];
    var crcExtracted := ExtractCrc(a91[9], a91[10], a91[11]);
    a91[9] := ClearSpare(a91[9]);
    a91[10] := 0;
    assert a91[..9] == packed[..9];
    var crcCalculated := ComputeCrc(a91, 82);
    CrcVerdict(b, packed, a91[..], crcCalculated);
    ok := crcExtracted == crcCalculated;
    if ok {
      ghost var cleared := a91[..10];
      for i := 0 to 10
        invariant a91[..10] == cleared
        invariant forall j :: 0 <= j < i ==> payload[j] == cleared[j]
      {
        payload[i] := a91[i];
      }
      assert payload[..] == cleared;
    }
  }

  /** The payload as transmitted: FT4 sends it whitened. */
  function OnAir(protocol: Protocol, payload: seq<Byte>): (sent: seq<Byte>)
    requires |payload| == 10
    ensures |sent| == 10
  {
    if protocol == FT4 then Whiten(payload) else payload
  }

  /** Hands the decoded payload over, un-whitened for FT4. */
  method DeliverPayload(protocol: Protocol, a77: array<Byte>, payload: array<Byte>)
    requires a77.Length == payload.Length == 10 && a77 != payload
    modifies payload
    ensures OnAir(protocol, payload[..]) == a77[..]
  {
    ghost var raw := a77[..];
    if protocol == FT4 {
      for i := 0 to 10
        invariant a77[..] == raw && forall j :: 0 <= j < i ==> payload[j] == Whiten(raw)[j]
      {
        payload[i] := a77[i] ^ FT4_XOR[i];
      }
      assert payload[..] == Whiten(raw);
      WhitenTwice(raw);
    } else {
      for i := 0 to 10
        invariant a77[..] == raw && forall j :: 0 <= j < i ==> payload[j] == raw[j]
      {
        payload[i] := a77[i];
      }
      assert payload[..] == raw;
    }
  }

  method ExtractLikelihood(wf: Waterfall, c: Candidate, log174: array<real>)
    requires wf.Valid() && c.Fits(wf) && log174.Length == N
    modifies log174
    ensures log174[..] == Likelihoods(wf, c)
  {
    if wf.protocol == FT4 {
      Ft4ExtractLikelihood(wf, c, log174);
    } else {
      Ft8ExtractLikelihood(wf, c, log174);
    }
  }

  /** Decodes one candidate: likelihoods, normalisation, belief propagation, CRC, payload. */
  method DecodeCandidate(f: Tanh, norm: real -> real, wf: Waterfall, c: Candidate, maxIters: nat, payload: array<Byte>)
    returns (ok: bool, ldpcErrors: nat)
    requires wf.Valid() && c.Fits(wf) && payload.Length == 10
    modifies payload
    ensures !ok ==> payload[..] == old(payload[..])
    ensures maxIters == 0 ==> !ok
    ensures maxIters > 0 ==> (ok <==> Outcomes(f, norm, wf, c, maxIters).Accepted?)
    ensures maxIters > 0 && ok ==>
              BitsOf(OnAir(wf.protocol, payload[..])) == Outcomes(f, norm, wf, c, maxIters).payload + Zeros(3)
  {
    hide BitsOf, Likelihoods, Variance, Scale, Decoded, LeastFailures, Tested, WithCrc, OnAir, BoolsOf;
    var log174 := new real[N];
    ExtractLikelihood(wf, c, log174);
    NormalizeLogl(norm, log174);
    var plain174 := new Byte[N];
    ldpcErrors := BpDecode(f, log174, maxIters, plain174);
    if ldpcErrors > 0 {
      return false, ldpcErrors;
    }
    var a77 := new Byte[10];
    ok := CheckAndUnpack(plain174, a77);
    if ok {
      DeliverPayload(wf.protocol, a77, payload);
    }
  }
}
