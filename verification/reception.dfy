/** The two ends together: a transmission received without noise decodes to its payload, and whatever
    decodes passes every check the encoder builds in. */
module Reception {
  import opened Bits
  import opened Constants
  import opened Crc
  import opened LdpcCode
  import opened LdpcRank
  import opened BeliefPropagation
  import opened Encoder
  import opened Waterfalls
  import opened Decoder

  // ----- likelihoods have the sign of the bits -----

  /** A likelihood points to its bit. */
  predicate Points(x: real, bit: bool) {
    if bit then x > 0.0 else x < 0.0
  }

  predicate AllPoint(l: seq<real>, bits: seq<bool>) {
    |l| == |bits| && forall i :: 0 <= i < |l| ==> Points(l[i], bits[i])
  }

  /** When one of eight levels is the strict maximum, the three likelihoods spell its index. */
  lemma Symbol8Points(s: seq<real>, a: bool, b: bool, c: bool)
    requires |s| == 8
    requires forall j :: 0 <= j < 8 && j != Value3(a, b, c) ==> s[j] < s[Value3(a, b, c)]
    ensures AllPoint(Symbol8(s), [a, b, c])
  {
  }

  lemma Symbol4Points(s: seq<real>, a: bool, b: bool)
    requires |s| == 4
    requires forall j :: 0 <= j < 4 && j != Value2(a, b) ==> s[j] < s[Value2(a, b)]
    ensures AllPoint(Symbol4(s), [a, b])
  {
  }

  /** Every data symbol was recorded and its transmitted tone is the strict maximum of its bins. */
  predicate Clean(wf: Waterfall, c: Candidate, tones: seq<nat>)
    requires wf.Valid() && c.Fits(wf)
    requires |tones| == if wf.protocol == FT4 then FT4_NN else FT8_NN
  {
    if wf.protocol == FT4 then
      forall k :: 0 <= k < FT4_ND ==> Loudest(wf, c, DataSymbol4(k), tones[DataSymbol4(k)])
    else
      forall k :: 0 <= k < FT8_ND ==> Loudest(wf, c, DataSymbol8(k), tones[DataSymbol8(k)])
  }

  predicate Loudest(wf: Waterfall, c: Candidate, sym: nat, tone: nat)
    requires wf.Valid() && c.Fits(wf)
  {
    Recorded(wf, c, sym) && tone < wf.NumTones() &&
    forall bin :: 0 <= bin < wf.NumTones() && bin != tone ==> Level(wf, c, sym, bin) < Level(wf, c, sym, tone)
  }

  lemma Gray8Injective(i: nat, j: nat)
    requires i < 8 && j < 8 && Gray8(i) == Gray8(j)
    ensures i == j
  {
  }

  lemma Gray4Injective(i: nat, j: nat)
    requires i < 4 && j < 4 && Gray4(i) == Gray4(j)
    ensures i == j
  {
  }

  /** In how many of the places 4, 2 and 1 two numbers differ. */
  function Apart(i: nat, j: nat): nat {
    (if IsSet(i, 4) != IsSet(j, 4) then 1 else 0) + (if IsSet(i, 2) != IsSet(j, 2) then 1 else 0)
    + if IsSet(i, 1) != IsSet(j, 1) then 1 else 0
  }

  /** Neighbouring tones carry numbers that differ in a single bit. */
  lemma GrayNeighbours(i: nat, j: nat)
    ensures i < 8 && j < 8 && Gray8(j) == Gray8(i) + 1 ==> Apart(i, j) == 1
    ensures i < 4 && j < 4 && Gray4(j) == Gray4(i) + 1 ==> Apart(i, j) == 1
  {
  }

  /** The synchronisation pattern shifted in time and frequency meets itself in at most one tone. */
  lemma CostasMeetsOnce(a: nat, b: nat, shift: nat, up: int)
    requires a < b && shift > 0 && b + shift < 7
    ensures !(Costas8(a + shift) == Costas8(a) + up && Costas8(b + shift) == Costas8(b) + up)
  {
  }

  lemma CleanSymbol8(wf: Waterfall, c: Candidate, code: seq<bool>, k: nat)
    requires wf.Valid() && c.Fits(wf) && wf.protocol == FT8 && |code| == N && k < FT8_ND
    requires Loudest(wf, c, DataSymbol8(k), DataTone8(code, k))
    ensures AllPoint(SymbolLikelihood(wf, c, k), code[3 * k..3 * k + 3])
  {
    hide Gray8, Level, Symbol8;
    var s, v := Levels8(wf, c, DataSymbol8(k)), Value3(code[3 * k], code[3 * k + 1], code[3 * k + 2]);
    forall j | 0 <= j < 8 && j != v
      ensures s[j] < s[v]
    {
      if Gray8(j) == Gray8(v) {
        Gray8Injective(j, v);
      }
    }
    Symbol8Points(s, code[3 * k], code[3 * k + 1], code[3 * k + 2]);
    assert code[3 * k..3 * k + 3] == [code[3 * k], code[3 * k + 1], code[3 * k + 2]];
  }

  lemma CleanSymbol4(wf: Waterfall, c: Candidate, code: seq<bool>, k: nat)
    requires wf.Valid() && c.Fits(wf) && wf.protocol == FT4 && |code| == N && k < FT4_ND
    requires Loudest(wf, c, DataSymbol4(k), DataTone4(code, k))
    ensures AllPoint(SymbolLikelihood(wf, c, k), code[2 * k..2 * k + 2])
  {
    hide Gray4, Level, Symbol4;
    var s, v := Levels4(wf, c, DataSymbol4(k)), Value2(code[2 * k], code[2 * k + 1]);
    forall j | 0 <= j < 4 && j != v
      ensures s[j] < s[v]
    {
      if Gray4(j) == Gray4(v) {
        Gray4Injective(j, v);
      }
    }
    Symbol4Points(s, code[2 * k], code[2 * k + 1]);
    assert code[2 * k..2 * k + 2] == [code[2 * k], code[2 * k + 1]];
  }

  /** The tones of a codeword under either protocol. */
  function Tones(protocol: Protocol, code: seq<bool>): (tones: seq<nat>)
    requires |code| == N
    ensures |tones| == if protocol == FT4 then FT4_NN else FT8_NN
  {
    if protocol == FT4 then Ft4Tones(code) else Ft8Tones(code)
  }

  lemma {:induction false} CleanPrefix(wf: Waterfall, c: Candidate, code: seq<bool>, n: nat)
    requires wf.Valid() && c.Fits(wf) && |code| == N && n <= if wf.protocol == FT4 then FT4_ND else FT8_ND
    requires Clean(wf, c, Tones(wf.protocol, code))
    ensures AllPoint(Likelihood(wf, c, n), code[..if wf.protocol == FT4 then 2 * n else 3 * n])
  {
    hide SymbolLikelihood, Loudest, Points, Ft8Tones, Ft4Tones, DataTone4, DataTone8, Clean, Tones;
    if n > 0 {
      var k := n - 1;
      CleanPrefix(wf, c, code, k);
      CleanSymbol(wf, c, code, k);
      if wf.protocol == FT4 {
        assert code[..2 * n] == code[..2 * k] + code[2 * k..2 * k + 2];
      } else {
        assert code[..3 * n] == code[..3 * k] + code[3 * k..3 * k + 3];
      }
    }
  }

  lemma CleanSymbol(wf: Waterfall, c: Candidate, code: seq<bool>, k: nat)
    requires wf.Valid() && c.Fits(wf) && |code| == N && k < if wf.protocol == FT4 then FT4_ND else FT8_ND
    requires Clean(wf, c, Tones(wf.protocol, code))
    ensures AllPoint(SymbolLikelihood(wf, c, k),
                     if wf.protocol == FT4 then code[2 * k..2 * k + 2] else code[3 * k..3 * k + 3])
  {
    hide SymbolLikelihood, Loudest, AllPoint, Ft8Tones, Ft4Tones, DataTone4, DataTone8;
    TransmissionLayout(code);
    if wf.protocol == FT4 {
      assert Ft4Tones(code)[DataSymbol4(k)] == DataTone4(code, k);
      CleanSymbol4(wf, c, code, k);
    } else {
      assert Ft8Tones(code)[DataSymbol8(k)] == DataTone8(code, k);
      CleanSymbol8(wf, c, code, k);
    }
  }

  // ----- the variance is positive when both signs occur -----

  /** Sum of the squared distances from y. */
  function Distance(l: seq<real>, y: real): real {
    if l == [] then 0.0 else Distance(l[..|l| - 1], y) + Square(l[|l| - 1] - y)
  }

  function Times(x: real, y: real): real {
    x * y
  }

  function Square(x: real): real {
    Times(x, x)
  }

  /** The same from the sums: q of squares, s of elements, n elements. */
  function Expanded(q: real, s: real, n: real, y: real): real {
    q - 2.0 * y * s + n * (y * y)
  }

  lemma ExpandedStep(q: real, s: real, n: real, q': real, s': real, n': real, x: real, y: real)
    requires q' == q + x * x && s' == s + x && n' == n + 1.0
    ensures Expanded(q', s', n', y) == Expanded(q, s, n, y) + Square(x - y)
  {
  }

  lemma {:induction false} DistanceExpands(l: seq<real>, y: real)
    ensures Distance(l, y) == Expanded(SumSquares(l), Sum(l), |l| as real, y)
  {
    hide Square, Expanded;
    if l == [] {
      assert Expanded(0.0, 0.0, 0.0, y) == 0.0 by { ExpandedZero(y); }
    } else {
      var n := |l| - 1;
      DistanceExpands(l[..n], y);
      ExpandedStep(SumSquares(l[..n]), Sum(l[..n]), n as real, SumSquares(l), Sum(l), |l| as real, l[n], y);
    }
  }

  lemma ExpandedZero(y: real)
    ensures Expanded(0.0, 0.0, 0.0, y) == 0.0
  {
  }

  lemma {:induction false} DistancePositive(l: seq<real>, y: real)
    ensures Distance(l, y) >= 0.0
    ensures (exists i :: 0 <= i < |l| && l[i] != y) ==> Distance(l, y) > 0.0
  {
    hide Square;
    if l != [] {
      var n := |l| - 1;
      DistancePositive(l[..n], y);
      SquareSign(l[n] - y);
      if exists i :: 0 <= i < |l| && l[i] != y {
        var i :| 0 <= i < |l| && l[i] != y;
        if i < n {
          assert l[..n][i] != y;
          assert Distance(l[..n], y) > 0.0;
        } else {
          assert l[n] - y != 0.0;
        }
      }
    }
  }

  lemma TimesSign(x: real, y: real)
    ensures x > 0.0 && y > 0.0 ==> Times(x, y) > 0.0
    ensures x < 0.0 && y < 0.0 ==> Times(x, y) > 0.0
    ensures x == 0.0 ==> Times(x, y) == 0.0
  {
  }

  lemma SquareSign(x: real)
    ensures Square(x) >= 0.0 && (x != 0.0 ==> Square(x) > 0.0)
  {
    hide Times;
    TimesSign(x, x);
  }

  /** n times the sum of squares less the squared sum. */
  function Spread(q: real, s: real, n: real): real {
    n * q - s * s
  }

  lemma SpreadStep(q: real, s: real, n: real, q': real, s': real, n': real, y: real)
    requires q' == q + y * y && s' == s + y && n' == n + 1.0
    ensures Spread(q', s', n') == Spread(q, s, n) + Expanded(q, s, n, y)
  {
  }

  /** The spread is positive unless all elements are equal. */
  lemma {:induction false} SpreadPositive(l: seq<real>)
    ensures Spread(SumSquares(l), Sum(l), |l| as real) >= 0.0
    ensures (exists i, j :: 0 <= i < j < |l| && l[i] != l[j]) ==> Spread(SumSquares(l), Sum(l), |l| as real) > 0.0
  {
    hide Distance, Expanded, Spread;
    if l == [] {
      assert Spread(0.0, 0.0, 0.0) == 0.0 by { SpreadZero(); }
    } else {
      var n, y := |l| - 1, l[|l| - 1];
      SpreadPositive(l[..n]);
      DistanceExpands(l[..n], y);
      DistancePositive(l[..n], y);
      SpreadStep(SumSquares(l[..n]), Sum(l[..n]), n as real, SumSquares(l), Sum(l), |l| as real, y);
      if exists i, j :: 0 <= i < j < |l| && l[i] != l[j] {
        var i, j :| 0 <= i < j < |l| && l[i] != l[j];
        if j < n {
          assert l[..n][i] != l[..n][j];
        } else {
          assert l[..n][i] != y;
        }
      }
    }
  }

  lemma SpreadZero()
    ensures Spread(0.0, 0.0, 0.0) == 0.0
  {
  }

  lemma VarianceFromSpread(q: real, s: real, n: real)
    requires n > 0.0
    ensures (q - s * s * (1.0 / n)) * (1.0 / n) * (n * n) == Spread(q, s, n)
  {
    var v := 1.0 / n;
    assert v * n == 1.0;
    assert (q - s * s * v) * v * (n * n) == (q - s * s * v) * n * (v * n);
    assert (q - s * s * v) * n == q * n - s * s * (v * n);
  }

  lemma SignOfProduct(x: real, y: real)
    requires y > 0.0
    ensures x * y > 0.0 <==> x > 0.0
    ensures x * y < 0.0 <==> x < 0.0
  {
  }

  /** The variance is never negative, and positive when two likelihoods differ. */
  lemma VarianceSign(l: seq<real>)
    requires |l| > 0
    ensures Variance(l) >= 0.0
    ensures (exists i, j :: 0 <= i < j < |l| && l[i] != l[j]) ==> Variance(l) > 0.0
  {
    hide Spread, Sum, SumSquares;
    var n := |l| as real;
    SpreadPositive(l);
    VarianceFromSpread(SumSquares(l), Sum(l), n);
    SignOfProduct(Variance(l), n * n);
  }

  /** The variance is the mean squared distance from the mean. */
  lemma VarianceIsMeanSquare(l: seq<real>)
    requires |l| > 0
    ensures Variance(l) == Distance(l, Sum(l) / |l| as real) / |l| as real
  {
    hide Distance, Sum, SumSquares;
    DistanceExpands(l, Sum(l) / |l| as real);
    MeanSquare(SumSquares(l), Sum(l), |l| as real);
  }

  lemma MeanSquare(q: real, s: real, n: real)
    requires n > 0.0
    ensures (q - s * s * (1.0 / n)) * (1.0 / n) == Expanded(q, s, n, s / n) / n
  {
    var v := 1.0 / n;
    assert v * n == 1.0;
    var y := s / n;
    assert y == s * v;
    assert y * s == s * s * v;
    assert n * (y * y) == (n * v) * (s * y);
    var e := Expanded(q, s, n, y);
    assert e == q - s * s * v;
    assert e / n == e * v;
  }

  lemma {:induction false} ScaledSums(l: seq<real>, factor: real)
    ensures Sum(Scale(l, factor)) == Times(factor, Sum(l))
    ensures SumSquares(Scale(l, factor)) == Times(Square(factor), SumSquares(l))
  {
    hide Scale, Times, Square, Sum, SumSquares;
    var n := |l| - 1;
    if l == [] {
      NoSums();
      ScaledStep(0.0, 0.0, 0.0, 0.0, factor);
    } else {
      ScaledSums(l[..n], factor);
      ScaledSlice(l, factor);
      var x := Scale(l, factor)[n];
      SumsStep(l);
      SumsStep(Scale(l, factor));
      ScaledStep(Sum(l[..n]), SumSquares(l[..n]), l[n], x, factor);
    }
  }

  lemma NoSums()
    ensures Sum([]) == 0.0 && SumSquares([]) == 0.0
  {
  }

  lemma SumsStep(l: seq<real>)
    requires l != []
    ensures var n, x := |l| - 1, l[|l| - 1];
            Sum(l) == Sum(l[..n]) + x && SumSquares(l) == SumSquares(l[..n]) + Square(x)
  {
  }

  lemma ScaledSlice(l: seq<real>, factor: real)
    requires l != []
    ensures Scale(l, factor)[..|l| - 1] == Scale(l[..|l| - 1], factor)
    ensures Scale(l, factor)[|l| - 1] == l[|l| - 1] * factor
  {
    hide Scale;
    forall i | 0 <= i < |l| - 1
      ensures Scale(l, factor)[i] == Scale(l[..|l| - 1], factor)[i]
    {
      assert l[..|l| - 1][i] == l[i];
    }
  }

  lemma ScaledStep(s: real, q: real, x: real, y: real, factor: real)
    requires y == x * factor
    ensures Times(factor, 0.0) == 0.0 && Times(Square(factor), 0.0) == 0.0
    ensures Times(factor, s) + y == Times(factor, s + x)
    ensures Times(Square(factor), q) + Square(y) == Times(Square(factor), q + Square(x))
  {
    assert (x * factor) * (x * factor) == (factor * factor) * (x * x);
  }

  /** Scaling the likelihoods scales their variance by the square: a factor whose square times the variance is 24, as
      the source chooses it, leaves a variance of 24. */
  lemma NormalizedVariance(l: seq<real>, factor: real)
    requires |l| > 0
    ensures Variance(Scale(l, factor)) == Times(Square(factor), Variance(l))
    ensures Times(Square(factor), Variance(l)) == 24.0 ==> Variance(Scale(l, factor)) == 24.0
  {
    hide Sum, SumSquares, Scale;
    ScaledSums(l, factor);
    ScaledSpread(SumSquares(l), Sum(l), 1.0 / |l| as real, factor);
  }

  lemma ScaledSpread(q: real, s: real, v: real, factor: real)
    ensures (Times(Square(factor), q) - Times(factor, s) * Times(factor, s) * v) * v ==
            Times(Square(factor), (q - s * s * v) * v)
  {
    var g := factor * factor;
    assert (factor * s) * (factor * s) == g * (s * s);
    assert g * (s * s) * v == g * (s * s * v);
    assert (g * q - g * (s * s * v)) * v == g * ((q - s * s * v) * v);
  }

  // ----- decoding a clean reception -----

  ghost predicate PositiveAbove(norm: real -> real, low: real) {
    forall v :: v > low ==> norm(v) > 0.0
  }

  lemma ScaleKeepsPointing(l: seq<real>, bits: seq<bool>, factor: real)
    requires AllPoint(l, bits) && factor > 0.0
    ensures AllPoint(Scale(l, factor), bits)
  {
    forall i | 0 <= i < |l|
      ensures Points(Scale(l, factor)[i], bits[i])
    {
      SignOfProduct(l[i], factor);
    }
  }

  /** Likelihoods that point to a word are first decided to that word. */
  lemma FirstGuess(f: Tanh, l: seq<real>, bits: seq<bool>)
    requires |l| == N && AllPoint(l, bits)
    ensures Guess(f, l, 0) == bits
  {
    forall i | 0 <= i < N
      ensures Guess(f, l, 0)[i] == bits[i]
    {
      assert Points(l[i], bits[i]);
    }
  }

  /** A nonzero codeword that all likelihoods point to is decoded in the first iteration. */
  lemma DecodesPointedWord(f: Tanh, l: seq<real>, code: seq<bool>, maxIters: nat)
    requires |l| == N && AllPoint(l, code) && maxIters > 0
    requires IsCodeword(code) && !AllFalse(code)
    ensures Decoded(f, l, maxIters) == code
    ensures LeastFailures(f, l, Tested(f, l, maxIters)) == 0
  {
    hide IsCodeword, AllFalse, AllPoint, Guess, LeastFailures;
    FirstGuess(f, l, code);
    assert Stops(f, l, 0);
    ZeroErrorsIffCodeword(f, l, maxIters);
  }

  /** A codeword of a nonzero payload has a one and a zero in it. */
  lemma SentIsMixed(payload: seq<bool>)
    requires |payload| == 77 && !AllFalse(payload)
    ensures IsCodeword(Sent(payload)) && !AllFalse(Sent(payload))
    ensures exists i, j :: 0 <= i < N && 0 <= j < N && Sent(payload)[i] && !Sent(payload)[j]
  {
    hide Dot, IsCodeword, CrcOf;
    var code := Sent(payload);
    EncodedIsCodeword(WithCrc(payload));
    AllOnesIsNoCodeword(code);
    var i :| 0 <= i < 77 && payload[i];
    assert code[..K][i] == payload[i];
    var j :| 0 <= j < N && !code[j];
    assert code[i] && !code[j];
  }

  lemma PointedVariance(l: seq<real>, bits: seq<bool>, i: nat, j: nat)
    requires AllPoint(l, bits) && i < |l| && j < |l| && bits[i] && !bits[j]
    ensures Variance(l) > 0.0
  {
    hide Variance;
    VarianceSign(l);
    assert Points(l[i], true) && Points(l[j], false);
    if i < j {
      assert l[i] != l[j];
    } else {
      assert l[j] != l[i];
    }
  }

  /** Without noise, every nonzero payload is accepted: for any real functions in place of tanh and atanh, any
      normalisation that is positive on positive variances, and any iteration count. */
  lemma CleanReceptionAccepts(f: Tanh, norm: real -> real, wf: Waterfall, c: Candidate, maxIters: nat,
                              payload: seq<bool>)
    requires wf.Valid() && c.Fits(wf) && maxIters > 0 && PositiveAbove(norm, 0.0)
    requires |payload| == 77 && !AllFalse(payload)
    requires Clean(wf, c, Tones(wf.protocol, Sent(payload)))
    ensures Outcomes(f, norm, wf, c, maxIters) == Accepted(payload)
  {
    hide IsCodeword, AllFalse, AllPoint, Clean, Tones, Sent, Likelihood, Scale, Variance, Decoded, LeastFailures,
         Tested;
    var code, raw := Sent(payload), Likelihoods(wf, c);
    CleanPrefix(wf, c, code, if wf.protocol == FT4 then FT4_ND else FT8_ND);
    assert code[..N] == code;
    SentIsMixed(payload);
    var i, j :| 0 <= i < N && 0 <= j < N && code[i] && !code[j];
    PointedVariance(raw, code, i, j);
    var factor := norm(Variance(raw));
    ScaleKeepsPointing(raw, code, factor);
    DecodesPointedWord(f, Scale(raw, factor), code, maxIters);
    SentPrefix(payload);
  }

  lemma SentPrefix(payload: seq<bool>)
    requires |payload| == 77
    ensures Sent(payload)[..K] == WithCrc(payload) && Sent(payload)[..77] == payload
  {
    assert Sent(payload)[..77] == Sent(payload)[..K][..77];
  }

  // ----- the transmission of bytes -----

  /** A payload of 77 bits in ten bytes: the last three bits are clear. */
  predicate IsPayload(payload: seq<Byte>) {
    |payload| == 10 && AllFalse(BitsOf(payload)[77..])
  }

  lemma WhitenKeepsSpare(payload: seq<Byte>)
    requires IsPayload(payload)
    ensures IsPayload(Whiten(payload))
  {
    var w := Whiten(payload);
    forall i | 77 <= i < 80
      ensures !BitsOf(w)[i]
    {
      BitsOfAt(payload, i);
      BitsOfAt(w, i);
      assert !BitsOf(payload)[77..][i - 77];
      SpareWhitened(payload[9]);
    }
  }

  lemma SpareWhitened(b: Byte)
    ensures (b ^ 0x28) & 0x04 == b & 0x04 && (b ^ 0x28) & 0x02 == b & 0x02 && (b ^ 0x28) & 0x01 == b & 0x01
  {
  }

  /** The payload bytes that come out are the ones that went in, under both protocols. */
  lemma DeliveredIsSent(protocol: Protocol, sent: seq<Byte>, received: seq<Byte>)
    requires IsPayload(sent) && |received| == 10
    requires BitsOf(OnAir(protocol, received)) == BitsOf(OnAir(protocol, sent))[..77] + Zeros(3)
    ensures received == sent
  {
    hide BitsOf;
    var air := OnAir(protocol, sent);
    WhitenKeepsSpare(sent);
    assert AllFalse(BitsOf(air)[77..]);
    assert BitsOf(air) == BitsOf(air)[..77] + Zeros(3);
    BitsOfInjective(OnAir(protocol, received), air);
    if protocol == FT4 {
      WhitenTwice(sent);
      WhitenTwice(received);
    }
  }

  lemma {:induction false} FeedZeros(bits: seq<bool>)
    requires AllFalse(bits)
    ensures FeedAll(Zeros(14), bits) == Zeros(14)
    decreases |bits|
  {
    if bits != [] {
      assert Feed(Zeros(14), bits[0]) == Zeros(14);
      FeedZeros(bits[1..]);
    }
  }

  /** The all-zero payload has the all-zero codeword. */
  lemma SentZero(payload: seq<bool>)
    requires |payload| == 77 && AllFalse(payload)
    ensures AllFalse(Sent(payload))
  {
    hide Dot, FeedAll;
    FeedZeros(payload + Zeros(5));
    forall i | 0 <= i < M
      ensures !Dot(WithCrc(payload), Constants.Generator(i))
    {
      DotOfClear(WithCrc(payload), Constants.Generator(i));
    }
  }

  /** The all-zero payload is prohibited: received without noise it is still rejected, as long as the
      normalisation keeps the signs (in the source the factor is +infinity when the variance is 0). */
  lemma ZeroPayloadRejected(f: Tanh, norm: real -> real, wf: Waterfall, c: Candidate, maxIters: nat, payload: seq<bool>)
    requires wf.Valid() && c.Fits(wf) && maxIters > 0 && PositiveAbove(norm, 0.0) && norm(0.0) > 0.0
    requires |payload| == 77 && AllFalse(payload)
    requires Clean(wf, c, Tones(wf.protocol, Sent(payload)))
    ensures Outcomes(f, norm, wf, c, maxIters) == Rejected
  {
    hide IsCodeword, AllPoint, Clean, Tones, Sent, Likelihood, Scale, Variance, LeastFailures, Tested, Guess;
    var code, raw := Sent(payload), Likelihoods(wf, c);
    CleanPrefix(wf, c, code, if wf.protocol == FT4 then FT4_ND else FT8_ND);
    assert code[..N] == code;
    VarianceSign(raw);
    var l := Scale(raw, norm(Variance(raw)));
    ScaleKeepsPointing(raw, code, norm(Variance(raw)));
    SentZero(payload);
    FirstGuess(f, l, code);
    assert Stops(f, l, 0) && AllFalse(Decoded(f, l, maxIters));
    ZeroErrorsIffCodeword(f, l, maxIters);
  }

  lemma {:induction false} NothingRecorded(wf: Waterfall, c: Candidate, n: nat)
    requires wf.Valid() && c.Fits(wf) && n <= if wf.protocol == FT4 then FT4_ND else FT8_ND
    requires forall sym: nat :: sym < FT4_NN ==> !Recorded(wf, c, sym)
    ensures forall i :: 0 <= i < |Likelihood(wf, c, n)| ==> Likelihood(wf, c, n)[i] == 0.0
  {
    if n > 0 {
      NothingRecorded(wf, c, n - 1);
      assert !Recorded(wf, c, if wf.protocol == FT4 then DataSymbol4(n - 1) else DataSymbol8(n - 1));
    }
  }

  /** A candidate of which nothing was recorded has no likelihoods either way and is rejected. */
  lemma UnrecordedRejected(f: Tanh, norm: real -> real, wf: Waterfall, c: Candidate, maxIters: nat)
    requires wf.Valid() && c.Fits(wf) && maxIters > 0
    requires forall sym: nat :: sym < FT4_NN ==> !Recorded(wf, c, sym)
    ensures forall i :: 0 <= i < N ==> Likelihoods(wf, c)[i] == 0.0
    ensures Outcomes(f, norm, wf, c, maxIters) == Rejected
  {
    hide IsCodeword, Likelihood, Variance, LeastFailures, Tested, Guess, Recorded;
    NothingRecorded(wf, c, if wf.protocol == FT4 then FT4_ND else FT8_ND);
    var raw := Likelihoods(wf, c);
    var l := Scale(raw, norm(Variance(raw)));
    forall i | 0 <= i < N
      ensures l[i] == 0.0
    {
      assert l[i] == raw[i] * norm(Variance(raw));
    }
    SilentGuess(f, l);
    assert Stops(f, l, 0) && AllFalse(Decoded(f, l, maxIters));
    ZeroErrorsIffCodeword(f, l, maxIters);
  }

  lemma SilentGuess(f: Tanh, l: seq<real>)
    requires |l| == N && forall i :: 0 <= i < N ==> l[i] == 0.0
    ensures AllFalse(Guess(f, l, 0))
  {
  }

  /** Whatever is accepted, noise or not: the decoded word is a nonzero codeword that starts with the
      payload and its CRC, payload and CRC together are a multiple of the CRC polynomial, and the word is what the
      payload would have been sent as. */
  lemma AcceptedIsChecked(f: Tanh, norm: real -> real, wf: Waterfall, c: Candidate, maxIters: nat, payload: seq<bool>)
    returns (word: seq<bool>)
    requires wf.Valid() && c.Fits(wf) && maxIters > 0
    requires Outcomes(f, norm, wf, c, maxIters) == Accepted(payload)
    ensures |payload| == 77 && |word| == N && IsCodeword(word) && !AllFalse(word)
    ensures word[..77] == payload && IsMultiple(payload + Zeros(5) + word[77..91])
    ensures word == Sent(payload) && !AllFalse(payload)
  {
    hide IsCodeword, Codeword, Likelihoods, Scale, Variance, LeastFailures, Tested, Guess, Decoded, CrcOf, AllFalse;
    var raw := Likelihoods(wf, c);
    var l := Scale(raw, norm(Variance(raw)));
    word := Decoded(f, l, maxIters);
    ZeroErrorsIffCodeword(f, l, maxIters);
    assert word[..K][77..] == word[77..91] && WithCrc(payload)[77..] == CrcOf(payload + Zeros(5));
    CrcIsRemainder(payload + Zeros(5), word[77..91]);
    AcceptedWord(word, payload);
  }

  /** The word that belief propagation decides on. */
  function DecodedWord(f: Tanh, norm: real -> real, wf: Waterfall, c: Candidate, maxIters: nat): (word: seq<bool>)
    requires wf.Valid() && c.Fits(wf) && maxIters > 0
    ensures |word| == N
  {
    var raw := Likelihoods(wf, c);
    Decoded(f, Scale(raw, norm(Variance(raw))), maxIters)
  }

  /** With any noise, a payload is accepted exactly when the decoded word is what that payload, not all zero, would
      have been sent as. */
  lemma AcceptedExactly(f: Tanh, norm: real -> real, wf: Waterfall, c: Candidate, maxIters: nat, payload: seq<bool>)
    requires wf.Valid() && c.Fits(wf) && maxIters > 0 && |payload| == 77
    ensures Outcomes(f, norm, wf, c, maxIters) == Accepted(payload) <==>
            DecodedWord(f, norm, wf, c, maxIters) == Sent(payload) && !AllFalse(payload)
  {
    hide IsCodeword, Codeword, Likelihoods, Scale, Variance, LeastFailures, Tested, Guess, Decoded, CrcOf, AllFalse,
         Sent;
    var raw := Likelihoods(wf, c);
    var l := Scale(raw, norm(Variance(raw)));
    ZeroErrorsIffCodeword(f, l, maxIters);
    SentPrefix(payload);
    if Outcomes(f, norm, wf, c, maxIters) == Accepted(payload) {
      AcceptedWord(Decoded(f, l, maxIters), payload);
    } else if !AllFalse(payload) {
      SentIsMixed(payload);
    }
  }

  /** A nonzero codeword that starts with a payload and its CRC is the word the payload is sent as. */
  lemma AcceptedWord(word: seq<bool>, payload: seq<bool>)
    requires |word| == N && |payload| == 77 && IsCodeword(word) && !AllFalse(word) && word[..K] == WithCrc(payload)
    ensures word == Sent(payload) && !AllFalse(payload)
  {
    hide IsCodeword, Codeword, AllFalse;
    CodewordsAreEncoded(word);
    if AllFalse(payload) {
      SentZero(payload);
    }
  }
}
