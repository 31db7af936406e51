/** What the messages of belief propagation say: their signs, their exact values, and how they set one wrong bit
    right. */
module MessagePassing {
  import opened Bits
  import opened Constants
  import opened LdpcCode
  import opened LdpcGraph
  import opened BeliefPropagation
  import opened Waterfalls
  import opened Encoder
  import opened Decoder
  import opened Reception

  // ----- functions that keep the sign -----

  function Power(x: real, n: nat): real {
    if n == 0 then 1.0 else Times(Power(x, n - 1), x)
  }

  predicate TanhSign(f: Tanh, bound: real, x: real) {
    (x > 0.0 ==> 0.0 < f.tanh(x) <= bound) && (x < 0.0 ==> -bound <= f.tanh(x) < 0.0)
  }

  predicate AtanhSign(f: Tanh, limit: real, x: real) {
    (0.0 < x <= limit ==> f.atanh(x) > 0.0) && (-limit <= x < 0.0 ==> f.atanh(x) < 0.0)
  }

  /** tanh keeps the sign and stays within a bound, and atanh keeps the sign of products of up to six such values. */
  ghost predicate KeepsSign(f: Tanh, bound: real) {
    bound >= 1.0 && (forall x :: TanhSign(f, bound, x)) && forall x :: AtanhSign(f, Power(bound, 6), x)
  }

  /** A message that does not point away from its bit. */
  predicate Leans(x: real, bit: bool) {
    if bit then x >= 0.0 else x <= 0.0
  }

  /** The likelihood of bit n points to what was heard, and no message to it points away. */
  predicate BitPoints(l: seq<real>, tov: Messages, heard: seq<bool>, n: nat)
    requires |l| == |heard| == N && n < N
  {
    Points(l[n], heard[n]) && Leans(tov[n].t0, heard[n]) && Leans(tov[n].t1, heard[n]) && Leans(tov[n].t2, heard[n])
  }

  lemma {:induction false} ExtrinsicPoints(l: seq<real>, tov: Messages, heard: seq<bool>, m: nat, n: nat, k: nat)
    requires |l| == |heard| == N && n < N && k <= 3 && BitPoints(l, tov, heard, n)
    ensures Points(Extrinsic(l, tov, m, n, k), heard[n])
  {
    hide BitRow;
    if k > 0 {
      ExtrinsicPoints(l, tov, heard, m, n, k - 1);
    }
  }

  /** The j-th bit of check m tells the check, within the bound, minus the sign of what was heard. */
  predicate Tells(f: Tanh, bound: real, l: seq<real>, tov: Messages, heard: seq<bool>, m: nat, j: nat)
    requires |l| == |heard| == N && m < M && j < NumRows(m)
  {
    NumRowsCountsEntries(m);
    var told := ToCheck(f, l, tov, m, j);
    Points(-told, heard[CheckRow(m).Entry(j) - 1]) && -bound <= told <= bound
  }

  lemma ToCheckTells(f: Tanh, bound: real, l: seq<real>, tov: Messages, heard: seq<bool>, m: nat, j: nat, n: nat)
    requires |l| == |heard| == N && m < M && n < N && j < NumRows(m) && EntryIs(CheckRow(m), j, n)
    requires KeepsSign(f, bound) && BitPoints(l, tov, heard, n)
    ensures Tells(f, bound, l, tov, heard, m, j)
  {
    hide CheckRow, BitRow, NumRows, Extrinsic, BitPoints, Power;
    NumRowsCountsEntries(m);
    ExtrinsicPoints(l, tov, heard, m, n, 3);
    assert TanhSign(f, bound, -Extrinsic(l, tov, m, n, 3) / 2.0);
  }

  lemma SignStep(p: real, q: real, u: bool, v: bool, most: real, bound: real)
    requires Points(-p, u) && Points(-q, v) && -most <= p <= most && -bound <= q <= bound
    ensures Points(-Times(p, q), u != v) && -Times(most, bound) <= Times(p, q) <= Times(most, bound)
  {
    var a, b := if p < 0.0 then -p else p, if q < 0.0 then -q else q;
    TimesSign(a, b);
    TimesMonotone(a, b, most, bound);
    if (p < 0.0) == (q < 0.0) {
      assert Times(p, q) == Times(a, b);
    } else {
      assert Times(p, q) == -Times(a, b);
    }
  }

  lemma TimesMonotone(a: real, b: real, most: real, bound: real)
    requires 0.0 <= a <= most && 0.0 <= b <= bound
    ensures Times(a, b) <= Times(most, bound)
  {
    assert a * b <= most * b;
    assert most * b <= most * bound;
  }

  /** The product over the first j bits of a check that names bit n at place jn has the sign of the sum of what was
      heard from them. */
  lemma {:induction false} ProductSign(f: Tanh, bound: real, l: seq<real>, tov: Messages, heard: seq<bool>, m: nat,
                                       n: nat, jn: nat, j: nat)
    requires |l| == |heard| == N && m < M && n < N && jn < NumRows(m) && j <= NumRows(m) && bound >= 1.0
    requires forall i :: 0 <= i < NumRows(m) ==> (EntryIs(CheckRow(m), i, n) <==> i == jn)
    requires forall i :: 0 <= i < NumRows(m) && i != jn ==> Tells(f, bound, l, tov, heard, m, i)
    ensures NumRows(m) == 7 ==> CheckRow(m).n6 != 0
    ensures Points(-Product(f, l, tov, m, n, j), RowParity(heard, CheckRow(m), j) != (jn < j && heard[n]))
    ensures var most := Power(bound, if jn < j then j - 1 else j);
            -most <= Product(f, l, tov, m, n, j) <= most
  {
    hide CheckRow, NumRows, ToCheck, Product, RowParity, Points;
    NumRowsCountsEntries(m);
    ProductSteps(f, l, tov, m, n, j);
    ParitySteps(heard, CheckRow(m), j);
    if j == 0 {
      assert Points(-1.0, false) by { PointsZero(); }
    } else {
      var i := j - 1;
      ProductSign(f, bound, l, tov, heard, m, n, jn, i);
      assert EntryIs(CheckRow(m), i, n) <==> i == jn;
      if i != jn {
        assert Tells(f, bound, l, tov, heard, m, i);
        SignStep(Product(f, l, tov, m, n, i), ToCheck(f, l, tov, m, i),
                 RowParity(heard, CheckRow(m), i) != (jn < i && heard[n]), heard[CheckRow(m).Entry(i) - 1],
                 Power(bound, if jn < i then i - 1 else i), bound);
      }
    }
  }

  lemma PointsZero()
    ensures Points(-1.0, false)
  {
  }

  lemma ProductSteps(f: Tanh, l: seq<real>, tov: Messages, m: nat, n: nat, j: nat)
    requires |l| == N && m < M && j <= NumRows(m)
    ensures j == 0 ==> Product(f, l, tov, m, n, j) == 1.0
    ensures j > 0 ==>
              Product(f, l, tov, m, n, j) ==
              if EntryIs(CheckRow(m), j - 1, n) then Product(f, l, tov, m, n, j - 1)
              else Times(Product(f, l, tov, m, n, j - 1), ToCheck(f, l, tov, m, j - 1))
  {
    hide CheckRow, NumRows, ToCheck;
  }

  lemma ParitySteps(code: seq<bool>, c: Check, j: nat)
    requires |code| == N && j <= 7 && c.InRange() && (j == 7 ==> c.n6 != 0)
    ensures j == 0 ==> !RowParity(code, c, j)
    ensures j > 0 ==> RowParity(code, c, j) == (RowParity(code, c, j - 1) != code[c.Entry(j - 1) - 1])
  {
  }

  lemma {:induction false} PowerGrows(x: real, i: nat, n: nat)
    requires x >= 1.0 && i <= n
    ensures 1.0 <= Power(x, i) <= Power(x, n)
    decreases n
  {
    if i < n {
      PowerGrows(x, i, n - 1);
      TimesMonotone(Power(x, n - 1), 1.0, Power(x, n - 1), x);
    } else if n > 0 {
      PowerGrows(x, n - 1, n - 1);
      TimesMonotone(1.0, 1.0, Power(x, n - 1), x);
    }
  }

  /** What a check that heard certain bits tells one of them: that bit as it was heard when the check holds, and the
      opposite when it fails. */
  function Answer(heard: seq<bool>, m: nat, n: nat): bool
    requires |heard| == N && m < M && n < N
  {
    Passes(heard, m) == heard[n]
  }

  /** All bits of check m other than n point to what was heard. */
  predicate OthersPoint(l: seq<real>, tov: Messages, heard: seq<bool>, m: nat, n: nat)
    requires |l| == |heard| == N && m < M
  {
    forall i :: 0 <= i < N && i != n && InCheck(m, i) ==> BitPoints(l, tov, heard, i)
  }

  /** A check tells a bit the value that would make the check hold, whatever the bit itself says. */
  lemma MessageIsAnswer(f: Tanh, bound: real, l: seq<real>, tov: Messages, heard: seq<bool>, n: nat, k: nat)
    requires |l| == |heard| == N && n < N && k < 3 && KeepsSign(f, bound)
    requires OthersPoint(l, tov, heard, BitRow(n).Entry(k) - 1, n)
    ensures Points(ToBit(f, l, tov, n, k), Answer(heard, BitRow(n).Entry(k) - 1, n))
  {
    hide CheckRow, BitRow, NumRows, ToCheck, BitPoints, Product, RowParity, Power, InCheck;
    var m := BitRow(n).Entry(k) - 1;
    assert BitEntryIs(BitRow(n), k, m);
    var jn := OneFactorLeftOut(n, m);
    forall i | 0 <= i < NumRows(m) && i != jn
      ensures Tells(f, bound, l, tov, heard, m, i)
    {
      OtherTells(f, bound, l, tov, heard, m, n, i);
    }
    ProductSign(f, bound, l, tov, heard, m, n, jn, NumRows(m));
    PowerGrows(bound, NumRows(m) - 1, 6);
    assert AtanhSign(f, Power(bound, 6), Product(f, l, tov, m, n, NumRows(m)));
  }

  lemma OtherTells(f: Tanh, bound: real, l: seq<real>, tov: Messages, heard: seq<bool>, m: nat, n: nat, j: nat)
    requires |l| == |heard| == N && m < M && n < N && j < NumRows(m) && KeepsSign(f, bound)
    requires OthersPoint(l, tov, heard, m, n) && !EntryIs(CheckRow(m), j, n)
    ensures Tells(f, bound, l, tov, heard, m, j)
  {
    hide CheckRow, NumRows, BitPoints, Power, Tells;
    NumRowsCountsEntries(m);
    var i := CheckRow(m).Entry(j) - 1;
    assert EntryIs(CheckRow(m), j, i);
    assert InCheck(m, i);
    ToCheckTells(f, bound, l, tov, heard, m, j, i);
  }

  // ----- messages to the bits of a codeword -----

  predicate TriplePoints(t: Triple, bit: bool) {
    Points(t.t0, bit) && Points(t.t1, bit) && Points(t.t2, bit)
  }

  /** When all that other bits go by points to a codeword, everything bit n is told next points to its bit,
      whatever bit n goes by itself. */
  lemma CodewordTells(f: Tanh, bound: real, l: seq<real>, tov: Messages, code: seq<bool>, n: nat)
    requires |l| == |code| == N && n < N && KeepsSign(f, bound) && IsCodeword(code)
    requires forall i :: 0 <= i < N && i != n ==> BitPoints(l, tov, code, i)
    ensures TriplePoints(Next(f, l, tov)[n], code[n])
  {
    hide Passes, BitPoints, ToBit, Points, BitRow, CheckRow, Power, InCheck;
    MessageIsAnswer(f, bound, l, tov, code, n, 0);
    MessageIsAnswer(f, bound, l, tov, code, n, 1);
    MessageIsAnswer(f, bound, l, tov, code, n, 2);
  }

  /** Likelihoods that point to a codeword have all messages of every iteration point to it, and every guess be it. */
  lemma {:induction false} AgreementLasts(f: Tanh, bound: real, l: seq<real>, code: seq<bool>, k: nat)
    requires |l| == |code| == N && KeepsSign(f, bound) && IsCodeword(code) && AllPoint(l, code)
    ensures k > 0 ==> forall n :: 0 <= n < N ==> TriplePoints(After(f, l, k)[n], code[n])
    ensures forall n :: 0 <= n < N ==> BitPoints(l, After(f, l, k), code, n)
    ensures Guess(f, l, k) == code
  {
    hide IsCodeword, Next, Power, KeepsSign;
    if k > 0 {
      AgreementLasts(f, bound, l, code, k - 1);
      forall n | 0 <= n < N
        ensures TriplePoints(After(f, l, k)[n], code[n])
      {
        CodewordTells(f, bound, l, After(f, l, k - 1), code, n);
      }
    }
    forall n | 0 <= n < N
      ensures BitPoints(l, After(f, l, k), code, n) && Guess(f, l, k)[n] == code[n]
    {
      assert Points(l[n], code[n]);
    }
  }

  /** With everything else pointing to a codeword, a bit whose likelihood points the other way is decided right
      exactly when the three messages it gets outweigh that likelihood; a tie is decided 0. */
  lemma ReversedBitDecided(f: Tanh, bound: real, l: seq<real>, tov: Messages, code: seq<bool>, n: nat)
    requires |l| == |code| == N && n < N && KeepsSign(f, bound) && IsCodeword(code)
    requires Points(l[n], !code[n]) && forall i :: 0 <= i < N && i != n ==> BitPoints(l, tov, code, i)
    ensures var t := Next(f, l, tov)[n];
            Decide(l, Next(f, l, tov))[n] == code[n] <==>
            Outweighs(Abs(t.t0) + Abs(t.t1) + Abs(t.t2), Abs(l[n]), code[n])
  {
    hide IsCodeword, Next, BitPoints, Power, KeepsSign;
    CodewordTells(f, bound, l, tov, code, n);
  }

  function Abs(x: real): real {
    if x < 0.0 then -x else x
  }

  /** What speaks for a bit prevails: a one needs the greater weight, a zero no less. */
  predicate Outweighs(pro: real, con: real, bit: bool) {
    if bit then pro > con else pro >= con
  }

  // ----- one reversed bit -----

  /** The word with one bit reversed. */
  function Reversed(code: seq<bool>, e: nat): (r: seq<bool>)
    requires |code| == N && e < N
    ensures |r| == N
  {
    code[e := !code[e]]
  }

  /** The first j bits of a check that names bit e at place je sum to the opposite once bit e is among them. */
  lemma {:induction false} ReversedParity(code: seq<bool>, e: nat, c: Check, je: nat, j: nat)
    requires |code| == N && e < N && c.InRange() && je <= 7 && j <= 7 && (j == 7 ==> c.n6 != 0)
    requires forall i :: 0 <= i < j ==> (EntryIs(c, i, e) <==> i == je)
    ensures RowParity(Reversed(code, e), c, j) == (RowParity(code, c, j) != (je < j))
  {
    ParitySteps(code, c, j);
    ParitySteps(Reversed(code, e), c, j);
    if j > 0 {
      ReversedParity(code, e, c, je, j - 1);
      assert EntryIs(c, j - 1, e) <==> j - 1 == je;
    }
  }

  /** Exactly the checks that name the reversed bit fail. */
  lemma ReversedFails(code: seq<bool>, e: nat, m: nat)
    requires |code| == N && IsCodeword(code) && e < N && m < M
    ensures Passes(Reversed(code, e), m) <==> !InCheck(m, e)
  {
    hide CheckRow, NumRows, RowParity, Reversed;
    NumRowsCountsEntries(m);
    assert Passes(code, m);
    var je := 7;
    if InCheck(m, e) {
      TablesTransposed(m, e);
      je := OneFactorLeftOut(e, m);
    }
    ReversedParity(code, e, CheckRow(m), je, NumRows(m));
  }

  /** A codeword with one bit reversed is neither a codeword nor all zeros. */
  lemma ReversedIsNoCodeword(code: seq<bool>, e: nat)
    requires |code| == N && IsCodeword(code) && e < N
    ensures !IsCodeword(Reversed(code, e)) && !AllFalse(Reversed(code, e))
  {
    hide CheckRow, BitRow, NumRows, RowParity, Passes, Reversed;
    var m := BitRow(e).Entry(0) - 1;
    assert BitEntryIs(BitRow(e), 0, m);
    TablesTransposed(m, e);
    ReversedFails(code, e, m);
    if AllFalse(Reversed(code, e)) {
      ZeroPasses(Reversed(code, e), m);
    }
  }

  lemma ZeroPasses(zero: seq<bool>, m: nat)
    requires |zero| == N && AllFalse(zero) && m < M
    ensures Passes(zero, m)
  {
    hide CheckRow, NumRows, RowParity;
    NumRowsCountsEntries(m);
    ZeroParity(zero, CheckRow(m), NumRows(m));
  }

  lemma {:induction false} ZeroParity(zero: seq<bool>, c: Check, j: nat)
    requires |zero| == N && AllFalse(zero) && j <= 7 && c.InRange() && (j == 7 ==> c.n6 != 0)
    ensures !RowParity(zero, c, j)
  {
    if j > 0 {
      ZeroParity(zero, c, j - 1);
    }
  }

  /** The k-th check of bit n names bit e too. */
  predicate Shares(n: nat, k: nat, e: nat)
    requires n < N && k < 3
  {
    InCheck(BitRow(n).Entry(k) - 1, e)
  }

  /** What bit n should be told by its k-th check after bit e was heard reversed: its own bit, but the opposite by a
      check that names bit e too, unless n is that bit. */
  function FirstAnswer(code: seq<bool>, e: nat, n: nat, k: nat): bool
    requires |code| == N && n < N && k < 3
  {
    code[n] != (n != e && Shares(n, k, e))
  }

  /** The messages of the first iteration when the likelihoods point to a codeword with bit e reversed. */
  lemma FirstMessages(f: Tanh, bound: real, l: seq<real>, code: seq<bool>, e: nat, n: nat, k: nat)
    requires |l| == |code| == N && KeepsSign(f, bound) && IsCodeword(code) && e < N && n < N && k < 3
    requires AllPoint(l, Reversed(code, e))
    ensures Points(After(f, l, 1)[n].Entry(k), FirstAnswer(code, e, n, k))
  {
    hide BitRow, IsCodeword, Passes, ToBit, Power, KeepsSign, InCheck;
    var heard, tov, m := Reversed(code, e), NoMessages(), BitRow(n).Entry(k) - 1;
    forall i | 0 <= i < N
      ensures BitPoints(l, tov, heard, i)
    {
      assert Points(l[i], heard[i]);
    }
    MessageIsAnswer(f, bound, l, tov, heard, n, k);
    ReversedFails(code, e, m);
    if n == e {
      assert BitEntryIs(BitRow(n), k, m);
      TablesTransposed(m, n);
    }
    assert After(f, l, 1) == Next(f, l, After(f, l, 0));
  }

  /** The magnitude of the k-th message to bit n, if bit n shares that check with bit e or not, as asked. */
  function Said(tov: Messages, n: nat, k: nat, e: nat, shared: bool): real
    requires n < N && k < 3
  {
    if Shares(n, k, e) == shared then Abs(tov[n].Entry(k)) else 0.0
  }

  function AllSaid(tov: Messages, n: nat, e: nat, shared: bool): real
    requires n < N
  {
    Said(tov, n, 0, e, shared) + Said(tov, n, 1, e, shared) + Said(tov, n, 2, e, shared)
  }

  /** Bit n prevails: the reversed bit when its messages outweigh its likelihood; another bit when its likelihood and
      the messages from checks without the reversed bit outweigh the messages from checks with it. */
  predicate Prevails(l: seq<real>, tov: Messages, code: seq<bool>, e: nat, n: nat)
    requires |l| == |code| == N && n < N
  {
    if n == e then Outweighs(AllSaid(tov, n, e, true), Abs(l[n]), code[n])
    else Outweighs(Abs(l[n]) + AllSaid(tov, n, e, false), AllSaid(tov, n, e, true), code[n])
  }

  lemma SecondDecision(f: Tanh, bound: real, l: seq<real>, code: seq<bool>, e: nat, n: nat)
    requires |l| == |code| == N && KeepsSign(f, bound) && IsCodeword(code) && e < N && n < N
    requires AllPoint(l, Reversed(code, e))
    ensures Guess(f, l, 1)[n] == code[n] <==> Prevails(l, After(f, l, 1), code, e, n)
  {
    hide BitRow, IsCodeword, After, Power, KeepsSign, InCheck;
    FirstMessages(f, bound, l, code, e, n, 0);
    FirstMessages(f, bound, l, code, e, n, 1);
    FirstMessages(f, bound, l, code, e, n, 2);
    assert Points(l[n], Reversed(code, e)[n]);
    if n == e {
      OwnChecks(e);
    }
  }

  lemma OwnChecks(e: nat)
    requires e < N
    ensures Shares(e, 0, e) && Shares(e, 1, e) && Shares(e, 2, e)
  {
    hide BitRow, InCheck;
    forall k | 0 <= k < 3
      ensures Shares(e, k, e)
    {
      var m := BitRow(e).Entry(k) - 1;
      assert BitEntryIs(BitRow(e), k, m);
      TablesTransposed(m, e);
    }
  }

  /** One reversed bit: the first guess is always rejected, and the second is the codeword exactly when every bit
      prevails; then the decoder returns it without errors. */
  lemma OneErrorCorrected(f: Tanh, bound: real, l: seq<real>, code: seq<bool>, e: nat, maxIters: nat)
    requires |l| == |code| == N && KeepsSign(f, bound) && IsCodeword(code) && !AllFalse(code) && e < N
    requires AllPoint(l, Reversed(code, e)) && maxIters >= 2
    ensures Guess(f, l, 0) == Reversed(code, e) && Rounds(f, l, 0, maxIters) >= 2
    ensures Guess(f, l, 1) == code <==> forall n :: 0 <= n < N ==> Prevails(l, After(f, l, 1), code, e, n)
    ensures Guess(f, l, 1) == code ==>
              Decoded(f, l, maxIters) == code && LeastFailures(f, l, Tested(f, l, maxIters)) == 0
  {
    hide IsCodeword, AllFalse, Guess, After, Prevails, Reversed, Power, KeepsSign, AllPoint, LeastFailures, Tested;
    FirstGuess(f, l, Reversed(code, e));
    ReversedIsNoCodeword(code, e);
    assert !Stops(f, l, 0);
    assert Rounds(f, l, 0, maxIters) == Rounds(f, l, 1, maxIters);
    forall n | 0 <= n < N
      ensures Guess(f, l, 1)[n] == code[n] <==> Prevails(l, After(f, l, 1), code, e, n)
    {
      SecondDecision(f, bound, l, code, e, n);
    }
    if Guess(f, l, 1) == code {
      assert Stops(f, l, 1);
      assert Rounds(f, l, 1, maxIters) == 2;
      ZeroErrorsIffCodeword(f, l, maxIters);
    } else {
      var n :| 0 <= n < N && Guess(f, l, 1)[n] != code[n];
      assert !Prevails(l, After(f, l, 1), code, e, n);
    }
  }

  /** A reception in which noise reversed one bit is accepted with its payload when every bit prevails. */
  lemma OneErrorAccepted(f: Tanh, bound: real, norm: real -> real, wf: Waterfall, c: Candidate, maxIters: nat,
                         payload: seq<bool>, e: nat)
    requires wf.Valid() && c.Fits(wf) && maxIters >= 2 && KeepsSign(f, bound) && e < N
    requires |payload| == 77 && !AllFalse(payload) && norm(Variance(Likelihoods(wf, c))) > 0.0
    requires AllPoint(Likelihoods(wf, c), Reversed(Sent(payload), e))
    requires var l := Scale(Likelihoods(wf, c), norm(Variance(Likelihoods(wf, c))));
             forall n :: 0 <= n < N ==> Prevails(l, After(f, l, 1), Sent(payload), e, n)
    ensures Outcomes(f, norm, wf, c, maxIters) == Accepted(payload)
  {
    hide IsCodeword, AllFalse, AllPoint, Sent, Likelihoods, Scale, Variance, Guess, After, Decoded, LeastFailures,
         Tested, Reversed, Prevails, KeepsSign, Power;
    var raw := Likelihoods(wf, c);
    var factor := norm(Variance(raw));
    var l := Scale(raw, factor);
    SentIsMixed(payload);
    ScaleKeepsPointing(raw, Reversed(Sent(payload), e), factor);
    OneErrorCorrected(f, bound, l, Sent(payload), e, maxIters);
    SentPrefix(payload);
  }

  // ----- the exact value of a message -----

  /** With odds(x) for e^x: tanh(-x / 2) is (1 - odds(x)) / (1 + odds(x)), and inversely. */
  ghost predicate IsExact(f: Tanh, odds: real -> real) {
    (forall x :: TanhOfOdds(f, odds, x)) && forall y :: OddsOfAtanh(f, odds, y)
  }

  predicate TanhOfOdds(f: Tanh, odds: real -> real, x: real) {
    odds(x) > 0.0 && Times(f.tanh(-x / 2.0), 1.0 + odds(x)) == 1.0 - odds(x)
  }

  predicate OddsOfAtanh(f: Tanh, odds: real -> real, y: real) {
    -1.0 < y < 1.0 ==> Times(odds(-2.0 * f.atanh(y)), 1.0 + y) == 1.0 - y
  }

  /** The likelihood of bit n with all messages to it but the one from check m. */
  function WithoutCheck(l: seq<real>, tov: Messages, m: nat, n: nat): real
    requires |l| == N && n < N
  {
    var c, t := BitRow(n), tov[n];
    l[n] + (if c.m0 == m + 1 then 0.0 else t.t0) + (if c.m1 == m + 1 then 0.0 else t.t1)
    + if c.m2 == m + 1 then 0.0 else t.t2
  }

  /** The total weight of the ways to set the first j bits of check m, bit n left out, so that they sum to odd. A bit
      set to one weighs its odds by its own likelihood and its other messages, a bit set to zero weighs 1. */
  function Weight(odds: real -> real, l: seq<real>, tov: Messages, m: nat, n: nat, j: nat, odd: bool): real
    requires |l| == N && m < M && j <= NumRows(m)
  {
    NumRowsCountsEntries(m);
    if j == 0 then if odd then 0.0 else 1.0
    else
      var i, unset := CheckRow(m).Entry(j - 1) - 1, Weight(odds, l, tov, m, n, j - 1, odd);
      if i == n then unset
      else unset + Times(odds(WithoutCheck(l, tov, m, i)), Weight(odds, l, tov, m, n, j - 1, !odd))
  }

  lemma WeightSteps(odds: real -> real, l: seq<real>, tov: Messages, m: nat, n: nat, j: nat, odd: bool)
    requires |l| == N && m < M && j < NumRows(m)
    ensures CheckRow(m).Entry(j) >= 1
    ensures Weight(odds, l, tov, m, n, 0, odd) == if odd then 0.0 else 1.0
    ensures Weight(odds, l, tov, m, n, j + 1, odd) ==
            if EntryIs(CheckRow(m), j, n) then Weight(odds, l, tov, m, n, j, odd)
            else Weight(odds, l, tov, m, n, j, odd)
                 + Times(odds(WithoutCheck(l, tov, m, CheckRow(m).Entry(j) - 1)), Weight(odds, l, tov, m, n, j, !odd))
  {
    hide CheckRow, NumRows, WithoutCheck;
    NumRowsCountsEntries(m);
  }

  lemma ExtrinsicLeavesOut(l: seq<real>, tov: Messages, m: nat, n: nat)
    requires |l| == N && n < N
    ensures Extrinsic(l, tov, m, n, 3) == WithoutCheck(l, tov, m, n)
  {
    hide BitRow;
    assert Extrinsic(l, tov, m, n, 0) == l[n];
    assert Extrinsic(l, tov, m, n, 2) == Extrinsic(l, tov, m, n, 1) + if BitRow(n).m1 == m + 1 then 0.0 else tov[n].t1;
  }

  /** One more bit: its weight x, what it tells t, and the two weights and the product before it. */
  lemma BiasStep(even: real, odd: real, p: real, x: real, t: real)
    requires x > 0.0 && even > 0.0 && odd >= 0.0
    requires Times(p, even + odd) == even - odd && Times(t, 1.0 + x) == 1.0 - x
    ensures Times(Times(p, t), even + Times(x, odd) + (odd + Times(x, even))) ==
            even + Times(x, odd) - (odd + Times(x, even))
    ensures Times(x, odd) >= 0.0 && Times(x, even) > 0.0
  {
    var s, d := even + odd, even - odd;
    assert even + x * odd + (odd + x * even) == s * (1.0 + x);
    assert even + x * odd - (odd + x * even) == d * (1.0 - x);
    assert (p * t) * (s * (1.0 + x)) == (p * s) * (t * (1.0 + x));
  }

  /** The product of what the bits tell is the difference of the weights over their sum. */
  lemma {:induction false} ProductIsBias(f: Tanh, odds: real -> real, l: seq<real>, tov: Messages, m: nat, n: nat,
                                         jn: nat, j: nat)
    requires |l| == N && m < M && jn < NumRows(m) && j <= NumRows(m) && IsExact(f, odds)
    requires forall i :: 0 <= i < NumRows(m) ==> (EntryIs(CheckRow(m), i, n) <==> i == jn)
    ensures var even, odd := Weight(odds, l, tov, m, n, j, false), Weight(odds, l, tov, m, n, j, true);
            even > 0.0 && odd >= 0.0 && (j > (if jn < j then 1 else 0) ==> odd > 0.0)
            && Times(Product(f, l, tov, m, n, j), even + odd) == even - odd
  {
    hide CheckRow, BitRow, NumRows, Weight, WithoutCheck, Product, Extrinsic, Times;
    NumRowsCountsEntries(m);
    ProductSteps(f, l, tov, m, n, j);
    if j == 0 {
      WeightSteps(odds, l, tov, m, n, 0, false);
      WeightSteps(odds, l, tov, m, n, 0, true);
      assert Times(1.0, 1.0 + 0.0) == 1.0 - 0.0 by { TimesOne(); }
    } else {
      var i := j - 1;
      ProductIsBias(f, odds, l, tov, m, n, jn, i);
      WeightSteps(odds, l, tov, m, n, i, false);
      WeightSteps(odds, l, tov, m, n, i, true);
      assert EntryIs(CheckRow(m), i, n) <==> i == jn;
      if i != jn {
        var b := CheckRow(m).Entry(i) - 1;
        ExtrinsicLeavesOut(l, tov, m, b);
        var x := WithoutCheck(l, tov, m, b);
        assert TanhOfOdds(f, odds, x);
        BiasStep(Weight(odds, l, tov, m, n, i, false), Weight(odds, l, tov, m, n, i, true),
                 Product(f, l, tov, m, n, i), odds(x), ToCheck(f, l, tov, m, i));
      }
    }
  }

  lemma TimesOne()
    ensures Times(1.0, 1.0) == 1.0
  {
  }

  lemma OddsFromBias(p: real, even: real, odd: real, r: real)
    requires even > 0.0 && odd > 0.0 && Times(p, even + odd) == even - odd
    ensures -1.0 < p < 1.0
    ensures Times(r, 1.0 + p) == 1.0 - p ==> Times(r, even) == odd
  {
    var s, u, v := even + odd, 1.0 + p, 1.0 - p;
    assert u * s == 2.0 * even && v * s == 2.0 * odd;
    SignOfProduct(u, s);
    SignOfProduct(v, s);
    if r * u == v {
      assert (r * u) * s == r * (u * s);
    }
  }

  /** The message from a check is exact: with the exact functions, its odds are the weight of the ways to set the other
      bits of the check to an odd sum over the weight of the ways to set them to an even sum. */
  lemma MessageIsExact(f: Tanh, odds: real -> real, l: seq<real>, tov: Messages, n: nat, k: nat)
    requires |l| == N && n < N && k < 3 && IsExact(f, odds)
    ensures var m := BitRow(n).Entry(k) - 1;
            Weight(odds, l, tov, m, n, NumRows(m), false) > 0.0
            && Times(odds(ToBit(f, l, tov, n, k)), Weight(odds, l, tov, m, n, NumRows(m), false))
               == Weight(odds, l, tov, m, n, NumRows(m), true)
  {
    hide CheckRow, BitRow, NumRows, Weight, Product, Times;
    var m := BitRow(n).Entry(k) - 1;
    NumRowsCountsEntries(m);
    assert BitEntryIs(BitRow(n), k, m);
    var jn := OneFactorLeftOut(n, m);
    ProductIsBias(f, odds, l, tov, m, n, jn, NumRows(m));
    var p := Product(f, l, tov, m, n, NumRows(m));
    assert OddsOfAtanh(f, odds, p);
    OddsFromBias(p, Weight(odds, l, tov, m, n, NumRows(m), false), Weight(odds, l, tov, m, n, NumRows(m), true),
                 odds(ToBit(f, l, tov, n, k)));
  }
}
