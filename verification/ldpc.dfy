/** The belief propagation decoder, over reals. The two approximated functions tanh and atanh are
    parameters: nothing here depends on their values. */
module BeliefPropagation {
  import opened Bits
  import opened Constants
  import opened LdpcCode

  // ----- counting failed checks -----

  /** The bits that a buffer of 0 and 1 bytes stands for. */
  function BoolsOf(plain: seq<Byte>): (bits: seq<bool>)
    ensures |bits| == |plain|
  {
    seq(|plain|, i requires 0 <= i < |plain| => plain[i] != 0)
  }

  predicate AreBits(plain: seq<Byte>) {
    forall i :: 0 <= i < |plain| ==> plain[i] == 0 || plain[i] == 1
  }

  /** How many of the first m checks fail. */
  function Failures(code: seq<bool>, m: nat): (n: nat)
    requires |code| == N && m <= M
    ensures n <= m
  {
    if m == 0 then 0 else Failures(code, m - 1) + if Passes(code, m - 1) then 0 else 1
  }

  lemma {:induction false} FailuresNone(code: seq<bool>, m: nat)
    requires |code| == N && m <= M
    ensures Failures(code, m) == 0 <==> forall i :: 0 <= i < m ==> Passes(code, i)
  {
    hide Passes;
    if m > 0 {
      FailuresNone(code, m - 1);
    }
  }

  /** A word has no failed check exactly when it is a codeword. */
  lemma NoFailures(code: seq<bool>)
    requires |code| == N
    ensures Failures(code, M) == 0 <==> IsCodeword(code)
  {
    hide Passes, Failures;
    FailuresNone(code, M);
  }

  /** Counts the parity checks that a word of 174 bits fails. */
  method LdpcCheck(codeword: array<Byte>) returns (errors: nat)
    requires codeword.Length == N && AreBits(codeword[..])
    ensures errors == Failures(BoolsOf(codeword[..]), M)
  {
    hide CheckRow, NumRows, AddBit;
    errors := 0;
    ghost var code := BoolsOf(codeword[..]);
    for m := 0 to M
      invariant errors == Failures(code, m)
    {
      NumRowsCountsEntries(m);
      var row, x := CheckRow(m), 0;
      for i := 0 to NumRows(m)
        invariant x == AsByte(RowParity(code, row, i))
      {
        x := AddBit(x, codeword[row.Entry(i) - 1]);
      }
      if x != 0 {
        errors := errors + 1;
      }
    }
  }

  // ----- message passing -----

  /** The two approximated functions. */
  datatype Tanh = Tanh(tanh: real -> real, atanh: real -> real)

  /** The messages from three checks to one bit. */
  datatype Triple = Triple(t0: real, t1: real, t2: real) {
    function Entry(j: nat): real
      requires j < 3
    {
      if j == 0 then t0 else if j == 1 then t1 else t2
    }
  }

  /** Check-to-bit messages of one iteration, by bit. */
  type Messages = tov: seq<Triple> | |tov| == N witness seq(N, _ => Triple(0.0, 0.0, 0.0))

  function NoMessages(): Messages {
    seq(N, _ => Triple(0.0, 0.0, 0.0))
  }

  /** The likelihood of bit n with the first k messages to it, leaving out the one from check m. */
  function Extrinsic(l: seq<real>, tov: Messages, m: nat, n: nat, k: nat): real
    requires |l| == N && n < N && k <= 3
  {
    if k == 0 then l[n]
    else Extrinsic(l, tov, m, n, k - 1) + if BitRow(n).Entry(k - 1) - 1 != m then tov[n].Entry(k - 1) else 0.0
  }

  /** What the j-th bit of check m tells the check. */
  function ToCheck(f: Tanh, l: seq<real>, tov: Messages, m: nat, j: nat): real
    requires |l| == N && m < M && j < NumRows(m)
  {
    NumRowsCountsEntries(m);
    f.tanh(-Extrinsic(l, tov, m, CheckRow(m).Entry(j) - 1, 3) / 2.0)
  }

  /** The product of what the first j bits of check m tell it, leaving out bit n. */
  function Product(f: Tanh, l: seq<real>, tov: Messages, m: nat, n: nat, j: nat): real
    requires |l| == N && m < M && j <= NumRows(m)
  {
    if j == 0 then 1.0
    else
      Product(f, l, tov, m, n, j - 1)
      * if CheckRow(m).Entry(j - 1) - 1 != n then ToCheck(f, l, tov, m, j - 1) else 1.0
  }

  /** What the k-th check of bit n tells the bit. */
  function ToBit(f: Tanh, l: seq<real>, tov: Messages, n: nat, k: nat): real
    requires |l| == N && n < N && k < 3
  {
    var m := BitRow(n).Entry(k) - 1;
    -2.0 * f.atanh(Product(f, l, tov, m, n, NumRows(m)))
  }

  /** One iteration of message passing. */
  function Next(f: Tanh, l: seq<real>, tov: Messages): Messages
    requires |l| == N
  {
    seq(N, n requires 0 <= n < N => Triple(ToBit(f, l, tov, n, 0), ToBit(f, l, tov, n, 1), ToBit(f, l, tov, n, 2)))
  }

  function After(f: Tanh, l: seq<real>, iterations: nat): Messages
    requires |l| == N
  {
    if iterations == 0 then NoMessages() else Next(f, l, After(f, l, iterations - 1))
  }

  /** The hard decision from the likelihoods and the messages so far. */
  function Decide(l: seq<real>, tov: Messages): (bits: seq<bool>)
    requires |l| == N
    ensures |bits| == N
  {
    seq(N, n requires 0 <= n < N => l[n] + tov[n].t0 + tov[n].t1 + tov[n].t2 > 0.0)
  }

  /** The word guessed in iteration k. */
  function Guess(f: Tanh, l: seq<real>, k: nat): (bits: seq<bool>)
    requires |l| == N
    ensures |bits| == N
  {
    Decide(l, After(f, l, k))
  }

  /** The least number of failed checks among the first k guesses, from M down. */
  function LeastFailures(f: Tanh, l: seq<real>, k: nat): (n: nat)
    requires |l| == N
    ensures n <= M
  {
    if k == 0 then M
    else
      var before, now := LeastFailures(f, l, k - 1), Failures(Guess(f, l, k - 1), M);
      if now < before then now else before
  }

  /** Decoding stops at a guess that is all zeros, which is prohibited, or a codeword. */
  predicate Stops(f: Tanh, l: seq<real>, k: nat)
    requires |l| == N
  {
    AllFalse(Guess(f, l, k)) || IsCodeword(Guess(f, l, k))
  }

  /** The number of guesses made when the first k did not stop the decoder. */
  function Rounds(f: Tanh, l: seq<real>, k: nat, maxIters: nat): (r: nat)
    requires |l| == N && k < maxIters
    ensures k < r <= maxIters
    decreases maxIters - k
  {
    if Stops(f, l, k) || k + 1 == maxIters then k + 1 else Rounds(f, l, k + 1, maxIters)
  }

  /** How many of the guesses were tested against the checks: all but a final all-zero one. */
  function Tested(f: Tanh, l: seq<real>, maxIters: nat): nat
    requires |l| == N && maxIters > 0
  {
    var r := Rounds(f, l, 0, maxIters);
    if AllFalse(Guess(f, l, r - 1)) then r - 1 else r
  }

  /** The decoded word. */
  function Decoded(f: Tanh, l: seq<real>, maxIters: nat): (bits: seq<bool>)
    requires |l| == N && maxIters > 0
    ensures |bits| == N
  {
    Guess(f, l, Rounds(f, l, 0, maxIters) - 1)
  }

  lemma {:induction false} RoundsStop(f: Tanh, l: seq<real>, k: nat, maxIters: nat)
    requires |l| == N && k < maxIters
    ensures forall i :: k <= i < Rounds(f, l, k, maxIters) - 1 ==> !Stops(f, l, i)
    ensures Rounds(f, l, k, maxIters) == maxIters || Stops(f, l, Rounds(f, l, k, maxIters) - 1)
    decreases maxIters - k
  {
    hide Stops;
    if !(Stops(f, l, k) || k + 1 == maxIters) {
      RoundsStop(f, l, k + 1, maxIters);
    }
  }

  /** The least count is a lower bound, and it is met or no guess failed fewer than all checks. */
  lemma {:induction false} LeastFailuresIsLeast(f: Tanh, l: seq<real>, k: nat)
    requires |l| == N
    ensures forall i :: 0 <= i < k ==> LeastFailures(f, l, k) <= Failures(Guess(f, l, i), M)
    ensures LeastFailures(f, l, k) == M ||
            exists i :: 0 <= i < k && LeastFailures(f, l, k) == Failures(Guess(f, l, i), M)
  {
    hide Failures, Guess;
    if k > 0 {
      LeastFailuresIsLeast(f, l, k - 1);
      assert LeastFailures(f, l, k) <= Failures(Guess(f, l, k - 1), M);
    }
  }

  /** The decoder reports no errors exactly when the word it returns is a nonzero codeword. */
  lemma ZeroErrorsIffCodeword(f: Tanh, l: seq<real>, maxIters: nat)
    requires |l| == N && maxIters > 0
    ensures LeastFailures(f, l, Tested(f, l, maxIters)) == 0
            <==> IsCodeword(Decoded(f, l, maxIters)) && !AllFalse(Decoded(f, l, maxIters))
  {
    hide Failures, Guess, IsCodeword, AllFalse;
    var r, t := Rounds(f, l, 0, maxIters), Tested(f, l, maxIters);
    RoundsStop(f, l, 0, maxIters);
    LeastFailuresIsLeast(f, l, t);
    if LeastFailures(f, l, t) == 0 {
      var i :| 0 <= i < t && Failures(Guess(f, l, i), M) == 0;
      NoFailures(Guess(f, l, i));
      assert Stops(f, l, i);
    }
    NoFailures(Guess(f, l, r - 1));
  }

  // ----- the decoder -----

  ghost predicate Holds(tov: array2<real>, spec: Messages)
    requires tov.Length0 == N && tov.Length1 == 3
    reads tov
  {
    forall n :: 0 <= n < N ==> tov[n, 0] == spec[n].t0 && tov[n, 1] == spec[n].t1 && tov[n, 2] == spec[n].t2
  }

  ghost predicate Told(f: Tanh, l: seq<real>, toc: array2<real>, spec: Messages)
    requires |l| == N && toc.Length0 == M && toc.Length1 == 7
    reads toc
  {
    forall m, j :: 0 <= m < M && 0 <= j < NumRows(m) ==> toc[m, j] == ToCheck(f, l, spec, m, j)
  }

  /** Messages from bits to checks. */
  method BitsToChecks(f: Tanh, codeword: array<real>, tov: array2<real>, toc: array2<real>,
                      ghost l: seq<real>, ghost spec: Messages)
    requires codeword.Length == N && tov.Length0 == N && tov.Length1 == 3 && toc.Length0 == M && toc.Length1 == 7
    requires codeword[..] == l && tov != toc && Holds(tov, spec)
    modifies toc
    ensures Told(f, l, toc, spec)
  {
    hide CheckRow, BitRow, NumRows;
    for m := 0 to M
      invariant forall i, j :: 0 <= i < m && 0 <= j < NumRows(i) ==> toc[i, j] == ToCheck(f, l, spec, i, j)
    {
      NumRowsCountsEntries(m);
      for nIdx := 0 to NumRows(m)
        invariant forall i, j :: 0 <= i < m && 0 <= j < NumRows(i) ==> toc[i, j] == ToCheck(f, l, spec, i, j)
        invariant forall j :: 0 <= j < nIdx ==> toc[m, j] == ToCheck(f, l, spec, m, j)
      {
        var n := CheckRow(m).Entry(nIdx) - 1;
        assert codeword[n] == l[n];
        var tnm := codeword[n];
        for mIdx := 0 to 3
          invariant tnm == Extrinsic(l, spec, m, n, mIdx)
        {
          if BitRow(n).Entry(mIdx) - 1 != m {
            tnm := tnm + tov[n, mIdx];
          }
        }
        toc[m, nIdx] := f.tanh(-tnm / 2.0);
      }
    }
  }

  /** Messages from checks to bits. */
  method ChecksToBits(f: Tanh, ghost l: seq<real>, tov: array2<real>, toc: array2<real>, ghost spec: Messages)
    requires |l| == N && tov.Length0 == N && tov.Length1 == 3 && toc.Length0 == M && toc.Length1 == 7 && tov != toc
    requires Told(f, l, toc, spec)
    modifies tov
    ensures Holds(tov, Next(f, l, spec))
  {
    hide CheckRow, BitRow, NumRows;
    for n := 0 to N
      invariant forall i, k :: 0 <= i < n && 0 <= k < 3 ==> tov[i, k] == ToBit(f, l, spec, i, k)
    {
      for mIdx := 0 to 3
        invariant forall i, k :: 0 <= i < n && 0 <= k < 3 ==> tov[i, k] == ToBit(f, l, spec, i, k)
        invariant forall k :: 0 <= k < mIdx ==> tov[n, k] == ToBit(f, l, spec, n, k)
      {
        var m := BitRow(n).Entry(mIdx) - 1;
        NumRowsCountsEntries(m);
        var tmn := 1.0;
        for nIdx := 0 to NumRows(m)
          invariant tmn == Product(f, l, spec, m, n, nIdx)
        {
          if CheckRow(m).Entry(nIdx) - 1 != n {
            tmn := tmn * toc[m, nIdx];
          }
        }
        tov[n, mIdx] := -2.0 * f.atanh(tmn);
      }
    }
  }

  /** The hard decision into plain; returns the number of ones. */
  method HardDecision(codeword: array<real>, tov: array2<real>, plain: array<Byte>, ghost l: seq<real>,
                      ghost spec: Messages)
    returns (plainSum: nat)
    requires codeword.Length == N && tov.Length0 == N && tov.Length1 == 3 && plain.Length == N
    requires codeword as object != plain && codeword[..] == l && Holds(tov, spec)
    modifies plain
    ensures AreBits(plain[..]) && BoolsOf(plain[..]) == Decide(l, spec)
    ensures plainSum == 0 <==> AllFalse(BoolsOf(plain[..]))
  {
    plainSum := 0;
    for n := 0 to N
      invariant codeword[..] == l
      invariant forall i :: 0 <= i < n ==> plain[i] == AsByte(Decide(l, spec)[i])
      invariant plainSum == 0 <==> forall i :: 0 <= i < n ==> !Decide(l, spec)[i]
    {
      assert codeword[n] == l[n];
      var one := codeword[n] + tov[n, 0] + tov[n, 1] + tov[n, 2] > 0.0;
      plain[n] := AsByte(one);
      plainSum := plainSum + if one then 1 else 0;
    }
    assert BoolsOf(plain[..]) == Decide(l, spec);
  }

  /** Decodes 174 likelihoods, log p(1)/p(0), into bits; ok is the least number of failed checks. */
  method BpDecode(f: Tanh, codeword: array<real>, maxIters: nat, plain: array<Byte>) returns (ok: nat)
    requires codeword.Length == N && plain.Length == N && codeword as object != plain
    modifies plain
    ensures maxIters == 0 ==> ok == M && plain[..] == old(plain[..])
    ensures maxIters > 0 ==> AreBits(plain[..]) && BoolsOf(plain[..]) == Decoded(f, codeword[..], maxIters)
    ensures maxIters > 0 ==> ok == LeastFailures(f, codeword[..], Tested(f, codeword[..], maxIters))
  {
    hide Next, Decide, ToCheck, ToBit, Failures, IsCodeword, AllFalse, Rounds, Tested, Guess, LeastFailures, Stops,
         Decoded;
    hide BoolsOf, Holds, Told;
    var tov := new real[N, 3]((_, _) => 0.0);
    var toc := new real[M, 7];
    var minErrors := M;
    ghost var l := codeword[..];
    NothingYet(f, l, tov);
    if maxIters > 0 {
      ResultIs(f, l, maxIters);
    }
    for iter := 0 to maxIters
      invariant codeword[..] == l && Holds(tov, After(f, l, iter))
      invariant iter == 0 ==> plain[..] == old(plain[..])
      invariant iter > 0 ==> AreBits(plain[..]) && BoolsOf(plain[..]) == Guess(f, l, iter - 1)
      invariant iter < maxIters ==> Rounds(f, l, 0, maxIters) == Rounds(f, l, iter, maxIters)
      invariant iter == maxIters && iter > 0 ==> Rounds(f, l, 0, maxIters) == iter && !AllFalse(Guess(f, l, iter - 1))
      invariant minErrors == LeastFailures(f, l, iter) && minErrors > 0
    {
      Step(f, l, iter, maxIters);
      var plainSum := HardDecision(codeword, tov, plain, l, After(f, l, iter));
      if plainSum == 0 {
        break;
      }
      var errors := LdpcCheck(plain);
      if errors < minErrors {
        minErrors := errors;
        if errors == 0 {
          break;
        }
      }
      BitsToChecks(f, codeword, tov, toc, l, After(f, l, iter));
      ChecksToBits(f, l, tov, toc, After(f, l, iter));
    }
    ok := minErrors;
  }

  lemma NothingYet(f: Tanh, l: seq<real>, tov: array2<real>)
    requires |l| == N && tov.Length0 == N && tov.Length1 == 3
    requires forall n, k :: 0 <= n < N && 0 <= k < 3 ==> tov[n, k] == 0.0
    ensures Holds(tov, After(f, l, 0)) && LeastFailures(f, l, 0) == M
  {
  }

  /** One turn of the decoder's loop, as the definitions see it. */
  lemma Step(f: Tanh, l: seq<real>, iter: nat, maxIters: nat)
    requires |l| == N && iter < maxIters
    ensures Guess(f, l, iter) == Decide(l, After(f, l, iter))
    ensures After(f, l, iter + 1) == Next(f, l, After(f, l, iter))
    ensures Failures(Guess(f, l, iter), M) == 0 <==> IsCodeword(Guess(f, l, iter))
    ensures Rounds(f, l, iter, maxIters) ==
            if AllFalse(Guess(f, l, iter)) || IsCodeword(Guess(f, l, iter)) || iter + 1 == maxIters then iter + 1
            else Rounds(f, l, iter + 1, maxIters)
    ensures LeastFailures(f, l, iter + 1) ==
            if Failures(Guess(f, l, iter), M) < LeastFailures(f, l, iter) then Failures(Guess(f, l, iter), M)
            else LeastFailures(f, l, iter)
  {
    hide Failures, IsCodeword, AllFalse;
    NoFailures(Guess(f, l, iter));
  }

  lemma ResultIs(f: Tanh, l: seq<real>, maxIters: nat)
    requires |l| == N && maxIters > 0
    ensures Decoded(f, l, maxIters) == Guess(f, l, Rounds(f, l, 0, maxIters) - 1)
    ensures Tested(f, l, maxIters) ==
            if AllFalse(Decoded(f, l, maxIters)) then Rounds(f, l, 0, maxIters) - 1 else Rounds(f, l, 0, maxIters)
  {
    hide AllFalse, Guess;
  }
}
