/** Sending one symbol: clocks in randomly long chunks, shared between two frequencies. */
module TxSymbol {
  import opened Dither

  const RING := 1024

  /** Rounding to the nearest integer, halves away from zero. */
  function Round(x: real): int {
    if x >= 0.0 then (x + 0.5).Floor else -((-x + 0.5).Floor)
  }

  lemma RoundNear(x: real)
    ensures -0.5 <= Round(x) as real - x <= 0.5
  {
  }

  lemma RoundMonotone(x: real, y: real)
    requires x <= y
    ensures Round(x) <= Round(y)
  {
  }

  lemma RoundPlus(x: real, n: nat)
    requires x >= 0.0
    ensures Round(x + n as real) == Round(x) + n
  {
    assert (x + n as real + 0.5).Floor == (x + 0.5).Floor + n;
  }

  /** The share of clocks at the lower frequency. */
  function Ratio(f0: real, f1: real, tone: real): real
    requires f0 != f1
  {
    1.0 - (tone - f0) / (f1 - f0)
  }

  /** The share lies between zero and one, and weighs the two frequencies to the tone. */
  lemma RatioIsShare(f0: real, f1: real, tone: real)
    requires f0 < tone <= f1
    ensures 0.0 <= Ratio(f0, f1, tone) < 1.0
    ensures Ratio(f0, f1, tone) * f0 + (1.0 - Ratio(f0, f1, tone)) * f1 == tone
  {
    var d, e := f1 - f0, tone - f0;
    var s := e / d;
    assert s * d == e;
    NotNegative(s, d);
    assert (1.0 - s) * d == d - e;
    NotNegative(1.0 - s, d);
    assert s != 0.0;
    assert (1.0 - s) * f0 + s * f1 == f0 + s * d by { Weigh(s, f0, f1, d); }
  }

  lemma Weigh(s: real, f0: real, f1: real, d: real)
    requires d == f1 - f0
    ensures (1.0 - s) * f0 + s * f1 == f0 + s * d
  {
  }

  /** The length of a chunk before it is cut at the end of the symbol, for one random number in [0, 1). */
  function Chunk(random: real): int {
    PWM_CLOCKS_PER_ITER_NOMINAL + Round((random - 0.5) * PWM_CLOCKS_PER_ITER_NOMINAL as real)
  }

  lemma ChunkBound(random: real)
    requires 0.0 <= random < 1.0
    ensures 500 <= Chunk(random) <= 1500
  {
    var x := (random - 0.5) * 1000.0;
    assert -500.0 <= x <= 500.0;
    RoundMonotone(-500.0, x);
    RoundMonotone(x, 500.0);
  }

  /** The share of a number of clocks. */
  function Share(ratio: real, clocks: real): real {
    ratio * clocks
  }

  /** All clocks of the chunks, and those at the lower frequency. */
  function Clocks(chunks: seq<(int, int)>): int {
    if chunks == [] then 0 else Clocks(chunks[..|chunks| - 1]) + chunks[|chunks| - 1].0 + chunks[|chunks| - 1].1
  }

  function LowClocks(chunks: seq<(int, int)>): int {
    if chunks == [] then 0 else LowClocks(chunks[..|chunks| - 1]) + chunks[|chunks| - 1].0
  }

  /** After every chunk the clocks at the lower frequency are the exact share of all clocks so far, within half a
      clock, and no chunk has a negative part. */
  ghost predicate Shared(chunks: seq<(int, int)>, ratio: real) {
    forall i {:trigger chunks[..i]} :: 0 <= i <= |chunks| ==>
      && InBalance(chunks[..i], ratio)
      && (i < |chunks| ==> chunks[i].0 >= 0 && chunks[i].1 >= 0)
  }

  predicate InBalance(chunks: seq<(int, int)>, ratio: real) {
    -0.5 <= LowClocks(chunks) as real - Share(ratio, Clocks(chunks) as real) <= 0.5
  }

  /** Every chunk is as long as its random number says, except that the last is cut at the end of the symbol. */
  ghost predicate Cut(chunks: seq<(int, int)>, random: nat -> real, perSym: int) {
    forall i {:trigger chunks[..i]} :: 0 <= i < |chunks| ==> CutTo(chunks[..i], chunks[i], random(i), perSym)
  }

  predicate CutTo(before: seq<(int, int)>, chunk: (int, int), random: real, perSym: int) {
    chunk.0 + chunk.1 == Shorter(Chunk(random), perSym - Clocks(before))
  }

  function Shorter(a: int, b: int): int {
    if a <= b then a else b
  }

  lemma CutGrows(chunks: seq<(int, int)>, random: nat -> real, perSym: int, c: (int, int))
    requires Cut(chunks, random, perSym) && CutTo(chunks, c, random(|chunks|), perSym)
    ensures Cut(chunks + [c], random, perSym)
  {
    hide CutTo;
    var t := chunks + [c];
    forall i | 0 <= i < |t|
      ensures CutTo(t[..i], t[i], random(i), perSym)
    {
      assert t[..i] == chunks[..i];
      if i == |chunks| {
        assert t[..i] == chunks;
      }
    }
  }

  lemma ClocksGrow(chunks: seq<(int, int)>, c: (int, int))
    ensures Clocks(chunks + [c]) == Clocks(chunks) + c.0 + c.1
    ensures LowClocks(chunks + [c]) == LowClocks(chunks) + c.0
  {
    assert (chunks + [c])[..|chunks|] == chunks;
  }

  lemma SharedGrows(chunks: seq<(int, int)>, ratio: real, c: (int, int))
    requires Shared(chunks, ratio) && c.0 >= 0 && c.1 >= 0
    requires InBalance(chunks + [c], ratio)
    ensures Shared(chunks + [c], ratio)
  {
    hide InBalance;
    var t := chunks + [c];
    forall i | 0 <= i <= |t|
      ensures InBalance(t[..i], ratio)
      ensures i < |t| ==> t[i].0 >= 0 && t[i].1 >= 0
    {
      if i <= |chunks| {
        assert t[..i] == chunks[..i];
      } else {
        assert t[..i] == t;
      }
    }
  }

  /** The clocks at the lower frequency in the next chunk: between none and all of it. */
  lemma ChunkShare(ratio: real, sent: nat, n: nat, total: nat, low: int)
    requires 0.0 <= ratio <= 1.0 && low == Round(Share(ratio, sent as real)) && total == sent + n
    ensures 0 <= Round(Share(ratio, total as real)) - low <= n
  {
    hide Round, Share;
    Distributes(ratio, sent as real, n as real);
    assert total as real == sent as real + n as real;
    ShareBounds(ratio, sent as real);
    ShareBounds(ratio, n as real);
    RoundStep(Share(ratio, sent as real), Share(ratio, n as real), n);
  }

  lemma RoundStep(x: real, z: real, n: nat)
    requires x >= 0.0 && 0.0 <= z <= n as real
    ensures 0 <= Round(x + z) - Round(x) <= n
  {
    RoundMonotone(x, x + z);
    RoundPlus(x, n);
    RoundMonotone(x + z, x + n as real);
  }

  lemma Distributes(r: real, a: real, b: real)
    ensures Share(r, a + b) == Share(r, a) + Share(r, b)
  {
  }

  lemma ShareBounds(ratio: real, b: real)
    requires 0.0 <= ratio <= 1.0 && b >= 0.0
    ensures 0.0 <= Share(ratio, b) <= b
  {
    NotNegativeProduct(ratio, b);
    NotNegativeProduct(1.0 - ratio, b);
    assert (1.0 - ratio) * b == b - ratio * b;
  }

  // ----- the ring of instructions -----

  const SLOTS := 256

  /** The slot of four entries that chunk i goes to, when the ring pointer stands at start before chunk 0. */
  function Slot(start: nat, i: nat): (s: nat)
    ensures s < SLOTS
  {
    (start / 4 + i) % SLOTS
  }

  /** The four entries of a slot send chunk c. */
  predicate Sends(sources: seq<int>, lengths: seq<int>, slot: nat, c: (int, int), f0Source: int, f1Source: int)
    requires |sources| == |lengths| == RING && slot < SLOTS
  {
    && sources[4 * slot + 1] == f0Source && lengths[4 * slot + 2] == c.0
    && sources[4 * slot + 3] == f1Source && lengths[(4 * slot + 4) % RING] == c.1
  }

  predicate SameSlot(sources: seq<int>, lengths: seq<int>, sources': seq<int>, lengths': seq<int>, slot: nat)
    requires |sources| == |lengths| == |sources'| == |lengths'| == RING && slot < SLOTS
  {
    && sources'[4 * slot + 1] == sources[4 * slot + 1] && lengths'[4 * slot + 2] == lengths[4 * slot + 2]
    && sources'[4 * slot + 3] == sources[4 * slot + 3]
    && lengths'[(4 * slot + 4) % RING] == lengths[(4 * slot + 4) % RING]
  }

  /** The last chunks, up to a ringful, are in their slots; slots no chunk went to, and the other cells, are as
      before. */
  ghost predicate RingHolds(sources0: seq<int>, lengths0: seq<int>, sources: seq<int>, lengths: seq<int>, start: nat,
                            chunks: seq<(int, int)>, f0Source: int, f1Source: int) {
    && |sources0| == |lengths0| == |sources| == |lengths| == RING
    && (forall i {:trigger Slot(start, i)} :: 0 <= i < |chunks| && |chunks| - SLOTS <= i ==>
          Sends(sources, lengths, Slot(start, i), chunks[i], f0Source, f1Source))
    && (forall slot :: 0 <= slot < SLOTS && (forall i: nat :: i < |chunks| ==> Slot(start, i) != slot) ==>
          SameSlot(sources0, lengths0, sources, lengths, slot))
    && (forall k :: 0 <= k < RING && k % 2 == 0 ==> sources[k] == sources0[k])
    && (forall k :: 0 <= k < RING && k % 2 == 1 ==> lengths[k] == lengths0[k])
  }

  /** A ringful of consecutive chunks goes to different slots. */
  lemma SlotsDiffer(start: nat, i: nat, j: nat)
    requires i < j < i + SLOTS
    ensures Slot(start, i) != Slot(start, j)
  {
  }

  lemma SlotNext(start: nat, i: nat)
    ensures 4 * Slot(start, i + 1) == (4 * Slot(start, i) + 4) % RING
  {
  }

  /** Writing a slot leaves the others alone. */
  lemma SlotWritten(sources: seq<int>, lengths: seq<int>, slot: nat, c: (int, int), f0Source: int, f1Source: int,
                    t: nat)
    requires |sources| == |lengths| == RING && slot < SLOTS && t < SLOTS
    ensures var sources', lengths' := sources[4 * slot + 1 := f0Source][4 * slot + 3 := f1Source],
                                      lengths[4 * slot + 2 := c.0][(4 * slot + 4) % RING := c.1];
            && (t != slot ==> SameSlot(sources, lengths, sources', lengths', t))
            && Sends(sources', lengths', slot, c, f0Source, f1Source)
  {
  }

  lemma RingGrows(sources0: seq<int>, lengths0: seq<int>, sources: seq<int>, lengths: seq<int>, start: nat,
                  chunks: seq<(int, int)>, f0Source: int, f1Source: int, c: (int, int), sources': seq<int>,
                  lengths': seq<int>)
    requires RingHolds(sources0, lengths0, sources, lengths, start, chunks, f0Source, f1Source)
    requires var slot := Slot(start, |chunks|);
             && sources' == sources[4 * slot + 1 := f0Source][4 * slot + 3 := f1Source]
             && lengths' == lengths[4 * slot + 2 := c.0][(4 * slot + 4) % RING := c.1]
    ensures RingHolds(sources0, lengths0, sources', lengths', start, chunks + [c], f0Source, f1Source)
  {
    hide Slot, SameSlot;
    var n, slot, t := |chunks|, Slot(start, |chunks|), chunks + [c];
    forall i | 0 <= i < |t| && |t| - SLOTS <= i
      ensures Sends(sources', lengths', Slot(start, i), t[i], f0Source, f1Source)
    {
      SlotWritten(sources, lengths, slot, c, f0Source, f1Source, Slot(start, i));
      if i < n {
        SlotsDiffer(start, i, n);
        SentStays(sources, lengths, sources', lengths', Slot(start, i), t[i], f0Source, f1Source);
      }
    }
    forall s | 0 <= s < SLOTS && forall i: nat :: i < |t| ==> Slot(start, i) != s
      ensures SameSlot(sources0, lengths0, sources', lengths', s)
    {
      assert Slot(start, n) != s;
      SlotWritten(sources, lengths, slot, c, f0Source, f1Source, s);
      SameTwice(sources0, lengths0, sources, lengths, sources', lengths', s);
    }
  }

  lemma SentStays(sources: seq<int>, lengths: seq<int>, sources': seq<int>, lengths': seq<int>, slot: nat,
                  c: (int, int), f0Source: int, f1Source: int)
    requires |sources| == |lengths| == |sources'| == |lengths'| == RING && slot < SLOTS
    requires SameSlot(sources, lengths, sources', lengths', slot)
    requires Sends(sources, lengths, slot, c, f0Source, f1Source)
    ensures Sends(sources', lengths', slot, c, f0Source, f1Source)
  {
  }

  lemma SameTwice(sources0: seq<int>, lengths0: seq<int>, sources: seq<int>, lengths: seq<int>, sources': seq<int>,
                  lengths': seq<int>, slot: nat)
    requires |sources0| == |lengths0| == |sources| == |lengths| == |sources'| == |lengths'| == RING && slot < SLOTS
    requires SameSlot(sources0, lengths0, sources, lengths, slot)
    requires SameSlot(sources, lengths, sources', lengths', slot)
    ensures SameSlot(sources0, lengths0, sources', lengths', slot)
  {
  }

  lemma RingBegins(sources: seq<int>, lengths: seq<int>, start: nat, f0Source: int, f1Source: int)
    requires |sources| == |lengths| == RING && start % 4 == 0 && start < RING
    ensures RingHolds(sources, lengths, sources, lengths, start, [], f0Source, f1Source) && start == 4 * Slot(start, 0)
  {
  }

  /** Sends a symbol: the chunk lengths go to the ring of instructions, four entries a chunk. */
  method TxSym(f0Freq: real, f1Freq: real, toneFreq: real, fPwmClk: real, tsym: real, f0Source: int, f1Source: int,
               random: nat -> real, bufPtr0: nat, sources: array<int>, lengths: array<int>)
    returns (bufPtr: nat, chunks: seq<(int, int)>)
    requires f0Freq < toneFreq <= f1Freq && 0.0 <= fPwmClk && 0.0 <= tsym
    requires forall i: nat :: 0.0 <= random(i) < 1.0
    requires sources.Length == lengths.Length == RING && sources != lengths && bufPtr0 % 4 == 0 && bufPtr0 < RING
    modifies sources, lengths
    ensures bufPtr % 4 == 0 && bufPtr < RING && bufPtr == 4 * Slot(bufPtr0, |chunks|)
    ensures RingHolds(old(sources[..]), old(lengths[..]), sources[..], lengths[..], bufPtr0, chunks, f0Source, f1Source)
    ensures Clocks(chunks) == Round(fPwmClk * tsym)
    ensures Shared(chunks, Ratio(f0Freq, f1Freq, toneFreq)) && Cut(chunks, random, Round(fPwmClk * tsym))
  {
    hide Round, Ratio, Share, Shared, Cut, Clocks, LowClocks, Chunk, Slot, RingHolds;
    var f0Ratio := Ratio(f0Freq, f1Freq, toneFreq);
    RatioIsShare(f0Freq, f1Freq, toneFreq);
    var perSym := Round(fPwmClk * tsym);
    SymbolClocks(fPwmClk, tsym);
    var transmitted, f0Transmitted, calls := 0, 0, 0;
    bufPtr, chunks := bufPtr0, [];
    NoChunks(f0Ratio);
    RingBegins(sources[..], lengths[..], bufPtr0, f0Source, f1Source);
    while transmitted < perSym
      invariant bufPtr == 4 * Slot(bufPtr0, |chunks|)
      invariant RingHolds(old(sources[..]), old(lengths[..]), sources[..], lengths[..], bufPtr0, chunks, f0Source,
                          f1Source)
      invariant calls == |chunks| && Cut(chunks, random, perSym)
      invariant 0 <= transmitted <= perSym && bufPtr % 4 == 0 && bufPtr < RING
      invariant f0Transmitted == Round(Share(f0Ratio, transmitted as real))
      invariant Clocks(chunks) == transmitted && LowClocks(chunks) == f0Transmitted && Shared(chunks, f0Ratio)
      decreases perSym - transmitted
    {
      var n := Chunk(random(calls));
      ChunkBound(random(calls));
      calls := calls + 1;
      if transmitted + n > perSym {
        n := perSym - transmitted;
      }
      var total := transmitted + n;
      var nF0 := Round(Share(f0Ratio, total as real)) - f0Transmitted;
      var nF1 := n - nF0;
      ChunkShare(f0Ratio, transmitted, n, total, f0Transmitted);
      RoundNear(Share(f0Ratio, total as real));
      ClocksGrow(chunks, (nF0, nF1));
      SharedGrows(chunks, f0Ratio, (nF0, nF1));
      CutGrows(chunks, random, perSym, (nF0, nF1));
      ghost var slot, s, l := Slot(bufPtr0, |chunks|), sources[..], lengths[..];
      bufPtr := bufPtr + 1;
      sources[bufPtr] := f0Source;
      bufPtr := bufPtr + 1;
      lengths[bufPtr] := nF0;
      bufPtr := bufPtr + 1;
      sources[bufPtr] := f1Source;
      bufPtr := (bufPtr + 1) % RING;
      lengths[bufPtr] := nF1;
      SlotNext(bufPtr0, |chunks|);
      assert sources[..] == s[4 * slot + 1 := f0Source][4 * slot + 3 := f1Source];
      assert lengths[..] == l[4 * slot + 2 := nF0][(4 * slot + 4) % RING := nF1];
      RingGrows(old(sources[..]), old(lengths[..]), s, l, bufPtr0, chunks, f0Source, f1Source, (nF0, nF1), sources[..],
                lengths[..]);
      chunks := chunks + [(nF0, nF1)];
      transmitted := total;
      f0Transmitted := f0Transmitted + nF0;
    }
  }

  lemma SymbolClocks(fPwmClk: real, tsym: real)
    requires 0.0 <= fPwmClk && 0.0 <= tsym
    ensures Round(fPwmClk * tsym) >= 0
  {
    assert fPwmClk * tsym >= 0.0;
    RoundMonotone(0.0, fPwmClk * tsym);
  }

  lemma NoChunks(ratio: real)
    ensures Clocks([]) == 0 && LowClocks([]) == 0 && Shared([], ratio) && Round(Share(ratio, 0.0)) == 0
    ensures forall random: nat -> real, perSym: int :: Cut([], random, perSym)
  {
  }

  /** The cycles two frequencies make in the chunks stay within half a step of the tone's own, however the symbol
      was cut into chunks. */
  lemma FrequencyExact(f0: real, f1: real, tone: real, chunks: seq<(int, int)>)
    requires f0 < tone <= f1 && Shared(chunks, Ratio(f0, f1, tone))
    ensures var low, all := LowClocks(chunks) as real, Clocks(chunks) as real;
            var cycles := low * f0 + (all - low) * f1;
            -(0.5 * (f1 - f0)) <= cycles - all * tone <= 0.5 * (f1 - f0)
  {
    hide Ratio, Clocks, LowClocks;
    RatioIsShare(f0, f1, tone);
    assert chunks[..|chunks|] == chunks;
    assert InBalance(chunks, Ratio(f0, f1, tone));
    Cycles(f0, f1, tone, Ratio(f0, f1, tone), LowClocks(chunks) as real, Clocks(chunks) as real);
  }

  lemma Cycles(f0: real, f1: real, tone: real, ratio: real, low: real, all: real)
    requires f0 < f1 && ratio * f0 + (1.0 - ratio) * f1 == tone && -0.5 <= low - ratio * all <= 0.5
    ensures -(0.5 * (f1 - f0)) <= low * f0 + (all - low) * f1 - all * tone <= 0.5 * (f1 - f0)
  {
    var e, d := low - ratio * all, f1 - f0;
    assert all * tone == ratio * all * f0 + (all - ratio * all) * f1;
    assert low * f0 + (all - low) * f1 - all * tone == e * (f0 - f1);
    var off := low * f0 + (all - low) * f1 - all * tone;
    assert off == -(e * d) by { assert e * (f0 - f1) == -(e * d); }
    Scaled(e, d, off);
  }

  lemma Scaled(e: real, d: real, off: real)
    requires d > 0.0 && -0.5 <= e <= 0.5 && off == -(e * d)
    ensures -(0.5 * d) <= off <= 0.5 * d
  {
    NotNegativeProduct(0.5 - e, d);
    NotNegativeProduct(e + 0.5, d);
    assert (0.5 - e) * d == 0.5 * d - e * d;
    assert (e + 0.5) * d == e * d + 0.5 * d;
  }

  lemma NotNegativeProduct(x: real, y: real)
    requires x >= 0.0 && y >= 0.0
    ensures x * y >= 0.0
  {
  }
}
