/** The transmitter's tones: tuning words of a fractional divider, and the dither between two of them. */
module Dither {

  const STEPS := 4096
  const WORDS := 1024
  const TONES := 8
  const PWM_CLOCKS_PER_ITER_NOMINAL := 1000

  // ----- tuning words -----

  /** A divider value cut off at twelve fractional bits. */
  function BitTrunc(d: real): real {
    (d * STEPS as real).Floor as real / STEPS as real
  }

  /** The frequency of a tone. */
  function Tone(center: real, spacing: real, sym: nat): real {
    center - 1.5 * spacing + sym as real * spacing
  }

  /** The divider as the number of steps that is stored for it. */
  function Word(div: real): int {
    (div * STEPS as real).Floor
  }

  /** The two tuning words of a tone: entry 2 * sym is one step above entry 2 * sym + 1. */
  function TuningWord(plld: real, center: real, spacing: real, i: nat): int
    requires Tone(center, spacing, i / 2) != 0.0
  {
    var div := BitTrunc(plld / Tone(center, spacing, i / 2));
    Word(if i % 2 == 0 then div + 1.0 / STEPS as real else div)
  }

  /** The centre frequency used: moved when the lowest and the highest of the first four tones need different
      integer parts of the divider. */
  function CenterActual(plld: real, center: real, spacing: real): real
    requires spacing > 0.0 && 0.0 < center - 1.5 * spacing <= plld
  {
    var lo := BitTrunc(plld / (center - 1.5 * spacing)) + 1.0 / STEPS as real;
    var hi := BitTrunc(plld / (center + 1.5 * spacing));
    DividerNotZero(plld, center - 1.5 * spacing);
    if lo.Floor != hi.Floor then plld / lo.Floor as real - 1.6 * spacing else center
  }

  lemma DividerNotZero(plld: real, tone: real)
    requires 0.0 < tone <= plld
    ensures (BitTrunc(plld / tone) + 1.0 / STEPS as real).Floor >= 1
  {
    var q := plld / tone;
    QuotientAtLeastOne(q, tone, plld);
    assert (q * STEPS as real).Floor >= STEPS;
  }

  /** The whole steps in a quotient. */
  lemma StepsOf(q: real)
    ensures var w := (q * STEPS as real).Floor;
            && Word(BitTrunc(q)) == w && Word(BitTrunc(q) + 1.0 / STEPS as real) == w + 1
            && w as real <= q * STEPS as real < (w + 1) as real
  {
    var w := (q * STEPS as real).Floor;
    assert BitTrunc(q) * STEPS as real == w as real;
    assert (BitTrunc(q) + 1.0 / STEPS as real) * STEPS as real == w as real + 1.0;
  }

  /** The lower word of a tone. */
  function Steps(plld: real, tone: real): int
    requires tone > 0.0
  {
    (plld / tone * STEPS as real).Floor
  }

  lemma WordsOf(plld: real, center: real, spacing: real, sym: nat)
    requires Tone(center, spacing, sym) > 0.0
    ensures TuningWord(plld, center, spacing, 2 * sym + 1) == Steps(plld, Tone(center, spacing, sym))
    ensures TuningWord(plld, center, spacing, 2 * sym) == Steps(plld, Tone(center, spacing, sym)) + 1
  {
    StepsOf(plld / Tone(center, spacing, sym));
  }

  /** The frequency a tuning word makes. */
  function Frequency(plld: real, word: int): real
    requires word != 0
  {
    plld / (word as real / STEPS as real)
  }

  lemma StepsPositive(plld: real, tone: real)
    requires 0.0 < tone <= plld
    ensures Steps(plld, tone) >= STEPS
  {
    var q := plld / tone;
    assert q * tone == plld;
    QuotientAtLeastOne(q, tone, plld);
  }

  lemma QuotientAtLeastOne(q: real, tone: real, plld: real)
    requires 0.0 < tone <= plld && q * tone == plld
    ensures q >= 1.0
  {
    assert (q - 1.0) * tone >= 0.0;
  }

  /** The two frequencies lie on both sides of the tone: the first strictly below, the second at or above. */
  lemma ToneBetween(plld: real, tone: real)
    requires 0.0 < tone <= plld
    ensures Steps(plld, tone) > 0
    ensures Frequency(plld, Steps(plld, tone) + 1) < tone <= Frequency(plld, Steps(plld, tone))
  {
    StepsPositive(plld, tone);
    var w, q := Steps(plld, tone), plld / tone;
    Below(plld, tone, q, w + 1);
    Above(plld, tone, q, w);
  }

  lemma FrequencyTimes(plld: real, word: int)
    requires word > 0
    ensures Frequency(plld, word) * word as real == plld * STEPS as real
  {
    var d := word as real / STEPS as real;
    var f := plld / d;
    assert f * d == plld;
    assert d * STEPS as real == word as real;
    TimesTimes(f, d, STEPS as real);
  }

  lemma TimesTimes(a: real, b: real, c: real)
    ensures a * (b * c) == a * b * c
  {
  }

  lemma Below(plld: real, tone: real, q: real, word: int)
    requires 0.0 < tone <= plld && q * tone == plld && word > 0 && q * STEPS as real < word as real
    ensures Frequency(plld, word) < tone
  {
    hide Frequency;
    FrequencyTimes(plld, word);
    var f, w, s := Frequency(plld, word), word as real, STEPS as real;
    assert f * w == q * s * tone by { TimesTimes(tone, q, s); }
    LessFactor(f, w, q * s, tone);
  }

  lemma LessFactor(f: real, w: real, v: real, tone: real)
    requires f * w == v * tone && v < w && tone > 0.0 && w > 0.0
    ensures f < tone
  {
    assert v * tone < w * tone;
    assert (tone - f) * w > 0.0;
  }

  lemma Above(plld: real, tone: real, q: real, word: int)
    requires 0.0 < tone <= plld && q * tone == plld && word > 0 && word as real <= q * STEPS as real
    ensures tone <= Frequency(plld, word)
  {
    hide Frequency;
    FrequencyTimes(plld, word);
    var f, w, s := Frequency(plld, word), word as real, STEPS as real;
    assert f * w == q * s * tone by { TimesTimes(tone, q, s); }
    AtLeastFactor(f, w, q * s, tone);
  }

  lemma AtLeastFactor(f: real, w: real, v: real, tone: real)
    requires f * w == v * tone && w <= v && tone > 0.0 && w > 0.0
    ensures tone <= f
  {
    assert w * tone <= v * tone;
    NotNegative(f - tone, w);
  }

  lemma NotNegative(x: real, w: real)
    requires w > 0.0 && x * w >= 0.0
    ensures x >= 0.0
  {
  }

  /** The integer part of the divider, the bits of a word above the fraction. */
  function IntegerPart(word: int): int {
    word / STEPS
  }

  /** The two words of a tone have one integer part exactly when the lower one does not end in all ones. */
  lemma SamePart(w: int)
    ensures IntegerPart(w + 1) == IntegerPart(w) <==> w % STEPS != STEPS - 1
  {
  }

  /** The frequency used is such that every tone is positive and below the source clock. */
  predicate InRange(plld: real, center: real, spacing: real) {
    && spacing > 0.0 && 0.0 < center - 1.5 * spacing <= plld
    && 0.0 < Tone(CenterActual(plld, center, spacing), spacing, 0)
    && Tone(CenterActual(plld, center, spacing), spacing, TONES - 1) <= plld
  }

  lemma TonesInRange(plld: real, center: real, spacing: real, sym: nat)
    requires InRange(plld, center, spacing) && sym < TONES
    ensures 0.0 < Tone(CenterActual(plld, center, spacing), spacing, sym) <= plld
  {
    hide CenterActual;
    assert 0.0 <= sym as real * spacing <= 7.0 * spacing;
  }

  /** The first four tones, when the centre stays: their words share one integer part, so each pair does. */
  lemma FirstTonesShare(plld: real, center: real, spacing: real, sym: nat)
    requires InRange(plld, center, spacing) && CenterActual(plld, center, spacing) == center && sym < 4
    requires (BitTrunc(plld / (center - 1.5 * spacing)) + 1.0 / STEPS as real).Floor
             == BitTrunc(plld / (center + 1.5 * spacing)).Floor
    ensures Steps(plld, Tone(center, spacing, sym)) % STEPS != STEPS - 1
  {
    hide CenterActual, BitTrunc;
    TonesInRange(plld, center, spacing, sym);
    TonesInRange(plld, center, spacing, 3);
    var lowest, tone, highest := Tone(center, spacing, 0), Tone(center, spacing, sym), Tone(center, spacing, 3);
    assert lowest == center - 1.5 * spacing && highest == center + 1.5 * spacing;
    assert 0.0 <= sym as real * spacing <= 3.0 * spacing;
    QuotientFalls(plld, lowest, tone);
    QuotientFalls(plld, tone, highest);
    FloorParts(plld / lowest);
    FloorParts(plld / highest);
    PartsOrdered(plld / lowest, plld / tone, plld / highest);
  }

  lemma QuotientFalls(plld: real, a: real, b: real)
    requires 0.0 < a <= b && plld > 0.0
    ensures plld / b <= plld / a
  {
    var x, y := plld / a, plld / b;
    assert x * a == plld && y * b == plld;
    assert y * a <= y * b by { PositiveQuotient(plld, b); }
    assert (x - y) * a >= 0.0;
    NotNegative(x - y, a);
  }

  lemma PositiveQuotient(plld: real, b: real)
    requires plld > 0.0 && b > 0.0
    ensures plld / b > 0.0
  {
  }

  /** The integer parts compared in the check, in steps. */
  lemma FloorParts(q: real)
    requires q > 0.0
    ensures var w := (q * STEPS as real).Floor;
            BitTrunc(q).Floor == w / STEPS && (BitTrunc(q) + 1.0 / STEPS as real).Floor == (w + 1) / STEPS
  {
    var w := (q * STEPS as real).Floor;
    StepsFloor(w);
    StepsFloor(w + 1);
    assert BitTrunc(q) + 1.0 / STEPS as real == (w + 1) as real / STEPS as real;
  }

  lemma StepsFloor(w: int)
    ensures (w as real / STEPS as real).Floor == w / STEPS
  {
    var k, r := w / STEPS, w % STEPS;
    assert w == k * STEPS + r;
    assert w as real / STEPS as real == k as real + r as real / STEPS as real;
  }

  lemma PartsOrdered(a: real, b: real, c: real)
    requires c <= b <= a && c > 0.0
    requires ((a * STEPS as real).Floor + 1) / STEPS == (c * STEPS as real).Floor / STEPS
    ensures (b * STEPS as real).Floor % STEPS != STEPS - 1
  {
    var u, v, w := (a * STEPS as real).Floor, (b * STEPS as real).Floor, (c * STEPS as real).Floor;
    assert w <= v <= u;
    assert v / STEPS == w / STEPS && (v + 1) / STEPS == w / STEPS;
  }

  /** A setting inside the range for which the fifth tone's words do not share an integer part: the check looks
      at four tones only, and eight are sent. */
  lemma FifthToneSplits()
    ensures InRange(500000000.0, 13888888.0, 6.25)
    ensures Steps(500000000.0, Tone(CenterActual(500000000.0, 13888888.0, 6.25), 6.25, 4)) % STEPS == STEPS - 1
  {
    var plld, spacing := 500000000.0, 6.25;
    assert (plld / 13888878.625 * 4096.0).Floor == 147456;
    assert (plld / 13888897.375 * 4096.0).Floor == 147455;
    FloorParts(plld / 13888878.625);
    FloorParts(plld / 13888897.375);
    assert CenterActual(plld, 13888888.0, spacing) == plld / 36.0 - 10.0;
    var tone := Tone(plld / 36.0 - 10.0, spacing, 4);
    assert tone == plld / 36.0 + 5.625;
    assert (plld / tone * 4096.0).Floor == 147455;
  }

  // ----- the exact condition, in terms of the settings -----

  /** The tone lies just above the source clock's k-th part, by less than a step of the divider. */
  predicate SplitBy(plld: real, tone: real, k: int) {
    plld < tone * k as real && tone * (STEPS * k - 1) as real <= STEPS as real * plld
  }

  /** The two words of the tone have different integer parts. */
  ghost predicate Splits(plld: real, tone: real) {
    exists k: int :: k >= 1 && SplitBy(plld, tone, k)
  }

  lemma Compares(a: real, b: real, t: real)
    requires t > 0.0
    ensures a <= b <==> a * t <= b * t
  {
    if a <= b {
      ProductNotNegative(b - a, t);
    } else {
      ProductAbove(a - b, t);
    }
  }

  lemma ProductNotNegative(x: real, y: real)
    requires x >= 0.0 && y >= 0.0
    ensures x * y >= 0.0
  {
  }

  lemma ProductAbove(x: real, y: real)
    requires x > 0.0 && y > 0.0
    ensures x * y > 0.0
  {
  }

  lemma SplitWord(plld: real, tone: real, q: real, k: int)
    requires tone > 0.0 && q * tone == plld
    ensures (q * STEPS as real).Floor == STEPS * k - 1 <==> SplitBy(plld, tone, k)
    ensures (q * STEPS as real).Floor < STEPS * k - 1 <==> STEPS as real * plld < tone * (STEPS * k - 1) as real
    ensures (q * STEPS as real).Floor >= STEPS * k <==> tone * k as real <= plld
  {
    var x, c := q * STEPS as real, STEPS as real * plld;
    assert x * tone == c by { TimesTimes(STEPS as real, q, tone); }
    FloorOfQuotient(x, tone, c, STEPS * k - 1);
    FloorOfQuotient(x, tone, c, STEPS * k);
    assert tone * (STEPS * k) as real == STEPS as real * (tone * k as real);
  }

  lemma FloorOfQuotient(x: real, tone: real, c: real, n: int)
    requires tone > 0.0 && x * tone == c
    ensures x.Floor < n <==> c < tone * n as real
  {
    var y := n as real;
    FloorBelow(x, n);
    Compares(y, x, tone);
    assert y * tone == tone * y;
  }

  lemma FloorBelow(x: real, n: int)
    ensures x.Floor < n <==> x < n as real
  {
  }

  /** The lower word of a tone ends in twelve ones exactly when some part of the source clock lies just below it. */
  lemma SplitsExactly(plld: real, tone: real)
    requires 0.0 < tone <= plld
    ensures Steps(plld, tone) % STEPS == STEPS - 1 <==> Splits(plld, tone)
  {
    hide SplitBy;
    var q, w := plld / tone, Steps(plld, tone);
    assert q * tone == plld;
    StepsPositive(plld, tone);
    if w % STEPS == STEPS - 1 {
      var k := w / STEPS + 1;
      assert w == STEPS * k - 1;
      SplitWord(plld, tone, q, k);
    }
    if Splits(plld, tone) {
      var k: int :| k >= 1 && SplitBy(plld, tone, k);
      SplitWord(plld, tone, q, k);
    }
  }

  /** The integer part of the divider for the lowest tone, one step up: the part the centre is moved by. */
  function LowPart(plld: real, center: real, spacing: real): int
    requires spacing > 0.0 && 0.0 < center - 1.5 * spacing <= plld
  {
    (BitTrunc(plld / (center - 1.5 * spacing)) + 1.0 / STEPS as real).Floor
  }

  /** The integer part of the divider for tone sym at the desired centre. */
  function PartOf(plld: real, center: real, spacing: real, sym: nat): int
    requires spacing > 0.0 && 0.0 < center - 1.5 * spacing
  {
    assert sym as real * spacing >= 0.0;
    BitTrunc(plld / Tone(center, spacing, sym)).Floor
  }

  lemma CenterIs(plld: real, center: real, spacing: real)
    requires spacing > 0.0 && 0.0 < center - 1.5 * spacing <= plld
    ensures LowPart(plld, center, spacing) >= 1
    ensures CenterActual(plld, center, spacing) ==
            if LowPart(plld, center, spacing) != PartOf(plld, center, spacing, 3)
            then plld / LowPart(plld, center, spacing) as real - 1.6 * spacing else center
  {
    DividerNotZero(plld, center - 1.5 * spacing);
    assert Tone(center, spacing, 3) == center + 1.5 * spacing;
  }

  /** Whenever the centre is moved, and nine tenths of the spacing are less than a step of the divider, the fifth
      tone's words split: it is moved just above the part of the source clock that the first four are below. */
  lemma MovedCentreFails(plld: real, center: real, spacing: real)
    requires InRange(plld, center, spacing) && LowPart(plld, center, spacing) != PartOf(plld, center, spacing, 3)
    requires var k := LowPart(plld, center, spacing);
             k >= 1 && (plld / k as real + 0.9 * spacing) * (STEPS * k - 1) as real <= STEPS as real * plld
    ensures Splits(plld, Tone(CenterActual(plld, center, spacing), spacing, 4))
  {
    hide LowPart, PartOf, CenterActual;
    CenterIs(plld, center, spacing);
    var k := LowPart(plld, center, spacing);
    var tone := Tone(CenterActual(plld, center, spacing), spacing, 4);
    assert tone == plld / k as real + 0.9 * spacing;
    PartAbove(plld, k as real, 0.9 * spacing);
    assert SplitBy(plld, tone, k);
  }

  lemma PartAbove(plld: real, k: real, d: real)
    requires k > 0.0 && d > 0.0
    ensures (plld / k + d) * k > plld
  {
    assert plld / k * k == plld;
    ProductAbove(d, k);
    assert (plld / k + d) * k == plld / k * k + d * k;
  }

  /** The spacing is at most a step of the divider at the part of the source clock next to the lowest tone. */
  predicate Fine(plld: real, spacing: real, k: int) {
    spacing * k as real * (STEPS * k - 1) as real <= plld
  }

  /** With a fine spacing, no tone jumps over the range in which its words split. */
  lemma NoJump(plld: real, tone: real, spacing: real, k: int)
    requires k >= 1 && spacing > 0.0 && tone > 0.0 && Fine(plld, spacing, k) && tone * k as real <= plld
    ensures (tone + spacing) * (STEPS * k - 1) as real <= STEPS as real * plld
  {
    var r, y := k as real, (STEPS * k - 1) as real;
    assert tone * r * y <= plld * y by { Compares(tone * r, plld, y); }
    assert (tone + spacing) * y * r == tone * r * y + spacing * r * y;
    assert plld * y + plld == STEPS as real * plld * r by {
      assert y + 1.0 == STEPS as real * r;
      assert plld * (y + 1.0) == plld * y + plld;
    }
    Compares((tone + spacing) * y, STEPS as real * plld, r);
  }

  /** The words of the tones at a centre that stays fall from a part k to below it, and with a fine spacing one of
      them is the last below k. */
  lemma {:induction false} FallsThrough(plld: real, center: real, spacing: real, k: int, sym: nat) returns (t: nat)
    requires spacing > 0.0 && 0.0 < Tone(center, spacing, 0) && Tone(center, spacing, sym) <= plld
    requires k >= 1 && Fine(plld, spacing, k)
    requires 0.0 < Tone(center, spacing, sym)
    requires Steps(plld, Tone(center, spacing, 0)) >= STEPS * k - 1
    requires Steps(plld, Tone(center, spacing, sym)) < STEPS * k
    ensures t <= sym && 0.0 < Tone(center, spacing, t) && Splits(plld, Tone(center, spacing, t))
  {
    hide Fine, SplitBy, Splits, Tone, Steps;
    var tone := Tone(center, spacing, sym);
    StepsWord(plld, tone, k);
    if Steps(plld, tone) == STEPS * k - 1 {
      t := sym;
      SplitsIs(plld, tone, k);
    } else {
      assert sym > 0;
      var before := Tone(center, spacing, sym - 1);
      Adjacent(center, spacing, sym);
      StepsWord(plld, before, k);
      if Steps(plld, before) >= STEPS * k {
        NoJump(plld, before, spacing, k);
      }
      t := FallsThrough(plld, center, spacing, k, sym - 1);
    }
  }

  lemma Adjacent(center: real, spacing: real, sym: nat)
    requires spacing > 0.0 && sym > 0
    ensures Tone(center, spacing, sym - 1) + spacing == Tone(center, spacing, sym)
    ensures Tone(center, spacing, sym - 1) >= Tone(center, spacing, 0)
  {
    assert (sym - 1) as real * spacing >= 0.0;
    assert sym as real * spacing == (sym - 1) as real * spacing + spacing;
  }

  lemma StepsWord(plld: real, tone: real, k: int)
    requires tone > 0.0
    ensures Steps(plld, tone) == STEPS * k - 1 <==> SplitBy(plld, tone, k)
    ensures Steps(plld, tone) < STEPS * k - 1 <==> STEPS as real * plld < tone * (STEPS * k - 1) as real
    ensures Steps(plld, tone) >= STEPS * k <==> tone * k as real <= plld
  {
    hide SplitBy;
    SplitWord(plld, tone, plld / tone, k);
  }

  lemma SplitsIs(plld: real, tone: real, k: int)
    requires k >= 1 && SplitBy(plld, tone, k)
    ensures Splits(plld, tone)
  {
  }

  /** The exact condition for a fine spacing: no tone splits exactly when the integer parts are equal for the first
      and the eighth tone; the source compares the first and the fourth. */
  lemma AgreesExactly(plld: real, center: real, spacing: real)
    requires InRange(plld, center, spacing) && Fine(plld, spacing, LowPart(plld, center, spacing))
    ensures (forall sym: nat :: sym < TONES ==> !Splits(plld, Tone(CenterActual(plld, center, spacing), spacing, sym)))
            <==> LowPart(plld, center, spacing) == PartOf(plld, center, spacing, TONES - 1)
  {
    hide LowPart, PartOf, CenterActual, Splits, InRange, Fine;
    RangeFacts(plld, center, spacing);
    CenterIs(plld, center, spacing);
    PartsFall(plld, center, spacing);
    var k := LowPart(plld, center, spacing);
    if k != PartOf(plld, center, spacing, 3) {
      FineMoved(plld, spacing, k);
      MovedCentreFails(plld, center, spacing);
    } else {
      StaysExactly(plld, center, spacing);
    }
  }

  /** Nine tenths of a fine spacing are within a step as well. */
  lemma FineMoved(plld: real, spacing: real, k: int)
    requires k >= 1 && spacing > 0.0 && Fine(plld, spacing, k)
    ensures (plld / k as real + 0.9 * spacing) * (STEPS * k - 1) as real <= STEPS as real * plld
  {
    hide Fine;
    var tone := plld / k as real;
    var y := (STEPS * k - 1) as real;
    assert tone * k as real == plld;
    if tone > 0.0 {
      NoJump(plld, tone, spacing, k);
      Compares(tone + 0.9 * spacing, tone + spacing, y);
    } else {
      FineNeedsClock(plld, spacing, k);
      assert false;
    }
  }

  lemma FineNeedsClock(plld: real, spacing: real, k: int)
    requires k >= 1 && spacing > 0.0 && Fine(plld, spacing, k)
    ensures plld / k as real > 0.0
  {
    ProductAbove(spacing, k as real);
    ProductAbove(spacing * k as real, (STEPS * k - 1) as real);
    PositiveQuotient(plld, k as real);
  }

  /** The integer parts, from the words. */
  lemma PartsInSteps(plld: real, center: real, spacing: real, sym: nat)
    requires spacing > 0.0 && 0.0 < center - 1.5 * spacing <= plld
    ensures 0.0 < Tone(center, spacing, 0) <= Tone(center, spacing, sym)
    ensures LowPart(plld, center, spacing) == (Steps(plld, Tone(center, spacing, 0)) + 1) / STEPS
    ensures PartOf(plld, center, spacing, sym) == Steps(plld, Tone(center, spacing, sym)) / STEPS
  {
    hide BitTrunc;
    var lowest, tone := Tone(center, spacing, 0), Tone(center, spacing, sym);
    assert lowest == center - 1.5 * spacing;
    ProductNotNegative(sym as real, spacing);
    PositiveQuotient(plld, lowest);
    PositiveQuotient(plld, tone);
    FloorParts(plld / lowest);
    FloorParts(plld / tone);
  }

  /** The words do not grow from tone to tone. */
  lemma StepsFall(plld: real, center: real, spacing: real, i: nat, j: nat)
    requires spacing > 0.0 && 0.0 < Tone(center, spacing, 0) && plld > 0.0 && i <= j
    ensures 0.0 < Tone(center, spacing, i) <= Tone(center, spacing, j)
    ensures Steps(plld, Tone(center, spacing, j)) <= Steps(plld, Tone(center, spacing, i))
  {
    var a, b := Tone(center, spacing, i), Tone(center, spacing, j);
    ProductNotNegative(i as real, spacing);
    ProductNotNegative((j - i) as real, spacing);
    assert b == a + (j - i) as real * spacing;
    QuotientFalls(plld, a, b);
  }

  /** The integer parts do not grow from tone to tone. */
  lemma PartsFall(plld: real, center: real, spacing: real)
    requires spacing > 0.0 && 0.0 < center - 1.5 * spacing <= plld
    ensures PartOf(plld, center, spacing, TONES - 1) <= PartOf(plld, center, spacing, 3)
            <= LowPart(plld, center, spacing)
  {
    hide PartOf, LowPart, Steps, Tone;
    PartsInSteps(plld, center, spacing, 3);
    PartsInSteps(plld, center, spacing, TONES - 1);
    StepsFall(plld, center, spacing, 0, 3);
    StepsFall(plld, center, spacing, 3, TONES - 1);
  }

  /** A word between two with one integer part, the higher one step up, does not end in twelve ones. */
  lemma Between(u: int, v: int, w: int)
    requires w <= v <= u && (u + 1) / STEPS == w / STEPS
    ensures v % STEPS != STEPS - 1
  {
  }

  /** The condition when the centre stays. */
  lemma StaysExactly(plld: real, center: real, spacing: real)
    requires InRange(plld, center, spacing) && CenterActual(plld, center, spacing) == center
    requires Fine(plld, spacing, LowPart(plld, center, spacing))
    ensures (forall sym: nat :: sym < TONES ==> !Splits(plld, Tone(center, spacing, sym)))
            <==> LowPart(plld, center, spacing) == PartOf(plld, center, spacing, TONES - 1)
  {
    hide CenterActual, PartOf, LowPart, Splits, Fine, Steps, InRange, Tone;
    RangeFacts(plld, center, spacing);
    CenterIs(plld, center, spacing);
    PartsFall(plld, center, spacing);
    PartsInSteps(plld, center, spacing, TONES - 1);
    var k, part := LowPart(plld, center, spacing), PartOf(plld, center, spacing, TONES - 1);
    var u, w := Steps(plld, Tone(center, spacing, 0)), Steps(plld, Tone(center, spacing, TONES - 1));
    if k == part {
      forall sym: nat | sym < TONES
        ensures !Splits(plld, Tone(center, spacing, sym))
      {
        TonesInRange(plld, center, spacing, sym);
        StepsFall(plld, center, spacing, 0, sym);
        StepsFall(plld, center, spacing, sym, TONES - 1);
        Between(u, Steps(plld, Tone(center, spacing, sym)), w);
        SplitsExactly(plld, Tone(center, spacing, sym));
      }
    } else {
      TonesInRange(plld, center, spacing, TONES - 1);
      assert u >= STEPS * k - 1 && w < STEPS * k;
      var t := FallsThrough(plld, center, spacing, k, TONES - 1);
    }
  }

  /** The table of frequencies and the words as the divider takes them; tells whether all pairs share integer parts. */
  method ProgramTable(plld: real, tuningWord: array<int>, dmaTableFreq: array<real>, constPage: array<int>)
    returns (partsAgree: bool)
    requires tuningWord.Length == dmaTableFreq.Length == constPage.Length == WORDS
    requires tuningWord != constPage && forall i :: 0 <= i < WORDS ==> tuningWord[i] > 0
    modifies dmaTableFreq, constPage
    ensures forall k :: 0 <= k < WORDS ==>
              dmaTableFreq[k] == Frequency(plld, tuningWord[k]) && constPage[k] == 0x5A00_0000 + tuningWord[k]
    ensures partsAgree <==> forall k :: 0 <= k < 2 * TONES && k % 2 == 0 ==>
              IntegerPart(tuningWord[k]) == IntegerPart(tuningWord[k + 1])
  {
    hide Frequency, IntegerPart;
    ghost var words := tuningWord[..];
    partsAgree := true;
    var i := 0;
    while i < WORDS
      invariant 0 <= i <= WORDS && tuningWord[..] == words
      invariant forall k :: 0 <= k < i ==>
                  dmaTableFreq[k] == Frequency(plld, words[k]) && constPage[k] == 0x5A00_0000 + words[k]
      invariant partsAgree <==> forall k :: 0 <= k < i && k < 2 * TONES && k % 2 == 0 ==>
                  IntegerPart(words[k]) == IntegerPart(words[k + 1])
    {
      dmaTableFreq[i] := Frequency(plld, tuningWord[i]);
      constPage[i] := 0x5A00_0000 + tuningWord[i];
      if i % 2 == 0 && i < 2 * TONES {
        partsAgree := partsAgree && IntegerPart(tuningWord[i]) == IntegerPart(tuningWord[i + 1]);
      }
      i := i + 1;
    }
    forall k | 0 <= k < WORDS
      ensures tuningWord[k] == words[k]
    {
    }
  }

  /** Fills the table of tuning words and the frequencies they make; tells whether all pairs share integer parts. */
  method SetupDMATab(centerDesired: real, spacing: real, plld: real, dmaTableFreq: array<real>, constPage: array<int>)
    returns (centerActual: real, partsAgree: bool)
    requires InRange(plld, centerDesired, spacing)
    requires dmaTableFreq.Length == WORDS && constPage.Length == WORDS
    modifies dmaTableFreq, constPage
    ensures centerActual == CenterActual(plld, centerDesired, spacing)
    ensures forall sym: nat {:trigger Tone(centerActual, spacing, sym)} :: sym < TONES ==>
              dmaTableFreq[2 * sym] < Tone(centerActual, spacing, sym) <= dmaTableFreq[2 * sym + 1]
    ensures forall sym: nat {:trigger Tone(centerActual, spacing, sym)} :: sym < TONES ==>
              0.0 < Tone(centerActual, spacing, sym) &&
              constPage[2 * sym + 1] == 0x5A00_0000 + Steps(plld, Tone(centerActual, spacing, sym)) &&
              constPage[2 * sym] == constPage[2 * sym + 1] + 1
    ensures partsAgree <==>
            forall sym: nat :: sym < TONES ==>
              !Splits(plld, Tone(CenterActual(plld, centerDesired, spacing), spacing, sym))
    ensures Fine(plld, spacing, LowPart(plld, centerDesired, spacing)) ==>
              (partsAgree <==>
               LowPart(plld, centerDesired, spacing) == PartOf(plld, centerDesired, spacing, TONES - 1))
  {
    hide Steps, Frequency, BitTrunc, InRange, IntegerPart, Tone, Splits, LowPart, PartOf, Fine;
    assert spacing > 0.0 && 0.0 < centerDesired - 1.5 * spacing <= plld by { RangeFacts(plld, centerDesired, spacing); }
    centerActual := centerDesired;
    var divLo := BitTrunc(plld / (centerDesired - 1.5 * spacing)) + 1.0 / STEPS as real;
    var divHi := BitTrunc(plld / (centerDesired + 1.5 * spacing));
    DividerNotZero(plld, centerDesired - 1.5 * spacing);
    if divLo.Floor != divHi.Floor {
      centerActual := plld / divLo.Floor as real - 1.6 * spacing;
    }
    assert centerActual == CenterActual(plld, centerDesired, spacing);
    hide CenterActual;
    var tuningWord := new int[WORDS];
    FillWords(plld, centerDesired, centerActual, spacing, tuningWord);
    partsAgree := ProgramTable(plld, tuningWord, dmaTableFreq, constPage);
    ghost var words := tuningWord[..];
    forall sym: nat | sym < TONES
      ensures dmaTableFreq[2 * sym] < Tone(centerActual, spacing, sym) <= dmaTableFreq[2 * sym + 1]
      ensures 0.0 < Tone(centerActual, spacing, sym)
      ensures constPage[2 * sym + 1] == 0x5A00_0000 + Steps(plld, Tone(centerActual, spacing, sym))
      ensures constPage[2 * sym] == constPage[2 * sym + 1] + 1
    {
      assert ToneWords(plld, centerActual, spacing, words, sym);
      TonesInRange(plld, centerDesired, spacing, sym);
      ToneBetween(plld, Tone(centerActual, spacing, sym));
    }
    PartsAgree(plld, centerActual, spacing, tuningWord[..]);
    forall sym: nat | sym < TONES
      ensures 0.0 < Tone(centerActual, spacing, sym)
      ensures Splits(plld, Tone(centerActual, spacing, sym)) <==>
              Steps(plld, Tone(centerActual, spacing, sym)) % STEPS == STEPS - 1
    {
      TonesInRange(plld, centerDesired, spacing, sym);
      SplitsExactly(plld, Tone(centerActual, spacing, sym));
    }
    if Fine(plld, spacing, LowPart(plld, centerDesired, spacing)) {
      AgreesExactly(plld, centerDesired, spacing);
    }
  }

  /** The comparison of all pairs, in terms of the tones. */
  lemma PartsAgree(plld: real, center: real, spacing: real, words: seq<int>)
    requires |words| == WORDS
    requires forall sym: nat :: sym < TONES ==> ToneWords(plld, center, spacing, words, sym)
    ensures (forall k :: 0 <= k < 2 * TONES && k % 2 == 0 ==> IntegerPart(words[k]) == IntegerPart(words[k + 1]))
       <==> forall sym: nat {:trigger Tone(center, spacing, sym)} :: sym < TONES ==>
              0.0 < Tone(center, spacing, sym) && Steps(plld, Tone(center, spacing, sym)) % STEPS != STEPS - 1
  {
    hide Tone, Steps, IntegerPart;
    forall sym: nat | sym < TONES
      ensures 0.0 < Tone(center, spacing, sym)
      ensures IntegerPart(words[2 * sym]) == IntegerPart(words[2 * sym + 1]) <==>
              Steps(plld, Tone(center, spacing, sym)) % STEPS != STEPS - 1
    {
      assert ToneWords(plld, center, spacing, words, sym);
      SamePart(Steps(plld, Tone(center, spacing, sym)));
    }
    forall k | 0 <= k < 2 * TONES && k % 2 == 0
      ensures 0.0 < Tone(center, spacing, k / 2)
      ensures IntegerPart(words[k]) == IntegerPart(words[k + 1]) <==>
              Steps(plld, Tone(center, spacing, k / 2)) % STEPS != STEPS - 1
    {
      var sym := k / 2;
      assert k == 2 * sym;
    }
    forall sym: nat | sym < TONES
      ensures 0 <= 2 * sym < 2 * TONES && (2 * sym) % 2 == 0 && (2 * sym) / 2 == sym
    {
    }
  }

  lemma RangeFacts(plld: real, center: real, spacing: real)
    requires InRange(plld, center, spacing)
    ensures spacing > 0.0 && 0.0 < center - 1.5 * spacing <= plld
  {
  }

  /** The tuning words: two for each tone, and a fill behind them. */
  method FillWords(plld: real, ghost centerDesired: real, centerActual: real, spacing: real, tuningWord: array<int>)
    requires InRange(plld, centerDesired, spacing) && centerActual == CenterActual(plld, centerDesired, spacing)
    requires tuningWord.Length == WORDS
    modifies tuningWord
    ensures forall sym: nat :: sym < TONES ==> ToneWords(plld, centerActual, spacing, tuningWord[..], sym)
    ensures forall i :: 0 <= i < WORDS ==> tuningWord[i] > 0
  {
    hide Steps, BitTrunc, InRange, CenterActual, Tone, TuningWord;
    var i := 0;
    while i < 2 * TONES
      invariant 0 <= i <= 2 * TONES
      invariant forall k :: 0 <= k < i ==>
                  0.0 < Tone(centerActual, spacing, k / 2) <= plld &&
                  tuningWord[k] == TuningWord(plld, centerActual, spacing, k)
    {
      TonesInRange(plld, centerDesired, spacing, i / 2);
      var toneFreq := Tone(centerActual, spacing, i / 2);
      var div := BitTrunc(plld / toneFreq);
      if i % 2 == 0 {
        div := div + 1.0 / STEPS as real;
      }
      tuningWord[i] := Word(div);
      TuningWordIs(plld, centerActual, spacing, i, div);
      i := i + 1;
    }
    ghost var tones := tuningWord[..2 * TONES];
    forall sym: nat | sym < TONES
      ensures ToneWords(plld, centerActual, spacing, tones, sym)
    {
      assert (2 * sym) / 2 == sym && (2 * sym + 1) / 2 == sym;
      WordPair(plld, centerActual, spacing, tones, sym);
    }
    FillRest(tuningWord);
    assert tuningWord[..2 * TONES] == tones;
    AllPositive(plld, centerActual, spacing, tuningWord[..]);
  }

  /** The two words of a tone. */
  ghost predicate ToneWords(plld: real, center: real, spacing: real, words: seq<int>, sym: nat) {
    && 2 * sym + 1 < |words|
    && 0.0 < Tone(center, spacing, sym)
    && words[2 * sym + 1] == Steps(plld, Tone(center, spacing, sym)) && words[2 * sym] == words[2 * sym + 1] + 1
    && words[2 * sym + 1] > 0
  }

  lemma WordPair(plld: real, center: real, spacing: real, words: seq<int>, sym: nat)
    requires |words| == 2 * TONES && sym < TONES && 0.0 < Tone(center, spacing, sym) <= plld
    requires words[2 * sym] == TuningWord(plld, center, spacing, 2 * sym)
    requires words[2 * sym + 1] == TuningWord(plld, center, spacing, 2 * sym + 1)
    ensures ToneWords(plld, center, spacing, words, sym)
  {
    hide Steps, Tone, TuningWord;
    WordsOf(plld, center, spacing, sym);
    StepsPositive(plld, Tone(center, spacing, sym));
  }

  lemma AllPositive(plld: real, center: real, spacing: real, words: seq<int>)
    requires |words| == WORDS
    requires forall sym: nat :: sym < TONES ==> ToneWords(plld, center, spacing, words[..2 * TONES], sym)
    requires forall i :: 2 * TONES <= i < WORDS ==> words[i] == (500 + i) * STEPS
    ensures forall sym: nat :: sym < TONES ==> ToneWords(plld, center, spacing, words, sym)
    ensures forall i :: 0 <= i < WORDS ==> words[i] > 0
  {
    hide Steps, Tone;
    forall sym: nat | sym < TONES
      ensures ToneWords(plld, center, spacing, words, sym)
    {
      assert ToneWords(plld, center, spacing, words[..2 * TONES], sym);
    }
    forall i | 0 <= i < 2 * TONES
      ensures words[i] > 0
    {
      assert ToneWords(plld, center, spacing, words, i / 2);
    }
  }

  /** The words behind the tones, just in case. */
  method FillRest(tuningWord: array<int>)
    requires tuningWord.Length == WORDS
    modifies tuningWord
    ensures tuningWord[..2 * TONES] == old(tuningWord[..2 * TONES])
    ensures forall i :: 2 * TONES <= i < WORDS ==> tuningWord[i] == (500 + i) * STEPS
  {
    var i := 2 * TONES;
    while i < WORDS
      invariant 2 * TONES <= i <= WORDS
      invariant forall k :: 2 * TONES <= k < i ==> tuningWord[k] == (500 + k) * STEPS
      invariant tuningWord[..2 * TONES] == old(tuningWord[..2 * TONES])
    {
      tuningWord[i] := Word(500.0 + i as real);
      i := i + 1;
    }
  }

  lemma TuningWordIs(plld: real, center: real, spacing: real, i: nat, div: real)
    requires Tone(center, spacing, i / 2) != 0.0
    requires div == if i % 2 == 0 then BitTrunc(plld / Tone(center, spacing, i / 2)) + 1.0 / STEPS as real
                    else BitTrunc(plld / Tone(center, spacing, i / 2))
    ensures Word(div) == TuningWord(plld, center, spacing, i)
  {
  }
}
