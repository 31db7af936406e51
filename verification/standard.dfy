/** Standard messages: two calls of 28 bits with a suffix bit each, and a grid or report of 16 bits. */
module Standard {
  import opened Words
  import opened Texts
  import opened Callsigns
  import opened TypeFour
  import CallsignTables

  const MAX22 := 4194304
  const NTOKENS := 2063592
  const MAXGRID4 := 32400

  // ----- base calls -----

  /** The six characters a base call is spread over, with its digit in the third place. */
  function Arranged(call: string, length: nat): (c6: string)
    requires 2 < length <= |call|
    ensures |c6| == 6
  {
    if StartsWith(call, "3DA0") && 4 < length <= 7 then "3D0" + call[4..length] + Spaces(7 - length)
    else if StartsWith(call, "3X") && IsLetter(At(call, 2)) && length <= 7 then
      "Q" + call[2..length] + Spaces(7 - length)
    else if IsDigit(At(call, 2)) && length <= 6 then call[..length] + Spaces(6 - length)
    else if IsDigit(At(call, 1)) && length <= 5 then " " + call[..length] + Spaces(5 - length)
    else Spaces(6)
  }

  function Place(i: nat): Table
    requires i < 6
  {
    if i == 0 then ALPHANUM_SPACE else if i == 1 then ALPHANUM else if i == 2 then NUMERIC else LETTERS_SPACE
  }

  /** All six characters are in the tables of their places. */
  predicate Standard6(c6: string)
    requires |c6| == 6
  {
    forall i :: 0 <= i < 6 ==> Nchar(c6[i], Place(i)) >= 0
  }

  /** The mixed-radix number of the first k places. */
  function Mixed(c6: string, k: nat): nat
    requires |c6| == 6 && Standard6(c6) && k <= 6
  {
    if k == 0 then 0 else Mixed(c6, k - 1) * Size(Place(k - 1)) + Nchar(c6[k - 1], Place(k - 1))
  }

  /** The whole number: each place in its own radix, the first character highest. */
  lemma MixedIs(c6: string)
    requires |c6| == 6 && Standard6(c6)
    ensures var i := (k: nat) requires k < 6 => Nchar(c6[k], Place(k));
            Mixed(c6, 6) == ((((i(0) * 36 + i(1)) * 10 + i(2)) * 27 + i(3)) * 27 + i(4)) * 27 + i(5)
  {
    hide Nchar;
    assert Mixed(c6, 0) == 0;
    assert Mixed(c6, 1) == 0 * 37 + Nchar(c6[0], Place(0));
    assert Mixed(c6, 2) == Mixed(c6, 1) * 36 + Nchar(c6[1], Place(1));
    assert Mixed(c6, 3) == Mixed(c6, 2) * 10 + Nchar(c6[2], Place(2));
    assert Mixed(c6, 4) == Mixed(c6, 3) * 27 + Nchar(c6[3], Place(3));
    assert Mixed(c6, 5) == Mixed(c6, 4) * 27 + Nchar(c6[4], Place(4));
  }

  function Range(k: nat): (p: nat)
    requires k <= 6
    ensures p > 0
  {
    if k == 0 then 1 else Range(k - 1) * Size(Place(k - 1))
  }

  lemma {:induction false} MixedBound(c6: string, k: nat)
    requires |c6| == 6 && Standard6(c6) && k <= 6
    ensures Mixed(c6, k) < Range(k)
  {
    hide Nchar;
    if k > 0 {
      MixedBound(c6, k - 1);
      CharnOfNchar(c6[k - 1], Place(k - 1));
      var a, s := Mixed(c6, k - 1), Size(Place(k - 1));
      assert (a + 1) * s <= Range(k - 1) * s;
      assert (a + 1) * s == a * s + s;
    }
  }

  /** The codes of base calls end exactly where 28 bits end. */
  lemma CodesFit()
    ensures NTOKENS + MAX22 + Range(6) == Pow2(28)
  {
    assert Range(3) == 13320;
    assert Range(6) == 262177560;
    assert Pow2(14) == 16384;
    Pow2Adds(14, 14);
  }

  /** The code of a base call, or -1. */
  function PackBasecall(call: string, length: nat): int
    requires length <= |call|
  {
    if length > 2 && Standard6(Arranged(call, length)) then Mixed(Arranged(call, length), 6) else -1
  }

  /** The characters of the first k places of a number. */
  function Unmixed(n: nat, k: nat): (s: string)
    requires k <= 6
    ensures |s| == k
  {
    if k == 0 then ""
    else Unmixed(n / Size(Place(k - 1)), k - 1) + [Charn(n % Size(Place(k - 1)), Place(k - 1))]
  }

  lemma {:induction false} UnmixedReturns(c6: string, k: nat)
    requires |c6| == 6 && Standard6(c6) && k <= 6
    ensures Unmixed(Mixed(c6, k), k) == c6[..k]
  {
    hide Nchar, Charn;
    if k > 0 {
      UnmixedReturns(c6, k - 1);
      CharnOfNchar(c6[k - 1], Place(k - 1));
      DigitOut(Mixed(c6, k - 1), Size(Place(k - 1)), Nchar(c6[k - 1], Place(k - 1)));
      assert c6[..k] == c6[..k - 1] + [c6[k - 1]];
    }
  }

  lemma DigitOut(a: nat, s: nat, r: nat)
    requires r < s
    ensures (a * s + r) / s == a && (a * s + r) % s == r
  {
    QuotientUnique(a * s + r, s, a, r);
  }

  /** The text of six characters: two prefixes are spelled in full again, and the padding goes. */
  function BaseText(c6: string): string
    requires |c6| == 6
  {
    if StartsWith(c6, "3D0") && c6[3] != ' ' then "3DA0" + Trim(c6[3..])
    else if c6[0] == 'Q' && IsLetter(c6[1]) then "3X" + Trim(c6[1..])
    else Trim(c6)
  }

  /** A base call that is taken for another one: a literal 3D0 with letters, or a literal Q with a letter. */
  predicate Mangled(base: string) {
    (StartsWith(base, "3D0") && |base| > 3) || (At(base, 0) == 'Q' && IsLetter(At(base, 1)))
  }

  /** A packable base call comes back exactly when it is not taken for another one. */
  lemma BaseReturns(base: string)
    requires NoSpaces(base) && PackBasecall(base, |base|) >= 0
    ensures BaseText(Unmixed(PackBasecall(base, |base|), 6)) == base <==> !Mangled(base)
  {
    hide Nchar, Charn, BaseText, Mangled, Mixed, Unmixed;
    var length := |base|;
    var c6 := Arranged(base, length);
    UnmixedReturns(c6, 6);
    assert c6[..6] == c6;
    Standard6Facts(c6);
    assert base[..length] == base;
    if StartsWith(base, "3DA0") && 4 < length <= 7 {
      SwaziReturns(base);
    } else if StartsWith(base, "3X") && IsLetter(At(base, 2)) && length <= 7 {
      GuineaReturns(base);
    } else if IsDigit(At(base, 2)) && length <= 6 {
      BaseReturnsPlain(base);
    } else {
      ShortReturns(base);
    }
  }

  lemma SwaziReturns(base: string)
    requires NoSpaces(base) && StartsWith(base, "3DA0") && 4 < |base| <= 7
    ensures BaseText("3D0" + base[4..] + Spaces(7 - |base|)) == base && !Mangled(base)
  {
    hide Trim;
    var c6 := "3D0" + base[4..] + Spaces(7 - |base|);
    PrefixOff("3D0", base[4..], 7 - |base|);
    assert base == "3DA0" + base[4..];
    assert c6[..3] == "3D0" && c6[3] == base[4] && base[4] in base;
    assert base[2] == 'A' && base[0] == '3';
  }

  lemma GuineaReturns(base: string)
    requires NoSpaces(base) && StartsWith(base, "3X") && 2 < |base| <= 7 && IsLetter(base[2])
    ensures BaseText("Q" + base[2..] + Spaces(7 - |base|)) == base && !Mangled(base)
  {
    hide Trim;
    var c6 := "Q" + base[2..] + Spaces(7 - |base|);
    PrefixOff("Q", base[2..], 7 - |base|);
    assert base == "3X" + base[2..];
    assert c6[0] == 'Q' && c6[1] == base[2] && base[0] == '3' && base[1] == 'X';
  }

  lemma ShortReturns(base: string)
    requires NoSpaces(base) && 2 < |base| <= 5 && IsDigit(base[1])
    ensures BaseText(" " + base + Spaces(5 - |base|)) == base && !Mangled(base)
  {
    hide Trim;
    var c6 := " " + base + Spaces(5 - |base|);
    assert c6 == Spaces(1) + base + Spaces(5 - |base|);
    TrimPadded(1, base, 5 - |base|);
    assert c6[0] == ' ';
  }

  /** Behind a prefix, trimming leaves the word. */
  lemma PrefixOff(prefix: string, word: string, k: nat)
    requires NoSpaces(word)
    ensures Trim((prefix + word + Spaces(k))[|prefix|..]) == word
  {
    hide Trim;
    assert (prefix + word + Spaces(k))[|prefix|..] == Spaces(0) + word + Spaces(k);
    TrimPadded(0, word, k);
  }

  lemma Standard6Facts(c6: string)
    requires |c6| == 6 && Standard6(c6)
    ensures c6 != Spaces(6)
  {
    assert Nchar(c6[2], Place(2)) >= 0;
  }

  lemma BaseReturnsPlain(base: string)
    requires NoSpaces(base) && 2 < |base| <= 6 && IsDigit(base[2])
    ensures BaseText(base + Spaces(6 - |base|)) == base <==> !Mangled(base)
  {
    hide Trim;
    var length := |base|;
    var c6 := base + Spaces(6 - length);
    assert c6 == Spaces(0) + base + Spaces(6 - length);
    TrimPadded(0, base, 6 - length);
    assert c6[0] == base[0] && c6[1] == base[1] && c6[2] == base[2];
    assert length > 3 ==> c6[3] == base[3] && base[3] != ' ';
    assert length == 3 ==> c6[3] == ' ';
    if StartsWith(c6, "3D0") && c6[3] != ' ' {
      assert c6[3..] == Spaces(0) + base[3..] + Spaces(6 - length);
      TrimPadded(0, base[3..], 6 - length);
      assert BaseText(c6) == "3DA0" + base[3..];
      assert BaseText(c6)[2] == 'A';
      assert StartsWith(base, "3D0") by { assert base[..3] == c6[..3]; }
    } else if c6[0] == 'Q' && IsLetter(c6[1]) {
      assert BaseText(c6)[0] == '3';
    }
  }
}
