/** The checks determine the parity bits: no nonzero word with a zero message passes all of them, so the words that
    pass are exactly the encoder's. */
module LdpcRank {
  import opened Constants
  import opened Bits
  import opened LdpcCode

  /** Bit n of a word, counted from 1, if it is a parity bit; there is no bit 0. */
  predicate ParityBit(code: seq<bool>, n: nat)
    requires |code| == N && n <= N
  {
    n > K && code[n - 1]
  }

  /** What check m says about a word whose message bits are zero. */
  lemma CheckSays(code: seq<bool>, m: nat, c: Check)
    requires |code| == N && IsCodeword(code) && AllFalse(code[..K]) && m < M && c == CheckRow(m)
    ensures c.InRange()
    ensures (((((ParityBit(code, c.n0) != ParityBit(code, c.n1)) != ParityBit(code, c.n2)) != ParityBit(code, c.n3))
              != ParityBit(code, c.n4)) != ParityBit(code, c.n5)) == ParityBit(code, c.n6)
  {
    hide CheckRow, RowParity, NumRows;
    assert Passes(code, m);
    NumRowsCountsEntries(m);
    RowParityUnrolled(code, c, NumRows(m));
    forall i | 0 <= i < K
      ensures !code[i]
    {
      assert code[..K][i] == code[i];
    }
  }

  /** The parity bits that checks 0 to 6 name. */
  predicate Sums0(code: seq<bool>)
    requires |code| == N
  {
    && (code[91] != code[95]) == code[152]
    && (code[92] != code[114]) == code[145]
    && (code[93] != code[121]) == code[150]
    && (code[94] != code[95]) == code[142]
    && (code[92] != code[95]) == code[147]
    && (code[96] != code[125]) == code[137]
    && (code[97] != code[106]) == code[153]
  }

  lemma ParityFrom0(code: seq<bool>)
    requires |code| == N && IsCodeword(code) && AllFalse(code[..K])
    ensures Sums0(code)
  {
    hide IsCodeword;
    CheckSays(code, 0, Check(4, 31, 59, 91, 92, 96, 153));
    CheckSays(code, 1, Check(5, 32, 60, 93, 115, 146, 0));
    CheckSays(code, 2, Check(6, 24, 61, 94, 122, 151, 0));
    CheckSays(code, 3, Check(7, 33, 62, 95, 96, 143, 0));
    CheckSays(code, 4, Check(8, 25, 63, 83, 93, 96, 148));
    CheckSays(code, 5, Check(6, 32, 64, 97, 126, 138, 0));
    CheckSays(code, 6, Check(5, 34, 65, 78, 98, 107, 154));
  }

  /** The parity bits that checks 7 to 13 name. */
  predicate Sums7(code: seq<bool>)
    requires |code| == N
  {
    && (code[98] != code[138]) == code[145]
    && (code[99] != code[106]) == code[125]
    && (code[100] != code[138]) == code[157]
    && (code[101] != code[104]) == code[154]
    && (code[102] != code[148]) == code[161]
    && (code[103] != code[113]) == code[144]
    && (code[101] != code[122]) == code[155]
  }

  lemma ParityFrom7(code: seq<bool>)
    requires |code| == N && IsCodeword(code) && AllFalse(code[..K])
    ensures Sums7(code)
  {
    hide IsCodeword;
    CheckSays(code, 7, Check(9, 35, 66, 99, 139, 146, 0));
    CheckSays(code, 8, Check(10, 36, 67, 100, 107, 126, 0));
    CheckSays(code, 9, Check(11, 37, 67, 87, 101, 139, 158));
    CheckSays(code, 10, Check(12, 38, 68, 102, 105, 155, 0));
    CheckSays(code, 11, Check(13, 39, 69, 103, 149, 162, 0));
    CheckSays(code, 12, Check(8, 40, 70, 82, 104, 114, 145));
    CheckSays(code, 13, Check(14, 41, 71, 88, 102, 123, 156));
  }

  /** The parity bits that checks 14 to 20 name. */
  predicate Sums14(code: seq<bool>)
    requires |code| == N
  {
    && (code[105] != code[122]) == code[158]
    && (code[105] != code[106]) == code[156]
    && (code[107] != code[140]) == code[159]
    && (code[108] != code[130]) == code[153]
    && (code[109] != code[120]) == code[165]
    && (code[110] != code[129]) == (code[160] != code[172])
    && (code[111] != code[118]) == code[165]
  }

  lemma ParityFrom14(code: seq<bool>)
    requires |code| == N && IsCodeword(code) && AllFalse(code[..K])
    ensures Sums14(code)
  {
    hide IsCodeword;
    CheckSays(code, 14, Check(15, 42, 59, 106, 123, 159, 0));
    CheckSays(code, 15, Check(1, 33, 72, 106, 107, 157, 0));
    CheckSays(code, 16, Check(16, 43, 73, 108, 141, 160, 0));
    CheckSays(code, 17, Check(17, 37, 74, 81, 109, 131, 154));
    CheckSays(code, 18, Check(11, 44, 75, 110, 121, 166, 0));
    CheckSays(code, 19, Check(45, 55, 64, 111, 130, 161, 173));
    CheckSays(code, 20, Check(8, 46, 71, 112, 119, 166, 0));
  }

  /** The parity bits that checks 21 to 27 name. */
  predicate Sums21(code: seq<bool>)
    requires |code| == N
  {
    && (code[112] != code[113]) == code[142]
    && (code[103] != code[115]) == code[162]
    && (code[91] != code[137]) == code[164]
    && (code[112] != code[127]) == code[159]
    && (code[116] != code[120]) == code[150]
    && (code[117] != code[126]) == code[163]
    && (code[111] != code[133]) == code[157]
  }

  lemma ParityFrom21(code: seq<bool>)
    requires |code| == N && IsCodeword(code) && AllFalse(code[..K])
    ensures Sums21(code)
  {
    hide IsCodeword;
    CheckSays(code, 21, Check(18, 36, 76, 89, 113, 114, 143));
    CheckSays(code, 22, Check(19, 38, 77, 104, 116, 163, 0));
    CheckSays(code, 23, Check(20, 47, 70, 92, 138, 165, 0));
    CheckSays(code, 24, Check(2, 48, 74, 113, 128, 160, 0));
    CheckSays(code, 25, Check(21, 45, 78, 83, 117, 121, 151));
    CheckSays(code, 26, Check(22, 47, 58, 118, 127, 164, 0));
    CheckSays(code, 27, Check(16, 39, 62, 112, 134, 158, 0));
  }

  /** The parity bits that checks 28 to 34 name. */
  predicate Sums28(code: seq<bool>)
    requires |code| == N
  {
    && (code[119] != code[130]) == code[144]
    && (code[109] != code[124]) == code[160]
    && (code[93] != code[135]) == code[160]
    && (code[97] != code[131]) == code[163]
    && (code[123] != code[126]) == code[168]
    && (code[116] != code[134]) == code[166]
    && (code[99] != code[104]) == code[167]
  }

  lemma ParityFrom28(code: seq<bool>)
    requires |code| == N && IsCodeword(code) && AllFalse(code[..K])
    ensures Sums28(code)
  {
    hide IsCodeword;
    CheckSays(code, 28, Check(23, 43, 79, 120, 131, 145, 0));
    CheckSays(code, 29, Check(19, 35, 59, 73, 110, 125, 161));
    CheckSays(code, 30, Check(20, 36, 63, 94, 136, 161, 0));
    CheckSays(code, 31, Check(14, 31, 79, 98, 132, 164, 0));
    CheckSays(code, 32, Check(3, 44, 80, 124, 127, 169, 0));
    CheckSays(code, 33, Check(19, 46, 81, 117, 135, 167, 0));
    CheckSays(code, 34, Check(7, 49, 58, 90, 100, 105, 168));
  }

  /** The parity bits that checks 35 to 41 name. */
  predicate Sums35(code: seq<bool>)
    requires |code| == N
  {
    && (code[117] != code[118]) == code[143]
    && (code[113] != code[117]) == code[156]
    && (code[128] != code[147]) == code[148]
    && (code[100] != code[129]) == code[155]
    && (code[119] != code[139]) == code[169]
    && (code[99] != code[139]) == code[170]
    && (code[132] != code[141]) == (code[170] != code[173])
  }

  lemma ParityFrom35(code: seq<bool>)
    requires |code| == N && IsCodeword(code) && AllFalse(code[..K])
    ensures Sums35(code)
  {
    hide IsCodeword;
    CheckSays(code, 35, Check(12, 50, 61, 118, 119, 144, 0));
    CheckSays(code, 36, Check(13, 51, 64, 114, 118, 157, 0));
    CheckSays(code, 37, Check(24, 52, 76, 129, 148, 149, 0));
    CheckSays(code, 38, Check(25, 53, 69, 90, 101, 130, 156));
    CheckSays(code, 39, Check(20, 46, 65, 80, 120, 140, 170));
    CheckSays(code, 40, Check(21, 54, 77, 100, 140, 171, 0));
    CheckSays(code, 41, Check(35, 82, 133, 142, 171, 174, 0));
  }

  /** The parity bits that checks 42 to 48 name. */
  predicate Sums42(code: seq<bool>)
    requires |code| == N
  {
    && (code[112] != code[124]) == code[169]
    && (code[119] != code[133]) == code[172]
    && code[135] == code[151]
    && (code[121] != code[136]) == code[167]
    && (code[109] != code[114]) == (code[144] != code[167])
    && (code[98] != code[131]) == code[172]
    && (code[94] != code[171]) == code[173]
  }

  lemma ParityFrom42(code: seq<bool>)
    requires |code| == N && IsCodeword(code) && AllFalse(code[..K])
    ensures Sums42(code)
  {
    hide IsCodeword;
    CheckSays(code, 42, Check(14, 30, 83, 113, 125, 170, 0));
    CheckSays(code, 43, Check(4, 29, 68, 120, 134, 173, 0));
    CheckSays(code, 44, Check(1, 4, 52, 57, 86, 136, 152));
    CheckSays(code, 45, Check(26, 51, 56, 91, 122, 137, 168));
    CheckSays(code, 46, Check(52, 84, 110, 115, 145, 168, 0));
    CheckSays(code, 47, Check(7, 50, 81, 99, 132, 173, 0));
    CheckSays(code, 48, Check(23, 55, 67, 95, 172, 174, 0));
  }

  /** The parity bits that checks 49 to 55 name. */
  predicate Sums49(code: seq<bool>)
    requires |code| == N
  {
    && (code[108] != code[140]) == code[147]
    && code[114] == code[132]
    && (code[123] != code[124]) == code[125]
    && (code[123] != code[140]) == code[166]
    && (code[107] != code[115]) == code[155]
    && (code[104] != code[128]) == code[157]
    && (code[130] != code[146]) == code[154]
  }

  lemma ParityFrom49(code: seq<bool>)
    requires |code| == N && IsCodeword(code) && AllFalse(code[..K])
    ensures Sums49(code)
  {
    hide IsCodeword;
    CheckSays(code, 49, Check(26, 41, 77, 109, 141, 148, 0));
    CheckSays(code, 50, Check(2, 27, 41, 61, 62, 115, 133));
    CheckSays(code, 51, Check(27, 40, 56, 124, 125, 126, 0));
    CheckSays(code, 52, Check(18, 49, 55, 124, 141, 167, 0));
    CheckSays(code, 53, Check(6, 33, 85, 108, 116, 156, 0));
    CheckSays(code, 54, Check(28, 48, 70, 85, 105, 129, 158));
    CheckSays(code, 55, Check(9, 54, 63, 131, 147, 155, 0));
  }

  /** The parity bits that checks 56 to 62 name. */
  predicate Sums56(code: seq<bool>)
    requires |code| == N
  {
    && (code[108] != code[120]) == code[173]
    && code[94] == code[122]
    && (code[132] != code[149]) == (code[154] != code[168])
    && (code[96] != code[134]) == code[158]
    && (code[101] != code[135]) == code[166]
    && (code[100] != code[134]) == code[163]
    && (code[107] != code[118]) == code[170]
  }

  lemma ParityFrom56(code: seq<bool>)
    requires |code| == N && IsCodeword(code) && AllFalse(code[..K])
    ensures Sums56(code)
  {
    hide IsCodeword;
    CheckSays(code, 56, Check(22, 53, 68, 109, 121, 174, 0));
    CheckSays(code, 57, Check(3, 13, 48, 78, 95, 123, 0));
    CheckSays(code, 58, Check(31, 69, 133, 150, 155, 169, 0));
    CheckSays(code, 59, Check(12, 43, 66, 89, 97, 135, 159));
    CheckSays(code, 60, Check(5, 39, 75, 102, 136, 167, 0));
    CheckSays(code, 61, Check(2, 54, 86, 101, 135, 164, 0));
    CheckSays(code, 62, Check(15, 56, 87, 108, 119, 171, 0));
  }

  /** The parity bits that checks 63 to 69 name. */
  predicate Sums63(code: seq<bool>)
    requires |code| == N
  {
    && (code[110] != code[143]) == code[148]
    && (code[93] != code[126]) == code[152]
    && (code[91] != code[141]) == code[156]
    && (code[96] != code[146]) == code[161]
    && (code[136] != code[141]) == code[161]
    && (code[111] != code[127]) == code[164]
    && (code[92] != code[139]) == code[158]
  }

  lemma ParityFrom63(code: seq<bool>)
    requires |code| == N && IsCodeword(code) && AllFalse(code[..K])
    ensures Sums63(code)
  {
    hide IsCodeword;
    CheckSays(code, 63, Check(10, 44, 82, 91, 111, 144, 149));
    CheckSays(code, 64, Check(23, 34, 71, 94, 127, 153, 0));
    CheckSays(code, 65, Check(11, 49, 88, 92, 142, 157, 0));
    CheckSays(code, 66, Check(29, 34, 87, 97, 147, 162, 0));
    CheckSays(code, 67, Check(30, 50, 60, 86, 137, 142, 162));
    CheckSays(code, 68, Check(10, 53, 66, 84, 112, 128, 165));
    CheckSays(code, 69, Check(22, 57, 85, 93, 140, 159, 0));
  }

  /** The parity bits that checks 70 to 76 name. */
  predicate Sums70(code: seq<bool>)
    requires |code| == N
  {
    && (code[102] != code[131]) == code[165]
    && (code[116] != code[142]) == code[149]
    && code[127] == code[146]
    && (code[102] != code[115]) == code[152]
    && (code[97] != code[162]) == (code[164] != code[171])
    && (code[137] != code[151]) == code[168]
    && (code[129] != code[136]) == code[153]
  }

  lemma ParityFrom70(code: seq<bool>)
    requires |code| == N && IsCodeword(code) && AllFalse(code[..K])
    ensures Sums70(code)
  {
    hide IsCodeword;
    CheckSays(code, 70, Check(28, 32, 72, 103, 132, 166, 0));
    CheckSays(code, 71, Check(28, 29, 84, 88, 117, 143, 150));
    CheckSays(code, 72, Check(1, 26, 45, 80, 128, 147, 0));
    CheckSays(code, 73, Check(17, 27, 89, 103, 116, 153, 0));
    CheckSays(code, 74, Check(51, 57, 98, 163, 165, 172, 0));
    CheckSays(code, 75, Check(21, 37, 73, 138, 152, 169, 0));
    CheckSays(code, 76, Check(16, 47, 76, 130, 137, 154, 0));
  }

  /** The parity bits that checks 77 to 82 name. */
  predicate Sums77(code: seq<bool>)
    requires |code| == N
  {
    && code[103] == code[138]
    && (code[105] != code[133]) == code[150]
    && (code[110] != code[149]) == code[162]
    && (code[143] != code[145]) == code[151]
    && (code[98] != code[121]) == code[159]
    && (code[128] != code[169]) == code[171]
  }

  lemma ParityFrom77(code: seq<bool>)
    requires |code| == N && IsCodeword(code) && AllFalse(code[..K])
    ensures Sums77(code)
  {
    hide IsCodeword;
    CheckSays(code, 77, Check(3, 24, 30, 72, 104, 139, 0));
    CheckSays(code, 78, Check(9, 40, 90, 106, 134, 151, 0));
    CheckSays(code, 79, Check(15, 58, 60, 74, 111, 150, 163));
    CheckSays(code, 80, Check(18, 42, 79, 144, 146, 152, 0));
    CheckSays(code, 81, Check(25, 38, 65, 99, 122, 160, 0));
    CheckSays(code, 82, Check(17, 42, 75, 129, 170, 172, 0));
  }

  predicate ParityClear(code: seq<bool>)
    requires |code| == N
  {
    && !code[91] && !code[92] && !code[93] && !code[94] && !code[95] && !code[96] && !code[97] && !code[98]
    && !code[99] && !code[100] && !code[101] && !code[102] && !code[103] && !code[104] && !code[105] && !code[106]
    && !code[107] && !code[108] && !code[109] && !code[110] && !code[111] && !code[112] && !code[113] && !code[114]
    && !code[115] && !code[116] && !code[117] && !code[118] && !code[119] && !code[120] && !code[121] && !code[122]
    && !code[123] && !code[124] && !code[125] && !code[126] && !code[127] && !code[128] && !code[129] && !code[130]
    && !code[131] && !code[132] && !code[133] && !code[134] && !code[135] && !code[136] && !code[137] && !code[138]
    && !code[139] && !code[140] && !code[141] && !code[142] && !code[143] && !code[144] && !code[145] && !code[146]
    && !code[147] && !code[148] && !code[149] && !code[150] && !code[151] && !code[152] && !code[153] && !code[154]
    && !code[155] && !code[156] && !code[157] && !code[158] && !code[159] && !code[160] && !code[161] && !code[162]
    && !code[163] && !code[164] && !code[165] && !code[166] && !code[167] && !code[168] && !code[169] && !code[170]
    && !code[171] && !code[172] && !code[173]
  }

  /** All 83 sums. */
  predicate AllSums(code: seq<bool>)
    requires |code| == N
  {
    && Sums0(code) && Sums7(code) && Sums14(code) && Sums21(code)
    && Sums28(code) && Sums35(code) && Sums42(code) && Sums49(code)
    && Sums56(code) && Sums63(code) && Sums70(code) && Sums77(code)
  }

  // Three bits are settled one after the other; the rest then follows.

  lemma NotBothSet(code: seq<bool>)
    requires |code| == N && AllSums(code)
    ensures !(code[94] && code[101])
  {
  }

  lemma FirstBitClear(code: seq<bool>)
    requires |code| == N && AllSums(code)
    ensures !code[94]
  {
    NotBothSet(code);
  }

  lemma SecondBitClear(code: seq<bool>)
    requires |code| == N && AllSums(code)
    ensures !code[94] && !code[101]
  {
    FirstBitClear(code);
  }

  lemma ThirdBitClear(code: seq<bool>)
    requires |code| == N && AllSums(code)
    ensures !code[94] && !code[101] && !code[135]
  {
    SecondBitClear(code);
  }

  /** The 83 sums have one solution. */
  lemma SumsAreIndependent(code: seq<bool>)
    requires |code| == N && AllSums(code)
    ensures ParityClear(code)
  {
    ThirdBitClear(code);
  }

  lemma ClearIsFalse(code: seq<bool>)
    requires |code| == N && AllFalse(code[..K]) && ParityClear(code)
    ensures AllFalse(code)
  {
    forall i | 0 <= i < N
      ensures !code[i]
    {
      if i < K {
        assert code[..K][i] == code[i];
      }
    }
  }

  /** A word that passes all checks with a zero message is zero. */
  lemma ZeroMessageZeroWord(code: seq<bool>)
    requires |code| == N && IsCodeword(code) && AllFalse(code[..K])
    ensures AllFalse(code)
  {
    hide IsCodeword, AllFalse, ParityClear, Sums0, Sums7, Sums14, Sums21, Sums28, Sums35,
         Sums42, Sums49, Sums56, Sums63, Sums70, Sums77;
    ParityFrom0(code);
    ParityFrom7(code);
    ParityFrom14(code);
    ParityFrom21(code);
    ParityFrom28(code);
    ParityFrom35(code);
    ParityFrom42(code);
    ParityFrom49(code);
    ParityFrom56(code);
    ParityFrom63(code);
    ParityFrom70(code);
    ParityFrom77(code);
    SumsAreIndependent(code);
    ClearIsFalse(code);
  }

  // ----- sums of words -----

  lemma {:induction false} ParityOfSum(a: seq<bool>, b: seq<bool>, c: Check, n: nat)
    requires |a| == |b| == N && n <= 7 && c.InRange() && (n == 7 ==> c.n6 != 0)
    ensures RowParity(XorBits(a, b), c, n) == (RowParity(a, c, n) != RowParity(b, c, n))
  {
    if n > 0 {
      ParityOfSum(a, b, c, n - 1);
    }
  }

  /** The sum of two codewords is one. */
  lemma SumIsCodeword(a: seq<bool>, b: seq<bool>)
    requires |a| == |b| == N && IsCodeword(a) && IsCodeword(b)
    ensures IsCodeword(XorBits(a, b))
  {
    hide CheckRow, RowParity, NumRows;
    forall m | 0 <= m < M
      ensures Passes(XorBits(a, b), m)
    {
      NumRowsCountsEntries(m);
      assert Passes(a, m) && Passes(b, m);
      ParityOfSum(a, b, CheckRow(m), NumRows(m));
    }
  }

  /** A word passes all checks exactly when it is what its first 91 bits are encoded to. */
  lemma CodewordsAreEncoded(code: seq<bool>)
    requires |code| == N
    ensures IsCodeword(code) <==> code == Codeword(code[..K])
  {
    hide IsCodeword, Codeword;
    var sent := Codeword(code[..K]);
    EncodedIsCodeword(code[..K]);
    if IsCodeword(code) {
      var d := XorBits(code, sent);
      SumIsCodeword(code, sent);
      forall i | 0 <= i < K
        ensures !d[..K][i]
      {
        assert sent[..K][i] == code[..K][i];
      }
      ZeroMessageZeroWord(d);
      forall i | 0 <= i < N
        ensures code[i] == sent[i]
      {
        assert !d[i];
      }
    }
  }
}
