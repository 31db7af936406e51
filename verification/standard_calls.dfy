/** The 28-bit code of a call in a standard message: a token, a hash, or a base call with an optional suffix. */
module StandardCalls {
  import opened Words
  import opened Texts
  import opened Callsigns
  import opened Standard
  import CallsignTables

  predicate HasSuffix(call: string) {
    EndsWith(call, "/P") || EndsWith(call, "/R")
  }

  predicate IsToken(call: string) {
    call == "DE" || call == "QRZ" || call == "CQ"
  }

  function TokenCode(call: string): nat {
    if call == "DE" then 0 else if call == "QRZ" then 1 else 2
  }

  predicate UnsupportedCq(call: string) {
    StartsWith(call, "CQ_") && |call| < 8
  }

  function BaseLength(call: string): nat {
    if HasSuffix(call) then |call| - 2 else |call|
  }

  predicate IsBase(call: string) {
    !IsToken(call) && !UnsupportedCq(call) && PackBasecall(call, BaseLength(call)) >= 0
  }

  predicate IsHashed(call: string) {
    !IsToken(call) && !UnsupportedCq(call) && !IsBase(call) && 3 <= |call| <= 11
  }

  /** The code and suffix bit of a call; a negative code when there is none. */
  function Pack28(call: string): (int, nat) {
    if IsToken(call) then (TokenCode(call), 0)
    else if UnsupportedCq(call) then (-1, 0)
    else
      var ip := if HasSuffix(call) then 1 else 0;
      if IsBase(call) then
        if InTable(Stem(call)) then (NTOKENS + MAX22 + PackBasecall(call, BaseLength(call)), ip) else (-1, ip)
      else if 3 <= |call| <= 11 then
        if InTable(Stem(call)) then (NTOKENS + Hash22(call), 0) else (-1, ip)
      else (-1, ip)
  }

  /** The table after a call is packed. */
  function After(m: Calls, call: string): Calls {
    if IsBase(call) || IsHashed(call) then Saved(m, call) else m
  }

  method ComputePack28(table: CallsignTables.CallsignTable, callsign: string) returns (n28: int, ip: nat)
    requires table.Valid()
    modifies table, table.slots
    ensures table.Valid() && table.contents == After(old(table.contents), callsign)
    ensures (n28, ip) == Pack28(callsign)
  {
    hide PackBasecall, InTable, Stem, EndsWith, StartsWith, Hash22, Saved, CallsignTables.Holds;
    ip := 0;
    if callsign == "DE" {
      return 0, ip;
    }
    if callsign == "QRZ" {
      return 1, ip;
    }
    if callsign == "CQ" {
      return 2, ip;
    }
    var length := |callsign|;
    if StartsWith(callsign, "CQ_") && length < 8 {
      return -1, ip;
    }
    var lengthBase := length;
    if EndsWith(callsign, "/P") || EndsWith(callsign, "/R") {
      ip := 1;
      SuffixLength(callsign);
      lengthBase := length - 2;
    }
    n28 := PackBasecall(callsign, lengthBase);
    if n28 >= 0 {
      var ok, n22, n12, n10 := SaveCallsign(table, callsign);
      if !ok {
        return -1, ip;
      }
      return NTOKENS + MAX22 + n28, ip;
    }
    if length >= 3 && length <= 11 {
      var ok, n22, n12, n10 := SaveCallsign(table, callsign);
      if !ok {
        return -1, ip;
      }
      ip := 0;
      return NTOKENS + n22, ip;
    }
    return -1, ip;
  }

  lemma SuffixLength(call: string)
    requires HasSuffix(call)
    ensures |call| >= 2
  {
  }

  /** Every code fits into 28 bits. */
  lemma PackedCodeFits(call: string)
    ensures Pack28(call).0 < Pow2(28) && Pack28(call).1 < 2
  {
    hide Nchar, Mixed, Range, Pow2, Hash22;
    CodesFit();
    if IsBase(call) {
      MixedBound(Arranged(call, BaseLength(call)), 6);
    }
  }

  // ----- unpacking -----

  datatype Unpacked = Failed | Token(text: string) | Call(text: string) | Hashed(n22: nat)

  /** The letters of a directed CQ, from the last one on. */
  function Letters(n: nat, k: nat): (s: string)
    ensures |s| == k
  {
    if k == 0 then "" else Letters(n / 27, k - 1) + [Charn(n % 27, LETTERS_SPACE)]
  }

  function Suffix(i3: nat): string {
    if i3 == 1 then "/R" else "/P"
  }

  function Unpack28(n28: nat, ip: nat, i3: nat): Unpacked {
    if n28 < NTOKENS then
      if n28 == 0 then Token("DE")
      else if n28 == 1 then Token("QRZ")
      else if n28 == 2 then Token("CQ")
      else if n28 <= 1002 then
        CqNumber(n28)
      else if n28 <= 532443 then Token("CQ " + TrimFront(Letters(n28 - 1003, 4)))
      else Failed
    else if n28 - NTOKENS < MAX22 then Hashed(n28 - NTOKENS)
    else
      var text := BaseText(Unmixed(n28 - NTOKENS - MAX22, 6));
      if |text| < 3 then Failed
      else if ip == 0 then Call(text)
      else if i3 == 1 || i3 == 2 then Call(text + Suffix(i3))
      else Failed
  }

  function CqNumber(n28: nat): Unpacked
    requires 3 <= n28 <= 1002
  {
    assert Pow10(2) == 100;
    Token("CQ " + IntToDd(n28 - 3, 3, false))
  }

  method UnpackLetters(n0: nat) returns (aaaa: string)
    ensures aaaa == Letters(n0, 4)
  {
    hide Charn;
    var a := new char[4];
    var n := n0;
    var i := 3;
    assert a[4..] == [] && Letters(n0, 4) + [] == Letters(n0, 4);
    while true
      invariant 0 <= i <= 3 && Letters(n, i + 1) + a[i + 1..] == Letters(n0, 4)
      decreases i
    {
      ghost var t := a[i + 1..];
      a[i] := Charn(n % 27, LETTERS_SPACE);
      assert a[i..] == [Charn(n % 27, LETTERS_SPACE)] + t;
      assert Letters(n, i + 1) == Letters(n / 27, i) + [Charn(n % 27, LETTERS_SPACE)];
      if i == 0 {
        assert Letters(n / 27, 0) == "" && a[0..] == a[..];
        assert "" + [Charn(n % 27, LETTERS_SPACE)] + t == a[..];
        assert a[..] == Letters(n0, 4);
        break;
      }
      n := n / 27;
      i := i - 1;
    }
    aaaa := a[..];
  }

  method ComputeUnpack28(table: CallsignTables.CallsignTable, n28: nat, ip: nat, i3: nat)
    returns (ok: bool, result: string, ghost found: CallsignTables.Option)
    requires table.Valid()
    modifies table, table.slots
    ensures table.Valid()
    ensures match Unpack28(n28, ip, i3)
            case Failed => !ok && table.contents == old(table.contents)
            case Token(text) => ok && result == text && table.contents == old(table.contents)
            case Call(text) => ok && result == text && table.contents == Saved(old(table.contents), text)
            case Hashed(n22) =>
              && ok && table.contents == old(table.contents)
              && CallsignTables.Answers(table.contents, CallsignTables.Bits22, n22, found)
              && result == Bracketed(found)
  {
    hide Unmixed, BaseText, Letters, TrimFront, IntToDd, Saved, CallsignTables.Answers, CallsignTables.Holds;
    found := CallsignTables.None;
    result := "";
    if n28 < NTOKENS {
      if n28 <= 2 {
        result := if n28 == 0 then "DE" else if n28 == 1 then "QRZ" else "CQ";
        return true, result, found;
      }
      if n28 <= 1002 {
        assert Pow10(2) == 100;
        var number := ComputeIntToDd(n28 - 3, 3, false);
        return true, "CQ " + number, found;
      }
      if n28 <= 532443 {
        var aaaa := UnpackLetters(n28 - 1003);
        return true, "CQ " + TrimFront(aaaa), found;
      }
      return false, result, found;
    }
    var n := n28 - NTOKENS;
    if n < MAX22 {
      var text, lookup := LookupCallsign(table, CallsignTables.Bits22, n);
      return true, text, lookup;
    }
    result := BaseText(Unmixed(n - MAX22, 6));
    if |result| < 3 {
      return false, result, found;
    }
    if ip != 0 {
      if i3 == 1 {
        result := result + "/R";
      } else if i3 == 2 {
        result := result + "/P";
      } else {
        return false, result, found;
      }
    }
    var saved, n22, n12, n10 := SaveCallsign(table, result);
    ok := true;
  }

  // ----- the round trip of one call -----

  /** The part of a call before its suffix. */
  function Base(call: string): string {
    call[..BaseLength(call)]
  }

  /** The message type a call's suffix asks for. */
  predicate SuffixFits(call: string, i3: nat) {
    (EndsWith(call, "/R") ==> i3 == 1) && (EndsWith(call, "/P") ==> i3 == 2)
  }

  lemma ArrangedPrefix(call: string, length: nat)
    requires 2 < length <= |call| && (length == |call| || call[length] == '/')
    ensures Arranged(call, length) == Arranged(call[..length], length)
  {
    var base := call[..length];
    assert forall i :: 0 <= i < length ==> call[i] == base[i];
    if length > 4 {
      assert StartsWith(call, "3DA0") == StartsWith(base, "3DA0") by {
        assert call[..4] == base[..4];
      }
    }
    assert StartsWith(call, "3X") == StartsWith(base, "3X") by {
      assert call[..2] == base[..2];
    }
    assert base[..length] == call[..length];
    if length > 4 {
      assert base[4..length] == call[4..length];
    }
    assert base[2..length] == call[2..length];
  }

  lemma BasePacks(call: string)
    requires PackBasecall(call, BaseLength(call)) >= 0
    ensures PackBasecall(Base(call), |Base(call)|) == PackBasecall(call, BaseLength(call))
  {
    hide Standard6, Mixed, Arranged;
    var n := BaseLength(call);
    if HasSuffix(call) {
      assert call[n..][0] == '/';
    }
    ArrangedPrefix(call, n);
  }

  lemma InSomeTable(c: char, i: nat)
    requires i < 6 && Nchar(c, Place(i)) >= 0
    ensures Index38(c) >= 0
  {
  }

  lemma PrefixCharacters()
    ensures Index38('3') >= 0 && Index38('D') >= 0 && Index38('A') >= 0 && Index38('0') >= 0 && Index38('X') >= 0
  {
  }

  /** Every character of a base call is in one of the six places, or in a prefix that is spelled shorter there. */
  lemma ArrangedCharacter(call: string, length: nat, i: nat)
    requires 2 < length <= |call| && Standard6(Arranged(call, length)) && i < length
    ensures Index38(call[i]) >= 0
  {
    hide Nchar, Index38;
    var c6 := Arranged(call, length);
    if StartsWith(call, "3DA0") && 4 < length <= 7 {
      if i < 4 {
        assert call[..4][i] == "3DA0"[i];
        PrefixCharacters();
      } else {
        assert c6[i - 1] == call[4..length][i - 4];
        InSomeTable(call[i], i - 1);
      }
    } else if StartsWith(call, "3X") && IsLetter(At(call, 2)) && length <= 7 {
      if i < 2 {
        assert call[..2][i] == "3X"[i];
        PrefixCharacters();
      } else {
        assert c6[i - 1] == call[2..length][i - 2];
        InSomeTable(call[i], i - 1);
      }
    } else if IsDigit(At(call, 2)) && length <= 6 {
      assert c6[i] == call[..length][i];
      InSomeTable(call[i], i);
    } else {
      assert IsDigit(At(call, 1)) && length <= 5 by { NotAllSpaces(c6); }
      assert c6[i + 1] == call[..length][i];
      InSomeTable(call[i], i + 1);
    }
  }

  lemma NotAllSpaces(c6: string)
    requires |c6| == 6 && Standard6(c6)
    ensures c6 != Spaces(6)
  {
    Standard6Facts(c6);
  }

  /** A base call can always be stored. */
  lemma BaseInTable(call: string)
    requires IsBase(call)
    ensures InTable(Stem(call))
  {
    hide Nchar, Index38, Arranged, Mixed, Standard6;
    var n := BaseLength(call);
    forall i | 0 <= i < |Stem(call)|
      ensures Index38(Stem(call)[i]) >= 0
    {
      if i < n {
        ArrangedCharacter(call, n, i);
      } else {
        SuffixCharacter(call, i);
      }
    }
  }

  lemma SuffixCharacter(call: string, i: nat)
    requires HasSuffix(call) && |call| - 2 <= i < |call|
    ensures |call| >= 2 && Index38(call[i]) >= 0
  {
    SuffixLength(call);
    assert call[i] == call[|call| - 2..][i - (|call| - 2)];
  }

  /** A base call with its suffix comes back exactly when its base is not taken for another call. */
  lemma CallReturns(call: string, i3: nat)
    requires IsBase(call) && NoSpaces(call) && SuffixFits(call, i3)
    ensures Pack28(call).0 >= 0
    ensures Unpack28(Pack28(call).0, Pack28(call).1, i3) == Call(call) <==> !Mangled(Base(call))
  {
    hide PackBasecall, Unmixed, BaseText, Mangled, Index38, IntToDd, Letters, TrimFront;
    var base := Base(call);
    BaseInTable(call);
    BasePacks(call);
    BaseReturns(base);
    if HasSuffix(call) {
      assert call == base + Suffix(i3);
      var text := BaseText(Unmixed(PackBasecall(base, |base|), 6));
      if text + Suffix(i3) == call {
        assert text == (text + Suffix(i3))[..|call| - 2];
        assert base == (base + Suffix(i3))[..|call| - 2];
      }
    } else {
      assert base == call;
    }
    BaseLong(call);
  }

  lemma BaseLong(call: string)
    requires PackBasecall(call, BaseLength(call)) >= 0
    ensures |Base(call)| >= 3
  {
  }

  lemma TokenReturns(call: string, i3: nat)
    requires IsToken(call)
    ensures Unpack28(Pack28(call).0, Pack28(call).1, i3) == Token(call)
    ensures Pack28("DE") == (0, 0) && Pack28("QRZ") == (1, 0) && Pack28("CQ") == (2, 0)
  {
    hide Unmixed, BaseText;
  }

  // ----- what only other stations send: directed CQs -----

  /** The word of a directed CQ: one to four capitals. */
  predicate IsWord(w: string) {
    1 <= |w| <= 4 && Capitals(w)
  }

  predicate Capitals(w: string) {
    forall i :: 0 <= i < |w| ==> 'A' <= w[i] <= 'Z'
  }

  /** The base-27 number of capitals, A counting 1; spaces in front would count 0. */
  function WordNumber(w: string): nat
    requires Capitals(w)
  {
    if w == "" then 0 else WordNumber(w[..|w| - 1]) * 27 + (w[|w| - 1] as int - 'A' as int + 1)
  }

  function Pow27(n: nat): nat {
    if n == 0 then 1 else 27 * Pow27(n - 1)
  }

  lemma {:induction false} WordNumberBound(w: string)
    requires Capitals(w)
    ensures WordNumber(w) < Pow27(|w|) && (w != "" ==> WordNumber(w) >= 1)
  {
    if w != "" {
      WordNumberBound(w[..|w| - 1]);
    }
  }

  lemma CapitalOut(c: char, h: nat)
    requires 'A' <= c <= 'Z'
    ensures var n := h * 27 + (c as int - 'A' as int + 1);
            n / 27 == h && n % 27 == c as int - 'A' as int + 1 && Charn(n % 27, LETTERS_SPACE) == c
  {
  }

  /** The letters of a word's number are the word, with spaces in front. */
  lemma {:induction false} LettersReturn(w: string, k: nat)
    requires Capitals(w) && |w| <= k
    ensures Letters(WordNumber(w), k) == Spaces(k - |w|) + w
    decreases k
  {
    hide Charn, Letters, WordNumber, Capitals;
    if w == "" {
      EmptyWord();
      NoLetters(k);
    } else {
      var front, c := w[..|w| - 1], w[|w| - 1];
      WordStep(w);
      LettersReturn(front, k - 1);
      LettersStep(WordNumber(w), k);
      CapitalOut(c, WordNumber(front));
      assert w == front + [c];
      assert Spaces(k - |w|) + front + [c] == Spaces(k - |w|) + w;
    }
  }

  lemma EmptyWord()
    ensures WordNumber("") == 0
  {
  }

  lemma WordStep(w: string)
    requires Capitals(w) && w != ""
    ensures var front, c := w[..|w| - 1], w[|w| - 1];
            Capitals(front) && 'A' <= c <= 'Z' && WordNumber(w) == WordNumber(front) * 27 + (c as int - 'A' as int + 1)
  {
  }

  lemma LettersStep(n: nat, k: nat)
    requires k > 0
    ensures Letters(n, k) == Letters(n / 27, k - 1) + [Charn(n % 27, LETTERS_SPACE)]
  {
    hide Charn;
  }

  lemma {:induction false} NoLetters(k: nat)
    ensures Letters(0, k) == Spaces(k) + ""
  {
    hide Charn;
    if k > 0 {
      NoLetters(k - 1);
      NoLetter();
      SpacesBack(k);
    }
  }

  lemma NoLetter()
    ensures Charn(0, LETTERS_SPACE) == ' '
  {
  }

  lemma {:induction false} SpacesBack(k: nat)
    requires k > 0
    ensures Spaces(k) == Spaces(k - 1) + " "
  {
    if k > 1 {
      SpacesBack(k - 1);
    }
  }

  /** The code of a CQ directed to a word. */
  function DirectedCode(w: string): nat
    requires IsWord(w)
  {
    1003 + WordNumber(w)
  }

  /** A CQ directed to a word is shown with that word; the codes of the words end with 532443, the code of ZZZZ. */
  lemma DirectedReturns(w: string, ip: nat, i3: nat)
    requires IsWord(w)
    ensures 1003 < DirectedCode(w) <= 532443 && DirectedCode("ZZZZ") == 532443
    ensures Unpack28(DirectedCode(w), ip, i3) == Token("CQ " + w)
  {
    hide Unmixed, BaseText, Letters;
    WordNumberBound(w);
    assert Pow27(1) == 27 && Pow27(2) == 729 && Pow27(3) == 19683 && Pow27(4) == 531441;
    assert Pow27(|w|) <= 531441;
    LastWord();
    LettersReturn(w, 4);
    TrimFrontPadded(4 - |w|, w);
  }

  lemma LastWord()
    ensures WordNumber("ZZZZ") == 531440
  {
    assert "ZZZZ"[..3] == "ZZZ" && "ZZZ"[..2] == "ZZ" && "ZZ"[..1] == "Z" && "Z"[..0] == "";
    assert WordNumber("Z") == 26;
    assert WordNumber("ZZ") == 728;
    assert WordNumber("ZZZ") == 19682;
  }

  /** A CQ directed to a frequency is shown with its three digits. */
  lemma NumberedReturns(v: nat, ip: nat, i3: nat)
    requires v < 1000
    ensures Unpack28(3 + v, ip, i3) ==
            Token("CQ " + [DigitChar(v / 100), DigitChar(v / 10 % 10), DigitChar(v % 10)])
  {
    hide Unmixed, BaseText, Letters, TrimFront, DigitChar;
    assert Pow10(1) == 10 && Pow10(2) == 100;
    assert DigitsFrom(v, 3) == [DigitChar(v / 100)] + DigitsFrom(v % 100, 2);
    assert DigitsFrom(v % 100, 2) == [DigitChar(v % 100 / 10)] + DigitsFrom(v % 100 % 10, 1);
    Decimals(v);
  }

  lemma Decimals(v: nat)
    requires v < 1000
    ensures v / 100 < 10 && v % 100 / 10 == v / 10 % 10 && v % 100 % 10 == v % 10
  {
  }

  /** Between the directed CQs and the hashes there is no call. */
  lemma UnusedCodesFail(n28: nat, ip: nat, i3: nat)
    requires 532443 < n28 < NTOKENS
    ensures Unpack28(n28, ip, i3) == Failed
  {
    hide Unmixed, BaseText, Letters;
  }

  /** A call that is no base call is sent as its hash and comes back as that hash, if it has three to eleven characters;
      else it has no code. */
  lemma HashReturns(call: string, i3: nat)
    requires !IsToken(call) && !UnsupportedCq(call) && !IsBase(call) && InTable(Stem(call))
    ensures 3 <= |call| <= 11 ==>
              Pack28(call).0 >= 0 && Unpack28(Pack28(call).0, Pack28(call).1, i3) == Hashed(Hash22(call))
    ensures |call| < 3 || |call| > 11 ==> Pack28(call).0 < 0
  {
    hide Unmixed, BaseText, Letters, Hash22, PackBasecall, InTable;
  }
}
