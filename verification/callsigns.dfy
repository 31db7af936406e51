/** Callsigns as base-38 numbers, their hashes, and saving them in the table. */
module Callsigns {
  import opened Words
  import opened Texts
  import CallsignTables

  type Calls = map<nat, string>

  const MAX_CALL := 11
  const WORD64 := 0x1_0000_0000_0000_0000

  function Index38(c: char): int {
    Nchar(c, ALPHANUM_SPACE_SLASH)
  }

  predicate InTable(s: string) {
    forall i :: 0 <= i < |s| ==> Index38(s[i]) >= 0
  }

  /** The characters of a call that count for its number and hash. */
  function Stem(call: string): (s: string)
    ensures |s| <= MAX_CALL
  {
    if |call| <= MAX_CALL then call else call[..MAX_CALL]
  }

  function Number38(s: string): nat
    requires InTable(s)
  {
    if s == "" then 0 else Number38(s[..|s| - 1]) * 38 + Index38(s[|s| - 1])
  }

  function Pow38(n: nat): (p: nat)
    ensures p > 0
  {
    if n == 0 then 1 else 38 * Pow38(n - 1)
  }

  lemma {:induction false} Number38Bound(s: string)
    requires InTable(s)
    ensures Number38(s) < Pow38(|s|)
  {
    if s != "" {
      Number38Bound(s[..|s| - 1]);
      CharnOfNchar(s[|s| - 1], ALPHANUM_SPACE_SLASH);
    }
  }

  lemma {:induction false} Pow38Grows(j: nat, k: nat)
    requires j <= k
    ensures Pow38(j) <= Pow38(k)
  {
    if j < k {
      Pow38Grows(j, k - 1);
    }
  }

  lemma {:induction false} Pow38Adds(j: nat, k: nat)
    ensures Pow38(j + k) == Pow38(j) * Pow38(k)
  {
    if j == 0 {
      assert Pow38(0) * Pow38(k) == Pow38(k);
    } else {
      Pow38Adds(j - 1, k);
      assert Pow38(j) * Pow38(k) == 38 * (Pow38(j - 1) * Pow38(k));
    }
  }

  /** Eleven characters fit into 58 bits. */
  lemma FitsInto58Bits()
    ensures Pow38(MAX_CALL) < Pow2(58) < WORD64
  {
    assert Pow38(3) == 54872;
    assert Pow38(7) == 114415582592;
    assert Pow38(11) == 238572050223552512;
    assert Pow2(10) == 1024;
    Pow2Adds(10, 10);
    Pow2Adds(20, 20);
    Pow2Adds(40, 10);
    Pow2Adds(50, 8);
    assert Pow2(8) == 256;
    assert Pow2(58) == 288230376151711744;
  }

  /** The 22-bit hash of a base-38 number. */
  function Mix(n58: nat): (n22: nat)
    ensures n22 < 0x40_0000
  {
    (47055833459 * n58) % WORD64 / 0x400_0000_0000 % 0x40_0000
  }

  /** The number of a call followed by spaces up to eleven characters. */
  function Stretched(call: string): nat
    requires InTable(Stem(call))
  {
    Stretch(Stem(call), MAX_CALL - |Stem(call)|)
  }

  /** The number of a call followed by k spaces. */
  function Stretch(stem: string, k: nat): nat
    requires InTable(stem)
  {
    Number38(stem) * Pow38(k)
  }

  function Hash22(call: string): (n22: nat)
    requires InTable(Stem(call))
    ensures n22 < 0x40_0000
  {
    Mix(Stretched(call))
  }

  /** The table's meaning after a call is saved. */
  function Saved(m: Calls, call: string): Calls {
    if InTable(Stem(call)) then CallsignTables.Added(m, call, Hash22(call)) else m
  }

  /** The hash of a call, unless a character is not in the table. */
  method ComputeHash(callsign: string) returns (ok: bool, n22: nat)
    ensures ok <==> InTable(Stem(callsign))
    ensures ok ==> n22 == Hash22(callsign)
  {
    hide Number38, Pow38, Mix, Nchar, Stretch;
    n22 := 0;
    ghost var stem := Stem(callsign);
    var n58: nat := 0;
    var i := 0;
    assert stem[..0] == "" && Number38("") == 0 by { Number38Empty(); }
    while i < |callsign| && i < 11
      invariant 0 <= i <= |stem| && InTable(stem[..i]) && n58 == Number38(stem[..i])
    {
      var j := Nchar(callsign[i], ALPHANUM_SPACE_SLASH);
      if j < 0 {
        assert Index38(stem[i]) < 0;
        return false, 0;
      }
      Number38Next(stem, i);
      Number38Fits(stem[..i + 1]);
      n58 := (38 * n58 + j) % WORD64;
      i := i + 1;
    }
    assert stem[..i] == stem;
    StretchNone(stem);
    while i < 11
      invariant |stem| <= i <= 11 && n58 == Stretch(stem, i - |stem|)
    {
      StretchStep(stem, i);
      n58 := (38 * n58) % WORD64;
      i := i + 1;
    }
    n22 := (47055833459 * n58) % WORD64 / 0x400_0000_0000 % 0x40_0000;
    assert n22 == Mix(n58) by { MixIs(n58); }
    ok := true;
  }

  lemma Number38Fits(s: string)
    requires InTable(s) && |s| <= MAX_CALL
    ensures Number38(s) < WORD64
  {
    hide Number38, Pow38;
    Number38Bound(s);
    Pow38Grows(|s|, MAX_CALL);
    FitsInto58Bits();
  }

  /** Computes the hashes of a call and stores it, unless a character is not in the table. */
  method SaveCallsign(table: CallsignTables.CallsignTable, callsign: string)
    returns (ok: bool, n22: nat, n12: nat, n10: nat)
    requires table.Valid()
    modifies table, table.slots
    ensures table.Valid() && table.contents == Saved(old(table.contents), callsign)
    ensures ok <==> InTable(Stem(callsign))
    ensures ok ==> n22 == Hash22(callsign) && n12 == n22 / 0x400 && n10 == n22 / 0x1000
  {
    hide Number38, Mix, InTable, CallsignTables.Holds, CallsignTables.Added;
    ok, n22 := ComputeHash(callsign);
    n12, n10 := n22 / 0x400, n22 / 0x1000;
    if ok {
      table.Add(callsign, n22);
    }
  }

  lemma MixIs(n58: nat)
    ensures Mix(n58) == (47055833459 * n58) % WORD64 / 0x400_0000_0000 % 0x40_0000
  {
  }

  lemma StretchNone(stem: string)
    requires InTable(stem)
    ensures Stretch(stem, 0) == Number38(stem)
  {
    assert Number38(stem) * 1 == Number38(stem);
  }

  lemma Number38Empty()
    ensures InTable("") && Number38("") == 0
  {
  }

  lemma Number38Next(s: string, i: nat)
    requires i < |s| && InTable(s[..i]) && Index38(s[i]) >= 0
    ensures InTable(s[..i + 1]) && Number38(s[..i + 1]) == 38 * Number38(s[..i]) + Index38(s[i])
  {
    assert s[..i + 1][..i] == s[..i];
  }

  /** Each trailing space multiplies by 38 and stays inside a word. */
  lemma StretchStep(stem: string, i: nat)
    requires InTable(stem) && |stem| <= i < MAX_CALL
    ensures Stretch(stem, i + 1 - |stem|) == 38 * Stretch(stem, i - |stem|) < WORD64
  {
    hide Number38, Pow38;
    var k := i - |stem|;
    var n, p := Number38(stem), Pow38(k);
    assert Stretch(stem, k) == n * p;
    Number38Bound(stem);
    Pow38Adds(|stem|, i - |stem|);
    Pow38Grows(i + 1, MAX_CALL);
    Pow38Next(i);
    Pow38Next(k);
    assert Stretch(stem, k + 1) == n * (38 * p);
    FitsInto58Bits();
    Stretches(n, p, Pow38(|stem|), Pow38(i));
  }

  lemma Pow38Next(i: nat)
    ensures Pow38(i + 1) == 38 * Pow38(i)
  {
  }

  lemma Stretches(n: nat, p: nat, q: nat, r: nat)
    requires n < q && r == q * p
    ensures n * (38 * p) == 38 * (n * p) <= 38 * r
  {
    assert n * p <= q * p;
  }

  // ----- the plain call in 58 bits -----

  /** A call of A to Z, 0 to 9 and '/'. */
  predicate CallText(s: string) {
    forall i :: 0 <= i < |s| ==> 'A' <= s[i] <= 'Z' || '0' <= s[i] <= '9' || s[i] == '/'
  }

  lemma CallTextInTable(s: string)
    requires CallText(s)
    ensures InTable(s) && NoSpaces(s)
  {
  }

  function Chars38(v: nat, n: nat): (s: string)
    ensures |s| == n
  {
    if n == 0 then "" else Chars38(v / 38, n - 1) + [Charn(v % 38, ALPHANUM_SPACE_SLASH)]
  }

  /** A number's characters are the call, with spaces in front. */
  lemma {:induction false} Chars38Return(s: string, n: nat)
    requires InTable(s) && |s| <= n
    ensures Chars38(Number38(s), n) == Spaces(n - |s|) + s
    decreases n
  {
    if n == 0 {
    } else if s == "" {
      Chars38Return("", n - 1);
      assert Chars38(0, n) == Chars38(0, n - 1) + [' '];
      assert Spaces(n - 1) + "" + [' '] == Spaces(n) + "";
    } else {
      var t, v := s[..|s| - 1], Number38(s);
      Chars38Return(t, n - 1);
      CharnOfNchar(s[|s| - 1], ALPHANUM_SPACE_SLASH);
      assert v / 38 == Number38(t) && v % 38 == Index38(s[|s| - 1]);
      assert Spaces(n - |s|) + s == Spaces(n - |s|) + t + [s[|s| - 1]];
    }
  }

  /** A call without the bracket it may begin with. */
  function Opened(call: string): string {
    if At(call, 0) == '<' then call[1..] else call
  }

  /** What is packed of a call: up to eleven characters behind a first '<' and before any other. */
  function Packed(call: string): (s: string)
    ensures |s| <= MAX_CALL
  {
    Upto(Opened(call), 0)
  }

  function Upto(call: string, i: nat): (s: string)
    requires i <= MAX_CALL
    ensures |s| <= MAX_CALL - i
    decreases MAX_CALL - i
  {
    if i < |call| && call[i] != '<' && i < MAX_CALL then [call[i]] + Upto(call, i + 1) else ""
  }

  lemma {:induction false} UptoIsRest(call: string, i: nat)
    requires i <= |call| <= MAX_CALL && '<' !in call
    ensures Upto(call, i) == call[i..]
    decreases |call| - i
  {
    if i < |call| {
      UptoIsRest(call, i + 1);
    }
  }

  /** A closing bracket among the packed characters keeps a call from being packed. */
  lemma BracketNotPacked(call: string, i: nat)
    requires At(call, 0) == '<' && 1 <= i <= MAX_CALL && i < |call| && call[i] == '>'
    requires '<' !in call[1..i]
    ensures !InTable(Packed(call))
  {
    hide InTable;
    PackedIs(call);
    assert call[1..][i - 1] == '>';
    forall k | 0 <= k < i - 1
      ensures call[1..][k] != '<'
    {
      assert call[1..i][k] == call[1..][k];
    }
    UptoAt(call[1..], 0, i - 1);
    NotInTable(Packed(call), i - 1);
  }

  lemma {:induction false} UptoAt(call: string, i: nat, k: nat)
    requires i <= k < |call| && k < MAX_CALL && forall j :: i <= j <= k ==> call[j] != '<'
    ensures k - i < |Upto(call, i)| && Upto(call, i)[k - i] == call[k]
    decreases k - i
  {
    if i < k {
      UptoAt(call, i + 1, k);
    }
  }

  /** The base-38 number of a call's packed text. */
  method PackText(callsign: string) returns (ok: bool, c11: string, n58: nat)
    ensures ok == InTable(Packed(callsign))
    ensures ok ==> c11 == Packed(callsign) && n58 == Number38(c11)
  {
    hide Number38, Nchar, Upto, InTable, Packed, Index38;
    var src := callsign;
    if At(src, 0) == '<' {
      src := src[1..];
    }
    c11 := "";
    n58 := 0;
    var length := 0;
    PackedIs(callsign);
    assert InTable("") && Number38("") == 0 by { Number38Empty(); }
    while length < |src| && src[length] != '<' && length < 11
      invariant 0 <= length <= |src| && length <= 11 && |c11| == length
      invariant Packed(callsign) == c11 + Upto(src, length)
      invariant InTable(c11) && n58 == Number38(c11)
    {
      ghost var before := c11;
      UptoNext(src, length);
      c11 := c11 + [src[length]];
      var j := Nchar(src[length], ALPHANUM_SPACE_SLASH);
      if j < 0 {
        assert Packed(callsign)[length] == src[length];
        NotInTable(Packed(callsign), length);
        return false, "", 0;
      }
      Number38Grows(before, src[length]);
      Number38Fits(c11);
      WordHolds(n58 * 38 + j);
      n58 := (n58 * 38 + j) % WORD64;
      length := length + 1;
    }
    UptoNext(src, length);
    assert c11 + "" == c11;
    ok := true;
  }

  lemma WordHolds(n: nat)
    requires n < WORD64
    ensures n % WORD64 == n
  {
  }

  lemma Number38Grows(s: string, c: char)
    requires InTable(s) && Nchar(c, ALPHANUM_SPACE_SLASH) >= 0
    ensures InTable(s + [c]) && Number38(s + [c]) == Number38(s) * 38 + Nchar(c, ALPHANUM_SPACE_SLASH)
  {
    hide Nchar;
    var t := s + [c];
    assert t[..|s|] == s && t[..|s| + 1] == t;
    Number38Next(t, |s|);
  }

  lemma PackedIs(call: string)
    ensures Packed(call) == Upto(Opened(call), 0)
  {
  }

  lemma NotInTable(s: string, i: nat)
    requires i < |s| && Nchar(s[i], ALPHANUM_SPACE_SLASH) < 0
    ensures !InTable(s)
  {
    assert Index38(s[i]) < 0;
  }

  lemma UptoNext(call: string, i: nat)
    requires i <= MAX_CALL
    ensures Upto(call, i) == if i < |call| && call[i] != '<' && i < MAX_CALL then [call[i]] + Upto(call, i + 1) else ""
  {
  }

  method Pack58(table: CallsignTables.CallsignTable, callsign: string) returns (ok: bool, n58: nat)
    requires table.Valid()
    modifies table, table.slots
    ensures table.Valid() && ok == InTable(Packed(callsign))
    ensures ok ==> n58 == Number38(Packed(callsign)) && table.contents == Saved(old(table.contents), Packed(callsign))
    ensures !ok ==> table.contents == old(table.contents)
  {
    hide Number38, InTable, Saved, Upto, CallsignTables.Holds;
    var c11;
    ok, c11, n58 := PackText(callsign);
    if ok {
      var saved, n22, n12, n10 := SaveCallsign(table, c11);
      ok := saved;
    }
  }

  /** The characters of a base-38 number, from the last one on. */
  method UnpackText(n58: nat) returns (callsign: string)
    ensures callsign == Trim(Chars38(n58, MAX_CALL))
  {
    hide Charn, Trim;
    var c11 := new char[MAX_CALL];
    var v := n58;
    var i := 10;
    assert c11[11..] == [];
    assert Chars38(n58, 11) + [] == Chars38(n58, 11);
    while true
      invariant 0 <= i <= 10
      invariant Chars38(v, i + 1) + c11[i + 1..] == Chars38(n58, MAX_CALL)
      decreases i
    {
      ghost var t := c11[i + 1..];
      c11[i] := Charn(v % 38, ALPHANUM_SPACE_SLASH);
      assert c11[i..] == [Charn(v % 38, ALPHANUM_SPACE_SLASH)] + t;
      assert Chars38(v, i + 1) == Chars38(v / 38, i) + [Charn(v % 38, ALPHANUM_SPACE_SLASH)];
      if i == 0 {
        assert Chars38(v / 38, 0) == "" && c11[0..] == c11[..];
        assert "" + [Charn(v % 38, ALPHANUM_SPACE_SLASH)] + t == c11[..];
        assert c11[..] == Chars38(n58, MAX_CALL);
        break;
      }
      v := v / 38;
      i := i - 1;
    }
    callsign := TrimCopy(c11[..]);
  }

  method Unpack58(table: CallsignTables.CallsignTable, n58: nat) returns (callsign: string)
    requires table.Valid()
    modifies table, table.slots
    ensures table.Valid() && callsign == Trim(Chars38(n58, MAX_CALL))
    ensures table.contents == Heard(old(table.contents), callsign)
  {
    hide Trim, Chars38, Saved, CallsignTables.Holds;
    callsign := UnpackText(n58);
    if |callsign| >= 3 {
      var ok, n22, n12, n10 := SaveCallsign(table, callsign);
    }
  }

  /** The table's meaning after a decoded call of at least three characters is saved. */
  function Heard(m: Calls, call: string): Calls {
    if |call| >= 3 then Saved(m, call) else m
  }

  /** The text of a call that came as a hash: in brackets, or dots when it is not known. */
  function Bracketed(found: CallsignTables.Option): string {
    match found
    case None => "<...>"
    case Some(call) => "<" + call + ">"
  }

  method LookupCallsign(table: CallsignTables.CallsignTable, ty: CallsignTables.HashType, hash: nat)
    returns (callsign: string, found: CallsignTables.Option)
    requires table.Valid()
    ensures CallsignTables.Answers(table.contents, ty, hash, found) && callsign == Bracketed(found)
  {
    hide CallsignTables.Answers, CallsignTables.Holds;
    found := table.Lookup(ty, hash);
    callsign := Bracketed(found);
  }

  // ----- what the hash is of -----

  lemma StretchNext(stem: string, k: nat)
    requires InTable(stem)
    ensures Stretch(stem, k + 1) == 38 * Stretch(stem, k)
  {
    hide Number38, Pow38;
    Pow38Next(k);
    var n, p := Number38(stem), Pow38(k);
    assert n * (38 * p) == 38 * (n * p);
  }

  lemma SpaceIsZero()
    ensures Index38(' ') == 0
  {
  }

  lemma {:induction false} SpacesBehind(stem: string, k: nat)
    requires InTable(stem)
    ensures InTable(stem + Spaces(k)) && Number38(stem + Spaces(k)) == Stretch(stem, k)
  {
    hide Number38, Index38, Pow38, Stretch;
    var s := stem + Spaces(k);
    if k == 0 {
      StretchNone(stem);
      assert s == stem;
    } else {
      SpacesBehind(stem, k - 1);
      StretchNext(stem, k - 1);
      SpaceIsZero();
      assert s[..|s| - 1] == stem + Spaces(k - 1) && s[|s| - 1] == ' ';
      Number38Next(s, |s| - 1);
      assert s[..|s|] == s;
    }
  }

  /** The hash is that of the call filled up with spaces to eleven characters, so spaces behind a call do not count. */
  lemma HashOfPadded(call: string, k: nat)
    requires InTable(call) && |call| + k <= MAX_CALL
    ensures InTable(Stem(call + Spaces(k))) && Hash22(call + Spaces(k)) == Hash22(call)
    ensures InTable(call + Spaces(MAX_CALL - |call|))
    ensures Hash22(call) == Mix(Number38(call + Spaces(MAX_CALL - |call|)))
  {
    hide Number38, Index38, Mix, Stretch;
    var r := MAX_CALL - |call|;
    SpacesBehind(call, k);
    SpacesBehind(call, r);
    SpacesBehind(call + Spaces(k), r - k);
    assert call + Spaces(k) + Spaces(r - k) == call + Spaces(r);
  }
}
