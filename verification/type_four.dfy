/** Messages with a nonstandard call: one call as 58 bits of text, the other as a 12-bit hash. */
module TypeFour {
  import opened Words
  import opened Texts
  import opened Callsigns
  import CallsignTables

  datatype Rc = OK | ERROR_CALLSIGN1 | ERROR_CALLSIGN2 | ERROR_SUFFIX | ERROR_GRID

  const I3 := 4

  /** The numbers sent: the hash, the text, which is first, the report, whether it is a CQ. */
  datatype Fields = Fields(n12: nat, n58: nat, iflip: nat, nrpt: nat, icq: nat)
  {
    predicate Fit() {
      n12 < Pow2(12) && n58 < Pow2(58) && iflip < 2 && nrpt < 4 && icq < 2
    }
  }

  function Payload(f: Fields): (p: seq<nat>)
    ensures |p| == 10
  {
    [U8(Shr(f.n12, 4)), Or(U8(Shl(f.n12, 4)), U8(Shr(f.n58, 54))), U8(Shr(f.n58, 46)), U8(Shr(f.n58, 38)),
     U8(Shr(f.n58, 30)), U8(Shr(f.n58, 22)), U8(Shr(f.n58, 14)), U8(Shr(f.n58, 6)),
     Or(Or(U8(Shl(f.n58, 2)), U8(Shl(f.iflip, 1))), U8(Shr(f.nrpt, 1))),
     Or(Or(U8(Shl(f.nrpt, 7)), U8(Shl(f.icq, 6))), U8(Shl(I3, 3)))]
  }

  /** The number n58 as it is or-ed together from the payload. */
  function Gather58(p: seq<nat>): nat
    requires |p| == 10
  {
    var a := Or(Shl(p[1] % 16, 54), Shl(p[2], 46));
    var b := Or(a, Shl(p[3], 38));
    var c := Or(b, Shl(p[4], 30));
    var d := Or(c, Shl(p[5], 22));
    var e := Or(d, Shl(p[6], 14));
    var g := Or(e, Shl(p[7], 6));
    Or(g, Shr(p[8], 2))
  }

  function Extract(p: seq<nat>): Fields
    requires |p| == 10
  {
    Fields(Or(Shl(p[0], 4), Shr(p[1], 4)), Gather58(p), Shr(p[8], 1) % 2,
           Or(Shl(p[8] % 2, 1), Shr(p[9], 7)), Shr(p[9], 6) % 2)
  }

  function GetI3(p: seq<nat>): nat
    requires |p| == 10
  {
    Shr(p[9], 3) % 8
  }

  // ----- the fields come back -----

  /** Or-ing seven more bytes and six bits of a number gives the number. */
  lemma Gathers(p: seq<nat>, n58: nat)
    requires |p| == 10 && n58 < Pow2(58)
    requires p[1] % 16 == Shr(n58, 54) && p[2] == U8(Shr(n58, 46)) && p[3] == U8(Shr(n58, 38))
    requires p[4] == U8(Shr(n58, 30)) && p[5] == U8(Shr(n58, 22)) && p[6] == U8(Shr(n58, 14))
    requires p[7] == U8(Shr(n58, 6)) && Shr(p[8], 2) == n58 % 64
    ensures Gather58(p) == n58
  {
    hide Or, Shl, Shr, U8, Pow2;
    ByteSplit(n58, 46);
    OrByteIn(Shr(n58, 54), p[2], 46);
    ByteSplit(n58, 38);
    OrByteIn(Shr(n58, 46), p[3], 38);
    ByteSplit(n58, 30);
    OrByteIn(Shr(n58, 38), p[4], 30);
    ByteSplit(n58, 22);
    OrByteIn(Shr(n58, 30), p[5], 22);
    ByteSplit(n58, 14);
    OrByteIn(Shr(n58, 22), p[6], 14);
    ByteSplit(n58, 6);
    OrByteIn(Shr(n58, 14), p[7], 6);
    LastSixBits(n58);
  }

  lemma LastSixBits(n58: nat)
    ensures Or(Shl(Shr(n58, 6), 6), n58 % 64) == n58
  {
    assert Pow2(6) == 64;
    OrLow(Shr(n58, 6), n58 % 64, 6);
  }

  /** A byte shared by the low half of one number and the top of another. */
  lemma HalfByte(a: nat, b: nat)
    requires b < 16
    ensures var p := Or(U8(Shl(a, 4)), U8(b)); p == (a % 16) * 16 + b && p % 16 == b && Shr(p, 4) == a % 16
  {
    hide Or, Shl, Shr, Pow2;
    Pow2Table();
    ShiftedByte(a, 4);
    OrLow(a % 16, b, 4);
    SmallShifts(a % 16);
    SmallShifts((a % 16) * 16 + b);
  }

  lemma First12Bits(n12: nat)
    requires n12 < Pow2(12)
    ensures Or(Shl(U8(Shr(n12, 4)), 4), n12 % 16) == n12
  {
    hide Or, Shl, Shr, Pow2;
    Pow2Table();
    SmallShifts(n12);
    SmallShifts(n12 / 16);
    OrLow(n12 / 16, n12 % 16, 4);
  }

  /** The last two bytes hold the end of the text, the order, the report, the CQ flag and the type. */
  lemma TailBytes(n58: nat, iflip: nat, nrpt: nat, icq: nat)
    requires iflip < 2 && nrpt < 4 && icq < 2
    ensures var p8 := Or(Or(U8(Shl(n58, 2)), U8(Shl(iflip, 1))), U8(Shr(nrpt, 1)));
            && Shr(p8, 2) == n58 % 64 && Shr(p8, 1) % 2 == iflip && p8 % 2 == nrpt / 2
            && p8 == (n58 % 64) * 4 + iflip * 2 + nrpt / 2
    ensures var p9 := Or(Or(U8(Shl(nrpt, 7)), U8(Shl(icq, 6))), U8(Shl(I3, 3)));
            Shr(p9, 7) == nrpt % 2 && Shr(p9, 6) % 2 == icq && Shr(p9, 3) % 8 == I3
            && p9 == (nrpt % 2) * 128 + icq * 64 + I3 * 8
  {
    hide Or, Shl, Shr;
    SmallShifts(nrpt);
    TailByte8(n58, iflip, nrpt / 2);
    TailByte9(nrpt, icq);
    SmallShifts((n58 % 64) * 4 + iflip * 2 + nrpt / 2);
    SmallShifts((nrpt % 2) * 128 + icq * 64 + I3 * 8);
  }

  lemma TailByte8(n58: nat, iflip: nat, top: nat)
    requires iflip < 2 && top < 2
    ensures Or(Or(U8(Shl(n58, 2)), U8(Shl(iflip, 1))), U8(top)) == (n58 % 64) * 4 + iflip * 2 + top
  {
    hide Or, Shl, Shr, Pow2;
    Pow2Table();
    var r := n58 % 64;
    ShiftedByte(n58, 2);
    SmallShifts(iflip);
    SmallShifts(r);
    SmallShifts(r * 2 + iflip);
    OrLow(r, iflip * 2, 2);
    OrLow(r * 2 + iflip, top, 1);
  }

  lemma TailByte9(nrpt: nat, icq: nat)
    requires icq < 2
    ensures Or(Or(U8(Shl(nrpt, 7)), U8(Shl(icq, 6))), U8(Shl(I3, 3))) == (nrpt % 2) * 128 + icq * 64 + I3 * 8
  {
    hide Or, Shl, Shr, Pow2;
    Pow2Table();
    var r := nrpt % 2;
    ShiftedByte(nrpt, 7);
    SmallShifts(icq);
    SmallShifts(I3);
    SmallShifts(r);
    SmallShifts(r * 2 + icq);
    OrLow(r, icq * 64, 7);
    OrLow(r * 2 + icq, I3 * 8, 6);
  }

  lemma ReportBits(nrpt: nat)
    requires nrpt < 4
    ensures Or(Shl(nrpt / 2, 1), nrpt % 2) == nrpt
  {
    hide Or, Shl, Pow2;
    Pow2Table();
    SmallShifts(nrpt / 2);
    OrLow(nrpt / 2, nrpt % 2, 1);
  }

  /** What is packed is what is extracted. */
  lemma FieldsReturn(f: Fields)
    requires f.Fit()
    ensures Extract(Payload(f)) == f && GetI3(Payload(f)) == I3 && Bytes(Payload(f))
  {
    hide Or, Shl, Shr, Pow2, Gather58;
    var p := Payload(f);
    TopOfText(f.n58);
    HalfByte(f.n12, Shr(f.n58, 54));
    First12Bits(f.n12);
    TailBytes(f.n58, f.iflip, f.nrpt, f.icq);
    ReportBits(f.nrpt);
    Gathers(p, f.n58);
  }

  lemma TopOfText(n58: nat)
    requires n58 < Pow2(58)
    ensures Shr(n58, 54) < 16
  {
    assert Pow2(4) == 16;
    ShrBound(n58, 4, 54);
  }

  /** The payload as a number: the hash, the call, the flip bit, the report, the CQ bit and the type, in that order,
      before three clear bits. */
  lemma PayloadNumber(f: Fields)
    requires f.Fit()
    ensures Value(Payload(f)) ==
            f.n12 * 0x10_0000_0000_0000_0000 + f.n58 * 1024 + f.iflip * 512 + f.nrpt * 128 + f.icq * 64 + I3 * 8
  {
    hide Or, Shl, Shr, Pow2, Value;
    var p, n := Payload(f), f.n58;
    Pow2Table();
    TopOfText(n);
    HalfByte(f.n12, Shr(n, 54));
    TailBytes(n, f.iflip, f.nrpt, f.icq);
    SmallShifts(f.n12);
    assert U8(Shr(f.n12, 4)) == f.n12 / 16;
    ByteSplit(n, 46); ByteSplit(n, 38); ByteSplit(n, 30); ByteSplit(n, 22); ByteSplit(n, 14); ByteSplit(n, 6);
    assert Shr(n, 6) * 64 + n % 64 == n by { LowSix(n); }
    FirstBytes(p);
    ValueNext(p, 2); ValueNext(p, 3); ValueNext(p, 4); ValueNext(p, 5); ValueNext(p, 6); ValueNext(p, 7);
    ValueNext(p, 8); ValueNext(p, 9);
    assert p[..10] == p;
  }

  lemma LowSix(n: nat)
    ensures Shr(n, 6) * 64 + n % 64 == n
  {
    assert Pow2(6) == 64;
  }

  lemma FirstBytes(p: seq<nat>)
    requires |p| >= 2
    ensures Value(p[..2]) == p[0] * 256 + p[1]
  {
    assert p[..0] == [] && Value([]) == 0;
    ValueNext(p, 0);
    ValueNext(p, 1);
  }

  // ----- encoding and decoding -----

  function ReportCode(extra: string): nat {
    if extra == "RRR" then 1 else if extra == "RR73" then 2 else if extra == "73" then 3 else 0
  }

  function ReportText(nrpt: nat): string {
    if nrpt == 1 then "RRR" else if nrpt == 2 then "RR73" else if nrpt == 3 then "73" else ""
  }

  /** The sender's call is taken for one in brackets when it begins with one and has the other at the place where
      the addressee's call ends; behind a text's end there are zeros. */
  predicate Flipped(to: string, de: string) {
    to != "CQ" && At(de, 0) == '<' && |to| > 0 && At(de, |to| - 1) == '>'
  }

  /** The call that is sent as a hash. */
  function HashedCall(to: string, de: string): string {
    if Flipped(to, de) then de else to
  }

  /** The call that is sent in plain text. */
  function SpelledCall(to: string, de: string): string {
    if Flipped(to, de) then to else de
  }

  /** Why a message cannot be sent in this form. */
  function Check(to: string, de: string): Rc {
    if to != "CQ" && |to| < 3 then ERROR_CALLSIGN1
    else if |de| < 3 then ERROR_CALLSIGN2
    else if to != "CQ" && !InTable(Stem(HashedCall(to, de))) then ERROR_CALLSIGN1
    else if !InTable(Packed(SpelledCall(to, de))) then ERROR_CALLSIGN2
    else OK
  }

  /** A sender's call that is taken for one in brackets is never sent: its hash would be one with the brackets. */
  lemma FlippedIsRefused(to: string, de: string)
    requires Flipped(to, de)
    ensures Check(to, de) == if |to| >= 3 && |de| < 3 then ERROR_CALLSIGN2 else ERROR_CALLSIGN1
  {
    assert Stem(de)[0] == '<' && Index38('<') < 0;
  }

  /** No sender's call in brackets is sent at all, wherever the addressee's call ends, if it closes within the
      eleven characters that are packed. */
  lemma BracketedIsRefused(to: string, de: string, i: nat)
    requires At(de, 0) == '<' && 1 <= i <= MAX_CALL && i < |de| && de[i] == '>' && '<' !in de[1..i]
    ensures Check(to, de) != OK
  {
    hide InTable, Packed;
    if Flipped(to, de) {
      FlippedIsRefused(to, de);
    } else {
      BracketNotPacked(de, i);
    }
  }

  /** The fields of a message that can be sent. */
  function FieldsOf(to: string, de: string, extra: string): (f: Fields)
    requires Check(to, de) == OK
    ensures f.Fit()
  {
    hide Pow2, Number38, Pow38, Hash22, InTable;
    PackedFits(SpelledCall(to, de));
    Pow2Table();
    Fields(if to == "CQ" then 0 else Hash22(HashedCall(to, de)) / 0x400, Number38(Packed(SpelledCall(to, de))),
           if Flipped(to, de) then 1 else 0,
           if to == "CQ" then 0 else ReportCode(extra), if to == "CQ" then 1 else 0)
  }

  lemma PackedFits(de: string)
    requires InTable(Packed(de))
    ensures Number38(Packed(de)) < Pow2(58)
  {
    hide Number38, Pow38, Pow2;
    Number38Bound(Packed(de));
    Pow38Grows(|Packed(de)|, MAX_CALL);
    FitsInto58Bits();
  }

  /** The table after a message was sent, or failed to be. */
  function Sent(m: Calls, to: string, de: string): Calls {
    if (to != "CQ" && |to| < 3) || |de| < 3 then m
    else
      var n := if to != "CQ" then Saved(m, HashedCall(to, de)) else m;
      if to != "CQ" && !InTable(Stem(HashedCall(to, de))) then n
      else if InTable(Packed(SpelledCall(to, de))) then Saved(n, Packed(SpelledCall(to, de))) else n
  }

  method EncodeNonstd(payload: array<nat>, table: CallsignTables.CallsignTable, callTo: string, callDe: string,
                      extra: string) returns (rc: Rc)
    requires payload.Length == 10 && table.Valid()
    requires payload as object != table && payload as object != table.slots
    modifies payload, table, table.slots
    ensures table.Valid() && table.contents == Sent(old(table.contents), callTo, callDe)
    ensures rc == Check(callTo, callDe)
    ensures rc == OK ==> payload[..] == Payload(FieldsOf(callTo, callDe, extra))
    ensures rc != OK ==> payload[..] == old(payload[..])
  {
    hide InTable, Number38, Hash22, Saved, Payload, Packed, CallsignTables.Holds;
    var icq := if callTo == "CQ" then 1 else 0;
    if icq == 0 && |callTo| < 3 {
      return ERROR_CALLSIGN1;
    }
    if |callDe| < 3 {
      return ERROR_CALLSIGN2;
    }
    var n12 := 0;
    var iflip := 0;
    var call58 := callDe;
    if icq == 0 {
      if At(callDe, 0) == '<' && At(callDe, |callTo| - 1) == '>' {
        iflip := 1;
      }
      var call12 := if iflip == 0 then callTo else callDe;
      call58 := if iflip == 0 then callDe else callTo;
      var ok, n22, h12, n10 := SaveCallsign(table, call12);
      if !ok {
        return ERROR_CALLSIGN1;
      }
      n12 := h12;
    }
    var packed, n58 := Pack58(table, call58);
    if !packed {
      return ERROR_CALLSIGN2;
    }
    var nrpt := 0;
    if icq != 0 {
      nrpt := 0;
    } else if extra == "RRR" {
      nrpt := 1;
    } else if extra == "RR73" {
      nrpt := 2;
    } else if extra == "73" {
      nrpt := 3;
    }
    assert Fields(n12, n58, iflip, nrpt, icq) == FieldsOf(callTo, callDe, extra);
    WriteFields(payload, n12, n58, iflip, nrpt, icq);
    rc := OK;
  }

  /** Packs the fields into 77 bits. */
  method WriteFields(payload: array<nat>, n12: nat, n58: nat, iflip: nat, nrpt: nat, icq: nat)
    requires payload.Length == 10
    modifies payload
    ensures payload[..] == Payload(Fields(n12, n58, iflip, nrpt, icq))
  {
    hide Or, Shl, Shr, U8;
    payload[0] := U8(Shr(n12, 4));
    payload[1] := Or(U8(Shl(n12, 4)), U8(Shr(n58, 54)));
    payload[2] := U8(Shr(n58, 46));
    payload[3] := U8(Shr(n58, 38));
    payload[4] := U8(Shr(n58, 30));
    payload[5] := U8(Shr(n58, 22));
    payload[6] := U8(Shr(n58, 14));
    payload[7] := U8(Shr(n58, 6));
    payload[8] := Or(Or(U8(Shl(n58, 2)), U8(Shl(iflip, 1))), U8(Shr(nrpt, 1)));
    payload[9] := Or(Or(U8(Shl(nrpt, 7)), U8(Shl(icq, 6))), U8(Shl(I3, 3)));
  }

  datatype Message = Message(to: string, de: string, extra: string)

  /** The plain call a payload carries. */
  function PlainCall(p: seq<nat>): string
    requires |p| == 10
  {
    Trim(Chars38(Extract(p).n58, MAX_CALL))
  }

  /** The text of a payload whose hash was looked up. */
  function TextOf(p: seq<nat>, found: CallsignTables.Option): Message
    requires |p| == 10
  {
    var f := Extract(p);
    var first := if f.iflip != 0 then PlainCall(p) else Bracketed(found);
    var second := if f.iflip != 0 then Bracketed(found) else PlainCall(p);
    if f.icq == 0 then Message(first, second, ReportText(f.nrpt)) else Message("CQ", second, "")
  }

  /** What a station shows that decodes a payload: one lookup, after the plain call was stored. */
  ghost predicate NonstdDecoded(p: seq<nat>, m: Calls, shown: Message)
    requires |p| == 10
  {
    exists found ::
      && CallsignTables.Answers(Heard(m, PlainCall(p)), CallsignTables.Bits12, Extract(p).n12, found)
      && shown == TextOf(p, found)
  }

  method DecodeNonstd(payload: array<nat>, table: CallsignTables.CallsignTable)
    returns (callTo: string, callDe: string, extra: string)
    requires payload.Length == 10 && table.Valid()
    requires payload as object != table && payload as object != table.slots
    modifies table, table.slots
    ensures table.Valid() && table.contents == Heard(old(table.contents), PlainCall(payload[..]))
    ensures NonstdDecoded(payload[..], old(table.contents), Message(callTo, callDe, extra))
  {
    hide Or, Shl, Shr, Chars38, Trim, Heard, CallsignTables.Answers, CallsignTables.Holds;
    var p := payload;
    ghost var s := payload[..];
    var n12 := Shl(p[0], 4);
    n12 := Or(n12, Shr(p[1], 4));
    var n58 := Shl(p[1] % 16, 54);
    n58 := Or(n58, Shl(p[2], 46));
    n58 := Or(n58, Shl(p[3], 38));
    n58 := Or(n58, Shl(p[4], 30));
    n58 := Or(n58, Shl(p[5], 22));
    n58 := Or(n58, Shl(p[6], 14));
    n58 := Or(n58, Shl(p[7], 6));
    n58 := Or(n58, Shr(p[8], 2));
    var iflip := Shr(p[8], 1) % 2;
    var nrpt := Shl(p[8] % 2, 1);
    nrpt := Or(nrpt, Shr(p[9], 7));
    var icq := Shr(p[9], 6) % 2;
    assert Extract(s) == Fields(n12, n58, iflip, nrpt, icq);
    var callDecoded := Unpack58(table, n58);
    assert payload[..] == s;
    var call3, found := LookupCallsign(table, CallsignTables.Bits12, n12);
    var call1 := if iflip != 0 then callDecoded else call3;
    var call2 := if iflip != 0 then call3 else callDecoded;
    if icq == 0 {
      callTo := call1;
      extra := if nrpt == 1 then "RRR" else if nrpt == 2 then "RR73" else if nrpt == 3 then "73" else "";
    } else {
      callTo := "CQ";
      extra := "";
    }
    callDe := call2;
    assert Message(callTo, callDe, extra) == TextOf(s, found);
  }

  // ----- the round trip -----

  /** A call this form carries in plain text. */
  predicate PlainText(call: string) {
    3 <= |call| <= MAX_CALL && CallText(call)
  }

  lemma PlainTextIs(call: string)
    ensures PlainText(call) <==> 3 <= |call| <= MAX_CALL && CallText(call)
  {
  }

  lemma PlainCallReturns(to: string, de: string, extra: string)
    requires (to == "CQ" || PlainText(to)) && PlainText(de)
    ensures Check(to, de) == OK
    ensures var f := FieldsOf(to, de, extra);
            Extract(Payload(f)) == f && PlainCall(Payload(f)) == de
  {
    hide Or, Shl, Shr, Pow2, Number38, Chars38, Trim, Index38, Payload, Hash22, PlainText;
    assert PlainText(de) ==> 3 <= |de| <= MAX_CALL && CallText(de) by { PlainTextIs(de); }
    assert PlainText(to) ==> 3 <= |to| <= MAX_CALL && CallText(to) by { PlainTextIs(to); }
    if to != "CQ" {
      CallTextInTable(to);
      assert Stem(to) == to;
    }
    CallTextInTable(de);
    UptoIsRest(de, 0);
    assert de[0..] == de;
    FieldsReturn(FieldsOf(to, de, extra));
    Chars38Return(de, MAX_CALL);
    TrimPadded(MAX_CALL - |de|, de, 0);
    assert Spaces(MAX_CALL - |de|) + de + Spaces(0) == Spaces(MAX_CALL - |de|) + de;
  }

  /** The payload of a message between two plain calls, or of a CQ with one. */
  function NonstdSent(to: string, de: string, extra: string): (p: seq<nat>)
    requires (to == "CQ" || PlainText(to)) && PlainText(de)
    ensures |p| == 10
  {
    PlainCallReturns(to, de, extra);
    Payload(FieldsOf(to, de, extra))
  }

  /** The hash of a plain call. */
  function PlainHash(call: string): (n22: nat)
    requires PlainText(call)
    ensures n22 < 0x40_0000
  {
    PlainTextIs(call);
    CallTextInTable(call);
    Hash22(call)
  }

  /** The report field as it arrives: one of three words, or nothing. */
  function ExtraShown(extra: string): string {
    if extra in {"RRR", "RR73", "73"} then extra else ""
  }

  /** What a station that receives the message shows: the plain call and the report exactly as sent, and the other
      call from its own table, by hash. */
  lemma TypeFourReturns(to: string, de: string, extra: string, m: Calls, shown: Message)
    requires (to == "CQ" || PlainText(to)) && PlainText(de)
    requires NonstdDecoded(NonstdSent(to, de, extra), m, shown)
    ensures to == "CQ" ==> shown == Message("CQ", de, "")
    ensures to != "CQ" ==>
              exists found ::
                && CallsignTables.Answers(Heard(m, de), CallsignTables.Bits12, PlainHash(to) / 0x400, found)
                && shown == Message(Bracketed(found), de, ExtraShown(extra))
  {
    hide Or, Shl, Shr, Number38, Chars38, Trim, Hash22, Payload, Heard, CallsignTables.Answers;
    PlainCallReturns(to, de, extra);
    NotFlipped(to, de);
  }

  /** Plain calls have no brackets. */
  lemma NotFlipped(to: string, de: string)
    requires PlainText(de)
    ensures !Flipped(to, de) && HashedCall(to, de) == to && SpelledCall(to, de) == de
  {
    PlainTextIs(de);
  }

  /** No other stored call has the same 12-bit hash. */
  ghost predicate Unshared(m: Calls, n22: nat) {
    forall k :: k in m && k != n22 ==> CallsignTables.Reduce(CallsignTables.Bits12, k) != n22 / 0x400
  }

  /** A stored call whose 12-bit hash no other stored call shares comes back in brackets. */
  lemma StoredCallReturns(to: string, de: string, extra: string, m: Calls, shown: Message)
    requires PlainText(to) && PlainText(de) && NonstdDecoded(NonstdSent(to, de, extra), m, shown)
    requires PlainHash(to) in Heard(m, de) && Heard(m, de)[PlainHash(to)] == to
    requires Unshared(Heard(m, de), PlainHash(to))
    ensures shown == Message("<" + to + ">", de, ExtraShown(extra))
  {
    hide Or, Shl, Shr, Number38, Chars38, Trim, Hash22, Payload, Heard, PlainHash, NonstdDecoded, NonstdSent, Unshared,
         Bracketed, CallsignTables.Answers;
    assert to != "CQ" by { PlainTextIs(to); }
    TypeFourReturns(to, de, extra, m, shown);
    var n22, n := PlainHash(to), Heard(m, de);
    var found :| CallsignTables.Answers(n, CallsignTables.Bits12, n22 / 0x400, found)
                 && shown == Message(Bracketed(found), de, ExtraShown(extra));
    OnlyAnswer(n, n22, to, found);
  }

  // ----- whatever another station may send -----

  /** The fields with a call of the plain characters spelled out. */
  function Spelled(call: string, n12: nat, iflip: nat, nrpt: nat, icq: nat): (f: Fields)
    requires CallText(call) && |call| <= MAX_CALL && n12 < 0x1000 && iflip < 2 && nrpt < 4 && icq < 2
    ensures f.Fit()
  {
    hide Pow2, Number38, Pow38;
    CallTextInTable(call);
    Number38Bound(call);
    Pow38Grows(|call|, MAX_CALL);
    FitsInto58Bits();
    Pow2Table();
    Fields(n12, Number38(call), iflip, nrpt, icq)
  }

  /** What is shown of these fields: the flip bit puts the spelled call first, and a CQ has neither addressee nor
      report. */
  predicate ShownAs(shown: Message, call: string, other: string, iflip: nat, nrpt: nat, icq: nat)
    requires nrpt < 4
  {
    && (icq == 0 && iflip == 0 ==> shown == Message(other, call, ["", "RRR", "RR73", "73"][nrpt]))
    && (icq == 0 && iflip == 1 ==> shown == Message(call, other, ["", "RRR", "RR73", "73"][nrpt]))
    && (icq == 1 && iflip == 0 ==> shown == Message("CQ", call, ""))
    && (icq == 1 && iflip == 1 ==> shown == Message("CQ", other, ""))
  }

  lemma SpelledReturns(call: string, n12: nat, iflip: nat, nrpt: nat, icq: nat)
    requires CallText(call) && |call| <= MAX_CALL && n12 < 0x1000 && iflip < 2 && nrpt < 4 && icq < 2
    ensures var f := Spelled(call, n12, iflip, nrpt, icq);
            Extract(Payload(f)) == f && GetI3(Payload(f)) == I3 && PlainCall(Payload(f)) == call
  {
    hide Or, Shl, Shr, Pow2, Number38, Chars38, Trim, Payload, GetI3;
    CallTextInTable(call);
    FieldsReturn(Spelled(call, n12, iflip, nrpt, icq));
    Chars38Return(call, MAX_CALL);
    TrimPadded(MAX_CALL - |call|, call, 0);
    assert Spaces(MAX_CALL - |call|) + call + Spaces(0) == Spaces(MAX_CALL - |call|) + call;
  }

  /** Any payload with a spelled call, flipped or not, is shown in the order it asks for, the other call being the
      table's answer to the hash. */
  lemma SpelledShown(call: string, n12: nat, iflip: nat, nrpt: nat, icq: nat, m: Calls, shown: Message)
    requires CallText(call) && |call| <= MAX_CALL && n12 < 0x1000 && iflip < 2 && nrpt < 4 && icq < 2
    requires NonstdDecoded(Payload(Spelled(call, n12, iflip, nrpt, icq)), m, shown)
    ensures exists found :: CallsignTables.Answers(Heard(m, call), CallsignTables.Bits12, n12, found)
                            && ShownAs(shown, call, Bracketed(found), iflip, nrpt, icq)
  {
    hide Extract, PlainCall, Payload, Heard, Bracketed, CallsignTables.Answers, GetI3, Number38;
    SpelledReturns(call, n12, iflip, nrpt, icq);
    var p := Payload(Spelled(call, n12, iflip, nrpt, icq));
    var found :| CallsignTables.Answers(Heard(m, call), CallsignTables.Bits12, n12, found) && shown == TextOf(p, found);
    assert ShownAs(shown, call, Bracketed(found), iflip, nrpt, icq);
  }

  /** The only call with that hash is the answer. */
  lemma OnlyAnswer(m: Calls, n22: nat, call: string, found: CallsignTables.Option)
    requires n22 < 0x40_0000 && n22 in m && m[n22] == call && Unshared(m, n22)
    requires CallsignTables.Answers(m, CallsignTables.Bits12, n22 / 0x400, found)
    ensures Bracketed(found) == "<" + call + ">"
  {
    assert CallsignTables.Reduce(CallsignTables.Bits12, n22) == n22 / 0x400;
  }

  /** With the hash of a stored call that no other stored call shares, that call is shown in brackets: as the sender
      in a flipped message, as the addressee in another. */
  lemma KnownCallShown(call: string, other: string, iflip: nat, nrpt: nat, icq: nat, m: Calls, shown: Message)
    requires CallText(call) && |call| <= MAX_CALL && PlainText(other) && iflip < 2 && nrpt < 4 && icq < 2
    requires NonstdDecoded(Payload(Spelled(call, PlainHash(other) / 0x400, iflip, nrpt, icq)), m, shown)
    requires var n := Heard(m, call);
             PlainHash(other) in n && n[PlainHash(other)] == other && Unshared(n, PlainHash(other))
    ensures ShownAs(shown, call, "<" + other + ">", iflip, nrpt, icq)
  {
    hide Payload, Heard, Spelled, CallText, PlainText, PlainHash, ShownAs, NonstdDecoded, Unshared, Bracketed,
         CallsignTables.Answers;
    var n22, n := PlainHash(other), Heard(m, call);
    SpelledShown(call, n22 / 0x400, iflip, nrpt, icq, m, shown);
    var found :| CallsignTables.Answers(n, CallsignTables.Bits12, n22 / 0x400, found)
                 && ShownAs(shown, call, Bracketed(found), iflip, nrpt, icq);
    OnlyAnswer(n, n22, other, found);
  }
}
