/** The type bits of a payload: which decoder a message goes to, and the text it is shown as. */
module MessageTypes {
  import opened Words
  import opened Callsigns
  import opened Texts
  import CallsignTables
  import opened TypeFour
  import opened StandardMessages
  import opened StandardCalls
  import FreeText

  datatype MessageType = FreeTextType | DxpeditionType | EuVhfType | ArrlFdType | TelemetryType | StandardType
                       | ArrlRttyType | NonstdCallType | WwrofType | UnknownType

  /** The subtype bits, which sit across the last two bytes. */
  function GetN3(p: seq<nat>): nat
    requires |p| == 10
  {
    Or(Shl(p[8], 2) / 4 % 2 * 4, Shr(p[9], 6) % 4)
  }

  /** The subtype and the type are bits 71 to 73 and 74 to 76 of the payload. */
  lemma TypeBitsAre(p: seq<nat>)
    requires |p| == 10 && Bytes(p)
    ensures GetN3(p) == (p[8] * 256 + p[9]) / 64 % 8 && GetI3(p) == (p[8] * 256 + p[9]) / 8 % 8
  {
    hide Or, Shl, Shr;
    SmallShifts(p[8]);
    SmallShifts(p[9]);
    TypeBitsSplit(p[8], p[9]);
    Pow2Table();
    OrLow(p[8] % 2, p[9] / 64, 2);
    SmallShifts(p[8] % 2);
  }

  lemma TypeBitsSplit(a: nat, b: nat)
    requires b < 256
    ensures (a * 256 + b) / 64 % 8 == a % 2 * 4 + b / 64 && (a * 256 + b) / 8 % 8 == b / 8 % 8
    ensures a * 4 / 4 % 2 == a % 2 && b / 64 < 4
  {
    assert (a * 256 + b) / 64 == a * 4 + b / 64;
    assert (a * 256 + b) / 8 == a * 32 + b / 8;
  }

  function GetType(p: seq<nat>): MessageType
    requires |p| == 10
  {
    match GetI3(p)
    case 0 =>
      (match GetN3(p)
       case 0 => FreeTextType
       case 1 => DxpeditionType
       case 2 => EuVhfType
       case 3 => ArrlFdType
       case 4 => ArrlFdType
       case 5 => TelemetryType
       case _ => UnknownType)
    case 1 => StandardType
    case 2 => StandardType
    case 3 => ArrlRttyType
    case 4 => NonstdCallType
    case 5 => WwrofType
    case _ => UnknownType
  }

  /** A standard message goes to the decoder of standard messages. */
  lemma StandardGoesToStandard(to: string, de: string, extra: string)
    requires Sendable(to) && Sendable(de) && OneSuffixKind(to, de)
    ensures GetType(StdSent(to, de, extra)) == StandardType
  {
    hide GetI3, GetN3, StdPayload, Sendable, PackGrid;
    StdFieldsFit(to, de, extra);
    StdFieldsReturn(StdFieldsOf(to, de, extra));
  }

  /** A message with a nonstandard call goes to the decoder of those. */
  lemma NonstdGoesToNonstd(to: string, de: string, extra: string)
    requires Check(to, de) == OK
    ensures GetType(Payload(FieldsOf(to, de, extra))) == NonstdCallType
  {
    hide GetI3, GetN3, Payload, FieldsOf;
    FieldsReturn(FieldsOf(to, de, extra));
  }

  /** A free text goes to the decoder of free texts: its number leaves the type and subtype bits clear. */
  lemma FreeTextGoesToFreeText(p: seq<nat>, text: string)
    requires FreeText.FreeSent(p, text)
    ensures GetType(p) == FreeTextType
  {
    hide FreeText.Number, FreeText.Field, Or, Shl, Shr;
    assert p[..9][..8] == p[..8];
    assert Value(p[..9]) == Value(p[..8]) * 256 + p[8];
    assert p[8] % 2 == 0;
    SmallShifts(p[8]);
    SmallShifts(0);
    OrZero(0);
  }

  // ----- decoding any message -----

  ghost predicate StdShows(p: seq<nat>, m: Calls, m': Calls, ok: bool, text: string)
    requires |p| == 10
  {
    exists rc, to, de, extra :: StdDecoded(p, m, m', rc, to, de, extra) && StdText(rc, to, de, extra, ok, text)
  }

  predicate StdText(rc: Rc, to: string, de: string, extra: string, ok: bool, text: string) {
    ok == (rc == OK) && (ok ==> text == Joined(to, de, extra))
  }

  ghost predicate NonstdShows(p: seq<nat>, m: Calls, m': Calls, ok: bool, text: string)
    requires |p| == 10
  {
    && ok && m' == Heard(m, PlainCall(p))
    && exists shown :: NonstdDecoded(p, m, shown) && text == Joined(shown.to, shown.de, shown.extra)
  }

  /** The three fields of a message as one text. */
  function Joined(to: string, de: string, extra: string): string {
    to + " " + de + " " + extra
  }

  /** What decoding a payload may show, and what it leaves in the table of calls. */
  ghost predicate Shows(p: seq<nat>, m: Calls, m': Calls, ok: bool, text: string)
    requires |p| == 10
  {
    match GetType(p)
    case StandardType => StdShows(p, m, m', ok, text)
    case NonstdCallType => NonstdShows(p, m, m', ok, text)
    case FreeTextType => ok && m' == m && text == FreeText.FreeDecoded(p)
    case TelemetryType => ok && m' == m
    case _ => !ok && m' == m
  }

  method MessageDecode(payload: array<nat>, table: CallsignTables.CallsignTable) returns (ok: bool, text: string)
    requires payload.Length == 10 && table.Valid() && Bytes(payload[..])
    requires payload as object != table && payload as object != table.slots
    modifies table, table.slots
    ensures table.Valid() && Shows(payload[..], old(table.contents), table.contents, ok, text)
  {
    hide StdDecoded, NonstdDecoded, GetI3, GetN3, FreeText.FreeDecoded, PlainCall, Heard, CallsignTables.Holds;
    ghost var p := payload[..];
    ok, text := true, "";
    match GetType(payload[..])
    case StandardType =>
      var rc, to, de, extra := DecodeStd(payload, table);
      ok, text := rc == OK, Joined(to, de, extra);
      assert payload[..] == p;
      assert StdText(rc, to, de, extra, ok, text);
    case NonstdCallType =>
      var to, de, extra := DecodeNonstd(payload, table);
      text := Joined(to, de, extra);
      assert payload[..] == p;
      assert Message(to, de, extra).to == to;
    case FreeTextType =>
      text := FreeText.DecodeFree(payload);
    case TelemetryType =>
    case _ =>
      ok := false;
  }

  /** A sendable standard message is shown as its three fields, whatever the table holds. */
  lemma StandardShown(to: string, de: string, extra: string, m: Calls, m': Calls, ok: bool, text: string)
    requires Sendable(to) && Sendable(de) && OneSuffixKind(to, de) && SendableExtra(extra)
    requires Shows(StdSent(to, de, extra), m, m', ok, text)
    ensures ok && text == Joined(to, de, extra)
  {
    hide StdDecoded, Sendable, SendableExtra, OneSuffixKind, StdSent;
    StandardGoesToStandard(to, de, extra);
    var rc, textTo, textDe, textExtra :|
      StdDecoded(StdSent(to, de, extra), m, m', rc, textTo, textDe, textExtra)
      && StdText(rc, textTo, textDe, textExtra, ok, text);
    StandardReturns(to, de, extra, m, m', rc, textTo, textDe, textExtra);
  }

  /** What a message with the type bits of a standard message shows is up to its decoder. */
  lemma StdReached(p: seq<nat>, m: Calls, m': Calls, ok: bool, text: string)
    returns (rc: Rc, to: string, de: string, extra: string)
    requires |p| == 10 && 1 <= GetI3(p) <= 2 && Shows(p, m, m', ok, text)
    ensures StdDecoded(p, m, m', rc, to, de, extra) && StdText(rc, to, de, extra, ok, text)
  {
    hide GetI3, GetN3, StdDecoded, StdText;
    rc, to, de, extra :| StdDecoded(p, m, m', rc, to, de, extra) && StdText(rc, to, de, extra, ok, text);
  }

  /** A directed CQ is shown with its word, whatever the table holds. */
  lemma DirectedCqShown(w: string, de: string, extra: string, i3: nat, m: Calls, m': Calls, ok: bool, text: string)
    requires IsWord(w) && Sendable(de) && SuffixFits(de, i3) && 1 <= i3 <= 2 && SendableExtra(extra) && Keys22(m)
    requires Shows(DirectedSent(w, de, extra, i3), m, m', ok, text)
    ensures ok && text == "CQ " + w + " " + de + " " + extra
  {
    hide IsWord, DirectedCode, Sendable, SuffixFits, SendableExtra, StdDecoded, StdPayload, Keys22, Shows, GetI3,
         Pack28, CodesSent, Unpack28;
    DirectedReturns(w, 0, i3);
    SendableFits(de, i3);
    StdFieldsReturn(CodesSent(DirectedCode(w), 0, Pack28(de).0, Pack28(de).1, PackGrid(extra), i3));
    CodesSentIs(DirectedCode(w), 0, Pack28(de).0, Pack28(de).1, PackGrid(extra), i3);
    var rc, textTo, textDe, textExtra := StdReached(DirectedSent(w, de, extra, i3), m, m', ok, text);
    DirectedCqReturns(w, de, extra, i3, m, m', rc, textTo, textDe, textExtra);
  }

  /** What a message with the type bits of a nonstandard call shows is up to its decoder. */
  lemma NonstdReached(p: seq<nat>, m: Calls, m': Calls, ok: bool, text: string) returns (shown: Message)
    requires |p| == 10 && GetI3(p) == I3 && Shows(p, m, m', ok, text)
    ensures ok && m' == Heard(m, PlainCall(p)) && NonstdDecoded(p, m, shown)
    ensures text == Joined(shown.to, shown.de, shown.extra)
  {
    hide GetI3, GetN3, NonstdDecoded, PlainCall, Heard, Joined;
    shown :| NonstdDecoded(p, m, shown) && text == Joined(shown.to, shown.de, shown.extra);
  }

  /** A message between plain calls is shown with the addressee's call as the table answers its hash. */
  lemma NonstdShown(to: string, de: string, extra: string, m: Calls, m': Calls, ok: bool, text: string)
    requires (to == "CQ" || PlainText(to)) && PlainText(de)
    requires Shows(NonstdSent(to, de, extra), m, m', ok, text)
    ensures ok && m' == Heard(m, de)
    ensures to == "CQ" ==> text == Joined("CQ", de, "")
    ensures to != "CQ" ==>
              exists found ::
                && CallsignTables.Answers(m', CallsignTables.Bits12, PlainHash(to) / 0x400, found)
                && text == Joined(Bracketed(found), de, ExtraShown(extra))
    ensures PlainText(to) && PlainHash(to) in m' && m'[PlainHash(to)] == to && Unshared(m', PlainHash(to)) ==>
              text == Joined("<" + to + ">", de, ExtraShown(extra))
  {
    hide NonstdDecoded, PlainText, PlainHash, Heard, Payload, FieldsOf, CallsignTables.Answers, Bracketed, Joined,
         Unshared, ExtraShown, GetI3, Shows;
    PlainCallReturns(to, de, extra);
    FieldsReturn(FieldsOf(to, de, extra));
    var shown := NonstdReached(NonstdSent(to, de, extra), m, m', ok, text);
    TypeFourReturns(to, de, extra, m, shown);
    if PlainText(to) && PlainHash(to) in m' && m'[PlainHash(to)] == to && Unshared(m', PlainHash(to)) {
      StoredCallReturns(to, de, extra, m, shown);
    }
  }

  /** Any message with a spelled call, flipped or not, is shown in the order its flip bit asks for. */
  lemma SpelledMessageShown(call: string, n12: nat, iflip: nat, nrpt: nat, icq: nat, m: Calls, m': Calls, ok: bool,
                            text: string)
    requires CallText(call) && |call| <= MAX_CALL && n12 < 0x1000 && iflip < 2 && nrpt < 4 && icq < 2
    requires Shows(Payload(Spelled(call, n12, iflip, nrpt, icq)), m, m', ok, text)
    ensures ok && m' == Heard(m, call)
    ensures exists found, shown :: CallsignTables.Answers(m', CallsignTables.Bits12, n12, found)
              && ShownAs(shown, call, Bracketed(found), iflip, nrpt, icq)
              && text == Joined(shown.to, shown.de, shown.extra)
  {
    hide NonstdDecoded, Heard, Payload, Spelled, CallsignTables.Answers, Bracketed, Joined, ShownAs, CallText,
         PlainCall, GetI3, Shows;
    SpelledReturns(call, n12, iflip, nrpt, icq);
    var shown := NonstdReached(Payload(Spelled(call, n12, iflip, nrpt, icq)), m, m', ok, text);
    SpelledShown(call, n12, iflip, nrpt, icq, m, shown);
  }

  /** A flipped message from a station whose call is stored names that station second, in brackets. */
  lemma FlippedMessageShown(call: string, sender: string, nrpt: nat, m: Calls, m': Calls, ok: bool, text: string)
    requires CallText(call) && |call| <= MAX_CALL && PlainText(sender) && nrpt < 4
    requires Shows(Payload(Spelled(call, PlainHash(sender) / 0x400, 1, nrpt, 0)), m, m', ok, text)
    requires PlainHash(sender) in m' && m'[PlainHash(sender)] == sender && Unshared(m', PlainHash(sender))
    ensures ok && text == Joined(call, "<" + sender + ">", ["", "RRR", "RR73", "73"][nrpt])
  {
    hide NonstdDecoded, Heard, Payload, Spelled, Joined, CallText, PlainText, PlainHash, PlainCall, GetI3, Unshared,
         Shows;
    var n12 := PlainHash(sender) / 0x400;
    SpelledReturns(call, n12, 1, nrpt, 0);
    var shown := NonstdReached(Payload(Spelled(call, n12, 1, nrpt, 0)), m, m', ok, text);
    KnownCallShown(call, sender, 1, nrpt, 0, m, shown);
  }

  /** A free text is shown as it arrives. */
  lemma FreeTextShown(p: seq<nat>, text: string, m: Calls, m': Calls, ok: bool, shown: string)
    requires FreeText.FreeSent(p, text) && Shows(p, m, m', ok, shown)
    ensures ok && shown == FreeText.Arrives(text)
  {
    hide FreeText.FreeSent, FreeText.Arrives, FreeText.FreeDecoded;
    FreeTextGoesToFreeText(p, text);
    FreeText.FreeTextReturns(text);
  }
}
