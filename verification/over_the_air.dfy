/** Message texts through the whole channel: packed, coded into tones, received cleanly, decoded and unpacked. */
module OverTheAir {
  import opened Constants
  import opened Bits
  import opened Crc
  import opened BeliefPropagation
  import opened Encoder
  import opened Waterfalls
  import opened Decoder
  import opened Reception
  import W = Words
  import TypeFour
  import StandardMessages
  import opened MessageTypes
  import FreeText
  import Callsigns
  import CallsignTables

  function Pick(set1: bool, mask: Byte): Byte {
    if set1 then mask else 0
  }

  /** Bit k of a number, the lowest being bit 0. */
  predicate Bit(n: nat, k: nat) {
    if k == 0 then n % 2 == 1 else Bit(n / 2, k - 1)
  }

  /** The byte whose bits spell a number below 256. */
  function ByteOf(n: nat): Byte {
    Pick(Bit(n, 7), 0x80) | Pick(Bit(n, 6), 0x40) | Pick(Bit(n, 5), 0x20) | Pick(Bit(n, 4), 0x10)
    | Pick(Bit(n, 3), 0x08) | Pick(Bit(n, 2), 0x04) | Pick(Bit(n, 1), 0x02) | Pick(Bit(n, 0), 0x01)
  }

  function Weight(set1: bool, weight: nat): nat {
    if set1 then weight else 0
  }

  /** The number a byte's bits spell. */
  function NatOf(b: Byte): nat {
    Weight(Tests(b, 0x80), 128) + Weight(Tests(b, 0x40), 64) + Weight(Tests(b, 0x20), 32) + Weight(Tests(b, 0x10), 16)
    + Weight(Tests(b, 0x08), 8) + Weight(Tests(b, 0x04), 4) + Weight(Tests(b, 0x02), 2) + Weight(Tests(b, 0x01), 1)
  }

  function ToBytes(p: seq<nat>): (b: seq<Byte>)
    ensures |b| == |p|
  {
    seq(|p|, i requires 0 <= i < |p| => ByteOf(p[i]))
  }

  function ToNats(b: seq<Byte>): (p: seq<nat>)
    ensures |p| == |b|
  {
    seq(|b|, i requires 0 <= i < |b| => NatOf(b[i]))
  }

  lemma BitsTogether(b7: bool, b6: bool, b5: bool, b4: bool, b3: bool, b2: bool, b1: bool, b0: bool)
    ensures var b := Pick(b7, 0x80) | Pick(b6, 0x40) | Pick(b5, 0x20) | Pick(b4, 0x10)
                     | Pick(b3, 0x08) | Pick(b2, 0x04) | Pick(b1, 0x02) | Pick(b0, 0x01);
            && (Tests(b, 0x80) <==> b7) && (Tests(b, 0x40) <==> b6) && (Tests(b, 0x20) <==> b5)
            && (Tests(b, 0x10) <==> b4)
            && (Tests(b, 0x08) <==> b3) && (Tests(b, 0x04) <==> b2) && (Tests(b, 0x02) <==> b1)
            && (Tests(b, 0x01) <==> b0)
  {
  }

  lemma ByteBitsAre(n: nat)
    ensures var b := ByteOf(n);
            && (Tests(b, 0x80) <==> Bit(n, 7)) && (Tests(b, 0x40) <==> Bit(n, 6))
            && (Tests(b, 0x20) <==> Bit(n, 5)) && (Tests(b, 0x10) <==> Bit(n, 4))
            && (Tests(b, 0x08) <==> Bit(n, 3)) && (Tests(b, 0x04) <==> Bit(n, 2))
            && (Tests(b, 0x02) <==> Bit(n, 1)) && (Tests(b, 0x01) <==> Bit(n, 0))
  {
    hide Bit, Tests;
    BitsTogether(Bit(n, 7), Bit(n, 6), Bit(n, 5), Bit(n, 4), Bit(n, 3), Bit(n, 2), Bit(n, 1), Bit(n, 0));
  }

  /** A number and its half differ by the lowest bit. */
  lemma Halves(n: nat, k: nat)
    ensures n == 2 * (n / 2) + Weight(Bit(n, 0), 1) && Bit(n, k + 1) == Bit(n / 2, k)
  {
  }

  /** The number the bits below count spell. */
  function Spelled(n: nat, count: nat): nat {
    if count == 0 then 0 else 2 * Spelled(n / 2, count - 1) + Weight(Bit(n, 0), 1)
  }

  lemma {:induction false} SpelledIs(n: nat, count: nat)
    requires n < W.Pow2(count)
    ensures Spelled(n, count) == n
  {
    if count > 0 {
      SpelledIs(n / 2, count - 1);
      Halves(n, 0);
    }
  }

  /** The bits of a number spell it, weight by weight. */
  lemma {:induction false} SpelledShifts(n: nat, count: nat)
    ensures Spelled(n, count + 1) == Spelled(n, count) + Weight(Bit(n, count), W.Pow2(count))
  {
    hide Bit;
    if count == 0 {
      assert Spelled(n, 1) == 2 * Spelled(n / 2, 0) + Weight(Bit(n, 0), 1);
    } else {
      SpelledShifts(n / 2, count - 1);
      Halves(n, count - 1);
    }
  }

  function NatOfBits(b7: bool, b6: bool, b5: bool, b4: bool, b3: bool, b2: bool, b1: bool, b0: bool): nat {
    Weight(b7, 128) + Weight(b6, 64) + Weight(b5, 32) + Weight(b4, 16)
    + Weight(b3, 8) + Weight(b2, 4) + Weight(b1, 2) + Weight(b0, 1)
  }

  lemma ByteReturns(n: nat)
    requires n < 256
    ensures NatOf(ByteOf(n)) == n
  {
    hide ByteOf, Bit, Tests, NatOf, NatOfBits;
    ByteBitsAre(n);
    NatOfIs(ByteOf(n), Bit(n, 7), Bit(n, 6), Bit(n, 5), Bit(n, 4), Bit(n, 3), Bit(n, 2), Bit(n, 1), Bit(n, 0));
    BitsSpell(n);
  }

  lemma NatOfIs(b: Byte, b7: bool, b6: bool, b5: bool, b4: bool, b3: bool, b2: bool, b1: bool, b0: bool)
    requires (Tests(b, 0x80) <==> b7) && (Tests(b, 0x40) <==> b6) && (Tests(b, 0x20) <==> b5)
    requires (Tests(b, 0x10) <==> b4) && (Tests(b, 0x08) <==> b3) && (Tests(b, 0x04) <==> b2)
    requires (Tests(b, 0x02) <==> b1) && (Tests(b, 0x01) <==> b0)
    ensures NatOf(b) == NatOfBits(b7, b6, b5, b4, b3, b2, b1, b0)
  {
    hide Tests, Weight;
  }

  lemma BitsSpell(n: nat)
    requires n < 256
    ensures n == NatOfBits(Bit(n, 7), Bit(n, 6), Bit(n, 5), Bit(n, 4), Bit(n, 3), Bit(n, 2), Bit(n, 1), Bit(n, 0))
  {
    hide Bit, Spelled, Weight, W.Pow2;
    W.Pow2Table();
    SpelledIs(n, 8);
    SpelledShifts(n, 0);
    SpelledShifts(n, 1);
    SpelledShifts(n, 2);
    SpelledShifts(n, 3);
    SpelledShifts(n, 4);
    SpelledShifts(n, 5);
    SpelledShifts(n, 6);
    SpelledShifts(n, 7);
    SpelledNothing(n);
  }

  lemma SpelledNothing(n: nat)
    ensures Spelled(n, 0) == 0
  {
  }

  lemma NatsReturn(p: seq<nat>)
    requires W.Bytes(p)
    ensures ToNats(ToBytes(p)) == p
  {
    forall i | 0 <= i < |p|
      ensures ToNats(ToBytes(p))[i] == p[i]
    {
      ByteReturns(p[i]);
    }
  }

  /** The three spare bits of the last byte, whose type and upper bits are h. */
  lemma SpareBits(n: nat)
    requires n % 8 == 0
    ensures ByteOf(n) & 0x04 == 0 && ByteOf(n) & 0x02 == 0 && ByteOf(n) & 0x01 == 0
  {
    hide ByteOf;
    ByteBitsAre(n);
    EighthsClear(n / 8, n / 4, n / 2, n);
  }

  lemma EighthsClear(e: nat, q: nat, h: nat, n: nat)
    requires n == 8 * e && q == n / 4 && h == n / 2
    ensures !Bit(n, 0) && !Bit(n, 1) && !Bit(n, 2)
  {
    assert h == 4 * e && q == 2 * e && h / 2 == q;
    Halves(n, 0);
    Halves(n, 1);
    Halves(h, 0);
  }

  /** The type bits of the last byte, as sent under either protocol, are not all clear. */
  lemma TypeBits(n: nat, b: Byte)
    requires b == ByteOf(n)
    ensures n / 8 % 8 != 0 ==> b & 0x38 != 0
    ensures n / 8 % 8 != 5 ==> (b ^ 0x28) & 0x38 != 0
  {
    hide ByteOf, Bit;
    ByteBitsAre(n);
    TypeDigits(n, n / 2, n / 2 / 2, n / 2 / 2 / 2);
    Type5(b);
  }

  lemma TypeDigits(n: nat, h: nat, q: nat, e: nat)
    requires h == n / 2 && q == h / 2 && e == q / 2
    ensures n / 8 == e
    ensures e % 8 == Weight(Bit(n, 5), 4) + Weight(Bit(n, 4), 2) + Weight(Bit(n, 3), 1)
  {
    ThreeBits(e, e / 2, e / 2 / 2);
    assert Bit(n, 3) == Bit(h, 2) == Bit(q, 1) == Bit(e, 0);
    assert Bit(n, 4) == Bit(h, 3) == Bit(q, 2) == Bit(e, 1);
    assert Bit(n, 5) == Bit(h, 4) == Bit(q, 3) == Bit(e, 2);
  }

  lemma ThreeBits(e: nat, f: nat, g: nat)
    requires f == e / 2 && g == f / 2
    ensures e % 8 == Weight(Bit(e, 2), 4) + Weight(Bit(e, 1), 2) + Weight(Bit(e, 0), 1)
  {
    assert Bit(e, 1) == Bit(f, 0) && Bit(e, 2) == Bit(f, 1) == Bit(g, 0);
    Halves(e, 0);
    Halves(f, 0);
    Halves(g, 0);
    hide Bit;
    Eighth(e, g / 2, Weight(Bit(g, 0), 4) + Weight(Bit(f, 0), 2) + Weight(Bit(e, 0), 1));
  }

  lemma Eighth(e: nat, q: nat, r: nat)
    requires e == 8 * q + r && r < 8
    ensures e % 8 == r
  {
  }

  lemma Type5(b: Byte)
    ensures b & 0x38 == 0 ==> b & 0x20 == 0 && b & 0x10 == 0 && b & 0x08 == 0
    ensures (b ^ 0x28) & 0x38 == 0 ==> b & 0x20 != 0 && b & 0x10 == 0 && b & 0x08 != 0
  {
  }

  lemma SomeTypeBit(b: Byte)
    requires b & 0x38 != 0
    ensures b & 0x20 != 0 || b & 0x10 != 0 || b & 0x08 != 0
  {
  }

  /** A payload of ten bytes whose last has clear spare bits. */
  predicate TenBytes(p: seq<nat>) {
    |p| == 10 && W.Bytes(p) && p[9] % 8 == 0
  }

  lemma TenBytesArePayload(p: seq<nat>)
    requires TenBytes(p)
    ensures IsPayload(ToBytes(p))
  {
    hide BitsOf;
    var b := ToBytes(p);
    SpareBits(p[9]);
    forall i | 77 <= i < 80
      ensures !BitsOf(b)[i]
    {
      BitsOfAt(b, i);
    }
  }

  /** A message whose type is not zero under FT8, and not five under FT4, is not sent as all zeros. */
  lemma TypedIsNonzero(protocol: Protocol, p: seq<nat>)
    requires TenBytes(p) && p[9] / 8 % 8 != if protocol == FT4 then 5 else 0
    ensures !AllFalse(BitsOf(OnAir(protocol, ToBytes(p)))[..77])
  {
    hide BitsOf;
    var b := OnAir(protocol, ToBytes(p));
    TypeBits(p[9], ToBytes(p)[9]);
    SomeTypeBit(b[9]);
    BitsOfAt(b, 74);
    BitsOfAt(b, 75);
    BitsOfAt(b, 76);
    var i := if b[9] & 0x20 != 0 then 74 else if b[9] & 0x10 != 0 then 75 else 76;
    assert BitsOf(b)[..77][i];
  }

  /** The receiver sees each transmitted tone of the payload as the loudest of its bins. */
  predicate CleanlyReceived(wf: Waterfall, c: Candidate, sent: seq<Byte>)
    requires wf.Valid() && c.Fits(wf) && |sent| == 10
  {
    Clean(wf, c, Tones(wf.protocol, Sent(BitsOf(OnAir(wf.protocol, sent))[..77])))
  }

  /** What decoding a candidate guarantees about an accepted payload. */
  ghost predicate Delivered(f: Tanh, norm: real -> real, wf: Waterfall, c: Candidate, maxIters: nat,
                            received: seq<Byte>)
    requires wf.Valid() && c.Fits(wf) && |received| == 10 && maxIters > 0
  {
    var outcome := Outcomes(f, norm, wf, c, maxIters);
    outcome.Accepted? && BitsOf(OnAir(wf.protocol, received)) == outcome.payload + Zeros(3)
  }

  /** Cleanly received bytes that are not sent as all zeros are accepted, and come out as they went in. */
  lemma EndToEnd(f: Tanh, norm: real -> real, wf: Waterfall, c: Candidate, maxIters: nat, sent: seq<Byte>,
                 received: seq<Byte>)
    requires wf.Valid() && c.Fits(wf) && maxIters > 0 && PositiveAbove(norm, 0.0)
    requires |sent| == |received| == 10 && IsPayload(sent) && CleanlyReceived(wf, c, sent)
    requires !AllFalse(BitsOf(OnAir(wf.protocol, sent))[..77])
    ensures Outcomes(f, norm, wf, c, maxIters).Accepted?
    ensures Delivered(f, norm, wf, c, maxIters, received) ==> received == sent
  {
    hide BitsOf, Clean, Tones, Sent, Outcomes, AllFalse, OnAir, PositiveAbove, IsPayload;
    CleanReceptionAccepts(f, norm, wf, c, maxIters, BitsOf(OnAir(wf.protocol, sent))[..77]);
    if Delivered(f, norm, wf, c, maxIters, received) {
      DeliveredIsSent(wf.protocol, sent, received);
    }
  }

  lemma StdType(to: string, de: string, extra: string)
    requires StandardMessages.StdCheck(to, de) == TypeFour.OK
    ensures StandardMessages.StdFieldsOf(to, de, extra).i3 == StandardMessages.StdI3(to, de)
  {
  }

  lemma StdLastByte(f: StandardMessages.StdFields)
    requires f.i3 < 8 && f.grid < StandardMessages.WORD16
    ensures var p := StandardMessages.StdPayload(f);
            p[9] % 8 == 0 && p[9] / 8 % 8 == f.i3 && p[9] < 256
  {
    hide W.Or, W.Shl, W.Shr, W.Pow2;
    W.Pow2Table();
    W.SmallShifts(f.i3);
    StandardMessages.JoinedByte(f.grid, 8 * f.i3, 6);
  }

  lemma NonzeroByte(b: Byte)
    requires b != 0
    ensures exists k :: 0 <= k < 8 && Tests(b, Mask(k))
  {
    assert b & 0x80 != 0 || b & 0x40 != 0 || b & 0x20 != 0 || b & 0x10 != 0
        || b & 0x08 != 0 || b & 0x04 != 0 || b & 0x02 != 0 || b & 0x01 != 0;
    assert Tests(b, Mask(0)) == (b & 0x80 != 0) && Tests(b, Mask(1)) == (b & 0x40 != 0);
    assert Tests(b, Mask(2)) == (b & 0x20 != 0) && Tests(b, Mask(3)) == (b & 0x10 != 0);
    assert Tests(b, Mask(4)) == (b & 0x08 != 0) && Tests(b, Mask(5)) == (b & 0x04 != 0);
    assert Tests(b, Mask(6)) == (b & 0x02 != 0) && Tests(b, Mask(7)) == (b & 0x01 != 0);
  }

  lemma ZeroByte()
    ensures NatOf(0) == 0
  {
  }

  lemma NonzeroIsNonzero(p: seq<nat>)
    requires TenBytes(p) && W.Value(p[..9]) != 0
    ensures !AllFalse(BitsOf(ToBytes(p))[..77])
  {
    hide BitsOf, Tests, Mask, ByteOf, W.Value;
    if forall i :: 0 <= i < 9 ==> p[i] == 0 {
      FreeText.ZeroValue(p[..9]);
    }
    var i :| 0 <= i < 9 && p[i] != 0;
    var b := ToBytes(p);
    ByteReturns(p[i]);
    ZeroByte();
    NonzeroByte(b[i]);
    var k :| 0 <= k < 8 && Tests(b[i], Mask(k));
    BitsOfAt(b, 8 * i + k);
    assert (8 * i + k) / 8 == i && (8 * i + k) % 8 == k;
    assert BitsOf(b)[..77][8 * i + k];
  }

  lemma OnAirFt8(b: seq<Byte>)
    requires |b| == 10
    ensures OnAir(FT8, b) == b
  {
  }

  // ----- the three kinds of messages -----

  /** A standard message is accepted, comes out byte for byte, and is shown as the three texts that were encoded,
      whatever calls the receiver knows. */
  lemma StandardOverTheAir(f: Tanh, norm: real -> real, wf: Waterfall, c: Candidate, maxIters: nat, received: seq<Byte>,
                           to: string, de: string, extra: string, m: Callsigns.Calls, m': Callsigns.Calls, ok: bool,
                           text: string)
    requires wf.Valid() && c.Fits(wf) && maxIters > 0 && PositiveAbove(norm, 0.0) && |received| == 10
    requires StandardMessages.Sendable(to) && StandardMessages.Sendable(de)
    requires StandardMessages.OneSuffixKind(to, de) && StandardMessages.SendableExtra(extra)
    requires CleanlyReceived(wf, c, ToBytes(StandardMessages.StdSent(to, de, extra)))
    ensures Outcomes(f, norm, wf, c, maxIters).Accepted?
    ensures Delivered(f, norm, wf, c, maxIters, received) ==>
              ToNats(received) == StandardMessages.StdSent(to, de, extra)
    ensures Delivered(f, norm, wf, c, maxIters, received) && Shows(ToNats(received), m, m', ok, text) ==>
              ok && text == Joined(to, de, extra)
  {
    hide BitsOf, Clean, Tones, Sent, Outcomes, AllFalse, OnAir, PositiveAbove, CleanlyReceived, Delivered,
         StandardMessages.Sendable, StandardMessages.SendableExtra, StandardMessages.StdFieldsOf, W.Or, W.Shl, W.Shr,
         StandardMessages.Gather29a, StandardMessages.Gather29b, StandardMessages.GatherGrid, StandardMessages.GatherIr,
         Shows, Joined;
    StandardMessages.StdFieldsFit(to, de, extra);
    var fields := StandardMessages.StdFieldsOf(to, de, extra);
    var p := StandardMessages.StdPayload(fields);
    StandardMessages.StdFieldsReturn(fields);
    StdLastByte(fields);
    assert fields.i3 == 1 || fields.i3 == 2 by { StdType(to, de, extra); }
    TenBytesArePayload(p);
    TypedIsNonzero(wf.protocol, p);
    EndToEnd(f, norm, wf, c, maxIters, ToBytes(p), received);
    NatsReturn(p);
    if Delivered(f, norm, wf, c, maxIters, received) && Shows(ToNats(received), m, m', ok, text) {
      StandardShown(to, de, extra, m, m', ok, text);
    }
  }

  /** Every message with a nonstandard call that can be sent is accepted and comes out byte for byte. */
  lemma NonstdOverTheAir(f: Tanh, norm: real -> real, wf: Waterfall, c: Candidate, maxIters: nat, received: seq<Byte>,
                         to: string, de: string, extra: string)
    requires wf.Valid() && c.Fits(wf) && maxIters > 0 && PositiveAbove(norm, 0.0) && |received| == 10
    requires TypeFour.Check(to, de) == TypeFour.OK
    requires CleanlyReceived(wf, c, ToBytes(TypeFour.Payload(TypeFour.FieldsOf(to, de, extra))))
    ensures Outcomes(f, norm, wf, c, maxIters).Accepted?
    ensures Delivered(f, norm, wf, c, maxIters, received) ==>
              ToNats(received) == TypeFour.Payload(TypeFour.FieldsOf(to, de, extra))
  {
    hide BitsOf, Clean, Tones, Sent, Outcomes, AllFalse, OnAir, PositiveAbove, CleanlyReceived, Delivered,
         TypeFour.FieldsOf, TypeFour.Check, W.Or, W.Shl, W.Shr, W.Pow2;
    var fields := TypeFour.FieldsOf(to, de, extra);
    var p := TypeFour.Payload(fields);
    TypeFour.FieldsReturn(fields);
    TypeFour.TailBytes(fields.n58, fields.iflip, fields.nrpt, fields.icq);
    TenBytesArePayload(p);
    TypedIsNonzero(wf.protocol, p);
    EndToEnd(f, norm, wf, c, maxIters, ToBytes(p), received);
    NatsReturn(p);
  }

  /** Between plain calls the receiver then shows the sender's call and the report exactly, and the addressee's call
      in brackets when it knows it and no other call it knows shares the hash. */
  lemma TypeFourOverTheAir(f: Tanh, norm: real -> real, wf: Waterfall, c: Candidate, maxIters: nat, received: seq<Byte>,
                           to: string, de: string, extra: string, m: Callsigns.Calls, m': Callsigns.Calls, ok: bool,
                           text: string)
    requires wf.Valid() && c.Fits(wf) && maxIters > 0 && PositiveAbove(norm, 0.0) && |received| == 10
    requires (to == "CQ" || TypeFour.PlainText(to)) && TypeFour.PlainText(de)
    requires CleanlyReceived(wf, c, ToBytes(TypeFour.NonstdSent(to, de, extra)))
    ensures Outcomes(f, norm, wf, c, maxIters).Accepted?
    ensures Delivered(f, norm, wf, c, maxIters, received) && Shows(ToNats(received), m, m', ok, text) ==>
              && ok && m' == Callsigns.Heard(m, de)
              && (to == "CQ" ==> text == Joined("CQ", de, ""))
              && (to != "CQ" ==>
                    exists found ::
                      && CallsignTables.Answers(m', CallsignTables.Bits12, TypeFour.PlainHash(to) / 0x400, found)
                      && text == Joined(Callsigns.Bracketed(found), de, TypeFour.ExtraShown(extra)))
              && (TypeFour.PlainText(to) && TypeFour.PlainHash(to) in m' && m'[TypeFour.PlainHash(to)] == to
                  && TypeFour.Unshared(m', TypeFour.PlainHash(to)) ==>
                    text == Joined("<" + to + ">", de, TypeFour.ExtraShown(extra)))
  {
    hide BitsOf, Clean, Tones, Sent, Outcomes, AllFalse, OnAir, PositiveAbove, CleanlyReceived, Delivered, ToNats,
         ToBytes, TypeFour.FieldsOf, TypeFour.Check, TypeFour.Payload, TypeFour.PlainText, TypeFour.PlainHash,
         TypeFour.PlainCall, TypeFour.Extract, Callsigns.Heard, Callsigns.Bracketed, CallsignTables.Answers, Shows,
         Joined, TypeFour.Unshared;
    TypeFour.PlainCallReturns(to, de, extra);
    NonstdOverTheAir(f, norm, wf, c, maxIters, received, to, de, extra);
    if Delivered(f, norm, wf, c, maxIters, received) && Shows(ToNats(received), m, m', ok, text) {
      NonstdShown(to, de, extra, m, m', ok, text);
    }
  }

  /** A free text is accepted and shown as it arrives, under FT8 exactly when it has a character that is neither a
      space nor unknown: otherwise its payload is all zeros, and it is rejected. */
  lemma FreeTextOverTheAir(f: Tanh, norm: real -> real, wf: Waterfall, c: Candidate, maxIters: nat, received: seq<Byte>,
                           text: string, p: seq<nat>, m: Callsigns.Calls, m': Callsigns.Calls, ok: bool, shown: string)
    requires wf.Valid() && c.Fits(wf) && maxIters > 0 && PositiveAbove(norm, 0.0) && |received| == 10
    requires FreeText.FreeSent(p, text) && CleanlyReceived(wf, c, ToBytes(p))
    ensures wf.protocol == FT4 || FreeText.Number(FreeText.Field(text)) != 0 ==>
              Outcomes(f, norm, wf, c, maxIters).Accepted?
    ensures wf.protocol == FT8 && FreeText.Number(FreeText.Field(text)) == 0 && norm(0.0) > 0.0 ==>
              Outcomes(f, norm, wf, c, maxIters) == Rejected
    ensures (wf.protocol == FT4 || FreeText.Number(FreeText.Field(text)) != 0)
            && Delivered(f, norm, wf, c, maxIters, received) ==>
              && ToNats(received) == p
              && (Shows(ToNats(received), m, m', ok, shown) ==> ok && shown == FreeText.Arrives(text))
  {
    hide BitsOf, Clean, Tones, Sent, Outcomes, AllFalse, OnAir, PositiveAbove, CleanlyReceived, Delivered,
         FreeText.Number, FreeText.Field, FreeText.Arrives, W.Value, Shows;
    TenBytesArePayload(p);
    if wf.protocol == FT4 || FreeText.Number(FreeText.Field(text)) != 0 {
      if wf.protocol == FT4 {
        TypedIsNonzero(wf.protocol, p);
      } else {
        NonzeroIsNonzero(p);
        OnAirFt8(ToBytes(p));
      }
      EndToEnd(f, norm, wf, c, maxIters, ToBytes(p), received);
      NatsReturn(p);
      if Delivered(f, norm, wf, c, maxIters, received) && Shows(ToNats(received), m, m', ok, shown) {
        FreeTextShown(p, text, m, m', ok, shown);
      }
    } else if norm(0.0) > 0.0 {
      ZeroPayload(p);
      OnAirFt8(ToBytes(p));
      CleanIs(wf, c, ToBytes(p));
      ZeroPayloadRejected(f, norm, wf, c, maxIters, BitsOf(ToBytes(p))[..77]);
    }
  }

  lemma CleanIs(wf: Waterfall, c: Candidate, sent: seq<Byte>)
    requires wf.Valid() && c.Fits(wf) && |sent| == 10 && CleanlyReceived(wf, c, sent)
    ensures Clean(wf, c, Tones(wf.protocol, Sent(BitsOf(OnAir(wf.protocol, sent))[..77])))
  {
  }

  /** Ten bytes that spell zero are sent as zeros. */
  lemma ZeroPayload(p: seq<nat>)
    requires |p| == 10 && W.Bytes(p) && W.Value(p[..9]) == 0 && p[9] == 0
    ensures AllFalse(BitsOf(ToBytes(p))[..77])
  {
    hide BitsOf, ByteOf, W.Value;
    ZeroSpelled(p[..9]);
    assert forall i :: 0 <= i < 10 ==> p[i] == 0 by {
      forall i | 0 <= i < 9
        ensures p[i] == 0
      {
        assert p[..9][i] == p[i];
      }
    }
    ZeroIsZero();
    BitsOfZeroBytes(ToBytes(p));
  }

  lemma {:induction false} ZeroSpelled(s: seq<nat>)
    requires W.Value(s) == 0
    ensures forall i :: 0 <= i < |s| ==> s[i] == 0
  {
    if s != [] {
      var n := |s| - 1;
      assert W.Value(s) == W.Value(s[..n]) * 256 + s[n];
      ZeroSpelled(s[..n]);
      forall i | 0 <= i < |s|
        ensures s[i] == 0
      {
        assert i < n ==> s[..n][i] == s[i];
      }
    }
  }

  lemma ZeroIsZero()
    ensures ByteOf(0) == 0
  {
  }

  // ----- the receiver -----

  /** Decodes a candidate and then the message: what is accepted is delivered, and shown as its type asks for. */
  method Receive(f: Tanh, norm: real -> real, wf: Waterfall, c: Candidate, maxIters: nat,
                 table: CallsignTables.CallsignTable)
    returns (accepted: bool, received: seq<Byte>, ok: bool, text: string)
    requires wf.Valid() && c.Fits(wf) && maxIters > 0 && table.Valid()
    modifies table, table.slots
    ensures table.Valid() && |received| == 10
    ensures accepted <==> Outcomes(f, norm, wf, c, maxIters).Accepted?
    ensures !accepted ==> table.contents == old(table.contents)
    ensures accepted ==> Delivered(f, norm, wf, c, maxIters, received)
    ensures accepted ==> Shows(ToNats(received), old(table.contents), table.contents, ok, text)
  {
    hide Outcomes, BitsOf, OnAir, Shows, CallsignTables.Holds, NatOf;
    var message := new Byte[10];
    var errors;
    ok, text := false, "";
    accepted, errors := DecodeCandidate(f, norm, wf, c, maxIters, message);
    received := message[..];
    if accepted {
      var payload := new nat[10];
      var i := 0;
      while i < 10
        invariant 0 <= i <= 10 && message[..] == received
        modifies payload
        invariant forall k :: 0 <= k < i ==> payload[k] == NatOf(received[k])
      {
        payload[i] := NatOf(message[i]);
        i := i + 1;
      }
      assert payload[..] == ToNats(received);
      NatsAreBytes(received);
      ok, text := MessageDecode(payload, table);
    }
  }

  lemma NatsAreBytes(b: seq<Byte>)
    ensures W.Bytes(ToNats(b))
  {
    forall i | 0 <= i < |b|
      ensures ToNats(b)[i] < 256
    {
      NatBound(b[i]);
    }
  }

  lemma NatBound(b: Byte)
    ensures NatOf(b) < 256
  {
    hide Tests;
  }
}
