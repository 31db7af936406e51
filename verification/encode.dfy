/** From a payload to the tones of a transmission, FT8 and FT4. */
module Encoder {
  import opened Bits
  import opened Constants
  import opened Crc
  import opened LdpcCode

  // ----- what is transmitted -----

  /** The codeword sent for a 77-bit payload. */
  function Sent(payload: seq<bool>): (code: seq<bool>)
    requires |payload| == 77
    ensures |code| == N
  {
    Codeword(WithCrc(payload))
  }

  function Value2(a: bool, b: bool): (v: nat)
    ensures v < 4
  {
    (if a then 2 else 0) + if b then 1 else 0
  }

  function Value3(a: bool, b: bool, c: bool): (v: nat)
    ensures v < 8
  {
    (if a then 4 else 0) + (if b then 2 else 0) + if c then 1 else 0
  }

  /** Place of data symbol k among the 79 symbols S7 D29 S7 D29 S7. */
  function DataSymbol8(k: nat): nat {
    k + if k < 29 then 7 else 14
  }

  /** Place of data symbol k among the 105 symbols R S4 D29 S4 D29 S4 D29 S4 R. */
  function DataSymbol4(k: nat): nat {
    k + if k < 29 then 5 else if k < 58 then 9 else 13
  }

  /** Tone of data symbol k: three codeword bits through the Gray map. */
  function DataTone8(code: seq<bool>, k: nat): nat
    requires |code| == N && k < FT8_ND
  {
    Gray8(Value3(code[3 * k], code[3 * k + 1], code[3 * k + 2]))
  }

  function DataTone4(code: seq<bool>, k: nat): nat
    requires |code| == N && k < FT4_ND
  {
    Gray4(Value2(code[2 * k], code[2 * k + 1]))
  }

  function Ft8Tone(code: seq<bool>, i: nat): nat
    requires |code| == N && i < FT8_NN
  {
    if i < 7 then Costas8(i)
    else if 36 <= i < 43 then Costas8(i - 36)
    else if 72 <= i then Costas8(i - 72)
    else DataTone8(code, if i < 36 then i - 7 else i - 14)
  }

  /** The whole FT8 transmission. */
  function Ft8Tones(code: seq<bool>): (tones: seq<nat>)
    requires |code| == N
    ensures |tones| == FT8_NN
  {
    seq(FT8_NN, i requires 0 <= i < FT8_NN => Ft8Tone(code, i))
  }

  function Ft4Tone(code: seq<bool>, i: nat): nat
    requires |code| == N && i < FT4_NN
  {
    if i == 0 || i == 104 then 0
    else if i < 5 then Costas4(0, i - 1)
    else if 34 <= i < 38 then Costas4(1, i - 34)
    else if 67 <= i < 71 then Costas4(2, i - 67)
    else if 100 <= i then Costas4(3, i - 100)
    else DataTone4(code, if i < 34 then i - 5 else if i < 67 then i - 9 else i - 13)
  }

  /** The whole FT4 transmission. */
  function Ft4Tones(code: seq<bool>): (tones: seq<nat>)
    requires |code| == N
    ensures |tones| == FT4_NN
  {
    seq(FT4_NN, i requires 0 <= i < FT4_NN => Ft4Tone(code, i))
  }

  /** Data symbol k of a transmission carries the k-th group of codeword bits, and the other places are
      the synchronisation pattern. */
  lemma TransmissionLayout(code: seq<bool>)
    requires |code| == N
    ensures forall k {:trigger DataTone8(code, k)} :: 0 <= k < FT8_ND ==>
              Ft8Tones(code)[DataSymbol8(k)] == DataTone8(code, k)
    ensures forall k {:trigger DataTone4(code, k)} :: 0 <= k < FT4_ND ==>
              Ft4Tones(code)[DataSymbol4(k)] == DataTone4(code, k)
    ensures forall s, k {:trigger Ft8Tones(code)[36 * s + k]} :: 0 <= s < 3 && 0 <= k < 7 ==>
              Ft8Tones(code)[36 * s + k] == Costas8(k)
    ensures forall s, k {:trigger Costas4(s, k)} :: 0 <= s < 4 && 0 <= k < 4 ==>
              Ft4Tones(code)[1 + 33 * s + k] == Costas4(s, k)
    ensures Ft4Tones(code)[0] == Ft4Tones(code)[104] == 0
  {
    hide DataTone8, DataTone4, Costas8, Costas4;
  }

  // ----- reading the codeword bit by bit -----

  /** Tests the bit under the mask and moves the mask on, to the next byte after the last bit. */
  method NextBit(codeword: array<Byte>, iByte: nat, mask: Byte, ghost p: nat)
    returns (bit: bool, iByte': nat, mask': Byte)
    requires p < 8 * codeword.Length && iByte == p / 8 && mask == Mask(p % 8)
    ensures bit == BitsOf(codeword[..])[p]
    ensures iByte' == (p + 1) / 8 && mask' == Mask((p + 1) % 8)
  {
    hide BitsOf, Mask, Tests, ShiftMask;
    BitsOfAt(codeword[..], p);
    MaskStep(p % 8);
    bit := Tests(codeword[iByte], mask);
    iByte', mask' := iByte, ShiftMask(mask);
    if mask' == 0 {
      mask' := Mask(0);
      iByte' := iByte + 1;
    }
  }

  /** The codeword of a payload, from bytes to bytes. */
  method EncodePayload(payload: array<Byte>) returns (codeword: array<Byte>)
    requires payload.Length == 10
    ensures fresh(codeword) && codeword.Length == 22
    ensures BitsOf(codeword[..])[..N] == Sent(BitsOf(payload[..])[..77])
  {
    hide BitsOf, Codeword, WithCrc, AllFalse;
    var a91 := new Byte[12];
    AddCrc(payload, a91);
    MessageBits(BitsOf(a91[..]), WithCrc(BitsOf(payload[..])[..77]));
    codeword := new Byte[22];
    Encode174(a91, codeword);
  }

  /** Sends a payload as FT8 tones. */
  method Ft8Encode(payload: array<Byte>, tones: array<nat>)
    requires payload.Length == 10 && tones.Length == FT8_NN && payload as object != tones
    modifies tones
    ensures tones[..] == Ft8Tones(Sent(BitsOf(payload[..])[..77]))
  {
    hide BitsOf, Mask, Sent, Costas8, Gray8;
    var codeword := EncodePayload(payload);
    ghost var code := Sent(BitsOf(payload[..])[..77]);
    var mask, iByte := Mask(0), 0;
    ghost var k := 0;
    for iTone := 0 to FT8_NN
      invariant BitsOf(codeword[..])[..N] == code && |BitsOf(codeword[..])| == 176
      invariant k == if iTone < 7 then 0 else if iTone < 36 then iTone - 7 else if iTone < 43 then 29
                     else if iTone < 72 then iTone - 14 else 58
      invariant iByte == 3 * k / 8 && mask == Mask(3 * k % 8)
      invariant forall i :: 0 <= i < iTone ==> tones[i] == Ft8Tone(code, i)
    {
      if iTone < 7 {
        tones[iTone] := Costas8(iTone);
      } else if 36 <= iTone < 43 {
        tones[iTone] := Costas8(iTone - 36);
      } else if 72 <= iTone < 79 {
        tones[iTone] := Costas8(iTone - 72);
      } else {
        var bit2, bit1, bit0;
        bit2, iByte, mask := NextBit(codeword, iByte, mask, 3 * k);
        bit1, iByte, mask := NextBit(codeword, iByte, mask, 3 * k + 1);
        bit0, iByte, mask := NextBit(codeword, iByte, mask, 3 * k + 2);
        assert bit2 == code[3 * k] && bit1 == code[3 * k + 1] && bit0 == code[3 * k + 2];
        tones[iTone] := Gray8(Value3(bit2, bit1, bit0));
        k := k + 1;
      }
    }
  }

  /** Exclusive or with the FT4 sequence. */
  function Whiten(payload: seq<Byte>): (w: seq<Byte>)
    requires |payload| == 10
    ensures |w| == 10
  {
    seq(10, i requires 0 <= i < 10 => payload[i] ^ FT4_XOR[i])
  }

  lemma WhitenTwice(payload: seq<Byte>)
    requires |payload| == 10
    ensures Whiten(Whiten(payload)) == payload
  {
    forall i | 0 <= i < 10
      ensures Whiten(Whiten(payload))[i] == payload[i]
    {
      XorTwice(payload[i], FT4_XOR[i]);
    }
  }

  lemma XorTwice(a: Byte, b: Byte)
    ensures (a ^ b) ^ b == a
  {
  }

  /** Sends a payload as FT4 tones. */
  method Ft4Encode(payload: array<Byte>, tones: array<nat>)
    requires payload.Length == 10 && tones.Length == FT4_NN && payload as object != tones
    modifies tones
    ensures tones[..] == Ft4Tones(Sent(BitsOf(Whiten(payload[..]))[..77]))
  {
    hide BitsOf, Mask, Sent, Costas4, Gray4;
    var payloadXor := new Byte[10];
    for i := 0 to 10
      invariant forall j :: 0 <= j < i ==> payloadXor[j] == Whiten(payload[..])[j]
    {
      payloadXor[i] := payload[i] ^ FT4_XOR[i];
    }
    assert payloadXor[..] == Whiten(payload[..]);
    var codeword := EncodePayload(payloadXor);
    ghost var code := Sent(BitsOf(Whiten(payload[..]))[..77]);
    var mask, iByte := Mask(0), 0;
    ghost var k := 0;
    for iTone := 0 to FT4_NN
      invariant BitsOf(codeword[..])[..N] == code && |BitsOf(codeword[..])| == 176
      invariant k == if iTone < 5 then 0 else if iTone < 34 then iTone - 5 else if iTone < 38 then 29
                     else if iTone < 67 then iTone - 9 else if iTone < 71 then 58
                     else if iTone < 100 then iTone - 13 else 87
      invariant iByte == 2 * k / 8 && mask == Mask(2 * k % 8)
      invariant forall i :: 0 <= i < iTone ==> tones[i] == Ft4Tone(code, i)
    {
      if iTone == 0 || iTone == 104 {
        tones[iTone] := 0;
      } else if 1 <= iTone < 5 {
        tones[iTone] := Costas4(0, iTone - 1);
      } else if 34 <= iTone < 38 {
        tones[iTone] := Costas4(1, iTone - 34);
      } else if 67 <= iTone < 71 {
        tones[iTone] := Costas4(2, iTone - 67);
      } else if 100 <= iTone < 104 {
        tones[iTone] := Costas4(3, iTone - 100);
      } else {
        var bit1, bit0;
        bit1, iByte, mask := NextBit(codeword, iByte, mask, 2 * k);
        bit0, iByte, mask := NextBit(codeword, iByte, mask, 2 * k + 1);
        assert bit1 == code[2 * k] && bit0 == code[2 * k + 1];
        tones[iTone] := Gray4(Value2(bit1, bit0));
        k := k + 1;
      }
    }
  }

  lemma MessageBits(a91: seq<bool>, msg: seq<bool>)
    requires a91 == msg + Zeros(5) && |msg| == 91
    ensures a91[..91] == msg && AllFalse(a91[91..])
  {
  }
}
