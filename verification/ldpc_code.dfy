/** The LDPC(174,91) code: the encoder as the source runs it over packed bytes, the code as bit
    strings, and the parity checks that every codeword meets. */
module LdpcCode {
  import opened Bits
  import opened Constants
  import opened LdpcRows

  // ----- sums over GF(2) -----

  predicate Top(v: Vec) {
    v.bits & TOP != 0
  }

  function Shl(v: Vec): Vec {
    Vec(v.bits << 1)
  }

  /** Sum modulo 2 of the message bits that the vector v selects, v's top bit going first. */
  function Dot(msg: seq<bool>, v: Vec): bool {
    if msg == [] then false else (msg[0] && Top(v)) != Dot(msg[1..], Shl(v))
  }

  lemma XorTop(a: Vec, b: Vec)
    ensures Top(Xor(a, b)) == (Top(a) != Top(b))
  {
  }

  lemma XorShl(a: Vec, b: Vec)
    ensures Shl(Xor(a, b)) == Xor(Shl(a), Shl(b))
  {
  }

  lemma {:induction false} DotLinear(msg: seq<bool>, a: Vec, b: Vec)
    ensures Dot(msg, Xor(a, b)) == (Dot(msg, a) != Dot(msg, b))
  {
    hide Top, Shl, Xor;
    if msg != [] {
      XorTop(a, b);
      XorShl(a, b);
      DotLinear(msg[1..], Shl(a), Shl(b));
    }
  }

  lemma ShlZero()
    ensures Shl(Vec(0)) == Vec(0) && !Top(Vec(0))
  {
  }

  lemma {:induction false} DotZero(msg: seq<bool>)
    ensures !Dot(msg, Vec(0))
  {
    hide Top, Shl;
    if msg != [] {
      ShlZero();
      DotZero(msg[1..]);
    }
  }

  /** The column of message bit i, shifted left, is the column of bit i - 1. */
  lemma UnitShift(i: nat)
    requires i < 91
    ensures if i == 0 then Top(Column(i + 1)) && Shl(Column(i + 1)) == Vec(0)
            else !Top(Column(i + 1)) && Shl(Column(i + 1)) == Column(i)
  {
    hide Column;
    ColumnsFrom0(); ColumnsFrom15(); ColumnsFrom30(); ColumnsFrom45(); ColumnsFrom60(); ColumnsFrom75();
    ColumnsFrom90();
    if i == 0 {} else if i == 1 {} else if i == 2 {} else if i == 3 {} else if i == 4 {} else if i == 5 {}
    else if i == 6 {} else if i == 7 {} else if i == 8 {} else if i == 9 {} else if i == 10 {} else if i == 11 {}
    else if i == 12 {} else if i == 13 {} else if i == 14 {} else if i == 15 {} else if i == 16 {} else if i == 17 {}
    else if i == 18 {} else if i == 19 {} else if i == 20 {} else if i == 21 {} else if i == 22 {} else if i == 23 {}
    else if i == 24 {} else if i == 25 {} else if i == 26 {} else if i == 27 {} else if i == 28 {} else if i == 29 {}
    else if i == 30 {} else if i == 31 {} else if i == 32 {} else if i == 33 {} else if i == 34 {} else if i == 35 {}
    else if i == 36 {} else if i == 37 {} else if i == 38 {} else if i == 39 {} else if i == 40 {} else if i == 41 {}
    else if i == 42 {} else if i == 43 {} else if i == 44 {} else if i == 45 {} else if i == 46 {} else if i == 47 {}
    else if i == 48 {} else if i == 49 {} else if i == 50 {} else if i == 51 {} else if i == 52 {} else if i == 53 {}
    else if i == 54 {} else if i == 55 {} else if i == 56 {} else if i == 57 {} else if i == 58 {} else if i == 59 {}
    else if i == 60 {} else if i == 61 {} else if i == 62 {} else if i == 63 {} else if i == 64 {} else if i == 65 {}
    else if i == 66 {} else if i == 67 {} else if i == 68 {} else if i == 69 {} else if i == 70 {} else if i == 71 {}
    else if i == 72 {} else if i == 73 {} else if i == 74 {} else if i == 75 {} else if i == 76 {} else if i == 77 {}
    else if i == 78 {} else if i == 79 {} else if i == 80 {} else if i == 81 {} else if i == 82 {} else if i == 83 {}
    else if i == 84 {} else if i == 85 {} else if i == 86 {} else if i == 87 {} else if i == 88 {} else if i == 89 {}
    else {}
  }

  lemma {:induction false} DotUnit(msg: seq<bool>, i: nat)
    requires i < |msg| && i < 91
    ensures Dot(msg, Column(i + 1)) == msg[i]
  {
    hide Top, Shl, Column;
    UnitShift(i);
    if i == 0 {
      DotZero(msg[1..]);
    } else {
      DotUnit(msg[1..], i - 1);
    }
  }

  // ----- the code, as bit strings -----

  /** A message of 91 bits followed by its 83 parity bits. */
  function Codeword(msg: seq<bool>): (code: seq<bool>)
    requires |msg| == K
    ensures |code| == N && code[..K] == msg
  {
    msg + seq(M, i requires 0 <= i < M => Dot(msg, Generator(i)))
  }

  /** Sum modulo 2 of the first n bits that check c names. */
  function RowParity(code: seq<bool>, c: Check, n: nat): bool
    requires |code| == N && n <= 7 && c.InRange() && (n == 7 ==> c.n6 != 0)
  {
    if n == 0 then false else RowParity(code, c, n - 1) != code[c.Entry(n - 1) - 1]
  }

  /** The codeword bits that check m names sum to zero. */
  predicate Passes(code: seq<bool>, m: nat)
    requires |code| == N && m < M
  {
    NumRowsCountsEntries(m);
    !RowParity(code, CheckRow(m), NumRows(m))
  }

  predicate IsCodeword(code: seq<bool>)
    requires |code| == N
  {
    forall m :: 0 <= m < M ==> Passes(code, m)
  }

  lemma CodewordAt(msg: seq<bool>, idx: nat)
    requires |msg| == K && 1 <= idx <= N
    ensures Codeword(msg)[idx - 1] == Dot(msg, Column(idx))
  {
    hide Dot, Generator;
    if idx <= K {
      DotUnit(msg, idx - 1);
    } else {
      assert Codeword(msg)[idx - 1] == Dot(msg, Generator(idx - 92));
    }
  }


  lemma DotCancels(msg: seq<bool>, c: Check)
    requires RowCancels(c)
    ensures (((Dot(msg, Column(c.n0)) != Dot(msg, Column(c.n1))) != Dot(msg, Column(c.n2))) != Dot(msg, Column(c.n3)))
            == ((Dot(msg, Column(c.n4)) != Dot(msg, Column(c.n5))) != Dot(msg, Column(c.n6)))
  {
    hide Dot, Column, Xor, Top, Shl;
    var a, b, d := Column(c.n0), Column(c.n1), Column(c.n2);
    DotLinear(msg, Xor(Xor(a, b), d), Column(c.n3));
    DotLinear(msg, Xor(a, b), d);
    DotLinear(msg, a, b);
    var e, f, g := Column(c.n4), Column(c.n5), Column(c.n6);
    DotLinear(msg, Xor(e, f), g);
    DotLinear(msg, e, f);
  }

  lemma RowParityUnrolled(code: seq<bool>, c: Check, n: nat)
    requires |code| == N && c.InRange() && (n == 6 || (n == 7 && c.n6 != 0))
    ensures RowParity(code, c, n) ==
            ((((((code[c.n0 - 1] != code[c.n1 - 1]) != code[c.n2 - 1]) != code[c.n3 - 1]) != code[c.n4 - 1])
             != code[c.n5 - 1]) != (n == 7 && code[c.n6 - 1]))
  {
    assert RowParity(code, c, 1) == code[c.n0 - 1];
    assert RowParity(code, c, 2) == (RowParity(code, c, 1) != code[c.n1 - 1]);
    assert RowParity(code, c, 3) == (RowParity(code, c, 2) != code[c.n2 - 1]);
    assert RowParity(code, c, 4) == (RowParity(code, c, 3) != code[c.n3 - 1]);
    assert RowParity(code, c, 5) == (RowParity(code, c, 4) != code[c.n4 - 1]);
    assert RowParity(code, c, 6) == (RowParity(code, c, 5) != code[c.n5 - 1]);
    if n == 7 {
      assert RowParity(code, c, 7) == (RowParity(code, c, 6) != code[c.n6 - 1]);
    }
  }

  lemma EncodedPassesCheck(msg: seq<bool>, m: nat)
    requires |msg| == K && m < M
    ensures Passes(Codeword(msg), m)
  {
    hide Dot, Column, RowParity, Codeword, CheckRow, Cancels, Xor, Top, Shl;
    var c, code := CheckRow(m), Codeword(msg);
    NumRowsCountsEntries(m);
    RowParityUnrolled(code, c, NumRows(m));
    EveryRowCancels(m);
    DotCancels(msg, c);
    CodewordAt(msg, c.n0); CodewordAt(msg, c.n1); CodewordAt(msg, c.n2);
    CodewordAt(msg, c.n3); CodewordAt(msg, c.n4); CodewordAt(msg, c.n5);
    if c.n6 == 0 {
      assert Column(0) == Vec(0) by { ColumnsFrom0(); }
      DotZero(msg);
    } else {
      CodewordAt(msg, c.n6);
    }
  }

  /** Every encoded message meets all 83 parity checks. */
  lemma EncodedIsCodeword(msg: seq<bool>)
    requires |msg| == K
    ensures IsCodeword(Codeword(msg))
  {
    forall m | 0 <= m < M
      ensures Passes(Codeword(msg), m)
    {
      EncodedPassesCheck(msg, m);
    }
  }

  /** No codeword is all ones: check 0 names seven bits. */
  lemma AllOnesIsNoCodeword(code: seq<bool>)
    requires |code| == N && IsCodeword(code)
    ensures exists i :: 0 <= i < N && !code[i]
  {
    assert Passes(code, 0);
    NumRowsCountsEntries(0);
    RowParityUnrolled(code, CheckRow(0), NumRows(0));
    assert !(code[3] && code[30] && code[58] && code[90] && code[91] && code[95] && code[152]);
  }

  // ----- the encoder over packed bytes -----

  /** Whether an odd number of these bits is set. */
  function Odd(bits: seq<bool>): bool {
    if bits == [] then false else bits[0] != Odd(bits[1..])
  }

  /** 1 when x has an odd number of set bits, else 0, by folding the byte onto itself. */
  function Parity8(x: Byte): (p: Byte)
    ensures p == AsByte(Odd(ByteBits(x)))
  {
    var x4 := x ^ (x >> 4);
    var x2 := x4 ^ (x4 >> 2);
    var x1 := x2 ^ (x2 >> 1);
    ParityFold(x);
    x1 % 2
  }

  lemma ParityFold(x: Byte)
    ensures var x4 := x ^ (x >> 4); var x2 := x4 ^ (x4 >> 2); (x2 ^ (x2 >> 1)) % 2 == AsByte(Odd(ByteBits(x)))
  {
    OddOfEight(x & 0x80 != 0, x & 0x40 != 0, x & 0x20 != 0, x & 0x10 != 0,
               x & 0x08 != 0, x & 0x04 != 0, x & 0x02 != 0, x & 0x01 != 0);
  }

  lemma OddOfFour(a: bool, b: bool, c: bool, d: bool, rest: seq<bool>)
    ensures Odd([a, b, c, d] + rest) == (a != (b != (c != (d != Odd(rest)))))
  {
    assert Odd([d] + rest) == (d != Odd(rest)) by { assert ([d] + rest)[1..] == rest; }
    assert Odd([c, d] + rest) == (c != Odd([d] + rest)) by { assert ([c, d] + rest)[1..] == [d] + rest; }
    assert Odd([b, c, d] + rest) == (b != Odd([c, d] + rest)) by { assert ([b, c, d] + rest)[1..] == [c, d] + rest; }
    assert ([a, b, c, d] + rest)[1..] == [b, c, d] + rest;
  }

  lemma OddOfEight(a: bool, b: bool, c: bool, d: bool, e: bool, f: bool, g: bool, h: bool)
    ensures Odd([a, b, c, d, e, f, g, h]) == (a != (b != (c != (d != (e != (f != (g != h)))))))
  {
    var low := [e, f, g, h];
    OddOfFour(a, b, c, d, low);
    OddOfFour(e, f, g, h, []);
    assert [a, b, c, d, e, f, g, h] == [a, b, c, d] + low;
    assert low == low + [];
  }

  /** The top byte of a vector, and the vector n bits on. */
  function TopByte(v: Vec): Byte {
    (v.bits >> 88) as Byte
  }

  function ShlBy(v: Vec, n: nat): Vec
    decreases n
  {
    if n == 0 then v else Shl(ShlBy(v, n - 1))
  }

  /** A generator row from its byte j on. */
  function RowFrom(i: nat, j: nat): Vec
    requires i < M
  {
    ShlBy(Generator(i), 8 * j)
  }

  /** Byte j of a generator row. */
  function GeneratorByte(i: nat, j: nat): Byte
    requires i < M && j < 12
  {
    TopByte(RowFrom(i, j))
  }

  lemma {:induction false} ShlByShl(v: Vec, n: nat)
    ensures ShlBy(Shl(v), n) == ShlBy(v, n + 1)
    decreases n
  {
    hide Shl;
    if n > 0 {
      ShlByShl(v, n - 1);
    }
  }

  lemma {:induction false} DotAppend(a: seq<bool>, b: seq<bool>, v: Vec)
    ensures Dot(a + b, v) == (Dot(a, v) != Dot(b, ShlBy(v, |a|)))
  {
    hide Shl, Top;
    if a == [] {
      assert a + b == b;
    } else {
      DotAppend(a[1..], b, Shl(v));
      ShlByShl(v, |a| - 1);
      assert (a + b)[0] == a[0] && (a + b)[1..] == a[1..] + b;
    }
  }

  function AndBits(a: seq<bool>, b: seq<bool>): (c: seq<bool>)
    requires |a| == |b|
    ensures |c| == |a|
  {
    seq(|a|, i requires 0 <= i < |a| => a[i] && b[i])
  }

  /** The first n bits of a vector. */
  function Tops(v: Vec, n: nat): (bits: seq<bool>)
    ensures |bits| == n
    decreases n
  {
    if n == 0 then [] else [Top(v)] + Tops(Shl(v), n - 1)
  }

  lemma {:induction false} DotIsOdd(bits: seq<bool>, v: Vec)
    ensures Dot(bits, v) == Odd(AndBits(bits, Tops(v, |bits|)))
    decreases |bits|
  {
    hide Shl, Top;
    if bits != [] {
      DotIsOdd(bits[1..], Shl(v));
      assert AndBits(bits, Tops(v, |bits|))[1..] == AndBits(bits[1..], Tops(Shl(v), |bits| - 1));
    }
  }

  /** One shift to the left moves every bit of the top byte one place up. */
  lemma TopByteShift(v: Vec, k: nat)
    requires k < 7
    ensures (TopByte(v) & Mask(k + 1) != 0) == (TopByte(Shl(v)) & Mask(k) != 0)
  {
    if k == 0 {} else if k == 1 {} else if k == 2 {} else if k == 3 {} else if k == 4 {} else if k == 5 {} else {}
  }

  lemma TopByteTop(v: Vec)
    ensures Top(v) == (TopByte(v) & Mask(0) != 0)
  {
  }

  lemma {:induction false} TopsAt(v: Vec, n: nat, k: nat)
    requires k < n && k < 8
    ensures Tops(v, n)[k] == (TopByte(v) & Mask(k) != 0)
    decreases n
  {
    hide Shl, Top, TopByte, Mask;
    if k == 0 {
      TopByteTop(v);
    } else {
      TopsAt(Shl(v), n - 1, k - 1);
      TopByteShift(v, k - 1);
    }
  }

  lemma TopsAreTopByte(v: Vec)
    ensures Tops(v, 8) == ByteBits(TopByte(v))
  {
    hide Tops, TopByte, ByteBits, Mask;
    forall k | 0 <= k < 8
      ensures Tops(v, 8)[k] == ByteBits(TopByte(v))[k]
    {
      TopsAt(v, 8, k);
      ByteBitsAt(TopByte(v), k);
    }
  }

  lemma AndMask(a: Byte, b: Byte, k: nat)
    requires k < 8
    ensures ((a & b) & Mask(k) != 0) == (a & Mask(k) != 0 && b & Mask(k) != 0)
  {
  }

  lemma AndByteBits(a: Byte, b: Byte)
    ensures AndBits(ByteBits(a), ByteBits(b)) == ByteBits(a & b)
  {
    hide ByteBits, Mask;
    forall k | 0 <= k < 8
      ensures AndBits(ByteBits(a), ByteBits(b))[k] == ByteBits(a & b)[k]
    {
      AndMask(a, b, k);
      ByteBitsAt(a, k); ByteBitsAt(b, k); ByteBitsAt(a & b, k);
    }
  }

  /** Parity of byte b masked with the first byte of the vector w. */
  predicate MaskedParity(b: Byte, w: Vec) {
    Odd(ByteBits(b & TopByte(w)))
  }

  /** The sum over one byte is its masked parity. */
  lemma DotByte(b: Byte, v: Vec)
    ensures Dot(ByteBits(b), v) == MaskedParity(b, v)
  {
    hide Dot, Odd, AndBits, Tops, ByteBits, TopByte;
    DotIsOdd(ByteBits(b), v);
    TopsAreTopByte(v);
    AndByteBits(b, TopByte(v));
  }

  /** The sum over a whole buffer, one byte at a time. */
  lemma DotOfBytes(bytes: seq<Byte>, w: Vec)
    requires bytes != []
    ensures Dot(BitsOf(bytes), w) == (MaskedParity(bytes[0], w) != Dot(BitsOf(bytes[1..]), ShlBy(w, 8)))
  {
    hide Dot, TopByte, ByteBits, ShlBy, Shl, Top, MaskedParity;
    DotAppend(ByteBits(bytes[0]), BitsOf(bytes[1..]), w);
    DotByte(bytes[0], w);
  }

  lemma DotStep(message: seq<Byte>, v: Vec, j: nat)
    requires j < |message|
    ensures Dot(BitsOf(message[j..]), ShlBy(v, 8 * j)) ==
            (MaskedParity(message[j], ShlBy(v, 8 * j)) != Dot(BitsOf(message[j + 1..]), ShlBy(v, 8 * (j + 1))))
  {
    hide *;
    DotOfBytes(message[j..], ShlBy(v, 8 * j));
    ShlByAdd(v, 8 * j, 8);
    assert message[j..][0] == message[j] && message[j..][1..] == message[j + 1..];
  }

  lemma {:induction false} ShlByAdd(v: Vec, a: nat, b: nat)
    ensures ShlBy(v, a + b) == ShlBy(ShlBy(v, a), b)
    decreases b
  {
    hide Shl;
    if b > 0 {
      ShlByAdd(v, a, b - 1);
    }
  }

  /** Trailing bits that are clear add nothing to a sum. */
  lemma {:induction false} DotOfClear(bits: seq<bool>, v: Vec)
    requires AllFalse(bits)
    ensures !Dot(bits, v)
    decreases |bits|
  {
    hide Shl, Top;
    if bits != [] {
      DotOfClear(bits[1..], Shl(v));
    }
  }

  /** One step of the checksum: a message byte against byte j of generator row i. */
  function ByteParity(b: Byte, i: nat, j: nat): (p: Byte)
    requires i < M && j < 12
    ensures p == AsByte(MaskedParity(b, RowFrom(i, j)))
  {
    hide RowFrom, TopByte, Odd, ByteBits;
    Parity8(b & GeneratorByte(i, j))
  }

  /** The checksum bit of generator row i over the packed message: twelve masked bytes. */
  method ChecksumBit(message: array<Byte>, i: nat) returns (nsum: Byte)
    requires message.Length == 12 && i < M
    ensures nsum == AsByte(Dot(BitsOf(message[..]), Generator(i)))
  {
    hide Dot, Generator, MaskedParity, BitsOf, ShlBy, ByteParity;
    nsum := 0;
    ghost var v := Generator(i);
    ShlByZero(v);
    assert message[0..] == message[..];
    for j := 0 to 12
      invariant nsum == AsByte(Dot(BitsOf(message[..]), v) != Dot(BitsOf(message[j..]), ShlBy(v, 8 * j)))
    {
      DotStep(message[..], v, j);
      assert message[..][j..] == message[j..] && message[..][j + 1..] == message[j + 1..];
      nsum := AddBit(nsum, ByteParity(message[j], i, j));
    }
    DotOfEmpty(message[12..], ShlBy(v, 96));
  }

  /** Exclusive or of two bits kept in bytes. */
  function AddBit(a: Byte, b: Byte): (c: Byte)
    requires (a == 0 || a == 1) && (b == 0 || b == 1)
    ensures c == AsByte((a == 1) != (b == 1))
  {
    a ^ b
  }

  lemma ShlByZero(v: Vec)
    ensures ShlBy(v, 0) == v
  {
  }

  lemma DotOfEmpty(bytes: seq<Byte>, v: Vec)
    requires bytes == []
    ensures !Dot(BitsOf(bytes), v)
  {
  }

  /** A sum over the packed message does not depend on the five spare bits, which are clear. */
  lemma SpareBitsAddNothing(bits: seq<bool>, v: Vec)
    requires |bits| == 96 && AllFalse(bits[K..])
    ensures Dot(bits, v) == Dot(bits[..K], v)
  {
    assert bits == bits[..K] + bits[K..];
    DotAppend(bits[..K], bits[K..], v);
    DotOfClear(bits[K..], ShlBy(v, K));
  }

  /** Encodes 91 bits in 12 bytes into a codeword of 174 bits in 22 bytes: the message is copied and
      the checksum bits are set one by one behind it with a moving mask. */
  method Encode174(message: array<Byte>, codeword: array<Byte>)
    requires message.Length == 12 && codeword.Length == 22 && message != codeword
    requires AllFalse(BitsOf(message[..])[K..])
    modifies codeword
    ensures BitsOf(codeword[..])[..N] == Codeword(BitsOf(message[..])[..K])
    ensures AllFalse(BitsOf(codeword[..])[N..])
  {
    hide BitsOf, Dot, Generator, Mask, Or, ShiftMask;
    for j := 0 to 22
      invariant forall i :: 0 <= i < j ==> codeword[i] == if i < 12 then message[i] else 0
      invariant message[..] == old(message[..])
    {
      codeword[j] := if j < 12 then message[j] else 0;
    }
    ghost var bits := BitsOf(message[..]);
    ghost var msg := bits[..K];
    assert codeword[..] == message[..] + codeword[12..];
    BitsOfAppend(message[..], codeword[12..]);
    BitsOfZeroBytes(codeword[12..]);
    var colMask, colIdx := FirstChecksumMask(), 11;
    for i := 0 to M
      invariant message[..] == old(message[..])
      invariant colIdx == (K + i) / 8 && colMask == Mask((K + i) % 8)
      invariant BitsOf(codeword[..]) == Codeword(msg)[..K + i] + Zeros(85 - i)
    {
      SpareBitsAddNothing(bits, Generator(i));
      var nsum := ChecksumBit(message, i);
      ghost var before := codeword[..];
      assert 8 * colIdx + (K + i) % 8 == K + i;
      assert Codeword(msg)[K + i] == (nsum == 1);
      if nsum != 0 {
        codeword[colIdx] := Or(codeword[colIdx], colMask);
        BitsOfSet(before, colIdx, (K + i) % 8);
        assert codeword[..] == before[colIdx := Or(before[colIdx], Mask((K + i) % 8))];
      }
      assert BitsOf(codeword[..]) == BitsOf(before)[K + i := nsum == 1];
      MaskStep((K + i) % 8);
      colMask := ShiftMask(colMask);
      if colMask == 0 {
        colMask := Mask(0);
        colIdx := colIdx + 1;
      }
    }
  }

  /** The mask of the first checksum bit, 0x80 >> (91 % 8). */
  function FirstChecksumMask(): (mask: Byte)
    ensures mask == Mask(3)
  {
    0x80 >> (K % 8)
  }
}
