/** Bytes and the bit strings they stand for, most significant bit first. */
module Bits {

  type Byte = bv8

  /** The mask 0x80 >> j that the source moves along a byte. */
  function Mask(j: nat): Byte
    requires j < 8
  {
    if j == 0 then 0x80 else if j == 1 then 0x40 else if j == 2 then 0x20 else if j == 3 then 0x10
    else if j == 4 then 0x08 else if j == 5 then 0x04 else if j == 6 then 0x02 else 0x01
  }

  /** The eight bits of one byte. */
  function ByteBits(b: Byte): (bits: seq<bool>)
    ensures |bits| == 8
  {
    [b & 0x80 != 0, b & 0x40 != 0, b & 0x20 != 0, b & 0x10 != 0,
     b & 0x08 != 0, b & 0x04 != 0, b & 0x02 != 0, b & 0x01 != 0]
  }

  /** The bit string of a byte buffer. */
  function BitsOf(bytes: seq<Byte>): (bits: seq<bool>)
    ensures |bits| == 8 * |bytes|
  {
    if bytes == [] then [] else ByteBits(bytes[0]) + BitsOf(bytes[1..])
  }

  /** Bit i of a buffer, as the source tests it with a byte index and a moving mask. */
  predicate BitAt(bytes: seq<Byte>, i: nat)
    requires i < 8 * |bytes|
  {
    Tests(bytes[i / 8], Mask(i % 8))
  }

  /** One bit as the 0 or 1 that the decoder stores in a byte. */
  function AsByte(b: bool): Byte {
    if b then 1 else 0
  }

  function Zeros(n: nat): (z: seq<bool>)
    ensures |z| == n && forall i :: 0 <= i < n ==> !z[i]
  {
    seq(n, _ => false)
  }

  function XorBits(a: seq<bool>, b: seq<bool>): (c: seq<bool>)
    requires |a| == |b|
    ensures |c| == |a| && forall i :: 0 <= i < |a| ==> c[i] == (a[i] != b[i])
  {
    seq(|a|, i requires 0 <= i < |a| => a[i] != b[i])
  }

  predicate AllFalse(bits: seq<bool>) {
    forall i :: 0 <= i < |bits| ==> !bits[i]
  }

  lemma ByteBitsAt(b: Byte, k: nat)
    requires k < 8
    ensures ByteBits(b)[k] == Tests(b, Mask(k))
  {
  }

  lemma {:induction false} BitsOfAt(bytes: seq<Byte>, i: nat)
    requires i < 8 * |bytes|
    ensures BitsOf(bytes)[i] == BitAt(bytes, i)
  {
    hide ByteBits, Tests, Mask;
    if i < 8 {
      ByteBitsAt(bytes[0], i);
    } else {
      BitsOfAt(bytes[1..], i - 8);
      assert (i - 8) / 8 == i / 8 - 1 && (i - 8) % 8 == i % 8;
    }
  }

  lemma {:induction false} BitsOfAppend(a: seq<Byte>, b: seq<Byte>)
    ensures BitsOf(a + b) == BitsOf(a) + BitsOf(b)
  {
    hide ByteBits;
    if a == [] {
      assert a + b == b;
    } else {
      BitsOfAppend(a[1..], b);
      assert (a + b)[0] == a[0] && (a + b)[1..] == a[1..] + b;
      assert ByteBits(a[0]) + (BitsOf(a[1..]) + BitsOf(b)) == (ByteBits(a[0]) + BitsOf(a[1..])) + BitsOf(b);
    }
  }

  lemma {:induction false} BitsOfPrefix(bytes: seq<Byte>, n: nat)
    requires n <= |bytes|
    ensures BitsOf(bytes[..n]) == BitsOf(bytes)[..8 * n]
  {
    BitsOfAppend(bytes[..n], bytes[n..]);
    assert bytes == bytes[..n] + bytes[n..];
  }

  lemma ByteBitsInjective(a: Byte, b: Byte)
    requires ByteBits(a) == ByteBits(b)
    ensures a == b
  {
    assert ByteBits(a)[0] == ByteBits(b)[0];
    assert ByteBits(a)[1] == ByteBits(b)[1];
    assert ByteBits(a)[2] == ByteBits(b)[2];
    assert ByteBits(a)[3] == ByteBits(b)[3];
    assert ByteBits(a)[4] == ByteBits(b)[4];
    assert ByteBits(a)[5] == ByteBits(b)[5];
    assert ByteBits(a)[6] == ByteBits(b)[6];
    assert ByteBits(a)[7] == ByteBits(b)[7];
  }

  /** A buffer is determined by its bits. */
  lemma {:induction false} BitsOfInjective(a: seq<Byte>, b: seq<Byte>)
    requires BitsOf(a) == BitsOf(b)
    ensures a == b
  {
    assert |BitsOf(a)| == |BitsOf(b)|;
    if a != [] {
      assert ByteBits(a[0]) == BitsOf(a)[..8] && ByteBits(b[0]) == BitsOf(b)[..8];
      assert BitsOf(a[1..]) == BitsOf(a)[8..] && BitsOf(b[1..]) == BitsOf(b)[8..];
      ByteBitsInjective(a[0], b[0]);
      BitsOfInjective(a[1..], b[1..]);
      assert a == [a[0]] + a[1..] && b == [b[0]] + b[1..];
    }
  }

  /** The byte operations that the source applies to a moving mask. */
  function Or(b: Byte, mask: Byte): Byte {
    b | mask
  }

  function ShiftMask(mask: Byte): Byte {
    mask >> 1
  }

  predicate Tests(b: Byte, mask: Byte) {
    b & mask != 0
  }

  /** OR-ing mask j into a byte sets bit j and leaves the other seven. */
  lemma OrMask(b: Byte, j: nat, k: nat)
    requires j < 8 && k < 8
    ensures Tests(Or(b, Mask(j)), Mask(k)) == (k == j || Tests(b, Mask(k)))
  {
  }

  /** Shifting the mask moves it one bit on, and past bit 7 it is empty. */
  lemma MaskStep(j: nat)
    requires j < 8
    ensures ShiftMask(Mask(j)) == if j == 7 then 0 else Mask(j + 1)
    ensures ShiftMask(Mask(j)) == 0 <==> j == 7
  {
  }

  /** OR-ing a mask into one byte sets one bit of the buffer. */
  lemma BitsOfSet(bytes: seq<Byte>, k: nat, j: nat)
    requires k < |bytes| && j < 8
    ensures BitsOf(bytes[k := Or(bytes[k], Mask(j))]) == BitsOf(bytes)[8 * k + j := true]
  {
    hide BitsOf, Mask, Or, Tests;
    var after := bytes[k := Or(bytes[k], Mask(j))];
    forall i | 0 <= i < 8 * |bytes|
      ensures BitsOf(after)[i] == (BitsOf(bytes)[i] || i == 8 * k + j)
    {
      BitsOfAt(after, i);
      BitsOfAt(bytes, i);
      OrMask(bytes[k], j, i % 8);
    }
  }

  lemma {:induction false} BitsOfZeroBytes(bytes: seq<Byte>)
    requires forall i :: 0 <= i < |bytes| ==> bytes[i] == 0
    ensures AllFalse(BitsOf(bytes))
  {
    if bytes != [] {
      BitsOfZeroBytes(bytes[1..]);
    }
  }
}
