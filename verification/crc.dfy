/** The 14-bit CRC: the source's shift register, and the polynomial division it carries out.
    A polynomial over GF(2) is a bit string with the highest power first. */
module Crc {
  import opened Bits

  // ----- polynomials over GF(2) -----

  /** x^14 + 0x2757 without its leading term. */
  function Glow(): (g: seq<bool>)
    ensures |g| == 14 && g[13]
  {
    [true, false, false, true, true, true, false, true, false, true, false, true, true, true]
  }

  /** The generator times bit t. */
  function GeneratorIf(t: bool): (g: seq<bool>)
    ensures |g| == 15
  {
    if t then [true] + Glow() else Zeros(15)
  }

  /** The product of a polynomial and the generator, by schoolbook multiplication. */
  function TimesGenerator(q: seq<bool>): (p: seq<bool>)
    ensures |p| == |q| + 14
  {
    if q == [] then Zeros(14)
    else
      var n := |q| - 1;
      XorBits(TimesGenerator(q[..n]) + [false], Zeros(n) + GeneratorIf(q[n]))
  }

  /** Whether a polynomial is divisible by the generator. */
  ghost predicate IsMultiple(p: seq<bool>) {
    exists q :: TimesGenerator(q) == p
  }

  // ----- the register as a bit string -----

  /** One shift of the register: subtract the generator when the top bit is set. */
  function Shift(r: seq<bool>): (s: seq<bool>)
    requires |r| == 14
    ensures |s| == 14
  {
    XorBits(r[1..] + [false], if r[0] then Glow() else Zeros(14))
  }

  /** One message bit entering at the top of the register. */
  function Feed(r: seq<bool>, x: bool): (s: seq<bool>)
    requires |r| == 14
    ensures |s| == 14
  {
    Shift(r[0 := r[0] != x])
  }

  /** The register after a whole message. */
  function FeedAll(r: seq<bool>, bits: seq<bool>): (s: seq<bool>)
    requires |r| == 14
    ensures |s| == 14
    decreases |bits|
  {
    if bits == [] then r else FeedAll(Feed(r, bits[0]), bits[1..])
  }

  function CrcOf(bits: seq<bool>): (r: seq<bool>)
    ensures |r| == 14
  {
    FeedAll(Zeros(14), bits)
  }

  lemma {:induction false} FeedAllAppend(r: seq<bool>, a: seq<bool>, b: seq<bool>)
    requires |r| == 14
    ensures FeedAll(r, a + b) == FeedAll(FeedAll(r, a), b)
    decreases |a|
  {
    hide Feed;
    if a == [] {
      assert a + b == b;
    } else {
      assert (a + b)[0] == a[0] && (a + b)[1..] == a[1..] + b;
      FeedAllAppend(Feed(r, a[0]), a[1..], b);
    }
  }

  lemma CrcOfAppend(bits: seq<bool>, x: bool)
    ensures CrcOf(bits + [x]) == Feed(CrcOf(bits), x)
  {
    FeedAllAppend(Zeros(14), bits, [x]);
    assert [x][1..] == [];
  }

  // ----- the register is the remainder -----

  /** The bits the register subtracts the generator for. */
  function Quotient(bits: seq<bool>): (q: seq<bool>)
    ensures |q| == |bits|
  {
    if bits == [] then []
    else
      var n := |bits| - 1;
      Quotient(bits[..n]) + [CrcOf(bits[..n])[0] != bits[n]]
  }

  lemma XorAppend(a: seq<bool>, b: seq<bool>, c: seq<bool>, d: seq<bool>)
    requires |a| == |c| && |b| == |d|
    ensures XorBits(a + b, c + d) == XorBits(a, c) + XorBits(b, d)
  {
  }

  lemma XorZeros(r: seq<bool>)
    ensures XorBits(r, Zeros(|r|)) == r
  {
  }

  lemma XorHead(a: seq<bool>, b: seq<bool>)
    requires |a| == |b| > 0
    ensures XorBits(a, b) == [a[0] != b[0]] + XorBits(a[1..], b[1..])
  {
  }

  lemma GeneratorTail(t: bool)
    ensures GeneratorIf(t)[0] == t && GeneratorIf(t)[1..] == if t then Glow() else Zeros(14)
  {
    hide Glow;
  }

  /** The remainder r with x brought down, less the generator when the leading bits differ. */
  lemma BringDown(r: seq<bool>, x: bool)
    requires |r| == 14
    ensures XorBits(r + [false], GeneratorIf(r[0] != x)) == [x] + Feed(r, x)
  {
    hide Glow, XorBits, GeneratorIf, Zeros;
    var t := r[0] != x;
    XorHead(r + [false], GeneratorIf(t));
    GeneratorTail(t);
    assert (r + [false])[1..] == r[1..] + [false];
    assert r[0 := t][1..] == r[1..];
  }

  /** One step of long division: the next message bit x comes down behind the remainder r. */
  lemma DivisionStep(bits: seq<bool>, r: seq<bool>, x: bool)
    requires |r| == 14
    ensures XorBits(bits + r + [false], Zeros(|bits|) + GeneratorIf(r[0] != x)) == bits + [x] + Feed(r, x)
  {
    hide XorBits, Feed, GeneratorIf, Zeros;
    assert bits + r + [false] == bits + (r + [false]);
    XorAppend(bits, r + [false], Zeros(|bits|), GeneratorIf(r[0] != x));
    XorZeros(bits);
    BringDown(r, x);
    assert bits + ([x] + Feed(r, x)) == bits + [x] + Feed(r, x);
  }

  /** Message times x^14 plus the register is the quotient times the generator. */
  lemma {:induction false} Division(bits: seq<bool>)
    ensures TimesGenerator(Quotient(bits)) == bits + CrcOf(bits)
  {
    hide Feed, GeneratorIf;
    if bits == [] {
      assert TimesGenerator([]) == [] + Zeros(14);
    } else {
      var n := |bits| - 1;
      Division(bits[..n]);
      var q := Quotient(bits);
      assert q[..n] == Quotient(bits[..n]);
      CrcOfAppend(bits[..n], bits[n]);
      DivisionStep(bits[..n], CrcOf(bits[..n]), bits[n]);
      assert bits == bits[..n] + [bits[n]];
    }
  }

  /** The leading bits of a multiple determine the factor. */
  lemma {:induction false} FactorUnique(q1: seq<bool>, q2: seq<bool>)
    requires |q1| == |q2|
    requires TimesGenerator(q1)[..|q1|] == TimesGenerator(q2)[..|q1|]
    ensures q1 == q2
  {
    hide TimesGenerator;
    if q1 != [] {
      var n := |q1| - 1;
      var t1, t2 := TimesGenerator(q1), TimesGenerator(q2);
      LeadingBits(q1);
      LeadingBits(q2);
      assert t1[..n + 1][..n] == t1[..n] && t2[..n + 1][..n] == t2[..n];
      FactorUnique(q1[..n], q2[..n]);
      assert t1[..n + 1][n] == t2[..n + 1][n];
      assert q1 == q1[..n] + [q1[n]] && q2 == q2[..n] + [q2[n]];
    }
  }

  /** The leading bits of a product: those of the shorter product, then one that the last bit of the factor decides. */
  lemma LeadingBits(q: seq<bool>)
    requires q != []
    ensures var n := |q| - 1;
            var shorter := TimesGenerator(q[..n]);
            TimesGenerator(q)[..n] == shorter[..n] && TimesGenerator(q)[n] == (shorter[n] != q[n])
  {
    hide TimesGenerator, GeneratorIf, XorBits, Zeros;
    var n := |q| - 1;
    Multiplied(q);
    GeneratorLeads(q[n]);
    LeadingSum(TimesGenerator(q[..n]), Zeros(n), GeneratorIf(q[n]), n);
  }

  lemma LeadingSum(shorter: seq<bool>, z: seq<bool>, g: seq<bool>, n: nat)
    requires |shorter| == n + 14 && |z| == n && |g| == 15 && forall i :: 0 <= i < n ==> !z[i]
    ensures var p := XorBits(shorter + [false], z + g);
            p[..n] == shorter[..n] && p[n] == (shorter[n] != g[0])
  {
    hide XorBits;
    var x, y := shorter + [false], z + g;
    var p := XorBits(x, y);
    assert p[n] == (x[n] != y[n]);
    forall i | 0 <= i < n
      ensures p[i] == shorter[i]
    {
      assert p[i] == (x[i] != y[i]);
    }
  }

  lemma Multiplied(q: seq<bool>)
    requires q != []
    ensures var n := |q| - 1;
            TimesGenerator(q) == XorBits(TimesGenerator(q[..n]) + [false], Zeros(n) + GeneratorIf(q[n]))
  {
  }

  lemma GeneratorLeads(b: bool)
    ensures GeneratorIf(b)[0] == b
  {
  }

  /** The CRC is the remainder: exactly one 14-bit string makes the message divisible. */
  lemma CrcIsRemainder(bits: seq<bool>, r: seq<bool>)
    requires |r| == 14
    ensures IsMultiple(bits + r) <==> r == CrcOf(bits)
  {
    Division(bits);
    if IsMultiple(bits + r) {
      var q :| TimesGenerator(q) == bits + r;
      var q' := Quotient(bits);
      assert TimesGenerator(q)[..|q|] == bits == TimesGenerator(q')[..|q|];
      FactorUnique(q, q');
      assert r == (bits + r)[|bits|..] == (bits + CrcOf(bits))[|bits|..];
    }
  }

  // ----- error detection -----

  lemma FeedLinear(r: seq<bool>, s: seq<bool>, x: bool, y: bool)
    requires |r| == 14 && |s| == 14
    ensures XorBits(Feed(r, x), Feed(s, y)) == Feed(XorBits(r, s), x != y)
  {
  }

  lemma {:induction false} FeedAllLinear(r: seq<bool>, s: seq<bool>, a: seq<bool>, b: seq<bool>)
    requires |r| == 14 && |s| == 14 && |a| == |b|
    ensures XorBits(FeedAll(r, a), FeedAll(s, b)) == FeedAll(XorBits(r, s), XorBits(a, b))
    decreases |a|
  {
    hide Feed;
    if a != [] {
      FeedLinear(r, s, a[0], b[0]);
      FeedAllLinear(Feed(r, a[0]), Feed(s, b[0]), a[1..], b[1..]);
      assert XorBits(a, b)[1..] == XorBits(a[1..], b[1..]);
    }
  }

  /** Only the message itself, left in the top of the register, can cancel up to 14 message bits. */
  lemma {:induction false} Kernel(r: seq<bool>, d: seq<bool>)
    requires |r| == 14 && |d| <= 14
    requires FeedAll(r, d) == Zeros(14)
    ensures r == d + Zeros(14 - |d|)
    decreases |d|
  {
    if d != [] {
      var s := Feed(r, d[0]);
      Kernel(s, d[1..]);
      assert !s[13];
      assert !(r[0] != d[0]);
      forall i | 0 <= i < 14
        ensures r[i] == (d + Zeros(14 - |d|))[i]
      {
        if i > 0 {
          assert s[i - 1] == r[i];
        }
      }
    } else {
      assert r == d + Zeros(14);
    }
  }

  lemma {:induction false} FeedAllInjective(r: seq<bool>, s: seq<bool>, bits: seq<bool>)
    requires |r| == 14 && |s| == 14
    requires FeedAll(r, bits) == FeedAll(s, bits)
    ensures r == s
    decreases |bits|
  {
    if bits != [] {
      FeedAllInjective(Feed(r, bits[0]), Feed(s, bits[0]), bits[1..]);
      var a, b := Feed(r, bits[0]), Feed(s, bits[0]);
      assert a[13] == (r[0] != bits[0]) && b[13] == (s[0] != bits[0]);
      forall i | 0 <= i < 14
        ensures r[i] == s[i]
      {
        if i > 0 {
          assert a[i - 1] == b[i - 1];
        }
      }
    }
  }

  lemma SameCrcSameWindow(pre: seq<bool>, a: seq<bool>, b: seq<bool>, post: seq<bool>)
    requires |a| == |b| <= 14
    requires CrcOf(pre + a + post) == CrcOf(pre + b + post)
    ensures a == b
  {
    hide Feed;
    var z := Zeros(14);
    var r := FeedAll(z, pre);
    FeedAllAppend(z, pre + a, post);
    FeedAllAppend(z, pre + b, post);
    FeedAllAppend(z, pre, a);
    FeedAllAppend(z, pre, b);
    FeedAllInjective(FeedAll(r, a), FeedAll(r, b), post);
    FeedAllLinear(r, r, a, b);
    assert XorBits(FeedAll(r, a), FeedAll(r, b)) == z && XorBits(r, r) == z;
    Kernel(z, XorBits(a, b));
    forall i | 0 <= i < |a|
      ensures a[i] == b[i]
    {
      assert z[i] == XorBits(a, b)[i];
    }
  }

  /** Two messages that differ only inside a window of at most 14 bits have different CRCs. */
  lemma BurstDetected(pre: seq<bool>, a: seq<bool>, b: seq<bool>, post: seq<bool>)
    requires |a| == |b| <= 14 && a != b
    ensures CrcOf(pre + a + post) != CrcOf(pre + b + post)
  {
    if CrcOf(pre + a + post) == CrcOf(pre + b + post) {
      SameCrcSameWindow(pre, a, b, post);
    }
  }

  // ----- the source's 16-bit register -----

  /** Bit k of the register, counted from the top. */
  predicate RegisterBit(w: bv16, k: nat)
    requires k < 14
  {
    if k == 0 then w & 0x2000 != 0 else if k == 1 then w & 0x1000 != 0 else if k == 2 then w & 0x0800 != 0
    else if k == 3 then w & 0x0400 != 0 else if k == 4 then w & 0x0200 != 0 else if k == 5 then w & 0x0100 != 0
    else if k == 6 then w & 0x0080 != 0 else if k == 7 then w & 0x0040 != 0 else if k == 8 then w & 0x0020 != 0
    else if k == 9 then w & 0x0010 != 0 else if k == 10 then w & 0x0008 != 0 else if k == 11 then w & 0x0004 != 0
    else if k == 12 then w & 0x0002 != 0 else w & 0x0001 != 0
  }

  /** The register: the low 14 bits of a word, highest first. */
  function Bits14(w: bv16): (bits: seq<bool>)
    ensures |bits| == 14 && forall k :: 0 <= k < 14 ==> bits[k] == RegisterBit(w, k)
  {
    seq(14, k requires 0 <= k < 14 => RegisterBit(w, k))
  }

  /** One step of the source's loop; what is shifted above bit 13 stays in the word. */
  function Step(w: bv16): bv16 {
    if w & 0x2000 != 0 then (w << 1) ^ 0x2757 else w << 1
  }

  /** The next byte enters the word just below bit 14. */
  function Enter(w: bv16, b: Byte): bv16 {
    w ^ ((b as bv16) << 6)
  }

  lemma StepBit(w: bv16, k: nat)
    requires k < 14
    ensures RegisterBit(Step(w), k) == ((k < 13 && RegisterBit(w, k + 1)) != (RegisterBit(w, 0) && Glow()[k]))
  {
    if k == 0 {} else if k == 1 {} else if k == 2 {} else if k == 3 {} else if k == 4 {} else if k == 5 {}
    else if k == 6 {}
    else if k == 7 {} else if k == 8 {} else if k == 9 {} else if k == 10 {} else if k == 11 {} else if k == 12 {}
    else {}
  }

  lemma StepIsShift(w: bv16)
    ensures Bits14(Step(w)) == Shift(Bits14(w))
  {
    hide Bits14, RegisterBit, Step;
    forall k | 0 <= k < 14
      ensures Bits14(Step(w))[k] == Shift(Bits14(w))[k]
    {
      StepBit(w, k);
    }
  }

  lemma EnterBit(w: bv16, b: Byte, k: nat)
    requires k < 14
    ensures RegisterBit(Enter(w, b), k) == (RegisterBit(w, k) != (k < 8 && Tests(b, Mask(k))))
  {
    if k == 0 {} else if k == 1 {} else if k == 2 {} else if k == 3 {} else if k == 4 {} else if k == 5 {}
    else if k == 6 {}
    else if k == 7 {} else if k == 8 {} else if k == 9 {} else if k == 10 {} else if k == 11 {} else if k == 12 {}
    else {}
  }

  lemma EnterBits(w: bv16, b: Byte)
    ensures Bits14(Enter(w, b)) == XorBits(Bits14(w), ByteBits(b) + Zeros(6))
  {
    hide Bits14, RegisterBit, Enter, ByteBits, Tests, Mask;
    forall k | 0 <= k < 14
      ensures Bits14(Enter(w, b))[k] == XorBits(Bits14(w), ByteBits(b) + Zeros(6))[k]
    {
      EnterBit(w, b, k);
      if k < 8 {
        ByteBitsAt(b, k);
      }
    }
  }

  /** The bits of the current byte that have not been fed yet, where the register holds them. */
  function Pending(b: Byte, j: nat): (p: seq<bool>)
    requires j <= 8
    ensures |p| == 14
  {
    ByteBits(b)[j..] + Zeros(6 + j)
  }

  /** Shifting a register that already holds the rest of a byte feeds the byte's next bit. */
  lemma ShiftFeeds(r: seq<bool>, b: Byte, j: nat)
    requires |r| == 14 && j < 8
    ensures Shift(XorBits(r, Pending(b, j))) == XorBits(Feed(r, ByteBits(b)[j]), Pending(b, j + 1))
  {
    hide ByteBits;
  }

  function ZeroWord(): (w: bv16)
    ensures Bits14(w) == Zeros(14)
  {
    0
  }

  /** What the source returns: the word without the junk above bit 13. */
  function LowWord(w: bv16): bv16 {
    w & 0x3FFF
  }

  lemma LowWordBits(w: bv16)
    ensures Bits14(LowWord(w)) == Bits14(w) && LowWord(w) < 0x4000
  {
    forall k | 0 <= k < 14
      ensures RegisterBit(LowWord(w), k) == RegisterBit(w, k)
    {
    }
  }

  lemma EmptyCrc()
    ensures CrcOf([]) == Zeros(14)
  {
  }

  lemma WholeBytePending(b: Byte)
    ensures Pending(b, 0) == ByteBits(b) + Zeros(6)
  {
    hide ByteBits;
  }

  lemma NothingPending(b: Byte)
    ensures Pending(b, 8) == Zeros(14)
  {
    hide ByteBits;
  }

  lemma MessageBit(bytes: seq<Byte>, i: nat)
    requires i < 8 * |bytes|
    ensures BitsOf(bytes)[i] == ByteBits(bytes[i / 8])[i % 8]
  {
    hide BitsOf, ByteBits, Tests;
    BitsOfAt(bytes, i);
    ByteBitsAt(bytes[i / 8], i % 8);
  }

  /** The rest of the byte in progress, when idx bits have been fed. */
  function Unfed(bytes: seq<Byte>, idx: nat): (p: seq<bool>)
    requires idx <= 8 * |bytes|
    ensures |p| == 14
  {
    if idx % 8 == 0 then Zeros(14) else Pending(bytes[idx / 8], idx % 8)
  }

  /** What the word holds before bit idx: the register of the bits fed so far, plus the rest of the
      byte in progress. */
  ghost predicate Holds(bytes: seq<Byte>, idx: nat, w: bv16)
    requires idx <= 8 * |bytes|
  {
    Bits14(w) == XorBits(CrcOf(BitsOf(bytes)[..idx]), Unfed(bytes, idx))
  }

  lemma Iteration(bytes: seq<Byte>, idx: nat, w: bv16)
    requires idx < 8 * |bytes| && Holds(bytes, idx, w)
    ensures Holds(bytes, idx + 1, Step(if idx % 8 == 0 then Enter(w, bytes[idx / 8]) else w))
  {
    hide BitsOf, Bits14, Enter, Step, Feed, Shift, Pending, ByteBits, CrcOf, XorBits, Zeros;
    var b, j := bytes[idx / 8], idx % 8;
    var bits := BitsOf(bytes);
    var r := CrcOf(bits[..idx]);
    var entered := if j == 0 then Enter(w, b) else w;
    assert Bits14(entered) == XorBits(r, Pending(b, j)) by {
      if j == 0 {
        EnterBits(w, b);
        WholeBytePending(b);
        XorZeros(r);
      }
    }
    StepIsShift(entered);
    ShiftFeeds(r, b, j);
    MessageBit(bytes, idx);
    assert bits[..idx + 1] == bits[..idx] + [bits[idx]];
    CrcOfAppend(bits[..idx], bits[idx]);
    if j == 7 {
      NothingPending(b);
    } else {
      assert (idx + 1) / 8 == idx / 8 && (idx + 1) % 8 == j + 1;
    }
  }

  /** The CRC of the first numBits bits of a buffer, a bit at a time over a 16-bit word. */
  method ComputeCrc(message: array<Byte>, numBits: nat) returns (crc: bv16)
    requires numBits <= 8 * message.Length
    ensures Bits14(crc) == XorBits(CrcOf(BitsOf(message[..])[..numBits]), Unfed(message[..], numBits))
    ensures crc < 0x4000
  {
    hide BitsOf, Bits14, Enter, Step, CrcOf, LowWord, XorBits, Zeros, Pending;
    var remainder, idxByte := ZeroWord(), 0;
    EmptyCrc();
    XorZeros(Zeros(14));
    assert BitsOf(message[..])[..0] == [];
    for idxBit := 0 to numBits
      invariant idxByte == (idxBit + 7) / 8
      invariant Holds(message[..], idxBit, remainder)
    {
      Iteration(message[..], idxBit, remainder);
      if idxBit % 8 == 0 {
        remainder := Enter(remainder, message[idxByte]);
        idxByte := idxByte + 1;
      }
      remainder := Step(remainder);
    }
    LowWordBits(remainder);
    crc := LowWord(remainder);
  }

  lemma XorFixes(r: seq<bool>, p: seq<bool>)
    requires |r| == |p|
    ensures XorBits(r, p) == r <==> AllFalse(p)
  {
    var x := XorBits(r, p);
    assert forall i :: 0 <= i < |r| ==> p[i] == (x[i] != r[i]);
  }

  lemma BitOfByte(bytes: seq<Byte>, q: nat, t: nat)
    requires q < |bytes| && t < 8
    ensures BitsOf(bytes)[8 * q + t] == ByteBits(bytes[q])[t]
  {
    hide BitsOf, ByteBits;
    MessageBit(bytes, 8 * q + t);
  }

  lemma RestOfByte(bytes: seq<Byte>, q: nat, j: nat)
    requires q < |bytes| && j < 8
    ensures BitsOf(bytes)[8 * q + j..8 * q + 8] == ByteBits(bytes[q])[j..]
  {
    hide BitsOf, ByteBits;
    var bits, byte := BitsOf(bytes), ByteBits(bytes[q]);
    forall t | j <= t < 8
      ensures bits[8 * q + t] == byte[t]
    {
      BitOfByte(bytes, q, t);
    }
  }

  /** The unfed bits, behind them only zeros. */
  lemma UnfedIsTail(bytes: seq<Byte>, idx: nat, q: nat, j: nat)
    requires idx == 8 * q + j && q < |bytes| && 0 < j < 8
    ensures Unfed(bytes, idx) == BitsOf(bytes)[8 * q + j..8 * q + 8] + Zeros(6 + j)
  {
    hide BitsOf, ByteBits, Zeros;
    assert idx / 8 == q && idx % 8 == j;
    RestOfByte(bytes, q, j);
  }

  /** The result is the CRC of the first numBits bits exactly when the unused bits of the last byte
      are clear: they stay in the register. */
  lemma CrcNeedsClearTail(bytes: seq<Byte>, numBits: nat)
    requires numBits <= 8 * |bytes|
    ensures XorBits(CrcOf(BitsOf(bytes)[..numBits]), Unfed(bytes, numBits)) == CrcOf(BitsOf(bytes)[..numBits])
            <==> numBits % 8 == 0 || AllFalse(BitsOf(bytes)[numBits..numBits + 8 - numBits % 8])
  {
    hide BitsOf, CrcOf, Unfed, XorBits, AllFalse, Zeros;
    XorFixes(CrcOf(BitsOf(bytes)[..numBits]), Unfed(bytes, numBits));
    if numBits % 8 == 0 {
      NothingUnfed(bytes, numBits);
      ZerosAreFalse(14);
    } else {
      UnfedTail(bytes, numBits, numBits / 8, numBits % 8);
    }
  }

  lemma ZerosAreFalse(n: nat)
    ensures AllFalse(Zeros(n))
  {
  }

  lemma UnfedTail(bytes: seq<Byte>, idx: nat, q: nat, j: nat)
    requires idx == 8 * q + j && idx <= 8 * |bytes| && 0 < j < 8
    ensures idx + 8 - j <= 8 * |bytes|
    ensures AllFalse(Unfed(bytes, idx)) <==> AllFalse(BitsOf(bytes)[idx..idx + 8 - j])
  {
    hide BitsOf, Unfed, AllFalse, Zeros;
    UnfedIsTail(bytes, idx, q, j);
    FalseWithZeros(BitsOf(bytes)[8 * q + j..8 * q + 8], 6 + j);
  }

  lemma FalseWithZeros(bits: seq<bool>, n: nat)
    ensures AllFalse(bits + Zeros(n)) <==> AllFalse(bits)
  {
    assert forall i :: 0 <= i < |bits| ==> (bits + Zeros(n))[i] == bits[i];
  }

  lemma NothingUnfed(bytes: seq<Byte>, idx: nat)
    requires idx <= 8 * |bytes| && idx % 8 == 0
    ensures Unfed(bytes, idx) == Zeros(14)
  {
  }

  // ----- the CRC behind a payload -----

  /** The 91 bits that are encoded: the payload's 77 bits and the CRC of those bits extended by
      five zeros. */
  function WithCrc(payload: seq<bool>): (bits: seq<bool>)
    requires |payload| == 77
    ensures |bits| == 91
  {
    payload + CrcOf(payload + Zeros(5))
  }

  /** The three bytes that carry the CRC: its top three bits behind five bits of b, then eight, then
      three. */
  function HighByte(b: Byte, crc: bv16): Byte
    requires crc < 0x4000
  {
    (b & 0xF8) | ((crc >> 11) as Byte)
  }

  function MiddleByte(crc: bv16): Byte {
    ((crc >> 3) & 0xFF) as Byte
  }

  function LowByte(crc: bv16): Byte {
    ((crc << 5) & 0xFF) as Byte
  }

  lemma CrcByteBit(b: Byte, crc: bv16, k: nat)
    requires crc < 0x4000 && k < 8
    ensures Tests(HighByte(b, crc), Mask(k)) == if k < 5 then Tests(b, Mask(k)) else RegisterBit(crc, k - 5)
    ensures Tests(MiddleByte(crc), Mask(k)) == RegisterBit(crc, k + 3)
    ensures Tests(LowByte(crc), Mask(k)) == (k < 3 && RegisterBit(crc, k + 11))
  {
    if k == 0 {} else if k == 1 {} else if k == 2 {} else if k == 3 {} else if k == 4 {} else if k == 5 {}
    else if k == 6 {} else {}
  }

  lemma CrcBytes(b: Byte, crc: bv16)
    requires crc < 0x4000
    ensures ByteBits(HighByte(b, crc)) + ByteBits(MiddleByte(crc)) + ByteBits(LowByte(crc))
            == ByteBits(b)[..5] + Bits14(crc) + Zeros(5)
  {
    hide ByteBits, HighByte, MiddleByte, LowByte, Mask, RegisterBit, Bits14, Tests;
    var high, middle, low := ByteBits(HighByte(b, crc)), ByteBits(MiddleByte(crc)), ByteBits(LowByte(crc));
    forall k | 0 <= k < 8
      ensures high[k] == if k < 5 then ByteBits(b)[k] else Bits14(crc)[k - 5]
      ensures middle[k] == Bits14(crc)[k + 3]
      ensures low[k] == (k < 3 && Bits14(crc)[k + 11])
    {
      CrcByteBit(b, crc, k);
      ByteBitsAt(b, k);
      ByteBitsAt(HighByte(b, crc), k);
      ByteBitsAt(MiddleByte(crc), k);
      ByteBitsAt(LowByte(crc), k);
    }
  }

  /** The CRC that a decoded buffer carries behind its payload. */
  function ExtractCrc(a9: Byte, a10: Byte, a11: Byte): bv16 {
    (((a9 & 0x07) as bv16) << 11) | ((a10 as bv16) << 3) | ((a11 >> 5) as bv16)
  }

  lemma ExtractedBit(a9: Byte, a10: Byte, a11: Byte, k: nat)
    requires k < 14
    ensures RegisterBit(ExtractCrc(a9, a10, a11), k) ==
            if k < 3 then Tests(a9, Mask(k + 5)) else if k < 11 then Tests(a10, Mask(k - 3))
            else Tests(a11, Mask(k - 11))
  {
    if k == 0 {} else if k == 1 {} else if k == 2 {} else if k == 3 {} else if k == 4 {} else if k == 5 {}
    else if k == 6 {}
    else if k == 7 {} else if k == 8 {} else if k == 9 {} else if k == 10 {} else if k == 11 {} else if k == 12 {}
    else {}
  }

  /** Extraction reads back the 14 bits from place 77 on. */
  lemma ExtractedBits(a91: seq<Byte>)
    requires |a91| == 12
    ensures Bits14(ExtractCrc(a91[9], a91[10], a91[11])) == BitsOf(a91)[77..91]
    ensures ExtractCrc(a91[9], a91[10], a91[11]) < 0x4000
  {
    ExtractSmall(a91[9], a91[10], a91[11]);
    hide BitsOf, ByteBits, ExtractCrc, RegisterBit, Tests, Mask;
    var bits, crc := BitsOf(a91), ExtractCrc(a91[9], a91[10], a91[11]);
    forall k | 0 <= k < 14
      ensures Bits14(crc)[k] == bits[77 + k]
    {
      ExtractedBit(a91[9], a91[10], a91[11], k);
      var q := if k < 3 then 9 else if k < 11 then 10 else 11;
      var t := if k < 3 then k + 5 else if k < 11 then k - 3 else k - 11;
      BitOfByte(a91, q, t);
      ByteBitsAt(a91[q], t);
    }
  }

  lemma ExtractSmall(a9: Byte, a10: Byte, a11: Byte)
    ensures ExtractCrc(a9, a10, a11) < 0x4000
  {
  }

  /** Two registers below 2^14 with the same bits are equal. */
  lemma Bits14Injective(a: bv16, b: bv16)
    requires a < 0x4000 && b < 0x4000 && Bits14(a) == Bits14(b)
    ensures a == b
  {
    hide RegisterBit, Bits14;
    assert forall k :: 0 <= k < 14 ==> Bits14(a)[k] == RegisterBit(a, k) && Bits14(b)[k] == RegisterBit(b, k);
    assert RegisterBit(a, 0) == RegisterBit(b, 0) && RegisterBit(a, 1) == RegisterBit(b, 1);
    assert RegisterBit(a, 2) == RegisterBit(b, 2) && RegisterBit(a, 3) == RegisterBit(b, 3);
    assert RegisterBit(a, 4) == RegisterBit(b, 4) && RegisterBit(a, 5) == RegisterBit(b, 5);
    assert RegisterBit(a, 6) == RegisterBit(b, 6) && RegisterBit(a, 7) == RegisterBit(b, 7);
    assert RegisterBit(a, 8) == RegisterBit(b, 8) && RegisterBit(a, 9) == RegisterBit(b, 9);
    assert RegisterBit(a, 10) == RegisterBit(b, 10) && RegisterBit(a, 11) == RegisterBit(b, 11);
    assert RegisterBit(a, 12) == RegisterBit(b, 12) && RegisterBit(a, 13) == RegisterBit(b, 13);
    SameBits(a, b);
  }

  lemma SameBits(a: bv16, b: bv16)
    requires a < 0x4000 && b < 0x4000
    requires RegisterBit(a, 0) == RegisterBit(b, 0) && RegisterBit(a, 1) == RegisterBit(b, 1)
    requires RegisterBit(a, 2) == RegisterBit(b, 2) && RegisterBit(a, 3) == RegisterBit(b, 3)
    requires RegisterBit(a, 4) == RegisterBit(b, 4) && RegisterBit(a, 5) == RegisterBit(b, 5)
    requires RegisterBit(a, 6) == RegisterBit(b, 6) && RegisterBit(a, 7) == RegisterBit(b, 7)
    requires RegisterBit(a, 8) == RegisterBit(b, 8) && RegisterBit(a, 9) == RegisterBit(b, 9)
    requires RegisterBit(a, 10) == RegisterBit(b, 10) && RegisterBit(a, 11) == RegisterBit(b, 11)
    requires RegisterBit(a, 12) == RegisterBit(b, 12) && RegisterBit(a, 13) == RegisterBit(b, 13)
    ensures a == b
  {
  }

  /** b & 0xF8. */
  function ClearSpare(b: Byte): Byte {
    b & 0xF8
  }

  lemma ClearSpareBits(b: Byte)
    ensures ByteBits(ClearSpare(b)) == ByteBits(b)[..5] + Zeros(3)
  {
  }

  lemma {:induction false} SplitAt(bytes: seq<Byte>, n: nat)
    requires n < |bytes|
    ensures BitsOf(bytes) == BitsOf(bytes[..n]) + ByteBits(bytes[n]) + BitsOf(bytes[n + 1..])
  {
    hide ByteBits;
    BitsOfAppend(bytes[..n], bytes[n..]);
    assert bytes == bytes[..n] + bytes[n..] && bytes[n..][0] == bytes[n] && bytes[n..][1..] == bytes[n + 1..];
    assert BitsOf(bytes[n..]) == ByteBits(bytes[n]) + BitsOf(bytes[n + 1..]);
  }

  lemma PayloadBits(payload: seq<Byte>)
    requires |payload| == 10
    ensures BitsOf(payload)[..77] == BitsOf(payload[..9]) + ByteBits(payload[9])[..5]
  {
    hide ByteBits;
    SplitAt(payload, 9);
  }

  lemma BufferBits(a91: seq<Byte>)
    requires |a91| == 12
    ensures BitsOf(a91) == BitsOf(a91[..9]) + (ByteBits(a91[9]) + ByteBits(a91[10]) + ByteBits(a91[11]))
  {
    hide ByteBits, BitsOf;
    SplitAt(a91, 9);
    NextByte(a91, 10);
    NextByte(a91, 11);
    NoBits(a91[12..]);
    assert ByteBits(a91[11]) + [] == ByteBits(a91[11]);
  }

  lemma NextByte(bytes: seq<Byte>, i: nat)
    requires i < |bytes|
    ensures BitsOf(bytes[i..]) == ByteBits(bytes[i]) + BitsOf(bytes[i + 1..])
  {
    hide ByteBits;
    assert bytes[i..][0] == bytes[i] && bytes[i..][1..] == bytes[i + 1..];
  }

  lemma NoBits(bytes: seq<Byte>)
    requires bytes == []
    ensures BitsOf(bytes) == []
  {
  }

  lemma ZeroByteBits()
    ensures ByteBits(0) == Zeros(8)
  {
  }

  /** What the CRC is computed over: the payload's 77 bits and then zeros to the end of byte 10. */
  lemma CrcInput(payload: seq<Byte>, a91: seq<Byte>)
    requires |payload| == 10 && |a91| == 12
    requires a91[..9] == payload[..9] && a91[9] == ClearSpare(payload[9]) && a91[10] == 0
    ensures BitsOf(a91)[..82] == BitsOf(payload)[..77] + Zeros(5)
    ensures AllFalse(BitsOf(a91)[82..88])
  {
    hide ByteBits, BitsOf, ClearSpare;
    PayloadBits(payload);
    BufferBits(a91);
    ClearSpareBits(payload[9]);
    ZeroByteBits();
    var head, b := BitsOf(payload[..9]), ByteBits(payload[9])[..5];
    assert BitsOf(a91) == head + b + Zeros(3) + Zeros(8) + ByteBits(a91[11]);
  }

  lemma CrcOutput(payload: seq<Byte>, a91: seq<Byte>, crc: bv16)
    requires |payload| == 10 && |a91| == 12 && crc < 0x4000
    requires a91[..9] == payload[..9] && a91[9] == HighByte(ClearSpare(payload[9]), crc)
    requires a91[10] == MiddleByte(crc) && a91[11] == LowByte(crc)
    ensures BitsOf(a91) == BitsOf(payload)[..77] + Bits14(crc) + Zeros(5)
  {
    hide ByteBits, BitsOf, ClearSpare, HighByte, MiddleByte, LowByte, Bits14;
    PayloadBits(payload);
    BufferBits(a91);
    ClearSpareBits(payload[9]);
    CrcBytes(ClearSpare(payload[9]), crc);
    assert (ByteBits(payload[9])[..5] + Zeros(3))[..5] == ByteBits(payload[9])[..5];
  }

  /** Appends the CRC to a payload of 77 bits in ten bytes; whatever follows the 77 bits is ignored. */
  method AddCrc(payload: array<Byte>, a91: array<Byte>)
    requires payload.Length == 10 && a91.Length == 12 && payload != a91
    modifies a91
    ensures BitsOf(a91[..]) == WithCrc(BitsOf(payload[..])[..77]) + Zeros(5)
  {
    hide BitsOf, ClearSpare, HighByte, MiddleByte, LowByte, CrcOf, XorBits, Unfed, Bits14;
    for i := 0 to 10
      invariant forall k :: 0 <= k < i ==> a91[k] == payload[k]
    {
      a91[i] := payload[i];
    }
    a91[9] := ClearSpare(a91[9]);
    a91[10] := 0;
    assert a91[..9] == payload[..9];
    CrcInput(payload[..], a91[..]);
    CrcNeedsClearTail(a91[..], 82);
    var checksum := ComputeCrc(a91, 82);
    a91[9] := HighByte(a91[9], checksum);
    a91[10] := MiddleByte(checksum);
    a91[11] := LowByte(checksum);
    assert a91[..9] == payload[..9];
    CrcOutput(payload[..], a91[..], checksum);
  }
}
