/** The hash that recognises stations already worked. */
module CallIds {

  const WORD := 0x1_0000_0000

  /** What one character adds to the hash; it may be negative for characters below '0'. */
  function Digit(c: char): int {
    (c as int - '0' as int) + if c >= 'A' then '0' as int + 10 - 'A' as int else 0
  }

  /** The hash of the first characters of a call, at most six. */
  function Fold(call: string, count: nat): (hash: nat)
    requires count <= |call|
    ensures hash < WORD
  {
    if count == 0 then 0 else (Fold(call, count - 1) * 36 + Digit(call[count - 1])) % WORD
  }

  /** The low seven bits of the character at i; past the end there is the terminating zero. */
  function LowBits(call: string, i: nat): bv32 {
    if i < |call| then (call[i] as int % 128) as bv32 else 0
  }

  function SetTop(hash: nat): bv32
    requires hash < WORD
  {
    hash as bv32 | 0x8000_0000
  }

  function MixLow(word: bv32, low: bv32): bv32 {
    word ^ low
  }

  function MixHigh(word: bv32, low: bv32): bv32 {
    word ^ (low << 7)
  }

  function AsNat(word: bv32): (n: nat)
    ensures n < WORD
  {
    word as nat
  }

  function HashCallId(call: string): (hash: nat)
    ensures hash < WORD
  {
    if |call| <= 6 then Fold(call, |call|)
    else AsNat(MixHigh(MixLow(SetTop(Fold(call, 6)), LowBits(call, 6)), LowBits(call, 7)))
  }

  method ComputeHashCallId(call: string) returns (hash: nat)
    ensures hash == HashCallId(call)
  {
    hide LowBits, SetTop, MixLow, MixHigh, AsNat, Digit;
    hash := 0;
    var i, at := 6, 0;
    while at < |call| && i > 0
      invariant at <= |call| && i + at == 6 && hash == Fold(call, at)
      decreases i
    {
      hash := (hash * 36) % WORD;
      hash := (hash + (call[at] as int - '0' as int)) % WORD;
      if call[at] >= 'A' {
        hash := (hash + ('0' as int + 10 - 'A' as int)) % WORD;
      }
      WrapsOnce(Fold(call, at), call[at], hash);
      i, at := i - 1, at + 1;
    }
    if at < |call| {
      var word := SetTop(hash);
      word := MixLow(word, LowBits(call, at));
      at := at + 1;
      word := MixHigh(word, LowBits(call, at));
      hash := AsNat(word);
    }
  }

  /** Wrapping after every step is the same as wrapping once. */
  lemma WrapsOnce(before: nat, c: char, after: nat)
    requires after == (if c >= 'A' then ((before * 36 % WORD + (c as int - '0' as int)) % WORD
                                         + ('0' as int + 10 - 'A' as int)) % WORD
                       else (before * 36 % WORD + (c as int - '0' as int)) % WORD)
    ensures after == (before * 36 + Digit(c)) % WORD
  {
    var d, e := c as int - '0' as int, '0' as int + 10 - 'A' as int;
    ModAbsorb(before * 36, d);
    if c >= 'A' {
      ModAbsorb(before * 36 + d, e);
    }
  }

  lemma ModAbsorb(a: int, x: int)
    ensures (a % WORD + x) % WORD == (a + x) % WORD
  {
    var q, r := a / WORD, a % WORD;
    var k, t := (r + x) / WORD, (r + x) % WORD;
    assert a + x == (q + k) * WORD + t;
  }

  // ----- where the hash is injective -----

  predicate UpperAlnum(c: char) {
    'A' <= c <= 'Z' || '0' <= c <= '9'
  }

  /** A call of up to six capital letters and digits. */
  predicate ShortCall(call: string) {
    |call| <= 6 && forall i :: 0 <= i < |call| ==> UpperAlnum(call[i])
  }

  /** The call with zeros in front, six characters long. */
  function Padded(call: string): string
    requires |call| <= 6
  {
    seq(6 - |call|, i => '0') + call
  }

  function Rank(c: char): (r: nat)
    requires UpperAlnum(c)
    ensures r < 36 && r == Digit(c)
  {
    Digit(c)
  }

  lemma RankInjective(c: char, d: char)
    requires UpperAlnum(c) && UpperAlnum(d) && Rank(c) == Rank(d)
    ensures c == d
  {
  }

  lemma LastDigit(a: nat, r: nat, b: nat, q: nat)
    requires r < 36 && q < 36 && a * 36 + r == b * 36 + q
    ensures a == b && r == q
  {
  }

  function Value(s: string): nat
    requires forall i :: 0 <= i < |s| ==> UpperAlnum(s[i])
  {
    if s == "" then 0 else Value(s[..|s| - 1]) * 36 + Rank(s[|s| - 1])
  }

  function Power36(n: nat): nat {
    if n == 0 then 1 else 36 * Power36(n - 1)
  }

  lemma {:induction false} ValueBound(s: string)
    requires forall i :: 0 <= i < |s| ==> UpperAlnum(s[i])
    ensures Value(s) < Power36(|s|)
  {
    if s != "" {
      ValueBound(s[..|s| - 1]);
    }
  }

  lemma {:induction false} FoldIsValue(call: string, count: nat)
    requires ShortCall(call) && count <= |call|
    ensures Fold(call, count) == Value(call[..count])
  {
    if count > 0 {
      FoldIsValue(call, count - 1);
      assert call[..count][..count - 1] == call[..count - 1];
      ValueBound(call[..count]);
      assert Power36(6) == 2176782336;
      PowerGrows(count);
    }
  }

  lemma {:induction false} PowerGrows(n: nat)
    requires n <= 6
    ensures Power36(n) <= Power36(6)
    decreases 6 - n
  {
    if n < 6 {
      PowerGrows(n + 1);
    }
  }

  lemma {:induction false} ValueInjective(s: string, t: string)
    requires |s| == |t|
    requires forall i :: 0 <= i < |s| ==> UpperAlnum(s[i])
    requires forall i :: 0 <= i < |t| ==> UpperAlnum(t[i])
    requires Value(s) == Value(t)
    ensures s == t
  {
    if s != "" {
      hide Rank, Digit;
      var n := |s| - 1;
      LastDigit(Value(s[..n]), Rank(s[n]), Value(t[..n]), Rank(t[n]));
      RankInjective(s[n], t[n]);
      ValueInjective(s[..n], t[..n]);
      assert s == s[..n] + [s[n]] && t == t[..n] + [t[n]];
    }
  }

  lemma {:induction false} ZerosAddNothing(n: nat, call: string)
    requires forall i :: 0 <= i < |call| ==> UpperAlnum(call[i])
    ensures var p := seq(n, i => '0') + call;
            (forall i :: 0 <= i < |p| ==> UpperAlnum(p[i])) && Value(p) == Value(call)
    decreases n + |call|
  {
    var p := seq(n, i => '0') + call;
    if call != "" {
      var k := |call| - 1;
      ZerosAddNothing(n, call[..k]);
      assert p[..|p| - 1] == seq(n, i => '0') + call[..k];
    } else if n > 0 {
      ZerosAddNothing(n - 1, call);
      assert p[..n - 1] == seq(n - 1, i => '0') + call;
    }
  }

  /** Two short calls share a hash exactly when they are the same up to leading zeros. */
  lemma ShortCallsCollide(a: string, b: string)
    requires ShortCall(a) && ShortCall(b)
    ensures HashCallId(a) == HashCallId(b) <==> Padded(a) == Padded(b)
  {
    hide LowBits, SetTop, MixLow, MixHigh, AsNat, Fold, Value;
    FoldIsValue(a, |a|);
    FoldIsValue(b, |b|);
    assert a[..|a|] == a && b[..|b|] == b;
    ZerosAddNothing(6 - |a|, a);
    ZerosAddNothing(6 - |b|, b);
    if HashCallId(a) == HashCallId(b) {
      ValueInjective(Padded(a), Padded(b));
    }
  }

  /** Short calls of one length never share a hash. */
  lemma EqualLengthInjective(a: string, b: string)
    requires ShortCall(a) && ShortCall(b) && |a| == |b| && HashCallId(a) == HashCallId(b)
    ensures a == b
  {
    ShortCallsCollide(a, b);
    var k := 6 - |a|;
    assert a == Padded(a)[k..] && b == Padded(b)[k..];
  }

  lemma LowBitsBound(call: string, i: nat)
    ensures LowBits(call, i) < 128
  {
  }

  lemma MixInjective(x: bv32, a: bv32, b: bv32, c: bv32, d: bv32)
    requires a < 128 && b < 128 && c < 128 && d < 128
    requires MixHigh(MixLow(x, a), b) == MixHigh(MixLow(x, c), d)
    ensures a == c && b == d
  {
  }

  lemma AsNatInjective(x: bv32, y: bv32)
    requires AsNat(x) == AsNat(y)
    ensures x == y
  {
    assert AsNat(x) as bv32 == x && AsNat(y) as bv32 == y;
  }

  lemma {:induction false} FoldOfPrefix(a: string, b: string, n: nat)
    requires n <= |a| && n <= |b| && a[..n] == b[..n]
    ensures Fold(a, n) == Fold(b, n)
  {
    hide Digit;
    if n > 0 {
      assert a[..n][..n - 1] == a[..n - 1] && b[..n][..n - 1] == b[..n - 1];
      assert a[..n][n - 1] == b[..n][n - 1];
      FoldOfPrefix(a, b, n - 1);
    }
  }

  /** Calls of more than six characters with the same first six share a hash exactly when their seventh and eighth
      characters agree in the low seven bits; nothing behind those counts. */
  lemma LongCallsCollide(a: string, b: string)
    requires |a| > 6 && |b| > 6 && a[..6] == b[..6]
    ensures HashCallId(a) == HashCallId(b) <==> LowBits(a, 6) == LowBits(b, 6) && LowBits(a, 7) == LowBits(b, 7)
  {
    hide LowBits, SetTop, MixLow, MixHigh, AsNat, Fold;
    FoldOfPrefix(a, b, 6);
    LowBitsBound(a, 6); LowBitsBound(a, 7); LowBitsBound(b, 6); LowBitsBound(b, 7);
    var x, a6, a7, b6, b7 := SetTop(Fold(a, 6)), LowBits(a, 6), LowBits(a, 7), LowBits(b, 6), LowBits(b, 7);
    if HashCallId(a) == HashCallId(b) {
      AsNatInjective(MixHigh(MixLow(x, a6), a7), MixHigh(MixLow(x, b6), b7));
      MixInjective(x, a6, a7, b6, b7);
    }
  }

  lemma TopIsSet(x: bv32, hash: nat, a: bv32, b: bv32)
    requires hash < WORD && x == SetTop(hash) && a < 128 && b < 128
    ensures MixHigh(MixLow(x, a), b) >= 0x8000_0000
  {
    hide AsNat;
    var h := hash as bv32;
    assert x == h | 0x8000_0000;
    assert ((h | 0x8000_0000) ^ a ^ (b << 7)) >= 0x8000_0000;
  }

  /** A call longer than six has the top bit in its hash, so it is never taken for one of up to five characters. */
  lemma LongNeverShort(a: string, b: string)
    requires |a| > 6
    ensures HashCallId(a) >= 0x8000_0000
    ensures ShortCall(b) && |b| <= 5 ==> HashCallId(b) < 0x8000_0000
  {
    hide LowBits, SetTop, MixLow, MixHigh, AsNat, Fold, Value;
    LowBitsBound(a, 6);
    LowBitsBound(a, 7);
    var x := SetTop(Fold(a, 6));
    TopIsSet(x, Fold(a, 6), LowBits(a, 6), LowBits(a, 7));
    AsNatKeepsOrder(MixHigh(MixLow(x, LowBits(a, 6)), LowBits(a, 7)));
    if ShortCall(b) && |b| <= 5 {
      FoldIsValue(b, |b|);
      assert b[..|b|] == b;
      ValueBound(b);
      PowerUpTo5(|b|);
    }
  }

  lemma AsNatKeepsOrder(x: bv32)
    requires x >= 0x8000_0000
    ensures AsNat(x) >= 0x8000_0000
  {
  }

  lemma PowerUpTo5(n: nat)
    requires n <= 5
    ensures Power36(n) <= 60466176
  {
    assert Power36(5) == 60466176;
    if n <= 2 {
    } else if n == 3 {
    } else if n == 4 {
    }
  }
}
