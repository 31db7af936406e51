/** Free-text messages: thirteen characters as one base-42 number in the first 71 bits of the payload. */
module FreeText {
  import opened Arithmetic
  import opened Words
  import opened Texts

  const WIDTH := 13

  /** The index a character is sent as; an unknown one is sent as a space. */
  function Index(c: char): (n: nat)
    ensures n < 42
  {
    CharnOfNchar(c, FULL);
    if Nchar(c, FULL) < 0 then 0 else Nchar(c, FULL)
  }

  /** The thirteen characters sent: the last ones, in capitals, with spaces in front. */
  function Field(text: string): (field: string)
    ensures |field| == WIDTH
  {
    var start := if |text| > WIDTH then |text| - WIDTH else 0;
    var pad := if |text| < WIDTH then WIDTH - |text| else 0;
    seq(WIDTH, i requires 0 <= i < WIDTH => if i < pad then ' ' else ToUpper(text[start + i - pad]))
  }

  /** A character as it arrives: unknown ones have become spaces. */
  function Sent(c: char): char {
    Charn(Index(c), FULL)
  }

  /** A character of the alphabet arrives as it is, any other as a space. */
  lemma SentIs(c: char)
    ensures Sent(c) == if c in Alphabet(FULL) then c else ' '
  {
    hide Nchar, Charn, Alphabet;
    TableIsAlphabet(FULL, 0, c);
    CharnOfNchar(c, FULL);
    assert Charn(0, FULL) == ' ' by { FirstIsSpace(); }
  }

  lemma FirstIsSpace()
    ensures Charn(0, FULL) == ' '
  {
  }

  function SentAll(s: string): (r: string)
    ensures |r| == |s|
  {
    seq(|s|, i requires 0 <= i < |s| => Sent(s[i]))
  }

  /** The base-42 number the characters spell. */
  function Number(s: string): nat {
    if s == "" then 0 else Number(s[..|s| - 1]) * 42 + Index(s[|s| - 1])
  }

  function Pow42(n: nat): (p: nat)
    ensures p > 0
  {
    if n == 0 then 1 else 42 * Pow42(n - 1)
  }

  lemma {:induction false} NumberBound(s: string)
    ensures Number(s) < Pow42(|s|)
  {
    if s != "" {
      NumberBound(s[..|s| - 1]);
    }
  }

  /** Thirteen characters fit into 71 bits. */
  lemma FitsInto71Bits()
    ensures 2 * Pow42(WIDTH) < Pow256(9)
  {
    assert Pow42(4) == 3111696;
    assert Pow42(8) == 9682651996416;
    assert Pow42(12) == 30129469486639681536;
    assert Pow42(13) == 1265437718438866624512;
    assert Pow256(3) == 16777216;
    assert Pow256(6) == 281474976710656;
    assert Pow256(9) == 4722366482869645213696;
  }

  /** The low n characters of a number. */
  function Chars(v: nat, n: nat): (s: string)
    ensures |s| == n
  {
    if n == 0 then "" else Chars(v / 42, n - 1) + [Charn(v % 42, FULL)]
  }

  /** The characters come back from the number, unknown ones as spaces. */
  lemma {:induction false} CharsOfNumber(s: string)
    ensures Chars(Number(s), |s|) == SentAll(s)
  {
    if s != "" {
      var t := s[..|s| - 1];
      CharsOfNumber(t);
      var v := Number(s);
      assert v / 42 == Number(t) && v % 42 == Index(s[|s| - 1]);
      assert SentAll(s) == SentAll(t) + [Sent(s[|s| - 1])];
    }
  }

  // ----- the accumulator -----

  /** Carries a multiplication by 42 through one byte. */
  lemma MultiplyStep(b: nat, carry: nat, p: nat, v: nat, b': nat, carry': nat)
    requires b < 256 && v == b * 42 + carry && b' == v % 256 && carry' == v / 256
    ensures carry' * (256 * p) + b' * p == b * p * 42 + carry * p
  {
    assert v == carry' * 256 + b';
    assert v * p == (carry' * 256 + b') * p == carry' * (256 * p) + b' * p;
    assert v * p == b * p * 42 + carry * p;
  }

  /** What stays in a byte, and what is carried on. */
  function Low(v: nat): nat {
    v % 256
  }

  function High(v: nat): nat {
    v / 256
  }

  /** Byte i multiplied: the bytes from i on are 42 times what they were, plus n, up to the carry. */
  lemma MultiplyOn(s: seq<nat>, t: seq<nat>, i: nat, n: nat, carry: nat, t': seq<nat>, v: nat)
    requires i < |s| == |t| && Bytes(s) && carry < 42 && Multiplied(s, t, i, n, carry)
    requires v == s[i] * 42 + carry && t' == t[i := Low(v)]
    ensures High(v) < 42 && t'[i] < 256
    ensures Multiplied(s, t', i - 1, n, High(v))
  {
    hide Value, Pow256;
    MultiplyStep(s[i], carry, Pow256(|s| - 1 - i), v, v % 256, v / 256);
    Prepend(s, i);
    Prepend(t', i);
    assert t'[i + 1..] == t[i + 1..];
    Pow256Next(|s| - 1 - i);
  }

  /** b71 := b71 * 42 + n over big-endian bytes. */
  method MultiplyAdd(b71: array<nat>, n: nat)
    requires Bytes(b71[..]) && n < 42 && b71.Length == 9
    requires Value(b71[..]) * 42 + n < Pow256(9)
    modifies b71
    ensures Bytes(b71[..]) && Value(b71[..]) == old(Value(b71[..])) * 42 + n
  {
    hide Value, Pow256, Low, High, Multiplied;
    ghost var s := b71[..];
    var carry: nat := n;
    var i := 8;
    MultiplyStart(s, n);
    while i >= 0
      invariant -1 <= i <= 8 && carry < 42
      invariant forall k :: 0 <= k < 9 ==> b71[k] < 256 && (k <= i ==> b71[k] == s[k])
      invariant Multiplied(s, b71[..], i, n, carry)
    {
      ghost var t, c := b71[..], carry;
      var v := b71[i] * 42 + carry;
      b71[i] := Low(v);
      carry := High(v);
      MultiplyOn(s, t, i, n, c, b71[..], v);
      i := i - 1;
    }
    MultiplyEnds(s, b71[..], n, carry);
  }

  /** The bytes behind i are 42 times what they were, plus n, up to the carry. */
  ghost predicate Multiplied(s: seq<nat>, t: seq<nat>, i: int, n: nat, carry: nat) {
    -1 <= i < |s| == |t| && carry * Pow256(|s| - 1 - i) + Value(t[i + 1..]) == Value(s[i + 1..]) * 42 + n
  }

  lemma MultiplyEnds(s: seq<nat>, t: seq<nat>, n: nat, carry: nat)
    requires |s| == 9 && Bytes(t) && Multiplied(s, t, -1, n, carry) && Value(s) * 42 + n < Pow256(9)
    ensures Value(t) == Value(s) * 42 + n
  {
    hide Value, Pow256;
    assert t[0..] == t && s[0..] == s;
    ValueBound(t);
    NoCarry(carry, Pow256(9), Value(t), Value(s) * 42 + n);
  }

  lemma MultiplyStart(s: seq<nat>, n: nat)
    requires |s| == 9
    ensures Multiplied(s, s, 8, n, n)
  {
    assert s[9..] == [];
    assert n * 1 == n;
  }

  lemma EmptyValue()
    ensures Value([]) == 0 && Pow256(0) == 1
  {
  }

  lemma Pow256Next(n: nat)
    ensures Pow256(n + 1) == 256 * Pow256(n)
  {
  }

  /** A byte in front counts for its place. */
  lemma Prepend(s: seq<nat>, i: nat)
    requires i < |s|
    ensures Value(s[i..]) == s[i] * Pow256(|s| - i - 1) + Value(s[i + 1..])
  {
    assert s[i..] == [s[i]] + s[i + 1..];
    ValueConcat([s[i]], s[i + 1..]);
    SingleValue(s[i]);
  }

  lemma SingleValue(b: nat)
    ensures Value([b]) == b
  {
    EmptyValue();
    assert [b][..0] == [];
  }

  lemma NoCarry(carry: nat, p: nat, v: nat, total: nat)
    requires carry * p + v == total && total < p
    ensures carry == 0 && v == total
  {
    assert (1 - carry) * p == p - carry * p;
    PositiveFactor(1 - carry, p);
  }

  /** Divides the big-endian bytes by 42 and returns the remainder. */
  method DivideBy42(b71: array<nat>) returns (rem: nat)
    requires Bytes(b71[..]) && b71.Length == 9
    modifies b71
    ensures Bytes(b71[..])
    ensures Value(b71[..]) == old(Value(b71[..])) / 42 && rem == old(Value(b71[..])) % 42
  {
    hide Value;
    ghost var s := b71[..];
    rem := 0;
    var i := 0;
    assert s[..0] == [] && b71[..0] == [];
    EmptyValue();
    while i < 9
      invariant 0 <= i <= 9 && Bytes(b71[..]) && rem < 42
      invariant b71[i..] == s[i..]
      invariant Value(b71[..i]) * 42 + rem == Value(s[..i])
    {
      ghost var t, r := b71[..], rem;
      rem := Or(rem * 256, b71[i]);
      OrByte(r, s[i]);
      b71[i] := rem / 42;
      rem := rem % 42;
      Append(s, i);
      Append(b71[..], i);
      assert b71[..i] == t[..i];
      assert b71[..][..i] == t[..i];
      assert b71[..][..i + 1] == b71[..i + 1];
      i := i + 1;
    }
    assert b71[..9] == b71[..] && s[..9] == s;
    Quotient42(Value(b71[..]), rem, Value(s));
  }

  lemma Quotient42(q: nat, r: nat, v: nat)
    requires q * 42 + r == v && r < 42
    ensures v / 42 == q && v % 42 == r
  {
  }

  lemma OrByte(a: nat, b: nat)
    requires b < 256
    ensures Or(a * 256, b) == a * 256 + b
  {
    assert Pow2(8) == 256;
    OrAdds(a, b, 8);
  }

  lemma Append(s: seq<nat>, i: nat)
    requires i < |s|
    ensures Value(s[..i + 1]) == Value(s[..i]) * 256 + s[i]
  {
    assert s[..i + 1][..i] == s[..i];
  }

  // ----- shifting by one bit -----

  /** What a byte becomes when it is shifted left by one bit, and the bit that falls out. */
  function ShiftedLeft(b: nat, carry: nat): nat {
    Or(b * 2 % 256, carry)
  }

  function TopBit(b: nat): nat {
    b / 128 % 2
  }

  /** Byte i shifted: the bytes from i on have doubled, up to the bit that falls out. */
  lemma ShiftStep(s: seq<nat>, t: seq<nat>, i: nat, carry: nat, t': seq<nat>, carry': nat)
    requires i < |s| == |t| && Bytes(s) && carry < 2
    requires carry * Pow256(|s| - 1 - i) + Value(t[i + 1..]) == 2 * Value(s[i + 1..])
    requires t' == t[i := ShiftedLeft(s[i], carry)] && carry' == TopBit(s[i])
    ensures t'[i] < 256 && carry' < 2
    ensures carry' * Pow256(|s| - i) + Value(t'[i..]) == 2 * Value(s[i..])
  {
    hide Value, Pow256, Or;
    ShiftByte(s[i], carry);
    Prepend(s, i);
    Prepend(t', i);
    assert t'[i + 1..] == t[i + 1..];
    ShiftPlace(s[i], carry, Pow256(|s| - 1 - i), t'[i], carry');
    Pow256Next(|s| - 1 - i);
  }

  /** Shifts the 72 bits of b71 left by one into the payload; the last byte takes the bit that falls out. */
  method ShiftIn(b71: array<nat>, payload: array<nat>)
    requires Bytes(b71[..]) && b71.Length == 9 && payload.Length == 10 && b71 != payload
    requires 2 * Value(b71[..]) < Pow256(9)
    modifies payload
    ensures Bytes(payload[..]) && Value(payload[..9]) == 2 * Value(b71[..]) && payload[9] == 0
  {
    hide Value, Pow256, ShiftedLeft, TopBit;
    ghost var s := b71[..];
    var carry: nat := 0;
    var i := 8;
    EmptyValue();
    assert s[9..] == [] && payload[..9][9..] == [];
    while i >= 0
      invariant -1 <= i <= 8 && carry < 2 && b71[..] == s
      invariant forall k :: i < k < 9 ==> payload[k] < 256
      invariant carry * Pow256(8 - i) + Value(payload[..9][i + 1..]) == 2 * Value(s[i + 1..])
    {
      ghost var t, c := payload[..9], carry;
      payload[i] := ShiftedLeft(b71[i], carry);
      carry := TopBit(b71[i]);
      ShiftStep(s, t, i, c, payload[..9], carry);
      i := i - 1;
    }
    assert payload[..9][0..] == payload[..9] && s[0..] == s;
    ghost var t := payload[..9];
    ValueBound(t);
    NoCarry(carry, Pow256(9), Value(t), 2 * Value(s));
    payload[9] := carry * 128 % 256;
    assert payload[..9] == t;
  }

  lemma ShiftByte(b: nat, carry: nat)
    requires b < 256 && carry < 2
    ensures ShiftedLeft(b, carry) == b * 2 % 256 + carry
    ensures TopBit(b) == b * 2 / 256
  {
    var q, r := b / 128, b % 128;
    assert b * 2 == q * 256 + 2 * r;
    QuotientUnique(b * 2, 256, q, 2 * r);
    assert Pow2(1) == 2;
    OrAdds(r, carry, 1);
  }

  lemma ShiftPlace(b: nat, carry: nat, p: nat, b': nat, carry': nat)
    requires b < 256 && carry < 2 && b' == b * 2 % 256 + carry && carry' == b * 2 / 256
    ensures carry' * (256 * p) + b' * p == 2 * (b * p) + carry * p
  {
    assert 2 * b + carry == carry' * 256 + b';
    assert (2 * b + carry) * p == (carry' * 256 + b') * p == carry' * (256 * p) + b' * p;
  }

  /** Shifts the payload right by one bit. */
  method DecodeTelemetry(payload: array<nat>, telemetry: array<nat>)
    requires Bytes(payload[..]) && payload.Length == 10 && telemetry.Length == 9 && telemetry != payload
    modifies telemetry
    ensures Bytes(telemetry[..]) && Value(telemetry[..]) == Value(payload[..9]) / 2
  {
    hide Value;
    ghost var s := payload[..9];
    var carry: nat := 0;
    var i := 0;
    EmptyValue();
    assert s[..0] == [] && telemetry[..0] == [];
    while i < 9
      invariant 0 <= i <= 9 && carry < 2 && payload[..9] == s
      invariant forall k :: 0 <= k < i ==> telemetry[k] < 256
      invariant 2 * Value(telemetry[..i]) + carry == Value(s[..i])
    {
      ghost var t, c := telemetry[..i], carry;
      telemetry[i] := Or(carry * 128, payload[i] / 2);
      carry := payload[i] % 2;
      UnshiftByte(c, s[i]);
      Append(s, i);
      Append(telemetry[..], i);
      assert telemetry[..][..i] == t && telemetry[..][..i + 1] == telemetry[..i + 1];
      i := i + 1;
    }
    assert telemetry[..9] == telemetry[..] && s[..9] == s;
  }

  lemma UnshiftByte(carry: nat, b: nat)
    requires carry < 2 && b < 256
    ensures Or(carry * 128, b / 2) == carry * 128 + b / 2
  {
    assert Pow2(7) == 128;
    OrAdds(carry, b / 2, 7);
  }

  // ----- encoding and decoding -----

  /** The ten bytes of a free text: twice its number, then the clear type bits. */
  predicate FreeSent(p: seq<nat>, text: string) {
    |p| == 10 && Bytes(p) && Value(p[..9]) == 2 * Number(Field(text)) && p[9] == 0
  }

  /** The text of a payload's 71 bits. */
  function FreeDecoded(p: seq<nat>): string
    requires |p| == 10
  {
    Trim(Chars(Value(p[..9]) / 2, WIDTH))
  }

  method EncodeFree(payload: array<nat>, text: string)
    requires payload.Length == 10
    modifies payload
    ensures FreeSent(payload[..], text)
  {
    hide Value, Pow42, Pow256, Number, Field;
    var c14 := BuildField(text);
    var b71 := new nat[9](i => 0);
    BuildNumber(c14, Field(text), b71);
    NumberBound(Field(text));
    FitsInto71Bits();
    ShiftIn(b71, payload);
  }

  /** The thirteen characters, right-aligned and in capitals. */
  method BuildField(text: string) returns (c14: array<char>)
    ensures fresh(c14) && c14[..] == Field(text)
  {
    hide ToUpper;
    c14 := new char[WIDTH];
    var len := |text|;
    var start := if len > WIDTH then len - WIDTH else 0;
    var pad := if len < WIDTH then WIDTH - len else 0;
    var i := 0;
    while i < WIDTH
      invariant 0 <= i <= WIDTH
      invariant forall k :: 0 <= k < i ==> c14[k] == Field(text)[k]
    {
      if i < pad {
        c14[i] := ' ';
      } else {
        c14[i] := ToUpper(text[start + i - pad]);
      }
      i := i + 1;
    }
  }

  /** The accumulation over the thirteen characters. */
  method BuildNumber(c14: array<char>, ghost field: string, b71: array<nat>)
    requires c14[..] == field && |field| == WIDTH && b71.Length == 9 && forall i :: 0 <= i < 9 ==> b71[i] == 0
    modifies b71
    ensures Bytes(b71[..]) && Value(b71[..]) == Number(field)
  {
    hide Value, Pow42, Pow256, Nchar, Charn;
    ZeroValue(b71[..]);
    var idx := 0;
    while idx < WIDTH
      invariant 0 <= idx <= WIDTH && c14[..] == field
      invariant Bytes(b71[..]) && Value(b71[..]) == Number(field[..idx])
    {
      var n := Nchar(c14[idx], FULL);
      if n < 0 {
        n := 0;
      }
      assert n == Index(field[idx]);
      assert field[..idx + 1][..idx] == field[..idx];
      NumberBound(field[..idx + 1]);
      Pow42Grows(idx + 1, WIDTH);
      FitsInto71Bits();
      MultiplyAdd(b71, n);
      idx := idx + 1;
    }
    assert field[..WIDTH] == field;
  }

  lemma {:induction false} ZeroValue(s: seq<nat>)
    requires forall i :: 0 <= i < |s| ==> s[i] == 0
    ensures Value(s) == 0
  {
    if s != [] {
      ZeroValue(s[..|s| - 1]);
    }
  }

  lemma {:induction false} Pow42Grows(j: nat, k: nat)
    requires j <= k
    ensures Pow42(j) <= Pow42(k)
  {
    if j < k {
      Pow42Grows(j, k - 1);
    }
  }

  method DecodeFree(payload: array<nat>) returns (text: string)
    requires Bytes(payload[..]) && payload.Length == 10
    ensures text == FreeDecoded(payload[..])
  {
    hide Value, Charn, Trim;
    var b71 := new nat[9];
    DecodeTelemetry(payload, b71);
    ghost var v := Value(b71[..]);
    var c14 := new char[WIDTH];
    var idx := 12;
    assert c14[13..] == [];
    assert Chars(v, 13) + [] == Chars(v, 13);
    while idx >= 0
      invariant -1 <= idx <= 12 && Bytes(b71[..])
      invariant Chars(Value(b71[..]), idx + 1) + c14[idx + 1..] == Chars(v, WIDTH)
    {
      ghost var w, t := Value(b71[..]), c14[idx + 1..];
      var rem := DivideBy42(b71);
      c14[idx] := Charn(rem, FULL);
      assert c14[idx..] == [Charn(w % 42, FULL)] + t;
      assert Chars(w, idx + 1) == Chars(w / 42, idx) + [Charn(w % 42, FULL)];
      idx := idx - 1;
    }
    assert c14[0..] == c14[..];
    assert Chars(Value(b71[..]), 0) == "" && "" + c14[0..] == c14[..];
    text := TrimCopy(c14[..]);
  }

  function Tail(text: string): string {
    if |text| > WIDTH then text[|text| - WIDTH..] else text
  }

  function Upper(s: string): (r: string)
    ensures |r| == |s|
  {
    seq(|s|, i requires 0 <= i < |s| => ToUpper(s[i]))
  }

  /** What arrives of a text: its last thirteen characters in capitals, unknown ones as spaces, without the spaces
      at either end. */
  function Arrives(text: string): string {
    Trim(SentAll(Upper(Tail(text))))
  }

  /** Whatever payload spells a text's number decodes to what arrives of the text. */
  lemma FreeTextReturns(text: string)
    ensures Trim(Chars(Number(Field(text)), WIDTH)) == Arrives(text)
    ensures forall p :: FreeSent(p, text) ==> FreeDecoded(p) == Arrives(text)
  {
    hide Charn, Nchar, Trim;
    CharsOfNumber(Field(text));
    var upper := Upper(Tail(text));
    var pad := WIDTH - |Tail(text)|;
    SpaceStays();
    assert SentAll(Field(text)) == Spaces(pad) + SentAll(upper);
    PadVanishes(pad, SentAll(upper));
  }

  lemma SpaceStays()
    ensures Sent(' ') == ' '
  {
  }

  lemma PadVanishes(n: nat, s: string)
    ensures Trim(Spaces(n) + s) == Trim(s)
  {
    TrimFrontPadded(n, s);
  }

  /** At most thirteen characters of the table, in capitals, with no space at either end. */
  predicate Plain(text: string) {
    && |text| <= WIDTH && (forall i :: 0 <= i < |text| ==> Nchar(text[i], FULL) >= 0)
    && (text != "" ==> text[0] != ' ' && text[|text| - 1] != ' ')
  }

  lemma PlainSurvives(text: string)
    requires Plain(text)
    ensures Arrives(text) == text
  {
    hide Nchar, Charn, Index;
    forall i | 0 <= i < |text|
      ensures Sent(ToUpper(text[i])) == text[i]
    {
      CapitalSurvives(text[i]);
    }
    assert SentAll(Upper(text)) == text;
  }

  lemma CapitalSurvives(c: char)
    requires Nchar(c, FULL) >= 0
    ensures Sent(ToUpper(c)) == c
  {
    CharnOfNchar(c, FULL);
  }

  lemma SentInTable(c: char)
    ensures Nchar(Sent(c), FULL) >= 0
  {
    NcharOfCharn(Index(c), FULL);
  }

  lemma SurvivorIsPlain(text: string)
    requires Arrives(text) == text
    ensures Plain(text)
  {
    hide Nchar, Charn, Index, Trim, Sent;
    var sent := SentAll(Upper(Tail(text)));
    TrimShape(sent);
    forall i | 0 <= i < |text|
      ensures Nchar(text[i], FULL) >= 0
    {
      assert text[i] in sent;
      var k :| 0 <= k < |sent| && sent[k] == text[i];
      SentInTable(Upper(Tail(text))[k]);
    }
  }

  /** A text arrives unchanged exactly when it is plain. */
  lemma SurvivesUnchanged(text: string)
    ensures Arrives(text) == text <==> Plain(text)
  {
    hide Arrives, Plain;
    if Plain(text) {
      PlainSurvives(text);
    }
    if Arrives(text) == text {
      SurvivorIsPlain(text);
    }
  }

  /** The round trip, run through both methods. */
  method RoundTrip(payload: array<nat>, text: string) returns (back: string)
    requires payload.Length == 10
    modifies payload
    ensures back == Arrives(text)
  {
    hide Value, Trim, Chars, Number, Arrives;
    EncodeFree(payload, text);
    back := DecodeFree(payload);
    FreeTextReturns(text);
  }
}
