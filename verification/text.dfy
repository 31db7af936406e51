/** Character tables, trimming and two-digit numbers of message texts. Strings hold no terminating zero;
    reading at the end of one reads NUL. */
module Texts {
  import opened Arithmetic

  const NUL := '\0'

  function At(s: string, i: nat): char {
    if i < |s| then s[i] else NUL
  }

  predicate IsDigit(c: char) {
    '0' <= c <= '9'
  }

  predicate IsLetter(c: char) {
    'A' <= c <= 'Z' || 'a' <= c <= 'z'
  }

  predicate InRange(c: char, min: char, max: char) {
    min <= c <= max
  }

  function ToUpper(c: char): char {
    if 'a' <= c <= 'z' then (c as int - 'a' as int + 'A' as int) as char else c
  }

  predicate StartsWith(s: string, prefix: string) {
    prefix <= s
  }

  predicate EndsWith(s: string, suffix: string) {
    |s| >= |suffix| && s[|s| - |suffix|..] == suffix
  }

  // ----- trimming -----

  function TrimFront(s: string): string {
    if s != "" && s[0] == ' ' then TrimFront(s[1..]) else s
  }

  function TrimBack(s: string): string {
    if s != "" && s[|s| - 1] == ' ' then TrimBack(s[..|s| - 1]) else s
  }

  function Trim(s: string): string {
    TrimBack(TrimFront(s))
  }

  function Spaces(n: nat): string {
    seq(n, i => ' ')
  }

  lemma {:induction false} TrimFrontPadded(n: nat, s: string)
    ensures TrimFront(Spaces(n) + s) == TrimFront(s)
  {
    if n == 0 {
      assert Spaces(0) + s == s;
    } else {
      assert (Spaces(n) + s)[1..] == Spaces(n - 1) + s;
      TrimFrontPadded(n - 1, s);
    }
  }

  lemma {:induction false} TrimBackPadded(n: nat, s: string)
    ensures TrimBack(s + Spaces(n)) == TrimBack(s)
  {
    if n == 0 {
      assert s + Spaces(0) == s;
    } else {
      assert (s + Spaces(n))[..|s| + n - 1] == s + Spaces(n - 1);
      TrimBackPadded(n - 1, s);
    }
  }

  predicate NoSpaces(s: string) {
    ' ' !in s
  }

  /** Trimming takes off exactly the padding around a word. */
  lemma TrimPadded(n: nat, s: string, k: nat)
    requires NoSpaces(s)
    ensures Trim(Spaces(n) + s + Spaces(k)) == s
  {
    TrimFrontPadded(n, s + Spaces(k));
    assert Spaces(n) + s + Spaces(k) == Spaces(n) + (s + Spaces(k));
    if s == "" {
      AllSpaces(k);
      assert "" + Spaces(k) == Spaces(k);
    } else {
      assert (s + Spaces(k))[0] == s[0];
      TrimBackPadded(k, s);
      assert s[|s| - 1] in s;
    }
  }

  lemma {:induction false} AllSpaces(k: nat)
    ensures TrimFront(Spaces(k)) == ""
  {
    if k > 0 {
      assert Spaces(k)[1..] == Spaces(k - 1);
      AllSpaces(k - 1);
    }
  }

  /** Trimming keeps some of the characters and leaves no space at either end. */
  lemma TrimShape(s: string)
    ensures |Trim(s)| <= |s| && (forall c :: c in Trim(s) ==> c in s)
    ensures Trim(s) != "" ==> Trim(s)[0] != ' ' && Trim(s)[|Trim(s)| - 1] != ' '
  {
    TrimFrontShape(s);
    TrimBackShape(TrimFront(s));
  }

  lemma {:induction false} TrimFrontShape(s: string)
    ensures var t := TrimFront(s);
            |t| <= |s| && (forall c :: c in t ==> c in s) && (t != "" ==> t[0] != ' ')
  {
    if s != "" && s[0] == ' ' {
      TrimFrontShape(s[1..]);
    }
  }

  lemma {:induction false} TrimBackShape(s: string)
    ensures var t := TrimBack(s);
            && |t| <= |s| && (forall c :: c in t ==> c in s)
            && (t != "" ==> t[0] == s[0] && t[|t| - 1] != ' ')
  {
    if s != "" && s[|s| - 1] == ' ' {
      TrimBackShape(s[..|s| - 1]);
    }
  }

  /** The library's trimming, by index. */
  method TrimCopy(str: string) returns (trimmed: string)
    ensures trimmed == Trim(str)
  {
    var front := 0;
    assert str[0..] == str;
    while front < |str| && str[front] == ' '
      invariant front <= |str| && TrimFront(str[front..]) == TrimFront(str)
    {
      assert str[front..][1..] == str[front + 1..];
      front := front + 1;
    }
    var s := str[front..];
    assert TrimFront(s) == s;
    var len := |s| - 1;
    assert s[..len + 1] == s;
    while len >= 0 && s[len] == ' '
      invariant -1 <= len < |s| && TrimBack(s[..len + 1]) == TrimBack(s)
    {
      assert s[..len + 1][..len] == s[..len];
      len := len - 1;
    }
    trimmed := s[..len + 1];
  }

  // ----- character tables -----

  datatype Table = FULL | ALPHANUM_SPACE_SLASH | ALPHANUM_SPACE | LETTERS_SPACE | ALPHANUM | NUMERIC

  function Size(t: Table): nat {
    match t
    case FULL => 42
    case ALPHANUM_SPACE_SLASH => 38
    case ALPHANUM_SPACE => 37
    case LETTERS_SPACE => 27
    case ALPHANUM => 36
    case NUMERIC => 10
  }

  function Offset(base: char, c: nat): char
    requires base <= 'Z' && c < 26
  {
    (base as int + c) as char
  }

  /** The character with index c in a table. */
  function Charn(c: nat, t: Table): char {
    var hasSpace, hasDigits, hasLetters := t != ALPHANUM && t != NUMERIC, t != LETTERS_SPACE, t != NUMERIC;
    if hasSpace && c == 0 then ' '
    else
      var c1 := if hasSpace then c - 1 else c;
      if hasDigits && c1 < 10 then Offset('0', c1)
      else
        var c2 := if hasDigits then c1 - 10 else c1;
        if hasLetters && c2 < 26 then Offset('A', c2)
        else
          var c3 := if hasLetters then c2 - 26 else c2;
          if t == FULL && c3 < 5 then "+-./?"[c3]
          else if t == ALPHANUM_SPACE_SLASH && c3 == 0 then '/'
          else '_'
  }

  /** The index of a character in a table, or -1. */
  function Nchar(c: char, t: Table): int {
    var n1 := if t != ALPHANUM && t != NUMERIC then 1 else 0;
    var n2 := if t != LETTERS_SPACE then n1 + 10 else n1;
    var n3 := if t != NUMERIC then n2 + 26 else n2;
    if n1 == 1 && c == ' ' then 0
    else if t != LETTERS_SPACE && '0' <= c <= '9' then n1 + (c as int - '0' as int)
    else if t != NUMERIC && 'A' <= c <= 'Z' then n2 + (c as int - 'A' as int)
    else if t == FULL && c == '+' then n3
    else if t == FULL && c == '-' then n3 + 1
    else if t == FULL && c == '.' then n3 + 2
    else if t == FULL && c == '/' then n3 + 3
    else if t == FULL && c == '?' then n3 + 4
    else if t == ALPHANUM_SPACE_SLASH && c == '/' then n3
    else -1
  }

  /** A character found in a table has an index in the table's range, and comes back from it. */
  lemma CharnOfNchar(c: char, t: Table)
    ensures Nchar(c, t) < Size(t)
    ensures Nchar(c, t) >= 0 ==> Charn(Nchar(c, t), t) == c
    ensures Nchar(c, t) >= -1
  {
  }

  /** Every index of a table comes back from its character. */
  lemma NcharOfCharn(n: nat, t: Table)
    requires n < Size(t)
    ensures Nchar(Charn(n, t), t) == n
  {
  }

  function DigitRow(): (s: string)
    ensures |s| == 10
  {
    "0123456789"
  }

  function LetterRow(): (s: string)
    ensures |s| == 26
  {
    "ABCDEFGHIJKLMNOPQRSTUVWXYZ"
  }

  /** The characters of each table, in order. */
  function Alphabet(t: Table): (s: string)
    ensures |s| == Size(t)
  {
    match t
    case FULL => " " + DigitRow() + LetterRow() + "+-./?"
    case ALPHANUM_SPACE_SLASH => " " + DigitRow() + LetterRow() + "/"
    case ALPHANUM_SPACE => " " + DigitRow() + LetterRow()
    case LETTERS_SPACE => " " + LetterRow()
    case ALPHANUM => DigitRow() + LetterRow()
    case NUMERIC => DigitRow()
  }

  lemma DigitsInOrder(k: nat)
    requires k < 10
    ensures DigitRow()[k] == Offset('0', k)
  {
  }

  lemma LettersInOrder(k: nat)
    requires k < 26
    ensures LetterRow()[k] == Offset('A', k)
  {
  }

  /** Each table is its documented alphabet, and a character of none of its places has no index. */
  lemma TableIsAlphabet(t: Table, n: nat, c: char)
    ensures n < Size(t) ==> Charn(n, t) == Alphabet(t)[n]
    ensures Nchar(c, t) >= 0 <==> c in Alphabet(t)
  {
    hide Nchar, Charn, Alphabet;
    if n < Size(t) {
      AlphabetAt(n, t);
    }
    if c in Alphabet(t) {
      var i: nat :| i < |Alphabet(t)| && Alphabet(t)[i] == c;
      AlphabetAt(i, t);
      NcharOfCharn(i, t);
    }
    if Nchar(c, t) >= 0 {
      CharnOfNchar(c, t);
      AlphabetAt(Nchar(c, t), t);
    }
  }

  lemma AlphabetAt(n: nat, t: Table)
    requires n < Size(t)
    ensures Charn(n, t) == Alphabet(t)[n]
  {
    hide DigitRow, LetterRow, Offset;
    var spaces, digits := if t == ALPHANUM || t == NUMERIC then 0 else 1, if t == LETTERS_SPACE then 0 else 10;
    if spaces <= n < spaces + digits {
      DigitsInOrder(n - spaces);
    } else if spaces + digits <= n < spaces + digits + 26 {
      LettersInOrder(n - spaces - digits);
    }
  }

  // ----- two-digit numbers -----

  function Digit(c: char): (d: int)
    requires IsDigit(c)
    ensures 0 <= d <= 9
  {
    c as int - '0' as int
  }

  /** The number the digits of s from i up to length spell, after acc. */
  function Digits(s: string, i: nat, length: nat, acc: nat): nat
    decreases length - i
  {
    if i < length && IsDigit(At(s, i)) then Digits(s, i + 1, length, acc * 10 + Digit(At(s, i))) else acc
  }

  /** A number of up to length characters with an optional sign. */
  function DdToInt(s: string, length: nat): int {
    if At(s, 0) == '-' then -(Digits(s, 1, length, 0) as int)
    else Digits(s, if At(s, 0) == '+' then 1 else 0, length, 0)
  }

  method ComputeDdToInt(s: string, length: nat) returns (value: int)
    ensures value == DdToInt(s, length)
  {
    var result: nat := 0;
    var negative := At(s, 0) == '-';
    var i: nat := if negative then 1 else if At(s, 0) == '+' then 1 else 0;
    while i < length
      invariant Digits(s, i, length, result) ==
                Digits(s, if negative || At(s, 0) == '+' then 1 else 0, length, 0)
    {
      if At(s, i) == NUL {
        break;
      }
      if !IsDigit(At(s, i)) {
        break;
      }
      result := result * 10;
      result := result + Digit(At(s, i));
      i := i + 1;
    }
    value := if negative then -(result as int) else result;
  }

  /** The character d places after '0'; a digit for d below ten. */
  function DigitChar(d: nat): char
    requires d < 200
  {
    ('0' as int + d) as char
  }

  function Pow10(n: nat): (p: nat)
    ensures p > 0
  {
    if n == 0 then 1 else 10 * Pow10(n - 1)
  }

  function Quotient(value: nat, divisor: nat): nat
    requires divisor > 0
  {
    value / divisor
  }

  function Remainder(value: nat, divisor: nat): nat
    requires divisor > 0
  {
    value % divisor
  }

  lemma DigitBounds(value: nat, width: nat)
    requires width > 0 && value < 200 * Pow10(width - 1)
    ensures width == 1 ==> value < 200
    ensures Quotient(value, Pow10(width - 1)) < 200
    ensures width > 1 ==> Remainder(value, Pow10(width - 1)) < 200 * Pow10(width - 2)
  {
    QuotientBound(value, Pow10(width - 1));
    if width > 1 {
      assert Pow10(width - 1) == 10 * Pow10(width - 2);
    }
  }

  /** The digits of value from the one at divisor on; only the first may exceed nine. */
  function DigitsFrom(value: nat, width: nat): string
    requires width > 0 && value < 200 * Pow10(width - 1)
    decreases width
  {
    hide Pow10, Quotient, Remainder;
    DigitBounds(value, width);
    if width == 1 then [DigitChar(value)]
    else [DigitChar(Quotient(value, Pow10(width - 1)))] + DigitsFrom(Remainder(value, Pow10(width - 1)), width - 1)
  }

  /** A number with its sign, written with width digits. */
  function IntToDd(value: int, width: nat, fullSign: bool): string
    requires width > 0 && -200 * Pow10(width - 1) < value < 200 * Pow10(width - 1)
  {
    if value < 0 then "-" + DigitsFrom(-value, width)
    else if fullSign then "+" + DigitsFrom(value, width)
    else DigitsFrom(value, width)
  }

  method ComputeIntToDd(value0: int, width: nat, fullSign: bool) returns (str: string)
    requires width > 0 && -200 * Pow10(width - 1) < value0 < 200 * Pow10(width - 1)
    ensures str == IntToDd(value0, width, fullSign)
  {
    hide DigitsFrom, DigitChar, Pow10;
    assert Pow10(0) == 1 by { Pow10Steps(0); }
    var value := value0;
    str := "";
    if value < 0 {
      str := str + "-";
      value := -value;
    } else if fullSign {
      str := str + "+";
    }
    var divisor := 1;
    var i := 0;
    while i < width - 1
      invariant 0 <= i <= width - 1 && divisor == Pow10(i)
    {
      Pow10Steps(i);
      divisor := divisor * 10;
      i := i + 1;
    }
    var digits := WriteDigits(value, width, divisor);
    str := str + digits;
  }

  /** The digits, from the one at divisor down. */
  method WriteDigits(value0: nat, ghost width: nat, divisor0: nat) returns (str: string)
    requires width > 0 && divisor0 == Pow10(width - 1) && value0 < 200 * divisor0
    ensures str == DigitsFrom(value0, width)
  {
    hide DigitsFrom, DigitChar, Pow10, Quotient;
    var value, divisor := value0, divisor0;
    ghost var left := width;
    str := "";
    while divisor >= 1
      invariant 0 <= left <= width
      invariant left == 0 <==> divisor == 0
      invariant left > 0 ==> divisor == Pow10(left - 1) && value < 200 * divisor
      invariant left > 0 ==> str + DigitsFrom(value, left) == DigitsFrom(value0, width)
      invariant left == 0 ==> str == DigitsFrom(value0, width)
      decreases left
    {
      DigitStep(value, divisor, left, Quotient(value, divisor));
      var digit := Quotient(value, divisor);
      str := str + [DigitChar(digit)];
      value := value - digit * divisor;
      divisor := divisor / 10;
      left := left - 1;
    }
  }

  lemma Pow10Steps(i: nat)
    ensures Pow10(0) == 1 && Pow10(i + 1) == Pow10(i) * 10
  {
  }

  lemma DigitStep(value: nat, divisor: nat, left: nat, digit: nat)
    requires left > 0 && divisor == Pow10(left - 1) && value < 200 * divisor && digit == Quotient(value, divisor)
    ensures divisor > 0 && digit < 200 && 0 <= value - digit * divisor < divisor
    ensures left > 1 ==> divisor / 10 == Pow10(left - 2) && value - digit * divisor < 200 * (divisor / 10)
    ensures left > 1 ==>
              DigitsFrom(value, left) == [DigitChar(digit)] + DigitsFrom(value - digit * divisor, left - 1)
    ensures left == 1 ==> divisor / 10 == 0 && DigitsFrom(value, left) == [DigitChar(digit)]
  {
    QuotientBound(value, divisor);
    assert value - digit * divisor == value % divisor;
    if left > 1 {
      assert divisor == 10 * Pow10(left - 2);
    }
  }

  lemma QuotientBound(value: nat, divisor: nat)
    requires divisor > 0 && value < 200 * divisor
    ensures value / divisor < 200
  {
    var q := value / divisor;
    assert q * divisor <= value;
    assert (200 - q) * divisor == 200 * divisor - q * divisor;
    PositiveFactor(200 - q, divisor);
  }

  // ----- reports -----

  /** A signed two-digit report. */
  predicate IsReport(s: string) {
    |s| == 3 && (s[0] == '+' || s[0] == '-') && IsDigit(s[1]) && IsDigit(s[2])
  }

  lemma ReportValue(s: string)
    requires IsReport(s)
    ensures DdToInt(s, 3) == (if s[0] == '-' then -1 else 1) * (10 * Digit(s[1]) + Digit(s[2]))
  {
    assert Digits(s, 1, 3, 0) == Digits(s, 2, 3, Digit(s[1]));
    assert Digits(s, 2, 3, Digit(s[1])) == Digits(s, 3, 3, 10 * Digit(s[1]) + Digit(s[2]));
  }

  /** Writing a report's value gives the report back, except that minus zero turns into plus zero. */
  lemma ReportReturns(s: string)
    requires IsReport(s)
    ensures IntToDd(DdToInt(s, 3), 2, true) == s <==> s != "-00"
  {
    ReportValue(s);
    var v := 10 * Digit(s[1]) + Digit(s[2]);
    assert Pow10(1) == 10;
    assert DigitsFrom(v, 1 + 1) == [DigitChar(v / 10)] + DigitsFrom(v % 10, 1);
    assert v / 10 == Digit(s[1]) && v % 10 == Digit(s[2]);
    assert [s[1]] + [s[2]] == s[1..];
    assert s == [s[0]] + s[1..];
  }
}
