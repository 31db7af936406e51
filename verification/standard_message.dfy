/** Standard messages as a whole: two calls, then a grid, a report, RRR, RR73, 73 or nothing. */
module StandardMessages {
  import opened Words
  import opened Texts
  import opened Callsigns
  import opened TypeFour
  import opened Standard
  import opened StandardCalls
  import CallsignTables

  const WORD16 := 0x1_0000
  const TOP16 := 0x8000

  // ----- grids and reports -----

  predicate IsGrid(s: string) {
    InRange(At(s, 0), 'A', 'R') && InRange(At(s, 1), 'A', 'R') && IsDigit(At(s, 2)) && IsDigit(At(s, 3))
  }

  function GridCode(s: string): (n: nat)
    requires IsGrid(s)
    ensures n < MAXGRID4
  {
    var a, b := s[0] as int - 'A' as int, s[1] as int - 'A' as int;
    ((a * 18 + b) * 10 + Digit(s[2])) * 10 + Digit(s[3])
  }

  /** The 16-bit code of the third field: fifteen bits and the flag of a report that begins with R. */
  function PackGrid(extra: string): (code: nat)
    ensures code < WORD16
  {
    if extra == "" then MAXGRID4 + 1
    else if extra == "RRR" then MAXGRID4 + 2
    else if extra == "RR73" then MAXGRID4 + 3
    else if extra == "73" then MAXGRID4 + 4
    else if IsGrid(extra) then GridCode(extra)
    else if extra[0] == 'R' then
      var low := (MAXGRID4 + (35 + DdToInt(extra[1..], 3)) % WORD16) % WORD16;
      if low >= TOP16 then low else low + TOP16
    else (MAXGRID4 + (35 + DdToInt(extra, 3)) % WORD16) % WORD16
  }

  function GridText(n: nat): (s: string)
    ensures |s| == 4
  {
    [Offset('A', n / 1800 % 18), Offset('A', n / 100 % 18), Offset('0', n / 10 % 10), Offset('0', n % 10)]
  }

  function UnpackGrid(code: nat, ir: nat): string
    requires code < TOP16
  {
    if code <= MAXGRID4 then (if ir > 0 then "R " else "") + GridText(code)
    else
      var irpt := code - MAXGRID4;
      if irpt == 1 then ""
      else if irpt == 2 then "RRR"
      else if irpt == 3 then "RR73"
      else if irpt == 4 then "73"
      else
        assert Pow10(1) == 10;
        (if ir > 0 then "R" else "") + IntToDd(irpt - 35, 2, true)
  }

  /** A report, with or without R in front. */
  predicate IsAnyReport(s: string) {
    IsReport(s) || (s != "" && s[0] == 'R' && IsReport(s[1..]))
  }

  function ReportPart(s: string): string
    requires IsAnyReport(s)
  {
    if IsReport(s) then s else s[1..]
  }

  /** Nothing, one of the three words, or a grid. */
  predicate IsPlainExtra(s: string) {
    s == "" || s == "RRR" || s == "RR73" || s == "73" || (|s| == 4 && IsGrid(s))
  }

  lemma GridReturns(s: string)
    requires |s| == 4 && IsGrid(s)
    ensures GridText(GridCode(s)) == s
  {
    hide Offset;
    var a, b, c, d := s[0] as int - 'A' as int, s[1] as int - 'A' as int, Digit(s[2]), Digit(s[3]);
    var n := GridCode(s);
    RadixOut(n, ((a * 18 + b) * 10 + c), d, 10);
    RadixOut(n / 10, a * 18 + b, c, 10);
    RadixOut(n / 100, a, b, 18);
    assert n / 1800 % 18 == a;
    OffsetReturns(s);
  }

  lemma RadixOut(n: nat, h: nat, l: nat, r: nat)
    requires (r == 10 || r == 18) && l < r && n == h * r + l
    ensures n / r == h && n % r == l && n / 10 / 10 == n / 100 && n / 100 / 18 == n / 1800
  {
  }

  lemma OffsetReturns(s: string)
    requires |s| == 4 && IsGrid(s)
    ensures [Offset('A', s[0] as int - 'A' as int), Offset('A', s[1] as int - 'A' as int),
             Offset('0', Digit(s[2])), Offset('0', Digit(s[3]))] == s
  {
  }

  /** Every plain third field comes back. */
  lemma PlainExtraReturns(s: string)
    requires IsPlainExtra(s)
    ensures UnpackGrid(PackGrid(s) % TOP16, PackGrid(s) / TOP16) == s
  {
    hide GridText, GridCode, IntToDd;
    if s != "" && s != "RRR" && s != "RR73" && s != "73" {
      GridReturns(s);
    }
  }

  /** A grid sent with the report flag, which this encoder never sets, is shown with an R apart. */
  lemma RogeredGridShown(s: string)
    requires |s| == 4 && IsGrid(s)
    ensures UnpackGrid(GridCode(s), 1) == "R " + s
  {
    hide GridText, GridCode, IntToDd;
    GridReturns(s);
  }

  /** A report comes back exactly when its value is at least -30 and it is not a negative zero. */
  lemma ReportComesBack(s: string)
    requires IsAnyReport(s)
    ensures UnpackGrid(PackGrid(s) % TOP16, PackGrid(s) / TOP16) == s <==>
            ReportPart(s) != "-00" && DdToInt(ReportPart(s), 3) >= -30
  {
    hide GridText, DdToInt, IntToDd, PackGrid, IsReport, IsAnyReport;
    var r := ReportPart(s);
    var dd, ir := DdToInt(r, 3), if s == r then 0 else 1;
    var code := PackGrid(s) % TOP16;
    PackedReport(s, r, dd);
    assert IsReport(r) by { ReportPartIsReport(s); }
    ReportRange(r);
    ReportReturns(r);
    if dd >= -30 {
      WrittenReport(s, r, IntToDd(dd, 2, true));
    } else {
      GridNotReport(s, code, ir);
    }
  }

  lemma ReportPartIsReport(s: string)
    requires IsAnyReport(s)
    ensures IsReport(ReportPart(s))
  {
  }

  lemma PackedReport(s: string, r: string, dd: int)
    requires IsAnyReport(s) && r == ReportPart(s) && dd == DdToInt(r, 3)
    ensures -99 <= dd <= 99
    ensures PackGrid(s) % TOP16 == MAXGRID4 + 35 + dd && PackGrid(s) / TOP16 == if s == r then 0 else 1
  {
    hide DdToInt;
    ReportNotPlain(s);
    ReportRange(r);
  }

  lemma ReportRange(r: string)
    requires IsReport(r)
    ensures -99 <= DdToInt(r, 3) <= 99 && Pow10(1) == 10
  {
    ReportValue(r);
  }

  lemma WrittenReport(s: string, r: string, t: string)
    requires IsAnyReport(s) && r == ReportPart(s)
    ensures (if s == r then "" else "R") + t == s <==> t == r
  {
    if s == r {
      assert "" + t == t;
    } else {
      assert s == "R" + r;
      if "R" + t == "R" + r {
        assert ("R" + t)[1..] == t && ("R" + r)[1..] == r;
      }
    }
  }

  lemma ReportNotPlain(s: string)
    requires IsAnyReport(s)
    ensures !IsPlainExtra(s) && !IsGrid(s) && s != "" && (IsReport(s) <==> s[0] != 'R')
  {
  }

  /** What a code below the reports spells is no report. */
  lemma GridNotReport(s: string, code: nat, ir: nat)
    requires IsAnyReport(s) && code <= MAXGRID4 + 4
    ensures UnpackGrid(code, ir) != s
  {
    ReportNotPlain(s);
    if code <= MAXGRID4 {
      var g := GridText(code);
      assert g[0] >= 'A' && g[1] >= 'A';
      if ir > 0 {
        assert ("R " + g)[1] == ' ';
      } else {
        assert ("" + g)[0] == g[0] && ("" + g)[1] == g[1];
      }
    }
  }

  // ----- the payload -----

  datatype StdFields = StdFields(n29a: nat, n29b: nat, grid: nat, i3: nat)
  {
    predicate Fit() {
      n29a < Pow2(29) && n29b < Pow2(29) && grid < WORD16 && i3 < 8
    }
  }

  function StdPayload(f: StdFields): (p: seq<nat>)
    ensures |p| == 10
  {
    [U8(Shr(f.n29a, 21)), U8(Shr(f.n29a, 13)), U8(Shr(f.n29a, 5)), Or(U8(Shl(f.n29a, 3)), U8(Shr(f.n29b, 26))),
     U8(Shr(f.n29b, 18)), U8(Shr(f.n29b, 10)), U8(Shr(f.n29b, 2)), Or(U8(Shl(f.n29b, 6)), U8(Shr(f.grid, 10))),
     U8(Shr(f.grid, 2)), Or(U8(Shl(f.grid, 6)), U8(Shl(f.i3, 3)))]
  }

  function Gather29a(p: seq<nat>): nat
    requires |p| == 10
  {
    var a := Or(Shl(p[0], 21), Shl(p[1], 13));
    var b := Or(a, Shl(p[2], 5));
    Or(b, Shr(p[3], 3))
  }

  function Gather29b(p: seq<nat>): nat
    requires |p| == 10
  {
    var a := Or(Shl(p[3] % 8, 26), Shl(p[4], 18));
    var b := Or(a, Shl(p[5], 10));
    var c := Or(b, Shl(p[6], 2));
    Or(c, Shr(p[7], 6))
  }

  function GatherGrid(p: seq<nat>): nat
    requires |p| == 10
  {
    var a := Or(Shl(p[7] % 32, 10), Shl(p[8], 2));
    Or(a, Shr(p[9], 6))
  }

  /** The report flag as it is extracted. */
  function GatherIr(p: seq<nat>): nat
    requires |p| == 10
  {
    Shr(p[7] / 32 % 2 * 32, 5)
  }

  /** A byte shared by the low bits of one number and the top of another. */
  lemma JoinedByte(a: nat, b: nat, k: nat)
    requires 0 < k <= 8 && b < Pow2(k)
    ensures var p := Or(U8(Shl(a, k)), U8(b));
            p == (a % Pow2(8 - k)) * Pow2(k) + b && p % Pow2(k) == b && Shr(p, k) == a % Pow2(8 - k) && p < 256
  {
    hide Or, Pow2;
    var r, c, d := a % Pow2(8 - k), Pow2(k), Pow2(8 - k);
    ShiftedByte(a, k);
    Pow2Adds(8 - k, k);
    Pow2Table();
    Joined(r, c, b, d);
    OrLow(r, b, k);
  }

  lemma Joined(r: nat, c: nat, b: nat, d: nat)
    requires r < d && b < c && d * c == 256
    ensures b < 256 && r * c + b < 256 && (r * c + b) / c == r && (r * c + b) % c == b
  {
    QuotientUnique(r * c + b, c, r, b);
    assert (d - 1 - r) * c >= 0;
    assert (d - 1 - r) * c == d * c - c - r * c;
    assert (d - 1) * c >= 0;
    assert (d - 1) * c == d * c - c;
  }

  /** What the two shared bytes hold. */
  lemma SharedBytes(f: StdFields)
    requires f.Fit()
    ensures var p := StdPayload(f);
            && p[3] % 8 == Shr(f.n29b, 26) && Shr(p[3], 3) == f.n29a % 32 && p[3] < 256
            && p[7] % 64 == Shr(f.grid, 10) && Shr(p[7], 6) == f.n29b % 4 && p[7] < 256
            && Shr(p[9], 6) == f.grid % 4 && Shr(p[9], 3) % 8 == f.i3 && p[9] < 256
  {
    hide Or, Shl, Shr, Pow2;
    Pow2Table();
    ShrBound(f.n29b, 3, 26);
    JoinedByte(f.n29a, Shr(f.n29b, 26), 3);
    assert f.grid < Pow2(16) by { Pow2Of16(); }
    ShrBound(f.grid, 6, 10);
    JoinedByte(f.n29b, Shr(f.grid, 10), 6);
    TypeByte(f.grid, f.i3);
  }

  lemma Pow2Of16()
    ensures Pow2(16) == WORD16
  {
    assert Pow2(8) == 256;
    Pow2Adds(8, 8);
  }

  lemma TypeByte(grid: nat, i3: nat)
    requires i3 < 8
    ensures var p := Or(U8(Shl(grid, 6)), U8(Shl(i3, 3)));
            Shr(p, 6) == grid % 4 && Shr(p, 3) % 8 == i3 && p < 256
  {
    hide Or, Shl, Shr, Pow2;
    Pow2Table();
    SmallShifts(i3);
    JoinedByte(grid, 8 * i3, 6);
    var p := (grid % 4) * 64 + 8 * i3;
    SmallShifts(p);
  }

  lemma Gathers29a(f: StdFields)
    requires f.Fit()
    ensures Gather29a(StdPayload(f)) == f.n29a
  {
    hide Or, Shl, Shr, Pow2, U8;
    var n := f.n29a;
    SharedBytes(f);
    TopByte(n);
    ByteSplit(n, 13);
    OrByteIn(Shr(n, 21), U8(Shr(n, 13)), 13);
    ByteSplit(n, 5);
    OrByteIn(Shr(n, 13), U8(Shr(n, 5)), 5);
    LastBits(n, 5);
    Pow2Table();
  }

  lemma TopByte(n: nat)
    requires n < Pow2(29)
    ensures U8(Shr(n, 21)) == Shr(n, 21)
  {
    hide Shr, Pow2;
    ShrBound(n, 8, 21);
    Pow2Table();
  }

  lemma LastBits(n: nat, k: nat)
    ensures Or(Shl(Shr(n, k), k), n % Pow2(k)) == n
  {
    hide Or, Pow2;
    OrLow(Shr(n, k), n % Pow2(k), k);
  }

  lemma Gathers29b(f: StdFields)
    requires f.Fit()
    ensures Gather29b(StdPayload(f)) == f.n29b
  {
    hide Or, Shl, Shr, Pow2, U8;
    var n := f.n29b;
    SharedBytes(f);
    ByteSplit(n, 18);
    OrByteIn(Shr(n, 26), U8(Shr(n, 18)), 18);
    ByteSplit(n, 10);
    OrByteIn(Shr(n, 18), U8(Shr(n, 10)), 10);
    ByteSplit(n, 2);
    OrByteIn(Shr(n, 10), U8(Shr(n, 2)), 2);
    LastBits(n, 2);
    Pow2Table();
  }

  lemma GathersGrid(f: StdFields)
    requires f.Fit()
    ensures GatherGrid(StdPayload(f)) == f.grid % TOP16 && GatherIr(StdPayload(f)) == f.grid / TOP16
  {
    hide Or, Shl, Shr, Pow2, U8;
    var n, g := f.grid % TOP16, f.grid;
    SharedBytes(f);
    GridBits(g);
    assert StdPayload(f)[7] % 32 == Shr(n, 10);
    assert U8(Shr(g, 2)) == U8(Shr(n, 2));
    ByteSplit(n, 2);
    OrByteIn(Shr(n, 10), U8(Shr(n, 2)), 2);
    LastBits(n, 2);
    Pow2Table();
    FlagBit(StdPayload(f)[7], g / TOP16);
  }

  /** The fifteen low bits and the flag of a 16-bit code, in its three bytes. */
  lemma GridBits(g: nat)
    requires g < WORD16
    ensures var n := g % TOP16;
            && Shr(g, 10) % 32 == Shr(n, 10) && Shr(g, 10) / 32 == g / TOP16 && g / TOP16 < 2
            && U8(Shr(g, 2)) == U8(Shr(n, 2)) && g % 4 == n % 4
  {
    assert Pow2(2) == 4 && Pow2(10) == 1024;
    var n, t := g % TOP16, g / TOP16;
    assert g == t * TOP16 + n;
    Parts(g, t, n);
    FlagOff(g / 1024, n / 1024, g / 4, n / 4, t);
  }

  /** Quotients of a number with a flag above it: the flag stays above. */
  lemma Parts(g: nat, t: nat, n: nat)
    requires g == t * TOP16 + n && n < TOP16
    ensures g / 1024 == t * 32 + n / 1024 && n / 1024 < 32
    ensures g / 4 == t * 8192 + n / 4 && g % 4 == n % 4
  {
  }

  lemma FlagOff(a: nat, b: nat, c: nat, d: nat, t: nat)
    requires a == t * 32 + b && b < 32 && c == t * 8192 + d
    ensures a % 32 == b % 32 == b && a / 32 == t && c % 256 == d % 256
  {
  }

  lemma FlagBit(p7: nat, t: nat)
    requires p7 % 64 / 32 == t && t < 2
    ensures Shr(p7 / 32 % 2 * 32, 5) == t
  {
    assert Pow2(5) == 32;
    assert p7 / 32 % 2 == t;
  }

  /** What is packed is what is extracted. */
  lemma StdFieldsReturn(f: StdFields)
    requires f.Fit()
    ensures var p := StdPayload(f);
            && Gather29a(p) == f.n29a && Gather29b(p) == f.n29b
            && GatherGrid(p) == f.grid % TOP16 && GatherIr(p) == f.grid / TOP16 && GetI3(p) == f.i3 && Bytes(p)
  {
    hide Or, Shl, Shr, Pow2, Gather29a, Gather29b, GatherGrid, GatherIr;
    Gathers29a(f);
    Gathers29b(f);
    GathersGrid(f);
    SharedBytes(f);
  }

  /** The first seven bytes spell the first call and all but the last two bits of the second. */
  lemma CallBytes(f: StdFields)
    requires f.Fit()
    ensures Value(StdPayload(f)[..7]) == f.n29a * 0x800_0000 + Shr(f.n29b, 2)
  {
    hide Or, Shl, Shr, Pow2, Value;
    var p, a, b := StdPayload(f), f.n29a, f.n29b;
    SharedBytes(f);
    TopByte(a);
    SmallShifts(p[3]);
    ByteSplit(a, 13); ByteSplit(a, 5); ByteSplit(b, 18); ByteSplit(b, 10); ByteSplit(b, 2);
    LowBits(a, b);
    FirstBytes(p);
    ValueNext(p, 2); ValueNext(p, 3); ValueNext(p, 4); ValueNext(p, 5); ValueNext(p, 6);
  }

  /** The payload as a number: both calls with their suffix bits, the report flag and code, and the type, in that
      order, before three clear bits. */
  lemma StdPayloadNumber(f: StdFields)
    requires f.Fit()
    ensures Value(StdPayload(f)) == f.n29a * 0x8_0000_0000_0000 + f.n29b * 0x40_0000 + f.grid * 64 + f.i3 * 8
  {
    hide Or, Shl, Shr, Pow2, Value;
    var p, g := StdPayload(f), f.grid;
    CallBytes(f);
    SharedBytes(f);
    Pow2Table();
    SmallShifts(p[7]); SmallShifts(f.i3); SmallShifts(g);
    JoinedByte(g, 8 * f.i3, 6);
    ByteSplit(g, 2);
    LowBits(f.n29a, f.n29b);
    ValueNext(p, 7); ValueNext(p, 8); ValueNext(p, 9);
    assert p[..10] == p;
  }

  lemma LowBits(a: nat, b: nat)
    ensures Shr(a, 5) * 32 + a % 32 == a && Shr(b, 2) * 4 + b % 4 == b
  {
    assert Pow2(5) == 32 && Pow2(2) == 4;
  }

  /** The codes of the third field: the words behind the last grid, then the reports from -35 on, with 2^15 added for
      an R. */
  lemma ThirdFieldCodes(s: string)
    ensures PackGrid("") == MAXGRID4 + 1 && PackGrid("RRR") == MAXGRID4 + 2 && PackGrid("RR73") == MAXGRID4 + 3
    ensures PackGrid("73") == MAXGRID4 + 4
    ensures IsReport(s) ==> PackGrid(s) == MAXGRID4 + 35 + DdToInt(s, 3)
    ensures IsReport(s) ==> PackGrid("R" + s) == MAXGRID4 + 35 + DdToInt(s, 3) + TOP16
  {
    hide DdToInt, IsReport;
    if IsReport(s) {
      assert IsAnyReport(s) && ReportPart(s) == s;
      PackedReport(s, s, DdToInt(s, 3));
      assert ("R" + s)[1..] == s && ("R" + s)[0] == 'R';
      assert !IsReport("R" + s) by { NoRReport(s); }
      assert IsAnyReport("R" + s) && ReportPart("R" + s) == s;
      PackedReport("R" + s, s, DdToInt(s, 3));
    }
  }

  lemma NoRReport(s: string)
    ensures !IsReport("R" + s)
  {
    assert ("R" + s)[0] == 'R';
  }

  // ----- encoding and decoding -----

  function StdI3(to: string, de: string): nat {
    if EndsWith(to, "/P") || EndsWith(de, "/P") then 2 else 1
  }

  /** Why a message cannot be sent in this form. */
  function StdCheck(to: string, de: string): Rc {
    if Pack28(to).0 < 0 then ERROR_CALLSIGN1
    else if Pack28(de).0 < 0 then ERROR_CALLSIGN2
    else if StdI3(to, de) == 2 && (EndsWith(to, "/R") || EndsWith(de, "/R")) then ERROR_SUFFIX
    else OK
  }

  /** The 29 bits of a call: its code and suffix bit. */
  function Code29(n28: nat, ip: nat): nat {
    Or(Shl(n28, 1), ip)
  }

  function StdFieldsOf(to: string, de: string, extra: string): StdFields
    requires StdCheck(to, de) == OK
  {
    var a := Code29(Pack28(to).0, Pack28(to).1);
    StdFields(if HasSuffix(to) then Or(a, 1) else a, Code29(Pack28(de).0, Pack28(de).1), PackGrid(extra), StdI3(to, de))
  }

  method EncodeStd(payload: array<nat>, table: CallsignTables.CallsignTable, callTo: string, callDe: string,
                   extra: string) returns (rc: Rc)
    requires payload.Length == 10 && table.Valid()
    requires payload as object != table && payload as object != table.slots
    modifies payload, table, table.slots
    ensures table.Valid() && table.contents == After(After(old(table.contents), callTo), callDe)
    ensures rc == StdCheck(callTo, callDe)
    ensures rc == OK ==> payload[..] == StdPayload(StdFieldsOf(callTo, callDe, extra))
    ensures rc != OK ==> payload[..] == old(payload[..])
  {
    hide Pack28, After, EndsWith, PackGrid, Or, Shl, Shr, U8, CallsignTables.Holds;
    var n28a, ipa := ComputePack28(table, callTo);
    var n28b, ipb := ComputePack28(table, callDe);
    if n28a < 0 {
      return ERROR_CALLSIGN1;
    }
    if n28b < 0 {
      return ERROR_CALLSIGN2;
    }
    var i3 := 1;
    if EndsWith(callTo, "/P") || EndsWith(callDe, "/P") {
      i3 := 2;
      if EndsWith(callTo, "/R") || EndsWith(callDe, "/R") {
        return ERROR_SUFFIX;
      }
    }
    var igrid4 := PackGrid(extra);
    var n29a := Or(Shl(n28a, 1), ipa);
    var n29b := Or(Shl(n28b, 1), ipb);
    if EndsWith(callTo, "/R") {
      n29a := Or(n29a, 1);
    } else if EndsWith(callTo, "/P") {
      n29a := Or(n29a, 1);
      i3 := 2;
    }
    ghost var f := StdFields(n29a, n29b, igrid4, i3);
    assert f == StdFieldsOf(callTo, callDe, extra);
    payload[0] := U8(Shr(n29a, 21));
    payload[1] := U8(Shr(n29a, 13));
    payload[2] := U8(Shr(n29a, 5));
    payload[3] := Or(U8(Shl(n29a, 3)), U8(Shr(n29b, 26)));
    payload[4] := U8(Shr(n29b, 18));
    payload[5] := U8(Shr(n29b, 10));
    payload[6] := U8(Shr(n29b, 2));
    payload[7] := Or(U8(Shl(n29b, 6)), U8(Shr(igrid4, 10)));
    payload[8] := U8(Shr(igrid4, 2));
    payload[9] := Or(U8(Shl(igrid4, 6)), U8(Shl(i3, 3)));
    assert payload[..] == StdPayload(f);
    rc := OK;
  }

  /** What unpacking one call of a payload may give and leave in the table. */
  ghost predicate CallUnpacks(n29: nat, i3: nat, m: Calls, m': Calls, ok: bool, text: string,
                              found: CallsignTables.Option)
  {
    match Unpack28(n29 / 2, n29 % 2, i3)
    case Failed => !ok && m' == m
    case Token(t) => ok && text == t && m' == m
    case Call(t) => ok && text == t && m' == Saved(m, t)
    case Hashed(n22) =>
      ok && m' == m && CallsignTables.Answers(m, CallsignTables.Bits22, n22, found) && text == Bracketed(found)
  }

  /** What decoding a payload may return and leave in the table: both calls unpacked one after the other. */
  ghost predicate StdDecoded(p: seq<nat>, m: Calls, m': Calls, rc: Rc, to: string, de: string, extra: string)
    requires |p| == 10
  {
    exists between: Calls, foundTo: CallsignTables.Option, foundDe: CallsignTables.Option ::
      && CallFirst(p, m, between, rc, to, foundTo)
      && CallNext(p, between, m', rc, de, foundDe)
      && (rc == OK ==> GatherGrid(p) < TOP16 && extra == UnpackGrid(GatherGrid(p), GatherIr(p)))
  }

  ghost predicate CallFirst(p: seq<nat>, m: Calls, between: Calls, rc: Rc, to: string, foundTo: CallsignTables.Option)
    requires |p| == 10
  {
    CallUnpacks(Gather29a(p), GetI3(p), m, between, rc != ERROR_CALLSIGN1, to, foundTo)
  }

  ghost predicate CallNext(p: seq<nat>, between: Calls, m': Calls, rc: Rc, de: string, foundDe: CallsignTables.Option)
    requires |p| == 10
  {
    if rc == ERROR_CALLSIGN1 then m' == between
    else
      && (rc == OK || rc == ERROR_CALLSIGN2)
      && CallUnpacks(Gather29b(p), GetI3(p), between, m', rc == OK, de, foundDe)
  }

  lemma GridInRange(p: seq<nat>)
    requires |p| == 10 && Bytes(p)
    ensures GatherGrid(p) < TOP16
  {
    hide Or, Shl, Shr, Pow2;
    var h := p[7] % 32 * 256 + p[8];
    OrByteIn(p[7] % 32, p[8], 2);
    SmallShifts(p[9]);
    SmallShifts(h);
    Pow2Table();
    OrLow(h, p[9] / 64, 2);
  }

  method DecodeStd(payload: array<nat>, table: CallsignTables.CallsignTable)
    returns (rc: Rc, callTo: string, callDe: string, extra: string)
    requires payload.Length == 10 && table.Valid() && Bytes(payload[..])
    requires payload as object != table && payload as object != table.slots
    modifies table, table.slots
    ensures table.Valid()
    ensures StdDecoded(payload[..], old(table.contents), table.contents, rc, callTo, callDe, extra)
  {
    hide Or, Shl, Shr, Unpack28, Saved, UnpackGrid, CallsignTables.Answers, CallsignTables.Holds;
    ghost var s := payload[..];
    var p := payload;
    var n29a := Shl(p[0], 21);
    n29a := Or(n29a, Shl(p[1], 13));
    n29a := Or(n29a, Shl(p[2], 5));
    n29a := Or(n29a, Shr(p[3], 3));
    var n29b := Shl(p[3] % 8, 26);
    n29b := Or(n29b, Shl(p[4], 18));
    n29b := Or(n29b, Shl(p[5], 10));
    n29b := Or(n29b, Shl(p[6], 2));
    n29b := Or(n29b, Shr(p[7], 6));
    var ir := Shr(p[7] / 32 % 2 * 32, 5);
    var igrid4 := Shl(p[7] % 32, 10);
    igrid4 := Or(igrid4, Shl(p[8], 2));
    igrid4 := Or(igrid4, Shr(p[9], 6));
    var i3 := Shr(p[9], 3) % 8;
    assert n29a == Gather29a(s) && n29b == Gather29b(s) && ir == GatherIr(s) && igrid4 == GatherGrid(s);
    callTo, callDe, extra := "", "", "";
    var ok;
    ghost var foundTo, foundDe := CallsignTables.None, CallsignTables.None;
    ok, callTo, foundTo := ComputeUnpack28(table, n29a / 2, n29a % 2, i3);
    ghost var between := table.contents;
    assert payload[..] == s;
    if !ok {
      rc := ERROR_CALLSIGN1;
      assert CallFirst(s, old(table.contents), between, rc, callTo, foundTo);
      assert CallNext(s, between, table.contents, rc, callDe, foundDe);
      return;
    }
    ok, callDe, foundDe := ComputeUnpack28(table, n29b / 2, n29b % 2, i3);
    assert payload[..] == s;
    if !ok {
      rc := ERROR_CALLSIGN2;
      assert CallFirst(s, old(table.contents), between, rc, callTo, foundTo);
      assert CallNext(s, between, table.contents, rc, callDe, foundDe);
      return;
    }
    GridInRange(s);
    extra := UnpackGrid(igrid4, ir);
    rc := OK;
    assert CallFirst(s, old(table.contents), between, rc, callTo, foundTo);
    assert CallNext(s, between, table.contents, rc, callDe, foundDe);
  }

  // ----- the round trip -----

  /** A token, or a base call with an optional suffix that is not taken for another call. */
  predicate Sendable(call: string) {
    IsToken(call) || (IsBase(call) && NoSpaces(call) && !Mangled(Base(call)))
  }

  predicate SendableExtra(s: string) {
    IsPlainExtra(s) || (IsAnyReport(s) && ReportPart(s) != "-00" && DdToInt(ReportPart(s), 3) >= -30)
  }

  /** No message mixes the two suffixes. */
  predicate OneSuffixKind(to: string, de: string) {
    !((EndsWith(to, "/P") || EndsWith(de, "/P")) && (EndsWith(to, "/R") || EndsWith(de, "/R")))
  }

  lemma Code29Splits(n28: nat, ip: nat)
    requires ip < 2 && n28 < Pow2(28)
    ensures Code29(n28, ip) / 2 == n28 && Code29(n28, ip) % 2 == ip && Code29(n28, ip) < Pow2(29)
    ensures ip == 1 ==> Or(Code29(n28, ip), 1) == Code29(n28, ip)
  {
    hide Or, Shl, Pow2;
    Pow2Table();
    Pow2Adds(1, 28);
    OrLow(n28, ip, 1);
    SmallShifts(n28);
    if ip == 1 {
      OrOne(2 * n28 + 1);
    }
  }

  lemma OrOne(v: nat)
    requires v % 2 == 1
    ensures Or(v, 1) == v
  {
    OrZero(v / 2);
  }

  lemma SuffixesDiffer(call: string)
    ensures !(EndsWith(call, "/P") && EndsWith(call, "/R"))
    ensures IsToken(call) ==> !HasSuffix(call)
  {
    if EndsWith(call, "/P") {
      assert call[|call| - 1] == "/P"[1];
    }
  }

  /** The code of a sendable call comes back as its text. */
  lemma SendableReturns(call: string, i3: nat)
    requires Sendable(call) && SuffixFits(call, i3)
    ensures 0 <= Pack28(call).0 < Pow2(28) && Pack28(call).1 == if HasSuffix(call) then 1 else 0
    ensures var u := Unpack28(Pack28(call).0, Pack28(call).1, i3); u == Token(call) || u == Call(call)
  {
    hide Unpack28, Mangled, EndsWith, Pow2, Index38;
    SuffixesDiffer(call);
    PackedCodeFits(call);
    if IsToken(call) {
      TokenReturns(call, i3);
    } else {
      CallReturns(call, i3);
    }
  }

  lemma StdFieldsFit(to: string, de: string, extra: string)
    requires Sendable(to) && Sendable(de) && OneSuffixKind(to, de)
    ensures StdCheck(to, de) == OK && SuffixFits(to, StdI3(to, de)) && SuffixFits(de, StdI3(to, de))
    ensures var f := StdFieldsOf(to, de, extra);
            && f.Fit() && f.n29a / 2 == Pack28(to).0 && f.n29a % 2 == Pack28(to).1
            && f.n29b / 2 == Pack28(de).0 && f.n29b % 2 == Pack28(de).1
  {
    hide Pack28, Unpack28, Or, Sendable, EndsWith, Code29, PackGrid, Pow2;
    SuffixesDiffer(to);
    SuffixesDiffer(de);
    SendableReturns(to, StdI3(to, de));
    SendableReturns(de, StdI3(to, de));
    Code29Splits(Pack28(to).0, Pack28(to).1);
    Code29Splits(Pack28(de).0, Pack28(de).1);
  }

  /** The payload of a message with two sendable calls. */
  function StdSent(to: string, de: string, extra: string): (p: seq<nat>)
    requires Sendable(to) && Sendable(de) && OneSuffixKind(to, de)
    ensures |p| == 10
  {
    StdFieldsFit(to, de, extra);
    StdPayload(StdFieldsOf(to, de, extra))
  }

  /** The third field comes back for every sendable value. */
  lemma ExtraReturns(s: string)
    requires SendableExtra(s)
    ensures UnpackGrid(PackGrid(s) % TOP16, PackGrid(s) / TOP16) == s
  {
    hide UnpackGrid, PackGrid, DdToInt;
    if IsPlainExtra(s) {
      PlainExtraReturns(s);
    } else {
      ReportComesBack(s);
    }
  }

  /** Whatever a receiver's table holds, a standard message is decoded to the three fields that were encoded. */
  lemma StandardReturns(to: string, de: string, extra: string, m: Calls, m': Calls, rc: Rc, textTo: string,
                        textDe: string, textExtra: string)
    requires Sendable(to) && Sendable(de) && OneSuffixKind(to, de) && SendableExtra(extra)
    requires StdDecoded(StdSent(to, de, extra), m, m', rc, textTo, textDe, textExtra)
    ensures rc == OK && textTo == to && textDe == de && textExtra == extra
  {
    hide Pack28, Unpack28, Or, Shl, Shr, Sendable, EndsWith, PackGrid, UnpackGrid, Pow2, StdPayload, SendableExtra,
         Gather29a, Gather29b, GatherGrid, GatherIr, GetI3, Saved, CallsignTables.Answers;
    StdFieldsFit(to, de, extra);
    var f := StdFieldsOf(to, de, extra);
    StdFieldsReturn(f);
    SendableReturns(to, StdI3(to, de));
    SendableReturns(de, StdI3(to, de));
    ExtraReturns(extra);
    var p := StdSent(to, de, extra);
    assert p == StdPayload(f);
    var between: Calls, foundTo: CallsignTables.Option, foundDe: CallsignTables.Option :|
      CallFirst(p, m, between, rc, textTo, foundTo) && CallNext(p, between, m', rc, textDe, foundDe)
      && (rc == OK ==> GatherGrid(p) < TOP16 && textExtra == UnpackGrid(GatherGrid(p), GatherIr(p)));
  }

  /** A packable call that does not come back: a literal Q and a letter are read as the prefix 3X. */
  lemma QCallChanges()
    ensures PackBasecall("QA1B", 4) >= 0 && BaseText(Unmixed(PackBasecall("QA1B", 4), 6)) != "QA1B"
  {
    var c6 := Arranged("QA1B", 4);
    assert c6 == "QA1B  ";
    assert Nchar(c6[0], Place(0)) >= 0 && Nchar(c6[1], Place(1)) >= 0 && Nchar(c6[2], Place(2)) >= 0;
    assert Nchar(c6[3], Place(3)) >= 0 && Nchar(c6[4], Place(4)) >= 0 && Nchar(c6[5], Place(5)) >= 0;
    hide Nchar, Mixed, Unmixed, BaseText;
    assert Mangled("QA1B");
    BaseReturns("QA1B");
  }

  // ----- whatever another station may send -----

  /** The fields of any two codes, a code for the third field and a type. */
  function CodesSent(a: nat, ipa: nat, b: nat, ipb: nat, grid: nat, i3: nat): (f: StdFields)
    requires a < 0x1000_0000 && b < 0x1000_0000 && ipa < 2 && ipb < 2 && grid < WORD16 && i3 < 8
    ensures f.Fit() && f.n29a / 2 == a && f.n29a % 2 == ipa && f.n29b / 2 == b && f.n29b % 2 == ipb
  {
    Pow2Of29();
    StdFields(2 * a + ipa, 2 * b + ipb, grid, i3)
  }

  lemma Pow2Of29()
    ensures Pow2(29) == 0x2000_0000
  {
    Pow2Of16();
    assert Pow2(13) == 8192;
    Pow2Adds(16, 13);
  }

  /** What is shown of an unpacked call: a hash is looked up among all calls stored so far. */
  ghost predicate TextShown(u: Unpacked, m: Calls, text: string) {
    match u
    case Failed => false
    case Token(t) => text == t
    case Call(t) => text == t
    case Hashed(n22) => text == if n22 in m then "<" + m[n22] + ">" else "<...>"
  }

  /** The table after a call is unpacked. */
  function Stored(u: Unpacked, m: Calls): Calls {
    if u.Call? then Saved(m, u.text) else m
  }

  ghost predicate Keys22(m: Calls) {
    forall k :: k in m ==> k < 0x40_0000
  }

  lemma UnpacksTo(n29: nat, i3: nat, m: Calls, m': Calls, ok: bool, text: string, found: CallsignTables.Option)
    requires Keys22(m) && CallUnpacks(n29, i3, m, m', ok, text, found)
    ensures var u := Unpack28(n29 / 2, n29 % 2, i3);
            Keys22(m') && m' == Stored(u, m) && (ok <==> !u.Failed?) && (ok ==> TextShown(u, m, text))
  {
    hide Unpack28, Hash22, Stem, InTable, CallsignTables.Answers;
    if Unpack28(n29 / 2, n29 % 2, i3).Hashed? {
      CallsignTables.FullWidthIsExact(m, Unpack28(n29 / 2, n29 % 2, i3).n22, found);
    }
  }

  /** Any two codes are shown as what each unpacks to, the first code that has no call ending the decoding. */
  lemma CodesShown(a: nat, ipa: nat, b: nat, ipb: nat, grid: nat, i3: nat, m: Calls, m': Calls, rc: Rc, to: string,
                   de: string, extra: string)
    requires a < 0x1000_0000 && b < 0x1000_0000 && ipa < 2 && ipb < 2 && grid < WORD16 && i3 < 8 && Keys22(m)
    requires StdDecoded(StdPayload(CodesSent(a, ipa, b, ipb, grid, i3)), m, m', rc, to, de, extra)
    ensures var first, second := Unpack28(a, ipa, i3), Unpack28(b, ipb, i3);
            && rc == (if first.Failed? then ERROR_CALLSIGN1 else if second.Failed? then ERROR_CALLSIGN2 else OK)
            && m' == (if first.Failed? then m else Stored(second, Stored(first, m)))
            && (rc == OK ==> TextShown(first, m, to) && TextShown(second, Stored(first, m), de))
            && (rc == OK ==> extra == UnpackGrid(grid % TOP16, grid / TOP16))
  {
    hide Unpack28, UnpackGrid, TextShown, Keys22, CallUnpacks, CodesSent, Saved, Gather29a, Gather29b, GatherGrid,
         GatherIr, GetI3, Pow2, StdPayload;
    var f := CodesSent(a, ipa, b, ipb, grid, i3);
    StdFieldsReturn(f);
    CodesSentIs(a, ipa, b, ipb, grid, i3);
    var p := StdPayload(f);
    var between: Calls, foundTo: CallsignTables.Option, foundDe: CallsignTables.Option :|
      CallFirst(p, m, between, rc, to, foundTo) && CallNext(p, between, m', rc, de, foundDe)
      && (rc == OK ==> GatherGrid(p) < TOP16 && extra == UnpackGrid(GatherGrid(p), GatherIr(p)));
    UnpacksTo(f.n29a, i3, m, between, rc != ERROR_CALLSIGN1, to, foundTo);
    if rc != ERROR_CALLSIGN1 {
      UnpacksTo(f.n29b, i3, between, m', rc == OK, de, foundDe);
    }
  }

  lemma CodesSentIs(a: nat, ipa: nat, b: nat, ipb: nat, grid: nat, i3: nat)
    requires a < 0x1000_0000 && b < 0x1000_0000 && ipa < 2 && ipb < 2 && grid < WORD16 && i3 < 8
    ensures var f := CodesSent(a, ipa, b, ipb, grid, i3); f.grid == grid && f.i3 == i3
  {
  }

  /** Code and suffix bit of a sendable call fit. */
  lemma SendableFits(call: string, i3: nat)
    requires Sendable(call) && SuffixFits(call, i3)
    ensures 0 <= Pack28(call).0 < 0x1000_0000 && Pack28(call).1 < 2
  {
    hide Pack28, Sendable, Unpack28, Pow2;
    SendableReturns(call, i3);
    Pow2Of29();
    Pow2Adds(1, 28);
    assert Pow2(1) == 2 by { Pow2Table(); }
  }

  /** A CQ directed to a word, with a sendable call and third field. */
  function DirectedSent(w: string, de: string, extra: string, i3: nat): (p: seq<nat>)
    requires IsWord(w) && Sendable(de) && SuffixFits(de, i3) && i3 < 8
    ensures |p| == 10
  {
    DirectedReturns(w, 0, i3);
    SendableFits(de, i3);
    StdPayload(CodesSent(DirectedCode(w), 0, Pack28(de).0, Pack28(de).1, PackGrid(extra), i3))
  }

  /** It is decoded to CQ with the word, the call and the third field. */
  lemma DirectedCqReturns(w: string, de: string, extra: string, i3: nat, m: Calls, m': Calls, rc: Rc, textTo: string,
                          textDe: string, textExtra: string)
    requires IsWord(w) && Sendable(de) && SuffixFits(de, i3) && i3 < 8 && SendableExtra(extra) && Keys22(m)
    requires StdDecoded(DirectedSent(w, de, extra, i3), m, m', rc, textTo, textDe, textExtra)
    ensures rc == OK && textTo == "CQ " + w && textDe == de && textExtra == extra
  {
    hide IsWord, DirectedCode, Pack28, Unpack28, Sendable, SuffixFits, SendableExtra, UnpackGrid, StdDecoded,
         StdPayload, CodesSent, Keys22, Saved;
    DirectedReturns(w, 0, i3);
    SendableFits(de, i3);
    SendableReturns(de, i3);
    ExtraReturns(extra);
    CodesShown(DirectedCode(w), 0, Pack28(de).0, Pack28(de).1, PackGrid(extra), i3, m, m', rc, textTo, textDe,
               textExtra);
  }
}
