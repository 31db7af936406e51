/** What the QSO machine takes the third field of a decoded message for. */
module HeardKinds {
  import opened Texts
  import opened Standard
  import opened StandardMessages
  import opened Qso
  import TypeFour

  /** The grid that reads like a roger. */
  const RR73_GRID := 32373

  /** Of everything a standard message can show behind the calls, reports are signals with or without an R, 73 ends a
      QSO, RR73 rogers, also as the grid of that name, and all else counts as a locator. */
  lemma ShownKind(code: nat, ir: nat)
    requires code < TOP16 && ir < 2
    ensures ParseMsg(UnpackGrid(code, ir)) ==
            if code > MAXGRID4 + 4 then SigMsg
            else if code == MAXGRID4 + 4 then S73Msg
            else if code == MAXGRID4 + 3 || (code == RR73_GRID && ir == 0) then RR73Msg
            else LocMsg
  {
    hide GridText, IntToDd;
    if code <= MAXGRID4 {
      GridKind(code);
      assert ("R " + GridText(code))[1] == ' ' && "" + GridText(code) == GridText(code);
    } else if code <= MAXGRID4 + 4 {
      WordKinds();
    } else {
      assert Pow10(1) == 10;
      ReportKind(code - MAXGRID4 - 35);
    }
  }

  lemma WordKinds()
    ensures ParseMsg("") == ParseMsg("RRR") == LocMsg && ParseMsg("RR73") == RR73Msg && ParseMsg("73") == S73Msg
  {
    assert Atoi("73", 0) == Atoi("73"[1..], 7) && "73"[1..] == "3";
    assert Atoi("3", 7) == Atoi("3"[1..], 73) && "3"[1..] == "";
  }

  /** The same holds for the reports of messages with a nonstandard call. */
  lemma NonstdKind(nrpt: nat)
    requires nrpt < 4
    ensures ParseMsg(TypeFour.ReportText(nrpt)) == if nrpt == 3 then S73Msg else if nrpt == 2 then RR73Msg else LocMsg
  {
    WordKinds();
  }

  lemma GridKind(code: nat)
    requires code <= MAXGRID4
    ensures var g := GridText(code);
            && ParseMsg(g) == (if code == RR73_GRID then RR73Msg else LocMsg)
            && ParseMsg("R " + g) == LocMsg
  {
    var g := GridText(code);
    assert 'A' <= g[0] <= 'R' && 'A' <= g[1] <= 'R';
    assert '0' <= g[2] <= '9';
    assert |"R " + g| == 6;
    RogerGrid(code);
  }

  lemma RogerGrid(code: nat)
    requires code <= MAXGRID4
    ensures GridText(code) == "RR73" <==> code == RR73_GRID
  {
    var a, b, c, d := code / 1800 % 18, code / 100 % 18, code / 10 % 10, code % 10;
    var g := GridText(code);
    if g == "RR73" {
      assert g[0] == 'R' && g[1] == 'R' && g[2] == '7' && g[3] == '3';
      assert a == 17 && b == 17 && c == 7 && d == 3;
    }
  }

  lemma ReportKind(v: int)
    requires -200 * Pow10(1) < v < 200 * Pow10(1)
    ensures ParseMsg(IntToDd(v, 2, true)) == SigMsg && ParseMsg("R" + IntToDd(v, 2, true)) == SigMsg
  {
    hide DigitsFrom;
    var t := IntToDd(v, 2, true);
    TwoDigits(if v < 0 then -v else v);
    assert |t| == 3 && (t[0] == '+' || t[0] == '-');
    assert ("R" + t)[0] == 'R' && ("R" + t)[1] == t[0] && |"R" + t| == 4;
  }

  lemma TwoDigits(v: nat)
    requires v < 200 * Pow10(1)
    ensures |DigitsFrom(v, 2)| == 2
  {
    hide Pow10, Quotient, Remainder;
    DigitBounds(v, 2);
  }
}
