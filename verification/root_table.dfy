/** A table of roots of unity that meets all a transform requires of one. */
module RootTables {
  import opened Complex
  import opened Dft
  import opened Butterflies

  function Quarter(k: nat): Cpx {
    if k == 0 then ONE else if k == 1 then Cpx(0.0, -1.0) else if k == 2 then Cpx(-1.0, 0.0) else Cpx(0.0, 1.0)
  }

  lemma {:induction false} QuarterTurns(a: nat, b: nat, c: nat)
    requires a < 4 && b < 4 && (c == a + b < 4 || (c + 4 == a + b && c < 4))
    ensures Quarter(c) == Mul(Quarter(a), Quarter(b))
  {
    hide Mul, Quarter;
    if a == 0 {
      QuarterZero();
      MulOne(Quarter(b));
    } else {
      var d := if c == 0 then 3 else c - 1;
      QuarterTurns(a - 1, b, d);
      QuarterTurn(a - 1);
      QuarterTurn(d);
      MulAssoc(Cpx(0.0, -1.0), Quarter(a - 1), Quarter(b));
    }
  }

  lemma QuarterZero()
    ensures Quarter(0) == ONE
  {
  }

  lemma QuarterTurn(k: nat)
    requires k < 4
    ensures Mul(Cpx(0.0, -1.0), Quarter(k)) == Quarter(if k == 3 then 0 else k + 1)
  {
    match k
    case 0 => assert Quarter(0) == Cpx(1.0, 0.0);
    case 1 => assert Quarter(1) == Cpx(0.0, -1.0);
    case 2 => assert Quarter(2) == Cpx(-1.0, 0.0);
    case 3 => assert Quarter(3) == Cpx(0.0, 1.0);
  }

  lemma Wrapped(a: nat, b: nat)
    requires a < 4 && b < 4
    ensures (a + b) % 4 == if a + b < 4 then a + b else a + b - 4
  {
  }

  /** The four quarter turns are such a table: what a transform is set up with exists. */
  lemma TableOfFour(tw: seq<Cpx>)
    requires tw == seq(4, k requires 0 <= k => Quarter(k))
    ensures Config(4, false, [], tw).Valid()
  {
    forall a: nat, b: nat | a < 4 && b < 4
      ensures AddsExponents(tw, a, b)
    {
      hide Quarter, Mul;
      Wrapped(a, b);
      QuarterTurns(a, b, if a + b < 4 then a + b else a + b - 4);
    }
  }
}
