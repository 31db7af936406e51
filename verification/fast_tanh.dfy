/** The rational functions that the decoder uses for tanh and atanh, over reals: they keep the sign as far as belief
    propagation needs it, although the first one exceeds 1. */
module FastTanh {
  import opened BeliefPropagation
  import opened MessagePassing
  import opened Reception

  function TanhTop(x: real): real {
    x * (945.0 + x * x * (105.0 + x * x))
  }

  function TanhBottom(x: real): real {
    945.0 + x * x * (420.0 + x * x * 15.0)
  }

  function FastTanh(x: real): real {
    if x < -4.97 then -1.0
    else if x > 4.97 then 1.0
    else
      BottomPositive(x);
      TanhTop(x) / TanhBottom(x)
  }

  function AtanhTop(x: real): real {
    x * (945.0 + x * x * (-735.0 + x * x * 64.0))
  }

  function AtanhBottom(x: real): real {
    945.0 + x * x * (-1050.0 + x * x * 225.0)
  }

  /** The source divides without looking; its divisor vanishes only at four irrational numbers. */
  function FastAtanh(x: real): real {
    if AtanhBottom(x) == 0.0 then 0.0 else AtanhTop(x) / AtanhBottom(x)
  }

  const FAST := Tanh(FastTanh, FastAtanh)

  /** How far above 1 the approximated tanh may be. */
  const BOUND := 1.016

  lemma BottomPositive(x: real)
    ensures TanhBottom(x) >= 945.0
  {
    var y := x * x;
    assert y >= 0.0 && y * (420.0 + y * 15.0) >= 0.0;
  }

  lemma TopSign(x: real)
    ensures x > 0.0 ==> TanhTop(x) > 0.0
    ensures TanhTop(-x) == -TanhTop(x) && TanhBottom(-x) == TanhBottom(x)
  {
    var y := x * x;
    assert y >= 0.0 && y * (105.0 + y) >= 0.0;
    assert (-x) * (-x) == y;
    if x > 0.0 {
      assert x * (945.0 + y * (105.0 + y)) > 0.0;
    }
  }

  /** BOUND times the divisor less the dividend, as a polynomial, with its highest powers grouped. */
  function Margin(c0: real, c1: real, c2: real, c3: real, c4: real, x: real): real {
    c0 + x * (c1 + x * (c2 + x * (c3 + x * (c4 - x))))
  }

  lemma TopIs(x: real)
    ensures TanhTop(x) == 945.0 * x + 105.0 * (x * (x * x)) + x * ((x * x) * (x * x))
  {
    var y := x * x;
    assert y * (105.0 + y) == 105.0 * y + y * y;
    assert x * (945.0 + (105.0 * y + y * y)) == 945.0 * x + 105.0 * (x * y) + x * (y * y);
  }

  lemma BottomIs(x: real)
    ensures TanhBottom(x) == 945.0 + 420.0 * (x * x) + 15.0 * ((x * x) * (x * x))
  {
    var y := x * x;
    assert y * (420.0 + y * 15.0) == 420.0 * y + 15.0 * (y * y);
  }

  lemma MarginIs(x: real)
    ensures BOUND * TanhBottom(x) - TanhTop(x) == Margin(960.12, -945.0, 426.72, -105.0, 15.24, x)
  {
    hide TanhTop, TanhBottom, Margin;
    TopIs(x);
    BottomIs(x);
    Expanded5(960.12, -945.0, 426.72, -105.0, 15.24, x);
  }

  lemma Expanded5(c0: real, c1: real, c2: real, c3: real, c4: real, x: real)
    ensures var y := x * x;
            Margin(c0, c1, c2, c3, c4, x) == c0 + c1 * x + c2 * y + c3 * (x * y) + c4 * (y * y) - x * (y * y)
  {
    var y := x * x;
    var a4 := c4 - x;
    var a3, a2 := c3 + x * a4, c2 + x * (c3 + x * a4);
    assert x * a4 == c4 * x - y;
    assert x * a3 == c3 * x + c4 * y - x * y;
    assert x * a2 == c2 * x + c3 * y + c4 * (x * y) - y * y;
  }

  /** The same polynomial seen from 2 and from 3. */
  lemma MarginFrom2(t: real)
    ensures Margin(960.12, -945.0, 426.72, -105.0, 15.24, 2.0 + t) == Margin(148.84, -90.44, 82.48, -23.08, 5.24, t)
  {
    var x, s := 2.0 + t, t * t;
    var y, w := x * x, t * s;
    assert y == 4.0 + 4.0 * t + s;
    assert x * y == 8.0 + 12.0 * t + 6.0 * s + w by { assert t * y == 4.0 * t + 4.0 * s + w; }
    assert y * y == 16.0 + 32.0 * t + 24.0 * s + 8.0 * w + s * s by { SquareOf(4.0, 4.0, t); }
    assert x * (y * y) == 32.0 + 80.0 * t + 80.0 * s + 40.0 * w + 10.0 * (s * s) + t * (s * s) by {
      assert t * (y * y) == 16.0 * t + 32.0 * s + 24.0 * w + 8.0 * (s * s) + t * (s * s);
    }
    Expanded5(960.12, -945.0, 426.72, -105.0, 15.24, x);
    Expanded5(148.84, -90.44, 82.48, -23.08, 5.24, t);
  }

  lemma MarginFrom3(t: real)
    ensures Margin(960.12, -945.0, 426.72, -105.0, 15.24, 3.0 + t) == Margin(122.04, 21.24, 34.68, -12.12, 0.24, t)
  {
    var x, s := 3.0 + t, t * t;
    var y, w := x * x, t * s;
    assert y == 9.0 + 6.0 * t + s;
    assert x * y == 27.0 + 27.0 * t + 9.0 * s + w by { assert t * y == 9.0 * t + 6.0 * s + w; }
    assert y * y == 81.0 + 108.0 * t + 54.0 * s + 12.0 * w + s * s by { SquareOf(9.0, 6.0, t); }
    assert x * (y * y) == 243.0 + 405.0 * t + 270.0 * s + 90.0 * w + 15.0 * (s * s) + t * (s * s) by {
      assert t * (y * y) == 81.0 * t + 108.0 * s + 54.0 * w + 12.0 * (s * s) + t * (s * s);
    }
    Expanded5(960.12, -945.0, 426.72, -105.0, 15.24, x);
    Expanded5(122.04, 21.24, 34.68, -12.12, 0.24, t);
  }

  lemma SquareOf(a: real, b: real, t: real)
    ensures var y, s := a + b * t + t * t, t * t;
            y * y == a * a + 2.0 * (a * b) * t + (2.0 * a + b * b) * s + 2.0 * b * (t * s) + s * s
  {
    var y, s := a + b * t + t * t, t * t;
    assert a * y == a * a + a * b * t + a * s;
    assert (b * t) * y == a * b * t + b * b * s + b * (t * s);
    assert s * y == a * s + b * (t * s) + s * s;
  }

  lemma ProductNonNegative(a: real, b: real)
    requires a >= 0.0 && b >= 0.0
    ensures a * b >= 0.0
  {
  }

  lemma LowMargin(t: real)
    requires -2.0 <= t <= 1.0
    ensures Margin(148.84, -90.44, 82.48, -23.08, 5.24, t) >= 0.0
  {
    var s := t * t;
    ProductNonNegative(s, 5.24 - t);
    var inner := 82.48 - 23.08 * t + s * (5.24 - t);
    ProductNonNegative(s, inner);
    Nested(148.84, -90.44, 82.48, -23.08, 5.24, t);
  }

  lemma HighMargin(t: real)
    requires 0.0 <= t <= 2.0
    ensures Margin(122.04, 21.24, 34.68, -12.12, 0.24, t) >= 0.0
  {
    var s := t * t;
    ProductNonNegative(t, 2.0 - t);
    ProductNonNegative(s, 2.0 - t);
    assert s * (0.24 - t) == s * (2.0 - t) - 1.76 * s;
    var inner := 34.68 - 12.12 * t + s * (0.24 - t);
    ProductNonNegative(s, inner);
    Nested(122.04, 21.24, 34.68, -12.12, 0.24, t);
  }

  lemma MarginPositive(x: real)
    requires 0.0 <= x <= 4.97
    ensures TanhTop(x) <= BOUND * TanhBottom(x)
  {
    hide TanhTop, TanhBottom, Margin;
    MarginIs(x);
    if x <= 3.0 {
      MarginFrom2(x - 2.0);
      LowMargin(x - 2.0);
    } else {
      MarginFrom3(x - 3.0);
      HighMargin(x - 3.0);
    }
  }

  lemma Nested(c0: real, c1: real, c2: real, c3: real, c4: real, t: real)
    ensures Margin(c0, c1, c2, c3, c4, t) == c0 + c1 * t + (t * t) * (c2 + c3 * t + (t * t) * (c4 - t))
  {
    var s, a := t * t, c4 - t;
    assert t * (t * a) == s * a;
    assert t * (t * (c2 + (c3 * t + s * a))) == s * (c2 + (c3 * t + s * a));
  }

  lemma Quotient(a: real, b: real, bound: real)
    requires b > 0.0
    ensures a > 0.0 ==> a / b > 0.0
    ensures a <= bound * b ==> a / b <= bound
  {
    var q := a / b;
    assert q * b == a;
    SignOfProduct(q, b);
    SignOfProduct(bound - q, b);
    assert (bound - q) * b == bound * b - a;
  }

  lemma FastTanhSign(x: real)
    ensures TanhSign(FAST, BOUND, x)
  {
    if x > 4.97 || x < -4.97 || x == 0.0 {
    } else if x > 0.0 {
      FastTanhPositive(x);
    } else {
      FastTanhPositive(-x);
      TopSign(-x);
      BottomPositive(x);
      assert FastTanh(x) == -FastTanh(-x) by { Opposite(TanhTop(-x), TanhBottom(x)); }
    }
  }

  lemma Opposite(a: real, b: real)
    requires b > 0.0
    ensures -a / b == -(a / b)
  {
  }

  lemma FastTanhPositive(x: real)
    requires 0.0 < x <= 4.97
    ensures 0.0 < FastTanh(x) <= BOUND
  {
    TopSign(x);
    BottomPositive(x);
    MarginPositive(x);
    Quotient(TanhTop(x), TanhBottom(x), BOUND);
  }

  lemma AtanhParts(x: real)
    requires 0.0 < x <= 1.1
    ensures AtanhTop(x) > 0.0 && AtanhBottom(x) > 0.0
    ensures AtanhTop(-x) == -AtanhTop(x) && AtanhBottom(-x) == AtanhBottom(x)
  {
    var y := x * x;
    ProductNonNegative(x, 1.1 - x);
    assert x * (1.1 - x) == 1.1 * x - y;
    assert (-x) * (-x) == y;
    assert x * (945.0 + y * (-735.0 + y * 64.0)) > 0.0 by {
      assert y * (y * 64.0) >= 0.0;
      assert 945.0 + y * (-735.0 + y * 64.0) > 0.0;
    }
    assert (1.21 - y) * (777.75 - 225.0 * y) >= 0.0;
    assert (1.21 - y) * (777.75 - 225.0 * y) == 941.0775 - 1050.0 * y + 225.0 * (y * y);
  }

  lemma FastAtanhSign(x: real)
    ensures AtanhSign(FAST, 1.1, x)
  {
    if 0.0 < x <= 1.1 {
      AtanhParts(x);
      Quotient(AtanhTop(x), AtanhBottom(x), 0.0);
    } else if -1.1 <= x < 0.0 {
      AtanhParts(-x);
      Quotient(AtanhTop(-x), AtanhBottom(-x), 0.0);
      Opposite(AtanhTop(-x), AtanhBottom(x));
    }
  }

  lemma BoundToSixth()
    ensures 1.0 <= Power(BOUND, 6) <= 1.1
  {
    assert Power(BOUND, 1) == 1.016;
    assert Power(BOUND, 2) == 1.032256;
    assert Power(BOUND, 3) <= 1.05;
    assert Power(BOUND, 4) <= 1.0668;
    assert Power(BOUND, 5) <= 1.0839;
    PowerGrows(BOUND, 0, 6);
  }

  /** The approximations keep the sign: all that the lemmas about the signs of messages ask for. */
  lemma FastKeepsSign()
    ensures KeepsSign(FAST, BOUND)
  {
    hide FastTanh, FastAtanh, Power;
    forall x
      ensures TanhSign(FAST, BOUND, x)
    {
      FastTanhSign(x);
    }
    BoundToSixth();
    forall x
      ensures AtanhSign(FAST, Power(BOUND, 6), x)
    {
      FastAtanhSign(x);
    }
  }
}
