/** Python's `round(value, ndigits)` over exact reals: round to the nearest
    multiple of `10^-ndigits`, ties to the even neighbour. `ndigits` may be
    negative (`round(1234.5, -2) == 1200.0`). */
module Rounding {

  function Pow10Nat(n: nat): (p: real)
    ensures p >= 1.0
  {
    if n == 0 then 1.0 else 10.0 * Pow10Nat(n - 1)
  }

  /** `10^d` for any integer `d`. */
  function Pow10(d: int): (p: real)
    ensures p > 0.0
  {
    if d >= 0 then Pow10Nat(d) else 1.0 / Pow10Nat(-d)
  }

  /** Half of the rounding unit `10^-d`: the largest error rounding may make. */
  function HalfUnit(d: int): (h: real)
    ensures h > 0.0
  {
    0.5 / Pow10(d)
  }

  /** The nearest integer to `s`, ties going to the even one. */
  function RoundToInt(s: real): (n: int)
    ensures s - 0.5 <= n as real <= s + 0.5
  {
    var f := s.Floor;
    var frac := s - f as real;
    if frac < 0.5 then f
    else if frac > 0.5 then f + 1
    else if f % 2 == 0 then f
    else f + 1
  }

  /** Rounds `x` to the nearest multiple of `1 / p`. */
  function RoundScaled(x: real, p: real): real
    requires p > 0.0
  {
    RoundToInt(x * p) as real / p
  }

  /** `round(x, d)`. */
  function RoundHalfEven(x: real, d: int): real {
    RoundScaled(x, Pow10(d))
  }

  lemma DivLe(a: real, b: real, p: real)
    requires p > 0.0 && a <= b
    ensures a / p <= b / p
  {
    assert b / p - a / p == (b - a) / p;
  }

  lemma MulPos(a: real, p: real)
    requires p > 0.0
    ensures a > 0.0 ==> a * p > 0.0
    ensures a >= 0.0 ==> a * p >= 0.0
    ensures a < 0.0 ==> a * p < 0.0
    ensures a <= 0.0 ==> a * p <= 0.0
  {
  }

  lemma DivSign(a: real, p: real)
    requires p > 0.0
    ensures a > 0.0 ==> a / p > 0.0
    ensures a < 0.0 ==> a / p < 0.0
    ensures a == 0.0 ==> a / p == 0.0
  {
  }

  lemma DivOfScaled(x: real, c: real, p: real)
    requires p > 0.0
    ensures (x * p + c) / p == x + c / p
  {
    assert (x * p) / p == x;
  }

  lemma RoundToIntOfInt(n: int)
    ensures RoundToInt(n as real) == n
  {
    assert (n as real).Floor == n;
  }

  lemma ScaledError(x: real, p: real)
    requires p > 0.0
    ensures x - 0.5 / p <= RoundScaled(x, p) <= x + 0.5 / p
  {
    var n := RoundToInt(x * p) as real;
    DivLe(n, x * p + 0.5, p);
    DivOfScaled(x, 0.5, p);
    DivLe(x * p - 0.5, n, p);
    DivOfScaled(x, -0.5, p);
  }

  lemma ScaledSign(x: real, p: real)
    requires p > 0.0
    ensures x >= 0.0 ==> RoundScaled(x, p) >= 0.0
    ensures x <= 0.0 ==> RoundScaled(x, p) <= 0.0
    ensures x == 0.0 ==> RoundScaled(x, p) == 0.0
    ensures x > 0.5 / p ==> RoundScaled(x, p) > 0.0
    ensures x < -0.5 / p ==> RoundScaled(x, p) < 0.0
  {
    var s := x * p;
    var n := RoundToInt(s);
    MulPos(x, p);
    if x >= 0.0 {
      assert s.Floor >= 0;
    }
    if x <= 0.0 {
      assert s.Floor <= 0;
    }
    if x == 0.0 {
      RoundToIntOfInt(0);
    }
    if x > 0.5 / p {
      DivOfScaled(x, -0.5, p);
      MulPos(x - 0.5 / p, p);
    }
    if x < -0.5 / p {
      DivOfScaled(x, 0.5, p);
      MulPos(x + 0.5 / p, p);
    }
    DivSign(n as real, p);
  }

  lemma RescaledInt(y: real, n: int, p: real)
    requires p > 0.0 && y * p == n as real
    ensures RoundScaled(y, p) == n as real / p
  {
    RoundToIntOfInt(n);
  }

  lemma ScaledIdempotent(x: real, p: real)
    requires p > 0.0
    ensures RoundScaled(RoundScaled(x, p), p) == RoundScaled(x, p)
  {
    var n := RoundToInt(x * p);
    var y := n as real / p;
    assert y * p == n as real;
    RescaledInt(y, n, p);
  }

  /** Rounding moves a value by at most half a unit of the last kept digit. */
  lemma RoundingError(x: real, d: int)
    ensures x - HalfUnit(d) <= RoundHalfEven(x, d) <= x + HalfUnit(d)
  {
    ScaledError(x, Pow10(d));
  }

  /** Rounding never flips a sign, maps zero to zero, and keeps the sign of
      every value more than half a unit away from zero strictly. */
  lemma RoundKeepsSign(x: real, d: int)
    ensures x >= 0.0 ==> RoundHalfEven(x, d) >= 0.0
    ensures x <= 0.0 ==> RoundHalfEven(x, d) <= 0.0
    ensures x == 0.0 ==> RoundHalfEven(x, d) == 0.0
    ensures x > HalfUnit(d) ==> RoundHalfEven(x, d) > 0.0
    ensures x < -HalfUnit(d) ==> RoundHalfEven(x, d) < 0.0
  {
    ScaledSign(x, Pow10(d));
  }

  /** Rounding an already-rounded value changes nothing. */
  lemma RoundIdempotent(x: real, d: int)
    ensures RoundHalfEven(RoundHalfEven(x, d), d) == RoundHalfEven(x, d)
  {
    ScaledIdempotent(x, Pow10(d));
  }

  /** A value exactly half a unit from zero rounds to zero: the tie goes to
      the even neighbour 0, so the sign is kept only strictly beyond it.
      The ties below are exact binary floats, so Python's `round` sees the
      same ties. */
  lemma HalfUnitTiesToZero()
    ensures RoundHalfEven(0.5, 0) == 0.0 && RoundHalfEven(-0.5, 0) == 0.0
    ensures RoundHalfEven(2.5, 0) == 2.0
    ensures RoundHalfEven(0.125, 2) == 0.12
    ensures RoundHalfEven(0.375, 2) == 0.38
  {
    assert Pow10(0) == 1.0;
    assert Pow10(2) == 100.0;
    assert (0.125 * 100.0).Floor == 12;
    assert (0.375 * 100.0).Floor == 37;
  }
}
