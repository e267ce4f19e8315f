/** Rounding to a number of decimal places, ties to the even neighbour. */
module Rounding {
  import opened Reals

  const TWO_PLACES := 100.0
  const FOUR_PLACES := 10000.0
  const EIGHT_PLACES := 100000000.0

  function HalfEven(y: real): (n: int)
    ensures n as real - 0.5 <= y <= n as real + 0.5
  {
    var f := y.Floor;
    var d := y - f as real;
    if d < 0.5 || (d == 0.5 && f % 2 == 0) then f else f + 1
  }

  function Round(x: real, scale: real): real
    requires scale > 0.0
  {
    HalfEven(x * scale) as real / scale
  }

  lemma Cancel(x: real, scale: real)
    requires scale > 0.0
    ensures (x * scale) / scale == x
  {
  }

  lemma NearScaled(x: real, scaled: real, n: real, scale: real)
    requires scale > 0.0 && scaled == x * scale && n - 0.5 <= scaled <= n + 0.5
    ensures n / scale - 0.5 / scale <= x <= n / scale + 0.5 / scale
  {
    Cancel(x, scale);
    QuotientMonotone(n - 0.5, scaled, scale);
    QuotientMonotone(scaled, n + 0.5, scale);
    QuotientOfSum(n, 0.5, scale);
  }

  /** A rounded value is within half a unit of the last place. */
  lemma RoundIsNear(x: real, scale: real)
    requires scale > 0.0
    ensures Round(x, scale) - 0.5 / scale <= x <= Round(x, scale) + 0.5 / scale
  {
    NearScaled(x, x * scale, HalfEven(x * scale) as real, scale);
  }

  lemma HalfEvenMonotone(x: real, y: real)
    requires x <= y
    ensures HalfEven(x) <= HalfEven(y)
  {
  }

  lemma RoundMonotone(x: real, y: real, scale: real)
    requires scale > 0.0 && x <= y
    ensures Round(x, scale) <= Round(y, scale)
  {
    assert (y - x) * scale >= 0.0;
    HalfEvenMonotone(x * scale, y * scale);
    QuotientMonotone(HalfEven(x * scale) as real, HalfEven(y * scale) as real, scale);
  }

  /** A tie goes to the even neighbour. */
  lemma TiesGoToEven(n: int)
    ensures HalfEven(n as real + 0.5) % 2 == 0
  {
    assert (n as real + 0.5).Floor == n;
  }

  /** A rounded value is a whole number of units of the last place, and is left alone by rounding. */
  lemma RoundIsWhole(x: real, scale: real)
    requires scale > 0.0
    ensures Round(x, scale) * scale == HalfEven(x * scale) as real
    ensures Round(Round(x, scale), scale) == Round(x, scale)
  {
    var n := HalfEven(x * scale);
    assert n as real / scale * scale == n as real;
    assert HalfEven(n as real) == n;
  }
}
