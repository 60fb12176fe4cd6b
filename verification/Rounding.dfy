/** Exact decimal rounding: the model of Python's `round` on exact values (ties go to the even
    neighbour). Percentages and story points are kept as `real`, so the only loss of precision in
    the model is the rounding the program asks for. The lemmas say that rounding keeps the order of
    values, moves each by at most half a unit and leaves values with few enough decimals alone. */
module Rounding {

  function RoundHalfEven(x: real): (n: int)
    ensures -0.5 <= n as real - x <= 0.5
  {
    var low := x.Floor;
    var rest := x - low as real;
    if rest < 0.5 then low
    else if rest > 0.5 then low + 1
    else if low % 2 == 0 then low
    else low + 1
  }

  /** Halfway between two whole numbers the even one is taken. */
  lemma TiesGoToEven(n: int)
    ensures RoundHalfEven(n as real + 0.5) % 2 == 0
  {
    assert (n as real + 0.5).Floor == n;
  }

  function Round2(x: real): (r: real)
    ensures -0.005 <= r - x <= 0.005
  {
    RoundHalfEven(x * 100.0) as real / 100.0
  }

  function Round4(x: real): (r: real)
    ensures -0.00005 <= r - x <= 0.00005
  {
    RoundHalfEven(x * 10000.0) as real / 10000.0
  }

  lemma RoundHalfEvenMonotone(x: real, y: real)
    requires x <= y
    ensures RoundHalfEven(x) <= RoundHalfEven(y)
  {
    assert x.Floor <= y.Floor;
    if x.Floor < y.Floor {
      assert RoundHalfEven(x) <= x.Floor + 1 <= y.Floor <= RoundHalfEven(y);
    }
  }

  lemma Round2Monotone(x: real, y: real)
    requires x <= y
    ensures Round2(x) <= Round2(y)
  {
    RoundHalfEvenMonotone(x * 100.0, y * 100.0);
  }

  /** A whole number of hundredths is rounded to itself. */
  lemma Round2Exact(n: int)
    ensures Round2(n as real / 100.0) == n as real / 100.0
  {
    assert n as real / 100.0 * 100.0 == n as real;
  }

  lemma Round2InRange(x: real)
    requires 0.0 <= x <= 100.0
    ensures 0.0 <= Round2(x) <= 100.0
  {
    Round2Monotone(0.0, x);
    Round2Monotone(x, 100.0);
    Round2Exact(0);
    Round2Exact(10000);
  }

  /** The value of a rounded number, counted in hundredths. */
  function Hundredths(x: real): int {
    RoundHalfEven(x * 100.0)
  }

  // Arithmetic of quotients.

  lemma DivideMonotone(a: real, b: real, d: real)
    requires a <= b && d > 0.0
    ensures a / d <= b / d
  {
    assert a / d * d == a && b / d * d == b;
  }

  lemma MultiplyMonotone(a: real, b: real, d: real)
    requires a <= b && d >= 0.0
    ensures a * d <= b * d
  {}

  function Share(part: real, whole: real, size: int): real
    requires whole > 0.0
  {
    part / whole * size as real
  }

  /** A share of `size`, rounded to a whole number. */
  function Scaled(part: real, whole: real, size: int): int
    requires whole > 0.0
  {
    RoundHalfEven(Share(part, whole, size))
  }

  lemma ScaledMonotone(a: real, b: real, whole: real, size: int)
    requires a <= b && whole > 0.0 && size >= 0
    ensures Scaled(a, whole, size) <= Scaled(b, whole, size)
  {
    DivideMonotone(a, b, whole);
    MultiplyMonotone(a / whole, b / whole, size as real);
    RoundHalfEvenMonotone(Share(a, whole, size), Share(b, whole, size));
  }

  lemma ScaledEnds(whole: real, size: int)
    requires whole > 0.0
    ensures Scaled(0.0, whole, size) == 0 && Scaled(whole, whole, size) == size
  {
    assert 0.0 / whole == 0.0 && whole / whole == 1.0;
    assert 0.0 * size as real == 0.0 && 1.0 * size as real == size as real;
  }
}
