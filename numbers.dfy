/** The numeric operators the modelled code applies to floats, over exact reals:
    `**` with an integer exponent, floor division `//` and modulo `%`. */
module Numbers {

  /** `x ** n` for a natural exponent (`0 ** 0` is 1, as in Python). */
  function Power(x: real, n: nat): (r: real)
    ensures x > 0.0 ==> r > 0.0
    ensures x != 0.0 ==> r != 0.0
    ensures n == 0 ==> r == 1.0
  {
    if n == 0 then 1.0 else x * Power(x, n - 1)
  }

  /** `x ** n` for an integer exponent; Python raises ZeroDivisionError for `0.0 ** -k`,
      which callers rule out or report. */
  function IntPow(x: real, n: int): (r: real)
    requires x != 0.0 || n >= 0
    ensures x > 0.0 ==> r > 0.0
    ensures x != 0.0 ==> r != 0.0
  {
    if n >= 0 then Power(x, n) else 1.0 / Power(x, -n)
  }

  /** `x ** -1` is the reciprocal and `x ** 1` is `x`. */
  lemma IntPowUnitExponents(x: real)
    requires x != 0.0
    ensures IntPow(x, 1) == x && IntPow(x, -1) == 1.0 / x && IntPow(x, 2) == x * x
  {
    assert Power(x, 1) == x * Power(x, 0);
    assert Power(x, 2) == x * Power(x, 1);
  }

  /** Python's float floor division `a // b`: the floor of the exact quotient. */
  function FloorDiv(a: real, b: real): (r: real)
    requires b != 0.0
    ensures r <= a / b < r + 1.0
    ensures r == r.Floor as real
  {
    (a / b).Floor as real
  }

  /** Python's float modulo `a % b`: the remainder takes the sign of the divisor. */
  function Mod(a: real, b: real): (r: real)
    requires b != 0.0
    ensures b > 0.0 ==> 0.0 <= r < b
    ensures b < 0.0 ==> b < r <= 0.0
  {
    FloorDivBounds(a, b);
    a - b * FloorDiv(a, b)
  }

  /** Multiplying the floor bounds back by the divisor. */
  lemma FloorDivBounds(a: real, b: real)
    requires b != 0.0
    ensures b > 0.0 ==> b * FloorDiv(a, b) <= a < b * FloorDiv(a, b) + b
    ensures b < 0.0 ==> b * FloorDiv(a, b) + b < a <= b * FloorDiv(a, b)
  {
    FloorDivLower(a, b);
    FloorDivUpper(a, b);
  }

  lemma FloorDivLower(a: real, b: real)
    requires b != 0.0
    ensures b > 0.0 ==> b * FloorDiv(a, b) <= a
    ensures b < 0.0 ==> a <= b * FloorDiv(a, b)
  {
    Scale(FloorDiv(a, b), a / b, b);
  }

  lemma FloorDivUpper(a: real, b: real)
    requires b != 0.0
    ensures b > 0.0 ==> a < b * FloorDiv(a, b) + b
    ensures b < 0.0 ==> b * FloorDiv(a, b) + b < a
  {
    Scale(a / b, FloorDiv(a, b) + 1.0, b);
  }

  /** Multiplying an inequality by a non-zero factor. */
  lemma Scale(x: real, y: real, b: real)
    requires x <= y
    ensures b > 0.0 ==> b * x <= b * y
    ensures b < 0.0 ==> b * x >= b * y
    ensures x < y && b > 0.0 ==> b * x < b * y
    ensures x < y && b < 0.0 ==> b * x > b * y
  {
  }

  /** Floor division and modulo fit together: `a == b * (a // b) + a % b`. */
  lemma FloorDivModIdentity(a: real, b: real)
    requires b != 0.0
    ensures b * FloorDiv(a, b) + Mod(a, b) == a
  {
  }
}
