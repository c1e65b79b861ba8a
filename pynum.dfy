/** Python's arithmetic on floats, taken over exact reals: floor division `//`,
    modulo `%` (whose result has the sign of the divisor), `round` (half to
    even) and `int()` (truncation toward zero). */
module PyNum {

  /** `a // b` for floats, as an integer. */
  function FloorDiv(a: real, b: real): int
    requires b != 0.0
  {
    (a / b).Floor
  }

  /** `a % b` for floats. */
  function Mod(a: real, b: real): real
    requires b != 0.0
  {
    a - b * FloorDiv(a, b) as real
  }

  /** The quotient and remainder recombine to the dividend, and the remainder
      lies on the divisor's side of zero, strictly inside one divisor. */
  lemma DivModBounds(a: real, b: real)
    requires b != 0.0
    ensures FloorDiv(a, b) as real * b + Mod(a, b) == a
    ensures b > 0.0 ==> 0.0 <= Mod(a, b) < b
    ensures b < 0.0 ==> b < Mod(a, b) <= 0.0
  {
    var q := FloorDiv(a, b) as real;
    var t := a / b - q;
    assert 0.0 <= t < 1.0;
    assert Mod(a, b) == b * t by {
      assert b * (a / b) == a;
      assert b * t == b * (a / b) - b * q;
    }
    if b > 0.0 {
      FracBound(b, t);
    } else {
      FracBound(-b, t);
      assert (-b) * t == -(b * t);
    }
  }

  lemma DivUnique(n: real, d: real, q: real)
    requires d != 0.0 && d * q == n
    ensures n / d == q
  {
    var y := n / d;
    assert d * y == n;
    assert d * (y - q) == 0.0;
  }

  lemma FracBound(c: real, t: real)
    requires c > 0.0 && 0.0 <= t < 1.0
    ensures 0.0 <= c * t < c
  {
    MulLtMono(t, 1.0, c);
  }

  lemma MulLtMono(u: real, v: real, c: real)
    requires u < v && c > 0.0
    ensures u * c < v * c
  {}

  /** Adding one divisor to the dividend leaves the remainder unchanged and
      raises the quotient by one. */
  lemma ModShift(a: real, b: real)
    requires b != 0.0
    ensures FloorDiv(a + b, b) == FloorDiv(a, b) + 1
    ensures Mod(a + b, b) == Mod(a, b)
  {
    DivUnique(a + b, b, a / b + 1.0);
  }

  /** Python's `round(x)`: the nearest integer, ties going to the even one. */
  function RoundHalfEven(x: real): (r: int)
    ensures -0.5 <= r as real - x <= 0.5
    ensures (r as real - x == 0.5 || x - r as real == 0.5) ==> r % 2 == 0
  {
    var f := x.Floor;
    var d := x - f as real;
    if d < 0.5 then f
    else if d > 0.5 then f + 1
    else if f % 2 == 0 then f else f + 1
  }

  /** Python's `int(x)` for a float: truncation toward zero. */
  function Trunc(x: real): (r: int)
    ensures x >= 0.0 ==> 0 <= r && r as real <= x < r as real + 1.0
    ensures x < 0.0 ==> r <= 0 && r as real - 1.0 < x <= r as real
  {
    if x >= 0.0 then x.Floor else -((-x).Floor)
  }
}
