// Python's integer and float rounding operators on Dafny's unbounded numbers. Dafny's
// `/` and `%` on int are Euclidean; Python's `//` and `%` round toward minus infinity.
module PyArith {

  /** `a // b` on ints (b != 0): the floor of the exact quotient. */
  function FloorDiv(a: int, b: int): (q: int)
    requires b != 0
    ensures b > 0 ==> b * q <= a < b * q + b
    ensures b < 0 ==> b * q >= a > b * q + b
  {
    if b > 0 then a / b else (-a) / (-b)
  }

  /** `a % b` on ints (b != 0): the remainder takes the sign of the divisor. */
  function FloorMod(a: int, b: int): (m: int)
    requires b != 0
    ensures a == b * FloorDiv(a, b) + m
    ensures b > 0 ==> 0 <= m < b
    ensures b < 0 ==> b < m <= 0
  {
    a - b * FloorDiv(a, b)
  }

  /** `math.floor(x)` / `x // 1` on a float. */
  function Floor(x: real): (n: int)
    ensures n as real <= x < n as real + 1.0
  {
    x.Floor
  }

  /** `math.ceil(x)`. */
  function Ceil(x: real): (n: int)
    ensures x <= n as real < x + 1.0
  {
    -((-x).Floor)
  }

  /** `int(x)` on a float: the whole part, truncated toward zero. */
  function Trunc(x: real): (n: int)
    ensures 0.0 <= x ==> n as real <= x < n as real + 1.0
    ensures x < 0.0 ==> n as real - 1.0 < x <= n as real
  {
    if 0.0 <= x then Floor(x) else -Floor(-x)
  }

  /** `x // y` on floats (y != 0), as the whole number `math.floor(x / y)`. */
  function FloorDivReal(x: real, y: real): (q: int)
    requires y != 0.0
  {
    Floor(x / y)
  }

  /** `x % y` on floats (y != 0): `x - y * (x // y)`, with the sign of `y`. */
  function FloorModReal(x: real, y: real): (m: real)
    requires y != 0.0
  {
    x - y * FloorDivReal(x, y) as real
  }

  /** On naturals and a positive divisor, Python's operators agree with Dafny's. */
  lemma FloorDivNat(a: nat, b: int)
    requires b > 0
    ensures FloorDiv(a, b) == a / b && FloorMod(a, b) == a % b
  {
  }

  /** Python's quotient and remainder of a negative dividend differ from the Euclidean ones: -7 // 2 is -4. */
  lemma FloorDivNegative()
    ensures FloorDiv(-7, 2) == -4 && FloorMod(-7, 2) == 1
    ensures FloorDiv(7, -2) == -4 && FloorMod(7, -2) == -1
  {
  }

  /** The float remainder of a non-negative value by a positive one lies in [0, y). */
  lemma FloorModRealBounds(x: real, y: real)
    requires y > 0.0
    ensures 0.0 <= FloorModReal(x, y) < y
  {
    var q := FloorDivReal(x, y) as real;
    var z := x / y;
    assert q <= z < q + 1.0;
    assert y * z == x;
    MulLe(y, q, z);
    MulLt(y, z, q + 1.0);
    var yq := y * q;
    assert y * (q + 1.0) == yq + y;
    assert y * z < y * (q + 1.0);
    assert x < y * (q + 1.0);
    assert yq <= x < yq + y;
    assert FloorModReal(x, y) == x - yq;
  }

  lemma MulLe(y: real, a: real, b: real)
    requires y > 0.0 && a <= b
    ensures y * a <= y * b
  {
    assert y * b - y * a == y * (b - a);
  }

  lemma MulLt(y: real, a: real, b: real)
    requires y > 0.0 && a < b
    ensures y * a < y * b
  {
    assert y * b - y * a == y * (b - a);
  }
}
