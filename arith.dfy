/**
 * The two C++ conversions the editor relies on when it mixes integers and
 * floating point: converting a float to an int (truncation toward zero) and
 * dividing two ints (the quotient is truncated toward zero). Dafny's own
 * `/` on int is Euclidean, so both are written out here.
 */
module Arith {

  function Abs(a: int): nat {
    if a < 0 then -a else a
  }

  /** A float converted to int by C++: the fractional part is dropped. */
  function Trunc(r: real): (n: int)
    ensures r >= 0.0 ==> n as real <= r < n as real + 1.0
    ensures r < 0.0 ==> n as real - 1.0 < r <= n as real
  {
    if r >= 0.0 then r.Floor else -((-r).Floor)
  }

  /** C++ `a / b` on int: the quotient of the magnitudes, negated when the signs differ. */
  function CDiv(a: int, b: int): int
    requires b != 0
  {
    if (a < 0) == (b < 0) then Abs(a) / Abs(b) else -(Abs(a) / Abs(b))
  }

  /**
   * Dividing by a positive int: on a non-negative dividend the quotient is
   * the floor and the remainder lies in [0, c); on a negative one it is
   * rounded up, so the remainder lies between the dividend and 0.
   */
  lemma CDivResidual(a: int, c: int)
    requires c > 0
    ensures var e := a - c * CDiv(a, c);
      && (a >= 0 ==> 0 <= e < c)
      && (a < 0 ==> a <= e <= 0 && -c < e)
  {
    if a >= 0 {
      assert a == c * (a / c) + a % c;
    } else {
      assert -a == c * ((-a) / c) + (-a) % c;
    }
  }

  /** On a non-negative dividend and a positive divisor, truncation and floor agree. */
  lemma CDivOfNatural(a: int, c: int)
    requires a >= 0 && c > 0
    ensures CDiv(a, c) == a / c
  {
  }

  /** The residual of the floor quotient by a positive int lies in [0, c). */
  lemma FloorResidual(a: int, c: int)
    requires c > 0
    ensures 0 <= a - c * (a / c) < c
  {
    assert a == c * (a / c) + a % c;
  }

  /** The floor quotient by a positive int is the largest q with q * c <= a. */
  lemma FloorBounds(a: int, c: int)
    requires c > 0
    ensures (a / c) * c <= a < (a / c + 1) * c
  {
    var q := a / c;
    assert a == c * q + a % c;
    assert (q + 1) * c == q * c + c;
  }

  /** Multiplying by a positive int keeps order. */
  lemma MulMono(c: int, a: int, b: int)
    requires c > 0 && a <= b
    ensures c * a <= c * b
  {
    assert c * b - c * a == c * (b - a);
  }

  /** A product of two non-negative ints is non-negative. */
  lemma MulNonNegative(a: int, b: int)
    requires a >= 0 && b >= 0
    ensures a * b >= 0
  {
  }

  /** Euclidean division is determined by a quotient and a remainder in [0, c). */
  lemma DivUnique(a: int, c: int, q: int, r: int)
    requires c > 0 && 0 <= r < c && a == c * q + r
    ensures a / c == q
  {
    var q0 := a / c;
    assert a == c * q0 + a % c;
    if q0 < q {
      MulMono(c, q0 + 1, q);
    } else if q0 > q {
      MulMono(c, q + 1, q0);
    }
  }
}
