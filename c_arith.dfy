/**
 * Integer division as C and C++ define it: the quotient is truncated toward
 * zero and the remainder takes the sign of the dividend.  Dafny's own `/` and
 * `%` are Euclidean, so every place where the modelled code divides a value
 * that may be negative goes through these two functions.
 */
module CArith {

  /** `a / b` in C++. */
  function CDiv(a: int, b: int): (q: int)
    requires b != 0
    ensures a >= 0 && b > 0 ==> q >= 0
    ensures a <= 0 && b > 0 ==> q <= 0
  {
    if a >= 0 then
      (if b > 0 then a / b else -(a / -b))
    else
      (if b > 0 then -((-a) / b) else (-a) / (-b))
  }

  /** `a % b` in C++. */
  function CRem(a: int, b: int): (r: int)
    requires b != 0
    ensures a >= 0 ==> 0 <= r < (if b > 0 then b else -b)
    ensures a < 0 ==> -(if b > 0 then b else -b) < r <= 0
  {
    if a >= 0 then
      (if b > 0 then a % b else a % -b)
    else
      (if b > 0 then -((-a) % b) else -((-a) % (-b)))
  }

  /** On non-negative operands the C++ quotient is Dafny's. */
  lemma CDivNonNegative(a: int, b: int)
    requires a >= 0 && b > 0
    ensures CDiv(a, b) == a / b && CRem(a, b) == a % b
  {
  }

  /** The product of two non-negative numbers is non-negative. */
  lemma MulNonNegative(a: int, b: int)
    requires a >= 0 && b >= 0
    ensures a * b >= 0
  {
  }

  /** An exact multiple divides back to its factor. */
  lemma CDivExact(q: int, b: int)
    requires q >= 0 && b > 0
    ensures CDiv(q * b, b) == q
  {
    var a := q * b;
    MulNonNegative(q, b);
    var d, r := a / b, a % b;
    assert a == b * d + r && 0 <= r < b;
    assert b * (d - q) == -r by { assert b * d - b * q == b * (d - q); }
    if d > q {
      MulNonNegative(b, d - q - 1);
    } else if d < q {
      MulNonNegative(b, q - d - 1);
    }
  }
}
