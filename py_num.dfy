/**
 * Python 2 numeric operators the grid code relies on, written out
 * explicitly: `int()` of a float truncates toward zero, `round()` rounds
 * to the nearest integer with halves away from zero, and `/` on two ints
 * is floor division. Floats are idealised as reals.
 */
module PyNum {

  /** `int(r)` for a float r: truncation toward zero. */
  function Trunc(r: real): (t: int)
    ensures r >= 0.0 ==> t as real <= r < t as real + 1.0
    ensures r < 0.0 ==> t as real - 1.0 < r <= t as real
  {
    if r >= 0.0 then r.Floor else -((-r).Floor)
  }

  /** Python 2 `round(r)`: the nearest integer, a half goes away from zero. */
  function Round(r: real): (t: int)
    ensures r - 0.5 <= t as real <= r + 0.5
    ensures t as real == r + 0.5 ==> r > 0.0
    ensures t as real == r - 0.5 ==> r < 0.0
  {
    if r >= 0.0 then (r + 0.5).Floor else -((-r + 0.5).Floor)
  }

  /** Python 2 `a / b` on ints: the floor of the quotient. */
  function FloorDiv(a: int, b: int): (q: int)
    requires b != 0
    ensures b > 0 ==> b * q <= a < b * q + b
    ensures b < 0 ==> b * q + b < a <= b * q
  {
    if b > 0 then a / b else (-a) / (-b)
  }

  lemma RoundMonotone(a: real, b: real)
    requires a <= b
    ensures Round(a) <= Round(b)
  {
  }

  /** For b > 0, FloorDiv(a, b) is the unique q with b*q <= a < b*q + b. */
  lemma FloorDivUnique(a: int, b: int, q: int)
    requires b > 0 && b * q <= a < b * q + b
    ensures FloorDiv(a, b) == q
  {
    var q' := FloorDiv(a, b);
    if q' < q {
      MulStep(b, q', q);
    } else if q < q' {
      MulStep(b, q, q');
    }
  }

  lemma MulStep(b: int, lo: int, hi: int)
    requires b > 0 && lo < hi
    ensures b * lo + b <= b * hi
  {
    var k := hi - lo;
    assert b * k >= b * 1;
    assert b * hi == b * (lo + k) == b * lo + b * k;
  }

  /** For b > 0, FloorDiv is non-negative exactly on non-negative a. */
  lemma FloorDivSign(a: int, b: int)
    requires b > 0
    ensures FloorDiv(a, b) >= 0 <==> a >= 0
  {
    var q := FloorDiv(a, b);
    if q < 0 {
      MulStep(b, q, 0);
    }
  }

  /** For b > 0, FloorDiv(a, b) < n exactly when a < n * b. */
  lemma FloorDivBelow(a: int, b: int, n: int)
    requires b > 0
    ensures FloorDiv(a, b) < n <==> a < b * n
  {
    var q := FloorDiv(a, b);
    if q < n {
      MulStep(b, q, n);
    } else if n < q {
      MulStep(b, n, q);
    }
  }
}
