/**
 Python 3's `round()` applied to an exact quotient `n / d`: the nearest
 integer, with a tie going to the even neighbour ("banker's rounding").
 The dashboard only rounds quotients of small integers by 60 or 3600, which
 a double holds closely enough that no float error can move a value across a
 half-way point, so the integer model below gives the same results.
 */
module Rounding {

  /** `q` is at most half a step away from `n / d`. */
  predicate WithinHalf(n: int, d: int, q: int)
    requires d > 0
  {
    -d <= 2 * (n - d * q) <= d
  }

  /** `q` is the integer nearest to `n / d`, ties going to the even one. */
  predicate RoundsHalfEven(n: int, d: int, q: int)
    requires d > 0
  {
    var twiceError := 2 * (n - d * q);
    && WithinHalf(n, d, q)
    && (twiceError == d || twiceError == -d ==> q % 2 == 0)
  }

  /** `round(n / d)` as Python 3 computes it. */
  function RoundHalfEven(n: int, d: int): (q: int)
    requires d > 0
    ensures RoundsHalfEven(n, d, q)
  {
    var whole := n / d;
    var part := n % d;
    assert n - d * whole == part;
    assert n - d * (whole + 1) == part - d;
    if 2 * part < d then whole
    else if 2 * part > d then whole + 1
    else if whole % 2 == 0 then whole
    else whole + 1
  }

  /** Multiplying by a positive number keeps order. */
  lemma MulMonotone(a: int, x: int, y: int)
    requires a > 0
    requires x <= y
    ensures a * x <= a * y
  {
    var k := y - x;
    assert a * y == a * x + a * k;
    assert a * k >= 0;
  }

  /** Two distinct integers within half a step of `n / d` are neighbours, with `n / d` exactly half-way between them. */
  lemma WithinHalfNeighbours(n: int, d: int, lo: int, hi: int)
    requires d > 0
    requires lo < hi
    requires WithinHalf(n, d, lo)
    requires WithinHalf(n, d, hi)
    ensures hi == lo + 1
    ensures 2 * (n - d * lo) == d
    ensures 2 * (n - d * hi) == -d
  {
    var k := hi - lo;
    assert d * hi == d * lo + d * k;
    if k >= 2 {
      MulMonotone(d, 2, k);
    } else {
      assert 2 * (n - d * lo) == d;
    }
  }

  /** At most one integer is the half-even rounding of `n / d`: two would be neighbours tied half-way, and only one of them is even. */
  lemma RoundsHalfEvenUnique(n: int, d: int, q1: int, q2: int)
    requires d > 0
    requires RoundsHalfEven(n, d, q1)
    requires RoundsHalfEven(n, d, q2)
    ensures q1 == q2
  {
    if q1 < q2 {
      WithinHalfNeighbours(n, d, q1, q2);
    } else if q2 < q1 {
      WithinHalfNeighbours(n, d, q2, q1);
    }
  }

  /** Rounding a quotient whose numerator lies in `[0, m * d)` gives a value in `0..m`. */
  lemma RoundHalfEvenBounds(n: int, d: int, m: nat)
    requires d > 0
    requires 0 <= n < m * d
    ensures 0 <= RoundHalfEven(n, d) <= m
  {
    var q := RoundHalfEven(n, d);
    if q < 0 {
      MulMonotone(d, q, -1);
    } else if q > m {
      MulMonotone(d, m + 1, q);
    }
  }
}
