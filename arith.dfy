/** Integer and real arithmetic as Python evaluates it in the filter scripts:
    powers of two, `round` (round half to even) and `int` (truncation toward zero). */
module Arith {

  function Pow2(n: nat): (r: nat)
    ensures r >= 1
  {
    if n == 0 then 1 else 2 * Pow2(n - 1)
  }

  /** `2**(a + b) == 2**a * 2**b`. */
  lemma {:induction false} Pow2Add(a: nat, b: nat)
    ensures Pow2(a + b) == Pow2(a) * Pow2(b)
  {
    if a > 0 {
      Pow2Add(a - 1, b);
      calc {
        Pow2(a + b);
        2 * Pow2(a - 1 + b);
        2 * (Pow2(a - 1) * Pow2(b));
        (2 * Pow2(a - 1)) * Pow2(b);
      }
    }
  }

  function Abs(x: real): (r: real)
    ensures r >= 0.0 && (r == x || r == -x)
  {
    if x < 0.0 then -x else x
  }

  function IntAbs(x: int): (r: nat)
    ensures r == x || r == -x
  {
    if x < 0 then -x else x
  }

  /** Python's `round(x)` on a float, and numpy's `around`: the nearest integer,
      ties going to the even neighbour. */
  function RoundHalfEven(x: real): (r: int)
    ensures -0.5 <= r as real - x <= 0.5
    ensures (r as real - x == 0.5 || x - r as real == 0.5) ==> r % 2 == 0
  {
    var f := x.Floor;
    var d := x - f as real;
    if d < 0.5 then f
    else if d > 0.5 then f + 1
    else if f % 2 == 0 then f
    else f + 1
  }

  /** The two ensures of RoundHalfEven pin its result down: any integer that is
      within one half of x, and even on a tie, is RoundHalfEven(x). */
  lemma RoundHalfEvenUnique(x: real, n: int)
    requires -0.5 <= n as real - x <= 0.5
    requires (n as real - x == 0.5 || x - n as real == 0.5) ==> n % 2 == 0
    ensures n == RoundHalfEven(x)
  {
  }

  lemma RoundHalfEvenOfInt(n: int)
    ensures RoundHalfEven(n as real) == n
  {
    RoundHalfEvenUnique(n as real, n);
  }

  /** Rounding is monotone: a larger argument never rounds to a smaller integer. */
  lemma RoundHalfEvenMonotone(x: real, y: real)
    requires x <= y
    ensures RoundHalfEven(x) <= RoundHalfEven(y)
  {
  }

  /** Half-to-even rounding treats a value and its negation alike. */
  lemma RoundHalfEvenNegate(x: real)
    ensures RoundHalfEven(-x) == -RoundHalfEven(x)
  {
    var r := RoundHalfEven(x);
    assert (-r) % 2 == 0 <==> r % 2 == 0;
    RoundHalfEvenUnique(-x, -r);
  }

  /** Python's `int(x)` on a float: truncation toward zero. */
  function Trunc(x: real): (r: int)
    ensures x >= 0.0 ==> r >= 0 && r as real <= x < r as real + 1.0
    ensures x < 0.0 ==> r <= 0 && r as real - 1.0 < x <= r as real
  {
    if x >= 0.0 then x.Floor else -((-x).Floor)
  }

  lemma ProductNonNegative(a: real, b: real)
    requires a >= 0.0 && b >= 0.0
    ensures a * b >= 0.0
  {
  }

  lemma QuotientPositive(a: real, b: real)
    requires a > 0.0 && b > 0.0
    ensures a / b > 0.0
  {
  }

  lemma DivMonotone(a: real, b: real, c: real)
    requires a <= b && c > 0.0
    ensures a / c <= b / c
  {
    assert b / c - a / c == (b - a) / c;
  }

  /** Multiplying by a non-negative factor keeps order. */
  lemma MulMonotone(a: int, b: int, c: int)
    requires a <= b && c >= 0
    ensures a * c <= b * c
  {
  }

  lemma MulMonotoneReal(a: real, b: real, c: real)
    requires a <= b && c >= 0.0
    ensures a * c <= b * c
  {
    ProductNonNegative(b - a, c);
  }

  lemma MulAtLeast(a: int, step: int)
    requires a >= 1 && step >= 1
    ensures a * step >= step
  {
  }

  /** Euclidean division splits y into whole steps and a remainder below the step. */
  lemma DivModSplit(y: int, step: int)
    requires step >= 1
    ensures y == (y / step) * step + y % step && 0 <= y % step < step
  {
  }

  /** Euclidean division is unique: y == q*step + r with 0 <= r < step fixes y % step. */
  lemma DivModUnique(y: int, q: int, r: int, step: int)
    requires step >= 1 && y == q * step + r && 0 <= r < step
    ensures y % step == r && y / step == q
  {
    var q' := y / step;
    var r' := y % step;
    assert (q - q') * step == r' - r;
    if q > q' {
      MulAtLeast(q - q', step);
    } else if q < q' {
      MulAtLeast(q' - q, step);
    }
  }

  /** (k*m) % m == 0 and (k*m) / m == k for m >= 1. */
  lemma MultipleDivMod(k: int, m: int)
    requires m >= 1
    ensures (k * m) % m == 0 && (k * m) / m == k
  {
    DivModUnique(k * m, k, 0, m);
  }

  lemma MulCancelLess(a: int, b: int, c: int)
    requires c >= 1 && a * c < b * c
    ensures a < b
  {
  }

  /** An index below n*len lies in one of the first n blocks of length len. */
  lemma DivBelow(j: int, n: int, len: int)
    requires len >= 1 && 0 <= j < n * len
    ensures j / len < n
  {
    MulCancelLess(j / len, n, len);
  }

  /** ceil(n*L / L) == n. */
  lemma CeilOfMultiple(n: int, len: int)
    requires len >= 1
    ensures (n * len + len - 1) / len == n
  {
    DivModUnique(n * len + len - 1, n, len - 1, len);
  }
}
