/** Python's round() on exact numbers: to the nearest multiple, ties to the even one. */
module Rounding {
  function HalfEven(x: real): (n: int)
    ensures -0.5 <= n as real - x <= 0.5
    ensures x - x.Floor as real == 0.5 ==> n % 2 == 0
  {
    var below := x.Floor;
    var excess := x - below as real;
    if excess < 0.5 || (excess == 0.5 && below % 2 == 0) then below else below + 1
  }

  // round(x, 2): prices in served bars.
  function Round2(x: real): (r: real)
    ensures -0.005 <= r - x <= 0.005
  {
    HalfEven(x * 100.0) as real / 100.0
  }

  // round(x, 4): prices after each split event.
  function Round4(x: real): (r: real)
    ensures -0.00005 <= r - x <= 0.00005
  {
    HalfEven(x * 10000.0) as real / 10000.0
  }

  predicate IsWhole(x: real) { x.Floor as real == x }

  // r is the multiple of 1/grid nearest to x, the even one of two equally near.
  ghost predicate Nearest(r: real, x: real, grid: real)
    requires grid > 0.0
  {
    && IsWhole(r * grid)
    && -0.5 <= r * grid - x * grid <= 0.5
    && (r * grid - x * grid in {-0.5, 0.5} ==> (r * grid).Floor % 2 == 0)
  }

  /** Bars are rounded to whole paise, adjusted prices to hundredths of one; ties go to the even one. */
  lemma RoundsToNearest(x: real)
    ensures Nearest(Round2(x), x, 100.0) && Nearest(Round4(x), x, 10000.0)
  {
    var n, m := HalfEven(x * 100.0), HalfEven(x * 10000.0);
    assert Round2(x) * 100.0 == n as real && Round4(x) * 10000.0 == m as real;
    TiesAreEven(x * 100.0);
    TiesAreEven(x * 10000.0);
    hide HalfEven;
  }

  lemma TiesAreEven(x: real)
    ensures HalfEven(x) as real - x in {-0.5, 0.5} ==> HalfEven(x) % 2 == 0
  {
  }

  lemma HalfEvenMonotone(x: real, y: real)
    requires x <= y
    ensures HalfEven(x) <= HalfEven(y)
  {
  }

  lemma Round2Monotone(x: real, y: real)
    requires x <= y
    ensures Round2(x) <= Round2(y)
  {
    HalfEvenMonotone(x * 100.0, y * 100.0);
  }

  lemma Round2Idempotent(x: real)
    ensures Round2(Round2(x)) == Round2(x)
  {
    var n := HalfEven(x * 100.0);
    assert n as real / 100.0 * 100.0 == n as real;
    HalfEvenOfWhole(n);
    hide HalfEven;
  }

  lemma HalfEvenOfWhole(n: int)
    ensures HalfEven(n as real) == n
  {
  }

  function Max(a: real, b: real): real { if a < b then b else a }

  function Min(a: real, b: real): real { if b < a then b else a }

  lemma Round2OfMaxMin(a: real, b: real)
    ensures Round2(Max(a, b)) == Max(Round2(a), Round2(b))
    ensures Round2(Min(a, b)) == Min(Round2(a), Round2(b))
  {
    if a <= b {
      Round2Monotone(a, b);
    } else {
      Round2Monotone(b, a);
    }
  }
}
