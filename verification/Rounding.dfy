/** Rounding rules shared by the money and scoring code.

  `HalfUp` is Decimal's ROUND_HALF_UP (ties go away from zero); `HalfEven` is Python's
  built-in `round` (ties go to the even neighbour). Both are taken over exact reals. */
module Rounding {

  function HalfUp(x: real): int {
    if x >= 0.0 then (x + 0.5).Floor else -((0.5 - x).Floor)
  }

  function HalfEven(x: real): int {
    var low := x.Floor;
    var rest := x - low as real;
    if rest < 0.5 then low
    else if rest > 0.5 then low + 1
    else if low % 2 == 0 then low
    else low + 1
  }

  predicate IsInteger(x: real) {
    x == x.Floor as real
  }

  /** `HalfUp(x)` is the only integer within half a unit of x that, on a tie, lies on the side
      away from zero. */
  lemma HalfUpIsNearest(x: real, k: int)
    ensures k == HalfUp(x) <==>
            (if x >= 0.0 then k as real - 0.5 <= x < k as real + 0.5
             else k as real - 0.5 < x <= k as real + 0.5)
  {
    var y := if x >= 0.0 then x + 0.5 else 0.5 - x;
    assert y.Floor as real <= y < y.Floor as real + 1.0;
    if x >= 0.0 {
      assert k as real <= y < k as real + 1.0 <==> k == y.Floor;
    } else {
      assert (-k) as real == -(k as real);
      assert (-k) as real <= y < (-k) as real + 1.0 <==> -k == y.Floor;
    }
  }

  lemma HalfUpError(x: real)
    ensures -0.5 <= HalfUp(x) as real - x <= 0.5
  {
    HalfUpIsNearest(x, HalfUp(x));
  }

  lemma HalfUpReaches(x: real, k: int)
    requires k >= 1
    ensures HalfUp(x) >= k <==> x >= k as real - 0.5
  {
    HalfUpIsNearest(x, HalfUp(x));
    assert HalfUp(x) >= k ==> HalfUp(x) as real >= k as real;
    assert HalfUp(x) < k ==> HalfUp(x) as real <= k as real - 1.0;
  }

  /** Whole units pass through rounding, as long as no sign change is involved. */
  lemma HalfUpShift(x: real, k: int)
    requires x >= 0.0 && x + k as real >= 0.0
    ensures HalfUp(x + k as real) == HalfUp(x) + k
  {
    HalfUpIsNearest(x, HalfUp(x));
    assert (HalfUp(x) + k) as real == HalfUp(x) as real + k as real;
    HalfUpIsNearest(x + k as real, HalfUp(x) + k);
  }

  lemma HalfUpWhole(k: int)
    ensures HalfUp(k as real) == k
  {
    HalfUpIsNearest(k as real, k);
  }

  lemma HalfEvenError(x: real)
    ensures -0.5 <= HalfEven(x) as real - x <= 0.5
  {
  }

  lemma HalfEvenMonotone(x: real, y: real)
    requires x <= y
    ensures HalfEven(x) <= HalfEven(y)
  {
    HalfEvenError(x);
    HalfEvenError(y);
    assert HalfEven(x) as real < HalfEven(y) as real + 1.0 || x == y;
  }
}
