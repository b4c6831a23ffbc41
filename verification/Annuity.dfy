/** Powers and level annuities over exact reals: the arithmetic behind Appendix J of
  Regulation Z (12 CFR Part 1026). */
module Annuity {

  function Pow(x: real, n: nat): (p: real)
    ensures x > 0.0 ==> p > 0.0
  {
    if n == 0 then 1.0 else x * Pow(x, n - 1)
  }

  lemma {:induction false} PowAdd(x: real, m: nat, n: nat)
    ensures Pow(x, m + n) == Pow(x, m) * Pow(x, n)
  {
    if m > 0 {
      PowAdd(x, m - 1, n);
      assert Pow(x, m + n) == x * Pow(x, m - 1 + n);
    }
  }

  /** Powers grow strictly with their base, so they tell bases apart. */
  lemma {:induction false} PowStrictlyIncreasing(x: real, y: real, n: nat)
    requires 0.0 < x < y && n > 0
    ensures Pow(x, n) < Pow(y, n)
  {
    if n == 1 {
      assert Pow(x, 1) == x * Pow(x, 0) && Pow(y, 1) == y * Pow(y, 0);
    } else {
      PowStrictlyIncreasing(x, y, n - 1);
      Dominates(x, y, Pow(x, n - 1), Pow(y, n - 1));
    }
  }

  lemma Dominates(a: real, b: real, c: real, d: real)
    requires 0.0 < a < b && 0.0 < c < d
    ensures a * c < b * d
  {
    assert a * c < b * c;
    assert b * c < b * d;
  }

  lemma {:induction false} PowOne(n: nat)
    ensures Pow(1.0, n) == 1.0
  {
    if n > 0 { PowOne(n - 1); }
  }

  lemma PowNotOne(x: real, n: nat)
    requires x > 0.0 && x != 1.0 && n > 0
    ensures if x > 1.0 then Pow(x, n) > 1.0 else Pow(x, n) < 1.0
  {
    PowOne(n);
    if x > 1.0 { PowStrictlyIncreasing(1.0, x, n); } else { PowStrictlyIncreasing(x, 1.0, n); }
  }

  lemma Scaled(a: real, b: real, c: real)
    requires a >= 0.0 && b <= c
    ensures a * b <= a * c
  {
  }

  /** Simple interest for n periods. */
  function Linear(r: real, n: nat): real {
    1.0 + n as real * r
  }

  /** Bernoulli's inequality: compound growth is at least linear. */
  lemma {:induction false} PowAtLeastLinear(r: real, n: nat)
    requires r >= 0.0
    ensures Pow(1.0 + r, n) >= Linear(r, n)
  {
    if n > 0 {
      PowAtLeastLinear(r, n - 1);
      BernoulliStep(r, n - 1, Pow(1.0 + r, n - 1));
    }
  }

  lemma BernoulliStep(r: real, n: nat, q: real)
    requires r >= 0.0 && q >= Linear(r, n)
    ensures (1.0 + r) * q >= Linear(r, n + 1)
  {
    var gap := q - Linear(r, n);
    var square := r * r;
    assert r * gap >= 0.0 && n as real * square >= 0.0;
    assert r * Linear(r, n) == r + n as real * square;
    assert r * q == r * Linear(r, n) + r * gap;
    assert Linear(r, n + 1) == Linear(r, n) + r;
  }

  /** The defining sum: `payment` discounted back from each of the periods 1..n. */
  function DiscountedStream(payment: real, rate: real, n: nat): real
    requires rate > -1.0
  {
    if n == 0 then 0.0
    else DiscountedStream(payment, rate, n - 1) + payment / Pow(1.0 + rate, n)
  }

  /** The closed form the service evaluates. */
  function PresentValue(payment: real, rate: real, n: nat): real
    requires rate > -1.0
  {
    if rate == 0.0 then payment * n as real
    else payment * (1.0 - 1.0 / Pow(1.0 + rate, n)) / rate
  }

  lemma {:induction false} StreamTimesRate(payment: real, rate: real, n: nat)
    requires rate > -1.0
    ensures rate * DiscountedStream(payment, rate, n) == payment * (1.0 - 1.0 / Pow(1.0 + rate, n))
  {
    if n > 0 {
      StreamTimesRate(payment, rate, n - 1);
      OneMorePeriod(payment, rate, DiscountedStream(payment, rate, n - 1), Pow(1.0 + rate, n - 1), Pow(1.0 + rate, n));
    }
  }

  lemma OneMorePeriod(payment: real, rate: real, s: real, q: real, d: real)
    requires rate > -1.0 && q > 0.0 && d > 0.0 && d == (1.0 + rate) * q
    requires rate * s == payment * (1.0 - 1.0 / q)
    ensures rate * (s + payment / d) == payment * (1.0 - 1.0 / d)
  {
    var u := 1.0 / d;
    assert u * d == 1.0;
    assert ((1.0 + rate) * u) * q == 1.0;
    assert 1.0 / q == (1.0 + rate) * u by { Quotient(1.0, q, (1.0 + rate) * u); }
    assert payment / d == payment * u by { Quotient(payment, d, payment * u); }
    var w := payment * u;
    assert rate * s == payment - w - rate * w;
    assert rate * (s + w) == rate * s + rate * w;
  }

  lemma Quotient(a: real, d: real, q: real)
    requires d != 0.0 && q * d == a
    ensures a / d == q
  {
    assert (a / d) * d == a;
    assert (a / d - q) * d == 0.0;
  }

  lemma Scale(a: real, b: real, c: real)
    requires b > 0.0 && c > 0.0
    ensures c * b > 0.0
    ensures a / b == (a * c) / (c * b)
  {
    var x := a / b;
    assert c * b > 0.0;
    assert x * b == a;
    assert x * (c * b) == (x * b) * c;
    Quotient(a * c, c * b, x);
  }

  lemma {:induction false} StreamAtZero(payment: real, n: nat)
    ensures DiscountedStream(payment, 0.0, n) == payment * n as real
  {
    if n > 0 {
      StreamAtZero(payment, n - 1);
      PowOne(n);
      assert payment / Pow(1.0 + 0.0, n) == payment;
      assert payment * n as real == payment * (n - 1) as real + payment;
    }
  }

  lemma PresentValueIsDiscountedStream(payment: real, rate: real, n: nat)
    requires rate > -1.0
    ensures PresentValue(payment, rate, n) == DiscountedStream(payment, rate, n)
  {
    if rate == 0.0 {
      StreamAtZero(payment, n);
    } else {
      StreamTimesRate(payment, rate, n);
      var s := DiscountedStream(payment, rate, n);
      assert rate * s / rate == s;
    }
  }

  lemma {:induction false} StreamStrictlyDecreasing(payment: real, i: real, j: real, n: nat)
    requires payment > 0.0 && -1.0 < i < j && n > 0
    ensures DiscountedStream(payment, i, n) > DiscountedStream(payment, j, n)
  {
    PowStrictlyIncreasing(1.0 + i, 1.0 + j, n);
    SmallerDivisor(payment, Pow(1.0 + i, n), Pow(1.0 + j, n));
    if n > 1 {
      StreamStrictlyDecreasing(payment, i, j, n - 1);
    } else {
      assert DiscountedStream(payment, i, 0) == DiscountedStream(payment, j, 0);
    }
  }

  lemma SmallerDivisor(a: real, c: real, d: real)
    requires a > 0.0 && 0.0 < c < d
    ensures a / c > a / d
  {
    var x, y := a / c, a / d;
    assert x * c == a && y * d == a;
    assert y * (d - c) > 0.0;
    assert (x - y) * c == y * (d - c);
  }

  /** A dearer rate is worth strictly less today: this is what makes bisection converge. */
  lemma PresentValueStrictlyDecreasing(payment: real, i: real, j: real, n: nat)
    requires payment > 0.0 && -1.0 < i < j && n > 0
    ensures PresentValue(payment, i, n) > PresentValue(payment, j, n)
  {
    PresentValueIsDiscountedStream(payment, i, n);
    PresentValueIsDiscountedStream(payment, j, n);
    StreamStrictlyDecreasing(payment, i, j, n);
  }
}
