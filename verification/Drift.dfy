/** How far the cent-rounded balance of a payment schedule can stray from the exact one. */
module Drift {
  import opened Rounding
  import opened Annuity
  import opened Apr
  import opened Schedule

  /** One cent a month, compounded: 1 + (1+r) + ... + (1+r)^(k-1). */
  ghost function Growth(r: real, k: nat): real {
    if k == 0 then 0.0 else Compounded(Growth(r, k - 1), r) + 1.0
  }

  function Compounded(amount: real, rate: real): real {
    (1.0 + rate) * amount
  }

  lemma {:induction false} GrowthClosedForm(r: real, k: nat)
    ensures r * Growth(r, k) == Pow(1.0 + r, k) - 1.0
    ensures r == 0.0 ==> Growth(r, k) == k as real
  {
    if k > 0 {
      GrowthClosedForm(r, k - 1);
      assert r * Growth(r, k) == (1.0 + r) * (r * Growth(r, k - 1)) + r;
      assert r == 0.0 ==> Compounded(Growth(r, k - 1), r) == Growth(r, k - 1);
    }
  }

  /** Exact payments take the value of the stream down month by month. */
  lemma {:induction false} StreamStep(payment: real, r: real, n: nat)
    requires r > -1.0
    ensures Compounded(DiscountedStream(payment, r, n + 1), r) == DiscountedStream(payment, r, n) + payment
  {
    var d, next := Pow(1.0 + r, n), Pow(1.0 + r, n + 1);
    UndoOnePeriod(payment, 1.0 + r, d);
    if n == 0 {
      assert DiscountedStream(payment, r, 1) == DiscountedStream(payment, r, 0) + payment / next;
    } else {
      StreamStep(payment, r, n - 1);
      Distribute(1.0 + r, DiscountedStream(payment, r, n), payment / next);
    }
  }

  lemma UndoOnePeriod(payment: real, base: real, d: real)
    requires base > 0.0 && d > 0.0
    ensures base * d > 0.0
    ensures base * (payment / (base * d)) == payment / d
  {
    Scale(payment, d, base);
    var q := payment / (base * d);
    assert q * (base * d) == payment;
    assert (base * q) * d == payment;
  }

  lemma Distribute(a: real, b: real, c: real)
    ensures a * (b + c) == a * b + a * c
  {
  }

  lemma ExactRunsFromPrincipalToZero(note: Note)
    requires note.Amortizes()
    ensures note.Exact(0) == note.principal
    ensures note.Exact(note.term) == 0.0
  {
    PresentValueIsDiscountedStream(note.payment, note.rate, note.term);
  }

  /** The cent-rounded balance never strays from the exact one by more than one cent a month,
      compounded at the note rate. At k = term the exact balance is zero, so this also bounds the
      residue that the last row folds away. */
  lemma {:induction false} DriftIsBounded(note: Note, k: nat)
    requires note.Amortizes() && k <= note.term
    ensures -Growth(note.rate, k) <= note.Running(k) - note.Exact(k) <= Growth(note.rate, k)
  {
    if k == 0 {
      ExactRunsFromPrincipalToZero(note);
    } else {
      DriftIsBounded(note, k - 1);
      var before := note.Running(k - 1);
      StreamStep(note.payment, note.rate, note.term - k);
      HalfUpError(note.payment);
      HalfUpError(Accrued(before, note.rate));
      OneMonthOfDrift(note.rate, before, HalfUp(Accrued(before, note.rate)), note.Exact(k - 1),
                      note.payment, note.Level(), Growth(note.rate, k - 1));
    }
  }

  lemma OneMonthOfDrift(r: real, before: real, interest: int, exactBefore: real, payment: real, level: int, bound: real)
    requires r > -1.0 && -bound <= before - exactBefore <= bound
    requires -0.5 <= interest as real - Accrued(before, r) <= 0.5
    requires -0.5 <= level as real - payment <= 0.5
    ensures var drift := before - (level - interest) as real - (Compounded(exactBefore, r) - payment);
            -(Compounded(bound, r) + 1.0) <= drift <= Compounded(bound, r) + 1.0
  {
    var e := before - exactBefore;
    assert Compounded(e, r) == before + Accrued(before, r) - Compounded(exactBefore, r);
    CompoundingIsMonotone(e, bound, r);
    CompoundingIsMonotone(-bound, e, r);
    assert Compounded(-bound, r) == -Compounded(bound, r);
  }

  lemma CompoundingIsMonotone(a: real, b: real, r: real)
    requires r > -1.0 && a <= b
    ensures Compounded(a, r) <= Compounded(b, r)
  {
    var growth, gap := 1.0 + r, b - a;
    assert growth * gap >= 0.0;
    assert growth * gap == Compounded(b, r) - Compounded(a, r);
  }

  lemma DriftAtTheEnd(note: Note)
    requires note.Amortizes()
    ensures -Growth(note.rate, note.term) <= note.Running(note.term) <= Growth(note.rate, note.term)
  {
    var exact := note.Exact(note.term);
    ExactRunsFromPrincipalToZero(note);
    DriftIsBounded(note, note.term);
    assert exact == 0.0;
  }

  lemma ResidueIsBounded(note: Note)
    requires note.Amortizes()
    ensures -Growth(note.rate, note.term) <= note.Running(note.term) <= Growth(note.rate, note.term)
    ensures note.rate * Growth(note.rate, note.term) == Pow(1.0 + note.rate, note.term) - 1.0
  {
    DriftAtTheEnd(note);
    GrowthClosedForm(note.rate, note.term);
  }

  /** One month before the end the exact balance and a month's interest on it are the last payment. */
  lemma LastMonthOfExact(payment: real, rate: real)
    requires rate > -1.0
    ensures var left := DiscountedStream(payment, rate, 1); left + Accrued(left, rate) == payment
  {
    var left := DiscountedStream(payment, rate, 1);
    StreamStep(payment, rate, 0);
    assert Compounded(left, rate) == payment;
  }

  /** Unless a loan is small it does hold at the last row: a month's interest on the last exact
      balance has to cover the rounding of the final payment and the drift. */
  lemma LastInterestIsNonNegative(note: Note, start: Date, rows: seq<Row>)
    requires IsSchedule(note, start, rows) && note.Amortizes()
    requires Accrued(note.Exact(note.term - 1), note.rate) >=
             (note.term + 2) as real / 2.0 + Growth(note.rate, note.term - 1)
    ensures rows[note.term - 1].interest >= 0.0
  {
    var m := note.term - 1;
    LastRow(note, start, rows);
    FinalPaymentNearLevel(note);
    HalfUpError(note.payment);
    DriftIsBounded(note, m);
    LastMonthOfExact(note.payment, note.rate);
    FinalCovers(note.FinalPayment(), note.Level(), note.payment, note.Exact(m), Accrued(note.Exact(m), note.rate),
                note.Running(m), Growth(note.rate, m), note.term);
  }

  lemma {:induction false} GrowthGrows(r: real, k: nat, n: nat)
    requires r >= 0.0 && k <= n
    ensures 0.0 <= Growth(r, k) <= Growth(r, n)
    decreases n
  {
    if n > 0 {
      GrowthGrows(r, if k < n then k else n - 1, n - 1);
      var g := Growth(r, n - 1);
      assert r * g >= 0.0;
      assert Compounded(g, r) == g + r * g;
    }
  }

  lemma {:induction false} LongerStreamIsWorthMore(payment: real, r: real, k: nat, n: nat)
    requires payment > 0.0 && r > -1.0 && k <= n
    ensures DiscountedStream(payment, r, k) <= DiscountedStream(payment, r, n)
    decreases n
  {
    if k < n {
      LongerStreamIsWorthMore(payment, r, k, n - 1);
      var d := Pow(1.0 + r, n);
      assert payment / d * d == payment;
    }
  }

  lemma AccruedKeepsSign(balance: real, rate: real)
    requires 0.0 <= rate <= 1.0
    ensures balance >= 0.0 ==> Accrued(balance, rate) >= 0.0
    ensures Accrued(balance, rate) > 0.0 ==> balance >= Accrued(balance, rate)
  {
    if balance < 0.0 {
      assert (-balance) * rate >= 0.0;
    } else {
      var kept := 1.0 - rate;
      assert balance * rate >= 0.0;
      assert balance * kept >= 0.0;
      assert balance * kept == balance - Accrued(balance, rate);
    }
  }

  /** The schedule's promise holds at every row of such a loan, for rates of 0 to 1200% a year: a month's
      interest on the last exact balance bounds every earlier balance from below. */
  lemma InterestIsNonNegative(note: Note, start: Date, rows: seq<Row>)
    requires IsSchedule(note, start, rows) && note.Amortizes()
    requires note.payment > 0.0 && 0.0 <= note.rate <= 1.0
    requires Accrued(note.Exact(note.term - 1), note.rate) >=
             (note.term + 2) as real / 2.0 + Growth(note.rate, note.term - 1)
    ensures forall k | 0 <= k < note.term :: rows[k].interest >= 0.0
  {
    LastInterestIsNonNegative(note, start, rows);
    var m := note.term - 1;
    forall k | 0 <= k < m ensures rows[k].interest >= 0.0 {
      GrowthGrows(note.rate, k, m);
      LongerStreamIsWorthMore(note.payment, note.rate, 1, note.term - k);
      AccruedKeepsSign(note.Exact(m), note.rate);
      DriftIsBounded(note, k);
      AccruedKeepsSign(note.Running(k), note.rate);
      RoundsToNonNegative(Accrued(note.Running(k), note.rate));
      assert rows[k].interest == HalfUp(Accrued(note.Running(k), note.rate)) as real;
    }
  }

  /** Without interest it holds too, for whole cents: no row charges anything. */
  lemma ZeroRateChargesNothing(note: Note, start: Date, rows: seq<Row>)
    requires IsSchedule(note, start, rows) && note.Amortizes() && note.rate == 0.0 && note.WholeCents()
    ensures forall k | 0 <= k < note.term :: rows[k].interest == 0.0
  {
    var m := note.term - 1;
    LastInterestIsTheRest(note, start, rows);
    ZeroRateRowsChargeNothing(note, start, rows, m);
    RoundedIsItself(note.principal);
    assert Payments(note.payment, note.term) == note.principal;
    forall k | 0 <= k < m ensures rows[k].interest == 0.0 {
      ZeroRateRowsChargeNothing(note, start, rows, k + 1);
      ZeroRateRowsChargeNothing(note, start, rows, k);
      assert rows[..k + 1][..k] == rows[..k];
    }
  }

  lemma {:induction false} ZeroRateRowsChargeNothing(note: Note, start: Date, rows: seq<Row>, k: nat)
    requires IsSchedule(note, start, rows) && note.rate == 0.0 && k < note.term
    ensures Charged(rows[..k]) == 0.0
  {
    if k > 0 {
      ZeroRateRowsChargeNothing(note, start, rows, k - 1);
      assert rows[..k][..k - 1] == rows[..k - 1];
      assert Accrued(note.Running(k - 1), note.rate) == 0.0;
    }
  }

  lemma FinalCovers(last: int, level: int, payment: real, exact: real, interest: real, running: real, growth: real,
                    n: nat)
    requires -(n + 1) <= 2 * (last - level) && level as real - payment >= -0.5
    requires exact + interest == payment && running - exact <= growth
    requires interest >= (n + 2) as real / 2.0 + growth
    ensures last as real - running >= 0.0
  {
    assert (2 * (last - level)) as real >= -((n + 1) as real);
  }
}
