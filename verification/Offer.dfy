/** The five-figure disclosure box, and its agreement with the payment schedule. */
module Offer {
  import opened Rounding
  import opened Annuity
  import opened Apr
  import opened Bisection
  import opened Schedule

  /** APR in thousandths of a percent, the other four figures in cents. */
  datatype Figures = Figures(apr: int, financeCharge: int, monthlyPayment: int, amountFinanced: int,
                             totalOfPayments: int)

  /** What the box's four amounts must say about a note and the fee withheld, in cents. */
  predicate StatesAmounts(box: Figures, note: Note, fee: int) {
    && box.monthlyPayment == note.Level()
    && box.totalOfPayments == note.Total()
    && box.amountFinanced == HalfUp(note.principal - fee as real)
    && box.financeCharge == HalfUp(Interest(note) + fee as real)
  }

  /** What the box must say about a loan. */
  ghost predicate Discloses(box: Figures, principal: real, annualPct: real, term: int, fee: FeeRate)
    requires principal > 0.0 && term > 0 && annualPct > -1200.0
  {
    && StatesAmounts(box, NoteOf(principal, annualPct, term), PrepaidFinanceCharge(principal, fee))
    && exists lo, hi ::
         && Bracket(MonthlyPayment(principal, annualPct, term).value,
                    AmountFinanced(principal, fee), term, lo, hi, ITERATIONS)
         && box.apr == Disclosed((lo + hi) / 2.0)
  }

  method BuildOffer(principal: real, annualPct: real, term: int, fee: FeeRate) returns (r: Result<Figures>)
    requires annualPct > -1200.0
    ensures r.Ok? <==> principal > 0.0 && term > 0
    ensures r.Ok? ==> Discloses(r.value, principal, annualPct, term, fee)
  {
    var payment := MonthlyPayment(principal, annualPct, term);
    if payment.Err? {
      return Err(payment.error);
    }
    var apr := ComputeApr(principal, annualPct, term, fee);
    var charge := FinanceCharge(principal, annualPct, term, fee);
    var financed := AmountFinanced(principal, fee);
    InCents(payment.value, term);
    HalfUpWhole(charge.value);
    r := Ok(Figures(apr.value,
                    HalfUp(charge.value as real),
                    HalfUp(payment.value * 100.0),
                    HalfUp(financed * 100.0),
                    HalfUp(Payments(payment.value, term) * 100.0)));
  }

  lemma InCents(payment: real, term: nat)
    ensures Payments(100.0 * payment, term) == Payments(payment, term) * 100.0
  {
  }

  /** Interest over the whole term, in exact cents. */
  function Interest(note: Note): real {
    Payments(note.payment, note.term) - note.principal
  }

  lemma InterestIsNotNegative(note: Note)
    requires note.Amortizes() && note.payment > 0.0 && note.rate >= 0.0
    ensures Interest(note) >= 0.0
  {
    if note.rate > 0.0 { PresentValueStrictlyDecreasing(note.payment, 0.0, note.rate, note.term); }
    assert PresentValue(note.payment, 0.0, note.term) == Payments(note.payment, note.term);
  }

  /** Amount financed plus finance charge is the total of payments, to the cent, for every note of whole
      cents at a rate of at least 0%, and within one cent for any. */
  lemma AmountsReconcile(box: Figures, note: Note, fee: int)
    requires StatesAmounts(box, note, fee) && note.principal > 0.0 && Interest(note) >= 0.0 && fee >= 0
    ensures note.WholeCents() ==> box.financeCharge + box.amountFinanced == box.totalOfPayments
    ensures -1 <= box.financeCharge + box.amountFinanced - box.totalOfPayments <= 1
  {
    ThreeRoundings(Payments(note.payment, note.term), note.principal, fee);
  }

  /** So the box of every loan at a rate of at least 0% adds up. */
  lemma FiguresReconcile(principal: real, annualPct: real, term: int, fee: FeeRate, box: Figures)
    requires principal > 0.0 && term > 0 && annualPct >= 0.0
    ensures StatesAmounts(box, NoteOf(principal, annualPct, term), PrepaidFinanceCharge(principal, fee)) ==>
              var gap := box.financeCharge + box.amountFinanced - box.totalOfPayments;
              -1 <= gap <= 1 && (IsInteger(100.0 * principal) ==> gap == 0)
  {
    var note, withheld := NoteOf(principal, annualPct, term), PrepaidFinanceCharge(principal, fee);
    InterestIsNotNegative(note);
    SomethingIsFinanced(principal, fee);
    if StatesAmounts(box, note, withheld) { AmountsReconcile(box, note, withheld); }
  }

  lemma ThreeRoundings(total: real, principal: real, fee: int)
    requires total >= principal > 0.0 && fee >= 0
    ensures IsInteger(principal) ==>
              HalfUp(total - principal + fee as real) + HalfUp(principal - fee as real) == HalfUp(total)
    ensures -1 <= HalfUp(total - principal + fee as real) + HalfUp(principal - fee as real) - HalfUp(total) <= 1
  {
    HalfUpError(total - principal + fee as real);
    HalfUpError(principal - fee as real);
    HalfUpError(total);
    if IsInteger(principal) {
      var p := principal.Floor;
      HalfUpShift(total, fee - p);
      HalfUpWhole(p - fee);
      assert total - principal + fee as real == total + (fee - p) as real;
      assert principal - fee as real == (p - fee) as real;
    }
  }

  /** The schedule the borrower reads and the box beside it disclose the same total. */
  lemma ScheduleAgreesWithBox(principal: real, annualPct: real, term: int, fee: FeeRate, box: Figures,
                             start: Date, rows: seq<Row>)
    requires principal > 0.0 && term > 0 && annualPct >= 0.0 && IsInteger(100.0 * principal)
    requires IsSchedule(NoteOf(principal, annualPct, term), start, rows)
    requires StatesAmounts(box, NoteOf(principal, annualPct, term), PrepaidFinanceCharge(principal, fee))
    ensures Paid(rows) == box.amountFinanced + box.financeCharge
    ensures Repaid(rows) as real == 100.0 * principal
  {
    var note := NoteOf(principal, annualPct, term);
    PaymentsSumToTotal(note, start, rows);
    PrincipalsSumToLoan(note, start, rows);
    FiguresReconcile(principal, annualPct, term, fee, box);
  }
}
