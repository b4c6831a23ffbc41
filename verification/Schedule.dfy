/** The payment schedule of a loan: level payments in whole cents, with a final row that closes
  the loan and squares the total. Amounts inside the loop are cents, as reals, because the
  running balance starts from a principal that need not be a whole number of cents. */
module Schedule {
  import opened Rounding
  import opened Annuity
  import opened Apr

  datatype Date = Date(year: int, month: int, day: int) {
    predicate Valid() {
      1 <= month <= 12 && 1 <= day <= 31
    }

    /** Months since the start of year zero. */
    function MonthIndex(): int {
      12 * year + month - 1
    }
  }

  function AddMonths(d: Date, months: nat): Date
    requires d.Valid()
  {
    var month := d.month - 1 + months;
    Date(d.year + month / 12, month % 12 + 1, if d.day <= 28 then d.day else 28)
  }

  /** Due dates exist in every month of every year and are exactly the stated months apart. */
  lemma DueDatesAreRegular(d: Date, months: nat)
    requires d.Valid()
    ensures var due := AddMonths(d, months);
            && due.Valid() && due.day <= 28 && due.day <= d.day
            && due.MonthIndex() == d.MonthIndex() + months
            && (d.day <= 28 ==> due.day == d.day)
  {
  }

  datatype Row = Row(n: int, due: Date, payment: int, principal: int, interest: real, balance: int)

  /** The note behind a schedule: principal and exact level payment in cents, and the monthly
      rate at which that payment pays the principal off. */
  datatype Note = Note(principal: real, rate: real, payment: real, term: nat) {
    predicate Valid() {
      term > 0 && rate > -1.0
    }

    /** The payment is the level payment of the note: its stream is worth the principal. */
    ghost predicate Amortizes() {
      Valid() && PresentValue(payment, rate, term) == principal
    }

    function Level(): int {
      HalfUp(payment)
    }

    /** The disclosed total of payments, in cents. */
    function Total(): int {
      HalfUp(Payments(payment, term))
    }

    function FinalPayment(): int {
      Total() - Level() * (term - 1)
    }

    /** The running balance after k level rows, before the last row is squared off. */
    function Running(k: nat): real {
      AfterRows(principal, rate, Level(), k)
    }

    /** What is really owed after k exact payments: the present value, at the note rate, of the
        payments still to come. */
    ghost function Exact(k: nat): real
      requires rate > -1.0 && k <= term
    {
      DiscountedStream(payment, rate, term - k)
    }

    predicate WholeCents() {
      IsInteger(principal)
    }
  }

  /** n equal payments. */
  function Payments(payment: real, n: nat): real {
    payment * n as real
  }

  /** A month's interest. */
  function Accrued(balance: real, rate: real): real {
    balance * rate
  }

  function AfterRows(principal: real, rate: real, level: int, k: nat): real {
    if k == 0 then principal
    else
      var before := AfterRows(principal, rate, level, k - 1);
      before - (level - HalfUp(Accrued(before, rate))) as real
  }

  function NoteOf(principal: real, annualPct: real, term: int): (note: Note)
    requires principal > 0.0 && term > 0 && annualPct > -1200.0
    ensures note.Amortizes() && note.principal == 100.0 * principal && note.term == term
  {
    var payment := MonthlyPayment(principal, annualPct, term).value;
    ValueIsLinear(payment, MonthlyRate(annualPct), term);
    Note(100.0 * principal, MonthlyRate(annualPct), 100.0 * payment, term)
  }

  lemma ValueIsLinear(payment: real, r: real, n: nat)
    requires r > -1.0
    ensures PresentValue(100.0 * payment, r, n) == 100.0 * PresentValue(payment, r, n)
  {
    if r != 0.0 {
      ScaledQuotient(payment, 1.0 - 1.0 / Pow(1.0 + r, n), r);
    }
  }

  lemma ScaledQuotient(payment: real, kept: real, r: real)
    requires r != 0.0
    ensures 100.0 * payment * kept / r == 100.0 * (payment * kept / r)
  {
    var q := payment * kept / r;
    assert q * r == payment * kept;
    Quotient(100.0 * payment * kept, r, 100.0 * q);
  }

  function Positive(x: real): real {
    if x >= 0.0 then x else 0.0
  }

  /** Row k (counted from zero) of the schedule. */
  function RowAt(note: Note, start: Date, k: nat): Row
    requires note.Valid() && start.Valid() && k < note.term
  {
    var before := note.Running(k);
    if k + 1 < note.term then
      var interest := HalfUp(Accrued(before, note.rate));
      Row(k + 1, AddMonths(start, k + 1), note.Level(), note.Level() - interest, interest as real,
          HalfUp(Positive(note.Running(k + 1))))
    else
      Row(k + 1, AddMonths(start, k + 1), note.FinalPayment(), HalfUp(before),
          note.FinalPayment() as real - before, 0)
  }

  method Amortization(principal: real, annualPct: real, term: int, start: Date) returns (r: Result<seq<Row>>)
    requires annualPct > -1200.0 && start.Valid()
    ensures r.Ok? <==> principal > 0.0 && term > 0
    ensures r.Ok? ==> var note := NoteOf(principal, annualPct, term);
                      && |r.value| == term
                      && forall k | 0 <= k < term :: r.value[k] == RowAt(note, start, k)
  {
    var payment := MonthlyPayment(principal, annualPct, term);
    if payment.Err? {
      return Err(payment.error);
    }
    var note := NoteOf(principal, annualPct, term);
    var rows := Rows(note, start);
    r := Ok(rows);
  }

  /** The schedule loop itself. */
  method Rows(note: Note, start: Date) returns (rows: seq<Row>)
    requires note.Valid() && start.Valid()
    ensures |rows| == note.term
    ensures forall k | 0 <= k < note.term :: rows[k] == RowAt(note, start, k)
  {
    var level := HalfUp(note.payment);
    var total := HalfUp(Payments(note.payment, note.term));
    var finalPayment := total - level * (note.term - 1);
    var balance := note.principal;
    rows := [];
    for n := 1 to note.term + 1
      invariant |rows| == n - 1
      invariant forall k | 0 <= k < n - 1 :: rows[k] == RowAt(note, start, k)
      invariant n <= note.term ==> balance == note.Running(n - 1)
    {
      var interest := HalfUp(Accrued(balance, note.rate)) as real;
      var paid := level;
      var principalPart := level as real - interest;
      HalfUpWhole(level - HalfUp(Accrued(balance, note.rate)));
      balance := balance - principalPart;
      if n == note.term {
        paid := finalPayment;
        principalPart := principalPart + balance;
        balance := 0.0;
        interest := paid as real - principalPart;
      }
      rows := rows + [Row(n, AddMonths(start, n), paid, HalfUp(principalPart), interest, HalfUp(Positive(balance)))];
    }
  }

  /** `rows` is the schedule of the note. */
  ghost predicate IsSchedule(note: Note, start: Date, rows: seq<Row>) {
    && note.Valid() && start.Valid()
    && |rows| == note.term
    && forall k | 0 <= k < note.term :: rows[k] == RowAt(note, start, k)
  }

  // ---- Conservation ---------------------------------------------------------------------

  function Paid(rows: seq<Row>): int {
    if rows == [] then 0 else Paid(rows[..|rows| - 1]) + rows[|rows| - 1].payment
  }

  function Repaid(rows: seq<Row>): int {
    if rows == [] then 0 else Repaid(rows[..|rows| - 1]) + rows[|rows| - 1].principal
  }

  lemma LevelRow(note: Note, start: Date, k: nat)
    requires note.Valid() && start.Valid() && k + 1 < note.term
    ensures RowAt(note, start, k).payment == note.Level()
    ensures RowAt(note, start, k).principal as real == note.Running(k) - note.Running(k + 1)
    ensures RowAt(note, start, k).payment as real ==
            RowAt(note, start, k).principal as real + RowAt(note, start, k).interest
  {
  }

  lemma {:induction false} LevelRowsSum(note: Note, start: Date, rows: seq<Row>, k: nat)
    requires IsSchedule(note, start, rows) && k < note.term
    ensures Paid(rows[..k]) == Times(note.Level(), k)
    ensures Repaid(rows[..k]) as real == note.principal - note.Running(k)
  {
    if k > 0 {
      LevelRowsSum(note, start, rows, k - 1);
      LevelRow(note, start, k - 1);
      assert rows[..k][..k - 1] == rows[..k - 1];
    }
  }

  /** Repeated addition, so that the sums below stay linear. */
  function Times(x: int, n: nat): int {
    if n == 0 then 0 else Times(x, n - 1) + x
  }

  lemma {:induction false} TimesIsProduct(x: int, n: nat)
    ensures Times(x, n) == x * n
  {
    if n > 0 {
      TimesIsProduct(x, n - 1);
      assert x * n == x * (n - 1) + x;
    }
  }

  /** The rows sum exactly to the disclosed total of payments, for every loan. */
  lemma PaymentsSumToTotal(note: Note, start: Date, rows: seq<Row>)
    requires IsSchedule(note, start, rows)
    ensures Paid(rows) == note.Total()
  {
    LevelRowsSum(note, start, rows, note.term - 1);
    TimesIsProduct(note.Level(), note.term - 1);
    assert rows[note.term - 1].payment == note.FinalPayment();
  }

  lemma {:induction false} RunningStaysOnCents(note: Note, start: Date, rows: seq<Row>, k: nat)
    requires IsSchedule(note, start, rows) && k < note.term
    ensures IsInteger(note.Running(k)) <==> note.WholeCents()
  {
    LevelRowsSum(note, start, rows, k);
    WholeShift(note.principal, -Repaid(rows[..k]));
  }

  lemma WholeShift(x: real, k: int)
    ensures IsInteger(x + k as real) <==> IsInteger(x)
  {
    var y := x + k as real;
    assert IsInteger(x) ==> y == (x.Floor + k) as real;
    assert IsInteger(y) ==> x == (y.Floor - k) as real;
  }

  lemma LastRow(note: Note, start: Date, rows: seq<Row>)
    requires IsSchedule(note, start, rows)
    ensures var last := rows[note.term - 1];
            && last.payment == note.FinalPayment()
            && last.principal == HalfUp(note.Running(note.term - 1))
            && last.interest == last.payment as real - note.Running(note.term - 1)
            && last.balance == 0
    ensures rows[note.term - 1].principal as real == note.Running(note.term - 1) <==> note.WholeCents()
    ensures -0.5 <= rows[note.term - 1].principal as real - note.Running(note.term - 1) <= 0.5
  {
    var owed := note.Running(note.term - 1);
    RunningStaysOnCents(note, start, rows, note.term - 1);
    RoundedIsItself(owed);
    HalfUpError(owed);
  }

  lemma RoundedIsItself(x: real)
    ensures HalfUp(x) as real == x <==> IsInteger(x)
  {
    if IsInteger(x) { HalfUpWhole(x.Floor); }
  }

  /** Row principals repay the loan exactly when the principal was a whole number of cents, and
      are never off by more than half a cent. */
  lemma PrincipalsSumToLoan(note: Note, start: Date, rows: seq<Row>)
    requires IsSchedule(note, start, rows)
    ensures Repaid(rows) as real == note.principal <==> note.WholeCents()
    ensures -0.5 <= Repaid(rows) as real - note.principal <= 0.5
  {
    LevelRowsSum(note, start, rows, note.term - 1);
    LastRow(note, start, rows);
  }

  /** Each printed balance is what the principals printed so far leave of a whole-cent loan, never
      shown below zero. */
  lemma BalancesRunDown(note: Note, start: Date, rows: seq<Row>, k: nat)
    requires IsSchedule(note, start, rows) && note.WholeCents() && k < note.term
    ensures var owed := note.principal - Repaid(rows[..k + 1]) as real;
            rows[k].balance as real == Positive(owed)
  {
    if k + 1 < note.term {
      LevelRowsSum(note, start, rows, k + 1);
      RunningStaysOnCents(note, start, rows, k + 1);
      RoundedIsItself(Positive(note.Running(k + 1)));
    } else {
      assert rows[..k + 1] == rows;
      PrincipalsSumToLoan(note, start, rows);
    }
  }

  predicate SplitsExactly(row: Row) {
    row.payment as real == row.principal as real + row.interest
  }

  /** Every row pays exactly its own principal plus interest, exactly when the principal was a
      whole number of cents; only the last row can break the rule. */
  lemma RowsSplitExactly(note: Note, start: Date, rows: seq<Row>)
    requires IsSchedule(note, start, rows)
    ensures (forall k | 0 <= k < note.term :: SplitsExactly(rows[k])) <==> note.WholeCents()
    ensures forall k | 0 <= k < note.term - 1 :: SplitsExactly(rows[k])
  {
    forall k | 0 <= k < note.term - 1 ensures SplitsExactly(rows[k]) {
      LevelRow(note, start, k);
    }
    LastRow(note, start, rows);
    assert SplitsExactly(rows[note.term - 1]) <==> note.WholeCents();
  }

  /** Exactly one payment can differ from the level payment, and by at most (term + 1) / 2 cents. */
  lemma FinalPaymentNearLevel(note: Note)
    requires note.Valid()
    ensures -(note.term + 1) <= 2 * (note.FinalPayment() - note.Level()) <= note.term + 1
  {
    HalfUpError(note.payment);
    SlackAccumulates(note.payment, note.Level(), note.term);
    HalfUpError(Payments(note.payment, note.term));
    TimesIsProduct(note.Level(), note.term - 1);
    assert note.FinalPayment() - note.Level() == note.Total() - Times(note.Level(), note.term);
  }

  lemma {:induction false} SlackAccumulates(exact: real, level: int, n: nat)
    requires -0.5 <= level as real - exact <= 0.5
    ensures -(n as real) <= 2.0 * (Times(level, n) as real - Payments(exact, n)) <= n as real
  {
    if n > 0 {
      SlackAccumulates(exact, level, n - 1);
      assert Payments(exact, n) == Payments(exact, n - 1) + exact;
    }
  }

  /** What the earlier rows overpay by rounding leaves at least half a cent of the exact payment. */
  predicate LeavesLast(note: Note)
    requires note.Valid()
  {
    Payments(note.Level() as real - note.payment, note.term - 1) <= note.payment - 0.5
  }

  lemma FinalPaymentIsPositiveExactly(note: Note)
    requires note.Valid() && note.payment > 0.0
    ensures note.FinalPayment() > 0 <==> LeavesLast(note)
  {
    var level, earlier := note.Level(), note.term - 1;
    HalfUpIsNearest(note.payment, level);
    assert level * earlier >= 0;
    HalfUpReaches(Payments(note.payment, note.term), level * earlier + 1);
    assert Payments(note.payment, note.term) == Payments(note.payment, earlier) + note.payment;
    assert Payments(level as real - note.payment, earlier) ==
           (level * earlier) as real - Payments(note.payment, earlier);
  }

  /** The schedule's promise of positive payments holds for a loan exactly when a level payment, if
      there is one, reaches half a cent, and the earlier rows leave the last one something. */
  lemma PaymentsArePositiveExactly(note: Note, start: Date)
    requires note.Valid() && note.payment > 0.0 && start.Valid()
    ensures (forall k | 0 <= k < note.term :: RowAt(note, start, k).payment > 0) <==>
            (note.term == 1 || note.payment >= 0.5) && LeavesLast(note)
  {
    FinalPaymentIsPositiveExactly(note);
    HalfUpReaches(note.payment, 1);
    assert RowAt(note, start, note.term - 1).payment == note.FinalPayment();
    assert note.term > 1 ==> RowAt(note, start, 0).payment == note.Level();
  }

  /** A level payment above the allowance for the last row is enough. */
  lemma FinalPaymentIsPositive(note: Note)
    requires note.Valid() && 2 * note.Level() > note.term + 1
    ensures note.FinalPayment() > 0
  {
    FinalPaymentNearLevel(note);
  }

  /** The promise fails at its last row: 30 cents over 60 months at 0% is 59 payments of one cent and
      then a payment of minus 29 cents. */
  lemma TinyLoanEndsNegative(start: Date)
    requires start.Valid()
    ensures var note := NoteOf(0.3, 0.0, 60);
            note.Level() == 1 && RowAt(note, start, 59).payment == -29
  {
    var note := NoteOf(0.3, 0.0, 60);
    assert note.rate == 0.0;
    assert note.payment == 0.5;
  }

  /** And at every other one: 20 cents over 60 months at 0% is 59 payments of nothing and then one of
      20 cents. */
  lemma TinierLoanPaysAtTheEnd(start: Date)
    requires start.Valid()
    ensures var note := NoteOf(0.2, 0.0, 60);
            (forall k | 0 <= k < 59 :: RowAt(note, start, k).payment == 0) && RowAt(note, start, 59).payment == 20
  {
    var note := NoteOf(0.2, 0.0, 60);
    assert note.rate == 0.0;
    assert note.payment * 60.0 == 20.0;
    assert note.Level() == 0;
  }

  // ---- Interest -------------------------------------------------------------------------

  function Charged(rows: seq<Row>): real {
    if rows == [] then 0.0 else Charged(rows[..|rows| - 1]) + rows[|rows| - 1].interest
  }

  lemma {:induction false} LevelRowsCharge(note: Note, start: Date, rows: seq<Row>, k: nat)
    requires IsSchedule(note, start, rows) && k < note.term
    ensures Charged(rows[..k]) == Paid(rows[..k]) as real - Repaid(rows[..k]) as real
  {
    if k > 0 {
      LevelRowsCharge(note, start, rows, k - 1);
      LevelRow(note, start, k - 1);
      assert rows[..k][..k - 1] == rows[..k - 1];
    }
  }

  /** What the last row charges: whatever of the total of payments is neither principal nor charged
      already. */
  lemma LastInterestIsTheRest(note: Note, start: Date, rows: seq<Row>)
    requires IsSchedule(note, start, rows)
    ensures rows[note.term - 1].interest ==
            note.Total() as real - note.principal - Charged(rows[..note.term - 1])
  {
    var m := note.term - 1;
    LevelRowsSum(note, start, rows, m);
    LevelRowsCharge(note, start, rows, m);
    TimesIsProduct(note.Level(), m);
    assert RowAt(note, start, m).interest == note.FinalPayment() as real - note.Running(m);
  }

  /** The rows' interest adds up exactly to the total of payments less the loan, for every loan. */
  lemma InterestSumsToCharge(note: Note, start: Date, rows: seq<Row>)
    requires IsSchedule(note, start, rows)
    ensures Charged(rows) == note.Total() as real - note.principal
  {
    LastInterestIsTheRest(note, start, rows);
  }

  /** The schedule's promise that no row charges negative interest is a condition on the note alone: no
      balance before the last row is so far overpaid that a month's interest on it reaches minus half
      a cent, and the final payment covers the balance that the level payments leave. */
  lemma InterestIsNonNegativeExactly(note: Note, start: Date)
    requires note.Valid() && start.Valid()
    ensures (forall k | 0 <= k < note.term :: RowAt(note, start, k).interest >= 0.0) <==>
            && (forall k | 0 <= k < note.term - 1 :: Accrued(note.Running(k), note.rate) > -0.5)
            && note.Running(note.term - 1) <= note.FinalPayment() as real
  {
    var m := note.term - 1;
    assert RowAt(note, start, m).interest == note.FinalPayment() as real - note.Running(m);
    forall k | 0 <= k < m
      ensures RowAt(note, start, k).interest >= 0.0 <==> Accrued(note.Running(k), note.rate) > -0.5
    {
      RoundsToNonNegative(Accrued(note.Running(k), note.rate));
      assert RowAt(note, start, k).interest == HalfUp(Accrued(note.Running(k), note.rate)) as real;
    }
  }

  lemma RoundsToNonNegative(x: real)
    ensures HalfUp(x) >= 0 <==> x > -0.5
  {
    HalfUpIsNearest(x, HalfUp(x));
  }

  /** The promise fails for 80 cents at 12% over 12 months: six rows charge a cent each, one more than
      the loan's whole interest, so the last row charges minus one. */
  lemma SmallLoanEndsWithNegativeInterest(start: Date)
    requires start.Valid()
    ensures RowAt(NoteOf(0.8, 12.0, 12), start, 11).interest == -1.0
  {
    var note := NoteOf(0.8, 12.0, 12);
    TwelveMonthsAtOnePercent();
    var f := Pow(1.01, 12);
    var payment := AnnuityPayment(0.8, 0.01, f);
    assert payment * (f - 1.0) == 0.8 * 0.01 * f;
    assert note.payment == 100.0 * payment && note.rate == 0.01;
    HalfUpIsNearest(note.payment, 7);
    HalfUpIsNearest(Payments(note.payment, 12), 85);
    EightyCentsRunsDown(note.principal, note.rate, 11);
    assert EightyCents(3) == 62 && EightyCents(6) == 44 && EightyCents(9) == 23 && EightyCents(11) == 9;
  }

  lemma TwelveMonthsAtOnePercent()
    ensures Pow(1.01, 12) == 1.126825030131969720661201
  {
    assert Pow(1.01, 3) == 1.030301;
    PowAdd(1.01, 3, 3);
    PowAdd(1.01, 6, 6);
  }

  /** The running balance of that loan in whole cents. */
  function EightyCents(k: nat): int {
    if k == 0 then 80 else EightyCents(k - 1) - 7 + (if EightyCents(k - 1) >= 50 then 1 else 0)
  }

  lemma {:induction false} EightyCentsRunsDown(p: real, r: real, k: nat)
    requires p == 80.0 && r == 0.01 && k <= 11
    ensures AfterRows(p, r, 7, k) == EightyCents(k) as real && 80 - 7 * k <= EightyCents(k) <= 80
  {
    if k > 0 {
      EightyCentsRunsDown(p, r, k - 1);
      var before := EightyCents(k - 1);
      HalfUpIsNearest(Accrued(before as real, r), if before >= 50 then 1 else 0);
    }
  }
}
