/** The annual percentage rate by bisection, and its agreement with the actuarial method of Appendix J
  of Regulation Z. The disclosed APR is a whole number of thousandths of a percent. */
module Bisection {
  import opened Rounding
  import opened Annuity
  import opened Apr

  const ITERATIONS: nat := 200

  /** What a finished bisection hands over: a bracket inside [0, 1], 2^-200 wide, whose ends lie
      on either side of the target unless an end of the search range was reached. */
  ghost predicate Bracket(payment: real, target: real, term: nat, lo: real, hi: real, halvings: nat) {
    && 0.0 <= lo < hi <= 1.0
    && hi - lo == Pow(0.5, halvings)
    && (lo == 0.0 || PresentValue(payment, lo, term) > target)
    && (hi == 1.0 || PresentValue(payment, hi, term) <= target)
  }

  method SolveMonthlyRate(payment: real, financed: real, term: int) returns (lo: real, hi: real)
    requires term > 0
    ensures Bracket(payment, financed, term, lo, hi, ITERATIONS)
  {
    lo, hi := 0.0, 1.0;
    for i := 0 to ITERATIONS
      invariant Bracket(payment, financed, term, lo, hi, i)
    {
      var mid := (lo + hi) / 2.0;
      if PresentValue(payment, mid, term) > financed {
        lo := mid;
      } else {
        hi := mid;
      }
      assert Pow(0.5, i + 1) == 0.5 * Pow(0.5, i);
    }
  }

  /** The periodic rate the actuarial method asks for. */
  ghost predicate IsActuarialRate(payment: real, financed: real, term: nat, rate: real) {
    rate > -1.0 && PresentValue(payment, rate, term) == financed
  }

  lemma ActuarialRateIsUnique(payment: real, financed: real, term: nat, i: real, j: real)
    requires payment > 0.0 && term > 0
    requires IsActuarialRate(payment, financed, term, i) && IsActuarialRate(payment, financed, term, j)
    ensures i == j
  {
    if i < j { PresentValueStrictlyDecreasing(payment, i, j, term); }
    if j < i { PresentValueStrictlyDecreasing(payment, j, i, term); }
  }

  /** Bisection reaches the actuarial rate to within 2^-201 exactly when the amount financed lies
      between the stream's values at the two ends of the search range, which the caller can see
      beforehand. */
  lemma BisectionConvergesExactly(payment: real, financed: real, term: nat, lo: real, hi: real, root: real)
    requires payment > 0.0 && term > 0
    requires Bracket(payment, financed, term, lo, hi, ITERATIONS)
    requires IsActuarialRate(payment, financed, term, root)
    ensures -Pow(0.5, 201) <= (lo + hi) / 2.0 - root <= Pow(0.5, 201) <==>
            PresentValue(payment, 1.0, term) <= financed <= PresentValue(payment, 0.0, term)
  {
    assert Pow(0.5, 201) == 0.5 * Pow(0.5, 200);
    if root < 0.0 { PresentValueStrictlyDecreasing(payment, root, 0.0, term); }
    if root > 0.0 { PresentValueStrictlyDecreasing(payment, 0.0, root, term); }
    if root < 1.0 { PresentValueStrictlyDecreasing(payment, root, 1.0, term); }
    if root > 1.0 { PresentValueStrictlyDecreasing(payment, 1.0, root, term); }
    if root < lo { PresentValueStrictlyDecreasing(payment, root, lo, term); }
    if hi < root && hi < 1.0 { PresentValueStrictlyDecreasing(payment, hi, root, term); }
  }

  /** The crossing the bracket pins down exists whenever the range ends straddle the target. */
  lemma BracketStraddlesExactly(payment: real, financed: real, term: nat, lo: real, hi: real)
    requires payment > 0.0 && term > 0
    requires Bracket(payment, financed, term, lo, hi, ITERATIONS)
    ensures PresentValue(payment, lo, term) >= financed >= PresentValue(payment, hi, term) <==>
            PresentValue(payment, 0.0, term) >= financed >= PresentValue(payment, 1.0, term)
  {
    if lo > 0.0 { PresentValueStrictlyDecreasing(payment, 0.0, lo, term); }
    if hi < 1.0 { PresentValueStrictlyDecreasing(payment, hi, 1.0, term); }
  }

  /** Financing a fee can only raise the rate above the note rate, and does so exactly when the
      fee rounds to at least a cent. */
  lemma FeeRaisesTheRate(principal: real, annualPct: real, term: int, fee: FeeRate, root: real)
    requires principal > 0.0 && term > 0 && annualPct > -1200.0
    requires IsActuarialRate(MonthlyPayment(principal, annualPct, term).value,
                             AmountFinanced(principal, fee), term, root)
    ensures root >= MonthlyRate(annualPct)
    ensures root > MonthlyRate(annualPct) <==> PrepaidFinanceCharge(principal, fee) >= 1
  {
    var payment, note := MonthlyPayment(principal, annualPct, term).value, MonthlyRate(annualPct);
    SomethingIsFinanced(principal, fee);
    if root < note { PresentValueStrictlyDecreasing(payment, root, note, term); }
    if root > note { PresentValueStrictlyDecreasing(payment, note, root, term); }
  }

  /** Without a fee the solver finds the note rate again exactly when that is 0 to 1200% a year; a
      negative note rate, which the payment admits, comes back as practically zero. */
  lemma NoteRateIsFoundExactly(principal: real, annualPct: real, term: int, lo: real, hi: real)
    requires principal > 0.0 && term > 0 && annualPct > -1200.0
    requires Bracket(MonthlyPayment(principal, annualPct, term).value, AmountFinanced(principal, 0.0), term, lo, hi,
             ITERATIONS)
    ensures -Pow(0.5, 201) <= (lo + hi) / 2.0 - MonthlyRate(annualPct) <= Pow(0.5, 201) <==> 0.0 <= annualPct <= 1200.0
  {
    var payment, note := MonthlyPayment(principal, annualPct, term).value, MonthlyRate(annualPct);
    HalfUpWhole(0);
    assert PrepaidFinanceCharge(principal, 0.0) == 0;
    BisectionConvergesExactly(payment, principal, term, lo, hi, note);
    if note < 0.0 { PresentValueStrictlyDecreasing(payment, note, 0.0, term); }
    if note > 0.0 { PresentValueStrictlyDecreasing(payment, 0.0, note, term); }
    if note < 1.0 { PresentValueStrictlyDecreasing(payment, note, 1.0, term); }
    if note > 1.0 { PresentValueStrictlyDecreasing(payment, 1.0, note, term); }
  }

  /** Every loan the offer endpoint admits (term of at least 12 months, rate of 0 to 35%) has its
      actuarial rate inside the search range, whatever the principal and the fee. */
  lemma OfferedLoansAreInRange(principal: real, annualPct: real, term: int, fee: FeeRate)
    requires principal > 0.0 && term >= 12 && 0.0 <= annualPct <= 35.0
    ensures var payment := MonthlyPayment(principal, annualPct, term).value;
            PresentValue(payment, 1.0, term) <= AmountFinanced(principal, fee)
                                             <= PresentValue(payment, 0.0, term)
  {
    var payment, r := MonthlyPayment(principal, annualPct, term).value, MonthlyRate(annualPct);
    SomethingIsFinanced(principal, fee);
    if r > 0.0 { PresentValueStrictlyDecreasing(payment, 0.0, r, term); }
    PresentValueIsDiscountedStream(payment, 1.0, term);
    PaymentIsModest(principal, payment, r, term);
    assert PresentValue(payment, 1.0, term) <= payment by {
      assert payment * (1.0 / Pow(2.0, term)) >= 0.0;
    }
  }

  lemma PaymentIsModest(principal: real, payment: real, r: real, term: int)
    requires principal > 0.0 && term >= 12 && 0.0 <= r <= 0.03 && payment > 0.0
    requires PresentValue(payment, r, term) == principal
    ensures payment <= principal / 2.0
  {
    if r == 0.0 {
      TwelveAtLeast(payment, term);
    } else {
      var f := Pow(1.0 + r, term);
      PowAtLeastLinear(r, term);
      TwelveAtLeast(r, term);
      DiscountIsSubstantial(r, f);
      HalfIsEnough(principal, payment, r, 1.0 - 1.0 / f);
    }
  }

  lemma TwelveAtLeast(x: real, term: nat)
    requires x >= 0.0 && term >= 12
    ensures Linear(x, term) >= 1.0 + 12.0 * x
    ensures PresentValue(x, 0.0, term) >= 12.0 * x
  {
    var n := term as real;
    var extra := n - 12.0;
    assert x * extra >= 0.0;
  }

  lemma HalfIsEnough(principal: real, payment: real, r: real, kept: real)
    requires r > 0.0 && payment > 0.0 && kept >= 2.0 * r
    requires payment * kept / r == principal
    ensures payment <= principal / 2.0
  {
    var gap := kept - 2.0 * r;
    assert payment * kept == principal * r;
    assert payment * gap >= 0.0;
    var slack := principal - 2.0 * payment;
    assert slack * r == payment * gap;
  }

  lemma DiscountIsSubstantial(r: real, f: real)
    requires 0.0 < r <= 0.03 && f >= 1.0 + 12.0 * r
    ensures 1.0 - 1.0 / f >= 2.0 * r
  {
    CrudeBound(r);
    ReciprocalBelow(f, 1.0 + 12.0 * r, 1.0 - 2.0 * r);
  }

  lemma CrudeBound(r: real)
    requires 0.0 < r <= 0.03
    ensures (1.0 - 2.0 * r) * (1.0 + 12.0 * r) >= 1.0
  {
    var spare := 10.0 - 24.0 * r;
    assert r * spare >= 0.0;
    assert (1.0 - 2.0 * r) * (1.0 + 12.0 * r) == 1.0 + r * spare;
  }

  lemma ReciprocalBelow(f: real, d: real, y: real)
    requires f >= d > 0.0 && y * d >= 1.0
    ensures 1.0 / f <= y
  {
    var x := 1.0 / f;
    assert x * f == 1.0;
    Scaled(x, d, f);
    assert (y - x) * d >= 0.0;
  }

  /** APR in thousandths of a percent. */
  function Disclosed(monthly: real): int {
    HalfUp(monthly * 12.0 * 100.0 * 1000.0)
  }

  method ComputeApr(principal: real, annualPct: real, term: int, fee: FeeRate) returns (apr: Result<int>)
    requires annualPct > -1200.0
    ensures apr.Err? <==> principal <= 0.0 || term <= 0
    ensures principal <= 0.0 ==> apr == Err(PrincipalNotPositive)
    ensures principal > 0.0 && term <= 0 ==> apr == Err(TermNotPositive)
    ensures apr.Ok? ==>
              var payment := MonthlyPayment(principal, annualPct, term).value;
              exists lo, hi ::
                && Bracket(payment, AmountFinanced(principal, fee), term, lo, hi, ITERATIONS)
                && apr.value == Disclosed((lo + hi) / 2.0)
  {
    var valid := Validate(principal, term);
    if valid.Err? {
      return Err(valid.error);
    }
    var payment := MonthlyPayment(principal, annualPct, term).value;
    var financed := AmountFinanced(principal, fee);
    SomethingIsFinanced(principal, fee);
    if financed <= 0.0 {
      return Err(NothingFinanced);
    }
    var lo, hi := SolveMonthlyRate(payment, financed, term);
    apr := Ok(Disclosed((lo + hi) / 2.0));
  }

  lemma BisectionResidueIsTiny()
    ensures 0.0 < 1200.0 * Pow(0.5, 201) < 0.0001
  {
    PowAdd(0.5, 6, 6);
    PowAdd(0.5, 12, 12);
    PowAdd(0.5, 24, 177);
    assert Pow(0.5, 6) == 0.015625;
    PowStrictlyIncreasing(0.5, 1.0, 177);
    PowOne(177);
    assert Pow(0.5, 201) < Pow(0.5, 24) by {
      assert Pow(0.5, 24) * Pow(0.5, 177) < Pow(0.5, 24) * 1.0;
    }
  }

  /** Six ten-thousandths of a percentage point under the yearly rate the payments are worth more than
      the amount financed, and as much above it they are worth less. */
  ghost predicate Around(payment: real, financed: real, term: nat, apr: real) {
    && apr >= 0.0
    && PresentValue(payment, (apr - 0.0006) / 1200.0, term) > financed
    && financed > PresentValue(payment, (apr + 0.0006) / 1200.0, term)
  }

  /** A target that the two ends of the search range straddle ends up that close to the disclosed APR. */
  lemma DisclosedIsAround(payment: real, financed: real, term: nat, lo: real, hi: real)
    requires payment > 0.0 && term > 0 && Bracket(payment, financed, term, lo, hi, ITERATIONS)
    requires PresentValue(payment, 0.0, term) >= financed >= PresentValue(payment, 1.0, term)
    ensures Around(payment, financed, term, Disclosed((lo + hi) / 2.0) as real / 1000.0)
  {
    var apr := Disclosed((lo + hi) / 2.0) as real / 1000.0;
    BracketStraddlesExactly(payment, financed, term, lo, hi);
    assert Pow(0.5, 201) == 0.5 * Pow(0.5, 200);
    RoundingOfNearbyRate((lo + hi) / 2.0, lo);
    RoundingOfNearbyRate((lo + hi) / 2.0, hi);
    DisclosedIsNotNegative((lo + hi) / 2.0);
    PresentValueStrictlyDecreasing(payment, (apr - 0.0006) / 1200.0, lo, term);
    PresentValueStrictlyDecreasing(payment, hi, (apr + 0.0006) / 1200.0, term);
  }

  /** End to end, for every loan the endpoint admits, the disclosed APR brackets the loan in that way
      (Regulation Z allows 0.125). */
  lemma DisclosedAprBracketsTheLoan(principal: real, annualPct: real, term: int, fee: FeeRate, lo: real, hi: real)
    requires principal > 0.0 && term >= 12 && 0.0 <= annualPct <= 35.0
    ensures var payment, financed := MonthlyPayment(principal, annualPct, term).value, AmountFinanced(principal, fee);
            Bracket(payment, financed, term, lo, hi, ITERATIONS) ==>
              Around(payment, financed, term, Disclosed((lo + hi) / 2.0) as real / 1000.0)
  {
    var payment, financed := MonthlyPayment(principal, annualPct, term).value, AmountFinanced(principal, fee);
    OfferedLoansAreInRange(principal, annualPct, term, fee);
    if Bracket(payment, financed, term, lo, hi, ITERATIONS) {
      DisclosedIsAround(payment, financed, term, lo, hi);
    }
  }

  lemma DisclosedIsNotNegative(monthly: real)
    requires monthly >= 0.0
    ensures Disclosed(monthly) >= 0
  {
  }

  /** So any actuarial rate of the loan, yearly, is within six ten-thousandths of a percentage point of
      the disclosed APR. */
  lemma DisclosedAprIsActuarial(principal: real, annualPct: real, term: int, fee: FeeRate, lo: real, hi: real,
                                root: real)
    requires principal > 0.0 && term >= 12 && 0.0 <= annualPct <= 35.0
    requires Bracket(MonthlyPayment(principal, annualPct, term).value,
                     AmountFinanced(principal, fee), term, lo, hi, ITERATIONS)
    requires IsActuarialRate(MonthlyPayment(principal, annualPct, term).value,
                             AmountFinanced(principal, fee), term, root)
    ensures -0.0006 < Disclosed((lo + hi) / 2.0) as real / 1000.0 - root * 1200.0 < 0.0006
  {
    var payment := MonthlyPayment(principal, annualPct, term).value;
    var apr := Disclosed((lo + hi) / 2.0) as real / 1000.0;
    DisclosedAprBracketsTheLoan(principal, annualPct, term, fee, lo, hi);
    if root < (apr - 0.0006) / 1200.0 {
      PresentValueStrictlyDecreasing(payment, root, (apr - 0.0006) / 1200.0, term);
    }
    if root > (apr + 0.0006) / 1200.0 {
      PresentValueStrictlyDecreasing(payment, (apr + 0.0006) / 1200.0, root, term);
    }
  }

  lemma RoundingOfNearbyRate(monthly: real, root: real)
    requires -Pow(0.5, 201) <= monthly - root <= Pow(0.5, 201)
    ensures -0.0006 < Disclosed(monthly) as real / 1000.0 - root * 1200.0 < 0.0006
  {
    BisectionResidueIsTiny();
    HalfUpError(monthly * 12.0 * 100.0 * 1000.0);
  }

  /** A note rate quoted to three decimals is never printed above the disclosed APR. */
  lemma AprNeverPrintsBelowNoteRate(principal: real, annualPct: real, term: int, fee: FeeRate, lo: real, hi: real)
    requires principal > 0.0 && term > 0 && 0.0 <= annualPct <= 1200.0 && IsInteger(annualPct * 1000.0)
    requires Bracket(MonthlyPayment(principal, annualPct, term).value,
                     AmountFinanced(principal, fee), term, lo, hi, ITERATIONS)
    ensures Disclosed((lo + hi) / 2.0) as real / 1000.0 >= annualPct
  {
    SomethingIsFinanced(principal, fee);
    BracketReachesNoteRate(MonthlyPayment(principal, annualPct, term).value, AmountFinanced(principal, fee), term,
                           lo, hi, MonthlyRate(annualPct));
    RoundingLiftsToThreeDecimals((lo + hi) / 2.0, annualPct);
  }

  lemma RoundingLiftsToThreeDecimals(monthly: real, annualPct: real)
    requires annualPct >= 0.0 && IsInteger(annualPct * 1000.0)
    requires monthly >= MonthlyRate(annualPct) - Pow(0.5, 201)
    ensures Disclosed(monthly) as real / 1000.0 >= annualPct
  {
    BisectionResidueIsTiny();
    var k := (annualPct * 1000.0).Floor;
    RoundsUpTo(monthly * 12.0 * 100.0 * 1000.0, k);
  }

  lemma RoundsUpTo(x: real, k: int)
    requires x > k as real - 0.5
    ensures HalfUp(x) >= k
  {
    HalfUpIsNearest(x, HalfUp(x));
    assert HalfUp(x) as real > k as real - 1.0;
  }

  lemma BracketReachesNoteRate(payment: real, financed: real, term: nat, lo: real, hi: real, note: real)
    requires payment > 0.0 && term > 0 && 0.0 <= note <= 1.0
    requires Bracket(payment, financed, term, lo, hi, ITERATIONS)
    ensures PresentValue(payment, note, term) >= financed ==> (lo + hi) / 2.0 >= note - Pow(0.5, 201)
  {
    assert Pow(0.5, 201) == 0.5 * Pow(0.5, 200);
    if hi < note { PresentValueStrictlyDecreasing(payment, hi, note, term); }
  }
}
