/** The Regulation Z figures of a level-payment loan: payment, prepaid finance charge, amount financed
  and finance charge. Rates and unrounded amounts are exact reals in dollars; quantized money is a
  whole number of cents. */
module Apr {
  import opened Rounding
  import opened Annuity

  /** An origination fee the fee-schedule loader accepts. */
  type FeeRate = x: real | 0.0 <= x <= 0.25 witness 0.03

  datatype Error = PrincipalNotPositive | TermNotPositive | NothingFinanced

  datatype Result<+T> = Ok(value: T) | Err(error: Error)

  function MonthlyRate(annualPct: real): real {
    annualPct / 100.0 / 12.0
  }

  function Validate(principal: real, term: int): Result<()> {
    if principal <= 0.0 then Err(PrincipalNotPositive)
    else if term <= 0 then Err(TermNotPositive)
    else Ok(())
  }

  /** The level payment is the one whose discounted stream, at the note rate, is worth exactly
      the principal. */
  function MonthlyPayment(principal: real, annualPct: real, term: int): (r: Result<real>)
    requires annualPct > -1200.0
    ensures r.Ok? <==> principal > 0.0 && term > 0
    ensures r.Ok? ==> r.value > 0.0 && PresentValue(r.value, MonthlyRate(annualPct), term) == principal
  {
    var valid := Validate(principal, term);
    if valid.Err? then Err(valid.error)
    else
      var r := MonthlyRate(annualPct);
      if r == 0.0 then
        Ok(principal / term as real)
      else
        PowNotOne(1.0 + r, term);
        PaymentPaysOff(principal, r, term);
        Ok(AnnuityPayment(principal, r, Pow(1.0 + r, term)))
  }

  function AnnuityPayment(principal: real, r: real, factor: real): real
    requires factor != 1.0
  {
    principal * r * factor / (factor - 1.0)
  }

  lemma PaymentPaysOff(principal: real, r: real, term: nat)
    requires principal > 0.0 && r > -1.0 && r != 0.0 && term > 0
    ensures Pow(1.0 + r, term) != 1.0
    ensures AnnuityPayment(principal, r, Pow(1.0 + r, term)) > 0.0
    ensures PresentValue(AnnuityPayment(principal, r, Pow(1.0 + r, term)), r, term) == principal
  {
    PowNotOne(1.0 + r, term);
    PaymentAgainstFactor(principal, r, Pow(1.0 + r, term));
  }

  lemma PaymentAgainstFactor(principal: real, r: real, factor: real)
    requires principal > 0.0 && factor > 0.0 && r != 0.0
    requires if r > 0.0 then factor > 1.0 else factor < 1.0
    ensures AnnuityPayment(principal, r, factor) > 0.0
    ensures AnnuityPayment(principal, r, factor) * (1.0 - 1.0 / factor) / r == principal
  {
    var payment := AnnuityPayment(principal, r, factor);
    var part, kept, over := r / (factor - 1.0), 1.0 - 1.0 / factor, factor - 1.0;
    assert part > 0.0;
    assert part * over == r;
    var scaled := principal * factor;
    assert scaled > 0.0 && scaled * part > 0.0;
    assert payment == scaled * part by {
      assert principal * r * factor == scaled * part * over;
      Quotient(principal * r * factor, over, scaled * part);
    }
    assert kept * factor == over;
    assert payment * kept == principal * (part * (kept * factor));
    assert payment * kept == principal * r;
    Quotient(payment * kept, r, principal);
  }

  function PrepaidFinanceCharge(principal: real, fee: FeeRate): int {
    HalfUp(principal * fee * 100.0)
  }

  function AmountFinanced(principal: real, fee: FeeRate): real {
    principal - PrepaidFinanceCharge(principal, fee) as real / 100.0
  }

  /** With a fee the schedule loader accepts there is always something left to finance, so the
      third refusal of the solver never fires. */
  lemma SomethingIsFinanced(principal: real, fee: FeeRate)
    requires principal > 0.0
    ensures 0.0 < AmountFinanced(principal, fee) <= principal
    ensures AmountFinanced(principal, fee) >= principal / 2.0
    ensures AmountFinanced(principal, fee) < principal <==> principal * fee * 100.0 >= 0.5
  {
    FeeRounding(principal, principal * fee * 100.0);
  }

  lemma FeeRounding(principal: real, x: real)
    requires principal > 0.0 && 0.0 <= x <= principal * 25.0
    ensures 0.0 <= HalfUp(x) as real / 100.0 <= principal / 2.0
    ensures HalfUp(x) > 0 <==> x >= 0.5
  {
    HalfUpIsNearest(x, HalfUp(x));
  }

  function InterestCharge(principal: real, annualPct: real, term: int): Result<real>
    requires annualPct > -1200.0
  {
    var payment := MonthlyPayment(principal, annualPct, term);
    if payment.Err? then payment else Ok(payment.value * term as real - principal)
  }

  function FinanceCharge(principal: real, annualPct: real, term: int, fee: FeeRate): Result<int>
    requires annualPct > -1200.0
  {
    var interest := InterestCharge(principal, annualPct, term);
    if interest.Err? then Err(interest.error)
    else Ok(HalfUp(interest.value * 100.0 + PrepaidFinanceCharge(principal, fee) as real))
  }
}
