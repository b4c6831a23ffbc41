/** The vendor risk model: four signed contributions, a rounded score, a policy band, and ranked
  attributions. Contributions are exact reals; a disclosed attribution is in hundredths. */
module Scorecard {
  import opened Rounding
  import opened Sorting
  import opened Wrappers

  const BASE_SCORE := 640
  const APPROVE_CUTOFF := 660
  const DENY_CUTOFF := 600

  const DELINQUENCY := "delinquency_history"
  const BURDEN := "payment_burden"
  const SUFFICIENCY := "income_sufficiency"
  const TENURE := "employment_tenure"

  /** The six declared model inputs; None is a missing or null field. */
  datatype Inputs = Inputs(bureauScore: Option<real>, annualIncome: Option<real>, requestedAmount: Option<real>,
                           termMonths: Option<real>, monthlyDebt: Option<real>, employmentYears: Option<real>)

  /** The numbers the model computes with. */
  datatype Profile = Profile(bureau: real, income: real, amount: real, term: int, debt: real, years: real)

  /** Python's `x or default`. */
  function OrElse(x: Option<real>, default: real): real {
    if x.Some? && x.value != 0.0 then x.value else default
  }

  /** Python's `int()` on a number. */
  function Truncate(x: real): int {
    if x >= 0.0 then x.Floor else -((-x).Floor)
  }

  function Coerce(i: Inputs): Profile {
    Profile(OrElse(i.bureauScore, 0.0), OrElse(i.annualIncome, 0.0), OrElse(i.requestedAmount, 0.0),
            Truncate(OrElse(i.termMonths, 36.0)), OrElse(i.monthlyDebt, 0.0), OrElse(i.employmentYears, 0.0))
  }

  function Max(x: real, y: real): real { if x >= y then x else y }

  function Min(x: real, y: real): real { if x <= y then x else y }

  function Ratio(x: real, y: real): real
    requires y != 0.0
  {
    x / y
  }

  function NewPayment(amount: real, term: int): real {
    if term != 0 then Ratio(amount, term as real) else 0.0
  }

  function PaymentBurden(income: real, obligations: real): real {
    var monthlyIncome := income / 12.0;
    if monthlyIncome > 0.0 then Max((0.35 - Ratio(obligations, monthlyIncome)) * 120.0, -80.0) else -80.0
  }

  function IncomeRatio(income: real, amount: real): real {
    if amount != 0.0 then Ratio(income, amount) else 0.0
  }

  function Delinquency(p: Profile): real { (p.bureau - BASE_SCORE as real) * 0.5 }
  function Burden(p: Profile): real { PaymentBurden(p.income, p.debt + NewPayment(p.amount, p.term)) }
  function Sufficiency(p: Profile): real { Min(IncomeRatio(p.income, p.amount), 5.0) * 8.0 - 20.0 }
  function Tenure(p: Profile): real { Min(p.years, 10.0) * 2.0 - 8.0 }

  /** A feature with its signed contribution to the score. */
  datatype Contribution = Contribution(feature: string, value: real)

  function Contributions(p: Profile): seq<Contribution> {
    [Contribution(DELINQUENCY, Delinquency(p)),
     Contribution(BURDEN, Burden(p)),
     Contribution(SUFFICIENCY, Sufficiency(p)),
     Contribution(TENURE, Tenure(p))]
  }

  function Sum(cs: seq<Contribution>): real {
    if cs == [] then 0.0 else cs[0].value + Sum(cs[1..])
  }

  function Score(p: Profile): int {
    HalfEven(BASE_SCORE as real + Sum(Contributions(p)))
  }

  datatype Band = Approve | Refer | Deny {
    function Rank(): int {
      match this
      case Approve => 2
      case Refer => 1
      case Deny => 0
    }
  }

  function PolicyBand(score: int): Band {
    if score >= APPROVE_CUTOFF then Approve
    else if score >= DENY_CUTOFF then Refer
    else Deny
  }

  /** A disclosed attribution; `hundredths` is the contribution rounded to two decimals. */
  datatype Attribution = Attribution(feature: string, hundredths: int)

  function Disclosed(c: Contribution): Attribution {
    Attribution(c.feature, HalfEven(c.value * 100.0))
  }

  predicate MoreNegative(c: Contribution, d: Contribution) {
    c.value <= d.value
  }

  function DisclosedAll(cs: seq<Contribution>): (r: seq<Attribution>)
    ensures |r| == |cs|
    ensures forall k | 0 <= k < |cs| :: r[k] == Disclosed(cs[k])
  {
    if cs == [] then [] else [Disclosed(cs[0])] + DisclosedAll(cs[1..])
  }

  /** Ranked attributions, most negative first. */
  function Attributions(p: Profile): seq<Attribution> {
    DisclosedAll(Sort(Contributions(p), MoreNegative))
  }

  datatype Output = Output(score: int, modelId: string, modelVersion: string, attributions: seq<Attribution>)

  const MODEL_ID := "meridian-risk-stub"
  const MODEL_VERSION := "1"

  function ModelSignature(): string {
    MODEL_ID + ":v" + MODEL_VERSION
  }

  function ScoreApplication(i: Inputs): Output {
    var p := Coerce(i);
    Output(Score(p), MODEL_ID, MODEL_VERSION, Attributions(p))
  }

  // ---- Ranking --------------------------------------------------------------------------

  predicate Ranked(a: Attribution, b: Attribution) {
    a.hundredths <= b.hundredths
  }

  /** Rounding keeps the ranking, and the ranked list is a rearrangement of the four features. */
  lemma AttributionsAreRanked(p: Profile)
    ensures Sorted(Attributions(p), Ranked)
    ensures multiset(Attributions(p)) == multiset(DisclosedAll(Contributions(p)))
    ensures |Attributions(p)| == 4
  {
    var raw := Contributions(p);
    SortSorts(raw, MoreNegative);
    RoundingKeepsOrder(Sort(raw, MoreNegative));
    SortKeepsElements(raw, MoreNegative);
    RoundingKeepsElements(raw);
  }

  lemma RoundedPair(c: Contribution, d: Contribution)
    requires MoreNegative(c, d)
    ensures Ranked(Disclosed(c), Disclosed(d))
  {
    HalfEvenMonotone(c.value * 100.0, d.value * 100.0);
  }

  lemma RoundingKeepsOrder(sorted: seq<Contribution>)
    requires Sorted(sorted, MoreNegative)
    ensures Sorted(DisclosedAll(sorted), Ranked)
  {
    var rounded := DisclosedAll(sorted);
    forall i, j | 0 <= i < j < |rounded| ensures Ranked(rounded[i], rounded[j]) {
      assert MoreNegative(sorted[i], sorted[j]);
      RoundedPair(sorted[i], sorted[j]);
    }
  }

  lemma {:induction false} RoundingKeepsElements(s: seq<Contribution>)
    ensures multiset(DisclosedAll(Sort(s, MoreNegative))) == multiset(DisclosedAll(s))
  {
    if s != [] {
      RoundingKeepsElements(s[1..]);
      InsertRounded(s[0], Sort(s[1..], MoreNegative));
    }
  }

  lemma {:induction false} InsertRounded(x: Contribution, s: seq<Contribution>)
    ensures multiset(DisclosedAll(Insert(x, s, MoreNegative))) == multiset{Disclosed(x)} + multiset(DisclosedAll(s))
  {
    if s != [] {
      if MoreNegative(x, s[0]) {
        assert ([x] + s)[1..] == s;
      } else {
        InsertRounded(x, s[1..]);
        var rest := Insert(x, s[1..], MoreNegative);
        assert ([s[0]] + rest)[1..] == rest;
      }
    }
  }

  lemma FeatureIsListed(p: Profile, k: nat)
    requires k < 4
    ensures Disclosed(Contributions(p)[k]) in Attributions(p)
  {
    AttributionsAreRanked(p);
    var raw := DisclosedAll(Contributions(p));
    assert raw[k] in raw;
    SameElements(raw, Attributions(p), raw[k]);
  }

  /** A score under the deny cutoff forces an attribution that is still negative after rounding. */
  lemma DenyHasNegativeAttribution(p: Profile)
    requires PolicyBand(Score(p)) == Deny
    ensures exists a :: a in Attributions(p) && a.hundredths < 0
  {
    var raw := Contributions(p);
    HalfEvenError(BASE_SCORE as real + Sum(raw));
    SumOfFour(raw);
    assert raw[0].value <= -10.0 || raw[1].value <= -10.0 || raw[2].value <= -10.0 || raw[3].value <= -10.0;
    var k: nat := if raw[0].value <= -10.0 then 0 else if raw[1].value <= -10.0 then 1
                  else if raw[2].value <= -10.0 then 2 else 3;
    HalfEvenError(raw[k].value * 100.0);
    FeatureIsListed(p, k);
    assert Disclosed(raw[k]).hundredths < 0;
  }

  // ---- Monotonicity ---------------------------------------------------------------------

  /** `j` is at least as creditworthy as `i` in every declared input, both being real requests:
      non-negative figures with a positive amount and a positive term. */
  predicate AtLeastAsStrong(i: Profile, j: Profile) {
    && 0.0 <= i.bureau <= j.bureau && 0.0 <= i.income <= j.income && 0.0 <= i.years <= j.years
    && i.amount >= j.amount > 0.0 && i.debt >= j.debt >= 0.0 && 0 < i.term <= j.term
  }

  lemma RatioIsMonotone(a: real, b: real, c: real, d: real)
    requires 0.0 <= a <= b && c >= d > 0.0
    ensures 0.0 <= Ratio(a, c) <= Ratio(b, d)
  {
    var x, y := a / c, b / d;
    assert x * c == a && y * d == b;
    assert x >= 0.0;
    var wider := c - d;
    assert x * wider >= 0.0;
    assert (y - x) * d == b - a + x * wider;
    assert (y - x) * d >= 0.0;
  }

  /** Raising bureau score, income, tenure or term never lowers the score or the band; raising
      monthly debt or the requested amount never raises them. */
  lemma ScoreIsMonotone(i: Profile, j: Profile)
    requires AtLeastAsStrong(i, j)
    ensures Score(i) <= Score(j)
    ensures PolicyBand(Score(i)).Rank() <= PolicyBand(Score(j)).Rank()
  {
    BurdenIsMonotone(i, j);
    RatioIsMonotone(i.income, j.income, i.amount, j.amount);
    assert Sufficiency(i) <= Sufficiency(j);
    var a, b := Contributions(i), Contributions(j);
    SumOfFour(a);
    SumOfFour(b);
    HalfEvenMonotone(BASE_SCORE as real + Sum(a), BASE_SCORE as real + Sum(b));
  }

  lemma SumOfFour(cs: seq<Contribution>)
    requires |cs| == 4
    ensures Sum(cs) == cs[0].value + cs[1].value + cs[2].value + cs[3].value
  {
    assert cs[1..][1..] == cs[2..] && cs[2..][1..] == cs[3..] && cs[3..][1..] == [];
    assert Sum(cs[2..]) == cs[2].value + Sum(cs[3..]);
  }

  lemma BurdenIsMonotone(i: Profile, j: Profile)
    requires AtLeastAsStrong(i, j)
    ensures Burden(i) <= Burden(j)
  {
    RatioIsMonotone(j.amount, i.amount, j.term as real, i.term as real);
    var owedI, owedJ := i.debt + NewPayment(i.amount, i.term), j.debt + NewPayment(j.amount, j.term);
    if i.income > 0.0 {
      RatioIsMonotone(owedJ, owedI, j.income / 12.0, i.income / 12.0);
    }
  }

  predicate NoLess(x: Option<real>, y: Option<real>) {
    0.0 <= OrElse(x, 0.0) <= OrElse(y, 0.0)
  }

  /** The same comparison on raw fields, before defaults and truncation: a missing or zero figure counts
      as 0, a missing or zero term as 36. */
  predicate StrongerRequest(i: Inputs, j: Inputs) {
    && NoLess(i.bureauScore, j.bureauScore) && NoLess(i.annualIncome, j.annualIncome)
    && NoLess(i.employmentYears, j.employmentYears) && NoLess(j.monthlyDebt, i.monthlyDebt)
    && OrElse(i.requestedAmount, 0.0) >= OrElse(j.requestedAmount, 0.0) > 0.0
    && 1.0 <= OrElse(i.termMonths, 36.0) <= OrElse(j.termMonths, 36.0)
  }

  lemma BandIsMonotone(i: Inputs, j: Inputs)
    requires StrongerRequest(i, j)
    ensures ScoreApplication(i).score <= ScoreApplication(j).score
    ensures PolicyBand(ScoreApplication(i).score).Rank() <= PolicyBand(ScoreApplication(j).score).Rank()
  {
    ScoreIsMonotone(Coerce(i), Coerce(j));
  }

  // ---- Outside positive amounts and terms ---------------------------------------------------------

  lemma OrderOfSums(i: Profile, j: Profile)
    ensures Sum(Contributions(i)) <= Sum(Contributions(j)) ==> Score(i) <= Score(j)
  {
    var x, y := BASE_SCORE as real + Sum(Contributions(i)), BASE_SCORE as real + Sum(Contributions(j));
    if Sum(Contributions(i)) <= Sum(Contributions(j)) { HalfEvenMonotone(x, y); }
  }

  /** A zero amount has its income ratio taken as zero, so asking for some amount instead gains the
      ratio's points and loses payment burden: the sum does not rise exactly when the loss covers the
      gain, and the score follows the sum. */
  lemma FromZeroAmount(p: Profile, a: real)
    requires p.amount == 0.0 && a > 0.0
    ensures var asked := p.(amount := a);
            (Sum(Contributions(asked)) <= Sum(Contributions(p)) <==>
             8.0 * Min(Ratio(p.income, a), 5.0) <= Burden(p) - Burden(asked)) &&
            (Sum(Contributions(asked)) <= Sum(Contributions(p)) ==> Score(asked) <= Score(p)) &&
            (Sum(Contributions(asked)) >= Sum(Contributions(p)) ==> Score(asked) >= Score(p))
  {
    var asked := p.(amount := a);
    SumOfFour(Contributions(p));
    SumOfFour(Contributions(asked));
    OrderOfSums(asked, p);
    OrderOfSums(p, asked);
  }

  /** From a zero amount, asking for one dollar more lifts this applicant from refer to approve. */
  lemma ZeroAmountIsAnException()
    ensures var zero := Profile(640.0, 1200.0, 0.0, 1, 0.0, 0.0);
            PolicyBand(Score(zero)) == Refer && PolicyBand(Score(zero.(amount := 1.0))) == Approve
  {
    var zero := Profile(640.0, 1200.0, 0.0, 1, 0.0, 0.0);
    var one := zero.(amount := 1.0);
    SumOfFour(Contributions(zero));
    SumOfFour(Contributions(one));
    assert Contributions(zero)[1].value == 42.0;
    assert NewPayment(1.0, 1) == 1.0;
    assert Contributions(one)[1].value == 40.8;
    assert Contributions(one)[2].value == 20.0;
    HalfEvenError(BASE_SCORE as real + Sum(Contributions(one)));
    HalfEvenError(BASE_SCORE as real + Sum(Contributions(zero)));
  }

  /** A zero term has no payment at all, so any real term in its place never raises the score. */
  lemma FromZeroTerm(p: Profile, term: int)
    requires p.term == 0 && term > 0 && p.amount >= 0.0
    ensures Score(p.(term := term)) <= Score(p)
    ensures PolicyBand(Score(p.(term := term))).Rank() <= PolicyBand(Score(p)).Rank()
  {
    var lent := p.(term := term);
    assert NewPayment(p.amount, term) >= 0.0;
    if p.income > 0.0 {
      DebtOnlyBurdens(p.debt, p.debt + NewPayment(p.amount, term), p.income / 12.0);
    }
    SumOfFour(Contributions(p));
    SumOfFour(Contributions(lent));
    OrderOfSums(lent, p);
  }

  lemma DebtOnlyBurdens(a: real, b: real, monthlyIncome: real)
    requires a <= b && monthlyIncome > 0.0
    ensures Ratio(a, monthlyIncome) <= Ratio(b, monthlyIncome)
  {
    var x, y := a / monthlyIncome, b / monthlyIncome;
    assert (y - x) * monthlyIncome == b - a;
  }

  /** This applicant falls from approve to refer when a term of zero months becomes one. */
  lemma ZeroTermIsAnException()
    ensures var zero := Profile(680.0, 12000.0, 2000.0, 0, 0.0, 4.0);
            PolicyBand(Score(zero)) == Approve && PolicyBand(Score(zero.(term := 1))) == Refer
  {
    var zero := Profile(680.0, 12000.0, 2000.0, 0, 0.0, 4.0);
    var one := zero.(term := 1);
    SumOfFour(Contributions(zero));
    SumOfFour(Contributions(one));
    assert Contributions(zero)[1].value == 42.0;
    assert NewPayment(2000.0, 1) == 2000.0;
    assert Contributions(one)[1].value == -80.0;
    assert Contributions(one)[2].value == 20.0 == Contributions(zero)[2].value;
    HalfEvenError(BASE_SCORE as real + Sum(Contributions(one)));
    HalfEvenError(BASE_SCORE as real + Sum(Contributions(zero)));
  }

  /** On raw fields a term of zero is read as 36 months. */
  lemma ZeroTermReadsAsThreeYears(i: Inputs)
    ensures Coerce(i.(termMonths := Some(0.0))) == Coerce(i.(termMonths := None)) ==
            Coerce(i.(termMonths := Some(36.0)))
  {
  }

  /** What truncates to the zero term: a raw term less than a month either way, other than zero. */
  lemma ZeroTermIsReachedExactly(i: Inputs)
    ensures Coerce(i).term == 0 <==> i.termMonths.Some? && i.termMonths.value != 0.0 && -1.0 < i.termMonths.value < 1.0
  {
  }

  /** The applicant of the exception on raw fields: half a month is approved, a whole one referred. */
  lemma HalfMonthIsAnException()
    ensures var half := Inputs(Some(680.0), Some(12000.0), Some(2000.0), Some(0.5), Some(0.0), Some(4.0));
            && PolicyBand(ScoreApplication(half).score) == Approve
            && PolicyBand(ScoreApplication(half.(termMonths := Some(1.0))).score) == Refer
  {
    var half := Inputs(Some(680.0), Some(12000.0), Some(2000.0), Some(0.5), Some(0.0), Some(4.0));
    assert Coerce(half) == Profile(680.0, 12000.0, 2000.0, 0, 0.0, 4.0);
    assert Coerce(half.(termMonths := Some(1.0))) == Profile(680.0, 12000.0, 2000.0, 1, 0.0, 4.0);
    ZeroTermIsAnException();
  }
}
