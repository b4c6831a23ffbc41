/** Adverse-action reasons and data provenance derived from model attributions. */
module Reasons {
  import opened Sorting
  import opened Scorecard

  datatype Reason = Reason(code: string, text: string, feature: string)

  datatype Error = UnmappedFeatures(features: seq<string>) | UnknownCreditSource(source: string)

  datatype Result<+T> = Ok(value: T) | Err(error: Error)

  const REASON_MAP: map<string, (string, string)> := map[
    DELINQUENCY := ("R01", "Delinquent past or present credit obligations with others"),
    BURDEN := ("R02", "Excessive obligations in relation to income"),
    SUFFICIENCY := ("R03", "Income insufficient for amount of credit requested"),
    TENURE := ("R04", "Length of employment")
  ]

  const MAX_REASONS := 4

  const CREDIT_DERIVED := {DELINQUENCY}
  const APPLICANT_STATED := {BURDEN, SUFFICIENCY, TENURE}

  const CREDIT_SOURCE_PROVENANCE: map<string, string> := map[
    "bureau" := "bureau_verified",
    "synthetic" := "synthetic_credit",
    "synthetic_after_bureau_failure" := "synthetic_credit_bureau_failed"
  ]

  /** Features outside a vocabulary, in order. */
  function Outside(attributions: seq<Attribution>, known: set<string>): (r: seq<string>)
    ensures r == [] <==> forall a | a in attributions :: a.feature in known
  {
    if attributions == [] then []
    else
      var rest := Outside(attributions[1..], known);
      if attributions[0].feature in known then rest else [attributions[0].feature] + rest
  }

  function Negatives(attributions: seq<Attribution>): seq<Attribution> {
    if attributions == [] then []
    else
      var rest := Negatives(attributions[1..]);
      if attributions[0].hundredths < 0 then [attributions[0]] + rest else rest
  }

  function Prefix<T>(s: seq<T>, n: nat): seq<T> {
    if |s| <= n then s else s[..n]
  }

  /** The attributions that become reasons. */
  function Chosen(attributions: seq<Attribution>): seq<Attribution> {
    Prefix(Sort(Negatives(attributions), Ranked), MAX_REASONS)
  }

  function ReasonFor(a: Attribution): Reason
    requires a.feature in REASON_MAP
  {
    Reason(REASON_MAP[a.feature].0, REASON_MAP[a.feature].1, a.feature)
  }

  function ReasonsFor(chosen: seq<Attribution>): (r: seq<Reason>)
    requires forall a | a in chosen :: a.feature in REASON_MAP
    ensures |r| == |chosen|
    ensures forall k | 0 <= k < |r| :: r[k] == ReasonFor(chosen[k])
  {
    if chosen == [] then [] else [ReasonFor(chosen[0])] + ReasonsFor(chosen[1..])
  }

  function PrincipalReasons(attributions: seq<Attribution>): Result<seq<Reason>> {
    var unmapped := Outside(attributions, REASON_MAP.Keys);
    if unmapped != [] then Err(UnmappedFeatures(unmapped))
    else
      ChosenAreMostNegative(attributions);
      Ok(ReasonsFor(Chosen(attributions)))
  }

  lemma {:induction false} NegativesAreTheNegativeOnes(attributions: seq<Attribution>)
    ensures multiset(Negatives(attributions)) <= multiset(attributions)
    ensures forall a | a in Negatives(attributions) :: a.hundredths < 0 && a in attributions
    ensures forall a | a in multiset(attributions) - multiset(Negatives(attributions)) :: a.hundredths >= 0
  {
    if attributions != [] {
      NegativesAreTheNegativeOnes(attributions[1..]);
      assert attributions == [attributions[0]] + attributions[1..];
    }
  }

  /** The reasons come from the most negative attributions: every chosen one is negative, and one
      that is negative but not chosen is outranked by four chosen ones. */
  lemma ChosenAreMostNegative(attributions: seq<Attribution>)
    ensures multiset(Chosen(attributions)) <= multiset(attributions)
    ensures Sorted(Chosen(attributions), Ranked) && |Chosen(attributions)| <= MAX_REASONS
    ensures forall a | a in Chosen(attributions) :: a.hundredths < 0 && a in attributions
    ensures forall a | a in multiset(attributions) - multiset(Chosen(attributions)) && a.hundredths < 0 ::
              |Chosen(attributions)| == MAX_REASONS && forall c | c in Chosen(attributions) :: Ranked(c, a)
  {
    var negatives := Negatives(attributions);
    var sorted := Sort(negatives, Ranked);
    NegativesAreTheNegativeOnes(attributions);
    SortKeepsElements(negatives, Ranked);
    SortSorts(negatives, Ranked);
    PrefixLeavesLater(sorted, MAX_REASONS);
    forall a | a in Chosen(attributions) ensures a.hundredths < 0 && a in attributions {
      SameElements(negatives, sorted, a);
    }
    forall a | a in multiset(attributions) - multiset(Chosen(attributions)) && a.hundredths < 0
      ensures a in multiset(sorted) - multiset(Chosen(attributions))
    {
      assert a !in multiset(attributions) - multiset(negatives);
    }
  }

  lemma PrefixLeavesLater(sorted: seq<Attribution>, n: nat)
    requires Sorted(sorted, Ranked)
    ensures multiset(Prefix(sorted, n)) <= multiset(sorted)
    ensures Sorted(Prefix(sorted, n), Ranked) && |Prefix(sorted, n)| <= n
    ensures forall a | a in Prefix(sorted, n) :: a in sorted
    ensures forall a | a in multiset(sorted) - multiset(Prefix(sorted, n)) ::
              |Prefix(sorted, n)| == n && forall c | c in Prefix(sorted, n) :: Ranked(c, a)
  {
    var chosen := Prefix(sorted, n);
    var rest := sorted[|chosen|..];
    assert sorted == chosen + rest;
    assert multiset(sorted) - multiset(chosen) == multiset(rest);
    EarlierRanksFirst(chosen, rest);
  }

  lemma EarlierRanksFirst(chosen: seq<Attribution>, rest: seq<Attribution>)
    requires Sorted(chosen + rest, Ranked)
    ensures forall a, c | a in rest && c in chosen :: Ranked(c, a)
  {
    forall a, c | a in rest && c in chosen ensures Ranked(c, a) {
      var k :| 0 <= k < |rest| && rest[k] == a;
      var i :| 0 <= i < |chosen| && chosen[i] == c;
      assert (chosen + rest)[i] == c && (chosen + rest)[|chosen| + k] == a;
    }
  }

  function Provenance(feature: string, source: string): string
    requires source in CREDIT_SOURCE_PROVENANCE
  {
    if feature in CREDIT_DERIVED then CREDIT_SOURCE_PROVENANCE[source] else "applicant_stated"
  }

  function Label(attributions: seq<Attribution>, source: string): (m: map<string, string>)
    requires source in CREDIT_SOURCE_PROVENANCE
    ensures forall f :: f in m <==> exists a :: a in attributions && a.feature == f
    ensures forall f | f in m :: m[f] == Provenance(f, source)
  {
    if attributions == [] then map[]
    else
      var last := attributions[|attributions| - 1];
      var rest := attributions[..|attributions| - 1];
      assert attributions == rest + [last];
      Label(rest, source)[last.feature := Provenance(last.feature, source)]
  }

  function FeatureProvenance(attributions: seq<Attribution>, source: string): Result<map<string, string>> {
    if source !in CREDIT_SOURCE_PROVENANCE then Err(UnknownCreditSource(source))
    else
      var unmapped := Outside(attributions, CREDIT_DERIVED + APPLICANT_STATED);
      if unmapped != [] then Err(UnmappedFeatures(unmapped)) else Ok(Label(attributions, source))
  }

  // ---- The model's own output -------------------------------------------------------------

  lemma ModelFeatures(p: Profile)
    ensures forall a | a in Attributions(p) ::
              a.feature == DELINQUENCY || a.feature == BURDEN || a.feature == SUFFICIENCY || a.feature == TENURE
    ensures forall k | 0 <= k < 4 :: Disclosed(Contributions(p)[k]) in Attributions(p)
  {
    AttributionsAreRanked(p);
    var raw := DisclosedAll(Contributions(p));
    forall a | a in Attributions(p)
      ensures a.feature == DELINQUENCY || a.feature == BURDEN || a.feature == SUFFICIENCY || a.feature == TENURE
    {
      SameElements(raw, Attributions(p), a);
    }
    forall k | 0 <= k < 4 ensures Disclosed(Contributions(p)[k]) in Attributions(p) {
      FeatureIsListed(p, k);
    }
  }

  lemma HeadRanksFirst(attributions: seq<Attribution>, a: Attribution)
    requires Sorted(attributions, Ranked) && attributions != [] && a in attributions[1..]
    ensures Ranked(attributions[0], a)
  {
    var k :| 0 <= k < |attributions[1..]| && attributions[1..][k] == a;
    assert attributions[k + 1] == a;
  }

  lemma PrependStaysSorted(x: Attribution, s: seq<Attribution>)
    requires Sorted(s, Ranked) && forall a | a in s :: Ranked(x, a)
    ensures Sorted([x] + s, Ranked)
  {
  }

  lemma {:induction false} NegativesStaySorted(attributions: seq<Attribution>)
    requires Sorted(attributions, Ranked)
    ensures Sorted(Negatives(attributions), Ranked)
  {
    if attributions != [] {
      var rest := Negatives(attributions[1..]);
      NegativesStaySorted(attributions[1..]);
      NegativesAreTheNegativeOnes(attributions[1..]);
      forall a | a in rest ensures Ranked(attributions[0], a) {
        HeadRanksFirst(attributions, a);
      }
      PrependStaysSorted(attributions[0], rest);
    }
  }

  lemma ModelIsMapped(p: Profile)
    ensures PrincipalReasons(Attributions(p)).Ok?
  {
    ModelFeatures(p);
    assert forall a | a in Attributions(p) :: a.feature in REASON_MAP.Keys;
  }

  lemma RankedAreChosen(attributions: seq<Attribution>)
    requires Sorted(attributions, Ranked) && |attributions| <= MAX_REASONS
    ensures Sort(Negatives(attributions), Ranked) == Negatives(attributions) == Chosen(attributions)
  {
    NegativesStaySorted(attributions);
    SortLeavesSorted(Negatives(attributions), Ranked);
    NoMoreNegatives(attributions);
  }

  /** The mapper accepts every output of the model and its second sort never moves anything. */
  lemma ModelReasonsAreRanked(p: Profile)
    ensures PrincipalReasons(Attributions(p)).Ok?
    ensures Sort(Negatives(Attributions(p)), Ranked) == Negatives(Attributions(p)) == Chosen(Attributions(p))
  {
    ModelIsMapped(p);
    AttributionsAreRanked(p);
    RankedAreChosen(Attributions(p));
  }

  /** All negative features are stated: four slots are enough for four features. */
  lemma ModelReasonsAreComplete(p: Profile)
    ensures PrincipalReasons(Attributions(p)).Ok?
    ensures PrincipalReasons(Attributions(p)).value == [] <==> forall a | a in Attributions(p) :: a.hundredths >= 0
    ensures forall a | a in Attributions(p) && a.hundredths < 0 ::
              exists r :: r in PrincipalReasons(Attributions(p)).value && r.feature == a.feature
  {
    ModelReasonsAreRanked(p);
    ListedAreStated(Attributions(p), PrincipalReasons(Attributions(p)).value);
  }

  lemma ListedAreStated(attributions: seq<Attribution>, reasons: seq<Reason>)
    requires PrincipalReasons(attributions) == Ok(reasons)
    requires Chosen(attributions) == Negatives(attributions)
    ensures reasons == [] <==> forall a | a in attributions :: a.hundredths >= 0
    ensures forall a | a in attributions && a.hundredths < 0 :: exists r :: r in reasons && r.feature == a.feature
  {
    var chosen := Chosen(attributions);
    NegativesAreTheNegativeOnes(attributions);
    forall a | a in attributions && a.hundredths < 0 ensures exists r :: r in reasons && r.feature == a.feature {
      NegativeIsKept(attributions, a);
      var k :| 0 <= k < |chosen| && chosen[k] == a;
      assert reasons[k] in reasons && reasons[k].feature == a.feature;
    }
    if reasons != [] {
      assert chosen[0] in chosen;
    }
  }

  lemma {:induction false} NegativeIsKept(attributions: seq<Attribution>, a: Attribution)
    requires a in attributions && a.hundredths < 0
    ensures a in Negatives(attributions)
  {
    if a != attributions[0] {
      assert a in attributions[1..];
      NegativeIsKept(attributions[1..], a);
    }
  }

  lemma {:induction false} NoMoreNegatives(attributions: seq<Attribution>)
    ensures |Negatives(attributions)| <= |attributions|
  {
    if attributions != [] { NoMoreNegatives(attributions[1..]); }
  }

  lemma FeatureNamesDiffer()
    ensures DELINQUENCY != BURDEN && DELINQUENCY != SUFFICIENCY && DELINQUENCY != TENURE
  {
    assert DELINQUENCY[0] == 'd' && BURDEN[0] == 'p' && SUFFICIENCY[0] == 'i' && TENURE[0] == 'e';
  }

  lemma VerifiedMeansBureau(source: string)
    requires source in CREDIT_SOURCE_PROVENANCE
    ensures CREDIT_SOURCE_PROVENANCE[source] == "bureau_verified" <==> source == "bureau"
  {
    assert "bureau"[0] == 'b' && "synthetic"[0] == 's' && "synthetic_after_bureau_failure"[0] == 's';
    assert "bureau_verified"[0] == 'b' && "synthetic_credit"[0] == 's' && "synthetic_credit_bureau_failed"[0] == 's';
  }

  /** The credit-derived feature carries the true origin of the score: it reads bureau_verified
      exactly when the bureau supplied it. The other three are always applicant-stated. */
  lemma ModelProvenanceIsHonest(p: Profile, source: string)
    ensures FeatureProvenance(Attributions(p), source).Ok? <==> source in CREDIT_SOURCE_PROVENANCE
    ensures source in CREDIT_SOURCE_PROVENANCE ==>
              var labels := FeatureProvenance(Attributions(p), source).value;
              && DELINQUENCY in labels && (labels[DELINQUENCY] == "bureau_verified" <==> source == "bureau")
              && forall f | f in APPLICANT_STATED :: f in labels && labels[f] == "applicant_stated"
  {
    if source in CREDIT_SOURCE_PROVENANCE {
      ModelVocabularyIsClassified(p);
      VerifiedMeansBureau(source);
      EveryFeatureIsLabelled(p, source);
      AllLabelled(Contributions(p), Label(Attributions(p), source), source);
    }
  }

  lemma ModelVocabularyIsClassified(p: Profile)
    ensures Outside(Attributions(p), CREDIT_DERIVED + APPLICANT_STATED) == []
  {
    ModelFeatures(p);
  }

  lemma EveryFeatureIsLabelled(p: Profile, source: string)
    requires source in CREDIT_SOURCE_PROVENANCE
    ensures forall k | 0 <= k < 4 :: Contributions(p)[k].feature in Label(Attributions(p), source)
  {
    ModelFeatures(p);
    var raw := Contributions(p);
    forall k | 0 <= k < 4 ensures raw[k].feature in Label(Attributions(p), source) {
      assert Disclosed(raw[k]).feature == raw[k].feature;
    }
  }

  lemma AllLabelled(raw: seq<Contribution>, labels: map<string, string>, source: string)
    requires |raw| == 4 && raw[0].feature == DELINQUENCY && raw[1].feature == BURDEN
             && raw[2].feature == SUFFICIENCY && raw[3].feature == TENURE
    requires source in CREDIT_SOURCE_PROVENANCE
    requires forall k | 0 <= k < 4 :: raw[k].feature in labels
    requires forall f | f in labels :: labels[f] == Provenance(f, source)
    ensures DELINQUENCY in labels && labels[DELINQUENCY] == CREDIT_SOURCE_PROVENANCE[source]
    ensures forall f | f in APPLICANT_STATED :: f in labels && labels[f] == "applicant_stated"
  {
    FeatureNamesDiffer();
    assert raw[0].feature in labels && raw[1].feature in labels && raw[2].feature in labels && raw[3].feature in labels;
  }
}
