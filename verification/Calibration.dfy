/** Choosing the abstention threshold: a finite candidate search over scores, and the error pair
  the report prints beside it. Scores are exact reals. */
module Calibration {
  import opened Sorting

  function Below(scores: seq<real>, t: real): nat {
    if scores == [] then 0 else (if scores[0] < t then 1 else 0) + Below(scores[1..], t)
  }

  function AtOrAbove(scores: seq<real>, t: real): nat {
    if scores == [] then 0 else (if scores[0] >= t then 1 else 0) + AtOrAbove(scores[1..], t)
  }

  datatype Pair = Pair(wrongAbstain: nat, falseConfident: nat)

  function ThresholdErrors(answerable: seq<real>, unanswerable: seq<real>, t: real): Pair {
    Pair(Below(answerable, t), AtOrAbove(unanswerable, t))
  }

  function Errors(answerable: seq<real>, unanswerable: seq<real>, t: real): nat {
    Below(answerable, t) + AtOrAbove(unanswerable, t)
  }

  predicate AtMost(x: real, y: real) { x <= y }

  function Dedupe(sorted: seq<real>): seq<real> {
    if |sorted| <= 1 then sorted
    else if sorted[0] == sorted[1] then Dedupe(sorted[1..])
    else [sorted[0]] + Dedupe(sorted[1..])
  }

  /** The distinct observed scores in increasing order. */
  function Points(answerable: seq<real>, unanswerable: seq<real>): seq<real> {
    Dedupe(Sort(answerable + unanswerable, AtMost))
  }

  datatype Candidate = Candidate(threshold: real, gap: real)

  function Midpoints(points: seq<real>): seq<Candidate> {
    if |points| < 2 then []
    else [Candidate((points[0] + points[1]) / 2.0, points[1] - points[0])] + Midpoints(points[1..])
  }

  predicate Beats(answerable: seq<real>, unanswerable: seq<real>, c: Candidate, d: Candidate) {
    var ec, ed := Errors(answerable, unanswerable, c.threshold), Errors(answerable, unanswerable, d.threshold);
    ec < ed || (ec == ed && c.gap > d.gap)
  }

  /** The first candidate no other beats. */
  function Best(answerable: seq<real>, unanswerable: seq<real>, candidates: seq<Candidate>): Candidate
    requires candidates != []
  {
    if |candidates| == 1 then candidates[0]
    else
      var rest := Best(answerable, unanswerable, candidates[1..]);
      if Beats(answerable, unanswerable, rest, candidates[0]) then rest else candidates[0]
  }

  /** `above` stands for the first float above the highest score. */
  function Candidates(points: seq<real>, above: real): seq<Candidate>
    requires |points| >= 2
  {
    Midpoints(points) + [Candidate(points[0], 0.0), Candidate(above, 0.0)]
  }

  function CalibrateThreshold(answerable: seq<real>, unanswerable: seq<real>, above: real): real {
    var points := Points(answerable, unanswerable);
    if |points| < 2 then 0.0
    else Best(answerable, unanswerable, Candidates(points, above)).threshold
  }

  // ---- Points -----------------------------------------------------------------------------

  ghost predicate Increasing(s: seq<real>) {
    forall i, j | 0 <= i < j < |s| :: s[i] < s[j]
  }

  lemma {:induction false} DedupeKeepsValues(sorted: seq<real>)
    requires Sorted(sorted, AtMost)
    ensures Increasing(Dedupe(sorted))
    ensures forall x :: x in Dedupe(sorted) <==> x in sorted
    ensures sorted != [] ==> Dedupe(sorted) != [] && Dedupe(sorted)[0] == sorted[0]
  {
    if |sorted| > 1 {
      DedupeKeepsValues(sorted[1..]);
      assert sorted == [sorted[0]] + sorted[1..];
      if sorted[0] != sorted[1] {
        var rest := Dedupe(sorted[1..]);
        forall k | 0 <= k < |rest| ensures sorted[0] < rest[k] {
          assert rest[k] in sorted[1..];
          var m :| 0 <= m < |sorted[1..]| && sorted[1..][m] == rest[k];
          assert AtMost(sorted[0], sorted[1]);
          assert m > 0 ==> AtMost(sorted[1], sorted[m + 1]);
        }
      }
    }
  }

  lemma PointsAreTheScores(answerable: seq<real>, unanswerable: seq<real>)
    ensures Increasing(Points(answerable, unanswerable))
    ensures forall x :: x in Points(answerable, unanswerable) <==> x in answerable + unanswerable
  {
    var all := answerable + unanswerable;
    SortSorts(all, AtMost);
    SortKeepsElements(all, AtMost);
    DedupeKeepsValues(Sort(all, AtMost));
    forall x ensures x in Sort(all, AtMost) <==> x in all {
      SameElements(all, Sort(all, AtMost), x);
    }
  }

  // ---- Errors only change at scores ---------------------------------------------------------

  lemma {:induction false} SameSideSameCounts(scores: seq<real>, t: real, u: real)
    requires forall s | s in scores :: s < t <==> s < u
    ensures Below(scores, t) == Below(scores, u) && AtOrAbove(scores, t) == AtOrAbove(scores, u)
  {
    if scores != [] {
      assert scores[0] in scores && forall s | s in scores[1..] :: s in scores;
      SameSideSameCounts(scores[1..], t, u);
    }
  }

  lemma SameRegionSameErrors(answerable: seq<real>, unanswerable: seq<real>, t: real, u: real)
    requires forall s | s in answerable + unanswerable :: s < t <==> s < u
    ensures Errors(answerable, unanswerable, t) == Errors(answerable, unanswerable, u)
  {
    assert forall s | s in answerable :: s in answerable + unanswerable;
    assert forall s | s in unanswerable :: s in answerable + unanswerable;
    SameSideSameCounts(answerable, t, u);
    SameSideSameCounts(unanswerable, t, u);
  }

  lemma {:induction false} BestIsUnbeaten(answerable: seq<real>, unanswerable: seq<real>, candidates: seq<Candidate>)
    requires candidates != []
    ensures Best(answerable, unanswerable, candidates) in candidates
    ensures forall c | c in candidates ::
            !Beats(answerable, unanswerable, c, Best(answerable, unanswerable, candidates))
  {
    if |candidates| > 1 {
      BestIsUnbeaten(answerable, unanswerable, candidates[1..]);
      assert candidates == [candidates[0]] + candidates[1..];
    }
  }

  lemma {:induction false} MidpointAt(points: seq<real>, i: nat)
    requires i + 1 < |points|
    ensures |Midpoints(points)| == |points| - 1
    ensures Midpoints(points)[i] == Candidate((points[i] + points[i + 1]) / 2.0, points[i + 1] - points[i])
  {
    if i > 0 {
      MidpointAt(points[1..], i - 1);
    } else if |points| > 2 {
      MidpointAt(points[1..], 0);
    }
  }

  /** Every cutoff lies in the region of some candidate. */
  lemma RegionHasCandidate(points: seq<real>, above: real, t: real) returns (c: Candidate)
    requires |points| >= 2 && Increasing(points) && points[|points| - 1] < above
    ensures c in Candidates(points, above)
    ensures forall s | s in points :: s < t <==> s < c.threshold
  {
    var all := Candidates(points, above);
    if t <= points[0] {
      c := Candidate(points[0], 0.0);
      assert all[|all| - 2] == c;
    } else if t > points[|points| - 1] {
      c := Candidate(above, 0.0);
      assert all[|all| - 1] == c;
    } else {
      var i := 0;
      while points[i + 1] < t
        invariant 0 <= i < |points| - 1 && points[i] < t
        decreases |points| - i
      {
        i := i + 1;
      }
      MidpointAt(points, i);
      c := Midpoints(points)[i];
      assert all[i] == c;
      forall s | s in points ensures s < t <==> s < c.threshold {
        var k :| 0 <= k < |points| && points[k] == s;
        if k < i { assert points[k] < points[i]; }
        if k > i + 1 { assert points[i + 1] < points[k]; }
      }
    }
  }

  ghost predicate TwoScoresDiffer(answerable: seq<real>, unanswerable: seq<real>) {
    exists x, y :: x in answerable + unanswerable && y in answerable + unanswerable && x != y
  }

  lemma TwoScoresMakeTwoPoints(answerable: seq<real>, unanswerable: seq<real>)
    ensures TwoScoresDiffer(answerable, unanswerable) <==> |Points(answerable, unanswerable)| >= 2
  {
    var points := Points(answerable, unanswerable);
    PointsAreTheScores(answerable, unanswerable);
    if |points| >= 2 {
      assert points[0] in points && points[1] in points && points[0] < points[1];
    }
  }

  /** The finite search is globally optimal: no real cutoff whatever makes fewer errors. */
  lemma CalibrationIsOptimal(answerable: seq<real>, unanswerable: seq<real>, above: real, t: real)
    requires TwoScoresDiffer(answerable, unanswerable)
    requires forall s | s in answerable + unanswerable :: s < above
    ensures Errors(answerable, unanswerable, CalibrateThreshold(answerable, unanswerable, above))
         <= Errors(answerable, unanswerable, t)
  {
    var points := Points(answerable, unanswerable);
    PointsAreTheScores(answerable, unanswerable);
    TwoScoresMakeTwoPoints(answerable, unanswerable);
    assert points[|points| - 1] in points;
    var c := RegionHasCandidate(points, above, t);
    BestIsUnbeaten(answerable, unanswerable, Candidates(points, above));
    SameRegionSameErrors(answerable, unanswerable, t, c.threshold);
  }

  ghost predicate Adjacent(answerable: seq<real>, unanswerable: seq<real>, a: real, b: real) {
    && a in answerable + unanswerable && b in answerable + unanswerable && a < b
    && forall s | s in answerable + unanswerable :: s <= a || b <= s
  }

  lemma NeighboursAreAdjacent(answerable: seq<real>, unanswerable: seq<real>, k: nat)
    requires k + 1 < |Points(answerable, unanswerable)|
    ensures var points := Points(answerable, unanswerable);
            Adjacent(answerable, unanswerable, points[k], points[k + 1])
  {
    var points := Points(answerable, unanswerable);
    PointsAreTheScores(answerable, unanswerable);
    assert points[k] in points && points[k + 1] in points;
    forall s | s in answerable + unanswerable ensures s <= points[k] || points[k + 1] <= s {
      assert s in points;
      var m :| 0 <= m < |points| && points[m] == s;
      assert m < k ==> points[m] < points[k];
      assert m > k + 1 ==> points[k + 1] < points[m];
    }
  }

  lemma IndexOfAdjacent(answerable: seq<real>, unanswerable: seq<real>, a: real, b: real) returns (i: nat)
    requires Adjacent(answerable, unanswerable, a, b)
    ensures var points := Points(answerable, unanswerable);
            i + 1 < |points| && points[i] == a && points[i + 1] == b
  {
    var points := Points(answerable, unanswerable);
    PointsAreTheScores(answerable, unanswerable);
    assert a in points && b in points;
    i :| 0 <= i < |points| && points[i] == a;
    var j :| 0 <= j < |points| && points[j] == b;
    assert points[i + 1] in points;
  }

  /** Ties go to the widest gap: if a region between two adjacent scores reaches the minimum, the
      returned threshold is itself a midpoint of adjacent scores at least as far apart. */
  lemma CalibrationPrefersWideGaps(answerable: seq<real>, unanswerable: seq<real>, above: real, a: real, b: real)
    returns (c: real, d: real)
    requires Adjacent(answerable, unanswerable, a, b)
    requires Errors(answerable, unanswerable, (a + b) / 2.0)
          == Errors(answerable, unanswerable, CalibrateThreshold(answerable, unanswerable, above))
    ensures Adjacent(answerable, unanswerable, c, d) && d - c >= b - a
    ensures CalibrateThreshold(answerable, unanswerable, above) == (c + d) / 2.0
  {
    var points := Points(answerable, unanswerable);
    var i := IndexOfAdjacent(answerable, unanswerable, a, b);
    var all := Candidates(points, above);
    MidpointAt(points, i);
    assert all[i] == Candidate((a + b) / 2.0, b - a) && all[i] in all;
    BestIsUnbeaten(answerable, unanswerable, all);
    var best := Best(answerable, unanswerable, all);
    assert !Beats(answerable, unanswerable, all[i], best);
    var k := WhereWideCandidateSits(points, above, best);
    c, d := points[k], points[k + 1];
    NeighboursAreAdjacent(answerable, unanswerable, k);
  }

  lemma WhereWideCandidateSits(points: seq<real>, above: real, best: Candidate) returns (k: nat)
    requires |points| >= 2 && best in Candidates(points, above) && best.gap > 0.0
    ensures k + 1 < |points| && best == Candidate((points[k] + points[k + 1]) / 2.0, points[k + 1] - points[k])
  {
    var all := Candidates(points, above);
    k :| 0 <= k < |all| && all[k] == best;
    MidpointAt(points, 0);
    assert k < |points| - 1;
    MidpointAt(points, k);
  }

  /** With fewer than two distinct scores the sentinel 0.0 is returned, which is a minimum-error
      cutoff exactly when the class it sacrifices is not the larger one. */
  lemma SentinelIsOptimalExactly(answerable: seq<real>, unanswerable: seq<real>, above: real, v: real)
    requires answerable + unanswerable != [] && forall s | s in answerable + unanswerable :: s == v
    ensures CalibrateThreshold(answerable, unanswerable, above) == 0.0
    ensures (forall t :: Errors(answerable, unanswerable, 0.0) <= Errors(answerable, unanswerable, t)) <==>
            (if v >= 0.0 then |unanswerable| <= |answerable| else |answerable| <= |unanswerable|)
  {
    TwoScoresMakeTwoPoints(answerable, unanswerable);
    assert forall s | s in answerable :: s in answerable + unanswerable;
    assert forall s | s in unanswerable :: s in answerable + unanswerable;
    forall t ensures Errors(answerable, unanswerable, t) == if v < t then |answerable| else |unanswerable| {
      AllEqualCounts(answerable, v, t);
      AllEqualCounts(unanswerable, v, t);
    }
    assert Errors(answerable, unanswerable, v) == |unanswerable|;
    assert Errors(answerable, unanswerable, v + 1.0) == |answerable|;
  }

  lemma {:induction false} AllEqualCounts(scores: seq<real>, v: real, t: real)
    requires forall s | s in scores :: s == v
    ensures Below(scores, t) == if v < t then |scores| else 0
    ensures AtOrAbove(scores, t) == if v < t then 0 else |scores|
  {
    if scores != [] {
      assert scores[0] in scores && forall s | s in scores[1..] :: s in scores;
      AllEqualCounts(scores[1..], v, t);
    }
  }

  // ---- What the report prints -----------------------------------------------------------------

  const UNSCORABLE := "clarification"

  /** A graded case. `outcomeClass` is empty when the gold row names none; `retrieved` lists
      (chunk id, score), best first. */
  datatype Case = Case(outcomeClass: string, unanswerable: bool, retrieved: seq<(string, real)>)

  predicate Scorable(c: Case) {
    c.outcomeClass != UNSCORABLE
  }

  predicate InClass(c: Case, unanswerable: bool) {
    Scorable(c) && c.unanswerable == unanswerable
  }

  function Top(c: Case): real {
    if c.retrieved != [] then c.retrieved[0].1 else 0.0
  }

  /** The scores the threshold is calibrated on. */
  function Tops(cases: seq<Case>, unanswerable: bool): seq<real> {
    if cases == [] then []
    else (if InClass(cases[0], unanswerable) then [Top(cases[0])] else []) + Tops(cases[1..], unanswerable)
  }

  /** The scores the reported error pair is counted on: cases that retrieved nothing are left out. */
  function ReportedTops(cases: seq<Case>, unanswerable: bool): seq<real> {
    if cases == [] then []
    else (if InClass(cases[0], unanswerable) && cases[0].retrieved != [] then [Top(cases[0])] else [])
         + ReportedTops(cases[1..], unanswerable)
  }

  /** How an unanswerable case is scored. */
  predicate CorrectAbstention(c: Case, threshold: real) {
    c.retrieved == [] || Top(c) < threshold
  }

  function CountClass(cases: seq<Case>, unanswerable: bool): nat {
    if cases == [] then 0 else (if InClass(cases[0], unanswerable) then 1 else 0) + CountClass(cases[1..], unanswerable)
  }

  function CountEmpty(cases: seq<Case>, unanswerable: bool): nat {
    if cases == [] then 0
    else (if InClass(cases[0], unanswerable) && cases[0].retrieved == [] then 1 else 0)
         + CountEmpty(cases[1..], unanswerable)
  }

  function CountCorrect(cases: seq<Case>, threshold: real): nat {
    if cases == [] then 0
    else (if InClass(cases[0], true) && CorrectAbstention(cases[0], threshold) then 1 else 0)
         + CountCorrect(cases[1..], threshold)
  }

  function Reported(cases: seq<Case>, threshold: real): Pair {
    ThresholdErrors(ReportedTops(cases, false), ReportedTops(cases, true), threshold)
  }

  /** The reported false-confident count is exactly the unanswerable cases not scored correct, for
      every set of cases and every threshold. */
  lemma {:induction false} FalseConfidentIsTheShortfall(cases: seq<Case>, threshold: real)
    ensures Reported(cases, threshold).falseConfident + CountCorrect(cases, threshold) == CountClass(cases, true)
  {
    if cases != [] {
      FalseConfidentIsTheShortfall(cases[1..], threshold);
      var head := if InClass(cases[0], true) && cases[0].retrieved != [] then [Top(cases[0])] else [];
      CountsSplit(head, ReportedTops(cases[1..], true), threshold);
    }
  }

  lemma {:induction false} CountsSplit(s: seq<real>, t: seq<real>, threshold: real)
    ensures Below(s + t, threshold) == Below(s, threshold) + Below(t, threshold)
    ensures AtOrAbove(s + t, threshold) == AtOrAbove(s, threshold) + AtOrAbove(t, threshold)
  {
    if s == [] {
      assert s + t == t;
    } else {
      assert (s + t)[1..] == s[1..] + t;
      CountsSplit(s[1..], t, threshold);
    }
  }

  /** The reported pair and the calibrated minimum differ exactly by the cases that retrieved
      nothing, which calibration scores as 0.0 and the report skips. */
  lemma {:induction false} ReportedPairAgainstMinimum(cases: seq<Case>, threshold: real)
    ensures Errors(Tops(cases, false), Tops(cases, true), threshold)
         == Reported(cases, threshold).wrongAbstain + Reported(cases, threshold).falseConfident
            + (if 0.0 < threshold then CountEmpty(cases, false) else CountEmpty(cases, true))
  {
    if cases != [] {
      ReportedPairAgainstMinimum(cases[1..], threshold);
      assert cases == [cases[0]] + cases[1..];
      CaseCounts(cases[0], cases[1..], false, threshold);
      CaseCounts(cases[0], cases[1..], true, threshold);
    }
  }

  lemma CaseCounts(c: Case, rest: seq<Case>, u: bool, threshold: real)
    ensures var all := [c] + rest;
            var low, high := if Top(c) < threshold then 1 else 0, if Top(c) >= threshold then 1 else 0;
            var kept, reported := if InClass(c, u) then 1 else 0, if InClass(c, u) && c.retrieved != [] then 1 else 0;
            && Below(Tops(all, u), threshold) == kept * low + Below(Tops(rest, u), threshold)
            && AtOrAbove(Tops(all, u), threshold) == kept * high + AtOrAbove(Tops(rest, u), threshold)
            && Below(ReportedTops(all, u), threshold) == reported * low + Below(ReportedTops(rest, u), threshold)
            && AtOrAbove(ReportedTops(all, u), threshold) ==
                reported * high + AtOrAbove(ReportedTops(rest, u), threshold)
  {
    var all := [c] + rest;
    assert all[0] == c && all[1..] == rest;
    CountsSplit(if InClass(c, u) then [Top(c)] else [], Tops(rest, u), threshold);
    CountsSplit(if InClass(c, u) && c.retrieved != [] then [Top(c)] else [], ReportedTops(rest, u), threshold);
  }

  /** So when every case retrieved something, the two reported numbers add up to the minimum. */
  lemma ReportedPairSumsToMinimum(cases: seq<Case>, above: real, t: real)
    requires forall c | c in cases :: c.retrieved != []
    requires TwoScoresDiffer(Tops(cases, false), Tops(cases, true))
    requires forall s | s in Tops(cases, false) + Tops(cases, true) :: s < above
    ensures var threshold := CalibrateThreshold(Tops(cases, false), Tops(cases, true), above);
            Reported(cases, threshold).wrongAbstain + Reported(cases, threshold).falseConfident
            == Errors(Tops(cases, false), Tops(cases, true), threshold)
            <= Errors(Tops(cases, false), Tops(cases, true), t)
  {
    var threshold := CalibrateThreshold(Tops(cases, false), Tops(cases, true), above);
    CalibrationIsOptimal(Tops(cases, false), Tops(cases, true), above, t);
    ReportedPairAgainstMinimum(cases, threshold);
    NothingEmpty(cases, false);
    NothingEmpty(cases, true);
  }

  lemma {:induction false} NothingEmpty(cases: seq<Case>, u: bool)
    requires forall c | c in cases :: c.retrieved != []
    ensures CountEmpty(cases, u) == 0
  {
    if cases != [] {
      assert cases[0] in cases && forall c | c in cases[1..] :: c in cases;
      NothingEmpty(cases[1..], u);
    }
  }
}
