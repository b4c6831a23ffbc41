/** TF-IDF vectors and their cosine. Weights are exact reals, `log` and `sqrt` are given functions, and
  a text is the list of terms its tokenizer yields. */
module Embedder {
  import opened Texts

  datatype Entry = Entry(term: Text, weight: real)

  /** A sparse vector: a dictionary in insertion order. */
  type Vector = seq<Entry>

  predicate Has(v: Vector, t: Text) {
    v != [] && (v[0].term == t || Has(v[1..], t))
  }

  /** The weight of a term, 0 where the vector has none. */
  function Get(v: Vector, t: Text): real {
    if v == [] then 0.0 else if v[0].term == t then v[0].weight else Get(v[1..], t)
  }

  predicate Distinct(v: Vector) {
    v == [] || (!Has(v[1..], v[0].term) && Distinct(v[1..]))
  }

  function Product(x: real, y: real): real { x * y }

  function Square(x: real): real { Product(x, x) }

  /** What one entry of the dictionary that is iterated adds to the sum. */
  function Match(e: Entry, v: Vector): real {
    if Has(v, e.term) then Product(e.weight, Get(v, e.term)) else 0.0
  }

  function Dot(a: Vector, b: Vector): real {
    if a == [] then 0.0 else Match(a[0], b) + Dot(a[1..], b)
  }

  /** Iterates the smaller dictionary. */
  function Cosine(a: Vector, b: Vector): real {
    if |b| < |a| then Dot(b, a) else Dot(a, b)
  }

  // ---- Symmetry -------------------------------------------------------------------------------

  lemma {:induction false} AbsentIsZero(v: Vector, t: Text)
    requires !Has(v, t)
    ensures Get(v, t) == 0.0
  {
    if v != [] { AbsentIsZero(v[1..], t); }
  }

  lemma ProductCommutes(x: real, y: real)
    ensures Product(x, y) == Product(y, x)
  {
  }

  lemma {:induction false} DotPrepend(b: Vector, a: Vector)
    requires Distinct(b) && a != [] && Distinct(a)
    ensures Dot(b, a) == Dot(b, a[1..]) + Match(a[0], b)
  {
    if b != [] {
      DotPrepend(b[1..], a);
      if b[0].term == a[0].term {
        ProductCommutes(a[0].weight, b[0].weight);
      }
    }
  }

  lemma {:induction false} DotCommutes(a: Vector, b: Vector)
    requires Distinct(a) && Distinct(b)
    ensures Dot(a, b) == Dot(b, a)
  {
    if a != [] {
      DotCommutes(a[1..], b);
      DotPrepend(b, a);
    } else {
      DotEmpty(b);
    }
  }

  lemma {:induction false} DotEmpty(b: Vector)
    ensures Dot(b, []) == 0.0
  {
    if b != [] { DotEmpty(b[1..]); }
  }

  /** The swap never shows: cosine is symmetric and is the sum over the shared terms either way. */
  lemma CosineIsSymmetric(a: Vector, b: Vector)
    requires Distinct(a) && Distinct(b)
    ensures Cosine(a, b) == Cosine(b, a) == Dot(a, b)
  {
    DotCommutes(a, b);
  }

  // ---- Range ----------------------------------------------------------------------------------

  function NormSquared(v: Vector): real {
    if v == [] then 0.0 else Square(v[0].weight) + NormSquared(v[1..])
  }

  /** Squares of b's weights at a's terms. */
  function SquaresAt(a: Vector, b: Vector): real {
    if a == [] then 0.0 else Square(Get(b, a[0].term)) + SquaresAt(a[1..], b)
  }

  /** Squared differences at a's terms. */
  function DistanceOver(a: Vector, b: Vector): real {
    if a == [] then 0.0 else Square(a[0].weight - Get(b, a[0].term)) + DistanceOver(a[1..], b)
  }

  lemma SquareOfDifference(x: real, y: real)
    ensures Square(x - y) == Square(x) - 2.0 * Product(x, y) + Square(y)
  {
  }

  lemma PositiveProduct(x: real, y: real)
    requires x > 0.0 && y > 0.0
    ensures Product(x, y) > 0.0
  {
  }

  lemma SquareIsNonNegative(x: real)
    ensures Square(x) >= 0.0
    ensures Square(x) == 0.0 <==> x == 0.0
  {
    if x > 0.0 {
      PositiveProduct(x, x);
    } else if x < 0.0 {
      PositiveProduct(-x, -x);
    }
  }

  lemma MatchIsProduct(e: Entry, v: Vector)
    ensures Match(e, v) == Product(e.weight, Get(v, e.term))
  {
    if !Has(v, e.term) { AbsentIsZero(v, e.term); }
  }

  lemma {:induction false} DistanceExpands(a: Vector, b: Vector)
    ensures DistanceOver(a, b) == NormSquared(a) - 2.0 * Dot(a, b) + SquaresAt(a, b)
  {
    if a != [] {
      DistanceExpands(a[1..], b);
      SquareOfDifference(a[0].weight, Get(b, a[0].term));
      MatchIsProduct(a[0], b);
    }
  }

  lemma {:induction false} DistanceIsNonNegative(a: Vector, b: Vector)
    ensures DistanceOver(a, b) >= 0.0
  {
    if a != [] {
      DistanceIsNonNegative(a[1..], b);
      SquareIsNonNegative(a[0].weight - Get(b, a[0].term));
    }
  }

  lemma {:induction false} SquaresAtOneMore(a: Vector, b: Vector)
    requires Distinct(a) && b != []
    ensures SquaresAt(a, b) <= SquaresAt(a, b[1..]) + (if Has(a, b[0].term) then Square(b[0].weight) else 0.0)
  {
    if a != [] {
      SquaresAtOneMore(a[1..], b);
      SquareIsNonNegative(Get(b[1..], a[0].term));
    }
  }

  lemma {:induction false} SquaresAtAreBounded(a: Vector, b: Vector)
    requires Distinct(a)
    ensures SquaresAt(a, b) <= NormSquared(b)
  {
    if b == [] {
      NoSquares(a);
    } else {
      SquaresAtAreBounded(a, b[1..]);
      SquaresAtOneMore(a, b);
      SquareIsNonNegative(b[0].weight);
    }
  }

  lemma {:induction false} NoSquares(a: Vector)
    ensures SquaresAt(a, []) == 0.0
  {
    if a != [] { NoSquares(a[1..]); }
  }

  /** Cauchy and Schwarz for dictionaries, in the form normalised vectors need. */
  lemma DistanceBoundsDot(a: Vector, b: Vector)
    requires Distinct(a)
    ensures 0.0 <= DistanceOver(a, b) <= NormSquared(a) + NormSquared(b) - 2.0 * Dot(a, b)
  {
    DistanceExpands(a, b);
    DistanceIsNonNegative(a, b);
    SquaresAtAreBounded(a, b);
  }

  /** What an embedding is: distinct terms, positive weights, and length 1 unless it is empty. */
  predicate Normalised(v: Vector) {
    && Distinct(v)
    && (forall i | 0 <= i < |v| :: v[i].weight > 0.0)
    && (v == [] || NormSquared(v) == 1.0)
  }

  /** Both vectors weigh every term alike. */
  ghost predicate Agree(a: Vector, b: Vector) {
    forall t :: Get(a, t) == Get(b, t)
  }

  ghost predicate Share(a: Vector, b: Vector) {
    exists t :: Has(a, t) && Has(b, t)
  }

  lemma {:induction false} PresentIsPositive(v: Vector, t: Text)
    requires forall i | 0 <= i < |v| :: v[i].weight > 0.0
    ensures Get(v, t) >= 0.0 && (Get(v, t) > 0.0 <==> Has(v, t))
  {
    if v != [] { PresentIsPositive(v[1..], t); }
  }

  lemma {:induction false} DotOfPositive(a: Vector, b: Vector)
    requires forall i | 0 <= i < |a| :: a[i].weight > 0.0
    requires forall i | 0 <= i < |b| :: b[i].weight > 0.0
    ensures Dot(a, b) >= 0.0
    ensures Dot(a, b) == 0.0 <==> !Share(a, b)
  {
    if a != [] {
      var t := a[0].term;
      DotOfPositive(a[1..], b);
      PresentIsPositive(b, t);
      assert Has(a, t);
      if Has(b, t) {
        PositiveProduct(a[0].weight, Get(b, t));
      } else if Share(a[1..], b) {
        var u :| Has(a[1..], u) && Has(b, u);
        assert Has(a, u);
      }
    }
  }

  lemma {:induction false} ZeroDistance(a: Vector, b: Vector, t: Text)
    requires DistanceOver(a, b) == 0.0 && Has(a, t)
    ensures Get(a, t) == Get(b, t)
  {
    DistanceIsNonNegative(a[1..], b);
    SquareIsNonNegative(a[0].weight - Get(b, a[0].term));
    if a[0].term != t { ZeroDistance(a[1..], b, t); }
  }

  lemma {:induction false} DotOfAgreeing(part: Vector, a: Vector, b: Vector)
    requires Agree(a, b) && Distinct(part) && forall t | Has(part, t) :: Get(part, t) == Get(a, t)
    ensures Dot(part, b) == NormSquared(part)
  {
    if part != [] {
      assert Has(part, part[0].term);
      forall t | Has(part[1..], t) ensures Get(part[1..], t) == Get(a, t) {
        assert Has(part, t);
      }
      DotOfAgreeing(part[1..], a, b);
      MatchIsProduct(part[0], b);
    }
  }

  /** The score of two embeddings lies in [0, 1]; it is 0 exactly when they share no term and, for
      non-empty ones, 1 exactly when they agree on every term. */
  lemma CosineMeasures(a: Vector, b: Vector)
    requires Normalised(a) && Normalised(b)
    ensures 0.0 <= Cosine(a, b) <= 1.0
    ensures Cosine(a, b) == 0.0 <==> !Share(a, b)
    ensures a != [] && b != [] ==> (Cosine(a, b) == 1.0 <==> Agree(a, b))
  {
    CosineIsSymmetric(a, b);
    DotCommutes(a, b);
    DotOfPositive(a, b);
    DistanceBoundsDot(a, b);
    DistanceBoundsDot(b, a);
    if a != [] && b != [] {
      if Dot(a, b) == 1.0 {
        forall t ensures Get(a, t) == Get(b, t) {
          if Has(a, t) {
            ZeroDistance(a, b, t);
          } else if Has(b, t) {
            ZeroDistance(b, a, t);
          } else {
            AbsentIsZero(a, t);
            AbsentIsZero(b, t);
          }
        }
      }
      if Agree(a, b) {
        DotOfAgreeing(a, a, b);
      }
    }
  }

  // ---- Fitting --------------------------------------------------------------------------------

  /** The terms of one text, repeats included. */
  type Tokens = seq<Text>

  /** How many texts contain the term. */
  function DocumentCount(t: Text, corpus: seq<Tokens>): (c: nat)
    ensures c <= |corpus|
  {
    if corpus == [] then 0
    else DocumentCount(t, corpus[..|corpus| - 1]) + (if t in corpus[|corpus| - 1] then 1 else 0)
  }

  function Vocabulary(corpus: seq<Tokens>): set<Text> {
    set tokens, t | tokens in corpus && t in tokens :: t
  }

  function TermSet(tokens: Tokens): set<Text> {
    set t | t in tokens
  }

  function InverseFrequency(log: real -> real, n: nat, c: nat): real {
    log((n + 1) as real / (c + 1) as real) + 1.0
  }

  function Idf(log: real -> real, corpus: seq<Tokens>): map<Text, real> {
    map t | t in Vocabulary(corpus) :: InverseFrequency(log, |corpus|, DocumentCount(t, corpus))
  }

  /** All the proofs use of the logarithm. */
  ghost predicate IsLog(log: real -> real) {
    log(1.0) == 0.0 && forall x, y | 0.0 < x <= y :: log(x) <= log(y)
  }

  ghost predicate IsSqrt(sqrt: real -> real) {
    forall x | x >= 0.0 :: sqrt(x) >= 0.0 && Square(sqrt(x)) == x
  }

  lemma RatioAtLeastOne(n: nat, c: nat)
    requires c <= n
    ensures (n + 1) as real / (c + 1) as real >= 1.0
  {
  }

  /** A term's document frequency never exceeds the corpus, so no fitted weight is below 1. */
  lemma FittedWeightsAreAtLeastOne(log: real -> real, corpus: seq<Tokens>, t: Text)
    requires IsLog(log) && t in Vocabulary(corpus)
    ensures Idf(log, corpus)[t] >= 1.0
  {
    RatioAtLeastOne(|corpus|, DocumentCount(t, corpus));
  }

  lemma RatioShrinks(n: real, c: real, d: real)
    requires n > 0.0 && 0.0 < c <= d
    ensures 0.0 < n / d <= n / c
  {
    var x, y := n / d, n / c;
    assert x * d == n && y * c == n;
    assert x > 0.0;
    var gap := d - c;
    assert x * gap >= 0.0;
    assert (y - x) * c == x * gap;
  }

  lemma InverseFrequencyFalls(log: real -> real, n: nat, c: nat, d: nat)
    requires IsLog(log) && c <= d
    ensures InverseFrequency(log, n, c) >= InverseFrequency(log, n, d)
  {
    RatioShrinks((n + 1) as real, (c + 1) as real, (d + 1) as real);
  }

  /** A term found in fewer texts never weighs less. */
  lemma RarerTermsWeighMore(log: real -> real, corpus: seq<Tokens>, t: Text, u: Text)
    requires IsLog(log) && t in Vocabulary(corpus) && u in Vocabulary(corpus)
    requires DocumentCount(t, corpus) <= DocumentCount(u, corpus)
    ensures Idf(log, corpus)[t] >= Idf(log, corpus)[u]
  {
    InverseFrequencyFalls(log, |corpus|, DocumentCount(t, corpus), DocumentCount(u, corpus));
  }

  // ---- Embedding ------------------------------------------------------------------------------

  datatype Tally = Tally(term: Text, count: nat)

  function Bump(tf: seq<Tally>, t: Text): seq<Tally> {
    if tf == [] then [Tally(t, 1)]
    else if tf[0].term == t then [Tally(t, tf[0].count + 1)] + tf[1..]
    else [tf[0]] + Bump(tf[1..], t)
  }

  /** Term counts in the order of first appearance; terms outside the corpus are dropped. */
  function Tallies(idf: map<Text, real>, tokens: Tokens): seq<Tally> {
    if tokens == [] then []
    else
      var before, t := Tallies(idf, tokens[..|tokens| - 1]), tokens[|tokens| - 1];
      if t in idf then Bump(before, t) else before
  }

  predicate InCorpus(idf: map<Text, real>, tf: seq<Tally>) {
    forall i | 0 <= i < |tf| :: tf[i].term in idf
  }

  function Weigh(idf: map<Text, real>, tf: seq<Tally>): (v: Vector)
    requires InCorpus(idf, tf)
  {
    if tf == [] then []
    else
      assert tf[0].term in idf;
      [Entry(tf[0].term, Product(tf[0].count as real, idf[tf[0].term]))] + Weigh(idf, tf[1..])
  }

  function Scale(v: Vector, norm: real): Vector
    requires norm != 0.0
  {
    if v == [] then [] else [Entry(v[0].term, v[0].weight / norm)] + Scale(v[1..], norm)
  }

  lemma {:induction false} BumpKeepsTerms(idf: map<Text, real>, tf: seq<Tally>, t: Text)
    requires InCorpus(idf, tf) && t in idf
    ensures InCorpus(idf, Bump(tf, t))
  {
    if tf != [] && tf[0].term != t { BumpKeepsTerms(idf, tf[1..], t); }
  }

  lemma {:induction false} TalliesAreInCorpus(idf: map<Text, real>, tokens: Tokens)
    ensures InCorpus(idf, Tallies(idf, tokens))
  {
    if tokens != [] {
      TalliesAreInCorpus(idf, tokens[..|tokens| - 1]);
      var t := tokens[|tokens| - 1];
      if t in idf { BumpKeepsTerms(idf, Tallies(idf, tokens[..|tokens| - 1]), t); }
    }
  }

  /** Raw weights: count times fitted weight. */
  function Raw(idf: map<Text, real>, tokens: Tokens): Vector {
    TalliesAreInCorpus(idf, tokens);
    Weigh(idf, Tallies(idf, tokens))
  }

  function Embedding(sqrt: real -> real, idf: map<Text, real>, tokens: Tokens): Vector {
    var v := Raw(idf, tokens);
    var norm := sqrt(NormSquared(v));
    if norm != 0.0 then Scale(v, norm) else v
  }

  datatype Outcome = Embedded(vector: Vector) | NotFitted

  class TfidfEmbedder {
    const log: real -> real
    const sqrt: real -> real
    /** Version and digest of the fitted weights. */
    const sign: map<Text, real> -> Text
    var idf: map<Text, real>
    var signature: Text

    constructor (log: real -> real, sqrt: real -> real, sign: map<Text, real> -> Text)
      ensures this.log == log && this.sqrt == sqrt && this.sign == sign
      ensures idf == map[] && signature == []
    {
      this.log, this.sqrt, this.sign, idf, signature := log, sqrt, sign, map[], [];
    }

    method Fit(corpus: seq<Tokens>)
      modifies this
      ensures idf == Idf(log, corpus) && signature == sign(idf)
    {
      var df: map<Text, nat> := map[];
      for i := 0 to |corpus|
        invariant Counted(df, corpus[..i])
      {
        var next := CountTerms(df, TermSet(corpus[i]));
        assert corpus[..i + 1] == corpus[..i] + [corpus[i]];
        OneMoreCounted(df, next, corpus[..i], corpus[i]);
        df := next;
      }
      assert corpus[..|corpus|] == corpus;
      idf := map t | t in df :: InverseFrequency(log, |corpus|, df[t]);
      signature := sign(idf);
    }

    method Embed(tokens: Tokens) returns (r: Outcome)
      ensures r == if signature == [] then NotFitted else Embedded(Embedding(sqrt, idf, tokens))
    {
      if signature == [] {
        return NotFitted;
      }
      var tf: seq<Tally> := [];
      for i := 0 to |tokens|
        invariant tf == Tallies(idf, tokens[..i])
      {
        assert tokens[..i + 1][..i] == tokens[..i];
        if tokens[i] in idf {
          tf := Bump(tf, tokens[i]);
        }
      }
      assert tokens[..|tokens|] == tokens;
      TalliesAreInCorpus(idf, tokens);
      var vec := Weigh(idf, tf);
      var norm := sqrt(NormSquared(vec));
      if norm != 0.0 {
        vec := Scale(vec, norm);
      }
      return Embedded(vec);
    }
  }

  lemma {:induction false} UnseenCountsZero(t: Text, corpus: seq<Tokens>)
    requires t !in Vocabulary(corpus)
    ensures DocumentCount(t, corpus) == 0
  {
    if corpus != [] {
      assert corpus[|corpus| - 1] in corpus;
      UnseenCountsZero(t, corpus[..|corpus| - 1]);
    }
  }

  /** Every term of `done` counted once more. */
  ghost function Incremented<T>(df: map<T, nat>, done: set<T>): map<T, nat> {
    map t | t in df.Keys + done :: (if t in df then df[t] else 0) + (if t in done then 1 else 0)
  }

  lemma NothingIncremented<T>(df: map<T, nat>)
    ensures Incremented(df, {}) == df
  {
  }

  /** One text's contribution: each distinct term once, in any order. */
  method CountTerms<T(==)>(df: map<T, nat>, terms: set<T>) returns (r: map<T, nat>)
    ensures r == Incremented(df, terms)
  {
    r := df;
    var todo := terms;
    ghost var done: set<T> := {};
    NothingIncremented(df);
    while todo != {}
      invariant done !! todo
      invariant done + todo == terms
      invariant r == Incremented(df, done)
      decreases todo
    {
      var t :| t in todo;
      r := r[t := (if t in r then r[t] else 0) + 1];
      todo := todo - {t};
      done := done + {t};
    }
  }

  /** `df` holds the document frequencies of these texts. */
  ghost predicate Counted(df: map<Text, nat>, corpus: seq<Tokens>) {
    df.Keys == Vocabulary(corpus) && forall t | t in df :: df[t] == DocumentCount(t, corpus)
  }

  lemma OneMoreCounted(df: map<Text, nat>, next: map<Text, nat>, before: seq<Tokens>, tokens: Tokens)
    requires Counted(df, before) && next == Incremented(df, TermSet(tokens))
    ensures Counted(next, before + [tokens])
  {
    VocabularyGrows(before, tokens);
    forall t | t in next ensures next[t] == DocumentCount(t, before + [tokens]) {
      assert (before + [tokens])[..|before|] == before;
      if t !in df { UnseenCountsZero(t, before); }
    }
  }

  lemma VocabularyGrows(before: seq<Tokens>, tokens: Tokens)
    ensures Vocabulary(before + [tokens]) == Vocabulary(before) + TermSet(tokens)
  {
    var after := before + [tokens];
    forall t | t in tokens ensures t in Vocabulary(after) {
      assert after[|before|] == tokens;
    }
    forall t | t in Vocabulary(before) ensures t in Vocabulary(after) {
      var doc :| doc in before && t in doc;
      assert doc in after;
    }
  }

  // ---- What an embedding holds --------------------------------------------------------------------

  function CountIn(tf: seq<Tally>, t: Text): nat {
    if tf == [] then 0 else if tf[0].term == t then tf[0].count else CountIn(tf[1..], t)
  }

  predicate Proper(tf: seq<Tally>) {
    tf == [] || (tf[0].count > 0 && CountIn(tf[1..], tf[0].term) == 0 && Proper(tf[1..]))
  }

  lemma {:induction false} BumpCounts(tf: seq<Tally>, t: Text, u: Text)
    ensures CountIn(Bump(tf, t), u) == CountIn(tf, u) + (if u == t then 1 else 0)
  {
    if tf != [] && tf[0].term != t { BumpCounts(tf[1..], t, u); }
  }

  lemma {:induction false} BumpIsProper(tf: seq<Tally>, t: Text)
    requires Proper(tf)
    ensures Proper(Bump(tf, t))
  {
    if tf != [] && tf[0].term != t {
      BumpIsProper(tf[1..], t);
      BumpCounts(tf[1..], t, tf[0].term);
    }
  }

  lemma {:induction false} TalliesCount(idf: map<Text, real>, tokens: Tokens, u: Text)
    ensures Proper(Tallies(idf, tokens))
    ensures CountIn(Tallies(idf, tokens), u) == if u in idf then multiset(tokens)[u] else 0
  {
    if tokens != [] {
      var before, t := tokens[..|tokens| - 1], tokens[|tokens| - 1];
      TalliesCount(idf, before, u);
      BumpIsProper(Tallies(idf, before), t);
      BumpCounts(Tallies(idf, before), t, u);
      assert tokens == before + [t];
    }
  }

  ghost predicate AtLeastOne(idf: map<Text, real>) {
    forall t | t in idf :: idf[t] >= 1.0
  }

  lemma {:induction false} WeighGets(idf: map<Text, real>, tf: seq<Tally>, t: Text)
    requires InCorpus(idf, tf) && Proper(tf) && t in idf
    ensures Get(Weigh(idf, tf), t) == Product(CountIn(tf, t) as real, idf[t])
  {
    if tf != [] && tf[0].term != t { WeighGets(idf, tf[1..], t); }
  }

  lemma {:induction false} WeighHas(idf: map<Text, real>, tf: seq<Tally>, t: Text)
    requires InCorpus(idf, tf) && Proper(tf)
    ensures Has(Weigh(idf, tf), t) <==> CountIn(tf, t) > 0
  {
    if tf != [] { WeighHas(idf, tf[1..], t); }
  }

  lemma {:induction false} WeighIsPositive(idf: map<Text, real>, tf: seq<Tally>)
    requires InCorpus(idf, tf) && Proper(tf) && AtLeastOne(idf)
    ensures Distinct(Weigh(idf, tf))
    ensures forall i | 0 <= i < |Weigh(idf, tf)| :: Weigh(idf, tf)[i].weight > 0.0
  {
    if tf != [] {
      WeighIsPositive(idf, tf[1..]);
      WeighHas(idf, tf[1..], tf[0].term);
      PositiveProduct(tf[0].count as real, idf[tf[0].term]);
    }
  }

  lemma {:induction false} ScaleScales(v: Vector, n: real, t: Text)
    requires n > 0.0
    ensures Get(Scale(v, n), t) == Get(v, t) / n
    ensures Has(Scale(v, n), t) <==> Has(v, t)
  {
    if v != [] { ScaleScales(v[1..], n, t); }
  }

  lemma {:induction false} ScaleStaysPositive(v: Vector, n: real)
    requires n > 0.0 && Distinct(v) && forall i | 0 <= i < |v| :: v[i].weight > 0.0
    ensures Distinct(Scale(v, n)) && forall i | 0 <= i < |Scale(v, n)| :: Scale(v, n)[i].weight > 0.0
  {
    if v != [] {
      ScaleStaysPositive(v[1..], n);
      ScaleScales(v[1..], n, v[0].term);
    }
  }

  lemma Distributes(x: real, y: real, z: real)
    ensures Product(x + y, z) == Product(x, z) + Product(y, z)
  {
  }

  lemma {:induction false} ScaledNorm(v: Vector, n: real)
    requires n != 0.0
    ensures Product(NormSquared(Scale(v, n)), Square(n)) == NormSquared(v)
  {
    if v != [] {
      ScaledNorm(v[1..], n);
      Distributes(Square(v[0].weight / n), NormSquared(Scale(v[1..], n)), Square(n));
    }
  }

  lemma {:induction false} NormIsPositive(v: Vector)
    requires forall i | 0 <= i < |v| :: v[i].weight > 0.0
    ensures NormSquared(v) >= 0.0 && (v != [] ==> NormSquared(v) > 0.0)
  {
    if v != [] {
      NormIsPositive(v[1..]);
      PositiveProduct(v[0].weight, v[0].weight);
    }
  }

  lemma UnitFactor(x: real, y: real)
    requires Product(x, y) == y && y > 0.0
    ensures x == 1.0
  {
  }

  function Norm(sqrt: real -> real, idf: map<Text, real>, tokens: Tokens): real {
    sqrt(NormSquared(Raw(idf, tokens)))
  }

  /** Against its definition: the embedding of a text is normalised, its terms are the corpus terms of
      the text, and each weighs its number of occurrences times its fitted weight, over the norm. */
  lemma EmbeddingIsTfIdf(sqrt: real -> real, idf: map<Text, real>, tokens: Tokens, t: Text)
    requires IsSqrt(sqrt) && AtLeastOne(idf)
    ensures Normalised(Embedding(sqrt, idf, tokens))
    ensures Has(Embedding(sqrt, idf, tokens), t) <==> t in idf && t in tokens
    ensures t in idf && t in tokens ==>
              Norm(sqrt, idf, tokens) > 0.0 &&
              Get(Embedding(sqrt, idf, tokens), t) ==
              Product(multiset(tokens)[t] as real, idf[t]) / Norm(sqrt, idf, tokens)
  {
    var tf, v, norm := Tallies(idf, tokens), Raw(idf, tokens), Norm(sqrt, idf, tokens);
    TalliesCount(idf, tokens, t);
    TalliesAreInCorpus(idf, tokens);
    WeighHas(idf, tf, t);
    if t in idf { WeighGets(idf, tf, t); }
    WeighIsPositive(idf, tf);
    NormIsPositive(v);
    assert t in tokens <==> multiset(tokens)[t] > 0;
    assert Square(norm) == NormSquared(v);
    SquareIsNonNegative(norm);
    if v != [] {
      ScaleScales(v, norm, t);
      ScaleStaysPositive(v, norm);
      ScaledNorm(v, norm);
      UnitFactor(NormSquared(Scale(v, norm)), Square(norm));
    }
  }

  lemma SameLength(a: Vector, b: Vector)
    requires Agree(a, b) && Distinct(a) && Distinct(b)
    ensures NormSquared(a) == NormSquared(b)
  {
    DotOfAgreeing(a, a, b);
    DotOfAgreeing(b, b, a);
    DotCommutes(a, b);
  }

  /** Word order carries nothing: texts with the same terms get vectors that agree. */
  lemma WordOrderIsIrrelevant(sqrt: real -> real, idf: map<Text, real>, x: Tokens, y: Tokens)
    requires IsSqrt(sqrt) && AtLeastOne(idf) && multiset(x) == multiset(y)
    ensures Agree(Embedding(sqrt, idf, x), Embedding(sqrt, idf, y))
  {
    var a, b := Raw(idf, x), Raw(idf, y);
    forall t ensures Get(a, t) == Get(b, t) {
      RawDependsOnCounts(idf, x, y, t);
    }
    TalliesCount(idf, x, []);
    TalliesCount(idf, y, []);
    TalliesAreInCorpus(idf, x);
    TalliesAreInCorpus(idf, y);
    WeighIsPositive(idf, Tallies(idf, x));
    WeighIsPositive(idf, Tallies(idf, y));
    SameLength(a, b);
    var norm := sqrt(NormSquared(a));
    NormIsPositive(a);
    assert norm >= 0.0;
    forall t ensures Get(Embedding(sqrt, idf, x), t) == Get(Embedding(sqrt, idf, y), t) {
      if norm > 0.0 {
        ScaleScales(a, norm, t);
        ScaleScales(b, norm, t);
      }
    }
  }

  lemma RawDependsOnCounts(idf: map<Text, real>, x: Tokens, y: Tokens, t: Text)
    requires multiset(x) == multiset(y)
    ensures Get(Raw(idf, x), t) == Get(Raw(idf, y), t)
  {
    TalliesCount(idf, x, t);
    TalliesCount(idf, y, t);
    TalliesAreInCorpus(idf, x);
    TalliesAreInCorpus(idf, y);
    if t in idf {
      WeighGets(idf, Tallies(idf, x), t);
      WeighGets(idf, Tallies(idf, y), t);
    } else {
      WeighHas(idf, Tallies(idf, x), t);
      WeighHas(idf, Tallies(idf, y), t);
      AbsentIsZero(Raw(idf, x), t);
      AbsentIsZero(Raw(idf, y), t);
    }
  }

  /** After any fit, any two texts score in [0, 1], and 0 exactly when no corpus term occurs in both.
      A text that has corpus terms scores 1 against any rearrangement of itself. */
  lemma FittedScores(log: real -> real, sqrt: real -> real, corpus: seq<Tokens>, x: Tokens, y: Tokens)
    requires IsLog(log) && IsSqrt(sqrt)
    ensures var idf := Idf(log, corpus);
            var score := Cosine(Embedding(sqrt, idf, x), Embedding(sqrt, idf, y));
            0.0 <= score <= 1.0 &&
            (score == 0.0 <==> forall t :: !(t in idf && t in x && t in y)) &&
            (multiset(x) == multiset(y) && (exists t :: t in idf && t in x) ==> score == 1.0)
  {
    var idf := Idf(log, corpus);
    forall t | t in idf ensures idf[t] >= 1.0 {
      FittedWeightsAreAtLeastOne(log, corpus, t);
    }
    var a, b := Embedding(sqrt, idf, x), Embedding(sqrt, idf, y);
    EmbeddingIsTfIdf(sqrt, idf, x, []);
    EmbeddingIsTfIdf(sqrt, idf, y, []);
    CosineMeasures(a, b);
    forall t ensures Has(a, t) <==> t in idf && t in x { EmbeddingIsTfIdf(sqrt, idf, x, t); }
    forall t ensures Has(b, t) <==> t in idf && t in y { EmbeddingIsTfIdf(sqrt, idf, y, t); }
    if multiset(x) == multiset(y) && exists t :: t in idf && t in x {
      var t :| t in idf && t in x;
      WordOrderIsIrrelevant(sqrt, idf, x, y);
      assert t in multiset(y);
      assert Has(a, t) && Has(b, t);
    }
  }
}
