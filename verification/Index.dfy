/** The exact in-memory cosine index: brute-force scores, one total order, a slice. */
module Index {
  import opened Embedder
  import opened Sorting
  import opened Texts

  datatype Stored = Stored(id: Text, vector: Vector)

  datatype Hit = Hit(id: Text, score: real)

  /** Score descending, then id ascending. */
  predicate Ranked(a: Hit, b: Hit) {
    a.score > b.score || (a.score == b.score && !Less(b.id, a.id))
  }

  function Scores(entries: seq<Stored>, query: Vector): seq<Hit> {
    if entries == [] then []
    else [Hit(entries[0].id, Cosine(query, entries[0].vector))] + Scores(entries[1..], query)
  }

  /** Python's `s[:k]`, negative `k` included. */
  function Slice<T>(s: seq<T>, k: int): seq<T> {
    if k >= 0 then (if k <= |s| then s[..k] else s)
    else if |s| + k >= 0 then s[..|s| + k] else []
  }

  function Search(entries: seq<Stored>, query: Vector, k: int): seq<Hit> {
    Slice(Sort(Scores(entries, query), Ranked), k)
  }

  class InMemoryIndex {
    var entries: seq<Stored>

    constructor ()
      ensures entries == []
    {
      entries := [];
    }

    method Add(id: Text, vector: Vector)
      modifies this
      ensures entries == old(entries) + [Stored(id, vector)]
    {
      entries := entries + [Stored(id, vector)];
    }

    method SearchTop(query: Vector, k: int) returns (hits: seq<Hit>)
      ensures hits == Search(entries, query, k)
    {
      var scored := Scores(entries, query);
      var ordered := Sort(scored, Ranked);
      hits := Slice(ordered, k);
    }
  }

  // ---- The order --------------------------------------------------------------------------------

  lemma RankedIsTotal()
    ensures TotalPreorder(Ranked)
  {
    forall a, b ensures Ranked(a, b) || Ranked(b, a) {
      LessIsStrict(a.id, b.id);
    }
    forall a, b, c | Ranked(a, b) && Ranked(b, c) ensures Ranked(a, c) {
      RankedIsTransitive(a, b, c);
    }
  }

  lemma RankedIsTransitive(a: Hit, b: Hit, c: Hit)
    requires Ranked(a, b) && Ranked(b, c)
    ensures Ranked(a, c)
  {
    if a.score == b.score == c.score && Less(c.id, a.id) {
      LessIsStrict(a.id, b.id);
      LessIsStrict(b.id, c.id);
      if a.id != b.id { LessIsTransitive(c.id, a.id, b.id); }
    }
  }

  /** Hits that tie in both keys are equal, whether or not ids repeat. */
  lemma RankedSeparates(hits: seq<Hit>)
    ensures Separates(Ranked, hits)
  {
    forall a, b | Ranked(a, b) && Ranked(b, a) ensures a == b {
      LessIsStrict(a.id, b.id);
    }
  }

  // ---- Exactness --------------------------------------------------------------------------------

  /** `hits` are the `m` best of `scored`, best first: in order, and whatever is left out of `scored`
      ranks no better than any of them. */
  ghost predicate Best(hits: seq<Hit>, scored: seq<Hit>, m: nat) {
    |hits| == m && Sorted(hits, Ranked) &&
    exists rest: seq<Hit> :: multiset(hits) + multiset(rest) == multiset(scored) && AllRanked(hits, rest)
  }

  ghost predicate AllRanked(hits: seq<Hit>, rest: seq<Hit>) {
    forall a, b | a in hits && b in rest :: Ranked(a, b)
  }

  function Size(n: nat, k: int): nat {
    if k >= 0 then (if k <= n then k else n) else if n + k >= 0 then n + k else 0
  }

  lemma SliceIsPrefix<T>(s: seq<T>, k: int)
    ensures Size(|s|, k) <= |s| && Slice(s, k) == s[..Size(|s|, k)]
  {
  }

  lemma PrefixIsBest(ordered: seq<Hit>, scored: seq<Hit>, m: nat)
    requires Sorted(ordered, Ranked) && multiset(ordered) == multiset(scored) && m <= |ordered|
    ensures Best(ordered[..m], scored, m)
  {
    var hits, rest := ordered[..m], ordered[m..];
    assert ordered == hits + rest;
    assert multiset(hits) + multiset(rest) == multiset(scored);
    assert AllRanked(hits, rest);
  }

  /** The order leaves no choice: there is one such list. */
  lemma BestIsUnique(hits: seq<Hit>, scored: seq<Hit>, m: nat)
    requires Best(hits, scored, m)
    ensures m <= |Sort(scored, Ranked)| && hits == Sort(scored, Ranked)[..m]
  {
    var rest: seq<Hit> :| multiset(hits) + multiset(rest) == multiset(scored) && AllRanked(hits, rest);
    var tail := Sort(rest, Ranked);
    var whole := hits + tail;
    RankedIsTotal();
    SortSorts(rest, Ranked);
    SortKeepsElements(rest, Ranked);
    forall a, b | a in hits && b in tail ensures Ranked(a, b) {
      SameElements(tail, rest, b);
    }
    assert Sorted(whole, Ranked);
    assert multiset(whole) == multiset(scored);
    SortSorts(scored, Ranked);
    SortKeepsElements(scored, Ranked);
    RankedSeparates(whole);
    SortedIsUnique(whole, Sort(scored, Ranked), Ranked);
  }

  lemma {:induction false} ScoresArePointwise(entries: seq<Stored>, query: Vector)
    ensures |Scores(entries, query)| == |entries|
    ensures forall i | 0 <= i < |entries| ::
              Scores(entries, query)[i] == Hit(entries[i].id, Cosine(query, entries[i].vector))
  {
    if entries != [] { ScoresArePointwise(entries[1..], query); }
  }

  /** The result is the one list of the `k` best hits (all of them when fewer are stored; Python's
      reading of a negative `k`), so it is exact top-k. */
  lemma SearchIsExact(entries: seq<Stored>, query: Vector, k: int, hits: seq<Hit>)
    ensures hits == Search(entries, query, k) <==> Best(hits, Scores(entries, query), Size(|entries|, k))
  {
    var scored := Scores(entries, query);
    RankedIsTotal();
    SortSorts(scored, Ranked);
    SortKeepsElements(scored, Ranked);
    ScoresArePointwise(entries, query);
    SliceIsPrefix(Sort(scored, Ranked), k);
    PrefixIsBest(Sort(scored, Ranked), scored, Size(|entries|, k));
    if Best(hits, scored, Size(|entries|, k)) {
      BestIsUnique(hits, scored, Size(|entries|, k));
    }
  }

  function Without<T>(s: seq<T>, j: nat): seq<T>
    requires j < |s|
  {
    s[..j] + s[j + 1..]
  }

  lemma WithoutRemovesOne<T>(s: seq<T>, j: nat)
    requires j < |s|
    ensures multiset(s) == multiset{s[j]} + multiset(Without(s, j))
  {
    assert s == s[..j] + [s[j]] + s[j + 1..];
  }

  /** Where the head of one arrangement sits in another. */
  lemma HeadElsewhere<T>(a: seq<T>, b: seq<T>) returns (j: nat)
    requires a != [] && multiset(a) == multiset(b)
    ensures j < |b| && b[j] == a[0] && multiset(Without(b, j)) == multiset(a[1..])
  {
    SameElements(a, b, a[0]);
    j :| 0 <= j < |b| && b[j] == a[0];
    WithoutRemovesOne(b, j);
    WithoutRemovesOne(a, 0);
    assert Without(a, 0) == a[1..];
    assert multiset(Without(b, j)) == multiset(b) - multiset{a[0]};
    assert multiset(Without(a, 0)) == multiset(a) - multiset{a[0]};
  }

  lemma {:induction false} ScoresOfPermuted(a: seq<Stored>, b: seq<Stored>, query: Vector)
    requires multiset(a) == multiset(b)
    ensures multiset(Scores(a, query)) == multiset(Scores(b, query))
  {
    if a == [] {
      assert |b| == |multiset(b)| == |multiset(a)|;
    } else {
      var j := HeadElsewhere(a, b);
      ScoresOfPermuted(a[1..], Without(b, j), query);
      ScoresOfRemoved(b, j, query);
      ScoresOfRemoved(a, 0, query);
      assert Without(a, 0) == a[1..];
    }
  }

  lemma {:induction false} ScoresSplit(a: seq<Stored>, b: seq<Stored>, query: Vector)
    ensures Scores(a + b, query) == Scores(a, query) + Scores(b, query)
  {
    if a == [] {
      assert a + b == b;
    } else {
      assert (a + b)[1..] == a[1..] + b;
      ScoresSplit(a[1..], b, query);
    }
  }

  lemma ScoresOfRemoved(b: seq<Stored>, j: nat, query: Vector)
    requires j < |b|
    ensures multiset(Scores(b, query)) ==
            multiset{Hit(b[j].id, Cosine(query, b[j].vector))} + multiset(Scores(Without(b, j), query))
  {
    var left, right := b[..j], b[j + 1..];
    assert b == left + ([b[j]] + right);
    ScoresSplit(left, [b[j]] + right, query);
    ScoresSplit([b[j]], right, query);
    ScoresSplit(left, right, query);
  }

  /** The order chunks were added in never shows, even when ids repeat. */
  lemma InsertionOrderIsIrrelevant(a: seq<Stored>, b: seq<Stored>, query: Vector, k: int)
    requires multiset(a) == multiset(b)
    ensures Search(a, query, k) == Search(b, query, k)
  {
    var p, q := Scores(a, query), Scores(b, query);
    ScoresOfPermuted(a, b, query);
    RankedIsTotal();
    SortSorts(p, Ranked);
    SortSorts(q, Ranked);
    SortKeepsElements(p, Ranked);
    SortKeepsElements(q, Ranked);
    RankedSeparates(Sort(p, Ranked));
    SortedIsUnique(Sort(p, Ranked), Sort(q, Ranked), Ranked);
  }

  lemma TopIsBest(scored: seq<Hit>, x: Hit)
    requires x in scored
    ensures Sort(scored, Ranked) != []
    ensures Sort(scored, Ranked)[0] in scored && Sort(scored, Ranked)[0].score >= x.score
  {
    var ordered := Sort(scored, Ranked);
    RankedIsTotal();
    SortSorts(scored, Ranked);
    SortKeepsElements(scored, Ranked);
    SameElements(scored, ordered, x);
    HeadPrecedes(ordered, Ranked, x);
    assert ordered[0] in ordered;
    SameElements(scored, ordered, ordered[0]);
  }

  lemma {:induction false} ScoresAreAtMostOne(entries: seq<Stored>, query: Vector)
    requires Normalised(query) && forall j | 0 <= j < |entries| :: Normalised(entries[j].vector)
    ensures forall hit | hit in Scores(entries, query) :: hit.score <= 1.0
  {
    if entries != [] {
      ScoresAreAtMostOne(entries[1..], query);
      CosineMeasures(query, entries[0].vector);
    }
  }

  /** Looking up a stored text finds it: the best score is exactly 1. */
  lemma StoredTextScoresOne(entries: seq<Stored>, i: nat, query: Vector, k: int)
    requires i < |entries| && k > 0 && query != [] && Normalised(query)
    requires forall j | 0 <= j < |entries| :: Normalised(entries[j].vector)
    requires entries[i].vector != [] && Agree(query, entries[i].vector)
    ensures var hits := Search(entries, query, k);
            hits != [] && hits[0].score == 1.0
  {
    var scored := Scores(entries, query);
    ScoresArePointwise(entries, query);
    CosineMeasures(query, entries[i].vector);
    ScoresAreAtMostOne(entries, query);
    TopIsBest(scored, scored[i]);
  }
}
