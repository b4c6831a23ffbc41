/** The embedding cache kept on disk between runs, keyed by a digest of signature and text. `embed` is
  what each signature's embedder computes; a call of it may also raise. */
module Cache {
  import opened Texts
  import opened Wrappers

  const NUL: CodePoint := 0

  /** The text that is digested. */
  function Joined(signature: Text, text: Text): Text {
    signature + [NUL] + text
  }

  predicate NulFree(t: Text) {
    NUL !in t
  }

  datatype State<V> = State(data: map<Text, V>, used: set<Text>, hits: nat, misses: nat)

  datatype Outcome<V> = Got(value: V) | Raised | Done

  function Opened<V>(disk: map<Text, V>): State<V> {
    State(disk, {}, 0, 0)
  }

  function Touched<V>(s: State<V>, k: Text): State<V> {
    s.(used := s.used + {k})
  }

  function GetOrEmbedded<V>(s: State<V>, k: Text, computed: Option<V>): (State<V>, Outcome<V>) {
    if k in s.data then (Touched(s, k).(hits := s.hits + 1), Got(s.data[k]))
    else if computed.None? then (Touched(s, k).(misses := s.misses + 1), Raised)
    else (Touched(s, k).(misses := s.misses + 1, data := s.data[k := computed.value]), Got(computed.value))
  }

  function Pruned<V>(s: State<V>): map<Text, V>
    requires s.used <= s.data.Keys
  {
    map k | k in s.used :: s.data[k]
  }

  class EmbeddingCache<V> {
    const digest: Text -> Text
    var data: map<Text, V>
    var used: set<Text>
    var hits: nat
    var misses: nat

    function Now(): State<V>
      reads this
    {
      State(data, used, hits, misses)
    }

    constructor (digest: Text -> Text, disk: map<Text, V>)
      ensures this.digest == digest && Now() == Opened(disk)
    {
      this.digest, data, used, hits, misses := digest, disk, {}, 0, 0;
    }

    method GetOrEmbed(signature: Text, text: Text, embed: Text -> Option<V>) returns (r: Outcome<V>)
      modifies this
      ensures (Now(), r) == GetOrEmbedded(old(Now()), digest(Joined(signature, text)), embed(text))
    {
      var k := digest(Joined(signature, text));
      used := used + {k};
      if k in data {
        hits := hits + 1;
        return Got(data[k]);
      }
      misses := misses + 1;
      var vec := embed(text);
      if vec.None? {
        return Raised;
      }
      data := data[k := vec.value];
      return Got(vec.value);
    }

    /** What is written, or Raised where a used key has no vector. */
    method Save() returns (written: Outcome<map<Text, V>>)
      modifies this
      ensures written.Raised? <==> !(old(used) <= old(data.Keys))
      ensures written.Raised? ==> Now() == old(Now())
      ensures !written.Raised? ==>
                written == Got(Pruned(old(Now()))) && Now() == old(Now()).(data := Pruned(old(Now())))
    {
      if !(used <= data.Keys) {
        return Raised;
      }
      data := map k | k in used :: data[k];
      return Got(data);
    }
  }

  // ---- Keys -------------------------------------------------------------------------------------

  lemma {:induction false} JoinedIsInjective(s: Text, x: Text, t: Text, y: Text)
    requires NulFree(s) && NulFree(t) && Joined(s, x) == Joined(t, y)
    ensures s == t && x == y
  {
    var a, b := Joined(s, x), Joined(t, y);
    if s == [] || t == [] {
      assert a[0] == NUL && b[0] == NUL;
      assert s == [] && t == [];
      assert a[1..] == x && b[1..] == y;
    } else {
      assert a[0] == s[0] && b[0] == t[0];
      assert a[1..] == Joined(s[1..], x) && b[1..] == Joined(t[1..], y);
      JoinedIsInjective(s[1..], x, t[1..], y);
      assert s == [s[0]] + s[1..] && t == [t[0]] + t[1..];
    }
  }

  /** The condition on signatures is needed for every one of them: with a NUL in it, a signature shares
      each of its key texts with the part before its first NUL. */
  lemma NulInSignatureCollides(s: Text, x: Text) returns (t: Text, y: Text)
    requires !NulFree(s)
    ensures NulFree(t) && t != s && Joined(t, y) == Joined(s, x)
  {
    var i: nat := 0;
    while s[i] != NUL
      invariant i < |s| && NUL !in s[..i] && NUL in s[i..]
      decreases |s| - i
    {
      assert s[..i + 1] == s[..i] + [s[i]] && s[i..] == [s[i]] + s[i + 1..];
      i := i + 1;
    }
    t, y := s[..i], s[i + 1..] + [NUL] + x;
    assert s == t + [NUL] + s[i + 1..];
    assert Joined(t, y) == Joined(s, x);
  }

  // ---- Runs -------------------------------------------------------------------------------------

  /** Start opens the file in a new process; `fails` says that the embedder would raise if called. */
  datatype Op = Start | Lookup(signature: Text, text: Text, fails: bool) | Save

  datatype World<V> = World(disk: map<Text, V>, cache: State<V>)

  function Key(digest: Text -> Text, signature: Text, text: Text): Text {
    digest(Joined(signature, text))
  }

  function Step<V>(digest: Text -> Text, embed: (Text, Text) -> V, w: World<V>, op: Op): (World<V>, Outcome<V>) {
    match op
    case Start => (w.(cache := Opened(w.disk)), Done)
    case Lookup(signature, text, fails) =>
      var computed := if fails then None else Some(embed(signature, text));
      var r := GetOrEmbedded(w.cache, Key(digest, signature, text), computed);
      (w.(cache := r.0), r.1)
    case Save =>
      if w.cache.used <= w.cache.data.Keys
      then (World(Pruned(w.cache), w.cache.(data := Pruned(w.cache))), Done)
      else (w, Raised)
  }

  function Run<V>(digest: Text -> Text, embed: (Text, Text) -> V, w: World<V>, ops: seq<Op>): World<V> {
    if ops == [] then w
    else Step(digest, embed, Run(digest, embed, w, ops[..|ops| - 1]), ops[|ops| - 1]).0
  }

  ghost predicate Injective(digest: Text -> Text) {
    forall x, y | digest(x) == digest(y) :: x == y
  }

  /** Every stored vector is what its signature's embedder computes for its text. */
  ghost predicate Genuine<V>(digest: Text -> Text, embed: (Text, Text) -> V, m: map<Text, V>) {
    forall s, x | NulFree(s) && Key(digest, s, x) in m :: m[Key(digest, s, x)] == embed(s, x)
  }

  ghost predicate Signed(ops: seq<Op>) {
    forall i | 0 <= i < |ops| && ops[i].Lookup? :: NulFree(ops[i].signature)
  }

  /** Lookups made since the process started. */
  function Lookups(ops: seq<Op>): seq<Op> {
    if ops == [] then []
    else
      var op := ops[|ops| - 1];
      if op.Start? then []
      else Lookups(ops[..|ops| - 1]) + (if op.Lookup? then [op] else [])
  }

  /** Keys of this process that the embedder has only ever failed on. */
  function Unresolved<V>(digest: Text -> Text, embed: (Text, Text) -> V, w: World<V>, ops: seq<Op>): set<Text> {
    if ops == [] then {}
    else
      var before, op := ops[..|ops| - 1], ops[|ops| - 1];
      var was := Unresolved(digest, embed, w, before);
      match op
      case Start => {}
      case Save => was
      case Lookup(s, x, _) =>
        if Step(digest, embed, Run(digest, embed, w, before), op).1.Raised? then was + {Key(digest, s, x)}
        else was - {Key(digest, s, x)}
  }

  // ---- Safety -------------------------------------------------------------------------------------

  ghost predicate Sound<V>(digest: Text -> Text, embed: (Text, Text) -> V, w: World<V>) {
    Genuine(digest, embed, w.disk) && Genuine(digest, embed, w.cache.data)
  }

  lemma SameKey(digest: Text -> Text, s: Text, x: Text, t: Text, y: Text)
    requires Injective(digest) && NulFree(s) && NulFree(t) && Key(digest, s, x) == Key(digest, t, y)
    ensures s == t && x == y
  {
    JoinedIsInjective(s, x, t, y);
  }

  lemma LookupStaysSound<V>(digest: Text -> Text, embed: (Text, Text) -> V, w: World<V>, op: Op)
    requires Injective(digest) && Sound(digest, embed, w) && op.Lookup? && NulFree(op.signature)
    ensures Sound(digest, embed, Step(digest, embed, w, op).0)
    ensures var k, out := Key(digest, op.signature, op.text), Step(digest, embed, w, op).1;
            out == if k !in w.cache.data && op.fails then Raised else Got(embed(op.signature, op.text))
  {
    var after := Step(digest, embed, w, op).0.cache.data;
    forall s, x | NulFree(s) && Key(digest, s, x) in after ensures after[Key(digest, s, x)] == embed(s, x) {
      if Key(digest, s, x) !in w.cache.data {
        SameKey(digest, s, x, op.signature, op.text);
      }
    }
  }

  lemma {:induction false} RunStaysSound<V>(digest: Text -> Text, embed: (Text, Text) -> V, w: World<V>, ops: seq<Op>)
    requires Injective(digest) && Sound(digest, embed, w) && Signed(ops)
    ensures Sound(digest, embed, Run(digest, embed, w, ops))
  {
    if ops != [] {
      var before, op := ops[..|ops| - 1], ops[|ops| - 1];
      RunStaysSound(digest, embed, w, before);
      match op
      case Start =>
      case Save =>
      case Lookup(_, _, _) => LookupStaysSound(digest, embed, Run(digest, embed, w, before), op);
    }
  }

  /** Over any sequence of runs, saves and reloads, a lookup gives exactly what the embedder would, or
      raises because a call it had to make failed. */
  lemma CacheAgreesWithEmbedding<V>(digest: Text -> Text, embed: (Text, Text) -> V, w: World<V>, ops: seq<Op>, op: Op)
    requires Injective(digest) && Sound(digest, embed, w) && Signed(ops) && op.Lookup? && NulFree(op.signature)
    ensures var now := Run(digest, embed, w, ops);
            Step(digest, embed, now, op).1 ==
            if op.fails && Key(digest, op.signature, op.text) !in now.cache.data then Raised
            else Got(embed(op.signature, op.text))
  {
    RunStaysSound(digest, embed, w, ops);
    LookupStaysSound(digest, embed, Run(digest, embed, w, ops), op);
  }

  // ---- Accounting -----------------------------------------------------------------------------------

  ghost predicate LookupsOnly(ops: seq<Op>) {
    forall i | 0 <= i < |ops| :: ops[i].Lookup?
  }

  ghost function KeysOf(digest: Text -> Text, lookups: seq<Op>): set<Text>
    requires LookupsOnly(lookups)
  {
    set i | 0 <= i < |lookups| :: Key(digest, lookups[i].signature, lookups[i].text)
  }

  lemma KeysOfOneMore(digest: Text -> Text, lookups: seq<Op>, op: Op)
    requires LookupsOnly(lookups) && op.Lookup?
    ensures LookupsOnly(lookups + [op])
    ensures KeysOf(digest, lookups + [op]) == KeysOf(digest, lookups) + {Key(digest, op.signature, op.text)}
  {
    var more := lookups + [op];
    forall k | k in KeysOf(digest, lookups) ensures k in KeysOf(digest, more) {
      var i :| 0 <= i < |lookups| && k == Key(digest, lookups[i].signature, lookups[i].text);
      assert more[i] == lookups[i];
    }
    assert more[|lookups|] == op;
    assert Key(digest, op.signature, op.text) in KeysOf(digest, more);
  }

  lemma {:induction false} LookupsAreLookups(ops: seq<Op>)
    ensures LookupsOnly(Lookups(ops))
  {
    if ops != [] { LookupsAreLookups(ops[..|ops| - 1]); }
  }

  lemma LookupResolves<V>(s: State<V>, k: Text, computed: Option<V>)
    ensures var r := GetOrEmbedded(s, k, computed);
            r.0.used == s.used + {k} &&
            r.0.used - r.0.data.Keys ==
            if r.1.Raised? then (s.used - s.data.Keys) + {k} else (s.used - s.data.Keys) - {k}
  {
  }

  /** In a process opened on any file: every lookup is a hit or a miss, the used keys are exactly the
      keys looked up, and the used keys without a vector are exactly those whose latest lookup raised. */
  lemma {:induction false} LookupsAreCounted<V>(
      digest: Text -> Text, embed: (Text, Text) -> V, disk: map<Text, V>, ops: seq<Op>)
    ensures var w := World(disk, Opened(disk));
            var cache := Run(digest, embed, w, ops).cache;
            cache.hits + cache.misses == |Lookups(ops)| &&
            LookupsOnly(Lookups(ops)) && cache.used == KeysOf(digest, Lookups(ops)) &&
            cache.used - cache.data.Keys == Unresolved(digest, embed, w, ops)
  {
    var w := World(disk, Opened(disk));
    if ops == [] {
      assert Run(digest, embed, w, ops) == w;
    } else {
      var before, op := ops[..|ops| - 1], ops[|ops| - 1];
      LookupsAreCounted(digest, embed, disk, before);
      LookupsAreLookups(ops);
      match op
      case Start =>
        assert KeysOf(digest, []) == {};
      case Save =>
        assert Lookups(ops) == Lookups(before);
      case Lookup(s, x, fails) =>
        KeysOfOneMore(digest, Lookups(before), op);
        LookupResolves(Run(digest, embed, w, before).cache, Key(digest, s, x),
                       if fails then None else Some(embed(s, x)));
    }
  }

  /** `save` writes exactly the keys of this process's lookups, and raises exactly when some key's
      latest lookup raised: a failed embedding call, if the run goes on, blocks saving until that text
      is embedded. */
  lemma SaveKeepsExactlyTheUsed<V>(digest: Text -> Text, embed: (Text, Text) -> V, disk: map<Text, V>, ops: seq<Op>)
    ensures var w := World(disk, Opened(disk));
            var now := Run(digest, embed, w, ops);
            var saved := Step(digest, embed, now, Save);
            (saved.1.Raised? <==> Unresolved(digest, embed, w, ops) != {}) &&
            (saved.1.Raised? ==> saved.0 == now) &&
            LookupsOnly(Lookups(ops)) &&
            (!saved.1.Raised? ==> saved.0.disk.Keys == KeysOf(digest, Lookups(ops)) &&
                                  saved.0.cache.data == saved.0.disk)
  {
    LookupsAreCounted(digest, embed, disk, ops);
    var cache := Run(digest, embed, World(disk, Opened(disk)), ops).cache;
    NothingBeyond(cache.used, cache.data.Keys);
  }

  lemma NothingBeyond<T>(s: set<T>, t: set<T>)
    ensures s <= t <==> s - t == {}
  {
    if s - t == {} {
      forall k | k in s ensures k in t {
        assert k !in s - t;
      }
    }
  }

  /** Reopening a saved file and looking up only texts of the saved run calls the embedder never. */
  lemma {:induction false} ReplayHasNoMisses<V>(
      digest: Text -> Text, embed: (Text, Text) -> V, disk: map<Text, V>, ops: seq<Op>, again: seq<Op>)
    requires var w := World(disk, Opened(disk));
             !Step(digest, embed, Run(digest, embed, w, ops), Save).1.Raised?
    requires LookupsOnly(again) && LookupsOnly(Lookups(ops)) && KeysOf(digest, again) <= KeysOf(digest, Lookups(ops))
    ensures var w := World(disk, Opened(disk));
            var saved := Step(digest, embed, Run(digest, embed, w, ops), Save).0;
            var replayed := Run(digest, embed, Step(digest, embed, saved, Start).0, again);
            replayed.cache.misses == 0 && replayed.cache.hits == |again| && replayed.cache.data == saved.disk
  {
    var w := World(disk, Opened(disk));
    var saved := Step(digest, embed, Run(digest, embed, w, ops), Save).0;
    SaveKeepsExactlyTheUsed(digest, embed, disk, ops);
    if again != [] {
      var shorter, op := again[..|again| - 1], again[|again| - 1];
      assert Key(digest, op.signature, op.text) in KeysOf(digest, again);
      forall k | k in KeysOf(digest, shorter) ensures k in KeysOf(digest, again) {
        var i :| 0 <= i < |shorter| && k == Key(digest, shorter[i].signature, shorter[i].text);
        assert again[i] == shorter[i];
      }
      ReplayHasNoMisses(digest, embed, disk, ops, shorter);
    }
  }
}
