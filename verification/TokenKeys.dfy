/** Versioned keyed digests of continuation tokens: the configured key list, issuing and verifying. */
module TokenKeys {
  import opened Strings
  import opened Wrappers

  datatype Key = Key(version: string, secret: string)

  // ---- The configured key list ---------------------------------------------------------------

  const LEGACY := "legacy"

  function ParseKey(part: string): Option<Key> {
    var p := Partition(Strip(part), ':');
    var version := Strip(p.before);
    if Strip(part) != "" && p.found && version != "" && version != LEGACY && p.after != ""
    then Some(Key(version, p.after)) else None
  }

  function ParseAll(parts: seq<string>): seq<Key> {
    if parts == [] then []
    else
      var last := ParseKey(parts[|parts| - 1]);
      ParseAll(parts[..|parts| - 1]) + (if last.Some? then [last.value] else [])
  }

  function ParseKeys(text: string): seq<Key> {
    ParseAll(Split(text, ','))
  }

  /** (version, secret) pairs from "version:secret,..." text, newest first. */
  method ContinuationTokenKeys(text: string) returns (keys: seq<Key>)
    ensures keys == ParseKeys(text)
  {
    keys := [];
    var parts := Split(text, ',');
    for i := 0 to |parts|
      invariant keys == ParseAll(parts[..i])
    {
      assert parts[..i + 1][..i] == parts[..i];
      var part := Strip(parts[i]);
      if part == "" {
        continue;
      }
      var p := Partition(part, ':');
      var version := Strip(p.before);
      if p.found && version != "" && version != LEGACY && p.after != "" {
        keys := keys + [Key(version, p.after)];
      }
    }
    assert parts[..|parts|] == parts;
  }

  /** What a key must look like to be written in the list and read back. */
  predicate WellFormed(k: Key) {
    && k.version != "" && k.version != LEGACY && ':' !in k.version && ',' !in k.version && Trimmed(k.version)
    && k.secret != "" && ',' !in k.secret && !IsSpace(k.secret[|k.secret| - 1])
  }

  function Render(k: Key): string {
    k.version + [':'] + k.secret
  }

  function RenderAll(keys: seq<Key>): (r: seq<string>)
    ensures |r| == |keys|
    ensures forall i | 0 <= i < |keys| :: r[i] == Render(keys[i])
  {
    if keys == [] then [] else [Render(keys[0])] + RenderAll(keys[1..])
  }

  lemma RenderedKeyParses(k: Key)
    requires WellFormed(k)
    ensures ParseKey(Render(k)) == Some(k)
  {
    StripKeepsTrimmed(Render(k));
    StripKeepsTrimmed(k.version);
    PartitionAtFirst(k.version, k.secret, ':');
  }

  lemma {:induction false} RenderedKeysParse(keys: seq<Key>)
    requires forall k | k in keys :: WellFormed(k)
    ensures ParseAll(RenderAll(keys)) == keys
  {
    if keys != [] {
      var rest, last := keys[..|keys| - 1], keys[|keys| - 1];
      assert keys == rest + [last];
      RenderedKeysParse(rest);
      RenderedKeyParses(last);
      ParseOneMore(RenderAll(keys), RenderAll(rest), last);
    }
  }

  lemma ParseOneMore(parts: seq<string>, rest: seq<string>, k: Key)
    requires parts == rest + [Render(k)] && ParseKey(Render(k)) == Some(k)
    ensures ParseAll(parts) == ParseAll(rest) + [k]
  {
    assert parts[..|parts| - 1] == rest;
  }

  /** Writing well-formed keys down and reading them back gives the same keys in the same order. */
  lemma KeyListRoundTrip(keys: seq<Key>)
    requires forall k | k in keys :: WellFormed(k)
    ensures ParseKeys(Join(RenderAll(keys), ',')) == keys
  {
    if keys == [] {
      assert ParseAll([""]) == ParseAll([]) + [] by { assert [""][..0] == []; }
    } else {
      forall i | 0 <= i < |keys| ensures ',' !in RenderAll(keys)[i] {
        assert keys[i] in keys;
      }
      SplitUndoesJoin(RenderAll(keys), ',');
      RenderedKeysParse(keys);
    }
  }

  lemma ParsedKeyIsWellFormed(part: string)
    requires ',' !in part && ParseKey(part).Some?
    ensures WellFormed(ParseKey(part).value)
  {
    var s := Strip(part);
    var p := Partition(s, ':');
    StripPieces(part);
    PartitionPieces(s, ':');
    StripPieces(p.before);
    assert forall c | c in p.before :: c in s;
    assert forall c | c in p.after :: c in s;
    assert s[|s| - 1] == p.after[|p.after| - 1];
  }

  lemma {:induction false} ParsedKeysAreWellFormed(parts: seq<string>)
    requires forall p | p in parts :: ',' !in p
    ensures forall k | k in ParseAll(parts) :: WellFormed(k)
  {
    if parts != [] {
      var rest, last := parts[..|parts| - 1], parts[|parts| - 1];
      assert last in parts && forall p | p in rest :: p in parts;
      ParsedKeysAreWellFormed(rest);
      if ParseKey(last).Some? { ParsedKeyIsWellFormed(last); }
    }
  }

  /** Whatever the environment variable holds, only well-formed keys come out of it; in particular
      none can claim the reserved legacy version. */
  lemma OnlyWellFormedKeys(text: string)
    ensures forall k | k in ParseKeys(text) :: WellFormed(k)
  {
    SplitHasNoSeparator(text, ',');
    ParsedKeysAreWellFormed(Split(text, ','));
  }

  // ---- Issuing and verifying -------------------------------------------------------------------

  /** `digest(raw, secret)` is the keyed digest in hex. */
  datatype Config = Config(keys: seq<Key>, serviceToken: string, development: bool,
                           digest: (string, string) -> string) {
    ghost predicate Valid() {
      forall k | k in keys :: WellFormed(k)
    }
  }

  /** The key a new token is hashed under; None where the service refuses to issue. */
  function IssuingKey(c: Config): Option<Key> {
    if c.keys != [] then Some(c.keys[0])
    else if c.development && c.serviceToken != "" then Some(Key(LEGACY, c.serviceToken))
    else None
  }

  function Tag(c: Config, k: Key, raw: string): string {
    k.version + [':'] + c.digest(raw, k.secret)
  }

  function HashToken(c: Config, raw: string): Option<string> {
    var k := IssuingKey(c);
    if k.None? then None else Some(Tag(c, k.value, raw))
  }

  function VerifyKeys(c: Config): seq<Key> {
    c.keys + (if c.serviceToken != "" then [Key(LEGACY, c.serviceToken)] else [])
  }

  predicate Accepts(c: Config, raw: string, stored: string) {
    var p := Partition(stored, ':');
    if p.found then exists k | k in VerifyKeys(c) :: k.version == p.before && c.digest(raw, k.secret) == p.after
    else exists k | k in VerifyKeys(c) :: c.digest(raw, k.secret) == stored
  }

  method VerifyToken(c: Config, raw: string, stored: string) returns (ok: bool)
    ensures ok <==> raw != "" && stored != "" && Accepts(c, raw, stored)
  {
    if raw == "" || stored == "" {
      return false;
    }
    var p := Partition(stored, ':');
    var accepted := VerifyKeys(c);
    var target := if p.found then p.after else stored;
    var candidates: seq<string> := [];
    for i := 0 to |accepted|
      invariant forall s :: s in candidates <==>
                            exists j :: 0 <= j < i && (p.found ==> accepted[j].version == p.before) &&
                                accepted[j].secret == s
    {
      if !p.found || accepted[i].version == p.before {
        candidates := candidates + [accepted[i].secret];
      }
    }
    for i := 0 to |candidates|
      invariant forall j | 0 <= j < i :: c.digest(raw, candidates[j]) != target
    {
      if c.digest(raw, candidates[i]) == target {
        assert candidates[i] in candidates;
        return true;
      }
    }
    forall k | k in accepted && (p.found ==> k.version == p.before) ensures c.digest(raw, k.secret) != target {
      var j :| 0 <= j < |accepted| && accepted[j] == k;
      assert k.secret in candidates;
    }
    ok := false;
  }

  /** Distinct tokens or distinct secrets never share a digest. */
  ghost predicate CollisionFree(digest: (string, string) -> string) {
    forall r, s, r', s' | digest(r, s) == digest(r', s') :: r == r' && s == s'
  }

  /** A stored digest verifies exactly for the token it was made from, under exactly those key lists
      that still hold the issuing version and secret: rotation keeps old tokens working while
      their key is kept, and dropping the version ends them. */
  lemma VerifiesExactly(issuer: Config, key: Key, raw: string, verifier: Config, presented: string)
    requires issuer.digest == verifier.digest && CollisionFree(issuer.digest)
    requires ':' !in key.version
    ensures Accepts(verifier, presented, Tag(issuer, key, raw)) <==> presented == raw && key in VerifyKeys(verifier)
  {
    PartitionAtFirst(key.version, issuer.digest(raw, key.secret), ':');
    assert Tag(issuer, key, raw) == key.version + [':'] + issuer.digest(raw, key.secret);
    if Accepts(verifier, presented, Tag(issuer, key, raw)) {
      var k :| k in VerifyKeys(verifier) && k.version == key.version
               && verifier.digest(presented, k.secret) == issuer.digest(raw, key.secret);
      assert k == key;
    }
  }

  lemma IssuingVersionHasNoColon(c: Config)
    requires c.Valid() && IssuingKey(c).Some?
    ensures ':' !in IssuingKey(c).value.version && IssuingKey(c).value in VerifyKeys(c)
  {
    if c.keys != [] { assert c.keys[0] in c.keys; }
  }
}
