/** Content fingerprint of a disclosure: canonical JSON with sorted keys, then a digest. */
module Fingerprint {
  import opened Json
  import opened Texts
  import opened Wrappers

  /** A Python payload. Dictionary entries keep their insertion order; keys are strings. */
  datatype Value =
    | NoneValue
    | Boolean(b: bool)
    | Integer(n: int)
    | Chars(text: Text)
    | Decimal(text: Text)
    | Float(x: real)
    | List(values: Values)
    | Tuple(values: Values)
    | Dict(entries: Entries)

  datatype Values = Nil | Cons(head: Value, tail: Values)

  datatype Entries = Empty | Entry(key: Text, value: Value, tail: Entries)

  // ---- Canonical values -----------------------------------------------------------------------

  /** None where the service raises: a float was met. */
  function Canonical(v: Value): Option<Json> {
    match v
    case NoneValue => Some(Null)
    case Boolean(b) => Some(Bool(b))
    case Integer(n) => Some(Int(n))
    case Chars(text) => Some(Str(text))
    case Decimal(text) => Some(Str(text))
    case Float(_) => None
    case List(values) => var items := CanonicalItems(values); if items.None? then None else Some(Arr(items.value))
    case Tuple(values) => var items := CanonicalItems(values); if items.None? then None else Some(Arr(items.value))
    case Dict(entries) =>
      var members := CanonicalMembers(entries);
      if members.None? then None else Some(Obj(members.value))
  }

  function CanonicalItems(vs: Values): Option<Items> {
    if vs.Nil? then Some(NoItems)
    else
      var head, tail := Canonical(vs.head), CanonicalItems(vs.tail);
      if head.None? || tail.None? then None else Some(Item(head.value, tail.value))
  }

  function CanonicalMembers(es: Entries): Option<Members> {
    if es.Empty? then Some(NoMembers)
    else
      var value, tail := Canonical(es.value), CanonicalMembers(es.tail);
      if value.None? || tail.None? then None else Some(Member(es.key, value.value, tail.value))
  }

  /** A path of positions into nested containers. */
  function At(v: Value, path: seq<nat>): Option<Value> {
    if path == [] then Some(v)
    else
      match v
      case List(values) => AtValues(values, path[0], path[1..])
      case Tuple(values) => AtValues(values, path[0], path[1..])
      case Dict(entries) => AtEntries(entries, path[0], path[1..])
      case _ => None
  }

  function AtValues(vs: Values, i: nat, rest: seq<nat>): Option<Value> {
    if vs.Nil? then None else if i == 0 then At(vs.head, rest) else AtValues(vs.tail, i - 1, rest)
  }

  function AtEntries(es: Entries, i: nat, rest: seq<nat>): Option<Value> {
    if es.Empty? then None else if i == 0 then At(es.value, rest) else AtEntries(es.tail, i - 1, rest)
  }

  ghost predicate FloatAt(v: Value, path: seq<nat>) {
    var x := At(v, path);
    x.Some? && x.value.Float?
  }

  /** The fail-closed check fires exactly when a float sits at some depth of the payload. */
  lemma {:induction false} RaisesExactlyOnFloats(v: Value)
    ensures Canonical(v).None? <==> exists path :: FloatAt(v, path)
    decreases v, 0
  {
    match v
    case Float(_) => assert FloatAt(v, []);
    case List(values) => ItemsRaise(values); ContainerPaths(v);
    case Tuple(values) => ItemsRaise(values); ContainerPaths(v);
    case Dict(entries) => MembersRaise(entries); ContainerPaths(v);
    case _ =>
      forall path ensures !FloatAt(v, path) {
      }
  }

  ghost predicate FloatInValues(vs: Values, i: nat, rest: seq<nat>) {
    var x := AtValues(vs, i, rest);
    x.Some? && x.value.Float?
  }

  ghost predicate FloatInEntries(es: Entries, i: nat, rest: seq<nat>) {
    var x := AtEntries(es, i, rest);
    x.Some? && x.value.Float?
  }

  lemma ContainerPaths(v: Value)
    ensures v.List? || v.Tuple? ==>
              ((exists path :: FloatAt(v, path)) <==> exists i: nat, rest :: FloatInValues(v.values, i, rest))
    ensures v.Dict? ==>
              ((exists path :: FloatAt(v, path)) <==> exists i: nat, rest :: FloatInEntries(v.entries, i, rest))
  {
    if v.List? || v.Tuple? || v.Dict? {
      if path :| FloatAt(v, path) {
        assert path != [];
        assert v.Dict? ==> FloatInEntries(v.entries, path[0], path[1..]);
        assert !v.Dict? ==> FloatInValues(v.values, path[0], path[1..]);
      }
      if v.Dict? {
        if i: nat, rest: seq<nat> :| FloatInEntries(v.entries, i, rest) {
          assert ([i] + rest)[1..] == rest;
          assert FloatAt(v, [i] + rest);
        }
      } else {
        if i: nat, rest: seq<nat> :| FloatInValues(v.values, i, rest) {
          assert ([i] + rest)[1..] == rest;
          assert FloatAt(v, [i] + rest);
        }
      }
    }
  }

  lemma {:induction false} ItemsRaise(vs: Values)
    ensures CanonicalItems(vs).None? <==> exists i: nat, rest :: FloatInValues(vs, i, rest)
    decreases vs, 1
  {
    if vs.Cons? {
      RaisesExactlyOnFloats(vs.head);
      ItemsRaise(vs.tail);
      if path :| FloatAt(vs.head, path) { assert FloatInValues(vs, 0, path); }
      if i: nat, rest: seq<nat> :| FloatInValues(vs.tail, i, rest) { assert FloatInValues(vs, i + 1, rest); }
      if i: nat, rest: seq<nat> :| FloatInValues(vs, i, rest) {
        assert i == 0 ==> FloatAt(vs.head, rest);
        assert i > 0 ==> FloatInValues(vs.tail, i - 1, rest);
      }
    }
  }

  lemma {:induction false} MembersRaise(es: Entries)
    ensures CanonicalMembers(es).None? <==> exists i: nat, rest :: FloatInEntries(es, i, rest)
    decreases es, 1
  {
    if es.Entry? {
      RaisesExactlyOnFloats(es.value);
      MembersRaise(es.tail);
      if path :| FloatAt(es.value, path) { assert FloatInEntries(es, 0, path); }
      if i: nat, rest: seq<nat> :| FloatInEntries(es.tail, i, rest) { assert FloatInEntries(es, i + 1, rest); }
      if i: nat, rest: seq<nat> :| FloatInEntries(es, i, rest) {
        assert i == 0 ==> FloatAt(es.value, rest);
        assert i > 0 ==> FloatInEntries(es.tail, i - 1, rest);
      }
    }
  }

  // ---- What canonicalisation keeps ----------------------------------------------------------------

  /** The same path taken through a JSON value. */
  function In(j: Json, path: seq<nat>): Option<Json> {
    if path == [] then Some(j)
    else
      match j
      case Arr(items) => InItems(items, path[0], path[1..])
      case Obj(members) => InMembers(members, path[0], path[1..])
      case _ => None
  }

  function InItems(items: Items, i: nat, rest: seq<nat>): Option<Json> {
    if items.NoItems? then None else if i == 0 then In(items.head, rest) else InItems(items.tail, i - 1, rest)
  }

  function InMembers(m: Members, i: nat, rest: seq<nat>): Option<Json> {
    if m.NoMembers? then None else if i == 0 then In(m.value, rest) else InMembers(m.tail, i - 1, rest)
  }

  function EntryKeys(es: Entries): seq<Text> {
    if es.Empty? then [] else [es.key] + EntryKeys(es.tail)
  }

  function MemberKeys(m: Members): seq<Text> {
    if m.NoMembers? then [] else [m.key] + MemberKeys(m.tail)
  }

  /** `j` is what a Python value looks like in JSON, its parts aside. */
  predicate Spells(v: Value, j: Json) {
    match v
    case NoneValue => j == Null
    case Boolean(b) => j == Bool(b)
    case Integer(n) => j == Int(n)
    case Chars(text) => j == Str(text)
    case Decimal(text) => j == Str(text)
    case Float(_) => false
    case List(_) => j.Arr?
    case Tuple(_) => j.Arr?
    case Dict(entries) => j.Obj? && MemberKeys(j.members) == EntryKeys(entries)
  }

  ghost predicate SpellsAt(x: Option<Value>, y: Option<Json>) {
    if x.None? then y.None? else y.Some? && Spells(x.value, y.value)
  }

  /** Place by place: the canonical payload has the positions of the original, each spelling what
      stood there, keys in their order. */
  lemma {:induction false} CanonicalKeepsPlaces(v: Value, path: seq<nat>)
    requires Canonical(v).Some?
    ensures SpellsAt(At(v, path), In(Canonical(v).value, path))
    decreases v, 0
  {
    match v
    case List(values) =>
      if path != [] { ItemsKeepPlaces(values, path[0], path[1..]); }
    case Tuple(values) =>
      if path != [] { ItemsKeepPlaces(values, path[0], path[1..]); }
    case Dict(entries) =>
      KeysAreKept(entries);
      if path != [] { MembersKeepPlaces(entries, path[0], path[1..]); }
    case _ =>
  }

  lemma {:induction false} ItemsKeepPlaces(vs: Values, i: nat, rest: seq<nat>)
    requires CanonicalItems(vs).Some?
    ensures SpellsAt(AtValues(vs, i, rest), InItems(CanonicalItems(vs).value, i, rest))
    decreases vs, 1
  {
    if vs.Cons? {
      if i == 0 { CanonicalKeepsPlaces(vs.head, rest); } else { ItemsKeepPlaces(vs.tail, i - 1, rest); }
    }
  }

  lemma {:induction false} MembersKeepPlaces(es: Entries, i: nat, rest: seq<nat>)
    requires CanonicalMembers(es).Some?
    ensures SpellsAt(AtEntries(es, i, rest), InMembers(CanonicalMembers(es).value, i, rest))
    decreases es, 1
  {
    if es.Entry? {
      if i == 0 { CanonicalKeepsPlaces(es.value, rest); } else { MembersKeepPlaces(es.tail, i - 1, rest); }
    }
  }

  lemma {:induction false} KeysAreKept(es: Entries)
    requires CanonicalMembers(es).Some?
    ensures MemberKeys(CanonicalMembers(es).value) == EntryKeys(es)
  {
    if es.Entry? { KeysAreKept(es.tail); }
  }

  // ---- Sorting keys -----------------------------------------------------------------------------

  function Insert(key: Text, value: Json, m: Members): Members {
    if m.NoMembers? || Less(key, m.key) then Member(key, value, m)
    else Member(m.key, m.value, Insert(key, value, m.tail))
  }

  /** The value as the encoder walks it with sorted keys. */
  function Sorted(j: Json): Json {
    match j
    case Arr(items) => Arr(SortedItems(items))
    case Obj(members) => Obj(SortedMembers(members))
    case _ => j
  }

  function SortedItems(items: Items): Items {
    if items.NoItems? then NoItems else Item(Sorted(items.head), SortedItems(items.tail))
  }

  function SortedMembers(m: Members): Members {
    if m.NoMembers? then NoMembers else Insert(m.key, Sorted(m.value), SortedMembers(m.tail))
  }

  // ---- Equality up to key order -------------------------------------------------------------------

  function Get(m: Members, key: Text): Option<Json> {
    if m.NoMembers? then None else if m.key == key then Some(m.value) else Get(m.tail, key)
  }

  function Size(j: Json): nat {
    match j
    case Arr(items) => 1 + ItemsSize(items)
    case Obj(members) => 1 + MembersSize(members)
    case _ => 1
  }

  function ItemsSize(items: Items): nat {
    if items.NoItems? then 0 else 1 + Size(items.head) + ItemsSize(items.tail)
  }

  function MembersSize(m: Members): nat {
    if m.NoMembers? then 0 else 1 + Size(m.value) + MembersSize(m.tail)
  }

  lemma {:induction false} GetIsSmaller(m: Members, key: Text)
    ensures Get(m, key).Some? ==> Size(Get(m, key).value) <= MembersSize(m)
  {
    if m.Member? { GetIsSmaller(m.tail, key); }
  }

  /** Two values are the same when they differ at most in the order of object members, at any depth. */
  ghost predicate Same(a: Json, b: Json)
    decreases Size(a), 1
  {
    match (a, b)
    case (Arr(xs), Arr(ys)) => SameItems(xs, ys)
    case (Obj(m), Obj(n)) => forall key :: SameAt(m, n, key)
    case _ => a == b
  }

  ghost predicate SameAt(m: Members, n: Members, key: Text)
    decreases MembersSize(m), 2
  {
    GetIsSmaller(m, key);
    if Get(m, key).Some? && Get(n, key).Some? then Same(Get(m, key).value, Get(n, key).value)
    else Get(m, key) == Get(n, key)
  }

  ghost predicate SameItems(xs: Items, ys: Items)
    decreases ItemsSize(xs), 0
  {
    match (xs, ys)
    case (NoItems, NoItems) => true
    case (Item(x, xt), Item(y, yt)) => Same(x, y) && SameItems(xt, yt)
    case _ => false
  }

  /** Keys of every object are pairwise distinct, as in any Python dictionary. */
  predicate DistinctKeys(j: Json) {
    match j
    case Arr(items) => DistinctInItems(items)
    case Obj(members) => DistinctInMembers(members)
    case _ => true
  }

  predicate DistinctInItems(items: Items) {
    items.Item? ==> DistinctKeys(items.head) && DistinctInItems(items.tail)
  }

  predicate DistinctInMembers(m: Members) {
    m.Member? ==> DistinctKeys(m.value) && Get(m.tail, m.key).None? && DistinctInMembers(m.tail)
  }

  ghost predicate Increasing(m: Members) {
    m.Member? ==> (forall key :: Get(m.tail, key).Some? ==> Less(m.key, key)) && Increasing(m.tail)
  }

  lemma {:induction false} InsertPlaces(key: Text, value: Json, m: Members, k: Text)
    requires Increasing(m) && Get(m, key).None?
    ensures Increasing(Insert(key, value, m))
    ensures Get(Insert(key, value, m), k) == if k == key then Some(value) else Get(m, k)
  {
    if m.Member? {
      LessIsStrict(key, m.key);
      if Less(key, m.key) {
        forall other | Get(m, other).Some? ensures Less(key, other) {
          if other != m.key { LessIsTransitive(key, m.key, other); }
        }
      } else {
        InsertPlaces(key, value, m.tail, k);
        forall other | Get(Insert(key, value, m.tail), other).Some? ensures Less(m.key, other) {
          InsertPlaces(key, value, m.tail, other);
        }
      }
    }
  }

  function SortedValue(x: Option<Json>): Option<Json> {
    if x.Some? then Some(Sorted(x.value)) else None
  }

  lemma {:induction false} SortedLooksUp(m: Members, key: Text)
    requires DistinctInMembers(m)
    ensures Increasing(SortedMembers(m))
    ensures Get(SortedMembers(m), key) == SortedValue(Get(m, key))
  {
    if m.Member? {
      SortedLooksUp(m.tail, key);
      SortedLooksUp(m.tail, m.key);
      InsertPlaces(m.key, Sorted(m.value), SortedMembers(m.tail), key);
    }
  }

  lemma {:induction false} IncreasingIsUnique(m: Members, n: Members)
    requires Increasing(m) && Increasing(n) && forall key :: Get(m, key) == Get(n, key)
    ensures m == n
  {
    assert n.Member? ==> Get(n, n.key).Some?;
    assert m.Member? ==> Get(m, m.key).Some?;
    if m.Member? {
      assert Get(m, m.key) == Get(n, m.key) && Get(n, n.key) == Get(m, n.key);
      LessIsStrict(m.key, n.key);
      assert m.key == n.key;
      LessIsStrict(m.key, m.key);
      forall key ensures Get(m.tail, key) == Get(n.tail, key) {
        if key == m.key {
          assert Get(m.tail, key).None? && Get(n.tail, key).None?;
        } else {
          assert Get(m, key) == Get(n, key);
        }
      }
      IncreasingIsUnique(m.tail, n.tail);
    }
  }

  lemma {:induction false} GetIsDistinct(m: Members, key: Text)
    requires DistinctInMembers(m)
    ensures Get(m, key).Some? ==> DistinctKeys(Get(m, key).value)
  {
    if m.Member? { GetIsDistinct(m.tail, key); }
  }

  /** Sorting keys is a normal form: two values sort to the same thing exactly when they are the same
      up to member order. */
  lemma {:induction false} SortedExactlyWhenSame(a: Json, b: Json)
    requires DistinctKeys(a) && DistinctKeys(b)
    ensures Sorted(a) == Sorted(b) <==> Same(a, b)
    decreases Size(a), 1
  {
    match (a, b)
    case (Arr(xs), Arr(ys)) => SortedItemsExactlyWhenSame(xs, ys);
    case (Obj(m), Obj(n)) =>
      forall key ensures Get(SortedMembers(m), key) == Get(SortedMembers(n), key) <==> SameAt(m, n, key) {
        SortedLooksUp(m, key);
        SortedLooksUp(n, key);
        GetIsSmaller(m, key);
        GetIsDistinct(m, key);
        GetIsDistinct(n, key);
        if Get(m, key).Some? && Get(n, key).Some? {
          SortedExactlyWhenSame(Get(m, key).value, Get(n, key).value);
        }
      }
      SortedLooksUp(m, []);
      SortedLooksUp(n, []);
      if Same(a, b) {
        forall key ensures Get(SortedMembers(m), key) == Get(SortedMembers(n), key) {
          assert SameAt(m, n, key);
        }
        IncreasingIsUnique(SortedMembers(m), SortedMembers(n));
      }
    case _ =>
  }

  lemma {:induction false} SortedItemsExactlyWhenSame(xs: Items, ys: Items)
    requires DistinctInItems(xs) && DistinctInItems(ys)
    ensures SortedItems(xs) == SortedItems(ys) <==> SameItems(xs, ys)
    decreases ItemsSize(xs), 0
  {
    if xs.Item? && ys.Item? {
      SortedExactlyWhenSame(xs.head, ys.head);
      SortedItemsExactlyWhenSame(xs.tail, ys.tail);
    }
  }

  // ---- Text -------------------------------------------------------------------------------------

  predicate IsHigh(c: CodePoint) {
    0xd800 <= c < 0xdc00
  }

  predicate IsLow(c: CodePoint) {
    0xdc00 <= c < 0xe000
  }

  /** No high surrogate stands directly before a low one; lone surrogates are allowed. */
  predicate NoPair(t: Text) {
    forall i | 0 <= i < |t| - 1 :: !(IsHigh(t[i]) && IsLow(t[i + 1]))
  }

  /** Code units as the ASCII escapes spell them: astral code points become surrogate pairs. */
  function Units(t: Text): (u: Text)
    ensures IsUnits(u)
  {
    if t == [] then []
    else if t[0] < 0x10000 then [t[0]] + Units(t[1..])
    else [0xd800 + (t[0] - 0x10000) / 0x400, 0xdc00 + (t[0] - 0x10000) % 0x400] + Units(t[1..])
  }

  function FromUnits(u: Text): Text {
    if u == [] then []
    else if IsHigh(u[0]) && |u| >= 2 && IsLow(u[1]) then
      [0x10000 + (u[0] - 0xd800) * 0x400 + (u[1] - 0xdc00)] + FromUnits(u[2..])
    else [u[0]] + FromUnits(u[1..])
  }

  lemma UnitsStart(t: Text)
    requires t != []
    ensures Units(t) != []
    ensures t[0] < 0x10000 ==> Units(t)[0] == t[0] && Units(t)[1..] == Units(t[1..])
    ensures t[0] >= 0x10000 ==>
              |Units(t)| >= 2 && IsHigh(Units(t)[0]) && IsLow(Units(t)[1]) && Units(t)[2..] == Units(t[1..])
    ensures IsLow(Units(t)[0]) <==> IsLow(t[0])
  {
    var more := Units(t[1..]);
    assert t[0] < 0x10000 ==> Units(t) == [t[0]] + more;
    if t[0] >= 0x10000 {
      var high, low := 0xd800 + (t[0] - 0x10000) / 0x400, 0xdc00 + (t[0] - 0x10000) % 0x400;
      assert Units(t) == [high, low] + more && IsHigh(high);
    }
  }

  /** A text is recovered from its units exactly when it holds no surrogate pair written as two code
      points; lone surrogates do come back. */
  lemma {:induction false} UnitsReadBack(t: Text)
    ensures FromUnits(Units(t)) == t <==> NoPair(t)
  {
    if t != [] {
      UnitsStart(t);
      UnitsReadBack(t[1..]);
      if |t| > 1 { UnitsStart(t[1..]); }
      if IsHigh(t[0]) && |t| > 1 && IsLow(t[1]) {
        assert FromUnits(Units(t))[0] >= 0x10000;
      } else {
        assert FromUnits(Units(t)) == [t[0]] + FromUnits(Units(t[1..]));
        assert t == [t[0]] + t[1..];
      }
    }
  }

  lemma {:induction false} UnitsOfDecoded(u: Text)
    requires IsUnits(u)
    ensures Units(FromUnits(u)) == u
  {
    if u != [] {
      if IsHigh(u[0]) && |u| >= 2 && IsLow(u[1]) {
        UnitsOfDecoded(u[2..]);
        assert u == [u[0], u[1]] + u[2..];
        var c := 0x10000 + (u[0] - 0xd800) * 0x400 + (u[1] - 0xdc00);
        assert FromUnits(u) == [c] + FromUnits(u[2..]);
        assert (c - 0x10000) / 0x400 == u[0] - 0xd800 && (c - 0x10000) % 0x400 == u[1] - 0xdc00;
      } else {
        UnitsOfDecoded(u[1..]);
        assert u == [u[0]] + u[1..];
      }
    }
  }

  /** And a text that does hold such a pair is always spelled like another one, which has the astral
      character the pair forms: the canonical text cannot tell the two apart. */
  lemma SurrogatePairsCollide(t: Text)
    requires !NoPair(t)
    ensures var other := FromUnits(Units(t));
            other != t && NoPair(other) && Dumps(Str(other)) == Dumps(Str(t)) && !Same(Str(other), Str(t))
  {
    var other := FromUnits(Units(t));
    UnitsReadBack(t);
    UnitsOfDecoded(Units(t));
    UnitsReadBack(other);
  }

  lemma SurrogatesCollide()
    ensures Dumps(Str([0xd800, 0xdc00])) == Dumps(Str([0x10000]))
  {
    var t := [0xd800, 0xdc00];
    assert IsHigh(t[0]) && IsLow(t[1]);
    UnitsStart(t);
    UnitsStart(t[1..]);
    assert Units(t) == [0xd800, 0xdc00] == Units([0x10000]);
  }

  predicate PairFree(j: Json) {
    match j
    case Str(text) => NoPair(text)
    case Arr(items) => PairFreeItems(items)
    case Obj(members) => PairFreeMembers(members)
    case _ => true
  }

  predicate PairFreeItems(items: Items) {
    items.Item? ==> PairFree(items.head) && PairFreeItems(items.tail)
  }

  predicate PairFreeMembers(m: Members) {
    m.Member? ==> NoPair(m.key) && PairFree(m.value) && PairFreeMembers(m.tail)
  }

  function InUnitsOf(j: Json): (r: Json)
    ensures InUnits(r)
  {
    match j
    case Str(text) => Str(Units(text))
    case Arr(items) => Arr(UnitItems(items))
    case Obj(members) => Obj(UnitMembers(members))
    case _ => j
  }

  function UnitItems(items: Items): (r: Items)
    ensures ItemsInUnits(r)
  {
    if items.NoItems? then NoItems else Item(InUnitsOf(items.head), UnitItems(items.tail))
  }

  function UnitMembers(m: Members): (r: Members)
    ensures MembersInUnits(r)
  {
    if m.NoMembers? then NoMembers else Member(Units(m.key), InUnitsOf(m.value), UnitMembers(m.tail))
  }

  lemma {:induction false} UnitsTellApart(a: Json, b: Json)
    requires PairFree(a) && PairFree(b) && InUnitsOf(a) == InUnitsOf(b)
    ensures a == b
    decreases a, 0
  {
    match (a, b)
    case (Str(s), Str(t)) => UnitsReadBack(s); UnitsReadBack(t);
    case (Arr(xs), Arr(ys)) => UnitItemsTellApart(xs, ys);
    case (Obj(m), Obj(n)) => UnitMembersTellApart(m, n);
    case _ =>
  }

  lemma {:induction false} UnitItemsTellApart(xs: Items, ys: Items)
    requires PairFreeItems(xs) && PairFreeItems(ys) && UnitItems(xs) == UnitItems(ys)
    ensures xs == ys
    decreases xs, 1
  {
    if xs.Item? && ys.Item? {
      UnitsTellApart(xs.head, ys.head);
      UnitItemsTellApart(xs.tail, ys.tail);
    }
  }

  lemma {:induction false} UnitMembersTellApart(m: Members, n: Members)
    requires PairFreeMembers(m) && PairFreeMembers(n) && UnitMembers(m) == UnitMembers(n)
    ensures m == n
    decreases m, 1
  {
    if m.Member? && n.Member? {
      UnitsReadBack(m.key);
      UnitsReadBack(n.key);
      UnitsTellApart(m.value, n.value);
      UnitMembersTellApart(m.tail, n.tail);
    }
  }

  lemma {:induction false} SortedIsPairFree(j: Json)
    requires PairFree(j)
    ensures PairFree(Sorted(j))
    decreases j, 0
  {
    match j
    case Arr(items) => SortedItemsArePairFree(items);
    case Obj(members) => SortedMembersArePairFree(members);
    case _ =>
  }

  lemma {:induction false} SortedItemsArePairFree(items: Items)
    requires PairFreeItems(items)
    ensures PairFreeItems(SortedItems(items))
    decreases items, 1
  {
    if items.Item? {
      SortedIsPairFree(items.head);
      SortedItemsArePairFree(items.tail);
    }
  }

  lemma {:induction false} SortedMembersArePairFree(m: Members)
    requires PairFreeMembers(m)
    ensures PairFreeMembers(SortedMembers(m))
    decreases m, 1
  {
    if m.Member? {
      SortedIsPairFree(m.value);
      SortedMembersArePairFree(m.tail);
      InsertIsPairFree(m.key, Sorted(m.value), SortedMembers(m.tail));
    }
  }

  lemma {:induction false} InsertIsPairFree(key: Text, value: Json, m: Members)
    requires NoPair(key) && PairFree(value) && PairFreeMembers(m)
    ensures PairFreeMembers(Insert(key, value, m))
  {
    if m.Member? { InsertIsPairFree(key, value, m.tail); }
  }

  // ---- The fingerprint --------------------------------------------------------------------------

  /** json.dumps with sorted keys, no spaces, ASCII only. */
  function Dumps(j: Json): string {
    Encode(InUnitsOf(Sorted(j)))
  }

  predicate Payload(j: Json) {
    PairFree(j) && DistinctKeys(j)
  }

  /** Equal canonical texts mean equal payloads, and the order keys were inserted in never matters. */
  lemma DumpsExactlyWhenSame(a: Json, b: Json)
    requires Payload(a) && Payload(b)
    ensures Dumps(a) == Dumps(b) <==> Same(a, b)
  {
    SortedIsPairFree(a);
    SortedIsPairFree(b);
    SortedExactlyWhenSame(a, b);
    if Dumps(a) == Dumps(b) {
      EncodingIsInjective(InUnitsOf(Sorted(a)), InUnitsOf(Sorted(b)));
      UnitsTellApart(Sorted(a), Sorted(b));
    }
  }

  function Ascii(s: string): (t: Text)
    requires forall i | 0 <= i < |s| :: s[i] < '\U{7f}'
    ensures NoPair(t) && |t| == |s|
    ensures forall i | 0 <= i < |s| :: t[i] == s[i] as int
  {
    seq(|s|, i requires 0 <= i < |s| => s[i] as int)
  }

  const VERSION_PREFIX := "fp-1"

  function VersionKey(): Text { Ascii("version") }
  function InputsKey(): Text { Ascii("inputs") }
  function RulesetKey(): Text { Ascii("ruleset") }
  function OutputsKey(): Text { Ascii("outputs") }
  function FeesKey(): Text { Ascii("fee_schedule_version") }
  function MethodKey(): Text { Ascii("apr_method_version") }

  function Ruleset(fees: Text, rules: Text): Members {
    Member(FeesKey(), Str(fees), Member(MethodKey(), Str(rules), NoMembers))
  }

  function PayloadOf(inputs: Json, fees: Text, rules: Text, outputs: Json): Json {
    Obj(Member(VersionKey(), Str(Ascii(VERSION_PREFIX)),
        Member(InputsKey(), inputs,
        Member(RulesetKey(), Obj(Ruleset(fees, rules)),
        Member(OutputsKey(), outputs, NoMembers)))))
  }

  lemma KeysDiffer()
    ensures VersionKey() != InputsKey() && VersionKey() != RulesetKey() && VersionKey() != OutputsKey()
    ensures InputsKey() != RulesetKey() && InputsKey() != OutputsKey() && RulesetKey() != OutputsKey()
    ensures OutputsKey() != RulesetKey() && OutputsKey() != InputsKey() && OutputsKey() != VersionKey()
    ensures RulesetKey() != InputsKey() && RulesetKey() != VersionKey() && InputsKey() != VersionKey()
    ensures FeesKey() != MethodKey() && MethodKey() != FeesKey()
  {
    assert VersionKey()[0] == 'v' as int && InputsKey()[0] == 'i' as int &&
           RulesetKey()[0] == 'r' as int && OutputsKey()[0] == 'o' as int;
    assert FeesKey()[0] == 'f' as int && MethodKey()[0] == 'a' as int;
  }

  /** Looking up a key that is not the first one. */
  lemma GetPast(m: Members, key: Text)
    requires m.Member? && m.key != key
    ensures Get(m, key) == Get(m.tail, key)
  {
  }

  lemma TwoMembers(k1: Text, v1: Json, k2: Text, v2: Json)
    requires k1 != k2
    ensures var m := Member(k1, v1, Member(k2, v2, NoMembers));
            && Get(m, k1) == Some(v1) && Get(m, k2) == Some(v2)
            && (forall key :: key != k1 && key != k2 ==> Get(m, key) == None)
            && (Payload(v1) && Payload(v2) && NoPair(k1) && NoPair(k2) ==> Payload(Obj(m)))
  {
    var last := Member(k2, v2, NoMembers);
    var m := Member(k1, v1, last);
    forall key | key != k1 && key != k2 ensures Get(m, key) == None {
      GetPast(m, key);
    }
    assert Get(last, k1) == None;
    assert Payload(v2) && NoPair(k2) ==> Payload(Obj(last));
  }

  lemma FourMembers(k1: Text, v1: Json, k2: Text, v2: Json, k3: Text, v3: Json, k4: Text, v4: Json)
    requires k1 != k2 && k1 != k3 && k1 != k4 && k2 != k3 && k2 != k4 && k3 != k4
    ensures var m := Member(k1, v1, Member(k2, v2, Member(k3, v3, Member(k4, v4, NoMembers))));
            && Get(m, k1) == Some(v1) && Get(m, k2) == Some(v2) && Get(m, k3) == Some(v3) && Get(m, k4) == Some(v4)
            && (forall key :: key != k1 && key != k2 && key != k3 && key != k4 ==> Get(m, key) == None)
            && (NoPair(k1) && NoPair(k2) && NoPair(k3) && NoPair(k4) ==>
                  Payload(v1) && Payload(v2) && Payload(v3) && Payload(v4) ==> Payload(Obj(m)))
  {
    var tail := Member(k3, v3, Member(k4, v4, NoMembers));
    var rest := Member(k2, v2, tail);
    var m := Member(k1, v1, rest);
    TwoMembers(k3, v3, k4, v4);
    GetPast(rest, k1);
    GetPast(m, k2);
    GetPast(m, k3);
    GetPast(rest, k3);
    GetPast(m, k4);
    GetPast(rest, k4);
    forall key | key != k1 && key != k2 && key != k3 && key != k4 ensures Get(m, key) == None {
      GetPast(m, key);
      GetPast(rest, key);
    }
    assert Get(tail, k1) == None && Get(tail, k2) == None;
    assert Payload(Obj(tail)) && Payload(v2) && NoPair(k2) ==> Payload(Obj(rest));
  }

  lemma PayloadIsWellFormed(inputs: Json, fees: Text, rules: Text, outputs: Json)
    requires Payload(inputs) && Payload(outputs) && NoPair(fees) && NoPair(rules)
    ensures Payload(PayloadOf(inputs, fees, rules, outputs))
  {
    KeysDiffer();
    TwoMembers(FeesKey(), Str(fees), MethodKey(), Str(rules));
    FourMembers(VersionKey(), Str(Ascii(VERSION_PREFIX)), InputsKey(), inputs,
                RulesetKey(), Obj(Ruleset(fees, rules)), OutputsKey(), outputs);
  }

  lemma RulesetsSame(fees: Text, rules: Text, fees': Text, rules': Text)
    ensures Same(Obj(Ruleset(fees, rules)), Obj(Ruleset(fees', rules'))) <==> fees == fees' && rules == rules'
  {
    KeysDiffer();
    var m, n := Ruleset(fees, rules), Ruleset(fees', rules');
    TwoMembers(FeesKey(), Str(fees), MethodKey(), Str(rules));
    TwoMembers(FeesKey(), Str(fees'), MethodKey(), Str(rules'));
    assert SameAt(m, n, FeesKey()) <==> fees == fees';
    assert SameAt(m, n, MethodKey()) <==> rules == rules';
    assert forall key :: key != FeesKey() && key != MethodKey() ==> SameAt(m, n, key);
  }

  lemma FourMembersSame(k1: Text, v1: Json, w1: Json, k2: Text, v2: Json, w2: Json,
                        k3: Text, v3: Json, w3: Json, k4: Text, v4: Json, w4: Json)
    requires k1 != k2 && k1 != k3 && k1 != k4 && k2 != k3 && k2 != k4 && k3 != k4
    ensures Same(Obj(Member(k1, v1, Member(k2, v2, Member(k3, v3, Member(k4, v4, NoMembers))))),
                 Obj(Member(k1, w1, Member(k2, w2, Member(k3, w3, Member(k4, w4, NoMembers))))))
            <==> Same(v1, w1) && Same(v2, w2) && Same(v3, w3) && Same(v4, w4)
  {
    var m := Member(k1, v1, Member(k2, v2, Member(k3, v3, Member(k4, v4, NoMembers))));
    var n := Member(k1, w1, Member(k2, w2, Member(k3, w3, Member(k4, w4, NoMembers))));
    FourMembers(k1, v1, k2, v2, k3, v3, k4, v4);
    FourMembers(k1, w1, k2, w2, k3, w3, k4, w4);
    assert SameAt(m, n, k1) <==> Same(v1, w1);
    assert SameAt(m, n, k2) <==> Same(v2, w2);
    assert SameAt(m, n, k3) <==> Same(v3, w3);
    assert SameAt(m, n, k4) <==> Same(v4, w4);
    assert forall key :: key != k1 && key != k2 && key != k3 && key != k4 ==> SameAt(m, n, key);
  }

  lemma PayloadsSame(inputs: Json, fees: Text, rules: Text, outputs: Json,
                     inputs': Json, fees': Text, rules': Text, outputs': Json)
    ensures Same(PayloadOf(inputs, fees, rules, outputs), PayloadOf(inputs', fees', rules', outputs')) <==>
            Same(inputs, inputs') && fees == fees' && rules == rules' && Same(outputs, outputs')
  {
    KeysDiffer();
    RulesetsSame(fees, rules, fees', rules');
    var version := Str(Ascii(VERSION_PREFIX));
    FourMembersSame(VersionKey(), version, version, InputsKey(), inputs, inputs',
                    RulesetKey(), Obj(Ruleset(fees, rules)), Obj(Ruleset(fees', rules')),
                    OutputsKey(), outputs, outputs');
  }

  /** None where the service raises because a float was met. */
  function ComputeFingerprint(sha: string -> string, inputs: Value, fees: Text, rules: Text,
                              outputs: Value): Option<string> {
    var i, o := Canonical(inputs), Canonical(outputs);
    if i.None? || o.None? then None
    else Some(VERSION_PREFIX + ":" + sha(Dumps(PayloadOf(i.value, fees, rules, o.value))))
  }

  /** Under a digest that does not collide, two disclosures share a fingerprint exactly when they
      agree on inputs and outputs (up to the order of their keys) and on both ruleset versions. */
  lemma FingerprintsAgreeExactly(sha: string -> string, inputs: Value, fees: Text, rules: Text, outputs: Value,
                                 inputs': Value, fees': Text, rules': Text, outputs': Value)
    requires forall s, t | sha(s) == sha(t) :: s == t
    requires NoPair(fees) && NoPair(rules)
    requires NoPair(fees') && NoPair(rules')
    requires Canonical(inputs).Some? && Payload(Canonical(inputs).value)
    requires Canonical(outputs).Some? && Payload(Canonical(outputs).value)
    requires Canonical(inputs').Some? && Payload(Canonical(inputs').value)
    requires Canonical(outputs').Some? && Payload(Canonical(outputs').value)
    ensures ComputeFingerprint(sha, inputs, fees, rules, outputs) ==
            ComputeFingerprint(sha, inputs', fees', rules', outputs') <==>
            && Same(Canonical(inputs).value, Canonical(inputs').value) && fees == fees' && rules == rules'
            && Same(Canonical(outputs).value, Canonical(outputs').value)
  {
    var p := PayloadOf(Canonical(inputs).value, fees, rules, Canonical(outputs).value);
    var q := PayloadOf(Canonical(inputs').value, fees', rules', Canonical(outputs').value);
    PayloadIsWellFormed(Canonical(inputs).value, fees, rules, Canonical(outputs).value);
    PayloadIsWellFormed(Canonical(inputs').value, fees', rules', Canonical(outputs').value);
    DumpsExactlyWhenSame(p, q);
    PayloadsSame(Canonical(inputs).value, fees, rules, Canonical(outputs).value,
                 Canonical(inputs').value, fees', rules', Canonical(outputs').value);
    Prefixed(sha(Dumps(p)), sha(Dumps(q)));
  }

  lemma Prefixed(s: string, t: string)
    ensures VERSION_PREFIX + ":" + s == VERSION_PREFIX + ":" + t <==> s == t
  {
    var head := VERSION_PREFIX + ":";
    assert (head + s)[|head|..] == s && (head + t)[|head|..] == t;
  }
}
