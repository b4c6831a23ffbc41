/** The compact ASCII encoding of JSON values (sections 4 to 7 of RFC 8259) and a parser that inverts
  it. Strings are sequences of 16-bit code units here, the code points below 0x10000; `Fingerprint`
  maps text to units. */
module Json {
  import opened Strings
  import opened Texts
  import opened Wrappers

  datatype Json =
    | Null
    | Bool(b: bool)
    | Int(n: int)
    | Str(text: Text)
    | Arr(items: Items)
    | Obj(members: Members)

  datatype Items = NoItems | Item(head: Json, tail: Items)

  datatype Members = NoMembers | Member(key: Text, value: Json, tail: Members)

  predicate IsUnits(t: Text) {
    forall i | 0 <= i < |t| :: t[i] < 0x10000
  }

  /** All strings, keys included, are code units. */
  predicate InUnits(j: Json) {
    match j
    case Str(text) => IsUnits(text)
    case Arr(items) => ItemsInUnits(items)
    case Obj(members) => MembersInUnits(members)
    case _ => true
  }

  predicate ItemsInUnits(items: Items) {
    items.Item? ==> InUnits(items.head) && ItemsInUnits(items.tail)
  }

  predicate MembersInUnits(m: Members) {
    m.Member? ==> IsUnits(m.key) && InUnits(m.value) && MembersInUnits(m.tail)
  }

  // ---- Encoding -------------------------------------------------------------------------------

  function HexDigit(d: int): char
    requires 0 <= d < 16
  {
    if d < 10 then (d + 48) as char else (d + 87) as char
  }

  function Hex4(u: int): string
    requires 0 <= u < 0x10000
  {
    var a := u / 16;
    var b := a / 16;
    [HexDigit(b / 16), HexDigit(b % 16), HexDigit(a % 16), HexDigit(u % 16)]
  }

  function EncodeUnit(u: int): string
    requires 0 <= u < 0x10000
  {
    if u == 0x22 then ['\\', '"']
    else if u == 0x5c then ['\\', '\\']
    else if u == 10 then ['\\', 'n']
    else if u == 13 then ['\\', 'r']
    else if u == 9 then ['\\', 't']
    else if u == 8 then ['\\', 'b']
    else if u == 12 then ['\\', 'f']
    else if 0x20 <= u <= 0x7e then [u as char]
    else ['\\', 'u'] + Hex4(u)
  }

  function EncodeUnits(t: Text): string
    requires IsUnits(t)
  {
    if t == [] then "" else EncodeUnit(t[0]) + EncodeUnits(t[1..])
  }

  function EncodeString(t: Text): string
    requires IsUnits(t)
  {
    ['"'] + EncodeUnits(t) + ['"']
  }

  function EncodeNat(n: nat): string {
    if n < 10 then [(n + 48) as char] else EncodeNat(n / 10) + [(n % 10 + 48) as char]
  }

  function EncodeInt(n: int): string {
    if n < 0 then ['-'] + EncodeNat(-n) else EncodeNat(n)
  }

  function Encode(j: Json): string
    requires InUnits(j)
  {
    match j
    case Null => "null"
    case Bool(b) => if b then "true" else "false"
    case Int(n) => EncodeInt(n)
    case Str(text) => EncodeString(text)
    case Arr(items) => if items.NoItems? then "[]" else ['['] + EncodeItems(items)
    case Obj(members) => if members.NoMembers? then "{}" else ['{'] + EncodeMembers(members)
  }

  /** A non-empty list of items and the closing bracket. */
  function EncodeItems(items: Items): string
    requires items.Item? && ItemsInUnits(items)
  {
    Encode(items.head) + (if items.tail.NoItems? then "]" else [','] + EncodeItems(items.tail))
  }

  function EncodeMembers(m: Members): string
    requires m.Member? && MembersInUnits(m)
  {
    EncodeString(m.key) + [':'] + Encode(m.value) + (if m.tail.NoMembers? then "}" else [','] + EncodeMembers(m.tail))
  }

  // ---- Parsing --------------------------------------------------------------------------------

  datatype Read<+T> = Read(value: T, rest: string)

  predicate IsDigit(c: char) {
    '0' <= c <= '9'
  }

  function HexValue(c: char): (d: int)
    ensures d < 16
  {
    if '0' <= c <= '9' then c as int - 48
    else if 'a' <= c <= 'f' then c as int - 87
    else -1
  }

  function ReadUnit(s: string): (r: Option<Read<CodePoint>>)
    ensures r.Some? ==> |r.value.rest| < |s|
  {
    if s == "" then None
    else if s[0] != '\\' then
      if ' ' <= s[0] <= '~' then Some(Read(s[0] as int, s[1..])) else None
    else if |s| < 2 then None
    else if s[1] == '"' then Some(Read(0x22, s[2..]))
    else if s[1] == '\\' then Some(Read(0x5c, s[2..]))
    else if s[1] == 'n' then Some(Read(10, s[2..]))
    else if s[1] == 'r' then Some(Read(13, s[2..]))
    else if s[1] == 't' then Some(Read(9, s[2..]))
    else if s[1] == 'b' then Some(Read(8, s[2..]))
    else if s[1] == 'f' then Some(Read(12, s[2..]))
    else if s[1] == 'u' && |s| >= 6 && HexValue(s[2]) >= 0 && HexValue(s[3]) >= 0
            && HexValue(s[4]) >= 0 && HexValue(s[5]) >= 0 then
      Some(Read(4096 * HexValue(s[2]) + 256 * HexValue(s[3]) + 16 * HexValue(s[4]) + HexValue(s[5]), s[6..]))
    else None
  }

  /** The rest of a string, after its opening quote. */
  function ReadUnits(s: string): (r: Option<Read<Text>>)
    ensures r.Some? ==> |r.value.rest| < |s|
    decreases |s|
  {
    if s == "" then None
    else if s[0] == '"' then Some(Read([], s[1..]))
    else
      var first := ReadUnit(s);
      if first.None? then None
      else
        var more := ReadUnits(first.value.rest);
        if more.None? then None else Some(Read([first.value.value] + more.value.value, more.value.rest))
  }

  function ReadString(s: string): (r: Option<Read<Text>>)
    ensures r.Some? ==> |r.value.rest| < |s|
  {
    if s != "" && s[0] == '"' then ReadUnits(s[1..]) else None
  }

  /** Digits continuing a number whose value so far is `sofar`. */
  function ReadDigits(s: string, sofar: nat): (r: Read<nat>)
    ensures |r.rest| <= |s|
  {
    if s != "" && IsDigit(s[0]) then ReadDigits(s[1..], 10 * sofar + (s[0] as int - '0' as int)) else Read(sofar, s)
  }

  function AsArray(items: Option<Read<Items>>): Option<Read<Json>> {
    if items.None? then None else Some(Read(Arr(items.value.value), items.value.rest))
  }

  function AsObject(members: Option<Read<Members>>): Option<Read<Json>> {
    if members.None? then None else Some(Read(Obj(members.value.value), members.value.rest))
  }

  function Parse(s: string): (r: Option<Read<Json>>)
    ensures r.Some? ==> |r.value.rest| < |s|
    decreases |s|, 0
  {
    if s == "" then None
    else if s[0] == 'n' then if |s| >= 4 then Some(Read(Null, s[4..])) else None
    else if s[0] == 't' then if |s| >= 4 then Some(Read(Bool(true), s[4..])) else None
    else if s[0] == 'f' then if |s| >= 5 then Some(Read(Bool(false), s[5..])) else None
    else if s[0] == '-' then var d := ReadDigits(s[1..], 0); var v: int := d.value; Some(Read(Int(-v), d.rest))
    else if IsDigit(s[0]) then var d := ReadDigits(s[1..], s[0] as int - '0' as int); Some(Read(Int(d.value), d.rest))
    else if s[0] == '"' then
      var t := ReadUnits(s[1..]);
      if t.None? then None else Some(Read(Str(t.value.value), t.value.rest))
    else if s[0] == '[' then
      if |s| >= 2 && s[1] == ']' then Some(Read(Arr(NoItems), s[2..]))
      else AsArray(ParseItems(s[1..]))
    else if s[0] == '{' then
      if |s| >= 2 && s[1] == '}' then Some(Read(Obj(NoMembers), s[2..]))
      else AsObject(ParseMembers(s[1..]))
    else None
  }

  /** One item and the items behind it, up to the closing bracket. */
  function ParseItems(s: string): (r: Option<Read<Items>>)
    ensures r.Some? ==> |r.value.rest| < |s|
    decreases |s|, 1
  {
    var head := Parse(s);
    if head.None? || head.value.rest == "" then None
    else if head.value.rest[0] == ']' then Some(Read(Item(head.value.value, NoItems), head.value.rest[1..]))
    else if head.value.rest[0] == ',' then
      var tail := ParseItems(head.value.rest[1..]);
      if tail.None? then None else Some(Read(Item(head.value.value, tail.value.value), tail.value.rest))
    else None
  }

  /** One member and the members behind it, up to the closing brace. */
  function ParseMembers(s: string): (r: Option<Read<Members>>)
    ensures r.Some? ==> |r.value.rest| < |s|
    decreases |s|, 1
  {
    var key := ReadString(s);
    if key.None? || key.value.rest == "" || key.value.rest[0] != ':' then None
    else
      var value := Parse(key.value.rest[1..]);
      if value.None? || value.value.rest == "" then None
      else if value.value.rest[0] == '}' then
        Some(Read(Member(key.value.value, value.value.value, NoMembers), value.value.rest[1..]))
      else if value.value.rest[0] == ',' then
        var tail := ParseMembers(value.value.rest[1..]);
        if tail.None? then None
        else Some(Read(Member(key.value.value, value.value.value, tail.value.value), tail.value.rest))
      else None
  }

  // ---- The parser inverts the encoder -----------------------------------------------------------

  lemma HexDigitReadsBack(d: int)
    requires 0 <= d < 16
    ensures HexValue(HexDigit(d)) == d
  {
  }

  lemma HexReadsBack(u: int)
    requires 0 <= u < 0x10000
    ensures var h := Hex4(u);
            && HexValue(h[0]) >= 0 && HexValue(h[1]) >= 0 && HexValue(h[2]) >= 0 && HexValue(h[3]) >= 0
            && 4096 * HexValue(h[0]) + 256 * HexValue(h[1]) + 16 * HexValue(h[2]) + HexValue(h[3]) == u
  {
    var a := u / 16;
    var b := a / 16;
    HexDigitReadsBack(b / 16);
    HexDigitReadsBack(b % 16);
    HexDigitReadsBack(a % 16);
    HexDigitReadsBack(u % 16);
  }

  lemma EscapeReadsBack(h: string, rest: string)
    requires |h| == 4 && HexValue(h[0]) >= 0 && HexValue(h[1]) >= 0 && HexValue(h[2]) >= 0 && HexValue(h[3]) >= 0
    ensures ReadUnit(['\\', 'u'] + h + rest) ==
            Some(Read(4096 * HexValue(h[0]) + 256 * HexValue(h[1]) + 16 * HexValue(h[2]) + HexValue(h[3]), rest))
  {
    var s := ['\\', 'u'] + h + rest;
    assert s[2] == h[0] && s[3] == h[1] && s[4] == h[2] && s[5] == h[3] && s[6..] == rest;
  }

  lemma UnitReadsBack(u: CodePoint, rest: string)
    requires u < 0x10000
    ensures ReadUnit(EncodeUnit(u) + rest) == Some(Read(u, rest))
    ensures EncodeUnit(u) != "" && EncodeUnit(u)[0] != '"'
  {
    var code := EncodeUnit(u);
    if |code| == 6 {
      HexReadsBack(u);
      EscapeReadsBack(Hex4(u), rest);
    } else if |code| == 2 {
      assert (code + rest)[2..] == rest && (code + rest)[1] == code[1];
    } else {
      assert (code + rest)[1..] == rest;
    }
  }

  lemma {:induction false} UnitsReadBack(t: Text, rest: string)
    requires IsUnits(t)
    ensures ReadUnits(EncodeUnits(t) + (['"'] + rest)) == Some(Read(t, rest))
  {
    var quoted := ['"'] + rest;
    if t == [] {
      assert EncodeUnits(t) + quoted == quoted;
    } else {
      var code, more := EncodeUnit(t[0]), EncodeUnits(t[1..]) + quoted;
      UnitReadsBack(t[0], more);
      UnitsReadBack(t[1..], rest);
      OneMoreUnit(code, t[0], more, t[1..], rest);
      Regroup(code, EncodeUnits(t[1..]), quoted);
      assert t == [t[0]] + t[1..];
    }
  }

  lemma OneMoreUnit(code: string, u: CodePoint, more: string, t: Text, rest: string)
    requires code != "" && code[0] != '"' && ReadUnit(code + more) == Some(Read(u, more))
    requires ReadUnits(more) == Some(Read(t, rest))
    ensures ReadUnits(code + more) == Some(Read([u] + t, rest))
  {
    assert (code + more)[0] == code[0];
  }

  lemma Quoted(body: string, rest: string)
    ensures (['"'] + body + ['"'] + rest)[1..] == body + (['"'] + rest)
    ensures (['"'] + body + ['"'] + rest)[0] == '"'
  {
  }

  lemma StringReadsBack(t: Text, rest: string)
    requires IsUnits(t)
    ensures ReadString(EncodeString(t) + rest) == Some(Read(t, rest))
    ensures EncodeString(t)[0] == '"'
  {
    UnitsReadBack(t, rest);
    Quoted(EncodeUnits(t), rest);
  }

  predicate EndsNumber(rest: string) {
    rest == "" || !IsDigit(rest[0])
  }

  predicate Digits(a: string) {
    forall i | 0 <= i < |a| :: IsDigit(a[i])
  }

  function Fold(a: string, sofar: nat): nat
    requires Digits(a)
  {
    if a == "" then sofar else Fold(a[1..], 10 * sofar + (a[0] as int - '0' as int))
  }

  lemma {:induction false} FoldAppend(a: string, c: char, sofar: nat)
    requires Digits(a) && IsDigit(c)
    ensures Digits(a + [c]) && Fold(a + [c], sofar) == 10 * Fold(a, sofar) + (c as int - '0' as int)
  {
    if a == "" {
      assert a + [c] == [c];
    } else {
      assert (a + [c])[1..] == a[1..] + [c];
      FoldAppend(a[1..], c, 10 * sofar + (a[0] as int - '0' as int));
    }
  }

  lemma {:induction false} NatFoldsBack(n: nat)
    ensures EncodeNat(n) != "" && Digits(EncodeNat(n)) && Fold(EncodeNat(n), 0) == n
  {
    if n >= 10 {
      NatFoldsBack(n / 10);
      FoldAppend(EncodeNat(n / 10), (n % 10 + 48) as char, 0);
    }
  }

  lemma {:induction false} DigitsRead(a: string, rest: string, sofar: nat)
    requires Digits(a) && EndsNumber(rest)
    ensures ReadDigits(a + rest, sofar) == Read(Fold(a, sofar), rest)
  {
    if a == "" {
      assert a + rest == rest;
    } else {
      assert (a + rest)[1..] == a[1..] + rest;
      DigitsRead(a[1..], rest, 10 * sofar + (a[0] as int - '0' as int));
    }
  }

  lemma NumberParses(s: string, m: nat, rest: string)
    requires s != "" && IsDigit(s[0]) && ReadDigits(s, 0) == Read(m, rest)
    ensures Parse(s) == Some(Read(Int(m), rest))
    ensures Parse(['-'] + s) == Some(Read(Int(-(m as int)), rest))
  {
    assert (['-'] + s)[1..] == s;
  }

  lemma IntReadsBack(n: int, rest: string)
    requires EndsNumber(rest)
    ensures Parse(EncodeInt(n) + rest) == Some(Read(Int(n), rest))
  {
    var m: nat := if n < 0 then -n else n;
    NatFoldsBack(m);
    DigitsRead(EncodeNat(m), rest, 0);
    NumberParses(EncodeNat(m) + rest, m, rest);
    Regroup(['-'], EncodeNat(m), rest);
  }

  lemma {:induction false} ValueReadsBack(j: Json, rest: string)
    requires InUnits(j) && EndsNumber(rest)
    ensures Parse(Encode(j) + rest) == Some(Read(j, rest))
    ensures Encode(j) != "" && Encode(j)[0] != ']'
    decreases j, 0
  {
    match j
    case Null => assert ("null" + rest)[4..] == rest;
    case Bool(b) =>
      assert ("true" + rest)[4..] == rest;
      assert ("false" + rest)[5..] == rest;
    case Int(n) =>
      IntReadsBack(n, rest);
      NatFoldsBack(if n < 0 then -n else n);
    case Str(text) =>
      StringReadsBack(text, rest);
    case Arr(items) =>
      if items.Item? {
        ItemsReadBack(items, rest);
        Headed('[', EncodeItems(items), rest);
        ArrayReads(Encode(j) + rest, items, rest);
      } else {
        assert ("[]" + rest)[2..] == rest;
      }
    case Obj(members) =>
      if members.Member? {
        MembersReadBack(members, rest);
        Headed('{', EncodeMembers(members), rest);
        ObjectReads(Encode(j) + rest, members, rest);
      } else {
        assert ("{}" + rest)[2..] == rest;
      }
  }

  lemma Headed(c: char, body: string, rest: string)
    requires body != ""
    ensures var s := [c] + body + rest;
            |s| >= 2 && s[0] == c && s[1] == body[0] && s[1..] == body + rest
  {
  }

  lemma ArrayReads(s: string, items: Items, rest: string)
    requires |s| >= 2 && s[0] == '[' && s[1] != ']' && ParseItems(s[1..]) == Some(Read(items, rest))
    ensures Parse(s) == Some(Read(Arr(items), rest))
  {
    assert Parse(s) == AsArray(ParseItems(s[1..]));
  }

  lemma ObjectReads(s: string, members: Members, rest: string)
    requires |s| >= 2 && s[0] == '{' && s[1] != '}' && ParseMembers(s[1..]) == Some(Read(members, rest))
    ensures Parse(s) == Some(Read(Obj(members), rest))
  {
    assert Parse(s) == AsObject(ParseMembers(s[1..]));
  }

  /** What follows the first item. */
  function AfterItem(items: Items, rest: string): string
    requires items.Item? && ItemsInUnits(items)
  {
    if items.tail.NoItems? then [']'] + rest else [','] + (EncodeItems(items.tail) + rest)
  }

  lemma ItemsShape(items: Items, rest: string)
    requires items.Item? && ItemsInUnits(items)
    ensures EncodeItems(items) + rest == Encode(items.head) + AfterItem(items, rest)
  {
    if items.tail.Item? {
      Regroup(Encode(items.head), [','] + EncodeItems(items.tail), rest);
      Regroup([','], EncodeItems(items.tail), rest);
    } else {
      Regroup(Encode(items.head), "]", rest);
    }
  }

  lemma {:induction false} ItemsReadBack(items: Items, rest: string)
    requires items.Item? && ItemsInUnits(items)
    ensures ParseItems(EncodeItems(items) + rest) == Some(Read(items, rest))
    ensures EncodeItems(items) != "" && EncodeItems(items)[0] != ']'
    decreases items, 1
  {
    var after := AfterItem(items, rest);
    ItemsShape(items, rest);
    ValueReadsBack(items.head, after);
    if items.tail.Item? {
      ItemsReadBack(items.tail, rest);
      assert after[1..] == EncodeItems(items.tail) + rest;
    }
    ItemReads(Encode(items.head) + after, items, after, rest);
    assert EncodeItems(items)[0] == Encode(items.head)[0];
  }

  lemma ItemReads(s: string, items: Items, after: string, rest: string)
    requires items.Item? && Parse(s) == Some(Read(items.head, after)) && after != ""
    requires if items.tail.NoItems? then after == [']'] + rest
             else after[0] == ',' && ParseItems(after[1..]) == Some(Read(items.tail, rest))
    ensures ParseItems(s) == Some(Read(items, rest))
  {
    assert items.tail.NoItems? ==> after[1..] == rest;
  }

  /** What follows the first member's value. */
  function AfterFirst(m: Members, rest: string): string
    requires m.Member? && MembersInUnits(m)
  {
    if m.tail.NoMembers? then ['}'] + rest else [','] + (EncodeMembers(m.tail) + rest)
  }

  lemma MembersShape(m: Members, rest: string)
    requires m.Member? && MembersInUnits(m)
    ensures EncodeMembers(m) + rest == EncodeString(m.key) + ([':'] + (Encode(m.value) + AfterFirst(m, rest)))
  {
    var key, value := EncodeString(m.key), Encode(m.value);
    if m.tail.Member? {
      var more := EncodeMembers(m.tail);
      RegroupMember(key, value, [','] + more, rest);
      Regroup([','], more, rest);
    } else {
      RegroupMember(key, value, "}", rest);
    }
  }

  lemma RegroupMember(key: string, value: string, last: string, rest: string)
    ensures key + [':'] + value + last + rest == key + ([':'] + (value + (last + rest)))
  {
  }

  lemma {:induction false} MembersReadBack(m: Members, rest: string)
    requires m.Member? && MembersInUnits(m)
    ensures ParseMembers(EncodeMembers(m) + rest) == Some(Read(m, rest))
    ensures EncodeMembers(m) != "" && EncodeMembers(m)[0] == '"'
    decreases m, 1
  {
    var after := AfterFirst(m, rest);
    MembersShape(m, rest);
    StringReadsBack(m.key, [':'] + (Encode(m.value) + after));
    ValueReadsBack(m.value, after);
    if m.tail.Member? {
      MembersReadBack(m.tail, rest);
      assert after[1..] == EncodeMembers(m.tail) + rest;
    }
    MemberReads(EncodeMembers(m) + rest, m, Encode(m.value) + after, after, rest);
    assert EncodeMembers(m)[0] == EncodeString(m.key)[0];
  }

  lemma MemberReads(s: string, m: Members, value: string, after: string, rest: string)
    requires m.Member? && ReadString(s) == Some(Read(m.key, [':'] + value))
    requires Parse(value) == Some(Read(m.value, after)) && after != ""
    requires if m.tail.NoMembers? then after == ['}'] + rest
             else after[0] == ',' && ParseMembers(after[1..]) == Some(Read(m.tail, rest))
    ensures ParseMembers(s) == Some(Read(m, rest))
  {
    assert ([':'] + value)[1..] == value;
    assert m.tail.NoMembers? ==> after[1..] == rest;
  }

  /** The inverse parser recovers every value from its encoding, consuming all of it. */
  lemma ParseInvertsEncode(j: Json)
    requires InUnits(j)
    ensures Parse(Encode(j)) == Some(Read(j, ""))
  {
    ValueReadsBack(j, "");
    assert Encode(j) + "" == Encode(j);
  }

  /** Hence the encoding is injective. */
  lemma EncodingIsInjective(a: Json, b: Json)
    requires InUnits(a) && InUnits(b) && Encode(a) == Encode(b)
    ensures a == b
  {
    ParseInvertsEncode(a);
    ParseInvertsEncode(b);
  }
}
