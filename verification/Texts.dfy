/** Python strings and their order. */
module Texts {

  /** A code point, lone surrogates included. */
  type CodePoint = c: int | 0 <= c < 0x110000

  type Text = seq<CodePoint>

  /** Python's order on strings: by code point, a prefix first. */
  predicate Less(a: Text, b: Text) {
    if b == [] then false
    else if a == [] then true
    else if a[0] != b[0] then a[0] < b[0]
    else Less(a[1..], b[1..])
  }

  lemma {:induction false} LessIsStrict(a: Text, b: Text)
    ensures !(Less(a, b) && Less(b, a)) && !Less(a, a)
    ensures Less(a, b) || Less(b, a) || a == b
  {
    if a != [] { LessIsStrict(a[1..], if b != [] then b[1..] else []); }
    if a != [] && b != [] && a[0] == b[0] {
      assert a == [a[0]] + a[1..] && b == [b[0]] + b[1..];
    }
  }

  lemma {:induction false} LessIsTransitive(a: Text, b: Text, c: Text)
    requires Less(a, b) && Less(b, c)
    ensures Less(a, c)
  {
    if a != [] && a[0] == b[0] && b[0] == c[0] {
      LessIsTransitive(a[1..], b[1..], c[1..]);
    }
  }
}
