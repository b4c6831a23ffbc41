/** Python's `str.strip`, `split`, `partition`, `join` and `lower` on ASCII text. */
module Strings {

  /** The ASCII characters Python's `str.strip` removes. */
  predicate IsSpace(c: char) {
    c == ' ' || '\U{9}' <= c <= '\U{d}' || '\U{1c}' <= c <= '\U{1f}'
  }

  function LeftStrip(s: string): string {
    if s != "" && IsSpace(s[0]) then LeftStrip(s[1..]) else s
  }

  function RightStrip(s: string): string {
    if s != "" && IsSpace(s[|s| - 1]) then RightStrip(s[..|s| - 1]) else s
  }

  function Strip(s: string): string {
    RightStrip(LeftStrip(s))
  }

  predicate Trimmed(s: string) {
    s != "" ==> !IsSpace(s[0]) && !IsSpace(s[|s| - 1])
  }

  function Lower(c: char): char {
    if 'A' <= c <= 'Z' then (c as int + 32) as char else c
  }

  function Split(s: string, sep: char): (parts: seq<string>)
    ensures parts != []
  {
    if s == "" then [""]
    else
      var rest := Split(s[1..], sep);
      if s[0] == sep then [""] + rest else [[s[0]] + rest[0]] + rest[1..]
  }

  /** `before`, whether the separator occurs, and what follows its first occurrence. */
  datatype Parts = Parts(before: string, found: bool, after: string)

  function Partition(s: string, sep: char): Parts {
    if s == "" then Parts("", false, "")
    else if s[0] == sep then Parts("", true, s[1..])
    else var p := Partition(s[1..], sep); p.(before := [s[0]] + p.before)
  }

  function Join(parts: seq<string>, sep: char): string {
    if parts == [] then "" else if |parts| == 1 then parts[0] else parts[0] + [sep] + Join(parts[1..], sep)
  }

  /** Concatenation regrouped to the right; stated on bare sequences so that callers' encoders stay
      folded. */
  lemma Regroup<T>(a: seq<T>, b: seq<T>, c: seq<T>)
    ensures a + b + c == a + (b + c)
  {
  }

  lemma StripKeepsTrimmed(s: string)
    requires Trimmed(s)
    ensures Strip(s) == s
  {
  }

  lemma {:induction false} PartitionAtFirst(a: string, b: string, sep: char)
    requires sep !in a
    ensures Partition(a + [sep] + b, sep) == Parts(a, true, b)
  {
    if a != "" {
      assert (a + [sep] + b)[1..] == a[1..] + [sep] + b;
      PartitionAtFirst(a[1..], b, sep);
    } else {
      assert (a + [sep] + b)[1..] == b;
    }
  }

  lemma {:induction false} PartitionPieces(s: string, sep: char)
    ensures sep !in Partition(s, sep).before
    ensures s == if Partition(s, sep).found then Partition(s, sep).before + [sep] + Partition(s, sep).after
                 else Partition(s, sep).before
  {
    if s != "" && s[0] != sep { PartitionPieces(s[1..], sep); }
  }

  lemma {:induction false} SplitOne(a: string, sep: char)
    requires sep !in a
    ensures Split(a, sep) == [a]
  {
    if a != "" {
      SplitOne(a[1..], sep);
      assert [a[0]] + a[1..] == a;
    }
  }

  lemma {:induction false} SplitFirst(a: string, b: string, sep: char)
    requires sep !in a
    ensures Split(a + [sep] + b, sep) == [a] + Split(b, sep)
  {
    if a != "" {
      assert (a + [sep] + b)[1..] == a[1..] + [sep] + b;
      SplitFirst(a[1..], b, sep);
      assert [a[0]] + a[1..] == a;
      assert ([a[1..]] + Split(b, sep))[1..] == Split(b, sep);
    } else {
      assert (a + [sep] + b)[1..] == b;
    }
  }

  lemma {:induction false} SplitUndoesJoin(parts: seq<string>, sep: char)
    requires parts != [] && forall i | 0 <= i < |parts| :: sep !in parts[i]
    ensures Split(Join(parts, sep), sep) == parts
  {
    if |parts| == 1 {
      SplitOne(parts[0], sep);
    } else {
      SplitUndoesJoin(parts[1..], sep);
      SplitFirst(parts[0], Join(parts[1..], sep), sep);
      assert parts == [parts[0]] + parts[1..];
    }
  }

  lemma {:induction false} SplitHasNoSeparator(s: string, sep: char)
    ensures forall p | p in Split(s, sep) :: sep !in p
  {
    if s != "" {
      SplitHasNoSeparator(s[1..], sep);
      var rest := Split(s[1..], sep);
      assert rest[0] in rest;
      assert forall p | p in rest[1..] :: p in rest;
    }
  }

  lemma {:induction false} LeftStripPieces(s: string)
    ensures forall c | c in LeftStrip(s) :: c in s
    ensures LeftStrip(s) != "" ==> !IsSpace(LeftStrip(s)[0])
  {
    if s != "" && IsSpace(s[0]) {
      LeftStripPieces(s[1..]);
      assert forall c | c in s[1..] :: c in s;
    }
  }

  lemma {:induction false} RightStripPieces(s: string)
    ensures forall c | c in RightStrip(s) :: c in s
    ensures RightStrip(s) != "" ==> !IsSpace(RightStrip(s)[|RightStrip(s)| - 1]) && RightStrip(s)[0] == s[0]
  {
    if s != "" && IsSpace(s[|s| - 1]) {
      RightStripPieces(s[..|s| - 1]);
      assert forall c | c in s[..|s| - 1] :: c in s;
    }
  }

  lemma StripPieces(s: string)
    ensures Trimmed(Strip(s))
    ensures forall c | c in Strip(s) :: c in s
  {
    LeftStripPieces(s);
    RightStripPieces(LeftStrip(s));
  }
}
