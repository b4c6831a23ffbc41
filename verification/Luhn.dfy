/** The Luhn checksum (Annex B of ISO/IEC 7812-1) and the masker that hides card numbers written with
  separators. */
module Luhn {
  import opened Strings

  type Digit = d: int | 0 <= d <= 9

  // ---- Checksum -------------------------------------------------------------------------------

  /** What a digit adds to the total at an even or odd distance from the right. */
  function Share(d: Digit, odd: bool): int {
    if !odd then d else if 2 * d > 9 then 2 * d - 9 else 2 * d
  }

  /** Total of `ds` when its last digit stands `i` places from the right end of the number. */
  function Total(ds: seq<Digit>, i: nat): int {
    if ds == [] then 0 else Share(ds[|ds| - 1], i % 2 == 1) + Total(ds[..|ds| - 1], i + 1)
  }

  predicate Valid(ds: seq<Digit>) {
    Total(ds, 0) % 10 == 0
  }

  method LuhnValid(digits: seq<Digit>) returns (ok: bool)
    ensures ok == Valid(digits)
  {
    var total := 0;
    assert digits[..|digits|] == digits;
    for i := 0 to |digits|
      invariant total + Total(digits[..|digits| - i], i) == Total(digits, 0)
    {
      var rest := digits[..|digits| - i];
      var d: int := digits[|digits| - 1 - i];
      assert rest[..|rest| - 1] == digits[..|digits| - (i + 1)];
      if i % 2 == 1 {
        d := d * 2;
        if d > 9 {
          d := d - 9;
        }
      }
      total := total + d;
    }
    ok := total % 10 == 0;
  }

  /** The weight a position carries. */
  predicate OddPlace(ds: seq<Digit>, i: nat, k: nat)
    requires k < |ds|
  {
    (i + (|ds| - 1 - k)) % 2 == 1
  }

  lemma {:induction false} TotalAfterChange(ds: seq<Digit>, i: nat, k: nat, e: Digit)
    requires k < |ds|
    ensures Total(ds[k := e], i) == Total(ds, i) - Share(ds[k], OddPlace(ds, i, k)) + Share(e, OddPlace(ds, i, k))
  {
    var changed := ds[k := e];
    if k < |ds| - 1 {
      assert changed[..|ds| - 1] == ds[..|ds| - 1][k := e];
      TotalAfterChange(ds[..|ds| - 1], i + 1, k, e);
    } else {
      assert changed[..|ds| - 1] == ds[..|ds| - 1];
    }
  }

  /** Changing any one digit of a valid number, of any length, makes it invalid. */
  lemma SubstitutionIsDetected(ds: seq<Digit>, k: nat, e: Digit)
    requires Valid(ds) && k < |ds|
    ensures Valid(ds[k := e]) <==> e == ds[k]
  {
    TotalAfterChange(ds, 0, k, e);
    SharesDiffer(ds[k], e, OddPlace(ds, 0, k));
    Congruent(Total(ds, 0), Total(ds[k := e], 0));
  }

  lemma SharesDiffer(d: Digit, e: Digit, odd: bool)
    ensures (Share(d, odd) - Share(e, odd)) % 10 == 0 <==> d == e
  {
  }

  /** Swapping two neighbours of a valid number goes unnoticed exactly when they are equal or are 0
      and 9. */
  lemma SwapIsDetected(ds: seq<Digit>, k: nat)
    requires Valid(ds) && k + 1 < |ds|
    ensures Valid(ds[k := ds[k + 1]][k + 1 := ds[k]]) <==>
            ds[k] == ds[k + 1] || (ds[k] == 0 && ds[k + 1] == 9) || (ds[k] == 9 && ds[k + 1] == 0)
  {
    TotalAfterSwap(ds, k);
    SwapEffect(ds[k], ds[k + 1], OddPlace(ds, 0, k));
    Congruent(Total(ds, 0), Total(ds[k := ds[k + 1]][k + 1 := ds[k]], 0));
  }

  lemma TotalAfterSwap(ds: seq<Digit>, k: nat)
    requires k + 1 < |ds|
    ensures var a, b, odd := ds[k], ds[k + 1], OddPlace(ds, 0, k);
            Total(ds, 0) - Total(ds[k := b][k + 1 := a], 0) ==
                Share(a, odd) + Share(b, !odd) - Share(b, odd) - Share(a, !odd)
  {
    var once := ds[k := ds[k + 1]];
    TotalAfterChange(ds, 0, k, ds[k + 1]);
    TotalAfterChange(once, 0, k + 1, ds[k]);
    assert OddPlace(once, 0, k + 1) == !OddPlace(ds, 0, k);
  }

  lemma Congruent(x: int, y: int)
    requires x % 10 == 0
    ensures y % 10 == 0 <==> (x - y) % 10 == 0
  {
  }

  lemma SwapEffect(a: Digit, b: Digit, odd: bool)
    ensures (Share(a, odd) + Share(b, !odd) - Share(b, odd) - Share(a, !odd)) % 10 == 0 <==>
            a == b || (a == 0 && b == 9) || (a == 9 && b == 0)
  {
  }

  // ---- Text -----------------------------------------------------------------------------------

  predicate IsDigit(c: char) {
    '0' <= c <= '9'
  }

  function Digits(s: string): (r: string)
    ensures forall i | 0 <= i < |r| :: IsDigit(r[i])
  {
    if s == "" then "" else (if IsDigit(s[0]) then [s[0]] else "") + Digits(s[1..])
  }

  function Values(s: string): (ds: seq<Digit>)
    requires forall i | 0 <= i < |s| :: IsDigit(s[i])
    ensures |ds| == |s|
  {
    if s == "" then [] else assert IsDigit(s[0]); [(s[0] as int - '0' as int) as Digit] + Values(s[1..])
  }

  const MAX_SEPARATOR_RUN := 8
  const BULLET := '\U{2022}'

  function Bullets(n: nat): string {
    if n == 0 then "" else [BULLET] + Bullets(n - 1)
  }

  function MaskWithLast4(text: string): string {
    if |text| <= 4 then Bullets(|text|) else Bullets(|text| - 4) + text[|text| - 4..]
  }

  function RedactIfPan(raw: string): string {
    var digits := Digits(raw);
    if 13 <= |digits| <= 19 && Valid(Values(digits)) then MaskWithLast4(digits) + " (PAN)" else raw
  }

  /** Leading non-digits. */
  function Gap(s: string): (g: nat)
    ensures g <= |s|
    ensures g < |s| ==> IsDigit(s[g])
  {
    if s == "" || IsDigit(s[0]) then 0 else 1 + Gap(s[1..])
  }

  /** How many further digits, up to `limit`, the pattern picks up after its first one, each behind at
      most MAX_SEPARATOR_RUN separators. */
  function Picked(s: string, limit: nat): nat {
    if limit == 0 || Gap(s) > MAX_SEPARATOR_RUN || Gap(s) == |s| then 0
    else 1 + Picked(s[Gap(s) + 1..], limit - 1)
  }

  /** The characters those digits and separators take. */
  function Span(s: string, limit: nat): (n: nat)
    ensures n <= |s|
  {
    if limit == 0 || Gap(s) > MAX_SEPARATOR_RUN || Gap(s) == |s| then 0
    else Gap(s) + 1 + Span(s[Gap(s) + 1..], limit - 1)
  }

  /** Length of the match at the start of `s`, 0 when there is none: a digit and 12 to 18 more. */
  function MatchLength(s: string): (n: nat)
    ensures n <= |s|
  {
    if s != "" && IsDigit(s[0]) && Picked(s[1..], 18) >= 12 then 1 + Span(s[1..], 18) else 0
  }

  /** Leftmost, non-overlapping replacement. */
  function Replace(s: string): string
    decreases |s|
  {
    if s == "" then ""
    else
      var n := MatchLength(s);
      if n > 0 then RedactIfPan(s[..n]) + Replace(s[n..]) else [s[0]] + Replace(s[1..])
  }

  function MaskPanInValue(value: string): string {
    if |Digits(value)| < 13 then value else Replace(value)
  }

  // ---- What the masker does to a value holding one number -----------------------------------------

  /** After a digit, every further digit follows within the separator allowance. */
  predicate Close(s: string) {
    Gap(s) == |s| || (Gap(s) <= MAX_SEPARATOR_RUN && Close(s[Gap(s) + 1..]))
  }

  lemma {:induction false} DigitsSplit(a: string, b: string)
    ensures Digits(a + b) == Digits(a) + Digits(b)
  {
    if a == "" {
      assert a + b == b;
    } else {
      assert (a + b)[1..] == a[1..] + b;
      DigitsSplit(a[1..], b);
    }
  }

  lemma {:induction false} GapHasNoDigits(s: string)
    ensures Digits(s[..Gap(s)]) == ""
    ensures Gap(s) < |s| ==> Digits(s) == [s[Gap(s)]] + Digits(s[Gap(s) + 1..])
    ensures Gap(s) == |s| ==> Digits(s) == ""
  {
    if s != "" && !IsDigit(s[0]) {
      GapHasNoDigits(s[1..]);
      assert s[..Gap(s)][1..] == s[1..][..Gap(s[1..])];
      assert Gap(s) < |s| ==> s[Gap(s) + 1..] == s[1..][Gap(s[1..]) + 1..];
    }
  }

  /** `head` is what the pattern takes of a text: all its digits, and none is left after it. */
  ghost predicate TakenWhole(s: string, limit: nat, head: string, after: string) {
    && s == head + after && |head| == Span(s, limit)
    && Picked(s, limit) == |Digits(s)| && Digits(head) == Digits(s) && Digits(after) == ""
  }

  lemma NothingTaken(s: string, limit: nat)
    requires Gap(s) == |s|
    ensures TakenWhole(s, limit, "", s)
  {
    GapHasNoDigits(s);
  }

  lemma RestIsClose(s: string)
    requires Close(s)
    ensures Gap(s) < |s| ==>
              var rest := s[Gap(s) + 1..];
              Gap(s) <= MAX_SEPARATOR_RUN && Close(rest) && |Digits(s)| == 1 + |Digits(rest)|
  {
    GapHasNoDigits(s);
  }

  lemma {:induction false} CloseIsPickedWhole(s: string, limit: nat) returns (head: string, after: string)
    requires Close(s) && |Digits(s)| <= limit
    ensures TakenWhole(s, limit, head, after)
  {
    if Gap(s) == |s| {
      NothingTaken(s, limit);
      head, after := "", s;
    } else {
      var rest := s[Gap(s) + 1..];
      RestIsClose(s);
      head, after := CloseIsPickedWhole(rest, limit - 1);
      head := TakeOneMore(s, limit, rest, head, after);
    }
  }

  lemma TakeOneMore(s: string, limit: nat, rest: string, head: string, after: string) returns (longer: string)
    requires Gap(s) < |s| && Gap(s) <= MAX_SEPARATOR_RUN && limit > 0 && rest == s[Gap(s) + 1..]
    requires TakenWhole(rest, limit - 1, head, after)
    ensures TakenWhole(s, limit, longer, after)
  {
    var gap, c := s[..Gap(s)], s[Gap(s)];
    GapHasNoDigits(s);
    PickOneMore(s, limit, Gap(s));
    DigitsAround(gap, c, head);
    SplitAround(s, gap, c, rest, head, after);
    longer := (gap + [c]) + head;
  }

  lemma PickOneMore(s: string, limit: nat, g: nat)
    requires g == Gap(s) && g < |s| && g <= MAX_SEPARATOR_RUN && limit > 0
    ensures Picked(s, limit) == 1 + Picked(s[g + 1..], limit - 1)
    ensures Span(s, limit) == g + 1 + Span(s[g + 1..], limit - 1)
  {
  }

  lemma DigitsAround(gap: string, c: char, after: string)
    requires Digits(gap) == "" && IsDigit(c)
    ensures Digits((gap + [c]) + after) == [c] + Digits(after)
  {
    DigitsSplit(gap + [c], after);
    DigitsSplit(gap, [c]);
  }

  lemma SplitAround(s: string, gap: string, c: char, rest: string, head: string, after: string)
    requires |s| == |gap| + 1 + |rest| && gap == s[..|gap|] && c == s[|gap|] && rest == s[|gap| + 1..]
    requires rest == head + after
    ensures s == ((gap + [c]) + head) + after
  {
    assert s == (gap + [c]) + rest;
  }

  lemma {:induction false} NoDigitsUnchanged(s: string)
    requires Digits(s) == ""
    ensures Replace(s) == s
  {
    if s != "" {
      assert !IsDigit(s[0]);
      NoDigitsUnchanged(s[1..]);
      assert s == [s[0]] + s[1..];
    }
  }

  lemma {:induction false} GapIsKept(s: string)
    ensures Replace(s) == s[..Gap(s)] + Replace(s[Gap(s)..])
  {
    if s != "" && !IsDigit(s[0]) {
      GapIsKept(s[1..]);
      assert s[Gap(s)..] == s[1..][Gap(s[1..])..];
      assert s[..Gap(s)] == [s[0]] + s[1..][..Gap(s[1..])];
    } else {
      assert s[0..] == s;
    }
  }

  /** Length of the one number that starts a text, separators included. */
  function Extent(s: string): (n: nat)
    requires s != ""
    ensures 0 < n <= |s|
  {
    1 + Span(s[1..], 18)
  }

  lemma ExtentHoldsTheDigits(s: string) returns (head: string, after: string)
    requires s != "" && IsDigit(s[0]) && 13 <= |Digits(s)| <= 19 && Close(s[1..])
    ensures s == head + after && |head| == Extent(s) == MatchLength(s)
    ensures Digits(head) == Digits(s) && Digits(after) == ""
  {
    var c, rest := s[0], s[1..];
    DigitsOfHead(s);
    head, after := CloseIsPickedWhole(rest, 18);
    EnoughIsMatched(s, |Digits(rest)|);
    DigitsAround("", c, head);
    SplitAround(s, "", c, rest, head, after);
    head := ("" + [c]) + head;
  }

  lemma DigitsOfHead(s: string)
    requires s != "" && IsDigit(s[0])
    ensures Digits(s) == [s[0]] + Digits(s[1..])
  {
  }

  lemma EnoughIsMatched(s: string, n: nat)
    requires s != "" && IsDigit(s[0]) && Picked(s[1..], 18) == n && n >= 12
    ensures MatchLength(s) == Extent(s)
  {
  }

  lemma SlicesOf(s: string, head: string, after: string)
    requires s == head + after
    ensures s[..|head|] == head && s[|head|..] == after
  {
  }

  lemma NumberAtStart(s: string)
    requires s != "" && IsDigit(s[0]) && 13 <= |Digits(s)| <= 19 && Close(s[1..])
    ensures Replace(s) == RedactIfPan(s[..Extent(s)]) + s[Extent(s)..]
  {
    var head, after := ExtentHoldsTheDigits(s);
    SlicesOf(s, head, after);
    ReplaceMatch(s, Extent(s));
    NoDigitsUnchanged(after);
  }

  lemma ReplaceMatch(s: string, n: nat)
    requires 0 < n <= |s| && MatchLength(s) == n
    ensures Replace(s) == RedactIfPan(s[..n]) + Replace(s[n..])
  {
  }

  lemma {:induction false} BulletsHaveNoDigits(n: nat)
    ensures Digits(Bullets(n)) == ""
  {
    if n > 0 { BulletsHaveNoDigits(n - 1); }
  }

  lemma {:induction false} AllDigitsKept(s: string)
    requires forall i | 0 <= i < |s| :: IsDigit(s[i])
    ensures Digits(s) == s
  {
    if s != "" { AllDigitsKept(s[1..]); }
  }

  lemma MaskKeepsLast4(digits: string)
    requires |digits| >= 13 && forall i | 0 <= i < |digits| :: IsDigit(digits[i])
    ensures Digits(MaskWithLast4(digits) + " (PAN)") == digits[|digits| - 4..]
  {
    var last := digits[|digits| - 4..];
    DigitsSplit(Bullets(|digits| - 4) + last, " (PAN)");
    DigitsSplit(Bullets(|digits| - 4), last);
    BulletsHaveNoDigits(|digits| - 4);
    AllDigitsKept(last);
    NoDigitsInTag();
  }

  lemma NoDigitsInTag()
    ensures Digits(" (PAN)") == ""
  {
    GapHasNoDigits(" (PAN)");
    assert Gap(")") == 1;
    assert Gap("N)") == 2;
    assert Gap("AN)") == 3;
    assert Gap("PAN)") == 4;
    assert Gap("(PAN)") == 5;
  }

  /** A value whose digits, 13 to 19 of them, lie within the separator allowance of one another is
      masked exactly when those digits pass the checksum, and then the number, separators and all,
      is replaced by its last four digits; everything around it is kept. */
  lemma OneNumberIsMaskedExactly(value: string)
    requires 13 <= |Digits(value)| <= 19 && Gap(value) < |value| && Close(value[Gap(value) + 1..])
    ensures var before, number := value[..Gap(value)], value[Gap(value)..];
            MaskPanInValue(value) ==
            if Valid(Values(Digits(value)))
            then before + (MaskWithLast4(Digits(value)) + " (PAN)") + number[Extent(number)..]
            else value
    ensures Valid(Values(Digits(value))) ==> Digits(MaskPanInValue(value)) == Digits(value)[|Digits(value)| - 4..]
  {
    var before, head, after := OneNumberIsReplaced(value);
    ReplacedIsMasked(value, before, head, after);
  }

  /** `value` is one number, `head`, between texts without digits, and only the number is replaced. */
  ghost predicate IsReplaced(value: string, before: string, head: string, after: string) {
    && value == before + (head + after) && Replace(value) == before + (RedactIfPan(head) + after)
    && Digits(before) == "" && Digits(head) == Digits(value) && Digits(after) == "" && 13 <= |Digits(value)| <= 19
  }

  lemma OneNumberIsReplaced(value: string) returns (before: string, head: string, after: string)
    requires 13 <= |Digits(value)| <= 19 && Gap(value) < |value| && Close(value[Gap(value) + 1..])
    ensures before == value[..Gap(value)] && after == value[Gap(value)..][Extent(value[Gap(value)..])..]
    ensures IsReplaced(value, before, head, after)
  {
    before := value[..Gap(value)];
    var number := value[Gap(value)..];
    NumberAfterGap(value);
    SplitAt(value, Gap(value));
    GapIsKept(value);
    NumberAtStart(number);
    head, after := ExtentHoldsTheDigits(number);
    SlicesOf(number, head, after);
  }

  lemma ReplacedIsMasked(value: string, before: string, head: string, after: string)
    ensures IsReplaced(value, before, head, after) ==>
              var digits := Digits(value);
              && MaskPanInValue(value) ==
                 (if Valid(Values(digits)) then before + (MaskWithLast4(digits) + " (PAN)") + after else value)
              && (Valid(Values(digits)) ==> Digits(MaskPanInValue(value)) == digits[|digits| - 4..])
  {
    if IsReplaced(value, before, head, after) && Valid(Values(Digits(value))) {
      Regroup(before, MaskWithLast4(Digits(value)) + " (PAN)", after);
      MaskedBetween(before, Digits(value), after);
    }
  }

  /** Of a masked number between texts without digits, the last four digits are all that is left. */
  lemma MaskedBetween(before: string, digits: string, after: string)
    requires |digits| >= 13 && forall i | 0 <= i < |digits| :: IsDigit(digits[i])
    requires Digits(before) == "" && Digits(after) == ""
    ensures Digits(before + (MaskWithLast4(digits) + " (PAN)") + after) == digits[|digits| - 4..]
  {
    MaskKeepsLast4(digits);
    DigitsBetween(before, MaskWithLast4(digits) + " (PAN)", after);
  }

  lemma NumberAfterGap(value: string)
    requires Gap(value) < |value|
    ensures var before, number := value[..Gap(value)], value[Gap(value)..];
            Digits(before) == "" && Digits(number) == Digits(value)
  {
    var g := Gap(value);
    GapHasNoDigits(value);
    SplitAt(value, g);
    DigitsSplit(value[..g], value[g..]);
  }

  lemma SplitAt(s: string, g: nat)
    requires g <= |s|
    ensures s == s[..g] + s[g..]
    ensures g < |s| ==> s[g..][1..] == s[g + 1..]
  {
  }

  lemma DigitsBetween(before: string, masked: string, after: string)
    requires Digits(before) == "" && Digits(after) == ""
    ensures Digits(before + masked + after) == Digits(masked)
  {
    DigitsSplit(before + masked, after);
    DigitsSplit(before, masked);
  }
}
