/** A stable sort over an arbitrary comparison, standing for Python's `sorted` and `list.sort`. */
module Sorting {

  ghost predicate TotalPreorder<T(!new)>(le: (T, T) -> bool) {
    && (forall x, y :: le(x, y) || le(y, x))
    && (forall x, y, z :: le(x, y) && le(y, z) ==> le(x, z))
  }

  /** Distinct elements never compare equal. */
  ghost predicate Separates<T(!new)>(le: (T, T) -> bool, s: seq<T>) {
    forall x, y | x in s && y in s && le(x, y) && le(y, x) :: x == y
  }

  ghost predicate Sorted<T>(s: seq<T>, le: (T, T) -> bool) {
    forall i, j | 0 <= i < j < |s| :: le(s[i], s[j])
  }

  function Insert<T>(x: T, s: seq<T>, le: (T, T) -> bool): seq<T> {
    if s == [] then [x]
    else if le(x, s[0]) then [x] + s
    else [s[0]] + Insert(x, s[1..], le)
  }

  /** Elements that compare equal keep their order: each is inserted in front of its equals. */
  function Sort<T>(s: seq<T>, le: (T, T) -> bool): seq<T> {
    if s == [] then [] else Insert(s[0], Sort(s[1..], le), le)
  }

  lemma {:induction false} InsertKeepsElements<T>(x: T, s: seq<T>, le: (T, T) -> bool)
    ensures multiset(Insert(x, s, le)) == multiset{x} + multiset(s)
  {
    if s != [] && !le(x, s[0]) {
      InsertKeepsElements(x, s[1..], le);
      assert s == [s[0]] + s[1..];
    }
  }

  lemma {:induction false} SortKeepsElements<T>(s: seq<T>, le: (T, T) -> bool)
    ensures multiset(Sort(s, le)) == multiset(s)
    ensures |Sort(s, le)| == |s|
  {
    if s != [] {
      SortKeepsElements(s[1..], le);
      InsertKeepsElements(s[0], Sort(s[1..], le), le);
      assert s == [s[0]] + s[1..];
    }
    assert |multiset(Sort(s, le))| == |Sort(s, le)|;
  }

  lemma SameElements<T>(s: seq<T>, t: seq<T>, x: T)
    requires multiset(s) == multiset(t)
    ensures x in s <==> x in t
  {
    assert x in s <==> x in multiset(s);
  }

  lemma {:induction false} InsertStaysSorted<T(!new)>(x: T, s: seq<T>, le: (T, T) -> bool)
    requires TotalPreorder(le) && Sorted(s, le)
    ensures Sorted(Insert(x, s, le), le)
  {
    if s != [] && !le(x, s[0]) {
      InsertStaysSorted(x, s[1..], le);
      var rest := Insert(x, s[1..], le);
      InsertKeepsElements(x, s[1..], le);
      forall y | y in rest ensures le(s[0], y) {
        assert y in multiset(rest);
      }
    }
  }

  lemma {:induction false} SortSorts<T(!new)>(s: seq<T>, le: (T, T) -> bool)
    requires TotalPreorder(le)
    ensures Sorted(Sort(s, le), le)
  {
    if s != [] {
      SortSorts(s[1..], le);
      InsertStaysSorted(s[0], Sort(s[1..], le), le);
    }
  }

  /** Stability in the form the callers need: what is already in order is left alone. */
  lemma {:induction false} SortLeavesSorted<T>(s: seq<T>, le: (T, T) -> bool)
    requires Sorted(s, le)
    ensures Sort(s, le) == s
  {
    if s != [] {
      SortLeavesSorted(s[1..], le);
      assert s == [s[0]] + s[1..];
    }
  }

  lemma HeadPrecedes<T>(s: seq<T>, le: (T, T) -> bool, x: T)
    requires Sorted(s, le) && x in s
    ensures s[0] == x || le(s[0], x)
  {
    var i :| 0 <= i < |s| && s[i] == x;
  }

  lemma TailElements<T>(s: seq<T>)
    requires s != []
    ensures s == [s[0]] + s[1..] && multiset(s[1..]) == multiset(s) - multiset{s[0]}
    ensures forall x | x in s[1..] :: x in s
  {
    assert s == [s[0]] + s[1..];
  }

  /** When the comparison separates the elements, the sorted arrangement is unique. */
  lemma {:induction false} SortedIsUnique<T(!new)>(s: seq<T>, t: seq<T>, le: (T, T) -> bool)
    requires Sorted(s, le) && Sorted(t, le) && multiset(s) == multiset(t)
    requires Separates(le, s)
    ensures s == t
  {
    assert |s| == |multiset(s)| == |multiset(t)| == |t|;
    if s != [] {
      var x, y := s[0], t[0];
      SameElements(s, t, x);
      SameElements(s, t, y);
      HeadPrecedes(s, le, y);
      HeadPrecedes(t, le, x);
      assert x == y;
      TailElements(s);
      TailElements(t);
      SortedIsUnique(s[1..], t[1..], le);
    }
  }
}
