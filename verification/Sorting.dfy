/** The stable library sort (`Array.prototype.sort` with a comparator, Python's `sorted`), as a function.
    `le(a, b)` says that the comparator does not ask for `b` before `a`. */
module Sorting {

  ghost predicate TotalPreorder<T(!new)>(le: (T, T) -> bool) {
    && (forall a, b :: le(a, b) || le(b, a))
    && (forall a, b, c :: le(a, b) && le(b, c) ==> le(a, c))
  }

  ghost predicate SortedBy<T>(s: seq<T>, le: (T, T) -> bool) {
    forall i, j :: 0 <= i < j < |s| ==> le(s[i], s[j])
  }

  function Insert<T>(x: T, s: seq<T>, le: (T, T) -> bool): (r: seq<T>) {
    if s == [] || le(x, s[0]) then [x] + s else [s[0]] + Insert(x, s[1..], le)
  }

  function Sort<T>(s: seq<T>, le: (T, T) -> bool): (r: seq<T>) {
    if s == [] then [] else Insert(s[0], Sort(s[1..], le), le)
  }

  lemma {:induction false} InsertKeepsElements<T>(x: T, s: seq<T>, le: (T, T) -> bool)
    ensures multiset(Insert(x, s, le)) == multiset{x} + multiset(s)
  {
    if s != [] && !le(x, s[0]) {
      InsertKeepsElements(x, s[1..], le);
      assert s == [s[0]] + s[1..];
    }
  }

  lemma {:induction false} SortKeepsElements<T>(s: seq<T>, le: (T, T) -> bool)
    ensures multiset(Sort(s, le)) == multiset(s)
    ensures |Sort(s, le)| == |s|
  {
    if s != [] {
      SortKeepsElements(s[1..], le);
      InsertKeepsElements(s[0], Sort(s[1..], le), le);
      assert s == [s[0]] + s[1..];
    }
    assert |multiset(Sort(s, le))| == |multiset(s)|;
  }

  lemma {:induction false} InsertSorted<T(!new)>(x: T, s: seq<T>, le: (T, T) -> bool)
    requires TotalPreorder(le) && SortedBy(s, le)
    ensures SortedBy(Insert(x, s, le), le)
  {
    if s != [] && !le(x, s[0]) {
      var t := Insert(x, s[1..], le);
      InsertSorted(x, s[1..], le);
      InsertKeepsElements(x, s[1..], le);
      forall j | 0 <= j < |t|
        ensures le(s[0], t[j])
      {
        assert t[j] in multiset(t);
        assert t[j] == x || t[j] in s[1..];
      }
    }
  }

  lemma {:induction false} SortSorts<T(!new)>(s: seq<T>, le: (T, T) -> bool)
    requires TotalPreorder(le)
    ensures SortedBy(Sort(s, le), le)
  {
    if s != [] {
      SortSorts(s[1..], le);
      InsertSorted(s[0], Sort(s[1..], le), le);
    }
  }

  /** Stability: an order that refines `le` and already holds along `s` holds along the result. */
  lemma {:induction false} SortIsStable<T(!new)>(s: seq<T>, le: (T, T) -> bool, fine: (T, T) -> bool)
    requires TotalPreorder(le)
    requires forall a, b :: !le(b, a) ==> fine(a, b)
    requires forall i, j :: 0 <= i < j < |s| && le(s[i], s[j]) ==> fine(s[i], s[j])
    ensures SortedBy(Sort(s, le), fine)
  {
    if s != [] {
      SortIsStable(s[1..], le, fine);
      SortSorts(s[1..], le);
      SortKeepsElements(s[1..], le);
      var t := Sort(s[1..], le);
      forall y | y in t && le(s[0], y)
        ensures fine(s[0], y)
      {
        assert y in multiset(t);
        assert y in s[1..];
      }
      InsertStable(s[0], t, le, fine);
    }
  }

  lemma {:induction false} InsertStable<T(!new)>(x: T, s: seq<T>, le: (T, T) -> bool, fine: (T, T) -> bool)
    requires TotalPreorder(le) && SortedBy(s, le) && SortedBy(s, fine)
    requires forall a, b :: !le(b, a) ==> fine(a, b)
    requires forall y :: y in s && le(x, y) ==> fine(x, y)
    ensures SortedBy(Insert(x, s, le), fine)
  {
    if s != [] && !le(x, s[0]) {
      var t := Insert(x, s[1..], le);
      InsertStable(x, s[1..], le, fine);
      InsertKeepsElements(x, s[1..], le);
      forall j | 0 <= j < |t|
        ensures fine(s[0], t[j])
      {
        assert t[j] in multiset(t);
        assert t[j] == x || t[j] in s[1..];
      }
    }
  }
}
