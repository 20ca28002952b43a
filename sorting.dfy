/** `Array.prototype.sort` with a comparator, as the pages and the category
    breakdown use it. The ECMAScript sort is stable; it is modelled by a stable
    insertion sort over the relation `le(a, b)`, "the comparator of `a` and `b` is
    not positive", which puts `a` no later than `b`. */
module Sorting {
  import opened Collections

  /** The comparator is consistent: any two elements compare, and comparison is
      transitive. */
  ghost predicate TotalPreorder<T(!new)>(le: (T, T) -> bool) {
    (forall a, b :: le(a, b) || le(b, a)) &&
    (forall a, b, c :: le(a, b) && le(b, c) ==> le(a, c))
  }

  predicate SortedBy<T>(s: seq<T>, le: (T, T) -> bool) {
    forall i, j :: 0 <= i < j < |s| ==> le(s[i], s[j])
  }

  /** Puts `x` before the first element it is not after. */
  function Insert<T>(x: T, s: seq<T>, le: (T, T) -> bool): (r: seq<T>)
    ensures multiset(r) == multiset(s) + multiset{x}
  {
    if s == [] then [x]
    else if le(x, s[0]) then [x] + s
    else
      assert s == [s[0]] + s[1..];
      [s[0]] + Insert(x, s[1..], le)
  }

  function InsertionSort<T>(s: seq<T>, le: (T, T) -> bool): (r: seq<T>)
    ensures multiset(r) == multiset(s)
  {
    if s == [] then []
    else
      assert s == [s[0]] + s[1..];
      Insert(s[0], InsertionSort(s[1..], le), le)
  }

  lemma {:induction false} InsertKeepsSorted<T(!new)>(x: T, s: seq<T>, le: (T, T) -> bool)
    requires TotalPreorder(le) && SortedBy(s, le)
    ensures SortedBy(Insert(x, s, le), le)
  {
    if s != [] && !le(x, s[0]) {
      InsertKeepsSorted(x, s[1..], le);
      var rest := Insert(x, s[1..], le);
      forall j | 0 <= j < |rest| ensures le(s[0], rest[j]) {
        assert rest[j] in multiset(s[1..]) + multiset{x};
        if rest[j] != x {
          assert rest[j] in s[1..];
        }
      }
    }
  }

  /** The result is ordered by the comparator. */
  lemma {:induction false} InsertionSortSorts<T(!new)>(s: seq<T>, le: (T, T) -> bool)
    requires TotalPreorder(le)
    ensures SortedBy(InsertionSort(s, le), le)
  {
    if s != [] {
      InsertionSortSorts(s[1..], le);
      InsertKeepsSorted(s[0], InsertionSort(s[1..], le), le);
    }
  }

  lemma FilterCons<T(!new)>(x: T, s: seq<T>, keep: T -> bool)
    ensures Filter([x] + s, keep) == if keep(x) then [x] + Filter(s, keep) else Filter(s, keep)
  {
    assert ([x] + s)[0] == x && ([x] + s)[1..] == s;
  }

  /** Inserting `x` ahead of every element the predicate keeps. */
  lemma {:induction false} FilterInsert<T(!new)>(x: T, s: seq<T>, le: (T, T) -> bool, keep: T -> bool)
    requires forall y :: y in s && keep(y) && keep(x) ==> le(x, y)
    ensures Filter(Insert(x, s, le), keep) == Filter([x] + s, keep)
  {
    if s != [] && !le(x, s[0]) {
      var t := s[1..];
      assert s == [s[0]] + t;
      assert forall y :: y in t ==> y in s;
      FilterInsert(x, t, le, keep);
      assert Insert(x, s, le) == [s[0]] + Insert(x, t, le);
      FilterCons(s[0], Insert(x, t, le), keep);
      FilterCons(x, t, keep);
      FilterCons(x, s, keep);
      FilterCons(s[0], t, keep);
    }
  }

  /** Stability: elements the comparator cannot tell apart keep their relative
      order. */
  lemma {:induction false} InsertionSortStable<T(!new)>(s: seq<T>, le: (T, T) -> bool, keep: T -> bool)
    requires forall x, y :: keep(x) && keep(y) ==> le(x, y)
    ensures Filter(InsertionSort(s, le), keep) == Filter(s, keep)
  {
    if s != [] {
      var rest := InsertionSort(s[1..], le);
      InsertionSortStable(s[1..], le, keep);
      FilterInsert(s[0], rest, le, keep);
      FilterCons(s[0], rest, keep);
      FilterCons(s[0], s[1..], keep);
      assert s == [s[0]] + s[1..];
    }
  }
}
