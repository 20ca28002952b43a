/** The three sequence transformations the store's actions are built from
    (src/lib/store.ts): `map` that replaces the records with a given id, `filter`
    that drops them, and the `reduce` that sums amounts. They are generic in the
    record type; `idOf` extracts a record's id. */
module Collections {

  /** `r` is `s` with some elements left out, the rest in their original order. */
  predicate IsSubsequence<T(==)>(r: seq<T>, s: seq<T>) {
    r == [] ||
    (s != [] && ((r[0] == s[0] && IsSubsequence(r[1..], s[1..])) || IsSubsequence(r, s[1..])))
  }

  /** Some element of `s` has id `id`. */
  predicate HasId<T(==)>(s: seq<T>, idOf: T -> string, id: string) {
    exists i :: 0 <= i < |s| && idOf(s[i]) == id
  }

  /** No two elements of `s` share an id. */
  predicate DistinctIds<T(==)>(s: seq<T>, idOf: T -> string) {
    forall i, j :: 0 <= i < j < |s| ==> idOf(s[i]) != idOf(s[j])
  }

  /** `s.map(x => idOf(x) === id ? f(x) : x)` */
  function Replace<T(==)>(s: seq<T>, idOf: T -> string, id: string, f: T -> T): (r: seq<T>)
    ensures |r| == |s|
    ensures forall i :: 0 <= i < |s| ==> r[i] == if idOf(s[i]) == id then f(s[i]) else s[i]
  {
    if s == [] then []
    else [if idOf(s[0]) == id then f(s[0]) else s[0]] + Replace(s[1..], idOf, id, f)
  }

  /** `s.filter(keep)`: the kept elements in their order, each as often as in `s`. */
  function Filter<T(==,!new)>(s: seq<T>, keep: T -> bool): (r: seq<T>)
    ensures IsSubsequence(r, s)
    ensures forall x :: multiset(r)[x] == if keep(x) then multiset(s)[x] else 0
    ensures forall x :: x in r <==> x in s && keep(x)
  {
    if s == [] then []
    else
      var rest := Filter(s[1..], keep);
      assert s == [s[0]] + s[1..];
      if keep(s[0]) then [s[0]] + rest else rest
  }

  /** Filtering a sequence with one more element at the end. */
  lemma {:induction false} FilterSnoc<T(!new)>(s: seq<T>, x: T, keep: T -> bool)
    ensures Filter(s + [x], keep) == Filter(s, keep) + (if keep(x) then [x] else [])
  {
    if s == [] {
      assert [] + [x] == [x] && [x][1..] == [];
    } else {
      assert (s + [x])[0] == s[0] && (s + [x])[1..] == s[1..] + [x];
      FilterSnoc(s[1..], x, keep);
    }
  }

  /** `s.filter(x => idOf(x) !== id)` */
  function WithoutId<T(==,!new)>(s: seq<T>, idOf: T -> string, id: string): (r: seq<T>)
    ensures IsSubsequence(r, s)
    ensures !HasId(r, idOf, id)
    ensures forall x :: multiset(r)[x] == if idOf(x) == id then 0 else multiset(s)[x]
  {
    var r := Filter(s, x => idOf(x) != id);
    assert forall i :: 0 <= i < |r| ==> multiset(r)[r[i]] > 0;
    r
  }

  /** `s.reduce((sum, x) => sum + amount(x), 0)`; integer addition makes the
      order of summation irrelevant. */
  function Sum<T(==)>(s: seq<T>, amount: T -> int): int {
    if s == [] then 0 else amount(s[0]) + Sum(s[1..], amount)
  }

  lemma {:induction false} SubsequenceLength<T>(r: seq<T>, s: seq<T>)
    requires IsSubsequence(r, s)
    ensures |r| <= |s|
  {
    if r != [] {
      if r[0] == s[0] && IsSubsequence(r[1..], s[1..]) {
        SubsequenceLength(r[1..], s[1..]);
      } else {
        SubsequenceLength(r, s[1..]);
      }
    }
  }

  /** A subsequence holding every element as often as `s` does is `s` itself. */
  lemma {:induction false} SubsequenceOfSameMultiset<T>(r: seq<T>, s: seq<T>)
    requires IsSubsequence(r, s)
    requires multiset(r) == multiset(s)
    ensures r == s
  {
    if s != [] {
      assert |r| == |s| by {
        assert |multiset(r)| == |r| && |multiset(s)| == |s|;
      }
      if r[0] == s[0] && IsSubsequence(r[1..], s[1..]) {
        assert r == [r[0]] + r[1..] && s == [s[0]] + s[1..];
        assert multiset(r) == multiset{r[0]} + multiset(r[1..]);
        assert multiset(s) == multiset{s[0]} + multiset(s[1..]);
        assert multiset(r[1..]) == multiset(r) - multiset{r[0]};
        assert multiset(s[1..]) == multiset(s) - multiset{s[0]};
        SubsequenceOfSameMultiset(r[1..], s[1..]);
      } else {
        SubsequenceLength(r, s[1..]);
      }
    }
  }

  /** Deleting twice is deleting once. */
  lemma WithoutIdIdempotent<T(!new)>(s: seq<T>, idOf: T -> string, id: string)
    ensures WithoutId(WithoutId(s, idOf, id), idOf, id) == WithoutId(s, idOf, id)
  {
    var once := WithoutId(s, idOf, id);
    var twice := WithoutId(once, idOf, id);
    assert multiset(twice) == multiset(once);
    SubsequenceOfSameMultiset(twice, once);
  }

  /** Deleting an id no element has changes nothing. */
  lemma WithoutAbsentId<T(!new)>(s: seq<T>, idOf: T -> string, id: string)
    requires !HasId(s, idOf, id)
    ensures WithoutId(s, idOf, id) == s
  {
    var r := WithoutId(s, idOf, id);
    forall x ensures multiset(r)[x] == multiset(s)[x] {
      if idOf(x) == id {
        assert x !in s;
      }
    }
    assert multiset(r) == multiset(s);
    SubsequenceOfSameMultiset(r, s);
  }

  /** Replacing with a function that changes nothing, or at an id no element
      has, leaves the sequence as it was. */
  lemma ReplaceNoop<T>(s: seq<T>, idOf: T -> string, id: string, f: T -> T)
    requires !HasId(s, idOf, id) || forall x :: f(x) == x
    ensures Replace(s, idOf, id, f) == s
  {
  }

  /** Replacing twice with an involution that keeps ids restores the sequence. */
  lemma ReplaceInvolution<T>(s: seq<T>, idOf: T -> string, id: string, f: T -> T)
    requires forall x :: idOf(f(x)) == idOf(x) && f(f(x)) == x
    ensures Replace(Replace(s, idOf, id, f), idOf, id, f) == s
  {
  }

  /** Replacing twice with an idempotent function is replacing once. */
  lemma ReplaceIdempotent<T>(s: seq<T>, idOf: T -> string, id: string, f: T -> T)
    requires forall x :: f(f(x)) == f(x)
    ensures Replace(Replace(s, idOf, id, f), idOf, id, f) == Replace(s, idOf, id, f)
  {
  }

  /** Appending an element whose id is new keeps the ids distinct. */
  lemma AppendFreshKeepsDistinct<T>(s: seq<T>, idOf: T -> string, x: T)
    requires DistinctIds(s, idOf) && !HasId(s, idOf, idOf(x))
    ensures DistinctIds(s + [x], idOf)
  {
  }

  /** A subsequence of a sequence with distinct ids has distinct ids. */
  lemma {:induction false} SubsequenceKeepsDistinct<T>(r: seq<T>, s: seq<T>, idOf: T -> string)
    requires IsSubsequence(r, s) && DistinctIds(s, idOf)
    ensures DistinctIds(r, idOf)
  {
    if r != [] {
      if r[0] == s[0] && IsSubsequence(r[1..], s[1..]) {
        SubsequenceKeepsDistinct(r[1..], s[1..], idOf);
        forall j | 0 < j < |r| ensures idOf(r[0]) != idOf(r[j]) {
          SubsequenceMember(r[1..], s[1..], j - 1);
        }
      } else {
        SubsequenceKeepsDistinct(r, s[1..], idOf);
      }
    }
  }

  /** Every element of a subsequence is an element of the sequence. */
  lemma {:induction false} SubsequenceMember<T>(r: seq<T>, s: seq<T>, k: nat)
    requires IsSubsequence(r, s) && k < |r|
    ensures exists i :: 0 <= i < |s| && s[i] == r[k]
  {
    if r[0] == s[0] && IsSubsequence(r[1..], s[1..]) {
      if k > 0 {
        SubsequenceMember(r[1..], s[1..], k - 1);
        var i :| 0 <= i < |s[1..]| && s[1..][i] == r[1..][k - 1];
        assert s[i + 1] == r[k];
      }
    } else {
      SubsequenceMember(r, s[1..], k);
      var i :| 0 <= i < |s[1..]| && s[1..][i] == r[k];
      assert s[i + 1] == r[k];
    }
  }

  /** Replacing at an id with a function that keeps ids, or that sets an id no
      other element has, keeps the ids distinct. */
  lemma ReplaceKeepsDistinct<T>(s: seq<T>, idOf: T -> string, id: string, f: T -> T)
    requires DistinctIds(s, idOf)
    requires forall x :: idOf(x) == id ==> idOf(f(x)) == id || !HasId(s, idOf, idOf(f(x)))
    ensures DistinctIds(Replace(s, idOf, id, f), idOf)
  {
    var r := Replace(s, idOf, id, f);
    forall i, j | 0 <= i < j < |r| ensures idOf(r[i]) != idOf(r[j]) {
      if idOf(s[i]) == id {
        assert idOf(s[j]) != id;
      } else if idOf(s[j]) == id {
        assert idOf(s[i]) != id;
      }
    }
  }

  lemma {:induction false} SumConcat<T>(a: seq<T>, b: seq<T>, amount: T -> int)
    ensures Sum(a + b, amount) == Sum(a, amount) + Sum(b, amount)
  {
    if a != [] {
      assert (a + b)[0] == a[0] && (a + b)[1..] == a[1..] + b;
      assert Sum(a + b, amount) == amount(a[0]) + Sum(a[1..] + b, amount);
      SumConcat(a[1..], b, amount);
    } else {
      assert a + b == b;
    }
  }

  /** Taking one term out of a sum. */
  lemma SumWithout<T>(b: seq<T>, k: nat, amount: T -> int)
    requires k < |b|
    ensures Sum(b, amount) == amount(b[k]) + Sum(b[..k] + b[k + 1..], amount)
  {
    assert b == b[..k] + ([b[k]] + b[k + 1..]);
    SumConcat(b[..k], [b[k]] + b[k + 1..], amount);
    SumConcat(b[..k], b[k + 1..], amount);
  }

  /** Changing one term of a sum changes the sum by the difference. */
  lemma SumUpdate<T>(b: seq<T>, k: nat, y: T, amount: T -> int)
    requires k < |b|
    ensures Sum(b[k := y], amount) == Sum(b, amount) - amount(b[k]) + amount(y)
  {
    SumWithout(b, k, amount);
    SumWithout(b[k := y], k, amount);
    assert b[k := y][..k] == b[..k] && b[k := y][k + 1..] == b[k + 1..];
  }

  /** A sum does not depend on the order of its terms. */
  lemma {:induction false} SumPermutation<T>(a: seq<T>, b: seq<T>, amount: T -> int)
    requires multiset(a) == multiset(b)
    ensures Sum(a, amount) == Sum(b, amount)
  {
    if a == [] {
      assert |b| == |multiset(b)| == 0;
    } else {
      var x := a[0];
      assert x in multiset(b);
      var k :| 0 <= k < |b| && b[k] == x;
      var rest := b[..k] + b[k + 1..];
      assert multiset(rest) == multiset(b) - multiset{x} by {
        assert b == b[..k] + [x] + b[k + 1..];
      }
      assert multiset(a[1..]) == multiset(a) - multiset{x} by {
        assert a == [x] + a[1..];
      }
      SumPermutation(a[1..], rest, amount);
      SumWithout(b, k, amount);
    }
  }

  /** Sums of non-negative terms are non-negative. */
  lemma {:induction false} SumNonNegative<T>(s: seq<T>, amount: T -> int)
    requires forall i :: 0 <= i < |s| ==> amount(s[i]) >= 0
    ensures Sum(s, amount) >= 0
  {
    if s != [] {
      SumNonNegative(s[1..], amount);
    }
  }
}
