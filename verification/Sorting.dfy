/** Stable sorting as `Array.prototype.sort` promises it, by a strict "comes before" relation. */
module Sorting {
  import opened Prelude

  type Before<!T> = (T, T) -> bool

  /** The relation is a strict weak order: asymmetric, and "not after" is transitive. */
  ghost predicate WeakOrder<T(!new)>(before: Before<T>) {
    && (forall a, b :: before(a, b) ==> !before(b, a))
    && (forall a, b, c :: !before(b, a) && !before(c, b) ==> !before(c, a))
  }

  ghost predicate Sorted<T>(s: seq<T>, before: Before<T>) {
    forall i, j :: 0 <= i < j < |s| ==> !before(s[j], s[i])
  }

  function Insert<T>(x: T, s: seq<T>, before: Before<T>): (r: seq<T>)
    ensures multiset(r) == multiset([x]) + multiset(s)
    ensures |r| == |s| + 1
  {
    if s == [] then [x]
    else if before(s[0], x) then
      assert s == [s[0]] + s[1..];
      [s[0]] + Insert(x, s[1..], before)
    else [x] + s
  }

  function Sort<T>(s: seq<T>, before: Before<T>): (r: seq<T>)
    ensures multiset(r) == multiset(s)
    ensures |r| == |s|
  {
    if s == [] then []
    else
      assert s == [s[0]] + s[1..];
      Insert(s[0], Sort(s[1..], before), before)
  }

  lemma PrependSorted<T(!new)>(x: T, s: seq<T>, before: Before<T>)
    requires Sorted(s, before) && forall y :: y in s ==> !before(y, x)
    ensures Sorted([x] + s, before)
  {
  }

  lemma {:induction false} InsertSorted<T(!new)>(x: T, s: seq<T>, before: Before<T>)
    requires WeakOrder(before) && Sorted(s, before)
    ensures Sorted(Insert(x, s, before), before)
  {
    if s == [] {
    } else if before(s[0], x) {
      var rest := Insert(x, s[1..], before);
      InsertSorted(x, s[1..], before);
      forall y | y in rest
        ensures !before(y, s[0])
      {
        assert y in multiset(rest);
        assert y == x || y in s[1..];
      }
      PrependSorted(s[0], rest, before);
    } else {
      forall y | y in s
        ensures !before(y, x)
      {
        assert !before(y, s[0]);
      }
      PrependSorted(x, s, before);
    }
  }

  lemma {:induction false} SortSorts<T(!new)>(s: seq<T>, before: Before<T>)
    requires WeakOrder(before)
    ensures Sorted(Sort(s, before), before)
  {
    if s != [] {
      SortSorts(s[1..], before);
      InsertSorted(s[0], Sort(s[1..], before), before);
    }
  }

  lemma {:induction false} FilterSorted<T(!new)>(s: seq<T>, keep: T -> bool, before: Before<T>)
    requires Sorted(s, before)
    ensures Sorted(Filter(s, keep), before)
  {
    if s != [] {
      FilterSorted(s[1..], keep, before);
      if keep(s[0]) {
        forall y | y in Filter(s[1..], keep)
          ensures !before(y, s[0])
        {
          assert y in s[1..];
        }
        PrependSorted(s[0], Filter(s[1..], keep), before);
      }
    }
  }

  // ----- stability -----

  /** Elements that neither comes before the other stand in the relation in which they are listed. */
  ghost predicate PairwiseTied<T>(s: seq<T>, before: Before<T>, relation: Before<T>) {
    forall i, j :: 0 <= i < j < |s| && !before(s[i], s[j]) && !before(s[j], s[i]) ==> relation(s[i], s[j])
  }

  lemma PrependTied<T(!new)>(x: T, s: seq<T>, before: Before<T>, relation: Before<T>)
    requires PairwiseTied(s, before, relation)
    requires forall y :: y in s && !before(x, y) && !before(y, x) ==> relation(x, y)
    ensures PairwiseTied([x] + s, before, relation)
  {
  }

  lemma {:induction false} InsertKeepsTies<T(!new)>(x: T, s: seq<T>, before: Before<T>, relation: Before<T>)
    requires PairwiseTied(s, before, relation)
    requires forall y :: y in s && !before(x, y) && !before(y, x) ==> relation(x, y)
    ensures PairwiseTied(Insert(x, s, before), before, relation)
  {
    if s != [] && before(s[0], x) {
      var rest := Insert(x, s[1..], before);
      InsertKeepsTies(x, s[1..], before, relation);
      forall y | y in rest && !before(s[0], y) && !before(y, s[0])
        ensures relation(s[0], y)
      {
        assert y in multiset(rest);
        assert y in s[1..];
      }
      PrependTied(s[0], rest, before, relation);
    } else {
      PrependTied(x, s, before, relation);
    }
  }

  /** Sorting leaves ties in the order in which they were listed. */
  lemma {:induction false} SortKeepsTies<T(!new)>(s: seq<T>, before: Before<T>, relation: Before<T>)
    requires PairwiseTied(s, before, relation)
    ensures PairwiseTied(Sort(s, before), before, relation)
  {
    if s != [] {
      var rest := Sort(s[1..], before);
      SortKeepsTies(s[1..], before, relation);
      forall y | y in rest && !before(s[0], y) && !before(y, s[0])
        ensures relation(s[0], y)
      {
        assert y in multiset(rest);
        assert y in s[1..];
      }
      InsertKeepsTies(s[0], rest, before, relation);
    }
  }

  lemma {:induction false} FilterKeepsTies<T(!new)>(s: seq<T>, keep: T -> bool, before: Before<T>, relation: Before<T>)
    requires PairwiseTied(s, before, relation)
    ensures PairwiseTied(Filter(s, keep), before, relation)
  {
    if s != [] {
      FilterKeepsTies(s[1..], keep, before, relation);
      if keep(s[0]) {
        forall y | y in Filter(s[1..], keep) && !before(s[0], y) && !before(y, s[0])
          ensures relation(s[0], y)
        {
          assert y in s[1..];
        }
        PrependTied(s[0], Filter(s[1..], keep), before, relation);
      }
    }
  }

  // ----- the head of a stable sort -----

  /** `sorted` lists `s` in a stable sorted order: position k holds the element of index `from[k]`,
      and `to` is the inverse of that permutation. */
  ghost predicate StableSort<T>(s: seq<T>, sorted: seq<T>, from: seq<nat>, to: seq<nat>, before: Before<T>) {
    && |sorted| == |s| == |from| == |to|
    && (forall k :: 0 <= k < |s| ==> from[k] < |s| && sorted[k] == s[from[k]])
    && (forall i :: 0 <= i < |s| ==> to[i] < |s| && from[to[i]] == i)
    && Sorted(sorted, before)
    && (forall j, k :: 0 <= j < k < |s| && !before(sorted[j], sorted[k]) ==> from[j] < from[k])
  }

  /** One scan that keeps the best so far, the later one only when it comes strictly before. */
  function Best<T>(s: seq<T>, before: Before<T>): T
    requires s != []
  {
    if |s| == 1 then s[0]
    else
      var rest := Best(s[1..], before);
      if before(rest, s[0]) then rest else s[0]
  }

  /** The position the scan ends on. */
  ghost predicate IsBestAt<T>(s: seq<T>, b: nat, before: Before<T>) {
    && b < |s|
    && (forall j :: 0 <= j < b ==> before(s[b], s[j]))
    && (forall j :: b < j < |s| ==> !before(s[j], s[b]))
  }

  lemma {:induction false} BestIsBest<T(!new)>(s: seq<T>, before: Before<T>) returns (b: nat)
    requires s != [] && WeakOrder(before)
    ensures IsBestAt(s, b, before) && s[b] == Best(s, before)
  {
    if |s| == 1 {
      b := 0;
    } else {
      var c := BestIsBest(s[1..], before);
      if before(s[1..][c], s[0]) {
        b := c + 1;
        assert forall j :: 0 < j < b ==> s[j] == s[1..][j - 1];
        assert forall j :: b < j < |s| ==> s[j] == s[1..][j - 1];
      } else {
        b := 0;
        forall j | 0 < j < |s|
          ensures !before(s[j], s[0])
        {
          assert s[j] == s[1..][j - 1];
          assert j - 1 < c ==> before(s[1..][c], s[j]);
          assert !before(s[j], s[1..][c]) || j - 1 == c;
        }
      }
    }
  }

  /** Whatever algorithm produced it, a stable sort starts with the element the scan finds. */
  lemma StableSortStartsWithBest<T(!new)>(s: seq<T>, sorted: seq<T>, from: seq<nat>, to: seq<nat>, before: Before<T>)
    requires s != [] && WeakOrder(before) && StableSort(s, sorted, from, to, before)
    ensures sorted[0] == Best(s, before)
  {
    var b := BestIsBest(s, before);
    assert sorted[to[b]] == s[b] && sorted[0] == s[from[0]];
    assert from[0] < b ==> before(s[b], s[from[0]]);
    assert b < from[0] ==> !before(s[from[0]], s[b]);
  }

  lemma {:induction false} SortStartsWithBest<T>(s: seq<T>, before: Before<T>)
    requires s != []
    ensures Sort(s, before)[0] == Best(s, before)
  {
    if |s| > 1 {
      SortStartsWithBest(s[1..], before);
    } else {
      assert Sort(s[1..], before) == [];
    }
  }

  /** Nothing comes before the head. */
  lemma BestUnbeaten<T(!new)>(s: seq<T>, before: Before<T>)
    requires s != [] && WeakOrder(before)
    ensures Best(s, before) in s
    ensures forall x :: x in s ==> !before(x, Best(s, before))
  {
    var b := BestIsBest(s, before);
  }

  // ----- strict total orders -----

  ghost predicate TotalOrder<T(!new)>(before: Before<T>) {
    WeakOrder(before) && forall a, b :: a != b ==> before(a, b) || before(b, a)
  }

  lemma SameHead<T(!new)>(s: seq<T>, t: seq<T>, before: Before<T>)
    requires TotalOrder(before) && multiset(s) == multiset(t) && s != [] && t != []
    requires Sorted(s, before) && Sorted(t, before)
    ensures s[0] == t[0]
  {
    assert s[0] in multiset(t) && t[0] in multiset(s);
    assert s[0] in t && t[0] in s;
    assert !before(s[0], t[0]);
    assert !before(t[0], s[0]);
  }

  lemma TailSorted<T(!new)>(s: seq<T>, before: Before<T>)
    requires s != [] && Sorted(s, before)
    ensures Sorted(s[1..], before)
    ensures multiset(s[1..]) == multiset(s) - multiset([s[0]])
  {
    assert s == [s[0]] + s[1..];
  }

  /** Under a total order a collection of elements has only one sorted listing. */
  lemma {:induction false} SortedUnique<T(!new)>(s: seq<T>, t: seq<T>, before: Before<T>)
    requires TotalOrder(before) && multiset(s) == multiset(t)
    requires Sorted(s, before) && Sorted(t, before)
    ensures s == t
  {
    hide TotalOrder, Sorted;
    assert |t| == |multiset(t)| == |multiset(s)| == |s|;
    if s != [] {
      SameHead(s, t, before);
      TailSorted(s, before);
      TailSorted(t, before);
      SortedUnique(s[1..], t[1..], before);
      assert s == [s[0]] + s[1..] && t == [t[0]] + t[1..];
    }
  }
}
