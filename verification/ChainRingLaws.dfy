/** What the ring order promises: a permutation with two fixed places, the same for every listing of
    the same chains, and exactly when it is idempotent. */
module ChainRingLaws {
  import opened Prelude
  import opened Sorting
  import opened ChainRing

  lemma RestOrderTotal(locale: Before<string>)
    requires TotalOrder(locale)
    ensures TotalOrder(RestOrder(locale))
  {
    var before := RestOrder(locale);
    forall a, b, c
      ensures before(a, b) ==> !before(b, a)
      ensures !before(b, a) && !before(c, b) ==> !before(c, a)
      ensures a != b ==> before(a, b) || before(b, a)
    {
      assert locale(a, b) ==> !locale(b, a);
      assert !locale(b, a) && !locale(c, b) ==> !locale(c, a);
      assert a != b ==> locale(a, b) || locale(b, a);
      assert b != c ==> locale(b, c) || locale(c, b);
      assert a != c ==> locale(a, c) || locale(c, a);
    }
  }

  // ----- permutation -----

  /** The result lists every distinct non-empty input once, whatever the order relation is. */
  lemma OrderedIsPermutation(chains: seq<string>, locale: Before<string>)
    ensures Distinct(Ordered(chains, locale))
    ensures forall x :: x in Ordered(chains, locale) <==> x in chains && x != ""
  {
    var unique := Unique(chains);
    RestSize(unique, locale);
    LayoutElements(unique, locale);
    FilterDistinct(Layout(unique, locale), NonEmpty);
  }

  lemma LayoutElements(unique: seq<string>, locale: Before<string>)
    requires Distinct(unique)
    ensures Distinct(Layout(unique, locale)) && |Layout(unique, locale)| == |unique|
    ensures forall x :: x in Layout(unique, locale) <==> x in unique
  {
    RestSize(unique, locale);
    hide Base;
    if ETHEREUM in unique {
      InsertedElements(Base(unique, locale), |unique| / 2);
    }
  }

  lemma InsertedElements(base: seq<string>, at: nat)
    requires at <= |base| && Distinct(base) && ETHEREUM !in base
    ensures Distinct(WithEthereum(true, at, base))
    ensures forall x :: x in WithEthereum(true, at, base) <==> x in base || x == ETHEREUM
  {
    var s := WithEthereum(true, at, base);
    assert s[at] == ETHEREUM;
    forall i | 0 <= i < |s|
      ensures s[i] == if i < at then base[i] else if i == at then ETHEREUM else base[i - 1]
    {
    }
    forall x | x in base
      ensures x in s
    {
      var i :| 0 <= i < |base| && base[i] == x;
      assert s[if i < at then i else i + 1] == x;
    }
  }

  // ----- independence from the listing -----

  lemma RestOfSet(s: seq<string>, t: seq<string>, locale: Before<string>)
    requires TotalOrder(locale) && Distinct(s) && Distinct(t)
    requires forall x :: IsRest(x) ==> (x in s <==> x in t)
    ensures Rest(s, locale) == Rest(t, locale)
  {
    FilterDistinct(s, IsRest);
    FilterDistinct(t, IsRest);
    SameElementsSameSize(Filter(s, IsRest), Filter(t, IsRest));
    RestOrderTotal(locale);
    SortSorts(Filter(s, IsRest), RestOrder(locale));
    SortSorts(Filter(t, IsRest), RestOrder(locale));
    hide RestOrder;
    SortedUnique(Rest(s, locale), Rest(t, locale), RestOrder(locale));
  }

  /** Reordering or repeating the input changes nothing. */
  lemma OrderedOfSet(s: seq<string>, t: seq<string>, locale: Before<string>)
    requires TotalOrder(locale)
    requires forall x :: x in s <==> x in t
    ensures Ordered(s, locale) == Ordered(t, locale)
  {
    hide TotalOrder, Sort;
    SameElementsSameSize(Unique(s), Unique(t));
    RestOfSet(Unique(s), Unique(t), locale);
    hide Rest, Unique;
    assert BITCOIN in Unique(s) <==> BITCOIN in Unique(t);
    assert ETHEREUM in Unique(s) <==> ETHEREUM in Unique(t);
  }

  // ----- the fixed places -----

  lemma {:induction false} FilterAll(s: seq<string>, keep: string -> bool)
    requires forall x :: x in s ==> keep(x)
    ensures Filter(s, keep) == s
  {
    if s != [] {
      FilterAll(s[1..], keep);
    }
  }

  lemma {:induction false} FilterOne(s: seq<string>)
    requires Distinct(s)
    ensures |Filter(s, NonEmpty)| == |s| - if "" in s then 1 else 0
  {
    if s != [] {
      FilterOne(s[1..]);
      assert s == [s[0]] + s[1..];
      assert s[0] !in s[1..];
    }
  }

  /** Where ethereum ends up after the empty id, if any, is dropped. */
  function EthereumIndex(unique: seq<string>, locale: Before<string>): nat
    requires |unique| / 2 <= |Base(unique, locale)|
  {
    |Filter(Base(unique, locale)[..|unique| / 2], NonEmpty)|
  }

  lemma HalfInBase(unique: seq<string>, locale: Before<string>)
    requires Distinct(unique)
    ensures |unique| / 2 <= |Base(unique, locale)|
  {
    RestSize(unique, locale);
  }

  /** The result is the non-empty base with ethereum inserted at its index. */
  lemma OrderedShape(chains: seq<string>, locale: Before<string>)
    ensures |Unique(chains)| / 2 <= |Base(Unique(chains), locale)|
    ensures EthereumIndex(Unique(chains), locale) <= |Filter(Base(Unique(chains), locale), NonEmpty)|
    ensures Ordered(chains, locale) == WithEthereum(
        ETHEREUM in chains, EthereumIndex(Unique(chains), locale), Filter(Base(Unique(chains), locale), NonEmpty))
  {
    var unique := Unique(chains);
    HalfInBase(unique, locale);
    hide Base;
    var base, half := Base(unique, locale), |unique| / 2;
    assert base == base[..half] + base[half..];
    FilterAppend(base[..half], base[half..], NonEmpty);
    if ETHEREUM in unique {
      FilterAppend(base[..half] + [ETHEREUM], base[half..], NonEmpty);
      FilterAppend(base[..half], [ETHEREUM], NonEmpty);
      assert Filter([ETHEREUM], NonEmpty) == [ETHEREUM];
    }
  }

  /** Ethereum stands at the middle of the result. */
  ghost predicate EthereumOpposite(chains: seq<string>, locale: Before<string>) {
    ETHEREUM in chains ==>
      && |Ordered(chains, locale)| / 2 < |Ordered(chains, locale)|
      && Ordered(chains, locale)[|Ordered(chains, locale)| / 2] == ETHEREUM
  }

  /** Inserting at two places gives the same list only when the places are the same. */
  lemma InsertPlace(base: seq<string>, i: nat, j: nat)
    requires i <= |base| && j <= |base| && ETHEREUM !in base
    ensures WithEthereum(true, i, base)[j] == ETHEREUM <==> i == j
    ensures WithEthereum(true, i, base) == WithEthereum(true, j, base) <==> i == j
  {
    var s, t := WithEthereum(true, i, base), WithEthereum(true, j, base);
    assert s[i] == ETHEREUM && t[j] == ETHEREUM;
    assert j < i ==> s[j] == base[j];
    assert j > i ==> s[j] == base[j - 1];
  }

  lemma OppositeExactly(chains: seq<string>, locale: Before<string>)
    ensures |Unique(chains)| / 2 <= |Base(Unique(chains), locale)|
    ensures EthereumOpposite(chains, locale) <==>
      (ETHEREUM in chains ==> EthereumIndex(Unique(chains), locale) == |Ordered(chains, locale)| / 2)
  {
    OrderedShape(chains, locale);
    RestSize(Unique(chains), locale);
    hide Base, Ordered;
    var base, idx := Filter(Base(Unique(chains), locale), NonEmpty), EthereumIndex(Unique(chains), locale);
    if ETHEREUM in chains {
      InsertPlace(base, idx, |Ordered(chains, locale)| / 2);
    }
  }

  /** Without an empty id: bitcoin first, ethereum in the middle, and the others between them in
      order, bob before all of them. */
  lemma OrderedPlaces(chains: seq<string>, locale: Before<string>)
    requires "" !in chains && TotalOrder(locale)
    ensures BITCOIN in chains ==> |Ordered(chains, locale)| > 0 && Ordered(chains, locale)[0] == BITCOIN
    ensures EthereumOpposite(chains, locale)
    ensures Filter(Ordered(chains, locale), IsRest) == Rest(Unique(chains), locale)
    ensures Sorted(Filter(Ordered(chains, locale), IsRest), RestOrder(locale))
    ensures BOB in chains ==>
      Filter(Ordered(chains, locale), IsRest) != [] && Filter(Ordered(chains, locale), IsRest)[0] == BOB
  {
    var unique := Unique(chains);
    var base, rest, half := Base(unique, locale), Rest(unique, locale), |unique| / 2;
    RestSize(unique, locale);
    LayoutElements(unique, locale);
    FilterAll(Layout(unique, locale), NonEmpty);
    if BITCOIN in unique && ETHEREUM in unique { TwoReserved(unique); }
    RestOrderTotal(locale);
    SortSorts(Filter(unique, IsRest), RestOrder(locale));
    RestOfBase(unique, locale);
    hide Sort;
    if BOB in chains {
      BobFirst(rest, locale);
    }
  }

  lemma FilterSingle(x: string, keep: string -> bool)
    ensures Filter([x], keep) == if keep(x) then [x] else []
  {
  }

  lemma FilterInserted(base: seq<string>, at: nat, x: string, keep: string -> bool)
    requires at <= |base| && !keep(x)
    ensures Filter(base[..at] + [x] + base[at..], keep) == Filter(base, keep)
  {
    FilterSingle(x, keep);
    hide Filter;
    var left, right := base[..at], base[at..];
    assert base == left + right;
    FilterAppend(left, right, keep);
    FilterAppend(left + [x], right, keep);
    FilterAppend(left, [x], keep);
    assert Filter(left + [x], keep) == Filter(left, keep);
  }

  lemma RestOfBase(unique: seq<string>, locale: Before<string>)
    requires Distinct(unique)
    ensures Filter(Layout(unique, locale), IsRest) == Rest(unique, locale)
  {
    RestSize(unique, locale);
    var base, rest := Base(unique, locale), Rest(unique, locale);
    FilterAll(rest, IsRest);
    hide Rest;
    FilterAppend([BITCOIN], rest, IsRest);
    assert Filter([BITCOIN], IsRest) == [];
    assert Filter(base, IsRest) == rest;
    hide Base, Filter;
    if ETHEREUM in unique {
      FilterInserted(base, |unique| / 2, ETHEREUM, IsRest);
    }
  }

  lemma BobFirst(rest: seq<string>, locale: Before<string>)
    requires Sorted(rest, RestOrder(locale)) && BOB in rest && Distinct(rest)
    ensures rest[0] == BOB
  {
    var i :| 0 <= i < |rest| && rest[i] == BOB;
    assert RestOrder(locale)(rest[i], rest[0]) == (rest[0] != BOB);
  }

  // ----- idempotence -----

  lemma BaseOfResult(chains: seq<string>, locale: Before<string>)
    requires TotalOrder(locale)
    ensures Base(Unique(Ordered(chains, locale)), locale) == Filter(Base(Unique(chains), locale), NonEmpty)
    ensures |Unique(Ordered(chains, locale))| == |Ordered(chains, locale)|
  {
    var unique, r := Unique(chains), Ordered(chains, locale);
    OrderedIsPermutation(chains, locale);
    SameElementsSameSize(Unique(r), r);
    var rest := Rest(unique, locale);
    RestSize(unique, locale);
    RestSize(Unique(r), locale);
    FilterDistinct(rest, NonEmpty);
    SameElementsSameSize(Rest(Unique(r), locale), Filter(rest, NonEmpty));
    RestOrderTotal(locale);
    SortSorts(Filter(unique, IsRest), RestOrder(locale));
    SortSorts(Filter(Unique(r), IsRest), RestOrder(locale));
    FilterSorted(rest, NonEmpty, RestOrder(locale));
    SortedUnique(Rest(Unique(r), locale), Filter(rest, NonEmpty), RestOrder(locale));
    hide Rest, Ordered, Unique;
    FilterAppend([BITCOIN], rest, NonEmpty);
    assert Filter([BITCOIN], NonEmpty) == [BITCOIN];
  }

  /** Ordering twice changes nothing exactly when ethereum already stands at the middle: always,
      unless the input holds the empty id. */
  lemma IdempotentExactly(chains: seq<string>, locale: Before<string>)
    requires TotalOrder(locale)
    ensures Ordered(Ordered(chains, locale), locale) == Ordered(chains, locale) <==> EthereumOpposite(chains, locale)
  {
    var r := Ordered(chains, locale);
    OrderedIsPermutation(chains, locale);
    OrderedShape(chains, locale);
    OppositeExactly(chains, locale);
    BaseOfResult(chains, locale);
    RestSize(Unique(chains), locale);
    LayoutElements(Unique(r), locale);
    FilterAll(Layout(Unique(r), locale), NonEmpty);
    HalfInBase(Unique(r), locale);
    hide TotalOrder, Base, EthereumOpposite;
    var base, idx := Filter(Base(Unique(chains), locale), NonEmpty), EthereumIndex(Unique(chains), locale);
    assert Ordered(r, locale) == WithEthereum(ETHEREUM in chains, |r| / 2, base);
    hide Ordered;
    if ETHEREUM in chains {
      InsertPlace(base, idx, |r| / 2);
    }
  }

  /** The locale puts the empty id before every other. */
  ghost predicate EmptyFirst(locale: Before<string>) {
    forall s :: s != "" ==> locale("", s)
  }

  /** How many ids stand before the empty id. */
  function BeforeEmpty(chains: seq<string>): nat {
    (if BITCOIN in chains then 1 else 0) + (if BOB in chains then 1 else 0)
  }

  lemma EmptyPosition(unique: seq<string>, locale: Before<string>)
    requires TotalOrder(locale) && EmptyFirst(locale) && Distinct(unique) && "" in unique
    ensures BeforeEmpty(unique) < |Base(unique, locale)| && Base(unique, locale)[BeforeEmpty(unique)] == ""
  {
    var rest := Rest(unique, locale);
    RestSize(unique, locale);
    RestOrderTotal(locale);
    SortSorts(Filter(unique, IsRest), RestOrder(locale));
    hide TotalOrder, Sort;
    var j :| 0 <= j < |rest| && rest[j] == "";
    assert forall k :: 0 <= k < j ==> !RestOrder(locale)(rest[j], rest[k]);
    assert forall k :: 0 <= k < j ==> rest[k] == BOB;
    if BOB in unique {
      BobFirst(rest, locale);
    }
    var first, second := rest[0], if |rest| > 1 then rest[1] else "";
    assert first in rest && j <= 1;
  }

  /** For inputs with the empty id, which the source drops only after the slots are filled: ethereum
      still ends up in the middle, and the order is idempotent, exactly when the number of distinct
      ids is even if and only if fewer than half of them stand before the empty id. */
  lemma OppositeWithEmptyId(chains: seq<string>, locale: Before<string>)
    requires TotalOrder(locale) && EmptyFirst(locale) && "" in chains && ETHEREUM in chains
    ensures var n := |Unique(chains)|;
      EthereumOpposite(chains, locale) <==> (n % 2 == 0 <==> BeforeEmpty(chains) < n / 2)
  {
    var unique := Unique(chains);
    var half, p := |unique| / 2, BeforeEmpty(chains);
    OppositeExactly(chains, locale);
    EmptyPosition(unique, locale);
    SizeWithEmptyId(chains, locale);
    HalfInBase(unique, locale);
    RestSize(unique, locale);
    assert p == BeforeEmpty(unique);
    hide TotalOrder, EmptyFirst, Base, EthereumOpposite, BeforeEmpty, Ordered, Unique, EthereumIndex;
    IndexWithEmptyId(unique, locale, p);
  }

  lemma SizeWithEmptyId(chains: seq<string>, locale: Before<string>)
    requires "" in chains
    ensures |Ordered(chains, locale)| == |Unique(chains)| - 1
  {
    LayoutElements(Unique(chains), locale);
    hide Layout;
    FilterOne(Layout(Unique(chains), locale));
  }

  lemma IndexWithEmptyId(unique: seq<string>, locale: Before<string>, p: nat)
    requires |unique| / 2 <= |Base(unique, locale)| && Distinct(Base(unique, locale))
    requires p < |Base(unique, locale)| && Base(unique, locale)[p] == ""
    ensures EthereumIndex(unique, locale) == |unique| / 2 - if p < |unique| / 2 then 1 else 0
  {
    hide Base, Filter;
    var left := Base(unique, locale)[..|unique| / 2];
    FilterOne(left);
    if p < |unique| / 2 {
      assert left[p] == "";
    }
  }

  /** An input on which both promises fail: the empty id pushes ethereum off the middle. */
  lemma EmptyIdDisplacesEthereum(locale: Before<string>)
    requires TotalOrder(locale) && EmptyFirst(locale)
    ensures !EthereumOpposite(["", ETHEREUM, "base"], locale)
    ensures Ordered(Ordered(["", ETHEREUM, "base"], locale), locale) != Ordered(["", ETHEREUM, "base"], locale)
  {
    hide Ordered, EthereumOpposite, BeforeEmpty;
    var chains := ["", ETHEREUM, "base"];
    SameElementsSameSize(Unique(chains), chains);
    hide Unique;
    NoneBefore(chains);
    OppositeWithEmptyId(chains, locale);
    IdempotentExactly(chains, locale);
  }

  lemma NoneBefore(chains: seq<string>)
    requires BITCOIN !in chains && BOB !in chains
    ensures BeforeEmpty(chains) == 0
  {
  }
}
