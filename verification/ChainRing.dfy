/** The order of chains around the hub (dashboard/public.legacy/scene-model.js, `orderedChains`):
    slots filled one by one in place, proved equal to a closed form. */
module ChainRing {
  import opened Prelude
  import opened Sorting

  const BITCOIN := "bitcoin"
  const ETHEREUM := "ethereum"
  const BOB := "bob"

  /** `[...new Set(chains)]`. */
  function Unique(s: seq<string>): (r: seq<string>)
    ensures Distinct(r)
    ensures forall x :: x in r <==> x in s
  {
    if s == [] then []
    else
      assert s == s[..|s| - 1] + [s[|s| - 1]];
      var r := Unique(s[..|s| - 1]);
      if s[|s| - 1] in r then r else r + [s[|s| - 1]]
  }

  /** The comparator of the remaining chains: bob first, then by `locale`. It never meets two equal
      chains. */
  function RestOrder(locale: Before<string>): Before<string> {
    (a, b) => a != b && (a == BOB || (b != BOB && locale(a, b)))
  }

  predicate IsRest(chain: string) {
    chain != BITCOIN && chain != ETHEREUM
  }

  function Rest(unique: seq<string>, locale: Before<string>): seq<string> {
    Sort(Filter(unique, IsRest), RestOrder(locale))
  }

  /** Everything but ethereum: bitcoin when present, then the rest. */
  function WithBitcoin(b: bool, rest: seq<string>): seq<string> {
    if b then [BITCOIN] + rest else rest
  }

  function Base(unique: seq<string>, locale: Before<string>): seq<string> {
    WithBitcoin(BITCOIN in unique, Rest(unique, locale))
  }

  lemma RestElements(unique: seq<string>, locale: Before<string>)
    requires Distinct(unique)
    ensures Distinct(Rest(unique, locale)) && forall x :: x in Rest(unique, locale) <==> x in unique && IsRest(x)
  {
    var rest := Filter(unique, IsRest);
    FilterDistinct(unique, IsRest);
    DistinctPermutation(rest, Rest(unique, locale));
    hide Filter;
    forall x
      ensures x in Rest(unique, locale) <==> x in unique && IsRest(x)
    {
      assert x in Rest(unique, locale) <==> x in multiset(Rest(unique, locale));
      assert x in rest <==> x in multiset(rest);
    }
  }

  lemma RestSize(unique: seq<string>, locale: Before<string>)
    requires Distinct(unique)
    ensures |Base(unique, locale)| + (if ETHEREUM in unique then 1 else 0) == |unique|
    ensures forall x :: x in Base(unique, locale) <==> x in unique && x != ETHEREUM
    ensures Distinct(Base(unique, locale))
    ensures Distinct(Rest(unique, locale)) && forall x :: x in Rest(unique, locale) <==> x in unique && IsRest(x)
  {
    RestElements(unique, locale);
    hide Rest;
    var all := Base(unique, locale) + if ETHEREUM in unique then [ETHEREUM] else [];
    assert Distinct(all);
    hide Distinct;
    SameElementsSameSize(all, unique);
  }

  lemma {:induction false} FilterDistinct(s: seq<string>, keep: string -> bool)
    requires Distinct(s)
    ensures Distinct(Filter(s, keep))
  {
    if s != [] {
      FilterDistinct(s[1..], keep);
      assert s[0] !in s[1..];
    }
  }

  lemma {:induction false} DistinctCount(s: seq<string>, x: string)
    requires Distinct(s)
    ensures multiset(s)[x] == if x in s then 1 else 0
  {
    if s != [] {
      DistinctCount(s[1..], x);
      assert s == [s[0]] + s[1..];
      assert s[0] !in s[1..];
    }
  }

  /** Two duplicate-free lists of the same elements are permutations of each other. */
  lemma SameElementsSameSize(s: seq<string>, t: seq<string>)
    requires Distinct(s) && Distinct(t) && forall x :: x in s <==> x in t
    ensures multiset(s) == multiset(t) && |s| == |t|
  {
    forall x
      ensures multiset(s)[x] == multiset(t)[x]
    {
      DistinctCount(s, x);
      DistinctCount(t, x);
    }
    assert |s| == |multiset(s)| && |t| == |multiset(t)|;
  }

  lemma DistinctPermutation(s: seq<string>, t: seq<string>)
    requires Distinct(s) && multiset(s) == multiset(t)
    ensures Distinct(t)
  {
    forall i, j | 0 <= i < j < |t|
      ensures t[i] != t[j]
    {
      if t[i] == t[j] {
        assert t == t[..j] + [t[j]] + t[j + 1..];
        assert t[i] in t[..j];
        assert multiset(t)[t[i]] >= 2;
        DistinctCount(s, t[i]);
      }
    }
  }

  /** Ethereum inserted at position `half`. */
  function WithEthereum(e: bool, half: nat, base: seq<string>): seq<string> {
    if e && half <= |base| then base[..half] + [ETHEREUM] + base[half..] else base
  }

  /** The ring when all slots are filled: bitcoin first, ethereum opposite. */
  function Layout(unique: seq<string>, locale: Before<string>): seq<string> {
    WithEthereum(ETHEREUM in unique, |unique| / 2, Base(unique, locale))
  }

  predicate NonEmpty(chain: string) {
    chain != ""
  }

  /** The order as a function of the input. */
  function Ordered(chains: seq<string>, locale: Before<string>): seq<string> {
    Filter(Layout(Unique(chains), locale), NonEmpty)
  }

  // ----- slot filling -----

  /** Slot `i` of a ring of `n` is reserved: for bitcoin when `b`, for ethereum when `e`. */
  predicate Reserved(b: bool, e: bool, n: nat, i: int) {
    (b && i == 0) || (e && i == n / 2)
  }

  /** How many slots before `i` are not reserved. */
  function Rank(b: bool, e: bool, n: nat, i: int): int {
    i - (if b && i > 0 then 1 else 0) - (if e && i > n / 2 then 1 else 0)
  }

  /** The free slot of rank `k`. */
  function Target(b: bool, e: bool, n: nat, k: nat): nat {
    var p := k + if b then 1 else 0;
    if e && p >= n / 2 then p + 1 else p
  }

  function Holes(b: bool, e: bool): nat {
    (if b then 1 else 0) + (if e then 1 else 0)
  }

  lemma TargetHasRank(b: bool, e: bool, n: nat, k: nat, i: nat)
    requires k + Holes(b, e) < n && i < n && !Reserved(b, e, n, i)
    ensures Target(b, e, n, k) < n && !Reserved(b, e, n, Target(b, e, n, k))
    ensures Rank(b, e, n, i) == k <==> i == Target(b, e, n, k)
    ensures Rank(b, e, n, i) < k <==> i < Target(b, e, n, k)
    ensures 0 <= Rank(b, e, n, i) < n - Holes(b, e)
  {
  }

  lemma RankInRange(b: bool, e: bool, n: nat, i: nat)
    requires Holes(b, e) <= n && i < n && !Reserved(b, e, n, i)
    ensures 0 <= Rank(b, e, n, i) < n - Holes(b, e)
  {
  }

  /** Slot `i` when the first `k` of the remaining chains are placed. */
  function Slot(b: bool, e: bool, n: nat, rest: seq<string>, k: nat, i: nat): Option<string>
    requires k <= |rest|
  {
    if b && i == 0 then Some(BITCOIN)
    else if e && i == n / 2 then Some(ETHEREUM)
    else if 0 <= Rank(b, e, n, i) < k then Some(rest[Rank(b, e, n, i)])
    else None
  }

  lemma NextSlot(b: bool, e: bool, n: nat, rest: seq<string>, k: nat, i: nat)
    requires k < |rest| && |rest| + Holes(b, e) == n && i < n
    ensures Target(b, e, n, k) < n
    ensures Slot(b, e, n, rest, k + 1, i) ==
      if i == Target(b, e, n, k) then Some(rest[k]) else Slot(b, e, n, rest, k, i)
    ensures i == Target(b, e, n, k) ==> Slot(b, e, n, rest, k, i).None?
    ensures i < Target(b, e, n, k) ==> Slot(b, e, n, rest, k, i).Some?
  {
    if !Reserved(b, e, n, i) {
      TargetHasRank(b, e, n, k, i);
    } else {
      TargetFree(b, e, n, k);
    }
    hide Rank, Target;
  }

  lemma TargetFree(b: bool, e: bool, n: nat, k: nat)
    requires k + Holes(b, e) < n
    ensures Target(b, e, n, k) < n && !Reserved(b, e, n, Target(b, e, n, k))
  {
  }

  /** `findIndex` of the first empty slot, -1 when there is none. */
  method FirstFree(order: array<Option<string>>) returns (slot: int)
    ensures -1 <= slot < order.Length
    ensures slot >= 0 ==> order[slot].None? && forall i :: 0 <= i < slot ==> order[i].Some?
    ensures slot == -1 ==> forall i :: 0 <= i < order.Length ==> order[i].Some?
  {
    for i := 0 to order.Length
      invariant forall j :: 0 <= j < i ==> order[j].Some?
    {
      if order[i].None? { return i; }
    }
    return -1;
  }

  /** The closed form, slot by slot. */
  lemma FilledSlot(b: bool, e: bool, n: nat, rest: seq<string>, i: nat)
    requires |rest| + Holes(b, e) == n && i < n && (b && e ==> n >= 2)
    ensures |WithEthereum(e, n / 2, WithBitcoin(b, rest))| == n
    ensures Slot(b, e, n, rest, |rest|, i) == Some(WithEthereum(e, n / 2, WithBitcoin(b, rest))[i])
  {
    if !Reserved(b, e, n, i) {
      RankInRange(b, e, n, i);
    }
  }

  lemma TwoReserved(unique: seq<string>)
    requires Distinct(unique) && BITCOIN in unique && ETHEREUM in unique
    ensures |unique| >= 2
  {
    var i :| 0 <= i < |unique| && unique[i] == BITCOIN;
    var j :| 0 <= j < |unique| && unique[j] == ETHEREUM;
    assert i != j;
  }

  /** The slots hold what they should after `k` of the remaining chains. */
  ghost predicate SlotsAre(order: seq<Option<string>>, b: bool, e: bool, rest: seq<string>, k: nat)
    requires k <= |rest|
  {
    forall i: nat :: i < |order| ==> order[i] == Slot(b, e, |order|, rest, k, i)
  }

  /** The first free slot is the target of the next chain, and filling it is the next step. */
  lemma FillStep(order: seq<Option<string>>, b: bool, e: bool, rest: seq<string>, k: nat)
    requires k < |rest| && |rest| + Holes(b, e) == |order| && SlotsAre(order, b, e, rest, k)
    ensures var t := Target(b, e, |order|, k);
      && t < |order|
      && order[t].None?
      && (forall i: nat :: i < t ==> order[i].Some?)
      && SlotsAre(order[t := Some(rest[k])], b, e, rest, k + 1)
  {
    var n := |order|;
    TargetFree(b, e, n, k);
    hide Slot, Target;
    forall i: nat | i < n
      ensures Slot(b, e, n, rest, k + 1, i) == if i == Target(b, e, n, k) then Some(rest[k]) else order[i]
      ensures i == Target(b, e, n, k) ==> order[i].None?
      ensures i < Target(b, e, n, k) ==> order[i].Some?
    {
      NextSlot(b, e, n, rest, k, i);
    }
  }

  /** The loop over the remaining chains. The search for a free slot never fails. */
  method FillSlots(order: array<Option<string>>, b: bool, e: bool, remaining: seq<string>)
    requires |remaining| + Holes(b, e) == order.Length && SlotsAre(order[..], b, e, remaining, 0)
    modifies order
    ensures SlotsAre(order[..], b, e, remaining, |remaining|)
  {
    for k := 0 to |remaining|
      invariant SlotsAre(order[..], b, e, remaining, k)
    {
      FillStep(order[..], b, e, remaining, k);
      hide SlotsAre;
      var slot := FirstFree(order);
      ghost var target := Target(b, e, order.Length, k);
      assert order[..][target].None? && order[target].None?;
      assert slot != -1 && slot <= target;
      assert forall i :: 0 <= i < target ==> order[..][i] == order[i] && order[i].Some?;
      assert slot == target;
      ghost var before := order[..];
      if slot >= 0 { order[slot] := Some(remaining[k]); }
      assert order[..] == before[target := Some(remaining[k])];
    }
  }

  lemma FilledIsLayout(order: seq<Option<string>>, unique: seq<string>, locale: Before<string>)
    requires Distinct(unique) && |order| == |unique|
    requires SlotsAre(order, BITCOIN in unique, ETHEREUM in unique, Rest(unique, locale), |Rest(unique, locale)|)
    ensures seq(|order|, i requires 0 <= i < |order| => order[i].GetOr("")) == Layout(unique, locale)
  {
    var b, e, n, rest := BITCOIN in unique, ETHEREUM in unique, |unique|, Rest(unique, locale);
    RestSize(unique, locale);
    assert |rest| + Holes(b, e) == n;
    if b && e { TwoReserved(unique); }
    hide Rest, Slot, WithBitcoin, WithEthereum;
    forall i: nat | i < n
      ensures order[i] == Some(Layout(unique, locale)[i]) && |Layout(unique, locale)| == n
    {
      FilledSlot(b, e, n, rest, i);
    }
    if n == 0 {
      EmptyLayout(unique, locale);
    }
  }

  lemma EmptyLayout(unique: seq<string>, locale: Before<string>)
    requires unique == []
    ensures Layout(unique, locale) == []
  {
  }

  /** With nothing placed, only the reserved slots are filled. */
  lemma NothingPlaced(order: seq<Option<string>>, b: bool, e: bool, rest: seq<string>)
    requires forall i :: 0 <= i < |order| ==>
      order[i] == if b && i == 0 then Some(BITCOIN) else if e && i == |order| / 2 then Some(ETHEREUM) else None
    ensures SlotsAre(order, b, e, rest, 0)
  {
  }

  method ReserveSlots(b: bool, e: bool, n: nat) returns (order: array<Option<string>>)
    requires (b || e ==> n >= 1) && (b && e ==> n >= 2)
    ensures fresh(order) && order.Length == n
    ensures forall i :: 0 <= i < n ==>
      order[i] == if b && i == 0 then Some(BITCOIN) else if e && i == n / 2 then Some(ETHEREUM) else None
  {
    order := new Option<string>[n](_ => None);
    if b { order[0] := Some(BITCOIN); }
    if e { order[n / 2] := Some(ETHEREUM); }
  }

  /** `orderedChains`. */
  method OrderedChains(chains: seq<string>, locale: Before<string>) returns (r: seq<string>)
    ensures r == Ordered(chains, locale)
  {
    hide Rest, Filter, Slot, SlotsAre, Layout;
    var unique := Unique(chains);
    var remaining := Rest(unique, locale);
    var b, e := BITCOIN in unique, ETHEREUM in unique;
    RestSize(unique, locale);
    assert |remaining| + Holes(b, e) == |unique|;
    if b && e { TwoReserved(unique); }
    var order := ReserveSlots(b, e, |unique|);
    NothingPlaced(order[..], b, e, remaining);
    FillSlots(order, b, e, remaining);
    FilledIsLayout(order[..], unique, locale);
    var slots := order[..];
    return Filter(seq(|slots|, i requires 0 <= i < |slots| => slots[i].GetOr("")), NonEmpty);
  }
}
