/** The recent movements drawn on the map (dashboard/public/mindmap.jsx): recency filter, newest
    per key, newest first, gateway and chain filter, cut, and the drop of what has no place on the map. */
module Movements {
  import opened Prelude
  import opened Sorting

  /** `new Date(observedAt || 0)`: `None` is an unparseable date, a missing one counts as 0. */
  datatype Movement = Movement(
    routeProvider: string, kind: string, routeKey: string, fromChainId: string, toChainId: string,
    assetId: string, strategyId: string, viaGateway: Option<bool>, observedMs: Option<int>)

  const TTL_MS := 6 * 60 * 60 * 1000
  const MAX_ROOT_TRACKS: nat := 2
  const MAX_FOCUSED_TRACKS: nat := 12

  function KeyOf(m: Movement): string {
    var provider := OrElse(OrElse(m.routeProvider, m.kind), "movement");
    if m.routeKey != "" then provider + ":" + m.routeKey
    else provider + ":" + m.fromChainId + "->" + m.toChainId + ":" + OrElse(m.assetId, "asset")
  }

  predicate IsRecent(m: Movement, now: int) {
    m.observedMs.Some? && 0 <= now - m.observedMs.value <= TTL_MS
  }

  /** Comparing dates: an invalid date is never newer. */
  predicate Newer(a: Movement, b: Movement) {
    a.observedMs.Some? && b.observedMs.Some? && a.observedMs.value > b.observedMs.value
  }

  // ----- newest per key -----

  /** A JavaScript `Map`: its keys in the order they were first set. */
  datatype Table = Table(order: seq<string>, entries: map<string, Movement>)

  function Offer(t: Table, m: Movement): Table {
    var key := KeyOf(m);
    if key !in t.entries then Table(t.order + [key], t.entries[key := m])
    else if Newer(m, t.entries[key]) then t.(entries := t.entries[key := m])
    else t
  }

  function TableOf(ms: seq<Movement>): Table {
    if ms == [] then Table([], map[]) else Offer(TableOf(ms[..|ms| - 1]), ms[|ms| - 1])
  }

  ghost predicate WellFormed(t: Table) {
    && Distinct(t.order)
    && (forall key :: key in t.order <==> key in t.entries)
    && (forall key :: key in t.entries ==> KeyOf(t.entries[key]) == key)
  }

  lemma {:induction false} TableWellFormed(ms: seq<Movement>)
    ensures WellFormed(TableOf(ms))
  {
    hide KeyOf;
    if ms != [] {
      TableWellFormed(ms[..|ms| - 1]);
    }
  }

  function Values(t: Table): (r: seq<Movement>)
    requires WellFormed(t)
    ensures |r| == |t.order|
  {
    seq(|t.order|, i requires 0 <= i < |t.order| => assert t.order[i] in t.order; t.entries[t.order[i]])
  }

  function Dedupe(ms: seq<Movement>): seq<Movement> {
    TableWellFormed(ms);
    Values(TableOf(ms))
  }

  /** The loop of `dedupeRecentMovements`. */
  method DedupeRecentMovements(ms: seq<Movement>) returns (r: seq<Movement>)
    ensures r == Dedupe(ms)
  {
    var order: seq<string>, byKey: map<string, Movement> := [], map[];
    for i := 0 to |ms|
      invariant Table(order, byKey) == TableOf(ms[..i])
    {
      var movement := ms[i];
      var key := KeyOf(movement);
      if key !in byKey {
        order, byKey := order + [key], byKey[key := movement];
      } else if Newer(movement, byKey[key]) {
        byKey := byKey[key := movement];
      }
      assert ms[..i + 1][..i] == ms[..i];
    }
    assert ms[..|ms|] == ms;
    TableWellFormed(ms);
    return Values(Table(order, byKey));
  }

  ghost predicate DistinctKeys(ms: seq<Movement>) {
    forall i, j :: 0 <= i < j < |ms| ==> KeyOf(ms[i]) != KeyOf(ms[j])
  }

  /** `m` is a movement of `ms` and none with its key is newer. */
  ghost predicate NewestOfKey(m: Movement, ms: seq<Movement>) {
    m in ms && forall x :: x in ms && KeyOf(x) == KeyOf(m) ==> !Newer(x, m)
  }

  /** One more movement: the entry of each key stays a newest one. */
  lemma OfferNewest(t: Table, before: seq<Movement>, last: Movement, key: string)
    requires key in Offer(t, last).entries
    requires key in t.entries ==> NewestOfKey(t.entries[key], before) && KeyOf(t.entries[key]) == key
    requires key !in t.entries ==> forall x :: x in before ==> KeyOf(x) != key
    ensures NewestOfKey(Offer(t, last).entries[key], before + [last])
  {
    hide KeyOf;
    var m := Offer(t, last).entries[key];
    forall x | x in before + [last] && KeyOf(x) == KeyOf(m)
      ensures !Newer(x, m)
    {
      assert x in before || x == last;
    }
  }

  lemma {:induction false} TableNewest(ms: seq<Movement>)
    ensures forall x :: x in ms ==> KeyOf(x) in TableOf(ms).entries
    ensures forall key :: key in TableOf(ms).entries ==> NewestOfKey(TableOf(ms).entries[key], ms)
  {
    hide KeyOf, NewestOfKey, Newer;
    if ms != [] {
      var before, last := ms[..|ms| - 1], ms[|ms| - 1];
      TableNewest(before);
      TableWellFormed(before);
      assert ms == before + [last];
      var t := TableOf(before);
      forall key | key in Offer(t, last).entries
        ensures NewestOfKey(Offer(t, last).entries[key], ms)
      {
        OfferNewest(t, before, last, key);
      }
    }
  }

  /** Deduplicating leaves one per key, and it is a newest of its key. */
  lemma DedupeNewest(ms: seq<Movement>)
    ensures DistinctKeys(Dedupe(ms))
    ensures forall m :: m in Dedupe(ms) ==> NewestOfKey(m, ms)
    ensures forall x :: x in ms ==> exists m :: m in Dedupe(ms) && KeyOf(m) == KeyOf(x)
  {
    TableWellFormed(ms);
    TableNewest(ms);
    hide KeyOf;
    var t := TableOf(ms);
    var r := Dedupe(ms);
    forall i | 0 <= i < |r|
      ensures t.order[i] in t.entries && r[i] == t.entries[t.order[i]] && KeyOf(r[i]) == t.order[i]
    {
      assert t.order[i] in t.order;
    }
    forall x | x in ms
      ensures exists m :: m in r && KeyOf(m) == KeyOf(x)
    {
      assert KeyOf(x) in t.order;
      var i :| 0 <= i < |t.order| && t.order[i] == KeyOf(x);
      assert r[i] in r;
    }
  }

  /** The table of movements with distinct keys just lists them. */
  ghost predicate Lists(t: Table, ms: seq<Movement>) {
    && t.order == seq(|ms|, i requires 0 <= i < |ms| => KeyOf(ms[i]))
    && (forall i :: 0 <= i < |ms| ==> KeyOf(ms[i]) in t.entries && t.entries[KeyOf(ms[i])] == ms[i])
    && (forall key :: key in t.entries ==> exists i :: 0 <= i < |ms| && KeyOf(ms[i]) == key)
  }

  lemma OfferLists(t: Table, ms: seq<Movement>, last: Movement)
    requires Lists(t, ms) && DistinctKeys(ms + [last])
    ensures Lists(Offer(t, last), ms + [last])
  {
    hide KeyOf;
    var all, after := ms + [last], Offer(t, last);
    assert all[|ms|] == last;
    assert forall i :: 0 <= i < |ms| ==> all[i] == ms[i] && KeyOf(all[i]) != KeyOf(all[|ms|]);
    assert KeyOf(last) !in t.entries;
    forall key | key in after.entries
      ensures exists i :: 0 <= i < |all| && KeyOf(all[i]) == key
    {
      if key in t.entries {
        var i :| 0 <= i < |ms| && KeyOf(ms[i]) == key;
        assert KeyOf(all[i]) == key;
      }
    }
  }

  lemma {:induction false} TableOfDistinct(ms: seq<Movement>)
    requires DistinctKeys(ms)
    ensures Lists(TableOf(ms), ms)
  {
    hide KeyOf;
    if ms != [] {
      var n := |ms| - 1;
      assert ms == ms[..n] + [ms[n]];
      TableOfDistinct(ms[..n]);
      hide Lists;
      OfferLists(TableOf(ms[..n]), ms[..n], ms[n]);
    }
  }

  /** Deduplicating twice changes nothing. */
  lemma DedupeIdempotent(ms: seq<Movement>)
    ensures Dedupe(Dedupe(ms)) == Dedupe(ms)
  {
    TableWellFormed(ms);
    var r, t := Dedupe(ms), TableOf(ms);
    hide KeyOf;
    forall i | 0 <= i < |r|
      ensures KeyOf(r[i]) == t.order[i]
    {
      assert t.order[i] in t.order;
    }
    assert DistinctKeys(r);
    TableOfDistinct(r);
    TableWellFormed(r);
    var u := Dedupe(r);
    assert |u| == |r|;
    forall i | 0 <= i < |r|
      ensures u[i] == r[i]
    {
      assert TableOf(r).order[i] == KeyOf(r[i]);
    }
  }

  // ----- the pipeline -----

  predicate Eligible(m: Movement, now: int) {
    m.fromChainId != "" && m.toChainId != "" && IsRecent(m, now)
  }

  predicate NewestFirst(a: Movement, b: Movement) {
    a.observedMs.GetOr(0) > b.observedMs.GetOr(0)
  }

  /** `movementUsesGateway`; `lower` is the lower-casing of strings. */
  predicate UsesGateway(m: Movement, lower: string -> string) {
    if m.viaGateway.Some? then m.viaGateway.value
    else
      var provider := lower(m.routeProvider);
      if provider != "" then provider == "gateway" || provider == "bob_gateway"
      else m.kind == "gateway_bridge" || IsSubstring("gateway", m.strategyId)
  }

  /** The selected chain, if any, is an end of the movement. */
  predicate Touches(m: Movement, selected: Option<string>) {
    selected.Some? ==> m.fromChainId == selected.value || m.toChainId == selected.value
  }

  function EligibleOf(ms: seq<Movement>, now: int): (r: seq<Movement>)
    ensures forall m :: m in r <==> m in ms && Eligible(m, now)
  {
    Filter(ms, m => Eligible(m, now))
  }

  function Recent(ms: seq<Movement>, now: int): (r: seq<Movement>)
    ensures multiset(r) == multiset(Dedupe(EligibleOf(ms, now)))
  {
    Sort(Dedupe(EligibleOf(ms, now)), NewestFirst)
  }

  /** The two filters behind the sort. */
  predicate Passes(m: Movement, selected: Option<string>, lower: string -> string) {
    UsesGateway(m, lower) && Touches(m, selected)
  }

  function TrackFilter(selected: Option<string>, lower: string -> string): Movement -> bool {
    m => Passes(m, selected, lower)
  }

  function Visible(ms: seq<Movement>, now: int, selected: Option<string>, lower: string -> string): seq<Movement> {
    Filter(Recent(ms, now), TrackFilter(selected, lower))
  }

  function Take(ms: seq<Movement>, n: nat): seq<Movement> {
    if |ms| <= n then ms else ms[..n]
  }

  function Cap(selected: Option<string>): nat {
    if selected.Some? then MAX_FOCUSED_TRACKS else MAX_ROOT_TRACKS
  }

  /** `visibleMovementSeeds`: what is left after the cut. */
  function Seeds(ms: seq<Movement>, now: int, selected: Option<string>, lower: string -> string): seq<Movement> {
    Take(Visible(ms, now, selected, lower), Cap(selected))
  }

  /** `getChainPos` finds a position; `ring` holds the chains on the ring. */
  predicate Placed(chain: string, ring: set<string>) {
    chain == "bitcoin" || chain == "bob_gateway" || chain in ring
  }

  /** `buildMovementTrack` gives a track; the gateway itself always has a place. */
  predicate Drawable(m: Movement, ring: set<string>) {
    Placed(m.fromChainId, ring) && Placed(m.toChainId, ring)
  }

  function DrawFilter(ring: set<string>): Movement -> bool {
    m => Drawable(m, ring)
  }

  /** The movements of `visibleMovementTracks`. */
  function Tracks(
      ms: seq<Movement>, now: int, selected: Option<string>, lower: string -> string, ring: set<string>): seq<Movement>
  {
    Filter(Seeds(ms, now, selected, lower), DrawFilter(ring))
  }

  lemma NewestFirstOrder()
    ensures WeakOrder(NewestFirst)
  {
  }

  lemma {:induction false} FilterDistinctKeys(ms: seq<Movement>, keep: Movement -> bool)
    requires DistinctKeys(ms)
    ensures DistinctKeys(Filter(ms, keep))
  {
    hide KeyOf;
    if ms != [] {
      FilterDistinctKeys(ms[1..], keep);
      var rest := Filter(ms[1..], keep);
      forall j | 0 <= j < |rest|
        ensures KeyOf(rest[j]) != KeyOf(ms[0])
      {
        assert rest[j] in ms[1..];
      }
    }
  }

  /** Having distinct keys is a property of the collection, not of its order. */
  lemma DistinctKeysPermutation(a: seq<Movement>, b: seq<Movement>)
    requires multiset(a) == multiset(b) && DistinctKeys(a)
    ensures DistinctKeys(b)
  {
    hide KeyOf;
    forall i, j | 0 <= i < j < |b|
      ensures KeyOf(b[i]) != KeyOf(b[j])
    {
      if KeyOf(b[i]) == KeyOf(b[j]) {
        assert b[i] in multiset(a) && b[j] in multiset(a);
        assert b[i] == b[j];
        TwiceIn(b, i, j);
        OnceIn(a, b[i]);
      }
    }
  }

  lemma TwiceIn<T>(s: seq<T>, i: nat, j: nat)
    requires i < j < |s| && s[i] == s[j]
    ensures multiset(s)[s[i]] >= 2
  {
    assert s == s[..j] + [s[j]] + s[j + 1..];
    assert s[i] in s[..j];
  }

  lemma {:induction false} OnceIn(s: seq<Movement>, m: Movement)
    requires DistinctKeys(s)
    ensures multiset(s)[m] <= 1
  {
    hide KeyOf;
    if s != [] {
      assert s == [s[0]] + s[1..];
      OnceIn(s[1..], m);
      forall k | 0 <= k < |s[1..]|
        ensures s[1..][k] != s[0]
      {
        assert KeyOf(s[0]) != KeyOf(s[k + 1]);
      }
    }
  }

  lemma RecentAreDeduped(ms: seq<Movement>, now: int)
    ensures forall m :: m in Recent(ms, now) <==> m in Dedupe(EligibleOf(ms, now))
  {
    hide Recent, Dedupe, EligibleOf;
    forall m
      ensures m in Recent(ms, now) <==> m in Dedupe(EligibleOf(ms, now))
    {
      assert m in Recent(ms, now) <==> m in multiset(Recent(ms, now));
      assert m in Dedupe(EligibleOf(ms, now)) <==> m in multiset(Dedupe(EligibleOf(ms, now)));
    }
  }

  /** Every visible movement was observed, is eligible, uses the gateway, touches the selected chain
      and is a newest of its key among the eligible. */
  lemma VisibleAreNewest(ms: seq<Movement>, now: int, selected: Option<string>, lower: string -> string, m: Movement)
    requires m in Visible(ms, now, selected, lower)
    ensures m in ms && Eligible(m, now) && Passes(m, selected, lower)
    ensures forall x :: x in ms && Eligible(x, now) && KeyOf(x) == KeyOf(m) ==> !Newer(x, m)
  {
    hide KeyOf, Dedupe, Recent, Eligible, Passes, Newer;
    DedupeNewest(EligibleOf(ms, now));
    RecentAreDeduped(ms, now);
  }

  /** Every eligible observation is represented: the newest of its key survives deduplication, and
      is visible when it uses the gateway and touches the selected chain. */
  lemma EligibleRepresented(ms: seq<Movement>, now: int, selected: Option<string>, lower: string -> string, x: Movement)
    returns (m: Movement)
    requires x in ms && Eligible(x, now)
    ensures m in ms && Eligible(m, now) && m in Recent(ms, now) && KeyOf(m) == KeyOf(x) && !Newer(x, m)
    ensures Passes(m, selected, lower) ==> m in Visible(ms, now, selected, lower)
  {
    hide KeyOf, Dedupe, Recent, Eligible, Passes, Newer;
    DedupeNewest(EligibleOf(ms, now));
    RecentAreDeduped(ms, now);
    m :| m in Dedupe(EligibleOf(ms, now)) && KeyOf(m) == KeyOf(x);
  }

  /** The visible list is newest first, with distinct keys; the seeds are its start, as long as the
      cap allows. */
  lemma SeedsOrdered(ms: seq<Movement>, now: int, selected: Option<string>, lower: string -> string)
    ensures DistinctKeys(Visible(ms, now, selected, lower)) && DistinctKeys(Seeds(ms, now, selected, lower))
    ensures Sorted(Visible(ms, now, selected, lower), NewestFirst)
    ensures Seeds(ms, now, selected, lower) <= Visible(ms, now, selected, lower)
    ensures var n := |Visible(ms, now, selected, lower)|;
      |Seeds(ms, now, selected, lower)| == if n < Cap(selected) then n else Cap(selected)
  {
    hide Dedupe, KeyOf, NewestFirst, TrackFilter;
    var deduped := Dedupe(EligibleOf(ms, now));
    DedupeNewest(EligibleOf(ms, now));
    assert WeakOrder(NewestFirst) by { NewestFirstOrder(); }
    SortSorts(deduped, NewestFirst);
    DistinctKeysPermutation(deduped, Recent(ms, now));
    FilterDistinctKeys(Recent(ms, now), TrackFilter(selected, lower));
    FilterSorted(Recent(ms, now), TrackFilter(selected, lower), NewestFirst);
  }

  /** Visible movements have a date, so "not before in the list" and "not newer" agree. */
  lemma VisibleDated(ms: seq<Movement>, now: int, selected: Option<string>, lower: string -> string)
    ensures forall m :: m in Visible(ms, now, selected, lower) ==> m.observedMs.Some?
  {
    forall m | m in Visible(ms, now, selected, lower)
      ensures m.observedMs.Some?
    {
      VisibleAreNewest(ms, now, selected, lower, m);
    }
  }

  // ----- the tracks -----

  /** What is drawn: movements with distinct keys, newest first, both ends on the map. A visible one
      with both ends on the map that is not drawn is not newer than any drawn one. */
  lemma TracksOrdered(
      ms: seq<Movement>, now: int, selected: Option<string>, lower: string -> string, ring: set<string>)
    ensures var drawn := Tracks(ms, now, selected, lower, ring);
      && DistinctKeys(drawn) && Sorted(drawn, NewestFirst) && |drawn| <= Cap(selected)
      && (forall m :: m in drawn ==> m in Visible(ms, now, selected, lower) && Drawable(m, ring))
      && (forall m, left ::
            m in drawn && left in Visible(ms, now, selected, lower) && Drawable(left, ring) && left !in drawn
            ==> !Newer(left, m))
  {
    var all, seeds, drawn := Visible(ms, now, selected, lower), Seeds(ms, now, selected, lower),
      Tracks(ms, now, selected, lower, ring);
    SeedsOrdered(ms, now, selected, lower);
    hide Visible, KeyOf, Drawable;
    assert seeds == all[..|seeds|];
    FilterDistinctKeys(seeds, DrawFilter(ring));
    FilterSorted(seeds, DrawFilter(ring), NewestFirst);
    forall m, left | m in drawn && left in all && Drawable(left, ring) && left !in drawn
      ensures !Newer(left, m)
    {
      CutOrder(all, |seeds|, m, left);
    }
  }

  /** Whatever is newer than something kept was kept too. */
  lemma CutOrder(all: seq<Movement>, n: nat, early: Movement, late: Movement)
    requires Sorted(all, NewestFirst) && n <= |all| && late in all
    ensures early in all[..n] && Newer(late, early) ==> late in all[..n]
  {
    if early in all[..n] {
      var i :| 0 <= i < n && all[i] == early;
      var j :| 0 <= j < |all| && all[j] == late;
      assert i < j ==> !NewestFirst(all[j], all[i]);
      assert forall k :: 0 <= k < n ==> all[..n][k] == all[k] && all[..n][k] in all[..n];
    }
  }

  /** The cut is made before the movements without a place are dropped. So as many tracks as possible
      are drawn exactly when nothing is dropped, or nothing with a place was cut. */
  lemma TracksFillExactly(
      ms: seq<Movement>, now: int, selected: Option<string>, lower: string -> string, ring: set<string>)
    ensures var all, seeds := Visible(ms, now, selected, lower), Seeds(ms, now, selected, lower);
      var placed := |Filter(all, DrawFilter(ring))|;
      |Tracks(ms, now, selected, lower, ring)| == (if placed < Cap(selected) then placed else Cap(selected))
      <==> (forall m :: m in seeds ==> Drawable(m, ring)) || (forall m :: m in all && Drawable(m, ring) ==> m in seeds)
  {
    SeedsOrdered(ms, now, selected, lower);
    var all, seeds := Visible(ms, now, selected, lower), Seeds(ms, now, selected, lower);
    hide Visible, KeyOf, Drawable, Cap, Sorted;
    var rest := all[|seeds|..];
    assert all == seeds + rest;
    FilterAppend(seeds, rest, DrawFilter(ring));
    FilterFull(seeds, DrawFilter(ring));
    NothingPlacedCut(seeds, rest, ring);
  }

  lemma NothingPlacedCut(seeds: seq<Movement>, rest: seq<Movement>, ring: set<string>)
    requires DistinctKeys(seeds + rest)
    ensures Filter(rest, DrawFilter(ring)) == [] <==> forall m :: m in seeds + rest && Drawable(m, ring) ==> m in seeds
  {
    var all, kept := seeds + rest, Filter(rest, DrawFilter(ring));
    hide KeyOf, Drawable;
    if kept != [] {
      assert kept[0] in rest;
      var j :| 0 <= j < |rest| && rest[j] == kept[0];
      assert all[|seeds| + j] == kept[0];
      assert forall i :: 0 <= i < |seeds| ==> KeyOf(all[i]) != KeyOf(all[|seeds| + j]) && all[i] == seeds[i];
      assert kept[0] in all && kept[0] !in seeds;
    }
  }

  /** The only observation of its key is visible when it is eligible and passes. */
  lemma SoleIsVisible(ms: seq<Movement>, now: int, selected: Option<string>, lower: string -> string, x: Movement)
    requires x in ms && Eligible(x, now) && Passes(x, selected, lower)
    requires forall y :: y in ms && KeyOf(y) == KeyOf(x) ==> y == x
    ensures x in Visible(ms, now, selected, lower)
  {
    var m := EligibleRepresented(ms, now, selected, lower, x);
  }

  /** A movement from bitcoin on the route `route`. */
  function Sample(route: string, to: string, viaGateway: bool, ms: int): Movement {
    Movement("gateway", "", route, "bitcoin", to, "", "", Some(viaGateway), Some(ms))
  }

  lemma SampleKeys(a: Movement, b: Movement)
    requires a.routeProvider == b.routeProvider == "gateway" && a.routeKey != "" && b.routeKey != ""
    ensures KeyOf(a) == KeyOf(b) <==> a.routeKey == b.routeKey
  {
    assert KeyOf(a) == "gateway:" + a.routeKey && KeyOf(b) == "gateway:" + b.routeKey;
    assert KeyOf(a)[8..] == a.routeKey && KeyOf(b)[8..] == b.routeKey;
  }

  lemma ThreeInTwo<T>(s: seq<T>, a: T, b: T, c: T)
    requires a != b && b != c && a != c && |s| <= 2
    ensures a !in s || b !in s || c !in s
  {
    assert s == [] || s == [s[0]] || s == [s[0], s[1]];
  }

  /** An input on which nothing is drawn although a movement with both ends on the map is visible:
      the two newest ones end on an unknown chain and take up both places. */
  lemma UnknownChainsDisplace(lower: string -> string) returns (ms: seq<Movement>, left: Movement)
    ensures left in Visible(ms, 100, None, lower) && Drawable(left, {"base"})
    ensures Tracks(ms, 100, None, lower, {"base"}) == []
  {
    hide KeyOf, Visible, Recent;
    var a, b := Sample("r1", "nowhere", true, 70), Sample("r2", "nowhere", true, 60);
    left := Sample("r3", "base", true, 50);
    ms := [a, b, left];
    forall p, q | p in ms && q in ms {
      SampleKeys(p, q);
    }
    SoleIsVisible(ms, 100, None, lower, a);
    SoleIsVisible(ms, 100, None, lower, b);
    SoleIsVisible(ms, 100, None, lower, left);
    var all, seeds := Visible(ms, 100, None, lower), Seeds(ms, 100, None, lower);
    SeedsOrdered(ms, 100, None, lower);
    assert seeds == all[..|seeds|] && |seeds| <= 2;
    CutOrder(all, |seeds|, left, a);
    CutOrder(all, |seeds|, left, b);
    ThreeInTwo(seeds, a, b, left);
    forall m | m in seeds
      ensures !Drawable(m, {"base"})
    {
      VisibleAreNewest(ms, 100, None, lower, m);
    }
    FilterNone(seeds, DrawFilter({"base"}));
  }
}
