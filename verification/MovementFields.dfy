/** The movements drawn on the map, in terms of the fields of the observations
    (dashboard/public/mindmap.jsx): which are visible, and in which order. */
module MovementFields {
  import opened Prelude
  import opened Sorting
  import opened Movements
  import opened MovementLaws

  /** Both ends are known and the observation is at most six hours old. */
  ghost predicate Due(m: Movement, now: int) {
    && |m.fromChainId| > 0 && |m.toChainId| > 0 && m.observedMs.Some?
    && m.observedMs.value <= now <= m.observedMs.value + 21600000
  }

  /** Who carried it: the provider, else the kind, else just a movement. */
  ghost function Carrier(m: Movement): string {
    if |m.routeProvider| > 0 then m.routeProvider else if |m.kind| > 0 then m.kind else "movement"
  }

  /** Two observations are of the same movement: of the same route, else of the same ends and asset. */
  ghost function Identity(m: Movement): string {
    if |m.routeKey| > 0 then Carrier(m) + ":" + m.routeKey
    else Carrier(m) + ":" + m.fromChainId + "->" + m.toChainId + ":" + (if |m.assetId| > 0 then m.assetId else "asset")
  }

  /** The observation says so itself, or its provider is a gateway, or without a provider its kind or its
      strategy is one. */
  ghost predicate ByGateway(m: Movement, lower: string -> string) {
    match m.viaGateway
    case Some(says) => says
    case None =>
      || lower(m.routeProvider) in ["gateway", "bob_gateway"]
      || (lower(m.routeProvider) == "" && (m.kind == "gateway_bridge" || IsSubstring("gateway", m.strategyId)))
  }

  ghost predicate AtSelected(m: Movement, selected: Option<string>) {
    selected.None? || selected.value in [m.fromChainId, m.toChainId]
  }

  /** Observation `i` is due, later than every due one of the same movement before it, and at least as
      late as every such one after it. */
  ghost predicate FirstNewest(ms: seq<Movement>, i: nat, now: int) {
    && i < |ms| && Due(ms[i], now)
    && forall j :: 0 <= j < |ms| && Due(ms[j], now) && Identity(ms[j]) == Identity(ms[i]) ==>
         && (j < i ==> ms[j].observedMs.value < ms[i].observedMs.value)
         && (j > i ==> ms[j].observedMs.value <= ms[i].observedMs.value)
  }

  lemma FieldsSay(m: Movement, now: int, selected: Option<string>, lower: string -> string)
    ensures Eligible(m, now) <==> Due(m, now)
    ensures KeyOf(m) == Identity(m)
    ensures Passes(m, selected, lower) <==> ByGateway(m, lower) && AtSelected(m, selected)
  {
    hide IsSubstring;
  }

  lemma WinsExactly(ms: seq<Movement>, i: nat, now: int)
    ensures WinsAt(ms, i, now) <==> FirstNewest(ms, i, now)
  {
    forall m {
      FieldsSay(m, now, None, s => s);
    }
    hide Eligible, KeyOf, Identity, Passes;
    assert forall a: Movement :: Due(a, now) ==> a.observedMs.Some?;
    if i < |ms| && Due(ms[i], now) {
      forall j | 0 <= j < |ms| && Due(ms[j], now)
        ensures Newer(ms[i], ms[j]) <==> ms[j].observedMs.value < ms[i].observedMs.value
        ensures !Newer(ms[j], ms[i]) <==> ms[j].observedMs.value <= ms[i].observedMs.value
      {
      }
      hide Newer, Due;
    }
  }

  /** `m` is the first latest due observation of its movement. */
  ghost predicate Leads(m: Movement, ms: seq<Movement>, now: int) {
    exists i: nat :: FirstNewest(ms, i, now) && ms[i] == m
  }

  lemma LeadsExactly(m: Movement, ms: seq<Movement>, now: int)
    ensures Wins(m, ms, now) <==> Leads(m, ms, now)
  {
    forall i: nat
      ensures WinsAt(ms, i, now) <==> FirstNewest(ms, i, now)
    {
      WinsExactly(ms, i, now);
    }
    hide Eligible, Due, Identity, KeyOf, Newer;
    if Wins(m, ms, now) {
      var i: nat :| WinsAt(ms, i, now) && ms[i] == m;
      assert FirstNewest(ms, i, now);
    }
  }

  /** A movement is visible exactly when it goes through the gateway, touches the selected chain, and is
      the first latest due observation of its movement. */
  lemma VisibleByFields(ms: seq<Movement>, now: int, selected: Option<string>, lower: string -> string, m: Movement)
    ensures m in Visible(ms, now, selected, lower) <==>
      ByGateway(m, lower) && AtSelected(m, selected) && Leads(m, ms, now)
  {
    VisibleExactly(ms, now, selected, lower, m);
    FieldsSay(m, now, selected, lower);
    LeadsExactly(m, ms, now);
    hide Visible, Passes, ByGateway, AtSelected, Wins, Leads;
  }

  // ----- the order in which they are listed -----

  ghost predicate Mentions(ms: seq<Movement>, now: int, identity: string) {
    exists i :: 0 <= i < |ms| && Due(ms[i], now) && Identity(ms[i]) == identity
  }

  /** The first few observations mention the movement `a` but not the movement `b`. */
  ghost predicate MentionedFirst(ms: seq<Movement>, now: int, a: string, b: string) {
    exists n: nat :: n <= |ms| && Mentions(ms[..n], now, a) && !Mentions(ms[..n], now, b)
  }

  lemma MentionsAppend(before: seq<Movement>, last: Movement, now: int, identity: string)
    ensures Mentions(before + [last], now, identity)
       <==> Mentions(before, now, identity) || (Due(last, now) && Identity(last) == identity)
  {
    hide Identity, Due;
    var ms := before + [last];
    assert ms[|before|] == last;
    assert forall i :: 0 <= i < |before| ==> ms[i] == before[i];
  }

  lemma MentionedFirstAppend(before: seq<Movement>, last: Movement, now: int, a: string, b: string)
    requires MentionedFirst(before, now, a, b)
    ensures MentionedFirst(before + [last], now, a, b)
  {
    hide Mentions;
    var n: nat :| n <= |before| && Mentions(before[..n], now, a) && !Mentions(before[..n], now, b);
    assert (before + [last])[..n] == before[..n];
  }

  ghost predicate InOrder(order: seq<string>, ms: seq<Movement>, now: int) {
    && (forall p, q :: 0 <= p < q < |order| ==> MentionedFirst(ms, now, order[p], order[q]))
    && (forall identity :: identity in order <==> Mentions(ms, now, identity))
  }

  lemma OrderStep(order: seq<string>, before: seq<Movement>, last: Movement, now: int)
    requires InOrder(order, before, now)
    ensures !Due(last, now) || Identity(last) in order ==> InOrder(order, before + [last], now)
    ensures Due(last, now) && Identity(last) !in order ==> InOrder(order + [Identity(last)], before + [last], now)
  {
    var ms, more := before + [last], order + [Identity(last)];
    forall identity {
      MentionsAppend(before, last, now, identity);
    }
    assert ms[..|before|] == before;
    hide Mentions, Identity, Due;
    forall p, q | 0 <= p < q < |order|
      ensures MentionedFirst(ms, now, order[p], order[q])
    {
      MentionedFirstAppend(before, last, now, order[p], order[q]);
    }
    forall p | 0 <= p < |order| && Identity(last) !in order
      ensures MentionedFirst(ms, now, order[p], Identity(last))
    {
      assert order[p] in order;
      assert Mentions(ms[..|before|], now, order[p]) && !Mentions(ms[..|before|], now, Identity(last));
    }
  }

  /** The table of the due observations lists its keys in the order of their first mention. */
  lemma {:induction false} TableInOrder(ms: seq<Movement>, now: int)
    ensures InOrder(TableOf(EligibleOf(ms, now)).order, ms, now)
  {
    if ms == [] {
      NothingEligible(now);
    } else {
      var before, last := ms[..|ms| - 1], ms[|ms| - 1];
      assert ms == before + [last];
      TableInOrder(before, now);
      EligibleAppend(before, last, now);
      FieldsSay(last, now, None, s => s);
      var es := EligibleOf(before, now);
      TableWellFormed(es);
      hide InOrder, KeyOf, Identity, Eligible, Due, Newer, EligibleOf;
      OrderStep(TableOf(es).order, before, last, now);
      if Eligible(last, now) {
        assert (es + [last])[..|es|] == es;
      } else {
        assert es + [] == es;
      }
    }
  }

  ghost function ByMention(ms: seq<Movement>, now: int): (Movement, Movement) -> bool {
    (a: Movement, b: Movement) => MentionedFirst(ms, now, Identity(a), Identity(b))
  }

  lemma DedupeInOrder(ms: seq<Movement>, now: int)
    ensures PairwiseTied(Dedupe(EligibleOf(ms, now)), NewestFirst, ByMention(ms, now))
  {
    var es := EligibleOf(ms, now);
    var t, r := TableOf(es), Dedupe(EligibleOf(ms, now));
    TableWellFormed(es);
    TableInOrder(ms, now);
    hide MentionedFirst, KeyOf, Identity, TableOf, EligibleOf, NewestFirst;
    forall k | 0 <= k < |r|
      ensures Identity(r[k]) == t.order[k]
    {
      assert t.order[k] in t.order;
      FieldsSay(r[k], now, None, s => s);
    }
  }

  /** The visible movements are listed latest first; those of the same time in the order in which the
      observations first mention them. The seeds are the first two of them, or the first twelve when a
      chain is selected. */
  lemma SeedsByFields(ms: seq<Movement>, now: int, selected: Option<string>, lower: string -> string)
    ensures var all, cap := Visible(ms, now, selected, lower), if selected.Some? then 12 else 2;
      && Seeds(ms, now, selected, lower) == (if |all| <= cap then all else all[..cap])
      && (forall p :: 0 <= p < |all| ==> all[p].observedMs.Some?)
      && (forall p, q :: 0 <= p < q < |all| ==>
            && all[p].observedMs.value >= all[q].observedMs.value
            && (all[p].observedMs == all[q].observedMs ==>
                  MentionedFirst(ms, now, Identity(all[p]), Identity(all[q]))))
  {
    var all, deduped := Visible(ms, now, selected, lower), Dedupe(EligibleOf(ms, now));
    SeedsOrdered(ms, now, selected, lower);
    VisibleDated(ms, now, selected, lower);
    DedupeInOrder(ms, now);
    NewestFirstOrder();
    hide MentionedFirst, Identity, Dedupe, EligibleOf, TrackFilter;
    assert forall p :: 0 <= p < |all| ==> all[p] in all;
    SortKeepsTies(deduped, NewestFirst, ByMention(ms, now));
    FilterKeepsTies(Recent(ms, now), TrackFilter(selected, lower), NewestFirst, ByMention(ms, now));
  }

  /** Of the seeds those are drawn whose ends both have a place: bitcoin, the gateway, or a chain on the
      ring. */
  lemma TracksByFields(
      ms: seq<Movement>, now: int, selected: Option<string>, lower: string -> string, ring: set<string>)
    ensures Tracks(ms, now, selected, lower, ring) == Filter(Seeds(ms, now, selected, lower), (m: Movement) =>
      forall end :: end in [m.fromChainId, m.toChainId] ==> end in ["bitcoin", "bob_gateway"] || end in ring)
  {
    var both := (m: Movement) =>
      forall end :: end in [m.fromChainId, m.toChainId] ==> end in ["bitcoin", "bob_gateway"] || end in ring;
    FilterAlike(Seeds(ms, now, selected, lower), DrawFilter(ring), both);
  }
}
