/** Money per chain and per protocol (dashboard/public/data.jsx, `buildCapitalMaps`), and when a
    strategy counts as live. */
module Capital {
  import opened Prelude
  import opened Status
  import opened Assets

  type Ledger = map<string, real>

  datatype CapitalMaps = CapitalMaps(
    byChain: Ledger, walletByChain: Ledger, deployedByChain: Ledger, estimatedDeployedByChain: Ledger,
    byProtocol: Ledger, estimatedByProtocol: Ledger)

  /** `map[key] || 0`. */
  function At(m: Ledger, key: string): real {
    if key in m then m[key] else 0.0
  }

  /** `accumulateUsd`: a missing key or an amount that is not positive leaves the ledger alone. */
  function Accumulate(m: Ledger, key: Option<string>, usd: Option<real>): Ledger {
    if key.None? || !Positive(usd) then m else m[key.value := At(m, key.value) + usd.value]
  }

  /** `item.chain || null`: the empty string is no key. */
  function KeyOf(id: string): Option<string> {
    if id == "" then None else Some(id)
  }

  /** A position's own value when it has one, else the unverified entry. */
  function EstimatedUsd(p: Position): Option<real> {
    if Positive(p.usd) then p.usd else p.unverifiedEntryUsd
  }

  // ----- the declarative sums -----

  /** What one entry adds under `key`. */
  function Share(entryKey: Option<string>, usd: Option<real>, key: string): real {
    if entryKey == Some(key) && Positive(usd) then usd.value else 0.0
  }

  function WalletSum(items: seq<WalletItem>, chain: string): real {
    if items == [] then 0.0
    else WalletSum(items[..|items| - 1], chain) + Share(KeyOf(items[|items| - 1].chain), items[|items| - 1].usd, chain)
  }

  /** The four sums over positions: by chain or by protocol, of values or of estimates. */
  datatype Grouping = ByChain | ByProtocol

  function PositionKey(p: Position, g: Grouping): Option<string> {
    if g.ByChain? then KeyOf(p.chain) else ProtocolKey(p.chain, p.protocol)
  }

  function PositionUsd(p: Position, estimated: bool): Option<real> {
    if estimated then EstimatedUsd(p) else p.usd
  }

  function PositionSum(ps: seq<Position>, g: Grouping, estimated: bool, key: string): real {
    if ps == [] then 0.0
    else
      var p := ps[|ps| - 1];
      PositionSum(ps[..|ps| - 1], g, estimated, key) + Share(PositionKey(p, g), PositionUsd(p, estimated), key)
  }

  /** What an amount adds: nothing unless it is known and above zero. */
  function Gain(usd: Option<real>): real {
    Max(0.0, usd.GetOr(0.0))
  }

  /** One more wallet item adds its amount under its chain, and nothing anywhere else. */
  lemma WalletEntryAdds(items: seq<WalletItem>, item: WalletItem, chain: string)
    ensures WalletSum([], chain) == 0.0
    ensures WalletSum(items + [item], chain)
         == WalletSum(items, chain) + if item.chain == chain && |chain| > 0 then Gain(item.usd) else 0.0
  {
    assert (items + [item])[..|items|] == items;
  }

  /** One more position adds its value, and as an estimate its unverified entry when it has no value,
      under its chain and under the combined key of chain and protocol. */
  lemma PositionEntryAdds(ps: seq<Position>, p: Position, key: string)
    ensures forall g, estimated :: PositionSum([], g, estimated, key) == 0.0
    ensures var more, estimate := ps + [p], if Gain(p.usd) > 0.0 then Gain(p.usd) else Gain(p.unverifiedEntryUsd);
      && PositionSum(more, ByChain, false, key)
         == PositionSum(ps, ByChain, false, key) + (if |key| > 0 && p.chain == key then Gain(p.usd) else 0.0)
      && PositionSum(more, ByChain, true, key)
         == PositionSum(ps, ByChain, true, key) + (if |key| > 0 && p.chain == key then estimate else 0.0)
      && PositionSum(more, ByProtocol, false, key)
         == PositionSum(ps, ByProtocol, false, key) + (if IsKeyOf(key, p) then Gain(p.usd) else 0.0)
      && PositionSum(more, ByProtocol, true, key)
         == PositionSum(ps, ByProtocol, true, key) + (if IsKeyOf(key, p) then estimate else 0.0)
  {
    assert (ps + [p])[..|ps|] == ps;
  }

  predicate IsKeyOf(key: string, p: Position) {
    |p.chain| > 0 && |p.protocol| > 0 && key == p.chain + ":" + p.protocol
  }

  /** A ledger lists exactly the keys with a positive sum. */
  ghost predicate Lists(m: Ledger, sum: string -> real) {
    forall key :: At(m, key) == sum(key) && (key in m <==> sum(key) > 0.0)
  }

  ghost predicate WalletListed(m: Ledger, items: seq<WalletItem>) {
    Lists(m, key => WalletSum(items, key))
  }

  ghost predicate PositionsListed(m: Ledger, ps: seq<Position>, g: Grouping, estimated: bool) {
    Lists(m, key => PositionSum(ps, g, estimated, key))
  }

  ghost predicate TotalListed(m: Ledger, items: seq<WalletItem>, ps: seq<Position>) {
    Lists(m, key => WalletSum(items, key) + PositionSum(ps, ByChain, false, key))
  }

  /** What the maps must be for a list of wallet items and a list of positions. */
  ghost predicate Describes(m: CapitalMaps, items: seq<WalletItem>, ps: seq<Position>) {
    && TotalListed(m.byChain, items, ps)
    && WalletListed(m.walletByChain, items)
    && PositionsListed(m.deployedByChain, ps, ByChain, false)
    && PositionsListed(m.estimatedDeployedByChain, ps, ByChain, true)
    && PositionsListed(m.byProtocol, ps, ByProtocol, false)
    && PositionsListed(m.estimatedByProtocol, ps, ByProtocol, true)
  }

  lemma {:induction false} SumsNonneg(
      items: seq<WalletItem>, ps: seq<Position>, g: Grouping, estimated: bool, key: string)
    ensures WalletSum(items, key) >= 0.0
    ensures PositionSum(ps, g, estimated, key) >= 0.0
    decreases |items| + |ps|
  {
    if items != [] {
      SumsNonneg(items[..|items| - 1], ps, g, estimated, key);
    } else if ps != [] {
      SumsNonneg(items, ps[..|ps| - 1], g, estimated, key);
    }
  }

  lemma AccumulateLists(
      m: Ledger, before: string -> real, entryKey: Option<string>, usd: Option<real>, after: string -> real)
    requires Lists(m, before)
    requires forall key :: before(key) >= 0.0 && after(key) == before(key) + Share(entryKey, usd, key)
    ensures Lists(Accumulate(m, entryKey, usd), after)
  {
    var n := Accumulate(m, entryKey, usd);
    forall key
      ensures At(n, key) == after(key) && (key in n <==> after(key) > 0.0)
    {
      assert before(key) >= 0.0;
      assert At(m, key) == before(key);
    }
  }

  function AddWalletItem(m: CapitalMaps, item: WalletItem): CapitalMaps {
    m.(byChain := Accumulate(m.byChain, KeyOf(item.chain), item.usd),
       walletByChain := Accumulate(m.walletByChain, KeyOf(item.chain), item.usd))
  }

  lemma AddWalletItemDescribes(m: CapitalMaps, items: seq<WalletItem>, item: WalletItem)
    requires Describes(m, items, [])
    ensures Describes(AddWalletItem(m, item), items + [item], [])
  {
    var more := items + [item];
    assert more[..|items|] == items;
    forall key {
      SumsNonneg(items, [], ByChain, false, key);
    }
    AccumulateLists(m.byChain, key => WalletSum(items, key) + PositionSum([], ByChain, false, key),
                    KeyOf(item.chain), item.usd, key => WalletSum(more, key) + PositionSum([], ByChain, false, key));
    AccumulateLists(m.walletByChain, key => WalletSum(items, key), KeyOf(item.chain), item.usd,
                    key => WalletSum(more, key));
  }

  function AddPosition(m: CapitalMaps, p: Position): CapitalMaps {
    CapitalMaps(
      Accumulate(m.byChain, KeyOf(p.chain), p.usd),
      m.walletByChain,
      Accumulate(m.deployedByChain, KeyOf(p.chain), p.usd),
      Accumulate(m.estimatedDeployedByChain, KeyOf(p.chain), EstimatedUsd(p)),
      Accumulate(m.byProtocol, ProtocolKey(p.chain, p.protocol), p.usd),
      Accumulate(m.estimatedByProtocol, ProtocolKey(p.chain, p.protocol), EstimatedUsd(p)))
  }

  lemma AddPositionLists(m: Ledger, ps: seq<Position>, p: Position, g: Grouping, estimated: bool)
    requires PositionsListed(m, ps, g, estimated)
    ensures PositionsListed(Accumulate(m, PositionKey(p, g), PositionUsd(p, estimated)), ps + [p], g, estimated)
  {
    var more := ps + [p];
    assert more[..|ps|] == ps;
    forall key {
      SumsNonneg([], ps, g, estimated, key);
    }
    AccumulateLists(m, key => PositionSum(ps, g, estimated, key), PositionKey(p, g), PositionUsd(p, estimated),
                    key => PositionSum(more, g, estimated, key));
  }

  lemma AddPositionDescribes(m: CapitalMaps, items: seq<WalletItem>, ps: seq<Position>, p: Position)
    requires Describes(m, items, ps)
    ensures Describes(AddPosition(m, p), items, ps + [p])
  {
    var more := ps + [p];
    assert more[..|ps|] == ps;
    forall key {
      SumsNonneg(items, ps, ByChain, false, key);
    }
    AccumulateLists(m.byChain, key => WalletSum(items, key) + PositionSum(ps, ByChain, false, key),
                    KeyOf(p.chain), p.usd, key => WalletSum(items, key) + PositionSum(more, ByChain, false, key));
    hide Lists;
    AddPositionLists(m.deployedByChain, ps, p, ByChain, false);
    AddPositionLists(m.estimatedDeployedByChain, ps, p, ByChain, true);
    AddPositionLists(m.byProtocol, ps, p, ByProtocol, false);
    AddPositionLists(m.estimatedByProtocol, ps, p, ByProtocol, true);
  }

  const EMPTY := CapitalMaps(map[], map[], map[], map[], map[], map[])

  /** The maps as a function of the holdings, for the modules that build on them. */
  function MapsAfter(items: seq<WalletItem>, ps: seq<Position>): CapitalMaps {
    if ps != [] then AddPosition(MapsAfter(items, ps[..|ps| - 1]), ps[|ps| - 1])
    else if items != [] then AddWalletItem(MapsAfter(items[..|items| - 1], []), items[|items| - 1])
    else EMPTY
  }

  function MapsOf(h: Holdings): CapitalMaps {
    MapsAfter(h.all, h.positions)
  }

  lemma {:induction false} MapsDescribe(items: seq<WalletItem>, ps: seq<Position>)
    ensures Describes(MapsAfter(items, ps), items, ps)
    decreases |items| + |ps|
  {
    hide Describes;
    if ps != [] {
      MapsDescribe(items, ps[..|ps| - 1]);
      AddPositionDescribes(MapsAfter(items, ps[..|ps| - 1]), items, ps[..|ps| - 1], ps[|ps| - 1]);
      assert ps[..|ps| - 1] + [ps[|ps| - 1]] == ps;
    } else if items != [] {
      MapsDescribe(items[..|items| - 1], []);
      AddWalletItemDescribes(MapsAfter(items[..|items| - 1], []), items[..|items| - 1], items[|items| - 1]);
      assert items[..|items| - 1] + [items[|items| - 1]] == items;
    } else {
      EmptyDescribes();
    }
  }

  lemma EmptyDescribes()
    ensures Describes(EMPTY, [], [])
  {
  }

  /** The two loops of `buildCapitalMaps`. The six sums below say outright what they compute. */
  method BuildCapitalMaps(h: Holdings) returns (m: CapitalMaps)
    ensures Describes(m, h.all, h.positions)
    ensures m == MapsOf(h)
  {
    var byChain: Ledger, walletByChain: Ledger := map[], map[];
    for i := 0 to |h.all|
      invariant EMPTY.(byChain := byChain, walletByChain := walletByChain) == MapsAfter(h.all[..i], [])
    {
      var item := h.all[i];
      byChain := Accumulate(byChain, KeyOf(item.chain), item.usd);
      walletByChain := Accumulate(walletByChain, KeyOf(item.chain), item.usd);
      assert h.all[..i + 1][..i] == h.all[..i];
    }
    assert h.all[..|h.all|] == h.all;
    var deployed: Ledger, estimatedDeployed: Ledger, byProtocol: Ledger, estimatedByProtocol: Ledger :=
      map[], map[], map[], map[];
    for i := 0 to |h.positions|
      invariant CapitalMaps(byChain, walletByChain, deployed, estimatedDeployed, byProtocol, estimatedByProtocol)
             == MapsAfter(h.all, h.positions[..i])
    {
      var p := h.positions[i];
      var estimatedUsd := if Positive(p.usd) then p.usd else p.unverifiedEntryUsd;
      byChain := Accumulate(byChain, KeyOf(p.chain), p.usd);
      deployed := Accumulate(deployed, KeyOf(p.chain), p.usd);
      byProtocol := Accumulate(byProtocol, ProtocolKey(p.chain, p.protocol), p.usd);
      estimatedDeployed := Accumulate(estimatedDeployed, KeyOf(p.chain), estimatedUsd);
      estimatedByProtocol := Accumulate(estimatedByProtocol, ProtocolKey(p.chain, p.protocol), estimatedUsd);
      assert h.positions[..i + 1][..i] == h.positions[..i];
    }
    assert h.positions[..|h.positions|] == h.positions;
    MapsDescribe(h.all, h.positions);
    m := CapitalMaps(byChain, walletByChain, deployed, estimatedDeployed, byProtocol, estimatedByProtocol);
  }

  // ----- conservation -----

  /** On every chain the total is wallet plus deployed, and the estimate is never below the value. */
  lemma ChainConservation(h: Holdings, chain: string)
    ensures At(MapsOf(h).byChain, chain) == At(MapsOf(h).walletByChain, chain) + At(MapsOf(h).deployedByChain, chain)
    ensures At(MapsOf(h).estimatedDeployedByChain, chain) >= At(MapsOf(h).deployedByChain, chain)
  {
    MapsDescribe(h.all, h.positions);
    EstimateDominates(h.positions, ByChain, chain);
    hide Positive;
    assert At(MapsOf(h).byChain, chain) == WalletSum(h.all, chain) + PositionSum(h.positions, ByChain, false, chain);
    assert At(MapsOf(h).walletByChain, chain) == WalletSum(h.all, chain);
    assert At(MapsOf(h).deployedByChain, chain) == PositionSum(h.positions, ByChain, false, chain);
    assert At(MapsOf(h).estimatedDeployedByChain, chain) == PositionSum(h.positions, ByChain, true, chain);
  }

  lemma {:induction false} EstimateDominates(ps: seq<Position>, g: Grouping, key: string)
    ensures PositionSum(ps, g, true, key) >= PositionSum(ps, g, false, key)
  {
    if ps != [] {
      EstimateDominates(ps[..|ps| - 1], g, key);
    }
  }

  /** Chain ids contain no colon. */
  predicate ColonFree(id: string) {
    ':' !in id
  }

  /** With colon-free chain ids the combined key determines both of its parts. */
  lemma KeyInjective(c: string, p: string, d: string, q: string)
    requires ColonFree(c) && ColonFree(d)
    requires c + [':'] + p == d + [':'] + q
    ensures c == d && p == q
  {
    var left, right := c + [':'] + p, d + [':'] + q;
    assert left[|c|] == ':' && right[|d|] == ':';
    assert forall i :: 0 <= i < |c| ==> left[i] == c[i] && left[i] != ':';
    assert forall i :: 0 <= i < |d| ==> right[i] == d[i] && right[i] != ':';
    assert |c| == |d|;
    assert left[..|c|] == c && right[..|d|] == d;
    assert left[|c| + 1..] == p && right[|d| + 1..] == q;
  }

  /** The sum of a chain's entries over a list of protocols. */
  function ProtocolTotal(m: Ledger, chain: string, protocols: seq<string>): real {
    if protocols == [] then 0.0
    else (if ProtocolKey(chain, protocols[0]).None? then 0.0 else At(m, ProtocolKey(chain, protocols[0]).value))
         + ProtocolTotal(m, chain, protocols[1..])
  }

  /** The same sum for a single position. */
  function ProtocolShare(p: Position, chain: string, protocols: seq<string>): real {
    if p.chain == chain && chain != "" && p.protocol != "" && p.protocol in protocols && Positive(p.usd)
    then p.usd.value
    else 0.0
  }

  lemma {:induction false} AddToProtocols(m: Ledger, n: Ledger, p: Position, chain: string, protocols: seq<string>)
    requires ColonFree(chain) && ColonFree(p.chain) && Distinct(protocols)
    requires forall key :: At(n, key) == At(m, key) + Share(ProtocolKey(p.chain, p.protocol), p.usd, key)
    ensures ProtocolTotal(n, chain, protocols)
         == ProtocolTotal(m, chain, protocols) + ProtocolShare(p, chain, protocols)
  {
    if protocols != [] {
      var q, rest := protocols[0], protocols[1..];
      AddToProtocols(m, n, p, chain, rest);
      assert protocols == [q] + rest;
      assert q !in rest;
      if ProtocolKey(chain, q).Some? {
        var key := ProtocolKey(chain, q).value;
        assert At(n, key) == At(m, key) + Share(ProtocolKey(p.chain, p.protocol), p.usd, key);
        if ProtocolKey(p.chain, p.protocol) == Some(key) {
          KeyInjective(p.chain, p.protocol, chain, q);
        }
      }
    }
  }

  ghost predicate ColonFreeChains(ps: seq<Position>) {
    forall i :: 0 <= i < |ps| ==> ColonFree(ps[i].chain)
  }

  lemma ProtocolEntryStep(items: seq<WalletItem>, ps: seq<Position>)
    requires ps != []
    ensures var p, before := ps[|ps| - 1], MapsAfter(items, ps[..|ps| - 1]);
      forall key :: At(MapsAfter(items, ps).byProtocol, key)
                 == At(before.byProtocol, key) + Share(ProtocolKey(p.chain, p.protocol), p.usd, key)
  {
  }

  /** The share of a chain's deployed money that the listed protocols explain. */
  function Explained(ps: seq<Position>, chain: string, protocols: seq<string>): real {
    if ps == [] then 0.0
    else Explained(ps[..|ps| - 1], chain, protocols) + ProtocolShare(ps[|ps| - 1], chain, protocols)
  }

  lemma {:induction false} ProtocolTotalIsExplained(
      items: seq<WalletItem>, ps: seq<Position>, chain: string, protocols: seq<string>)
    requires ColonFree(chain) && ColonFreeChains(ps) && Distinct(protocols)
    ensures ProtocolTotal(MapsAfter(items, ps).byProtocol, chain, protocols) == Explained(ps, chain, protocols)
  {
    if ps == [] {
      MapsDescribe(items, ps);
      EmptyProtocolTotal(MapsAfter(items, ps).byProtocol, chain, protocols);
    } else {
      var before := ps[..|ps| - 1];
      ProtocolTotalIsExplained(items, before, chain, protocols);
      ProtocolEntryStep(items, ps);
      AddToProtocols(MapsAfter(items, before).byProtocol, MapsAfter(items, ps).byProtocol, ps[|ps| - 1],
                     chain, protocols);
    }
  }

  lemma {:induction false} EmptyProtocolTotal(m: Ledger, chain: string, protocols: seq<string>)
    requires forall key :: At(m, key) == 0.0
    ensures ProtocolTotal(m, chain, protocols) == 0.0
  {
    if protocols != [] {
      EmptyProtocolTotal(m, chain, protocols[1..]);
    }
  }

  /** Every position with money on the chain names one of the protocols. */
  ghost predicate Names(ps: seq<Position>, chain: string, protocols: seq<string>) {
    forall i :: 0 <= i < |ps| && ps[i].chain == chain && Positive(ps[i].usd) ==>
      ps[i].protocol != "" && ps[i].protocol in protocols
  }

  lemma {:induction false} ExplainedBound(ps: seq<Position>, chain: string, protocols: seq<string>)
    requires chain != ""
    ensures Explained(ps, chain, protocols) <= PositionSum(ps, ByChain, false, chain)
    ensures Explained(ps, chain, protocols) == PositionSum(ps, ByChain, false, chain) <==> Names(ps, chain, protocols)
  {
    if ps != [] {
      var before, p := ps[..|ps| - 1], ps[|ps| - 1];
      ExplainedBound(before, chain, protocols);
      assert ps == before + [p];
      assert Names(ps, chain, protocols) <==>
        Names(before, chain, protocols)
        && (p.chain == chain && Positive(p.usd) ==> p.protocol != "" && p.protocol in protocols);
    }
  }

  /** Per chain, the protocols' money never exceeds what is deployed, and equals it exactly when
      every position with money there names one of the protocols. */
  lemma ProtocolConservation(h: Holdings, chain: string, protocols: seq<string>)
    requires chain != "" && ColonFree(chain) && ColonFreeChains(h.positions) && Distinct(protocols)
    ensures ProtocolTotal(MapsOf(h).byProtocol, chain, protocols) <= At(MapsOf(h).deployedByChain, chain)
    ensures ProtocolTotal(MapsOf(h).byProtocol, chain, protocols) == At(MapsOf(h).deployedByChain, chain)
      <==> Names(h.positions, chain, protocols)
  {
    ProtocolTotalIsExplained(h.all, h.positions, chain, protocols);
    ExplainedBound(h.positions, chain, protocols);
    MapsDescribe(h.all, h.positions);
    hide Positive, Names;
    assert At(MapsOf(h).deployedByChain, chain) == PositionSum(h.positions, ByChain, false, chain);
  }

  // ----- live strategies -----

  datatype TickMode = NoTick | LiveCandidate | LiveReady | ShadowReady | Blocked | OtherTick

  datatype Label = Live | QueueReady | PolicyReady | Activity | Shadow | BlockedLabel | Armed | DryRun | Candidate

  /** The lane that carries the policy: whether its blockers are a list, and an empty one. */
  datatype Policy = Policy(autoExecute: Option<bool>, noBlockers: bool)

  datatype Strategy = Strategy(
    chain: string, protocol: string, autoExecByDefault: bool, tick: TickMode, primary: Option<Policy>)

  function FallbackLabel(s: Strategy): Label {
    match s.tick
    case LiveCandidate => QueueReady
    case LiveReady => PolicyReady
    case ShadowReady => Shadow
    case Blocked => BlockedLabel
    case _ =>
      match s.primary
      case None => if s.autoExecByDefault then Armed else Candidate
      case Some(policy) =>
        var autoExec := policy.autoExecute.GetOr(s.autoExecByDefault);
        if policy.noBlockers && autoExec then PolicyReady else if autoExec then Armed else DryRun
  }

  function StatusLabel(s: Strategy, capital: CapitalMaps, recentActivity: bool): Label {
    var key := ProtocolKey(s.chain, s.protocol);
    var protocolCapital := if key.None? then 0.0 else At(capital.byProtocol, key.value);
    var fallback := FallbackLabel(s);
    if protocolCapital > 0.0 then Live
    else if s.tick.LiveCandidate? then QueueReady
    else if s.tick.LiveReady? || fallback.PolicyReady? then PolicyReady
    else if recentActivity then Activity
    else if s.tick.ShadowReady? then Shadow
    else if s.tick.Blocked? then BlockedLabel
    else fallback
  }

  /** The lane's policy lets the strategy execute, or its default does when the policy is silent. */
  predicate Executes(s: Strategy) {
    match s.primary
    case None => s.autoExecByDefault
    case Some(policy) => policy.autoExecute == Some(true) || (policy.autoExecute == None && s.autoExecByDefault)
  }

  /** The policy alone makes the strategy ready: no tick says otherwise and nothing blocks it. */
  predicate ReadyByPolicy(s: Strategy) {
    s.tick in [NoTick, OtherTick] && s.primary.Some? && s.primary.value.noBlockers && Executes(s)
  }

  /** The label of a strategy without money, each one exactly. */
  lemma LabelsExactly(s: Strategy, capital: CapitalMaps, recent: bool)
    requires !StatusLabel(s, capital, recent).Live?
    ensures var shown, untouched := StatusLabel(s, capital, recent), !recent && s.tick in [NoTick, OtherTick];
      && (shown.QueueReady? <==> s.tick == LiveCandidate)
      && (shown.PolicyReady? <==> s.tick == LiveReady || ReadyByPolicy(s))
      && (shown.Activity? <==> recent && s.tick !in [LiveCandidate, LiveReady] && !ReadyByPolicy(s))
      && (shown.Shadow? <==> !recent && s.tick == ShadowReady)
      && (shown.BlockedLabel? <==> !recent && s.tick == Blocked)
      && (shown.Armed? <==> untouched && Executes(s) && !ReadyByPolicy(s))
      && (shown.DryRun? <==> untouched && !Executes(s) && s.primary.Some?)
      && (shown.Candidate? <==> untouched && !Executes(s) && s.primary.None?)
  {
    hide At, ProtocolKey;
  }

  ghost predicate HasMoneyAt(ps: seq<Position>, chain: string, protocol: string) {
    exists i :: 0 <= i < |ps| && ps[i].chain == chain && ps[i].protocol == protocol && Positive(ps[i].usd)
  }

  lemma {:induction false} ProtocolSumPositive(ps: seq<Position>, chain: string, protocol: string)
    requires ColonFree(chain) && ColonFreeChains(ps) && chain != "" && protocol != ""
    ensures PositionSum(ps, ByProtocol, false, chain + ":" + protocol) > 0.0 <==> HasMoneyAt(ps, chain, protocol)
  {
    if ps != [] {
      var before, p := ps[..|ps| - 1], ps[|ps| - 1];
      ProtocolSumPositive(before, chain, protocol);
      SumsNonneg([], before, ByProtocol, false, chain + ":" + protocol);
      assert ps == before + [p];
      if ProtocolKey(p.chain, p.protocol) == Some(chain + ":" + protocol) {
        KeyInjective(p.chain, p.protocol, chain, protocol);
      }
      assert HasMoneyAt(ps, chain, protocol) <==>
        HasMoneyAt(before, chain, protocol) || (p.chain == chain && p.protocol == protocol && Positive(p.usd)) by {
        if HasMoneyAt(before, chain, protocol) {
          var i :| && 0 <= i < |before|
                   && before[i].chain == chain && before[i].protocol == protocol && Positive(before[i].usd);
          assert ps[i] == before[i];
        }
      }
    }
  }

  /** A strategy is shown live exactly when some position at its chain and protocol holds money,
      whatever its tick, policy or activity say. */
  lemma LiveExactlyWithMoney(s: Strategy, h: Holdings, recentActivity: bool)
    requires ColonFree(s.chain) && ColonFreeChains(h.positions)
    ensures StatusLabel(s, MapsOf(h), recentActivity).Live? <==>
      s.chain != "" && s.protocol != "" && HasMoneyAt(h.positions, s.chain, s.protocol)
  {
    if s.chain != "" && s.protocol != "" {
      ProtocolSumPositive(h.positions, s.chain, s.protocol);
      MapsDescribe(h.all, h.positions);
      hide HasMoneyAt;
      var key := s.chain + ":" + s.protocol;
      assert At(MapsOf(h).byProtocol, key) == PositionSum(h.positions, ByProtocol, false, key);
    }
  }
}
