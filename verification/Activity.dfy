/** Recent activity per chain and per protocol (dashboard/public/data.jsx, `buildActivitySurfaces`):
    one pass over the activities, proved equal to a declarative grouping. */
module Activity {
  import opened Prelude

  /** An observation time: the text as received and its milliseconds (0 when it does not parse). */
  datatype Time = Time(text: string, ms: int)

  datatype Activity = Activity(
    strategyId: string, chain: string, protocol: string, finalAssetId: string, finalAssetLabel: string,
    detail: string, status: string, observedAt: Option<Time>, amountUsd: Option<real>)

  datatype Strategy = Strategy(id: string, chain: string, protocol: string, pair: seq<string>)

  /** String functions of the host: `lower` is `toLowerCase`, `norm` trims as well. */
  datatype Text = Text(lower: string -> string, norm: string -> string)

  /** `cleanUnknown`, with the empty string for nothing. */
  function Clean(value: string, text: Text): string {
    if text.norm(value) == "" || text.norm(value) == "unknown" then "" else value
  }

  const NON_PROTOCOL_IDS: set<string> :=
    {"wrapped_native", "wrapped-native", "wrapped native", "native", "native_token", "native-token", "gas"}

  const TRANSPORT_ONLY: set<string> := {"across", "gaszip", "gas_zip", "li.fi", "lifi", "odos"}

  predicate Displayable(protocol: string, text: Text) {
    text.norm(protocol) != "" && text.norm(protocol) !in NON_PROTOCOL_IDS
  }

  predicate TransportOnly(protocol: string, text: Text) {
    text.norm(protocol) in TRANSPORT_ONLY
  }

  /** `normalizeStrategyId`. */
  function NormalizeId(id: string): string {
    seq(|id|, i requires 0 <= i < |id| => if id[i] == '-' then '_' else id[i])
  }

  /** The last strategy with the normalized id, as `Object.fromEntries` keeps it. */
  function Lookup(strategies: seq<Strategy>, id: string): Option<Strategy> {
    if strategies == [] then None
    else if NormalizeId(strategies[|strategies| - 1].id) == NormalizeId(id) then Some(strategies[|strategies| - 1])
    else Lookup(strategies[..|strategies| - 1], id)
  }

  predicate Known(strategies: seq<Strategy>, key: string) {
    exists i :: 0 <= i < |strategies| && ProtocolKey(strategies[i].chain, strategies[i].protocol) == Some(key)
  }

  /** `inferActivityAction`. */
  function InferAction(a: Activity, text: Text): (action: string)
    ensures action != ""
  {
    var detail := text.lower(a.detail);
    if IsSubstring("approve", detail) then "approve"
    else if IsSubstring("erc4626_deposit", detail) then "deposit"
    else if IsSubstring("erc4626_redeem", detail) then "redeem"
    else if IsSubstring("bridge", detail) then "bridge"
    else if IsSubstring("swap", detail) then "swap"
    else OrElse(a.status, "activity")
  }

  /** What the pass needs of one activity. `chain` is empty when it has none; `key` is empty when the
      activity belongs to no protocol surface. */
  datatype Row = Row(
    chain: string, key: string, assetId: string, action: string, status: string, observedAt: Option<Time>, usd: real)

  function RowOf(a: Activity, strategies: seq<Strategy>, text: Text): Row {
    var strategy := Lookup(strategies, a.strategyId);
    var chain := OrElse(Clean(a.chain, text), if strategy.Some? then strategy.value.chain else "");
    var protocol := OrElse(Clean(a.protocol, text), if strategy.Some? then strategy.value.protocol else "");
    var asset := OrElse(OrElse(Clean(a.finalAssetId, text), Clean(a.finalAssetLabel, text)),
                        if strategy.Some? && strategy.value.pair != [] then strategy.value.pair[0] else "");
    var usd := if a.amountUsd.Some? && a.amountUsd.value > 0.0 then a.amountUsd.value else 0.0;
    var shown := chain != "" && protocol != "" && Displayable(protocol, text) && !TransportOnly(protocol, text);
    Row(chain, if shown then ProtocolKey(chain, protocol).GetOr("") else "", asset, InferAction(a, text), a.status,
        a.observedAt, usd)
  }

  function Rows(activities: seq<Activity>, strategies: seq<Strategy>, text: Text): seq<Row> {
    seq(|activities|, i requires 0 <= i < |activities| => RowOf(activities[i], strategies, text))
  }

  /** A column of the rows: what they are grouped by, or a name that is collected. */
  type Column = Row -> string

  function ByChain(r: Row): string {
    r.chain
  }

  function ByKey(r: Row): string {
    r.key
  }

  function AssetName(r: Row): string {
    r.assetId
  }

  function ActionName(r: Row): string {
    r.action
  }

  function StatusName(r: Row): string {
    r.status
  }

  // ----- the declarative grouping -----

  /** A chain surface keeps no statuses. */
  datatype Surface = Surface(
    count: nat, usd: real, latestAt: Option<Time>, assets: seq<string>, actions: seq<string>, statuses: seq<string>)

  /** The activity-only strategy made for a protocol no strategy covers. `latestAt` is the last time
      seen, not the greatest. */
  datatype Synthetic = Synthetic(
    count: nat, usd: real, latestAt: Option<Time>, assets: seq<string>, actions: seq<string>)

  function TotalUsd(rows: seq<Row>): real {
    if rows == [] then 0.0 else TotalUsd(rows[..|rows| - 1]) + rows[|rows| - 1].usd
  }

  /** The distinct non-empty names of a column, in the order they are first seen. */
  function FirstSeen(rows: seq<Row>, column: Column): seq<string> {
    if rows == [] then []
    else
      var before, name := FirstSeen(rows[..|rows| - 1], column), column(rows[|rows| - 1]);
      if name == "" || name in before then before else before + [name]
  }

  /** The first of the latest observation times. */
  function Latest(rows: seq<Row>): Option<Time> {
    if rows == [] then None
    else
      var before, at := Latest(rows[..|rows| - 1]), rows[|rows| - 1].observedAt;
      if at.None? then before
      else if before.None? || at.value.ms > before.value.ms then at
      else before
  }

  function LastSeen(rows: seq<Row>): Option<Time> {
    if rows == [] then None
    else if rows[|rows| - 1].observedAt.Some? then rows[|rows| - 1].observedAt
    else LastSeen(rows[..|rows| - 1])
  }

  function ProtocolSummary(rows: seq<Row>): Surface {
    Surface(|rows|, TotalUsd(rows), Latest(rows), FirstSeen(rows, AssetName), FirstSeen(rows, ActionName),
            FirstSeen(rows, StatusName))
  }

  function ChainSummary(rows: seq<Row>): Surface {
    ProtocolSummary(rows).(statuses := [])
  }

  function SyntheticOf(rows: seq<Row>): Synthetic {
    Synthetic(|rows|, TotalUsd(rows), LastSeen(rows), FirstSeen(rows, AssetName), FirstSeen(rows, ActionName))
  }

  /** The rows of one group. */
  function Where(rows: seq<Row>, part: Column, value: string): seq<Row> {
    Filter(rows, (r: Row) => part(r) == value)
  }

  /** The chain surfaces are exactly the summaries of the non-empty groups. */
  ghost predicate ChainsGrouped(m: map<string, Surface>, rows: seq<Row>) {
    forall chain :: (chain in m <==> chain != "" && Where(rows, ByChain, chain) != [])
      && (chain in m ==> m[chain] == ChainSummary(Where(rows, ByChain, chain)))
  }

  ghost predicate KeysGrouped(m: map<string, Surface>, rows: seq<Row>) {
    forall key :: (key in m <==> key != "" && Where(rows, ByKey, key) != [])
      && (key in m ==> m[key] == ProtocolSummary(Where(rows, ByKey, key)))
  }

  /** Synthetic entries exist exactly for the protocol surfaces no known strategy covers. */
  ghost predicate SyntheticGrouped(m: map<string, Synthetic>, rows: seq<Row>, strategies: seq<Strategy>) {
    forall key :: (key in m <==> key != "" && !Known(strategies, key) && Where(rows, ByKey, key) != [])
      && (key in m ==> m[key] == SyntheticOf(Where(rows, ByKey, key)))
  }

  // ----- one step of the pass -----

  /** `addSurfaceAsset`, and the same for actions, which are never empty, and statuses. */
  function AddName(names: seq<string>, name: string): seq<string> {
    if name == "" || name in names then names else names + [name]
  }

  /** `updateLatestSurface`. */
  function UpdateLatest(latest: Option<Time>, at: Option<Time>): Option<Time> {
    if at.None? then latest
    else if latest.None? || at.value.ms > latest.value.ms then at
    else latest
  }

  function AddToProtocol(s: Surface, r: Row): Surface {
    Surface(s.count + 1, s.usd + r.usd, UpdateLatest(s.latestAt, r.observedAt), AddName(s.assets, r.assetId),
            AddName(s.actions, r.action), AddName(s.statuses, r.status))
  }

  function AddToChain(s: Surface, r: Row): Surface {
    Surface(s.count + 1, s.usd + r.usd, UpdateLatest(s.latestAt, r.observedAt), AddName(s.assets, r.assetId),
            AddName(s.actions, r.action), s.statuses)
  }

  function AddSynthetic(s: Synthetic, r: Row): Synthetic {
    Synthetic(s.count + 1, s.usd + r.usd, if r.observedAt.Some? then r.observedAt else s.latestAt,
              AddName(s.assets, r.assetId), AddName(s.actions, r.action))
  }

  const NO_SURFACE := Surface(0, 0.0, None, [], [], [])
  const NO_SYNTHETIC := Synthetic(0, 0.0, None, [], [])

  lemma FirstSeenStep(rows: seq<Row>, r: Row, column: Column)
    ensures FirstSeen(rows + [r], column) == AddName(FirstSeen(rows, column), column(r))
  {
    assert (rows + [r])[..|rows|] == rows;
  }

  lemma AddSummarizes(rows: seq<Row>, r: Row)
    ensures AddToProtocol(ProtocolSummary(rows), r) == ProtocolSummary(rows + [r])
    ensures AddToChain(ChainSummary(rows), r) == ChainSummary(rows + [r])
    ensures AddSynthetic(SyntheticOf(rows), r) == SyntheticOf(rows + [r])
  {
    assert (rows + [r])[..|rows|] == rows;
    FirstSeenStep(rows, r, AssetName);
    FirstSeenStep(rows, r, ActionName);
    FirstSeenStep(rows, r, StatusName);
    hide FirstSeen, AddName;
  }

  lemma NothingSummarized()
    ensures ProtocolSummary([]) == ChainSummary([]) == NO_SURFACE && SyntheticOf([]) == NO_SYNTHETIC
  {
  }

  lemma WhereAppend(rows: seq<Row>, r: Row, part: Column, value: string)
    ensures Where(rows + [r], part, value)
         == if part(r) == value then Where(rows, part, value) + [r] else Where(rows, part, value)
  {
    FilterAppend(rows, [r], (x: Row) => part(x) == value);
  }

  lemma ChainStep(m: map<string, Surface>, rows: seq<Row>, r: Row)
    requires ChainsGrouped(m, rows)
    ensures r.chain == "" ==> ChainsGrouped(m, rows + [r])
    ensures r.chain != "" ==>
      ChainsGrouped(m[r.chain := AddToChain(if r.chain in m then m[r.chain] else NO_SURFACE, r)], rows + [r])
  {
    forall chain {
      WhereAppend(rows, r, ByChain, chain);
    }
    AddSummarizes(Where(rows, ByChain, r.chain), r);
    NothingSummarized();
    hide Where, ChainSummary, AddToChain;
  }

  lemma KeyStep(m: map<string, Surface>, rows: seq<Row>, r: Row)
    requires KeysGrouped(m, rows)
    ensures r.key == "" ==> KeysGrouped(m, rows + [r])
    ensures r.key != "" ==>
      KeysGrouped(m[r.key := AddToProtocol(if r.key in m then m[r.key] else NO_SURFACE, r)], rows + [r])
  {
    forall key {
      WhereAppend(rows, r, ByKey, key);
    }
    AddSummarizes(Where(rows, ByKey, r.key), r);
    NothingSummarized();
    hide Where, ProtocolSummary, AddToProtocol;
  }

  lemma SyntheticStep(m: map<string, Synthetic>, rows: seq<Row>, r: Row, strategies: seq<Strategy>)
    requires SyntheticGrouped(m, rows, strategies)
    ensures r.key == "" || Known(strategies, r.key) ==> SyntheticGrouped(m, rows + [r], strategies)
    ensures r.key != "" && !Known(strategies, r.key) ==> SyntheticGrouped(
        m[r.key := AddSynthetic(if r.key in m then m[r.key] else NO_SYNTHETIC, r)], rows + [r], strategies)
  {
    forall key {
      WhereAppend(rows, r, ByKey, key);
    }
    AddSummarizes(Where(rows, ByKey, r.key), r);
    NothingSummarized();
    hide Where, SyntheticOf, AddSynthetic, Known;
  }

  lemma NothingGrouped(strategies: seq<Strategy>)
    ensures ChainsGrouped(map[], []) && KeysGrouped(map[], []) && SyntheticGrouped(map[], [], strategies)
  {
  }

  /** The pass of `buildActivitySurfaces`: three dictionaries, updated in one loop. */
  method BuildActivitySurfaces(activities: seq<Activity>, strategies: seq<Strategy>, text: Text)
    returns (byChain: map<string, Surface>, byProtocol: map<string, Surface>, synthetic: map<string, Synthetic>)
    ensures ChainsGrouped(byChain, Rows(activities, strategies, text))
    ensures KeysGrouped(byProtocol, Rows(activities, strategies, text))
    ensures SyntheticGrouped(synthetic, Rows(activities, strategies, text), strategies)
  {
    hide ChainsGrouped, KeysGrouped, SyntheticGrouped, RowOf, Known, AddToChain, AddToProtocol, AddSynthetic;
    byChain, byProtocol, synthetic := map[], map[], map[];
    NothingGrouped(strategies);
    ghost var rows := Rows(activities, strategies, text);
    for i := 0 to |activities|
      invariant ChainsGrouped(byChain, rows[..i])
      invariant KeysGrouped(byProtocol, rows[..i])
      invariant SyntheticGrouped(synthetic, rows[..i], strategies)
    {
      var r := RowOf(activities[i], strategies, text);
      assert rows[..i + 1] == rows[..i] + [r];
      ChainStep(byChain, rows[..i], r);
      KeyStep(byProtocol, rows[..i], r);
      SyntheticStep(synthetic, rows[..i], r, strategies);
      if r.chain != "" {
        byChain := byChain[r.chain := AddToChain(if r.chain in byChain then byChain[r.chain] else NO_SURFACE, r)];
      }
      if r.key == "" { continue; }
      byProtocol :=
        byProtocol[r.key := AddToProtocol(if r.key in byProtocol then byProtocol[r.key] else NO_SURFACE, r)];
      if Known(strategies, r.key) { continue; }
      synthetic := synthetic[r.key := AddSynthetic(if r.key in synthetic then synthetic[r.key] else NO_SYNTHETIC, r)];
    }
    assert rows[..|activities|] == rows;
  }

  // ----- what the summaries mean -----

  /** Every synthetic entry has the count, money, assets and actions of the surface of its key. */
  lemma SyntheticMatchesSurface(
      byProtocol: map<string, Surface>, synthetic: map<string, Synthetic>, rows: seq<Row>, strategies: seq<Strategy>)
    requires KeysGrouped(byProtocol, rows) && SyntheticGrouped(synthetic, rows, strategies)
    ensures forall key :: key in synthetic <==> key in byProtocol && !Known(strategies, key)
    ensures forall key :: key in synthetic ==>
      && synthetic[key].count == byProtocol[key].count > 0
      && synthetic[key].usd == byProtocol[key].usd
      && synthetic[key].assets == byProtocol[key].assets
      && synthetic[key].actions == byProtocol[key].actions
  {
    hide Known;
    forall key
      ensures key in synthetic <==> key in byProtocol && !Known(strategies, key)
      ensures key in synthetic ==>
        && synthetic[key].count == byProtocol[key].count > 0
        && synthetic[key].usd == byProtocol[key].usd
        && synthetic[key].assets == byProtocol[key].assets
        && synthetic[key].actions == byProtocol[key].actions
    {
      assert key in byProtocol <==> key != "" && Where(rows, ByKey, key) != [];
    }
  }

  /** The row at `i` has the time, and every row before it has an earlier one or none. */
  ghost predicate FirstLatest(rows: seq<Row>, i: nat, at: Option<Time>) {
    && i < |rows| && rows[i].observedAt == at && at.Some?
    && forall j :: 0 <= j < i && rows[j].observedAt.Some? ==> rows[j].observedAt.value.ms < at.value.ms
  }

  /** The latest time of a group is the first of its times that no other exceeds; it is missing exactly
      when the group has no time. */
  lemma {:induction false} LatestIsMaximum(rows: seq<Row>)
    ensures Latest(rows).None? <==> forall i :: 0 <= i < |rows| ==> rows[i].observedAt.None?
    ensures Latest(rows).Some? ==> exists i: nat :: FirstLatest(rows, i, Latest(rows))
    ensures forall i :: 0 <= i < |rows| && rows[i].observedAt.Some? ==>
      Latest(rows).Some? && rows[i].observedAt.value.ms <= Latest(rows).value.ms
  {
    if rows != [] {
      var n := |rows| - 1;
      LatestIsMaximum(rows[..n]);
      assert forall i :: 0 <= i < n ==> rows[..n][i] == rows[i];
      if Latest(rows[..n]).Some? {
        var i: nat :| FirstLatest(rows[..n], i, Latest(rows[..n]));
        assert FirstLatest(rows, i, Latest(rows[..n]));
      }
      assert Latest(rows).Some? ==> Latest(rows) == Latest(rows[..n]) || FirstLatest(rows, n, Latest(rows));
    }
  }

  ghost predicate NoneAfter(rows: seq<Row>, i: nat) {
    forall j :: i < j < |rows| ==> rows[j].observedAt.None?
  }

  /** The last time of a group is that of the last row that has one. */
  lemma {:induction false} LastSeenIsLast(rows: seq<Row>)
    ensures LastSeen(rows).None? <==> forall i :: 0 <= i < |rows| ==> rows[i].observedAt.None?
    ensures LastSeen(rows).Some? ==>
      exists i :: 0 <= i < |rows| && rows[i].observedAt == LastSeen(rows) && NoneAfter(rows, i)
  {
    if rows != [] {
      var n := |rows| - 1;
      LastSeenIsLast(rows[..n]);
      assert forall i :: 0 <= i < n ==> rows[..n][i] == rows[i];
    }
  }

  ghost predicate SeenBefore(rows: seq<Row>, column: Column, name: string, i: nat) {
    i <= |rows| && exists j :: 0 <= j < i && column(rows[j]) == name
  }

  /** Some prefix of the rows mentions `a` but not `b`. */
  ghost predicate SeenFirst(rows: seq<Row>, column: Column, a: string, b: string) {
    exists i: nat :: SeenBefore(rows, column, a, i) && !SeenBefore(rows, column, b, i)
  }

  lemma SeenBeforeAppend(before: seq<Row>, r: Row, column: Column, a: string)
    ensures forall i: nat :: i <= |before| ==>
      SeenBefore(before + [r], column, a, i) == SeenBefore(before, column, a, i)
    ensures SeenBefore(before + [r], column, a, |before| + 1)
       <==> SeenBefore(before, column, a, |before|) || column(r) == a
  {
    var rows := before + [r];
    assert rows[|before|] == r;
    assert forall j :: 0 <= j < |before| ==> rows[j] == before[j];
  }

  lemma SeenFirstAppend(before: seq<Row>, r: Row, column: Column, a: string, b: string)
    requires SeenFirst(before, column, a, b)
    ensures SeenFirst(before + [r], column, a, b)
  {
    SeenBeforeAppend(before, r, column, a);
    SeenBeforeAppend(before, r, column, b);
    hide SeenBefore;
    var i: nat :| SeenBefore(before, column, a, i) && !SeenBefore(before, column, b, i);
    assert i <= |before| by { SeenInRange(before, column, a, i); }
    assert SeenBefore(before + [r], column, a, i) && !SeenBefore(before + [r], column, b, i);
  }

  lemma SeenInRange(rows: seq<Row>, column: Column, a: string, i: nat)
    requires SeenBefore(rows, column, a, i)
    ensures i <= |rows|
  {
  }

  /** The names collected from a group, be they assets, actions or statuses: each name once, no other,
      and ordered by first appearance. */
  lemma {:induction false} NamesAreFirstSeen(rows: seq<Row>, column: Column)
    ensures Distinct(FirstSeen(rows, column))
    ensures forall a :: a in FirstSeen(rows, column) <==> a != "" && SeenBefore(rows, column, a, |rows|)
    ensures forall p, q :: 0 <= p < q < |FirstSeen(rows, column)| ==>
      SeenFirst(rows, column, FirstSeen(rows, column)[p], FirstSeen(rows, column)[q])
  {
    if rows != [] {
      var before, r := rows[..|rows| - 1], rows[|rows| - 1];
      NamesAreFirstSeen(before, column);
      assert rows == before + [r];
      var names, known := FirstSeen(rows, column), FirstSeen(before, column);
      forall a
        ensures SeenBefore(rows, column, a, |rows|) <==> SeenBefore(before, column, a, |before|) || column(r) == a
        ensures SeenBefore(rows, column, a, |before|) == SeenBefore(before, column, a, |before|)
      {
        SeenBeforeAppend(before, r, column, a);
      }
      hide SeenBefore, SeenFirst;
      forall p, q | 0 <= p < q < |names|
        ensures SeenFirst(rows, column, names[p], names[q])
      {
        if q == |known| {
          SeenFirstHere(rows, column, names[p], column(r), |before|);
        } else {
          SeenFirstAppend(before, r, column, known[p], known[q]);
        }
      }
    }
  }

  lemma SeenFirstHere(rows: seq<Row>, column: Column, a: string, b: string, i: nat)
    requires SeenBefore(rows, column, a, i) && !SeenBefore(rows, column, b, i)
    ensures SeenFirst(rows, column, a, b)
  {
  }

  // ----- nothing is lost -----

  /** What the surfaces of a dictionary add up to, over its keys in some order. */
  function SumCounts(m: map<string, Surface>, keys: seq<string>): nat
    requires forall k :: k in keys ==> k in m
  {
    if keys == [] then 0 else m[keys[0]].count + SumCounts(m, keys[1..])
  }

  function SumUsd(m: map<string, Surface>, keys: seq<string>): real
    requires forall k :: k in keys ==> k in m
  {
    if keys == [] then 0.0 else m[keys[0]].usd + SumUsd(m, keys[1..])
  }

  /** The rows whose column is one of the values. */
  function Among(rows: seq<Row>, part: Column, values: seq<string>): seq<Row> {
    Filter(rows, (r: Row) => part(r) in values)
  }

  /** Splitting off one value splits the rows. */
  lemma {:induction false} AmongSplit(rows: seq<Row>, part: Column, values: seq<string>)
    requires values != [] && Distinct(values)
    ensures |Among(rows, part, values)| == |Where(rows, part, values[0])| + |Among(rows, part, values[1..])|
    ensures TotalUsd(Among(rows, part, values))
         == TotalUsd(Where(rows, part, values[0])) + TotalUsd(Among(rows, part, values[1..]))
  {
    assert values == [values[0]] + values[1..];
    if rows != [] {
      var before, r := rows[..|rows| - 1], rows[|rows| - 1];
      assert rows == before + [r];
      AmongSplit(before, part, values);
      AmongAppend(before, r, part, values);
      AmongAppend(before, r, part, values[1..]);
      WhereAppend(before, r, part, values[0]);
      UsdAppend(Among(before, part, values), r);
      UsdAppend(Among(before, part, values[1..]), r);
      UsdAppend(Where(before, part, values[0]), r);
      assert values[0] !in values[1..];
      hide Among, Where, TotalUsd;
    }
  }

  lemma AmongAppend(rows: seq<Row>, r: Row, part: Column, values: seq<string>)
    ensures Among(rows + [r], part, values)
         == if part(r) in values then Among(rows, part, values) + [r] else Among(rows, part, values)
  {
    FilterAppend(rows, [r], (x: Row) => part(x) in values);
  }

  lemma UsdAppend(rows: seq<Row>, r: Row)
    ensures TotalUsd(rows + [r]) == TotalUsd(rows) + r.usd
  {
    assert (rows + [r])[..|rows|] == rows;
  }

  lemma {:induction false} SumsAreAmong(m: map<string, Surface>, rows: seq<Row>, part: Column, keys: seq<string>)
    requires Distinct(keys)
    requires forall k :: k in keys ==>
      k in m && m[k].count == |Where(rows, part, k)| && m[k].usd == TotalUsd(Where(rows, part, k))
    ensures SumCounts(m, keys) == |Among(rows, part, keys)| && SumUsd(m, keys) == TotalUsd(Among(rows, part, keys))
  {
    if keys == [] {
      FilterNone(rows, (r: Row) => part(r) in keys);
    } else {
      assert keys == [keys[0]] + keys[1..];
      SumsAreAmong(m, rows, part, keys[1..]);
      AmongSplit(rows, part, keys);
      hide Where, Among, TotalUsd;
    }
  }

  /** The rows that name a value in the column. */
  function Named(rows: seq<Row>, part: Column): seq<Row> {
    Filter(rows, (r: Row) => part(r) != "")
  }

  lemma {:induction false} AmongIsNamed(rows: seq<Row>, part: Column, values: seq<string>)
    requires forall r :: r in rows ==> (part(r) in values <==> part(r) != "")
    ensures Among(rows, part, values) == Named(rows, part)
  {
    if rows != [] {
      AmongIsNamed(rows[1..], part, values);
      assert rows[0] in rows;
    }
  }

  lemma WhereCovers(rows: seq<Row>, part: Column, r: Row)
    requires r in rows
    ensures r in Where(rows, part, part(r))
  {
  }

  /** The chain surfaces account for every activity and every dollar: over all chains, counts and money
      add up to those of the activities that name a chain. */
  lemma ChainsConserved(m: map<string, Surface>, rows: seq<Row>, chains: seq<string>)
    requires ChainsGrouped(m, rows) && Distinct(chains) && (forall c :: c in chains <==> c in m)
    ensures SumCounts(m, chains) == |Named(rows, ByChain)| && SumUsd(m, chains) == TotalUsd(Named(rows, ByChain))
  {
    hide FirstSeen, Latest;
    SumsAreAmong(m, rows, ByChain, chains);
    forall r | r in rows
      ensures ByChain(r) in chains <==> ByChain(r) != ""
    {
      WhereCovers(rows, ByChain, r);
    }
    hide Where, TotalUsd, Among, Named;
    AmongIsNamed(rows, ByChain, chains);
  }

  /** The protocol surfaces likewise account for every activity with a displayable protocol. */
  lemma ProtocolsConserved(m: map<string, Surface>, rows: seq<Row>, keys: seq<string>)
    requires KeysGrouped(m, rows) && Distinct(keys) && (forall k :: k in keys <==> k in m)
    ensures SumCounts(m, keys) == |Named(rows, ByKey)| && SumUsd(m, keys) == TotalUsd(Named(rows, ByKey))
  {
    hide FirstSeen, Latest;
    SumsAreAmong(m, rows, ByKey, keys);
    forall r | r in rows
      ensures ByKey(r) in keys <==> ByKey(r) != ""
    {
      WhereCovers(rows, ByKey, r);
    }
    hide Where, TotalUsd, Among, Named;
    AmongIsNamed(rows, ByKey, keys);
  }
}
