/** Grouping a chain's strategies by protocol and averaging their rates
    (dashboard/public/mindmap.jsx, `groupStrategiesByProtocol`, `weightedProtocolApr`;
    dashboard/public/app.jsx, `weightedApyForStrategies`). */
module Protocols {
  import opened Prelude

  datatype Strategy = Strategy(
    id: string, protocol: string, live: bool, apyPct: Option<real>, capUsd: Option<real>,
    estimatedProtocolCapitalUsd: Option<real>, actualProtocolCapitalUsd: Option<real>,
    realizedYieldUsd: Option<real>, estimatedYieldUsd: Option<real>,
    recentActivityCount: Option<real>, recentActivityUsd: Option<real>)

  type Measure = Strategy -> real

  /** `reduce((sum, s) => sum + f(s), 0)`. */
  function Sum(ss: seq<Strategy>, f: Measure): real {
    if ss == [] then 0.0 else Sum(ss[..|ss| - 1], f) + f(ss[|ss| - 1])
  }

  lemma SumAppend(ss: seq<Strategy>, s: Strategy, f: Measure)
    ensures Sum(ss + [s], f) == Sum(ss, f) + f(s)
  {
    assert (ss + [s])[..|ss|] == ss;
  }

  // ----- grouping -----

  /** The dictionary of the source, with its protocols in the order they were first set. */
  datatype Groups = Groups(order: seq<string>, members: map<string, seq<Strategy>>)

  function Members(ss: seq<Strategy>, protocol: string): seq<Strategy> {
    Filter(ss, (s: Strategy) => s.protocol == protocol)
  }

  /** The first few strategies include one of protocol `a` but none of protocol `b`. */
  ghost predicate SeenFirst(ss: seq<Strategy>, a: string, b: string) {
    exists n: nat :: n <= |ss| && Members(ss[..n], a) != [] && Members(ss[..n], b) == []
  }

  ghost predicate InOrder(order: seq<string>, ss: seq<Strategy>) {
    forall i, j :: 0 <= i < j < |order| ==> SeenFirst(ss, order[i], order[j])
  }

  /** The groups are exactly the non-empty sublists of equal protocol, each listed once, in the order in
      which their protocols are first seen. */
  ghost predicate Partition(g: Groups, ss: seq<Strategy>) {
    && Distinct(g.order)
    && InOrder(g.order, ss)
    && (forall p :: p in g.order <==> p in g.members)
    && (forall p :: p in g.members <==> Members(ss, p) != [])
    && (forall p :: p in g.members ==> g.members[p] == Members(ss, p))
  }

  lemma MembersAppend(ss: seq<Strategy>, s: Strategy, protocol: string)
    ensures Members(ss + [s], protocol)
         == if s.protocol == protocol then Members(ss, protocol) + [s] else Members(ss, protocol)
  {
    FilterAppend(ss, [s], (x: Strategy) => x.protocol == protocol);
  }

  lemma SeenFirstAppend(ss: seq<Strategy>, s: Strategy, a: string, b: string)
    requires SeenFirst(ss, a, b)
    ensures SeenFirst(ss + [s], a, b)
  {
    hide Members;
    var n: nat :| n <= |ss| && Members(ss[..n], a) != [] && Members(ss[..n], b) == [];
    assert (ss + [s])[..n] == ss[..n];
  }

  lemma InOrderAppend(order: seq<string>, ss: seq<Strategy>, s: Strategy)
    requires InOrder(order, ss)
    ensures InOrder(order, ss + [s])
    ensures (forall p :: p in order ==> Members(ss, p) != []) && Members(ss, s.protocol) == []
      ==> InOrder(order + [s.protocol], ss + [s])
  {
    forall a, b | SeenFirst(ss, a, b)
      ensures SeenFirst(ss + [s], a, b)
    {
      SeenFirstAppend(ss, s, a, b);
    }
    assert (ss + [s])[..|ss|] == ss;
    hide Members;
    forall i | 0 <= i < |order| && Members(ss, order[i]) != [] && Members(ss, s.protocol) == []
      ensures SeenFirst(ss + [s], order[i], s.protocol)
    {
      assert Members((ss + [s])[..|ss|], order[i]) != [] && Members((ss + [s])[..|ss|], s.protocol) == [];
    }
  }

  lemma NewGroup(g: Groups, ss: seq<Strategy>, s: Strategy)
    requires Partition(g, ss) && s.protocol !in g.members
    ensures Partition(Groups(g.order + [s.protocol], g.members[s.protocol := [s]]), ss + [s])
  {
    forall p {
      MembersAppend(ss, s, p);
    }
    InOrderAppend(g.order, ss, s);
    hide Members, InOrder;
    assert Members(ss, s.protocol) + [s] == [s];
  }

  lemma GrownGroup(g: Groups, ss: seq<Strategy>, s: Strategy)
    requires Partition(g, ss) && s.protocol in g.members
    ensures Partition(g.(members := g.members[s.protocol := g.members[s.protocol] + [s]]), ss + [s])
  {
    forall p {
      MembersAppend(ss, s, p);
    }
    InOrderAppend(g.order, ss, s);
    hide Members, InOrder;
  }

  /** The grouping loop. */
  method GroupByProtocol(ss: seq<Strategy>) returns (g: Groups)
    ensures Partition(g, ss)
  {
    hide Partition;
    var order: seq<string>, members: map<string, seq<Strategy>> := [], map[];
    EmptyPartition();
    for i := 0 to |ss|
      invariant Partition(Groups(order, members), ss[..i])
    {
      var s := ss[i];
      assert ss[..i + 1] == ss[..i] + [s];
      if s.protocol in members {
        GrownGroup(Groups(order, members), ss[..i], s);
        members := members[s.protocol := members[s.protocol] + [s]];
      } else {
        NewGroup(Groups(order, members), ss[..i], s);
        order, members := order + [s.protocol], members[s.protocol := [s]];
      }
    }
    assert ss[..|ss|] == ss;
    return Groups(order, members);
  }

  lemma EmptyPartition()
    ensures Partition(Groups([], map[]), [])
  {
  }

  /** A measure summed group by group. */
  function GroupedSum(ss: seq<Strategy>, order: seq<string>, f: Measure): real {
    if order == [] then 0.0 else Sum(Members(ss, order[0]), f) + GroupedSum(ss, order[1..], f)
  }

  lemma {:induction false} GroupedSumAppend(ss: seq<Strategy>, s: Strategy, order: seq<string>, f: Measure)
    requires Distinct(order)
    ensures GroupedSum(ss + [s], order, f) == GroupedSum(ss, order, f) + if s.protocol in order then f(s) else 0.0
  {
    if order != [] {
      GroupedSumAppend(ss, s, order[1..], f);
      MembersAppend(ss, s, order[0]);
      SumAppend(Members(ss, order[0]), s, f);
      hide Members, Sum;
      assert order == [order[0]] + order[1..];
      assert order[0] !in order[1..];
    }
  }

  lemma {:induction false} GroupedSumEmpty(order: seq<string>, f: Measure)
    ensures GroupedSum([], order, f) == 0.0
  {
    if order != [] {
      GroupedSumEmpty(order[1..], f);
    }
  }

  lemma {:induction false} GroupedSumIsSum(ss: seq<Strategy>, order: seq<string>, f: Measure)
    requires Distinct(order)
    requires forall s :: s in ss ==> s.protocol in order
    ensures GroupedSum(ss, order, f) == Sum(ss, f)
  {
    if ss == [] {
      GroupedSumEmpty(order, f);
    } else {
      var before, s := ss[..|ss| - 1], ss[|ss| - 1];
      assert ss == before + [s];
      GroupedSumIsSum(before, order, f);
      GroupedSumAppend(before, s, order, f);
    }
  }

  /** Grouping conserves every additive measure: number of strategies, number live, realized and
      estimated yield, activity counts and money, and how often any one strategy occurs. */
  lemma GroupingConserves(g: Groups, ss: seq<Strategy>, f: Measure)
    requires Partition(g, ss)
    ensures GroupedSum(ss, g.order, f) == Sum(ss, f)
  {
    forall s | s in ss
      ensures s.protocol in g.order
    {
      assert s in Members(ss, s.protocol);
    }
    GroupedSumIsSum(ss, g.order, f);
  }

  // ----- the group's figures -----

  /** `value || 0`. */
  function OrZero(value: Option<real>): real {
    value.GetOr(0.0)
  }

  datatype Figures = Figures(
    strategyCount: nat, liveCount: nat, realizedYieldUsd: real, estimatedYieldUsd: real, earnedUsd: real,
    recentActivityCount: real, recentActivityUsd: real, apyPct: Option<real>)

  function Realized(s: Strategy): real {
    OrZero(s.realizedYieldUsd)
  }

  function Estimated(s: Strategy): real {
    OrZero(s.estimatedYieldUsd)
  }

  function ActivityCount(s: Strategy): real {
    OrZero(s.recentActivityCount)
  }

  function ActivityUsd(s: Strategy): real {
    OrZero(s.recentActivityUsd)
  }

  function FiguresOf(items: seq<Strategy>): Figures {
    var realized, estimated := Sum(items, Realized), Sum(items, Estimated);
    Figures(|items|, |Filter(items, (s: Strategy) => s.live)|, realized, estimated,
            if realized > 0.0 then realized else estimated,
            Sum(items, ActivityCount), Sum(items, ActivityUsd),
            WeightedApr(items))
  }

  function CountSum(ss: seq<Strategy>, order: seq<string>): nat {
    if order == [] then 0 else FiguresOf(Members(ss, order[0])).strategyCount + CountSum(ss, order[1..])
  }

  function LiveSum(ss: seq<Strategy>, order: seq<string>): nat {
    if order == [] then 0 else FiguresOf(Members(ss, order[0])).liveCount + LiveSum(ss, order[1..])
  }

  lemma {:induction false} CountIsSum(ss: seq<Strategy>)
    ensures Sum(ss, s => 1.0) == |ss| as real
  {
    if ss != [] {
      CountIsSum(ss[..|ss| - 1]);
    }
  }

  lemma {:induction false} LiveIsSum(ss: seq<Strategy>)
    ensures Sum(ss, (s: Strategy) => if s.live then 1.0 else 0.0) == |Filter(ss, (s: Strategy) => s.live)| as real
  {
    if ss != [] {
      var before, s := ss[..|ss| - 1], ss[|ss| - 1];
      LiveIsSum(before);
      assert ss == before + [s];
      FilterAppend(before, [s], (x: Strategy) => x.live);
    }
  }

  lemma {:induction false} CountSumIsGroupedSum(ss: seq<Strategy>, order: seq<string>)
    ensures CountSum(ss, order) as real == GroupedSum(ss, order, s => 1.0)
    ensures LiveSum(ss, order) as real == GroupedSum(ss, order, (s: Strategy) => if s.live then 1.0 else 0.0)
  {
    if order != [] {
      CountSumIsGroupedSum(ss, order[1..]);
      CountIsSum(Members(ss, order[0]));
      LiveIsSum(Members(ss, order[0]));
      hide Members, Sum, Filter;
    }
  }

  /** The displayed counts of all groups add up to the number of strategies and of live ones. */
  lemma GroupCountsConserved(g: Groups, ss: seq<Strategy>)
    requires Partition(g, ss)
    ensures CountSum(ss, g.order) == |ss|
    ensures LiveSum(ss, g.order) == |Filter(ss, (s: Strategy) => s.live)|
  {
    CountSumIsGroupedSum(ss, g.order);
    GroupingConserves(g, ss, s => 1.0);
    GroupingConserves(g, ss, (s: Strategy) => if s.live then 1.0 else 0.0);
    CountIsSum(ss);
    LiveIsSum(ss);
    hide Partition;
  }

  lemma {:induction false} SumSame(ss: seq<Strategy>, f: Measure, g: Measure)
    requires forall s :: s in ss ==> f(s) == g(s)
    ensures Sum(ss, f) == Sum(ss, g)
  {
    if ss != [] {
      SumSame(ss[..|ss| - 1], f, g);
      assert ss[|ss| - 1] in ss;
    }
  }

  /** A figure summed over the groups. */
  function FigureSum(ss: seq<Strategy>, order: seq<string>, figure: Figures -> real): real {
    if order == [] then 0.0 else figure(FiguresOf(Members(ss, order[0]))) + FigureSum(ss, order[1..], figure)
  }

  lemma {:induction false} FigureSumIsGroupedSum(
      ss: seq<Strategy>, order: seq<string>, figure: Figures -> real, f: Measure)
    requires forall items :: figure(FiguresOf(items)) == Sum(items, f)
    ensures FigureSum(ss, order, figure) == GroupedSum(ss, order, f)
  {
    hide Members, Sum, FiguresOf;
    if order != [] {
      FigureSumIsGroupedSum(ss, order[1..], figure, f);
    }
  }

  lemma FigureConserved(g: Groups, ss: seq<Strategy>, figure: Figures -> real, f: Measure)
    requires Partition(g, ss) && forall items :: figure(FiguresOf(items)) == Sum(items, f)
    ensures FigureSum(ss, g.order, figure) == Sum(ss, f)
  {
    hide Partition, FiguresOf;
    FigureSumIsGroupedSum(ss, g.order, figure, f);
    GroupingConserves(g, ss, f);
  }

  /** No money or activity is lost between the strategies and the figures of their groups, and what a
      group earned is what it realized, or its estimate when it realized nothing. */
  lemma GroupMoneyConserved(g: Groups, ss: seq<Strategy>)
    requires Partition(g, ss)
    ensures FigureSum(ss, g.order, (f: Figures) => f.realizedYieldUsd)
         == Sum(ss, (s: Strategy) => s.realizedYieldUsd.GetOr(0.0))
    ensures FigureSum(ss, g.order, (f: Figures) => f.estimatedYieldUsd)
         == Sum(ss, (s: Strategy) => s.estimatedYieldUsd.GetOr(0.0))
    ensures FigureSum(ss, g.order, (f: Figures) => f.recentActivityCount)
         == Sum(ss, (s: Strategy) => s.recentActivityCount.GetOr(0.0))
    ensures FigureSum(ss, g.order, (f: Figures) => f.recentActivityUsd)
         == Sum(ss, (s: Strategy) => s.recentActivityUsd.GetOr(0.0))
    ensures forall items :: var f := FiguresOf(items);
      f.earnedUsd == if f.realizedYieldUsd > 0.0 then f.realizedYieldUsd else f.estimatedYieldUsd
  {
    hide Sum, Partition, FigureSum;
    FigureConserved(g, ss, (f: Figures) => f.realizedYieldUsd, Realized);
    FigureConserved(g, ss, (f: Figures) => f.estimatedYieldUsd, Estimated);
    FigureConserved(g, ss, (f: Figures) => f.recentActivityCount, ActivityCount);
    FigureConserved(g, ss, (f: Figures) => f.recentActivityUsd, ActivityUsd);
    SumSame(ss, Realized, (s: Strategy) => s.realizedYieldUsd.GetOr(0.0));
    SumSame(ss, Estimated, (s: Strategy) => s.estimatedYieldUsd.GetOr(0.0));
    SumSame(ss, ActivityCount, (s: Strategy) => s.recentActivityCount.GetOr(0.0));
    SumSame(ss, ActivityUsd, (s: Strategy) => s.recentActivityUsd.GetOr(0.0));
  }

  // ----- weighted rates -----

  function AprWeight(s: Strategy): real {
    if Positive(s.capUsd) then s.capUsd.value
    else if Positive(s.estimatedProtocolCapitalUsd) then s.estimatedProtocolCapitalUsd.value
    else if Positive(s.actualProtocolCapitalUsd) then s.actualProtocolCapitalUsd.value
    else 0.0
  }

  function ApyWeight(s: Strategy): real {
    if Positive(s.capUsd) then s.capUsd.value
    else if Positive(s.actualProtocolCapitalUsd) then s.actualProtocolCapitalUsd.value
    else 0.0
  }

  function Rate(s: Strategy): real {
    s.apyPct.GetOr(0.0)
  }

  function Weighted(weight: Measure): Measure {
    s => weight(s) * Rate(s)
  }

  function Average(rows: seq<Strategy>, weight: Measure): real
    requires Sum(rows, weight) > 0.0
  {
    Sum(rows, Weighted(weight)) / Sum(rows, weight)
  }

  function AprRows(ss: seq<Strategy>): seq<Strategy> {
    Filter(ss, (s: Strategy) => s.apyPct.Some?)
  }

  function WeightedRows(ss: seq<Strategy>): seq<Strategy> {
    Filter(AprRows(ss), (s: Strategy) => AprWeight(s) > 0.0)
  }

  function WeightedApr(ss: seq<Strategy>): Option<real> {
    var rows := AprRows(ss);
    if Sum(WeightedRows(ss), AprWeight) > 0.0 then Some(Average(WeightedRows(ss), AprWeight))
    else if rows != [] then Some(Sum(rows, Rate) / |rows| as real)
    else None
  }

  function LiveRows(ss: seq<Strategy>): seq<Strategy> {
    Filter(ss, (s: Strategy) => s.live && s.apyPct.Some? && ApyWeight(s) > 0.0)
  }

  function WeightedApy(ss: seq<Strategy>): Option<real> {
    if Sum(LiveRows(ss), ApyWeight) <= 0.0 then None else Some(Average(LiveRows(ss), ApyWeight))
  }

  /** Every finite rate of the list lies in [low, high]. */
  ghost predicate RatesWithin(ss: seq<Strategy>, low: real, high: real) {
    forall s :: s in ss && s.apyPct.Some? ==> low <= s.apyPct.value <= high
  }

  lemma ScaleBetween(w: real, low: real, r: real, high: real)
    requires w >= 0.0 && low <= r <= high
    ensures w * low <= w * r <= w * high
  {
  }

  /** A weighted sum `n` over the weight `total` averages between `low` and `high`. */
  ghost predicate Balanced(total: real, n: real, low: real, high: real) {
    total * low <= n <= total * high
  }

  lemma AddBalanced(total: real, n: real, w: real, r: real, x: real, low: real, high: real)
    requires Balanced(total, n, low, high) && w >= 0.0 && low <= r <= high && x == w * r
    ensures Balanced(total + w, n + x, low, high)
  {
    ScaleBetween(w, low, r, high);
    assert (total + w) * low == total * low + w * low;
    assert (total + w) * high == total * high + w * high;
  }

  lemma {:induction false} WeightedSumBetween(rows: seq<Strategy>, weight: Measure, low: real, high: real)
    requires forall s :: s in rows ==> weight(s) >= 0.0 && low <= Rate(s) <= high
    ensures Balanced(Sum(rows, weight), Sum(rows, Weighted(weight)), low, high)
  {
    hide Sum, Balanced, Rate;
    if rows == [] {
      EmptyBalanced(weight, low, high);
    } else {
      var before, s := rows[..|rows| - 1], rows[|rows| - 1];
      WeightedSumBetween(before, weight, low, high);
      assert rows == before + [s];
      SumAppend(before, s, weight);
      SumAppend(before, s, Weighted(weight));
      assert s in rows;
      AddBalanced(Sum(before, weight), Sum(before, Weighted(weight)), weight(s), Rate(s),
                  Weighted(weight)(s), low, high);
    }
  }

  lemma EmptyBalanced(weight: Measure, low: real, high: real)
    ensures Balanced(Sum([], weight), Sum([], Weighted(weight)), low, high)
  {
  }

  lemma QuotientBetween(n: real, d: real, low: real, high: real)
    requires d > 0.0 && d * low <= n <= d * high
    ensures low <= n / d <= high
  {
    var q := n / d;
    assert q * d == n;
    assert (q - low) * d >= 0.0;
    assert (high - q) * d >= 0.0;
  }

  lemma AverageBetween(rows: seq<Strategy>, weight: Measure, low: real, high: real)
    requires forall s :: s in rows ==> weight(s) >= 0.0 && low <= Rate(s) <= high
    requires Sum(rows, weight) > 0.0
    ensures low <= Average(rows, weight) <= high
  {
    WeightedSumBetween(rows, weight, low, high);
    hide Rate;
    QuotientBetween(Sum(rows, Weighted(weight)), Sum(rows, weight), low, high);
  }

  lemma {:induction false} SumPositive(rows: seq<Strategy>, weight: Measure)
    requires forall s :: s in rows ==> weight(s) > 0.0
    ensures rows != [] <==> Sum(rows, weight) > 0.0
    ensures Sum(rows, weight) >= 0.0
  {
    if rows != [] {
      SumPositive(rows[..|rows| - 1], weight);
      assert rows[|rows| - 1] in rows;
    }
  }

  /** A group shows a rate exactly when one of its members has one, and the rate shown lies between
      the least and the greatest of theirs. */
  lemma WeightedAprBetween(ss: seq<Strategy>, low: real, high: real)
    requires RatesWithin(ss, low, high)
    ensures WeightedApr(ss).Some? <==> exists s :: s in ss && s.apyPct.Some?
    ensures WeightedApr(ss).Some? ==> low <= WeightedApr(ss).value <= high
  {
    var rows, weighted := AprRows(ss), WeightedRows(ss);
    assert forall s :: s in ss && s.apyPct.Some? ==> s in rows;
    assert rows != [] ==> rows[0] in ss && rows[0].apyPct.Some?;
    SumPositive(weighted, AprWeight);
    if weighted != [] {
      assert weighted[0] in rows;
      AverageBetween(weighted, AprWeight, low, high);
    } else if rows != [] {
      CountIsSum(rows);
      AverageBetween(rows, s => 1.0, low, high);
      MeanIsAverage(rows);
    }
  }

  lemma MeanIsAverage(rows: seq<Strategy>)
    requires rows != [] && Sum(rows, s => 1.0) == |rows| as real
    ensures Average(rows, s => 1.0) == Sum(rows, Rate) / |rows| as real
  {
    var one := (s: Strategy) => 1.0;
    UnitWeights(rows, one);
  }

  lemma {:induction false} UnitWeights(rows: seq<Strategy>, one: Measure)
    requires forall s :: one(s) == 1.0
    ensures Sum(rows, Weighted(one)) == Sum(rows, Rate)
  {
    if rows != [] {
      UnitWeights(rows[..|rows| - 1], one);
    }
  }

  /** The live-only variant: the rate, when shown, lies between the rates of the live strategies that
      carry weight, and it is shown exactly when there is one. */
  lemma WeightedApyBetween(ss: seq<Strategy>, low: real, high: real)
    requires RatesWithin(LiveRows(ss), low, high)
    ensures WeightedApy(ss).Some? <==> exists s :: s in ss && s.live && s.apyPct.Some? && ApyWeight(s) > 0.0
    ensures WeightedApy(ss).Some? ==> low <= WeightedApy(ss).value <= high
  {
    var rows := LiveRows(ss);
    assert forall s :: s in ss && s.live && s.apyPct.Some? && ApyWeight(s) > 0.0 ==> s in rows;
    assert rows != [] ==> rows[0] in rows;
    SumPositive(rows, ApyWeight);
    if rows != [] {
      AverageBetween(rows, ApyWeight, low, high);
    }
  }

  // ----- the rate balances the weights -----

  /** The first amount that is above zero, or nothing. */
  function FirstPositive(amounts: seq<Option<real>>): real {
    if amounts == [] then 0.0
    else if amounts[0].Some? && amounts[0].value > 0.0 then amounts[0].value
    else FirstPositive(amounts[1..])
  }

  /** What weighs a rate of a group: its capital, estimated or actual if need be. */
  ghost function CapitalOf(s: Strategy): real {
    FirstPositive([s.capUsd, s.estimatedProtocolCapitalUsd, s.actualProtocolCapitalUsd])
  }

  lemma WeightsAreFirstPositive(s: Strategy)
    ensures AprWeight(s) == CapitalOf(s)
    ensures ApyWeight(s) == FirstPositive([s.capUsd, s.actualProtocolCapitalUsd])
    ensures AprWeight(s) >= 0.0 && ApyWeight(s) >= 0.0
  {
    var a, b, c := s.capUsd, s.estimatedProtocolCapitalUsd, s.actualProtocolCapitalUsd;
    assert [a, b, c][1..] == [b, c] && [b, c][1..] == [c] && [c][1..] == [] && [a, c][1..] == [c];
    assert FirstPositive([c]) == if Positive(c) then c.value else FirstPositive([]);
    assert FirstPositive([b, c]) == if Positive(b) then b.value else FirstPositive([c]);
  }

  /** What one member with some weight pulls away from `r`. */
  ghost function Pull(weight: real, rate: real, r: real): real {
    weight * (rate - r)
  }

  lemma PullOfNothing(rate: real, r: real)
    ensures Pull(0.0, rate, r) == 0.0 && Pull(1.0, rate, r) == rate - r
  {
  }

  /** How far the rated members pull away from the rate `r`, each with its capital. */
  ghost function AprPull(r: real): Measure {
    (s: Strategy) => if s.apyPct.None? then 0.0 else Pull(CapitalOf(s), s.apyPct.value, r)
  }

  /** ... each alike. */
  ghost function PlainPull(r: real): Measure {
    (s: Strategy) => if s.apyPct.None? then 0.0 else s.apyPct.value - r
  }

  /** ... and of the live ones, each with its capital. */
  ghost function ApyPull(r: real): Measure {
    (s: Strategy) =>
      if s.apyPct.None? || !s.live then 0.0
      else Pull(FirstPositive([s.capUsd, s.actualProtocolCapitalUsd]), s.apyPct.value, r)
  }

  ghost function PullOf(weight: Measure, keep: Strategy -> bool, r: real): Measure {
    (s: Strategy) => if keep(s) then Pull(weight(s), Rate(s), r) else 0.0
  }

  /** What a weighted sum `n` over the weight `w` exceeds `r` by. */
  ghost function Excess(n: real, w: real, r: real): real {
    n - r * w
  }

  lemma AddPull(n: real, w: real, weight: real, rate: real, r: real, x: real)
    requires x == weight * rate
    ensures Excess(n, w, r) + Pull(weight, rate, r) == Excess(n + x, w + weight, r)
  {
  }

  lemma AddMember(n: real, w: real, weight: Measure, s: Strategy, r: real)
    ensures Excess(n, w, r) + Pull(weight(s), Rate(s), r) == Excess(n + Weighted(weight)(s), w + weight(s), r)
  {
    AddPull(n, w, weight(s), Rate(s), r, Weighted(weight)(s));
  }

  lemma NoExcess(r: real)
    ensures Excess(0.0, 0.0, r) == 0.0
  {
  }

  lemma PullStep(before: seq<Strategy>, s: Strategy, weight: Measure, keep: Strategy -> bool, r: real)
    requires Sum(before, PullOf(weight, keep, r))
          == Excess(Sum(Filter(before, keep), Weighted(weight)), Sum(Filter(before, keep), weight), r)
    ensures Sum(before + [s], PullOf(weight, keep, r))
         == Excess(Sum(Filter(before + [s], keep), Weighted(weight)), Sum(Filter(before + [s], keep), weight), r)
  {
    hide Excess, Pull, Weighted, Rate, Sum;
    var kept, pull := Filter(before, keep), PullOf(weight, keep, r);
    FilterAppend(before, [s], keep);
    assert Filter([s], keep) == if keep(s) then [s] else [];
    assert kept + [] == kept;
    SumAppend(before, s, pull);
    assert pull(s) == if keep(s) then Pull(weight(s), Rate(s), r) else 0.0;
    SumAppend(kept, s, Weighted(weight));
    SumAppend(kept, s, weight);
    AddMember(Sum(kept, Weighted(weight)), Sum(kept, weight), weight, s, r);
  }

  lemma {:induction false} PullSum(ss: seq<Strategy>, weight: Measure, keep: Strategy -> bool, r: real)
    ensures Sum(ss, PullOf(weight, keep, r))
         == Excess(Sum(Filter(ss, keep), Weighted(weight)), Sum(Filter(ss, keep), weight), r)
  {
    if ss == [] {
      NoExcess(r);
    } else {
      var before, s := ss[..|ss| - 1], ss[|ss| - 1];
      assert ss == before + [s];
      hide Sum, Filter, Excess, PullOf, Weighted;
      PullSum(before, weight, keep, r);
      PullStep(before, s, weight, keep, r);
    }
  }

  /** Exactly the quotient leaves no pull. */
  lemma QuotientBalances(n: real, w: real, r: real)
    requires w > 0.0
    ensures Excess(n, w, r) == 0.0 <==> r == n / w
  {
    QuotientTimes(n, w);
    MulOrder(w, r, n / w);
    MulOrder(w, n / w, r);
  }

  /** Exactly the average leaves no pull. */
  lemma AverageBalances(ss: seq<Strategy>, weight: Measure, keep: Strategy -> bool, r: real)
    requires Sum(Filter(ss, keep), weight) > 0.0
    ensures Sum(ss, PullOf(weight, keep, r)) == 0.0 <==> r == Average(Filter(ss, keep), weight)
  {
    PullSum(ss, weight, keep, r);
    QuotientBalances(Sum(Filter(ss, keep), Weighted(weight)), Sum(Filter(ss, keep), weight), r);
    hide Sum, Filter, PullOf, Weighted, Excess;
  }

  /** Some rated member has capital. */
  ghost predicate HasWeight(ss: seq<Strategy>) {
    exists s :: s in ss && s.apyPct.Some? && CapitalOf(s) > 0.0
  }

  lemma PullsAgree(ss: seq<Strategy>, r: real)
    ensures Sum(ss, PullOf(AprWeight, (s: Strategy) => s.apyPct.Some? && AprWeight(s) > 0.0, r))
         == Sum(ss, AprPull(r))
    ensures Sum(ss, PullOf(s => 1.0, (s: Strategy) => s.apyPct.Some?, r)) == Sum(ss, PlainPull(r))
  {
    var both := (s: Strategy) => s.apyPct.Some? && AprWeight(s) > 0.0;
    forall s: Strategy
      ensures PullOf(AprWeight, both, r)(s) == AprPull(r)(s)
    {
      WeightsAreFirstPositive(s);
      PullOfNothing(Rate(s), r);
      hide CapitalOf, AprWeight, Pull;
    }
    SumSame(ss, PullOf(AprWeight, both, r), AprPull(r));
    var one, rated := (s: Strategy) => 1.0, (s: Strategy) => s.apyPct.Some?;
    forall s: Strategy
      ensures PullOf(one, rated, r)(s) == PlainPull(r)(s)
    {
      PullOfNothing(Rate(s), r);
      hide Pull;
    }
    SumSame(ss, PullOf(one, rated, r), PlainPull(r));
  }

  /** The rate of a group is the one rate at which its rated members balance: weighted with their
      capital when any of them has capital, and alike when none has. */
  lemma WeightedAprBalances(ss: seq<Strategy>, r: real)
    requires exists s :: s in ss && s.apyPct.Some?
    ensures HasWeight(ss) ==> (WeightedApr(ss) == Some(r) <==> Sum(ss, AprPull(r)) == 0.0)
    ensures !HasWeight(ss) ==> (WeightedApr(ss) == Some(r) <==> Sum(ss, PlainPull(r)) == 0.0)
  {
    var rated, one := (s: Strategy) => s.apyPct.Some?, (s: Strategy) => 1.0;
    var both := (s: Strategy) => s.apyPct.Some? && AprWeight(s) > 0.0;
    PullsAgree(ss, r);
    HasWeightExactly(ss);
    FilterTwice(ss, rated, (s: Strategy) => AprWeight(s) > 0.0, both);
    SumPositive(WeightedRows(ss), AprWeight);
    hide AprPull, PlainPull, PullOf, HasWeight, Sum, Average;
    if WeightedRows(ss) != [] {
      AverageBalances(ss, AprWeight, both, r);
    } else {
      assert exists s :: s in AprRows(ss);
      CountIsSum(AprRows(ss));
      MeanIsAverage(AprRows(ss));
      AverageBalances(ss, one, rated, r);
    }
  }

  lemma HasWeightExactly(ss: seq<Strategy>)
    ensures HasWeight(ss) <==> WeightedRows(ss) != []
  {
    forall s: Strategy {
      WeightsAreFirstPositive(s);
    }
    hide FirstPositive, AprWeight;
    if WeightedRows(ss) != [] {
      assert WeightedRows(ss)[0] in WeightedRows(ss);
    }
  }

  /** The live rate is the one rate at which the live members balance, weighted with their capital. */
  lemma WeightedApyBalances(ss: seq<Strategy>, r: real)
    requires WeightedApy(ss).Some?
    ensures WeightedApy(ss) == Some(r) <==> Sum(ss, ApyPull(r)) == 0.0
  {
    var keep := (s: Strategy) => s.live && s.apyPct.Some? && ApyWeight(s) > 0.0;
    AverageBalances(ss, ApyWeight, keep, r);
    forall s: Strategy
      ensures PullOf(ApyWeight, keep, r)(s) == ApyPull(r)(s)
    {
      WeightsAreFirstPositive(s);
      PullOfNothing(Rate(s), r);
      hide FirstPositive, ApyWeight, Pull;
    }
    SumSame(ss, PullOf(ApyWeight, keep, r), ApyPull(r));
  }
}
