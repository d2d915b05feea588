/** The totals the dashboard shows: from a snapshot to holdings (dashboard/public/data.jsx, `bootData`)
    and from holdings to the headline figure (dashboard/public/app.jsx, `summarizeDashboardAssets`). */
module Assets {
  import opened Prelude
  import opened Status

  datatype Holdings = Holdings(
    all: seq<WalletItem>,
    positions: seq<Position>,
    totalUsd: Option<real>,
    walletUsd: Option<real>,
    deployedUsd: Option<real>,
    displayWalletUsd: Option<real>,
    currentWalletUsd: Option<real>,
    protocolDeployedUsd: Option<real>,
    currentTotalUsd: Option<real>,
    estimatedProtocolDeployedUsd: Option<real>,
    estimatedCurrentTotalUsd: Option<real>,
    pending: bool)

  /** `first` when it is finite, else `second`. */
  function Else(first: Option<real>, second: Option<real>): Option<real> {
    if first.Some? then first else second
  }

  /** `Math.round(x * 100) / 100`. */
  function RoundCents(x: real): real {
    (x * 100.0 + 0.5).Floor as real / 100.0
  }

  lemma RoundCentsNear(x: real)
    ensures Abs(RoundCents(x) - x) <= 0.005
  {
    var n := (x * 100.0 + 0.5).Floor as real;
    assert n <= x * 100.0 + 0.5 < n + 1.0;
  }

  function DisplayWallet(c: CapitalSummary): Option<real> {
    Else(c.walletUsd, c.displayWalletUsd)
  }

  function DisplayTotal(c: CapitalSummary): Option<real> {
    if DisplayWallet(c).Some? && c.deployedUsd.Some? then Some(DisplayWallet(c).value + c.deployedUsd.value)
    else c.displayTotalUsd
  }

  function CurrentWallet(c: CapitalSummary): Option<real> {
    Else(c.currentWalletUsd, DisplayWallet(c))
  }

  function ProtocolDeployed(c: CapitalSummary): Option<real> {
    Else(c.protocolDeployedUsd, c.deployedUsd)
  }

  function CurrentTotal(c: CapitalSummary): Option<real> {
    if c.currentTotalUsd.Some? then c.currentTotalUsd
    else if CurrentWallet(c).Some? && ProtocolDeployed(c).Some? then
      Some(CurrentWallet(c).value + ProtocolDeployed(c).value)
    else DisplayTotal(c)
  }

  function EstimatedDeployed(c: CapitalSummary): Option<real> {
    if c.estimatedProtocolDeployedUsd.Some? then c.estimatedProtocolDeployedUsd
    else if ProtocolDeployed(c).Some? && c.estimatedUntrackedProtocolUsd.Some? then
      Some(RoundCents(ProtocolDeployed(c).value + c.estimatedUntrackedProtocolUsd.value))
    else ProtocolDeployed(c)
  }

  function EstimatedTotal(c: CapitalSummary): Option<real> {
    if c.estimatedCurrentTotalUsd.Some? then c.estimatedCurrentTotalUsd
    else if CurrentWallet(c).Some? && EstimatedDeployed(c).Some? then
      Some(RoundCents(CurrentWallet(c).value + EstimatedDeployed(c).value))
    else CurrentTotal(c)
  }

  /** The three ways `bootData` builds the holdings: capital summary, wallet only, nothing known. */
  function HoldingsOf(status: Option<Snapshot>): Holdings {
    if status.Some? && status.value.capitalSummary.Some? && status.value.capitalSummary.value.walletItems.Some? then
      var c := status.value.capitalSummary.value;
      Holdings(c.walletItems.value, c.positionItems.GetOr([]), c.totalUsd, c.walletUsd, c.deployedUsd,
               DisplayWallet(c), CurrentWallet(c), ProtocolDeployed(c), CurrentTotal(c),
               EstimatedDeployed(c), EstimatedTotal(c), false)
    else if status.Some? && status.value.walletHoldings.Some? && status.value.walletHoldings.value.items.Some? then
      var w := status.value.walletHoldings.value;
      Holdings(w.items.value, [], w.totalUsd, w.totalUsd, Some(0.0), w.totalUsd, w.totalUsd, Some(0.0), w.totalUsd,
               Some(0.0), w.totalUsd, w.pending || w.items.value == [])
    else
      Holdings([], [], None, None, None, None, None, None, None, None, None, true)
  }

  /** The part of the headline summary that the totals depend on. */
  datatype Summary = Summary(currentWallet: real, deployed: real, current: real, estimated: real, shown: real)

  function Summarize(h: Holdings): Summary {
    var currentWallet := Else(h.currentWalletUsd, h.displayWalletUsd).GetOr(h.walletUsd.GetOr(0.0));
    var deployed := h.protocolDeployedUsd.GetOr(h.deployedUsd.GetOr(0.0));
    var current := h.currentTotalUsd.GetOr(currentWallet + deployed);
    var estimated := h.estimatedCurrentTotalUsd.GetOr(current);
    Summary(currentWallet, deployed, current, estimated, if estimated > current + 1.0 then estimated else current)
  }

  /** The figure shown never drops below the current total and lags the larger of the two totals by
      at most 1; it is one of the two. */
  lemma ShownTotal(h: Holdings)
    ensures var s := Summarize(h);
      && s.current <= s.shown <= Max(s.current, s.estimated) <= s.shown + 1.0
      && (s.shown == s.current || s.shown == s.estimated)
  {
  }

  /** No estimate comes with the summary, so both are derived. */
  predicate EstimatesDerived(c: CapitalSummary) {
    && c.estimatedProtocolDeployedUsd.None?
    && c.estimatedCurrentTotalUsd.None?
    && CurrentWallet(c).Some?
    && ProtocolDeployed(c).Some?
  }

  function ExactTotal(c: CapitalSummary): real
    requires EstimatesDerived(c)
  {
    CurrentWallet(c).value + ProtocolDeployed(c).value + c.estimatedUntrackedProtocolUsd.GetOr(0.0)
  }

  /** Two cent roundings keep the derived estimate within a cent of the exact sum. */
  lemma DerivedEstimateNear(c: CapitalSummary)
    requires EstimatesDerived(c)
    ensures EstimatedTotal(c).Some? && Abs(EstimatedTotal(c).value - ExactTotal(c)) <= 0.01
  {
    RoundCentsNear(ProtocolDeployed(c).value + c.estimatedUntrackedProtocolUsd.GetOr(0.0));
    RoundCentsNear(CurrentWallet(c).value + EstimatedDeployed(c).value);
    hide RoundCents;
  }

  /** From the snapshot to the screen, with derived estimates and totals: the figure shown is within
      1.01 of wallet plus deployed plus untracked exactly when no more than that is owed. */
  lemma ShownTotalNearExact(s: Snapshot)
    requires s.capitalSummary.Some? && s.capitalSummary.value.walletItems.Some?
    requires EstimatesDerived(s.capitalSummary.value) && s.capitalSummary.value.currentTotalUsd.None?
    ensures Abs(Summarize(HoldingsOf(Some(s))).shown - ExactTotal(s.capitalSummary.value)) <= 1.01
       <==> s.capitalSummary.value.estimatedUntrackedProtocolUsd.GetOr(0.0) >= -1.01
  {
    DerivedEstimateNear(s.capitalSummary.value);
    hide RoundCents;
    ShownTotal(HoldingsOf(Some(s)));
  }
}
