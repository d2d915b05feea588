/** The status snapshots the dashboard receives, and the holdings it derives from one
    (dashboard/public/data.jsx). Only the fields the modelled code reads. */
module Status {
  import opened Prelude

  /** `new Date(text).getTime()` for a field that may be missing. */
  datatype Stamp = Missing | Unparseable | At(ms: nat)

  /** The reporting baseline block; a missing flag is `None`. */
  datatype Baseline = Baseline(active: Option<bool>, applied: Option<bool>)

  datatype WalletItem = WalletItem(chain: string, usd: Option<real>)

  datatype Position = Position(chain: string, protocol: string, usd: Option<real>, unverifiedEntryUsd: Option<real>)

  datatype CapitalSummary = CapitalSummary(
    walletItems: Option<seq<WalletItem>>,
    positionItems: Option<seq<Position>>,
    assetConfidence: string,
    totalUsd: Option<real>,
    walletUsd: Option<real>,
    deployedUsd: Option<real>,
    displayWalletUsd: Option<real>,
    displayTotalUsd: Option<real>,
    currentWalletUsd: Option<real>,
    protocolDeployedUsd: Option<real>,
    currentTotalUsd: Option<real>,
    estimatedUntrackedProtocolUsd: Option<real>,
    estimatedProtocolDeployedUsd: Option<real>,
    estimatedCurrentTotalUsd: Option<real>)

  datatype WalletHoldings = WalletHoldings(items: Option<seq<WalletItem>>, totalUsd: Option<real>, pending: bool)

  datatype Snapshot = Snapshot(
    generatedAt: Stamp,
    pnlBaseline: Option<Baseline>,
    reportingPnlBaseline: Option<Baseline>,
    capitalSummary: Option<CapitalSummary>,
    walletHoldings: Option<WalletHoldings>,
    hasFlow: bool)

  /** `statusGeneratedAtMs`: a missing status or date counts as 0, an unparseable date as nothing. */
  function GeneratedAtMs(status: Option<Snapshot>): Option<nat> {
    match status
    case None => Some(0)
    case Some(s) =>
      match s.generatedAt
      case Missing => Some(0)
      case Unparseable => None
      case At(ms) => Some(ms)
  }

  function ReportingBaseline(s: Snapshot): Option<Baseline> {
    if s.pnlBaseline.Some? then s.pnlBaseline else s.reportingPnlBaseline
  }

  predicate HasActiveBaseline(status: Option<Snapshot>) {
    && status.Some?
    && var baseline := ReportingBaseline(status.value);
    && baseline.Some?
    && baseline.value.active == Some(true)
    && baseline.value.applied != Some(false)
  }

  predicate HasDashboardCapital(s: Snapshot) {
    && s.capitalSummary.Some?
    && s.capitalSummary.value.currentTotalUsd.Some?
    && s.capitalSummary.value.assetConfidence != ""
    && s.walletHoldings.Some?
    && s.hasFlow
  }

  /** Where a payload came from. `OtherSource` stands for every name without a rank. */
  datatype Source =
    | RemoteLiveSse | LiveSse | RemoteLiveApi | LiveApi | StaticSnapshot | Unavailable | Pending | OtherSource

  function SourceRank(source: Source): nat {
    match source
    case RemoteLiveSse => 5
    case LiveSse => 4
    case RemoteLiveApi => 3
    case LiveApi => 2
    case StaticSnapshot => 1
    case _ => 0
  }

  datatype Payload = Payload(status: Option<Snapshot>, source: Source, live: bool)
}
