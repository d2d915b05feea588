/** What a commit puts on the page, in terms of the payload's fields (dashboard/public/data.jsx,
    `bootData`). */
module Commits {
  import opened Prelude
  import opened Status
  import opened Assets
  import opened Capital
  import opened Session

  /** The sum of two figures when both are known. */
  ghost function Plus(a: Option<real>, b: Option<real>): Option<real> {
    if a.Some? && b.Some? then Some(a.value + b.value) else None
  }

  ghost function Cents(n: int): real {
    n as real / 100.0
  }

  /** `r` is the whole number of cents nearest to `x`, the upper one of two. */
  ghost predicate InCents(r: Option<real>, x: real) {
    exists n: int :: r == Some(Cents(n)) && n as real <= 100.0 * x + 0.5 < n as real + 1.0
  }

  /** The holdings of a capital summary that lists its wallet items. */
  ghost predicate ShowsSummary(h: Holdings, c: CapitalSummary) {
    && c.walletItems == Some(h.all) && h.positions == c.positionItems.GetOr([]) && !h.pending
    && h.totalUsd == c.totalUsd && h.walletUsd == c.walletUsd && h.deployedUsd == c.deployedUsd
    && h.displayWalletUsd == First([c.walletUsd, c.displayWalletUsd])
    && h.currentWalletUsd == First([c.currentWalletUsd, c.walletUsd, c.displayWalletUsd])
    && h.protocolDeployedUsd == First([c.protocolDeployedUsd, c.deployedUsd])
    && h.currentTotalUsd == First([c.currentTotalUsd, Plus(h.currentWalletUsd, h.protocolDeployedUsd),
                                   Plus(h.displayWalletUsd, c.deployedUsd), c.displayTotalUsd])
    && ShowsEstimates(h, c)
  }

  /** An estimate is the one supplied, else a sum in whole cents, else the figure it would estimate. */
  ghost predicate ShowsEstimates(h: Holdings, c: CapitalSummary) {
    && ShowsEstimate(h.estimatedProtocolDeployedUsd, c.estimatedProtocolDeployedUsd,
                     Plus(h.protocolDeployedUsd, c.estimatedUntrackedProtocolUsd), h.protocolDeployedUsd)
    && ShowsEstimate(h.estimatedCurrentTotalUsd, c.estimatedCurrentTotalUsd,
                     Plus(h.currentWalletUsd, h.estimatedProtocolDeployedUsd), h.currentTotalUsd)
  }

  ghost predicate ShowsEstimate(
      shown: Option<real>, supplied: Option<real>, sum: Option<real>, otherwise: Option<real>)
  {
    && (supplied != None ==> shown == supplied)
    && (supplied == None && sum.Some? ==> InCents(shown, sum.value))
    && (supplied == None && sum == None ==> shown == otherwise)
  }

  ghost predicate AllAre(value: Option<real>, figures: seq<Option<real>>) {
    forall i :: 0 <= i < |figures| ==> figures[i] == value
  }

  /** The holdings of a wallet list alone: nothing is deployed, and the wallet is the total. */
  ghost predicate ShowsWallet(h: Holdings, w: WalletHoldings) {
    && w.items == Some(h.all) && h.positions == []
    && AllAre(w.totalUsd, [h.totalUsd, h.walletUsd, h.displayWalletUsd, h.currentWalletUsd, h.currentTotalUsd,
                           h.estimatedCurrentTotalUsd])
    && AllAre(Some(0.0), [h.deployedUsd, h.protocolDeployedUsd, h.estimatedProtocolDeployedUsd])
    && (h.pending <==> w.pending || h.all == [])
  }

  ghost predicate ShowsNothing(h: Holdings) {
    && h.all == [] && h.positions == [] && h.pending
    && AllAre(None, [h.totalUsd, h.walletUsd, h.deployedUsd, h.displayWalletUsd, h.currentWalletUsd,
                     h.protocolDeployedUsd, h.currentTotalUsd, h.estimatedProtocolDeployedUsd,
                     h.estimatedCurrentTotalUsd])
  }

  /** The summary counts when it lists its wallet items; else the wallet holdings do when they are
      listed; else nothing is known. */
  ghost predicate ShowsHoldings(h: Holdings, status: Option<Snapshot>) {
    && (status.Some? && ListsSummary(status.value) ==> ShowsSummary(h, status.value.capitalSummary.value))
    && (status.Some? && !ListsSummary(status.value) && ListsWallet(status.value) ==>
          ShowsWallet(h, status.value.walletHoldings.value))
    && (status.None? || (!ListsSummary(status.value) && !ListsWallet(status.value)) ==> ShowsNothing(h))
  }

  ghost predicate ListsSummary(s: Snapshot) {
    s.capitalSummary.Some? && s.capitalSummary.value.walletItems.Some?
  }

  ghost predicate ListsWallet(s: Snapshot) {
    s.walletHoldings.Some? && s.walletHoldings.value.items.Some?
  }

  /** The page shows the payload: its snapshot, the holdings read off it, the money per chain and
      protocol of exactly those holdings, where it came from, and whether it is live. */
  ghost predicate Shows(d: Globals, p: Payload) {
    && d.rawStatus == p.status
    && ShowsHoldings(d.holdings, p.status)
    && Describes(d.capital, d.holdings.all, d.holdings.positions)
    && d.liveStatus.source == p.source
    && (d.liveStatus.remote <==> p.source in [RemoteLiveApi, RemoteLiveSse])
    && (d.liveAvailable <==> p.live && p.status != None) && d.liveStatus.live == d.liveAvailable
    && d.preferredPollMs == Some(if d.liveAvailable then 1500 else 3000)
  }

  lemma RoundCentsMeans(x: real)
    ensures InCents(Some(RoundCents(x)), x)
  {
    var n := (x * 100.0 + 0.5).Floor;
    assert Some(RoundCents(x)) == Some(Cents(n)) && n as real <= 100.0 * x + 0.5 < n as real + 1.0;
  }

  lemma SummaryShows(s: Snapshot)
    requires ListsSummary(s)
    ensures ShowsSummary(HoldingsOf(Some(s)), s.capitalSummary.value)
  {
    var c := s.capitalSummary.value;
    FirstOfTwo(c.walletUsd, c.displayWalletUsd);
    FirstOfThree(c.currentWalletUsd, c.walletUsd, c.displayWalletUsd);
    FirstOfTwo(c.protocolDeployedUsd, c.deployedUsd);
    var total, display := Plus(CurrentWallet(c), ProtocolDeployed(c)), Plus(DisplayWallet(c), c.deployedUsd);
    FirstOfFour(c.currentTotalUsd, total, display, c.displayTotalUsd);
    FirstOfThree(total, display, c.displayTotalUsd);
    FirstOfTwo(display, c.displayTotalUsd);
    EstimatesShow(c);
  }

  lemma EstimatesShow(c: CapitalSummary)
    ensures ShowsEstimate(EstimatedDeployed(c), c.estimatedProtocolDeployedUsd,
                          Plus(ProtocolDeployed(c), c.estimatedUntrackedProtocolUsd), ProtocolDeployed(c))
    ensures ShowsEstimate(EstimatedTotal(c), c.estimatedCurrentTotalUsd,
                          Plus(CurrentWallet(c), EstimatedDeployed(c)), CurrentTotal(c))
  {
    hide InCents, RoundCents, CurrentTotal, CurrentWallet, ProtocolDeployed;
    RoundCentsMeans(Plus(ProtocolDeployed(c), c.estimatedUntrackedProtocolUsd).GetOr(0.0));
    RoundCentsMeans(Plus(CurrentWallet(c), EstimatedDeployed(c)).GetOr(0.0));
  }

  lemma HoldingsShow(status: Option<Snapshot>)
    ensures ShowsHoldings(HoldingsOf(status), status)
  {
    hide First, ShowsSummary;
    if status.Some? && ListsSummary(status.value) {
      SummaryShows(status.value);
    }
  }

  /** Whatever payload is committed, the page shows it. */
  lemma CommitShows(p: Payload)
    ensures Shows(DataFrom(p), p)
  {
    hide ShowsHoldings, HoldingsOf, Describes;
    HoldingsShow(p.status);
    MapsDescribe(HoldingsOf(p.status).all, HoldingsOf(p.status).positions);
  }

  /** The headline of any holdings: the current total, or wallet plus deployed when there is none, unless
      the estimate is ahead of it by more than 1. */
  lemma HeadlineByFields(h: Holdings)
    ensures var wallet := First([h.currentWalletUsd, h.displayWalletUsd, h.walletUsd]).GetOr(0.0);
      var deployed := First([h.protocolDeployedUsd, h.deployedUsd]).GetOr(0.0);
      var current := h.currentTotalUsd.GetOr(wallet + deployed);
      Summarize(h).shown == match h.estimatedCurrentTotalUsd
        case Some(estimate) => if estimate - current > 1.0 then estimate else current
        case None => current
  {
    FirstOfThree(h.currentWalletUsd, h.displayWalletUsd, h.walletUsd);
    FirstOfTwo(h.displayWalletUsd, h.walletUsd);
    FirstOfTwo(h.protocolDeployedUsd, h.deployedUsd);
  }

  /** With a supplied total the figure shown is that total, unless the estimate, supplied or in whole
      cents, is ahead of it by more than 1; then it is the estimate. */
  lemma SuppliedHeadline(s: Snapshot, total: real)
    requires ListsSummary(s) && s.capitalSummary.value.currentTotalUsd == Some(total)
    ensures var h := HoldingsOf(Some(s));
      && ShowsSummary(h, s.capitalSummary.value) && h.estimatedCurrentTotalUsd.Some?
      && var estimate := h.estimatedCurrentTotalUsd.value;
      && (Summarize(h).shown == total <==> estimate == total || estimate <= total + 1.0)
      && (estimate > total + 1.0 ==> Summarize(h).shown == estimate)
  {
    SummaryShows(s);
    hide First, InCents;
    HeadlineByFields(HoldingsOf(Some(s)));
  }
}
