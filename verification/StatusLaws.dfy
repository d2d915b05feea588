/** What the flags and dates of a snapshot mean, in terms of its fields (dashboard/public/data.jsx). */
module StatusLaws {
  import opened Prelude
  import opened Status
  import opened Gate

  /** The baseline block that counts, under `pnl` or else at the top level, is there, is active and is
      not marked as not applied. */
  ghost predicate ActiveByFields(status: Option<Snapshot>) {
    && status.Some?
    && var counted := First([status.value.pnlBaseline, status.value.reportingPnlBaseline]);
    && counted.Some? && counted.value.active == Some(true)
    && (counted.value.applied.None? || counted.value.applied.value)
  }

  /** The time of a snapshot that has a readable date, else 0. */
  ghost function TimeByFields(status: Option<Snapshot>): int {
    if status.Some? && status.value.generatedAt.At? then status.value.generatedAt.ms else 0
  }

  /** The date of a snapshot cannot be read. A missing one can: it counts as 0. */
  ghost predicate UndatedByFields(status: Option<Snapshot>) {
    exists s :: status == Some(s) && s.generatedAt == Unparseable
  }

  /** The summary has a current total and a confidence, and wallet holdings and flow are there. */
  ghost predicate CompleteByFields(status: Option<Snapshot>) {
    exists s, c: CapitalSummary :: status == Some(s) && s.capitalSummary == Some(c)
      && c.currentTotalUsd != None && |c.assetConfidence| > 0 && s.walletHoldings != None && s.hasFlow
  }

  lemma ActiveMeans(status: Option<Snapshot>)
    ensures HasActiveBaseline(status) <==> ActiveByFields(status)
  {
    if status.Some? {
      FirstOfTwo(status.value.pnlBaseline, status.value.reportingPnlBaseline);
      hide First;
      var counted := First([status.value.pnlBaseline, status.value.reportingPnlBaseline]);
      assert counted.Some? && counted.value.applied.Some? ==>
        (counted.value.applied == Some(false) <==> !counted.value.applied.value);
    }
  }

  lemma TimeMeans(status: Option<Snapshot>)
    ensures GeneratedAtMs(status).None? <==> UndatedByFields(status)
    ensures GeneratedAtMs(status).GetOr(0) == TimeByFields(status)
  {
  }

  /** The gate turns a payload away, which leaves the held snapshot, exactly when a push would lose the
      active baseline, or when both carry the same flag, both dates can be read, and the new one is
      earlier. */
  lemma KeepsByFields(current: Option<Snapshot>, incoming: Option<Snapshot>, pushed: bool)
    ensures Keeps(current, incoming, pushed) <==>
      && current != None
      && (|| (pushed && ActiveByFields(current) && !ActiveByFields(incoming))
          || (&& (ActiveByFields(current) <==> ActiveByFields(incoming))
              && !UndatedByFields(current) && !UndatedByFields(incoming)
              && TimeByFields(incoming) < TimeByFields(current)))
  {
    ActiveMeans(current);
    ActiveMeans(incoming);
    TimeMeans(current);
    TimeMeans(incoming);
    hide HasActiveBaseline, ActiveByFields, UndatedByFields, TimeByFields, GeneratedAtMs;
  }

  lemma CompleteMeans(status: Option<Snapshot>)
    ensures status.Some? && HasDashboardCapital(status.value) <==> CompleteByFields(status)
  {
    if status.Some? && status.value.capitalSummary.Some? {
      var s, c := status.value, status.value.capitalSummary.value;
      assert status == Some(s) && s.capitalSummary == Some(c);
    }
  }
}
