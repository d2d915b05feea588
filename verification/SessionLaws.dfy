/** What holds over every run of the live-status protocol. */
module SessionLaws {
  import opened Prelude
  import opened Status
  import opened Gate
  import opened Session
  import opened Commits

  // ----- runs -----

  ghost predicate Runs(s: State, events: seq<Event>)
    decreases events
  {
    events == [] || (Enabled(s, events[0]) && Runs(Next(s, events[0]), events[1..]))
  }

  ghost function Final(s: State, events: seq<Event>): State
    requires Runs(s, events)
    decreases events
  {
    if events == [] then s else Final(Next(s, events[0]), events[1..])
  }

  lemma {:induction false} RunInv(s: State, events: seq<Event>)
    requires Inv(s) && Runs(s, events)
    ensures Inv(Final(s, events))
    decreases events
  {
    hide Inv, Next, Enabled;
    if events != [] {
      NextInv(s, events[0]);
      RunInv(Next(s, events[0]), events[1..]);
    }
  }

  lemma AtMostOne(t: State)
    requires SingleFlight(t) && OneTimer(t) && OneStream(t)
    ensures |t.tasks| <= 1 && |t.timers| <= 1 && |t.sources| <= 1
  {
    assert |t.tasks| == |t.tasks.Keys|;
    if t.stream.Some? {
      assert t.sources.Keys <= {t.stream.value};
      SubsetSize(t.sources.Keys, {t.stream.value});
    } else {
      assert t.sources.Keys == {};
    }
  }

  lemma SubsetSize(a: set<nat>, b: set<nat>)
    requires a <= b
    ensures |a| <= |b|
  {
    assert b == a + (b - a);
  }

  // ----- what a step may write -----

  /** A payload put before the gate, as a push (`preserve`) or not. */
  datatype Offer = NoOffer | Offer(payload: Payload, preserve: bool, maps: bool)

  /** A push that meets a refresh in flight is dropped. */
  ghost function OfferOf(s: State, e: Event): Offer
    requires Enabled(s, e)
  {
    match e
    case BootLoaded(p, maps) => Offer(p, false, maps)
    case FetchDone(_, p, maps) => Offer(p, false, maps)
    case StreamSnapshot(id, status, maps) =>
      if s.inFlight.Some? then NoOffer else Offer(PushedPayload(s.sources[id], status), true, maps)
    case _ => NoOffer
  }

  /** A step writes the data globals only when the gate, asked about the snapshot held right now,
      accepts the payload it offers; then it writes exactly what that payload determines. Although
      a poll consults the snapshot it read before its fetch, the answer is the same. */
  lemma StepWrites(s: State, e: Event)
    requires Inv(s) && Enabled(s, e)
    ensures Next(s, e).data ==
      match OfferOf(s, e)
      case NoOffer => s.data
      case Offer(p, preserve, maps) =>
        if maps && !Keeps(s.data.rawStatus, p.status, preserve) then DataFrom(p) else s.data
  {
    hide DataFrom, Keeps;
  }

  /** The payload a step commits, if any. */
  ghost function Commit(s: State, e: Event): Option<Payload>
    requires Enabled(s, e)
  {
    match OfferOf(s, e)
    case NoOffer => None
    case Offer(p, preserve, maps) => if maps && !Keeps(s.data.rawStatus, p.status, preserve) then Some(p) else None
  }

  /** What it commits is what the page then shows; otherwise nothing on the page changes. */
  lemma StepShows(s: State, e: Event)
    requires Inv(s) && Enabled(s, e)
    ensures match Commit(s, e)
      case None => Next(s, e).data == s.data
      case Some(p) => Shows(Next(s, e).data, p)
  {
    StepWrites(s, e);
    if Commit(s, e).Some? {
      CommitShows(Commit(s, e).value);
    }
    hide Inv, Next, Enabled, DataFrom, Keeps, Shows;
  }

  /** The payload committed last in a run, if any. */
  ghost function LastCommit(s: State, events: seq<Event>): Option<Payload>
    requires Runs(s, events)
    decreases events
  {
    if events == [] then None
    else
      var later := LastCommit(Next(s, events[0]), events[1..]);
      if later.Some? then later else Commit(s, events[0])
  }

  /** At the end of any run the data globals are those of the payload committed last: the page shows
      that payload's money and no other. */
  lemma {:induction false} DataIsLastCommit(s: State, events: seq<Event>)
    requires Inv(s) && Runs(s, events)
    ensures Final(s, events).data ==
      match LastCommit(s, events)
      case None => s.data
      case Some(p) => DataFrom(p)
    ensures LastCommit(s, events).Some? ==> Shows(Final(s, events).data, LastCommit(s, events).value)
    decreases events
  {
    hide Shows;
    if LastCommit(s, events).Some? {
      CommitShows(LastCommit(s, events).value);
    }
    if events != [] {
      StepWrites(s, events[0]);
      NextInv(s, events[0]);
      hide Inv, Next, Enabled, DataFrom, Keeps, OfferOf;
      DataIsLastCommit(Next(s, events[0]), events[1..]);
    }
  }

  /** Only a commit boots the page. */
  lemma BootCommits(s: State, e: Event)
    requires Inv(s) && Enabled(s, e) && !Booted(s) && Booted(Next(s, e))
    ensures Commit(s, e).Some?
  {
    hide DataFrom, HasActiveBaseline, GeneratedAtMs;
  }

  lemma {:induction false} BootedHasCommitted(s: State, events: seq<Event>)
    requires Inv(s) && Runs(s, events) && !Booted(s) && Booted(Final(s, events))
    ensures LastCommit(s, events).Some?
    decreases events
  {
    if events != [] {
      if Booted(Next(s, events[0])) { BootCommits(s, events[0]); }
      NextInv(s, events[0]);
      hide Inv, Next, Enabled, Booted, Commit;
      if !Booted(Next(s, events[0])) { BootedHasCommitted(Next(s, events[0]), events[1..]); }
    }
  }

  /** What the page may rely on at any moment: at most one refresh is in flight and it is the one
      marked; what a waiting poll captured is still current; at most one interval runs and one
      event source is open, each the one `window` refers to. */
  ghost predicate Safe(t: State) {
    && SingleFlight(t) && |t.tasks| <= 1
    && CaptureCurrent(t)
    && OneTimer(t) && |t.timers| <= 1
    && OneStream(t) && |t.sources| <= 1
  }

  lemma InvIsSafe(t: State)
    requires Inv(t)
    ensures Safe(t)
  {
    AtMostOne(t);
    hide DataFrom;
  }

  /** In every interleaving from page load the page is safe, and once it is booted a payload was
      committed and the page shows the one committed last. */
  lemma AlwaysSafe(s: State, events: seq<Event>)
    requires Initial(s) && Runs(s, events)
    ensures Safe(Final(s, events))
    ensures Booted(Final(s, events)) ==>
      && LastCommit(s, events).Some?
      && Final(s, events).data == DataFrom(LastCommit(s, events).value)
      && Shows(Final(s, events).data, LastCommit(s, events).value)
  {
    InitialInv(s);
    RunInv(s, events);
    hide Inv, Final, Next, DataFrom, Shows;
    InvIsSafe(Final(s, events));
    DataIsLastCommit(s, events);
    if Booted(Final(s, events)) {
      BootedHasCommitted(s, events);
    }
  }

  // ----- when the rank falls -----

  ghost function RankOf(s: State): Standing {
    StandingOf(s.data.rawStatus)
  }

  /** A poll is accepted that takes the baseline from active to inactive. */
  ghost predicate LosesBaseline(s: State, e: Event) {
    e.FetchDone? && e.maps && HasActiveBaseline(s.data.rawStatus) && !HasActiveBaseline(e.payload.status)
  }

  /** A payload is offered that slips through on its date. */
  ghost predicate CommitsUndated(s: State, e: Event)
    requires Enabled(s, e)
  {
    var offer := OfferOf(s, e);
    offer.Offer? && offer.maps && SlipsThrough(s.data.rawStatus, offer.payload.status)
  }

  /** The rank of the snapshot held falls at a step exactly when a poll loses the baseline or an
      undated payload slips through. */
  lemma StepFalls(s: State, e: Event)
    requires Inv(s) && Enabled(s, e)
    ensures !RankOf(Next(s, e)).AtLeast(RankOf(s)) <==> LosesBaseline(s, e) || CommitsUndated(s, e)
  {
    StepWrites(s, e);
    BootstrapHoldsNothing(s, e);
    if OfferOf(s, e).Offer? {
      PushGateIsRank(s.data.rawStatus, OfferOf(s, e).payload.status);
      PollGateDrops(s.data.rawStatus, OfferOf(s, e).payload.status);
    }
    hide Keeps, Inv, Next, HasActiveBaseline, GeneratedAtMs, SlipsThrough;
  }

  lemma BootstrapHoldsNothing(s: State, e: Event)
    requires Inv(s) && Enabled(s, e)
    ensures e.BootLoaded? ==> !HasActiveBaseline(s.data.rawStatus)
  {
    hide DataFrom;
  }

  ghost predicate FallsSomewhere(s: State, events: seq<Event>)
    requires Runs(s, events)
    decreases events
  {
    events != [] && (!RankOf(Next(s, events[0])).AtLeast(RankOf(s)) || FallsSomewhere(Next(s, events[0]), events[1..]))
  }

  ghost predicate DropsSomewhere(s: State, events: seq<Event>)
    requires Runs(s, events)
    decreases events
  {
    && events != []
    && (|| LosesBaseline(s, events[0]) || CommitsUndated(s, events[0])
        || DropsSomewhere(Next(s, events[0]), events[1..]))
  }

  /** The snapshots a step offers and is able to map: at most one. */
  ghost function OfferedBy(s: State, e: Event): seq<Option<Snapshot>>
    requires Enabled(s, e)
  {
    var offer := OfferOf(s, e);
    if offer.Offer? && offer.maps then [offer.payload.status] else []
  }

  /** All snapshots a run offers and is able to map, in order. */
  ghost function Offered(s: State, events: seq<Event>): seq<Option<Snapshot>>
    requires Runs(s, events)
    decreases events
  {
    if events == [] then [] else OfferedBy(s, events[0]) + Offered(Next(s, events[0]), events[1..])
  }

  /** A step that does not drop the rank raises it to that of what it offers. */
  lemma StepClimbs(s: State, e: Event)
    requires Inv(s) && Enabled(s, e) && !LosesBaseline(s, e) && !CommitsUndated(s, e)
    ensures RankOf(Next(s, e)) == TopOf(s.data.rawStatus, OfferedBy(s, e))
  {
    StepWrites(s, e);
    StepFalls(s, e);
    if OfferOf(s, e).Offer? {
      KeptRanksAsHigh(s.data.rawStatus, OfferOf(s, e).payload.status, OfferOf(s, e).preserve);
    }
    TopOfFew(s.data.rawStatus, OfferedBy(s, e));
    hide Keeps, Inv, Next, HasActiveBaseline, GeneratedAtMs, LosesBaseline, CommitsUndated, TopOf;
  }

  lemma KeptRanksAsHigh(current: Option<Snapshot>, incoming: Option<Snapshot>, preserve: bool)
    ensures Keeps(current, incoming, preserve) ==> StandingOf(current).AtLeast(StandingOf(incoming))
  {
  }

  lemma TopOfFew(current: Option<Snapshot>, offers: seq<Option<Snapshot>>)
    requires |offers| <= 1
    ensures TopOf(current, offers)
         == if offers == [] then StandingOf(current) else Higher(StandingOf(offers[0]), StandingOf(current))
  {
    if offers != [] {
      assert offers[1..] == [];
    }
  }

  /** Over a whole run: the rank falls somewhere exactly when some step drops it. A run without such a
      step ends with the highest rank of the initial snapshot and all offered ones. */
  lemma {:induction false} RunFalls(s: State, events: seq<Event>)
    requires Inv(s) && Runs(s, events)
    ensures FallsSomewhere(s, events) <==> DropsSomewhere(s, events)
    ensures !DropsSomewhere(s, events) ==> RankOf(Final(s, events)) == TopOf(s.data.rawStatus, Offered(s, events))
    decreases events
  {
    hide Inv, Next, Enabled, CommitsUndated, LosesBaseline, RankOf, TopOf, OfferedBy;
    if events == [] {
      TopOfFew(s.data.rawStatus, []);
      RankIsStanding(s);
    } else {
      var next := Next(s, events[0]);
      NextInv(s, events[0]);
      StepFalls(s, events[0]);
      RunFalls(next, events[1..]);
      if !DropsSomewhere(s, events) {
        StepClimbs(s, events[0]);
        RankIsStanding(next);
        TopOfSplit(s.data.rawStatus, next.data.rawStatus, OfferedBy(s, events[0]), Offered(next, events[1..]));
      }
    }
  }

  lemma RankIsStanding(s: State)
    ensures RankOf(s) == StandingOf(s.data.rawStatus)
  {
  }

  // ----- timers and streams after a refresh -----

  /** A poll joins the refresh in flight, or starts one that waits for its fetch with the snapshot and
      the flag the page holds now. */
  lemma PollStarts(s: State)
    requires Inv(s) && Booted(s)
    ensures var t := StartRefresh(s, None, true);
      && t.data == s.data && t.inFlight.Some?
      && (s.inFlight.Some? ==> t == s)
      && (s.inFlight.None? ==>
            t.tasks == map[t.inFlight.value := Fetching(s.data.rawStatus, s.data.liveAvailable)])
  {
    hide DataFrom;
    assert s.inFlight.None? ==> s.tasks == map[];
  }

  /** A judged payload settles with the flag the page then holds, unless its mapping threw. */
  lemma JudgedSettles(s: State, e: Event)
    requires Inv(s) && Enabled(s, e) && !e.BootLoaded? && OfferOf(s, e).Offer?
    ensures var t, offer := Next(s, e), OfferOf(s, e);
      && t.inFlight.Some?
      && t.tasks == map[t.inFlight.value :=
           if !offer.maps && !Keeps(s.data.rawStatus, offer.payload.status, offer.preserve) then Finishing
           else Settling(t.data.liveAvailable)]
  {
    hide DataFrom, Keeps;
    assert s.inFlight.None? ==> s.tasks == map[];
    AliveIsBooted(s);
  }

  /** When a refresh has settled, the one running interval has the period of a live page, or else the
      slower one; an interval that had it already goes on. */
  lemma SettledPollsAsPreferred(s: State, id: nat, now: nat)
    requires Inv(s) && Enabled(s, Settled(id, now))
    ensures var t := Next(s, Settled(id, now));
      && t.poll.Some? && t.timers == map[t.poll.value := if t.data.liveAvailable then 1500 else 3000]
      && (s.pollIntervalMs == Some(if s.data.liveAvailable then 1500 else 3000) ==> t.poll == s.poll)
  {
    hide Inv, DataFrom, SetupStream, StartPolling;
    AliveIsBooted(s);
    BootedPrefers(s);
    NextInv(s, Settled(id, now));
    InvIsSingle(Next(s, Settled(id, now)));
  }

  /** So it does once the page is ready. */
  lemma ReadyPollsAsPreferred(s: State, now: nat)
    requires Inv(s) && Enabled(s, BootReady(now))
    ensures var t := Next(s, BootReady(now));
      t.poll.Some? && t.timers == map[t.poll.value := if t.data.liveAvailable then 1500 else 3000]
  {
    hide Inv, DataFrom, SetupStream, StartPolling;
    BootedPrefers(s);
    NextInv(s, BootReady(now));
    InvIsSingle(Next(s, BootReady(now)));
  }

  /** An opened stream is the only one, and polling goes on at the live period. */
  lemma OpenedStream(s: State, id: nat)
    requires Inv(s) && Enabled(s, StreamOpened(id))
    ensures var t := Next(s, StreamOpened(id));
      && t.poll.Some? && t.timers == map[t.poll.value := 1500]
      && t.stream == Some(id) && t.sources == map[id := s.sources[id].(hasOpened := true)]
  {
    NextInv(s, StreamOpened(id));
    InvIsSingle(Next(s, StreamOpened(id)));
    hide DataFrom;
    assert s.sources.Keys == {id};
  }

  lemma OnlySource(s: State, id: nat)
    requires Inv(s) && id in s.sources
    ensures s.sources - {id} == map[]
  {
    hide DataFrom;
    assert s.sources.Keys == {id};
  }

  /** The bootstrap payload meets no snapshot, so the gate accepts it. */
  lemma BootstrapIsAccepted(s: State, p: Payload)
    requires Inv(s) && s.boot.Loading?
    ensures !Keeps(s.data.rawStatus, p.status, false)
  {
    hide DataFrom;
  }

  lemma InvIsSingle(s: State)
    requires Inv(s)
    ensures OneTimer(s) && OneStream(s)
  {
  }

  lemma BootedPrefers(s: State)
    requires Inv(s) && Booted(s)
    ensures s.data.preferredPollMs == Some(if s.data.liveAvailable then 1500 else 3000)
    ensures s.data.liveStatus.remote <==> s.data.liveStatus.source in [RemoteLiveApi, RemoteLiveSse]
  {
  }

  /** Where a page listens: at the address the runtime names, when the page shows a remote live
      payload and the runtime is enabled, else at the local path. */
  ghost function StreamAddress(s: State): string {
    if && s.data.liveStatus.source in [RemoteLiveApi, RemoteLiveSse]
       && s.runtime.Some? && s.runtime.value.enabled && |s.runtime.value.eventsUrl| > 0
    then s.runtime.value.eventsUrl
    else "./api/live-events"
  }

  /** A page that may stream from `s` to `t` listens there afterwards: a stream at that address stays,
      any other is closed and one new stream is opened that has not answered yet. A page that may not
      stream keeps what it has. */
  ghost predicate Streams(s: State, t: State, may: bool) {
    && (may ==> t.stream.Some? && t.streamUrl == Some(StreamAddress(t)))
    && (!may || (s.stream.Some? && s.streamUrl == t.streamUrl) ==>
          t.stream == s.stream && t.streamUrl == s.streamUrl && t.sources == s.sources)
    && (may && !(s.stream.Some? && s.streamUrl == t.streamUrl) ==>
          t.sources == map[t.stream.value := EventSource(StreamAddress(t), t.data.liveStatus.remote, false)])
  }

  /** The browser has event sources and no earlier failure delays the next one. */
  ghost predicate MayOpen(s: State, now: nat) {
    s.hasEventSource && (s.retryAt.Some? ==> now >= s.retryAt.value)
  }

  /** ... and a live refresh leaves the page listening at the preferred address, unless the browser has
      no event sources or an earlier failure still delays it. */
  lemma SettledStreams(s: State, id: nat, now: nat)
    requires Inv(s) && Enabled(s, Settled(id, now))
    ensures Streams(s, Next(s, Settled(id, now)), s.tasks[id].live && MayOpen(s, now))
  {
    hide Inv, DataFrom, SetupStream, StartPolling, StreamAddress;
    SettlingIsCurrent(s, id);
    InvIsSingle(s);
    AliveIsBooted(s);
    BootedPrefers(s);
    var polled := if s.pollIntervalMs != s.data.preferredPollMs
      then StartPolling(s, s.data.preferredPollMs.GetOr(STATIC_POLL_MS)) else s;
    PollingKeepsStream(s, s.data.preferredPollMs.GetOr(STATIC_POLL_MS));
    if s.tasks[id].live {
      SetupStreams(polled, now);
      SameAddress(SetupStream(polled, now), Next(s, Settled(id, now)));
    }
  }

  /** The same when the bootstrap is done. */
  lemma ReadyStreams(s: State, now: nat)
    requires Inv(s) && Enabled(s, BootReady(now))
    ensures Streams(s, Next(s, BootReady(now)), s.data.liveAvailable && MayOpen(s, now))
  {
    hide Inv, DataFrom, SetupStream, StartPolling, StreamAddress;
    InvIsSingle(s);
    BootedPrefers(s);
    var streamed := SetupStream(s.(hooks := true), now);
    SetupStreams(s.(hooks := true), now);
    PollingKeepsStream(streamed, streamed.data.preferredPollMs.GetOr(STATIC_POLL_MS));
    SameAddress(streamed, Next(s, BootReady(now)));
  }

  lemma PollingKeepsStream(s: State, ms: nat)
    ensures var t := StartPolling(s, ms);
      t.stream == s.stream && t.streamUrl == s.streamUrl && t.sources == s.sources && t.runtime == s.runtime
  {
  }

  lemma SettlingIsCurrent(s: State, id: nat)
    requires Inv(s) && id in s.tasks && s.tasks[id].Settling?
    ensures s.tasks[id].live == s.data.liveAvailable
  {
    hide DataFrom;
  }

  lemma SetupStreams(s: State, now: nat)
    requires OneStream(s) && (s.data.liveStatus.remote <==> s.data.liveStatus.source in [RemoteLiveApi, RemoteLiveSse])
    ensures Streams(s, SetupStream(s, now), s.data.liveAvailable && MayOpen(s, now))
  {
    var t := SetupStream(s, now);
    assert EventsUrl(t) == EventsUrl(s) == StreamAddress(t);
    hide EventsUrl, StreamAddress;
    if s.stream.Some? {
      assert s.sources - {s.stream.value} == map[];
    } else {
      assert s.sources == map[];
    }
  }

  lemma SameAddress(s: State, t: State)
    requires s.data == t.data && s.runtime == t.runtime
    ensures StreamAddress(s) == StreamAddress(t)
  {
  }

  /** The step reads a clock that has not reached `limit`. */
  predicate ReadsBefore(e: Event, limit: nat) {
    match e
    case BootReady(now) => now < limit
    case Settled(_, now) => now < limit
    case StreamFailed(_, now) => now < limit
    case _ => true
  }

  lemma StepBacksOff(s: State, e: Event)
    requires Enabled(s, e) && s.sources == map[] && s.retryAt.Some? && ReadsBefore(e, s.retryAt.value)
    ensures Next(s, e).sources == map[] && Next(s, e).retryAt == s.retryAt
  {
    hide StartRefresh, StartPolling, SetupStream, BootData, Judge;
    match e
    case BootReady(now) => SetupWaits(s.(hooks := true), now);
    case Settled(id, now) =>
      SetupWaits(s, now);
      SetupWaits(StartPolling(s, s.data.preferredPollMs.GetOr(STATIC_POLL_MS)), now);
    case _ =>
  }

  lemma SetupWaits(s: State, now: nat)
    requires s.retryAt.Some? && now < s.retryAt.value
    ensures SetupStream(s, now) == s
  {
  }

  lemma {:induction false} RunBacksOff(s: State, events: seq<Event>)
    requires Runs(s, events) && s.sources == map[] && s.retryAt.Some?
    requires forall i :: 0 <= i < |events| ==> ReadsBefore(events[i], s.retryAt.value)
    ensures Final(s, events).sources == map[] && Final(s, events).retryAt == s.retryAt
    decreases events
  {
    hide Next, Enabled, ReadsBefore;
    if events != [] {
      StepBacksOff(s, events[0]);
      assert forall i :: 0 <= i < |events[1..]| ==> events[1..][i] == events[i + 1];
      RunBacksOff(Next(s, events[0]), events[1..]);
    }
  }

  /** After a stream failed before it ever opened, whatever happens next, no event source is open
      while every clock reading is less than the retry delay later. */
  lemma NoStreamDuringBackoff(s: State, id: nat, now: nat, events: seq<Event>)
    requires Inv(s) && Enabled(s, StreamFailed(id, now)) && !s.sources[id].hasOpened
    requires Runs(Next(s, StreamFailed(id, now)), events)
    requires forall i :: 0 <= i < |events| ==> ReadsBefore(events[i], now + RETRY_DELAY_MS)
    ensures Final(Next(s, StreamFailed(id, now)), events).sources == map[]
  {
    hide DataFrom, Runs, Final, ReadsBefore;
    OnlySource(s, id);
    RunBacksOff(Next(s, StreamFailed(id, now)), events);
  }

  /** A poll in flight can always run to its end and frees the in-flight mark. */
  lemma RefreshCompletes(s: State, id: nat, p: Payload, now: nat)
    requires Inv(s) && id in s.tasks && s.tasks[id].Fetching?
    ensures var events := [FetchDone(id, p, true), Settled(id, now), Cleared(id)];
      Runs(s, events) && Final(s, events).inFlight.None? && Final(s, events).tasks == map[]
  {
    hide Inv, DataFrom, Keeps, SetupStream, StartPolling;
    var e1, e2, e3 := FetchDone(id, p, true), Settled(id, now), Cleared(id);
    var s1 := Next(s, e1);
    NextInv(s, e1);
    assert Enabled(s1, e2);
    var s2 := Next(s1, e2);
    NextInv(s1, e2);
    assert Enabled(s2, e3);
    var s3 := Next(s2, e3);
    assert Runs(s2, [e3]) && Final(s2, [e3]) == s3;
    assert [e2, e3][1..] == [e3];
    assert Runs(s1, [e2, e3]) && Final(s1, [e2, e3]) == s3;
    assert [e1, e2, e3][1..] == [e2, e3];
    assert Runs(s, [e1, e2, e3]) && Final(s, [e1, e2, e3]) == s3;
    OnlyTask(s2, id);
  }

  lemma OnlyTask(s: State, id: nat)
    requires Inv(s) && id in s.tasks
    ensures s.tasks - {id} == map[]
  {
    hide DataFrom;
    assert s.tasks.Keys == {id};
  }
}
