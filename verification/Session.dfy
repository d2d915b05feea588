/** The live-status protocol as a state machine over the fields the dashboard keeps on `window`
    (dashboard/public/data.jsx). Each step is one uninterrupted stretch of script; steps of
    different refreshes, timers, streams and the bootstrap interleave freely. */
module Session {
  import opened Prelude
  import opened Status
  import opened Assets
  import opened Capital
  import opened Gate

  const LIVE_EVENTS_PATH := "./api/live-events"
  const LIVE_POLL_MS: nat := 1500
  const STATIC_POLL_MS: nat := 3000
  const RETRY_DELAY_MS: nat := 30000

  datatype LiveStatus = LiveStatus(source: Source, live: bool, remote: bool)

  /** The globals one commit writes together. */
  datatype Globals = Globals(
    rawStatus: Option<Snapshot>, holdings: Holdings, capital: CapitalMaps, liveStatus: LiveStatus,
    liveAvailable: bool, preferredPollMs: Option<nat>)

  /** Where one refresh stands. A poll waits for its fetch with the status it read before; then it
      settles, clears the in-flight mark, and is gone. */
  datatype Task = Fetching(status: Option<Snapshot>, live: bool) | Settling(live: bool) | Finishing

  datatype Boot = Loading | Committed(live: bool) | Returned | Ready | Failed

  datatype Runtime = Runtime(enabled: bool, eventsUrl: string)

  datatype EventSource = EventSource(url: string, remote: bool, hasOpened: bool)

  datatype State = State(
    data: Globals,
    boot: Boot,
    hooks: bool,
    inFlight: Option<nat>,
    tasks: map<nat, Task>,
    poll: Option<nat>,
    pollIntervalMs: Option<nat>,
    timers: map<nat, nat>,
    runtime: Option<Runtime>,
    hasEventSource: bool,
    stream: Option<nat>,
    streamUrl: Option<string>,
    streamActive: bool,
    retryAt: Option<nat>,
    sources: map<nat, EventSource>,
    nextId: nat)

  /** What a commit of `p` writes: everything is a function of the payload. */
  function DataFrom(p: Payload): Globals {
    var live := p.live && p.status.Some?;
    var holdings := HoldingsOf(p.status);
    Globals(p.status, holdings, MapsOf(holdings),
            LiveStatus(p.source, live, p.source.RemoteLiveApi? || p.source.RemoteLiveSse?),
            live, Some(if live then LIVE_POLL_MS else STATIC_POLL_MS))
  }

  // ----- building blocks -----

  /** `bootData` from the moment its payload is known. `current` was read before the fetch. The
      mapping of an accepted snapshot may throw (`maps` is false); then nothing is written. */
  datatype Outcome = Kept | Threw | Wrote

  function Judge(current: Option<Snapshot>, incoming: Option<Snapshot>, preserve: bool, maps: bool): Outcome {
    if Keeps(current, incoming, preserve) then Kept else if maps then Wrote else Threw
  }

  /** The data after `bootData`, and the `live` flag of the snapshot it returns. */
  function BootData(data: Globals, current: Option<Snapshot>, currentLive: bool, p: Payload, preserve: bool, maps: bool)
    : (Globals, Task)
  {
    match Judge(current, p.status, preserve, maps)
    case Kept => (data, Settling(currentLive))
    case Threw => (data, Finishing)
    case Wrote => (DataFrom(p), Settling(DataFrom(p).liveAvailable))
  }

  /** `refreshDashboardData`: joins the refresh in flight, or starts one. A pushed payload is
      judged at once, a poll first fetches. */
  function StartRefresh(s: State, payload: Option<Payload>, maps: bool): (r: State)
    ensures r.sources == s.sources && r.retryAt == s.retryAt
    ensures r.inFlight.Some? && (payload.None? ==> r.data == s.data) && (s.inFlight.Some? ==> r == s)
  {
    if s.inFlight.Some? then s
    else
      var id := s.nextId;
      match payload
      case None =>
        s.(inFlight := Some(id), nextId := id + 1,
           tasks := s.tasks[id := Fetching(s.data.rawStatus, s.data.liveStatus.live)])
      case Some(p) =>
        var (data, task) := BootData(s.data, s.data.rawStatus, s.data.liveStatus.live, p, true, maps);
        s.(data := data, inFlight := Some(id), nextId := id + 1, tasks := s.tasks[id := task])
  }

  function StartPolling(s: State, intervalMs: nat): (r: State)
    ensures r.data == s.data && r.boot == s.boot && r.hooks == s.hooks
    ensures r.inFlight == s.inFlight && r.tasks == s.tasks && r.pollIntervalMs == Some(intervalMs)
    ensures r.sources == s.sources && r.retryAt == s.retryAt && r.hasEventSource == s.hasEventSource
  {
    var kept := if s.poll.Some? then s.timers - {s.poll.value} else s.timers;
    s.(poll := Some(s.nextId), pollIntervalMs := Some(intervalMs), timers := kept[s.nextId := intervalMs],
       nextId := s.nextId + 1)
  }

  function EventsUrl(s: State): string {
    if s.data.liveStatus.remote && s.runtime.Some? && s.runtime.value.enabled && s.runtime.value.eventsUrl != ""
    then s.runtime.value.eventsUrl else LIVE_EVENTS_PATH
  }

  function SetupStream(s: State, now: nat): (r: State)
    ensures r.data == s.data && r.boot == s.boot && r.hooks == s.hooks
    ensures r.inFlight == s.inFlight && r.tasks == s.tasks
    ensures r.poll == s.poll && r.pollIntervalMs == s.pollIntervalMs && r.timers == s.timers
  {
    if !s.data.liveAvailable || !s.hasEventSource then s
    else if s.retryAt.Some? && now < s.retryAt.value then s
    else if s.stream.Some? && s.streamUrl == Some(EventsUrl(s)) then s
    else
      var kept := if s.stream.Some? then s.sources - {s.stream.value} else s.sources;
      s.(stream := Some(s.nextId), streamUrl := Some(EventsUrl(s)),
         sources := kept[s.nextId := EventSource(EventsUrl(s), s.data.liveStatus.remote, false)],
         nextId := s.nextId + 1)
  }

  // ----- steps -----

  datatype Event =
    | BootLoaded(payload: Payload, maps: bool)        // the bootstrap fetch arrives and is committed
    | BootContinued                                   // ... then a refresh follows unless it was live
    | BootReady(now: nat)                             // hooks, stream and polling are set up
    | RuntimeResolved(runtime: Option<Runtime>)
    | TimerFired(id: nat)
    | Focused(hidden: bool)
    | FetchDone(id: nat, payload: Payload, maps: bool)
    | Settled(id: nat, now: nat)
    | Cleared(id: nat)
    | StreamOpened(id: nat)
    | StreamFailed(id: nat, now: nat)
    | StreamSnapshot(id: nat, status: Option<Snapshot>, maps: bool)
    | Unloading

  /** When an event can happen. A closed event source delivers nothing (HTML Living Standard,
      section 9.2), a cleared interval does not fire. */
  ghost predicate Enabled(s: State, e: Event) {
    match e
    case BootLoaded(_, _) => s.boot.Loading?
    case BootContinued => s.boot.Committed?
    case BootReady(_) => s.boot.Returned?
    case RuntimeResolved(_) => true
    case TimerFired(id) => id in s.timers
    case Focused(_) => s.hooks
    case FetchDone(id, _, _) => id in s.tasks && s.tasks[id].Fetching?
    case Settled(id, _) => id in s.tasks && s.tasks[id].Settling?
    case Cleared(id) => id in s.tasks && s.tasks[id].Finishing?
    case StreamOpened(id) => id in s.sources
    case StreamFailed(id, _) => id in s.sources
    case StreamSnapshot(id, _, _) => id in s.sources
    case Unloading => true
  }

  function BootLoadedStep(s: State, p: Payload, maps: bool): State {
    if Judge(s.data.rawStatus, p.status, false, maps).Threw? then s.(boot := Failed)
    else
      var (data, _) := BootData(s.data, s.data.rawStatus, s.data.liveStatus.live, p, false, maps);
      s.(data := data, boot := Committed(p.live))
  }

  function BootContinuedStep(s: State): State
    requires s.boot.Committed?
  {
    (if s.boot.live then s else StartRefresh(s, None, true)).(boot := Returned)
  }

  function BootReadyStep(s: State, now: nat): State {
    var streamed := SetupStream(s.(hooks := true), now);
    StartPolling(streamed, streamed.data.preferredPollMs.GetOr(STATIC_POLL_MS)).(boot := Ready)
  }

  function FetchDoneStep(s: State, id: nat, p: Payload, maps: bool): State
    requires id in s.tasks && s.tasks[id].Fetching?
  {
    var (data, task) := BootData(s.data, s.tasks[id].status, s.tasks[id].live, p, false, maps);
    s.(data := data, tasks := s.tasks[id := task])
  }

  function SettledStep(s: State, id: nat, now: nat): State
    requires id in s.tasks && s.tasks[id].Settling?
  {
    var live := s.tasks[id].live;
    var polled := if s.pollIntervalMs != s.data.preferredPollMs
      then StartPolling(s, s.data.preferredPollMs.GetOr(STATIC_POLL_MS)) else s;
    var streamed := if live then SetupStream(polled, now) else polled;
    streamed.(tasks := streamed.tasks[id := Finishing])
  }

  function StreamOpenedStep(s: State, id: nat): State
    requires id in s.sources
  {
    StartPolling(s.(sources := s.sources[id := s.sources[id].(hasOpened := true)], streamActive := true), LIVE_POLL_MS)
  }

  function StreamFailedStep(s: State, id: nat, now: nat): State
    requires id in s.sources
  {
    s.(streamActive := false,
       retryAt := if s.sources[id].hasOpened then s.retryAt else Some(now + RETRY_DELAY_MS),
       sources := s.sources - {id}, stream := None, streamUrl := None)
  }

  function PushedPayload(source: EventSource, status: Option<Snapshot>): Payload {
    Payload(status, if source.remote then RemoteLiveSse else LiveSse, true)
  }

  function Next(s: State, e: Event): State
    requires Enabled(s, e)
  {
    match e
    case BootLoaded(p, maps) => BootLoadedStep(s, p, maps)
    case BootContinued => BootContinuedStep(s)
    case BootReady(now) => BootReadyStep(s, now)
    case RuntimeResolved(runtime) => s.(runtime := runtime)
    case TimerFired(_) => StartRefresh(s, None, true)
    case Focused(hidden) => if hidden then s else StartRefresh(s, None, true)
    case FetchDone(id, p, maps) => FetchDoneStep(s, id, p, maps)
    case Settled(id, now) => SettledStep(s, id, now)
    case Cleared(id) => s.(inFlight := None, tasks := s.tasks - {id})
    case StreamOpened(id) => StreamOpenedStep(s, id)
    case StreamFailed(id, now) => StreamFailedStep(s, id, now)
    case StreamSnapshot(id, status, maps) => StartRefresh(s, Some(PushedPayload(s.sources[id], status)), maps)
    case Unloading => s.(sources := map[])
  }

  /** The page has just loaded: nothing committed, nothing running. */
  ghost predicate Initial(s: State) {
    && s.data.rawStatus.None?
    && s.boot.Loading?
    && !s.hooks
    && s.inFlight.None? && s.tasks == map[]
    && s.poll.None? && s.pollIntervalMs.None? && s.timers == map[]
    && s.stream.None? && s.streamUrl.None? && s.sources == map[]
  }

  // ----- the invariant -----

  ghost predicate SingleFlight(s: State) {
    s.tasks.Keys == if s.inFlight.Some? then {s.inFlight.value} else {}
  }

  /** What a waiting poll read before its fetch is still current. */
  ghost predicate CaptureCurrent(s: State) {
    forall id :: id in s.tasks && s.tasks[id].Fetching? ==>
      s.tasks[id].status == s.data.rawStatus && s.tasks[id].live == s.data.liveStatus.live
  }

  /** What a settling refresh found live is what the page holds available. */
  ghost predicate LiveCurrent(s: State) {
    forall id :: id in s.tasks && s.tasks[id].Settling? ==> s.tasks[id].live == s.data.liveAvailable
  }

  /** At most one interval runs, and it is the one `window` refers to, at the period it names. */
  ghost predicate OneTimer(s: State) {
    if s.poll.Some? then s.pollIntervalMs.Some? && s.timers == map[s.poll.value := s.pollIntervalMs.value]
    else s.pollIntervalMs.None? && s.timers == map[]
  }

  /** At most one event source is open, and it is the one `window` refers to; the reference and its
      URL are set or unset together. */
  ghost predicate OneStream(s: State) {
    && (s.stream.Some? <==> s.streamUrl.Some?)
    && (forall id :: id in s.sources ==> s.stream == Some(id) && s.streamUrl == Some(s.sources[id].url))
  }

  ghost predicate Booted(s: State) {
    !s.boot.Loading? && !s.boot.Failed?
  }

  /** All data globals are functions of one payload, the last committed one. */
  ghost predicate Consistent(s: State) {
    && s.data.liveStatus.live == s.data.liveAvailable
    && s.data == DataFrom(Payload(s.data.rawStatus, s.data.liveStatus.source, s.data.liveStatus.live))
  }

  ghost predicate Quiet(s: State) {
    s.inFlight.None? && s.poll.None? && s.stream.None? && !s.hooks && s.data.rawStatus.None?
  }

  ghost predicate FreshIds(s: State) {
    && (forall id :: id in s.tasks ==> id < s.nextId)
    && (forall id :: id in s.timers ==> id < s.nextId)
    && (forall id :: id in s.sources ==> id < s.nextId)
  }

  ghost predicate Inv(s: State) {
    && SingleFlight(s)
    && CaptureCurrent(s)
    && LiveCurrent(s)
    && OneTimer(s)
    && OneStream(s)
    && FreshIds(s)
    && (if Booted(s) then Consistent(s) else Quiet(s))
  }

  lemma InitialInv(s: State)
    requires Initial(s)
    ensures Inv(s)
  {
  }

  lemma StartRefreshInv(s: State, payload: Option<Payload>, maps: bool)
    requires Inv(s) && Booted(s)
    ensures Inv(StartRefresh(s, payload, maps))
  {
    hide HoldingsOf, MapsOf, Keeps;
  }

  lemma StartPollingInv(s: State, ms: nat)
    requires Inv(s) && Booted(s)
    ensures Inv(StartPolling(s, ms))
    ensures StartPolling(s, ms).timers == map[StartPolling(s, ms).poll.value := ms]
  {
    hide DataFrom;
    var t := StartPolling(s, ms);
    assert t.timers == map[s.nextId := ms];
  }

  lemma SetupStreamInv(s: State, now: nat)
    requires Inv(s) && Booted(s)
    ensures Inv(SetupStream(s, now))
  {
    hide DataFrom, EventsUrl;
  }

  lemma FinishInv(s: State, id: nat)
    requires Inv(s) && id in s.tasks
    ensures Inv(s.(tasks := s.tasks[id := Finishing]))
  {
    hide DataFrom;
  }

  lemma SettledInv(s: State, id: nat, now: nat)
    requires Inv(s) && Enabled(s, Settled(id, now))
    ensures Inv(SettledStep(s, id, now))
  {
    var polled := if s.pollIntervalMs != s.data.preferredPollMs
      then StartPolling(s, s.data.preferredPollMs.GetOr(STATIC_POLL_MS)) else s;
    var streamed := if s.tasks[id].live then SetupStream(polled, now) else polled;
    assert Booted(s) by { hide DataFrom; }
    StartPollingInv(s, s.data.preferredPollMs.GetOr(STATIC_POLL_MS));
    hide Inv, StartPolling, SetupStream;
    SetupStreamInv(polled, now);
    FinishInv(streamed, id);
  }

  lemma FetchDoneInv(s: State, id: nat, p: Payload, maps: bool)
    requires Inv(s) && Enabled(s, FetchDone(id, p, maps))
    ensures Inv(FetchDoneStep(s, id, p, maps))
  {
    hide HoldingsOf, MapsOf, Keeps;
  }

  lemma BootLoadedInv(s: State, p: Payload, maps: bool)
    requires Inv(s) && s.boot.Loading?
    ensures Inv(BootLoadedStep(s, p, maps))
  {
    hide HoldingsOf, MapsOf, HasActiveBaseline, GeneratedAtMs;
  }

  lemma RebootInv(s: State, boot: Boot, hooks: bool)
    requires Inv(s) && Booted(s) && !boot.Loading? && !boot.Failed?
    ensures Inv(s.(boot := boot, hooks := hooks))
  {
    hide DataFrom;
  }

  lemma BootContinuedInv(s: State)
    requires Inv(s) && s.boot.Committed?
    ensures Inv(BootContinuedStep(s))
  {
    StartRefreshInv(s, None, true);
    hide Inv;
    RebootInv(if s.boot.live then s else StartRefresh(s, None, true), Returned, s.hooks);
  }

  lemma BootReadyInv(s: State, now: nat)
    requires Inv(s) && s.boot.Returned?
    ensures Inv(BootReadyStep(s, now))
  {
    hide Inv, SetupStream, StartPolling;
    var hooked := s.(hooks := true);
    RebootInv(s, s.boot, true);
    SetupStreamInv(hooked, now);
    var streamed := SetupStream(hooked, now);
    var ms := streamed.data.preferredPollMs.GetOr(STATIC_POLL_MS);
    StartPollingInv(streamed, ms);
    RebootInv(StartPolling(streamed, ms), Ready, true);
  }

  lemma OpenInv(s: State, id: nat)
    requires Inv(s) && id in s.sources
    ensures Booted(s)
    ensures Inv(s.(sources := s.sources[id := s.sources[id].(hasOpened := true)], streamActive := true))
  {
    hide DataFrom;
  }

  lemma StreamOpenedInv(s: State, id: nat)
    requires Inv(s) && id in s.sources
    ensures Inv(StreamOpenedStep(s, id))
  {
    OpenInv(s, id);
    hide Inv, StartPolling;
    var marked := s.(sources := s.sources[id := s.sources[id].(hasOpened := true)], streamActive := true);
    StartPollingInv(marked, LIVE_POLL_MS);
  }

  lemma StreamFailedInv(s: State, id: nat, now: nat)
    requires Inv(s) && id in s.sources
    ensures Inv(StreamFailedStep(s, id, now))
  {
    hide DataFrom;
  }

  lemma ClearedInv(s: State, id: nat)
    requires Inv(s) && id in s.tasks
    ensures Inv(s.(inFlight := None, tasks := s.tasks - {id}))
  {
    hide DataFrom;
  }

  /** Only after the bootstrap commit can anything else have started. */
  lemma AliveIsBooted(s: State)
    requires Inv(s) && (s.timers != map[] || s.sources != map[] || s.tasks != map[] || s.hooks)
    ensures Booted(s)
  {
    hide DataFrom;
    assert s.tasks == map[] <==> s.tasks.Keys == {};
  }

  lemma RuntimeInv(s: State, runtime: Option<Runtime>)
    requires Inv(s)
    ensures Inv(s.(runtime := runtime))
  {
    hide DataFrom;
  }

  lemma UnloadingInv(s: State)
    requires Inv(s)
    ensures Inv(s.(sources := map[]))
  {
    hide DataFrom;
  }

  /** Every step keeps the invariant, in every interleaving. */
  lemma NextInv(s: State, e: Event)
    requires Inv(s) && Enabled(s, e)
    ensures Inv(Next(s, e))
  {
    hide Inv, DataFrom, BootLoadedStep, BootContinuedStep, BootReadyStep, FetchDoneStep, SettledStep,
      StreamOpenedStep, StreamFailedStep, StartRefresh, PushedPayload;
    match e
    case BootLoaded(p, maps) => BootLoadedInv(s, p, maps);
    case BootContinued => BootContinuedInv(s);
    case BootReady(now) => BootReadyInv(s, now);
    case RuntimeResolved(runtime) => RuntimeInv(s, runtime);
    case TimerFired(_) => AliveIsBooted(s); StartRefreshInv(s, None, true);
    case Focused(_) => AliveIsBooted(s); StartRefreshInv(s, None, true);
    case FetchDone(id, p, maps) => FetchDoneInv(s, id, p, maps);
    case Settled(id, now) => SettledInv(s, id, now);
    case Cleared(id) => ClearedInv(s, id);
    case StreamOpened(id) => StreamOpenedInv(s, id);
    case StreamFailed(id, now) => StreamFailedInv(s, id, now);
    case StreamSnapshot(id, status, maps) =>
      AliveIsBooted(s);
      StartRefreshInv(s, Some(PushedPayload(s.sources[id], status)), maps);
    case Unloading => UnloadingInv(s);
  }
}
