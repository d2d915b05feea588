/** The script that drives the live status (dashboard/public/data.jsx), in place on the fields of
    `window`. Every handler is proved equal to a step of module Session, keeps the object valid, and
    says what it leaves behind; `Drive` runs any sequence of events. */
module LiveWindow {
  import opened Prelude
  import opened Status
  import opened Assets
  import opened Capital
  import opened Gate
  import opened Session
  import opened Commits
  import opened SessionLaws

  class Window {
    var data: Globals
    var boot: Boot
    var hooks: bool
    var inFlight: Option<nat>
    var tasks: map<nat, Task>
    var poll: Option<nat>
    var pollIntervalMs: Option<nat>
    var timers: map<nat, nat>
    var runtime: Option<Runtime>
    var hasEventSource: bool
    var stream: Option<nat>
    var streamUrl: Option<string>
    var streamActive: bool
    var retryAt: Option<nat>
    var sources: map<nat, EventSource>
    var nextId: nat

    function View(): State
      reads this
    {
      State(data, boot, hooks, inFlight, tasks, poll, pollIntervalMs, timers, runtime, hasEventSource,
            stream, streamUrl, streamActive, retryAt, sources, nextId)
    }

    /** The invariant of the protocol holds of the fields. */
    ghost predicate Valid()
      reads this
    {
      Inv(View())
    }

    constructor (initial: Globals, hasEventSource: bool)
      requires initial.rawStatus.None?
      ensures Initial(View()) && View().data == initial
      ensures Valid()
    {
      data, boot, hooks := initial, Loading, false;
      inFlight, tasks := None, map[];
      poll, pollIntervalMs, timers := None, None, map[];
      runtime, this.hasEventSource := None, hasEventSource;
      stream, streamUrl, streamActive, retryAt, sources := None, None, false, None, map[];
      nextId := 0;
      new;
      InitialInv(View());
    }

    /** `bootData` once its payload is known: the gate, then one write of all globals. */
    method BootData(current: Option<Snapshot>, currentLive: bool, p: Payload, preserve: bool, maps: bool)
      returns (task: Task)
      modifies `data
      ensures (data, task) == Session.BootData(old(data), current, currentLive, p, preserve, maps)
    {
      if preserve && current.Some? && HasActiveBaseline(current) && !HasActiveBaseline(p.status) {
        return Settling(currentLive);
      }
      if && current.Some?
         && GeneratedAtMs(current).Some?
         && GeneratedAtMs(p.status).Some?
         && GeneratedAtMs(p.status).value < GeneratedAtMs(current).value
         && HasActiveBaseline(current) == HasActiveBaseline(p.status)
      {
        return Settling(currentLive);
      }
      if !maps { return Finishing; }
      var holdings := HoldingsOf(p.status);
      var capital := BuildCapitalMaps(holdings);
      var live := p.live && p.status.Some?;
      var remote := p.source == RemoteLiveApi || p.source == RemoteLiveSse;
      data := Globals(p.status, holdings, capital, LiveStatus(p.source, live, remote), live,
                      Some(if live then LIVE_POLL_MS else STATIC_POLL_MS));
      return Settling(live);
    }

    /** `bootData` up to its first wait: without a payload it goes to fetch one, with the status it
        reads now. */
    method BeginBootData(payload: Option<Payload>, maps: bool) returns (task: Task)
      modifies `data
      ensures (data, task) ==
        match payload
        case None => (old(data), Fetching(old(data.rawStatus), old(data.liveStatus.live)))
        case Some(p) =>
          Session.BootData(old(data), old(data.rawStatus), old(data.liveStatus.live), p, true, maps)
    {
      hide Session.BootData, DataFrom;
      if payload.None? { return Fetching(data.rawStatus, data.liveStatus.live); }
      task := BootData(data.rawStatus, data.liveStatus.live, payload.value, true, maps);
    }

    method RefreshDashboardData(payload: Option<Payload>, maps: bool)
      modifies this
      ensures View() == StartRefresh(old(View()), payload, maps)
      ensures inFlight.Some? && (old(inFlight).Some? || payload.None? ==> data == old(data))
    {
      hide DataFrom, Session.BootData, Keeps, HasActiveBaseline, GeneratedAtMs, SetupStream, StartPolling;
      ghost var was := View();
      if inFlight.Some? { return; }
      var id := nextId;
      nextId := nextId + 1;
      inFlight := Some(id);
      var task := BeginBootData(payload, maps);
      tasks := tasks[id := task];
      assert View() == was.(data := data, inFlight := Some(id), nextId := id + 1, tasks := was.tasks[id := task]);
    }

    method StartDashboardPolling(intervalMs: nat)
      modifies `poll, `pollIntervalMs, `timers, `nextId
      ensures View() == StartPolling(old(View()), intervalMs)
    {
      if poll.Some? { timers := timers - {poll.value}; }
      pollIntervalMs := Some(intervalMs);
      timers := timers[nextId := intervalMs];
      poll := Some(nextId);
      nextId := nextId + 1;
    }

    method EventsBasePath(preferRemote: bool) returns (base: string)
      requires preferRemote == data.liveStatus.remote
      ensures base == EventsUrl(View())
    {
      if preferRemote && runtime.Some? && runtime.value.enabled && runtime.value.eventsUrl != "" {
        return runtime.value.eventsUrl;
      }
      return LIVE_EVENTS_PATH;
    }

    method SetupLiveEventStream(now: nat)
      modifies `stream, `streamUrl, `sources, `nextId
      ensures View() == SetupStream(old(View()), now)
    {
      hide EventsUrl;
      if !data.liveAvailable || !hasEventSource { return; }
      if retryAt.Some? && now < retryAt.value { return; }
      var preferRemote := data.liveStatus.remote;
      var base := EventsBasePath(preferRemote);
      if stream.Some? && streamUrl == Some(base) { return; }
      var kept := if stream.Some? then sources - {stream.value} else sources;  // the old stream is closed
      sources := kept[nextId := EventSource(base, preferRemote, false)];
      stream, streamUrl := Some(nextId), Some(base);
      nextId := nextId + 1;
    }

    method OnBootLoaded(p: Payload, maps: bool)
      requires Valid() && Enabled(View(), BootLoaded(p, maps))
      modifies this
      ensures Valid() && View() == Next(old(View()), BootLoaded(p, maps))
      ensures data == if maps then DataFrom(p) else old(data)
      ensures maps ==> Shows(data, p)
      ensures boot == if maps then Committed(p.live) else Failed
    {
      hide Inv, DataFrom, Keeps, Shows;
      CommitShows(p);
      NextInv(View(), BootLoaded(p, maps));
      StepWrites(View(), BootLoaded(p, maps));
      BootstrapIsAccepted(View(), p);
      var task := BootData(data.rawStatus, data.liveStatus.live, p, false, maps);
      boot := if task.Finishing? then Failed else Committed(p.live);
    }

    method OnBootContinued()
      requires Valid() && Enabled(View(), BootContinued)
      modifies this
      ensures Valid() && View() == Next(old(View()), BootContinued)
      ensures data == old(data)
      ensures if old(boot.live) then inFlight == old(inFlight) && tasks == old(tasks) else inFlight.Some?
      ensures !old(boot.live) && old(inFlight).None? ==>
        tasks == map[inFlight.value := Fetching(data.rawStatus, data.liveAvailable)]
    {
      hide Inv, DataFrom, Keeps;
      NextInv(View(), BootContinued);
      PollStarts(View());
      if !boot.live {
        RefreshDashboardData(None, true);
      }
      boot := Returned;
    }

    method OnBootReady(now: nat)
      requires Valid() && Enabled(View(), BootReady(now))
      modifies this
      ensures Valid() && View() == Next(old(View()), BootReady(now))
      ensures hooks && data == old(data)
      ensures poll.Some? && timers == map[poll.value := if data.liveAvailable then 1500 else 3000]
      ensures Streams(old(View()), View(), data.liveAvailable && MayOpen(old(View()), now))
    {
      hide Inv, SetupStream, StartPolling, DataFrom, Streams, MayOpen;
      NextInv(View(), BootReady(now));
      ReadyPollsAsPreferred(View(), now);
      ReadyStreams(View(), now);
      hooks := true;
      SetupLiveEventStream(now);
      StartDashboardPolling(if data.preferredPollMs.Some? then data.preferredPollMs.value else STATIC_POLL_MS);
      boot := Ready;
    }

    /** The interval fires: the refresh in flight goes on, or a poll starts with what the page holds. */
    method OnTimer(id: nat)
      requires Valid() && Enabled(View(), TimerFired(id))
      modifies this
      ensures Valid() && View() == Next(old(View()), TimerFired(id))
      ensures inFlight.Some? && data == old(data) && (old(inFlight).Some? ==> View() == old(View()))
      ensures old(inFlight).None? ==>
        tasks == map[inFlight.value := Fetching(data.rawStatus, data.liveAvailable)]
    {
      hide Inv, DataFrom, Keeps;
      NextInv(View(), TimerFired(id));
      AliveIsBooted(View());
      PollStarts(View());
      RefreshDashboardData(None, true);
    }

    method OnFocus(hidden: bool)
      requires Valid() && Enabled(View(), Focused(hidden))
      modifies this
      ensures Valid() && View() == Next(old(View()), Focused(hidden))
      ensures (!hidden ==> inFlight.Some?) && data == old(data)
      ensures hidden || old(inFlight).Some? ==> View() == old(View())
      ensures !hidden && old(inFlight).None? ==>
        tasks == map[inFlight.value := Fetching(data.rawStatus, data.liveAvailable)]
    {
      hide Inv, DataFrom, Keeps;
      NextInv(View(), Focused(hidden));
      AliveIsBooted(View());
      PollStarts(View());
      if hidden { return; }
      RefreshDashboardData(None, true);
    }

    /** A fetched payload is written exactly when the gate accepts it against the snapshot held now,
        although the script asks it about the one read before the fetch. */
    method OnFetchDone(id: nat, p: Payload, maps: bool)
      requires Valid() && Enabled(View(), FetchDone(id, p, maps))
      modifies this
      ensures Valid() && View() == Next(old(View()), FetchDone(id, p, maps))
      ensures data == if maps && !Keeps(old(data.rawStatus), p.status, false) then DataFrom(p) else old(data)
      ensures maps && !Keeps(old(data.rawStatus), p.status, false) ==> Shows(data, p)
      ensures inFlight.Some? && tasks == map[inFlight.value :=
        if !maps && !Keeps(old(data.rawStatus), p.status, false) then Finishing else Settling(data.liveAvailable)]
    {
      hide Inv, DataFrom, Keeps, Shows;
      CommitShows(p);
      assert id in tasks && tasks[id].Fetching?;
      assert Next(View(), FetchDone(id, p, maps)) == FetchDoneStep(View(), id, p, maps);
      hide Next, Enabled;
      NextInv(View(), FetchDone(id, p, maps));
      StepWrites(View(), FetchDone(id, p, maps));
      JudgedSettles(View(), FetchDone(id, p, maps));
      var task := BootData(tasks[id].status, tasks[id].live, p, false, maps);
      tasks := tasks[id := task];
    }

    /** A refresh has settled: exactly one interval runs, at the preferred period, and after a live one
        the page listens at the preferred address unless a retry delay is pending. */
    method OnSettled(id: nat, now: nat)
      requires Valid() && Enabled(View(), Settled(id, now))
      modifies this
      ensures Valid() && View() == Next(old(View()), Settled(id, now))
      ensures data == old(data)
      ensures poll.Some? && timers == map[poll.value := if data.liveAvailable then 1500 else 3000]
      ensures old(pollIntervalMs) == Some(if data.liveAvailable then 1500 else 3000) ==> poll == old(poll)
      ensures Streams(old(View()), View(), old(tasks[id].live) && MayOpen(old(View()), now))
    {
      hide Inv, SetupStream, StartPolling, DataFrom, StartRefresh, EventsUrl, Streams, MayOpen;
      assert id in tasks && tasks[id].Settling? && Next(View(), Settled(id, now)) == SettledStep(View(), id, now);
      hide Next, Enabled;
      NextInv(View(), Settled(id, now));
      SettledPollsAsPreferred(View(), id, now);
      SettledStreams(View(), id, now);
      var live := tasks[id].live;
      if pollIntervalMs != data.preferredPollMs {
        StartDashboardPolling(if data.preferredPollMs.Some? then data.preferredPollMs.value else STATIC_POLL_MS);
      }
      if live {
        SetupLiveEventStream(now);
      }
      tasks := tasks[id := Finishing];
    }

    /** The refresh is gone, and with it the mark. */
    method OnCleared(id: nat)
      requires Valid() && Enabled(View(), Cleared(id))
      modifies this
      ensures Valid() && View() == Next(old(View()), Cleared(id))
      ensures inFlight.None? && tasks == map[] && data == old(data)
    {
      hide Inv, DataFrom;
      NextInv(View(), Cleared(id));
      OnlyTask(View(), id);
      inFlight := None;
      tasks := tasks - {id};
    }

    method OnStreamOpen(id: nat)
      requires Valid() && Enabled(View(), StreamOpened(id))
      modifies this
      ensures Valid() && View() == Next(old(View()), StreamOpened(id))
      ensures poll.Some? && timers == map[poll.value := 1500] && streamActive
      ensures stream == Some(id) && sources == map[id := old(sources[id]).(hasOpened := true)]
    {
      hide Inv, StartPolling, DataFrom;
      NextInv(View(), StreamOpened(id));
      OpenedStream(View(), id);
      sources := sources[id := sources[id].(hasOpened := true)];
      streamActive := true;
      StartDashboardPolling(LIVE_POLL_MS);
    }

    /** A pushed snapshot is written exactly when no refresh is in flight and the gate accepts it. */
    method OnStreamSnapshot(id: nat, status: Option<Snapshot>, maps: bool)
      requires Valid() && Enabled(View(), StreamSnapshot(id, status, maps))
      modifies this
      ensures Valid() && View() == Next(old(View()), StreamSnapshot(id, status, maps))
      ensures data == if old(inFlight).None? && maps && !Keeps(old(data.rawStatus), status, true)
        then DataFrom(PushedPayload(old(sources[id]), status)) else old(data)
      ensures old(inFlight).None? && maps && !Keeps(old(data.rawStatus), status, true)
        ==> Shows(data, Payload(status, if old(sources[id].remote) then RemoteLiveSse else LiveSse, true))
      ensures inFlight.Some? && (old(inFlight).Some? ==> View() == old(View()))
      ensures old(inFlight).None? ==>
        tasks == map[inFlight.value :=
          if !maps && !Keeps(old(data.rawStatus), status, true) then Finishing else Settling(data.liveAvailable)]
    {
      hide Inv, DataFrom, Keeps, StartRefresh, Shows;
      CommitShows(PushedPayload(sources[id], status));
      NextInv(View(), StreamSnapshot(id, status, maps));
      StepWrites(View(), StreamSnapshot(id, status, maps));
      if inFlight.None? { JudgedSettles(View(), StreamSnapshot(id, status, maps)); }
      RefreshDashboardData(Some(Payload(status, if sources[id].remote then RemoteLiveSse else LiveSse, true)), maps);
    }

    method OnRuntimeResolved(resolved: Option<Runtime>)
      requires Valid()
      modifies `runtime
      ensures Valid() && View() == Next(old(View()), RuntimeResolved(resolved))
      ensures runtime == resolved
    {
      hide Inv;
      NextInv(View(), RuntimeResolved(resolved));
      runtime := resolved;
    }

    /** The page is being left: every stream is closed. */
    method OnUnload()
      requires Valid()
      modifies `sources
      ensures Valid() && View() == Next(old(View()), Unloading)
      ensures sources == map[]
    {
      hide Inv;
      NextInv(View(), Unloading);
      sources := map[];
    }

    /** The stream is closed and forgotten; if it never opened, the next one has to wait. */
    method OnStreamError(id: nat, now: nat)
      requires Valid() && Enabled(View(), StreamFailed(id, now))
      modifies this
      ensures Valid() && View() == Next(old(View()), StreamFailed(id, now))
      ensures sources == map[] && stream.None? && streamUrl.None? && !streamActive
      ensures retryAt == if old(sources[id].hasOpened) then old(retryAt) else Some(now + 30000)
    {
      hide Inv, DataFrom, BootLoadedStep, BootContinuedStep, BootReadyStep, FetchDoneStep, SettledStep,
        StreamOpenedStep, StartRefresh, StartPolling, SetupStream;
      assert id in sources && Next(View(), StreamFailed(id, now)) == StreamFailedStep(View(), id, now);
      hide Next, Enabled;
      NextInv(View(), StreamFailed(id, now));
      OnlySource(View(), id);
      streamActive := false;
      if !sources[id].hasOpened { retryAt := Some(now + RETRY_DELAY_MS); }
      sources := sources - {id};
      stream := None;
      streamUrl := None;
    }

    /** Dispatches one event to its handler. */
    method Handle(e: Event)
      requires Valid() && Enabled(View(), e)
      modifies this
      ensures Valid() && View() == Next(old(View()), e)
    {
      hide Inv, Next;
      match e
      case BootLoaded(p, maps) => OnBootLoaded(p, maps);
      case BootContinued => OnBootContinued();
      case BootReady(now) => OnBootReady(now);
      case RuntimeResolved(resolved) => OnRuntimeResolved(resolved);
      case TimerFired(id) => OnTimer(id);
      case Focused(hidden) => OnFocus(hidden);
      case FetchDone(id, p, maps) => OnFetchDone(id, p, maps);
      case Settled(id, now) => OnSettled(id, now);
      case Cleared(id) => OnCleared(id);
      case StreamOpened(id) => OnStreamOpen(id);
      case StreamFailed(id, now) => OnStreamError(id, now);
      case StreamSnapshot(id, status, maps) => OnStreamSnapshot(id, status, maps);
      case Unloading => OnUnload();
    }

    /** Runs any sequence of events that can happen one after the other, in whatever interleaving. The
        object stays valid and safe; from page load on, the data globals of a booted page are those
        of the payload committed last. */
    method Drive(events: seq<Event>)
      requires Valid() && Runs(View(), events)
      modifies this
      ensures Valid() && View() == Final(old(View()), events)
      ensures Safe(View())
      ensures data ==
        match LastCommit(old(View()), events)
        case None => old(data)
        case Some(p) => DataFrom(p)
      ensures LastCommit(old(View()), events).Some? ==> Shows(data, LastCommit(old(View()), events).value)
      ensures Initial(old(View())) && Booted(View()) ==> LastCommit(old(View()), events).Some?
    {
      hide Inv, Next, Enabled, Booted, Shows;
      DataIsLastCommit(View(), events);
      ghost var start := View();
      for i := 0 to |events|
        invariant Valid()
        invariant Runs(View(), events[i..]) && Final(View(), events[i..]) == Final(start, events)
      {
        assert events[i..][0] == events[i] && events[i..][1..] == events[i + 1..];
        Handle(events[i]);
      }
      InvIsSafe(View());
      if Initial(start) {
        AlwaysSafe(start, events);
      }
    }
  }
}
