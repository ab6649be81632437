/** Nobody sleeps through work: the wake-up protocol, and what holds when the exchange is at rest. */
module PipelineProgress {
  import opened DurableEngine
  import opened DurableRuns
  import opened Pipeline
  import opened PipelineInvariants
  import opened PipelineSafety
  import StreamSpec

  /** The gateway has found the response queue empty and goes to sleep unless woken. */
  predicate BeyondPop(g: GatewayPc) {
    || g == PendingCheck(true) || g.CheckClosed? || g.CheckSize? || g.Blocked?
    || (Admitting(g) && g.source == FromPending(true))
  }

  /** The gateway has looked at the stop flag for the last time before it sleeps. */
  predicate BeyondStop(g: GatewayPc) {
    BeyondPop(g) || g == PopResponse(true) || g == Release(true)
  }

  ghost predicate ResponsesWake(h: Shared, g: GatewayPc, w: WorkerPc) {
    && (BeyondPop(g) && h.responses.items != [] ==> h.signal || w.Notifying?)
    && (g.Blocked? && h.responses.closed ==> h.signal || w.LastNotify?)
  }

  ghost predicate StopWakesUp(h: Shared, g: GatewayPc, started: bool, w: WorkerPc) {
    h.stopRequested && !started && BeyondStop(g) ==> h.signal || h.stopsWaking > 0 || w.WakeFailed?
  }

  /** Requests are held back only while some response is still to come, or the engine has failed. */
  ghost predicate HeldBack(h: Shared, g: Gateway) {
    && (g.readsPaused && !g.shutdownStarted ==> g.pending != [])
    && ((g.pc.CheckClosed? || g.pc.CheckSize? || g.pc.Blocked?) && g.pending != [] ==> 0 < h.inFlight || h.engineFailed)
  }

  ghost predicate Woken(s: State) {
    && ResponsesWake(s.shared, s.gateway.pc, s.worker.pc)
    && StopWakesUp(s.shared, s.gateway.pc, s.gateway.shutdownStarted, s.worker.pc)
    && HeldBack(s.shared, s.gateway)
  }

  // ---------- Every step keeps it ----------

  lemma RetainKeepsSome(pending: seq<Pending>, connection: nat, rest: seq<StreamSpec.Request>)
    ensures pending <= Retain(pending, connection, rest)
    ensures |pending| < MAXIMUM_PENDING_REQUESTS && rest != [] ==> Retain(pending, connection, rest) != []
    decreases |rest|
  {
  }

  lemma AdmitFailedHoldsBack(h: Shared, g: Gateway, source: Source)
    requires Admitting(g.pc) && g.pc.source == source && Paused(g)
    requires 0 < h.inFlight || h.engineFailed
    ensures HeldBack(h, AdmitFailed(g, source))
    ensures AdmitFailed(g, source).pc == if source.FromPending? then AfterPending(source.top) else Sockets
  {
    hide Retain, MarkClosing;
    if source.FromReceive? {
      RetainKeepsSome(g.pending, source.connection, source.rest);
    }
  }

  lemma NextPendingHoldsBack(h: Shared, g: Gateway, top: bool)
    ensures HeldBack(h, NextPending(g, top))
    ensures var pc := NextPending(g, top).pc; pc == AfterPending(top) || pc == AdmitLoad(FromPending(top))
    ensures NextPending(g, top).shutdownStarted == g.shutdownStarted
  {
    hide SkipDead;
  }

  lemma AdmitSucceededHoldsBack(h: Shared, g: Gateway, source: Source)
    requires Admitting(g.pc) && g.pc.source == source && Paused(g)
    ensures HeldBack(h, AdmitSucceeded(g, source))
    ensures var pc := AdmitSucceeded(g, source).pc;
            if source.FromPending? then pc == AfterPending(source.top) || pc == AdmitLoad(source)
            else pc.Sockets? || (pc.AdmitLoad? && pc.source.FromReceive?)
  {
    hide NextPending, MarkClosing;
    if source.FromPending? {
      NextPendingHoldsBack(h, g.(pending := g.pending[1..]), source.top);
    }
  }

  /** A request that is refused a slot or a place leaves another one in flight. */
  lemma RefusalHasReason(s: State, config: Config)
    requires Safe(s, config) && ValidConfig(config) && Admitting(s.gateway.pc)
    ensures s.gateway.pc.AdmitUndo? ==> 1 < s.shared.inFlight
    ensures !s.gateway.shutdownStarted
  {
    hide Announced, Batches, Ordered, Paused, Unpublished;
  }

  lemma AdmitKeepsHeldBack(s: State, config: Config)
    requires Safe(s, config) && ValidConfig(config) && Admitting(s.gateway.pc) && Woken(s)
    ensures var s' := AdmitStep(s, config); HeldBack(s'.shared, s'.gateway)
  {
    hide AdmitFailed, AdmitSucceeded, Candidate, Slots, Shutdown, Ordered, Announced, Batches, ResponsesWake,
         StopWakesUp;
    var s' := AdmitStep(s, config);
    RefusalHasReason(s, config);
    AdmitSucceededHoldsBack(s'.shared, s.gateway, s.gateway.pc.source);
    if 0 < s'.shared.inFlight || s'.shared.engineFailed {
      AdmitFailedHoldsBack(s'.shared, s.gateway, s.gateway.pc.source);
    }
  }

  lemma AdmitKeepsWakes(s: State, config: Config)
    requires Safe(s, config) && ValidConfig(config) && Admitting(s.gateway.pc) && Woken(s)
    ensures var s' := AdmitStep(s, config);
            && ResponsesWake(s'.shared, s'.gateway.pc, s'.worker.pc)
            && StopWakesUp(s'.shared, s'.gateway.pc, s'.gateway.shutdownStarted, s'.worker.pc)
  {
    hide AdmitFailed, AdmitSucceeded, Candidate, Slots, Shutdown, Ordered, Announced, Batches, HeldBack;
    RefusalHasReason(s, config);
    AdmitSucceededHoldsBack(s.shared, s.gateway, s.gateway.pc.source);
    AdmitFailedHoldsBack(s.shared.(inFlight := 1), s.gateway, s.gateway.pc.source);
  }

  lemma ClosingIsShutdown(s: State, config: Config)
    requires Safe(s, config)
    ensures s.shared.responses.closed ==> s.gateway.shutdownStarted && !s.worker.pc.Notifying?
    ensures s.gateway.pc.CheckSize? ==> s.shared.responses.closed
    ensures s.gateway.pc.CloseRequests? ==> s.gateway.shutdownStarted
  {
    hide Announced, Batches, Ordered, Unpublished, Paused, Slots;
  }

  lemma GatewayKeepsResponsesWake(s: State, config: Config)
    requires Safe(s, config) && !Admitting(s.gateway.pc) && Woken(s)
    ensures var s' := GatewayStep(s, config); ResponsesWake(s'.shared, s'.gateway.pc, s'.worker.pc)
  {
    hide AdmitStep, NextPending, Deliver, Safe, HeldBack, StopWakesUp;
    NextPendingPcs(s.gateway);
    ClosingIsShutdown(s, config);
  }

  lemma GatewayKeepsStopWakes(s: State, config: Config)
    requires Safe(s, config) && !Admitting(s.gateway.pc) && Woken(s)
    ensures var s' := GatewayStep(s, config);
            StopWakesUp(s'.shared, s'.gateway.pc, s'.gateway.shutdownStarted, s'.worker.pc)
  {
    hide AdmitStep, NextPending, Deliver, Safe, HeldBack, ResponsesWake;
    NextPendingPcs(s.gateway);
    ClosingIsShutdown(s, config);
  }

  lemma GatewayKeepsHeldBack(s: State, config: Config)
    requires Safe(s, config) && !Admitting(s.gateway.pc) && Woken(s)
    ensures var s' := GatewayStep(s, config); HeldBack(s'.shared, s'.gateway)
  {
    hide AdmitStep, NextPending, Deliver, Announced, Batches, Ordered, Unpublished, Slots, ResponsesWake, StopWakesUp,
         Shutdown;
    if s.gateway.pc.PendingCheck? {
      NextPendingHoldsBack(s.shared, s.gateway, s.gateway.pc.top);
    }
  }

  lemma SocketsKeepWoken(s: State, event: SocketEvent, config: Config)
    requires Safe(s, config) && Woken(s)
    ensures Woken(s.(gateway := SocketStep(s.gateway, event, config)))
  {
    hide Announced, Batches, Ordered, StreamSpec.Feed, MarkClosing, Slots, Shutdown;
  }

  lemma WorkerKeepsWoken(s: State, io: BatchIo, config: Config)
    requires Safe(s, config) && Woken(s)
    ensures Woken(WorkerStep(s, io, config))
  {
    hide Batches, Ordered, ExecuteStep, Refusals, Slots, Paused;
    if s.worker.pc.Ready? {
      ExecuteFacts(s.worker, s.worker.pc.batch, io);
    }
    if s.worker.pc.Publishing? {
      PublishFindsRoom(s, config);
    }
  }

  lemma NextKeepsWoken(s: State, action: Action, config: Config)
    requires Safe(s, config) && ValidConfig(config) && Woken(s)
    ensures Woken(Next(s, action, config))
  {
    hide Safe, GatewayStep, SocketStep, WorkerStep;
    match action
    case GatewayMoves => GatewayKeepsWoken(s, config);
    case SocketActs(event) => SocketsKeepWoken(s, event, config);
    case WorkerMoves(io) => WorkerKeepsWoken(s, io, config);
    case StopStored =>
    case StopWakes =>
  }

  lemma GatewayKeepsWoken(s: State, config: Config)
    requires Safe(s, config) && ValidConfig(config) && Woken(s)
    ensures Woken(GatewayStep(s, config))
  {
    hide Safe, AdmitStep, NextPending, Deliver, ResponsesWake, StopWakesUp, HeldBack;
    if Admitting(s.gateway.pc) {
      AdmitKeepsHeldBack(s, config);
      AdmitKeepsWakes(s, config);
    } else {
      GatewayKeepsHeldBack(s, config);
      GatewayKeepsResponsesWake(s, config);
      GatewayKeepsStopWakes(s, config);
    }
  }

  lemma {:induction false} RunKeepsWoken(s: State, actions: seq<Action>, config: Config)
    requires Safe(s, config) && Woken(s) && ValidConfig(config)
    ensures Safe(Behave(s, actions, config), config) && Woken(Behave(s, actions, config))
  {
    hide Safe, Woken, Next;
    if actions != [] {
      var before := Behave(s, actions[..|actions| - 1], config);
      RunKeepsWoken(s, actions[..|actions| - 1], config);
      NextKeepsSafe(before, actions[|actions| - 1], config);
      NextKeepsWoken(before, actions[|actions| - 1], config);
    }
  }

  lemma InitIsWoken(world: World)
    ensures Woken(Init(world))
  {
  }

  lemma {:induction false} EveryRunWakes(world: World, actions: seq<Action>, config: Config)
    requires ValidConfig(config)
    ensures Woken(Behave(Init(world), actions, config))
  {
    hide Safe, Woken, Behave, Init;
    InitIsSafe(world, config);
    InitIsWoken(world);
    RunKeepsWoken(Init(world), actions, config);
  }

  /** Whenever the gateway is about to sleep unsignalled, whoever has news for it is about to signal. */
  lemma {:induction false} SleepIsWoken(world: World, actions: seq<Action>, config: Config)
    requires ValidConfig(config)
    requires var s := Behave(Init(world), actions, config); s.gateway.pc.Blocked? && !s.shared.signal
    ensures var s := Behave(Init(world), actions, config);
            && (s.shared.responses.items != [] ==> s.worker.pc.Notifying?)
            && (s.shared.responses.closed ==> s.worker.pc.LastNotify?)
            && (s.shared.stopRequested && !s.gateway.shutdownStarted ==>
                  s.shared.stopsWaking > 0 || s.worker.pc.WakeFailed?)
            && (s.gateway.pending != [] && !s.shared.engineFailed ==>
                  s.shared.requests.items != [] || Unpublished(s.worker.pc) != [] || s.worker.pc.Notifying?)
  {
    hide Behave, Init;
    EveryRunIsSafe(world, actions, config);
    EveryRunWakes(world, actions, config);
  }

  // ---------- At rest ----------

  /** Neither thread can go on by itself: only a socket or a request to stop can change anything. */
  predicate AtRest(s: State) {
    && s.gateway.pc.Blocked? && !s.shared.signal && s.shared.stopsWaking == 0
    && (s.worker.pc.Finished? || (s.worker.pc.Waiting? && s.shared.requests.items == [] && !s.shared.requests.closed))
  }

  /**
   The exchange sleeps only when there is nothing to do: every admitted request has been
   answered and its response taken, no parsed request waits, reading goes on, no stop has
   been asked for and the engine has not failed.
   */
  lemma {:induction false} RestMeansNoWork(world: World, actions: seq<Action>, config: Config)
    requires ValidConfig(config) && AtRest(Behave(Init(world), actions, config))
    ensures var s := Behave(Init(world), actions, config);
            && s.shared.inFlight == 0 && |s.answered| == |s.admitted| && s.shared.responses.items == []
            && s.gateway.pending == [] && !s.gateway.readsPaused
            && !s.shared.stopRequested && !s.gateway.shutdownStarted && !s.worker.failed
  {
    hide Behave, Init;
    EveryRunIsSafe(world, actions, config);
    EveryRunWakes(world, actions, config);
  }
}
