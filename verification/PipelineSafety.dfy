/** What every interleaving of the exchange keeps true of its queues, slots and flags. */
module PipelineInvariants {
  import opened GatewayTypes
  import opened Pipeline

  /** The requests the worker holds and has not answered yet. */
  function Unpublished(w: WorkerPc): seq<EngineRequest> {
    match w
    case Collecting(batch) => batch
    case Ready(batch) => batch
    case StoreFailed(batch) => batch
    case StoreStop(batch) => batch
    case WakeFailed(batch) => batch
    case Publishing(batch, _) => batch
    case Notifying(batch, _) => batch
    case _ => []
  }

  predicate Admitting(g: GatewayPc) {
    g.AdmitLoad? || g.AdmitAcquire? || g.AdmitPush? || g.AdmitUndo?
  }

  predicate Ending(w: WorkerPc) {
    w.CloseResponses? || w.LastNotify? || w.Finished?
  }

  /** The slot the gateway holds itself: of a request being admitted, or of a response being drained. */
  function Held(g: GatewayPc): nat {
    if g.AdmitPush? || g.AdmitUndo? || g.Release? then 1 else 0
  }

  /** Every slot in use belongs to one request: queued, with the worker, answered, or with the gateway. */
  ghost predicate Slots(h: Shared, g: GatewayPc, w: WorkerPc, config: Config) {
    && h.inFlight == |h.requests.items| + |Unpublished(w)| + |h.responses.items| + Held(g)
    && h.inFlight <= config.maximumInFlight
    && |h.requests.items| <= config.requestCapacity
    && (g.AdmitUndo? ==> h.inFlight >= 2)
  }

  /** The worker's batches are never empty and never too long; replies and requests stay paired. */
  ghost predicate Batches(w: WorkerPc, config: Config) {
    && |Unpublished(w)| <= config.maximumBatch
    && (w.Collecting? || w.Ready? || w.StoreFailed? || w.StoreStop? || w.WakeFailed? || w.Publishing? ==> w.batch != [])
    && (w.Publishing? || w.Notifying? ==> |w.replies| == |w.batch|)
  }

  /** Who closes which queue, and when; nothing aborts. */
  ghost predicate Shutdown(h: Shared, g: GatewayPc, started: bool, w: WorkerPc) {
    && (h.requests.closed ==> started)
    && (started ==> h.requests.closed || g.CloseRequests?)
    && (g.CloseRequests? ==> started)
    && (Admitting(g) ==> !started)
    && (Ending(w) ==> h.requests.closed && h.requests.items == [])
    && (h.responses.closed <==> w.LastNotify? || w.Finished?)
    && (g.CheckSize? ==> h.responses.closed)
    && (g.Done? ==> h.responses.closed && h.responses.items == [])
    && !w.Terminated? && !g.Aborted?
  }

  /** Requests are answered in the order of their admission, each once. */
  ghost predicate Ordered(h: Shared, w: WorkerPc, admitted: seq<EngineRequest>, answered: seq<EngineResponse>) {
    && |h.responses.items| <= |answered| <= |admitted|
    && admitted[|answered|..] == Unpublished(w) + h.requests.items
    && h.responses.items == answered[|answered| - |h.responses.items|..]
  }

  /** A failure is announced in a fixed order, and announced completely. */
  ghost predicate Announced(h: Shared, w: WorkerPc, failed: bool) {
    && (failed <==> h.engineFailed || w.StoreFailed?)
    && (h.engineFailed ==> h.stopRequested || w.StoreStop?)
    && (w.StoreFailed? ==> !h.engineFailed)
    && (w.StoreStop? || w.WakeFailed? ==> failed)
  }

  /** Reads go on only while nothing is pending. */
  ghost predicate Paused(g: Gateway) {
    && (g.pending != [] ==> g.readsPaused)
    && (g.shutdownStarted ==> g.pending == [])
    && (Admitting(g.pc) && g.pc.source.FromPending? ==> g.pending != [])
    && (Admitting(g.pc) && g.pc.source.FromReceive? ==> g.pc.source.rest != [] && g.pending == [] && !g.readsPaused)
  }

  ghost predicate Safe(s: State, config: Config) {
    && Slots(s.shared, s.gateway.pc, s.worker.pc, config)
    && Batches(s.worker.pc, config)
    && Shutdown(s.shared, s.gateway.pc, s.gateway.shutdownStarted, s.worker.pc)
    && Ordered(s.shared, s.worker.pc, s.admitted, s.answered)
    && Announced(s.shared, s.worker.pc, s.worker.failed)
    && Paused(s.gateway)
  }
}

module PipelineSafety {
  import opened Domain
  import opened GatewayTypes
  import opened DurableEngine
  import opened DurableRuns
  import opened Pipeline
  import opened PipelineInvariants
  import JournalStorage
  import StreamSpec

  // ---------- The gateway's own steps ----------

  lemma NextPendingIsPaused(g: Gateway, top: bool)
    requires (g.pending != [] ==> g.readsPaused) && !g.shutdownStarted
    ensures var g' := NextPending(g, top);
            && Paused(g') && g'.shutdownStarted == g.shutdownStarted
            && (g'.pc == AfterPending(top) || g'.pc == AdmitLoad(FromPending(top)))
  {
  }

  lemma NextPendingPcs(g: Gateway)
    ensures g.pc.PendingCheck? ==>
              var g' := NextPending(g, g.pc.top);
              && g'.shutdownStarted == g.shutdownStarted
              && (g'.pc == AfterPending(g.pc.top) || g'.pc == AdmitLoad(FromPending(g.pc.top)))
  {
  }

  lemma AdmitFailedIsPaused(g: Gateway, source: Source)
    requires Admitting(g.pc) && g.pc.source == source && Paused(g) && !g.shutdownStarted
    ensures var g' := AdmitFailed(g, source);
            && Paused(g') && g'.shutdownStarted == g.shutdownStarted && (g'.pc.CheckClosed? || g'.pc.Sockets?)
  {
    hide Retain, MarkClosing;
  }

  lemma AdmitSucceededIsPaused(g: Gateway, source: Source)
    requires Admitting(g.pc) && g.pc.source == source && Paused(g) && !g.shutdownStarted
    ensures var g' := AdmitSucceeded(g, source);
            && Paused(g') && g'.shutdownStarted == g.shutdownStarted
            && (g'.pc.CheckClosed? || g'.pc.Sockets? || g'.pc.AdmitLoad?)
  {
    hide MarkClosing, NextPending;
    match source
    case FromPending(top) => NextPendingIsPaused(g.(pending := g.pending[1..]), top);
    case FromReceive(_, _, _) =>
  }

  lemma AdmitPcs(s: State, config: Config)
    requires Safe(s, config) && Admitting(s.gateway.pc)
    ensures var (g, source) := (s.gateway, s.gateway.pc.source);
            && Candidate(g, source).Some? && !s.shared.requests.closed
            && Held(AdmitFailed(g, source).pc) == 0 && !AdmitFailed(g, source).pc.AdmitUndo?
            && Held(AdmitSucceeded(g, source).pc) == 0 && !AdmitSucceeded(g, source).pc.AdmitUndo?
  {
    hide AdmitFailed, AdmitSucceeded, ToEngineRequest, Announced, Batches, Ordered, Slots;
    AdmitFailedIsPaused(s.gateway, s.gateway.pc.source);
    AdmitSucceededIsPaused(s.gateway, s.gateway.pc.source);
  }

  lemma AdmitKeepsSlots(s: State, config: Config)
    requires Safe(s, config) && Admitting(s.gateway.pc) && ValidConfig(config)
    ensures var s' := AdmitStep(s, config); Slots(s'.shared, s'.gateway.pc, s'.worker.pc, config)
  {
    hide AdmitFailed, AdmitSucceeded, Candidate, Announced, Batches, Ordered, Unpublished, Paused, Shutdown;
    AdmitPcs(s, config);
  }

  lemma AdmitKeepsShutdown(s: State, config: Config)
    requires Safe(s, config) && Admitting(s.gateway.pc) && ValidConfig(config)
    ensures var s' := AdmitStep(s, config);
            Shutdown(s'.shared, s'.gateway.pc, s'.gateway.shutdownStarted, s'.worker.pc) && Paused(s'.gateway)
  {
    hide AdmitFailed, AdmitSucceeded, ToEngineRequest, Announced, Batches, Ordered, Unpublished;
    AdmitFailedIsPaused(s.gateway, s.gateway.pc.source);
    AdmitSucceededIsPaused(s.gateway, s.gateway.pc.source);
  }

  lemma AdmitKeepsOrder(s: State, config: Config)
    requires Safe(s, config) && Admitting(s.gateway.pc)
    ensures var s' := AdmitStep(s, config); Ordered(s'.shared, s'.worker.pc, s'.admitted, s'.answered)
  {
    hide AdmitFailed, AdmitSucceeded, ToEngineRequest, Announced, Batches, Slots, Shutdown, Paused, Unpublished;
  }

  lemma AdmitKeepsSafe(s: State, config: Config)
    requires Safe(s, config) && Admitting(s.gateway.pc) && ValidConfig(config)
    ensures Safe(AdmitStep(s, config), config)
  {
    hide AdmitFailed, AdmitSucceeded, Candidate, Announced, Batches, Slots, Shutdown, Ordered, Paused;
    AdmitKeepsSlots(s, config);
    AdmitKeepsShutdown(s, config);
    AdmitKeepsOrder(s, config);
    AdmitLeavesWorker(s, config);
  }

  lemma AdmitLeavesWorker(s: State, config: Config)
    requires Admitting(s.gateway.pc) && Announced(s.shared, s.worker.pc, s.worker.failed)
    ensures var s' := AdmitStep(s, config);
            s'.worker == s.worker && Announced(s'.shared, s'.worker.pc, s'.worker.failed)
  {
    hide AdmitFailed, AdmitSucceeded, Candidate;
  }

  lemma SlotsDependOnCounts(h: Shared, g: GatewayPc, h': Shared, g': GatewayPc, w: WorkerPc, config: Config)
    requires Slots(h, g, w, config)
    requires |h'.requests.items| == |h.requests.items|
    requires h'.inFlight <= h.inFlight
    requires h'.inFlight - |h'.responses.items| - Held(g') == h.inFlight - |h.responses.items| - Held(g)
    requires !g'.AdmitUndo?
    ensures Slots(h', g', w, config)
  {
  }

  lemma GatewayKeepsSlots(s: State, config: Config)
    requires Safe(s, config) && !Admitting(s.gateway.pc)
    ensures var s' := GatewayStep(s, config); Slots(s'.shared, s'.gateway.pc, s'.worker.pc, config)
  {
    hide AdmitStep, NextPending, Deliver, Announced, Batches, Ordered, Slots, Paused, Shutdown, Unpublished;
    var s' := GatewayStep(s, config);
    NextPendingPcs(s.gateway);
    ReleaseHasSlot(s, config);
    if s.gateway.pc.PopResponse? && s.shared.responses.items != [] {
      assert |s'.shared.responses.items| == |s.shared.responses.items| - 1 && Held(s'.gateway.pc) == 1;
    } else if s.gateway.pc.Release? {
      assert s'.shared.inFlight == s.shared.inFlight - 1 && Held(s'.gateway.pc) == 0;
    } else {
      assert s'.shared.inFlight == s.shared.inFlight && s'.shared.responses.items == s.shared.responses.items;
      assert Held(s'.gateway.pc) == 0;
    }
    SlotsDependOnCounts(s.shared, s.gateway.pc, s'.shared, s'.gateway.pc, s.worker.pc, config);
  }

  lemma ReleaseHasSlot(s: State, config: Config)
    requires Safe(s, config)
    ensures s.gateway.pc.Release? ==> 0 < s.shared.inFlight
  {
    hide Announced, Batches, Ordered, Paused, Shutdown, Unpublished;
  }

  lemma GatewayKeepsShutdown(s: State, config: Config)
    requires Safe(s, config) && !Admitting(s.gateway.pc)
    ensures var s' := GatewayStep(s, config);
            Shutdown(s'.shared, s'.gateway.pc, s'.gateway.shutdownStarted, s'.worker.pc)
  {
    hide AdmitStep, NextPending, Deliver, Announced, Batches, Ordered, Unpublished, Paused, Slots;
    NextPendingPcs(s.gateway);
    ReleaseHasSlot(s, config);
  }

  lemma GatewayKeepsOrder(s: State, config: Config)
    requires Safe(s, config) && !Admitting(s.gateway.pc)
    ensures var s' := GatewayStep(s, config); Ordered(s'.shared, s'.worker.pc, s'.admitted, s'.answered)
  {
    hide AdmitStep, Deliver, Announced, Batches, Unpublished, Paused, Shutdown, Slots, NextPending, Ordered;
    var s' := GatewayStep(s, config);
    if s.gateway.pc.PopResponse? && s.shared.responses.items != [] {
      PopKeepsOrder(s.shared, s.worker.pc, s.admitted, s.answered);
    } else {
      OrderDependsOnQueues(s.shared, s.worker.pc, s'.shared, s'.worker.pc, s);
    }
  }

  lemma PopKeepsOrder(h: Shared, w: WorkerPc, admitted: seq<EngineRequest>, answered: seq<EngineResponse>)
    requires Ordered(h, w, admitted, answered) && h.responses.items != []
    ensures Ordered(h.(responses := h.responses.(items := h.responses.items[1..])), w, admitted, answered)
  {
    hide Unpublished;
  }

  lemma GatewayKeepsPaused(s: State, config: Config)
    requires Safe(s, config) && !Admitting(s.gateway.pc)
    ensures var s' := GatewayStep(s, config);
            && Paused(s'.gateway) && s'.worker == s.worker
            && Announced(s'.shared, s'.worker.pc, s'.worker.failed)
  {
    hide AdmitStep, SkipDead, Deliver, Announced, Batches, Unpublished, Ordered, Shutdown, Slots, NextPending;
    if s.gateway.pc.PendingCheck? && !s.gateway.shutdownStarted {
      NextPendingIsPaused(s.gateway, s.gateway.pc.top);
    }
    AnnouncedDependsOnFlags(s.shared, GatewayStep(s, config).shared, s.worker.pc, s.worker.failed);
  }

  lemma AnnouncedDependsOnFlags(h: Shared, h': Shared, w: WorkerPc, failed: bool)
    ensures h'.engineFailed == h.engineFailed && h'.stopRequested == h.stopRequested ==>
              (Announced(h', w, failed) <==> Announced(h, w, failed))
  {
  }

  lemma GatewayKeepsSafe(s: State, config: Config)
    requires Safe(s, config) && ValidConfig(config)
    ensures Safe(GatewayStep(s, config), config)
  {
    hide Announced, Batches, Slots, Shutdown, Ordered, Paused, NextPending, AdmitStep, Deliver;
    if Admitting(s.gateway.pc) {
      AdmitKeepsSafe(s, config);
    } else {
      GatewayKeepsSlots(s, config);
      GatewayKeepsShutdown(s, config);
      GatewayKeepsOrder(s, config);
      GatewayKeepsPaused(s, config);
    }
  }

  // ---------- Sockets ----------

  lemma SocketsKeepSafe(s: State, event: SocketEvent, config: Config)
    requires Safe(s, config)
    ensures Safe(s.(gateway := SocketStep(s.gateway, event, config)), config)
  {
    hide Announced, Batches, Ordered, StreamSpec.Feed, MarkClosing;
  }

  // ---------- The worker ----------

  /** The engine returns one result per command, so executing a batch never aborts. */
  lemma {:induction false} OutcomeIsComplete(world: World, cs: seq<Command>, io: BatchIo)
    ensures Outcome(world, cs, io).Applied? ==> |Outcome(world, cs, io).results| == |cs|
  {
    hide JournalStorage.AppendBatch;
  }

  lemma ExecuteFacts(w: Worker, batch: seq<EngineRequest>, io: BatchIo)
    ensures var pc := ExecuteStep(w, batch, io).pc;
            && Unpublished(pc) == batch && (pc.Publishing? || pc.StoreFailed?)
            && (pc.Publishing? ==> |pc.replies| == |batch|)
            && (pc.StoreFailed? <==> !w.failed && ExecuteStep(w, batch, io).failed)
            && (w.failed ==> ExecuteStep(w, batch, io).failed)
  {
    hide Outcome, BatchStep, Summaries, Refusals, Commands;
    OutcomeIsComplete(w.world, Commands(batch), io);
  }

  /** A reply always finds room in the open response queue. */
  lemma {:induction false} PublishFindsRoom(s: State, config: Config)
    requires Safe(s, config) && s.worker.pc.Publishing?
    ensures !s.shared.responses.closed && |s.shared.responses.items| < config.maximumInFlight
    ensures s.worker.pc.batch != [] && s.worker.pc.replies != []
  {
    hide Announced, Ordered, Paused;
  }

  lemma WorkerSlotsDependOnCounts(h: Shared, w: WorkerPc, h': Shared, w': WorkerPc, g: GatewayPc, config: Config)
    requires Slots(h, g, w, config)
    requires h'.inFlight == h.inFlight && |h'.requests.items| <= |h.requests.items|
    requires |h'.requests.items| + |Unpublished(w')| + |h'.responses.items|
             == |h.requests.items| + |Unpublished(w)| + |h.responses.items|
    ensures Slots(h', g, w', config)
  {
  }

  lemma WorkerKeepsSlots(s: State, io: BatchIo, config: Config)
    requires Safe(s, config)
    ensures var s' := WorkerStep(s, io, config); Slots(s'.shared, s'.gateway.pc, s'.worker.pc, config)
  {
    hide Announced, Ordered, Paused, Shutdown, ExecuteStep, Refusals, Held, Batches, Slots;
    var s' := WorkerStep(s, io, config);
    if s.worker.pc.Ready? {
      ExecuteFacts(s.worker, s.worker.pc.batch, io);
    }
    if s.worker.pc.Publishing? {
      PublishFindsRoom(s, config);
    }
    WorkerSlotsDependOnCounts(s.shared, s.worker.pc, s'.shared, s'.worker.pc, s.gateway.pc, config);
  }

  lemma WorkerKeepsBatches(s: State, io: BatchIo, config: Config)
    requires Safe(s, config) && ValidConfig(config)
    ensures Batches(WorkerStep(s, io, config).worker.pc, config)
  {
    hide Announced, Ordered, Paused, Shutdown, ExecuteStep, Refusals, Slots;
    if s.worker.pc.Ready? {
      ExecuteFacts(s.worker, s.worker.pc.batch, io);
    }
  }

  lemma WorkerKeepsShutdown(s: State, io: BatchIo, config: Config)
    requires Safe(s, config)
    ensures var s' := WorkerStep(s, io, config);
            Shutdown(s'.shared, s'.gateway.pc, s'.gateway.shutdownStarted, s'.worker.pc)
  {
    hide Announced, Ordered, Paused, ExecuteStep, Refusals, Slots, Batches;
    if s.worker.pc.Ready? {
      ExecuteFacts(s.worker, s.worker.pc.batch, io);
    }
    if s.worker.pc.Publishing? {
      PublishFindsRoom(s, config);
    }
  }

  /** Taking a request from the queue into the batch. */
  lemma TakeKeepsOrder(
    h: Shared, w: WorkerPc, admitted: seq<EngineRequest>, answered: seq<EngineResponse>, w': WorkerPc)
    requires Ordered(h, w, admitted, answered) && h.requests.items != []
    requires Unpublished(w') == Unpublished(w) + [h.requests.items[0]]
    ensures Ordered(h.(requests := h.requests.(items := h.requests.items[1..])), w', admitted, answered)
  {
    hide Unpublished;
    assert h.requests.items == [h.requests.items[0]] + h.requests.items[1..];
  }

  lemma PublishKeepsOrder(
    h: Shared, w: WorkerPc, admitted: seq<EngineRequest>, answered: seq<EngineResponse>, reply: EngineResponse,
    w': WorkerPc)
    requires Ordered(h, w, admitted, answered)
    requires Unpublished(w) != [] && Unpublished(w') == Unpublished(w)[1..]
    ensures var h' := h.(responses := h.responses.(items := h.responses.items + [reply]));
            Ordered(h', w', admitted, answered + [reply])
  {
    hide Unpublished;
    assert admitted[|answered| + 1..] == admitted[|answered|..][1..];
  }

  lemma WorkerKeepsOrder(s: State, io: BatchIo, config: Config)
    requires Safe(s, config)
    ensures var s' := WorkerStep(s, io, config); Ordered(s'.shared, s'.worker.pc, s'.admitted, s'.answered)
  {
    hide Announced, Paused, ExecuteStep, Refusals, Slots, Batches, Shutdown, Ordered;
    var s' := WorkerStep(s, io, config);
    match s.worker.pc
    case Waiting => WorkerTakes(s, io, config);
    case Collecting(_) => WorkerTakes(s, io, config);
    case Ready(batch) =>
      ExecuteFacts(s.worker, batch, io);
      OrderDependsOnQueues(s.shared, s.worker.pc, s'.shared, s'.worker.pc, s);
    case Publishing(batch, replies) =>
      PublishFindsRoom(s, config);
      PublishKeepsOrder(s.shared, s.worker.pc, s.admitted, s.answered, replies[0], s'.worker.pc);
    case _ => OrderDependsOnQueues(s.shared, s.worker.pc, s'.shared, s'.worker.pc, s);
  }

  lemma WorkerTakes(s: State, io: BatchIo, config: Config)
    requires s.worker.pc.Waiting? || s.worker.pc.Collecting?
    requires Ordered(s.shared, s.worker.pc, s.admitted, s.answered)
    ensures var s' := WorkerStep(s, io, config); Ordered(s'.shared, s'.worker.pc, s'.admitted, s'.answered)
  {
    hide Ordered;
    var s' := WorkerStep(s, io, config);
    if s'.shared == s.shared {
      OrderDependsOnQueues(s.shared, s.worker.pc, s'.shared, s'.worker.pc, s);
    } else {
      TakeKeepsOrder(s.shared, s.worker.pc, s.admitted, s.answered, s'.worker.pc);
    }
  }

  lemma OrderDependsOnQueues(h: Shared, w: WorkerPc, h': Shared, w': WorkerPc, s: State)
    requires h'.requests.items == h.requests.items && h'.responses.items == h.responses.items
    requires Unpublished(w') == Unpublished(w)
    requires Ordered(h, w, s.admitted, s.answered)
    ensures Ordered(h', w', s.admitted, s.answered)
  {
  }

  lemma WorkerKeepsAnnounced(s: State, io: BatchIo, config: Config)
    requires Safe(s, config)
    ensures var s' := WorkerStep(s, io, config);
            Announced(s'.shared, s'.worker.pc, s'.worker.failed) && s'.gateway == s.gateway
  {
    hide Ordered, Paused, ExecuteStep, Refusals, Slots, Batches, Shutdown;
    if s.worker.pc.Ready? {
      ExecuteFacts(s.worker, s.worker.pc.batch, io);
    }
  }

  lemma WorkerKeepsSafe(s: State, io: BatchIo, config: Config)
    requires Safe(s, config) && ValidConfig(config)
    ensures Safe(WorkerStep(s, io, config), config)
  {
    hide Announced, Batches, Slots, Shutdown, Ordered, Paused, WorkerStep;
    WorkerKeepsSlots(s, io, config);
    WorkerKeepsBatches(s, io, config);
    WorkerKeepsShutdown(s, io, config);
    WorkerKeepsOrder(s, io, config);
    WorkerKeepsAnnounced(s, io, config);
  }

  // ---------- Every run ----------

  lemma NextKeepsSafe(s: State, action: Action, config: Config)
    requires Safe(s, config) && ValidConfig(config)
    ensures Safe(Next(s, action, config), config)
  {
    hide GatewayStep, SocketStep, WorkerStep, Ordered, Paused, Batches;
    match action
    case GatewayMoves => GatewayKeepsSafe(s, config);
    case SocketActs(event) => SocketsKeepSafe(s, event, config);
    case WorkerMoves(io) => WorkerKeepsSafe(s, io, config);
    case StopStored => OrderDependsOnQueues(s.shared, s.worker.pc, Next(s, action, config).shared, s.worker.pc, s);
    case StopWakes => OrderDependsOnQueues(s.shared, s.worker.pc, Next(s, action, config).shared, s.worker.pc, s);
  }

  lemma {:induction false} RunKeepsSafe(s: State, actions: seq<Action>, config: Config)
    requires Safe(s, config) && ValidConfig(config)
    ensures Safe(Behave(s, actions, config), config)
  {
    hide Safe, Next;
    if actions != [] {
      RunKeepsSafe(s, actions[..|actions| - 1], config);
      NextKeepsSafe(Behave(s, actions[..|actions| - 1], config), actions[|actions| - 1], config);
    }
  }

  lemma InitIsSafe(world: World, config: Config)
    ensures Safe(Init(world), config)
  {
  }

  /** In every interleaving the slots add up, replies find room, and order is kept. */
  lemma {:induction false} EveryRunIsSafe(world: World, actions: seq<Action>, config: Config)
    requires ValidConfig(config)
    ensures Safe(Behave(Init(world), actions, config), config)
  {
    hide Safe, Behave, Init;
    InitIsSafe(world, config);
    RunKeepsSafe(Init(world), actions, config);
  }
}
