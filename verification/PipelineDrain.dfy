/** Shutting down ends: once the request queue is closed, both threads finish after boundedly many moves. */
module PipelineDrain {
  import opened DurableEngine
  import opened DurableRuns
  import opened Pipeline
  import opened PipelineInvariants
  import opened PipelineSafety
  import opened PipelineProgress
  import StreamSpec

  predicate Closing(s: State) {
    s.gateway.shutdownStarted && s.shared.requests.closed
  }

  /** How many moves the worker has left when no more requests come. */
  function WorkerRank(w: WorkerPc, queued: nat): nat {
    8 * queued + 2 * |Unpublished(w)| +
    match w
    case Collecting(_) => 8
    case Ready(_) => 7
    case StoreFailed(_) => 6
    case StoreStop(_) => 5
    case WakeFailed(_) => 4
    case Publishing(_, _) => 3
    case Notifying(_, _) => 4
    case Waiting => 3
    case CloseResponses => 2
    case LastNotify => 1
    case Finished => 0
    case Terminated => 0
  }

  function Rank(s: State): nat {
    WorkerRank(s.worker.pc, |s.shared.requests.items|)
  }

  lemma WorkerRankDecreases(s: State, io: BatchIo, config: Config)
    requires Safe(s, config) && Closing(s) && !s.worker.pc.Finished?
    ensures Rank(WorkerStep(s, io, config)) < Rank(s) && Closing(WorkerStep(s, io, config))
  {
    hide Announced, Batches, Ordered, Paused, Slots, ExecuteStep, Refusals;
    if s.worker.pc.Ready? {
      ExecuteFacts(s.worker, s.worker.pc.batch, io);
    }
    if s.worker.pc.Publishing? {
      PublishFindsRoom(s, config);
    }
  }

  /** Once closed, nothing else adds to the worker's work. */
  lemma GatewayKeepsRank(s: State, config: Config)
    requires Safe(s, config) && Closing(s)
    ensures var s' := GatewayStep(s, config);
            s'.worker == s.worker && s'.shared.requests == s.shared.requests && Closing(s') && !Admitting(s'.gateway.pc)
  {
    hide Announced, Batches, Ordered, Paused, Slots, AdmitStep, Deliver, NextPending;
  }

  lemma SocketsKeepClosing(s: State, event: SocketEvent, config: Config)
    requires Closing(s)
    ensures Closing(s.(gateway := SocketStep(s.gateway, event, config)))
    ensures SocketStep(s.gateway, event, config).pc == s.gateway.pc
  {
    hide MarkClosing, StreamSpec.Feed;
  }

  function WorkerMovesIn(actions: seq<Action>): nat {
    if actions == [] then 0
    else WorkerMovesIn(actions[..|actions| - 1]) + if actions[|actions| - 1].WorkerMoves? then 1 else 0
  }

  function GatewayMovesIn(actions: seq<Action>): nat {
    if actions == [] then 0
    else GatewayMovesIn(actions[..|actions| - 1]) + if actions[|actions| - 1].GatewayMoves? then 1 else 0
  }

  lemma StepKeepsRank(s: State, action: Action, config: Config)
    requires Safe(s, config) && Closing(s)
    ensures Closing(Next(s, action, config))
    ensures s.worker.pc.Finished? ==> Next(s, action, config).worker.pc.Finished?
    ensures !s.worker.pc.Finished? ==>
              Rank(Next(s, action, config)) + (if action.WorkerMoves? then 1 else 0) <= Rank(s)
  {
    hide Safe, GatewayStep, SocketStep, WorkerRank;
    match action
    case GatewayMoves => GatewayKeepsRank(s, config);
    case SocketActs(event) => SocketsKeepClosing(s, event, config);
    case WorkerMoves(io) =>
      if !s.worker.pc.Finished? {
        WorkerRankDecreases(s, io, config);
      }
    case StopStored =>
    case StopWakes =>
  }

  /** Whatever else happens, the worker is finished after as many of its own moves as its rank. */
  lemma {:induction false} WorkerFinishes(s: State, actions: seq<Action>, config: Config)
    requires Safe(s, config) && ValidConfig(config) && Closing(s)
    ensures var s' := Behave(s, actions, config);
            && Safe(s', config) && Closing(s')
            && (s'.worker.pc.Finished? || Rank(s') + WorkerMovesIn(actions) <= Rank(s))
    ensures Rank(s) < WorkerMovesIn(actions) ==> Behave(s, actions, config).worker.pc.Finished?
  {
    hide Safe, Next, Rank, Closing;
    if actions != [] {
      var before := Behave(s, actions[..|actions| - 1], config);
      WorkerFinishes(s, actions[..|actions| - 1], config);
      NextKeepsSafe(before, actions[|actions| - 1], config);
      StepKeepsRank(before, actions[|actions| - 1], config);
    }
  }

  // ---------- The gateway, once the worker is finished ----------

  /** How many moves the gateway has left when `queued` responses are the last ones. */
  function GatewayRank(g: GatewayPc, queued: nat): nat {
    match g
    case Done => 0
    case CheckSize => if queued == 0 then 1 else 4 * queued + 14
    case CheckClosed => if queued == 0 then 2 else 4 * queued + 15
    case PendingCheck(top) => if !top then 2 * queued + 8 else if queued == 0 then 3 else 4 * queued + 16
    case PopResponse(top) => if top then 2 * queued + 4 else 4 * queued + 9
    case Release(top) => if top then 2 * queued + 5 else 4 * queued + 11
    case CloseRequests(top) => if top then 2 * queued + 5 else 4 * queued + 10
    case LoadStop(top) => if top then 2 * queued + 6 else 4 * queued + 11
    case Sockets => 2 * queued + 7
    case DrainSignal => 4 * queued + 12
    case Blocked => 4 * queued + 13
    case _ => 0
  }

  function Left(s: State): nat {
    GatewayRank(s.gateway.pc, |s.shared.responses.items|)
  }

  /** The worker is finished, the queues are closed, and the gateway is not asleep for good. */
  ghost predicate Emptying(s: State, config: Config) {
    Safe(s, config) && Woken(s) && Closing(s) && s.worker.pc.Finished?
  }

  lemma GatewayRankDecreases(s: State, config: Config)
    requires Emptying(s, config) && !s.gateway.pc.Done?
    ensures Left(GatewayStep(s, config)) < Left(s)
    ensures s.gateway.pc.Blocked? ==> s.shared.signal
  {
    hide Announced, Batches, Ordered, Paused, Slots, AdmitStep, Deliver, NextPending, StopWakesUp, HeldBack;
    ReleaseHasSlot(s, config);
  }

  lemma StepKeepsLeft(s: State, action: Action, config: Config)
    requires Emptying(s, config) && ValidConfig(config)
    ensures Emptying(Next(s, action, config), config)
    ensures s.gateway.pc.Done? ==> Next(s, action, config).gateway.pc.Done?
    ensures !s.gateway.pc.Done? ==>
              Left(Next(s, action, config)) + (if action.GatewayMoves? then 1 else 0) <= Left(s)
  {
    hide Safe, Woken, SocketStep, GatewayRank, AdmitStep, NextPending, Deliver;
    NextKeepsSafe(s, action, config);
    NextKeepsWoken(s, action, config);
    StepKeepsRank(s, action, config);
    match action
    case GatewayMoves =>
      if !s.gateway.pc.Done? {
        GatewayRankDecreases(s, config);
      }
    case SocketActs(event) => SocketsKeepClosing(s, event, config);
    case WorkerMoves(io) =>
    case StopStored =>
    case StopWakes =>
  }

  lemma {:induction false} GatewayFinishes(s: State, actions: seq<Action>, config: Config)
    requires Emptying(s, config) && ValidConfig(config)
    ensures var s' := Behave(s, actions, config);
            && Emptying(s', config)
            && (s'.gateway.pc.Done? || Left(s') + GatewayMovesIn(actions) <= Left(s))
  {
    hide Emptying, Next, Left;
    if actions != [] {
      var before := Behave(s, actions[..|actions| - 1], config);
      GatewayFinishes(s, actions[..|actions| - 1], config);
      StepKeepsLeft(before, actions[|actions| - 1], config);
    }
  }

  lemma {:induction false} BehaveConcat(s: State, first: seq<Action>, second: seq<Action>, config: Config)
    ensures Behave(s, first + second, config) == Behave(Behave(s, first, config), second, config)
  {
    hide Next;
    if second == [] {
      assert first + second == first;
    } else {
      var n := |first + second| - 1;
      assert (first + second)[..n] == first + second[..|second| - 1];
      BehaveConcat(s, first, second[..|second| - 1], config);
    }
  }

  /** What a finished gateway leaves behind: every admitted request answered, every answer taken, no slot in use. */
  lemma {:induction false} DoneMeansDrained(s: State, config: Config)
    requires Safe(s, config) && s.gateway.pc.Done?
    ensures |s.answered| == |s.admitted| && s.shared.inFlight == 0
    ensures s.shared.requests.items == [] && s.shared.responses.items == []
  {
    hide Announced, Paused;
  }

  /**
   Shutdown completes. Take any run that has closed the request queue, let anything happen
   that contains enough moves of the worker, and then anything that contains enough moves of
   the gateway: the gateway is done, and everything ever admitted has been answered.
   */
  lemma {:induction false} ShutdownCompletes(
    world: World, run: seq<Action>, draining: seq<Action>, emptying: seq<Action>, config: Config)
    requires ValidConfig(config) && Closing(Behave(Init(world), run, config))
    requires Rank(Behave(Init(world), run, config)) < WorkerMovesIn(draining)
    requires 4 * config.maximumInFlight + 16 < GatewayMovesIn(emptying)
    ensures var s := Behave(Init(world), run + draining + emptying, config);
            && s.gateway.pc.Done? && s.worker.pc.Finished?
            && |s.answered| == |s.admitted| && s.shared.inFlight == 0 && s.shared.responses.items == []
  {
    hide Safe, Woken, Init, Behave, Rank, Closing;
    var s0 := Behave(Init(world), run, config);
    var s1 := Behave(s0, draining, config);
    EveryRunIsSafe(world, run, config);
    EveryRunWakes(world, run, config);
    WorkerFinishes(s0, draining, config);
    RunKeepsWoken(s0, draining, config);
    LeftIsBounded(s1, config);
    GatewayFinishes(s1, emptying, config);
    DoneMeansDrained(Behave(s1, emptying, config), config);
    BehaveConcat(Init(world), run, draining, config);
    BehaveConcat(Init(world), run + draining, emptying, config);
  }

  lemma LeftIsBounded(s: State, config: Config)
    requires Safe(s, config)
    ensures Left(s) <= 4 * config.maximumInFlight + 16
  {
    hide Announced, Ordered, Paused, Batches, Shutdown, Unpublished;
  }
}
