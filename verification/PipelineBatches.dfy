/** How large a batch can get, and when the histogram of batch sizes has an entry for it. */
module PipelineBatches {
  import opened Domain
  import opened Bytes
  import opened WireCodec
  import opened WireLaws
  import opened StreamSpec
  import opened BoundedQueue
  import opened JournalStorage
  import opened DurableEngine
  import opened DurableRuns
  import opened Pipeline
  import opened PipelineInvariants
  import opened PipelineSafety
  import opened PipelineDrain

  /** The histogram has entries for sizes up to the capacity of the request queue. */
  predicate Counted(s: State, config: Config) {
    s.worker.pc.Ready? ==> |s.worker.pc.batch| <= config.requestCapacity
  }

  /** No batch is longer than the batch limit and the slots allow. */
  lemma {:induction false} BatchIsBounded(s: State, config: Config)
    requires Safe(s, config) && s.worker.pc.Ready?
    ensures 0 < |s.worker.pc.batch| <= Min(config.maximumBatch, config.maximumInFlight)
  {
    hide Shutdown, Ordered, Announced, Paused;
  }

  // ---------- A run with a batch as long as they allow ----------

  const FRAME: Bytes := EncodeClient(Envelope(1, CancelRequest(1)))
  const IDLE := BatchIo(AppendIo(0, false), None)

  // One more request reaches the worker while it collects.
  const ROUND := [SocketActs(Receive(0, FRAME)), GatewayMoves, GatewayMoves, GatewayMoves, WorkerMoves(IDLE)]
  const OPENING := [GatewayMoves, GatewayMoves, GatewayMoves, GatewayMoves, GatewayMoves, SocketActs(Accept(0))]

  function Rounds(n: nat): seq<Action> {
    if n == 0 then [] else Rounds(n - 1) + ROUND
  }

  /** The gateway listens to one connection, and the worker holds `n` requests. */
  ghost predicate Piling(s: State, n: nat) {
    && s.gateway.pc.Sockets? && !s.gateway.shutdownStarted && !s.gateway.readsPaused && s.gateway.pending == []
    && Alive(s.gateway.connections, 0)
    && s.gateway.connections[0].unread == [] && s.gateway.connections[0].failure.None?
    && s.shared.inFlight == n && s.shared.requests == Queue([], false) && !s.shared.engineFailed
    && (if n == 0 then s.worker.pc.Waiting? else s.worker.pc.Collecting? && |s.worker.pc.batch| == n)
    && !s.worker.failed && s.answered == []
  }

  lemma FrameIsOneRequest(limit: nat)
    requires SHORTEST_CLIENT_FRAME <= limit
    ensures |FRAME| == SHORTEST_CLIENT_FRAME
    ensures Parse(FRAME, limit) == Parsed([Envelope(1, CancelRequest(1))], None, [])
  {
    hide Parse, EncodeClient;
    var e: Request := Envelope(1, CancelRequest(1));
    ParseOfFirst(e, [], limit);
    ParseOfNothing(limit);
    assert EncodeClient(e) + [] == FRAME;
    assert [e] + [] == [e];
  }

  lemma PrefixRun(s: State, a: Action, b: seq<Action>, config: Config)
    ensures Behave(s, [a] + b, config) == Behave(Next(s, a, config), b, config)
  {
    hide Next;
    BehaveConcat(s, [a], b, config);
    assert [a][..0] == [];
    assert Behave(s, [a], config) == Next(Behave(s, [], config), a, config);
  }

  /** The gateway is about to admit the one request of a frame; otherwise as in Piling. */
  ghost predicate Admits(s: State, pc: GatewayPc, inFlight: nat, n: nat) {
    && s.gateway.pc == pc && s.shared.inFlight == inFlight
    && Piling(s.(gateway := s.gateway.(pc := Sockets), shared := s.shared.(inFlight := n)), n)
  }

  const SOURCE := FromReceive(0, [Envelope(1, CancelRequest(1))], false)

  lemma RoundReceives(s: State, n: nat, config: Config)
    requires Piling(s, n) && SHORTEST_CLIENT_FRAME <= config.inputLimit
    ensures Admits(Next(s, SocketActs(Receive(0, FRAME)), config), AdmitLoad(SOURCE), n, n)
  {
    hide Parse, EncodeClient, Feed;
    FrameIsOneRequest(config.inputLimit);
    FrameIsFed(config.inputLimit);
    assert CanReceive(s.gateway, 0, FRAME);
  }

  lemma FrameIsFed(limit: nat)
    requires SHORTEST_CLIENT_FRAME <= limit
    ensures Feed(Parsed([], None, []), FRAME, limit) == Parsed([Envelope(1, CancelRequest(1))], None, [])
  {
    hide Parse, EncodeClient;
    FrameIsOneRequest(limit);
    assert [] + FRAME == FRAME;
    assert [] + Parse(FRAME, limit).requests == Parse(FRAME, limit).requests;
  }

  lemma RoundAdmits(s: State, n: nat, config: Config)
    requires Admits(s, AdmitLoad(SOURCE), n, n) && n < config.maximumInFlight && 0 < config.requestCapacity
    ensures var s3 := GatewayStep(GatewayStep(GatewayStep(s, config), config), config);
            && s3.shared.requests.items != [] && s3.shared.requests.items[1..] == []
            && Piling(s3.(shared := s3.shared.(requests := Queue([], false), inFlight := n)), n)
            && s3.shared.inFlight == n + 1 && !s3.shared.requests.closed
  {
    var s1 := GatewayStep(s, config);
    assert s1.gateway.pc == AdmitAcquire(SOURCE);
    var s2 := GatewayStep(s1, config);
    assert s2.gateway.pc == AdmitPush(SOURCE) && s2.shared.inFlight == n + 1;
  }

  lemma RoundCollects(s: State, n: nat, config: Config)
    requires s.shared.requests.items != [] && s.shared.requests.items[1..] == [] && !s.shared.requests.closed
    requires s.shared.inFlight == n + 1 && n < config.maximumBatch
    requires Piling(s.(shared := s.shared.(requests := Queue([], false), inFlight := n)), n)
    ensures Piling(WorkerStep(s, IDLE, config), n + 1)
  {
    hide ExecuteStep;
  }

  lemma RoundPiles(s: State, n: nat, config: Config)
    requires Piling(s, n) && ValidConfig(config) && n < config.maximumInFlight && n < config.maximumBatch
    ensures Piling(Behave(s, ROUND, config), n + 1)
  {
    hide Piling, Behave, GatewayStep, WorkerStep, SocketStep;
    var s1 := Next(s, SocketActs(Receive(0, FRAME)), config);
    RoundReceives(s, n, config);
    RoundAdmits(s1, n, config);
    var s4 := Next(Next(Next(s1, GatewayMoves, config), GatewayMoves, config), GatewayMoves, config);
    RoundCollects(s4, n, config);
    RoundUnfolds(s, config);
  }

  lemma RoundUnfolds(s: State, config: Config)
    ensures var s1 := Next(s, SocketActs(Receive(0, FRAME)), config);
            var s4 := Next(Next(Next(s1, GatewayMoves, config), GatewayMoves, config), GatewayMoves, config);
            Behave(s, ROUND, config) == Next(s4, WorkerMoves(IDLE), config)
  {
    hide Next;
    var (receive, g, w) := (SocketActs(Receive(0, FRAME)), GatewayMoves, WorkerMoves(IDLE));
    assert ROUND == [receive] + ([g] + ([g] + ([g] + ([w] + []))));
    PrefixRun(s, receive, [g] + ([g] + ([g] + ([w] + []))), config);
    var s1 := Next(s, receive, config);
    PrefixRun(s1, g, [g] + ([g] + ([w] + [])), config);
    var s2 := Next(s1, g, config);
    PrefixRun(s2, g, [g] + ([w] + []), config);
    var s3 := Next(s2, g, config);
    PrefixRun(s3, g, [w] + [], config);
    PrefixRun(Next(s3, g, config), w, [], config);
  }

  lemma {:induction false} RoundsPile(s: State, n: nat, config: Config)
    requires Piling(s, 0) && ValidConfig(config) && n <= Min(config.maximumInFlight, config.maximumBatch)
    ensures Piling(Behave(s, Rounds(n), config), n)
  {
    hide Piling, Next, Behave;
    EmptyRun(s, config);
    if n > 0 {
      RoundsPile(s, n - 1, config);
      RoundPiles(Behave(s, Rounds(n - 1), config), n - 1, config);
      BehaveConcat(s, Rounds(n - 1), ROUND, config);
    }
  }

  /** The gateway gets from its start to its sockets and accepts a connection. */
  lemma OpeningListens(start: World, config: Config)
    ensures Piling(Behave(Init(start), OPENING, config), 0)
  {
    OpeningUnfolds(Init(start), config);
    hide Behave, AdmitStep, Deliver;
    var s0 := Init(start);
    var s1 := GatewayStep(s0, config);
    var s2 := GatewayStep(s1, config);
    var s3 := GatewayStep(s2, config);
    assert s3.gateway == s0.gateway.(pc := CheckClosed) && s3.shared == s0.shared;
    var s4 := GatewayStep(s3, config);
    var s5 := GatewayStep(s4, config);
    assert s5.gateway == s0.gateway.(pc := Sockets) && s5.shared == s0.shared && s5.worker == s0.worker;
  }

  lemma OpeningUnfolds(s: State, config: Config)
    ensures var s3 := GatewayStep(GatewayStep(GatewayStep(s, config), config), config);
            Behave(s, OPENING, config)
            == Next(GatewayStep(GatewayStep(s3, config), config), SocketActs(Accept(0)), config)
  {
    hide GatewayStep, SocketStep, Behave;
    var (g, accept) := (GatewayMoves, SocketActs(Accept(0)));
    assert OPENING == [g] + ([g] + ([g] + ([g] + ([g] + ([accept] + [])))));
    var s1 := Next(s, g, config);
    var s2 := Next(s1, g, config);
    var s3 := Next(s2, g, config);
    var s4 := Next(s3, g, config);
    PrefixRun(s, g, [g] + ([g] + ([g] + ([g] + ([accept] + [])))), config);
    PrefixRun(s1, g, [g] + ([g] + ([g] + ([accept] + []))), config);
    PrefixRun(s2, g, [g] + ([g] + ([accept] + [])), config);
    PrefixRun(s3, g, [g] + ([accept] + []), config);
    PrefixRun(s4, g, [accept] + [], config);
    PrefixRun(Next(s4, g, config), accept, [], config);
    EmptyRun(Next(Next(s4, g, config), accept, config), config);
  }

  lemma EmptyRun(s: State, config: Config)
    ensures Behave(s, [], config) == s
  {
  }

  function Pileup(n: nat): seq<Action> {
    OPENING + Rounds(n) + [WorkerMoves(IDLE)]
  }

  /** Every batch size the limits allow does occur. */
  lemma {:induction false} PileupReaches(start: World, n: nat, config: Config)
    requires ValidConfig(config) && 0 < n <= Min(config.maximumInFlight, config.maximumBatch)
    ensures var s := Behave(Init(start), Pileup(n), config);
            && s.worker.pc.Ready? && |s.worker.pc.batch| == n
            && !s.worker.failed && s.answered == [] && 0 in s.gateway.connections
  {
    hide Init, Behave, Piling, WorkerStep, Rounds;
    var s := Behave(Init(start), OPENING, config);
    OpeningListens(start, config);
    RoundsPile(s, n, config);
    var piled := Behave(s, Rounds(n), config);
    CollectingEnds(piled, n, config);
    BehaveConcat(Init(start), OPENING, Rounds(n), config);
    BehaveConcat(Init(start), OPENING + Rounds(n), [WorkerMoves(IDLE)], config);
    PrefixRun(piled, WorkerMoves(IDLE), [], config);
    EmptyRun(WorkerStep(piled, IDLE, config), config);
    assert [WorkerMoves(IDLE)] + [] == [WorkerMoves(IDLE)];
  }

  /** With nothing more to collect the batch is ready. */
  lemma CollectingEnds(s: State, n: nat, config: Config)
    requires Piling(s, n) && 0 < n
    ensures var s' := WorkerStep(s, IDLE, config);
            && s'.worker.pc.Ready? && |s'.worker.pc.batch| == n
            && !s'.worker.failed && s'.answered == [] && 0 in s'.gateway.connections
  {
    hide ExecuteStep;
  }

  /** The batch sizes that occur are exactly those from one up to the smaller of the two limits. */
  lemma {:induction false} BatchSizesAreExact(start: World, n: nat, config: Config)
    requires ValidConfig(config)
    ensures (exists actions :: BatchOf(Behave(Init(start), actions, config), n))
            <==> 0 < n <= Min(config.maximumBatch, config.maximumInFlight)
  {
    hide Init, Behave, Pileup;
    forall actions | BatchOf(Behave(Init(start), actions, config), n)
      ensures 0 < n <= Min(config.maximumBatch, config.maximumInFlight)
    {
      EveryRunIsSafe(start, actions, config);
      BatchIsBounded(Behave(Init(start), actions, config), config);
    }
    if 0 < n <= Min(config.maximumBatch, config.maximumInFlight) {
      PileupReaches(start, n, config);
      assert BatchOf(Behave(Init(start), Pileup(n), config), n);
    }
  }

  /** A batch of `n` requests is about to be executed. */
  predicate BatchOf(s: State, n: nat) {
    s.worker.pc.Ready? && |s.worker.pc.batch| == n
  }

  /** In every run every batch is counted, exactly if the queue holds what the limits let into one batch. */
  lemma {:induction false} EveryBatchIsCounted(start: World, config: Config)
    requires ValidConfig(config)
    ensures (forall actions :: Counted(Behave(Init(start), actions, config), config))
            <==> Min(config.maximumBatch, config.maximumInFlight) <= config.requestCapacity
  {
    hide Init, Behave, Pileup;
    if Min(config.maximumBatch, config.maximumInFlight) <= config.requestCapacity {
      forall actions
        ensures Counted(Behave(Init(start), actions, config), config)
      {
        EveryRunIsSafe(start, actions, config);
        if Behave(Init(start), actions, config).worker.pc.Ready? {
          BatchIsBounded(Behave(Init(start), actions, config), config);
        }
      }
    } else {
      var n := config.requestCapacity + 1;
      PileupReaches(start, n, config);
      assert !Counted(Behave(Init(start), Pileup(n), config), config);
    }
  }
}
