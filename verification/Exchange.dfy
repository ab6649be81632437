/** What the whole exchange promises a client, over every interleaving, failure, crash and restart. */
module Exchange {
  import opened Domain
  import opened FlatBook
  import opened BookRuns
  import opened GatewayTypes
  import opened JournalStorage
  import opened DurableEngine
  import opened DurableRuns
  import opened Pipeline
  import opened PipelineInvariants
  import opened PipelineSafety
  import opened PipelineReplies
  import opened PipelineIntake
  import opened PipelineDelivery
  import opened ClientView
  import opened StreamSpec
  import opened WireCodec
  import PipelineBatches
  import PipelineDrain
  import JournalScan

  /** The exchange was started on a journal in good order. */
  ghost predicate Startable(start: World) {
    Good(start) && start.engine.Some? && start.engine.value.healthy
  }

  /**
   To a client the exchange is one sequential book. The requests admitted from a connection are,
   in order, the first it sent; the results are those of one run over all admitted commands; and
   the octets sent to the connection begin the encoded answers to its requests, in their order.
   */
  lemma {:induction false} ClientSeesOneBook(start: World, actions: seq<Action>, id: nat, config: Config)
    requires Startable(start) && ValidConfig(config)
    requires id in Behave(Init(start), actions, config).gateway.connections
    ensures var s := Behave(Init(start), actions, config);
            var (c, n) := (s.gateway.connections[id], |s.worker.results|);
            var taken := |s.answered| - |s.shared.responses.items|;
            && n <= |s.admitted| && 0 <= taken <= |s.admitted|
            && Of(s.admitted, id) <= Asked(c, id, config.inputLimit)
            && s.worker.results == Run(Run(EMPTY, start.journal).0, Commands(s.admitted[..n])).1
            && (s.worker.failed || taken <= n)
            && c.sent + c.output <= Transcript(Answers(s.admitted, s.worker.results, taken), id)
            && (Alive(s.gateway.connections, id) ==>
                  c.sent + c.output == Transcript(Answers(s.admitted, s.worker.results, taken), id))
            && |c.output| <= config.outputLimit
  {
    hide Behave, Init, Of, Asked, Transcript, Run, Commands, Good, Answer, Line, Alive;
    EveryRunIsSafe(start, actions, config);
    EveryRunIsLinear(start, actions, config);
    EveryRunTakesIn(start, actions, id, config);
    EveryRunDelivers(start, actions, id, config);
    var s := Behave(Init(start), actions, config);
    TakenAreAnswers(s, config);
  }

  lemma TakenAreAnswers(s: State, config: Config)
    requires Safe(s, config) && Paired(s.worker, s.admitted, s.answered)
    ensures var taken := |s.answered| - |s.shared.responses.items|;
            && 0 <= taken <= |s.admitted|
            && Taken(s.shared, s.answered) == Answers(s.admitted, s.worker.results, taken)
  {
    hide Slots, Batches, Shutdown, Announced, Paused, Answer;
    var (count, taken) := (|s.answered| + |Decided(s.worker.pc)|, |s.answered| - |s.shared.responses.items|);
    assert (s.answered + Decided(s.worker.pc))[..taken] == s.answered[..taken];
    assert Answers(s.admitted, s.worker.results, count)[..taken] == Answers(s.admitted, s.worker.results, taken);
  }

  lemma RepliesAreValid(
    b: Book, cs: seq<Command>, admitted: seq<EngineRequest>, results: seq<CommandResult>, count: nat, id: nat)
    requires count <= |admitted| && |results| == |cs| <= |admitted|
    requires results == Run(b, cs).1 && forall i :: 0 <= i < |cs| ==> cs[i] == admitted[i].command
    ensures forall k :: 0 <= k < |Places(admitted, count, id)| ==>
                          ValidServerMessage(RepliesTo(admitted, results, count, id)[k].message)
  {
    hide Run, ToWire, Answer, ValidServerMessage;
    forall k | 0 <= k < |Places(admitted, count, id)|
      ensures ValidServerMessage(RepliesTo(admitted, results, count, id)[k].message)
    {
      var i := Places(admitted, count, id)[k];
      AnswerIsProper(b, cs, admitted[i], i);
      ProperIsValid(admitted[i], Answer(admitted[i], results, i));
    }
  }

  lemma ProperIsValid(request: EngineRequest, reply: EngineResponse)
    requires Proper(request, reply)
    ensures ValidServerMessage(ToWire(reply).message)
  {
    hide ServerFrame, ToWire, Octets;
  }

  /**
   What a client gets for what it sends. Let a client send the frames of `calls`, and let any part of
   them have arrived. Then the responses it reads from the octets sent to it so far answer its calls
   one by one and in order: the k-th carries the k-th call's id and tells, field by field, the result
   of that very command at its place in one sequential run over all admitted commands, or that the
   engine is unavailable. While the connection takes part and has nothing waiting, none is missing.
   */
  lemma {:induction false} ClientReadsItsResults(
    start: World, actions: seq<Action>, id: nat, calls: seq<Call>, config: Config)
    requires Startable(start) && ValidConfig(config)
    requires var s := Behave(Init(start), actions, config);
             id in s.gateway.connections && s.gateway.connections[id].received <= StreamOf(calls)
    ensures var s := Behave(Init(start), actions, config);
            var (c, n) := (s.gateway.connections[id], |s.worker.results|);
            var taken := |s.answered| - |s.shared.responses.items|;
            && n <= |s.admitted| && 0 <= taken <= |s.admitted|
            && s.worker.results == Run(Run(EMPTY, start.journal).0, Commands(s.admitted[..n])).1
            && var (places, read) := (Places(s.admitted, taken, id), ReadAll(c.sent));
               && AreCalls(s.admitted, places, id, calls)
               && TellResults(read, calls, places, s.worker.results)
               && (Alive(s.gateway.connections, id) && c.output == [] ==> |read| == |places|)
  {
    hide Behave, Init, Of, Transcript, Run, Good, Answer, Line, Alive, ReadAll, Answers, Places, RepliesTo,
         ReplyFrames, StreamOf, Parse, FromStream, Tells;
    ClientSeesOneBook(start, actions, id, config);
    var s := Behave(Init(start), actions, config);
    var c := s.gateway.connections[id];
    var taken := |s.answered| - |s.shared.responses.items|;
    RepliesAreRead(s, Run(EMPTY, start.journal).0, taken, id);
    CallsArriveInOrder(id, calls, c.received, config.inputLimit);
    AdmittedAreCalls(s.admitted, taken, id, calls);
  }

  /** The part of the proof about the answers: what was sent is read as the first of them. */
  lemma RepliesAreRead(s: State, b: Book, taken: nat, id: nat)
    requires id in s.gateway.connections && taken <= |s.admitted| && |s.worker.results| <= |s.admitted|
    requires s.worker.results == Run(b, Commands(s.admitted[..|s.worker.results|])).1
    requires var c := s.gateway.connections[id];
             && c.sent + c.output <= Transcript(Answers(s.admitted, s.worker.results, taken), id)
             && (Alive(s.gateway.connections, id) ==>
                   c.sent + c.output == Transcript(Answers(s.admitted, s.worker.results, taken), id))
    ensures var (c, places) := (s.gateway.connections[id], Places(s.admitted, taken, id));
            var read := ReadAll(c.sent);
            && |read| <= |places|
            && (forall k :: 0 <= k < |read| ==>
                  Tells(read[k], s.admitted[places[k]].requestId, ResultAt(s.worker.results, places[k])))
            && (Alive(s.gateway.connections, id) && c.output == [] ==> |read| == |places|)
  {
    hide Transcript, Run, Alive, ReadAll, Answers, Tells, ReplyFrames, Answer, ToWire, ValidServerMessage;
    var (c, results) := (s.gateway.connections[id], s.worker.results);
    var replies := RepliesTo(s.admitted, results, taken, id);
    TranscriptIsReplies(s.admitted, results, taken, id);
    RepliesAreValid(b, Commands(s.admitted[..|results|]), s.admitted, results, taken, id);
    assert c.sent <= c.sent + c.output;
    ReadsWhatWasSent(replies, c.sent);
    assert c.output == [] ==> c.sent + c.output == c.sent;
    var places := Places(s.admitted, taken, id);
    forall k | 0 <= k < |ReadAll(c.sent)|
      ensures Tells(ReadAll(c.sent)[k], s.admitted[places[k]].requestId, ResultAt(results, places[k]))
    {
      AnswerTells(s.admitted[places[k]], results, places[k]);
    }
  }

  /** The part about the calls: the k-th admitted request of a connection is its k-th call. */
  lemma AdmittedAreCalls(admitted: seq<EngineRequest>, taken: nat, id: nat, calls: seq<Call>)
    requires taken <= |admitted| && Of(admitted, id) <= Received(id, calls)
    ensures AreCalls(admitted, Places(admitted, taken, id), id, calls)
  {
    hide Of, Places;
    var own := Of(admitted[..taken], id);
    PlacesOfOwn(admitted, taken, id);
    assert admitted == admitted[..taken] + admitted[taken..];
    OfConcat(admitted[..taken], admitted[taken..], id);
    forall k | 0 <= k < |own|
      ensures own[k] == EngineRequest(id, calls[k].requestId, calls[k].command)
    {
      assert own[k] == Of(admitted, id)[k] == Received(id, calls)[k];
    }
  }

  /**
   A result that was published survives. Whenever the exchange crashes after that, and whatever
   the crash leaves of the file beyond what was synced, recovery starts an engine whose journal
   contains every command up to this one, in admission order, and replays it to the same result.
   */
  lemma {:induction false} PublishedResultSurvives(
    start: World, actions: seq<Action>, i: nat, kept: nat, synced: nat, config: Config)
    requires Startable(start) && ValidConfig(config)
    requires var s := Behave(Init(start), actions, config);
             && i < |s.answered| && !s.answered[i].UnavailableReply?
             && s.worker.world.disk.synced <= synced <= kept <= |s.worker.world.disk.bytes|
    ensures var s := Behave(Init(start), actions, config);
            var w := RestartStep(CrashStep(s.worker.world, kept, synced), RepairIo(true, true));
            && i < |s.worker.results| && i < |s.admitted|
            && s.answered[i] == Summarize(s.admitted[i], s.worker.results[i])
            && w.engine.Some? && w.engine.value.healthy && w.engine.value.book == Run(EMPTY, w.journal).0
            && start.journal + Commands(s.admitted[..i + 1]) <= w.journal <= start.journal + Commands(s.admitted)
            && Run(EMPTY, w.journal).1[|start.journal| + i] == s.worker.results[i]
  {
    hide Behave, Init, Run, Good, CrashStep, RestartStep, JournalScan.JournalOf, Safe;
    EveryRunIsLinear(start, actions, config);
    var s := Behave(Init(start), actions, config);
    assert s.answered[i] == (s.answered + Decided(s.worker.pc))[i];
    AckSurvivesCrash(s.worker.world, kept, synced, |start.acked| + i);
    var w := RestartStep(CrashStep(s.worker.world, kept, synced), RepairIo(true, true));
    assert w.journal[..|start.journal| + i + 1] == s.worker.world.journal[..|start.journal| + i + 1];
    assert Commands(s.admitted[..i + 1]) == Commands(s.admitted[..|s.worker.results|])[..i + 1];
  }

  // ---------- After a failure ----------

  /** A failed worker never touches the journal or the book again; every further answer is a refusal. */
  lemma {:induction false} FailureIsFinal(s: State, actions: seq<Action>, config: Config)
    requires s.worker.failed
    ensures var s' := Behave(s, actions, config);
            s'.worker.failed && s'.worker.world == s.worker.world && s'.worker.results == s.worker.results
  {
    hide GatewayStep, SocketStep, BatchStep, Outcome;
    if actions != [] {
      FailureIsFinal(s, actions[..|actions| - 1], config);
      GatewayLeavesWorker(Behave(s, actions[..|actions| - 1], config), config);
    }
  }

  lemma GatewayLeavesWorker(s: State, config: Config)
    ensures GatewayStep(s, config).worker == s.worker
  {
    hide Deliver, NextPending, AdmitFailed, AdmitSucceeded, Candidate;
  }

  lemma {:induction false} AnswersAfterFailure(
    start: World, actions: seq<Action>, more: seq<Action>, i: nat, config: Config)
    requires Startable(start) && ValidConfig(config)
    requires Behave(Init(start), actions, config).worker.failed
    requires |Behave(Init(start), actions, config).answered| <= i
    requires i < |Behave(Behave(Init(start), actions, config), more, config).answered|
    ensures var s := Behave(Behave(Init(start), actions, config), more, config);
            i < |s.admitted| && s.answered[i] == Unavailable(s.admitted[i])
  {
    hide Behave, Init, Good, Run, Commands;
    var s := Behave(Init(start), actions, config);
    var s' := Behave(s, more, config);
    EveryRunIsLinear(start, actions, config);
    FailureIsFinal(s, more, config);
    PipelineDrain.BehaveConcat(Init(start), actions, more, config);
    EveryRunIsLinear(start, actions + more, config);
    assert s'.answered[i] == (s'.answered + Decided(s'.worker.pc))[i];
  }

  /** A refusal is given only by a worker that has failed, and only behind the last result. */
  lemma RefusalMeansFailure(start: World, actions: seq<Action>, i: nat, config: Config)
    requires Startable(start) && ValidConfig(config)
    requires var s := Behave(Init(start), actions, config); i < |s.answered| && s.answered[i].UnavailableReply?
    ensures var s := Behave(Init(start), actions, config); s.worker.failed && |s.worker.results| <= i
  {
    hide Behave, Init, Good, Run, Commands;
    EveryRunIsLinear(start, actions, config);
    var s := Behave(Init(start), actions, config);
    assert s.answered[i] == (s.answered + Decided(s.worker.pc))[i];
  }

  /**
   Fail-stop: once one request has been answered unavailable, so is every later one, whatever
   happens, and neither the journal nor the book ever changes again.
   */
  lemma {:induction false} OneRefusalIsFinal(
    start: World, actions: seq<Action>, i: nat, more: seq<Action>, j: nat, config: Config)
    requires Startable(start) && ValidConfig(config)
    requires var s := Behave(Init(start), actions, config); i < |s.answered| && s.answered[i].UnavailableReply?
    requires i <= j < |Behave(Behave(Init(start), actions, config), more, config).answered|
    ensures var s := Behave(Init(start), actions, config);
            var s' := Behave(s, more, config);
            && j < |s'.admitted| && s'.answered[j] == Unavailable(s'.admitted[j])
            && s'.worker.world == s.worker.world && s'.worker.results == s.worker.results
  {
    hide Behave, Init, Good, Run, Commands;
    RefusalMeansFailure(start, actions, i, config);
    var s := Behave(Init(start), actions, config);
    var s' := Behave(s, more, config);
    FailureIsFinal(s, more, config);
    PipelineDrain.BehaveConcat(Init(start), actions, more, config);
    EveryRunIsLinear(start, actions + more, config);
    assert s'.answered[j] == (s'.answered + Decided(s'.worker.pc))[j];
  }

  // ---------- Crashes and restarts of the whole exchange ----------

  // One life of the exchange: it runs, it crashes, and it is started again.
  datatype Life = Life(actions: seq<Action>, kept: nat, synced: nat, repair: RepairIo)

  function Live(w: World, life: Life, config: Config): World {
    var before := if w.engine.Some? then Behave(Init(w), life.actions, config).worker.world else w;
    RestartStep(CrashStep(before, life.kept, life.synced), life.repair)
  }

  function Lives(w: World, lives: seq<Life>, config: Config): World {
    if lives == [] then w else Live(Lives(w, lives[..|lives| - 1], config), lives[|lives| - 1], config)
  }

  lemma StepKeepsGood(s: State, action: Action, config: Config)
    requires Good(s.worker.world)
    ensures Good(Next(s, action, config).worker.world)
    ensures s.worker.world.acked <= Next(s, action, config).worker.world.acked
  {
    hide GatewayStep, SocketStep, Good, BatchStep, Outcome;
    GatewayLeavesWorker(s, config);
    if action.WorkerMoves? && s.worker.pc.Ready? {
      var cs := Commands(s.worker.pc.batch);
      BatchKeepsGood(s.worker.world, cs, action.io);
      AcksGrow(s.worker.world, cs, action.io);
    }
  }

  lemma AcksGrow(w: World, cs: seq<Command>, io: BatchIo)
    ensures w.acked <= BatchStep(w, cs, io).acked
  {
    hide ExecuteBatch, Refusal, Acks;
  }

  lemma {:induction false} RunKeepsGood(s: State, actions: seq<Action>, config: Config)
    requires Good(s.worker.world)
    ensures Good(Behave(s, actions, config).worker.world)
    ensures s.worker.world.acked <= Behave(s, actions, config).worker.world.acked
  {
    hide Next, Good;
    if actions != [] {
      RunKeepsGood(s, actions[..|actions| - 1], config);
      StepKeepsGood(Behave(s, actions[..|actions| - 1], config), actions[|actions| - 1], config);
    }
  }

  lemma LifeKeepsGood(w: World, life: Life, config: Config)
    requires Good(w)
    ensures Good(Live(w, life, config)) && w.acked <= Live(w, life, config).acked
  {
    hide Good, Behave, Recover, JournalScan.ScanFile;
    if w.engine.Some? {
      RunKeepsGood(Init(w), life.actions, config);
    }
    var before := if w.engine.Some? then Behave(Init(w), life.actions, config).worker.world else w;
    CrashKeepsGood(before, life.kept, life.synced);
    RestartKeepsGood(CrashStep(before, life.kept, life.synced), life.repair);
  }

  lemma {:induction false} EveryLifeIsGood(w: World, lives: seq<Life>, config: Config)
    requires Good(w)
    ensures Good(Lives(w, lives, config)) && w.acked <= Lives(w, lives, config).acked
  {
    hide Good, Live;
    if lives != [] {
      EveryLifeIsGood(w, lives[..|lives| - 1], config);
      LifeKeepsGood(Lives(w, lives[..|lives| - 1], config), lives[|lives| - 1], config);
    }
  }

  /**
   An acknowledgement given in some life holds in every later one: the command stands in the
   synced part of the journal under its number, and replay gives it the acknowledged result.
   */
  lemma {:induction false} AcknowledgedForever(lives: seq<Life>, more: seq<Life>, i: nat, config: Config)
    requires i < |Lives(START, lives, config).acked|
    ensures var w := Lives(Lives(START, lives, config), more, config);
            && i < |w.acked| && w.acked[i] == Lives(START, lives, config).acked[i]
            && AckKept(w.acked[i], w.journal, w.disk.synced)
  {
    hide Lives, AckKept, OnDisk, InStep;
    StartIsGood();
    EveryLifeIsGood(START, lives, config);
    EveryLifeIsGood(Lives(START, lives, config), more, config);
  }

  // ---------- Results do get published ----------

  lemma FreshExchangeStarts()
    ensures Startable(START)
  {
    hide Good;
    StartIsGood();
  }

  /** A batch of a healthy engine whose system calls go well is applied. */
  lemma WellBatchIsApplied(w: World, cs: seq<Command>)
    requires Good(w) && w.engine.Some? && w.engine.value.healthy && cs != [] && |w.journal| + |cs| <= U64_MAX
    ensures Outcome(w, cs, BatchIo(AppendIo(JournalScan.FramesSize(cs), true), None)).Applied?
  {
    hide JournalScan.JournalOf, Run, AllKept, OnDisk, ExecuteBatch, JournalScan.FramesSize;
    var e := w.engine.value;
    assert e.writer == Writer(JournalScan.NextSequence(|w.journal|), false);
    BatchSucceeds(w.disk, e, cs, BatchIo(AppendIo(JournalScan.FramesSize(cs), true), None));
  }

  /** Executing and publishing, step by step, from a batch of one. */
  lemma WorkerPublishes(s: State, config: Config) returns (io: BatchIo)
    requires Safe(s, config) && Linear(START, s)
    requires s.worker.pc.Ready? && |s.worker.pc.batch| == 1 && !s.worker.failed && s.answered == []
    ensures var s' := WorkerStep(WorkerStep(s, io, config), io, config);
            && |s'.answered| == 1 && !s'.answered[0].UnavailableReply?
            && s'.gateway == s.gateway
  {
    hide Slots, Batches, Shutdown, Announced, Paused, Good, Run, Outcome, BatchStep, Summarize;
    var batch := s.worker.pc.batch;
    var cs := Commands(batch);
    assert s.worker.world.journal == [];
    WellBatchIsApplied(s.worker.world, cs);
    io := BatchIo(AppendIo(JournalScan.FramesSize(cs), true), None);
    OutcomeIsComplete(s.worker.world, cs, io);
    var s1 := WorkerStep(s, io, config);
    assert s1.worker.pc.Publishing?;
    RoomAfterExecution(s, io, config);
    SummaryIsNoRefusal(batch[0], Outcome(s.worker.world, cs, io).results[0]);
  }

  lemma RoomAfterExecution(s: State, io: BatchIo, config: Config)
    requires Safe(s, config) && s.worker.pc.Ready? && WorkerStep(s, io, config).worker.pc.Publishing?
    ensures var s1 := WorkerStep(s, io, config);
            !s1.shared.responses.closed && |s1.shared.responses.items| < config.maximumInFlight
  {
    hide Announced, Ordered, Paused, ExecuteStep;
  }

  lemma SummaryIsNoRefusal(request: EngineRequest, result: CommandResult)
    ensures !Summarize(request, result).UnavailableReply?
  {
  }

  /** From a fresh journal some run serves a client and publishes a result, under every configuration. */
  lemma ResultsArePublished(config: Config) returns (actions: seq<Action>)
    requires ValidConfig(config)
    ensures Startable(START)
    ensures var s := Behave(Init(START), actions, config);
            0 in s.gateway.connections && |s.answered| == 1 && !s.answered[0].UnavailableReply?
  {
    hide Safe, Linear, Behave, Init, WorkerStep, Good;
    FreshExchangeStarts();
    var run := PipelineBatches.Pileup(1);
    PipelineBatches.PileupReaches(START, 1, config);
    EveryRunIsSafe(START, run, config);
    EveryRunIsLinear(START, run, config);
    var s := Behave(Init(START), run, config);
    var io := WorkerPublishes(s, config);
    var moves := [WorkerMoves(io)] + ([WorkerMoves(io)] + []);
    actions := run + moves;
    PipelineDrain.BehaveConcat(Init(START), run, moves, config);
    PipelineBatches.PrefixRun(s, WorkerMoves(io), [WorkerMoves(io)] + [], config);
    PipelineBatches.PrefixRun(WorkerStep(s, io, config), WorkerMoves(io), [], config);
    PipelineBatches.EmptyRun(WorkerStep(WorkerStep(s, io, config), io, config), config);
  }
}
