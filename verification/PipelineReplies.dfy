/** The concurrent exchange answers like one book fed with the admitted commands in admission order. */
module PipelineReplies {
  import opened Domain
  import opened FlatBook
  import opened BookRuns
  import opened WireCodec
  import opened GatewayTypes
  import opened DurableEngine
  import opened DurableRuns
  import opened Pipeline
  import opened PipelineInvariants
  import opened PipelineSafety
  import opened JournalStorage
  import JournalScan

  /** Replies that are decided and not yet published. */
  function Decided(w: WorkerPc): seq<EngineResponse> {
    if w.Publishing? || w.Notifying? then w.replies else []
  }

  /** The answer to the i-th admitted request: its result, if the engine got that far. */
  function Answer(request: EngineRequest, results: seq<CommandResult>, i: nat): EngineResponse {
    if i < |results| then Summarize(request, results[i]) else Unavailable(request)
  }

  function Answers(admitted: seq<EngineRequest>, results: seq<CommandResult>, count: nat): (r: seq<EngineResponse>)
    requires count <= |admitted|
    ensures |r| == count
  {
    seq(count, i requires 0 <= i < count => Answer(admitted[i], results, i))
  }

  /** The results are those of a sequential run over the admitted commands, and the journal is their record. */
  ghost predicate Sequential(start: World, w: Worker, admitted: seq<EngineRequest>) {
    && |w.results| <= |admitted|
    && Good(w.world)
    && w.results == Run(Run(EMPTY, start.journal).0, Commands(admitted[..|w.results|])).1
    && start.journal + Commands(admitted[..|w.results|]) <= w.world.journal
    && w.world.journal <= start.journal + Commands(admitted)
  }

  /** Until it fails, the engine is in step with the journal. */
  ghost predicate InOrder(start: World, w: Worker, admitted: seq<EngineRequest>) {
    !w.failed ==>
      && |w.results| <= |admitted|
      && w.world.engine.Some? && w.world.engine.value.healthy
      && w.world.journal == start.journal + Commands(admitted[..|w.results|])
  }

  /** Every applied command is acknowledged, with its number, its result, and nothing else. */
  ghost predicate Acknowledged(start: World, w: Worker, admitted: seq<EngineRequest>) {
    && |w.results| <= |admitted|
    && w.world.acked == start.acked + Acks(|start.journal|, Commands(admitted[..|w.results|]), w.results)
  }

  /** Everything published or decided is the answer to its request. */
  ghost predicate Paired(w: Worker, admitted: seq<EngineRequest>, answered: seq<EngineResponse>) {
    var count := |answered| + |Decided(w.pc)|;
    && count <= |admitted|
    && answered + Decided(w.pc) == Answers(admitted, w.results, count)
    && (if w.failed then |w.results| <= |answered| else |w.results| == count)
  }

  ghost predicate Linear(start: World, s: State) {
    && Sequential(start, s.worker, s.admitted)
    && InOrder(start, s.worker, s.admitted)
    && Acknowledged(start, s.worker, s.admitted)
    && Paired(s.worker, s.admitted, s.answered)
  }

  // ---------- Sequences ----------

  lemma CommandsConcat(a: seq<EngineRequest>, b: seq<EngineRequest>)
    ensures Commands(a + b) == Commands(a) + Commands(b)
  {
  }

  // ---------- Admission ----------

  lemma AdmissionKeepsLinear(start: World, s: State, more: seq<EngineRequest>)
    requires Linear(start, s)
    ensures Linear(start, s.(admitted := s.admitted + more))
  {
    hide Good, Run, Commands, Acks, Answer;
    var (n, a) := (|s.worker.results|, s.admitted);
    assert (a + more)[..n] == a[..n];
    CommandsConcat(a, more);
    assert s.worker.world.journal <= start.journal + Commands(a) + Commands(more);
    assert start.journal + (Commands(a) + Commands(more)) == start.journal + Commands(a) + Commands(more);
    var count := |s.answered| + |Decided(s.worker.pc)|;
    assert Answers(a + more, s.worker.results, count) == Answers(a, s.worker.results, count);
  }

  // ---------- Execution ----------

  /** What a batch does to the world of a healthy engine. */
  lemma {:induction false} BatchEffect(w: World, cs: seq<Command>, io: BatchIo)
    requires Good(w) && w.engine.Some? && w.engine.value.healthy
    ensures var (w', outcome) := (BatchStep(w, cs, io), Outcome(w, cs, io));
            && Good(w') && w.journal <= w'.journal <= w.journal + cs
            && (outcome.Applied? ==>
                  && w'.engine.Some? && w'.engine.value.healthy && w'.journal == w.journal + cs
                  && outcome.results == Run(Run(EMPTY, w.journal).0, cs).1
                  && |outcome.results| == |cs| && w'.acked == w.acked + Acks(|w.journal|, cs, outcome.results))
            && (!outcome.Applied? ==> w'.acked == w.acked)
  {
    hide Run, Acks, JournalScan.JournalOf, OnDisk, AllKept, AppendBatch, Refusal, Good;
    BatchKeepsGood(w, cs, io);
    AppendedWasAccepted(w.disk, w.engine.value.writer, cs, io.append);
    HealthyBook(w);
  }

  lemma AppendedWasAccepted(d: Disk, w: Writer, cs: seq<Command>, io: AppendIo)
    ensures AppendBatch(d, w, cs, io).2.Appended? ==> Refusal(w, cs).None?
  {
    hide Refusal;
  }

  lemma HealthyBook(w: World)
    requires Good(w) && w.engine.Some? && w.engine.value.healthy
    ensures w.engine.value.book == Run(EMPTY, w.journal).0
  {
    hide Run, JournalScan.JournalOf, OnDisk, AllKept;
  }

  /** The world and the results after a batch was executed. */
  lemma ExecuteKeepsSequential(start: World, w: Worker, batch: seq<EngineRequest>, rest: seq<EngineRequest>,
                               admitted: seq<EngineRequest>, io: BatchIo)
    requires Sequential(start, w, admitted) && InOrder(start, w, admitted) && Acknowledged(start, w, admitted)
    requires !w.failed ==> admitted == admitted[..|w.results|] + batch + rest
    ensures var w' := ExecuteStep(w, batch, io);
            Sequential(start, w', admitted) && InOrder(start, w', admitted) && Acknowledged(start, w', admitted)
  {
    hide Good, Run, Acks, Commands, Summaries, Refusals, Outcome, BatchStep;
    if !w.failed {
      var (n, cs) := (|w.results|, Commands(batch));
      var done := Commands(admitted[..n]);
      var outcome := Outcome(w.world, cs, io);
      BatchEffect(w.world, cs, io);
      CommandsConcat(admitted[..n], batch);
      CommandsConcat(admitted[..n] + batch, rest);
      assert admitted[..n + |batch|] == admitted[..n] + batch;
      assert start.journal + (done + cs) == start.journal + done + cs;
      assert start.journal + (done + cs + Commands(rest)) == start.journal + done + cs + Commands(rest);
      RunConcat(EMPTY, start.journal, done);
      RunConcat(Run(EMPTY, start.journal).0, done, cs);
      if outcome.Applied? {
        AcksConcat(|start.journal|, done, w.results, cs, outcome.results);
        assert start.acked + (Acks(|start.journal|, done, w.results) + Acks(|w.world.journal|, cs, outcome.results))
            == w.world.acked + Acks(|w.world.journal|, cs, outcome.results);
      }
    }
  }

  lemma AcksConcat(count: nat, a: seq<Command>, ra: seq<CommandResult>, b: seq<Command>, rb: seq<CommandResult>)
    requires |a| == |ra| && |b| == |rb|
    ensures Acks(count, a + b, ra + rb) == Acks(count, a, ra) + Acks(count + |a|, b, rb)
  {
  }

  // ---------- Answers ----------

  /** Refusing the requests behind the last result. */
  lemma RefusalsAreAnswers(
    admitted: seq<EngineRequest>, results: seq<CommandResult>, count: nat, batch: seq<EngineRequest>,
    rest: seq<EngineRequest>)
    requires |results| <= count <= |admitted| && admitted[count..] == batch + rest
    ensures Answers(admitted, results, count) + Refusals(batch) == Answers(admitted, results, count + |batch|)
  {
    hide Summarize, Unavailable;
    forall j | 0 <= j < |batch|
      ensures admitted[count + j] == batch[j]
    {
      assert admitted[count..][j] == (batch + rest)[j];
    }
  }

  /** Summarizing the next results. */
  lemma SummariesAreAnswers(
    admitted: seq<EngineRequest>, results: seq<CommandResult>, more: seq<CommandResult>, batch: seq<EngineRequest>,
    rest: seq<EngineRequest>)
    requires |results| <= |admitted| && admitted[|results|..] == batch + rest && |more| == |batch|
    ensures Answers(admitted, results, |results|) + Summaries(batch, more)
         == Answers(admitted, results + more, |results| + |batch|)
  {
    hide Summarize, Unavailable;
    forall j | 0 <= j < |batch|
      ensures admitted[|results| + j] == batch[j]
    {
      assert admitted[|results|..][j] == (batch + rest)[j];
    }
  }

  lemma ExecuteKeepsPaired(w: Worker, batch: seq<EngineRequest>, rest: seq<EngineRequest>,
                           admitted: seq<EngineRequest>, answered: seq<EngineResponse>, io: BatchIo)
    requires Paired(w, admitted, answered) && w.pc == Ready(batch) && admitted[|answered|..] == batch + rest
    ensures Paired(ExecuteStep(w, batch, io), admitted, answered)
  {
    hide Answers, Summaries, Refusals, Outcome, BatchStep, Commands;
    OutcomeIsComplete(w.world, Commands(batch), io);
    assert answered + [] == answered;
    if w.failed {
      RefusalsAreAnswers(admitted, w.results, |answered|, batch, rest);
    } else {
      var outcome := Outcome(w.world, Commands(batch), io);
      if outcome.Applied? {
        SummariesAreAnswers(admitted, w.results, outcome.results, batch, rest);
      }
    }
  }

  lemma WorkerKeepsPaired(s: State, io: BatchIo, config: Config)
    requires Safe(s, config) && Paired(s.worker, s.admitted, s.answered)
    ensures var s' := WorkerStep(s, io, config); Paired(s'.worker, s'.admitted, s'.answered)
  {
    hide Slots, Paused, Answers, Refusals, ExecuteStep, Shutdown;
    assert s.answered + [] == s.answered;
    match s.worker.pc
    case Ready(batch) => ExecuteKeepsPaired(s.worker, batch, s.shared.requests.items, s.admitted, s.answered, io);
    case WakeFailed(batch) =>
      RefusalsAreAnswers(s.admitted, s.worker.results, |s.answered|, batch, s.shared.requests.items);
    case Publishing(batch, replies) =>
      PublishFindsRoom(s, config);
      assert s.answered + replies == s.answered + [replies[0]] + replies[1..];
    case _ =>
  }

  // ---------- Every step ----------

  lemma WorkerKeepsWorld(start: World, s: State, io: BatchIo, config: Config)
    requires Safe(s, config) && Linear(start, s)
    ensures var s' := WorkerStep(s, io, config);
            && Sequential(start, s'.worker, s'.admitted) && InOrder(start, s'.worker, s'.admitted)
            && Acknowledged(start, s'.worker, s'.admitted)
  {
    hide Slots, Announced, Paused, Answers, Refusals, ExecuteStep, Shutdown, Sequential, InOrder, Acknowledged;
    var (w, s') := (s.worker, WorkerStep(s, io, config));
    if w.pc.Ready? {
      assert s.admitted == s.admitted[..|s.answered|] + s.admitted[|s.answered|..];
      ExecuteKeepsSequential(start, w, w.pc.batch, s.shared.requests.items, s.admitted, io);
    } else {
      WorldOnly(start, w, s'.worker, s.admitted);
    }
  }

  lemma WorldOnly(start: World, w: Worker, w': Worker, admitted: seq<EngineRequest>)
    requires w'.world == w.world && w'.results == w.results && w'.failed == w.failed
    ensures Sequential(start, w, admitted) <==> Sequential(start, w', admitted)
    ensures InOrder(start, w, admitted) <==> InOrder(start, w', admitted)
    ensures Acknowledged(start, w, admitted) <==> Acknowledged(start, w', admitted)
  {
    hide Good, Run, Acks, Commands;
  }

  lemma GatewayKeepsLinear(start: World, s: State, config: Config)
    requires Linear(start, s)
    ensures Linear(start, GatewayStep(s, config))
  {
    hide Sequential, InOrder, Acknowledged, Paired, Deliver, NextPending, AdmitFailed, AdmitSucceeded, Candidate;
    var s' := GatewayStep(s, config);
    assert s'.worker == s.worker && s'.answered == s.answered;
    if s'.admitted != s.admitted {
      var request := Candidate(s.gateway, s.gateway.pc.source).value;
      AdmissionKeepsLinear(start, s, [request]);
    }
  }

  lemma NextKeepsLinear(start: World, s: State, action: Action, config: Config)
    requires Safe(s, config) && Linear(start, s)
    ensures Linear(start, Next(s, action, config))
  {
    hide Safe, Sequential, InOrder, Acknowledged, Paired, GatewayStep, SocketStep, WorkerStep;
    match action
    case GatewayMoves => GatewayKeepsLinear(start, s, config);
    case SocketActs(event) =>
    case WorkerMoves(io) =>
      WorkerKeepsPaired(s, io, config);
      WorkerKeepsWorld(start, s, io, config);
    case StopStored =>
    case StopWakes =>
  }

  lemma {:induction false} EveryRunIsLinear(start: World, actions: seq<Action>, config: Config)
    requires Good(start) && start.engine.Some? && start.engine.value.healthy && ValidConfig(config)
    ensures Linear(start, Behave(Init(start), actions, config))
  {
    hide Next, Safe, Good, Run;
    if actions == [] {
      assert start.journal + Commands([]) == start.journal;
      assert start.acked + Acks(|start.journal|, Commands([]), []) == start.acked;
    } else {
      hide Linear;
      var before := Behave(Init(start), actions[..|actions| - 1], config);
      EveryRunIsLinear(start, actions[..|actions| - 1], config);
      EveryRunIsSafe(start, actions[..|actions| - 1], config);
      NextKeepsLinear(start, before, actions[|actions| - 1], config);
    }
  }

  /** What a result or a refusal becomes on the wire. */
  ghost predicate Proper(request: EngineRequest, reply: EngineResponse) {
    && reply.connection == request.connection && reply.requestId == request.requestId
    && EncodeServer(ToWire(reply)) == Ok(Octets(reply))
    && (reply.SubmitReply? ==> request.command.SubmitLimitOrder?)
    && (reply.CancelReply? ==> request.command.CancelOrder?)
  }

  lemma AnswerIsProper(b: Book, cs: seq<Command>, request: EngineRequest, i: nat)
    requires i < |cs| ==> cs[i] == request.command
    ensures Proper(request, Answer(request, Run(b, cs).1, i))
  {
    hide Run, Apply, EncodeServer, Octets, ToWire;
    if i < |cs| {
      RunResult(b, cs, i);
      EveryResultEncodes(Run(b, cs[..i]).0, request);
      ResultMatchesCommand(Run(b, cs[..i]).0, request);
    } else {
      EveryResultEncodes(b, request);
    }
  }

  /**
   Every reply of every run, published or about to be, is addressed to its request, is a valid
   response frame, and is of the request's kind: no response is dropped because it cannot be
   encoded, and a result never meets a request of the other kind.
   */
  lemma {:induction false} EveryReplyIsProper(start: World, actions: seq<Action>, i: nat, config: Config)
    requires Good(start) && start.engine.Some? && start.engine.value.healthy && ValidConfig(config)
    requires var s := Behave(Init(start), actions, config); i < |s.answered + Decided(s.worker.pc)|
    ensures var s := Behave(Init(start), actions, config);
            i < |s.admitted| && Proper(s.admitted[i], (s.answered + Decided(s.worker.pc))[i])
  {
    hide Behave, Init, Good, Run, Proper;
    EveryRunIsLinear(start, actions, config);
    var s := Behave(Init(start), actions, config);
    AnswerIsProper(Run(EMPTY, start.journal).0, Commands(s.admitted[..|s.worker.results|]), s.admitted[i], i);
  }
}
