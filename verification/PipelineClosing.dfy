/** When a connection is given up, and why: no other reason ends it. */
module PipelineClosing {
  import opened WireCodec
  import opened GatewayTypes
  import opened DurableRuns
  import opened Pipeline
  import opened PipelineInvariants
  import opened PipelineSafety
  import opened PipelineReplies
  import opened PipelineIntake
  import DurableEngine
  import StreamSpec

  /** The rest of a malformed stream is admitted knowing that it is malformed. */
  ghost predicate Blames(g: Gateway) {
    Admitting(g.pc) && g.pc.source.FromReceive? && g.pc.source.failed ==>
      g.pc.source.connection in g.connections && g.connections[g.pc.source.connection].failure.Some?
  }

  /** If `g'` admits from a stream, `g` did, from the same one. */
  predicate SameSource(g: Gateway, g': Gateway) {
    Admitting(g'.pc) && g'.pc.source.FromReceive? ==>
      && Admitting(g.pc) && g.pc.source.FromReceive?
      && g'.pc.source.connection == g.pc.source.connection && g'.pc.source.failed == g.pc.source.failed
  }

  lemma BlamesTransfers(g: Gateway, g': Gateway)
    requires Blames(g) && SameInput(g.connections, g'.connections)
    requires SameSource(g, g')
    ensures Blames(g')
  {
  }

  lemma AdmissionPcs(g: Gateway, source: Source)
    ensures !Admitting(AdmitFailed(g, source).pc)
    ensures var pc := AdmitSucceeded(g, source).pc;
            Admitting(pc) && pc.source.FromReceive? ==>
              source.FromReceive? && pc.source.connection == source.connection && pc.source.failed == source.failed
  {
    hide SkipDead, MarkClosing, Retain;
  }

  lemma AdmitKeepsSource(s: State, config: Config)
    requires Admitting(s.gateway.pc)
    ensures SameSource(s.gateway, AdmitStep(s, config).gateway)
  {
    hide AdmitFailed, AdmitSucceeded, Candidate;
    AdmissionPcs(s.gateway, s.gateway.pc.source);
  }

  /** Admission stays with the stream it is about. */
  lemma GatewayKeepsSource(s: State, config: Config)
    ensures SameSource(s.gateway, GatewayStep(s, config).gateway)
  {
    hide AdmitStep, Deliver, NextPending;
    NextPendingPcs(s.gateway);
    if Admitting(s.gateway.pc) {
      AdmitKeepsSource(s, config);
    }
  }

  lemma GatewayKeepsBlames(s: State, id: nat, config: Config)
    requires Safe(s, config) && ValidConfig(config) && TakingIn(s, id, config) && Blames(s.gateway)
    ensures Blames(GatewayStep(s, config).gateway)
  {
    hide Slots, Batches, Ordered, Announced, Orderly, AllReading, Intake, AdmitStep, NextPending, Deliver, SameInput,
         Blames, GatewayStep;
    GatewayKeepsSource(s, config);
    GatewayKeepsInput(s, id, config);
    BlamesTransfers(s.gateway, GatewayStep(s, config).gateway);
  }

  lemma GatewayKeepsInput(s: State, id: nat, config: Config)
    requires Safe(s, config) && ValidConfig(config) && TakingIn(s, id, config)
    ensures SameInput(s.gateway.connections, GatewayStep(s, config).gateway.connections)
  {
    hide Slots, Batches, Ordered, Announced, Orderly, AllReading, Intake, AdmitStep, NextPending, Deliver, SameInput;
    if Admitting(s.gateway.pc) {
      AdmitKeepsIntake(s, id, config);
    } else {
      GatewayKeepsIntake(s, id, config);
    }
  }

  lemma SocketsKeepBlames(g: Gateway, event: SocketEvent, config: Config)
    requires Blames(g)
    ensures Blames(SocketStep(g, event, config))
  {
    hide StreamSpec.Feed;
  }

  lemma {:induction false} EveryRunBlames(start: World, actions: seq<Action>, config: Config)
    requires ValidConfig(config)
    ensures Blames(Behave(Init(start), actions, config).gateway)
  {
    if actions == [] {
    } else {
      hide Blames, GatewayStep, SocketStep, WorkerStep, Safe, TakingIn, Init;
      var (front, last) := (actions[..|actions| - 1], actions[|actions| - 1]);
      var before := Behave(Init(start), front, config);
      EveryRunBlames(start, front, config);
      EveryRunIsSafe(start, front, config);
      EveryRunTakesIn(start, front, 0, config);
      match last
      case GatewayMoves => GatewayKeepsBlames(before, 0, config);
      case SocketActs(event) => SocketsKeepBlames(before.gateway, event, config);
      case WorkerMoves(io) => WorkerLeavesGateway(before, io, config);
      case StopStored =>
      case StopWakes =>
    }
  }

  lemma WorkerLeavesGateway(s: State, io: DurableEngine.BatchIo, config: Config)
    ensures WorkerStep(s, io, config).gateway == s.gateway
  {
    hide ExecuteStep, Refusals;
  }

  /** The next response to be taken is one for `id` that does not fit its output any more. */
  predicate Overflows(s: State, id: nat, config: Config) {
    && s.gateway.pc.PopResponse? && s.shared.responses.items != []
    && s.shared.responses.items[0].connection == id && id in s.gateway.connections
    && |s.gateway.connections[id].output| + |Octets(s.shared.responses.items[0])| > config.outputLimit
  }

  lemma DeliverGivesUp(m: map<nat, Connection>, r: EngineResponse, id: nat, limit: nat)
    requires Alive(m, id) && !Alive(Deliver(m, r, limit), id) && EncodeServer(ToWire(r)) == Ok(Octets(r))
    ensures r.connection == id && |m[id].output| + |Octets(r)| > limit
  {
    hide EncodeServer, ToWire, Octets;
  }

  lemma AdmissionGivesUp(s: State, id: nat, config: Config)
    requires Admitting(s.gateway.pc) && Few(s.gateway) && Attending(s.gateway) && Blames(s.gateway)
    requires Alive(s.gateway.connections, id) && !Alive(AdmitStep(s, config).gateway.connections, id)
    ensures s.gateway.connections[id].failure.Some?
  {
    hide Retain, SkipDead, ToEngineRequest;
  }

  lemma GatewayGivesUp(s: State, id: nat, config: Config)
    requires !Admitting(s.gateway.pc)
    requires Alive(s.gateway.connections, id) && !Alive(GatewayStep(s, config).gateway.connections, id)
    requires s.shared.responses.items != [] ==>
               var r := s.shared.responses.items[0]; EncodeServer(ToWire(r)) == Ok(Octets(r))
    ensures Overflows(s, id, config)
  {
    hide EncodeServer, ToWire, Octets, Deliver, GatewayStep, Alive;
    AliveIsThere(s.gateway.connections, id);
    OnlyPopsDeliver(s, config);
    if s.gateway.pc.PopResponse? && s.shared.responses.items != [] {
      DeliverGivesUp(s.gateway.connections, s.shared.responses.items[0], id, config.outputLimit);
    }
  }

  lemma OnlyPopsDeliver(s: State, config: Config)
    requires !Admitting(s.gateway.pc)
    ensures GatewayStep(s, config).gateway.connections
         == if s.gateway.pc.PopResponse? && s.shared.responses.items != []
            then Deliver(s.gateway.connections, s.shared.responses.items[0], config.outputLimit)
            else s.gateway.connections
  {
    hide Deliver, SkipDead, AdmitStep;
  }

  lemma AliveIsThere(m: map<nat, Connection>, id: nat)
    requires Alive(m, id)
    ensures id in m
  {
  }

  lemma SocketGivesUp(g: Gateway, event: SocketEvent, id: nat, config: Config)
    requires Alive(g.connections, id) && !Alive(SocketStep(g, event, config).connections, id)
    ensures id in SocketStep(g, event, config).connections
    ensures event == Hangup(id) || event == SendFailed(id)
            || SocketStep(g, event, config).connections[id].failure.Some?
  {
    hide StreamSpec.Feed;
  }

  lemma NextResponseEncodes(start: World, actions: seq<Action>, config: Config)
    requires Good(start) && start.engine.Some? && start.engine.value.healthy && ValidConfig(config)
    ensures var items := Behave(Init(start), actions, config).shared.responses.items;
            items != [] ==> EncodeServer(ToWire(items[0])) == Ok(Octets(items[0]))
  {
    hide Behave, Init, Good, EncodeServer, ToWire, Octets, Slots, Batches, Shutdown, Announced, Paused;
    EveryRunIsSafe(start, actions, config);
    var s := Behave(Init(start), actions, config);
    if s.shared.responses.items != [] {
      var i := |s.answered| - |s.shared.responses.items|;
      EveryReplyIsProper(start, actions, i, config);
      assert (s.answered + Decided(s.worker.pc))[i] == s.answered[i] == s.shared.responses.items[0];
    }
  }

  /**
   In every run a connection that takes part goes on taking part until its peer hangs up, sending
   fails, its stream turns out malformed, or the next response does not fit its output bound.
   */
  lemma {:induction false} GivingUpHasReason(
    start: World, actions: seq<Action>, action: Action, id: nat, config: Config)
    requires Good(start) && start.engine.Some? && start.engine.value.healthy && ValidConfig(config)
    requires var s := Behave(Init(start), actions, config);
             Alive(s.gateway.connections, id) && !Alive(Next(s, action, config).gateway.connections, id)
    ensures var s := Behave(Init(start), actions, config);
            || action == SocketActs(Hangup(id)) || action == SocketActs(SendFailed(id))
            || (action.GatewayMoves? && Overflows(s, id, config))
            || Malformed(Next(s, action, config).gateway.connections, id, config)
  {
    hide Behave, Init, Good, GatewayStep, SocketStep, WorkerStep, Alive, Slots, Batches, Shutdown, Ordered, Announced,
         Paused, Intake, StreamSpec.Parse, Malformed, Overflows, Blames, AllReading, Few, Attending;
    var s := Behave(Init(start), actions, config);
    AliveIsThere(s.gateway.connections, id);
    EveryRunIsSafe(start, actions, config);
    EveryRunTakesIn(start, actions, id, config);
    EveryRunTakesIn(start, actions + [action], id, config);
    RunOneMore(Init(start), actions, action, config);
    EveryRunBlames(start, actions, config);
    NextResponseEncodes(start, actions, config);
    match action
    case GatewayMoves =>
      if Admitting(s.gateway.pc) {
        GatewayAdmits(s, config);
        AdmissionGivesUp(s, id, config);
        GatewayKeepsInput(s, id, config);
        FailureStays(s.gateway.connections, GatewayStep(s, config).gateway.connections, id, config);
      } else {
        GatewayGivesUp(s, id, config);
      }
    case SocketActs(event) =>
      SocketGivesUp(s.gateway, event, id, config);
      if event != Hangup(id) && event != SendFailed(id) {
        FailedIsMalformed(SocketStep(s.gateway, event, config).connections, id, config);
      }
    case WorkerMoves(io) => WorkerLeavesGateway(s, io, config);
    case StopStored =>
    case StopWakes =>
  }

  /** What the connection has sent is not a sequence of requests. */
  predicate Malformed(m: map<nat, Connection>, id: nat, config: Config) {
    id in m && StreamSpec.Parse(m[id].received, config.inputLimit).failure.Some?
  }

  lemma RunOneMore(s: State, actions: seq<Action>, action: Action, config: Config)
    ensures Behave(s, actions + [action], config) == Next(Behave(s, actions, config), action, config)
  {
    hide Next;
    assert (actions + [action])[..|actions|] == actions;
  }

  lemma GatewayAdmits(s: State, config: Config)
    requires Admitting(s.gateway.pc)
    ensures GatewayStep(s, config) == AdmitStep(s, config)
  {
    hide AdmitStep;
  }

  lemma FailedIsMalformed(m: map<nat, Connection>, id: nat, config: Config)
    requires AllReading(m, config.inputLimit) && id in m && m[id].failure.Some?
    ensures Malformed(m, id, config)
  {
    hide StreamSpec.Parse;
  }

  lemma FailureStays(m: map<nat, Connection>, m': map<nat, Connection>, id: nat, config: Config)
    requires SameInput(m, m') && AllReading(m, config.inputLimit) && id in m && m[id].failure.Some?
    ensures Malformed(m', id, config)
  {
    hide StreamSpec.Parse;
  }
}
