/** From published responses to sent octets: per connection, in order, complete while it takes part. */
module PipelineDelivery {
  import opened Domain
  import opened Bytes
  import opened WireCodec
  import opened GatewayTypes
  import opened DurableEngine
  import opened DurableRuns
  import opened Pipeline
  import opened PipelineInvariants
  import opened PipelineSafety
  import opened PipelineReplies
  import opened PipelineIntake
  import StreamSpec

  /** The octets of the responses to one connection, one after the other. */
  function Transcript(rs: seq<EngineResponse>, id: nat): Bytes {
    if rs == [] then []
    else Transcript(rs[..|rs| - 1], id) + if rs[|rs| - 1].connection == id then Octets(rs[|rs| - 1]) else []
  }

  /** The responses the gateway has taken from the queue. */
  function Taken(h: Shared, answered: seq<EngineResponse>): seq<EngineResponse>
    requires |h.responses.items| <= |answered|
  {
    answered[..|answered| - |h.responses.items|]
  }

  /** What was sent and what waits to be sent to a connection are its responses; all of them, while it takes part. */
  ghost predicate Sending(connections: map<nat, Connection>, taken: seq<EngineResponse>, id: nat, limit: nat) {
    id in connections ==>
      var c := connections[id];
      && c.sent + c.output <= Transcript(taken, id)
      && (Alive(connections, id) ==> c.sent + c.output == Transcript(taken, id))
      && |c.output| <= limit
  }

  ghost predicate Delivering(s: State, id: nat, config: Config) {
    && |s.shared.responses.items| <= |s.answered|
    && Sending(s.gateway.connections, Taken(s.shared, s.answered), id, config.outputLimit)
  }

  ghost predicate SameOutput(m: map<nat, Connection>, m': map<nat, Connection>, id: nat) {
    && (id in m <==> id in m')
    && (id in m ==> m'[id].sent == m[id].sent && m'[id].output == m[id].output)
    && (Alive(m', id) ==> Alive(m, id))
  }

  // ---------- Taking a response ----------

  lemma DeliverKeepsSending(m: map<nat, Connection>, taken: seq<EngineResponse>, r: EngineResponse, id: nat, limit: nat)
    requires Sending(m, taken, id, limit)
    ensures Sending(Deliver(m, r, limit), taken + [r], id, limit)
  {
    EncodedIsOctets(r);
    hide Octets, EncodeServer, ToWire;
    assert (taken + [r])[..|taken + [r]| - 1] == taken;
    if id in m && id == r.connection {
      var c := m[id];
      assert c.sent + (c.output + Octets(r)) == c.sent + c.output + Octets(r);
      assert c.sent + [] == c.sent;
    }
  }

  lemma EncodedIsOctets(r: EngineResponse)
    ensures EncodeServer(ToWire(r)).Ok? ==> EncodeServer(ToWire(r)).value == Octets(r)
  {
    hide ServerFrame;
  }

  lemma TakeOne(h: Shared, answered: seq<EngineResponse>)
    requires |h.responses.items| <= |answered|
    requires h.responses.items == answered[|answered| - |h.responses.items|..] && h.responses.items != []
    ensures Taken(h.(responses := h.responses.(items := h.responses.items[1..])), answered)
         == Taken(h, answered) + [h.responses.items[0]]
  {
  }

  lemma OutputTransfers(
    m: map<nat, Connection>, m': map<nat, Connection>, taken: seq<EngineResponse>, id: nat, limit: nat)
    requires Sending(m, taken, id, limit) && SameOutput(m, m', id)
    ensures Sending(m', taken, id, limit)
  {
    hide Transcript;
  }

  // ---------- Every step ----------

  lemma AdmitKeepsOutput(s: State, id: nat, config: Config)
    requires Admitting(s.gateway.pc)
    ensures var s' := AdmitStep(s, config);
            && SameOutput(s.gateway.connections, s'.gateway.connections, id)
            && s'.answered == s.answered && s'.shared.responses == s.shared.responses
  {
    hide Retain, SkipDead, ToEngineRequest;
  }

  lemma GatewayKeepsDelivering(s: State, id: nat, config: Config)
    requires Safe(s, config) && Delivering(s, id, config)
    ensures Delivering(GatewayStep(s, config), id, config)
  {
    hide Slots, Batches, Shutdown, Announced, Paused, SkipDead, Deliver, AdmitStep, Sending;
    var (s', taken) := (GatewayStep(s, config), Taken(s.shared, s.answered));
    if Admitting(s.gateway.pc) {
      AdmitKeepsOutput(s, id, config);
      OutputTransfers(s.gateway.connections, s'.gateway.connections, taken, id, config.outputLimit);
    } else if s.gateway.pc.PopResponse? && s.shared.responses.items != [] {
      TakeOne(s.shared, s.answered);
      DeliverKeepsSending(s.gateway.connections, taken, s.shared.responses.items[0], id, config.outputLimit);
    } else {
      assert s'.gateway.connections == s.gateway.connections && s'.shared.responses.items == s.shared.responses.items;
    }
  }

  lemma WorkerKeepsDelivering(s: State, io: BatchIo, id: nat, config: Config)
    requires Delivering(s, id, config)
    ensures Delivering(WorkerStep(s, io, config), id, config)
  {
    hide Sending, ExecuteStep, Refusals;
    var s' := WorkerStep(s, io, config);
    assert Taken(s'.shared, s'.answered) == Taken(s.shared, s.answered);
  }

  /** Nobody was answered on a connection that does not exist yet. */
  lemma {:induction false} NothingToStrangers(
    admitted: seq<EngineRequest>, results: seq<CommandResult>, count: nat, taken: nat, id: nat)
    requires taken <= count <= |admitted| && Of(admitted, id) == []
    ensures Transcript(Answers(admitted, results, count)[..taken], id) == []
    decreases taken
  {
    hide Octets;
    if taken > 0 {
      NothingToStrangers(admitted, results, count, taken - 1, id);
      var answers := Answers(admitted, results, count);
      assert answers[..taken][..taken - 1] == answers[..taken - 1];
      OfHasNone(admitted, id, taken - 1);
    }
  }

  lemma OfHasNone(rs: seq<EngineRequest>, id: nat, i: nat)
    requires i < |rs| && Of(rs, id) == []
    ensures rs[i].connection != id
  {
    assert rs == rs[..i] + [rs[i]] + rs[i + 1..];
    OfConcat(rs[..i] + [rs[i]], rs[i + 1..], id);
    OfConcat(rs[..i], [rs[i]], id);
  }

  lemma AcceptKeepsDelivering(s: State, id': nat, id: nat, config: Config)
    requires Safe(s, config) && Delivering(s, id, config) && TakingIn(s, id, config)
    requires Paired(s.worker, s.admitted, s.answered)
    ensures Delivering(s.(gateway := SocketStep(s.gateway, Accept(id'), config)), id, config)
  {
    hide Slots, Batches, Shutdown, Announced, Paused, Orderly, AllReading, Asked, Answers, Transcript, Of;
    if id' == id && id !in s.gateway.connections {
      var count := |s.answered| + |Decided(s.worker.pc)|;
      OfConcat(s.admitted, Line(s.gateway), id);
      var taken := |s.answered| - |s.shared.responses.items|;
      NothingToStrangers(s.admitted, s.worker.results, count, taken, id);
      assert (s.answered + Decided(s.worker.pc))[..taken] == s.answered[..taken];
    }
  }

  lemma ReceiveKeepsOutput(g: Gateway, id': nat, bytes: Bytes, id: nat, config: Config)
    requires CanReceive(g, id', bytes)
    ensures SameOutput(g.connections, ReceiveStep(g, id', bytes, config).connections, id)
  {
    hide StreamSpec.Feed;
  }

  lemma SocketsKeepDelivering(s: State, event: SocketEvent, id: nat, config: Config)
    requires Safe(s, config) && Delivering(s, id, config) && TakingIn(s, id, config)
    requires Paired(s.worker, s.admitted, s.answered)
    ensures Delivering(s.(gateway := SocketStep(s.gateway, event, config)), id, config)
  {
    hide Safe, TakingIn, Transcript, Paired, ReceiveStep;
    var (g, taken) := (s.gateway, Taken(s.shared, s.answered));
    match event
    case Accept(id') => AcceptKeepsDelivering(s, id', id, config);
    case Receive(id', bytes) =>
      if CanReceive(g, id', bytes) {
        ReceiveKeepsOutput(g, id', bytes, id, config);
        OutputTransfers(g.connections, ReceiveStep(g, id', bytes, config).connections, taken, id, config.outputLimit);
      }
    case Send(id', count) => SendKeepsSending(g, id', count, taken, id, config);
    case SendFailed(id') =>
      if id in g.connections {
        assert g.connections[id].sent + [] == g.connections[id].sent;
      }
    case _ =>
  }

  lemma SendKeepsSending(g: Gateway, id': nat, count: nat, taken: seq<EngineResponse>, id: nat, config: Config)
    requires Sending(g.connections, taken, id, config.outputLimit)
    ensures Sending(SocketStep(g, Send(id', count), config).connections, taken, id, config.outputLimit)
  {
    hide Transcript, ReceiveStep;
    if id in g.connections && count <= |g.connections[id].output| {
      var c := g.connections[id];
      assert c.sent + c.output[..count] + c.output[count..] == c.sent + c.output;
    }
  }

  lemma NextKeepsDelivering(s: State, action: Action, id: nat, config: Config)
    requires Safe(s, config) && Delivering(s, id, config) && TakingIn(s, id, config)
    requires Paired(s.worker, s.admitted, s.answered)
    ensures Delivering(Next(s, action, config), id, config)
  {
    hide Safe, TakingIn, Paired, Sending, GatewayStep, SocketStep, WorkerStep;
    match action
    case GatewayMoves => GatewayKeepsDelivering(s, id, config);
    case SocketActs(event) => SocketsKeepDelivering(s, event, id, config);
    case WorkerMoves(io) => WorkerKeepsDelivering(s, io, id, config);
    case StopStored =>
    case StopWakes =>
  }

  lemma {:induction false} EveryRunDelivers(start: World, actions: seq<Action>, id: nat, config: Config)
    requires Good(start) && start.engine.Some? && start.engine.value.healthy && ValidConfig(config)
    ensures Delivering(Behave(Init(start), actions, config), id, config)
  {
    hide Next, Safe, Good, TakingIn, Sequential, InOrder, Acknowledged, Paired;
    if actions == [] {
    } else {
      hide Delivering;
      var before := Behave(Init(start), actions[..|actions| - 1], config);
      EveryRunDelivers(start, actions[..|actions| - 1], id, config);
      EveryRunIsSafe(start, actions[..|actions| - 1], config);
      EveryRunIsLinear(start, actions[..|actions| - 1], config);
      EveryRunTakesIn(start, actions[..|actions| - 1], id, config);
      NextKeepsDelivering(before, actions[|actions| - 1], id, config);
    }
  }
}
