/** From received octets to admitted requests: per connection, in order, without loss or duplication. */
module PipelineIntake {
  import opened Domain
  import opened Bytes
  import opened WireCodec
  import opened WireLaws
  import opened StreamSpec
  import opened StreamParser
  import opened GatewayTypes
  import opened DurableRuns
  import opened Pipeline
  import opened PipelineInvariants
  import opened PipelineSafety

  // ---------- What one connection has asked for ----------

  function FromStream(connection: nat, rs: seq<Request>): (r: seq<EngineRequest>)
    ensures |r| == |rs|
  {
    seq(|rs|, i requires 0 <= i < |rs| => ToEngineRequest(connection, rs[i]))
  }

  function Queued(pending: seq<Pending>): (r: seq<EngineRequest>)
    ensures |r| == |pending|
  {
    seq(|pending|, i requires 0 <= i < |pending| => ToEngineRequest(pending[i].connection, pending[i].request))
  }

  /** Requests that are parsed and not yet admitted, in the order in which they will be. */
  function Line(g: Gateway): seq<EngineRequest> {
    (if Admitting(g.pc) && g.pc.source.FromReceive? then FromStream(g.pc.source.connection, g.pc.source.rest) else [])
    + Queued(g.pending)
  }

  /** The requests of one connection among others. */
  function Of(rs: seq<EngineRequest>, id: nat): seq<EngineRequest> {
    if rs == [] then []
    else Of(rs[..|rs| - 1], id) + if rs[|rs| - 1].connection == id then [rs[|rs| - 1]] else []
  }

  lemma {:induction false} OfConcat(a: seq<EngineRequest>, b: seq<EngineRequest>, id: nat)
    ensures Of(a + b, id) == Of(a, id) + Of(b, id)
  {
    if b == [] {
      assert a + b == a;
    } else {
      var n := |b| - 1;
      assert (a + b)[..|a + b| - 1] == a + b[..n];
      OfConcat(a, b[..n], id);
    }
  }

  lemma {:induction false} OfOwn(rs: seq<EngineRequest>, id: nat)
    requires forall i :: 0 <= i < |rs| ==> rs[i].connection == id
    ensures Of(rs, id) == rs
  {
    if rs != [] {
      OfOwn(rs[..|rs| - 1], id);
    }
  }

  lemma {:induction false} OfOther(rs: seq<EngineRequest>, id: nat)
    requires forall i :: 0 <= i < |rs| ==> rs[i].connection != id
    ensures Of(rs, id) == []
  {
    if rs != [] {
      OfOther(rs[..|rs| - 1], id);
    }
  }

  // ---------- Invariants ----------

  /** The parser of a connection stands where the octets received so far put it. */
  ghost predicate Reading(c: Connection, limit: nat) {
    var p := Parse(c.received, limit);
    c.failure == p.failure && (c.failure.None? ==> c.unread == p.unread)
  }

  ghost predicate AllReading(connections: map<nat, Connection>, limit: nat) {
    forall id :: id in connections ==> Reading(connections[id], limit)
  }

  /** No receive yields more requests than its octets, with those left before, have room for. */
  ghost predicate Few(g: Gateway) {
    && SHORTEST_CLIENT_FRAME * |g.pending| < LONGEST_CLIENT_FRAME + RECEIVE_BUFFER_SIZE
    && (Admitting(g.pc) && g.pc.source.FromReceive? ==>
          SHORTEST_CLIENT_FRAME * |g.pc.source.rest| < LONGEST_CLIENT_FRAME + RECEIVE_BUFFER_SIZE)
  }

  /** Only requests of connections that still take part are admitted. */
  ghost predicate Attending(g: Gateway) {
    Admitting(g.pc) ==>
      match g.pc.source
      case FromPending(_) => g.pending != [] && Alive(g.connections, g.pending[0].connection)
      case FromReceive(connection, rest, _) => Alive(g.connections, connection) && g.pending == [] && rest != []
  }

  /** What `id` has sent, as far as it has been parsed. */
  function Asked(c: Connection, id: nat, limit: nat): seq<EngineRequest> {
    FromStream(id, Parse(c.received, limit).requests)
  }

  /** The admitted requests of a connection are the first it has sent; with those in line, they are all. */
  ghost predicate Intake(g: Gateway, admitted: seq<EngineRequest>, id: nat, limit: nat) {
    if id !in g.connections then Of(admitted + Line(g), id) == []
    else
      var asked := Asked(g.connections[id], id, limit);
      && Of(admitted, id) <= asked
      && (Alive(g.connections, id) && !g.shutdownStarted ==> Of(admitted + Line(g), id) == asked)
  }

  /** Same connections, same input; none came back to life. */
  ghost predicate SameInput(m: map<nat, Connection>, m': map<nat, Connection>) {
    && m.Keys == m'.Keys
    && (forall id :: id in m ==>
          && m'[id].received == m[id].received && m'[id].unread == m[id].unread && m'[id].failure == m[id].failure)
    && (forall id :: Alive(m', id) ==> Alive(m, id))
  }

  // ---------- Parsing ----------

  /** A request takes up at least twenty-eight octets. */
  lemma {:induction false} RequestsAreFew(s: Bytes, limit: nat)
    ensures SHORTEST_CLIENT_FRAME * |Parse(s, limit).requests| <= |s|
    decreases |s|
  {
    hide DecodeClient;
    if s != [] {
      var window := s[..Min(|s|, limit)];
      if DecodeClient(window).Ok? {
        DecodedClientLength(window);
        RequestsAreFew(s[DecodeClient(window).value.consumed..], limit);
      }
    }
  }

  /** What is left unread contains no further request. */
  lemma {:induction false} UnreadIsSettled(s: Bytes, limit: nat)
    requires Parse(s, limit).failure.None?
    ensures Settled(Parse(s, limit).unread, limit)
    decreases |s|
  {
    hide DecodeClient;
    if s != [] {
      var window := s[..Min(|s|, limit)];
      if DecodeClient(window).Ok? {
        DecodedClientLength(window);
        UnreadIsSettled(s[DecodeClient(window).value.consumed..], limit);
      }
    }
  }

  /** One receive: the parser moves on as the octets do, and yields few requests. */
  lemma {:induction false} FeedReads(c: Connection, bytes: Bytes, limit: nat)
    requires Reading(c, limit) && |bytes| <= RECEIVE_BUFFER_SIZE
    ensures var p := Feed(Parsed([], c.failure, c.unread), bytes, limit);
            && Reading(c.(received := c.received + bytes, unread := p.unread, failure := p.failure), limit)
            && Parse(c.received + bytes, limit).requests == Parse(c.received, limit).requests + p.requests
            && SHORTEST_CLIENT_FRAME * |p.requests| < LONGEST_CLIENT_FRAME + RECEIVE_BUFFER_SIZE
  {
    hide Parse;
    ParseConcat(c.received, bytes, limit);
    if c.failure.None? {
      UnreadIsSettled(c.received, limit);
      SettledIsShort(c.unread, limit);
      RequestsAreFew(c.unread + bytes, limit);
    }
  }

  // ---------- The line ----------

  lemma QueuedConcat(a: seq<Pending>, b: seq<Pending>)
    ensures Queued(a + b) == Queued(a) + Queued(b)
  {
    hide ToEngineRequest;
  }

  /** Skipping the requests of closed connections takes nothing from the others. */
  lemma {:induction false} SkipKeepsOthers(pending: seq<Pending>, m: map<nat, Connection>, id: nat)
    ensures Alive(m, id) ==> Of(Queued(SkipDead(pending, m)), id) == Of(Queued(pending), id)
    ensures Of(Queued(pending), id) == [] ==> Of(Queued(SkipDead(pending, m)), id) == []
    ensures |SkipDead(pending, m)| <= |pending|
    ensures var p := SkipDead(pending, m); p == [] || Alive(m, p[0].connection)
  {
    hide Queued;
    if pending != [] && !Alive(m, pending[0].connection) {
      SkipKeepsOthers(pending[1..], m, id);
      HeadOfQueue(pending, id);
    }
  }

  lemma HeadOfQueue(pending: seq<Pending>, id: nat)
    requires pending != []
    ensures var head := ToEngineRequest(pending[0].connection, pending[0].request);
            && Queued(pending) == [head] + Queued(pending[1..])
            && Of(Queued(pending), id)
               == (if pending[0].connection == id then [head] else []) + Of(Queued(pending[1..]), id)
  {
    hide Queued, Of;
    var head := [ToEngineRequest(pending[0].connection, pending[0].request)];
    QueueSplits(pending);
    OfConcat(head, Queued(pending[1..]), id);
    if pending[0].connection == id {
      OfOwn(head, id);
    } else {
      OfOther(head, id);
    }
  }

  lemma QueueSplits(pending: seq<Pending>)
    requires pending != []
    ensures Queued(pending) == [ToEngineRequest(pending[0].connection, pending[0].request)] + Queued(pending[1..])
  {
    hide ToEngineRequest;
  }

  /** With room for all of them, the requests that were not admitted wait in their order. */
  lemma {:induction false} RetainKeepsAll(pending: seq<Pending>, connection: nat, rest: seq<Request>)
    requires |pending| + |rest| <= MAXIMUM_PENDING_REQUESTS
    ensures Queued(Retain(pending, connection, rest)) == Queued(pending) + FromStream(connection, rest)
    ensures |Retain(pending, connection, rest)| == |pending| + |rest|
    decreases |rest|
  {
    hide ToEngineRequest;
    if rest != [] {
      var next := Pending(connection, rest[0]);
      RetainKeepsAll(pending + [next], connection, rest[1..]);
      QueuedConcat(pending, [next]);
      assert FromStream(connection, rest) == [ToEngineRequest(connection, rest[0])] + FromStream(connection, rest[1..]);
    }
  }

  /** A request that was not admitted keeps its place; none is dropped. */
  lemma FailureKeepsLine(g: Gateway, source: Source)
    requires Admitting(g.pc) && g.pc.source == source && Attending(g) && Few(g)
    ensures var g' := AdmitFailed(g, source);
            && Line(g') == Line(g) && SameInput(g.connections, g'.connections) && Few(g') && !Admitting(g'.pc)
            && g'.shutdownStarted == g.shutdownStarted
  {
    hide Retain, Queued, FromStream;
    match source
    case FromPending(_) =>
    case FromReceive(connection, rest, _) =>
      RetainKeepsAll([], connection, rest);
      assert Queued([]) == [];
  }

  lemma NextPendingKeepsLine(g: Gateway, top: bool, id: nat)
    ensures var g' := NextPending(g, top);
            && (Alive(g.connections, id) ==> Of(Line(g'), id) == Of(Queued(g.pending), id))
            && (Of(Queued(g.pending), id) == [] ==> Of(Line(g'), id) == [])
            && g'.connections == g.connections && g'.shutdownStarted == g.shutdownStarted && Attending(g')
            && Line(g') == Queued(g'.pending) && |g'.pending| <= |g.pending|
            && (!Admitting(g'.pc) || g'.pc.source.FromPending?)
  {
    hide SkipDead, Queued, Of;
    SkipKeepsOthers(g.pending, g.connections, id);
    assert Queued([]) == [];
    EmptyLine(NextPending(g, top));
  }

  lemma EmptyLine(g: Gateway)
    requires !Admitting(g.pc) || g.pc.source.FromPending?
    ensures Line(g) == Queued(g.pending)
  {
  }

  lemma PendingAdvances(g: Gateway, top: bool, id: nat)
    requires Admitting(g.pc) && g.pc.source == FromPending(top) && Attending(g)
    ensures var (g', head) := (NextPending(g.(pending := g.pending[1..]), top),
                               ToEngineRequest(g.pending[0].connection, g.pending[0].request));
            && (Alive(g.connections, id) ==> Of([head] + Line(g'), id) == Of(Line(g), id))
            && (Of(Line(g), id) == [] ==> Of([head] + Line(g'), id) == [])
  {
    hide NextPending, Queued, Of, ToEngineRequest;
    var after := g.(pending := g.pending[1..]);
    var head := [ToEngineRequest(g.pending[0].connection, g.pending[0].request)];
    NextPendingKeepsLine(after, top, id);
    HeadOfQueue(g.pending, id);
    EmptyLine(g);
    OfConcat(head, Line(NextPending(after, top)), id);
    OfConcat(head, Queued(g.pending[1..]), id);
  }

  lemma ReceivedAdvances(g: Gateway, source: Source)
    requires Admitting(g.pc) && g.pc.source == source && Attending(g) && source.FromReceive?
    ensures Line(g) == [ToEngineRequest(source.connection, source.rest[0])] + Line(AdmitSucceeded(g, source))
  {
    hide Queued, FromStream, ToEngineRequest;
    StreamSplits(source.connection, source.rest);
    assert Queued([]) == [];
    assert FromStream(source.connection, []) == [];
  }

  /** An admitted request leaves the front of the line. */
  lemma SuccessAdvancesLine(g: Gateway, source: Source, id: nat)
    requires Admitting(g.pc) && g.pc.source == source && Attending(g)
    ensures var (g', x) := (AdmitSucceeded(g, source), Candidate(g, source));
            && x.Some? && Alive(g.connections, x.value.connection)
            && (Alive(g.connections, id) ==> Of([x.value] + Line(g'), id) == Of(Line(g), id))
            && (Of(Line(g), id) == [] ==> Of([x.value] + Line(g'), id) == [])
  {
    hide NextPending, Line, Of;
    match source
    case FromPending(top) => PendingAdvances(g, top, id);
    case FromReceive(_, _, _) => ReceivedAdvances(g, source);
  }

  lemma MarkClosingKeepsInput(m: map<nat, Connection>, id: nat, closing: bool)
    ensures SameInput(m, MarkClosing(m, id, closing))
  {
  }

  lemma SuccessKeepsRest(g: Gateway, source: Source)
    requires Admitting(g.pc) && g.pc.source == source && Attending(g) && Few(g)
    ensures var g' := AdmitSucceeded(g, source);
            && SameInput(g.connections, g'.connections) && Few(g') && Attending(g')
            && g'.shutdownStarted == g.shutdownStarted
  {
    hide NextPending, Line, Of, Queued, SameInput, MarkClosing;
    InputIsSame(g.connections);
    match source
    case FromPending(top) => NextPendingKeepsLine(g.(pending := g.pending[1..]), top, 0);
    case FromReceive(connection, _, failed) => MarkClosingKeepsInput(g.connections, connection, failed);
  }

  lemma InputIsSame(m: map<nat, Connection>)
    ensures SameInput(m, m)
  {
  }

  lemma StreamSplits(connection: nat, rest: seq<Request>)
    requires rest != []
    ensures FromStream(connection, rest) == [ToEngineRequest(connection, rest[0])] + FromStream(connection, rest[1..])
  {
    hide ToEngineRequest;
  }

  // ---------- The gateway's steps ----------

  lemma IntakeTransfers(g: Gateway, a: seq<EngineRequest>, g': Gateway, a': seq<EngineRequest>, id: nat, limit: nat)
    requires Intake(g, a, id, limit) && SameInput(g.connections, g'.connections)
    requires g.shutdownStarted ==> g'.shutdownStarted
    requires Of(a + Line(g), id) == [] ==> Of(a' + Line(g'), id) == []
    requires Alive(g'.connections, id) && !g'.shutdownStarted ==> Of(a' + Line(g'), id) == Of(a + Line(g), id)
    requires || Of(a', id) == Of(a, id)
             || (Alive(g.connections, id) && !g.shutdownStarted && Of(a', id) <= Of(a + Line(g), id))
    ensures Intake(g', a', id, limit)
  {
    hide Of, Line, FromStream, Parse;
  }

  ghost predicate Orderly(g: Gateway) {
    Few(g) && Attending(g)
  }

  lemma FailureKeepsIntake(g: Gateway, a: seq<EngineRequest>, id: nat, limit: nat)
    requires Admitting(g.pc) && Orderly(g) && Intake(g, a, id, limit)
    ensures var g' := AdmitFailed(g, g.pc.source);
            Orderly(g') && SameInput(g.connections, g'.connections) && Intake(g', a, id, limit)
  {
    hide Of, Line, SameInput, Intake, AdmitFailed, Few;
    FailureKeepsLine(g, g.pc.source);
    AliveStays(g.connections, AdmitFailed(g, g.pc.source).connections, id);
    IntakeTransfers(g, a, AdmitFailed(g, g.pc.source), a, id, limit);
  }

  lemma AliveStays(m: map<nat, Connection>, m': map<nat, Connection>, id: nat)
    requires SameInput(m, m')
    ensures Alive(m', id) ==> Alive(m, id)
  {
  }

  lemma SuccessKeepsIntake(g: Gateway, a: seq<EngineRequest>, id: nat, limit: nat)
    requires Admitting(g.pc) && Orderly(g) && Intake(g, a, id, limit) && !g.shutdownStarted
    ensures var (g', x) := (AdmitSucceeded(g, g.pc.source), Candidate(g, g.pc.source));
            && Orderly(g') && SameInput(g.connections, g'.connections)
            && x.Some? && Intake(g', a + [x.value], id, limit)
  {
    hide Of, Line, SameInput, Intake, AdmitSucceeded, Few, Attending, Candidate, Alive;
    SuccessAdvancesLine(g, g.pc.source, id);
    SuccessKeepsRest(g, g.pc.source);
    var (g', x) := (AdmitSucceeded(g, g.pc.source), [Candidate(g, g.pc.source).value]);
    AliveStays(g.connections, g'.connections, id);
    OfConcat(a, Line(g), id);
    OfConcat(a, x + Line(g'), id);
    assert a + x + Line(g') == a + (x + Line(g'));
    OfConcat(a, x, id);
    OfConcat(a + x, Line(g'), id);
    if x[0].connection != id {
      OfOther(x, id);
    }
    IntakeTransfers(g, a, g', a + x, id, limit);
  }

  lemma AdmitKeepsIntake(s: State, id: nat, config: Config)
    requires Admitting(s.gateway.pc) && Orderly(s.gateway) && !s.gateway.shutdownStarted
    requires Intake(s.gateway, s.admitted, id, config.inputLimit)
    ensures var s' := AdmitStep(s, config);
            && Orderly(s'.gateway) && SameInput(s.gateway.connections, s'.gateway.connections)
            && (s'.gateway.pc.Aborted? || Intake(s'.gateway, s'.admitted, id, config.inputLimit))
  {
    hide Of, AdmitFailed, AdmitSucceeded, Candidate, Parse, SameInput, Alive, Queued, FromStream;
    FailureKeepsIntake(s.gateway, s.admitted, id, config.inputLimit);
    SuccessKeepsIntake(s.gateway, s.admitted, id, config.inputLimit);
    InputIsSame(s.gateway.connections);
  }

  lemma DeliverKeepsInput(m: map<nat, Connection>, r: EngineResponse, limit: nat)
    ensures SameInput(m, Deliver(m, r, limit))
  {
    hide EncodeServer, ToWire;
  }

  /** Away from admission, steps of the gateway leave the line alone, skip dead requests, or clear it for shutdown. */
  lemma PassKeepsIntake(g: Gateway, g': Gateway, a: seq<EngineRequest>, id: nat, limit: nat)
    requires Intake(g, a, id, limit) && Orderly(g) && SameInput(g.connections, g'.connections)
    requires !Admitting(g.pc) && !Admitting(g'.pc) && (g.shutdownStarted ==> g'.shutdownStarted)
    requires g'.pending == g.pending || (g'.shutdownStarted && g'.pending == [])
    ensures Intake(g', a, id, limit) && Orderly(g')
  {
    hide Of, Queued, Parse, FromStream, SameInput, Intake;
    EmptyLine(g);
    EmptyLine(g');
    AliveStays(g.connections, g'.connections, id);
    OfConcat(a, Line(g), id);
    assert Queued([]) == [];
    assert a + [] == a;
    IntakeTransfers(g, a, g', a, id, limit);
  }

  lemma NextPendingKeepsIntake(g: Gateway, top: bool, a: seq<EngineRequest>, id: nat, limit: nat)
    requires Intake(g, a, id, limit) && Orderly(g) && !Admitting(g.pc)
    ensures var g' := NextPending(g, top);
            Intake(g', a, id, limit) && Orderly(g') && SameInput(g.connections, g'.connections)
  {
    hide Of, Queued, Parse, FromStream, SameInput, Intake, NextPending, Line;
    var g' := NextPending(g, top);
    NextPendingKeepsLine(g, top, id);
    EmptyLine(g);
    InputIsSame(g.connections);
    OfConcat(a, Line(g), id);
    OfConcat(a, Line(g'), id);
    IntakeTransfers(g, a, g', a, id, limit);
  }

  lemma GatewayKeepsIntake(s: State, id: nat, config: Config)
    requires !Admitting(s.gateway.pc) && Orderly(s.gateway)
    requires Intake(s.gateway, s.admitted, id, config.inputLimit)
    ensures var s' := GatewayStep(s, config);
            && Orderly(s'.gateway) && SameInput(s.gateway.connections, s'.gateway.connections)
            && Intake(s'.gateway, s'.admitted, id, config.inputLimit)
  {
    hide AdmitStep, NextPending, Deliver, Orderly, SameInput, Intake;
    var s' := GatewayStep(s, config);
    InputIsSame(s.gateway.connections);
    if s.gateway.pc.PendingCheck? && !s.gateway.shutdownStarted && !s.shared.engineFailed {
      NextPendingKeepsIntake(s.gateway, s.gateway.pc.top, s.admitted, id, config.inputLimit);
    } else {
      if s.gateway.pc.PopResponse? && s.shared.responses.items != [] {
        DeliverKeepsInput(s.gateway.connections, s.shared.responses.items[0], config.outputLimit);
      }
      PassKeepsIntake(s.gateway, s'.gateway, s.admitted, id, config.inputLimit);
    }
  }

  // ---------- Sockets ----------

  lemma AcceptKeepsIntake(g: Gateway, id': nat, a: seq<EngineRequest>, id: nat, config: Config)
    requires g.pc.Sockets? && Orderly(g) && Intake(g, a, id, config.inputLimit)
    requires AllReading(g.connections, config.inputLimit)
    ensures var g' := SocketStep(g, Accept(id'), config);
            Orderly(g') && Intake(g', a, id, config.inputLimit) && AllReading(g'.connections, config.inputLimit)
  {
    hide Of, Queued;
    var g' := SocketStep(g, Accept(id'), config);
    EmptyLine(g);
    EmptyLine(g');
    OfConcat(a, Line(g), id);
  }

  /** The connection of a receive has asked for what its parser has just yielded. */
  lemma ReceiveExtendsAsked(c: Connection, bytes: Bytes, id: nat, limit: nat)
    requires Reading(c, limit) && |bytes| <= RECEIVE_BUFFER_SIZE
    ensures var p := Feed(Parsed([], c.failure, c.unread), bytes, limit);
            Asked(c.(received := c.received + bytes, unread := p.unread, failure := p.failure), id, limit)
            == Asked(c, id, limit) + FromStream(id, p.requests)
  {
    hide Parse, Feed, Reading, ToEngineRequest;
    FeedReads(c, bytes, limit);
  }

  lemma OfStream(connection: nat, rs: seq<Request>, id: nat)
    ensures Of(FromStream(connection, rs), id) == if connection == id then FromStream(connection, rs) else []
  {
    if connection == id {
      OfOwn(FromStream(connection, rs), id);
    } else {
      OfOther(FromStream(connection, rs), id);
    }
  }

  /** A receive puts its requests in line and nothing else changes. */
  lemma ReceiveKeepsIntake(g: Gateway, id': nat, bytes: Bytes, a: seq<EngineRequest>, id: nat, config: Config)
    requires CanReceive(g, id', bytes) && g.pending == [] && AllReading(g.connections, config.inputLimit)
    requires Intake(g, a, id, config.inputLimit)
    ensures var g' := ReceiveStep(g, id', bytes, config);
            Intake(g', a, id, config.inputLimit)
  {
    hide Of, Queued, Parse, FromStream, Feed, Reading;
    var (c, limit) := (g.connections[id'], config.inputLimit);
    var g' := ReceiveStep(g, id', bytes, config);
    var p := Feed(Parsed([], c.failure, c.unread), bytes, limit);
    ReceiveExtendsAsked(c, bytes, id', limit);
    OfStream(id', p.requests, id);
    assert Queued([]) == [] && FromStream(id', []) == [];
    assert Line(g) == [] && Line(g') == FromStream(id', p.requests);
    OfConcat(a, FromStream(id', p.requests), id);
    assert a + [] == a;
  }

  lemma ReceiveKeepsOrderly(g: Gateway, id': nat, bytes: Bytes, config: Config)
    requires CanReceive(g, id', bytes) && g.pending == [] && AllReading(g.connections, config.inputLimit)
    ensures var g' := ReceiveStep(g, id', bytes, config);
            Orderly(g') && AllReading(g'.connections, config.inputLimit)
  {
    hide Parse, Feed;
    FeedReads(g.connections[id'], bytes, config.inputLimit);
  }

  lemma ReadingDependsOnInput(m: map<nat, Connection>, m': map<nat, Connection>, limit: nat)
    requires SameInput(m, m') && AllReading(m, limit)
    ensures AllReading(m', limit)
  {
    hide Parse;
  }

  lemma UpdateKeepsInput(m: map<nat, Connection>, id: nat, c: Connection)
    requires id in m && c.received == m[id].received && c.unread == m[id].unread && c.failure == m[id].failure
    requires c.open && !c.closing ==> m[id].open && !m[id].closing
    ensures SameInput(m, m[id := c])
  {
  }

  lemma OtherEventsKeepInput(g: Gateway, event: SocketEvent, config: Config)
    requires !event.Accept? && !event.Receive?
    ensures var g' := SocketStep(g, event, config);
            && SameInput(g.connections, g'.connections)
            && (g' != g ==> g.pc.Sockets? || g.pc.Done?)
            && g'.pc == g.pc && g'.pending == g.pending && g'.shutdownStarted == g.shutdownStarted
  {
    hide SameInput, ReceiveStep;
    InputIsSame(g.connections);
    if event.id in g.connections && SocketStep(g, event, config) != g {
      UpdateKeepsInput(g.connections, event.id, SocketStep(g, event, config).connections[event.id]);
    }
  }

  /** The gateway's side of the intake, for all connections and for `id` in particular. */
  ghost predicate TakingIn(s: State, id: nat, config: Config) {
    && Orderly(s.gateway) && AllReading(s.gateway.connections, config.inputLimit)
    && Intake(s.gateway, s.admitted, id, config.inputLimit)
  }

  lemma SocketsKeepTakingIn(s: State, event: SocketEvent, id: nat, config: Config)
    requires Safe(s, config) && TakingIn(s, id, config)
    ensures TakingIn(s.(gateway := SocketStep(s.gateway, event, config)), id, config)
  {
    hide Slots, Batches, Shutdown, Ordered, Announced, Orderly, AllReading, Intake, ReceiveStep, SameInput;
    var g := s.gateway;
    match event
    case Accept(id') =>
      if g.pc.Sockets? {
        AcceptKeepsIntake(g, id', s.admitted, id, config);
      }
    case Receive(id', bytes) =>
      if CanReceive(g, id', bytes) {
        ReceiveKeepsOrderly(g, id', bytes, config);
        ReceiveKeepsIntake(g, id', bytes, s.admitted, id, config);
      }
    case _ =>
      var g' := SocketStep(g, event, config);
      OtherEventsKeepInput(g, event, config);
      if g' != g {
        PassKeepsIntake(g, g', s.admitted, id, config.inputLimit);
        ReadingDependsOnInput(g.connections, g'.connections, config.inputLimit);
      }
  }

  lemma GatewayKeepsTakingIn(s: State, id: nat, config: Config)
    requires Safe(s, config) && ValidConfig(config) && TakingIn(s, id, config)
    ensures TakingIn(GatewayStep(s, config), id, config)
  {
    hide Slots, Batches, Ordered, Announced, Orderly, AllReading, Intake, AdmitStep, NextPending, Deliver, SameInput;
    GatewayKeepsSafe(s, config);
    var s' := GatewayStep(s, config);
    if Admitting(s.gateway.pc) {
      AdmitKeepsIntake(s, id, config);
    } else {
      GatewayKeepsIntake(s, id, config);
    }
    ReadingDependsOnInput(s.gateway.connections, s'.gateway.connections, config.inputLimit);
  }

  lemma NextKeepsTakingIn(s: State, action: Action, id: nat, config: Config)
    requires Safe(s, config) && ValidConfig(config) && TakingIn(s, id, config)
    ensures TakingIn(Next(s, action, config), id, config)
  {
    hide Safe, Orderly, AllReading, Intake, GatewayStep, SocketStep;
    match action
    case GatewayMoves => GatewayKeepsTakingIn(s, id, config);
    case SocketActs(event) => SocketsKeepTakingIn(s, event, id, config);
    case WorkerMoves(io) =>
    case StopStored =>
    case StopWakes =>
  }

  lemma {:induction false} EveryRunTakesIn(start: World, actions: seq<Action>, id: nat, config: Config)
    requires ValidConfig(config)
    ensures TakingIn(Behave(Init(start), actions, config), id, config)
  {
    hide Next, Safe;
    if actions == [] {
    } else {
      hide TakingIn;
      var before := Behave(Init(start), actions[..|actions| - 1], config);
      EveryRunTakesIn(start, actions[..|actions| - 1], id, config);
      EveryRunIsSafe(start, actions[..|actions| - 1], config);
      NextKeepsTakingIn(before, actions[|actions| - 1], id, config);
    }
  }

  /**
   What was admitted from a connection is, in order, what it sent first. While it takes part
   and nothing is shut down, nothing it sent is missing: the rest is in line.
   */
  lemma {:induction false} AdmittedIsPrefixOfStream(start: World, actions: seq<Action>, id: nat, config: Config)
    requires ValidConfig(config) && id in Behave(Init(start), actions, config).gateway.connections
    ensures var s := Behave(Init(start), actions, config);
            var asked := Asked(s.gateway.connections[id], id, config.inputLimit);
            && Of(s.admitted, id) <= asked
            && (Alive(s.gateway.connections, id) && !s.gateway.shutdownStarted ==>
                  Of(s.admitted + Line(s.gateway), id) == asked)
            && |s.gateway.pending| <= 147
  {
    hide Behave, Init, Of, Line, Asked, AllReading;
    EveryRunTakesIn(start, actions, id, config);
  }
}
