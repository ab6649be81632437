/** The shared objects carry out the steps of the exchange that are named after them. */
module PipelineObjects {
  import opened Domain
  import opened WireCodec
  import opened GatewayTypes
  import opened BoundedQueue
  import opened InFlight
  import opened OutputBuffer
  import opened DurableEngine
  import opened Pipeline

  /** The request queue and the limiter are in the state `h`. */
  ghost predicate AtRequests(
    queue: BoundedQueue<EngineRequest>, limiter: InFlightLimiter, h: Shared, config: Config)
    reads queue, limiter, limiter.active
  {
    && queue.Valid() && queue.capacity == config.requestCapacity && queue.Contents() == h.requests
    && limiter.Valid() && limiter.capacity == config.maximumInFlight && limiter.inFlight == h.inFlight
  }

  /** The admission of one request from beginning to end, when nobody comes between. */
  function Admission(s: State, config: Config): State
    requires s.gateway.pc.AdmitLoad?
  {
    var s1 := AdmitStep(s, config);
    if !s1.gateway.pc.AdmitAcquire? then s1
    else
      var s2 := AdmitStep(s1, config);
      if !s2.gateway.pc.AdmitPush? then s2
      else
        var s3 := AdmitStep(s2, config);
        if !s3.gateway.pc.AdmitUndo? then s3 else AdmitStep(s3, config)
  }

  predicate Admits(s: State, config: Config) {
    && !s.gateway.shutdownStarted && !s.shared.engineFailed
    && s.shared.inFlight < config.maximumInFlight && HasRoom(s.shared.requests, config.requestCapacity)
  }

  lemma AdmissionPcs(g: Gateway, source: Source)
    ensures !AdmitSucceeded(g, source).pc.AdmitUndo?
    ensures !AdmitFailed(g, source).pc.AdmitPush? && !AdmitFailed(g, source).pc.AdmitAcquire?
  {
    hide SkipDead, MarkClosing, Retain;
  }

  /** An admission takes a slot and a place, or leaves both as they were. */
  lemma {:induction false} AdmissionOutcome(s: State, request: EngineRequest, config: Config)
    requires s.gateway.pc.AdmitLoad? && Candidate(s.gateway, s.gateway.pc.source) == Some(request)
    ensures var (h, s') := (s.shared, Admission(s, config));
            if Admits(s, config)
            then && s'.shared == h.(inFlight := h.inFlight + 1, requests := Pushed(h.requests, request))
                 && s'.admitted == s.admitted + [request]
            else s'.shared == h && s'.admitted == s.admitted
  {
    hide AdmitFailed, AdmitSucceeded, ToEngineRequest, HasRoom, Pushed;
    var (g, source) := (s.gateway, s.gateway.pc.source);
    AdmissionPcs(g, source);
    AdmissionPcs(g.(pc := AdmitAcquire(source)), source);
    AdmissionPcs(g.(pc := AdmitPush(source)), source);
  }

  /** Reserves a slot, queues the request, and gives the slot back if there is no place for it. */
  method Admit(
    queue: BoundedQueue<EngineRequest>, limiter: InFlightLimiter, request: EngineRequest,
    shutdownStarted: bool, engineFailed: bool, ghost s: State, config: Config)
    returns (reservation: InFlightReservation?)
    requires AtRequests(queue, limiter, s.shared, config)
    requires s.gateway.pc.AdmitLoad? && Candidate(s.gateway, s.gateway.pc.source) == Some(request)
    requires shutdownStarted == s.gateway.shutdownStarted && engineFailed == s.shared.engineFailed
    modifies queue, limiter
    ensures AtRequests(queue, limiter, Admission(s, config).shared, config)
    ensures Admission(s, config).admitted == if reservation == null then s.admitted else s.admitted + [request]
    ensures reservation != null ==> fresh(reservation) && limiter.active == old(limiter.active) + {reservation}
    ensures reservation == null ==> limiter.active == old(limiter.active)
  {
    hide Admission, Candidate;
    AdmissionOutcome(s, request, config);
    if shutdownStarted || engineFailed {
      return null;
    }
    reservation := limiter.TryAcquire();
    if reservation == null {
      return;
    }
    var ok := queue.TryPush(request);
    if !ok {
      reservation.Release();
      assert limiter.active == old(limiter.active);
      reservation := null;
    }
  }

  /** Publishes a reply; a queue that is full or closed ends the process. */
  method Publish(
    queue: BoundedQueue<EngineResponse>, reply: EngineResponse, ghost s: State, ghost io: BatchIo, config: Config)
    returns (terminates: bool)
    requires queue.Valid() && queue.capacity == config.maximumInFlight && queue.Contents() == s.shared.responses
    requires s.worker.pc.Publishing? && s.worker.pc.batch != [] && s.worker.pc.replies != []
    requires reply == s.worker.pc.replies[0]
    modifies queue
    ensures queue.Valid() && queue.Contents() == WorkerStep(s, io, config).shared.responses
    ensures terminates <==> WorkerStep(s, io, config).worker.pc.Terminated?
  {
    var ok := queue.TryPush(reply);
    terminates := !ok;
  }

  /** The buffer of a connection is in the state `c`. */
  ghost predicate AtConnection(buffer: ConnectionOutputBuffer, c: Connection)
    reads buffer
  {
    buffer.Valid() && buffer.Pending() == c.output && buffer.sent == c.sent
  }

  /** Queues the octets of a response, or gives the connection up. */
  method QueueResponse(buffer: ConnectionOutputBuffer, r: EngineResponse, ghost m: map<nat, Connection>, limit: nat)
    returns (closing: bool)
    requires Alive(m, r.connection) && AtConnection(buffer, m[r.connection])
    modifies buffer
    ensures AtConnection(buffer, Deliver(m, r, limit)[r.connection])
    ensures closing <==> Deliver(m, r, limit)[r.connection].closing
  {
    hide EncodeServer, ToWire;
    var encoded := EncodeServer(ToWire(r));
    if encoded.Ok? {
      var ok := buffer.Append(encoded.value, limit);
      if ok {
        return false;
      }
    }
    buffer.Clear();
    return true;
  }

  /** Takes one response, hands it on if its connection still takes part, and gives its slot back. */
  method DrainCompletion(
    queue: BoundedQueue<EngineResponse>, limiter: InFlightLimiter, reservation: InFlightReservation,
    buffer: ConnectionOutputBuffer?, ghost s: State, config: Config)
    returns (closing: bool)
    requires queue.Valid() && queue.Contents() == s.shared.responses && queue.items != []
    requires limiter.Valid() && limiter.inFlight == s.shared.inFlight && reservation in limiter.active
    requires s.gateway.pc.PopResponse?
    requires buffer != null <==> Alive(s.gateway.connections, queue.items[0].connection)
    requires buffer != null ==> AtConnection(buffer, s.gateway.connections[queue.items[0].connection])
    modifies queue, limiter, reservation, buffer
    ensures var s' := GatewayStep(GatewayStep(s, config), config);
            && queue.Valid() && queue.Contents() == s'.shared.responses
            && limiter.Valid() && limiter.inFlight == s'.shared.inFlight
            && limiter.active == old(limiter.active) - {reservation}
            && s'.gateway.pc == s.gateway.pc
            && if buffer == null then s'.gateway.connections == s.gateway.connections
               else var id := old(queue.items[0].connection);
                    && AtConnection(buffer, s'.gateway.connections[id])
                    && (closing <==> s'.gateway.connections[id].closing)
  {
    hide AdmitStep, NextPending, EncodeServer, ToWire;
    var popped := queue.TryPop();
    SlotIsHeld(limiter, reservation);
    closing := false;
    if buffer != null {
      hide Deliver;
      closing := QueueResponse(buffer, popped.value, s.gateway.connections, config.outputLimit);
    }
    reservation.Release();
  }

  lemma SlotIsHeld(limiter: InFlightLimiter, reservation: InFlightReservation)
    requires limiter.Valid() && reservation in limiter.active
    ensures 0 < limiter.inFlight && reservation.owner == limiter
  {
    assert limiter.active != {};
  }

  /** The send steps of a flush: what was taken, and, after a failure, the loss of the rest. */
  function SendSteps(g: Gateway, id: nat, count: nat, fatal: bool, config: Config): Gateway {
    var sent := SocketStep(g, Send(id, count), config);
    if fatal then SocketStep(sent, SendFailed(id), config) else sent
  }

  lemma SendStepsOutcome(g: Gateway, id: nat, count: nat, fatal: bool, config: Config)
    requires (g.pc.Sockets? || g.pc.Done?) && id in g.connections && g.connections[id].open
    requires count <= |g.connections[id].output|
    ensures var (c, g') := (g.connections[id], SendSteps(g, id, count, fatal, config));
            && id in g'.connections && g'.connections[id].sent == c.sent + c.output[..count]
            && g'.connections[id].output == if fatal then [] else c.output[count..]
  {
    hide ReceiveStep;
  }

  /** Flushes a connection: what the socket takes is sent, and a failure gives the rest up. */
  method FlushOutput(
    buffer: ConnectionOutputBuffer, answers: seq<SendAnswer>, ghost g: Gateway, id: nat, config: Config)
    returns (result: FlushResult)
    requires (g.pc.Sockets? || g.pc.Done?) && id in g.connections && g.connections[id].open
    requires AtConnection(buffer, g.connections[id])
    modifies buffer
    ensures var (count, end) := Flushed(|old(buffer.Pending())|, answers);
            var g' := SendSteps(g, id, count, end.Fatal?, config);
            result == end && id in g'.connections && AtConnection(buffer, g'.connections[id])
  {
    hide Flushed, SendSteps;
    ghost var flushed := Flushed(|buffer.Pending()|, answers);
    SendStepsOutcome(g, id, flushed.0, flushed.1.Fatal?, config);
    result := buffer.Flush(answers);
    if result.Fatal? {
      buffer.Clear();
    }
  }
}
