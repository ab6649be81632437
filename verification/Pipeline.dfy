/**
 The exchange as one step machine: the gateway thread, the engine worker and whoever asks
 for a stop, interleaved. One step is one mutex section, one access to an atomic, or one
 socket event; everything a thread does to its own variables in between is part of the step.
 */
module Pipeline {
  import opened Domain
  import opened Bytes
  import opened StreamSpec
  import opened WireCodec
  import opened GatewayTypes
  import opened BoundedQueue
  import opened DurableEngine
  import opened DurableRuns

  const RECEIVE_BUFFER_SIZE: nat := 4096
  const MAXIMUM_PENDING_REQUESTS: nat := 4096

  datatype Config = Config(
    maximumInFlight: nat, requestCapacity: nat, maximumBatch: nat, inputLimit: nat, outputLimit: nat)

  /** What the servers demand of their configuration. */
  predicate ValidConfig(c: Config) {
    && 0 < c.maximumInFlight && 0 < c.requestCapacity && 0 < c.maximumBatch
    && SHORTEST_CLIENT_FRAME <= c.inputLimit && 0 < c.outputLimit
  }

  // `received` and `sent` are everything that ever came from or went to the socket. A
  // connection that has been closed stays, no longer open.
  datatype Connection = Connection(
    received: Bytes, unread: Bytes, failure: Option<WireError>, output: Bytes, sent: Bytes, closing: bool, open: bool)

  datatype Pending = Pending(connection: nat, request: Request)

  // Where a request being admitted comes from: the pending queue (first pass of the loop or
  // the one after a wake-up), or what one receive has just parsed.
  datatype Source =
    | FromPending(top: bool)
    | FromReceive(connection: nat, rest: seq<Request>, failed: bool)

  datatype GatewayPc =
    | LoadStop(top: bool)
    | CloseRequests(top: bool)
    | PopResponse(top: bool)
    | Release(top: bool)
    | PendingCheck(top: bool)
    | AdmitLoad(source: Source)
    | AdmitAcquire(source: Source)
    | AdmitPush(source: Source)
    | AdmitUndo(source: Source)
    | CheckClosed
    | CheckSize
    | Blocked
    | DrainSignal
    | Sockets
    | Done
    | Aborted

  // A batch that has been executed is published reply by reply.
  datatype WorkerPc =
    | Waiting
    | Collecting(batch: seq<EngineRequest>)
    | Ready(batch: seq<EngineRequest>)
    | StoreFailed(batch: seq<EngineRequest>)
    | StoreStop(batch: seq<EngineRequest>)
    | WakeFailed(batch: seq<EngineRequest>)
    | Publishing(batch: seq<EngineRequest>, replies: seq<EngineResponse>)
    | Notifying(batch: seq<EngineRequest>, replies: seq<EngineResponse>)
    | CloseResponses
    | LastNotify
    | Finished
    | Terminated

  // What both threads touch, each access being a step of its own.
  datatype Shared = Shared(
    requests: Queue<EngineRequest>, responses: Queue<EngineResponse>, inFlight: nat,
    stopRequested: bool, engineFailed: bool, signal: bool, stopsWaking: nat)

  datatype Gateway = Gateway(
    pc: GatewayPc, shutdownStarted: bool, readsPaused: bool, pending: seq<Pending>, connections: map<nat, Connection>)

  // `results` are the results of every command the engine has applied.
  datatype Worker = Worker(pc: WorkerPc, failed: bool, world: World, results: seq<CommandResult>)

  // Every request ever admitted and every response ever published, in that order.
  datatype State = State(
    shared: Shared, gateway: Gateway, worker: Worker, admitted: seq<EngineRequest>, answered: seq<EngineResponse>)

  function Init(world: World): State {
    State(Shared(Queue([], false), Queue([], false), 0, false, false, false, 0),
          Gateway(LoadStop(true), false, false, [], map[]), Worker(Waiting, false, world, []), [], [])
  }

  // ---------- The gateway thread ----------

  function AfterPending(top: bool): GatewayPc {
    if top then CheckClosed else Sockets
  }

  /** The connection still takes part: it is found and it is not about to close. */
  predicate Alive(connections: map<nat, Connection>, id: nat) {
    id in connections && connections[id].open && !connections[id].closing
  }

  function SkipDead(pending: seq<Pending>, connections: map<nat, Connection>): seq<Pending> {
    if pending != [] && !Alive(connections, pending[0].connection) then SkipDead(pending[1..], connections) else pending
  }

  /** Goes on with the next pending request, or stops pausing reads when there is none. */
  function NextPending(g: Gateway, top: bool): Gateway {
    var pending := SkipDead(g.pending, g.connections);
    if pending == [] then g.(pending := [], readsPaused := false, pc := AfterPending(top))
    else g.(pending := pending, pc := AdmitLoad(FromPending(top)))
  }

  function MarkClosing(connections: map<nat, Connection>, id: nat, closing: bool): map<nat, Connection> {
    if closing && id in connections then connections[id := connections[id].(closing := true)] else connections
  }

  /** Parsed requests that could not be admitted wait; beyond the bound they are dropped. */
  function Retain(pending: seq<Pending>, connection: nat, rest: seq<Request>): seq<Pending>
    decreases |rest|
  {
    if rest == [] then pending
    else if |pending| == MAXIMUM_PENDING_REQUESTS then Retain(pending, connection, rest[1..])
    else Retain(pending + [Pending(connection, rest[0])], connection, rest[1..])
  }

  function AdmitFailed(g: Gateway, source: Source): Gateway {
    match source
    case FromPending(top) => g.(readsPaused := true, pc := AfterPending(top))
    case FromReceive(connection, rest, failed) =>
      var overflow := |g.pending| + |rest| > MAXIMUM_PENDING_REQUESTS;
      g.(pending := Retain(g.pending, connection, rest), readsPaused := true,
         connections := MarkClosing(g.connections, connection, failed || overflow), pc := Sockets)
  }

  function AdmitSucceeded(g: Gateway, source: Source): Gateway {
    match source
    case FromPending(top) => NextPending(g.(pending := if g.pending == [] then [] else g.pending[1..]), top)
    case FromReceive(connection, rest, failed) =>
      if |rest| <= 1 then g.(connections := MarkClosing(g.connections, connection, failed), pc := Sockets)
      else g.(pc := AdmitLoad(FromReceive(connection, rest[1..], failed)))
  }

  /** The request that is being admitted. */
  function Candidate(g: Gateway, source: Source): Option<EngineRequest> {
    match source
    case FromPending(_) =>
      if g.pending == [] then None
      else Some(ToEngineRequest(g.pending[0].connection, g.pending[0].request))
    case FromReceive(connection, rest, _) =>
      if rest == [] then None else Some(ToEngineRequest(connection, rest[0]))
  }

  /** Hands a response to its connection; one that has no room for it, or gets none, is given up. */
  function Deliver(connections: map<nat, Connection>, r: EngineResponse, limit: nat): map<nat, Connection> {
    if !Alive(connections, r.connection) then connections
    else
      var c := connections[r.connection];
      var encoded := EncodeServer(ToWire(r));
      connections[r.connection :=
        if encoded.Ok? && |c.output| + |encoded.value| <= limit then c.(output := c.output + encoded.value)
        else c.(output := [], closing := true)]
  }

  function AdmitStep(s: State, config: Config): State
    requires s.gateway.pc.AdmitLoad? || s.gateway.pc.AdmitAcquire? || s.gateway.pc.AdmitPush? || s.gateway.pc.AdmitUndo?
  {
    var (h, g) := (s.shared, s.gateway);
    match g.pc
    case AdmitLoad(source) =>
      s.(gateway := if g.shutdownStarted || h.engineFailed then AdmitFailed(g, source)
                    else g.(pc := AdmitAcquire(source)))
    case AdmitAcquire(source) =>
      if h.inFlight >= config.maximumInFlight then s.(gateway := AdmitFailed(g, source))
      else s.(shared := h.(inFlight := h.inFlight + 1), gateway := g.(pc := AdmitPush(source)))
    case AdmitPush(source) =>
      var request := Candidate(g, source);
      if request.None? || !HasRoom(h.requests, config.requestCapacity)
      then s.(gateway := g.(pc := AdmitUndo(source)))
      else
        s.(shared := h.(requests := Pushed(h.requests, request.value)),
           gateway := AdmitSucceeded(g, source), admitted := s.admitted + [request.value])
    case AdmitUndo(source) =>
      if h.inFlight == 0 then s.(gateway := g.(pc := Aborted))
      else s.(shared := h.(inFlight := h.inFlight - 1), gateway := AdmitFailed(g, source))
  }

  function GatewayStep(s: State, config: Config): State {
    var (h, g) := (s.shared, s.gateway);
    match g.pc
    case LoadStop(top) =>
      s.(gateway := if h.stopRequested && !g.shutdownStarted
                    then g.(shutdownStarted := true, pending := [], pc := CloseRequests(top))
                    else g.(pc := PopResponse(top)))
    case CloseRequests(top) =>
      s.(shared := h.(requests := h.requests.(closed := true)), gateway := g.(pc := PopResponse(top)))
    case PopResponse(top) =>
      if h.responses.items == [] then s.(gateway := g.(pc := PendingCheck(top)))
      else
        s.(shared := h.(responses := Popped(h.responses)),
           gateway := g.(connections := Deliver(g.connections, h.responses.items[0], config.outputLimit),
                         pc := Release(top)))
    case Release(top) =>
      if h.inFlight == 0 then s.(gateway := g.(pc := Aborted))
      else s.(shared := h.(inFlight := h.inFlight - 1), gateway := g.(pc := PopResponse(top)))
    case PendingCheck(top) =>
      s.(gateway := if g.shutdownStarted || h.engineFailed then g.(pc := AfterPending(top)) else NextPending(g, top))
    case CheckClosed =>
      s.(gateway := g.(pc := if g.shutdownStarted && h.responses.closed then CheckSize else Blocked))
    case CheckSize => s.(gateway := g.(pc := if h.responses.items == [] then Done else Blocked))
    case Blocked => s.(gateway := g.(pc := if h.signal then DrainSignal else Sockets))
    case DrainSignal => s.(shared := h.(signal := false), gateway := g.(pc := LoadStop(false)))
    case Sockets => s.(gateway := g.(pc := LoadStop(true)))
    case Done => s
    case Aborted => s
    case _ => AdmitStep(s, config)
  }

  // ---------- Socket events ----------

  datatype SocketEvent =
    | Accept(id: nat)
    | Receive(id: nat, bytes: Bytes)
    | Hangup(id: nat)
    | Send(id: nat, count: nat)
    | SendFailed(id: nat)
    | Reap(id: nat)

  predicate CanReceive(g: Gateway, id: nat, bytes: Bytes) {
    && g.pc.Sockets? && Alive(g.connections, id) && !g.readsPaused && !g.shutdownStarted
    && 0 < |bytes| <= RECEIVE_BUFFER_SIZE
  }

  function ReceiveStep(g: Gateway, id: nat, bytes: Bytes, config: Config): Gateway
    requires CanReceive(g, id, bytes)
  {
    var c := g.connections[id];
    var p := Feed(Parsed([], c.failure, c.unread), bytes, config.inputLimit);
    var c' := c.(received := c.received + bytes, unread := p.unread, failure := p.failure);
    var connections := g.connections[id := c'];
    if p.requests == [] then g.(connections := MarkClosing(connections, id, p.failure.Some?))
    else g.(connections := connections, pc := AdmitLoad(FromReceive(id, p.requests, p.failure.Some?)))
  }

  function SocketStep(g: Gateway, event: SocketEvent, config: Config): Gateway {
    match event
    case Accept(id) =>
      if g.pc.Sockets? && !g.shutdownStarted && id !in g.connections
      then g.(connections := g.connections[id := Connection([], [], None, [], [], false, true)])
      else g
    case Receive(id, bytes) => if CanReceive(g, id, bytes) then ReceiveStep(g, id, bytes, config) else g
    case Hangup(id) =>
      if g.pc.Sockets? && id in g.connections && g.connections[id].open
      then g.(connections := MarkClosing(g.connections, id, true))
      else g
    case Send(id, count) =>
      if (g.pc.Sockets? || g.pc.Done?) && id in g.connections && g.connections[id].open
         && count <= |g.connections[id].output|
      then
        var c := g.connections[id];
        g.(connections := g.connections[id := c.(sent := c.sent + c.output[..count], output := c.output[count..])])
      else g
    case SendFailed(id) =>
      if (g.pc.Sockets? || g.pc.Done?) && id in g.connections && g.connections[id].open
      then g.(connections := g.connections[id := g.connections[id].(output := [], closing := true)])
      else g
    case Reap(id) =>
      if g.pc.Sockets? && id in g.connections && g.connections[id].closing && g.connections[id].output == []
      then g.(connections := g.connections[id := g.connections[id].(open := false)])
      else g
  }

  // ---------- The worker thread ----------

  function Commands(rs: seq<EngineRequest>): (cs: seq<Command>)
    ensures |cs| == |rs|
  {
    seq(|rs|, i requires 0 <= i < |rs| => rs[i].command)
  }

  function Summaries(rs: seq<EngineRequest>, results: seq<CommandResult>): (replies: seq<EngineResponse>)
    requires |rs| == |results|
    ensures |replies| == |rs|
  {
    seq(|rs|, i requires 0 <= i < |rs| => Summarize(rs[i], results[i]))
  }

  function Refusals(rs: seq<EngineRequest>): (replies: seq<EngineResponse>)
    ensures |replies| == |rs|
  {
    seq(|rs|, i requires 0 <= i < |rs| => Unavailable(rs[i]))
  }

  /** The results the engine gives for a batch, if it applies it. */
  function Outcome(world: World, cs: seq<Command>, io: BatchIo): BatchResult {
    if world.engine.None? then BatchFailed(EngineFailed)
    else ExecuteBatch(world.disk, world.engine.value, cs, io).2
  }

  function ExecuteStep(w: Worker, batch: seq<EngineRequest>, io: BatchIo): Worker {
    if w.failed then w.(pc := Publishing(batch, Refusals(batch)))
    else
      var outcome := Outcome(w.world, Commands(batch), io);
      var w' := w.(world := BatchStep(w.world, Commands(batch), io));
      if outcome.Applied? then
        if |outcome.results| != |batch| then w'.(pc := Terminated)
        else w'.(pc := Publishing(batch, Summaries(batch, outcome.results)), results := w.results + outcome.results)
      else w'.(failed := true, pc := StoreFailed(batch))
  }

  function WorkerStep(s: State, io: BatchIo, config: Config): State {
    var (h, w) := (s.shared, s.worker);
    match w.pc
    case Waiting =>
      if h.requests.items != []
      then s.(shared := h.(requests := Popped(h.requests)),
              worker := w.(pc := Collecting([h.requests.items[0]])))
      else if h.requests.closed then s.(worker := w.(pc := CloseResponses))
      else s
    case Collecting(batch) =>
      if |batch| < config.maximumBatch && h.requests.items != []
      then s.(shared := h.(requests := Popped(h.requests)),
              worker := w.(pc := Collecting(batch + [h.requests.items[0]])))
      else s.(worker := w.(pc := Ready(batch)))
    case Ready(batch) => s.(worker := ExecuteStep(w, batch, io))
    case StoreFailed(batch) => s.(shared := h.(engineFailed := true), worker := w.(pc := StoreStop(batch)))
    case StoreStop(batch) => s.(shared := h.(stopRequested := true), worker := w.(pc := WakeFailed(batch)))
    case WakeFailed(batch) => s.(shared := h.(signal := true), worker := w.(pc := Publishing(batch, Refusals(batch))))
    case Publishing(batch, replies) =>
      if batch == [] || replies == [] || !HasRoom(h.responses, config.maximumInFlight)
      then s.(worker := w.(pc := Terminated))
      else
        s.(shared := h.(responses := Pushed(h.responses, replies[0])),
           worker := w.(pc := Notifying(batch[1..], replies[1..])), answered := s.answered + [replies[0]])
    case Notifying(batch, replies) =>
      s.(shared := h.(signal := true), worker := w.(pc := if batch == [] then Waiting else Publishing(batch, replies)))
    case CloseResponses =>
      s.(shared := h.(responses := h.responses.(closed := true)), worker := w.(pc := LastNotify))
    case LastNotify => s.(shared := h.(signal := true), worker := w.(pc := Finished))
    case Finished => s
    case Terminated => s
  }

  // ---------- All together ----------

  datatype Action =
    | GatewayMoves
    | SocketActs(event: SocketEvent)
    | WorkerMoves(io: BatchIo)
    | StopStored
    | StopWakes

  function Next(s: State, action: Action, config: Config): State {
    match action
    case GatewayMoves => GatewayStep(s, config)
    case SocketActs(event) => s.(gateway := SocketStep(s.gateway, event, config))
    case WorkerMoves(io) => WorkerStep(s, io, config)
    case StopStored =>
      s.(shared := s.shared.(stopRequested := true, stopsWaking := s.shared.stopsWaking + 1))
    case StopWakes =>
      if s.shared.stopsWaking == 0 then s
      else s.(shared := s.shared.(signal := true, stopsWaking := s.shared.stopsWaking - 1))
  }

  function Behave(s: State, actions: seq<Action>, config: Config): State {
    if actions == [] then s else Next(Behave(s, actions[..|actions| - 1], config), actions[|actions| - 1], config)
  }
}
