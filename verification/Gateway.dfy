/** Requests and responses between the gateway and the engine worker. */
module GatewayTypes {
  import opened Domain
  import opened Bytes
  import opened FlatBook
  import opened BookRuns
  import opened WireCodec
  import opened StreamSpec

  datatype EngineRequest = EngineRequest(connection: nat, requestId: U64, command: Command)

  datatype EngineResponse =
    | SubmitReply(connection: nat, requestId: U64, submitStatus: SubmissionStatus,
                  reason: Option<RejectionReason>, executed: U64, resting: U64)
    | CancelReply(connection: nat, requestId: U64, cancelStatus: CancelStatus, cancelled: U64)
    | UnavailableReply(connection: nat, requestId: U64)

  /** Every octet is passed on as the side; the book decides which sides are valid. */
  function ToEngineRequest(connection: nat, r: Request): EngineRequest {
    EngineRequest(connection, r.requestId,
                  match r.message
                  case SubmitRequest(id, side, price, quantity) =>
                    SubmitLimitOrder(NewLimitOrder(id, side, price, quantity))
                  case CancelRequest(id) => CancelOrder(id))
  }

  /** The bounded answer to a request: a summary without the trades. */
  function Summarize(request: EngineRequest, result: CommandResult): EngineResponse {
    match result
    case SubmitDone(r) =>
      SubmitReply(request.connection, request.requestId, r.status, r.rejectionReason,
                  r.executedQuantity, r.restingQuantity)
    case CancelDone(r) => CancelReply(request.connection, request.requestId, r.status, r.cancelledQuantity)
  }

  function Unavailable(request: EngineRequest): EngineResponse {
    UnavailableReply(request.connection, request.requestId)
  }

  function ToWire(response: EngineResponse): Envelope<ServerMessage> {
    match response
    case SubmitReply(_, id, status, reason, executed, resting) =>
      Envelope(id, SubmitResponse(status, reason, executed, resting))
    case CancelReply(_, id, status, cancelled) => Envelope(id, CancelResponse(status, cancelled))
    case UnavailableReply(_, id) => Envelope(id, UnavailableResponse)
  }

  /** The octets of a response. */
  function Octets(response: EngineResponse): Bytes {
    ServerFrame(ToWire(response))
  }

  /** Whatever the book answers can be encoded. */
  lemma {:induction false} EveryResultEncodes(b: Book, request: EngineRequest)
    ensures EncodeServer(ToWire(Summarize(request, Apply(b, request.command).1)))
         == Ok(Octets(Summarize(request, Apply(b, request.command).1)))
    ensures EncodeServer(ToWire(Unavailable(request))) == Ok(Octets(Unavailable(request)))
  {
    hide ServerFrame, Match, Settled;
  }

  /** A command is answered by a result of its own kind, so a summary never mixes the two. */
  lemma {:induction false} ResultMatchesCommand(b: Book, request: EngineRequest)
    ensures request.command.SubmitLimitOrder? <==> Summarize(request, Apply(b, request.command).1).SubmitReply?
    ensures request.command.CancelOrder? <==> Summarize(request, Apply(b, request.command).1).CancelReply?
  {
    hide Match, Settled;
  }
}

/** The queue between the two threads; each operation is one mutex section. */
module BoundedQueue {
  import opened Domain

  datatype Queue<T> = Queue(items: seq<T>, closed: bool)

  predicate HasRoom<T>(q: Queue<T>, capacity: nat) {
    !q.closed && |q.items| < capacity
  }

  function Pushed<T>(q: Queue<T>, value: T): Queue<T> {
    q.(items := q.items + [value])
  }

  function Popped<T>(q: Queue<T>): Queue<T>
    requires q.items != []
  {
    q.(items := q.items[1..])
  }

  class BoundedQueue<T> {
    const capacity: nat
    var items: seq<T>
    var closed: bool

    ghost function Contents(): Queue<T>
      reads this
    {
      Queue(items, closed)
    }

    constructor (capacity: nat)
      ensures this.capacity == capacity && Valid() && Contents() == Queue([], false)
    {
      this.capacity, items, closed := capacity, [], false;
    }

    ghost predicate Valid()
      reads this
    {
      |items| <= capacity
    }

    method TryPush(value: T) returns (ok: bool)
      requires Valid()
      modifies this`items
      ensures Valid() && (ok <==> HasRoom(old(Contents()), capacity))
      ensures Contents() == if ok then Pushed(old(Contents()), value) else old(Contents())
    {
      if closed || |items| == capacity {
        return false;
      }
      items := items + [value];
      return true;
    }

    method TryPop() returns (value: Option<T>)
      requires Valid()
      modifies this`items
      ensures Valid()
      ensures old(items) == [] ==> value == None && Contents() == old(Contents())
      ensures old(items) != [] ==> value == Some(old(items)[0]) && Contents() == Popped(old(Contents()))
    {
      if items == [] {
        return None;
      }
      value := Some(items[0]);
      items := items[1..];
    }

    method Close()
      modifies this`closed
      ensures Contents() == old(Contents()).(closed := true)
    {
      closed := true;
    }
  }
}

/** The slots that bound how many requests are between admission and the end of their response. */
module InFlight {
  class InFlightLimiter {
    const capacity: nat
    var inFlight: nat
    var maximumObserved: nat
    // The reservations that have not been released.
    ghost var active: set<InFlightReservation>

    ghost predicate Valid()
      reads this, active
    {
      && inFlight == |active| && inFlight <= maximumObserved <= capacity
      && forall r :: r in active ==> r.owner == this
    }

    constructor (capacity: nat)
      ensures Valid() && this.capacity == capacity && active == {}
    {
      this.capacity, inFlight, maximumObserved, active := capacity, 0, 0, {};
    }

    method TryAcquire() returns (reservation: InFlightReservation?)
      requires Valid()
      modifies this
      ensures Valid()
      ensures reservation == null <==> old(inFlight) == capacity
      ensures reservation == null ==> active == old(active) && maximumObserved == old(maximumObserved)
      ensures reservation != null ==>
                && fresh(reservation) && active == old(active) + {reservation}
                && maximumObserved == if inFlight > old(maximumObserved) then inFlight else old(maximumObserved)
    {
      if inFlight == capacity {
        return null;
      }
      inFlight := inFlight + 1;
      if inFlight > maximumObserved {
        maximumObserved := inFlight;
      }
      reservation := new InFlightReservation(this);
      active := active + {reservation};
    }

    /** Gives a slot back; without a slot in use the process ends. */
    method ReleaseOne() returns (terminates: bool)
      modifies this`inFlight
      ensures terminates <==> old(inFlight) == 0
      ensures inFlight == if terminates then old(inFlight) else old(inFlight) - 1
    {
      if inFlight == 0 {
        return true;
      }
      inFlight := inFlight - 1;
      return false;
    }
  }

  class InFlightReservation {
    var owner: InFlightLimiter?

    constructor (owner: InFlightLimiter)
      ensures this.owner == owner
    {
      this.owner := owner;
    }

    /** Gives the slot back the first time, does nothing after that, and never ends the process. */
    method Release()
      requires owner != null ==> owner.Valid() && this in owner.active
      modifies this, owner
      ensures owner == null
      ensures old(owner) != null ==> old(owner).Valid() && old(owner).active == old(owner.active) - {this}
    {
      if owner == null {
        return;
      }
      var limiter := owner;
      var terminates := limiter.ReleaseOne();
      assert !terminates;
      limiter.active := limiter.active - {this};
      owner := null;
    }
  }
}

/** The octets waiting to be sent on one connection. */
module OutputBuffer {
  import opened Bytes

  datatype FlushResult = Drained | WouldBlock | Fatal

  // What one send call returns.
  datatype SendAnswer = Sent(count: nat) | Interrupted | Again | Broken

  /** How many of `n` waiting octets the answers let out, and how that ends. */
  function Flushed(n: nat, answers: seq<SendAnswer>): (r: (nat, FlushResult))
    ensures r.0 <= n && (r.1.Drained? <==> r.0 == n)
    decreases |answers|
  {
    if n == 0 then (0, Drained)
    else if answers == [] then (0, WouldBlock)
    else
      match answers[0]
      case Sent(count) =>
        if count == 0 || count > n then (0, Fatal)
        else
          var more := Flushed(n - count, answers[1..]);
          (count + more.0, more.1)
      case Interrupted => Flushed(n, answers[1..])
      case Again => (0, WouldBlock)
      case Broken => (0, Fatal)
  }

  lemma Sliced(s: Bytes, i: nat, n: nat)
    requires i + n <= |s|
    ensures s[i..i + n] == s[i..][..n] && s[i + n..] == s[i..][n..] && s[..i + n] == s[..i] + s[i..][..n]
  {
  }

  /** A flush of `n` octets that has sent `done` of them and goes on with the answers `rest`. */
  ghost predicate GoesOn(n: nat, answers: seq<SendAnswer>, done: nat, rest: seq<SendAnswer>) {
    done <= n && var more := Flushed(n - done, rest); Flushed(n, answers) == (done + more.0, more.1)
  }

  lemma GoesOnStep(n: nat, answers: seq<SendAnswer>, done: nat, rest: seq<SendAnswer>)
    requires GoesOn(n, answers, done, rest) && done < n
    ensures rest == [] ==> Flushed(n, answers) == (done, WouldBlock)
    ensures rest != [] ==>
              match rest[0]
              case Sent(count) =>
                if count == 0 || count > n - done then Flushed(n, answers) == (done, Fatal)
                else GoesOn(n, answers, done + count, rest[1..])
              case Interrupted => GoesOn(n, answers, done, rest[1..])
              case Again => Flushed(n, answers) == (done, WouldBlock)
              case Broken => Flushed(n, answers) == (done, Fatal)
  {
  }

  lemma GoesOnEnds(n: nat, answers: seq<SendAnswer>, rest: seq<SendAnswer>)
    ensures GoesOn(n, answers, 0, answers)
    ensures GoesOn(n, answers, n, rest) ==> Flushed(n, answers) == (n, Drained)
  {
  }

  class ConnectionOutputBuffer {
    var bytes: Bytes
    var offset: nat
    // Everything handed to the socket.
    ghost var sent: Bytes

    ghost predicate Valid()
      reads this
    {
      offset <= |bytes|
    }

    ghost function Pending(): Bytes
      requires Valid()
      reads this
    {
      bytes[offset..]
    }

    constructor ()
      ensures Valid() && Pending() == sent == []
    {
      bytes, offset, sent := [], 0, [];
    }

    method Append(more: Bytes, limit: nat) returns (ok: bool)
      requires Valid()
      modifies this`bytes, this`offset
      ensures Valid() && (ok <==> |old(Pending())| + |more| <= limit)
      ensures Pending() == if ok then old(Pending()) + more else old(Pending())
    {
      var pending := |bytes| - offset;
      if pending > limit || |more| > limit - pending {
        return false;
      }
      bytes, offset := bytes[offset..], 0;
      bytes := bytes + more;
      return true;
    }

    /** Of the octets `all` that were waiting when `before` had been sent, `done` more have been sent. */
    ghost predicate Progress(before: Bytes, all: Bytes, done: nat)
      reads this
    {
      && Valid() && done <= |all| && Pending() == all[done..] && sent == before + all[..done]
    }

    /** Counts what one call has sent; an empty buffer starts over. */
    method Advance(count: nat, ghost before: Bytes, ghost all: Bytes, ghost done: nat) returns (drained: bool)
      requires Progress(before, all, done) && done + count <= |all|
      modifies this`bytes, this`offset, this`sent
      ensures Progress(before, all, done + count)
      ensures drained <==> done + count == |all|
    {
      Sliced(bytes, offset, count);
      Sliced(all, done, count);
      sent := sent + bytes[offset..offset + count];
      assert before + (all[..done] + all[done..][..count]) == before + all[..done] + all[done..][..count];
      offset := offset + count;
      drained := offset == |bytes|;
      if drained {
        bytes, offset := [], 0;
      }
    }

    lemma ProgressMeans(before: Bytes, all: Bytes, done: nat)
      requires Progress(before, all, done)
      ensures Valid() && done <= |all| && |bytes| - offset == |all| - done
    {
    }

    /** Sends as much as the socket takes. */
    method Flush(answers: seq<SendAnswer>) returns (result: FlushResult)
      requires Valid()
      modifies this`bytes, this`offset, this`sent
      ensures Valid()
      ensures var (count, end) := Flushed(|old(Pending())|, answers);
              && result == end && sent == old(sent) + old(Pending())[..count]
              && Pending() == old(Pending())[count..]
    {
      ghost var all := Pending();
      result := FlushLoop(answers, sent, all);
    }

    method FlushLoop(answers: seq<SendAnswer>, ghost before: Bytes, ghost all: Bytes) returns (result: FlushResult)
      requires Progress(before, all, 0)
      modifies this`bytes, this`offset, this`sent
      ensures Progress(before, all, Flushed(|all|, answers).0) && result == Flushed(|all|, answers).1
    {
      hide Flushed, GoesOn, Progress;
      var rest := answers;
      ghost var done: nat := 0;
      GoesOnEnds(|all|, answers, rest);
      ProgressMeans(before, all, done);
      while offset < |bytes|
        invariant Progress(before, all, done) && done <= |all| && |bytes| - offset == |all| - done
        invariant GoesOn(|all|, answers, done, rest)
        decreases |rest|
      {
        GoesOnStep(|all|, answers, done, rest);
        if rest == [] {
          return WouldBlock;
        }
        var answer := rest[0];
        rest := rest[1..];
        match answer {
          case Sent(count) =>
            if count == 0 || count > |bytes| - offset {
              return Fatal;
            }
            var drained := Advance(count, before, all, done);
            done := done + count;
            ProgressMeans(before, all, done);
            if drained {
              GoesOnEnds(|all|, answers, rest);
              return Drained;
            }
          case Interrupted =>
          case Again => return WouldBlock;
          case Broken => return Fatal;
        }
      }
      GoesOnEnds(|all|, answers, rest);
      return Drained;
    }

    /** Drops what has not been sent. */
    method Clear()
      modifies this`bytes, this`offset
      ensures Valid() && Pending() == []
    {
      bytes, offset := [], 0;
    }
  }
}
