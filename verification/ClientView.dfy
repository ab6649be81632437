/** What a client makes of the exchange: commands go out as frames, and frames come back as results. */
module ClientView {
  import opened Domain
  import opened Bytes
  import opened WireCodec
  import opened WireLaws
  import opened StreamSpec
  import opened GatewayTypes
  import opened PipelineReplies
  import opened PipelineIntake
  import opened PipelineDelivery

  // A command under the id its answer will carry.
  datatype Call = Call(requestId: U64, command: Command)

  // ---------- Out ----------

  /** The message a client sends for a command, field by field. */
  function MessageOf(c: Command): ClientMessage {
    match c
    case SubmitLimitOrder(o) =>
      SubmitRequest(orderId := o.id, rawSide := o.side, limitPrice := o.limitPrice, quantity := o.quantity)
    case CancelOrder(id) => CancelRequest(orderId := id)
  }

  function RequestOf(call: Call): Request {
    Envelope(requestId := call.requestId, message := MessageOf(call.command))
  }

  function RequestsOf(calls: seq<Call>): (rs: seq<Request>)
    ensures |rs| == |calls|
  {
    seq(|calls|, i requires 0 <= i < |calls| => RequestOf(calls[i]))
  }

  /** The octets of a client's calls, one after the other. */
  function StreamOf(calls: seq<Call>): Bytes {
    EncodeAll(RequestsOf(calls))
  }

  /** The calls as the engine should get them. */
  function Received(connection: nat, calls: seq<Call>): (rs: seq<EngineRequest>)
    ensures |rs| == |calls|
  {
    seq(|calls|, i requires 0 <= i < |calls| =>
      EngineRequest(connection := connection, requestId := calls[i].requestId, command := calls[i].command))
  }

  /** A command that is encoded, sent, decoded and admitted is the same command. */
  lemma {:induction false} CallArrives(connection: nat, call: Call, rest: Bytes)
    ensures var decoded := DecodeClient(EncodeClient(RequestOf(call)) + rest);
            && decoded.Ok?
            && ToEngineRequest(connection, decoded.value.envelope)
               == EngineRequest(connection, call.requestId, call.command)
  {
    hide DecodeClient, EncodeClient;
    ClientRoundTrip(RequestOf(call), rest);
  }

  lemma FirstCalls(connection: nat, calls: seq<Call>, n: nat)
    requires n <= |calls|
    ensures FromStream(connection, RequestsOf(calls)[..n]) == Received(connection, calls)[..n]
  {
  }

  lemma ParsedIsPrefix(rs: seq<Request>, received: Bytes, limit: nat)
    requires received <= EncodeAll(rs)
    ensures Parse(received, limit).requests <= rs
  {
    hide Parse, EncodeAll;
    var s := EncodeAll(rs);
    assert s == received + s[|received|..];
    ParseConcat(received, s[|received|..], limit);
    StreamRoundTrip(rs, limit);
  }

  /** Whatever part of a client's stream has arrived, its requests are the first of its calls. */
  lemma {:induction false} CallsArriveInOrder(connection: nat, calls: seq<Call>, received: Bytes, limit: nat)
    requires received <= StreamOf(calls)
    ensures FromStream(connection, Parse(received, limit).requests) <= Received(connection, calls)
  {
    hide Parse, EncodeAll, RequestsOf, FromStream, Received;
    var parsed := Parse(received, limit).requests;
    ParsedIsPrefix(RequestsOf(calls), received, limit);
    FirstCalls(connection, calls, |parsed|);
    assert parsed == RequestsOf(calls)[..|parsed|];
  }

  // ---------- Back ----------

  /** A response says what became of a request, field by field. */
  predicate Tells(e: Envelope<ServerMessage>, requestId: U64, result: Option<CommandResult>) {
    && e.requestId == requestId
    && match result
       case None => e.message.UnavailableResponse?
       case Some(SubmitDone(r)) =>
         && e.message.SubmitResponse?
         && e.message.submitStatus == r.status && e.message.rejection == r.rejectionReason
         && e.message.executed == r.executedQuantity && e.message.resting == r.restingQuantity
       case Some(CancelDone(r)) =>
         && e.message.CancelResponse?
         && e.message.cancelStatus == r.status && e.message.cancelled == r.cancelledQuantity
  }

  /** The responses a client reads from what it gets. */
  function ReadAll(s: Bytes): seq<Envelope<ServerMessage>>
    decreases |s|
  {
    match DecodeServer(s)
    case Err(_) => []
    case Ok(d) => if 0 < d.consumed <= |s| then [d.envelope] + ReadAll(s[d.consumed..]) else []
  }

  function ReplyFrames(es: seq<Envelope<ServerMessage>>): Bytes {
    if es == [] then [] else ServerFrame(es[0]) + ReplyFrames(es[1..])
  }

  lemma {:induction false} ReplyFramesConcat(a: seq<Envelope<ServerMessage>>, b: seq<Envelope<ServerMessage>>)
    ensures ReplyFrames(a + b) == ReplyFrames(a) + ReplyFrames(b)
  {
    hide ServerFrame;
    if a == [] {
      assert a + b == b;
    } else {
      assert (a + b)[1..] == a[1..] + b;
      ReplyFramesConcat(a[1..], b);
    }
  }

  lemma OneFrame(e: Envelope<ServerMessage>)
    ensures ReplyFrames([e]) == ServerFrame(e)
  {
    hide ServerFrame;
    assert ReplyFrames([e][1..]) == [];
  }

  lemma ReadFirst(e: Envelope<ServerMessage>, rest: Bytes)
    requires ValidServerMessage(e.message)
    ensures ReadAll(ServerFrame(e) + rest) == [e] + ReadAll(rest)
  {
    hide DecodeServer;
    ServerRoundTrip(e, rest);
    assert (ServerFrame(e) + rest)[|ServerFrame(e)|..] == rest;
  }

  lemma ReadPart(e: Envelope<ServerMessage>, n: nat)
    requires ValidServerMessage(e.message) && n < |ServerFrame(e)|
    ensures ReadAll(ServerFrame(e)[..n]) == []
  {
    hide DecodeServer;
    ServerPrefixIsTruncated(e, n);
  }

  lemma ReadNothing()
    ensures ReadAll([]) == []
  {
  }

  /** Whatever part of the responses has arrived, a client reads the first of them, and all of them in the end. */
  lemma {:induction false} ReadsWhatWasSent(es: seq<Envelope<ServerMessage>>, s: Bytes)
    requires s <= ReplyFrames(es) && forall i :: 0 <= i < |es| ==> ValidServerMessage(es[i].message)
    ensures ReadAll(s) <= es
    ensures s == ReplyFrames(es) ==> ReadAll(s) == es
    decreases |es|
  {
    hide ReadAll, ServerFrame, ValidServerMessage;
    if es == [] {
      ReadNothing();
    } else {
      var frame := ServerFrame(es[0]);
      if |s| < |frame| {
        assert s == frame[..|s|];
        ReadPart(es[0], |s|);
      } else {
        var rest := s[|frame|..];
        assert s == frame + rest && rest <= ReplyFrames(es[1..]);
        ReadFirst(es[0], rest);
        ReadsWhatWasSent(es[1..], rest);
        assert es == [es[0]] + es[1..];
      }
    }
  }

  // ---------- One client among others ----------

  /** The places of a connection's requests among the first `count` admitted ones. */
  function Places(admitted: seq<EngineRequest>, count: nat, id: nat): (r: seq<nat>)
    requires count <= |admitted|
    ensures forall k :: 0 <= k < |r| ==> r[k] < count && admitted[r[k]].connection == id
    ensures forall j, k :: 0 <= j < k < |r| ==> r[j] < r[k]
  {
    if count == 0 then []
    else Places(admitted, count - 1, id) + if admitted[count - 1].connection == id then [count - 1] else []
  }

  lemma {:induction false} PlacesOfOwn(admitted: seq<EngineRequest>, count: nat, id: nat)
    requires count <= |admitted|
    ensures |Of(admitted[..count], id)| == |Places(admitted, count, id)|
    ensures forall k :: 0 <= k < |Places(admitted, count, id)| ==>
                          Of(admitted[..count], id)[k] == admitted[Places(admitted, count, id)[k]]
  {
    if count > 0 {
      PlacesOfOwn(admitted, count - 1, id);
      assert admitted[..count][..count - 1] == admitted[..count - 1];
    }
  }

  /** What is to be told about the request at place `i`. */
  function ResultAt(results: seq<CommandResult>, i: nat): Option<CommandResult> {
    if i < |results| then Some(results[i]) else None
  }

  /** The responses to one connection, as they go on the wire. */
  function RepliesTo(admitted: seq<EngineRequest>, results: seq<CommandResult>, count: nat, id: nat)
    : (es: seq<Envelope<ServerMessage>>)
    requires count <= |admitted|
    ensures |es| == |Places(admitted, count, id)|
  {
    var places := Places(admitted, count, id);
    seq(|places|, k requires 0 <= k < |places| => ToWire(Answer(admitted[places[k]], results, places[k])))
  }

  /** The requests at `places` are the first calls of the client on connection `id`. */
  ghost predicate AreCalls(admitted: seq<EngineRequest>, places: seq<nat>, id: nat, calls: seq<Call>) {
    && |places| <= |calls|
    && forall k :: 0 <= k < |places| ==>
                     && places[k] < |admitted|
                     && admitted[places[k]] == EngineRequest(id, calls[k].requestId, calls[k].command)
  }

  /** The responses tell, one by one, what became of the calls, whose results stand at `places`. */
  ghost predicate TellResults(
    read: seq<Envelope<ServerMessage>>, calls: seq<Call>, places: seq<nat>, results: seq<CommandResult>)
  {
    && |read| <= |places| && |read| <= |calls|
    && forall k :: 0 <= k < |read| ==> Tells(read[k], calls[k].requestId, ResultAt(results, places[k]))
  }

  lemma AnswerTells(request: EngineRequest, results: seq<CommandResult>, i: nat)
    ensures Tells(ToWire(Answer(request, results, i)), request.requestId, ResultAt(results, i))
  {
  }

  lemma RepliesStep(admitted: seq<EngineRequest>, results: seq<CommandResult>, count: nat, id: nat)
    requires 0 < count <= |admitted|
    ensures var last := Answer(admitted[count - 1], results, count - 1);
            RepliesTo(admitted, results, count, id)
            == RepliesTo(admitted, results, count - 1, id)
               + if admitted[count - 1].connection == id then [ToWire(last)] else []
  {
    hide ToWire, Answer;
    var places := Places(admitted, count - 1, id);
    assert Places(admitted, count, id)
        == places + if admitted[count - 1].connection == id then [count - 1] else [];
  }

  lemma TranscriptStep(admitted: seq<EngineRequest>, results: seq<CommandResult>, count: nat, id: nat)
    requires 0 < count <= |admitted|
    ensures var last := Answer(admitted[count - 1], results, count - 1);
            Transcript(Answers(admitted, results, count), id)
            == Transcript(Answers(admitted, results, count - 1), id)
               + if admitted[count - 1].connection == id then ServerFrame(ToWire(last)) else []
  {
    AnswerGoesBack(admitted[count - 1], results, count - 1);
    hide ServerFrame, ToWire, Answer;
    assert Answers(admitted, results, count)[..count - 1] == Answers(admitted, results, count - 1);
  }

  lemma NoReplies(admitted: seq<EngineRequest>, results: seq<CommandResult>, id: nat)
    ensures Transcript(Answers(admitted, results, 0), id) == ReplyFrames(RepliesTo(admitted, results, 0, id))
  {
  }

  lemma {:induction false} TranscriptIsReplies(
    admitted: seq<EngineRequest>, results: seq<CommandResult>, count: nat, id: nat)
    requires count <= |admitted|
    ensures Transcript(Answers(admitted, results, count), id) == ReplyFrames(RepliesTo(admitted, results, count, id))
    decreases count
  {
    hide ServerFrame, ToWire, Answer, Answers, Transcript, RepliesTo, ReplyFrames, Places;
    if count == 0 {
      NoReplies(admitted, results, id);
    } else {
      var e := ToWire(Answer(admitted[count - 1], results, count - 1));
      var before := RepliesTo(admitted, results, count - 1, id);
      TranscriptIsReplies(admitted, results, count - 1, id);
      TranscriptStep(admitted, results, count, id);
      RepliesStep(admitted, results, count, id);
      ReplyFramesConcat(before, [e]);
      OneFrame(e);
      assert before + [] == before;
    }
  }

  lemma AnswerGoesBack(request: EngineRequest, results: seq<CommandResult>, i: nat)
    ensures Answer(request, results, i).connection == request.connection
  {
  }
}
