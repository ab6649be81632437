/** The frames exchanged with clients. */
module WireCodec {
  import opened Domain
  import opened Bytes

  datatype WireError =
    | TruncatedInput
    | UnexpectedTrailingBytes
    | BadMagic
    | UnsupportedVersion
    | UnsupportedMessageType
    | PayloadTooLarge
    | InvalidPayloadLength
    | MalformedPayload
    | BufferLimitExceeded

  datatype Result<+T> = Ok(value: T) | Err(error: WireError)

  datatype ClientMessage =
    | SubmitRequest(orderId: U64, rawSide: Octet, limitPrice: U64, quantity: U64)
    | CancelRequest(orderId: U64)

  datatype ProtocolErrorCode =
    | CodeBadMagic
    | CodeUnsupportedVersion
    | CodeUnsupportedMessageType
    | CodePayloadTooLarge
    | CodeInvalidPayloadLength
    | CodeMalformedPayload
    | CodeBufferLimitExceeded

  // A rejection of `None` is the wire's rejection code 0.
  datatype ServerMessage =
    | SubmitResponse(submitStatus: SubmissionStatus, rejection: Option<RejectionReason>, executed: U64, resting: U64)
    | CancelResponse(cancelStatus: CancelStatus, cancelled: U64)
    | ProtocolErrorResponse(code: ProtocolErrorCode)
    | UnavailableResponse

  datatype Envelope<+M> = Envelope(requestId: U64, message: M)

  datatype Decoded<+M> = Decoded(envelope: Envelope<M>, consumed: nat)

  const MAGIC: nat := 0x4D45_5847
  const VERSION: nat := 1
  const HEADER_SIZE: nat := 20
  const MAXIMUM_PAYLOAD_LENGTH: nat := 4096
  const LONGEST_CLIENT_FRAME: nat := 45
  const SHORTEST_CLIENT_FRAME: nat := 28

  const SUBMIT: nat := 1
  const CANCEL: nat := 2
  const SUBMIT_RESULT: nat := 101
  const CANCEL_RESULT: nat := 102
  const PROTOCOL_ERROR: nat := 103
  const UNAVAILABLE: nat := 104

  /** The payload length of a message type, if the type is known. */
  function PayloadLength(messageType: nat): Option<nat> {
    if messageType == SUBMIT then Some(25)
    else if messageType == CANCEL then Some(8)
    else if messageType == SUBMIT_RESULT then Some(18)
    else if messageType == CANCEL_RESULT then Some(9)
    else if messageType == PROTOCOL_ERROR then Some(2)
    else if messageType == UNAVAILABLE then Some(1)
    else None
  }

  predicate IsClientType(messageType: nat) {
    messageType == SUBMIT || messageType == CANCEL
  }

  // ---------- Headers ----------

  datatype Header = Header(messageType: nat, length: nat, requestId: U64)

  function EncodeHeader(h: Header): (s: Bytes)
    ensures |s| == HEADER_SIZE
  {
    BigEndian(MAGIC, 4) + BigEndian(VERSION, 2) + BigEndian(h.messageType, 2)
    + BigEndian(h.length, 4) + BigEndian(h.requestId, 8)
  }

  /** Every field is judged as soon as its octets are there. */
  function DecodeHeader(s: Bytes): Result<Header> {
    if |s| < 4 then Err(TruncatedInput)
    else if Value(s[0..4]) != MAGIC then Err(BadMagic)
    else if |s| < 6 then Err(TruncatedInput)
    else if Value(s[4..6]) != VERSION then Err(UnsupportedVersion)
    else if |s| < 8 then Err(TruncatedInput)
    else if PayloadLength(Value(s[6..8])).None? then Err(UnsupportedMessageType)
    else if |s| < 12 then Err(TruncatedInput)
    else if Value(s[8..12]) > MAXIMUM_PAYLOAD_LENGTH then Err(PayloadTooLarge)
    else if Value(s[8..12]) != PayloadLength(Value(s[6..8])).value then Err(InvalidPayloadLength)
    else if |s| < HEADER_SIZE then Err(TruncatedInput)
    else Ok(Header(Value(s[6..8]), Value(s[8..12]), U64At(s, 12)))
  }

  // ---------- Client frames ----------

  function ClientType(m: ClientMessage): nat {
    if m.SubmitRequest? then SUBMIT else CANCEL
  }

  function ClientPayload(m: ClientMessage): (s: Bytes)
    ensures |s| == PayloadLength(ClientType(m)).value
  {
    match m
    case SubmitRequest(id, side, price, quantity) =>
      BigEndian(id, 8) + [side] + BigEndian(price, 8) + BigEndian(quantity, 8)
    case CancelRequest(id) => BigEndian(id, 8)
  }

  function EncodeClient(e: Envelope<ClientMessage>): (s: Bytes)
    ensures |s| == HEADER_SIZE + PayloadLength(ClientType(e.message)).value
  {
    EncodeHeader(Header(ClientType(e.message), PayloadLength(ClientType(e.message)).value, e.requestId))
    + ClientPayload(e.message)
  }

  function DecodeClientPayload(messageType: nat, p: Bytes): ClientMessage
    requires IsClientType(messageType) && |p| == PayloadLength(messageType).value
  {
    if messageType == SUBMIT then SubmitRequest(U64At(p, 0), p[8], U64At(p, 9), U64At(p, 17))
    else CancelRequest(U64At(p, 0))
  }

  function DecodeClient(s: Bytes): Result<Decoded<ClientMessage>> {
    match DecodeHeader(s)
    case Err(error) => Err(error)
    case Ok(h) =>
      if !IsClientType(h.messageType) then Err(UnsupportedMessageType)
      else if |s| < HEADER_SIZE + h.length then Err(TruncatedInput)
      else
        Ok(Decoded(Envelope(h.requestId, DecodeClientPayload(h.messageType, s[HEADER_SIZE..HEADER_SIZE + h.length])),
                   HEADER_SIZE + h.length))
  }

  // ---------- Server frames ----------

  function ServerType(m: ServerMessage): nat {
    match m
    case SubmitResponse(_, _, _, _) => SUBMIT_RESULT
    case CancelResponse(_, _) => CANCEL_RESULT
    case ProtocolErrorResponse(_) => PROTOCOL_ERROR
    case UnavailableResponse => UNAVAILABLE
  }

  function RejectionCode(reason: Option<RejectionReason>): Octet {
    match reason
    case None => 0
    case Some(InvalidOrderId) => 1
    case Some(InvalidSide) => 2
    case Some(InvalidPrice) => 3
    case Some(InvalidQuantity) => 4
    case Some(DuplicateOrderId) => 5
    case Some(QuantityOverflow) => 6
    case Some(SequenceExhausted) => 7
    case Some(TradeIdExhausted) => 8
  }

  function DecodeRejection(code: Octet): Option<Option<RejectionReason>> {
    if code == 0 then Some(None)
    else if code == 1 then Some(Some(InvalidOrderId))
    else if code == 2 then Some(Some(InvalidSide))
    else if code == 3 then Some(Some(InvalidPrice))
    else if code == 4 then Some(Some(InvalidQuantity))
    else if code == 5 then Some(Some(DuplicateOrderId))
    else if code == 6 then Some(Some(QuantityOverflow))
    else if code == 7 then Some(Some(SequenceExhausted))
    else if code == 8 then Some(Some(TradeIdExhausted))
    else None
  }

  function ErrorCode(code: ProtocolErrorCode): nat {
    match code
    case CodeBadMagic => 1
    case CodeUnsupportedVersion => 2
    case CodeUnsupportedMessageType => 3
    case CodePayloadTooLarge => 4
    case CodeInvalidPayloadLength => 5
    case CodeMalformedPayload => 6
    case CodeBufferLimitExceeded => 7
  }

  function DecodeErrorCode(code: nat): Option<ProtocolErrorCode> {
    if code == 1 then Some(CodeBadMagic)
    else if code == 2 then Some(CodeUnsupportedVersion)
    else if code == 3 then Some(CodeUnsupportedMessageType)
    else if code == 4 then Some(CodePayloadTooLarge)
    else if code == 5 then Some(CodeInvalidPayloadLength)
    else if code == 6 then Some(CodeMalformedPayload)
    else if code == 7 then Some(CodeBufferLimitExceeded)
    else None
  }

  function SubmitStatusCode(status: SubmissionStatus): Octet {
    if status.Accepted? then 1 else 2
  }

  function CancelStatusCode(status: CancelStatus): Octet {
    if status.Cancelled? then 1 else 2
  }

  /** A submit result carries a reason exactly when it is a rejection. */
  predicate ValidServerMessage(m: ServerMessage) {
    m.SubmitResponse? ==> (m.submitStatus.Accepted? <==> m.rejection.None?)
  }

  function ServerPayload(m: ServerMessage): (s: Bytes)
    ensures |s| == PayloadLength(ServerType(m)).value
  {
    match m
    case SubmitResponse(status, rejection, executed, resting) =>
      [SubmitStatusCode(status), RejectionCode(rejection)] + BigEndian(executed, 8) + BigEndian(resting, 8)
    case CancelResponse(status, cancelled) => [CancelStatusCode(status)] + BigEndian(cancelled, 8)
    case ProtocolErrorResponse(code) => BigEndian(ErrorCode(code), 2)
    case UnavailableResponse => [1]
  }

  /** The octets of a valid message. */
  function ServerFrame(e: Envelope<ServerMessage>): (s: Bytes)
    ensures |s| == HEADER_SIZE + PayloadLength(ServerType(e.message)).value
  {
    EncodeHeader(Header(ServerType(e.message), PayloadLength(ServerType(e.message)).value, e.requestId))
    + ServerPayload(e.message)
  }

  function EncodeServer(e: Envelope<ServerMessage>): Result<Bytes> {
    if !ValidServerMessage(e.message) then Err(MalformedPayload) else Ok(ServerFrame(e))
  }

  function DecodeServerPayload(messageType: nat, p: Bytes): Option<ServerMessage>
    requires PayloadLength(messageType).Some? && |p| == PayloadLength(messageType).value
  {
    if messageType == SUBMIT_RESULT then
      var rejection := DecodeRejection(p[1]);
      if (p[0] != 1 && p[0] != 2) || rejection.None? then None
      else
        var m := SubmitResponse(if p[0] == 1 then Accepted else Rejected, rejection.value, U64At(p, 2), U64At(p, 10));
        if ValidServerMessage(m) then Some(m) else None
    else if messageType == CANCEL_RESULT then
      if p[0] != 1 && p[0] != 2 then None
      else Some(CancelResponse(if p[0] == 1 then Cancelled else NotFound, U64At(p, 1)))
    else if messageType == PROTOCOL_ERROR then
      var code := DecodeErrorCode(Value(p));
      if code.None? then None else Some(ProtocolErrorResponse(code.value))
    else if messageType == UNAVAILABLE then
      if p[0] == 1 then Some(UnavailableResponse) else None
    else None
  }

  function DecodeServer(s: Bytes): Result<Decoded<ServerMessage>> {
    match DecodeHeader(s)
    case Err(error) => Err(error)
    case Ok(h) =>
      if IsClientType(h.messageType) then Err(UnsupportedMessageType)
      else if |s| < HEADER_SIZE + h.length then Err(TruncatedInput)
      else
        var m := DecodeServerPayload(h.messageType, s[HEADER_SIZE..HEADER_SIZE + h.length]);
        if m.None? then Err(MalformedPayload)
        else Ok(Decoded(Envelope(h.requestId, m.value), HEADER_SIZE + h.length))
  }
}
