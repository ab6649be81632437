/** The wire codecs are inverse to each other, and a verdict on a frame is final. */
module WireLaws {
  import opened Domain
  import opened Bytes
  import opened WireCodec

  predicate ProperHeader(h: Header) {
    PayloadLength(h.messageType) == Some(h.length)
  }

  lemma HeaderSlices(h: Header, rest: Bytes)
    ensures var s := EncodeHeader(h) + rest;
            && s[0..4] == BigEndian(MAGIC, 4) && s[4..6] == BigEndian(VERSION, 2)
            && s[6..8] == BigEndian(h.messageType, 2) && s[8..12] == BigEndian(h.length, 4)
            && s[12..20] == BigEndian(h.requestId, 8)
  {
    hide BigEndian;
  }

  lemma HeaderValues(h: Header, rest: Bytes)
    requires ProperHeader(h)
    ensures var s := EncodeHeader(h) + rest;
            && Value(s[0..4]) == MAGIC && Value(s[4..6]) == VERSION && Value(s[6..8]) == h.messageType
            && Value(s[8..12]) == h.length && U64At(s, 12) == h.requestId
  {
    hide BigEndian, Value, Pow256, EncodeHeader;
    Widths();
    HeaderSlices(h, rest);
    ValueOfBigEndian(MAGIC, 4);
    ValueOfBigEndian(VERSION, 2);
    ValueOfBigEndian(h.messageType, 2);
    ValueOfBigEndian(h.length, 4);
    ValueOfBigEndian(h.requestId, 8);
  }

  lemma HeaderRoundTrip(h: Header, rest: Bytes)
    requires ProperHeader(h)
    ensures DecodeHeader(EncodeHeader(h) + rest) == Ok(h)
  {
    hide Value, EncodeHeader, U64At;
    HeaderValues(h, rest);
  }

  lemma HeaderIsCanonical(s: Bytes)
    requires DecodeHeader(s).Ok?
    ensures ProperHeader(DecodeHeader(s).value) && s[..HEADER_SIZE] == EncodeHeader(DecodeHeader(s).value)
  {
    hide Value, BigEndian;
    BigEndianOfValue(s[0..4]);
    BigEndianOfValue(s[4..6]);
    BigEndianOfValue(s[6..8]);
    BigEndianOfValue(s[8..12]);
    BigEndianOfValue(s[12..20]);
    assert s[..HEADER_SIZE] == s[0..4] + s[4..6] + s[6..8] + s[8..12] + s[12..20];
  }

  /** A verdict other than "too short" is not changed by what follows. */
  lemma HeaderIsStable(s: Bytes, t: Bytes)
    requires DecodeHeader(s) != Err(TruncatedInput)
    ensures DecodeHeader(s + t) == DecodeHeader(s)
  {
    hide Value;
    var u := s + t;
    assert u[0..4] == s[0..4];
    assert |s| >= 6 ==> u[4..6] == s[4..6];
    assert |s| >= 8 ==> u[6..8] == s[6..8];
    assert |s| >= 12 ==> u[8..12] == s[8..12];
    assert |s| >= 20 ==> u[12..20] == s[12..20];
  }

  // ---------- Client frames ----------

  lemma ClientPayloadRoundTrip(m: ClientMessage)
    ensures DecodeClientPayload(ClientType(m), ClientPayload(m)) == m
  {
    hide BigEndian, Value, Pow256;
    Widths();
    var p := ClientPayload(m);
    match m {
      case SubmitRequest(id, side, price, quantity) =>
        assert p[0..8] == BigEndian(id, 8) && p[9..17] == BigEndian(price, 8) && p[17..25] == BigEndian(quantity, 8);
        ValueOfBigEndian(id, 8);
        ValueOfBigEndian(price, 8);
        ValueOfBigEndian(quantity, 8);
      case CancelRequest(id) =>
        assert p[0..8] == BigEndian(id, 8);
        ValueOfBigEndian(id, 8);
    }
  }

  lemma ClientPayloadIsCanonical(messageType: nat, p: Bytes)
    requires IsClientType(messageType) && |p| == PayloadLength(messageType).value
    ensures ClientType(DecodeClientPayload(messageType, p)) == messageType
    ensures ClientPayload(DecodeClientPayload(messageType, p)) == p
  {
    hide BigEndian, Value, Pow256;
    BigEndianOfValue(p[0..8]);
    if messageType == SUBMIT {
      BigEndianOfValue(p[9..17]);
      BigEndianOfValue(p[17..25]);
      assert p == p[0..8] + [p[8]] + p[9..17] + p[17..25];
    } else {
      assert p[0..8] == p;
    }
  }

  lemma ClientHeader(e: Envelope<ClientMessage>, rest: Bytes)
    ensures var h := Header(ClientType(e.message), PayloadLength(ClientType(e.message)).value, e.requestId);
            && DecodeHeader(EncodeClient(e) + rest) == Ok(h)
            && (EncodeClient(e) + rest)[HEADER_SIZE..|EncodeClient(e)|] == ClientPayload(e.message)
  {
    hide EncodeHeader, DecodeHeader, ClientPayload;
    var h := Header(ClientType(e.message), PayloadLength(ClientType(e.message)).value, e.requestId);
    HeaderRoundTrip(h, ClientPayload(e.message) + rest);
    assert EncodeClient(e) + rest == EncodeHeader(h) + (ClientPayload(e.message) + rest);
  }

  /** A request frame is decoded to its request, whatever follows it. */
  lemma {:induction false} ClientRoundTrip(e: Envelope<ClientMessage>, rest: Bytes)
    ensures DecodeClient(EncodeClient(e) + rest) == Ok(Decoded(e, |EncodeClient(e)|))
  {
    hide DecodeHeader, EncodeClient, ClientPayload, DecodeClientPayload;
    ClientHeader(e, rest);
    ClientPayloadRoundTrip(e.message);
  }

  lemma DecodedClientLength(s: Bytes)
    requires DecodeClient(s).Ok?
    ensures SHORTEST_CLIENT_FRAME <= DecodeClient(s).value.consumed <= LONGEST_CLIENT_FRAME
    ensures DecodeClient(s).value.consumed <= |s|
  {
    hide Value, U64At;
  }

  /** Whatever is accepted is the one encoding of the request it is decoded to. */
  lemma {:induction false} ClientIsCanonical(s: Bytes)
    requires DecodeClient(s).Ok?
    ensures DecodeClient(s).value.consumed <= |s|
    ensures s[..DecodeClient(s).value.consumed] == EncodeClient(DecodeClient(s).value.envelope)
  {
    HeaderIsCanonical(s);
    hide DecodeHeader, EncodeHeader, ClientPayload, DecodeClientPayload;
    var h := DecodeHeader(s).value;
    var p := s[HEADER_SIZE..HEADER_SIZE + h.length];
    ClientPayloadIsCanonical(h.messageType, p);
    assert s[..HEADER_SIZE + h.length] == s[..HEADER_SIZE] + p;
  }

  lemma {:induction false} ClientIsStable(s: Bytes, t: Bytes)
    requires DecodeClient(s) != Err(TruncatedInput)
    ensures DecodeClient(s + t) == DecodeClient(s)
  {
    DecodedHeaderFits(s);
    hide DecodeHeader, DecodeClientPayload;
    HeaderIsStable(s, t);
    if DecodeClient(s).Ok? {
      var n := HEADER_SIZE + DecodeHeader(s).value.length;
      assert (s + t)[HEADER_SIZE..n] == s[HEADER_SIZE..n];
    }
  }

  lemma DecodedHeaderFits(s: Bytes)
    ensures DecodeHeader(s).Ok? ==> |s| >= HEADER_SIZE && ProperHeader(DecodeHeader(s).value)
  {
    hide Value, U64At;
  }

  lemma {:induction false} ClientPrefixIsTruncated(e: Envelope<ClientMessage>, n: nat)
    requires n < |EncodeClient(e)|
    ensures DecodeClient(EncodeClient(e)[..n]) == Err(TruncatedInput)
  {
    hide DecodeClient, EncodeClient;
    var s := EncodeClient(e);
    var (p, q) := (s[..n], s[n..]);
    assert p + q == s + [];
    ClientRoundTrip(e, []);
    if DecodeClient(p) != Err(TruncatedInput) {
      ClientIsStable(p, q);
      DecodedClientLength(p);
    }
  }

  /** Forty-five octets are enough for a verdict. */
  lemma {:induction false} ClientVerdict(s: Bytes)
    requires |s| >= LONGEST_CLIENT_FRAME
    ensures DecodeClient(s) != Err(TruncatedInput)
  {
    hide Value, U64At, DecodeClientPayload;
  }

  // ---------- Server frames ----------

  lemma ServerPayloadRoundTrip(m: ServerMessage)
    requires ValidServerMessage(m)
    ensures DecodeServerPayload(ServerType(m), ServerPayload(m)) == Some(m)
  {
    hide BigEndian, Value, Pow256;
    Widths();
    var p := ServerPayload(m);
    match m {
      case SubmitResponse(status, rejection, executed, resting) =>
        assert p[2..10] == BigEndian(executed, 8) && p[10..18] == BigEndian(resting, 8);
        ValueOfBigEndian(executed, 8);
        ValueOfBigEndian(resting, 8);
      case CancelResponse(status, cancelled) =>
        assert p[1..9] == BigEndian(cancelled, 8);
        ValueOfBigEndian(cancelled, 8);
      case ProtocolErrorResponse(code) => ValueOfBigEndian(ErrorCode(code), 2);
      case UnavailableResponse =>
    }
  }

  lemma CodesAreCanonical(rejection: Octet, code: nat)
    ensures DecodeRejection(rejection).Some? ==> RejectionCode(DecodeRejection(rejection).value) == rejection
    ensures DecodeErrorCode(code).Some? ==> ErrorCode(DecodeErrorCode(code).value) == code
  {
  }

  lemma ServerPayloadIsCanonical(messageType: nat, p: Bytes)
    requires PayloadLength(messageType).Some? && |p| == PayloadLength(messageType).value
    requires DecodeServerPayload(messageType, p).Some?
    ensures var m := DecodeServerPayload(messageType, p).value;
            ValidServerMessage(m) && ServerType(m) == messageType && ServerPayload(m) == p
  {
    hide BigEndian, Value, Pow256, DecodeRejection, RejectionCode, DecodeErrorCode, ErrorCode;
    if messageType == SUBMIT_RESULT {
      CodesAreCanonical(p[1], 0);
      BigEndianOfValue(p[2..10]);
      BigEndianOfValue(p[10..18]);
      assert p == [p[0], p[1]] + p[2..10] + p[10..18];
    } else if messageType == CANCEL_RESULT {
      BigEndianOfValue(p[1..9]);
      assert p == [p[0]] + p[1..9];
    } else if messageType == PROTOCOL_ERROR {
      CodesAreCanonical(0, Value(p));
      BigEndianOfValue(p);
    }
  }

  lemma ServerHeader(e: Envelope<ServerMessage>, rest: Bytes)
    ensures var h := Header(ServerType(e.message), PayloadLength(ServerType(e.message)).value, e.requestId);
            && DecodeHeader(ServerFrame(e) + rest) == Ok(h)
            && (ServerFrame(e) + rest)[HEADER_SIZE..|ServerFrame(e)|] == ServerPayload(e.message)
  {
    hide EncodeHeader, DecodeHeader, ServerPayload;
    var h := Header(ServerType(e.message), PayloadLength(ServerType(e.message)).value, e.requestId);
    HeaderRoundTrip(h, ServerPayload(e.message) + rest);
    assert ServerFrame(e) + rest == EncodeHeader(h) + (ServerPayload(e.message) + rest);
  }

  /** A response frame is decoded to its response, whatever follows it. */
  lemma {:induction false} ServerRoundTrip(e: Envelope<ServerMessage>, rest: Bytes)
    requires ValidServerMessage(e.message)
    ensures DecodeServer(ServerFrame(e) + rest) == Ok(Decoded(e, |ServerFrame(e)|))
  {
    hide DecodeHeader, ServerFrame, ServerPayload, DecodeServerPayload;
    ServerHeader(e, rest);
    ServerPayloadRoundTrip(e.message);
  }

  lemma {:induction false} ServerIsCanonical(s: Bytes)
    requires DecodeServer(s).Ok?
    ensures var d := DecodeServer(s).value;
            d.consumed <= |s| && EncodeServer(d.envelope) == Ok(s[..d.consumed])
  {
    HeaderIsCanonical(s);
    hide DecodeHeader, EncodeHeader, ServerPayload, DecodeServerPayload;
    var h := DecodeHeader(s).value;
    var p := s[HEADER_SIZE..HEADER_SIZE + h.length];
    ServerPayloadIsCanonical(h.messageType, p);
    assert s[..HEADER_SIZE + h.length] == s[..HEADER_SIZE] + p;
  }

  lemma {:induction false} ServerIsStable(s: Bytes, t: Bytes)
    requires DecodeServer(s) != Err(TruncatedInput)
    ensures DecodeServer(s + t) == DecodeServer(s)
  {
    DecodedHeaderFits(s);
    hide DecodeHeader, DecodeServerPayload;
    HeaderIsStable(s, t);
    if DecodeHeader(s).Ok? && |s| >= HEADER_SIZE + DecodeHeader(s).value.length {
      var n := HEADER_SIZE + DecodeHeader(s).value.length;
      assert (s + t)[HEADER_SIZE..n] == s[HEADER_SIZE..n];
    }
  }

  lemma {:induction false} ServerPrefixIsTruncated(e: Envelope<ServerMessage>, n: nat)
    requires ValidServerMessage(e.message) && n < |ServerFrame(e)|
    ensures DecodeServer(ServerFrame(e)[..n]) == Err(TruncatedInput)
  {
    hide DecodeServer, ServerFrame;
    var s := ServerFrame(e);
    var (p, q) := (s[..n], s[n..]);
    assert p + q == s + [];
    ServerRoundTrip(e, []);
    if DecodeServer(p) != Err(TruncatedInput) {
      ServerIsStable(p, q);
      ServerIsCanonical(p);
    }
  }
}
