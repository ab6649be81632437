/** Every frame of the wire and of the journal, octet by octet. */
module WireLayout {
  import opened Domain
  import opened Bytes
  import opened WireCodec
  import opened WireLaws

  lemma Powers()
    ensures Pow256(0) == 1 && Pow256(1) == 0x100 && Pow256(2) == 0x1_0000 && Pow256(3) == 0x100_0000
  {
  }

  lemma TwoOctets(x: nat)
    requires x < 256
    ensures BigEndian(x, 2) == [0, x]
  {
    hide BigEndian, Pow256;
    Powers();
    OctetOfBigEndian(x, 2, 0);
    OctetOfBigEndian(x, 2, 1);
  }

  lemma FourOctets(x: nat)
    requires x < 256
    ensures BigEndian(x, 4) == [0, 0, 0, x]
  {
    hide BigEndian, Pow256;
    Powers();
    OctetOfBigEndian(x, 4, 0);
    OctetOfBigEndian(x, 4, 1);
    OctetOfBigEndian(x, 4, 2);
    OctetOfBigEndian(x, 4, 3);
  }

  lemma MagicOctets()
    ensures BigEndian(MAGIC, 4) == [0x4D, 0x45, 0x58, 0x47]
  {
    hide BigEndian, Pow256;
    Powers();
    OctetOfBigEndian(MAGIC, 4, 0);
    OctetOfBigEndian(MAGIC, 4, 1);
    OctetOfBigEndian(MAGIC, 4, 2);
    OctetOfBigEndian(MAGIC, 4, 3);
  }

  /** Twenty octets: the magic, version 1, the type, the payload's length, the request id. */
  predicate HasHeader(s: Bytes, messageType: Octet, length: Octet, requestId: U64) {
    && |s| == 20 + length
    && s[0..12] == [0x4D, 0x45, 0x58, 0x47, 0, 1, 0, messageType, 0, 0, 0, length]
    && Value(s[12..20]) == requestId
  }

  lemma HeaderLayout(h: Header, payload: Bytes)
    requires h.messageType < 256 && h.length < 256 && |payload| == h.length
    ensures HasHeader(EncodeHeader(h) + payload, h.messageType, h.length, h.requestId)
  {
    hide BigEndian, Value, Pow256;
    TwoOctets(1);
    TwoOctets(h.messageType);
    FourOctets(h.length);
    MagicOctets();
    Widths();
    ValueOfBigEndian(h.requestId, 8);
    var s := EncodeHeader(h) + payload;
    HeaderSlices(h, payload);
    assert s[0..12] == s[0..4] + s[4..6] + s[6..8] + s[8..12];
  }

  /** Octets `i` to `j` of a payload, seen through the frame. */
  lemma InFrame(h: Header, payload: Bytes, i: nat, j: nat)
    requires i <= j <= |payload|
    ensures (EncodeHeader(h) + payload)[20 + i..20 + j] == payload[i..j]
    ensures i < |payload| ==> (EncodeHeader(h) + payload)[20 + i] == payload[i]
  {
    hide EncodeHeader;
  }

  lemma FieldValue(x: U64)
    ensures Value(BigEndian(x, 8)) == x
  {
    hide BigEndian, Value, Pow256;
    Widths();
    ValueOfBigEndian(x, 8);
  }

  lemma SubmitPayloadSlices(m: ClientMessage)
    requires m.SubmitRequest?
    ensures var p := ClientPayload(m);
            && p[0..8] == BigEndian(m.orderId, 8) && p[8] == m.rawSide
            && p[9..17] == BigEndian(m.limitPrice, 8) && p[17..25] == BigEndian(m.quantity, 8)
  {
    hide BigEndian;
  }

  /** Price and quantity of a submit request stand at octets 29 and 37. */
  lemma {:induction false} SubmitRequestLayout(requestId: U64, m: ClientMessage)
    requires m.SubmitRequest?
    ensures var s := EncodeClient(Envelope(requestId, m));
            && HasHeader(s, 1, 25, requestId)
            && Value(s[20..28]) == m.orderId && s[28] == m.rawSide
            && Value(s[29..37]) == m.limitPrice && Value(s[37..45]) == m.quantity
  {
    hide BigEndian, Value, EncodeHeader, HasHeader, ClientPayload;
    var (h, p) := (Header(1, 25, requestId), ClientPayload(m));
    HeaderLayout(h, p);
    SubmitPayloadSlices(m);
    InFrame(h, p, 0, 8);
    InFrame(h, p, 8, 9);
    InFrame(h, p, 9, 17);
    InFrame(h, p, 17, 25);
    FieldValue(m.orderId);
    FieldValue(m.limitPrice);
    FieldValue(m.quantity);
  }

  lemma {:induction false} CancelRequestLayout(requestId: U64, m: ClientMessage)
    requires m.CancelRequest?
    ensures var s := EncodeClient(Envelope(requestId, m));
            HasHeader(s, 2, 8, requestId) && Value(s[20..28]) == m.orderId
  {
    hide BigEndian, Value, EncodeHeader, HasHeader;
    var (h, p) := (Header(2, 8, requestId), ClientPayload(m));
    HeaderLayout(h, p);
    InFrame(h, p, 0, 8);
    FieldValue(m.orderId);
    assert p[0..8] == p;
  }

  /** The octet of every rejection reason. */
  predicate IsRejectionOctet(code: Octet, reason: Option<RejectionReason>) {
    match code
    case 0 => reason == None
    case 1 => reason == Some(InvalidOrderId)
    case 2 => reason == Some(InvalidSide)
    case 3 => reason == Some(InvalidPrice)
    case 4 => reason == Some(InvalidQuantity)
    case 5 => reason == Some(DuplicateOrderId)
    case 6 => reason == Some(QuantityOverflow)
    case 7 => reason == Some(SequenceExhausted)
    case 8 => reason == Some(TradeIdExhausted)
    case _ => false
  }

  lemma RejectionOctets(reason: Option<RejectionReason>)
    ensures IsRejectionOctet(RejectionCode(reason), reason)
  {
  }

  lemma SubmitReplySlices(m: ServerMessage)
    requires m.SubmitResponse?
    ensures var p := ServerPayload(m);
            && p[0] == (if m.submitStatus == Accepted then 1 else 2) && p[1] == RejectionCode(m.rejection)
            && p[2..10] == BigEndian(m.executed, 8) && p[10..18] == BigEndian(m.resting, 8)
  {
    hide BigEndian, RejectionCode;
  }

  /** Status and reason of a submit response stand at octets 20 and 21, the quantities behind them. */
  lemma {:induction false} SubmitResponseLayout(requestId: U64, m: ServerMessage)
    requires m.SubmitResponse?
    ensures var s := ServerFrame(Envelope(requestId, m));
            && HasHeader(s, 101, 18, requestId)
            && s[20] == (if m.submitStatus == Accepted then 1 else 2) && IsRejectionOctet(s[21], m.rejection)
            && Value(s[22..30]) == m.executed && Value(s[30..38]) == m.resting
  {
    hide BigEndian, Value, EncodeHeader, HasHeader, ServerPayload, IsRejectionOctet, RejectionCode;
    var (h, p) := (Header(101, 18, requestId), ServerPayload(m));
    HeaderLayout(h, p);
    SubmitReplySlices(m);
    RejectionOctets(m.rejection);
    InFrame(h, p, 0, 1);
    InFrame(h, p, 1, 2);
    InFrame(h, p, 2, 10);
    InFrame(h, p, 10, 18);
    FieldValue(m.executed);
    FieldValue(m.resting);
  }

  lemma CancelReplySlices(m: ServerMessage)
    requires m.CancelResponse?
    ensures var p := ServerPayload(m);
            p[0] == (if m.cancelStatus == Cancelled then 1 else 2) && p[1..9] == BigEndian(m.cancelled, 8)
  {
    hide BigEndian;
  }

  lemma {:induction false} CancelResponseLayout(requestId: U64, m: ServerMessage)
    requires m.CancelResponse?
    ensures var s := ServerFrame(Envelope(requestId, m));
            && HasHeader(s, 102, 9, requestId)
            && s[20] == (if m.cancelStatus == Cancelled then 1 else 2) && Value(s[21..29]) == m.cancelled
  {
    hide BigEndian, Value, EncodeHeader, HasHeader, ServerPayload;
    var (h, p) := (Header(102, 9, requestId), ServerPayload(m));
    HeaderLayout(h, p);
    CancelReplySlices(m);
    InFrame(h, p, 0, 1);
    InFrame(h, p, 1, 9);
    FieldValue(m.cancelled);
  }

  lemma {:induction false} UnavailableLayout(requestId: U64)
    ensures var s := ServerFrame(Envelope(requestId, UnavailableResponse));
            HasHeader(s, 104, 1, requestId) && s[20] == 1
  {
    hide EncodeHeader, HasHeader;
    HeaderLayout(Header(104, 1, requestId), [1]);
    InFrame(Header(104, 1, requestId), [1], 0, 1);
  }

  // ---------- Verdicts ----------

  lemma MagicValue(f: Bytes)
    requires |f| == 4
    ensures Value(f) == MAGIC <==> f == [0x4D, 0x45, 0x58, 0x47]
  {
    hide Value, BigEndian;
    MagicOctets();
    BigEndianOfValue(f);
    Widths();
    ValueOfBigEndian(MAGIC, 4);
  }

  lemma SmallValue(f: Bytes, x: nat)
    requires (|f| == 2 || |f| == 4) && x < 256
    ensures Value(f) == x <==> f == if |f| == 2 then [0, x] else [0, 0, 0, x]
  {
    hide Value, BigEndian;
    Widths();
    TwoOctets(x);
    FourOctets(x);
    BigEndianOfValue(f);
    ValueOfBigEndian(x, |f|);
  }

  /** Every field of a request's header is judged in turn, as soon as its octets are there. */
  lemma {:induction false} ClientVerdicts(s: Bytes)
    ensures var r := DecodeClient(s);
            if |s| < 4 then r == Err(TruncatedInput)
            else if s[0..4] != [0x4D, 0x45, 0x58, 0x47] then r == Err(BadMagic)
            else if |s| < 6 then r == Err(TruncatedInput)
            else if s[4..6] != [0, 1] then r == Err(UnsupportedVersion)
            else if |s| < 8 then r == Err(TruncatedInput)
            else if s[6] != 0 || !(s[7] == 1 || s[7] == 2 || 101 <= s[7] <= 104) then r == Err(UnsupportedMessageType)
            else if |s| < 12 then r == Err(TruncatedInput)
            else if Value(s[8..12]) > 4096 then r == Err(PayloadTooLarge)
            else
              var length := match s[7]
                            case 1 => 25
                            case 2 => 8
                            case 101 => 18
                            case 102 => 9
                            case 103 => 2
                            case _ => 1;
              if s[8..12] != [0, 0, 0, length] then r == Err(InvalidPayloadLength)
              else if |s| < 20 then r == Err(TruncatedInput)
              else if s[7] > 2 then r == Err(UnsupportedMessageType)
              else if |s| < 20 + length then r == Err(TruncatedInput)
              else r.Ok? && r.value.consumed == 20 + length
  {
    if |s| >= 4 {
      MagicValue(s[0..4]);
    }
    if |s| >= 6 {
      SmallValue(s[4..6], 1);
    }
    if |s| >= 8 {
      TypeValue(s[6..8]);
    }
    if |s| >= 12 {
      SmallValue(s[8..12], 25);
      SmallValue(s[8..12], 8);
      SmallValue(s[8..12], 18);
      SmallValue(s[8..12], 9);
      SmallValue(s[8..12], 2);
      SmallValue(s[8..12], 1);
    }
    hide Value, DecodeClientPayload, U64At;
  }

  lemma TypeValue(f: Bytes)
    requires |f| == 2
    ensures Value(f) == 256 * (f[0] as int) + f[1]
  {
    assert f[..1][..0] == [];
    assert Value(f[..1]) == f[0];
  }
}

module JournalLayout {
  import opened Domain
  import opened Bytes
  import opened JournalCodec
  import opened JournalLaws
  import WireLayout

  /** The sixteen octets of every journal: a name, format 1, rules 1, and zeros. */
  lemma {:induction false} FileHeaderLayout()
    ensures FileHeader() == [77, 65, 84, 67, 72, 74, 78, 76] + [0, 1, 0, 1, 0, 0, 0, 0]
  {
    hide BigEndian;
    WireLayout.TwoOctets(1);
    WireLayout.FourOctets(0);
  }

  /** Twenty-four octets: the magic, version 1, type, no flags, length, sequence, and the checksum of the rest. */
  predicate HasFrameHeader(s: Bytes, recordType: Octet, length: Octet, sequence: U64) {
    && |s| == 24 + length
    && s[0..12] == [77, 74, 82, 49, 1, recordType, 0, 0, 0, 0, 0, length]
    && Value(s[12..20]) == sequence
    && Value(s[20..24]) == Checksum(s[4..20] + s[24..24 + length])
  }

  lemma FrameLayout(r: Record)
    ensures var s := EncodeRecord(r);
            && HasFrameHeader(s, TypeOf(r.command), ExpectedPayloadLength(TypeOf(r.command)), r.sequence)
            && s[24..24 + ExpectedPayloadLength(TypeOf(r.command))] == Payload(r.command)
  {
    var (s, length) := (EncodeRecord(r), ExpectedPayloadLength(TypeOf(r.command)));
    hide BigEndian, Value, Checksum, Payload, HeaderError, EncodeRecord, FrameCrc;
    HeaderOfEncoded(r, []);
    assert s + [] == s;
    FrameCrcIsChecksum(s, length);
    FirstOctets(r);
  }

  lemma FirstOctets(r: Record)
    ensures EncodeRecord(r)[0..12]
         == [77, 74, 82, 49, 1, TypeOf(r.command), 0, 0, 0, 0, 0, ExpectedPayloadLength(TypeOf(r.command))]
  {
    hide BigEndian, Checksum, Payload;
    var length := ExpectedPayloadLength(TypeOf(r.command));
    WireLayout.TwoOctets(0);
    WireLayout.FourOctets(length);
    var covered := CoveredHeader(r.sequence, TypeOf(r.command), length);
    CoveredSlices(r.sequence, TypeOf(r.command), length);
    assert covered[0..8] == [1, TypeOf(r.command)] + covered[2..4] + covered[4..8];
    assert EncodeRecord(r)[0..12] == FRAME_MAGIC + covered[0..8];
  }

  lemma SubmitSlices(o: NewLimitOrder)
    ensures var p := Payload(SubmitLimitOrder(o));
            && p[0..8] == BigEndian(o.id, 8) && p[8] == o.side
            && p[9..17] == BigEndian(o.limitPrice, 8) && p[17..25] == BigEndian(o.quantity, 8)
  {
    hide BigEndian;
  }

  /** Id, side, price and quantity of a submitted order stand at octets 24, 32, 33 and 41. */
  lemma {:induction false} SubmitRecordLayout(sequence: U64, o: NewLimitOrder)
    ensures var s := EncodeRecord(Record(sequence, SubmitLimitOrder(o)));
            && HasFrameHeader(s, 1, 25, sequence)
            && Value(s[24..32]) == o.id && s[32] == o.side
            && Value(s[33..41]) == o.limitPrice && Value(s[41..49]) == o.quantity
  {
    hide BigEndian, Value, EncodeRecord, HasFrameHeader, Payload;
    var s := EncodeRecord(Record(sequence, SubmitLimitOrder(o)));
    FrameLayout(Record(sequence, SubmitLimitOrder(o)));
    SubmitSlices(o);
    Slice(s, 24, 49, 0, 8);
    Slice(s, 24, 49, 9, 17);
    Slice(s, 24, 49, 17, 25);
    assert s[32] == s[24..49][8];
    WireLayout.FieldValue(o.id);
    WireLayout.FieldValue(o.limitPrice);
    WireLayout.FieldValue(o.quantity);
  }

  lemma {:induction false} CancelRecordLayout(sequence: U64, id: U64)
    ensures var s := EncodeRecord(Record(sequence, CancelOrder(id)));
            HasFrameHeader(s, 2, 8, sequence) && Value(s[24..32]) == id
  {
    hide BigEndian, Value, EncodeRecord, HasFrameHeader;
    FrameLayout(Record(sequence, CancelOrder(id)));
    WireLayout.FieldValue(id);
  }

  // ---------- Verdicts ----------

  /** A frame is judged field by field, and its payload and checksum last. */
  lemma {:induction false} FrameVerdicts(s: Bytes)
    ensures var r := DecodePrefix(s);
            if |s| < 24 then r == Err(TruncatedInput)
            else if s[0..4] != [77, 74, 82, 49] then r == Err(InvalidFrameMagic)
            else if s[4] != 1 then r == Err(UnsupportedRecordVersion)
            else if s[5] != 1 && s[5] != 2 then r == Err(UnsupportedRecordType)
            else if s[6..8] != [0, 0] then r == Err(InvalidFlags)
            else
              var length := if s[5] == 1 then 25 else 8;
              if s[8..12] != [0, 0, 0, length] then r == Err(InvalidPayloadLength)
              else if |s| < 24 + length then r == Err(TruncatedInput)
              else if Value(s[12..20]) == 0 then r == Err(InvalidJournalSequence)
              else if Value(s[20..24]) != Checksum(s[4..20] + s[24..24 + length]) then r == Err(ChecksumMismatch)
              else r.Ok? && r.value.record.sequence == Value(s[12..20]) && r.value.consumed == 24 + length
  {
    hide Value, Checksum, FrameCrc, DecodeCommand;
    if |s| >= 24 {
      WireLayout.SmallValue(s[6..8], 0);
      WireLayout.SmallValue(s[8..12], 25);
      WireLayout.SmallValue(s[8..12], 8);
      if (s[5] == 1 || s[5] == 2) && |s| >= 24 + (if s[5] == 1 then 25 else 8) {
        FrameCrcIsChecksum(s, if s[5] == 1 then 25 else 8);
      }
    }
  }
}
