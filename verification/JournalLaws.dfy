/** Frames are decoded from exactly the octets they are encoded to. */
module JournalLaws {
  import opened Domain
  import opened Bytes
  import opened JournalCodec
  import Crc32c

  lemma Slice(s: Bytes, a: nat, b: nat, c: nat, d: nat)
    requires a <= b <= |s| && c <= d <= b - a
    ensures s[a..b][c..d] == s[a + c..a + d]
  {
    var (x, y) := (s[a..b][c..d], s[a + c..a + d]);
    assert |x| == |y| && forall i :: 0 <= i < |x| ==> x[i] == y[i];
  }

  lemma FrameSlices(covered: Bytes, checksum: Bytes, payload: Bytes, rest: Bytes)
    requires |covered| == 16 && |checksum| == 4
    ensures var s := Frame(covered, checksum, payload) + rest;
            && |s| == 24 + |payload| + |rest|
            && s[..4] == FRAME_MAGIC && s[4..20] == covered && s[20..24] == checksum
            && s[24..24 + |payload|] == payload
  {
  }

  lemma CoveredSlices(sequence: U64, recordType: Octet, length: nat)
    ensures var c := CoveredHeader(sequence, recordType, length);
            && c[0] == RECORD_VERSION && c[1] == recordType && c[2..4] == BigEndian(0, 2)
            && c[4..8] == BigEndian(length, 4) && c[8..16] == BigEndian(sequence, 8)
  {
  }

  /** The fields of a header, seen through the frame. */
  lemma HeaderFields(s: Bytes)
    requires |s| >= 24
    ensures var c := s[4..20];
            && s[4] == c[0] && s[5] == c[1] && s[6..8] == c[2..4]
            && s[8..12] == c[4..8] && s[12..20] == c[8..16]
  {
    Slice(s, 4, 20, 2, 4);
    Slice(s, 4, 20, 4, 8);
    Slice(s, 4, 20, 8, 16);
  }

  lemma ValueOfField(x: nat, n: nat, s: Bytes)
    requires x < Pow256(n) && s == BigEndian(x, n)
    ensures Value(s) == x
  {
    ValueOfBigEndian(x, n);
  }

  lemma FrameCrcIsChecksum(s: Bytes, length: nat)
    requires 24 + length <= |s|
    ensures FrameCrc(s, length) == Checksum(s[4..20] + s[24..24 + length])
  {
    hide Crc32c.Finish, Crc32c.Update;
    Crc32c.UpdateConcat(Crc32c.ALL_ONES, s[4..20], s[24..24 + length]);
  }

  lemma ChecksumIsBounded(stream: Bytes)
    ensures Checksum(stream) < 0x1_0000_0000
  {
    hide Crc32c.Finish, Crc32c.Update;
    Crc32c.FinishIsBounded(Crc32c.Update(Crc32c.ALL_ONES, stream));
  }

  // ---------- Decoding what was encoded ----------

  lemma HeaderOfEncoded(r: Record, rest: Bytes)
    ensures var s := EncodeRecord(r) + rest;
            && |s| >= 24 + ExpectedPayloadLength(TypeOf(r.command))
            && HeaderError(s).None? && s[5] == TypeOf(r.command) && U64At(s, 12) == r.sequence
            && s[24..24 + ExpectedPayloadLength(TypeOf(r.command))] == Payload(r.command)
            && Value(s[20..24]) == FrameCrc(s, ExpectedPayloadLength(TypeOf(r.command)))
  {
    hide BigEndian, Value, Pow256, Payload, Crc32c.Update, CoveredHeader, Checksum, Frame, FrameCrc;
    Widths();
    var payload := Payload(r.command);
    var covered := CoveredHeader(r.sequence, TypeOf(r.command), |payload|);
    var checksum := Checksum(covered + payload);
    var s := EncodeRecord(r) + rest;
    FrameSlices(covered, BigEndian(checksum, 4), payload, rest);
    CoveredSlices(r.sequence, TypeOf(r.command), |payload|);
    HeaderFields(s);
    ValueOfField(0, 2, s[6..8]);
    ValueOfField(|payload|, 4, s[8..12]);
    ValueOfField(r.sequence, 8, s[12..20]);
    ChecksumIsBounded(covered + payload);
    ValueOfField(checksum, 4, s[20..24]);
    FrameCrcIsChecksum(s, |payload|);
  }

  lemma SubmitPayload(o: NewLimitOrder, s: Bytes)
    requires |s| >= 49 && s[24..49] == Payload(SubmitLimitOrder(o))
    ensures DecodeCommand(SUBMIT_TYPE, s) == SubmitLimitOrder(o)
  {
    hide BigEndian, Value, Pow256;
    Widths();
    var p := s[24..49];
    Slice(s, 24, 49, 0, 8);
    Slice(s, 24, 49, 9, 17);
    Slice(s, 24, 49, 17, 25);
    assert s[32] == p[8];
    ValueOfField(o.id, 8, p[0..8]);
    ValueOfField(o.limitPrice, 8, p[9..17]);
    ValueOfField(o.quantity, 8, p[17..25]);
  }

  lemma CancelPayload(id: U64, s: Bytes)
    requires |s| >= 32 && s[24..32] == Payload(CancelOrder(id))
    ensures DecodeCommand(CANCEL_TYPE, s) == CancelOrder(id)
  {
    hide BigEndian, Value, Pow256;
    Widths();
    ValueOfField(id, 8, s[24..32]);
  }

  /** A complete frame is decoded to its record, whatever follows it. */
  lemma {:induction false} DecodeOfEncode(r: Record, rest: Bytes)
    requires r.sequence > 0
    ensures DecodePrefix(EncodeRecord(r) + rest) == Ok(Decoded(r, |EncodeRecord(r)|))
  {
    HeaderOfEncoded(r, rest);
    hide Payload, EncodeRecord, HeaderError, FrameCrc, U64At, DecodeCommand;
    var s := EncodeRecord(r) + rest;
    match r.command {
      case SubmitLimitOrder(o) => SubmitPayload(o, s);
      case CancelOrder(id) => CancelPayload(id, s);
    }
  }

  // ---------- Encoding what was decoded ----------

  lemma EncodingOfField(x: nat, s: Bytes)
    requires Value(s) == x
    ensures BigEndian(x, |s|) == s
  {
    BigEndianOfValue(s);
  }

  lemma CoveredOfDecoded(s: Bytes)
    requires |s| >= 24 && HeaderError(s).None?
    ensures s[4..20] == CoveredHeader(U64At(s, 12), s[5], ExpectedPayloadLength(s[5]))
  {
    hide BigEndian, Value, Pow256;
    EncodingOfField(0, s[6..8]);
    EncodingOfField(ExpectedPayloadLength(s[5]), s[8..12]);
    EncodingOfField(U64At(s, 12), s[12..20]);
    assert s[4..20] == [s[4], s[5]] + s[6..8] + s[8..12] + s[12..20];
  }

  lemma PayloadOfDecoded(recordType: Octet, s: Bytes)
    requires recordType == SUBMIT_TYPE || recordType == CANCEL_TYPE
    requires |s| >= 24 + ExpectedPayloadLength(recordType)
    ensures TypeOf(DecodeCommand(recordType, s)) == recordType
    ensures Payload(DecodeCommand(recordType, s)) == s[24..24 + ExpectedPayloadLength(recordType)]
  {
    hide BigEndian, Value, Pow256;
    EncodingOfField(U64At(s, 24), s[24..32]);
    if recordType == SUBMIT_TYPE {
      EncodingOfField(U64At(s, 33), s[33..41]);
      EncodingOfField(U64At(s, 41), s[41..49]);
      assert s[24..49] == s[24..32] + [s[32]] + s[33..41] + s[41..49];
    }
  }

  lemma FrameOfParts(s: Bytes, n: nat)
    requires 24 <= n <= |s| && s[..4] == FRAME_MAGIC
    ensures s[..n] == Frame(s[4..20], s[20..24], s[24..n])
  {
    assert s[..n] == s[..4] + s[4..20] + s[20..24] + s[24..n];
  }

  /** Whatever is accepted is the one encoding of the record it is decoded to. */
  lemma {:induction false} EncodeOfDecode(s: Bytes)
    requires DecodePrefix(s).Ok?
    ensures var d := DecodePrefix(s).value;
            d.record.sequence > 0 && d.consumed <= |s| && s[..d.consumed] == EncodeRecord(d.record)
  {
    hide BigEndian, Value, Pow256, Payload, CoveredHeader, Checksum, Frame, FrameCrc, U64At, DecodeCommand;
    var length := ExpectedPayloadLength(s[5]);
    CoveredOfDecoded(s);
    PayloadOfDecoded(s[5], s);
    FrameCrcIsChecksum(s, length);
    EncodingOfField(FrameCrc(s, length), s[20..24]);
    FrameOfParts(s, 24 + length);
  }

  // ---------- Incomplete frames ----------

  /** Every proper prefix of a frame is truncated, never something else. */
  lemma {:induction false} PrefixIsTruncated(r: Record, n: nat)
    requires n < |EncodeRecord(r)|
    ensures DecodePrefix(EncodeRecord(r)[..n]) == Err(TruncatedInput)
  {
    hide EncodeRecord, FrameCrc, U64At, Value, Payload, DecodeCommand;
    var (s, p) := (EncodeRecord(r), EncodeRecord(r)[..n]);
    if n >= 24 {
      HeaderOfEncoded(r, []);
      assert s + [] == s;
      assert p[..4] == s[..4] && p[6..8] == s[6..8] && p[8..12] == s[8..12] && p[5] == s[5];
    }
  }

  /** A truncated tail is shorter than the longest frame. */
  lemma {:induction false} TruncatedIsShort(s: Bytes)
    requires DecodePrefix(s) == Err(TruncatedInput)
    ensures |s| <= 48
  {
  }

  /** Looking at no more than the longest possible frame changes nothing. */
  lemma DecodeLooksAhead(s: Bytes, n: nat)
    requires 49 <= n <= |s|
    ensures DecodePrefix(s[..n]) == DecodePrefix(s)
  {
    hide Value, FrameCrc, DecodeCommand, Checksum;
    var p := s[..n];
    assert p[..4] == s[..4] && p[6..8] == s[6..8] && p[8..12] == s[8..12] && p[5] == s[5];
    assert p[12..20] == s[12..20] && p[20..24] == s[20..24] && p[4..20] == s[4..20];
    if s[5] == SUBMIT_TYPE || s[5] == CANCEL_TYPE {
      SamePayload(s, n);
    }
  }

  lemma SamePayload(s: Bytes, n: nat)
    requires 49 <= n <= |s| && (s[5] == SUBMIT_TYPE || s[5] == CANCEL_TYPE)
    ensures DecodeCommand(s[5], s[..n]) == DecodeCommand(s[5], s)
    ensures FrameCrc(s[..n], ExpectedPayloadLength(s[5])) == FrameCrc(s, ExpectedPayloadLength(s[5]))
  {
    hide Value, Checksum, Crc32c.Update, Crc32c.Finish;
    var p := s[..n];
    assert p[4..20] == s[4..20] && p[24..32] == s[24..32] && p[33..41] == s[33..41] && p[41..49] == s[41..49];
    assert p[24..49] == s[24..49];
  }
}
