/** Building a frame in a buffer: the checksum is patched in once everything it covers is there. */
module JournalEncoder {
  import opened Domain
  import opened Bytes
  import opened JournalCodec
  import opened JournalLaws
  import Crc32c

  method EncodePayload(command: Command) returns (payload: Bytes)
    ensures payload == Payload(command)
  {
    hide BigEndian;
    match command
    case SubmitLimitOrder(o) =>
      payload := Append([], o.id, 8);
      payload := payload + [o.side];
      payload := Append(payload, o.limitPrice, 8);
      payload := Append(payload, o.quantity, 8);
      assert [] + BigEndian(o.id, 8) == BigEndian(o.id, 8);
    case CancelOrder(id) =>
      payload := Append([], id, 8);
      assert [] + BigEndian(id, 8) == BigEndian(id, 8);
  }

  /** The checksum of a frame, over the two parts of it that are covered. */
  method ComputeFrameCrc(bytes: Bytes, length: nat) returns (checksum: nat)
    requires FRAME_HEADER_SIZE + length <= |bytes|
    ensures checksum == Checksum(bytes[4..20] + bytes[24..24 + length])
  {
    hide Crc32c.Update, Crc32c.Finish;
    var crc := Crc32c.UpdateLoop(Crc32c.ALL_ONES, bytes[4..20]);
    crc := Crc32c.UpdateLoop(crc, bytes[24..24 + length]);
    checksum := Crc32c.Finish(crc);
    FrameCrcIsChecksum(bytes, length);
  }

  /** The frame with a checksum of zero. */
  method EncodeBlank(sequence: U64, recordType: Octet, payload: Bytes) returns (bytes: Bytes)
    ensures bytes == Frame(CoveredHeader(sequence, recordType, |payload|), BigEndian(0, 4), payload)
  {
    hide BigEndian;
    bytes := FRAME_MAGIC + [RECORD_VERSION];
    bytes := bytes + [recordType];
    bytes := Append(bytes, 0, 2);
    bytes := Append(bytes, |payload|, 4);
    bytes := Append(bytes, sequence, 8);
    assert bytes == FRAME_MAGIC + CoveredHeader(sequence, recordType, |payload|);
    bytes := Append(bytes, 0, 4);
    bytes := bytes + payload;
  }

  /** Writes the checksum over the four octets reserved for it. */
  method PatchChecksum(frame: Bytes, checksum: nat, ghost covered: Bytes, ghost payload: Bytes) returns (bytes: Bytes)
    requires |covered| == 16 && frame == Frame(covered, BigEndian(0, 4), payload)
    ensures bytes == Frame(covered, BigEndian(checksum, 4), payload)
  {
    OctetOfBigEndian(checksum, 4, 3);
    OctetOfBigEndian(checksum, 4, 2);
    OctetOfBigEndian(checksum, 4, 1);
    OctetOfBigEndian(checksum, 4, 0);
    ghost var octets := BigEndian(checksum, 4);
    bytes := frame[20 := checksum / 0x100_0000 % 256];
    bytes := bytes[21 := checksum / 0x1_0000 % 256];
    bytes := bytes[22 := checksum / 0x100 % 256];
    bytes := bytes[23 := checksum % 256];
    PatchedFrame(frame, covered, payload, octets, bytes);
  }

  lemma PatchedFrame(frame: Bytes, covered: Bytes, payload: Bytes, octets: Bytes, bytes: Bytes)
    requires |covered| == 16 && frame == Frame(covered, BigEndian(0, 4), payload) && |octets| == 4
    requires bytes == frame[20 := octets[0]][21 := octets[1]][22 := octets[2]][23 := octets[3]]
    ensures bytes == Frame(covered, octets, payload)
  {
    hide BigEndian;
  }

  /** Encodes a record; zero is not a sequence number. */
  method BuildRecord(sequence: U64, command: Command) returns (result: Result<Bytes>)
    ensures result == if sequence == 0 then Err(InvalidJournalSequence) else Ok(EncodeRecord(Record(sequence, command)))
  {
    hide Payload, CoveredHeader, Checksum, BigEndian;
    if sequence == 0 {
      return Err(InvalidJournalSequence);
    }
    var payload := EncodePayload(command);
    ghost var covered := CoveredHeader(sequence, TypeOf(command), |payload|);
    var bytes := EncodeBlank(sequence, TypeOf(command), payload);
    FrameSlices(covered, BigEndian(0, 4), payload, []);
    assert bytes + [] == bytes;
    var checksum := ComputeFrameCrc(bytes, |payload|);
    bytes := PatchChecksum(bytes, checksum, covered, payload);
    return Ok(bytes);
  }
}
