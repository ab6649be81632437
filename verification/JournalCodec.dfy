/** The binary frames of the command journal. */
module JournalCodec {
  import opened Domain
  import opened Bytes
  import Crc32c

  datatype CodecError =
    | InvalidFileMagic
    | UnsupportedJournalVersion
    | UnsupportedMatchingRulesVersion
    | InvalidReservedBytes
    | InvalidFrameMagic
    | UnsupportedRecordVersion
    | UnsupportedRecordType
    | InvalidFlags
    | InvalidPayloadLength
    | InvalidJournalSequence
    | ChecksumMismatch
    | TruncatedInput
    | UnexpectedTrailingBytes

  datatype Result<+T> = Ok(value: T) | Err(error: CodecError)

  datatype Record = Record(sequence: U64, command: Command)

  datatype Decoded = Decoded(record: Record, consumed: nat)

  const FILE_MAGIC: Bytes := [77, 65, 84, 67, 72, 74, 78, 76]
  const FRAME_MAGIC: Bytes := [77, 74, 82, 49]
  const FORMAT_VERSION: nat := 1
  const MATCHING_RULES_VERSION: nat := 1
  const RECORD_VERSION: Octet := 1
  const FILE_HEADER_SIZE: nat := 16
  const FRAME_HEADER_SIZE: nat := 24
  const MAXIMUM_PAYLOAD_LENGTH: nat := 64
  const SUBMIT_TYPE: Octet := 1
  const CANCEL_TYPE: Octet := 2
  const SUBMIT_PAYLOAD_SIZE: nat := 25
  const CANCEL_PAYLOAD_SIZE: nat := 8

  // ---------- Encoding ----------

  function FileHeader(): Bytes {
    FILE_MAGIC + BigEndian(FORMAT_VERSION, 2) + BigEndian(MATCHING_RULES_VERSION, 2) + BigEndian(0, 4)
  }

  function TypeOf(command: Command): Octet {
    if command.SubmitLimitOrder? then SUBMIT_TYPE else CANCEL_TYPE
  }

  function ExpectedPayloadLength(recordType: Octet): nat {
    if recordType == SUBMIT_TYPE then SUBMIT_PAYLOAD_SIZE
    else if recordType == CANCEL_TYPE then CANCEL_PAYLOAD_SIZE
    else 0
  }

  function Payload(command: Command): (s: Bytes)
    ensures |s| == ExpectedPayloadLength(TypeOf(command))
  {
    match command
    case SubmitLimitOrder(o) =>
      BigEndian(o.id, 8) + [o.side] + BigEndian(o.limitPrice, 8) + BigEndian(o.quantity, 8)
    case CancelOrder(id) => BigEndian(id, 8)
  }

  /** The sixteen header octets that the checksum covers. */
  function CoveredHeader(sequence: U64, recordType: Octet, length: nat): (s: Bytes)
    ensures |s| == 16
  {
    [RECORD_VERSION, recordType] + BigEndian(0, 2) + BigEndian(length, 4) + BigEndian(sequence, 8)
  }

  function Checksum(stream: Bytes): nat {
    Crc32c.Finish(Crc32c.Update(Crc32c.ALL_ONES, stream))
  }

  function Frame(covered: Bytes, checksum: Bytes, payload: Bytes): Bytes {
    FRAME_MAGIC + covered + checksum + payload
  }

  function EncodeRecord(r: Record): (s: Bytes)
    ensures |s| == FRAME_HEADER_SIZE + ExpectedPayloadLength(TypeOf(r.command))
  {
    var payload := Payload(r.command);
    var covered := CoveredHeader(r.sequence, TypeOf(r.command), |payload|);
    Frame(covered, BigEndian(Checksum(covered + payload), 4), payload)
  }

  // ---------- Decoding ----------

  function DecodeFileHeader(s: Bytes): Result<()> {
    if |s| < FILE_HEADER_SIZE then Err(TruncatedInput)
    else if |s| > FILE_HEADER_SIZE then Err(UnexpectedTrailingBytes)
    else if s[..8] != FILE_MAGIC then Err(InvalidFileMagic)
    else if Value(s[8..10]) != FORMAT_VERSION then Err(UnsupportedJournalVersion)
    else if Value(s[10..12]) != MATCHING_RULES_VERSION then Err(UnsupportedMatchingRulesVersion)
    else if Value(s[12..16]) != 0 then Err(InvalidReservedBytes)
    else Ok(())
  }

  function FrameCrc(s: Bytes, length: nat): nat
    requires FRAME_HEADER_SIZE + length <= |s|
  {
    Crc32c.Finish(Crc32c.Update(Crc32c.Update(Crc32c.ALL_ONES, s[4..20]), s[24..24 + length]))
  }

  function DecodeCommand(recordType: Octet, s: Bytes): Command
    requires |s| >= FRAME_HEADER_SIZE + ExpectedPayloadLength(recordType)
    requires recordType == SUBMIT_TYPE || recordType == CANCEL_TYPE
  {
    if recordType == SUBMIT_TYPE
    then SubmitLimitOrder(NewLimitOrder(U64At(s, 24), s[32], U64At(s, 33), U64At(s, 41)))
    else CancelOrder(U64At(s, 24))
  }

  /** Why the header is refused before the payload is looked at, if it is. */
  function HeaderError(s: Bytes): Option<CodecError>
    requires |s| >= FRAME_HEADER_SIZE
  {
    if s[..4] != FRAME_MAGIC then Some(InvalidFrameMagic)
    else if s[4] != RECORD_VERSION then Some(UnsupportedRecordVersion)
    else if s[5] != SUBMIT_TYPE && s[5] != CANCEL_TYPE then Some(UnsupportedRecordType)
    else if Value(s[6..8]) != 0 then Some(InvalidFlags)
    else if Value(s[8..12]) > MAXIMUM_PAYLOAD_LENGTH || Value(s[8..12]) != ExpectedPayloadLength(s[5])
    then Some(InvalidPayloadLength)
    else None
  }

  /** Decodes one complete frame at the beginning of `s`. */
  function DecodePrefix(s: Bytes): Result<Decoded> {
    hide FrameCrc;
    if |s| < FRAME_HEADER_SIZE then Err(TruncatedInput)
    else if HeaderError(s).Some? then Err(HeaderError(s).value)
    else
      var length := ExpectedPayloadLength(s[5]);
      if |s| < FRAME_HEADER_SIZE + length then Err(TruncatedInput)
      else if U64At(s, 12) == 0 then Err(InvalidJournalSequence)
      else if Value(s[20..24]) != FrameCrc(s, length) then Err(ChecksumMismatch)
      else Ok(Decoded(Record(U64At(s, 12), DecodeCommand(s[5], s)), FRAME_HEADER_SIZE + length))
  }
}
