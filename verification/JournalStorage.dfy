/** The journal file and its writer. */
module JournalStorage {
  import opened Domain
  import opened Bytes
  import opened JournalCodec
  import opened JournalScan
  import opened JournalLaws
  import opened JournalScanLaws
  import JournalEncoder

  // The file: its octets, and how many of them a crash is sure to keep.
  datatype Disk = Disk(bytes: Bytes, synced: nat)

  datatype Writer = Writer(nextSequence: Option<U64>, failed: bool)

  // How the system calls of one append end: how many octets are written before a write
  // fails, if that is fewer than there are, and whether the sync succeeds.
  datatype AppendIo = AppendIo(written: nat, synced: bool)

  datatype AppendResult = Appended(sequences: seq<U64>) | AppendFailed(error: StorageError)

  /** Why a batch is refused before anything is written. */
  function Refusal(w: Writer, cs: seq<Command>): Option<StorageError> {
    if w.failed then Some(WriterFailed)
    else if cs == [] then Some(EmptyBatch)
    else if w.nextSequence.None? || |cs| > Available(w.nextSequence.value) then Some(StorageError.SequenceExhausted)
    else None
  }

  /** How many sequence numbers are left, in 64-bit arithmetic: the sum wraps for zero. */
  function Available(first: U64): (n: nat)
    ensures n == if first == 0 then 0 else U64_MAX - first + 1
  {
    (U64_MAX - first + 1) % (U64_MAX + 1)
  }

  /** `n` consecutive sequence numbers. */
  function Numbers(first: nat, n: nat): seq<U64>
    requires first + n <= U64_MAX + 1
  {
    seq(n, i requires 0 <= i < n => first + i)
  }

  /** One durability barrier for a whole batch. */
  function AppendBatch(d: Disk, w: Writer, cs: seq<Command>, io: AppendIo): (Disk, Writer, AppendResult) {
    if Refusal(w, cs).Some? then (d, w, AppendFailed(Refusal(w, cs).value))
    else
      var first := w.nextSequence.value;
      var frames := Frames(first, cs);
      if io.written < |frames| then
        (Disk(d.bytes + frames[..io.written], d.synced), w.(failed := true), AppendFailed(WriteFailed))
      else if !io.synced then
        (Disk(d.bytes + frames, d.synced), w.(failed := true), AppendFailed(SyncFailed))
      else
        (Disk(d.bytes + frames, |d.bytes + frames|),
         Writer(NextSequence(first + |cs| - 1), false),
         Appended(Numbers(first, |cs|)))
  }

  datatype OpenResult = Opened(writer: Writer) | OpenFailed(error: StorageError)

  function OpenRecovered(d: Disk): OpenResult {
    match ScanFile(d.bytes)
    case ScanFailed(error) => OpenFailed(error)
    case Scanned(scan) =>
      if scan.hasTruncatedTail then OpenFailed(TruncatedTailRequiresRepair)
      else Opened(Writer(scan.nextSequence, false))
  }

  // Whether the truncation and the sync after it succeed.
  datatype RepairIo = RepairIo(truncated: bool, synced: bool)

  function RepairTruncatedTail(d: Disk, io: RepairIo): (Disk, OpenResult) {
    match ScanFile(d.bytes)
    case ScanFailed(error) => (d, OpenFailed(error))
    case Scanned(scan) =>
      if !scan.hasTruncatedTail then (d, OpenFailed(NoTruncatedTail))
      else if !io.truncated || scan.validSize > |d.bytes| then (d, OpenFailed(TruncateFailed))
      else
        var bytes := d.bytes[..scan.validSize];
        if !io.synced then (Disk(bytes, Min(d.synced, |bytes|)), OpenFailed(SyncFailed))
        else (Disk(bytes, |bytes|), Opened(Writer(scan.nextSequence, false)))
  }

  // ---------- Reading the file ----------

  /** The result of a scan that has already read some frames. */
  function Resumed(commands: seq<Command>, size: nat, rest: ScanResult): ScanResult {
    match rest
    case ScanFailed(_) => rest
    case Scanned(scan) => Scanned(scan.(commands := commands + scan.commands, validSize := size + scan.validSize))
  }

  lemma ResumedStep(commands: seq<Command>, size: nat, c: Command, n: nat, rest: ScanResult)
    ensures Resumed(commands, size, Prepend(c, n, rest)) == Resumed(commands + [c], size + n, rest)
  {
    if rest.Scanned? {
      assert commands + ([c] + rest.scan.commands) == commands + [c] + rest.scan.commands;
    }
  }

  /** No frame is longer than the window the reader looks at. */
  lemma WindowSuffices(s: Bytes, n: nat)
    requires n == Min(|s|, FRAME_HEADER_SIZE + MAXIMUM_PAYLOAD_LENGTH)
    ensures DecodePrefix(s[..n]) == DecodePrefix(s)
  {
    hide DecodePrefix;
    if n == |s| {
      assert s[..n] == s;
    } else {
      DecodeLooksAhead(s, n);
    }
  }

  /** The loop state `scan` stands for a scan of `s` that has read the frames before `validSize`. */
  ghost predicate Reading(s: Bytes, scan: Scan) {
    && FILE_HEADER_SIZE <= scan.validSize <= |s| && |scan.commands| < U64_MAX
    && !scan.hasTruncatedTail && scan.nextSequence == Some(|scan.commands| + 1)
    && ScanFile(s) == Resumed(scan.commands, scan.validSize, ScanFrames(s[scan.validSize..], |scan.commands|))
  }

  /** What the next frame makes of the loop state: a result, or a longer state. */
  datatype Progress = Done(result: ScanResult) | More(scan: Scan)

  function Advance(s: Bytes, scan: Scan, decoded: Result<Decoded>): Progress {
    match decoded
    case Err(error) =>
      if error == TruncatedInput then Done(Scanned(scan.(hasTruncatedTail := true)))
      else Done(ScanFailed(InvalidJournal(error)))
    case Ok(d) =>
      var commands := scan.commands + [d.record.command];
      var size := scan.validSize + d.consumed;
      if d.record.sequence != |scan.commands| + 1 then Done(ScanFailed(SequenceViolation))
      else if |commands| < U64_MAX then More(Scan(commands, size, false, Some(|commands| + 1)))
      else if size != |s| then Done(ScanFailed(SequenceViolation))
      else Done(Scanned(Scan(commands, size, false, None)))
  }

  lemma AdvanceIsRight(s: Bytes, scan: Scan, decoded: Result<Decoded>)
    requires Reading(s, scan) && scan.validSize < |s| && decoded == DecodePrefix(s[scan.validSize..])
    ensures Advance(s, scan, decoded).Done? ==> ScanFile(s) == Advance(s, scan, decoded).result
    ensures Advance(s, scan, decoded).More? ==>
              Reading(s, Advance(s, scan, decoded).scan) && scan.validSize < Advance(s, scan, decoded).scan.validSize
  {
    hide DecodePrefix, ScanFile, EncodeRecord;
    var unread := s[scan.validSize..];
    if decoded.Ok? {
      var d := decoded.value;
      EncodeOfDecode(unread);
      var rest := if |scan.commands| + 1 == U64_MAX then Scanned(Scan([], 0, false, None))
                  else ScanFrames(unread[d.consumed..], |scan.commands| + 1);
      ResumedStep(scan.commands, scan.validSize, d.record.command, d.consumed, rest);
      assert unread[d.consumed..] == s[scan.validSize + d.consumed..];
    }
  }

  lemma ReadingStarts(s: Bytes)
    requires |s| >= FILE_HEADER_SIZE && DecodeFileHeader(s[..FILE_HEADER_SIZE]).Ok?
    ensures Reading(s, Scan([], FILE_HEADER_SIZE, false, Some(1)))
  {
    hide ScanFrames, DecodeFileHeader;
    var rest := ScanFrames(s[FILE_HEADER_SIZE..], 0);
    if rest.Scanned? {
      assert [] + rest.scan.commands == rest.scan.commands;
    }
  }

  lemma ReadingEnds(s: Bytes, scan: Scan)
    requires Reading(s, scan) && scan.validSize == |s|
    ensures ScanFile(s) == Scanned(scan)
  {
    hide ScanFile;
    assert s[scan.validSize..] == [];
  }

  /** Reads frame after frame through a window, counting sequences as it goes. */
  method ScanDescriptor(s: Bytes) returns (result: ScanResult)
    ensures result == ScanFile(s)
  {
    hide DecodePrefix, DecodeFileHeader;
    if |s| < FILE_HEADER_SIZE {
      return ScanFailed(InvalidJournal(TruncatedInput));
    }
    var header := DecodeFileHeader(s[..FILE_HEADER_SIZE]);
    if header.Err? {
      return ScanFailed(InvalidJournal(header.error));
    }
    hide ScanFile, ScanFrames, Resumed, EncodeRecord;
    var scan := Scan([], FILE_HEADER_SIZE, false, Some(1));
    var expected: U64 := 1;
    ReadingStarts(s);
    while scan.validSize < |s|
      invariant Reading(s, scan) && expected == |scan.commands| + 1
      decreases |s| - scan.validSize
    {
      ghost var unread := s[scan.validSize..];
      var size := Min(|s| - scan.validSize, FRAME_HEADER_SIZE + MAXIMUM_PAYLOAD_LENGTH);
      var decoded := DecodePrefix(s[scan.validSize..scan.validSize + size]);
      assert s[scan.validSize..scan.validSize + size] == unread[..size];
      WindowSuffices(unread, size);
      AdvanceIsRight(s, scan, decoded);
      if decoded.Err? {
        if decoded.error == TruncatedInput {
          return Scanned(scan.(hasTruncatedTail := true));
        }
        return ScanFailed(InvalidJournal(decoded.error));
      }
      var frame := decoded.value;
      if frame.record.sequence != expected {
        return ScanFailed(SequenceViolation);
      }
      scan := scan.(commands := scan.commands + [frame.record.command], validSize := scan.validSize + frame.consumed);
      if expected == U64_MAX {
        if scan.validSize != |s| {
          return ScanFailed(SequenceViolation);
        }
        return Scanned(scan.(nextSequence := None));
      }
      expected := expected + 1;
      scan := scan.(nextSequence := Some(expected));
    }
    ReadingEnds(s, scan);
    return Scanned(scan);
  }

  // ---------- The file and the writer as objects ----------

  // What one write call returns.
  datatype WriteAnswer = Wrote(count: nat) | Interrupted | Broken

  /** How many of `n` octets the answers let through, and the answers left over. */
  function Through(n: nat, answers: seq<WriteAnswer>): (r: (nat, seq<WriteAnswer>))
    ensures r.0 <= n
    decreases |answers|
  {
    if n == 0 || answers == [] then (0, answers)
    else
      match answers[0]
      case Wrote(count) =>
        if count == 0 then (0, answers[1..])
        else
          var more := Through(n - Min(count, n), answers[1..]);
          (Min(count, n) + more.0, more.1)
      case Interrupted => Through(n, answers[1..])
      case Broken => (0, answers[1..])
  }

  /** How many octets of the frames of `cs` the answers let through, frame by frame. */
  function BatchThrough(cs: seq<Command>, answers: seq<WriteAnswer>): (written: nat)
    ensures written <= FramesSize(cs)
  {
    if cs == [] then 0
    else
      var first := Through(FrameSize(cs[0]), answers);
      if first.0 < FrameSize(cs[0]) then first.0 else first.0 + BatchThrough(cs[1..], first.1)
  }

  lemma BatchThroughStep(cs: seq<Command>, index: nat, answers: seq<WriteAnswer>)
    requires index <= |cs|
    ensures index == |cs| ==> BatchThrough(cs[index..], answers) == 0
    ensures index < |cs| ==>
              var first := Through(FrameSize(cs[index]), answers);
              BatchThrough(cs[index..], answers)
              == if first.0 < FrameSize(cs[index]) then first.0 else first.0 + BatchThrough(cs[index + 1..], first.1)
  {
    hide Through;
    if index < |cs| {
      assert cs[index..][1..] == cs[index + 1..];
    }
  }

  /** What the answers allow in all: the positive counts before the first zero or failure. */
  function Supply(answers: seq<WriteAnswer>): nat {
    if answers == [] || answers[0].Broken? || answers[0] == Wrote(0) then 0
    else (if answers[0].Wrote? then answers[0].count else 0) + Supply(answers[1..])
  }

  /** A frame gets through exactly as far as the answers supply. */
  lemma {:induction false} ThroughIsSupply(n: nat, answers: seq<WriteAnswer>)
    ensures Through(n, answers).0 == Min(n, Supply(answers))
    decreases |answers|
  {
    if n > 0 && answers != [] {
      if answers[0].Wrote? {
        ThroughIsSupply(n - Min(answers[0].count, n), answers[1..]);
      } else {
        ThroughIsSupply(n, answers[1..]);
      }
    }
  }

  predicate NoneFails(answers: seq<WriteAnswer>) {
    forall i :: 0 <= i < |answers| ==> !answers[i].Broken? && answers[i] != Wrote(0)
  }

  function Writes(answers: seq<WriteAnswer>): nat {
    if answers == [] then 0 else (if answers[0].Wrote? then 1 else 0) + Writes(answers[1..])
  }

  lemma {:induction false} ShortWritesSuffice(n: nat, answers: seq<WriteAnswer>)
    requires NoneFails(answers) && n <= Writes(answers)
    ensures var r := Through(n, answers); r.0 == n && NoneFails(r.1) && Writes(answers) - n <= Writes(r.1)
    decreases |answers|
  {
    if n > 0 {
      if answers[0].Wrote? {
        ShortWritesSuffice(n - Min(answers[0].count, n), answers[1..]);
      } else {
        ShortWritesSuffice(n, answers[1..]);
      }
    }
  }

  /** However short the writes are: if none fails and there are enough of them, a batch is written completely. */
  lemma {:induction false} BatchGetsThrough(cs: seq<Command>, answers: seq<WriteAnswer>)
    requires NoneFails(answers) && FramesSize(cs) <= Writes(answers)
    ensures BatchThrough(cs, answers) == FramesSize(cs)
    decreases |cs|
  {
    if cs != [] {
      ShortWritesSuffice(FrameSize(cs[0]), answers);
      BatchGetsThrough(cs[1..], Through(FrameSize(cs[0]), answers).1);
    }
  }

  class JournalFile {
    var bytes: Bytes
    var synced: nat

    ghost function Contents(): Disk
      reads this
    {
      Disk(bytes, synced)
    }

    constructor (bytes: Bytes, synced: nat)
      ensures Contents() == Disk(bytes, synced)
    {
      this.bytes, this.synced := bytes, synced;
    }

    /** Writes until everything is written or a call fails; no answer counts as failure. */
    method WriteAll(frame: Bytes, answers: seq<WriteAnswer>)
      returns (ok: bool, rest: seq<WriteAnswer>, ghost written: nat)
      modifies this`bytes
      ensures (written, rest) == Through(|frame|, answers)
      ensures bytes == old(bytes) + frame[..written]
      ensures ok <==> written == |frame|
    {
      var done := 0;
      rest := answers;
      while done < |frame|
        invariant 0 <= done <= |frame| && bytes == old(bytes) + frame[..done]
        invariant var more := Through(|frame| - done, rest); Through(|frame|, answers) == (done + more.0, more.1)
        decreases |rest|
      {
        if rest == [] {
          return false, rest, done;
        }
        var answer := rest[0];
        rest := rest[1..];
        match answer {
          case Wrote(count) =>
            if count == 0 {
              return false, rest, done;
            }
            var count' := Min(count, |frame| - done);
            bytes := bytes + frame[done..done + count'];
            done := done + count';
          case Interrupted =>
          case Broken => return false, rest, done;
        }
      }
      return true, rest, done;
    }

    /** Writes the frames one by one and stops at the first that cannot be written completely. */
    method WriteFrames(ghost first: nat, ghost commands: seq<Command>, frames: seq<Bytes>, answers: seq<WriteAnswer>)
      returns (ok: bool)
      requires first + |commands| <= U64_MAX + 1 && FramesOf(first, commands, frames)
      modifies this`bytes
      ensures |Frames(first, commands)| == FramesSize(commands)
      ensures bytes == old(bytes) + Frames(first, commands)[..BatchThrough(commands, answers)]
      ensures ok <==> BatchThrough(commands, answers) == FramesSize(commands)
    {
      hide EncodeRecord, Through, BatchThrough, FramesSize;
      var rest := answers;
      ok := true;
      ghost var all := Frames(first, commands);
      FramesLength(first, commands);
      assert Frames(first, commands[..0]) == [] && commands[0..] == commands;
      for index := 0 to |frames|
        invariant bytes == old(bytes) + Frames(first, commands[..index])
        invariant BatchThrough(commands, answers)
               == |Frames(first, commands[..index])| + BatchThrough(commands[index..], rest)
      {
        hide Frames;
        FramesSplit(first, commands, index);
        BatchThroughStep(commands, index, rest);
        ghost var written;
        ok, rest, written := WriteAll(frames[index], rest);
        if !ok {
          ghost var before := Frames(first, commands[..index]);
          PartlyWritten(before, frames[index], Frames(first + index + 1, commands[index + 1..]), written);
          return;
        }
      }
      BatchThroughStep(commands, |frames|, rest);
      assert commands[..|frames|] == commands && all[..|all|] == all;
    }
  }

  class JournalWriter {
    const file: JournalFile
    var nextSequence: Option<U64>
    var failed: bool

    ghost function Contents(): Writer
      reads this
    {
      Writer(nextSequence, failed)
    }

    constructor (file: JournalFile, nextSequence: Option<U64>)
      ensures this.file == file && Contents() == Writer(nextSequence, false)
    {
      this.file, this.nextSequence, this.failed := file, nextSequence, false;
    }

    method AppendBatchAndSync(commands: seq<Command>, answers: seq<WriteAnswer>, syncs: bool)
      returns (result: AppendResult)
      modifies this, file
      ensures (file.Contents(), Contents(), result)
           == AppendBatch(old(file.Contents()), old(Contents()), commands,
                          AppendIo(BatchThrough(commands, answers), syncs))
    {
      hide BatchThrough, EncodeRecord, Frames, FramesSize;
      if failed {
        return AppendFailed(WriterFailed);
      }
      if commands == [] {
        return AppendFailed(EmptyBatch);
      }
      if nextSequence.None? {
        return AppendFailed(StorageError.SequenceExhausted);
      }
      var first := nextSequence.value;
      var available := Available(first);
      if |commands| > available {
        return AppendFailed(StorageError.SequenceExhausted);
      }
      hide Available;

      var frames, sequences := EncodeBatch(first, commands);
      var ok := file.WriteFrames(first, commands, frames, answers);
      ghost var all := Frames(first, commands);
      assert all[..|all|] == all;
      if !ok {
        failed := true;
        return AppendFailed(WriteFailed);
      }
      if !syncs {
        failed := true;
        return AppendFailed(SyncFailed);
      }
      file.synced := |file.bytes|;
      if |commands| == available {
        nextSequence := None;
      } else {
        nextSequence := Some(first + |commands|);
      }
      return Appended(sequences);
    }
  }

  /** Prepares every frame of a batch before anything is written. */
  method EncodeBatch(first: U64, commands: seq<Command>) returns (frames: seq<Bytes>, sequences: seq<U64>)
    requires 0 < first && first + |commands| <= U64_MAX + 1
    ensures sequences == Numbers(first, |commands|)
    ensures FramesOf(first, commands, frames)
  {
    hide EncodeRecord;
    frames, sequences := [], [];
    for index := 0 to |commands|
      invariant |frames| == |sequences| == index
      invariant forall k :: 0 <= k < index ==> sequences[k] == first + k
      invariant forall k :: 0 <= k < index ==> frames[k] == EncodeRecord(Record(first + k, commands[k]))
    {
      var encoded := JournalEncoder.BuildRecord(first + index, commands[index]);
      frames := frames + [encoded.value];
      sequences := sequences + [first + index];
    }
  }

  ghost predicate FramesOf(first: nat, commands: seq<Command>, frames: seq<Bytes>)
    requires first + |commands| <= U64_MAX + 1
  {
    && |frames| == |commands|
    && forall k :: 0 <= k < |frames| ==> frames[k] == EncodeRecord(Record(first + k, commands[k]))
  }

  lemma FramesSplit(first: nat, cs: seq<Command>, index: nat)
    requires first + |cs| <= U64_MAX + 1 && index < |cs|
    ensures Frames(first, cs) == Frames(first, cs[..index])
                                 + EncodeRecord(Record(first + index, cs[index]))
                                 + Frames(first + index + 1, cs[index + 1..])
    ensures Frames(first, cs[..index + 1])
         == Frames(first, cs[..index]) + EncodeRecord(Record(first + index, cs[index]))
  {
    hide EncodeRecord;
    assert cs == cs[..index] + cs[index..] && cs[index..][1..] == cs[index + 1..];
    FramesConcat(first, cs[..index], cs[index..]);
    assert cs[..index + 1] == cs[..index] + [cs[index]];
    FramesConcat(first, cs[..index], [cs[index]]);
    assert Frames(first + index + 1, [cs[index]][1..]) == [];
  }

  lemma PartlyWritten(a: Bytes, f: Bytes, b: Bytes, n: nat)
    requires n < |f|
    ensures |a| + n < |a + f + b| && (a + f + b)[..|a| + n] == a + f[..n]
  {
  }
}
