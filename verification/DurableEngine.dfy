/** The engine that makes every command durable before it applies it. */
module DurableEngine {
  import opened Domain
  import opened Bytes
  import opened FlatBook
  import opened BookRuns
  import opened JournalDamage
  import opened JournalScan
  import opened JournalScanLaws
  import opened JournalStorage
  import JournalCodec

  datatype EngineError =
    | JournalFailure(storage: StorageError)
    | ApplicationFailure
    | RecoveryReplayFailure
    | EngineFailed

  datatype Engine = Engine(book: Book, writer: Writer, healthy: bool)

  datatype BatchResult = Applied(results: seq<CommandResult>) | BatchFailed(error: EngineError)

  // How a batch runs into the outside world: its append, and after how many commands an
  // exception ends the application, if one does.
  datatype BatchIo = BatchIo(append: AppendIo, throwsAfter: Option<nat>)

  function ExecuteBatch(d: Disk, e: Engine, cs: seq<Command>, io: BatchIo): (Disk, Engine, BatchResult) {
    if !e.healthy then (d, e, BatchFailed(EngineFailed))
    else
      var (d', w', appended) := AppendBatch(d, e.writer, cs, io.append);
      if appended.AppendFailed?
      then (d', Engine(e.book, w', false), BatchFailed(JournalFailure(appended.error)))
      else if io.throwsAfter.Some? && io.throwsAfter.value < |cs|
      then (d', Engine(Run(e.book, cs[..io.throwsAfter.value]).0, w', false), BatchFailed(ApplicationFailure))
      else
        var (book, results) := Run(e.book, cs);
        (d', Engine(book, w', true), Applied(results))
  }

  datatype StartResult = Started(engine: Engine) | StartFailed(error: EngineError)

  /** Reads the journal, repairs a torn tail, and replays it into an empty book. */
  function Recover(d: Disk, io: RepairIo): (Disk, StartResult) {
    match ScanFile(d.bytes)
    case ScanFailed(error) => (d, StartFailed(JournalFailure(error)))
    case Scanned(scan) =>
      if scan.hasTruncatedTail then
        var (d', repaired) := RepairTruncatedTail(d, io);
        if repaired.OpenFailed? then (d', StartFailed(JournalFailure(repaired.error)))
        else
          match ScanFile(d'.bytes)
          case ScanFailed(error) => (d', StartFailed(JournalFailure(error)))
          case Scanned(again) =>
            if again.hasTruncatedTail then (d', StartFailed(RecoveryReplayFailure))
            else (d', Started(Engine(Run(EMPTY, again.commands).0, repaired.writer, true)))
      else
        match OpenRecovered(d)
        case OpenFailed(error) => (d, StartFailed(JournalFailure(error)))
        case Opened(writer) => (d, Started(Engine(Run(EMPTY, scan.commands).0, writer, true)))
  }

  /** A file that was just created, and its engine. */
  const FRESH_DISK := Disk(JournalCodec.FileHeader(), JournalCodec.FILE_HEADER_SIZE)
  const FRESH_ENGINE := Engine(EMPTY, Writer(Some(1), false), true)

  // ---------- Group commit ----------

  /** The system calls that write and sync `cs` go well. */
  predicate AllWell(io: BatchIo, cs: seq<Command>) {
    io.append.synced && io.append.written >= FramesSize(cs) && io.throwsAfter.None?
  }

  lemma AppendSucceeds(d: Disk, w: Writer, cs: seq<Command>, io: AppendIo)
    requires Refusal(w, cs).None? && io.synced && io.written >= FramesSize(cs)
    ensures var first := w.nextSequence.value;
            && first > 0 && first + |cs| <= U64_MAX + 1
            && AppendBatch(d, w, cs, io)
               == (Disk(d.bytes + Frames(first, cs), |d.bytes + Frames(first, cs)|),
                   Writer(NextSequence(first + |cs| - 1), false), Appended(Numbers(first, |cs|)))
  {
    hide Frames, FramesSize, Numbers;
    FramesLength(w.nextSequence.value, cs);
  }

  lemma BatchSucceeds(d: Disk, e: Engine, cs: seq<Command>, io: BatchIo)
    requires e.healthy && Refusal(e.writer, cs).None? && AllWell(io, cs)
    ensures var first := e.writer.nextSequence.value;
            && first > 0 && first + |cs| <= U64_MAX + 1
            && ExecuteBatch(d, e, cs, io)
               == (Disk(d.bytes + Frames(first, cs), |d.bytes + Frames(first, cs)|),
                   Engine(Run(e.book, cs).0, Writer(NextSequence(first + |cs| - 1), false), true),
                   Applied(Run(e.book, cs).1))
  {
    hide Frames, FramesSize, AppendBatch, Run;
    AppendSucceeds(d, e.writer, cs, io.append);
  }

  /**
   A batch is applied exactly if engine and writer are in order, it is not empty, there are numbers for
   it, everything is written and synced, and nothing throws; otherwise the engine has failed for good,
   and what went wrong first is reported. The file only grows, and by no more than the batch's frames.
   */
  lemma {:induction false} BatchVerdict(d: Disk, e: Engine, cs: seq<Command>, io: BatchIo)
    ensures var (d', e', r) := ExecuteBatch(d, e, cs, io);
            var numbers := if e.writer.nextSequence.None? || e.writer.nextSequence.value == 0 then 0
                           else U64_MAX - e.writer.nextSequence.value + 1;
            && e'.healthy == r.Applied? && d.bytes <= d'.bytes && |d'.bytes| <= |d.bytes| + FramesSize(cs)
            && (if !e.healthy then r == BatchFailed(EngineFailed) && d' == d && e' == e
                else if e.writer.failed then r == BatchFailed(JournalFailure(WriterFailed)) && d' == d
                else if cs == [] then r == BatchFailed(JournalFailure(EmptyBatch)) && d' == d
                else if |cs| > numbers then r == BatchFailed(JournalFailure(StorageError.SequenceExhausted)) && d' == d
                else if io.append.written < FramesSize(cs) then
                  r == BatchFailed(JournalFailure(WriteFailed)) && |d'.bytes| == |d.bytes| + io.append.written
                else if !io.append.synced then r == BatchFailed(JournalFailure(SyncFailed)) && d'.synced == d.synced
                else if io.throwsAfter.Some? && io.throwsAfter.value < |cs| then
                  r == BatchFailed(ApplicationFailure) && d'.synced == |d'.bytes|
                else r == Applied(Run(e.book, cs).1) && d'.synced == |d'.bytes|)
  {
    hide Frames, FramesSize, Numbers, Run;
    if Refusal(e.writer, cs).None? {
      FramesLength(e.writer.nextSequence.value, cs);
    }
  }

  /** However short the writes are: if no call fails and there are enough of them, a batch is applied. */
  lemma {:induction false} BatchIsApplied(d: Disk, e: Engine, cs: seq<Command>, answers: seq<WriteAnswer>)
    requires e.healthy && Refusal(e.writer, cs).None? && NoneFails(answers) && FramesSize(cs) <= Writes(answers)
    ensures ExecuteBatch(d, e, cs, BatchIo(AppendIo(BatchThrough(cs, answers), true), None)).2
         == Applied(Run(e.book, cs).1)
  {
    hide ExecuteBatch, FramesSize, BatchThrough, NoneFails, Writes, Frames, Run;
    BatchGetsThrough(cs, answers);
    BatchSucceeds(d, e, cs, BatchIo(AppendIo(BatchThrough(cs, answers), true), None));
  }

  /** A batch is durable and applied exactly as its two halves would be, one after the other. */
  lemma {:induction false} GroupCommit(
    d: Disk, e: Engine, a: seq<Command>, b: seq<Command>, io: BatchIo, ioA: BatchIo, ioB: BatchIo)
    requires a != [] && b != [] && e.healthy && Refusal(e.writer, a + b).None?
    requires AllWell(io, a + b) && AllWell(ioA, a) && AllWell(ioB, b)
    ensures var (dA, eA, rA) := ExecuteBatch(d, e, a, ioA);
            var (dB, eB, rB) := ExecuteBatch(dA, eA, b, ioB);
            && rA.Applied? && rB.Applied?
            && ExecuteBatch(d, e, a + b, io) == (dB, eB, Applied(rA.results + rB.results))
  {
    hide ExecuteBatch, Frames, FramesSize, Run;
    var first := e.writer.nextSequence.value;
    BatchSucceeds(d, e, a + b, io);
    BatchSucceeds(d, e, a, ioA);
    var (dA, eA, rA) := ExecuteBatch(d, e, a, ioA);
    BatchSucceeds(dA, eA, b, ioB);
    FramesConcat(first, a, b);
    RunConcat(e.book, a, b);
    var (x, y) := (Frames(first, a), Frames(first + |a|, b));
    assert d.bytes + (x + y) == d.bytes + x + y;
  }

  /** Batches of one command each, one after the other, until one fails. */
  function ExecuteSingles(d: Disk, e: Engine, cs: seq<Command>, ios: seq<BatchIo>): (Disk, Engine, BatchResult)
    requires |ios| == |cs|
    decreases |cs|
  {
    hide ExecuteBatch;
    if cs == [] then (d, e, Applied([]))
    else
      var (d', e', first) := ExecuteBatch(d, e, cs[..1], ios[0]);
      if first.BatchFailed? then (d', e', first)
      else
        var (d'', e'', rest) := ExecuteSingles(d', e', cs[1..], ios[1..]);
        (d'', e'', if rest.Applied? then Applied(first.results + rest.results) else rest)
  }

  ghost predicate AllSinglesWell(ios: seq<BatchIo>, cs: seq<Command>) {
    |ios| == |cs| && forall i :: 0 <= i < |cs| ==> AllWell(ios[i], [cs[i]])
  }

  /** A batch does what its commands do one by one, each with a write and a sync of its own. */
  lemma {:induction false} GroupCommitOfSingles(d: Disk, e: Engine, cs: seq<Command>, io: BatchIo, ios: seq<BatchIo>)
    requires cs != [] && e.healthy && Refusal(e.writer, cs).None? && AllWell(io, cs) && AllSinglesWell(ios, cs)
    ensures ExecuteBatch(d, e, cs, io) == ExecuteSingles(d, e, cs, ios)
    decreases |cs|
  {
    hide ExecuteBatch, FramesSize, Run, Frames;
    assert cs[..1] == [cs[0]];
    if |cs| == 1 {
      assert cs[..1] == cs;
      BatchSucceeds(d, e, cs, io);
      BatchSucceeds(d, e, cs, ios[0]);
      assert Run(e.book, cs).1 + [] == Run(e.book, cs).1;
    } else {
      var (a, b) := (cs[..1], cs[1..]);
      assert a + b == cs;
      var well := BatchIo(AppendIo(FramesSize(b), true), None);
      GroupCommit(d, e, a, b, io, ios[0], well);
      BatchSucceeds(d, e, a, ios[0]);
      var (d', e', _) := ExecuteBatch(d, e, a, ios[0]);
      GroupCommitOfSingles(d', e', b, well, ios[1..]);
    }
  }

  // ---------- Recovery of arbitrary files ----------

  /** A repaired file never needs a second repair: that branch of recovery is unreachable. */
  lemma {:induction false} OneRepairSuffices(d: Disk, io: RepairIo)
    ensures Recover(d, io).1 != StartFailed(RecoveryReplayFailure)
  {
    hide ScanFile, Run;
    if ScanFile(d.bytes).Scanned? {
      RepairIsIdempotent(d.bytes);
    }
  }

  /** Recovering what has just been recovered changes neither the file nor the engine. */
  lemma {:induction false} RecoveryIsIdempotent(d: Disk, io: RepairIo, io': RepairIo)
    requires Recover(d, io).1.Started?
    ensures Recover(Recover(d, io).0, io') == Recover(d, io)
  {
    hide ScanFile, Run;
    RepairIsIdempotent(d.bytes);
  }

  /** Recovery leaves a file it refuses as it is. */
  lemma {:induction false} RefusedFileIsLeftAlone(d: Disk, io: RepairIo)
    requires ScanFile(d.bytes).ScanFailed?
    ensures Recover(d, io) == (d, StartFailed(JournalFailure(ScanFile(d.bytes).error)))
  {
    hide ScanFile;
  }

  /** One changed octet anywhere in a clean journal: recovery refuses it and does not touch it. */
  lemma {:induction false} DamageStopsRecovery(cs: seq<Command>, i: nat, v: Octet, synced: nat, io: RepairIo)
    requires |cs| <= U64_MAX && i < |JournalOf(cs)| && JournalOf(cs)[i] != v
    ensures var d := Disk(JournalOf(cs)[i := v], synced);
            Recover(d, io).0 == d && Recover(d, io).1.StartFailed?
  {
    hide Recover, ScanFile, JournalOf;
    OctetDamageIsFatal(cs, i, v);
    RefusedFileIsLeftAlone(Disk(JournalOf(cs)[i := v], synced), io);
  }

  /** The same for up to four consecutive covered octets of any one record. */
  lemma {:induction false} BurstStopsRecovery(
    cs: seq<Command>, j: nat, f: Bytes, before: Bytes, a: Bytes, b: Bytes, after: Bytes, synced: nat, io: RepairIo)
    requires j < |cs| <= U64_MAX
    requires var g := JournalCodec.EncodeRecord(JournalCodec.Record(j + 1, cs[j]));
             && |f| == |g| && f[20..24] == g[20..24]
             && Stream(g) == before + a + after && Stream(f) == before + b + after
    requires |a| == |b| <= 4 && a != b
    ensures var d := Disk(WithFrame(cs, j, f), synced);
            Recover(d, io).0 == d && Recover(d, io).1.StartFailed?
  {
    hide Recover, ScanFile, WithFrame;
    BurstIsFatal(cs, j, f, before, a, b, after);
    RefusedFileIsLeftAlone(Disk(WithFrame(cs, j, f), synced), io);
  }
}

/** The engine as an object: its book, its writer and its state. */
module DurableEngineObject {
  import opened Domain
  import opened BookRuns
  import opened JournalScan
  import opened JournalStorage
  import OrderBook
  import opened Spec = DurableEngine
  import FlatBook

  method ApplyCommand(book: OrderBook.OrderBook, command: Command) returns (result: CommandResult)
    requires book.Valid()
    modifies book
    ensures book.Valid()
    ensures (book.flat, result) == Apply(old(book.flat), command)
  {
    match command {
      case SubmitLimitOrder(order) =>
        var r := book.Submit(order);
        result := SubmitDone(r);
      case CancelOrder(id) =>
        var r := book.Cancel(id);
        result := CancelDone(r);
    }
  }

  /** Applies the records of a journal to an empty book, one by one. */
  method Replay(commands: seq<Command>) returns (book: OrderBook.OrderBook)
    ensures fresh(book) && book.Valid() && book.flat == Run(FlatBook.EMPTY, commands).0
  {
    book := new OrderBook.OrderBook();
    for i := 0 to |commands|
      invariant fresh(book) && book.Valid() && book.flat == Run(FlatBook.EMPTY, commands[..i]).0
    {
      hide FlatBook.Submit, FlatBook.Cancel, Apply;
      assert commands[..i + 1][..i] == commands[..i];
      var result := ApplyCommand(book, commands[i]);
    }
    assert commands[..|commands|] == commands;
  }

  class DurableEngine {
    const book: OrderBook.OrderBook
    const writer: JournalWriter
    var healthy: bool

    ghost function Contents(): Engine
      reads this, book, writer
    {
      Engine(book.flat, writer.Contents(), healthy)
    }

    constructor (book: OrderBook.OrderBook, writer: JournalWriter)
      ensures this.book == book && this.writer == writer && healthy
    {
      this.book, this.writer, this.healthy := book, writer, true;
    }

    /** Appends and syncs the whole batch, then applies it command by command. */
    method ExecuteBatch(commands: seq<Command>, answers: seq<WriteAnswer>, syncs: bool, throwsAfter: Option<nat>)
      returns (result: BatchResult)
      requires book.Valid()
      modifies this, book, writer, writer.file
      ensures book.Valid()
      ensures (writer.file.Contents(), Contents(), result)
           == Spec.ExecuteBatch(old(writer.file.Contents()), old(Contents()), commands,
                                BatchIo(AppendIo(BatchThrough(commands, answers), syncs), throwsAfter))
    {
      hide AppendBatch, Run, FlatBook.Submit, FlatBook.Cancel, BatchThrough;
      if !healthy {
        return BatchFailed(EngineFailed);
      }
      ghost var start := book.flat;
      var appended := writer.AppendBatchAndSync(commands, answers, syncs);
      if appended.AppendFailed? {
        healthy := false;
        return BatchFailed(JournalFailure(appended.error));
      }
      var results: seq<CommandResult> := [];
      ghost var file, written := writer.file.Contents(), writer.Contents();
      RunOfNothing(start);
      for index := 0 to |commands|
        invariant book.Valid() && healthy && writer.file.Contents() == file && writer.Contents() == written
        invariant throwsAfter.Some? ==> index <= throwsAfter.value
        invariant (book.flat, results) == Run(start, commands[..index])
      {
        if throwsAfter == Some(index) {
          healthy := false;
          return BatchFailed(ApplicationFailure);
        }
        var r := ApplyCommand(book, commands[index]);
        results := results + [r];
        RunOneMore(start, commands, index);
      }
      assert commands[..|commands|] == commands;
      return Applied(results);
    }
  }

  /** Cuts a torn tail off the file, which is scanned again first. */
  method RepairFile(file: JournalFile, repair: RepairIo) returns (opened': OpenResult)
    modifies file
    ensures (file.Contents(), opened') == RepairTruncatedTail(old(file.Contents()), repair)
  {
    hide ScanFile;
    var scanned := ScanDescriptor(file.bytes);
    if scanned.ScanFailed? {
      return OpenFailed(scanned.error);
    }
    var scan := scanned.scan;
    if !scan.hasTruncatedTail {
      return OpenFailed(NoTruncatedTail);
    }
    if !repair.truncated || scan.validSize > |file.bytes| {
      return OpenFailed(TruncateFailed);
    }
    file.bytes := file.bytes[..scan.validSize];
    file.synced := Min(file.synced, |file.bytes|);
    if !repair.synced {
      return OpenFailed(SyncFailed);
    }
    file.synced := |file.bytes|;
    return Opened(Writer(scan.nextSequence, false));
  }

  /** Starts an engine from an existing journal, or says why it cannot. */
  method RecoverEngine(file: JournalFile, repair: RepairIo)
    returns (engine: DurableEngine?, error: Option<EngineError>, ghost start: StartResult)
    modifies file
    ensures (file.Contents(), start) == Recover(old(file.Contents()), repair)
    ensures engine == null <==> start.StartFailed?
    ensures error == if start.StartFailed? then Some(start.error) else None
    ensures engine != null ==>
              && fresh(engine) && fresh(engine.book) && fresh(engine.writer) && engine.writer.file == file
              && engine.book.Valid() && engine.Contents() == start.engine
  {
    hide ScanFile, Run;
    var scanned := ScanDescriptor(file.bytes);
    if scanned.ScanFailed? {
      return null, Some(JournalFailure(scanned.error)), StartFailed(JournalFailure(scanned.error));
    }
    var scan := scanned.scan;
    var writer: Writer;
    if scan.hasTruncatedTail {
      var repaired := RepairFile(file, repair);
      if repaired.OpenFailed? {
        return null, Some(JournalFailure(repaired.error)), StartFailed(JournalFailure(repaired.error));
      }
      writer := repaired.writer;
      scanned := ScanDescriptor(file.bytes);
      if scanned.ScanFailed? {
        return null, Some(JournalFailure(scanned.error)), StartFailed(JournalFailure(scanned.error));
      }
      scan := scanned.scan;
      if scan.hasTruncatedTail {
        return null, Some(RecoveryReplayFailure), StartFailed(RecoveryReplayFailure);
      }
    } else {
      writer := Writer(scan.nextSequence, false);
    }
    var book := Replay(scan.commands);
    var journalWriter := new JournalWriter(file, writer.nextSequence);
    engine := new DurableEngine(book, journalWriter);
    return engine, None, Started(Engine(book.flat, writer, true));
  }

  lemma RunOfNothing(b: FlatBook.Book)
    ensures Run(b, []) == (b, [])
  {
  }

  lemma RunOneMore(b: FlatBook.Book, cs: seq<Command>, i: nat)
    requires i < |cs|
    ensures var before := Run(b, cs[..i]);
            var last := Apply(before.0, cs[i]);
            Run(b, cs[..i + 1]) == (last.0, before.1 + [last.1])
  {
    hide Apply;
    assert cs[..i + 1][..i] == cs[..i];
  }
}
