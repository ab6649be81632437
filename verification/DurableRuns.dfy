/** The engine and its file over every run of batches, failures, crashes and recoveries. */
module DurableRuns {
  import opened Domain
  import opened FlatBook
  import opened BookRuns
  import opened JournalCodec
  import opened JournalScan
  import opened JournalScanLaws
  import opened JournalStorage
  import opened DurableEngine

  // A command whose result has been given to the caller.
  datatype Ack = Ack(sequence: nat, command: Command, result: CommandResult)

  // `journal` records the commands whose frames have been written, wholly or in part.
  datatype World = World(disk: Disk, engine: Option<Engine>, journal: seq<Command>, acked: seq<Ack>)

  datatype Event =
    | Batch(commands: seq<Command>, io: BatchIo)
    | Crash(kept: nat, synced: nat)
    | Restart(repair: RepairIo)

  const START := World(FRESH_DISK, Some(FRESH_ENGINE), [], [])

  function Acks(count: nat, cs: seq<Command>, results: seq<CommandResult>): (r: seq<Ack>)
    requires |cs| == |results|
    ensures |r| == |cs|
  {
    seq(|cs|, i requires 0 <= i < |cs| => Ack(count + i + 1, cs[i], results[i]))
  }

  /** What a batch does to the world. */
  function BatchStep(w: World, cs: seq<Command>, io: BatchIo): World {
    if w.engine.None? then w
    else
      var e := w.engine.value;
      var (d', e', result) := ExecuteBatch(w.disk, e, cs, io);
      World(d', Some(e'),
            if e.healthy && Refusal(e.writer, cs).None? then w.journal + cs else w.journal,
            if result.Applied? && |result.results| == |cs| then w.acked + Acks(|w.journal|, cs, result.results)
            else w.acked)
  }

  /** A crash keeps what was synced and any further octets up to what was written. */
  function CrashStep(w: World, kept: nat, synced: nat): World {
    if w.disk.synced <= synced <= kept <= |w.disk.bytes|
    then w.(disk := Disk(w.disk.bytes[..kept], synced), engine := None)
    else w
  }

  function RestartStep(w: World, repair: RepairIo): World {
    if w.engine.Some? then w
    else
      var (d', start) := Recover(w.disk, repair);
      match start
      case StartFailed(_) => w.(disk := d')
      case Started(e) =>
        World(d', Some(e),
              match ScanFile(d'.bytes) case Scanned(scan) => scan.commands case ScanFailed(_) => w.journal,
              w.acked)
  }

  function Step(w: World, event: Event): World {
    match event
    case Batch(commands, io) => BatchStep(w, commands, io)
    case Crash(kept, synced) => CrashStep(w, kept, synced)
    case Restart(repair) => RestartStep(w, repair)
  }

  function RunEvents(w: World, events: seq<Event>): World {
    if events == [] then w else Step(RunEvents(w, events[..|events| - 1]), events[|events| - 1])
  }

  // ---------- What every step keeps ----------

  /** The file holds a clean journal of `journal`, perhaps cut short. */
  ghost predicate OnDisk(d: Disk, journal: seq<Command>) {
    && |journal| <= U64_MAX
    && FILE_HEADER_SIZE <= d.synced <= |d.bytes| <= |JournalOf(journal)|
    && d.bytes == JournalOf(journal)[..|d.bytes|]
  }

  /** A healthy engine is the replay of a complete journal and writes on behind it. */
  ghost predicate InStep(d: Disk, e: Engine, journal: seq<Command>) {
    && |journal| <= U64_MAX && d.bytes == JournalOf(journal)
    && e.book == Run(EMPTY, journal).0 && e.writer == Writer(NextSequence(|journal|), false)
  }

  /** An acknowledged command is in the synced part of the journal, and replay repeats its result. */
  ghost predicate AckKept(a: Ack, journal: seq<Command>, synced: nat) {
    && 1 <= a.sequence <= |journal| <= U64_MAX
    && |JournalOf(journal[..a.sequence])| <= synced
    && journal[a.sequence - 1] == a.command && Run(EMPTY, journal).1[a.sequence - 1] == a.result
  }

  ghost predicate AllKept(acked: seq<Ack>, journal: seq<Command>, synced: nat) {
    forall i :: 0 <= i < |acked| ==> AckKept(acked[i], journal, synced)
  }

  ghost predicate Good(w: World) {
    && OnDisk(w.disk, w.journal)
    && (w.engine.Some? && w.engine.value.healthy ==> InStep(w.disk, w.engine.value, w.journal))
    && AllKept(w.acked, w.journal, w.disk.synced)
  }

  // ---------- Journals that grow and shrink ----------

  lemma JournalGrows(journal: seq<Command>, cs: seq<Command>)
    requires |journal| + |cs| <= U64_MAX
    ensures JournalOf(journal + cs) == JournalOf(journal) + Frames(|journal| + 1, cs)
  {
    hide Frames, FileHeader;
    FramesConcat(1, journal, cs);
    assert FileHeader() + (Frames(1, journal) + Frames(|journal| + 1, cs))
        == FileHeader() + Frames(1, journal) + Frames(|journal| + 1, cs);
  }

  lemma AckKeptAsJournalGrows(a: Ack, journal: seq<Command>, cs: seq<Command>, synced: nat, synced': nat)
    requires AckKept(a, journal, synced) && |journal| + |cs| <= U64_MAX && synced <= synced'
    ensures AckKept(a, journal + cs, synced')
  {
    hide JournalOf, Run;
    RunConcat(EMPTY, journal, cs);
    assert (journal + cs)[..a.sequence] == journal[..a.sequence];
  }

  lemma KeptAsJournalGrows(acked: seq<Ack>, journal: seq<Command>, cs: seq<Command>, synced: nat, synced': nat)
    requires AllKept(acked, journal, synced) && |journal| + |cs| <= U64_MAX && synced <= synced'
    ensures AllKept(acked, journal + cs, synced')
  {
    hide AckKept;
    forall i | 0 <= i < |acked|
      ensures AckKept(acked[i], journal + cs, synced')
    {
      AckKeptAsJournalGrows(acked[i], journal, cs, synced, synced');
    }
  }

  lemma AppliedAckIsKept(journal: seq<Command>, cs: seq<Command>, i: nat)
    requires |journal| + |cs| <= U64_MAX && i < |cs|
    ensures AckKept(Ack(|journal| + i + 1, cs[i], Run(Run(EMPTY, journal).0, cs).1[i]),
                    journal + cs, |JournalOf(journal + cs)|)
  {
    hide JournalOf, Run;
    RunConcat(EMPTY, journal, cs);
    PrefixOfJournal((journal + cs)[..|journal| + i + 1], journal + cs);
  }

  /** A batch that was synced and applied is kept. */
  lemma AppliedIsKept(journal: seq<Command>, cs: seq<Command>)
    requires |journal| + |cs| <= U64_MAX
    ensures AllKept(Acks(|journal|, cs, Run(Run(EMPTY, journal).0, cs).1), journal + cs, |JournalOf(journal + cs)|)
  {
    hide JournalOf, Run, AckKept;
    var results := Run(Run(EMPTY, journal).0, cs).1;
    forall i | 0 <= i < |cs|
      ensures AckKept(Acks(|journal|, cs, results)[i], journal + cs, |JournalOf(journal + cs)|)
    {
      AppliedAckIsKept(journal, cs, i);
    }
  }

  lemma {:induction false} CompleteCovers(cs: seq<Command>, n: nat, m: nat)
    requires m <= |cs| && FramesSize(cs[..m]) <= n
    ensures m <= CompleteFrames(cs, n)
    decreases |cs|
  {
    if m > 0 {
      assert cs[..m][0] == cs[0] && cs[..m][1..] == cs[1..][..m - 1];
      CompleteCovers(cs[1..], n - FrameSize(cs[0]), m - 1);
    }
  }

  lemma JournalLength(cs: seq<Command>)
    requires |cs| <= U64_MAX
    ensures |JournalOf(cs)| == FILE_HEADER_SIZE + FramesSize(cs)
  {
    hide Frames, FileHeader;
    HeaderRoundTrip();
    FramesLength(1, cs);
  }

  /** The commands whose frames are complete in the first `n` octets of the file. */
  function Whole(journal: seq<Command>, n: nat): (whole: seq<Command>)
    requires FILE_HEADER_SIZE <= n
    ensures whole <= journal
  {
    journal[..CompleteFrames(journal, n - FILE_HEADER_SIZE)]
  }

  lemma PrefixOfJournal(part: seq<Command>, journal: seq<Command>)
    requires part <= journal && |journal| <= U64_MAX
    ensures |JournalOf(part)| <= |JournalOf(journal)| && JournalOf(journal)[..|JournalOf(part)|] == JournalOf(part)
  {
    hide JournalOf;
    var rest := journal[|part|..];
    assert journal == part + rest;
    JournalGrows(part, rest);
  }

  /** Whatever a crash does to the file, an acknowledged command is among the complete frames. */
  lemma AckKeptAfterCut(a: Ack, journal: seq<Command>, synced: nat, n: nat)
    requires AckKept(a, journal, synced) && FILE_HEADER_SIZE <= n && synced <= n
    ensures var whole := Whole(journal, n); AckKept(a, whole, Min(synced, |JournalOf(whole)|))
  {
    hide JournalOf, Run, FramesSize, CompleteFrames;
    var whole := Whole(journal, n);
    JournalLength(journal[..a.sequence]);
    CompleteCovers(journal, n - FILE_HEADER_SIZE, a.sequence);
    assert whole[..a.sequence] == journal[..a.sequence];
    PrefixOfJournal(whole[..a.sequence], whole);
    assert journal == whole + journal[|whole|..];
    RunConcat(EMPTY, whole, journal[|whole|..]);
  }

  lemma KeptAfterCut(acked: seq<Ack>, journal: seq<Command>, synced: nat, n: nat)
    requires AllKept(acked, journal, synced) && FILE_HEADER_SIZE <= n && synced <= n && |journal| <= U64_MAX
    ensures var whole := Whole(journal, n); AllKept(acked, whole, Min(synced, |JournalOf(whole)|))
  {
    hide AckKept, Whole, JournalOf;
    var whole := Whole(journal, n);
    forall i | 0 <= i < |acked|
      ensures AckKept(acked[i], whole, Min(synced, |JournalOf(whole)|))
    {
      AckKeptAfterCut(acked[i], journal, synced, n);
    }
  }

  // ---------- Batches ----------

  /** An append leaves the file a clean, perhaps incomplete, journal of what was there and the batch. */
  lemma AppendExtends(d: Disk, w: Writer, journal: seq<Command>, cs: seq<Command>, io: AppendIo)
    requires OnDisk(d, journal) && d.bytes == JournalOf(journal)
    requires w == Writer(NextSequence(|journal|), false) && Refusal(w, cs).None?
    ensures var (d', w', result) := AppendBatch(d, w, cs, io);
            && |journal| + |cs| <= U64_MAX
            && OnDisk(d', journal + cs) && d.synced <= d'.synced
            && (result.Appended? ==>
                  && d'.bytes == JournalOf(journal + cs) && d'.synced == |d'.bytes|
                  && w' == Writer(NextSequence(|journal + cs|), false))
  {
    hide JournalOf, Frames, Numbers;
    JournalGrows(journal, cs);
    var (before, frames) := (d.bytes, Frames(|journal| + 1, cs));
    if io.written < |frames| {
      assert (before + frames)[..|before| + io.written] == before + frames[..io.written];
    } else {
      assert (before + frames)[..|before + frames|] == before + frames;
    }
  }

  lemma {:induction false} HealthyBatchKeepsGood(w: World, cs: seq<Command>, io: BatchIo)
    requires Good(w) && w.engine.Some? && w.engine.value.healthy && Refusal(w.engine.value.writer, cs).None?
    ensures Good(BatchStep(w, cs, io))
  {
    hide OnDisk, AllKept, JournalOf, Run, AppendBatch, Refusal, Acks;
    var e := w.engine.value;
    AppendExtends(w.disk, e.writer, w.journal, cs, io.append);
    var d' := AppendBatch(w.disk, e.writer, cs, io.append).0;
    KeptAsJournalGrows(w.acked, w.journal, cs, w.disk.synced, d'.synced);
    RunConcat(EMPTY, w.journal, cs);
    if ExecuteBatch(w.disk, e, cs, io).2.Applied? {
      AppliedIsKept(w.journal, cs);
      KeptConcat(w.acked, Acks(|w.journal|, cs, Run(e.book, cs).1), w.journal + cs, d'.synced);
    }
  }

  lemma KeptConcat(a: seq<Ack>, b: seq<Ack>, journal: seq<Command>, synced: nat)
    requires AllKept(a, journal, synced) && AllKept(b, journal, synced)
    ensures AllKept(a + b, journal, synced)
  {
    hide AckKept;
  }

  lemma RefusedBatchKeepsGood(w: World, cs: seq<Command>, io: BatchIo)
    requires Good(w) && w.engine.Some? && (w.engine.value.healthy ==> Refusal(w.engine.value.writer, cs).Some?)
    ensures Good(BatchStep(w, cs, io))
  {
    hide OnDisk, AllKept, InStep, Refusal, Frames;
  }

  lemma BatchKeepsGood(w: World, cs: seq<Command>, io: BatchIo)
    requires Good(w)
    ensures Good(BatchStep(w, cs, io))
  {
    hide Good, ExecuteBatch, Refusal;
    if w.engine.Some? {
      if w.engine.value.healthy && Refusal(w.engine.value.writer, cs).None? {
        HealthyBatchKeepsGood(w, cs, io);
      } else {
        RefusedBatchKeepsGood(w, cs, io);
      }
    }
  }

  // ---------- Crashes and recoveries ----------

  lemma {:induction false} KeptWithMoreSynced(acked: seq<Ack>, journal: seq<Command>, synced: nat, synced': nat)
    requires AllKept(acked, journal, synced) && synced <= synced'
    ensures AllKept(acked, journal, synced')
  {
    hide JournalOf, Run;
  }

  lemma CrashKeepsGood(w: World, kept: nat, synced: nat)
    requires Good(w)
    ensures Good(CrashStep(w, kept, synced))
  {
    hide JournalOf, AllKept, InStep;
    if w.disk.synced <= synced <= kept <= |w.disk.bytes| {
      KeptWithMoreSynced(w.acked, w.journal, w.disk.synced, synced);
      assert JournalOf(w.journal)[..|w.disk.bytes|][..kept] == JournalOf(w.journal)[..kept];
    }
  }

  lemma ScanOnDisk(d: Disk, journal: seq<Command>)
    requires OnDisk(d, journal)
    ensures var whole := Whole(journal, |d.bytes|);
            && |JournalOf(whole)| <= |d.bytes| && d.bytes[..|JournalOf(whole)|] == JournalOf(whole)
            && ScanFile(d.bytes) == Scanned(Scan(whole, |JournalOf(whole)|, |JournalOf(whole)| < |d.bytes|,
                                                 NextSequence(|whole|)))
            && ScanFile(JournalOf(whole)) == Scanned(Scan(whole, |JournalOf(whole)|, false, NextSequence(|whole|)))
            && FILE_HEADER_SIZE <= |JournalOf(whole)|
  {
    hide JournalOf, ScanFile, CompleteFrames, FramesSize, DecodePrefix;
    var whole := Whole(journal, |d.bytes|);
    ScanOfCutFile(journal, |d.bytes|);
    ScanOfClean(whole);
    PrefixOfJournal(whole, journal);
    AcceptedFileIsCanonical(d.bytes);
    assert JournalOf(journal)[..|d.bytes|][..|JournalOf(whole)|] == JournalOf(journal)[..|JournalOf(whole)|];
  }

  /** What recovery may do to a journal that was cut: it keeps the file, or repairs it. */
  function RecoveryOutcome(d: Disk, whole: seq<Command>, io: RepairIo): (Disk, StartResult)
    requires |whole| <= U64_MAX
  {
    var size := |JournalOf(whole)|;
    var engine := Engine(Run(EMPTY, whole).0, Writer(NextSequence(|whole|), false), true);
    if size == |d.bytes| then (d, Started(engine))
    else if !io.truncated then (d, StartFailed(JournalFailure(TruncateFailed)))
    else if !io.synced then (Disk(JournalOf(whole), Min(d.synced, size)), StartFailed(JournalFailure(SyncFailed)))
    else (Disk(JournalOf(whole), size), Started(engine))
  }

  /** Recovery of a cut journal never refuses it and never needs a second repair. */
  lemma {:induction false} RecoveryOfCut(d: Disk, journal: seq<Command>, io: RepairIo)
    requires OnDisk(d, journal)
    ensures Recover(d, io) == RecoveryOutcome(d, Whole(journal, |d.bytes|), io)
  {
    hide JournalOf, ScanFile, Run, Whole, OnDisk;
    ScanOnDisk(d, journal);
    assert d.bytes[..|d.bytes|] == d.bytes;
  }

  lemma WholeOnDisk(d: Disk, journal: seq<Command>, synced: nat)
    requires OnDisk(d, journal)
    requires var size := |JournalOf(Whole(journal, |d.bytes|))|; Min(d.synced, size) <= synced <= size
    ensures var whole := Whole(journal, |d.bytes|);
            OnDisk(Disk(JournalOf(whole), synced), journal) && OnDisk(Disk(JournalOf(whole), synced), whole)
  {
    hide JournalOf, ScanFile, Whole, Frames;
    var whole := Whole(journal, |d.bytes|);
    ScanOnDisk(d, journal);
    PrefixOfJournal(whole, journal);
    assert JournalOf(whole)[..|JournalOf(whole)|] == JournalOf(whole);
  }

  lemma RestartKeepsGood(w: World, repair: RepairIo)
    requires Good(w)
    ensures Good(RestartStep(w, repair))
  {
    hide JournalOf, ScanFile, Run, Whole, OnDisk, AllKept, Recover;
    if w.engine.None? {
      var (d, journal) := (w.disk, w.journal);
      DiskBounds(d, journal);
      var whole := Whole(journal, |d.bytes|);
      var d' := Recover(d, repair).0;
      RecoveryOfCut(d, journal, repair);
      ScanOnDisk(d, journal);
      KeptAfterCut(w.acked, journal, d.synced, |d.bytes|);
      KeptWithMoreSynced(w.acked, whole, Min(d.synced, |JournalOf(whole)|), d'.synced);
      assert journal == whole + journal[|whole|..];
      KeptAsJournalGrows(w.acked, whole, journal[|whole|..], Min(d.synced, |JournalOf(whole)|), d'.synced);
      if d' != d || |JournalOf(whole)| == |d.bytes| {
        WholeOnDisk(d, journal, d'.synced);
        assert d.bytes[..|d.bytes|] == d.bytes;
      }
    }
  }

  lemma DiskBounds(d: Disk, journal: seq<Command>)
    requires OnDisk(d, journal)
    ensures FILE_HEADER_SIZE <= d.synced <= |d.bytes| && |journal| <= U64_MAX
  {
  }

  // ---------- Whole runs ----------

  lemma StartIsGood()
    ensures Good(START)
  {
    HeaderRoundTrip();
    hide FileHeader, EncodeRecord;
    assert JournalOf([]) == FileHeader();
    assert FileHeader()[..|FileHeader()|] == FileHeader();
  }

  /** After any run of events the file, the engine and the acknowledgements agree. */
  lemma {:induction false} EveryRunIsGood(w: World, events: seq<Event>)
    requires Good(w)
    ensures Good(RunEvents(w, events))
  {
    hide Good, BatchStep, CrashStep, RestartStep;
    if events != [] {
      var before := RunEvents(w, events[..|events| - 1]);
      EveryRunIsGood(w, events[..|events| - 1]);
      match events[|events| - 1]
      case Batch(commands, io) => BatchKeepsGood(before, commands, io);
      case Crash(kept, synced) => CrashKeepsGood(before, kept, synced);
      case Restart(repair) => RestartKeepsGood(before, repair);
    }
  }

  /** A crash and a recovery keep a prefix of the journal that covers every acknowledgement. */
  lemma {:induction false} AckSurvivesCrash(w: World, kept: nat, synced: nat, i: nat)
    requires Good(w) && i < |w.acked| && w.disk.synced <= synced <= kept <= |w.disk.bytes|
    ensures var w' := RestartStep(CrashStep(w, kept, synced), RepairIo(true, true));
            && w'.engine.Some? && w'.engine.value.healthy && InStep(w'.disk, w'.engine.value, w'.journal)
            && w'.acked == w.acked && AckKept(w.acked[i], w'.journal, w'.disk.synced)
            && w'.journal <= w.journal
  {
    hide JournalOf, ScanFile, Run, Whole, OnDisk, AckKept, InStep, Recover;
    var crashed := CrashStep(w, kept, synced);
    CrashKeepsGood(w, kept, synced);
    RecoveryOfCut(crashed.disk, crashed.journal, RepairIo(true, true));
    ScanOnDisk(crashed.disk, crashed.journal);
    RestartKeepsGood(crashed, RepairIo(true, true));
  }

  /** Crash at any moment of any run, then recover: the engine starts, every acknowledged command is
      in its journal at its sequence number, and replaying that journal gives it the same result. */
  lemma {:induction false} NothingAcknowledgedIsLost(events: seq<Event>, kept: nat, synced: nat, i: nat)
    requires var w := RunEvents(START, events);
             i < |w.acked| && w.disk.synced <= synced <= kept <= |w.disk.bytes|
    ensures var w := RunEvents(START, events);
            var w' := RestartStep(CrashStep(w, kept, synced), RepairIo(true, true));
            && w'.engine.Some? && w'.engine.value.healthy && InStep(w'.disk, w'.engine.value, w'.journal)
            && w'.acked == w.acked && AckKept(w.acked[i], w'.journal, w'.disk.synced)
  {
    hide RunEvents, AckKept, InStep, RestartStep, CrashStep, Good;
    StartIsGood();
    EveryRunIsGood(START, events);
    AckSurvivesCrash(RunEvents(START, events), kept, synced, i);
  }
}
