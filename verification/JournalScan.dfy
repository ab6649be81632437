/** Reading a whole journal: what is accepted, what is dropped, what is refused. */
module JournalScan {
  import opened Domain
  import opened Bytes
  import opened JournalCodec

  datatype StorageError =
    | ReadFailed
    | WriteFailed
    | SyncFailed
    | TruncateFailed
    | InvalidJournal(codec: CodecError)
    | SequenceViolation
    | SequenceExhausted
    | TruncatedTailRequiresRepair
    | NoTruncatedTail
    | WriterFailed
    | CodecFailure(codec: CodecError)
    | EmptyBatch

  // No next sequence stands for exhaustion after the last possible record.
  datatype Scan = Scan(commands: seq<Command>, validSize: nat, hasTruncatedTail: bool, nextSequence: Option<U64>)

  datatype ScanResult = Scanned(scan: Scan) | ScanFailed(error: StorageError)

  /** The frames of consecutive records, the first one numbered `first`. */
  function Frames(first: nat, cs: seq<Command>): Bytes
    requires first + |cs| <= U64_MAX + 1
    decreases |cs|
  {
    if cs == [] then [] else EncodeRecord(Record(first, cs[0])) + Frames(first + 1, cs[1..])
  }

  /** A clean journal. */
  function JournalOf(cs: seq<Command>): Bytes
    requires |cs| <= U64_MAX
  {
    FileHeader() + Frames(1, cs)
  }

  function NextSequence(count: nat): Option<U64> {
    if count >= U64_MAX then None else Some(count + 1)
  }

  /** Reads frames until the octets end, after `count` records have been read. */
  function ScanFrames(s: Bytes, count: nat): ScanResult
    requires count < U64_MAX
    decreases |s|
  {
    if s == [] then Scanned(Scan([], 0, false, NextSequence(count)))
    else
      match DecodePrefix(s)
      case Err(error) =>
        if error == TruncatedInput then Scanned(Scan([], 0, true, NextSequence(count)))
        else ScanFailed(InvalidJournal(error))
      case Ok(d) =>
        if d.record.sequence != count + 1 then ScanFailed(SequenceViolation)
        else if count + 1 == U64_MAX then
          if d.consumed != |s| then ScanFailed(SequenceViolation)
          else Scanned(Scan([d.record.command], d.consumed, false, None))
        else Prepend(d.record.command, d.consumed, ScanFrames(s[d.consumed..], count + 1))
  }

  function Prepend(c: Command, size: nat, rest: ScanResult): ScanResult {
    match rest
    case ScanFailed(_) => rest
    case Scanned(scan) => Scanned(scan.(commands := [c] + scan.commands, validSize := size + scan.validSize))
  }

  /** Reads a journal file. */
  function ScanFile(s: Bytes): ScanResult {
    if |s| < FILE_HEADER_SIZE then ScanFailed(InvalidJournal(TruncatedInput))
    else
      match DecodeFileHeader(s[..FILE_HEADER_SIZE])
      case Err(error) => ScanFailed(InvalidJournal(error))
      case Ok(_) =>
        match ScanFrames(s[FILE_HEADER_SIZE..], 0)
        case ScanFailed(error) => ScanFailed(error)
        case Scanned(scan) => Scanned(scan.(validSize := FILE_HEADER_SIZE + scan.validSize))
  }

  /** How many of the commands have their whole frame within the first `n` octets. */
  function CompleteFrames(cs: seq<Command>, n: nat): (k: nat)
    ensures k <= |cs|
  {
    if cs == [] || n < FrameSize(cs[0]) then 0 else 1 + CompleteFrames(cs[1..], n - FrameSize(cs[0]))
  }

  function FrameSize(c: Command): nat {
    FRAME_HEADER_SIZE + ExpectedPayloadLength(TypeOf(c))
  }

  function FramesSize(cs: seq<Command>): nat {
    if cs == [] then 0 else FrameSize(cs[0]) + FramesSize(cs[1..])
  }
}

module JournalScanLaws {
  import opened Domain
  import opened Bytes
  import opened JournalCodec
  import opened JournalLaws
  import opened JournalDamage
  import opened JournalScan

  lemma {:induction false} FramesLength(first: nat, cs: seq<Command>)
    requires first + |cs| <= U64_MAX + 1
    ensures |Frames(first, cs)| == FramesSize(cs)
    decreases |cs|
  {
    hide EncodeRecord;
    if cs != [] {
      FramesLength(first + 1, cs[1..]);
    }
  }

  lemma {:induction false} FramesConcat(first: nat, a: seq<Command>, b: seq<Command>)
    requires first + |a| + |b| <= U64_MAX + 1
    ensures Frames(first, a + b) == Frames(first, a) + Frames(first + |a|, b)
    decreases |a|
  {
    hide EncodeRecord;
    if a == [] {
      assert a + b == b;
    } else {
      assert (a + b)[1..] == a[1..] + b;
      FramesConcat(first + 1, a[1..], b);
    }
  }

  /** One complete, properly numbered frame is read and reading goes on behind it. */
  lemma ScanStep(c: Command, rest: Bytes, count: nat)
    requires count < U64_MAX
    ensures ScanFrames(EncodeRecord(Record(count + 1, c)) + rest, count)
         == if count + 1 < U64_MAX then Prepend(c, FrameSize(c), ScanFrames(rest, count + 1))
            else if rest == [] then Scanned(Scan([c], FrameSize(c), false, None))
            else ScanFailed(SequenceViolation)
  {
    hide EncodeRecord, DecodePrefix;
    var r := Record(count + 1, c);
    DecodeOfEncode(r, rest);
    assert (EncodeRecord(r) + rest)[|EncodeRecord(r)|..] == rest;
  }

  // ---------- Torn tails ----------

  lemma CutInsideFirst(c: Command, count: nat, more: Bytes, n: nat)
    requires count < U64_MAX && n < FrameSize(c)
    ensures ScanFrames((EncodeRecord(Record(count + 1, c)) + more)[..n], count)
         == Scanned(Scan([], 0, n > 0, NextSequence(count)))
  {
    hide EncodeRecord, DecodePrefix;
    var r := Record(count + 1, c);
    assert (EncodeRecord(r) + more)[..n] == EncodeRecord(r)[..n];
    PrefixIsTruncated(r, n);
  }

  lemma CutBehindFirst(frame: Bytes, more: Bytes, n: nat)
    requires |frame| <= n <= |frame| + |more|
    ensures (frame + more)[..n] == frame + more[..n - |frame|]
  {
  }

  /** What reading `n` octets of the frames of `cs` should give. */
  function CutScan(cs: seq<Command>, count: nat, n: nat): ScanResult {
    var whole := cs[..CompleteFrames(cs, n)];
    Scanned(Scan(whole, FramesSize(whole), FramesSize(whole) < n, NextSequence(count + |whole|)))
  }

  lemma CutScanStep(cs: seq<Command>, count: nat, n: nat)
    requires cs != [] && FrameSize(cs[0]) <= n
    ensures CutScan(cs, count, n) == Prepend(cs[0], FrameSize(cs[0]), CutScan(cs[1..], count + 1, n - FrameSize(cs[0])))
  {
    hide FrameSize;
    var k := CompleteFrames(cs[1..], n - FrameSize(cs[0]));
    assert cs[..k + 1] == [cs[0]] + cs[1..][..k];
    assert cs[..k + 1][1..] == cs[1..][..k];
  }

  /** A clean journal cut anywhere: exactly the complete frames are read, the rest is a torn tail. */
  lemma {:induction false} ScanOfCut(cs: seq<Command>, count: nat, n: nat)
    requires count < U64_MAX && count + |cs| <= U64_MAX && n <= |Frames(count + 1, cs)|
    ensures ScanFrames(Frames(count + 1, cs)[..n], count) == CutScan(cs, count, n)
    decreases |cs|
  {
    hide EncodeRecord, ScanFrames, CutScan, Prepend;
    if cs == [] {
      LastCut(cs, count, n);
    } else {
      var (frame, more) := (EncodeRecord(Record(count + 1, cs[0])), Frames(count + 2, cs[1..]));
      if n < FrameSize(cs[0]) {
        CutInsideFirst(cs[0], count, more, n);
        EmptyCut(cs, count, n);
      } else {
        CutBehindFirst(frame, more, n);
        CutScanStep(cs, count, n);
        ScanStep(cs[0], more[..n - |frame|], count);
        if count + 1 < U64_MAX {
          ScanOfCut(cs[1..], count + 1, n - |frame|);
        } else {
          LastCut(cs[1..], count + 1, n - |frame|);
          OneCommand(cs);
        }
      }
    }
  }

  lemma OneCommand(cs: seq<Command>)
    requires |cs| == 1
    ensures Prepend(cs[0], FrameSize(cs[0]), Scanned(Scan([], 0, false, None)))
         == Scanned(Scan([cs[0]], FrameSize(cs[0]), false, None))
  {
  }

  lemma EmptyCut(cs: seq<Command>, count: nat, n: nat)
    requires cs != [] && n < FrameSize(cs[0])
    ensures CutScan(cs, count, n) == Scanned(Scan([], 0, n > 0, NextSequence(count)))
  {
  }

  lemma LastCut(cs: seq<Command>, count: nat, n: nat)
    requires cs == [] && count <= U64_MAX && n <= |Frames(count + 1, cs)|
    ensures n == 0 && CutScan(cs, count, n) == Scanned(Scan([], 0, false, NextSequence(count)))
    ensures Frames(count + 1, cs) == []
    ensures count < U64_MAX ==> ScanFrames([], count) == Scanned(Scan([], 0, false, NextSequence(count)))
  {
  }

  // ---------- What is accepted ----------

  /** Everything a successful scan of frames says about the octets it read. */
  ghost predicate Canonical(s: Bytes, count: nat, scan: Scan)
    requires count <= U64_MAX
  {
    && count + |scan.commands| <= U64_MAX && scan.validSize <= |s|
    && s[..scan.validSize] == Frames(count + 1, scan.commands)
    && scan.hasTruncatedTail == (scan.validSize < |s|)
    && (scan.hasTruncatedTail ==> DecodePrefix(s[scan.validSize..]) == Err(TruncatedInput))
    && scan.nextSequence == NextSequence(count + |scan.commands|)
  }

  lemma CanonicalStep(c: Command, frame: Bytes, rest: Bytes, count: nat, scan: Scan)
    requires count < U64_MAX && Canonical(rest, count + 1, scan)
    requires frame == EncodeRecord(Record(count + 1, c))
    ensures Canonical(frame + rest, count, Prepend(c, |frame|, Scanned(scan)).scan)
  {
    hide EncodeRecord, DecodePrefix;
    var cs := [c] + scan.commands;
    assert cs[1..] == scan.commands;
    var n := |frame| + scan.validSize;
    assert (frame + rest)[..n] == frame + rest[..scan.validSize];
    assert (frame + rest)[n..] == rest[scan.validSize..];
  }

  lemma CanonicalEnd(s: Bytes, count: nat)
    requires count < U64_MAX && (s != [] ==> DecodePrefix(s) == Err(TruncatedInput))
    ensures Canonical(s, count, Scan([], 0, s != [], NextSequence(count)))
  {
    hide DecodePrefix;
    assert s[0..] == s;
  }

  lemma CanonicalLast(c: Command, frame: Bytes, count: nat)
    requires count + 1 == U64_MAX && frame == EncodeRecord(Record(count + 1, c))
    ensures Canonical(frame, count, Scan([c], |frame|, false, None))
  {
    hide EncodeRecord;
    assert Frames(count + 2, [c][1..]) == [];
    assert frame[..|frame|] == frame;
  }

  lemma {:induction false} AcceptedIsCanonical(s: Bytes, count: nat)
    requires count < U64_MAX && ScanFrames(s, count).Scanned?
    ensures Canonical(s, count, ScanFrames(s, count).scan)
    decreases |s|
  {
    hide EncodeRecord, DecodePrefix, Canonical;
    if s == [] || DecodePrefix(s).Err? {
      CanonicalEnd(s, count);
    } else {
      var d := DecodePrefix(s).value;
      EncodeOfDecode(s);
      var frame, rest := s[..d.consumed], s[d.consumed..];
      assert s == frame + rest;
      if count + 1 < U64_MAX {
        AcceptedIsCanonical(rest, count + 1);
        CanonicalStep(d.record.command, frame, rest, count, ScanFrames(rest, count + 1).scan);
      } else {
        assert frame == s;
        CanonicalLast(d.record.command, frame, count);
      }
    }
  }

  // ---------- Damaged frames ----------

  /** Reading fails at the first damaged frame, however many clean ones precede it. */
  lemma {:induction false} DamageIsReached(cs: seq<Command>, count: nat, s: Bytes)
    requires count + |cs| < U64_MAX && ScanFrames(s, count + |cs|).ScanFailed?
    ensures ScanFrames(Frames(count + 1, cs) + s, count) == ScanFrames(s, count + |cs|)
    decreases |cs|
  {
    hide EncodeRecord, DecodePrefix, ScanFrames;
    if cs == [] {
      assert Frames(count + 1, cs) + s == s;
    } else {
      var (frame, more) := (EncodeRecord(Record(count + 1, cs[0])), Frames(count + 2, cs[1..]));
      assert Frames(count + 1, cs) + s == frame + (more + s);
      ScanStep(cs[0], more + s, count);
      DamageIsReached(cs[1..], count + 1, s);
    }
  }

  /** Behind any clean frames, the first bad or misnumbered one decides with which error the scan fails. */
  lemma {:induction false} ScanStopsAtFirstBadFrame(cs: seq<Command>, s: Bytes)
    requires |cs| < U64_MAX && s != [] && DecodePrefix(s) != Err(TruncatedInput)
    ensures DecodePrefix(s).Err? ==> ScanFile(JournalOf(cs) + s) == ScanFailed(InvalidJournal(DecodePrefix(s).error))
    ensures DecodePrefix(s).Ok? && DecodePrefix(s).value.record.sequence != |cs| + 1 ==>
              ScanFile(JournalOf(cs) + s) == ScanFailed(SequenceViolation)
  {
    hide EncodeRecord, DecodePrefix, ScanFile, Frames, FileHeader;
    if DecodePrefix(s).Err? || DecodePrefix(s).value.record.sequence != |cs| + 1 {
      DamageIsReached(cs, 0, s);
      assert JournalOf(cs) + s == FileHeader() + (Frames(1, cs) + s);
      ScanBehindHeader(Frames(1, cs) + s);
    }
  }

  lemma RefusedAtOnce(s: Bytes, count: nat)
    requires count < U64_MAX && s != [] && Refused(s)
    ensures ScanFrames(s, count).ScanFailed?
  {
    hide DecodePrefix;
  }

  // ---------- Whole files ----------

  lemma HeaderRoundTrip()
    ensures |FileHeader()| == FILE_HEADER_SIZE && DecodeFileHeader(FileHeader()) == Ok(())
  {
    hide BigEndian, Value, Pow256;
    Widths();
    var h := FileHeader();
    assert h[..8] == FILE_MAGIC && h[8..10] == BigEndian(1, 2) && h[10..12] == BigEndian(1, 2);
    assert h[12..16] == BigEndian(0, 4);
    ValueOfField(1, 2, h[8..10]);
    ValueOfField(1, 2, h[10..12]);
    ValueOfField(0, 4, h[12..16]);
  }

  /** There is one acceptable file header. */
  lemma {:induction false} HeaderIsUnique(s: Bytes)
    requires DecodeFileHeader(s).Ok?
    ensures s == FileHeader()
  {
    hide BigEndian, Value, Pow256;
    EncodingOfField(1, s[8..10]);
    EncodingOfField(1, s[10..12]);
    EncodingOfField(0, s[12..16]);
    assert s == s[..8] + s[8..10] + s[10..12] + s[12..16];
  }

  lemma ScanBehindHeader(s: Bytes)
    ensures ScanFile(FileHeader() + s)
         == match ScanFrames(s, 0)
            case ScanFailed(error) => ScanFailed(error)
            case Scanned(scan) => Scanned(scan.(validSize := FILE_HEADER_SIZE + scan.validSize))
  {
    hide FileHeader, DecodeFileHeader, ScanFrames;
    HeaderRoundTrip();
    assert (FileHeader() + s)[..FILE_HEADER_SIZE] == FileHeader();
    assert (FileHeader() + s)[FILE_HEADER_SIZE..] == s;
  }

  /** A clean journal file cut anywhere behind its header yields exactly its complete frames. */
  lemma {:induction false} ScanOfCutFile(cs: seq<Command>, n: nat)
    requires |cs| <= U64_MAX && FILE_HEADER_SIZE <= n <= |JournalOf(cs)|
    ensures var whole := cs[..CompleteFrames(cs, n - FILE_HEADER_SIZE)];
            && FILE_HEADER_SIZE + FramesSize(whole) == |JournalOf(whole)|
            && ScanFile(JournalOf(cs)[..n])
               == Scanned(Scan(whole, |JournalOf(whole)|, |JournalOf(whole)| < n, NextSequence(|whole|)))
  {
    hide FileHeader, ScanFrames, Frames, FramesSize, CompleteFrames, ScanFile;
    HeaderRoundTrip();
    var whole := cs[..CompleteFrames(cs, n - FILE_HEADER_SIZE)];
    FramesLength(1, whole);
    assert JournalOf(cs)[..n] == FileHeader() + Frames(1, cs)[..n - FILE_HEADER_SIZE];
    ScanBehindHeader(Frames(1, cs)[..n - FILE_HEADER_SIZE]);
    ScanOfCut(cs, 0, n - FILE_HEADER_SIZE);
  }

  /** Whatever file is accepted is a clean journal followed by at most one incomplete frame. */
  lemma {:induction false} AcceptedFileIsCanonical(s: Bytes)
    requires ScanFile(s).Scanned?
    ensures var scan := ScanFile(s).scan;
            && |scan.commands| <= U64_MAX && FILE_HEADER_SIZE <= scan.validSize <= |s|
            && s[..scan.validSize] == JournalOf(scan.commands)
            && scan.hasTruncatedTail == (scan.validSize < |s|) && |s| - scan.validSize <= 48
            && (scan.hasTruncatedTail ==> DecodePrefix(s[scan.validSize..]) == Err(TruncatedInput))
            && scan.nextSequence == NextSequence(|scan.commands|)
  {
    hide FileHeader, DecodeFileHeader, ScanFrames, Frames, DecodePrefix;
    var (h, t) := (s[..FILE_HEADER_SIZE], s[FILE_HEADER_SIZE..]);
    HeaderIsUnique(h);
    AcceptedIsCanonical(t, 0);
    var n := ScanFrames(t, 0).scan.validSize;
    assert s[..FILE_HEADER_SIZE + n] == h + t[..n];
    assert s[FILE_HEADER_SIZE + n..] == t[n..];
    if n < |t| {
      TruncatedIsShort(t[n..]);
    }
  }

  lemma {:induction false} AllComplete(cs: seq<Command>)
    ensures CompleteFrames(cs, FramesSize(cs)) == |cs|
  {
    if cs != [] {
      AllComplete(cs[1..]);
    }
  }

  /** A clean journal is read back completely, and there is nothing to repair. */
  lemma {:induction false} ScanOfClean(cs: seq<Command>)
    requires |cs| <= U64_MAX
    ensures |JournalOf(cs)| >= FILE_HEADER_SIZE
    ensures ScanFile(JournalOf(cs)) == Scanned(Scan(cs, |JournalOf(cs)|, false, NextSequence(|cs|)))
  {
    hide ScanFile, FileHeader, FramesSize, CompleteFrames, Frames;
    HeaderRoundTrip();
    FramesLength(1, cs);
    AllComplete(cs);
    ScanOfCutFile(cs, |JournalOf(cs)|);
    assert JournalOf(cs)[..|JournalOf(cs)|] == JournalOf(cs);
    assert cs[..|cs|] == cs;
  }

  /** So cutting off the torn tail leaves a file with the same commands and no tail. */
  lemma {:induction false} RepairIsIdempotent(s: Bytes)
    requires ScanFile(s).Scanned?
    ensures ScanFile(s).scan.validSize <= |s|
    ensures ScanFile(s[..ScanFile(s).scan.validSize]) == Scanned(ScanFile(s).scan.(hasTruncatedTail := false))
  {
    hide ScanFile, JournalOf, DecodePrefix;
    AcceptedFileIsCanonical(s);
    ScanOfClean(ScanFile(s).scan.commands);
  }

  // ---------- Damaged files ----------

  /** A clean journal in which the octets of record `j` have been replaced by `f`. */
  function WithFrame(cs: seq<Command>, j: nat, f: Bytes): Bytes
    requires j < |cs| <= U64_MAX
  {
    FileHeader() + Frames(1, cs[..j]) + f + Frames(j + 2, cs[j + 1..])
  }

  lemma DamagedFrameIsFatal(cs: seq<Command>, j: nat, f: Bytes)
    requires j < |cs| <= U64_MAX && f != [] && Refused(f + Frames(j + 2, cs[j + 1..]))
    ensures ScanFile(WithFrame(cs, j, f)).ScanFailed?
  {
    hide FileHeader, ScanFile, ScanFrames, Frames, DecodePrefix;
    var s := f + Frames(j + 2, cs[j + 1..]);
    assert WithFrame(cs, j, f) == FileHeader() + (Frames(1, cs[..j]) + s);
    ScanBehindHeader(Frames(1, cs[..j]) + s);
    RefusedAtOnce(s, j);
    DamageIsReached(cs[..j], 0, s);
  }

  lemma FrameInFile(cs: seq<Command>, j: nat)
    requires j < |cs| <= U64_MAX
    ensures JournalOf(cs) == WithFrame(cs, j, EncodeRecord(Record(j + 1, cs[j])))
  {
    hide EncodeRecord, FileHeader;
    assert cs == cs[..j] + cs[j..];
    FramesConcat(1, cs[..j], cs[j..]);
    assert cs[j..][1..] == cs[j + 1..];
  }

  /** Up to four consecutive covered octets of any one record changed: the whole scan fails. */
  lemma {:induction false} BurstIsFatal(
    cs: seq<Command>, j: nat, f: Bytes, before: Bytes, a: Bytes, b: Bytes, after: Bytes)
    requires j < |cs| <= U64_MAX
    requires var g := EncodeRecord(Record(j + 1, cs[j]));
             && |f| == |g| && f[20..24] == g[20..24]
             && Stream(g) == before + a + after && Stream(f) == before + b + after
    requires |a| == |b| <= 4 && a != b
    ensures ScanFile(WithFrame(cs, j, f)).ScanFailed?
  {
    hide EncodeRecord, Refused, ScanFile, WithFrame, Stream, Frames;
    CoveredDamage(Record(j + 1, cs[j]), f, Frames(j + 2, cs[j + 1..]), before, a, b, after);
    DamagedFrameIsFatal(cs, j, f);
  }

  /** The frame that holds octet `i` of a sequence of frames. */
  lemma {:induction false} FrameAround(first: nat, cs: seq<Command>, i: nat) returns (j: nat, k: nat)
    requires first + |cs| <= U64_MAX + 1 && i < |Frames(first, cs)|
    ensures j < |cs| && k < |EncodeRecord(Record(first + j, cs[j]))|
    ensures i == |Frames(first, cs[..j])| + k
    decreases |cs|
  {
    hide EncodeRecord;
    var frame := EncodeRecord(Record(first, cs[0]));
    if i < |frame| {
      j, k := 0, i;
      assert cs[..0] == [];
    } else {
      j, k := FrameAround(first + 1, cs[1..], i - |frame|);
      j := j + 1;
      assert cs[..j][1..] == cs[1..][..j - 1];
    }
  }

  lemma UpdateInside(a: Bytes, f: Bytes, b: Bytes, k: nat, v: Octet)
    requires k < |f|
    ensures (a + f + b)[|a| + k] == f[k]
    ensures (a + f + b)[|a| + k := v] == a + f[k := v] + b
  {
  }

  lemma HeaderDamageIsFatal(cs: seq<Command>, i: nat, v: Octet)
    requires |cs| <= U64_MAX && i < FILE_HEADER_SIZE <= |JournalOf(cs)| && JournalOf(cs)[i] != v
    ensures ScanFile(JournalOf(cs)[i := v]).ScanFailed?
  {
    hide FileHeader, Frames, ScanFrames, DecodeFileHeader;
    HeaderRoundTrip();
    var h := JournalOf(cs)[i := v][..FILE_HEADER_SIZE];
    assert h[i] == v && FileHeader()[i] == JournalOf(cs)[i];
    if DecodeFileHeader(h).Ok? {
      HeaderIsUnique(h);
    }
  }

  /** Changing any one octet of a clean journal of any length makes the scan fail. */
  lemma {:induction false} OctetDamageIsFatal(cs: seq<Command>, i: nat, v: Octet)
    requires |cs| <= U64_MAX && i < |JournalOf(cs)| && JournalOf(cs)[i] != v
    ensures ScanFile(JournalOf(cs)[i := v]).ScanFailed?
  {
    hide EncodeRecord, Refused, ScanFile, Frames, FileHeader;
    HeaderRoundTrip();
    if i < FILE_HEADER_SIZE {
      HeaderDamageIsFatal(cs, i, v);
    } else {
      var j, k := FrameAround(1, cs, i - FILE_HEADER_SIZE);
      var r := Record(j + 1, cs[j]);
      var (g, rest) := (EncodeRecord(r), Frames(j + 2, cs[j + 1..]));
      FrameInFile(cs, j);
      UpdateInside(FileHeader() + Frames(1, cs[..j]), g, rest, k, v);
      OctetDamage(r, k, v, rest);
      DamagedFrameIsFatal(cs, j, g[k := v]);
    }
  }
}
