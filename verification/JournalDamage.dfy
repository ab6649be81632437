/** Damage to a complete frame is noticed and is never taken for a torn tail. */
module JournalDamage {
  import opened Domain
  import opened Bytes
  import opened JournalCodec
  import opened JournalLaws
  import Crc32c

  /** The decoder reports corruption. */
  ghost predicate Refused(s: Bytes) {
    DecodePrefix(s).Err? && DecodePrefix(s).error != TruncatedInput
  }

  /** The octets of a frame that its checksum covers, in the order it reads them. */
  function Stream(f: Bytes): Bytes
    requires |f| >= 24
  {
    f[4..20] + f[24..]
  }

  lemma MagicDamage(f: Bytes, rest: Bytes)
    requires |f| >= 24 && f[..4] != FRAME_MAGIC
    ensures Refused(f + rest)
  {
    assert (f + rest)[..4] == f[..4];
  }

  /** The checksum field and the covered octets of a frame disagree. */
  lemma MismatchIsRefused(f: Bytes, rest: Bytes)
    requires |f| >= 24
    requires HeaderError(f + rest).None? ==> |f| == 24 + ExpectedPayloadLength((f + rest)[5])
    requires Value(f[20..24]) != Checksum(Stream(f))
    ensures Refused(f + rest)
  {
    hide Value, Checksum, FrameCrc, U64At;
    var s := f + rest;
    if HeaderError(s).None? {
      FrameCrcIsChecksum(s, |f| - 24);
      assert s[4..20] == f[4..20] && s[24..|f|] == f[24..] && s[20..24] == f[20..24];
    }
  }

  lemma ChecksumsDiffer(a: Bytes, b: Bytes)
    requires Crc32c.Update(Crc32c.ALL_ONES, a) != Crc32c.Update(Crc32c.ALL_ONES, b)
    ensures Checksum(a) != Checksum(b)
  {
    hide Crc32c.Update, Crc32c.Finish;
    if Checksum(a) == Checksum(b) {
      Crc32c.FinishInjective(Crc32c.Update(Crc32c.ALL_ONES, a), Crc32c.Update(Crc32c.ALL_ONES, b));
    }
  }

  lemma EncodedChecksum(r: Record)
    ensures Value(EncodeRecord(r)[20..24]) == Checksum(Stream(EncodeRecord(r)))
  {
    HeaderOfEncoded(r, []);
    hide EncodeRecord, Value, Checksum, FrameCrc, U64At, Payload;
    var f := EncodeRecord(r);
    assert f + [] == f;
    FrameCrcIsChecksum(f, |f| - 24);
    assert f[24..|f|] == f[24..];
  }

  lemma DifferenceIsInside(before: Bytes, a: Bytes, b: Bytes, after: Bytes, i: nat)
    requires |a| == |b| && i < |before + a + after|
    requires (before + a + after)[i] != (before + b + after)[i]
    ensures |before| <= i < |before| + |a|
  {
  }

  lemma LengthOctet()
    ensures BigEndian(SUBMIT_PAYLOAD_SIZE, 4)[3] == 25 && BigEndian(CANCEL_PAYLOAD_SIZE, 4)[3] == 8
  {
  }

  /** Another valid header differs in its type and, six octets later, in its length. */
  lemma HeadersFarApart(r: Record, f: Bytes, rest: Bytes)
    requires |f| >= 24 && HeaderError(f + rest).None? && (f + rest)[5] != TypeOf(r.command)
    ensures Stream(f)[1] != Stream(EncodeRecord(r))[1]
    ensures Stream(f)[7] != Stream(EncodeRecord(r))[7]
  {
    HeaderOfEncoded(r, []);
    var (g, s) := (EncodeRecord(r), f + rest);
    hide EncodeRecord, FrameCrc, U64At, Payload, Value, BigEndian;
    assert g + [] == g;
    EncodingOfField(ExpectedPayloadLength(s[5]), s[8..12]);
    EncodingOfField(ExpectedPayloadLength(g[5]), g[8..12]);
    LengthOctet();
    assert Stream(f)[7] == s[8..12][3] && Stream(g)[7] == g[8..12][3];
  }

  /** Up to four consecutive covered octets changed: the frame is refused. */
  lemma {:induction false} CoveredDamage(
    r: Record, f: Bytes, rest: Bytes, before: Bytes, a: Bytes, b: Bytes, after: Bytes)
    requires |f| == |EncodeRecord(r)| && f[20..24] == EncodeRecord(r)[20..24]
    requires |a| == |b| <= 4 && a != b
    requires Stream(EncodeRecord(r)) == before + a + after && Stream(f) == before + b + after
    ensures Refused(f + rest)
  {
    hide EncodeRecord, HeaderError, FrameCrc, U64At, Payload, Value, Checksum, Stream;
    var (g, s) := (EncodeRecord(r), f + rest);
    if HeaderError(s).None? && s[5] != TypeOf(r.command) {
      HeadersFarApart(r, f, rest);
      StreamLength(f);
      DifferenceIsInside(before, a, b, after, 1);
      DifferenceIsInside(before, a, b, after, 7);
    } else {
      Crc32c.BurstIsSeen(Crc32c.ALL_ONES, before, a, b, after);
      ChecksumsDiffer(Stream(g), Stream(f));
      EncodedChecksum(r);
      MismatchIsRefused(f, rest);
    }
  }

  lemma StreamLength(f: Bytes)
    requires |f| >= 24
    ensures |Stream(f)| == |f| - 8
  {
  }

  lemma ChecksumDamage(r: Record, f: Bytes, rest: Bytes)
    requires |f| == |EncodeRecord(r)| && f[..20] == EncodeRecord(r)[..20] && f[24..] == EncodeRecord(r)[24..]
    requires f[20..24] != EncodeRecord(r)[20..24]
    ensures Refused(f + rest)
  {
    var g := EncodeRecord(r);
    HeaderOfEncoded(r, rest);
    EncodedChecksum(r);
    hide EncodeRecord, FrameCrc, U64At, Payload, Value, Checksum;
    assert f[4..20] == f[..20][4..20] && g[4..20] == g[..20][4..20];
    assert (f + rest)[5] == f[..20][5] && (g + rest)[5] == g[..20][5];
    if Value(f[20..24]) == Value(g[20..24]) {
      BigEndianOfValue(f[20..24]);
      BigEndianOfValue(g[20..24]);
    }
    MismatchIsRefused(f, rest);
  }

  /** Any one octet of a frame changed: the frame is refused. */
  lemma {:induction false} OctetDamage(r: Record, i: nat, v: Octet, rest: Bytes)
    requires i < |EncodeRecord(r)| && EncodeRecord(r)[i] != v
    ensures Refused(EncodeRecord(r)[i := v] + rest)
  {
    hide Refused, EncodeRecord, Stream;
    var g := EncodeRecord(r);
    var f := g[i := v];
    if i < 4 {
      EncodedMagic(r);
      assert f[..4][i] != g[..4][i];
      MagicDamage(f, rest);
    } else if 20 <= i < 24 {
      assert f[20..24][i - 20] != g[20..24][i - 20];
      ChecksumDamage(r, f, rest);
    } else {
      var k := if i < 20 then i - 4 else i - 8;
      StreamAround(g, i, v, k);
      CoveredDamage(r, f, rest, Stream(g)[..k], [g[i]], [v], Stream(g)[k + 1..]);
    }
  }

  lemma EncodedMagic(r: Record)
    ensures EncodeRecord(r)[..4] == FRAME_MAGIC
  {
    HeaderOfEncoded(r, []);
    assert EncodeRecord(r) + [] == EncodeRecord(r);
  }

  lemma StreamAround(g: Bytes, i: nat, v: Octet, k: nat)
    requires |g| >= 24 && 4 <= i < |g| && !(20 <= i < 24)
    requires k == if i < 20 then i - 4 else i - 8
    ensures g[i := v][20..24] == g[20..24]
    ensures k < |Stream(g)| && Stream(g) == Stream(g)[..k] + [g[i]] + Stream(g)[k + 1..]
    ensures Stream(g[i := v]) == Stream(g)[..k] + [v] + Stream(g)[k + 1..]
  {
  }
}
