/** What a byte stream of requests means, however it is cut into pieces. */
module StreamSpec {
  import opened Domain
  import opened Bytes
  import opened WireCodec
  import opened WireLaws

  type Request = Envelope<ClientMessage>

  // The requests of a stream, the error it ends with, if any, and what was left unread.
  datatype Parsed = Parsed(requests: seq<Request>, failure: Option<WireError>, unread: Bytes)

  /** Reads requests from `s` through a buffer of `limit` octets. */
  function Parse(s: Bytes, limit: nat): (r: Parsed)
    decreases |s|
  {
    if s == [] then Parsed([], None, [])
    else
      match DecodeClient(s[..Min(|s|, limit)])
      case Ok(d) =>
        DecodedClientLength(s[..Min(|s|, limit)]);
        var rest := Parse(s[d.consumed..], limit);
        rest.(requests := [d.envelope] + rest.requests)
      case Err(error) =>
        if error != TruncatedInput then Parsed([], Some(error), s)
        else if |s| > limit then Parsed([], Some(BufferLimitExceeded), s)
        else Parsed([], None, s)
  }

  /** Requests read before `rest` was parsed come first. */
  function After(requests: seq<Request>, rest: Parsed): Parsed {
    rest.(requests := requests + rest.requests)
  }

  /** A stream that was read up to an incomplete frame continues from there; a failed one does not. */
  function Continued(first: Parsed, b: Bytes, limit: nat): Parsed {
    if first.failure.Some? then first.(unread := first.unread + b)
    else After(first.requests, Parse(first.unread + b, limit))
  }

  lemma ContinuedAfter(r: Request, first: Parsed, b: Bytes, limit: nat)
    ensures Continued(After([r], first), b, limit) == After([r], Continued(first, b, limit))
  {
    hide Parse;
    var rest := Parse(first.unread + b, limit).requests;
    assert [r] + first.requests + rest == [r] + (first.requests + rest);
  }

  lemma {:induction false} ParseConcat(a: Bytes, b: Bytes, limit: nat)
    ensures Parse(a + b, limit) == Continued(Parse(a, limit), b, limit)
    decreases |a|
  {
    hide DecodeClient;
    if a == [] {
      assert a + b == b && [] + b == b && [] + Parse(b, limit).requests == Parse(b, limit).requests;
    } else {
      var n := Min(|a|, limit);
      var window := (a + b)[..Min(|a + b|, limit)];
      assert window == a[..n] + window[n..];
      if DecodeClient(a[..n]) != Err(TruncatedInput) {
        ClientIsStable(a[..n], window[n..]);
        if DecodeClient(a[..n]).Ok? {
          var d := DecodeClient(a[..n]).value;
          DecodedClientLength(a[..n]);
          assert (a + b)[d.consumed..] == a[d.consumed..] + b;
          ParseConcat(a[d.consumed..], b, limit);
          ContinuedAfter(d.envelope, Parse(a[d.consumed..], limit), b, limit);
        }
      } else if |a| > limit {
        assert window == a[..n];
      }
    }
  }

  /** What a parser has produced after one more piece; a failed parser ignores it. */
  function Feed(p: Parsed, piece: Bytes, limit: nat): Parsed {
    if p.failure.Some? then p else After(p.requests, Parse(p.unread + piece, limit))
  }

  function FeedAll(pieces: seq<Bytes>, limit: nat): Parsed {
    if pieces == [] then Parsed([], None, [])
    else Feed(FeedAll(pieces[..|pieces| - 1], limit), pieces[|pieces| - 1], limit)
  }

  function Joined(pieces: seq<Bytes>): Bytes {
    if pieces == [] then [] else Joined(pieces[..|pieces| - 1]) + pieces[|pieces| - 1]
  }

  /** However a stream is cut into pieces, the requests and the failure are those of the whole stream. */
  lemma {:induction false} CutsDoNotMatter(pieces: seq<Bytes>, limit: nat)
    ensures FeedAll(pieces, limit).requests == Parse(Joined(pieces), limit).requests
    ensures FeedAll(pieces, limit).failure == Parse(Joined(pieces), limit).failure
    ensures FeedAll(pieces, limit).failure.None? ==>
              FeedAll(pieces, limit).unread == Parse(Joined(pieces), limit).unread
  {
    if pieces != [] {
      var front, last := pieces[..|pieces| - 1], pieces[|pieces| - 1];
      CutsDoNotMatter(front, limit);
      ParseConcat(Joined(front), last, limit);
      hide Parse;
    }
  }

  // ---------- The limit ----------

  /** With room for the longest request the limit is never what ends a stream ... */
  lemma {:induction false} LimitIsNeverReached(s: Bytes, limit: nat)
    requires limit >= LONGEST_CLIENT_FRAME
    ensures Parse(s, limit).failure != Some(BufferLimitExceeded)
    decreases |s|
  {
    if s != [] {
      var window := s[..Min(|s|, limit)];
      NoLimitVerdict(window);
      if |s| > limit {
        ClientVerdict(window);
      }
      hide DecodeClient;
      if DecodeClient(window).Ok? {
        DecodedClientLength(window);
        LimitIsNeverReached(s[DecodeClient(window).value.consumed..], limit);
      }
    }
  }

  lemma NoLimitVerdict(s: Bytes)
    ensures DecodeClient(s) != Err(BufferLimitExceeded)
  {
    hide Value, U64At;
  }

  /** ... and does not influence the result at all. */
  lemma {:induction false} LimitDoesNotMatter(s: Bytes, limit: nat, limit': nat)
    requires limit >= LONGEST_CLIENT_FRAME && limit' >= LONGEST_CLIENT_FRAME
    ensures Parse(s, limit) == Parse(s, limit')
    decreases |s|
  {
    if s != [] {
      var window, window' := s[..Min(|s|, limit)], s[..Min(|s|, limit')];
      SameVerdict(s, limit);
      SameVerdict(s, limit');
      if |s| > limit || |s| > limit' {
        ClientVerdict(s);
      }
      hide DecodeClient;
      if DecodeClient(s).Ok? {
        DecodedClientLength(s);
        LimitDoesNotMatter(s[DecodeClient(s).value.consumed..], limit, limit');
      }
    }
  }

  lemma SameVerdict(s: Bytes, limit: nat)
    requires limit >= LONGEST_CLIENT_FRAME
    ensures DecodeClient(s[..Min(|s|, limit)]) == DecodeClient(s)
  {
    hide DecodeClient;
    var n := Min(|s|, limit);
    assert s == s[..n] + s[n..];
    if n < |s| {
      ClientVerdict(s[..n]);
      ClientIsStable(s[..n], s[n..]);
    } else {
      assert s[..n] == s;
    }
  }

  /** With any smaller limit a single well-formed submit request ends the stream. */
  lemma {:induction false} SmallLimitsFail(e: Request, limit: nat)
    requires e.message.SubmitRequest? && limit < LONGEST_CLIENT_FRAME
    ensures Parse(EncodeClient(e), limit).failure == Some(BufferLimitExceeded)
  {
    ClientPrefixIsTruncated(e, limit);
    hide DecodeClient, EncodeClient;
  }

  /** The frames of requests, one after the other. */
  function EncodeAll(rs: seq<Request>): Bytes {
    if rs == [] then [] else EncodeClient(rs[0]) + EncodeAll(rs[1..])
  }

  /** How many requests come before the first whose frame is longer than the limit. */
  function Fitting(rs: seq<Request>, limit: nat): (n: nat)
    ensures n <= |rs|
    ensures forall i :: 0 <= i < n ==> |EncodeClient(rs[i])| <= limit
    ensures n < |rs| ==> |EncodeClient(rs[n])| > limit
  {
    if rs == [] || |EncodeClient(rs[0])| > limit then 0 else 1 + Fitting(rs[1..], limit)
  }

  /** One request at the beginning of a stream is read, if its frame fits, or ends the stream. */
  lemma ParseOfFirst(e: Request, rest: Bytes, limit: nat)
    ensures var s := EncodeClient(e) + rest;
            if |EncodeClient(e)| <= limit then Parse(s, limit) == After([e], Parse(rest, limit))
            else Parse(s, limit) == Parsed([], Some(BufferLimitExceeded), s)
  {
    hide DecodeClient, EncodeClient;
    var (frame, s) := (EncodeClient(e), EncodeClient(e) + rest);
    var window := s[..Min(|s|, limit)];
    if |frame| <= limit {
      assert window == frame + window[|frame|..] && s[|frame|..] == rest;
      ClientRoundTrip(e, window[|frame|..]);
    } else {
      assert window == frame[..limit];
      ClientPrefixIsTruncated(e, limit);
    }
  }

  /** A stream of well-formed requests is read up to the first one that is too long for the buffer. */
  lemma {:induction false} StreamRoundTrip(rs: seq<Request>, limit: nat)
    ensures Parse(EncodeAll(rs), limit).requests == rs[..Fitting(rs, limit)]
    ensures Parse(EncodeAll(rs), limit).failure
         == if Fitting(rs, limit) == |rs| then None else Some(BufferLimitExceeded)
    ensures Fitting(rs, limit) == |rs| ==> Parse(EncodeAll(rs), limit).unread == []
  {
    hide DecodeClient, EncodeClient, Parse;
    if rs == [] {
      ParseOfNothing(limit);
    } else {
      ParseOfFirst(rs[0], EncodeAll(rs[1..]), limit);
      if |EncodeClient(rs[0])| <= limit {
        StreamRoundTrip(rs[1..], limit);
        assert rs[..Fitting(rs, limit)] == [rs[0]] + rs[1..][..Fitting(rs[1..], limit)];
      }
    }
  }

  lemma ParseOfNothing(limit: nat)
    ensures Parse([], limit) == Parsed([], None, [])
  {
  }

  /** Well-formed requests are all read, and nothing else, exactly if every one of their frames fits the limit. */
  lemma {:induction false} StreamIsReadExactlyIfItFits(rs: seq<Request>, limit: nat)
    ensures Parse(EncodeAll(rs), limit) == Parsed(rs, None, [])
            <==> forall i :: 0 <= i < |rs| ==> |EncodeClient(rs[i])| <= limit
  {
    hide DecodeClient, EncodeClient, Parse;
    StreamRoundTrip(rs, limit);
    assert rs[..|rs|] == rs;
  }
}

/** The buffered parser of one connection. */
module StreamParser {
  import opened Domain
  import opened Bytes
  import opened WireCodec
  import opened WireLaws
  import opened StreamSpec

  /** Nothing more can be read from `unread` yet. */
  ghost predicate Settled(unread: Bytes, limit: nat) {
    Parse(unread, limit) == Parsed([], None, unread)
  }

  lemma SettledIsShort(unread: Bytes, limit: nat)
    requires Settled(unread, limit)
    ensures |unread| <= limit && |unread| < LONGEST_CLIENT_FRAME
  {
    if |unread| >= LONGEST_CLIENT_FRAME && |unread| <= limit {
      ClientVerdict(unread[..Min(|unread|, limit)]);
    }
    hide DecodeClient;
  }

  lemma FullBufferFails(unread: Bytes, more: Bytes, limit: nat)
    requires Settled(unread, limit) && |unread| == limit && more != []
    ensures Parse(unread + more, limit).requests == []
    ensures Parse(unread + more, limit).failure == Some(BufferLimitExceeded)
  {
    EmptyIsTruncated();
    hide DecodeClient;
    assert (unread + more)[..limit] == unread && unread[..limit] == unread;
  }

  lemma EmptyIsTruncated()
    ensures DecodeClient([]) == Err(TruncatedInput)
  {
  }

  /** One step of the reader on octets that fit the buffer. */
  lemma ParseStep(s: Bytes, limit: nat)
    requires s != [] && |s| <= limit
    ensures DecodeClient(s).Ok? ==>
              && 0 < DecodeClient(s).value.consumed <= |s|
              && Parse(s, limit)
                 == After([DecodeClient(s).value.envelope], Parse(s[DecodeClient(s).value.consumed..], limit))
    ensures DecodeClient(s).Err? ==>
              var error := DecodeClient(s).error;
              Parse(s, limit) == Parsed([], if error == TruncatedInput then None else Some(error), s)
  {
    hide DecodeClient;
    assert s[..Min(|s|, limit)] == s;
    if DecodeClient(s).Ok? {
      DecodedClientLength(s);
    }
  }

  class ClientStreamParser {
    var buffer: Bytes
    var readCursor: nat
    const maximum: nat
    var failure: Option<WireError>

    ghost predicate InBounds()
      reads this
    {
      readCursor <= |buffer| && |buffer| - readCursor <= maximum && |buffer| < maximum + LONGEST_CLIENT_FRAME
    }

    ghost function Unread(): Bytes
      requires InBounds()
      reads this
    {
      buffer[readCursor..]
    }

    ghost predicate Valid()
      reads this
    {
      InBounds() && (failure.None? ==> Settled(Unread(), maximum))
    }

    constructor (maximum: nat)
      ensures Valid() && this.maximum == maximum && failure.None? && Unread() == []
    {
      this.maximum, buffer, readCursor, failure := maximum, [], 0, None;
    }

    /** Reads every complete request in the buffer. */
    method ProcessAvailable(before: seq<Request>) returns (requests: seq<Request>)
      requires InBounds() && failure.None?
      modifies this`readCursor, this`failure
      ensures Valid()
      ensures var p := Parse(old(Unread()), maximum);
              && requests == before + p.requests && failure == p.failure
              && (failure.None? ==> Unread() == p.unread)
    {
      hide DecodeClient;
      requests := before;
      ghost var all := Parse(Unread(), maximum);
      while failure.None? && readCursor < |buffer|
        invariant InBounds() && failure.None?
        invariant After(before, all) == After(requests, Parse(Unread(), maximum))
        decreases |buffer| - readCursor
      {
        ghost var unread := Unread();
        ParseStep(unread, maximum);
        hide Parse;
        var decoded := DecodeClient(buffer[readCursor..]);
        if decoded.Err? {
          if decoded.error == TruncatedInput {
            return;
          }
          failure := Some(decoded.error);
          return;
        }
        requests := requests + [decoded.value.envelope];
        readCursor := readCursor + decoded.value.consumed;
        assert Unread() == unread[decoded.value.consumed..];
      }
    }

    /** Moves the unread octets to the front once the read ones take up half of the buffer. */
    method CompactIfNeeded()
      requires InBounds()
      modifies this`buffer, this`readCursor
      ensures InBounds() && Unread() == old(Unread())
      ensures readCursor == 0 || readCursor + 2 <= |Unread()|
    {
      if readCursor == 0 {
        return;
      }
      if readCursor == |buffer| {
        buffer, readCursor := [], 0;
        return;
      }
      if readCursor >= |buffer| / 2 || |buffer| == maximum {
        buffer, readCursor := buffer[readCursor..], 0;
      }
    }

    /** Takes as many of the octets as the buffer has room for and reads what they complete. */
    method TakePiece(bytes: Bytes, before: seq<Request>) returns (requests: seq<Request>, taken: nat)
      requires Valid() && failure.None? && bytes != []
      modifies this`buffer, this`readCursor, this`failure
      ensures Valid() && taken <= |bytes|
      ensures var p := After(before, Parse(old(Unread()) + bytes, maximum));
              if failure.None? then taken > 0 && p == After(requests, Parse(Unread() + bytes[taken..], maximum))
              else requests == p.requests && failure == p.failure
    {
      hide Parse, Settled;
      SettledIsShort(Unread(), maximum);
      CompactIfNeeded();
      var unread := |buffer| - readCursor;
      ghost var u := Unread();
      if unread == maximum {
        FullBufferFails(u, bytes, maximum);
        failure := Some(BufferLimitExceeded);
        return before, 0;
      }
      taken := Min(maximum - unread, |bytes|);
      var piece := bytes[..taken];
      buffer := buffer + piece;
      assert Unread() == u + piece;
      assert u + bytes == u + piece + bytes[taken..];
      ParseConcat(u + piece, bytes[taken..], maximum);
      requests := ProcessAvailable(before);
      AfterAfter(before, Parse(u + piece, maximum), bytes[taken..], maximum);
    }

    /** Takes the next octets of the stream. */
    method Feed(bytes: Bytes) returns (requests: seq<Request>, error: Option<WireError>)
      requires Valid()
      modifies this`buffer, this`readCursor, this`failure
      ensures Valid()
      ensures var p := StreamSpec.Feed(Parsed([], old(failure), old(Unread())), bytes, maximum);
              && requests == p.requests && error == failure == p.failure
              && (failure.None? ==> Unread() == p.unread)
    {
      hide Parse, Settled;
      requests, error := [], failure;
      if failure.Some? {
        return;
      }
      ghost var all := Parse(Unread() + bytes, maximum);
      SettledMeans(Unread(), maximum);
      requests := ProcessAvailable(requests);
      var consumed := 0;
      assert bytes[0..] == bytes;
      while consumed < |bytes|
        invariant Valid() && failure.None? && consumed <= |bytes|
        invariant all == After(requests, Parse(Unread() + bytes[consumed..], maximum))
      {
        var taken;
        requests, taken := TakePiece(bytes[consumed..], requests);
        if failure.Some? {
          return requests, failure;
        }
        assert bytes[consumed..][taken..] == bytes[consumed + taken..];
        consumed := consumed + taken;
      }
      assert Unread() + bytes[consumed..] == Unread();
      SettledMeans(Unread(), maximum);
      CompactIfNeeded();
      error := None;
    }
  }

  lemma AfterAfter(before: seq<Request>, first: Parsed, rest: Bytes, limit: nat)
    ensures first.failure.None? ==>
              After(before, Continued(first, rest, limit))
              == After(before + first.requests, Parse(first.unread + rest, limit))
  {
    hide Parse;
    var more := Parse(first.unread + rest, limit).requests;
    assert before + (first.requests + more) == before + first.requests + more;
  }

  lemma SettledMeans(unread: Bytes, limit: nat)
    requires Settled(unread, limit)
    ensures Parse(unread, limit) == Parsed([], None, unread)
  {
  }
}
