/**
 * The incremental readers of an HTTP head: `read_http_headers` in src/proxy_server.rs and the read
 * loop of `http_connect` in src/proxy_client.rs.  Both are one loop with different limits.
 */
module HeadReader {
  import opened Basics
  import opened HeaderSearch
  import opened Streams

  const HTTP_HEADER_MAX_LEN: nat := 16384
  const CONNECT_RESPONSE_MAX_LEN: nat := 8192
  const CHUNK: nat := 1024

  datatype HeadError = TooLong | Closed

  datatype Head = Head(head: string, leftover: string)

  /** What one search of the whole stream says: where the head ends, or why there is none. */
  function HeadOf(stream: string, limit: nat): Result<nat, HeadError> {
    match Search(stream)
    case Some(e) => if limit < e then Err(TooLong) else Ok(e)
    case None => if limit < |stream| then Err(TooLong) else Err(Closed)
  }

  /**
   * A head is accepted at its first possible end, exactly when that lies within the limit; a
   * stream is reported as closed early exactly when all of it fits the limit and no head ends in it.
   */
  lemma HeadOfMeaning(stream: string, limit: nat)
    ensures HeadOf(stream, limit).Ok? <==> exists e: nat :: e <= limit && HeadEnds(stream, e)
    ensures forall e: nat :: HeadOf(stream, limit) == Ok(e) ==>
              HeadEnds(stream, e) && forall d: nat :: d < e ==> !HeadEnds(stream, d)
    ensures HeadOf(stream, limit) == Err(Closed) <==> |stream| <= limit && forall e: nat :: !HeadEnds(stream, e)
  {
    SearchIsLeast(stream);
  }

  // ---- What the loop costs ----

  /**
   * The lengths of the buffer at its successive searches.  The loop goes on reading only while the
   * buffer is within the limit and holds no head, and never reads more than a chunk.
   */
  predicate Growth(stream: string, limit: nat, lens: seq<nat>) {
    && lens != []
    && (forall k :: 0 <= k < |lens| ==> lens[k] <= |stream|)
    && forall k :: 0 <= k < |lens| - 1 ==>
         lens[k] < lens[k + 1] <= lens[k] + 1024 && lens[k] <= limit && Search(stream[..lens[k]]).None?
  }

  /** The positions all these searches look at; each resumes three bytes before the end of the one before. */
  function LookedAt(stream: string, lens: seq<nat>): nat {
    if lens == [] then 0
    else
      var n := |lens| - 1;
      LookedAt(stream, lens[..n]) + Looked(stream[..Min(lens[n], |stream|)], SaturatingSub(LastOf(lens[..n]), 3))
  }

  function LastOf(lens: seq<nat>): nat {
    if lens == [] then 0 else lens[|lens| - 1]
  }

  lemma LookedOnce(stream: string, before: seq<nat>, buf: string)
    requires |buf| <= |stream| && stream[..|buf|] == buf
    ensures LookedAt(stream, before + [|buf|])
         == LookedAt(stream, before) + Looked(buf, SaturatingSub(LastOf(before), 3))
  {
    hide Looked;
    var lens := before + [|buf|];
    assert lens[..|lens| - 1] == before && lens[|lens| - 1] == |buf|;
  }

  /** The buffer stays within the limit and a chunk, and no byte is looked at twice but for three at each read. */
  lemma {:induction false} GrowthBounded(stream: string, limit: nat, lens: seq<nat>)
    requires Growth(stream, limit, lens) && lens[0] <= limit
    ensures lens[|lens| - 1] <= limit + 1024
    ensures LookedAt(stream, lens) <= lens[|lens| - 1] + 3 * (|lens| - 1)
  {
    var n := |lens| - 1;
    if n > 0 {
      GrowthBounded(stream, limit, lens[..n]);
    } else {
      assert lens[..0] == [];
    }
  }

  lemma GrowthExtends(stream: string, limit: nat, lens: seq<nat>, next: nat)
    requires Growth(stream, limit, lens) && lens[|lens| - 1] < next <= lens[|lens| - 1] + CHUNK && next <= |stream|
    requires lens[|lens| - 1] <= limit && Search(stream[..lens[|lens| - 1]]).None?
    ensures Growth(stream, limit, lens + [next])
  {
    var longer := lens + [next];
    forall k | 0 <= k < |longer| - 1
      ensures longer[k] < longer[k + 1] <= longer[k] + CHUNK && longer[k] <= limit
      ensures Search(stream[..longer[k]]).None?
    {
      if k < |lens| - 1 {
        assert longer[k] == lens[k] && longer[k + 1] == lens[k + 1];
      }
    }
  }

  /** What a reader's contract says of its cost; `taken` bytes were read from the source by `calls` reads. */
  ghost predicate Thrifty(initial: string, stream: string, limit: nat, r: Result<Head, HeadError>,
                          taken: int, calls: int, lens: seq<nat>, steps: nat) {
    && Growth(stream, limit, lens)
    && lens[0] == |initial| && lens[|lens| - 1] == |initial| + taken
    && calls == |lens| - 1 + (if r == Err(Closed) then 1 else 0)
    && steps == LookedAt(stream, lens)
    && |initial| + taken <= limit + CHUNK
    && steps <= |initial| + taken + 3 * calls
    && (r.Ok? && Search(initial).None? ==> |r.value.leftover| < CHUNK)
  }

  method ReadHead(source: ByteSource<char>, initial: string, limit: nat)
    returns (r: Result<Head, HeadError>, ghost lens: seq<nat>, ghost steps: nat)
    requires |initial| <= limit
    modifies source
    ensures r.Ok? ==>
              && HeadOf(initial + old(source.unread), limit) == Ok(|r.value.head|)
              && r.value.head + r.value.leftover + source.unread == initial + old(source.unread)
    ensures r.Err? ==> Err(r.error) == HeadOf(initial + old(source.unread), limit)
    ensures Thrifty(initial, initial + old(source.unread), limit, r, |old(source.unread)| - |source.unread|,
                    source.readCount - old(source.readCount), lens, steps)
  {
    hide Growth, LookedAt, Search, SearchFrom, Looked, Thrifty;
    ghost var stream := initial + source.unread;
    var buf := initial;
    var startPos := 0;
    ghost var before: seq<nat> := [];
    lens, steps := [|initial|], 0;
    GrowthStarts(stream, limit, |initial|);
    NothingInPrefix(stream);
    while true
      invariant buf + source.unread == stream && |initial| <= |buf|
      invariant lens == before + [|buf|] && lens[0] == |initial| && startPos == LastOf(before)
      invariant startPos <= |buf| && Search(buf[..startPos]).None?
      invariant Growth(stream, limit, lens)
      invariant steps == LookedAt(stream, before) && source.readCount == old(source.readCount) + |before|
      decreases |source.unread|
    {
      var found, looked := FindHeaderSeparator(buf, startPos);
      steps := steps + looked;
      LooksAtStream(stream, buf, source.unread, before, startPos);
      if found.Some? {
        if limit < found.value {
          r := Err(TooLong);
          IsThrifty(initial, stream, limit, r, lens, steps);
          return;
        }
        LeftoverShort(stream, limit, lens, found.value);
        StartsWith(initial, stream);
        r := Ok(Head(buf[..found.value], buf[found.value..]));
        IsThrifty(initial, stream, limit, r, lens, steps);
        return;
      }
      if limit < |buf| {
        r := Err(TooLong);
        IsThrifty(initial, stream, limit, r, lens, steps);
        return;
      }
      startPos, before := |buf|, lens;
      ghost var unread := source.unread;
      var chunk := source.Read(CHUNK);
      if chunk == [] {
        r := Err(Closed);
        IsThrifty(initial, stream, limit, r, lens, steps);
        return;
      }
      Grow(stream, buf, unread, chunk, source.unread);
      buf := buf + chunk;
      GrowthExtends(stream, limit, before, |buf|);
      lens := before + [|buf|];
    }
  }

  lemma IsThrifty(initial: string, stream: string, limit: nat, r: Result<Head, HeadError>, lens: seq<nat>, steps: nat)
    requires Growth(stream, limit, lens) && lens != [] && lens[0] == |initial| <= limit
    requires steps == LookedAt(stream, lens)
    requires r.Ok? && Search(initial).None? ==> |r.value.leftover| < CHUNK
    ensures Thrifty(initial, stream, limit, r, lens[|lens| - 1] - |initial|,
              |lens| - 1 + (if r == Err(Closed) then 1 else 0), lens, steps)
  {
    hide Growth, LookedAt, Search;
    GrowthBounded(stream, limit, lens);
  }

  lemma StartsWith(initial: string, stream: string)
    requires initial <= stream
    ensures stream[..|initial|] == initial
  {
  }

  lemma GrowthStarts(stream: string, limit: nat, n: nat)
    requires n <= |stream|
    ensures Growth(stream, limit, [n])
  {
  }

  lemma NothingInPrefix(stream: string)
    ensures Search(stream[..0]).None?
    ensures LookedAt(stream, []) == 0
  {
  }

  /** What one search of the buffer says of the stream. */
  lemma LooksAtStream(stream: string, buf: string, unread: string, before: seq<nat>, startPos: nat)
    requires buf + unread == stream && startPos == LastOf(before) <= |buf| && Search(buf[..startPos]).None?
    ensures stream[..|buf|] == buf && (unread == [] ==> buf == stream)
    ensures SearchFrom(buf, SaturatingSub(startPos, 3))
         == if Search(stream).Some? && Search(stream).value <= |buf| then Search(stream) else None
    ensures Search(buf) == SearchFrom(buf, SaturatingSub(startPos, 3))
    ensures LookedAt(stream, before + [|buf|])
         == LookedAt(stream, before) + Looked(buf, SaturatingSub(startPos, 3))
  {
    hide LookedAt, Looked, SearchFrom, Search;
    BufferOf(stream, buf, unread);
    LookedOnce(stream, before, buf);
    ResumedSearch(buf, startPos);
    SearchPrefix(stream, |buf|);
  }

  lemma BufferOf(stream: string, buf: string, unread: string)
    requires buf + unread == stream
    ensures stream[..|buf|] == buf && (unread == [] ==> buf == stream)
  {
    Halves(buf, unread);
  }

  lemma Grow(stream: string, buf: string, unread: string, chunk: string, rest: string)
    requires buf + unread == stream && chunk + rest == unread
    ensures (buf + chunk) + rest == stream && (buf + chunk)[..|buf|] == buf
  {
    Associate(buf, chunk, rest);
  }

  /** Once a head is complete nothing more is read, so what was read past it came with its last chunk. */
  lemma LeftoverShort(stream: string, limit: nat, lens: seq<nat>, end: nat)
    requires Growth(stream, limit, lens) && Search(stream) == Some(end) && end <= lens[|lens| - 1]
    ensures Search(stream[..lens[0]]).None? ==> lens[|lens| - 1] - end < CHUNK
  {
    var n := |lens| - 1;
    if n > 0 {
      SearchPrefix(stream, lens[n - 1]);
    } else {
      SearchPrefix(stream, lens[0]);
    }
  }

  /** `read_http_headers`: the first byte was consumed by the protocol detection. */
  method ReadHttpHeaders(source: ByteSource<char>, firstByte: char)
    returns (r: Result<Head, HeadError>, ghost lens: seq<nat>, ghost steps: nat)
    modifies source
    ensures r.Ok? ==>
              && HeadOf([firstByte] + old(source.unread), 16384) == Ok(|r.value.head|)
              && r.value.head + r.value.leftover + source.unread == [firstByte] + old(source.unread)
              && |r.value.leftover| < 1024
    ensures r.Err? ==> Err(r.error) == HeadOf([firstByte] + old(source.unread), 16384)
    ensures Thrifty([firstByte], [firstByte] + old(source.unread), 16384, r,
                    |old(source.unread)| - |source.unread|, source.readCount - old(source.readCount), lens, steps)
  {
    r, lens, steps := ReadHead(source, [firstByte], HTTP_HEADER_MAX_LEN);
    SearchIsLeast([firstByte]);
  }

  /** The read loop of `http_connect`; bytes past the head become the target's leftover. */
  method ReadConnectResponse(source: ByteSource<char>)
    returns (r: Result<Head, HeadError>, ghost lens: seq<nat>, ghost steps: nat)
    modifies source
    ensures r.Ok? ==>
              && HeadOf(old(source.unread), 8192) == Ok(|r.value.head|)
              && r.value.head + r.value.leftover + source.unread == old(source.unread)
              && |r.value.leftover| < 1024
    ensures r.Err? ==> Err(r.error) == HeadOf(old(source.unread), 8192)
    ensures Thrifty([], old(source.unread), 8192, r,
                    |old(source.unread)| - |source.unread|, source.readCount - old(source.readCount), lens, steps)
  {
    assert [] + source.unread == source.unread;
    r, lens, steps := ReadHead(source, [], CONNECT_RESPONSE_MAX_LEN);
  }
}
