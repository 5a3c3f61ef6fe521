/** src/proxy_server.rs: the SOCKS4 and SOCKS4a request as `handle_socks4` reads it. */
module Socks4 {
  import opened Basics
  import opened Streams

  const SOCKS4_HANDSHAKE_MAX_LEN: nat := 1024
  const CHUNK: nat := 256
  const HEADER_LEN: nat := 7
  const MAX_USER_ID: nat := 255
  const MAX_DOMAIN: nat := 253

  datatype Host = Ipv4(octets: seq<byte>) | Domain(name: seq<byte>)

  /** The decoded request and the bytes read past it. */
  datatype Request = Request(host: Host, port: port, leftover: seq<byte>)

  datatype Error =
    | HeaderTruncated
    | UnsupportedCommand
    | HandshakeTooLong
    | ConnectionClosed
    | UserIdTooLong
    | DomainTooLong
    | Unreachable

  /** An address 0.0.0.x with x not zero announces a host name behind the user id. */
  predicate IsSocks4a(ip: seq<byte>)
    requires |ip| == 4
  {
    ip[0] == 0 && ip[1] == 0 && ip[2] == 0 && ip[3] != 0
  }

  function FromBigEndian(hi: byte, lo: byte): port {
    256 * (hi as int) + lo as int
  }

  /** `position` of the zero byte in `buf[from..]`, as an offset into `buf`. */
  function ZeroFrom(buf: seq<byte>, from: nat): (r: Option<nat>)
    requires from <= |buf|
    ensures r.Some? ==> from <= r.value < |buf|
  {
    match Position(buf[from..], 0)
    case None => None
    case Some(i) => Some(from + i)
  }

  /** Bytes that arrive later do not move a terminator, and can only add one behind the buffer. */
  lemma ZeroFromGrows(buf: seq<byte>, more: seq<byte>, from: nat)
    requires from <= |buf|
    ensures ZeroFrom(buf, from).Some? ==> ZeroFrom(buf + more, from) == ZeroFrom(buf, from)
    ensures ZeroFrom(buf, from).None? && ZeroFrom(buf + more, from).Some? ==> |buf| <= ZeroFrom(buf + more, from).value
  {
    assert (buf + more)[from..] == buf[from..] + more;
    if 0 in buf[from..] {
      PositionPrefix(buf[from..], 0, more);
    } else {
      PositionShift(buf[from..], more, 0);
    }
  }

  /** Where the user id and, for SOCKS4a, the domain end in what follows the fixed header. */
  datatype Fields = Fields(userEnd: nat, domainEnd: nat)

  function FindFields(rest: seq<byte>, socks4a: bool): (r: Option<Fields>)
    ensures r.Some? ==> r.value.userEnd <= r.value.domainEnd < |rest|
    ensures r.Some? && socks4a ==> r.value.userEnd < r.value.domainEnd
    ensures r.Some? && !socks4a ==> r.value.userEnd == r.value.domainEnd
  {
    match ZeroFrom(rest, 0)
    case None => None
    case Some(u) =>
      if !socks4a then Some(Fields(u, u))
      else match ZeroFrom(rest, u + 1)
        case None => None
        case Some(d) => Some(Fields(u, d))
  }

  /** A complete buffer decides the stream; an incomplete one leaves the end of the fields outside. */
  lemma FindFieldsGrows(buf: seq<byte>, more: seq<byte>, socks4a: bool)
    ensures FindFields(buf, socks4a).Some? ==> FindFields(buf + more, socks4a) == FindFields(buf, socks4a)
    ensures FindFields(buf, socks4a).None? && FindFields(buf + more, socks4a).Some? ==>
              |buf| < Consumed(FindFields(buf + more, socks4a).value)
  {
    ZeroFromGrows(buf, more, 0);
    match ZeroFrom(buf, 0)
    case None =>
    case Some(u) => ZeroFromGrows(buf, more, u + 1);
  }

  /** How many bytes behind the header belong to the request. */
  function Consumed(f: Fields): nat {
    f.domainEnd + 1
  }

  predicate WithinLimits(f: Fields, socks4a: bool) {
    f.userEnd <= MAX_USER_ID && (socks4a ==> f.domainEnd - (f.userEnd + 1) <= MAX_DOMAIN)
  }

  function HostOf(ip: seq<byte>, rest: seq<byte>, f: Fields): Host
    requires |ip| == 4 && f.userEnd <= f.domainEnd < |rest|
    requires IsSocks4a(ip) ==> f.userEnd < f.domainEnd
  {
    if IsSocks4a(ip) then Domain(rest[f.userEnd + 1..f.domainEnd]) else Ipv4(ip)
  }

  /** What the whole stream behind the version byte says: host, port and length of the request. */
  datatype Parsed = Parsed(host: Host, port: port, length: nat)

  /** The fields behind the fixed header. */
  function ParseFields(ip: seq<byte>, p: port, rest: seq<byte>): (r: Option<Parsed>)
    requires |ip| == 4
    ensures r.Some? ==> 0 < r.value.length <= |rest|
  {
    match FindFields(rest, IsSocks4a(ip))
    case None => None
    case Some(f) =>
      if WithinLimits(f, IsSocks4a(ip)) then Some(Parsed(HostOf(ip, rest, f), p, Consumed(f))) else None
  }

  function Parse(stream: seq<byte>): (r: Option<Parsed>)
    ensures r.Some? ==> HEADER_LEN < r.value.length <= |stream|
  {
    if |stream| < HEADER_LEN || stream[0] != 1 then None
    else
      match ParseFields(stream[3..7], FromBigEndian(stream[1], stream[2]), stream[7..])
      case None => None
      case Some(parsed) => Some(parsed.(length := HEADER_LEN + parsed.length))
  }

  /**
   * The answers a stream allows.  Success and its values are fixed by the stream; so are truncation,
   * an unsupported command and fields that never end.  Which length error is reported may depend on
   * how the reads fell, but only when the fields end past the guard.
   */
  predicate Answers(stream: seq<byte>, r: Result<Request, Error>, unread: seq<byte>) {
    if |stream| < HEADER_LEN then r == Err(HeaderTruncated)
    else if stream[0] != 1 then r == Err(UnsupportedCommand)
    else ParsedOrRefused(Parse(stream), stream, IsSocks4a(stream[3..7]), stream[HEADER_LEN..], r, unread)
  }

  /** `bytes` holds the request when it parses; otherwise `rest`, the bytes behind the header, explains the failure. */
  predicate ParsedOrRefused(
    parsed: Option<Parsed>, bytes: seq<byte>, socks4a: bool, rest: seq<byte>,
    r: Result<Request, Error>, unread: seq<byte>)
  {
    match parsed
    case Some(Parsed(host, p, n)) =>
      && r.Ok? && r.value.host == host && r.value.port == p
      && n <= |bytes| && bytes[..n] + r.value.leftover + unread == bytes
    case None => r.Err? && FailureAllowed(r.error, rest, socks4a)
  }

  predicate FailureAllowed(e: Error, rest: seq<byte>, socks4a: bool) {
    match FindFields(rest, socks4a)
    case None =>
      e == if |rest| <= SOCKS4_HANDSHAKE_MAX_LEN then ConnectionClosed else HandshakeTooLong
    case Some(f) =>
      || (e == HandshakeTooLong && SOCKS4_HANDSHAKE_MAX_LEN + 1 < Consumed(f))
      || (Consumed(f) <= SOCKS4_HANDSHAKE_MAX_LEN + CHUNK
          && e == LimitError(f))
  }

  lemma HeaderSlices(stream: seq<byte>)
    requires HEADER_LEN <= |stream|
    ensures stream[..HEADER_LEN][3..7] == stream[3..7]
  {
  }

  lemma BodyAnswers(stream: seq<byte>, r: Result<Request, Error>, unread: seq<byte>)
    requires HEADER_LEN <= |stream| && stream[0] == 1
    requires ParsedOrRefused(ParseFields(stream[3..7], FromBigEndian(stream[1], stream[2]), stream[HEADER_LEN..]),
                             stream[HEADER_LEN..], IsSocks4a(stream[3..7]), stream[HEADER_LEN..], r, unread)
    ensures Answers(stream, r, unread)
  {
    hide ParseFields, FailureAllowed;
    if r.Ok? {
      BehindHeader(stream, Parse(stream).value.length - HEADER_LEN, r.value.leftover, unread);
    }
  }

  lemma BehindHeader(stream: seq<byte>, n: nat, leftover: seq<byte>, unread: seq<byte>)
    requires HEADER_LEN + n <= |stream|
    requires stream[HEADER_LEN..][..n] + leftover + unread == stream[HEADER_LEN..]
    ensures stream[..HEADER_LEN + n] + leftover + unread == stream
  {
    var header, rest := stream[..HEADER_LEN], stream[HEADER_LEN..];
    assert stream[..HEADER_LEN + n] == header + rest[..n];
    Associate(header, rest[..n], leftover);
    Associate(header, rest[..n] + leftover, unread);
    assert header + rest == stream;
  }

  lemma SplitBuffer(buf: seq<byte>, n: nat, unread: seq<byte>)
    requires n <= |buf|
    ensures (buf + unread)[..n] + buf[n..] + unread == buf + unread
  {
    assert (buf + unread)[..n] == buf[..n] && buf[..n] + buf[n..] == buf;
  }

  function LimitError(f: Fields): Error {
    if f.userEnd > MAX_USER_ID then UserIdTooLong else DomainTooLong
  }

  /** The part of `handle_socks4` behind the fixed header. */
  method ReadBody(source: ByteSource<byte>, ip: seq<byte>, p: port)
    returns (r: Result<Request, Error>, ghost chunks: seq<seq<byte>>)
    requires |ip| == 4
    modifies source
    ensures ParsedOrRefused(ParseFields(ip, p, old(source.unread)), old(source.unread), IsSocks4a(ip),
                            old(source.unread), r, source.unread)
    ensures IsCut(chunks, old(source.unread))
    ensures Verdict(chunks, IsSocks4a(ip)) == if r.Err? then Some(r.error) else None
  {
    hide Loop, Joined;
    var socks4a := IsSocks4a(ip);
    var fields;
    fields, chunks := ReadFields(source, socks4a);
    match fields
    case Err(e) =>
      return Err(e), chunks;
    case Ok(Found(f, buf)) =>
      if !WithinLimits(f, socks4a) {
        return Err(LimitError(f)), chunks;
      }
      var n := Consumed(f);
      HostGrows(ip, buf, source.unread, f);
      SplitBuffer(buf, n, source.unread);
      return Ok(Request(HostOf(ip, buf, f), p, buf[n..])), chunks;
  }

  lemma HostGrows(ip: seq<byte>, buf: seq<byte>, more: seq<byte>, f: Fields)
    requires |ip| == 4 && f.userEnd <= f.domainEnd < |buf|
    requires IsSocks4a(ip) ==> f.userEnd < f.domainEnd
    ensures HostOf(ip, buf + more, f) == HostOf(ip, buf, f)
  {
    if IsSocks4a(ip) {
      assert (buf + more)[f.userEnd + 1..f.domainEnd] == buf[f.userEnd + 1..f.domainEnd];
    }
  }

  /** The eight bytes of `send_socks4_reply`. */
  function SocksReply(status: byte): seq<byte> {
    [0, status, 0, 0, 0, 0, 0, 0]
  }

  datatype Found = Found(fields: Fields, buf: seq<byte>)

  /** What the read loop may return for the bytes `rest` that follow the header. */
  predicate FieldsRead(rest: seq<byte>, socks4a: bool, r: Result<Found, Error>, unread: seq<byte>) {
    match r
    case Ok(Found(f, buf)) =>
      buf + unread == rest && FindFields(rest, socks4a) == Some(f)
      && Consumed(f) <= |buf| <= SOCKS4_HANDSHAKE_MAX_LEN + CHUNK
    case Err(e) =>
      match FindFields(rest, socks4a)
      case None => e == if |rest| <= SOCKS4_HANDSHAKE_MAX_LEN then ConnectionClosed else HandshakeTooLong
      case Some(f) => e == HandshakeTooLong && SOCKS4_HANDSHAKE_MAX_LEN + 1 < Consumed(f)
  }

  /** Both terminators are known, or the only one needed. */
  function Complete(userEnd: Option<nat>, domainEnd: Option<nat>, socks4a: bool): Option<Fields> {
    if userEnd.None? then None
    else if !socks4a then Some(Fields(userEnd.value, userEnd.value))
    else if domainEnd.None? then None
    else Some(Fields(userEnd.value, domainEnd.value))
  }

  /** One round of searching: terminators already found are kept, the others are looked for. */
  method Locate(buf: seq<byte>, socks4a: bool, user: Option<nat>, domain: Option<nat>)
    returns (userEnd: Option<nat>, domainEnd: Option<nat>)
    requires user.Some? ==> user == ZeroFrom(buf, 0)
    requires domain.Some? ==> socks4a && user.Some? && domain == ZeroFrom(buf, user.value + 1)
    ensures userEnd == ZeroFrom(buf, 0)
    ensures domainEnd == if socks4a && userEnd.Some? then ZeroFrom(buf, userEnd.value + 1) else None
    ensures Complete(userEnd, domainEnd, socks4a) == FindFields(buf, socks4a)
  {
    userEnd, domainEnd := user, domain;
    if userEnd.None? {
      userEnd := ZeroFrom(buf, 0);
    }
    if userEnd.Some? && socks4a && domainEnd.None? {
      domainEnd := ZeroFrom(buf, userEnd.value + 1);
    }
  }

  // ---- The loop as a function of how the reads fell ----

  function Joined(chunks: seq<seq<byte>>): seq<byte> {
    if chunks == [] then [] else chunks[0] + Joined(chunks[1..])
  }

  /** One way in which the reads may cut `rest`. */
  predicate IsCut(chunks: seq<seq<byte>>, rest: seq<byte>) {
    Joined(chunks) == rest && forall k :: 0 <= k < |chunks| ==> 0 < |chunks[k]| <= 256
  }

  /** What the loop returns when it has `buf` and the reads will bring `chunks`. */
  function Loop(buf: seq<byte>, chunks: seq<seq<byte>>, socks4a: bool): Result<Found, Error>
    decreases |chunks|
  {
    match FindFields(buf, socks4a)
    case Some(f) => Ok(Found(f, buf))
    case None =>
      if |buf| > SOCKS4_HANDSHAKE_MAX_LEN then Err(HandshakeTooLong)
      else if chunks == [] then Err(ConnectionClosed)
      else Loop(buf + chunks[0], chunks[1..], socks4a)
  }

  /** After `taken` the loop has `buf` and goes on with whatever comes. */
  ghost predicate Reaches(taken: seq<seq<byte>>, buf: seq<byte>, socks4a: bool) {
    forall future :: Loop([], taken + future, socks4a) == Loop(buf, future, socks4a)
  }

  lemma ReachesStart(socks4a: bool)
    ensures Reaches([], [], socks4a)
  {
    forall future: seq<seq<byte>>
      ensures Loop([], [] + future, socks4a) == Loop([], future, socks4a)
    {
      assert [] + future == future;
    }
  }

  lemma ReachesNext(taken: seq<seq<byte>>, buf: seq<byte>, chunk: seq<byte>, socks4a: bool)
    requires Reaches(taken, buf, socks4a) && FindFields(buf, socks4a).None? && |buf| <= SOCKS4_HANDSHAKE_MAX_LEN
    ensures Reaches(taken + [chunk], buf + chunk, socks4a)
  {
    forall future: seq<seq<byte>>
      ensures Loop([], (taken + [chunk]) + future, socks4a) == Loop(buf + chunk, future, socks4a)
    {
      Associate(taken, [chunk], future);
      assert Loop([], taken + ([chunk] + future), socks4a) == Loop(buf, [chunk] + future, socks4a);
      assert ([chunk] + future)[1..] == future;
    }
  }

  lemma {:induction false} JoinedAppend(a: seq<seq<byte>>, b: seq<seq<byte>>)
    ensures Joined(a + b) == Joined(a) + Joined(b)
  {
    if a == [] {
      assert a + b == b;
    } else {
      assert (a + b)[1..] == a[1..] + b;
      JoinedAppend(a[1..], b);
      Associate(a[0], Joined(a[1..]), Joined(b));
    }
  }

  lemma JoinedOne(chunk: seq<byte>)
    ensures Joined([chunk]) == chunk
  {
    assert [chunk][1..] == [];
  }

  /** Some way to cut a stream: full chunks and a rest. */
  function CutUp(rest: seq<byte>): (chunks: seq<seq<byte>>)
    ensures IsCut(chunks, rest)
    decreases |rest|
  {
    if rest == [] then []
    else
      var n := Min(CHUNK, |rest|);
      assert rest == rest[..n] + rest[n..];
      [rest[..n]] + CutUp(rest[n..])
  }

  lemma CutsJoin(a: seq<seq<byte>>, restA: seq<byte>, b: seq<seq<byte>>, restB: seq<byte>)
    requires IsCut(a, restA) && IsCut(b, restB)
    ensures IsCut(a + b, restA + restB)
  {
    JoinedAppend(a, b);
  }

  /** The read loop: remembers the terminators already found and searches only behind them. */
  method ReadFields(source: ByteSource<byte>, socks4a: bool)
    returns (r: Result<Found, Error>, ghost chunks: seq<seq<byte>>)
    modifies source
    ensures FieldsRead(old(source.unread), socks4a, r, source.unread)
    ensures IsCut(chunks, old(source.unread)) && r == Loop([], chunks, socks4a)
  {
    hide Joined, Loop, Reaches, IsCut, FindFields, ZeroFrom;
    ghost var rest := source.unread;
    ghost var taken: seq<seq<byte>> := [];
    var buf: seq<byte> := [];
    var userEnd: Option<nat> := None;
    var domainEnd: Option<nat> := None;
    ReachesStart(socks4a);
    NothingCut();
    while true
      invariant buf + source.unread == rest
      invariant |buf| <= SOCKS4_HANDSHAKE_MAX_LEN + CHUNK
      invariant userEnd.Some? ==> userEnd == ZeroFrom(buf, 0)
      invariant domainEnd.Some? ==> socks4a && userEnd.Some? && domainEnd == ZeroFrom(buf, userEnd.value + 1)
      invariant IsCut(taken, buf) && Reaches(taken, buf, socks4a)
      decreases |source.unread|
    {
      userEnd, domainEnd := Locate(buf, socks4a, userEnd, domainEnd);
      FindFieldsGrows(buf, source.unread, socks4a);
      chunks := taken + CutUp(source.unread);
      CutsJoin(taken, buf, CutUp(source.unread), source.unread);
      LoopDecides(taken, buf, CutUp(source.unread), socks4a);
      var fields := Complete(userEnd, domainEnd, socks4a);
      if fields.Some? {
        return Ok(Found(fields.value, buf)), chunks;
      }
      if |buf| > SOCKS4_HANDSHAKE_MAX_LEN {
        return Err(HandshakeTooLong), chunks;
      }
      var chunk := source.Read(CHUNK);
      if chunk == [] {
        assert buf == rest;
        return Err(ConnectionClosed), chunks;
      }
      if userEnd.Some? {
        ZeroFromGrows(buf, chunk, 0);
        ZeroFromGrows(buf, chunk, userEnd.value + 1);
      }
      ReachesNext(taken, buf, chunk, socks4a);
      OneMore(taken, buf, chunk);
      buf, taken := buf + chunk, taken + [chunk];
    }
  }

  lemma NothingCut()
    ensures IsCut([], [])
  {
  }

  lemma OneMore(taken: seq<seq<byte>>, buf: seq<byte>, chunk: seq<byte>)
    requires IsCut(taken, buf) && 0 < |chunk| <= CHUNK
    ensures IsCut(taken + [chunk], buf + chunk)
  {
    JoinedOne(chunk);
    CutsJoin(taken, buf, [chunk], chunk);
  }

  lemma LoopDecides(taken: seq<seq<byte>>, buf: seq<byte>, future: seq<seq<byte>>, socks4a: bool)
    requires Reaches(taken, buf, socks4a)
    ensures FindFields(buf, socks4a).Some? ==>
              Loop([], taken + future, socks4a) == Ok(Found(FindFields(buf, socks4a).value, buf))
    ensures FindFields(buf, socks4a).None? && |buf| > SOCKS4_HANDSHAKE_MAX_LEN ==>
              Loop([], taken + future, socks4a) == Err(HandshakeTooLong)
    ensures FindFields(buf, socks4a).None? && |buf| <= SOCKS4_HANDSHAKE_MAX_LEN && future == [] ==>
              Loop([], taken + future, socks4a) == Err(ConnectionClosed)
  {
  }

  // ---- The request, octet for octet ----

  /** The eight octets of a reply; the second one is 0x5A or 0x5B. */
  predicate IsReply(reply: seq<byte>, granted: bool) {
    && |reply| == 8 && reply[0] == 0 && reply[1] == (if granted then 0x5A else 0x5B)
    && forall k :: 2 <= k < 8 ==> reply[k] == 0
  }

  /** The first octet 0 at or behind `from`. */
  predicate FirstZero(s: seq<byte>, from: nat, i: nat) {
    from <= i < |s| && s[i] == 0 && forall k :: from <= k < i ==> s[k] != 0
  }

  /** The first octet 0 behind `i`. */
  predicate NextZero(s: seq<byte>, i: nat, j: nat) {
    FirstZero(s, i + 1, j)
  }

  /** A host name is announced by the address 0.0.0.x with x not zero. */
  predicate NamesHost(stream: seq<byte>)
    requires 7 <= |stream|
  {
    stream[3] == 0 && stream[4] == 0 && stream[5] == 0 && stream[6] != 0
  }

  /**
   * The first `n` octets: command 1, a port with its high octet first, an address; a user id of at
   * most 255 octets and, if one is announced, a host name of at most 253, both ended by an octet 0.
   */
  ghost predicate IsRequest(stream: seq<byte>, h: Host, p: port, n: int) {
    && 8 <= n <= |stream| && stream[0] == 1 && p == 256 * (stream[1] as int) + stream[2] as int
    && exists u: nat ::
         && FirstZero(stream, 7, u) && u <= 7 + 255
         && if NamesHost(stream) then
              u + 1 < n && NextZero(stream, u, n - 1) && n - 1 - (u + 1) <= 253 && h == Domain(stream[u + 1..n - 1])
            else
              n == u + 1 && h == Ipv4(stream[3..7])
  }

  /** The last octet of the user id and the host name is behind `stream[..at]`, or missing. */
  ghost predicate EndsBehind(stream: seq<byte>, at: nat)
    requires 7 <= |stream|
  {
    forall u: nat :: FirstZero(stream, 7, u) ==>
      if NamesHost(stream) then forall d: nat :: NextZero(stream, u, d) ==> at <= d else at <= u
  }

  /** Why a stream is refused. */
  ghost predicate Explains(stream: seq<byte>, e: Error) {
    match e
    case HeaderTruncated => |stream| < 7
    case UnsupportedCommand => 7 <= |stream| && stream[0] != 1
    case UserIdTooLong =>
      7 <= |stream| && stream[0] == 1 && exists u: nat :: FirstZero(stream, 7, u) && 7 + 255 < u
    case DomainTooLong =>
      && 7 <= |stream| && stream[0] == 1 && NamesHost(stream)
      && exists u: nat, d: nat ::
           FirstZero(stream, 7, u) && u <= 7 + 255 && NextZero(stream, u, d) && u + 1 + 253 < d
    case ConnectionClosed => 7 <= |stream| <= 7 + 1024 && stream[0] == 1 && EndsBehind(stream, |stream|)
    case HandshakeTooLong => 7 + 1024 < |stream| && stream[0] == 1 && EndsBehind(stream, 7 + 1025)
    case Unreachable => false
  }

  /** What `r` says of a stream: its request, followed by everything else, or why it has none. */
  ghost predicate Decides(stream: seq<byte>, r: Result<Request, Error>, unread: seq<byte>) {
    match r
    case Ok(request) =>
      exists n :: IsRequest(stream, request.host, request.port, n)
                  && stream[..n] + request.leftover + unread == stream
    case Err(e) => Explains(stream, e)
  }

  lemma ZeroIff(stream: seq<byte>, from: nat, i: nat)
    requires 7 + from <= |stream|
    ensures FirstZero(stream, 7 + from, 7 + i) <==> ZeroFrom(stream[7..], from) == Some(i)
  {
    var rest := stream[7..];
    if FirstZero(stream, 7 + from, 7 + i) {
      ZeroFromAt(rest, from, i);
    }
    if ZeroFrom(rest, from) == Some(i) {
      PositionIsFirst(rest[from..], 0);
      assert forall k :: from <= k < i ==> rest[k] == rest[from..][k - from];
      assert forall k :: 7 + from <= k < 7 + i ==> stream[k] == rest[k - 7];
    }
  }

  lemma OneFirstZero(s: seq<byte>, from: nat, i: nat, j: nat)
    requires FirstZero(s, from, i) && FirstZero(s, from, j)
    ensures i == j
  {
  }

  lemma AnnouncedBy(stream: seq<byte>)
    requires 7 <= |stream|
    ensures IsSocks4a(stream[3..7]) == NamesHost(stream)
  {
  }

  /** The fields of a stream by the octets 0 that end them. */
  lemma FieldsIff(stream: seq<byte>, f: Fields)
    requires 7 <= |stream|
    ensures FindFields(stream[7..], NamesHost(stream)) == Some(f) <==>
              && FirstZero(stream, 7, 7 + f.userEnd)
              && if NamesHost(stream) then FirstZero(stream, 7 + f.userEnd + 1, 7 + f.domainEnd)
                 else f.domainEnd == f.userEnd
  {
    hide ZeroFrom, FirstZero;
    ZeroIff(stream, 0, f.userEnd);
    if FirstZero(stream, 7, 7 + f.userEnd) {
      UserEndInside(stream, f.userEnd);
      ZeroIff(stream, f.userEnd + 1, f.domainEnd);
    }
  }

  lemma UserEndInside(stream: seq<byte>, u: nat)
    requires FirstZero(stream, 7, 7 + u)
    ensures 7 + u + 1 <= |stream|
  {
  }
  lemma HostIs(stream: seq<byte>, f: Fields)
    requires 7 <= |stream| && f.userEnd <= f.domainEnd && 7 + f.domainEnd < |stream|
    requires NamesHost(stream) ==> f.userEnd < f.domainEnd
    ensures HostOf(stream[3..7], stream[7..], f)
         == if NamesHost(stream) then Domain(stream[7 + f.userEnd + 1..7 + f.domainEnd]) else Ipv4(stream[3..7])
  {
    if NamesHost(stream) {
      assert stream[7..][f.userEnd + 1..f.domainEnd] == stream[7 + f.userEnd + 1..7 + f.domainEnd];
    }
  }

  lemma RequestParsed(stream: seq<byte>, h: Host, p: port, n: int)
    requires IsRequest(stream, h, p, n)
    ensures Parse(stream) == Some(Parsed(h, p, n))
  {
    hide FirstZero, FindFields, HostOf, IsSocks4a, NamesHost;
    var u: nat :| && FirstZero(stream, 7, u) && u <= 7 + 255
      && if NamesHost(stream) then
           u + 1 < n && NextZero(stream, u, n - 1) && n - 1 - (u + 1) <= 253 && h == Domain(stream[u + 1..n - 1])
         else n == u + 1 && h == Ipv4(stream[3..7]);
    ZeroInside(stream, 7, u);
    if NamesHost(stream) {
      ZeroInside(stream, u + 1, n - 1);
    }
    var f := Fields(u - 7, n - 8);
    AnnouncedBy(stream);
    FieldsIff(stream, f);
    HostIs(stream, f);
  }

  lemma ZeroInside(s: seq<byte>, from: nat, i: nat)
    requires FirstZero(s, from, i)
    ensures from <= i < |s|
  {
  }

  lemma ParsedRequest(stream: seq<byte>)
    requires Parse(stream).Some?
    ensures var parsed := Parse(stream).value; IsRequest(stream, parsed.host, parsed.port, parsed.length)
  {
    hide FirstZero, FindFields, HostOf, IsSocks4a, NamesHost;
    AnnouncedBy(stream);
    var f := FindFields(stream[7..], NamesHost(stream)).value;
    FieldsIff(stream, f);
    HostIs(stream, f);
    assert FirstZero(stream, 7, 7 + f.userEnd);
  }

  /** Exactly the requests are parsed, from their octets. */
  lemma ParseIff(stream: seq<byte>, h: Host, p: port, n: nat)
    ensures IsRequest(stream, h, p, n) <==> Parse(stream) == Some(Parsed(h, p, n))
  {
    hide Parse, IsRequest;
    if IsRequest(stream, h, p, n) {
      RequestParsed(stream, h, p, n);
    }
    if Parse(stream).Some? {
      ParsedRequest(stream);
    }
  }

  /** An allowed failure has its reason in the octets. */
  lemma FailureExplained(stream: seq<byte>, e: Error)
    requires 7 <= |stream| && stream[0] == 1 && FailureAllowed(e, stream[7..], IsSocks4a(stream[3..7]))
    requires var fields := FindFields(stream[7..], IsSocks4a(stream[3..7]));
             fields.Some? ==> !WithinLimits(fields.value, IsSocks4a(stream[3..7]))
    ensures Explains(stream, e)
  {
    hide FirstZero, FindFields, IsSocks4a, NamesHost, EndsBehind;
    AnnouncedBy(stream);
    var fields := FindFields(stream[7..], NamesHost(stream));
    if fields.Some? {
      FieldsIff(stream, fields.value);
      if e == HandshakeTooLong {
        FieldsEnd(stream, fields.value, 7 + 1025);
      } else {
        LimitExplained(stream, fields.value);
      }
    } else {
      NoFieldsEnd(stream, 7 + 1025);
      NoFieldsEnd(stream, |stream|);
    }
  }

  lemma LimitExplained(stream: seq<byte>, f: Fields)
    requires 7 <= |stream| && stream[0] == 1 && FindFields(stream[7..], NamesHost(stream)) == Some(f)
    requires !WithinLimits(f, NamesHost(stream))
    ensures Explains(stream, LimitError(f))
  {
    hide FirstZero, FindFields, NamesHost;
    FieldsIff(stream, f);
    assert FirstZero(stream, 7, 7 + f.userEnd);
    assert NamesHost(stream) ==> NextZero(stream, 7 + f.userEnd, 7 + f.domainEnd);
  }

  lemma FieldsEnd(stream: seq<byte>, f: Fields, at: nat)
    requires 7 <= |stream| && FindFields(stream[7..], NamesHost(stream)) == Some(f) && at <= 7 + f.domainEnd
    ensures EndsBehind(stream, at)
  {
    FieldsIff(stream, f);
  }

  lemma NoFieldsEnd(stream: seq<byte>, at: nat)
    requires 7 <= |stream| && FindFields(stream[7..], NamesHost(stream)).None?
    ensures EndsBehind(stream, at)
  {
    forall u: nat | FirstZero(stream, 7, u)
      ensures NamesHost(stream) && forall d: nat :: !NextZero(stream, u, d)
    {
      if !NamesHost(stream) {
        FieldsIff(stream, Fields(u - 7, u - 7));
      }
      forall d: nat
        ensures !NextZero(stream, u, d)
      {
        if NextZero(stream, u, d) {
          FieldsIff(stream, Fields(u - 7, d - 7));
        }
      }
    }
  }

  /** Every answer is right octet for octet. */
  lemma AnswersDecides(stream: seq<byte>, r: Result<Request, Error>, unread: seq<byte>)
    requires Answers(stream, r, unread)
    ensures Decides(stream, r, unread)
  {
    hide FindFields, FailureAllowed, IsSocks4a, NamesHost, IsRequest, HostOf;
    if Parse(stream).Some? {
      ParsedRequest(stream);
    } else if 7 <= |stream| && stream[0] == 1 {
      FailureExplained(stream, r.error);
    }
  }

  lemma EarlyAnswers(stream: seq<byte>, e: Error, unread: seq<byte>)
    requires if |stream| < HEADER_LEN then e == HeaderTruncated else stream[0] != 1 && e == UnsupportedCommand
    ensures Answers(stream, Err(e), unread) && Decides(stream, Err(e), unread)
  {
  }

  /** The request read from the stream behind the version byte; `reply` is what an early refusal writes. */
  method ReadRequest(source: ByteSource<byte>) returns (r: Result<Request, Error>, reply: seq<byte>)
    modifies source
    ensures Answers(old(source.unread), r, source.unread) && Decides(old(source.unread), r, source.unread)
    ensures if r == Err(UnsupportedCommand) then IsReply(reply, false) else reply == []
  {
    hide Answers, ParsedOrRefused, IsRequest, EndsBehind;
    ghost var stream := source.unread;
    reply := [];
    var read := source.ReadExact(HEADER_LEN);
    if read.None? {
      r := Err(HeaderTruncated);
      EarlyAnswers(stream, HeaderTruncated, source.unread);
      return;
    }
    var header := read.value;
    if header[0] != 1 {
      r, reply := Err(UnsupportedCommand), SocksReply(0x5B);
      EarlyAnswers(stream, UnsupportedCommand, source.unread);
      return;
    }
    HeaderSlices(stream);
    ghost var chunks;
    r, chunks := ReadBody(source, header[3..7], FromBigEndian(header[1], header[2]));
    BodyAnswers(stream, r, source.unread);
    AnswersDecides(stream, r, source.unread);
  }

  /** What `handle_socks4` owes for a stream: one reply of eight octets, or none for a request it could not read. */
  ghost predicate Granted(stream: seq<byte>, dial: (Host, port) -> bool, r: Result<Request, Error>, reply: seq<byte>,
                          unread: seq<byte>) {
    match r
    case Ok(request) => Decides(stream, r, unread) && dial(request.host, request.port) && IsReply(reply, true)
    case Err(Unreachable) => (exists h, p, n :: IsRequest(stream, h, p, n) && !dial(h, p)) && IsReply(reply, false)
    case Err(UnsupportedCommand) => Decides(stream, r, unread) && IsReply(reply, false)
    case Err(_) => Decides(stream, r, unread) && reply == []
  }

  /**
   * `handle_socks4` behind the version byte: the request, the dial, and the only reply that either
   * leads to.
   */
  method HandleSocks4(source: ByteSource<byte>, dial: (Host, port) -> bool)
    returns (r: Result<Request, Error>, reply: seq<byte>)
    modifies source
    ensures Granted(old(source.unread), dial, r, reply, source.unread)
    ensures r != Err(Unreachable) ==> Answers(old(source.unread), r, source.unread)
  {
    hide Answers, IsRequest, EndsBehind;
    ghost var stream := source.unread;
    r, reply := ReadRequest(source);
    if r.Ok? {
      if dial(r.value.host, r.value.port) {
        reply := SocksReply(0x5A);
      } else {
        ghost var n :| IsRequest(stream, r.value.host, r.value.port, n);
        r, reply := Err(Unreachable), SocksReply(0x5B);
      }
    }
  }

  // ---- Which error is reported ----

  /** The error of a request whose bytes behind the header come in `chunks`, if it is one. */
  function Verdict(chunks: seq<seq<byte>>, socks4a: bool): Option<Error> {
    match Loop([], chunks, socks4a)
    case Err(e) => Some(e)
    case Ok(found) => if WithinLimits(found.fields, socks4a) then None else Some(LimitError(found.fields))
  }

  /** What the loop returns for a stream, unless its fields end where the last permitted read may or may not reach. */
  lemma {:induction false} LoopFixed(buf: seq<byte>, chunks: seq<seq<byte>>, socks4a: bool)
    requires |buf| <= SOCKS4_HANDSHAKE_MAX_LEN + CHUNK
    requires forall k :: 0 <= k < |chunks| ==> 0 < |chunks[k]| <= CHUNK
    ensures var r, fields := Loop(buf, chunks, socks4a), FindFields(buf + Joined(chunks), socks4a);
            match fields
            case None =>
              r == Err(if |buf + Joined(chunks)| <= SOCKS4_HANDSHAKE_MAX_LEN then ConnectionClosed
                  else HandshakeTooLong)
            case Some(f) =>
              && (r == Err(HandshakeTooLong) || (r.Ok? && r.value.fields == f))
              && (Consumed(f) <= SOCKS4_HANDSHAKE_MAX_LEN + 1 ==> r.Ok?)
              && (SOCKS4_HANDSHAKE_MAX_LEN + CHUNK < Consumed(f) ==> r.Err?)
    decreases |chunks|
  {
    FindFieldsGrows(buf, Joined(chunks), socks4a);
    if chunks == [] {
      assert buf + [] == buf;
    } else {
      Associate(buf, chunks[0], Joined(chunks[1..]));
      if FindFields(buf, socks4a).None? && |buf| <= SOCKS4_HANDSHAKE_MAX_LEN {
        LoopFixed(buf + chunks[0], chunks[1..], socks4a);
      }
    }
  }

  /** The first 1024 bytes in full chunks and then one read of `n`: the loop decides on those 1024 + n bytes. */
  lemma LoopAtGuard(rest: seq<byte>, n: nat, socks4a: bool) returns (chunks: seq<seq<byte>>)
    requires 0 < n <= CHUNK && SOCKS4_HANDSHAKE_MAX_LEN + n <= |rest|
    requires FindFields(rest, socks4a).Some?
    requires SOCKS4_HANDSHAKE_MAX_LEN + 1 < Consumed(FindFields(rest, socks4a).value)
    ensures IsCut(chunks, rest)
    ensures Loop([], chunks, socks4a)
         == if SOCKS4_HANDSHAKE_MAX_LEN + n < Consumed(FindFields(rest, socks4a).value) then Err(HandshakeTooLong)
            else Ok(Found(FindFields(rest, socks4a).value, rest[..SOCKS4_HANDSHAKE_MAX_LEN + n]))
  {
    hide Joined, Loop, FindFields;
    var m := SOCKS4_HANDSHAKE_MAX_LEN;
    var taken: seq<seq<byte>> := [];
    var at := 0;
    ReachesStart(socks4a);
    NothingCut();
    while at < m + n
      invariant at <= m || at == m + n
      invariant at <= m ==> at % CHUNK == 0
      invariant IsCut(taken, rest[..at]) && Reaches(taken, rest[..at], socks4a)
    {
      var next := if at < m then at + CHUNK else m + n;
      PrefixFields(rest, at, socks4a);
      ReachesNext(taken, rest[..at], rest[at..next], socks4a);
      OneMore(taken, rest[..at], rest[at..next]);
      assert rest[..at] + rest[at..next] == rest[..next];
      taken, at := taken + [rest[at..next]], next;
    }
    chunks := taken + CutUp(rest[at..]);
    CutsJoin(taken, rest[..at], CutUp(rest[at..]), rest[at..]);
    assert rest[..at] + rest[at..] == rest;
    PrefixFields(rest, at, socks4a);
    LoopDecides(taken, rest[..at], CutUp(rest[at..]), socks4a);
  }

  /** A prefix shows the fields exactly when it reaches their end. */
  lemma PrefixFields(rest: seq<byte>, n: nat, socks4a: bool)
    requires n <= |rest| && FindFields(rest, socks4a).Some?
    ensures FindFields(rest[..n], socks4a)
         == if Consumed(FindFields(rest, socks4a).value) <= n then FindFields(rest, socks4a) else None
  {
    assert rest[..n] + rest[n..] == rest;
    FindFieldsGrows(rest[..n], rest[n..], socks4a);
  }

  /** The failures that a stream allows are exactly those that some way of cutting it produces. */
  lemma AllowedIsReached(e: Error, rest: seq<byte>, socks4a: bool)
    requires FindFields(rest, socks4a).Some? ==> !WithinLimits(FindFields(rest, socks4a).value, socks4a)
    ensures FailureAllowed(e, rest, socks4a) <==>
        exists chunks :: IsCut(chunks, rest) && Verdict(chunks, socks4a) == Some(e)
  {
    if FailureAllowed(e, rest, socks4a) {
      var chunks := CutFor(e, rest, socks4a);
    }
    forall chunks | IsCut(chunks, rest) && Verdict(chunks, socks4a) == Some(e)
      ensures FailureAllowed(e, rest, socks4a)
    {
      VerdictAllowed(chunks, rest, socks4a);
    }
  }

  lemma VerdictAllowed(chunks: seq<seq<byte>>, rest: seq<byte>, socks4a: bool)
    requires IsCut(chunks, rest)
    ensures Verdict(chunks, socks4a).Some? ==> FailureAllowed(Verdict(chunks, socks4a).value, rest, socks4a)
  {
    hide Loop, FindFields, Joined;
    LoopFixed([], chunks, socks4a);
    assert [] + Joined(chunks) == rest;
  }

  lemma CutFor(e: Error, rest: seq<byte>, socks4a: bool) returns (chunks: seq<seq<byte>>)
    requires FindFields(rest, socks4a).Some? ==> !WithinLimits(FindFields(rest, socks4a).value, socks4a)
    requires FailureAllowed(e, rest, socks4a)
    ensures IsCut(chunks, rest) && Verdict(chunks, socks4a) == Some(e)
  {
    hide Loop, FindFields, Joined;
    chunks := CutUp(rest);
    LoopFixed([], chunks, socks4a);
    assert [] + Joined(chunks) == rest;
    if FindFields(rest, socks4a).Some? {
      var f := FindFields(rest, socks4a).value;
      if SOCKS4_HANDSHAKE_MAX_LEN + 1 < Consumed(f) <= SOCKS4_HANDSHAKE_MAX_LEN + CHUNK {
        var n := if e == HandshakeTooLong then 1 else Consumed(f) - SOCKS4_HANDSHAKE_MAX_LEN;
        chunks := LoopAtGuard(rest, n, socks4a);
      }
    }
  }

  /**
   * Which error is reported, if any, is independent of how the reads fell exactly when the fields
   * never end, end by byte 1025, or end behind byte 1280.
   */
  lemma ErrorIndependentOfReads(rest: seq<byte>, socks4a: bool)
    ensures (forall a, b :: IsCut(a, rest) && IsCut(b, rest) ==> Verdict(a, socks4a) == Verdict(b, socks4a))
       <==> (match FindFields(rest, socks4a)
             case None => true
             case Some(f) =>
               Consumed(f) <= SOCKS4_HANDSHAKE_MAX_LEN + 1 || SOCKS4_HANDSHAKE_MAX_LEN + CHUNK < Consumed(f))
  {
    hide Loop, FindFields, Joined;
    forall chunks | IsCut(chunks, rest)
      ensures FindFields(rest, socks4a).None? ==>
        Verdict(chunks, socks4a)
            == Some(if |rest| <= SOCKS4_HANDSHAKE_MAX_LEN then ConnectionClosed else HandshakeTooLong)
      ensures FindFields(rest, socks4a).Some? ==> FixedVerdict(chunks, FindFields(rest, socks4a).value, socks4a)
    {
      LoopFixed([], chunks, socks4a);
      assert [] + Joined(chunks) == rest;
    }
    if FindFields(rest, socks4a).Some? {
      var f := FindFields(rest, socks4a).value;
      if SOCKS4_HANDSHAKE_MAX_LEN + 1 < Consumed(f) <= SOCKS4_HANDSHAKE_MAX_LEN + CHUNK {
        var a, b := TwoErrors(rest, socks4a);
      }
    }
  }

  predicate FixedVerdict(chunks: seq<seq<byte>>, f: Fields, socks4a: bool) {
    && (Consumed(f) <= SOCKS4_HANDSHAKE_MAX_LEN + 1 ==>
          Verdict(chunks, socks4a) == if WithinLimits(f, socks4a) then None else Some(LimitError(f)))
    && (SOCKS4_HANDSHAKE_MAX_LEN + CHUNK < Consumed(f) ==> Verdict(chunks, socks4a) == Some(HandshakeTooLong))
  }

  /** In between, one cut of the same bytes is too long and another one breaks a limit. */
  lemma TwoErrors(rest: seq<byte>, socks4a: bool) returns (a: seq<seq<byte>>, b: seq<seq<byte>>)
    requires FindFields(rest, socks4a).Some?
    requires SOCKS4_HANDSHAKE_MAX_LEN + 1 < Consumed(FindFields(rest, socks4a).value)
    requires Consumed(FindFields(rest, socks4a).value) <= SOCKS4_HANDSHAKE_MAX_LEN + CHUNK
    ensures IsCut(a, rest) && Verdict(a, socks4a) == Some(HandshakeTooLong)
    ensures IsCut(b, rest) && Verdict(b, socks4a) == Some(LimitError(FindFields(rest, socks4a).value))
    ensures Verdict(a, socks4a) != Verdict(b, socks4a)
  {
    hide Loop, FindFields, Joined;
    var f := FindFields(rest, socks4a).value;
    LimitsBreak(rest, socks4a);
    a := LoopAtGuard(rest, 1, socks4a);
    b := LoopAtGuard(rest, Consumed(f) - SOCKS4_HANDSHAKE_MAX_LEN, socks4a);
  }

  lemma LimitsBreak(rest: seq<byte>, socks4a: bool)
    requires FindFields(rest, socks4a).Some?
    ensures var f := FindFields(rest, socks4a).value;
            Consumed(f) <= |rest| && (MAX_USER_ID + MAX_DOMAIN + 2 < Consumed(f) ==> !WithinLimits(f, socks4a))
  {
  }

  /** A user id of 1100 bytes: too long as a whole for one client, as a user id for another. */
  lemma TwoErrorsExample(rest: seq<byte>) returns (a: seq<seq<byte>>, b: seq<seq<byte>>)
    requires |rest| == 1101 && rest[1100] == 0 && forall k :: 0 <= k < 1100 ==> rest[k] == 120
    ensures IsCut(a, rest) && Verdict(a, false) == Some(HandshakeTooLong)
    ensures IsCut(b, rest) && Verdict(b, false) == Some(UserIdTooLong)
  {
    ZeroFromAt(rest, 0, 1100);
    assert FindFields(rest, false) == Some(Fields(1100, 1100));
    a, b := TwoErrors(rest, false);
  }

  // ---- The requests a client can form ----

  function Header(p: port, ip: seq<byte>): seq<byte> {
    [1, (p / 256) as byte, (p % 256) as byte] + ip
  }

  /** What a client puts behind the header: the user id and, for SOCKS4a, the host name, zero-terminated. */
  function Trailer(userId: seq<byte>, host: Host): seq<byte> {
    match host
    case Ipv4(_) => userId + [0]
    case Domain(name) => userId + [0] + (name + [0])
  }

  predicate IsFieldText(s: seq<byte>, limit: nat) {
    0 !in s && |s| <= limit
  }

  /** `message` is a request for `host`: behind its version byte, with a user id within the limit. */
  ghost predicate Encodes(message: seq<byte>, host: Host, p: port) {
    exists ip, userId :: EncodedBy(message, host, p, ip, userId)
  }

  ghost predicate EncodedBy(message: seq<byte>, host: Host, p: port, ip: seq<byte>, userId: seq<byte>) {
    && |ip| == 4
    && IsFieldText(userId, MAX_USER_ID)
    && (match host
        case Ipv4(octets) => octets == ip && !IsSocks4a(ip)
        case Domain(name) => IsSocks4a(ip) && IsFieldText(name, MAX_DOMAIN))
    && message == Header(p, ip) + Trailer(userId, host)
  }

  lemma ZeroFromAt(s: seq<byte>, from: nat, i: nat)
    requires from <= i < |s| && s[i] == 0 && forall k :: from <= k < i ==> s[k] != 0
    ensures ZeroFrom(s, from) == Some(i)
  {
    var text, after := s[from..i], s[i + 1..];
    assert s[from..] == text + [0] + after;
    PositionOf(text, 0, after);
  }

  lemma AddressFields(userId: seq<byte>, tail: seq<byte>)
    requires 0 !in userId
    ensures FindFields(userId + [0] + tail, false) == Some(Fields(|userId|, |userId|))
  {
    ZeroFromAt(userId + [0] + tail, 0, |userId|);
  }

  lemma FieldsAt(rest: seq<byte>, u: nat, d: nat)
    requires u < |rest| && ZeroFrom(rest, 0) == Some(u) && ZeroFrom(rest, u + 1) == Some(d)
    ensures FindFields(rest, true) == Some(Fields(u, d))
  {
  }

  lemma DomainFields(userId: seq<byte>, name: seq<byte>, tail: seq<byte>)
    requires 0 !in userId && 0 !in name
    ensures FindFields(userId + [0] + (name + [0] + tail), true) == Some(Fields(|userId|, |userId| + 1 + |name|))
  {
    hide FindFields, ZeroFrom;
    var rest := userId + [0] + (name + [0] + tail);
    ZeroFromAt(rest, 0, |userId|);
    ZeroFromAt(rest, |userId| + 1, |userId| + 1 + |name|);
    FieldsAt(rest, |userId|, |userId| + 1 + |name|);
  }

  lemma DomainSlice(userId: seq<byte>, name: seq<byte>, tail: seq<byte>)
    ensures (userId + [0] + (name + [0] + tail))[|userId| + 1..|userId| + 1 + |name|] == name
  {
  }

  lemma ParseTrailer(ip: seq<byte>, p: port, userId: seq<byte>, host: Host, tail: seq<byte>)
    requires EncodedBy(Header(p, ip) + Trailer(userId, host), host, p, ip, userId)
    ensures ParseFields(ip, p, Trailer(userId, host) + tail) == Some(Parsed(host, p, |Trailer(userId, host)|))
  {
    hide Header, FindFields, ZeroFrom;
    match host
    case Ipv4(_) =>
      AddressFields(userId, tail);
    case Domain(name) =>
      Associate(userId + [0], name + [0], tail);
      DomainFields(userId, name, tail);
      DomainSlice(userId, name, tail);
  }

  lemma FieldsOfHeader(p: port, ip: seq<byte>, rest: seq<byte>)
    requires |ip| == 4
    ensures var stream := Header(p, ip) + rest;
            && stream[0] == 1 && FromBigEndian(stream[1], stream[2]) == p
            && stream[3..7] == ip && stream[7..] == rest
  {
  }

  lemma ParseHeaded(p: port, ip: seq<byte>, rest: seq<byte>)
    requires |ip| == 4
    ensures Parse(Header(p, ip) + rest)
         == match ParseFields(ip, p, rest)
            case None => None
            case Some(parsed) => Some(parsed.(length := HEADER_LEN + parsed.length))
  {
    FieldsOfHeader(p, ip, rest);
  }

  /** Every well-formed request is parsed to its own host, port and length, whatever follows it. */
  lemma ParseEncoded(message: seq<byte>, host: Host, p: port, tail: seq<byte>)
    requires Encodes(message, host, p)
    ensures Parse(message + tail) == Some(Parsed(host, p, |message|))
  {
    var ip, userId :| EncodedBy(message, host, p, ip, userId);
    ParseTrailer(ip, p, userId, host, tail);
    Associate(Header(p, ip), Trailer(userId, host), tail);
    ParseHeaded(p, ip, Trailer(userId, host) + tail);
  }

  lemma HeaderOfStream(stream: seq<byte>)
    requires HEADER_LEN <= |stream| && stream[0] == 1
    ensures stream[..HEADER_LEN] == Header(FromBigEndian(stream[1], stream[2]), stream[3..7])
  {
  }

  lemma TextFrom(rest: seq<byte>, from: nat) returns (text: seq<byte>)
    requires from <= |rest| && ZeroFrom(rest, from).Some?
    ensures text == rest[from..ZeroFrom(rest, from).value] && 0 !in text
    ensures rest[..ZeroFrom(rest, from).value + 1] == rest[..from] + (text + [0])
  {
    var i := Position(rest[from..], 0).value;
    PositionIsFirst(rest[from..], 0);
    text := rest[from..][..i];
    assert rest[..from + i + 1] == rest[..from] + rest[from..][..i + 1];
    assert rest[from..][..i + 1] == text + [0];
  }

  lemma TrailerOfFields(ip: seq<byte>, p: port, rest: seq<byte>) returns (userId: seq<byte>)
    requires |ip| == 4 && ParseFields(ip, p, rest).Some?
    ensures var parsed := ParseFields(ip, p, rest).value;
            && rest[..parsed.length] == Trailer(userId, parsed.host)
            && EncodedBy(Header(p, ip) + Trailer(userId, parsed.host), parsed.host, p, ip, userId)
  {
    userId := TextFrom(rest, 0);
    assert rest[..0] + (userId + [0]) == userId + [0];
    if IsSocks4a(ip) {
      var name := TextFrom(rest, |userId| + 1);
    }
  }

  /** Only well-formed requests are parsed: what was consumed encodes the result. */
  lemma ParsedIsEncoded(stream: seq<byte>)
    requires Parse(stream).Some?
    ensures var parsed := Parse(stream).value;
            Encodes(stream[..parsed.length], parsed.host, parsed.port)
  {
    var ip, p, rest := stream[3..7], FromBigEndian(stream[1], stream[2]), stream[7..];
    var userId := TrailerOfFields(ip, p, rest);
    HeaderOfStream(stream);
    var n := ParseFields(ip, p, rest).value.length;
    assert stream[..HEADER_LEN + n] == stream[..HEADER_LEN] + rest[..n];
    assert EncodedBy(stream[..HEADER_LEN + n], Parse(stream).value.host, p, ip, userId);
  }
}
