/**
 * `http_connect` in src/proxy_client.rs against `handle_http` in src/proxy_server.rs over two byte
 * channels that stay open: writes and reads move any number of bytes and interleave freely.  Each
 * look at a buffer is the whole search, to which `HeadReader` reduces the resumed one.
 */
module HttpChannel {
  import opened Basics
  import opened HeadReader
  import opened HeaderSearch
  import opened HttpConnect

  /**
   * What the client wants, whether the target answers the dial, what the client's side says once the
   * tunnel is open, and what the target says.
   */
  datatype Conv = Conv(target: Target, reachable: bool, upload: string, banner: string)

  /** A tunnel is the relay behind a good handshake: what it still has to send, and what it has got. */
  datatype Client =
    | Sending(left: string)
    | Awaiting(buf: string)
    | ClientTunnel(left: string, got: string)
    | ClientFailed(error: ClientError)

  datatype Server =
    | Receiving(buf: string)
    | Dialing(target: Target, leftover: string)
    | Replying(left: string, target: Target, leftover: string)
    | ServerTunnel(target: Target, left: string, got: string)
    | Shut

  datatype System = System(client: Client, server: Server, up: string, down: string)

  function Initial(v: Conv): System {
    System(Sending(ConnectRequest(v.target)), Receiving(""), "", "")
  }

  /** The server's look at its buffer after a read. */
  function ServerLooks(buf: string): Server {
    match Search(buf)
    case Some(end) =>
      if HTTP_HEADER_MAX_LEN < end then Shut
      else
        (match ParseConnect(buf[..end])
         case Ok(target) => Dialing(target, buf[end..])
         case Err(_) => Shut)
    case None => if HTTP_HEADER_MAX_LEN < |buf| then Shut else Receiving(buf)
  }

  /** The client's look; what came with the reply is delivered before anything else. */
  function ClientLooks(v: Conv, buf: string): Client {
    match Search(buf)
    case Some(end) =>
      if CONNECT_RESPONSE_MAX_LEN < end then ClientFailed(BadReply(TooLong))
      else
        (match CheckReply(buf[..end])
         case None => ClientTunnel(v.upload, buf[end..])
         case Some(e) => ClientFailed(e))
    case None => if CONNECT_RESPONSE_MAX_LEN < |buf| then ClientFailed(BadReply(TooLong)) else Awaiting(buf)
  }

  function Reply(v: Conv): string {
    if v.reachable then ESTABLISHED else BAD_GATEWAY
  }

  /** After a good reply the relay starts, with the leftover of the handshake delivered first. */
  function AfterReply(v: Conv, target: Target, leftover: string): Server {
    if v.reachable then ServerTunnel(target, v.banner, leftover) else Shut
  }

  predicate ClientHasMore(c: Client) {
    (c.Sending? || c.ClientTunnel?) && c.left != ""
  }

  predicate ServerHasMore(s: Server) {
    (s.Replying? || s.ServerTunnel?) && s.left != ""
  }

  function ClientAfterWrite(c: Client, n: nat): Client
    requires ClientHasMore(c) && n <= |c.left|
  {
    if c.Sending? && n == |c.left| then Awaiting("") else c.(left := c.left[n..])
  }

  function ServerAfterWrite(v: Conv, s: Server, n: nat): Server
    requires ServerHasMore(s) && n <= |s.left|
  {
    if s.Replying? && n == |s.left| then AfterReply(v, s.target, s.leftover) else s.(left := s.left[n..])
  }

  function ClientAfterRead(v: Conv, c: Client, piece: string): Client
    requires c.Awaiting? || c.ClientTunnel?
  {
    if c.Awaiting? then ClientLooks(v, c.buf + piece) else c.(got := c.got + piece)
  }

  function ServerAfterRead(s: Server, piece: string): Server
    requires s.Receiving? || s.ServerTunnel?
  {
    if s.Receiving? then ServerLooks(s.buf + piece) else s.(got := s.got + piece)
  }

  predicate ClientWrites(x: System, n: nat, y: System) {
    && ClientHasMore(x.client) && 1 <= n <= |x.client.left|
    && y == x.(client := ClientAfterWrite(x.client, n), up := x.up + x.client.left[..n])
  }

  predicate ServerReads(x: System, n: nat, y: System) {
    && (x.server.Receiving? || x.server.ServerTunnel?) && 1 <= n <= |x.up|
    && (x.server.Receiving? ==> n <= CHUNK)
    && y == x.(server := ServerAfterRead(x.server, x.up[..n]), up := x.up[n..])
  }

  predicate ServerDials(v: Conv, x: System, y: System) {
    x.server.Dialing? && y == x.(server := Replying(Reply(v), x.server.target, x.server.leftover))
  }

  predicate ServerWrites(v: Conv, x: System, n: nat, y: System) {
    && ServerHasMore(x.server) && 1 <= n <= |x.server.left|
    && y == x.(server := ServerAfterWrite(v, x.server, n), down := x.down + x.server.left[..n])
  }

  predicate ClientReads(v: Conv, x: System, n: nat, y: System) {
    && (x.client.Awaiting? || x.client.ClientTunnel?) && 1 <= n <= |x.down|
    && (x.client.Awaiting? ==> n <= CHUNK)
    && y == x.(client := ClientAfterRead(v, x.client, x.down[..n]), down := x.down[n..])
  }

  /** A server that gave up has closed; once its bytes are used up the client reads end of stream. */
  predicate ClientSeesEnd(x: System, y: System) {
    x.client.Awaiting? && x.down == "" && x.server.Shut? && y == x.(client := ClientFailed(BadReply(Closed)))
  }

  ghost predicate Step(v: Conv, x: System, y: System) {
    || (exists n :: ClientWrites(x, n, y))
    || (exists n :: ServerReads(x, n, y))
    || ServerDials(v, x, y)
    || (exists n :: ServerWrites(v, x, n, y))
    || (exists n :: ClientReads(v, x, n, y))
    || ClientSeesEnd(x, y)
  }

  // ---- The two scripts ----

  /** All that is said upward and downward, and how much of it is the handshake. */
  datatype Scripts = Scripts(up: string, request: nat, down: string, reply: nat)

  function ScriptsOf(v: Conv): Scripts {
    Scripts(ConnectRequest(v.target) + (if v.reachable then v.upload else ""), |ConnectRequest(v.target)|,
            Reply(v) + (if v.reachable then v.banner else ""), |Reply(v)|)
  }

  function Seen(v: Conv): Target {
    Target(Unbracketed(v.target.host), v.target.port)
  }

  /** The server sees the head exactly when it has all of the request. */
  predicate RequestAt(v: Conv, t: Scripts, n: nat)
    requires n <= t.request <= |t.up|
  {
    ServerLooks(t.up[..n]) == if n < t.request then Receiving(t.up[..n]) else Dialing(Seen(v), "")
  }

  /** The client sees the reply as soon as it has all of it, and keeps what comes with it. */
  predicate ReplyAt(v: Conv, t: Scripts, n: nat)
    requires t.reply <= |t.down| && n <= |t.down|
  {
    ClientLooks(v, t.down[..n])
    == if n < t.reply then Awaiting(t.down[..n])
       else if v.reachable then ClientTunnel(v.upload, t.down[t.reply..n])
       else ClientFailed(Refused(502))
  }

  ghost predicate RequestSeen(v: Conv, t: Scripts)
    requires t.request <= |t.up|
  {
    forall n :: 0 < n <= t.request ==> RequestAt(v, t, n)
  }

  ghost predicate ReplySeen(v: Conv, t: Scripts)
    requires t.reply <= |t.down|
  {
    forall n :: 0 < n <= |t.down| ==> ReplyAt(v, t, n)
  }

  /** What the proofs need to know about the scripts. */
  ghost predicate Shaped(v: Conv, t: Scripts) {
    && 0 < t.request <= |t.up| && 0 < t.reply <= |t.down|
    && t.up[..t.request] == ConnectRequest(v.target) && t.up[t.request..] == (if v.reachable then v.upload else "")
    && t.down[..t.reply] == Reply(v) && t.down[t.reply..] == (if v.reachable then v.banner else "")
    && RequestSeen(v, t) && ReplySeen(v, t)
  }

  lemma ServerLooksAt(v: Conv, request: string, n: nat)
    requires Search(request) == Some(|request|) && ParseConnect(request) == Ok(Seen(v))
    requires 0 < n <= |request| <= HTTP_HEADER_MAX_LEN
    ensures ServerLooks(request[..n]) == if n < |request| then Receiving(request[..n]) else Dialing(Seen(v), "")
  {
    hide Search, ParseConnect;
    SearchPrefix(request, n);
    assert request[..|request|] == request && request[|request|..] == "";
  }

  lemma ClientLooksAt(v: Conv, reply: string, down: string, n: nat)
    requires Search(down) == Some(|reply|) && |reply| <= |down| && down[..|reply|] == reply
    requires CheckReply(reply) == if v.reachable then None else Some(Refused(502))
    requires 0 < n <= |down| && |reply| <= CONNECT_RESPONSE_MAX_LEN
    ensures ClientLooks(v, down[..n])
         == if n < |reply| then Awaiting(down[..n])
            else if v.reachable then ClientTunnel(v.upload, down[|reply|..n])
            else ClientFailed(Refused(502))
  {
    hide Search, CheckReply;
    SearchPrefix(down, n);
    if |reply| <= n {
      assert down[..n][..|reply|] == reply;
      assert down[..n][|reply|..] == down[|reply|..n];
    }
  }

  lemma PrefixOf(a: string, b: string, n: nat)
    requires n <= |a|
    ensures (a + b)[..n] == a[..n]
  {
  }

  lemma ScriptsShaped(v: Conv)
    requires Transmissible(v.target.host) && IsAscii(v.target.host) && |ConnectRequest(v.target)| <= HTTP_HEADER_MAX_LEN
    ensures Shaped(v, ScriptsOf(v))
  {
    hide Transmissible, ConnectRequest, ServerLooks, ClientLooks, Reply;
    RequestShaped(v);
    ReplyShaped(v);
    var t, request := ScriptsOf(v), ConnectRequest(v.target);
    var upload := if v.reachable then v.upload else "";
    Halves(request, upload);
    forall n | 0 < n <= t.request
      ensures RequestAt(v, t, n)
    {
      ServerLooksAt(v, request, n);
      PrefixOf(request, upload, n);
    }
    forall n | 0 < n <= |t.down|
      ensures ReplyAt(v, t, n)
    {
      ClientLooksAt(v, Reply(v), t.down, n);
    }
  }

  lemma RequestShaped(v: Conv)
    requires Transmissible(v.target.host) && IsAscii(v.target.host)
    ensures var r := ConnectRequest(v.target);
            0 < |r| && Search(r) == Some(|r|) && ParseConnect(r) == Ok(Seen(v))
  {
    RequestIsOneHead(v.target, "");
    hide Transmissible, ConnectRequest, ParseConnect, Search, HeadOf;
    assert ConnectRequest(v.target) + "" == ConnectRequest(v.target);
    ChainedConnect(v.target, "");
  }

  lemma ReplyShaped(v: Conv)
    ensures var reply, rest := Reply(v), if v.reachable then v.banner else "";
            && 0 < |reply| <= CONNECT_RESPONSE_MAX_LEN
            && Search(reply + rest) == Some(|reply|)
            && (reply + rest)[..|reply|] == reply && (reply + rest)[|reply|..] == rest
            && CheckReply(reply) == if v.reachable then None else Some(Refused(502))
  {
    hide CheckReply, Search;
    var rest := if v.reachable then v.banner else "";
    Halves(Reply(v), rest);
    if v.reachable {
      EstablishedAccepted(rest);
    } else {
      BadGatewayRefused(rest);
    }
  }

  predicate ServerFits(v: Conv, t: Scripts, s: Server) {
    match s
    case Receiving(buf) => |buf| < t.request <= |t.up| && buf == t.up[..|buf|]
    case Dialing(target, leftover) => target == Seen(v) && leftover == ""
    case Replying(left, target, leftover) =>
      && target == Seen(v) && leftover == ""
      && 0 < |left| <= t.reply <= |t.down| && left == t.down[t.reply - |left|..t.reply]
    case ServerTunnel(target, left, got) =>
      && v.reachable && target == Seen(v)
      && |left| <= |t.down| - t.reply && left == t.down[|t.down| - |left|..|t.down|]
      && t.request + |got| <= |t.up| && got == t.up[t.request..t.request + |got|]
    case Shut => !v.reachable
  }

  predicate ClientFits(v: Conv, t: Scripts, c: Client) {
    match c
    case Sending(left) => 0 < |left| <= t.request <= |t.up| && left == t.up[t.request - |left|..t.request]
    case Awaiting(buf) => |buf| < t.reply <= |t.down| && buf == t.down[..|buf|]
    case ClientTunnel(left, got) =>
      && v.reachable
      && |left| <= |t.up| - t.request && left == t.up[|t.up| - |left|..|t.up|]
      && t.reply + |got| <= |t.down| && got == t.down[t.reply..t.reply + |got|]
    case ClientFailed(e) => !v.reachable && e == Refused(502)
  }

  function Said(t: Scripts, c: Client): int {
    match c
    case Sending(left) => t.request - |left|
    case ClientTunnel(left, _) => |t.up| - |left|
    case _ => t.request
  }

  function ReadSoFar(t: Scripts, s: Server): int {
    match s
    case Receiving(buf) => |buf|
    case ServerTunnel(_, _, got) => t.request + |got|
    case _ => t.request
  }

  function Written(t: Scripts, s: Server): int {
    match s
    case Receiving(_) => 0
    case Dialing(_, _) => 0
    case Replying(left, _, _) => t.reply - |left|
    case ServerTunnel(_, left, _) => |t.down| - |left|
    case Shut => |t.down|
  }

  function Heard(t: Scripts, c: Client): int {
    match c
    case Sending(_) => 0
    case Awaiting(buf) => |buf|
    case ClientTunnel(_, got) => t.reply + |got|
    case ClientFailed(_) => t.reply
  }

  /** Each channel holds exactly what was said on it and not yet heard. */
  predicate Inv(v: Conv, t: Scripts, x: System) {
    && ClientFits(v, t, x.client) && ServerFits(v, t, x.server)
    && 0 <= ReadSoFar(t, x.server) <= Said(t, x.client) <= |t.up|
    && x.up == t.up[ReadSoFar(t, x.server)..Said(t, x.client)]
    && 0 <= Heard(t, x.client) <= Written(t, x.server) <= |t.down|
    && x.down == t.down[Heard(t, x.client)..Written(t, x.server)]
  }

  /** Work left: bytes to be said and heard, and the steps that move none. */
  function Remaining(t: Scripts, x: System): int {
    2 * (2 * |t.up| - ReadSoFar(t, x.server) - Said(t, x.client)
         + 2 * |t.down| - Written(t, x.server) - Heard(t, x.client))
    + (if x.server.Receiving? || x.server.Dialing? then 1 else 0)
  }

  // ---- Every step keeps it ----

  lemma Join(script: string, i: nat, j: nat, k: nat)
    requires i <= j <= k <= |script|
    ensures script[i..j] + script[j..k] == script[i..k]
  {
  }

  lemma Cut(script: string, i: nat, j: nat, n: nat)
    requires i <= j <= |script| && n <= j - i
    ensures script[i..j][..n] == script[i..i + n]
    ensures script[i..j][n..] == script[i + n..j]
  {
  }

  lemma ClientWritesPiece(v: Conv, t: Scripts, c: Client, n: nat)
    requires Shaped(v, t) && ClientFits(v, t, c) && ClientHasMore(c) && 1 <= n <= |c.left|
    ensures var j, next := Said(t, c), ClientAfterWrite(c, n);
            && 0 <= j && j + n <= |t.up| && c.left[..n] == t.up[j..j + n]
            && ClientFits(v, t, next) && Said(t, next) == j + n && Heard(t, next) == Heard(t, c)
  {
    hide RequestSeen, ReplySeen, Reply, ConnectRequest;
    var j := Said(t, c);
    Cut(t.up, j, j + |c.left|, n);
  }

  lemma ClientWritesKeeps(v: Conv, t: Scripts, x: System, n: nat, y: System)
    requires Shaped(v, t) && Inv(v, t, x) && ClientWrites(x, n, y)
    ensures Inv(v, t, y) && Remaining(t, y) < Remaining(t, x)
  {
    hide ClientFits, ServerFits, Shaped, ClientAfterWrite, Said, Heard, ReadSoFar, Written;
    ClientWritesPiece(v, t, x.client, n);
    var j := Said(t, x.client);
    Join(t.up, ReadSoFar(t, x.server), j, j + n);
  }

  lemma ServerReadsPiece(v: Conv, t: Scripts, s: Server, n: nat)
    requires Shaped(v, t) && ServerFits(v, t, s) && (s.Receiving? || s.ServerTunnel?) && 1 <= n
    requires ReadSoFar(t, s) + n <= |t.up| && (s.Receiving? ==> ReadSoFar(t, s) + n <= t.request)
    ensures var i := ReadSoFar(t, s);
            var next := ServerAfterRead(s, t.up[i..i + n]);
            && ServerFits(v, t, next) && ReadSoFar(t, next) == i + n && Written(t, next) == Written(t, s)
            && (next.Receiving? || next.Dialing? <==> s.Receiving?)
  {
    hide ReplySeen, Reply, ConnectRequest, ServerLooks;
    var i := ReadSoFar(t, s);
    if s.Receiving? {
      Join(t.up, 0, i, i + n);
      assert RequestAt(v, t, i + n);
    } else {
      Join(t.up, t.request, i, i + n);
    }
  }

  /** Until the server has replied, all that was said is the request. */
  lemma OnlyRequestSaid(v: Conv, t: Scripts, x: System)
    requires Shaped(v, t) && Inv(v, t, x) && x.server.Receiving?
    ensures Said(t, x.client) <= t.request
  {
    hide RequestSeen, ReplySeen, Reply, ConnectRequest;
  }

  lemma ServerReadsKeeps(v: Conv, t: Scripts, x: System, n: nat, y: System)
    requires Shaped(v, t) && Inv(v, t, x) && ServerReads(x, n, y)
    ensures Inv(v, t, y) && Remaining(t, y) < Remaining(t, x)
  {
    hide ClientFits, ServerFits, Shaped, ServerAfterRead, Said, Heard, ReadSoFar, Written;
    if x.server.Receiving? {
      OnlyRequestSaid(v, t, x);
    }
    Cut(t.up, ReadSoFar(t, x.server), Said(t, x.client), n);
    ServerReadsPiece(v, t, x.server, n);
  }

  lemma ServerDialsKeeps(v: Conv, t: Scripts, x: System, y: System)
    requires Shaped(v, t) && Inv(v, t, x) && ServerDials(v, x, y)
    ensures Inv(v, t, y) && Remaining(t, y) < Remaining(t, x)
  {
    hide ClientFits, RequestSeen, ReplySeen, Reply, ConnectRequest;
  }

  lemma ServerWritesPiece(v: Conv, t: Scripts, s: Server, n: nat)
    requires Shaped(v, t) && ServerFits(v, t, s) && ServerHasMore(s) && 1 <= n <= |s.left|
    ensures var k, next := Written(t, s), ServerAfterWrite(v, s, n);
            && 0 <= k && k + n <= |t.down| && s.left[..n] == t.down[k..k + n]
            && ServerFits(v, t, next) && Written(t, next) == k + n && ReadSoFar(t, next) == ReadSoFar(t, s)
            && !next.Receiving? && !next.Dialing?
  {
    hide Shaped, AfterReply, ServerFits;
    AfterReplyFits(v, t);
    if s.Replying? {
      ReplyPiece(v, t, s, n);
    } else {
      BannerPiece(v, t, s, n);
    }
  }

  lemma ReplyPiece(v: Conv, t: Scripts, s: Server, n: nat)
    requires ServerFits(v, t, s) && s.Replying? && 1 <= n <= |s.left|
    ensures var k := Written(t, s);
            && 0 <= k && k + n <= t.reply <= |t.down| && s.left[..n] == t.down[k..k + n]
            && s.target == Seen(v) && s.leftover == "" && (n == |s.left| ==> k + n == t.reply)
            && (n < |s.left| ==> ServerFits(v, t, Replying(s.left[n..], s.target, s.leftover)))
  {
    Cut(t.down, t.reply - |s.left|, t.reply, n);
  }

  lemma BannerPiece(v: Conv, t: Scripts, s: Server, n: nat)
    requires t.reply <= |t.down| && ServerFits(v, t, s) && s.ServerTunnel? && 1 <= n <= |s.left|
    ensures var k := Written(t, s);
            && 0 <= k && k + n <= |t.down| && s.left[..n] == t.down[k..k + n]
            && ServerFits(v, t, ServerTunnel(s.target, s.left[n..], s.got))
  {
    Cut(t.down, |t.down| - |s.left|, |t.down|, n);
  }

  lemma AfterReplyFits(v: Conv, t: Scripts)
    requires Shaped(v, t)
    ensures var next := AfterReply(v, Seen(v), "");
            && ServerFits(v, t, next) && Written(t, next) == t.reply && ReadSoFar(t, next) == t.request
            && !next.Receiving? && !next.Dialing? && 0 < t.reply <= |t.down|
  {
    hide RequestSeen, ReplySeen, Reply, ConnectRequest;
  }

  lemma ServerWritesKeeps(v: Conv, t: Scripts, x: System, n: nat, y: System)
    requires Shaped(v, t) && Inv(v, t, x) && ServerWrites(v, x, n, y)
    ensures Inv(v, t, y) && Remaining(t, y) < Remaining(t, x)
  {
    hide ClientFits, ServerFits, Shaped, ServerAfterWrite, Said, Heard, ReadSoFar, Written;
    ServerWritesPiece(v, t, x.server, n);
    var k := Written(t, x.server);
    Join(t.down, Heard(t, x.client), k, k + n);
  }

  lemma ClientReadsPiece(v: Conv, t: Scripts, c: Client, n: nat)
    requires Shaped(v, t) && ClientFits(v, t, c) && (c.Awaiting? || c.ClientTunnel?) && 1 <= n
    requires Heard(t, c) + n <= |t.down|
    ensures var m := Heard(t, c);
            var next := ClientAfterRead(v, c, t.down[m..m + n]);
            ClientFits(v, t, next) && Heard(t, next) == m + n && Said(t, next) == Said(t, c)
  {
    hide RequestSeen, Reply, ConnectRequest, ClientLooks;
    var m := Heard(t, c);
    if c.Awaiting? {
      Join(t.down, 0, m, m + n);
      assert ReplyAt(v, t, m + n);
    } else {
      Join(t.down, t.reply, m, m + n);
    }
  }

  lemma ClientReadsKeeps(v: Conv, t: Scripts, x: System, n: nat, y: System)
    requires Shaped(v, t) && Inv(v, t, x) && ClientReads(v, x, n, y)
    ensures Inv(v, t, y) && Remaining(t, y) < Remaining(t, x)
  {
    hide ClientFits, ServerFits, Shaped, ClientAfterRead, Said, Heard, ReadSoFar, Written;
    Cut(t.down, Heard(t, x.client), Written(t, x.server), n);
    ClientReadsPiece(v, t, x.client, n);
  }

  /** A server that gave up has answered before, so the client never meets the end of the stream. */
  lemma NeverSeesEnd(v: Conv, t: Scripts, x: System, y: System)
    requires Shaped(v, t) && Inv(v, t, x)
    ensures !ClientSeesEnd(x, y)
  {
    hide RequestSeen, ReplySeen, Reply, ConnectRequest;
  }

  lemma StepKeeps(v: Conv, t: Scripts, x: System, y: System)
    requires Shaped(v, t) && Inv(v, t, x) && Step(v, x, y)
    ensures Inv(v, t, y) && Remaining(t, y) < Remaining(t, x)
  {
    hide Inv, Shaped, Remaining, ClientWrites, ServerReads, ServerDials, ServerWrites, ClientReads, ClientSeesEnd;
    NeverSeesEnd(v, t, x, y);
    if n :| ClientWrites(x, n, y) {
      ClientWritesKeeps(v, t, x, n, y);
    } else if n :| ServerReads(x, n, y) {
      ServerReadsKeeps(v, t, x, n, y);
    } else if n :| ServerWrites(v, x, n, y) {
      ServerWritesKeeps(v, t, x, n, y);
    } else if n :| ClientReads(v, x, n, y) {
      ClientReadsKeeps(v, t, x, n, y);
    } else {
      ServerDialsKeeps(v, t, x, y);
    }
  }

  // ---- Whole runs ----

  lemma InitialInv(v: Conv, t: Scripts)
    requires Shaped(v, t) && t == ScriptsOf(v)
    ensures Inv(v, t, Initial(v))
  {
    hide RequestSeen, ReplySeen, Reply, ConnectRequest;
  }

  ghost predicate IsRun(v: Conv, run: seq<System>) {
    && run != [] && run[0] == Initial(v)
    && forall i :: 0 <= i < |run| - 1 ==> Step(v, run[i], run[i + 1])
  }

  /** Every reachable state has its place in the two scripts, and no run is longer than the work they hold. */
  lemma {:induction false} RunInv(v: Conv, t: Scripts, run: seq<System>, i: nat)
    requires Shaped(v, t) && t == ScriptsOf(v) && IsRun(v, run) && i < |run|
    ensures Inv(v, t, run[i]) && i + Remaining(t, run[i]) <= Remaining(t, run[0])
  {
    hide Step, Shaped, ScriptsOf, Initial, Inv, Remaining;
    if i > 0 {
      RunInv(v, t, run, i - 1);
      StepKeeps(v, t, run[i - 1], run[i]);
    } else {
      InitialInv(v, t);
    }
  }

  /** Nothing is left to say or to hear. */
  predicate Finished(x: System) {
    && x.up == "" && x.down == ""
    && (x.client.ClientFailed? || (x.client.ClientTunnel? && x.client.left == ""))
    && (x.server.Shut? || (x.server.ServerTunnel? && x.server.left == ""))
  }

  lemma InFlight(v: Conv, t: Scripts, x: System)
    requires Inv(v, t, x)
    ensures ClientFits(v, t, x.client) && ServerFits(v, t, x.server)
    ensures |x.up| == Said(t, x.client) - ReadSoFar(t, x.server)
    ensures |x.down| == Written(t, x.server) - Heard(t, x.client)
  {
    hide ClientFits, ServerFits, Said, ReadSoFar, Written, Heard;
  }

  lemma ClientStands(v: Conv, t: Scripts, c: Client)
    requires Shaped(v, t) && ClientFits(v, t, c)
    ensures c.Sending? ==> ClientHasMore(c)
    ensures c.Awaiting? ==> Said(t, c) == t.request && Heard(t, c) < t.reply
    ensures c.ClientTunnel? ==> v.reachable && 0 < Heard(t, c)
    ensures c.ClientFailed? ==> !v.reachable && Said(t, c) == t.request && 0 < Heard(t, c) == t.reply == |t.down|
  {
    hide RequestSeen, ReplySeen, Reply, ConnectRequest;
  }

  lemma ServerStands(v: Conv, t: Scripts, s: Server)
    requires Shaped(v, t) && ServerFits(v, t, s)
    ensures s.Receiving? ==> ReadSoFar(t, s) < t.request && Written(t, s) == 0
    ensures s.Replying? ==> ServerHasMore(s)
    ensures s.ServerTunnel? ==> v.reachable && (s.left == "" ==> Written(t, s) == |t.down|)
    ensures s.Shut? ==> !v.reachable && ReadSoFar(t, s) == t.request && Written(t, s) == |t.down|
    ensures t.reply <= |t.down|
  {
    hide RequestSeen, ReplySeen, Reply, ConnectRequest;
  }

  /** A side that waits for the other one finds bytes unless the other one can write. */
  lemma SomethingToMove(v: Conv, t: Scripts, x: System)
    requires Shaped(v, t) && ClientFits(v, t, x.client) && ServerFits(v, t, x.server) && !Finished(x)
    requires |x.up| == Said(t, x.client) - ReadSoFar(t, x.server)
    requires |x.down| == Written(t, x.server) - Heard(t, x.client)
    ensures || ClientHasMore(x.client) || ServerHasMore(x.server) || x.server.Dialing?
            || ((x.server.Receiving? || x.server.ServerTunnel?) && x.up != "")
            || ((x.client.Awaiting? || x.client.ClientTunnel?) && x.down != "")
  {
    hide Shaped, ClientFits, ServerFits, Said, ReadSoFar, Written, Heard;
    ClientStands(v, t, x.client);
    ServerStands(v, t, x.server);
  }

  /** Unless all is said and heard one side can move: they never wait for each other. */
  lemma NoDeadlock(v: Conv, t: Scripts, x: System) returns (y: System)
    requires Shaped(v, t) && Inv(v, t, x) && !Finished(x)
    ensures Step(v, x, y)
  {
    InFlight(v, t, x);
    hide Inv, Shaped, ServerLooks, ClientLooks, ServerAfterWrite, ClientAfterWrite, ServerAfterRead, ClientAfterRead;
    hide Reply, ClientFits, ServerFits, Said, ReadSoFar, Written, Heard;
    SomethingToMove(v, t, x);
    if ClientHasMore(x.client) {
      y := x.(client := ClientAfterWrite(x.client, 1), up := x.up + x.client.left[..1]);
      assert ClientWrites(x, 1, y);
    } else if ServerHasMore(x.server) {
      y := x.(server := ServerAfterWrite(v, x.server, 1), down := x.down + x.server.left[..1]);
      assert ServerWrites(v, x, 1, y);
    } else if x.server.Dialing? {
      y := x.(server := Replying(Reply(v), x.server.target, x.server.leftover));
    } else if (x.server.Receiving? || x.server.ServerTunnel?) && x.up != "" {
      y := x.(server := ServerAfterRead(x.server, x.up[..1]), up := x.up[1..]);
      assert ServerReads(x, 1, y);
    } else {
      y := x.(client := ClientAfterRead(v, x.client, x.down[..1]), down := x.down[1..]);
      assert ClientReads(v, x, 1, y);
    }
  }

  /**
   * Every run of the exchange can go on or has finished.  In every state what a tunnel has got is a
   * prefix of what the other side says; in a finished one the server has dialed exactly the client's
   * target and both sides have got all of it, or the target could not be reached and the client was
   * told 502.
   */
  lemma ExchangeOutcome(v: Conv, run: seq<System>)
    requires Transmissible(v.target.host) && IsAscii(v.target.host) && |ConnectRequest(v.target)| <= HTTP_HEADER_MAX_LEN
    requires IsRun(v, run)
    ensures var x := run[|run| - 1];
            && (x.client.ClientTunnel? ==> v.reachable && x.client.got <= v.banner)
            && (x.server.ServerTunnel? ==> v.reachable && x.server.target == Seen(v) && x.server.got <= v.upload)
            && if Finished(x) then
                 if v.reachable then x.client == ClientTunnel("", v.banner)
                     && x.server == ServerTunnel(Seen(v), "", v.upload)
                 else x.client == ClientFailed(Refused(502)) && x.server == Shut
               else exists y :: Step(v, x, y)
  {
    hide Step, Transmissible, ConnectRequest;
    var t := ScriptsOf(v);
    ScriptsShaped(v);
    RunInv(v, t, run, |run| - 1);
    var x := run[|run| - 1];
    TunnelsGet(v, t, x);
    if Finished(x) {
      FinishedOutcome(v, t, x);
    } else {
      var y := NoDeadlock(v, t, x);
    }
  }

  lemma TunnelsGet(v: Conv, t: Scripts, x: System)
    requires Shaped(v, t) && Inv(v, t, x)
    ensures x.client.ClientTunnel? ==> v.reachable && x.client.got <= v.banner
    ensures x.server.ServerTunnel? ==> v.reachable && x.server.target == Seen(v) && x.server.got <= v.upload
  {
    hide RequestSeen, ReplySeen, Reply, ConnectRequest;
    if x.client.ClientTunnel? {
      Cut(t.down, t.reply, |t.down|, |x.client.got|);
    }
    if x.server.ServerTunnel? {
      Cut(t.up, t.request, |t.up|, |x.server.got|);
    }
  }

  lemma FinishedOutcome(v: Conv, t: Scripts, x: System)
    requires Shaped(v, t) && Inv(v, t, x) && Finished(x)
    ensures v.reachable ==> x.client == ClientTunnel("", v.banner) && x.server == ServerTunnel(Seen(v), "", v.upload)
    ensures !v.reachable ==> x.client == ClientFailed(Refused(502)) && x.server == Shut
  {
    hide RequestSeen, ReplySeen, Reply, ConnectRequest;
  }
}
