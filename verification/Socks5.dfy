/**
 * Two forwarders chained by SOCKS5 (sections 3 to 6 of RFC 1928): `socks5_connect` in
 * src/proxy_client.rs talks to `handle_socks5` in src/proxy_server.rs over two byte channels.
 * Writes and reads move any number of bytes at a time and interleave freely.
 */
module Socks5 {
  import opened Basics

  datatype Host = Ipv4(octets: seq<byte>) | Ipv6(octets: seq<byte>) | Name(text: seq<byte>)

  /** What dialing the target came to: the local address for the reply, or a reply code. */
  datatype Outcome = Connected(bound: Host, boundPort: port) | Failed(code: byte)

  /** One conversation: what the client wants, whether it may send names, how the dial will end. */
  datatype Conv = Conv(host: Host, port: port, remoteNames: bool, outcome: Outcome)

  predicate IsAddress(h: Host) {
    match h
    case Ipv4(octets) => |octets| == 4
    case Ipv6(octets) => |octets| == 16
    case Name(_) => false
  }

  predicate ValidConv(v: Conv) {
    && (v.host.Name? || IsAddress(v.host))
    && (match v.outcome
        case Connected(bound, _) => IsAddress(bound)
        case Failed(code) => code != 0)
  }

  // ---- Messages ----

  const GREETING: seq<byte> := [5, 1, 0]
  const NO_AUTHENTICATION: seq<byte> := [5, 0]
  const NOTHING_ACCEPTABLE: seq<byte> := [5, 255]

  function PortBytes(p: port): seq<byte> {
    [(p / 256) as byte, (p % 256) as byte]
  }

  function FromPortBytes(b: seq<byte>): port
    requires |b| == 2
  {
    256 * (b[0] as int) + b[1] as int
  }

  function AddressType(h: Host): byte {
    match h
    case Ipv4(_) => 1
    case Name(_) => 3
    case Ipv6(_) => 4
  }

  function AddressBytes(h: Host): seq<byte>
    requires h.Name? ==> |h.text| <= 255
  {
    match h
    case Ipv4(octets) => octets
    case Ipv6(octets) => octets
    case Name(text) => [|text| as byte] + text
  }

  function Message(code: byte, h: Host, p: port): seq<byte>
    requires h.Name? ==> |h.text| <= 255
  {
    [5, code, 0, AddressType(h)] + (AddressBytes(h) + PortBytes(p))
  }

  /** The part of a message behind its first three octets: address type, address and port, high octet first. */
  ghost predicate TargetOctets(m: seq<byte>, h: Host, p: port) {
    && (match h
        case Ipv4(octets) => |m| == 3 + |octets| && m[0] == 1 && m[1..1 + |octets|] == octets
        case Ipv6(octets) => |m| == 3 + |octets| && m[0] == 4 && m[1..1 + |octets|] == octets
        case Name(text) =>
          |m| == 4 + |text| && m[0] == 3 && m[1] as int == |text| && m[2..2 + |text|] == text)
    && p == 256 * (m[|m| - 2] as int) + m[|m| - 1] as int
  }

  /** A request (`code` is its command) or a reply, octet for octet. */
  ghost predicate MessageOctets(m: seq<byte>, code: byte, h: Host, p: port) {
    3 <= |m| && m[0] == 5 && m[1] == code && m[2] == 0 && TargetOctets(m[3..], h, p)
  }

  lemma TargetIs(h: Host, p: port)
    requires h.Name? ==> |h.text| <= 255
    ensures TargetOctets([AddressType(h)] + (AddressBytes(h) + PortBytes(p)), h, p)
  {
    var m, addr, last := [AddressType(h)] + (AddressBytes(h) + PortBytes(p)), AddressBytes(h), PortBytes(p);
    assert m[1..1 + |addr|] == addr;
    assert m[|m| - 2] == last[0] && m[|m| - 1] == last[1];
    if h.Name? {
      assert m[1] == addr[0] && m[2..2 + |h.text|] == addr[1..];
    }
  }

  lemma MessageIs(code: byte, h: Host, p: port)
    requires h.Name? ==> |h.text| <= 255
    ensures MessageOctets(Message(code, h, p), code, h, p)
  {
    hide AddressBytes, PortBytes, AddressType, TargetOctets;
    TargetIs(h, p);
    assert Message(code, h, p)[3..] == [AddressType(h)] + (AddressBytes(h) + PortBytes(p));
  }

  /** `send_error_reply`. */
  function FailureReply(code: byte): seq<byte> {
    Message(code, Ipv4([0, 0, 0, 0]), 0)
  }

  /** The client goes on to a request: addresses always, names only when the upstream resolves them. */
  predicate Asks(v: Conv) {
    v.host.Name? ==> v.remoteNames && |v.host.text| <= 255
  }

  /** The server takes names of 1 to 253 bytes. */
  predicate Accepts(h: Host) {
    h.Name? ==> 1 <= |h.text| <= 253
  }

  /** Everything the client says in this conversation. */
  function Upward(v: Conv): seq<byte> {
    GREETING + if Asks(v) then Message(1, v.host, v.port) else []
  }

  function Reply(v: Conv): seq<byte>
    requires ValidConv(v)
  {
    if !Accepts(v.host) then FailureReply(8)
    else match v.outcome
      case Connected(bound, boundPort) => Message(0, bound, boundPort)
      case Failed(code) => FailureReply(code)
  }

  /** Everything the server says in this conversation. */
  function Downward(v: Conv): seq<byte>
    requires ValidConv(v)
  {
    NO_AUTHENTICATION + if Asks(v) then Reply(v) else []
  }

  // ---- The client ----

  datatype ClientRead = Method | Header | Length | Tail(size: nat)

  datatype ClientWrite = Greeting | Request

  datatype Client =
    | ClientReading(at: ClientRead, got: seq<byte>)
    | ClientWriting(what: ClientWrite, left: seq<byte>)
    | ClientDone(ok: bool)

  function ClientNeed(at: ClientRead): nat {
    match at
    case Method => 2
    case Header => 4
    case Length => 1
    case Tail(size) => size
  }

  /** What the client does with a complete read. */
  function ClientHandles(v: Conv, at: ClientRead, got: seq<byte>): Client
    requires |got| == ClientNeed(at)
  {
    match at
    case Method =>
      if got[0] != 5 || got[1] != 0 then ClientDone(false)
      else if Asks(v) then ClientWriting(Request, Message(1, v.host, v.port))
      else ClientDone(false)
    case Header =>
      if got[0] != 5 || got[1] != 0 then ClientDone(false)
      else if got[3] == 1 then ClientReading(Tail(6), [])
      else if got[3] == 3 then ClientReading(Length, [])
      else if got[3] == 4 then ClientReading(Tail(18), [])
      else ClientDone(false)
    case Length => ClientReading(Tail(got[0] as nat + 2), [])
    case Tail(_) => ClientDone(true)
  }

  function ClientWrote(what: ClientWrite): Client {
    match what
    case Greeting => ClientReading(Method, [])
    case Request => ClientReading(Header, [])
  }

  // ---- The server ----

  datatype Kind = FourBytes | SixteenBytes | Text(length: nat)

  datatype ServerRead =
    | Version
    | Count
    | Methods(count: nat)
    | RequestHeader
    | NameLength
    | Address(kind: Kind)
    | Port(host: Host)

  datatype Served = Accepted(host: Host, port: port) | Refused

  datatype ServerWrite = MethodChoice(acceptable: bool) | ReplyThen(result: Served)

  datatype Server =
    | ServerReading(at: ServerRead, got: seq<byte>)
    | ServerWriting(what: ServerWrite, left: seq<byte>)
    | Dialing(host: Host, port: port)
    | ServerDone(result: Served)

  function ServerNeed(at: ServerRead): nat {
    match at
    case Version => 1
    case Count => 1
    case Methods(count) => count
    case RequestHeader => 4
    case NameLength => 1
    case Address(FourBytes) => 4
    case Address(SixteenBytes) => 16
    case Address(Text(length)) => length
    case Port(_) => 2
  }

  /** What the server does with a complete read. */
  function ServerHandles(at: ServerRead, got: seq<byte>): Server
    requires |got| == ServerNeed(at)
  {
    match at
    case Version => if got[0] == 5 then ServerReading(Count, []) else ServerDone(Refused)
    case Count => if got[0] == 0 then ServerDone(Refused) else ServerReading(Methods(got[0] as nat), [])
    case Methods(_) =>
      if 0 in got then ServerWriting(MethodChoice(true), NO_AUTHENTICATION)
      else ServerWriting(MethodChoice(false), NOTHING_ACCEPTABLE)
    case RequestHeader =>
      if got[0] != 5 then ServerDone(Refused)
      else if got[1] != 1 then ServerWriting(ReplyThen(Refused), FailureReply(7))
      else if got[3] == 1 then ServerReading(Address(FourBytes), [])
      else if got[3] == 3 then ServerReading(NameLength, [])
      else if got[3] == 4 then ServerReading(Address(SixteenBytes), [])
      else ServerWriting(ReplyThen(Refused), FailureReply(8))
    case NameLength =>
      if got[0] == 0 || got[0] > 253 then ServerWriting(ReplyThen(Refused), FailureReply(8))
      else ServerReading(Address(Text(got[0] as nat)), [])
    case Address(FourBytes) => ServerReading(Port(Ipv4(got)), [])
    case Address(SixteenBytes) => ServerReading(Port(Ipv6(got)), [])
    case Address(Text(_)) => ServerReading(Port(Name(got)), [])
    case Port(host) => Dialing(host, FromPortBytes(got))
  }

  function ServerWrote(what: ServerWrite): Server {
    match what
    case MethodChoice(acceptable) => if acceptable then ServerReading(RequestHeader, []) else ServerDone(Refused)
    case ReplyThen(result) => ServerDone(result)
  }

  function Dialed(v: Conv, host: Host, p: port): Server
    requires ValidConv(v)
  {
    match v.outcome
    case Connected(bound, boundPort) => ServerWriting(ReplyThen(Accepted(host, p)), Message(0, bound, boundPort))
    case Failed(code) => ServerWriting(ReplyThen(Refused), FailureReply(code))
  }

  // ---- The system ----

  /** Both sides and the bytes in flight in each direction; `sent` and `replied` log all bytes ever written. */
  datatype System = System(
    client: Client, server: Server, up: seq<byte>, down: seq<byte>, sent: seq<byte>, replied: seq<byte>)

  function Initial(): System {
    System(ClientWriting(Greeting, GREETING), ServerReading(Version, []), [], [], [], [])
  }

  function ClientTakes(v: Conv, at: ClientRead, got: seq<byte>): Client {
    if |got| == ClientNeed(at) then ClientHandles(v, at, got) else ClientReading(at, got)
  }

  function ServerTakes(at: ServerRead, got: seq<byte>): Server {
    if |got| == ServerNeed(at) then ServerHandles(at, got) else ServerReading(at, got)
  }

  function ClientAfterWrite(c: Client, n: nat): Client
    requires c.ClientWriting? && n <= |c.left|
  {
    if n == |c.left| then ClientWrote(c.what) else c.(left := c.left[n..])
  }

  function ServerAfterWrite(s: Server, n: nat): Server
    requires s.ServerWriting? && n <= |s.left|
  {
    if n == |s.left| then ServerWrote(s.what) else s.(left := s.left[n..])
  }

  predicate ClientWrites(x: System, y: System) {
    && x.client.ClientWriting?
    && exists n: nat ::
         && 1 <= n <= |x.client.left|
         && y == x.(up := x.up + x.client.left[..n], sent := x.sent + x.client.left[..n],
                    client := ClientAfterWrite(x.client, n))
  }

  predicate ClientReads(v: Conv, x: System, y: System) {
    && x.client.ClientReading?
    && exists n: nat ::
         && 1 <= n <= |x.down| && |x.client.got| + n <= ClientNeed(x.client.at)
         && y == x.(down := x.down[n..], client := ClientTakes(v, x.client.at, x.client.got + x.down[..n]))
  }

  predicate ServerWrites(x: System, y: System) {
    && x.server.ServerWriting?
    && exists n: nat ::
         && 1 <= n <= |x.server.left|
         && y == x.(down := x.down + x.server.left[..n], replied := x.replied + x.server.left[..n],
                    server := ServerAfterWrite(x.server, n))
  }

  predicate ServerReads(x: System, y: System) {
    && x.server.ServerReading?
    && exists n: nat ::
         && 1 <= n <= |x.up| && |x.server.got| + n <= ServerNeed(x.server.at)
         && y == x.(up := x.up[n..], server := ServerTakes(x.server.at, x.server.got + x.up[..n]))
  }

  predicate ServerDials(v: Conv, x: System, y: System)
    requires ValidConv(v)
  {
    x.server.Dialing? && y == x.(server := Dialed(v, x.server.host, x.server.port))
  }

  /** A side that gave up has closed; once its bytes are used up the other reads end of stream. */
  predicate ServerSeesEnd(x: System, y: System) {
    x.server.ServerReading? && x.up == [] && x.client == ClientDone(false) && y == x.(server := ServerDone(Refused))
  }

  predicate ClientSeesEnd(x: System, y: System) {
    x.client.ClientReading? && x.down == [] && x.server == ServerDone(Refused) && y == x.(client := ClientDone(false))
  }

  predicate Step(v: Conv, x: System, y: System)
    requires ValidConv(v)
  {
    || ClientWrites(x, y)
    || ClientReads(v, x, y)
    || ServerWrites(x, y)
    || ServerReads(x, y)
    || ServerDials(v, x, y)
    || ServerSeesEnd(x, y)
    || ClientSeesEnd(x, y)
  }

  /** A run from the initial state. */
  ghost predicate IsRun(v: Conv, run: seq<System>)
    requires ValidConv(v)
  {
    && run != [] && run[0] == Initial()
    && forall i :: 0 <= i < |run| - 1 ==> Step(v, run[i], run[i + 1])
  }

  // ---- The invariant: each side stands at a place in the two scripts ----

  /** The two scripts of a conversation. */
  datatype Scripts = Scripts(up: seq<byte>, down: seq<byte>)

  function ScriptsOf(v: Conv): Scripts
    requires ValidConv(v)
  {
    Scripts(Upward(v), Downward(v))
  }

  /** What the proofs need to know about the scripts. */
  predicate Shaped(v: Conv, t: Scripts) {
    && ValidConv(v)
    && 3 <= |t.up| && t.up[0] == 5 && t.up[1] == 1 && t.up[2] == 0 && t.up[..3] == GREETING
    && 2 <= |t.down| && t.down[0] == 5 && t.down[1] == 0 && t.down[..2] == NO_AUTHENTICATION
    && (if Asks(v) then ShapedRequest(v, t) && ShapedReply(v, t) else |t.up| == 3 && |t.down| == 2)
  }

  predicate ShapedRequest(v: Conv, t: Scripts)
    requires Asks(v)
  {
    && |t.up| == 9 + |AddressBytes(v.host)|
    && t.up[3] == 5 && t.up[4] == 1 && t.up[6] == AddressType(v.host)
    && t.up[3..] == Message(1, v.host, v.port)
    && t.up[7..|t.up| - 2] == AddressBytes(v.host) && t.up[|t.up| - 2..] == PortBytes(v.port)
  }

  predicate ShapedReply(v: Conv, t: Scripts)
    requires ValidConv(v) && Asks(v)
  {
    && 12 <= |t.down| && t.down[2..] == Reply(v)
    && t.down[2] == 5 && (t.down[3] == 0 <==> Succeeds(v))
    && (Succeeds(v) ==> (t.down[5] == 1 && |t.down| == 12) || (t.down[5] == 4 && |t.down| == 24))
  }

  predicate Sized(v: Conv, t: Scripts) {
    3 <= |t.up| && 2 <= |t.down| && (Asks(v) ==> 9 <= |t.up| && 12 <= |t.down|)
  }

  /** Where in the upward script a server read begins. */
  function ReadStart(v: Conv, t: Scripts, at: ServerRead): nat
    requires Sized(v, t)
  {
    match at
    case Version => 0
    case Count => 1
    case Methods(_) => 2
    case RequestHeader => 3
    case NameLength => 7
    case Address(_) => if v.host.Name? then 8 else 7
    case Port(_) => |t.up| - 2
  }

  /** The server read belongs to this conversation. */
  predicate ReadFits(v: Conv, at: ServerRead) {
    match at
    case Version => true
    case Count => true
    case Methods(count) => count == 1
    case RequestHeader => true
    case NameLength => Asks(v) && v.host.Name?
    case Address(kind) =>
      && Asks(v) && Accepts(v.host)
      && kind == (match v.host
                  case Ipv4(_) => FourBytes
                  case Ipv6(_) => SixteenBytes
                  case Name(text) => Text(|text|))
    case Port(host) => Asks(v) && Accepts(v.host) && host == v.host
  }

  /** How much of the upward script a finished server has read. */
  function ServerEnd(v: Conv, t: Scripts): nat
    requires Sized(v, t)
  {
    if Asks(v) && !Accepts(v.host) then 8 else |t.up|
  }

  function ReadSoFar(v: Conv, t: Scripts, s: Server): int
    requires Sized(v, t)
  {
    match s
    case ServerReading(at, got) => ReadStart(v, t, at) + |got|
    case ServerWriting(MethodChoice(_), _) => 3
    case ServerWriting(ReplyThen(_), _) => ServerEnd(v, t)
    case Dialing(_, _) => |t.up|
    case ServerDone(_) => ServerEnd(v, t)
  }

  function Written(v: Conv, t: Scripts, s: Server): int
    requires Sized(v, t)
  {
    match s
    case ServerReading(at, _) => if at.Version? || at.Count? || at.Methods? then 0 else 2
    case ServerWriting(MethodChoice(_), left) => 2 - |left|
    case ServerWriting(ReplyThen(_), left) => |t.down| - |left|
    case Dialing(_, _) => 2
    case ServerDone(_) => |t.down|
  }

  function Said(v: Conv, t: Scripts, c: Client): int
    requires Sized(v, t)
  {
    match c
    case ClientWriting(Greeting, left) => 3 - |left|
    case ClientWriting(Request, left) => |t.up| - |left|
    case ClientReading(Method, _) => 3
    case ClientReading(_, _) => |t.up|
    case ClientDone(_) => |t.up|
  }

  function Heard(v: Conv, t: Scripts, c: Client): int
    requires Sized(v, t)
  {
    match c
    case ClientWriting(Greeting, _) => 0
    case ClientWriting(Request, _) => 2
    case ClientReading(Method, got) => |got|
    case ClientReading(Header, got) => 2 + |got|
    case ClientReading(_, got) => 6 + |got|
    case ClientDone(ok) => if ok then |t.down| else if Asks(v) then 6 else 2
  }

  /** Whether the conversation ends in a connection. */
  predicate Succeeds(v: Conv) {
    Asks(v) && Accepts(v.host) && v.outcome.Connected?
  }

  function Result(v: Conv): Served {
    if Succeeds(v) then Accepted(v.host, v.port) else Refused
  }

  predicate ServerFits(v: Conv, t: Scripts, s: Server)
    requires Sized(v, t)
  {
    match s
    case ServerReading(at, got) =>
      && ReadFits(v, at) && |got| < ServerNeed(at)
      && ReadStart(v, t, at) + |got| <= |t.up|
      && got == t.up[ReadStart(v, t, at)..ReadStart(v, t, at) + |got|]
    case ServerWriting(MethodChoice(acceptable), left) =>
      acceptable && 0 < |left| <= 2 && left == t.down[2 - |left|..2]
    case ServerWriting(ReplyThen(result), left) =>
      && Asks(v) && result == Result(v)
      && 0 < |left| <= |t.down| - 2 && left == t.down[|t.down| - |left|..]
    case Dialing(host, p) => Asks(v) && Accepts(v.host) && host == v.host && p == v.port
    case ServerDone(result) => result == Result(v)
  }

  predicate ClientFits(v: Conv, t: Scripts, c: Client)
    requires Sized(v, t)
  {
    match c
    case ClientWriting(Greeting, left) => 0 < |left| <= 3 && left == t.up[3 - |left|..3]
    case ClientWriting(Request, left) =>
      Asks(v) && 0 < |left| <= |t.up| - 3 && left == t.up[|t.up| - |left|..]
    case ClientReading(Method, got) => |got| < 2 && got == t.down[..|got|]
    case ClientReading(Header, got) => Asks(v) && |got| < 4 && got == t.down[2..2 + |got|]
    case ClientReading(Length, _) => false
    case ClientReading(Tail(size), got) => Succeeds(v) && size == |t.down| - 6 && |got| < size
    case ClientDone(ok) => ok == Succeeds(v)
  }

  /** Each channel holds exactly the part of its script that was said and not yet heard; the logs hold what was said. */
  predicate Inv(v: Conv, t: Scripts, x: System)
    requires Sized(v, t)
  {
    && ClientFits(v, t, x.client) && ServerFits(v, t, x.server)
    && 0 <= ReadSoFar(v, t, x.server) <= Said(v, t, x.client) <= |t.up|
    && x.up == t.up[ReadSoFar(v, t, x.server)..Said(v, t, x.client)]
    && 0 <= Heard(v, t, x.client) <= Written(v, t, x.server) <= |t.down|
    && x.down == t.down[Heard(v, t, x.client)..Written(v, t, x.server)]
    && x.sent == t.up[..Said(v, t, x.client)]
    && x.replied == t.down[..Written(v, t, x.server)]
  }

  // ---- Every step keeps the invariant ----

  lemma Join(script: seq<byte>, i: nat, j: nat, k: nat)
    requires i <= j <= k <= |script|
    ensures script[i..j] + script[j..k] == script[i..k]
  {
  }

  lemma Cut(script: seq<byte>, i: nat, j: nat, n: nat)
    requires i <= j <= |script| && n <= j - i
    ensures script[i..j][..n] == script[i..i + n]
    ensures script[i..j][n..] == script[i + n..j]
  {
  }

  lemma MessageShape(code: byte, h: Host, p: port)
    requires h.Name? ==> |h.text| <= 255
    ensures var m := Message(code, h, p);
            && |m| == 6 + |AddressBytes(h)|
            && m[0] == 5 && m[1] == code && m[2] == 0 && m[3] == AddressType(h)
            && m[4..|m| - 2] == AddressBytes(h) && m[|m| - 2..] == PortBytes(p)
  {
    hide AddressBytes, PortBytes, AddressType;
    assert |PortBytes(p)| == 2 by {
      TwoPortBytes(p);
    }
    Slots([5, code, 0, AddressType(h)], AddressBytes(h), PortBytes(p));
  }

  lemma TwoPortBytes(p: port)
    ensures |PortBytes(p)| == 2
  {
  }

  lemma Slots(head: seq<byte>, middle: seq<byte>, last: seq<byte>)
    requires |head| == 4 && |last| == 2
    ensures var m := head + (middle + last);
            && |m| == 6 + |middle| && m[0] == head[0] && m[1] == head[1] && m[2] == head[2] && m[3] == head[3]
            && m[4..|m| - 2] == middle && m[|m| - 2..] == last
  {
    var m := head + (middle + last);
    assert m[4..] == middle + last;
    assert m[4..][..|middle|] == middle && m[4..][|middle|..] == last;
  }

  /** What the client has said, octet for octet: the greeting and, if it asks, the request. */
  ghost predicate SaidUpward(v: Conv, sent: seq<byte>) {
    && 3 <= |sent| && sent[..3] == [5, 1, 0]
    && if v.host.Name? && (!v.remoteNames || 255 < |v.host.text|) then |sent| == 3
       else MessageOctets(sent[3..], 1, v.host, v.port)
  }

  /**
   * What the server has said, octet for octet: the choice of a method and the reply, which refuses
   * names of no byte and of more than 253, gives the bound address of a good dial, or the code of a
   * failed one with an address and port of zeros.
   */
  ghost predicate SaidDownward(v: Conv, replied: seq<byte>) {
    && 2 <= |replied| && replied[..2] == [5, 0]
    && if v.host.Name? && (!v.remoteNames || 255 < |v.host.text|) then |replied| == 2
       else if v.host.Name? && (v.host.text == [] || 253 < |v.host.text|) then
         replied[2..] == [5, 8, 0, 1, 0, 0, 0, 0, 0, 0]
       else match v.outcome
         case Connected(bound, boundPort) => MessageOctets(replied[2..], 0, bound, boundPort)
         case Failed(code) => replied[2..] == [5, code, 0, 1, 0, 0, 0, 0, 0, 0]
  }

  lemma FailureOctets(code: byte)
    ensures FailureReply(code) == [5, code, 0, 1, 0, 0, 0, 0, 0, 0]
  {
  }

  lemma SaidIs(v: Conv)
    requires ValidConv(v)
    ensures SaidUpward(v, Upward(v)) && SaidDownward(v, Downward(v))
  {
    hide Message, FailureReply, MessageOctets;
    if Asks(v) {
      MessageIs(1, v.host, v.port);
      Halves(GREETING, Message(1, v.host, v.port));
      Halves(NO_AUTHENTICATION, Reply(v));
      FailureOctets(8);
      match v.outcome {
        case Connected(bound, boundPort) => MessageIs(0, bound, boundPort);
        case Failed(code) => FailureOctets(code);
      }
    }
  }

  lemma ScriptsShaped(v: Conv)
    requires ValidConv(v)
    ensures Shaped(v, ScriptsOf(v))
    ensures SaidUpward(v, ScriptsOf(v).up) && SaidDownward(v, ScriptsOf(v).down)
  {
    SaidIs(v);
    hide SaidUpward, SaidDownward;
    if Asks(v) {
      RequestShaped(v);
      ReplyShaped(v);
    }
  }

  lemma RequestShaped(v: Conv)
    requires ValidConv(v) && Asks(v)
    ensures ShapedRequest(v, ScriptsOf(v))
  {
    var m := Message(1, v.host, v.port);
    MessageShape(1, v.host, v.port);
    Halves(GREETING, m);
    assert Upward(v)[7..|Upward(v)| - 2] == m[4..|m| - 2];
    assert Upward(v)[|Upward(v)| - 2..] == m[|m| - 2..];
  }

  lemma ReplyShaped(v: Conv)
    requires ValidConv(v) && Asks(v)
    ensures ShapedReply(v, ScriptsOf(v))
  {
    MessageShape(8, Ipv4([0, 0, 0, 0]), 0);
    match v.outcome {
      case Connected(bound, boundPort) => MessageShape(0, bound, boundPort);
      case Failed(code) => MessageShape(code, Ipv4([0, 0, 0, 0]), 0);
    }
    Halves(NO_AUTHENTICATION, Reply(v));
  }

  lemma PortRoundTrip(p: port)
    ensures FromPortBytes(PortBytes(p)) == p
  {
  }

  /** A complete read leads the server to its next place in the conversation. */
  lemma ServerCompletes(v: Conv, t: Scripts, at: ServerRead, got: seq<byte>)
    requires Shaped(v, t) && Sized(v, t) && ReadFits(v, at) && |got| == ServerNeed(at)
    requires ReadStart(v, t, at) + |got| <= |t.up|
    requires got == t.up[ReadStart(v, t, at)..ReadStart(v, t, at) + |got|]
    ensures var next := ServerHandles(at, got);
            && ServerFits(v, t, next)
            && ReadSoFar(v, t, next) == ReadStart(v, t, at) + |got|
            && Written(v, t, next) == Written(v, t, ServerReading(at, []))
  {
    hide ServerFits, ServerHandles, ReadSoFar, ShapedReply, ShapedRequest;
    if at.NameLength? {
      NameLengthCompletes(v, t, got);
    } else if at.Address? || at.Port? {
      TargetCompletes(v, t, at, got);
    } else {
      OpeningCompletes(v, t, at, got);
    }
  }

  lemma NameLengthCompletes(v: Conv, t: Scripts, got: seq<byte>)
    requires Shaped(v, t) && Sized(v, t) && Asks(v) && v.host.Name? && got == t.up[7..8]
    ensures var next := ServerHandles(NameLength, got);
            && ServerFits(v, t, next)
            && ReadSoFar(v, t, next) == 8
            && Written(v, t, next) == 2
  {
    NameLengthRead(v, t);
  }

  lemma OpeningCompletes(v: Conv, t: Scripts, at: ServerRead, got: seq<byte>)
    requires Shaped(v, t) && Sized(v, t) && ReadFits(v, at) && |got| == ServerNeed(at)
    requires at.Version? || at.Count? || at.Methods? || at.RequestHeader?
    requires ReadStart(v, t, at) + |got| <= |t.up|
    requires got == t.up[ReadStart(v, t, at)..ReadStart(v, t, at) + |got|]
    ensures var next := ServerHandles(at, got);
            && ServerFits(v, t, next)
            && ReadSoFar(v, t, next) == ReadStart(v, t, at) + |got|
            && Written(v, t, next) == Written(v, t, ServerReading(at, []))
  {
    hide ShapedReply, Reply, Message;
    var u, start := t.up, ReadStart(v, t, at);
    assert forall k :: 0 <= k < |got| ==> got[k] == u[start + k];
  }

  lemma TargetCompletes(v: Conv, t: Scripts, at: ServerRead, got: seq<byte>)
    requires Shaped(v, t) && Sized(v, t) && ReadFits(v, at) && |got| == ServerNeed(at)
    requires at.Address? || at.Port?
    requires ReadStart(v, t, at) + |got| <= |t.up|
    requires got == t.up[ReadStart(v, t, at)..ReadStart(v, t, at) + |got|]
    ensures var next := ServerHandles(at, got);
            && ServerFits(v, t, next)
            && ReadSoFar(v, t, next) == ReadStart(v, t, at) + |got|
            && Written(v, t, next) == Written(v, t, ServerReading(at, []))
  {
    hide ShapedReply, Reply, Message;
    if at.Address? {
      AddressRead(v, t, got);
    } else {
      assert got == t.up[|t.up| - 2..] == PortBytes(v.port);
      PortRoundTrip(v.port);
    }
  }

  lemma NameLengthRead(v: Conv, t: Scripts)
    requires Shaped(v, t) && Asks(v) && v.host.Name?
    ensures 8 + |v.host.text| < |t.up| && t.up[7] as nat == |v.host.text|
  {
    assert t.up[7] == t.up[7..|t.up| - 2][0];
  }

  lemma AddressRead(v: Conv, t: Scripts, got: seq<byte>)
    requires Shaped(v, t) && Asks(v)
    requires match v.host
             case Ipv4(octets) => |octets| == 4 && got == t.up[7..11]
             case Ipv6(octets) => |octets| == 16 && got == t.up[7..23]
             case Name(text) => 8 + |text| <= |t.up| && got == t.up[8..8 + |text|]
    ensures match v.host
            case Ipv4(octets) => got == octets
            case Ipv6(octets) => got == octets
            case Name(text) => got == text
  {
    if v.host.Name? {
      assert t.up[7..|t.up| - 2][1..] == got;
    }
  }

  lemma ClientCompletes(v: Conv, t: Scripts, at: ClientRead, got: seq<byte>)
    requires Shaped(v, t) && |got| == ClientNeed(at)
    requires match at
             case Method => got == t.down[..2]
             case Header => Asks(v) && 6 <= |t.down| && got == t.down[2..6]
             case Length => false
             case Tail(size) => Succeeds(v) && size == |t.down| - 6
    ensures var next := ClientHandles(v, at, got);
            && ClientFits(v, t, next)
            && Said(v, t, next) == Said(v, t, ClientReading(at, []))
            && Heard(v, t, next) == Heard(v, t, ClientReading(at, [])) + |got|
  {
  }

  /** A write carries the next piece of the client's script. */
  lemma ClientWritesPiece(v: Conv, t: Scripts, c: Client, n: nat)
    requires Shaped(v, t) && Sized(v, t) && ClientFits(v, t, c) && c.ClientWriting? && 1 <= n <= |c.left|
    ensures var j := Said(v, t, c);
            && 0 <= j && j + n <= |t.up| && c.left[..n] == t.up[j..j + n]
            && ClientFits(v, t, ClientAfterWrite(c, n))
            && Said(v, t, ClientAfterWrite(c, n)) == j + n
            && Heard(v, t, ClientAfterWrite(c, n)) == Heard(v, t, c)
  {
    hide ShapedRequest, ShapedReply, Shaped;
    var j := Said(v, t, c);
    Cut(t.up, j, j + |c.left|, n);
  }

  lemma ServerWritesPiece(v: Conv, t: Scripts, s: Server, n: nat)
    requires Shaped(v, t) && Sized(v, t) && ServerFits(v, t, s) && s.ServerWriting? && 1 <= n <= |s.left|
    ensures var k := Written(v, t, s);
            && 0 <= k && k + n <= |t.down| && s.left[..n] == t.down[k..k + n]
            && ServerFits(v, t, ServerAfterWrite(s, n))
            && Written(v, t, ServerAfterWrite(s, n)) == k + n
            && ReadSoFar(v, t, ServerAfterWrite(s, n)) == ReadSoFar(v, t, s)
  {
    hide ShapedRequest, ShapedReply, Shaped;
    var k := Written(v, t, s);
    Cut(t.down, k, k + |s.left|, n);
  }

  lemma ClientReadsPiece(v: Conv, t: Scripts, c: Client, n: nat)
    requires Shaped(v, t) && Sized(v, t) && ClientFits(v, t, c) && c.ClientReading? && |c.got| + n <= ClientNeed(c.at)
    requires 1 <= n && 0 <= Heard(v, t, c) && Heard(v, t, c) + n <= |t.down|
    ensures var m := Heard(v, t, c);
            var next := ClientTakes(v, c.at, c.got + t.down[m..m + n]);
            ClientFits(v, t, next) && Heard(v, t, next) == m + n && Said(v, t, next) == Said(v, t, c)
  {
    hide ClientHandles, Shaped, ShapedRequest, ClientFits, Message, Reply, AddressBytes;
    var m := Heard(v, t, c);
    var got := c.got + t.down[m..m + n];
    ClientGets(v, t, c, n);
    if |got| == ClientNeed(c.at) {
      ClientCompletes(v, t, c.at, got);
    }
  }

  /** A read that is not complete leaves the client where it is; a complete one has the next part of the script. */
  lemma ClientGets(v: Conv, t: Scripts, c: Client, n: nat)
    requires Shaped(v, t) && Sized(v, t) && ClientFits(v, t, c) && c.ClientReading? && |c.got| + n <= ClientNeed(c.at)
    requires 1 <= n && 0 <= Heard(v, t, c) && Heard(v, t, c) + n <= |t.down|
    ensures var m := Heard(v, t, c);
            var got := c.got + t.down[m..m + n];
            && |got| == |c.got| + n && Heard(v, t, c) == Heard(v, t, ClientReading(c.at, [])) + |c.got|
            && (|got| < ClientNeed(c.at) ==>
                 ClientFits(v, t, ClientReading(c.at, got)) && Heard(v, t, ClientReading(c.at, got)) == m + n)
            && (|got| == ClientNeed(c.at) ==>
                 match c.at
                 case Method => got == t.down[..2]
                 case Header => Asks(v) && 6 <= |t.down| && got == t.down[2..6]
                 case Length => false
                 case Tail(size) => Succeeds(v) && size == |t.down| - 6)
  {
    hide ShapedRequest, Message, Reply, AddressBytes;
    var m := Heard(v, t, c);
    if !c.at.Tail? {
      Join(t.down, m - |c.got|, m, m + n);
    }
  }

  lemma ServerReadsPiece(v: Conv, t: Scripts, s: Server, n: nat)
    requires Shaped(v, t) && Sized(v, t) && ServerFits(v, t, s) && s.ServerReading? && |s.got| + n <= ServerNeed(s.at)
    requires 1 <= n && ReadSoFar(v, t, s) + n <= |t.up|
    ensures var i := ReadSoFar(v, t, s);
            var next := ServerTakes(s.at, s.got + t.up[i..i + n]);
            ServerFits(v, t, next) && ReadSoFar(v, t, next) == i + n && Written(v, t, next) == Written(v, t, s)
  {
    hide ServerHandles, ShapedRequest, ShapedReply, Shaped;
    var start, i := ReadStart(v, t, s.at), ReadSoFar(v, t, s);
    Join(t.up, start, i, i + n);
    if |s.got| + n == ServerNeed(s.at) {
      ServerCompletes(v, t, s.at, t.up[start..i + n]);
    }
  }

  function Rank(x: System): nat {
    (if x.client.ClientDone? then 0 else 1)
    + (if x.server.ServerDone? then 0 else if x.server.Dialing? then 2 else 1)
  }

  /** Bytes still to be said and heard, and the few steps that move none. */
  function Remaining(v: Conv, t: Scripts, x: System): int
    requires Sized(v, t)
  {
    4 * (2 * |t.up| - ReadSoFar(v, t, x.server) - Said(v, t, x.client)
         + 2 * |t.down| - Written(v, t, x.server) - Heard(v, t, x.client))
    + Rank(x)
  }

  lemma ClientWritesKeeps(v: Conv, t: Scripts, x: System, y: System)
    requires Shaped(v, t) && Sized(v, t) && Inv(v, t, x) && ClientWrites(x, y)
    ensures Inv(v, t, y)
    ensures Remaining(v, t, y) < Remaining(v, t, x)
  {
    hide Shaped, Sized, ClientFits, ServerFits, ReadSoFar, Written, Said, Heard, ClientTakes, ServerTakes,
        ClientAfterWrite, ServerAfterWrite;
    var n: nat :| 1 <= n <= |x.client.left|
      && y == x.(up := x.up + x.client.left[..n], sent := x.sent + x.client.left[..n],
                 client := ClientAfterWrite(x.client, n));
    ClientWritesPiece(v, t, x.client, n);
    var j := Said(v, t, x.client);
    Join(t.up, ReadSoFar(v, t, x.server), j, j + n);
    Join(t.up, 0, j, j + n);
  }

  lemma ClientReadsKeeps(v: Conv, t: Scripts, x: System, y: System)
    requires Shaped(v, t) && Sized(v, t) && Inv(v, t, x) && ClientReads(v, x, y)
    ensures Inv(v, t, y)
    ensures Remaining(v, t, y) < Remaining(v, t, x)
  {
    hide Shaped, Sized, ClientFits, ServerFits, ReadSoFar, Written, Said, Heard, ClientTakes, ServerTakes,
        ClientAfterWrite, ServerAfterWrite;
    var n: nat :| 1 <= n <= |x.down| && |x.client.got| + n <= ClientNeed(x.client.at)
      && y == x.(down := x.down[n..], client := ClientTakes(v, x.client.at, x.client.got + x.down[..n]));
    Cut(t.down, Heard(v, t, x.client), Written(v, t, x.server), n);
    ClientReadsPiece(v, t, x.client, n);
  }

  lemma ServerWritesKeeps(v: Conv, t: Scripts, x: System, y: System)
    requires Shaped(v, t) && Sized(v, t) && Inv(v, t, x) && ServerWrites(x, y)
    ensures Inv(v, t, y)
    ensures Remaining(v, t, y) < Remaining(v, t, x)
  {
    hide Shaped, Sized, ClientFits, ServerFits, ReadSoFar, Written, Said, Heard, ClientTakes, ServerTakes,
        ClientAfterWrite, ServerAfterWrite;
    var n: nat :| 1 <= n <= |x.server.left|
      && y == x.(down := x.down + x.server.left[..n], replied := x.replied + x.server.left[..n],
                 server := ServerAfterWrite(x.server, n));
    ServerWritesPiece(v, t, x.server, n);
    var k := Written(v, t, x.server);
    Join(t.down, Heard(v, t, x.client), k, k + n);
    Join(t.down, 0, k, k + n);
  }

  lemma ServerReadsKeeps(v: Conv, t: Scripts, x: System, y: System)
    requires Shaped(v, t) && Sized(v, t) && Inv(v, t, x) && ServerReads(x, y)
    ensures Inv(v, t, y)
    ensures Remaining(v, t, y) < Remaining(v, t, x)
  {
    hide Shaped, Sized, ClientFits, ServerFits, ReadSoFar, Written, Said, Heard, ClientTakes, ServerTakes,
        ClientAfterWrite, ServerAfterWrite;
    var n: nat :| 1 <= n <= |x.up| && |x.server.got| + n <= ServerNeed(x.server.at)
      && y == x.(up := x.up[n..], server := ServerTakes(x.server.at, x.server.got + x.up[..n]));
    Cut(t.up, ReadSoFar(v, t, x.server), Said(v, t, x.client), n);
    ServerReadsPiece(v, t, x.server, n);
  }

  lemma ServerDialsKeeps(v: Conv, t: Scripts, x: System, y: System)
    requires Shaped(v, t) && Sized(v, t) && Inv(v, t, x) && ServerDials(v, x, y)
    ensures Inv(v, t, y)
    ensures Remaining(v, t, y) < Remaining(v, t, x)
  {
    hide ShapedRequest, ClientFits;
  }

  /** A pending server read ends inside the upward script, unless the client never asks. */
  lemma ReadInside(v: Conv, t: Scripts, s: Server)
    requires Shaped(v, t) && Sized(v, t) && ServerFits(v, t, s) && s.ServerReading? && Asks(v)
    ensures ReadSoFar(v, t, s) < |t.up|
  {
    hide ShapedReply;
  }

  lemma ServerSeesEndKeeps(v: Conv, t: Scripts, x: System, y: System)
    requires Shaped(v, t) && Sized(v, t) && Inv(v, t, x) && ServerSeesEnd(x, y)
    ensures Inv(v, t, y)
    ensures Remaining(v, t, y) < Remaining(v, t, x)
  {
    if Asks(v) {
      ReadInside(v, t, x.server);
    }
  }

  /** The client never waits on a server that gave up without answering. */
  lemma ClientNeverSeesEnd(v: Conv, t: Scripts, x: System, y: System)
    requires Shaped(v, t) && Sized(v, t) && Inv(v, t, x)
    ensures !ClientSeesEnd(x, y)
  {
  }

  lemma StepKeeps(v: Conv, t: Scripts, x: System, y: System)
    requires Shaped(v, t) && Sized(v, t) && Inv(v, t, x) && Step(v, x, y)
    ensures Inv(v, t, y)
    ensures Remaining(v, t, y) < Remaining(v, t, x)
  {
    ClientNeverSeesEnd(v, t, x, y);
    if ClientWrites(x, y) { ClientWritesKeeps(v, t, x, y); }
    else if ClientReads(v, x, y) { ClientReadsKeeps(v, t, x, y); }
    else if ServerWrites(x, y) { ServerWritesKeeps(v, t, x, y); }
    else if ServerReads(x, y) { ServerReadsKeeps(v, t, x, y); }
    else if ServerDials(v, x, y) { ServerDialsKeeps(v, t, x, y); }
    else { ServerSeesEndKeeps(v, t, x, y); }
  }

  lemma InitialInv(v: Conv, t: Scripts)
    requires Shaped(v, t) && Sized(v, t)
    ensures Inv(v, t, Initial())
  {
    hide ShapedRequest, ShapedReply;
  }

  lemma {:induction false} RunInv(v: Conv, run: seq<System>)
    requires ValidConv(v) && IsRun(v, run)
    ensures Inv(v, ScriptsOf(v), run[|run| - 1])
  {
    hide SaidUpward, SaidDownward, Step, Inv;
    ScriptsShaped(v);
    if |run| == 1 {
      InitialInv(v, ScriptsOf(v));
    } else {
      var before := run[..|run| - 1];
      RunInv(v, before);
      StepKeeps(v, ScriptsOf(v), before[|before| - 1], run[|run| - 1]);
    }
  }

  // ---- Results over whole runs ----

  predicate Finished(x: System) {
    x.client.ClientDone? && x.server.ServerDone?
  }

  /** One byte can always be moved when a side has something to write or to read. */
  lemma Moves(v: Conv, x: System) returns (y: System)
    requires ValidConv(v)
    requires || (x.client.ClientWriting? && x.client.left != [])
             || (x.server.ServerWriting? && x.server.left != [])
             || (x.client.ClientReading? && x.down != [] && |x.client.got| < ClientNeed(x.client.at))
             || (x.server.ServerReading? && x.up != [] && |x.server.got| < ServerNeed(x.server.at))
    ensures Step(v, x, y)
  {
    hide ClientHandles, ServerHandles, ClientNeed, ServerNeed;
    if x.client.ClientWriting? && x.client.left != [] {
      y := x.(up := x.up + x.client.left[..1], sent := x.sent + x.client.left[..1],
              client := ClientAfterWrite(x.client, 1));
      assert ClientWrites(x, y);
    } else if x.server.ServerWriting? && x.server.left != [] {
      y := x.(down := x.down + x.server.left[..1], replied := x.replied + x.server.left[..1],
              server := ServerAfterWrite(x.server, 1));
      assert ServerWrites(x, y);
    } else if x.client.ClientReading? && x.down != [] && |x.client.got| < ClientNeed(x.client.at) {
      y := x.(down := x.down[1..], client := ClientTakes(v, x.client.at, x.client.got + x.down[..1]));
      assert ClientReads(v, x, y);
    } else {
      y := x.(up := x.up[1..], server := ServerTakes(x.server.at, x.server.got + x.up[..1]));
      assert ServerReads(x, y);
    }
  }

  lemma InFlight(v: Conv, t: Scripts, x: System)
    requires Sized(v, t) && Inv(v, t, x)
    ensures |x.up| == Said(v, t, x.client) - ReadSoFar(v, t, x.server)
    ensures |x.down| == Written(v, t, x.server) - Heard(v, t, x.client)
  {
    hide ClientFits, ServerFits, ReadSoFar, Written, Said, Heard, Sized;
  }

  /** When both sides read, one of them has bytes to read. */
  lemma SomethingInFlight(v: Conv, t: Scripts, x: System)
    requires Shaped(v, t) && Sized(v, t) && ClientFits(v, t, x.client) && ServerFits(v, t, x.server)
    requires |x.up| == Said(v, t, x.client) - ReadSoFar(v, t, x.server)
    requires |x.down| == Written(v, t, x.server) - Heard(v, t, x.client)
    requires x.client.ClientReading? && (x.server.ServerReading? || x.server.ServerDone?)
    ensures x.down != [] || (x.server.ServerReading? && x.up != [])
  {
    if Asks(v) && x.server.ServerReading? {
      ReadInside(v, t, x.server);
    }
  }

  /** A finished client leaves the server bytes to read, or the end of the stream. */
  lemma ServerNotStuck(v: Conv, t: Scripts, x: System)
    requires Shaped(v, t) && Sized(v, t) && Inv(v, t, x)
    requires x.client.ClientDone? && x.server.ServerReading? && x.up == []
    ensures x.client == ClientDone(false)
  {
    if Asks(v) {
      ReadInside(v, t, x.server);
    }
  }

  /** No state that keeps the invariant has both sides waiting for each other. */
  lemma NoDeadlock(v: Conv, t: Scripts, x: System) returns (y: System)
    requires Shaped(v, t) && Sized(v, t) && Inv(v, t, x) && !Finished(x)
    ensures Step(v, x, y)
  {
    if x.client.ClientWriting? || x.server.ServerWriting? {
      y := Moves(v, x);
    } else if x.server.Dialing? {
      y := x.(server := Dialed(v, x.server.host, x.server.port));
    } else if x.client.ClientReading? {
      InFlight(v, t, x);
      SomethingInFlight(v, t, x);
      y := Moves(v, x);
    } else if x.up != [] {
      y := Moves(v, x);
    } else {
      ServerNotStuck(v, t, x);
      y := x.(server := ServerDone(Refused));
      assert ServerSeesEnd(x, y);
    }
  }

  lemma RemainingNatural(v: Conv, t: Scripts, x: System)
    requires Sized(v, t) && Inv(v, t, x)
    ensures 0 <= Remaining(v, t, x)
  {
    hide ClientFits, ServerFits, ReadSoFar, Written, Said, Heard;
  }

  /** Every run is finite: it cannot be longer than the work the two scripts hold. */
  lemma {:induction false} RunsEnd(v: Conv, run: seq<System>)
    requires ValidConv(v) && IsRun(v, run)
    ensures Sized(v, ScriptsOf(v))
    ensures |run| - 1 <= Remaining(v, ScriptsOf(v), Initial()) - Remaining(v, ScriptsOf(v), run[|run| - 1])
    ensures 0 <= Remaining(v, ScriptsOf(v), run[|run| - 1])
  {
    hide SaidUpward, SaidDownward, Step, Remaining, Inv;
    ScriptsShaped(v);
    RunInv(v, run);
    RemainingNatural(v, ScriptsOf(v), run[|run| - 1]);
    if 1 < |run| {
      var before := run[..|run| - 1];
      RunsEnd(v, before);
      RunInv(v, before);
      StepKeeps(v, ScriptsOf(v), before[|before| - 1], run[|run| - 1]);
    }
  }

  /**
   * Every run of the exchange either can go on or has finished.  A finished one has written exactly
   * the two scripts.  It leaves the server with exactly the client's host and port when the dial
   * succeeds and refused otherwise, the client satisfied exactly when the reply that the server
   * wrote has code 0, code 8 written for every name that the server does not take, and, on success,
   * both channels empty.
   */
  lemma ExchangeOutcome(v: Conv, run: seq<System>)
    requires ValidConv(v) && IsRun(v, run)
    ensures var x := run[|run| - 1];
            if Finished(x) then
              && x.sent == Upward(v) && x.replied == Downward(v)
              && SaidUpward(v, x.sent) && SaidDownward(v, x.replied)
              && x.server.result == Result(v)
              && x.client.ok == Succeeds(v)
              && (x.client.ok <==> |x.replied| > 3 && x.replied[3] == 0)
              && (Asks(v) && !Accepts(v.host) ==> |x.replied| > 3 && x.replied[3] == 8)
              && (x.client.ok ==> x.up == [] && x.down == [])
            else exists y :: Step(v, x, y)
  {
    hide Step, SaidUpward, SaidDownward;
    ScriptsShaped(v);
    RunInv(v, run);
    var x := run[|run| - 1];
    if Finished(x) {
      FinishedOutcome(v, ScriptsOf(v), x);
      if Asks(v) {
        RefusalCode(v);
      }
    } else {
      var y := NoDeadlock(v, ScriptsOf(v), x);
    }
  }

  lemma FinishedOutcome(v: Conv, t: Scripts, x: System)
    requires Shaped(v, t) && Sized(v, t) && Inv(v, t, x) && Finished(x)
    ensures x.sent == t.up && x.replied == t.down
    ensures x.server.result == Result(v) && x.client.ok == Succeeds(v)
    ensures x.client.ok <==> |x.replied| > 3 && x.replied[3] == 0
    ensures Asks(v) ==> |x.replied| > 3
    ensures x.client.ok ==> x.up == [] && x.down == []
  {
    hide ShapedRequest, Reply, Message, AddressBytes, PortBytes;
  }

  /** The reply to a name that is too short or too long. */
  lemma RefusalCode(v: Conv)
    requires ValidConv(v) && Asks(v)
    ensures !Accepts(v.host) ==> |Downward(v)| > 3 && Downward(v)[3] == 8
  {
    Halves(NO_AUTHENTICATION, Reply(v));
  }
}
