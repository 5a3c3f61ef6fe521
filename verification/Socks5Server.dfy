/**
 * src/proxy_server.rs, `handle_socks5` on any client: whatever methods are offered, whatever is
 * asked for, and however the stream is cut into reads.
 */
module Socks5Server {
  import opened Basics
  import opened Socks5
  import opened Streams

  datatype Error =
    | Truncated
    | NoMethods
    | NoneAcceptable
    | BadVersion
    | UnsupportedCommand(command: byte)
    | BadNameLength
    | UnsupportedAddress(kind: byte)
    | DialFailed(code: byte)

  /** A request and the number of bytes, behind the version byte of the greeting, that it takes. */
  datatype Parsed = Parsed(host: Host, port: port, length: nat)

  /** `read_exact` for a host of `size` bytes at `at`, and for the port behind it. */
  function ParseTarget(stream: seq<byte>, at: nat, size: nat, host: seq<byte> -> Host): Result<Parsed, Error> {
    if |stream| < at + size + 2 then Err(Truncated)
    else Ok(Parsed(host(stream[at..at + size]), FromPortBytes(stream[at + size..at + size + 2]), at + size + 2))
  }

  /** The request that begins at `at`. */
  function ParseRequest(stream: seq<byte>, at: nat): Result<Parsed, Error> {
    if |stream| < at + 4 then Err(Truncated)
    else if stream[at] != 5 then Err(BadVersion)
    else if stream[at + 1] != 1 then Err(UnsupportedCommand(stream[at + 1]))
    else if stream[at + 3] == 1 then ParseTarget(stream, at + 4, 4, (b: seq<byte>) => Ipv4(b))
    else if stream[at + 3] == 4 then ParseTarget(stream, at + 4, 16, (b: seq<byte>) => Ipv6(b))
    else if stream[at + 3] != 3 then Err(UnsupportedAddress(stream[at + 3]))
    else if |stream| < at + 5 then Err(Truncated)
    else if stream[at + 4] == 0 || stream[at + 4] > 253 then Err(BadNameLength)
    else ParseTarget(stream, at + 5, stream[at + 4] as nat, (b: seq<byte>) => Name(b))
  }

  /** How far the choice of a method got. */
  function Greeted(stream: seq<byte>): Result<nat, Error> {
    if |stream| < 1 then Err(Truncated)
    else if stream[0] == 0 then Err(NoMethods)
    else if |stream| < 1 + stream[0] as nat then Err(Truncated)
    else if 0 !in stream[1..1 + stream[0] as nat] then Err(NoneAcceptable)
    else Ok(1 + stream[0] as nat)
  }

  /** What a stream asks for. */
  function Parse(stream: seq<byte>): Result<Parsed, Error> {
    match Greeted(stream)
    case Err(e) => Err(e)
    case Ok(n) => ParseRequest(stream, n)
  }

  // ---- The request, octet for octet ----

  /**
   * The first `n` octets of a stream: a count of methods and the methods, 0 among them; version 5,
   * command 1, a reserved octet; an address of four or sixteen octets or a name of 1 to 253; a port.
   */
  ghost predicate IsRequest(stream: seq<byte>, h: Host, p: port, n: nat) {
    && n <= |stream| && stream != [] && stream[0] != 0
    && var at := 1 + stream[0] as int;
       && at + 6 <= n && 0 in stream[1..at]
       && stream[at] == 5 && stream[at + 1] == 1 && TargetOctets(stream[at + 3..n], h, p)
       && (match h
           case Ipv4(octets) => |octets| == 4
           case Ipv6(octets) => |octets| == 16
           case Name(text) => 1 <= |text| <= 253)
  }

  /** Why a stream holds no request. */
  ghost predicate Explains(stream: seq<byte>, e: Error) {
    if stream == [] then e == Truncated
    else if stream[0] == 0 then e == NoMethods
    else
      var at := 1 + stream[0] as int;
      if |stream| < at then e == Truncated
      else if 0 !in stream[1..at] then e == NoneAcceptable
      else if |stream| < at + 4 then e == Truncated
      else if stream[at] != 5 then e == BadVersion
      else if stream[at + 1] != 1 then e == UnsupportedCommand(stream[at + 1])
      else if stream[at + 3] == 1 then e == Truncated && |stream| < at + 4 + 4 + 2
      else if stream[at + 3] == 4 then e == Truncated && |stream| < at + 4 + 16 + 2
      else if stream[at + 3] != 3 then e == UnsupportedAddress(stream[at + 3])
      else if |stream| < at + 5 then e == Truncated
      else if stream[at + 4] == 0 || 253 < stream[at + 4] then e == BadNameLength
      else e == Truncated && |stream| < at + 5 + stream[at + 4] as int + 2
  }

  /** What is written back for a stream, octet for octet. */
  ghost predicate RepliesTo(stream: seq<byte>, e: Error, reply: seq<byte>) {
    match e
    case NoMethods => reply == []
    case NoneAcceptable => reply == [5, 255]
    case BadVersion => reply == [5, 0]
    case UnsupportedCommand(_) => reply == [5, 0] + [5, 7, 0, 1, 0, 0, 0, 0, 0, 0]
    case BadNameLength => reply == [5, 0] + [5, 8, 0, 1, 0, 0, 0, 0, 0, 0]
    case UnsupportedAddress(_) => reply == [5, 0] + [5, 8, 0, 1, 0, 0, 0, 0, 0, 0]
    case DialFailed(code) => reply == [5, 0] + [5, code, 0, 1, 0, 0, 0, 0, 0, 0]
    case Truncated => reply == if stream != [] && 1 + stream[0] as int <= |stream| then [5, 0] else []
  }

  /** The host of an address type. */
  function HostOf(kind: byte, b: seq<byte>): Host {
    if kind == 1 then Ipv4(b) else if kind == 4 then Ipv6(b) else Name(b)
  }

  predicate HasSize(h: Host, size: nat) {
    match h
    case Ipv4(octets) => |octets| == 4 && size == 4
    case Ipv6(octets) => |octets| == 16 && size == 16
    case Name(text) => |text| == size
  }

  /** `size` octets of address at `first`, behind the type or the length, and two of port. */
  lemma OctetsIff(stream: seq<byte>, at: nat, first: nat, size: nat, h: Host, p: port, n: nat)
    requires at + 4 <= first <= |stream|
    requires match stream[at + 3]
             case 1 => first == at + 4 && size == 4
             case 4 => first == at + 4 && size == 16
             case 3 => first == at + 5 && size == stream[at + 4] as int
             case _ => false
    ensures at + 6 <= n <= |stream| && TargetOctets(stream[at + 3..n], h, p) && HasSize(h, size) <==>
              && n == first + size + 2 <= |stream| && h == HostOf(stream[at + 3], stream[first..first + size])
              && p == 256 * (stream[n - 2] as int) + stream[n - 1] as int
  {
    if at + 6 <= n <= |stream| {
      var m := stream[at + 3..n];
      assert m[0] == stream[at + 3] && m[1] == stream[at + 4];
      assert m[|m| - 2] == stream[n - 2] && m[|m| - 1] == stream[n - 1];
      if n == first + size + 2 {
        SliceOfSlice(stream, at + 3, n, first - at - 3, first - at - 3 + size);
      }
    }
  }

  lemma SliceOfSlice(s: seq<byte>, from: nat, to: nat, i: nat, j: nat)
    requires from <= to <= |s| && i <= j <= to - from
    ensures s[from..to][i..j] == s[from + i..from + j]
  {
    var a, b := s[from..to][i..j], s[from + i..from + j];
    assert forall k :: 0 <= k < |a| ==> a[k] == b[k];
  }

  lemma RequestIff(stream: seq<byte>, at: nat, h: Host, p: port, n: nat)
    requires Greeted(stream) == Ok(at) && at + 4 <= |stream| && stream[at] == 5 && stream[at + 1] == 1
    ensures IsRequest(stream, h, p, n) <==> ParseRequest(stream, at) == Ok(Parsed(h, p, n))
  {
    hide TargetOctets, ParseTarget, IsRequest;
    RequestBehind(stream, at, h, p, n);
    if stream[at + 3] == 1 {
      TargetIff(stream, at, at + 4, 4, (b: seq<byte>) => Ipv4(b), h, p, n);
    } else if stream[at + 3] == 4 {
      TargetIff(stream, at, at + 4, 16, (b: seq<byte>) => Ipv6(b), h, p, n);
    } else if stream[at + 3] == 3 && at + 5 <= |stream| {
      TargetIff(stream, at, at + 5, stream[at + 4] as int, (b: seq<byte>) => Name(b), h, p, n);
    }
  }

  /** A request by the part behind its header. */
  lemma RequestBehind(stream: seq<byte>, at: nat, h: Host, p: port, n: nat)
    requires Greeted(stream) == Ok(at) && at + 4 <= |stream| && stream[at] == 5 && stream[at + 1] == 1
    ensures IsRequest(stream, h, p, n) <==>
              && at + 6 <= n <= |stream| && TargetOctets(stream[at + 3..n], h, p)
              && (match stream[at + 3]
                  case 1 => HasSize(h, 4)
                  case 4 => HasSize(h, 16)
                  case 3 => HasSize(h, stream[at + 4] as int) && 1 <= stream[at + 4] <= 253
                  case _ => false)
  {
    hide TargetOctets;
    if at + 6 <= n <= |stream| && TargetOctets(stream[at + 3..n], h, p) {
      KindOf(stream, at, h, p, n);
    }
  }

  lemma TargetIff(stream: seq<byte>, at: nat, first: nat, size: nat, make: seq<byte> -> Host, h: Host, p: port, n: nat)
    requires at + 4 <= first <= |stream|
    requires match stream[at + 3]
             case 1 => first == at + 4 && size == 4
             case 4 => first == at + 4 && size == 16
             case 3 => first == at + 5 && size == stream[at + 4] as int
             case _ => false
    requires forall b: seq<byte> :: make(b) == HostOf(stream[at + 3], b)
    ensures ParseTarget(stream, first, size, make) == Ok(Parsed(h, p, n)) <==>
              at + 6 <= n <= |stream| && TargetOctets(stream[at + 3..n], h, p) && HasSize(h, size)
  {
    hide TargetOctets, ParseTarget;
    OctetsIff(stream, at, first, size, h, p, n);
    TargetAt(stream, first, size, make);
  }

  lemma TargetAt(stream: seq<byte>, first: nat, size: nat, host: seq<byte> -> Host)
    ensures var r := ParseTarget(stream, first, size, host);
            if |stream| < first + size + 2 then r == Err(Truncated)
            else
              r == Ok(Parsed(host(stream[first..first + size]),
                             256 * (stream[first + size] as int) + stream[first + size + 1] as int, first + size + 2))
  {
  }

  /** The first octet of the target is its kind, and a name's second one its length. */
  lemma KindOf(stream: seq<byte>, at: nat, h: Host, p: port, n: nat)
    requires at + 6 <= n <= |stream| && TargetOctets(stream[at + 3..n], h, p)
    ensures stream[at + 3] == match h case Ipv4(_) => 1 case Ipv6(_) => 4 case Name(_) => 3
    ensures h.Name? ==> stream[at + 4] as int == |h.text|
  {
    var m := stream[at + 3..n];
    assert m[0] == stream[at + 3] && m[1] == stream[at + 4];
  }

  /** Exactly the requests are parsed, from their octets; every other stream fails as it is explained. */
  lemma ParseIff(stream: seq<byte>, h: Host, p: port, n: nat)
    ensures IsRequest(stream, h, p, n) <==> Parse(stream) == Ok(Parsed(h, p, n))
    ensures Parse(stream).Err? ==> Explains(stream, Parse(stream).error)
  {
    hide ParseTarget, TargetOctets, Explains;
    FailureExplained(stream);
    if Greeted(stream).Ok? {
      var at := Greeted(stream).value;
      if at + 4 <= |stream| && stream[at] == 5 && stream[at + 1] == 1 {
        RequestIff(stream, at, h, p, n);
      }
    }
  }

  lemma FailureExplained(stream: seq<byte>)
    ensures Parse(stream).Err? ==> Explains(stream, Parse(stream).error)
  {
  }

  /** What is written back before the request is read. */
  function MethodReply(stream: seq<byte>): seq<byte> {
    match Greeted(stream)
    case Ok(_) => NO_AUTHENTICATION
    case Err(NoneAcceptable) => NOTHING_ACCEPTABLE
    case Err(_) => []
  }

  /** What is written back for a request that is refused. */
  function Refusal(e: Error): seq<byte> {
    match e
    case UnsupportedCommand(_) => FailureReply(7)
    case BadNameLength => FailureReply(8)
    case UnsupportedAddress(_) => FailureReply(8)
    case DialFailed(code) => FailureReply(code)
    case _ => []
  }

  predicate ValidOutcome(outcome: Outcome) {
    match outcome
    case Connected(bound, _) => IsAddress(bound)
    case Failed(code) => code != 0
  }

  /** What the handler owes for a stream. */
  ghost predicate Answers(stream: seq<byte>, dial: (Host, port) -> Outcome, r: Result<(Host, port), Error>,
                          reply: seq<byte>, unread: seq<byte>)
    requires forall h, p :: ValidOutcome(dial(h, p))
  {
    match Parse(stream)
    case Err(e) => r == Err(e) && reply == MethodReply(stream) + Refusal(e)
    case Ok(parsed) =>
      && parsed.length <= |stream| && unread == stream[parsed.length..]
      && ValidOutcome(dial(parsed.host, parsed.port))
      && match dial(parsed.host, parsed.port)
         case Connected(bound, boundPort) =>
           r == Ok((parsed.host, parsed.port)) && reply == NO_AUTHENTICATION + Message(0, bound, boundPort)
         case Failed(code) =>
           r == Err(DialFailed(code)) && reply == NO_AUTHENTICATION + FailureReply(code)
  }

  /** The same octet for octet: who is dialed, what is written back, and what is left of the stream. */
  ghost predicate Obliged(stream: seq<byte>, dial: (Host, port) -> Outcome, r: Result<(Host, port), Error>,
                          reply: seq<byte>, unread: seq<byte>) {
    match r
    case Ok((h, p)) =>
      && (exists n: nat :: IsRequest(stream, h, p, n) && unread == stream[n..])
      && dial(h, p).Connected? && 2 <= |reply| && reply[..2] == [5, 0]
      && MessageOctets(reply[2..], 0, dial(h, p).bound, dial(h, p).boundPort)
    case Err(DialFailed(code)) =>
      && RepliesTo(stream, DialFailed(code), reply)
      && exists h, p, n: nat :: IsRequest(stream, h, p, n) && unread == stream[n..] && dial(h, p) == Failed(code)
    case Err(e) => RepliesTo(stream, e, reply) && Explains(stream, e)
  }

  lemma RefusalOctets(stream: seq<byte>)
    requires Parse(stream).Err?
    ensures RepliesTo(stream, Parse(stream).error, MethodReply(stream) + Refusal(Parse(stream).error))
  {
    hide FailureReply;
    FailureOctets(7);
    FailureOctets(8);
    assert forall m: seq<byte> :: m + [] == m;
  }

  lemma AnswersOctets(stream: seq<byte>, dial: (Host, port) -> Outcome, r: Result<(Host, port), Error>,
                      reply: seq<byte>, unread: seq<byte>)
    requires forall h, p :: ValidOutcome(dial(h, p))
    requires Answers(stream, dial, r, reply, unread)
    ensures Obliged(stream, dial, r, reply, unread)
  {
    hide Parse, IsRequest, Explains, RepliesTo, MessageOctets, Message, MethodReply, Refusal, FailureReply;
    match Parse(stream)
    case Err(e) =>
      ParseIff(stream, Name([]), 0, 0);
      RefusalOctets(stream);
      NeverDials(stream);
    case Ok(Parsed(h, p, n)) =>
      ParseIff(stream, h, p, n);
      assert ValidOutcome(dial(h, p));
      match dial(h, p) {
        case Connected(bound, boundPort) =>
          MessageIs(0, bound, boundPort);
          Halves(NO_AUTHENTICATION, Message(0, bound, boundPort));
        case Failed(code) =>
          FailureOctets(code);
          DialReply(stream, code);
      }
  }

  lemma NeverDials(stream: seq<byte>)
    ensures Parse(stream).Err? ==> !Parse(stream).error.DialFailed?
  {
  }

  lemma DialReply(stream: seq<byte>, code: byte)
    ensures RepliesTo(stream, DialFailed(code), [5, 0] + [5, code, 0, 1, 0, 0, 0, 0, 0, 0])
  {
  }

  /** `unread` is what is left of `stream` from `at` on. */
  predicate ReadUpTo(stream: seq<byte>, at: nat, unread: seq<byte>) {
    at <= |stream| && unread == stream[at..]
  }

  method ReadNext(source: ByteSource<byte>, ghost stream: seq<byte>, ghost at: nat, n: nat)
      returns (r: Option<seq<byte>>)
    requires ReadUpTo(stream, at, source.unread)
    modifies source
    ensures r.None? <==> |stream| < at + n
    ensures r.Some? ==> ReadUpTo(stream, at + n, source.unread) && r.value == stream[at..at + n]
  {
    r := source.ReadExact(n);
  }

  /** The two reads of an address and its port. */
  method ReadTarget(source: ByteSource<byte>, ghost stream: seq<byte>, ghost at: nat, size: nat,
      host: seq<byte> -> Host)
    returns (r: Result<(Host, port), Error>)
    requires ReadUpTo(stream, at, source.unread)
    modifies source
    ensures match ParseTarget(stream, at, size, host)
            case Err(e) => r == Err(e)
            case Ok(parsed) => r == Ok((parsed.host, parsed.port)) && ReadUpTo(stream, parsed.length, source.unread)
  {
    var addr := ReadNext(source, stream, at, size);
    if addr.None? {
      return Err(Truncated);
    }
    var portBytes := ReadNext(source, stream, at + size, 2);
    if portBytes.None? {
      return Err(Truncated);
    }
    return Ok((host(addr.value), FromPortBytes(portBytes.value)));
  }

  /** From the request header to the port. */
  method ReadRequest(source: ByteSource<byte>, ghost stream: seq<byte>, ghost at: nat)
    returns (r: Result<(Host, port), Error>)
    requires ReadUpTo(stream, at, source.unread)
    modifies source
    ensures match ParseRequest(stream, at)
            case Err(e) => r == Err(e)
            case Ok(parsed) => r == Ok((parsed.host, parsed.port)) && ReadUpTo(stream, parsed.length, source.unread)
  {
    var header := ReadNext(source, stream, at, 4);
    if header.None? {
      return Err(Truncated);
    }
    HeaderBytes(stream, at);
    if header.value[0] != 5 {
      return Err(BadVersion);
    }
    if header.value[1] != 1 {
      return Err(UnsupportedCommand(header.value[1]));
    }
    if header.value[3] == 1 {
      r := ReadTarget(source, stream, at + 4, 4, (b: seq<byte>) => Ipv4(b));
    } else if header.value[3] == 3 {
      var length := ReadNext(source, stream, at + 4, 1);
      if length.None? {
        return Err(Truncated);
      }
      if length.value[0] == 0 || length.value[0] > 253 {
        return Err(BadNameLength);
      }
      r := ReadTarget(source, stream, at + 5, length.value[0] as nat, (b: seq<byte>) => Name(b));
    } else if header.value[3] == 4 {
      r := ReadTarget(source, stream, at + 4, 16, (b: seq<byte>) => Ipv6(b));
    } else {
      r := Err(UnsupportedAddress(header.value[3]));
    }
  }

  lemma HeaderBytes(stream: seq<byte>, at: nat)
    requires at + 4 <= |stream|
    ensures var header := stream[at..at + 4];
            header[0] == stream[at] && header[1] == stream[at + 1] && header[3] == stream[at + 3]
  {
  }

  method ReadGreeting(source: ByteSource<byte>) returns (r: Result<(), Error>, reply: seq<byte>)
    modifies source
    ensures reply == MethodReply(old(source.unread))
    ensures match Greeted(old(source.unread))
            case Err(e) => r == Err(e)
            case Ok(n) => r.Ok? && ReadUpTo(old(source.unread), n, source.unread)
  {
    ghost var stream := source.unread;
    var count := ReadNext(source, stream, 0, 1);
    if count.None? {
      return Err(Truncated), [];
    }
    if count.value[0] == 0 {
      return Err(NoMethods), [];
    }
    var methods := ReadNext(source, stream, 1, count.value[0] as nat);
    if methods.None? {
      return Err(Truncated), [];
    }
    if 0 !in methods.value {
      return Err(NoneAcceptable), NOTHING_ACCEPTABLE;
    }
    return Ok(()), NO_AUTHENTICATION;
  }

  /** `handle_socks5` behind the version byte; `reply` is all that is written back. */
  method HandleSocks5(source: ByteSource<byte>, dial: (Host, port) -> Outcome)
    returns (r: Result<(Host, port), Error>, reply: seq<byte>)
    requires forall h, p :: ValidOutcome(dial(h, p))
    modifies source
    ensures Answers(old(source.unread), dial, r, reply, source.unread)
    ensures Obliged(old(source.unread), dial, r, reply, source.unread)
  {
    hide Obliged, Message, FailureReply, ParseRequest;
    ghost var stream := source.unread;
    var greeting;
    greeting, reply := ReadGreeting(source);
    if greeting.Err? {
      r := Err(greeting.error);
      assert reply + [] == reply;
      AnswersOctets(stream, dial, r, reply, source.unread);
      return;
    }
    ghost var at := Greeted(stream).value;
    var request := ReadRequest(source, stream, at);
    if request.Err? {
      r, reply := Err(request.error), reply + Refusal(request.error);
      AnswersOctets(stream, dial, r, reply, source.unread);
      return;
    }
    var (host, p) := request.value;
    match dial(host, p) {
      case Connected(bound, boundPort) =>
        r, reply := Ok((host, p)), reply + Message(0, bound, boundPort);
      case Failed(code) =>
        r, reply := Err(DialFailed(code)), reply + FailureReply(code);
    }
    AnswersOctets(stream, dial, r, reply, source.unread);
  }

  // ---- The server of the exchange on any stream ----

  /** How many kinds of read and write still lie before the server. */
  function ServerStage(s: Server): nat {
    match s
    case ServerReading(Version, _) => 8
    case ServerReading(Count, _) => 7
    case ServerReading(Methods(_), _) => 6
    case ServerWriting(MethodChoice(_), _) => 5
    case ServerReading(RequestHeader, _) => 4
    case ServerReading(NameLength, _) => 3
    case ServerReading(Address(_), _) => 2
    case ServerReading(Port(_), _) => 1
    case _ => 0
  }

  /** Where the server comes to on a stream that has arrived in full, when it can write its choice of a method. */
  function Serve(s: Server, stream: seq<byte>): Server
    decreases ServerStage(s)
  {
    match s
    case ServerReading(at, _) =>
      var n := ServerNeed(at);
      if |stream| < n then s else Serve(ServerHandles(at, stream[..n]), stream[n..])
    case ServerWriting(MethodChoice(acceptable), _) =>
      if acceptable then Serve(ServerWrote(MethodChoice(true)), stream) else s
    case _ => s
  }

  lemma ServeNext(stream: seq<byte>, from: nat, at: ServerRead)
    requires from <= |stream|
    ensures Serve(ServerReading(at, []), stream[from..])
         == if |stream| < from + ServerNeed(at) then ServerReading(at, [])
            else Serve(ServerHandles(at, stream[from..from + ServerNeed(at)]), stream[from + ServerNeed(at)..])
  {
    var n := ServerNeed(at);
    if from + n <= |stream| {
      assert stream[from..][..n] == stream[from..from + n] && stream[from..][n..] == stream[from + n..];
    }
  }

  lemma ServePort(stream: seq<byte>, from: nat, host: Host)
    requires from <= |stream|
    ensures Serve(ServerReading(Port(host), []), stream[from..])
         == if |stream| < from + 2 then ServerReading(Port(host), [])
            else Dialing(host, 256 * (stream[from] as int) + stream[from + 1] as int)
  {
    ServeNext(stream, from, Port(host));
  }

  /** What the server does when it cannot parse a request. */
  ghost predicate StopsFor(s: Server, e: Error) {
    match e
    case Truncated => s.ServerReading?
    case NoMethods => s == ServerDone(Refused)
    case BadVersion => s == ServerDone(Refused)
    case NoneAcceptable => s == ServerWriting(MethodChoice(false), [5, 255])
    case UnsupportedCommand(_) => s == ServerWriting(ReplyThen(Refused), FailureReply(7))
    case BadNameLength => s == ServerWriting(ReplyThen(Refused), FailureReply(8))
    case UnsupportedAddress(_) => s == ServerWriting(ReplyThen(Refused), FailureReply(8))
    case DialFailed(_) => false
  }

  ghost predicate ComesTo(s: Server, parsed: Result<Parsed, Error>) {
    match parsed
    case Ok(Parsed(h, p, _)) => s == Dialing(h, p)
    case Err(e) => StopsFor(s, e)
  }

  lemma ServeAddress(stream: seq<byte>, from: nat, kind: Kind, make: seq<byte> -> Host)
    requires from <= |stream|
    requires forall b: seq<byte> :: make(b) == match kind
                                               case FourBytes => Ipv4(b)
                                               case SixteenBytes => Ipv6(b)
                                               case Text(_) => Name(b)
    ensures ComesTo(Serve(ServerReading(Address(kind), []), stream[from..]),
                    ParseTarget(stream, from, ServerNeed(Address(kind)), make))
  {
    hide Serve;
    var n := ServerNeed(Address(kind));
    ServeNext(stream, from, Address(kind));
    if from + n <= |stream| {
      ServePort(stream, from + n, make(stream[from..from + n]));
      TargetAt(stream, from, n, make);
    }
  }

  lemma ServeRequest(stream: seq<byte>, at: nat)
    requires at <= |stream|
    ensures ComesTo(Serve(ServerReading(RequestHeader, []), stream[at..]), ParseRequest(stream, at))
  {
    hide Serve, ParseTarget;
    ServeNext(stream, at, RequestHeader);
    if at + 4 <= |stream| {
      HeaderBytes(stream, at);
      ServeNext(stream, at + 4, NameLength);
      ServeAddress(stream, at + 4, FourBytes, (b: seq<byte>) => Ipv4(b));
      ServeAddress(stream, at + 4, SixteenBytes, (b: seq<byte>) => Ipv6(b));
      if at + 5 <= |stream| {
        assert stream[at + 4..at + 5][0] == stream[at + 4];
        ServeAddress(stream, at + 5, Text(stream[at + 4] as nat), (b: seq<byte>) => Name(b));
      }
      ServeStopped(stream, at);
    }
  }

  lemma ServeStopped(stream: seq<byte>, at: nat)
    requires at + 4 <= |stream|
    ensures Serve(ServerDone(Refused), stream[at + 4..]) == ServerDone(Refused)
    ensures forall reply :: Serve(ServerWriting(ReplyThen(Refused), reply), stream[at + 4..])
                         == ServerWriting(ReplyThen(Refused), reply)
    ensures forall reply :: at + 5 <= |stream| ==>
              Serve(ServerWriting(ReplyThen(Refused), reply), stream[at + 5..])
                == ServerWriting(ReplyThen(Refused), reply)
  {
  }

  /**
   * On every stream, not only on those of the other forwarder, the server of the exchange comes to
   * what the parse says: the same dial, the same refusal, or a read that the stream does not fill.
   */
  lemma ServeIsParse(stream: seq<byte>)
    ensures ComesTo(Serve(ServerReading(Version, []), [5] + stream), Parse(stream))
  {
    hide Serve, ParseRequest;
    ServeNext([5] + stream, 0, Version);
    assert ([5] + stream)[0..] == [5] + stream && ([5] + stream)[1..] == stream[0..];
    ServeNext(stream, 0, Count);
    if stream != [] {
      var count := stream[0] as nat;
      ServeNext(stream, 1, Methods(count));
      if 1 + count <= |stream| {
        ServeChosen(stream, 1 + count);
        ServeRequest(stream, 1 + count);
      }
    }
  }

  lemma ServeChosen(stream: seq<byte>, at: nat)
    requires at <= |stream|
    ensures Serve(ServerWriting(MethodChoice(true), NO_AUTHENTICATION), stream[at..])
         == Serve(ServerReading(RequestHeader, []), stream[at..])
    ensures Serve(ServerWriting(MethodChoice(false), NOTHING_ACCEPTABLE), stream[at..])
         == ServerWriting(MethodChoice(false), [5, 255])
    ensures forall k :: 0 <= k <= |stream| ==> Serve(ServerDone(Refused), stream[k..]) == ServerDone(Refused)
  {
  }

  // ---- The requests a client can form ----

  /** Behind its version byte: the offered methods, then version, command, a reserved byte, and the target. */
  function Encoding(methods: seq<byte>, reserved: byte, host: Host, p: port): seq<byte>
    requires |methods| <= 255 && (host.Name? ==> |host.text| <= 255)
  {
    [|methods| as byte] + methods + ([5, 1, reserved, AddressType(host)] + (AddressBytes(host) + PortBytes(p)))
  }

  predicate WellFormed(methods: seq<byte>, host: Host) {
    0 in methods && |methods| <= 255 && (host.Name? || IsAddress(host)) && Accepts(host)
  }

  lemma GreetingOf(methods: seq<byte>, rest: seq<byte>)
    requires |methods| <= 255 && 0 in methods
    ensures Greeted([|methods| as byte] + methods + rest) == Ok(1 + |methods|)
    ensures ([|methods| as byte] + methods + rest)[1 + |methods|..] == rest
  {
    var stream := [|methods| as byte] + methods + rest;
    assert stream[1..1 + |methods|] == methods;
  }

  /** A request is read from its own bytes, wherever it begins. */
  lemma ParseShift(stream: seq<byte>, at: nat)
    requires at <= |stream|
    ensures ParseRequest(stream, at) == match ParseRequest(stream[at..], 0)
                                        case Err(e) => Err(e)
                                        case Ok(parsed) => Ok(parsed.(length := at + parsed.length))
  {
    var rest := stream[at..];
    assert forall k :: 0 <= k < |rest| ==> rest[k] == stream[at + k];
    if |rest| >= 4 && rest[0] == 5 && rest[1] == 1 {
      if rest[3] == 1 {
        TargetShift(stream, at, 4, 4, (b: seq<byte>) => Ipv4(b));
      } else if rest[3] == 4 {
        TargetShift(stream, at, 4, 16, (b: seq<byte>) => Ipv6(b));
      } else if rest[3] == 3 && |rest| >= 5 {
        TargetShift(stream, at, 5, rest[4] as nat, (b: seq<byte>) => Name(b));
      }
    }
  }

  lemma TargetShift(stream: seq<byte>, at: nat, i: nat, size: nat, host: seq<byte> -> Host)
    requires at <= |stream|
    ensures ParseTarget(stream, at + i, size, host) == match ParseTarget(stream[at..], i, size, host)
                                                       case Err(e) => Err(e)
                                                       case Ok(parsed) => Ok(parsed.(length := at + parsed.length))
  {
    if at + i + size + 2 <= |stream| {
      SliceShift(stream, at, i, i + size);
      SliceShift(stream, at, i + size, i + size + 2);
    }
  }

  lemma SliceShift(stream: seq<byte>, at: nat, i: nat, j: nat)
    requires i <= j && at + j <= |stream|
    ensures stream[at..][i..j] == stream[at + i..at + j]
  {
  }

  lemma RequestOf(reserved: byte, host: Host, p: port, tail: seq<byte>)
    requires (host.Name? || IsAddress(host)) && Accepts(host)
    ensures var request := [5, 1, reserved, AddressType(host)] + (AddressBytes(host) + PortBytes(p));
            ParseRequest(request + tail, 0) == Ok(Parsed(host, p, |request|))
  {
    var head, addr, portBytes := [5, 1, reserved, AddressType(host)], AddressBytes(host), PortBytes(p);
    var stream := head + (addr + portBytes) + tail;
    PortRoundTrip(p);
    PiecesAt(head, addr, portBytes, tail);
    if host.Name? {
      assert addr[1..] == host.text;
      assert stream[4] == addr[0];
      SliceShift(stream, 4, 1, |addr|);
      assert stream[4..][1..|addr|] == stream[4..4 + |addr|][1..];
    }
  }

  lemma PiecesAt(head: seq<byte>, addr: seq<byte>, portBytes: seq<byte>, tail: seq<byte>)
    requires |head| == 4 && |portBytes| == 2
    ensures var stream := head + (addr + portBytes) + tail;
            && |stream| >= 4 + |addr| + 2 && stream[4..4 + |addr|] == addr
            && stream[4 + |addr|..4 + |addr| + 2] == portBytes
            && stream[0] == head[0] && stream[1] == head[1] && stream[3] == head[3]
            && (addr != [] ==> stream[4] == addr[0])
  {
  }

  /**
   * Every well-formed request is parsed to its own host, port and length, whatever methods stand
   * beside 0 and whatever follows.
   */
  lemma ParseEncoded(methods: seq<byte>, reserved: byte, host: Host, p: port, tail: seq<byte>)
    requires WellFormed(methods, host)
    ensures Parse(Encoding(methods, reserved, host, p) + tail)
        == Ok(Parsed(host, p, |Encoding(methods, reserved, host, p)|))
  {
    hide ParseRequest, Greeted;
    var request := [5, 1, reserved, AddressType(host)] + (AddressBytes(host) + PortBytes(p));
    Associate([|methods| as byte] + methods, request, tail);
    GreetingOf(methods, request + tail);
    RequestOf(reserved, host, p, tail);
    ParseShift([|methods| as byte] + methods + (request + tail), 1 + |methods|);
  }

  /** Only well-formed requests are parsed: what was consumed encodes the result. */
  lemma ParsedIsEncoded(stream: seq<byte>) returns (methods: seq<byte>, reserved: byte)
    requires Parse(stream).Ok?
    ensures var parsed := Parse(stream).value;
            && WellFormed(methods, parsed.host) && parsed.length <= |stream|
            && stream[..parsed.length] == Encoding(methods, reserved, parsed.host, parsed.port)
  {
    var n := Greeted(stream).value;
    methods := stream[1..n];
    ParseShift(stream, n);
    reserved := RequestEncodes(stream[n..]);
    var parsed := ParseRequest(stream[n..], 0).value;
    hide ParseRequest, Accepts, AddressBytes, PortBytes, AddressType;
    GreetingBytes(stream, n, parsed.length);
  }

  lemma GreetingBytes(stream: seq<byte>, n: nat, length: nat)
    requires Greeted(stream) == Ok(n) && n + length <= |stream|
    ensures 0 in stream[1..n] && |stream[1..n]| <= 255 && n == 1 + |stream[1..n]|
    ensures stream[..n + length] == [|stream[1..n]| as byte] + stream[1..n] + stream[n..][..length]
  {
    assert stream[..n] == [|stream[1..n]| as byte] + stream[1..n];
    assert stream[..n + length] == stream[..n] + stream[n..][..length];
  }

  lemma RequestEncodes(rest: seq<byte>) returns (reserved: byte)
    requires ParseRequest(rest, 0).Ok?
    ensures var parsed := ParseRequest(rest, 0).value;
            && (parsed.host.Name? || IsAddress(parsed.host)) && Accepts(parsed.host) && parsed.length <= |rest|
            && rest[..parsed.length]
               == [5, 1, reserved, AddressType(parsed.host)] + (AddressBytes(parsed.host) + PortBytes(parsed.port))
  {
    reserved := rest[2];
    var parsed := ParseRequest(rest, 0).value;
    var n := parsed.length;
    assert rest[..4] == [5, 1, reserved, AddressType(parsed.host)];
    PortBytesBack(rest[n - 2..n]);
    if parsed.host.Name? {
      assert rest[4..n - 2] == [rest[4]] + rest[5..n - 2];
    }
    assert rest[4..n - 2] == AddressBytes(parsed.host);
    assert rest[..n] == rest[..4] + (rest[4..n - 2] + rest[n - 2..n]);
  }

  lemma PortBytesBack(b: seq<byte>)
    requires |b| == 2
    ensures PortBytes(FromPortBytes(b)) == b
  {
  }

  lemma UpwardEncodes(v: Conv)
    requires ValidConv(v) && Asks(v)
    ensures Upward(v)[0] == 5 && Upward(v)[1..] == Encoding([0], 0, v.host, v.port)
  {
    hide AddressBytes, PortBytes, AddressType;
    var m := Message(1, v.host, v.port);
    assert Encoding([0], 0, v.host, v.port) == [1, 0] + m;
    assert Upward(v)[1..] == [1, 0] + m;
  }

  /** What the other forwarder says is among these streams, and is read as the exchange reads it. */
  lemma AgreesWithExchange(v: Conv, tail: seq<byte>)
    requires ValidConv(v) && Asks(v) && Accepts(v.host)
    ensures Upward(v)[0] == 5 && Parse(Upward(v)[1..] + tail) == Ok(Parsed(v.host, v.port, |Upward(v)| - 1))
  {
    hide Parse, Message, AddressBytes, PortBytes;
    UpwardEncodes(v);
    ParseEncoded([0], 0, v.host, v.port, tail);
  }
}
