/**
 * Where a handshake in src/proxy_server.rs or src/proxy_client.rs hands over to `relay_data`: the
 * bytes that were read too far are written first, then the rest of the same stream.
 */
module Tunnel {
  import opened Basics
  import opened Streams
  import HeadReader
  import HttpConnect
  import Relay
  import Socks4
  import Socks5
  import Socks5Server

  /** What is left of a stream after its first `n` bytes, some of it read already. */
  lemma Handover<T>(stream: seq<T>, n: nat, leftover: seq<T>, unread: seq<T>)
    requires n <= |stream| && stream[..n] + leftover + unread == stream
    ensures leftover + unread == stream[n..]
  {
    Associate(stream[..n], leftover, unread);
    Halves(stream[..n], leftover + unread);
  }

  /** Of `rest` a first part was sent, all of it by a pump that ended well. */
  ghost predicate Passed<T>(rest: seq<T>, sent: seq<T>, ok: bool) {
    sent <= rest && (ok ==> sent == rest)
  }

  /** A SOCKS4 client: behind its request every byte, and no other, goes to the target. */
  method RelaySocks4(client: ByteSource<byte>, steady: bool, dial: (Socks4.Host, port) -> bool,
                     target: Relay.Sink<byte>, meter: Relay.Meter, isDirect: bool)
    returns (r: Result<Socks4.Request, Socks4.Error>, ok: bool, sent: seq<byte>)
    modifies client, target, meter
    ensures r.Ok? <==> exists h, p, n :: Socks4.IsRequest(old(client.unread), h, p, n) && dial(h, p)
    ensures target.delivered == old(target.delivered) + sent
    ensures r.Err? ==> sent == [] && !ok
    ensures r.Ok? ==> exists n :: Socks4.IsRequest(old(client.unread), r.value.host, r.value.port, n)
                                  && Passed(old(client.unread)[n..], sent, ok)
    ensures ok ==> meter.own == old(meter.own) + |sent|
    ensures r.Ok? && steady && target.steady ==> ok
  {
    hide Socks4.Answers, Socks4.FirstZero, Socks4.EndsBehind, Socks4.NamesHost;
    ghost var stream := client.unread;
    var reply;
    r, reply := Socks4.HandleSocks4(client, dial);
    if r.Err? {
      Socks4Refused(stream, dial, r.error, client.unread);
      return r, false, [];
    }
    ghost var n :| Socks4.IsRequest(stream, r.value.host, r.value.port, n)
      && stream[..n] + r.value.leftover + client.unread == stream;
    Handover(stream, n, r.value.leftover, client.unread);
    ok, sent := Relay.Forward(client, steady, target, meter, isDirect, r.value.leftover);
    assert Passed(stream[n..], sent, ok);
  }

  lemma Socks4Refused(stream: seq<byte>, dial: (Socks4.Host, port) -> bool, e: Socks4.Error, unread: seq<byte>)
    requires e.Unreachable? ==> exists h, p, n :: Socks4.IsRequest(stream, h, p, n) && !dial(h, p)
    requires !e.Unreachable? ==> Socks4.Answers(stream, Err(e), unread)
    ensures forall h, p, n :: Socks4.IsRequest(stream, h, p, n) ==> !dial(h, p)
  {
    hide Socks4.FailureAllowed, Socks4.ParseFields, Socks4.FirstZero, Socks4.NamesHost;
    forall h, p, n | Socks4.IsRequest(stream, h, p, n)
      ensures Socks4.Parse(stream) == Some(Socks4.Parsed(h, p, n))
    {
      Socks4.RequestParsed(stream, h, p, n);
    }
  }

  /** A SOCKS5 client: its handshake is read to the byte, so nothing is left over and the rest goes to the target. */
  method RelaySocks5(client: ByteSource<byte>, steady: bool, dial: (Socks5.Host, port) -> Socks5.Outcome,
                     target: Relay.Sink<byte>, meter: Relay.Meter, isDirect: bool)
    returns (r: Result<(Socks5.Host, port), Socks5Server.Error>, ok: bool, sent: seq<byte>)
    requires forall h, p :: Socks5Server.ValidOutcome(dial(h, p))
    modifies client, target, meter
    ensures target.delivered == old(target.delivered) + sent
    ensures r.Err? ==> sent == [] && !ok
    ensures r.Ok? ==> exists n: nat :: Socks5Server.IsRequest(old(client.unread), r.value.0, r.value.1, n)
                                       && Passed(old(client.unread)[n..], sent, ok)
    ensures ok ==> meter.own == old(meter.own) + |sent|
    ensures r.Ok? && steady && target.steady ==> ok
  {
    hide Socks5Server.Answers, Socks5.TargetOctets, Socks5Server.Explains, Socks5Server.RepliesTo;
    ghost var stream := client.unread;
    var reply;
    r, reply := Socks5Server.HandleSocks5(client, dial);
    if r.Err? {
      return r, false, [];
    }
    ghost var n: nat :| Socks5Server.IsRequest(stream, r.value.0, r.value.1, n) && client.unread == stream[n..];
    ok, sent := Relay.Forward(client, steady, target, meter, isDirect, []);
    assert [] + stream[n..] == stream[n..];
    assert Passed(stream[n..], sent, ok);
  }

  /** An HTTP client, CONNECT or not: behind its head every byte, and no other, goes to the target. */
  method RelayHttp(client: ByteSource<char>, firstByte: char, uris: HttpConnect.Uris, dial: HttpConnect.Target -> bool,
                   steady: bool, target: Relay.Sink<char>, meter: Relay.Meter, isDirect: bool)
    returns (r: Result<HttpConnect.Accepted, HttpConnect.ServeError>, ok: bool, sent: string)
    requires HttpConnect.KeepsLine(uris)
    modifies client, target, meter
    ensures target.delivered == old(target.delivered) + sent
    ensures r.Err? ==> sent == [] && !ok
    ensures r.Ok? ==> var stream := [firstByte] + old(client.unread);
                      var head := HeadReader.HeadOf(stream, HeadReader.HTTP_HEADER_MAX_LEN);
                      && head.Ok? && head.value <= |stream|
                      && Passed(stream[head.value..], sent, ok)
    ensures ok ==> meter.own == old(meter.own) + |sent|
    ensures r.Ok? && steady && target.steady ==> ok
  {
    hide HeadReader.HeadOf, HttpConnect.ParseRequest, HttpConnect.KeepsLine, HttpConnect.Explained;
    ghost var stream := [firstByte] + client.unread;
    var reply;
    r, reply := HttpConnect.HandleHttp(client, firstByte, uris, dial);
    if r.Err? {
      return r, false, [];
    }
    Handover(stream, HeadReader.HeadOf(stream, HeadReader.HTTP_HEADER_MAX_LEN).value, r.value.leftover, client.unread);
    ok, sent := Relay.Forward(client, steady, target, meter, isDirect, r.value.leftover);
  }

  /** The way back through an upstream HTTP proxy: behind its reply every byte goes to the client. */
  method RelayReply(proxy: ByteSource<char>, steady: bool, client: Relay.Sink<char>, meter: Relay.Meter, isDirect: bool)
    returns (r: Result<string, HttpConnect.ClientError>, ok: bool, sent: string)
    modifies proxy, client, meter
    ensures client.delivered == old(client.delivered) + sent
    ensures r.Err? ==> sent == [] && !ok
    ensures r.Ok? ==> var head := HeadReader.HeadOf(old(proxy.unread), HeadReader.CONNECT_RESPONSE_MAX_LEN);
                      && head.Ok? && head.value <= |old(proxy.unread)|
                      && Passed(old(proxy.unread)[head.value..], sent, ok)
    ensures ok ==> meter.own == old(meter.own) + |sent|
    ensures r.Ok? && steady && client.steady ==> ok
  {
    hide HeadReader.HeadOf, HttpConnect.CheckReply;
    ghost var stream := proxy.unread;
    r := HttpConnect.AwaitReply(proxy);
    if r.Err? {
      return r, false, [];
    }
    Handover(stream, HeadReader.HeadOf(stream, HeadReader.CONNECT_RESPONSE_MAX_LEN).value, r.value, proxy.unread);
    ok, sent := Relay.Forward(proxy, steady, client, meter, isDirect, r.value);
  }
}
