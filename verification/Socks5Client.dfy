/**
 * src/proxy_client.rs, `socks5_connect` against any server: whatever it answers, in full or cut off.
 */
module Socks5Client {
  import opened Basics
  import opened Socks5

  /** How many kinds of read and write still lie before the client. */
  function ClientStage(c: Client): nat {
    match c
    case ClientWriting(Greeting, _) => 6
    case ClientReading(Method, _) => 5
    case ClientWriting(Request, _) => 4
    case ClientReading(Header, _) => 3
    case ClientReading(Length, _) => 2
    case ClientReading(Tail(_), _) => 1
    case ClientDone(_) => 0
  }

  /** Where the client comes to on answers that have arrived in full, and what it leaves of them. */
  function Connect(v: Conv, c: Client, answers: seq<byte>): (Client, seq<byte>)
    decreases ClientStage(c)
  {
    match c
    case ClientReading(at, _) =>
      var n := ClientNeed(at);
      if |answers| < n then (c, answers) else Connect(v, ClientHandles(v, at, answers[..n]), answers[n..])
    case ClientWriting(what, _) => Connect(v, ClientWrote(what), answers)
    case ClientDone(_) => (c, answers)
  }

  /** Addresses can always be asked for, names only of an upstream that resolves them, up to 255 octets. */
  predicate CanAsk(v: Conv) {
    v.host.Name? ==> v.remoteNames && |v.host.text| <= 255
  }

  /**
   * The first `n` octets choose method 0 and grant the request: version 5, code 0, a reserved octet,
   * and a bound address of four or sixteen octets, or a name with its length in front, and a port.
   */
  predicate IsGrant(v: Conv, answers: seq<byte>, n: nat) {
    && CanAsk(v) && 6 <= n <= |answers|
    && answers[0] == 5 && answers[1] == 0 && answers[2] == 5 && answers[3] == 0
    && (|| (answers[5] == 1 && n == 12)
        || (answers[5] == 4 && n == 24)
        || (answers[5] == 3 && 7 <= n && n == 9 + answers[6] as int))
  }

  /** Something among the octets needed so far is wrong, or the client cannot ask at all. */
  predicate IsDenial(v: Conv, answers: seq<byte>) {
    && 2 <= |answers|
    && (|| answers[0] != 5 || answers[1] != 0 || !CanAsk(v)
        || (6 <= |answers| && (answers[2] != 5 || answers[3] != 0 || answers[5] !in {1, 3, 4})))
  }

  lemma ConnectNext(v: Conv, answers: seq<byte>, from: nat, at: ClientRead)
    requires from <= |answers|
    ensures Connect(v, ClientReading(at, []), answers[from..])
         == if |answers| < from + ClientNeed(at) then (ClientReading(at, []), answers[from..])
            else
              Connect(v, ClientHandles(v, at, answers[from..from + ClientNeed(at)]), answers[from + ClientNeed(at)..])
  {
    var n := ClientNeed(at);
    if from + n <= |answers| {
      assert answers[from..][..n] == answers[from..from + n] && answers[from..][n..] == answers[from + n..];
    }
  }

  lemma ConnectTail(v: Conv, answers: seq<byte>, from: nat, size: nat)
    requires from <= |answers|
    ensures Connect(v, ClientReading(Tail(size), []), answers[from..])
         == if |answers| < from + size then (ClientReading(Tail(size), []), answers[from..])
            else (ClientDone(true), answers[from + size..])
  {
    ConnectNext(v, answers, from, Tail(size));
  }

  lemma ConnectSimple(v: Conv, answers: seq<byte>)
    ensures Connect(v, ClientDone(false), answers) == (ClientDone(false), answers)
    ensures forall left :: Connect(v, ClientWriting(Greeting, left), answers)
                        == Connect(v, ClientReading(Method, []), answers)
    ensures forall left :: Connect(v, ClientWriting(Request, left), answers)
                        == Connect(v, ClientReading(Header, []), answers)
  {
  }

  /** What the client makes of the reply behind the choice of a method. */
  lemma ConnectReply(v: Conv, answers: seq<byte>)
    requires 2 <= |answers| && answers[0] == 5 && answers[1] == 0 && CanAsk(v)
    ensures var (c, rest) := Connect(v, ClientReading(Header, []), answers[2..]);
            && (c == ClientDone(true) <==> exists n: nat :: IsGrant(v, answers, n))
            && (forall n: nat :: IsGrant(v, answers, n) ==> rest == answers[n..])
            && (c == ClientDone(false) <==> IsDenial(v, answers))
            && (c.ClientDone? || c.ClientReading?)
  {
    hide Connect;
    ConnectNext(v, answers, 2, Header);
    if 6 <= |answers| {
      GrantIff(v, answers);
      var header := answers[2..6];
      assert header[0] == answers[2] && header[1] == answers[3] && header[3] == answers[5];
      ConnectSimple(v, answers[6..]);
      ConnectTail(v, answers, 6, 6);
      ConnectTail(v, answers, 6, 18);
      ConnectNext(v, answers, 6, Length);
      if 7 <= |answers| {
        assert answers[6..7][0] == answers[6];
        ConnectTail(v, answers, 7, answers[6] as nat + 2);
      }
    }
  }

  /** The length that the first octets announce. */
  lemma GrantIff(v: Conv, answers: seq<byte>)
    requires 6 <= |answers|
    ensures var n := if answers[5] == 1 then 12 else if answers[5] == 4 then 24
                     else if 7 <= |answers| then 9 + answers[6] as int else |answers| + 1;
            (exists m: nat :: IsGrant(v, answers, m)) <==>
              && CanAsk(v) && answers[0] == 5 && answers[1] == 0 && answers[2] == 5 && answers[3] == 0
              && answers[5] in {1, 3, 4} && n <= |answers|
  {
    var n := if answers[5] == 1 then 12 else if answers[5] == 4 then 24
             else if 7 <= |answers| then 9 + answers[6] as int else |answers| + 1;
    assert IsGrant(v, answers, n) <==>
      && CanAsk(v) && answers[0] == 5 && answers[1] == 0 && answers[2] == 5 && answers[3] == 0
      && answers[5] in {1, 3, 4} && n <= |answers|;
  }

  /**
   * Against any server the client succeeds exactly when the answers begin with a grant, and leaves
   * exactly what follows it; it fails exactly on a denial; otherwise it waits for more.
   */
  lemma ClientJudges(v: Conv, answers: seq<byte>)
    ensures var (c, rest) := Connect(v, ClientWriting(Greeting, GREETING), answers);
            && (c == ClientDone(true) <==> exists n: nat :: IsGrant(v, answers, n))
            && (forall n: nat :: IsGrant(v, answers, n) ==> rest == answers[n..])
            && (c == ClientDone(false) <==> IsDenial(v, answers))
            && (c.ClientDone? || c.ClientReading?)
  {
    hide Connect;
    assert answers[0..] == answers;
    ConnectSimple(v, answers);
    ConnectNext(v, answers, 0, Method);
    if 2 <= |answers| {
      ConnectSimple(v, answers[2..]);
      if answers[0] == 5 && answers[1] == 0 && CanAsk(v) {
        ConnectReply(v, answers);
      }
    }
  }
}
