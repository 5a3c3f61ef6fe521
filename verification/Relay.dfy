/**
 * src/proxy_server.rs, `relay_data`: two pumps and a linger timer polled by one task of the runtime.
 */
module Relay {
  import opened Basics
  import opened Streams

  const RELAY_BUF_SIZE: nat := 8192

  // ---- One direction ----

  datatype Phase<T> =
    | Reading
    | Writing(chunk: seq<T>, written: nat)
    | CountingTotal(n: nat)
    | CountingOwn(n: nat)
    | Closing
    | Finished
    | Failed(uncounted: nat)

  /**
   * One pump.  `stream` is all that its reader will ever yield and `taken` how much of it was
   * read.  `total` is what this pump added to `direct_tx` or its three siblings, `own` what it
   * added to the counter of its connection.
   */
  datatype Pump<T> = Pump(
    leftover: seq<T>, stream: seq<T>, taken: nat, delivered: seq<T>, total: nat, own: nat, phase: Phase<T>)

  /** The leftover of the handshake is written before anything is read. */
  function StartPump<T>(leftover: seq<T>, stream: seq<T>): Pump<T> {
    Pump(leftover, stream, 0, [], 0, 0, if leftover == [] then Reading else Writing(leftover, 0))
  }

  /** A read of `n` bytes, or the end of the stream when `n` is 0. */
  ghost predicate Reads<T>(p: Pump<T>, n: nat, q: Pump<T>) {
    && p.phase.Reading?
    && n <= 8192
    && p.taken + n <= |p.stream|
    && (n == 0 ==> p.taken == |p.stream|)
    && q == p.(taken := p.taken + n,
               phase := if n == 0 then Closing else Writing(p.stream[p.taken..p.taken + n], 0))
  }

  /** The socket accepts the next `n` bytes of the chunk. */
  ghost predicate Writes<T>(p: Pump<T>, n: nat, q: Pump<T>) {
    && p.phase.Writing?
    && 0 < n && p.phase.written + n <= |p.phase.chunk|
    && q == p.(delivered := p.delivered + p.phase.chunk[p.phase.written..p.phase.written + n],
               phase := if p.phase.written + n == |p.phase.chunk| then CountingTotal(|p.phase.chunk|)
                        else Writing(p.phase.chunk, p.phase.written + n))
  }

  ghost predicate CountsTotal<T>(p: Pump<T>, q: Pump<T>) {
    p.phase.CountingTotal? && q == p.(total := p.total + p.phase.n, phase := CountingOwn(p.phase.n))
  }

  ghost predicate CountsOwn<T>(p: Pump<T>, q: Pump<T>) {
    p.phase.CountingOwn? && q == p.(own := p.own + p.phase.n, phase := Reading)
  }

  /** A step after which the pump goes on. */
  ghost predicate Runs<T>(p: Pump<T>, q: Pump<T>) {
    || (exists n :: Reads(p, n, q))
    || (exists n :: Writes(p, n, q))
    || CountsTotal(p, q)
    || CountsOwn(p, q)
  }

  /** `shutdown` returned or timed out; either way the pump is done and reports success. */
  ghost predicate Finishes<T>(p: Pump<T>, q: Pump<T>) {
    p.phase.Closing? && q == p.(phase := Finished)
  }

  /** A write error or timeout loses count of what the socket already took of the chunk. */
  ghost predicate Fails<T>(p: Pump<T>, q: Pump<T>) {
    && (p.phase.Reading? || p.phase.Writing?)
    && q == p.(phase := Failed(if p.phase.Writing? then p.phase.written else 0))
  }

  ghost predicate PumpStep<T>(p: Pump<T>, q: Pump<T>) {
    Runs(p, q) || Finishes(p, q) || Fails(p, q)
  }

  /** What the receiver should get in all. */
  function Whole<T>(p: Pump<T>): seq<T> {
    p.leftover + p.stream
  }

  /** Bytes that were written but not yet added to the shared total. */
  function Uncounted<T>(p: Pump<T>): nat {
    match p.phase
    case Writing(_, written) => written
    case CountingTotal(n) => n
    case Failed(n) => n
    case _ => 0
  }

  /** Bytes the shared total has and the counter of the connection does not have yet. */
  function Gap<T>(p: Pump<T>): nat {
    if p.phase.CountingOwn? then p.phase.n else 0
  }

  ghost predicate PumpInv<T>(p: Pump<T>) {
    && p.delivered <= Whole(p)
    && p.taken <= |p.stream| && |p.leftover| + p.taken <= |Whole(p)|
    && p.total == p.own + Gap(p)
    && |p.delivered| == p.total + Uncounted(p)
    && (p.phase.Reading? || p.phase.CountingTotal? || p.phase.CountingOwn? || p.phase.Closing? || p.phase.Finished? ==>
          |p.delivered| == |p.leftover| + p.taken)
    && (p.phase.Closing? || p.phase.Finished? ==> p.taken == |p.stream|)
    && (p.phase.Writing? ==>
          && p.phase.written < |p.phase.chunk|
          && |p.delivered| - p.phase.written + |p.phase.chunk| == |p.leftover| + p.taken
          && p.phase.chunk == Whole(p)[|p.delivered| - p.phase.written..|p.leftover| + p.taken])
  }

  /** The counters against what was delivered: they lack exactly the chunk in flight, or the part of one cut short. */
  predicate Accounted<T>(p: Pump<T>) {
    match p.phase
    case Writing(_, written) => p.own == p.total && |p.delivered| == p.total + written
    case CountingTotal(n) => p.own == p.total && |p.delivered| == p.total + n
    case CountingOwn(n) => p.own + n == p.total && |p.delivered| == p.total
    case Failed(n) => p.own == p.total && |p.delivered| == p.total + n
    case _ => |p.delivered| == p.total == p.own
  }

  lemma InvAccounted<T>(p: Pump<T>)
    requires PumpInv(p)
    ensures Accounted(p)
  {
    hide Whole;
  }

  lemma StartInv<T>(leftover: seq<T>, stream: seq<T>)
    ensures PumpInv(StartPump(leftover, stream))
  {
    Halves(leftover, stream);
  }

  lemma ReadInv<T>(p: Pump<T>, n: nat, q: Pump<T>)
    requires PumpInv(p) && Reads(p, n, q)
    ensures PumpInv(q)
  {
    var d := |p.leftover|;
    if n > 0 {
      assert Whole(p)[d + p.taken..d + q.taken] == p.stream[p.taken..q.taken];
    }
  }

  lemma WriteInv<T>(p: Pump<T>, n: nat, q: Pump<T>)
    requires PumpInv(p) && Writes(p, n, q)
    ensures PumpInv(q)
  {
    hide Whole;
    WritePiece(Whole(p), p.delivered, p.phase.chunk, p.phase.written, n, |p.leftover| + p.taken);
    SameWhole(p, q);
  }

  lemma SameWhole<T>(p: Pump<T>, q: Pump<T>)
    requires p.leftover == q.leftover && p.stream == q.stream
    ensures Whole(p) == Whole(q)
  {
  }

  /** The next piece of a chunk is the next piece of the whole. */
  lemma WritePiece<T>(whole: seq<T>, delivered: seq<T>, chunk: seq<T>, written: nat, n: nat, end: nat)
    requires delivered <= whole && written <= |delivered| && written + n <= |chunk|
    requires |delivered| - written + |chunk| == end <= |whole| && chunk == whole[|delivered| - written..end]
    ensures delivered + chunk[written..written + n] <= whole
  {
    Subslice(whole, |delivered| - written, end, written, written + n);
    PrefixGrows(delivered, whole, n);
  }

  lemma Subslice<T>(s: seq<T>, from: nat, to: nat, i: nat, j: nat)
    requires from <= to <= |s| && i <= j <= to - from
    ensures s[from..to][i..j] == s[from + i..from + j]
  {
    var a, b := s[from..to][i..j], s[from + i..from + j];
    assert forall k :: 0 <= k < |a| ==> a[k] == b[k];
  }

  lemma PrefixGrows<T>(prefix: seq<T>, s: seq<T>, n: nat)
    requires prefix <= s && |prefix| + n <= |s|
    ensures prefix + s[|prefix|..|prefix| + n] <= s
  {
    assert prefix == s[..|prefix|];
    assert prefix + s[|prefix|..|prefix| + n] == s[..|prefix| + n];
  }

  lemma PumpStepInv<T>(p: Pump<T>, q: Pump<T>)
    requires PumpInv(p) && PumpStep(p, q)
    ensures PumpInv(q) && p.delivered <= q.delivered && p.own <= q.own && p.total <= q.total
  {
    if n :| Reads(p, n, q) {
      ReadInv(p, n, q);
    } else if n :| Writes(p, n, q) {
      WriteInv(p, n, q);
    }
  }

  /** A finished pump has delivered the leftover and the whole stream and counted every byte twice. */
  lemma FinishedDeliveredAll<T>(p: Pump<T>)
    requires PumpInv(p) && p.phase.Finished?
    ensures p.delivered == p.leftover + p.stream
    ensures p.own == p.total == |p.leftover| + |p.stream|
  {
    assert p.delivered == Whole(p)[..|Whole(p)|];
  }

  // ---- The pump as code ----

  /** The write half of a socket: `write_all` either delivers the whole chunk or stops somewhere inside it. */
  class Sink<T> {
    /** No write fails or times out. */
    const steady: bool

    var delivered: seq<T>

    constructor (steady: bool)
      ensures delivered == [] && this.steady == steady
    {
      this.steady, delivered := steady, [];
    }

    /** One accepted piece of `write_all`, or an error or timeout. */
    method Write(rest: seq<T>) returns (n: nat)
      requires rest != []
      modifies this
      ensures n <= |rest| && delivered == old(delivered) + rest[..n]
      ensures steady ==> 0 < n
    {
      n :| n <= |rest| && (steady ==> 0 < n);
      delivered := delivered + rest[..n];
    }
  }

  /** The counters of one direction: `direct_*`, `upstream_*` and the one of the connection. */
  class Meter {
    var direct: nat
    var upstream: nat
    var own: nat

    constructor ()
      ensures direct == 0 && upstream == 0 && own == 0
    {
      direct, upstream, own := 0, 0, 0;
    }

    function Total(isDirect: bool): nat
      reads this
    {
      if isDirect then direct else upstream
    }

    method CountTotal(isDirect: bool, n: nat)
      modifies this`direct, this`upstream
      ensures Total(isDirect) == old(Total(isDirect)) + n && Total(!isDirect) == old(Total(!isDirect))
    {
      if isDirect {
        direct := direct + n;
      } else {
        upstream := upstream + n;
      }
    }
  }

  /** Consecutive states of one pump. */
  ghost predicate PumpRun<T>(run: seq<Pump<T>>) {
    run != [] && forall i :: 0 <= i < |run| - 1 ==> PumpStep(run[i], run[i + 1])
  }

  lemma Extend<T>(run: seq<Pump<T>>, q: Pump<T>)
    requires PumpRun(run) && PumpStep(run[|run| - 1], q)
    ensures PumpRun(run + [q])
  {
    var longer := run + [q];
    forall i | 0 <= i < |longer| - 1
      ensures PumpStep(longer[i], longer[i + 1])
    {
      if i < |run| - 1 {
        assert longer[i] == run[i] && longer[i + 1] == run[i + 1];
      }
    }
  }

  /** What the sink and the counters held when the relay started; the totals are shared with other relays. */
  datatype Base<T> = Base(delivered: seq<T>, total: nat, own: nat)

  /** What the machine says of the objects the code works on. */
  ghost predicate Shows<T>(p: Pump<T>, reader: ByteSource<T>, writer: Sink<T>, meter: Meter, isDirect: bool,
      base: Base<T>)
    reads reader, writer, meter
  {
    && p.taken <= |p.stream| && reader.unread == p.stream[p.taken..]
    && writer.delivered == base.delivered + p.delivered
    && meter.Total(isDirect) == base.total + p.total
    && meter.own == base.own + p.own
  }

  /** `write_all` under its timeout. */
  method WriteAll<T>(reader: ByteSource<T>, writer: Sink<T>, meter: Meter, isDirect: bool, ghost base: Base<T>,
      chunk: seq<T>, ghost run: seq<Pump<T>>)
      returns (ok: bool, ghost longer: seq<Pump<T>>)
    requires PumpRun(run) && run[|run| - 1].phase == Writing(chunk, 0) && chunk != []
    requires Shows(run[|run| - 1], reader, writer, meter, isDirect, base)
    modifies writer
    ensures PumpRun(longer) && longer[0] == run[0]
    ensures Shows(longer[|longer| - 1], reader, writer, meter, isDirect, base)
    ensures longer[|longer| - 1].phase.Failed? || longer[|longer| - 1].phase == CountingTotal(|chunk|)
    ensures ok <==> longer[|longer| - 1].phase.CountingTotal?
    ensures writer.steady ==> ok
  {
    longer := run;
    ghost var p := run[|run| - 1];
    var written := 0;
    while written < |chunk|
      invariant written <= |chunk|
      invariant PumpRun(longer) && longer[0] == run[0] && p == longer[|longer| - 1]
      invariant p.phase == if written < |chunk| then Writing(chunk, written) else CountingTotal(|chunk|)
      invariant Shows(p, reader, writer, meter, isDirect, base)
    {
      hide PumpRun;
      var n := writer.Write(chunk[written..]);
      if n == 0 {
        longer := Extended(longer, p.(phase := Failed(written)));
        return false, longer;
      }
      ghost var q := p.(delivered := p.delivered + chunk[written..written + n],
        phase := if written + n == |chunk| then CountingTotal(|chunk|) else Writing(chunk, written + n));
      PieceWritten(base.delivered, p.delivered, chunk, written, n);
      assert Writes(p, n, q);
      longer, p := Extended(longer, q), q;
      written := written + n;
    }
    ok := true;
  }

  lemma PieceWritten<T>(before: seq<T>, delivered: seq<T>, chunk: seq<T>, written: nat, n: nat)
    requires written + n <= |chunk|
    ensures before + delivered + chunk[written..][..n] == before + (delivered + chunk[written..written + n])
  {
    assert chunk[written..][..n] == chunk[written..written + n];
    Associate(before, delivered, chunk[written..written + n]);
  }

  /** `write_all` under its timeout, then the two counters. */
  method Deliver<T>(reader: ByteSource<T>, writer: Sink<T>, meter: Meter, isDirect: bool, ghost base: Base<T>,
      chunk: seq<T>, ghost run: seq<Pump<T>>)
      returns (ok: bool, ghost longer: seq<Pump<T>>)
    requires PumpRun(run) && run[|run| - 1].phase == Writing(chunk, 0) && chunk != []
    requires Shows(run[|run| - 1], reader, writer, meter, isDirect, base)
    modifies writer, meter
    ensures PumpRun(longer) && longer[0] == run[0]
    ensures Shows(longer[|longer| - 1], reader, writer, meter, isDirect, base)
    ensures meter.Total(!isDirect) == old(meter.Total(!isDirect))
    ensures if ok then longer[|longer| - 1].phase == Reading else longer[|longer| - 1].phase.Failed?
    ensures writer.steady ==> ok
  {
    ok, longer := WriteAll(reader, writer, meter, isDirect, base, chunk, run);
    if !ok {
      return;
    }
    hide PumpRun;
    ghost var p := longer[|longer| - 1];
    meter.CountTotal(isDirect, |chunk|);
    ghost var q := p.(total := p.total + |chunk|, phase := CountingOwn(|chunk|));
    longer := Extended(longer, q);
    meter.own := meter.own + |chunk|;
    longer := Extended(longer, q.(own := q.own + |chunk|, phase := Reading));
  }

  /**
   * One `async` block of `relay_data`, from the leftover to the shutdown, as an execution of the
   * machine; `steady` says that no read fails or waits for too long.
   */
  method RunPump<T>(reader: ByteSource<T>, steady: bool, writer: Sink<T>, meter: Meter, isDirect: bool,
      leftover: seq<T>)
      returns (ok: bool, ghost run: seq<Pump<T>>)
    modifies reader, writer, meter
    ensures PumpRun(run) && run[0] == StartPump(leftover, old(reader.unread))
    ensures Shows(run[|run| - 1], reader, writer, meter, isDirect,
        old(Base(writer.delivered, meter.Total(isDirect), meter.own)))
    ensures if ok then run[|run| - 1].phase.Finished? else run[|run| - 1].phase.Failed?
    ensures steady && writer.steady ==> ok
    ensures meter.Total(!isDirect) == old(meter.Total(!isDirect))
  {
    RunOfOne(StartPump(leftover, reader.unread));
    hide PumpRun;
    ghost var base := Base(writer.delivered, meter.Total(isDirect), meter.own);
    run := [StartPump(leftover, reader.unread)];
    ok := true;
    if leftover != [] {
      ok, run := Deliver(reader, writer, meter, isDirect, base, leftover, run);
      if !ok {
        return;
      }
    }
    while true
      invariant PumpRun(run) && run[0] == StartPump(leftover, old(reader.unread))
      invariant run[|run| - 1].phase.Reading? && ok
      invariant Shows(run[|run| - 1], reader, writer, meter, isDirect, base)
      invariant meter.Total(!isDirect) == old(meter.Total(!isDirect))
      decreases |reader.unread|
    {
      ghost var p := run[|run| - 1];
      var idleOrError: bool := *;
      if idleOrError && !steady {
        run := Extended(run, p.(phase := Failed(0)));
        return false, run;
      }
      var chunk := reader.Read(RELAY_BUF_SIZE);
      ghost var q := p.(taken := p.taken + |chunk|,
        phase := if |chunk| == 0 then Closing else Writing(p.stream[p.taken..p.taken + |chunk|], 0));
      ReadIs(p, chunk, reader.unread, q);
      run := Extended(run, q);
      if |chunk| == 0 {
        run := Extended(run, q.(phase := Finished));
        return true, run;
      }
      ok, run := Deliver(reader, writer, meter, isDirect, base, chunk, run);
      if !ok {
        return;
      }
    }
  }

  lemma RunOfOne<T>(p: Pump<T>)
    ensures PumpRun([p])
  {
  }

  ghost function Extended<T>(run: seq<Pump<T>>, q: Pump<T>): (longer: seq<Pump<T>>)
    requires PumpRun(run) && PumpStep(run[|run| - 1], q)
    ensures PumpRun(longer) && longer[0] == run[0] && longer[|longer| - 1] == q
  {
    Extend(run, q);
    run + [q]
  }

  lemma ReadIs<T>(p: Pump<T>, chunk: seq<T>, unread: seq<T>, q: Pump<T>)
    requires p.phase.Reading? && p.taken <= |p.stream| && |chunk| <= RELAY_BUF_SIZE
    requires chunk + unread == p.stream[p.taken..] && (chunk == [] ==> p.stream[p.taken..] == [])
    requires q == p.(taken := p.taken + |chunk|,
               phase := if |chunk| == 0 then Closing else Writing(p.stream[p.taken..p.taken + |chunk|], 0))
    ensures Reads(p, |chunk|, q) && chunk == p.stream[p.taken..p.taken + |chunk|]
    ensures unread == q.stream[q.taken..]
  {
    Halves(chunk, unread);
  }

  /** What a run of one pump has delivered is a prefix of leftover and stream, and all of it if the pump finished. */
  lemma {:induction false} PumpRunInv<T>(run: seq<Pump<T>>, leftover: seq<T>, stream: seq<T>, i: nat)
    requires PumpRun(run) && run[0] == StartPump(leftover, stream) && i < |run|
    ensures PumpInv(run[i]) && run[i].leftover == leftover && run[i].stream == stream
    ensures run[i].delivered <= leftover + stream && Accounted(run[i])
    ensures run[i].phase.Finished? ==> run[i].delivered == leftover + stream && run[i].own == |leftover| + |stream|
  {
    hide PumpInv, PumpStep, Accounted;
    if i == 0 {
      StartInv(leftover, stream);
    } else {
      PumpRunInv(run, leftover, stream, i - 1);
      PumpStepInv(run[i - 1], run[i]);
      PumpKeepsStream(run[i - 1], run[i]);
    }
    InvAccounted(run[i]);
    InvDelivers(run[i]);
  }

  lemma InvDelivers<T>(p: Pump<T>)
    requires PumpInv(p)
    ensures p.delivered <= p.leftover + p.stream
    ensures p.phase.Finished? ==> p.delivered == p.leftover + p.stream && p.own == |p.leftover| + |p.stream|
  {
    if p.phase.Finished? {
      FinishedDeliveredAll(p);
    }
  }

  /**
   * The same block by its effect: a prefix of leftover and stream is written, all of it and
   * counted in both counters on success, which only a read or a write that fails or times out can
   * prevent; the other route's counter never moves.
   */
  method Forward<T>(reader: ByteSource<T>, steady: bool, writer: Sink<T>, meter: Meter, isDirect: bool,
      leftover: seq<T>)
      returns (ok: bool, sent: seq<T>)
    modifies reader, writer, meter
    ensures sent <= leftover + old(reader.unread) && writer.delivered == old(writer.delivered) + sent
    ensures ok ==> sent == leftover + old(reader.unread) && reader.unread == [] && meter.own == old(meter.own) + |sent|
    ensures steady && writer.steady ==> ok
    ensures meter.own - old(meter.own) == meter.Total(isDirect) - old(meter.Total(isDirect)) <= |sent|
    ensures meter.Total(!isDirect) == old(meter.Total(!isDirect))
    ensures isDirect ==> meter.upstream == old(meter.upstream) && (ok ==> meter.direct == old(meter.direct) + |sent|)
    ensures !isDirect ==> meter.direct == old(meter.direct) && (ok ==> meter.upstream == old(meter.upstream) + |sent|)
  {
    ghost var stream := reader.unread;
    var before := |writer.delivered|;
    ghost var run;
    ok, run := RunPump(reader, steady, writer, meter, isDirect, leftover);
    sent := writer.delivered[before..];
    ghost var last := run[|run| - 1];
    PumpRunInv(run, leftover, stream, |run| - 1);
    Halves(old(writer.delivered), last.delivered);
  }

  // ---- The select loop ----

  datatype Exit = Running | BothDone | Lingered | PumpError

  /** The variables of the loop, with `armed` and `rounds` counting what it did. */
  datatype Select = Select(clientDone: bool, targetDone: bool, linger: bool, armed: nat, rounds: nat, exit: Exit)

  const START_SELECT: Select := Select(false, false, false, 0, 0, Running)

  /** The branch that `select!` takes: a pump that returned, or the linger timer. */
  datatype Branch = ClientEnds(ok: bool) | TargetEnds(ok: bool) | LingerEnds

  predicate Enabled(s: Select, b: Branch) {
    s.exit.Running? &&
    match b
    case ClientEnds(_) => !s.clientDone
    case TargetEnds(_) => !s.targetDone
    case LingerEnds => s.linger
  }

  /** One iteration of the loop. */
  function AfterBranch(s: Select, b: Branch): Select {
    match b
    case ClientEnds(ok) =>
      if !ok then s.(clientDone := true, rounds := s.rounds + 1, exit := PumpError)
      else if s.targetDone then s.(clientDone := true, rounds := s.rounds + 1, exit := BothDone)
      else s.(clientDone := true, linger := true, armed := s.armed + 1, rounds := s.rounds + 1)
    case TargetEnds(ok) =>
      if !ok then s.(targetDone := true, rounds := s.rounds + 1, exit := PumpError)
      else if s.clientDone then s.(targetDone := true, rounds := s.rounds + 1, exit := BothDone)
      else s.(targetDone := true, linger := true, armed := s.armed + 1, rounds := s.rounds + 1)
    case LingerEnds =>
      s.(rounds := s.rounds + 1, exit := Lingered)
  }

  /** The loop as it is written; which enabled branch is ready first is up to the peers and the clock. */
  class RelayLoop {
    var clientDone: bool
    var targetDone: bool
    var linger: bool
    var armed: nat
    var rounds: nat
    var exit: Exit

    function State(): Select
      reads this
    {
      Select(clientDone, targetDone, linger, armed, rounds, exit)
    }

    constructor ()
      ensures State() == START_SELECT
    {
      clientDone, targetDone, linger, armed, rounds, exit := false, false, false, 0, 0, Running;
    }

    /** The body of the loop for the branch that was taken. */
    method Iterate(b: Branch)
      requires Enabled(State(), b)
      modifies this
      ensures State() == AfterBranch(old(State()), b)
    {
      rounds := rounds + 1;
      if b.ClientEnds? {
        clientDone := true;
        if !b.ok {
          exit := PumpError;
          return;
        }
        if !targetDone {
          linger, armed := true, armed + 1;
        }
      } else if b.TargetEnds? {
        targetDone := true;
        if !b.ok {
          exit := PumpError;
          return;
        }
        if !clientDone {
          linger, armed := true, armed + 1;
        }
      } else {
        exit := Lingered;
        return;
      }
      if clientDone && targetDone {
        exit := BothDone;
      }
    }

    /** Until the loop breaks or returns, for any way in which the two pumps and the timer end. */
    method Loop(clientOk: bool, targetOk: bool) returns (ghost taken: seq<Branch>)
      requires State() == START_SELECT
      modifies this
      ensures !exit.Running? && rounds == |taken| <= 2 && armed <= 1
      ensures State() == AfterAll(taken) && EnabledAll(taken)
      ensures exit.PumpError? ==> !clientOk || !targetOk
      ensures exit.BothDone? ==> clientOk && targetOk
      ensures exit.Lingered? ==> (clientDone && clientOk && !targetDone) || (targetDone && targetOk && !clientDone)
    {
      taken := [];
      NoneTaken();
      hide AfterAll, EnabledAll;
      while exit.Running?
        invariant State() == AfterAll(taken) && EnabledAll(taken)
        invariant |taken| == rounds && SelectInv(State())
        invariant exit.PumpError? ==> !clientOk || !targetOk
        invariant !exit.PumpError? ==> (clientDone ==> clientOk) && (targetDone ==> targetOk)
        decreases if exit.Running? then 2 - rounds else -1
      {
        assert Enabled(State(), ClientEnds(clientOk)) || Enabled(State(), TargetEnds(targetOk));
        var b :| Enabled(State(), b) && (b.ClientEnds? ==> b.ok == clientOk) && (b.TargetEnds? ==> b.ok == targetOk);
        AfterNext(taken, b);
        SelectStepInv(State(), b);
        Iterate(b);
        taken := taken + [b];
      }
    }
  }

  function AfterAll(taken: seq<Branch>): Select {
    if taken == [] then START_SELECT else AfterBranch(AfterAll(taken[..|taken| - 1]), taken[|taken| - 1])
  }

  predicate EnabledAll(taken: seq<Branch>) {
    forall i :: 0 <= i < |taken| ==> Enabled(AfterAll(taken[..i]), taken[i])
  }

  lemma NoneTaken()
    ensures AfterAll([]) == START_SELECT && EnabledAll([])
  {
  }

  lemma AfterNext(taken: seq<Branch>, b: Branch)
    requires EnabledAll(taken) && Enabled(AfterAll(taken), b)
    ensures AfterAll(taken + [b]) == AfterBranch(AfterAll(taken), b) && EnabledAll(taken + [b])
  {
    var longer := taken + [b];
    assert longer[..|taken|] == taken;
    forall i | 0 <= i < |longer|
      ensures Enabled(AfterAll(longer[..i]), longer[i])
    {
      if i < |taken| {
        assert longer[..i] == taken[..i];
      }
    }
  }

  predicate SelectInv(s: Select) {
    && s.armed <= 1
    && s.linger == (s.armed == 1)
    && match s.exit
       case Running => !(s.clientDone && s.targetDone) && s.linger == (s.clientDone || s.targetDone)
           && s.rounds == s.armed
       case BothDone => s.clientDone && s.targetDone && s.rounds == 2 && s.armed == 1
       case Lingered => s.clientDone != s.targetDone && s.rounds == 2 && s.armed == 1
       case PumpError => (s.clientDone || s.targetDone) && s.rounds == s.armed + 1
  }

  lemma SelectStepInv(s: Select, b: Branch)
    requires SelectInv(s) && Enabled(s, b)
    ensures SelectInv(AfterBranch(s, b)) && AfterBranch(s, b).rounds <= 2
  {
  }

  // ---- Both pumps under the loop ----

  datatype Relay<T> = Relay(up: Pump<T>, down: Pump<T>, select: Select)

  function StartRelay<T>(leftover: seq<T>, client: seq<T>, targetLeftover: seq<T>, target: seq<T>): Relay<T> {
    Relay(StartPump(leftover, client), StartPump(targetLeftover, target), START_SELECT)
  }

  /** Nothing is awaited between a write and its two counter updates, so a pump is not at rest in between. */
  predicate AtRest<T>(p: Pump<T>) {
    !p.phase.CountingTotal? && !p.phase.CountingOwn?
  }

  ghost predicate ClientMoves<T>(r: Relay<T>, s: Relay<T>) {
    Enabled(r.select, ClientEnds(true)) && AtRest(r.down) &&
    ( || (Runs(r.up, s.up) && s == r.(up := s.up))
      || (Finishes(r.up, s.up) && s == r.(up := s.up, select := AfterBranch(r.select, ClientEnds(true))))
      || (Fails(r.up, s.up) && s == r.(up := s.up, select := AfterBranch(r.select, ClientEnds(false)))))
  }

  ghost predicate TargetMoves<T>(r: Relay<T>, s: Relay<T>) {
    Enabled(r.select, TargetEnds(true)) && AtRest(r.up) &&
    ( || (Runs(r.down, s.down) && s == r.(down := s.down))
      || (Finishes(r.down, s.down) && s == r.(down := s.down, select := AfterBranch(r.select, TargetEnds(true))))
      || (Fails(r.down, s.down) && s == r.(down := s.down, select := AfterBranch(r.select, TargetEnds(false)))))
  }

  /** The other pump is dropped where it waits. */
  ghost predicate LingerFires<T>(r: Relay<T>, s: Relay<T>) {
    Enabled(r.select, LingerEnds) && AtRest(r.up) && AtRest(r.down) &&
    s == r.(select := AfterBranch(r.select, LingerEnds))
  }

  ghost predicate RelayStep<T>(r: Relay<T>, s: Relay<T>) {
    ClientMoves(r, s) || TargetMoves(r, s) || LingerFires(r, s)
  }

  ghost predicate RelayInv<T>(r: Relay<T>) {
    && PumpInv(r.up) && PumpInv(r.down)
    && SelectInv(r.select)
    && (AtRest(r.up) || AtRest(r.down))
    && (!r.select.exit.Running? ==> AtRest(r.up) && AtRest(r.down))
    && (r.select.clientDone <==> r.up.phase.Finished? || r.up.phase.Failed?)
    && (r.select.targetDone <==> r.down.phase.Finished? || r.down.phase.Failed?)
    && (r.select.exit.PumpError? <==> r.up.phase.Failed? || r.down.phase.Failed?)
  }

  lemma RelayStepInv<T>(r: Relay<T>, s: Relay<T>)
    requires RelayInv(r) && RelayStep(r, s)
    ensures RelayInv(s)
    ensures r.up.delivered <= s.up.delivered && r.down.delivered <= s.down.delivered
    ensures Whole(s.up) == Whole(r.up) && Whole(s.down) == Whole(r.down)
    ensures r.select.exit.Running?
  {
    hide PumpInv, Whole, Reads, Writes;
    if ClientMoves(r, s) {
      PumpStepInv(r.up, s.up);
      PumpKeepsStream(r.up, s.up);
    } else if TargetMoves(r, s) {
      PumpStepInv(r.down, s.down);
      PumpKeepsStream(r.down, s.down);
    }
  }

  lemma PumpKeepsStream<T>(p: Pump<T>, q: Pump<T>)
    requires PumpStep(p, q)
    ensures q.leftover == p.leftover && q.stream == p.stream && Whole(p) == Whole(q)
    ensures !p.phase.Finished? && !p.phase.Failed?
    ensures Runs(p, q) ==> !q.phase.Finished? && !q.phase.Failed?
    ensures Runs(p, q) || (AtRest(p) && AtRest(q))
  {
  }

  /** Work left: every step of a running relay uses some up, so no run goes on for ever. */
  function Work<T>(p: Pump<T>): nat
    requires p.taken <= |p.stream|
  {
    6 * (|p.stream| - p.taken) + match p.phase
      case Reading => 3
      case Writing(chunk, written) => if written < |chunk| then 5 + |chunk| - written else 5
      case CountingTotal(_) => 5
      case CountingOwn(_) => 4
      case Closing => 2
      case Finished => 0
      case Failed(_) => 0
  }

  lemma PumpStepWorks<T>(p: Pump<T>, q: Pump<T>)
    requires PumpInv(p) && PumpStep(p, q)
    ensures q.taken <= |q.stream| && Work(q) < Work(p)
  {
  }

  ghost predicate IsRun<T>(run: seq<Relay<T>>, start: Relay<T>) {
    && run != [] && run[0] == start
    && forall i :: 0 <= i < |run| - 1 ==> RelayStep(run[i], run[i + 1])
  }

  lemma {:induction false} RunInv<T>(run: seq<Relay<T>>, leftover: seq<T>, client: seq<T>, targetLeftover: seq<T>,
      target: seq<T>, i: nat)
    requires IsRun(run, StartRelay(leftover, client, targetLeftover, target)) && i < |run|
    ensures RelayInv(run[i])
    ensures Whole(run[i].up) == leftover + client && Whole(run[i].down) == targetLeftover + target
  {
    if i == 0 {
      StartInv(leftover, client);
      StartInv(targetLeftover, target);
    } else {
      RunInv(run, leftover, client, targetLeftover, target, i - 1);
      RelayStepInv(run[i - 1], run[i]);
    }
  }

  /**
   * In every run, whatever the sizes of the reads and writes and whenever a timeout strikes: what
   * each side got is a prefix of what the other side sent; every exit without error has a pump
   * that delivered everything; leaving because both are done means both streams are whole; and
   * the bytes that no counter shows are exactly those of the chunks in flight or abandoned.
   */
  lemma Transparent<T>(run: seq<Relay<T>>, leftover: seq<T>, client: seq<T>, targetLeftover: seq<T>, target: seq<T>,
      i: nat)
    requires IsRun(run, StartRelay(leftover, client, targetLeftover, target)) && i < |run|
    ensures var r, up, down := run[i], leftover + client, targetLeftover + target;
            && r.up.delivered <= up && r.down.delivered <= down
            && (r.select.exit.BothDone? ==> r.up.delivered == up && r.down.delivered == down)
            && (r.select.exit.Lingered? ==> r.up.delivered == up || r.down.delivered == down)
            && Accounted(r.up) && Accounted(r.down)
            && (r.select.exit.BothDone? ==> r.up.own == |up| && r.down.own == |down|)
            && r.select.rounds <= 2 && r.select.armed <= 1
  {
    RunInv(run, leftover, client, targetLeftover, target, i);
    var r := run[i];
    InvAccounted(r.up);
    InvAccounted(r.down);
    if r.up.phase.Finished? {
      FinishedDeliveredAll(r.up);
    }
    if r.down.phase.Finished? {
      FinishedDeliveredAll(r.down);
    }
  }

  /** What was delivered is never taken back: later deliveries extend earlier ones. */
  lemma {:induction false} DeliveriesGrow<T>(run: seq<Relay<T>>, start: Relay<T>, i: nat, j: nat)
    requires IsRun(run, start) && i <= j < |run| && RelayInv(run[i])
    ensures RelayInv(run[j]) && run[i].up.delivered <= run[j].up.delivered
        && run[i].down.delivered <= run[j].down.delivered
    decreases j
  {
    hide RelayInv, RelayStep;
    if i < j {
      DeliveriesGrow(run, start, i, j - 1);
      RelayStepInv(run[j - 1], run[j]);
    }
  }

  function WorkLeft<T>(r: Relay<T>): nat
    requires r.up.taken <= |r.up.stream| && r.down.taken <= |r.down.stream|
  {
    Work(r.up) + Work(r.down) + if r.select.exit.Running? then 1 else 0
  }

  lemma RelayStepWorks<T>(r: Relay<T>, s: Relay<T>)
    requires RelayInv(r) && RelayStep(r, s)
    ensures RelayInv(s) && WorkLeft(s) < WorkLeft(r)
  {
    hide Work;
    RelayStepInv(r, s);
    if ClientMoves(r, s) {
      PumpStepWorks(r.up, s.up);
    } else if TargetMoves(r, s) {
      PumpStepWorks(r.down, s.down);
    }
  }

  /**
   * The relay ends: a run has at most as many steps as there was work at its start, and it can only
   * stop at an exit.
   */
  lemma {:induction false} RelayEnds<T>(run: seq<Relay<T>>, start: Relay<T>, i: nat)
    requires IsRun(run, start) && RelayInv(start) && i < |run|
    ensures RelayInv(run[i])
    ensures i + WorkLeft(run[i]) <= WorkLeft(start)
  {
    hide RelayStep, Work;
    if 0 < i {
      RelayEnds(run, start, i - 1);
      RelayStepWorks(run[i - 1], run[i]);
    }
  }

  lemma NeverStuck<T>(r: Relay<T>) returns (s: Relay<T>)
    requires RelayInv(r) && r.select.exit.Running?
    ensures RelayStep(r, s)
  {
    if !AtRest(r.up) || (AtRest(r.down) && !r.select.clientDone) {
      s := r.(up := Advanced(r.up));
      if r.up.phase.Closing? {
        s := s.(select := AfterBranch(r.select, ClientEnds(true)));
      }
    } else {
      s := r.(down := Advanced(r.down));
      if r.down.phase.Closing? {
        s := s.(select := AfterBranch(r.select, TargetEnds(true)));
      }
    }
  }

  /** A step that needs no error and no timeout. */
  ghost function Advanced<T>(p: Pump<T>): (q: Pump<T>)
    requires PumpInv(p) && !p.phase.Finished? && !p.phase.Failed?
    ensures if p.phase.Closing? then Finishes(p, q) else Runs(p, q)
  {
    match p.phase
    case Reading =>
      var n := Min(RELAY_BUF_SIZE, |p.stream| - p.taken);
      var q := p.(taken := p.taken + n,
        phase := if n == 0 then Closing else Writing(p.stream[p.taken..p.taken + n], 0));
      assert Reads(p, n, q);
      q
    case Writing(chunk, written) =>
      var q := p.(delivered := p.delivered + chunk[written..written + 1],
        phase := if written + 1 == |chunk| then CountingTotal(|chunk|) else Writing(chunk, written + 1));
      assert Writes(p, 1, q);
      q
    case CountingTotal(n) => p.(total := p.total + n, phase := CountingOwn(n))
    case CountingOwn(n) => p.(own := p.own + n, phase := Reading)
    case Closing => p.(phase := Finished)
    case _ => p
  }
}
