/**
 * src/proxy_server.rs, `run` and `handle_connection`: any number of handlers over one pool of
 * permits, one connection table and one set of traffic totals.
 */
module Server {
  import opened Basics
  import T = Tracker
  import R = Relay

  const MAX_CONNECTIONS: nat := 1024

  /** `TrafficStats`, without the activity flag. */
  datatype Stats = Stats(directTx: nat, upstreamTx: nat, directRx: nat, upstreamRx: nat)

  datatype Stage =
    | Arrived       // holds a permit, not registered
    | Allocated     // `register` has taken an id and waits for the lock
    | Handshaking   // in the table
    | Relaying      // `set_connected` is done
    | Ended         // the terminal update is done
    | Released      // the permit is returned

  /** A spawned handler; `updates` lists the statuses it has given its record. */
  datatype Handler = Handler(stage: Stage, id: nat, isDirect: bool, relay: R.Relay<byte>, updates: seq<T.Status>)

  /** `owner` tells which handler took an id. */
  datatype Server = Server(handlers: seq<Handler>, free: nat, tracker: T.System, owner: map<nat, nat>, stats: Stats)

  const NEWCOMER: Handler := Handler(Arrived, 0, false, R.StartRelay([], [], [], []), [])

  function Initial(): Server {
    Server([], MAX_CONNECTIONS, T.Initial(), map[], Stats(0, 0, 0, 0))
  }

  // ---- Steps ----

  predicate Accepts(x: Server, y: Server) {
    && 0 < x.free
    && y == x.(handlers := x.handlers + [NEWCOMER], free := x.free - 1)
  }

  /** Without a free permit the socket is dropped. */
  predicate Rejects(x: Server, y: Server) {
    x.free == 0 && y == x
  }

  predicate TakesId(x: Server, i: nat, y: Server)
    requires i < |x.handlers|
  {
    var h := x.handlers[i];
    && h.stage.Arrived?
    && T.Allocates(x.tracker, y.tracker)
    && y == x.(handlers := x.handlers[i := h.(stage := Allocated, id := x.tracker.nextId)],
               tracker := y.tracker, owner := x.owner[x.tracker.nextId := i])
  }

  /** The locked part of `register`. */
  predicate Registers(x: Server, i: nat, info: T.Info, y: Server)
    requires i < |x.handlers|
  {
    var h := x.handlers[i];
    && h.stage.Allocated?
    && y == x.(handlers := x.handlers[i := h.(stage := Handshaking, updates := [T.Connecting])],
               tracker := x.tracker.(table := T.Inserted(x.tracker.table, info),
                                     pending := x.tracker.pending - {h.id}, seen := x.tracker.seen + {h.id}))
  }

  /** The record that a new connection starts with. */
  function FirstRecord(id: nat, peer: string, startTime: string): (info: T.Info)
    ensures info.shown.id == id && info.shown.status == T.Connecting && info.closedAt == None
  {
    T.NewInfo(id, peer, "resolving...", "detecting...", startTime)
  }

  /** One of the `set_*` methods that give the record a status. */
  predicate SetsStatus(x: Server, i: nat, h: Handler, closedAt: Option<nat>, y: Server)
    requires i < |x.handlers| && h.updates != []
  {
    y == x.(handlers := x.handlers[i := h],
            tracker := x.tracker.(table :=
              T.Modified(x.tracker.table, h.id, T.WithStatus(h.updates[|h.updates| - 1], closedAt))))
  }

  predicate Connects(x: Server, i: nat, isDirect: bool, leftover: seq<byte>, client: seq<byte>,
                     targetLeftover: seq<byte>, target: seq<byte>, y: Server)
    requires i < |x.handlers|
  {
    var h := x.handlers[i];
    && h.stage.Handshaking?
    && SetsStatus(x, i, h.(stage := Relaying, isDirect := isDirect, updates := h.updates + [T.Connected],
                           relay := R.StartRelay(leftover, client, targetLeftover, target)), None, y)
  }

  /** The handshake returned an error or timed out. */
  predicate HandshakeFails(x: Server, i: nat, message: string, now: nat, y: Server)
    requires i < |x.handlers|
  {
    var h := x.handlers[i];
    && h.stage.Handshaking?
    && SetsStatus(x, i, h.(stage := Ended, updates := h.updates + [T.Error(message)]), Some(now), y)
  }

  /** What the two shared totals of the route gain. */
  function Counted(stats: Stats, isDirect: bool, sent: nat, received: nat): Stats {
    if isDirect
    then stats.(directTx := stats.directTx + sent, directRx := stats.directRx + received)
    else stats.(upstreamTx := stats.upstreamTx + sent, upstreamRx := stats.upstreamRx + received)
  }

  ghost predicate Relays(x: Server, i: nat, relay: R.Relay<byte>, y: Server)
    requires i < |x.handlers|
  {
    var h := x.handlers[i];
    && h.stage.Relaying?
    && R.RelayStep(h.relay, relay)
    && h.relay.up.total <= relay.up.total && h.relay.down.total <= relay.down.total
    && y == x.(handlers := x.handlers[i := h.(relay := relay)],
               stats := Counted(x.stats, h.isDirect, relay.up.total - h.relay.up.total,
                   relay.down.total - h.relay.down.total))
  }

  /** `set_error` for a failed pump, `set_closed` for the other two ways out of the loop. */
  predicate Terminates(x: Server, i: nat, message: string, now: nat, y: Server)
    requires i < |x.handlers|
  {
    var h := x.handlers[i];
    && h.stage.Relaying? && !h.relay.select.exit.Running?
    && SetsStatus(x, i, h.(stage := Ended,
         updates := h.updates + [if h.relay.select.exit.PumpError? then T.Error(message) else T.Closed]), Some(now), y)
  }

  predicate Releases(x: Server, i: nat, y: Server)
    requires i < |x.handlers|
  {
    && x.handlers[i].stage.Ended?
    && y == x.(handlers := x.handlers[i := x.handlers[i].(stage := Released)], free := x.free + 1)
  }

  ghost predicate HandlerStep(x: Server, i: nat, y: Server)
    requires i < |x.handlers|
  {
    || TakesId(x, i, y)
    || (exists peer, startTime :: Registers(x, i, FirstRecord(x.handlers[i].id, peer, startTime), y))
    || (exists isDirect, leftover, client, targetLeftover, target ::
          Connects(x, i, isDirect, leftover, client, targetLeftover, target, y))
    || (exists message, now :: HandshakeFails(x, i, message, now, y))
    || (exists relay :: Relays(x, i, relay, y))
    || (exists message, now :: Terminates(x, i, message, now, y))
    || Releases(x, i, y)
  }

  /** An update that leaves id, status and closing time alone. */
  ghost predicate DetailOnly(change: T.Info -> T.Info) {
    forall info: T.Info :: change(info).shown.id == info.shown.id
      && change(info).shown.status == info.shown.status && change(info).closedAt == info.closedAt
  }

  /** The other setters, which also the background lookup of the exe name calls at any later time. */
  ghost predicate Describes(x: Server, id: nat, change: T.Info -> T.Info, y: Server) {
    DetailOnly(change) && y == x.(tracker := x.tracker.(table := T.Modified(x.tracker.table, id, change)))
  }

  /** A snapshot of the traffic window that cleans up. */
  predicate Cleans(x: Server, now: nat, y: Server) {
    y == x.(tracker := x.tracker.(table := T.Cleaned(x.tracker.table, now)))
  }

  ghost predicate Step(x: Server, y: Server) {
    || Accepts(x, y)
    || Rejects(x, y)
    || (exists i :: 0 <= i < |x.handlers| && HandlerStep(x, i, y))
    || (exists id, change :: Describes(x, id, change, y))
    || (exists now :: Cleans(x, now, y))
  }

  lemma DetailSetters(text: string)
    ensures DetailOnly(T.WithExeName(text)) && DetailOnly(T.WithProxy(text))
    ensures DetailOnly(T.WithTarget(text)) && DetailOnly(T.WithProtocol(text))
  {
  }

  // ---- Sums over all handlers ----

  function Sum(handlers: seq<Handler>, amount: Handler -> nat): nat {
    if handlers == [] then 0
    else Sum(handlers[..|handlers| - 1], amount) + amount(handlers[|handlers| - 1])
  }

  lemma SumAppend(handlers: seq<Handler>, h: Handler, amount: Handler -> nat)
    ensures Sum(handlers + [h], amount) == Sum(handlers, amount) + amount(h)
  {
    assert (handlers + [h])[..|handlers|] == handlers;
  }

  lemma {:induction false} SumUpdate(handlers: seq<Handler>, i: nat, h: Handler, amount: Handler -> nat)
    requires i < |handlers|
    ensures Sum(handlers[i := h], amount) == Sum(handlers, amount) - amount(handlers[i]) + amount(h)
  {
    var n := |handlers| - 1;
    if i == n {
      assert handlers[i := h][..n] == handlers[..n];
    } else {
      SumUpdate(handlers[..n], i, h, amount);
      assert handlers[i := h][..n] == handlers[..n][i := h];
    }
  }

  function Live(h: Handler): nat { if h.stage.Released? then 0 else 1 }

  function DirectSent(h: Handler): nat { if h.isDirect then h.relay.up.total else 0 }
  function UpstreamSent(h: Handler): nat { if h.isDirect then 0 else h.relay.up.total }
  function DirectReceived(h: Handler): nat { if h.isDirect then h.relay.down.total else 0 }
  function UpstreamReceived(h: Handler): nat { if h.isDirect then 0 else h.relay.down.total }

  /** The `bytes_sent` and `bytes_received` of the connection, which outlive its record. */
  function Sent(h: Handler): nat { h.relay.up.own }
  function Received(h: Handler): nat { h.relay.down.own }

  function SentGap(h: Handler): nat { R.Gap(h.relay.up) }
  function ReceivedGap(h: Handler): nat { R.Gap(h.relay.down) }

  // ---- The invariant ----

  predicate Terminal(s: T.Status) { s.Closed? || s.Error? }

  /** Connecting, then an error; or connecting, connected, then closed or an error. */
  predicate LifecycleAt(h: Handler) {
    match h.stage
    case Arrived => h.updates == []
    case Allocated => h.updates == []
    case Handshaking => h.updates == [T.Connecting]
    case Relaying => h.updates == [T.Connecting, T.Connected]
    case _ => Lifecycle(h)
  }

  predicate Lifecycle(h: Handler) {
    && |h.updates| >= 2 && h.updates[0] == T.Connecting
    && if |h.updates| == 2 then h.updates[1].Error?
       else |h.updates| == 3 && h.updates[1] == T.Connected
            && (if h.relay.select.exit.PumpError? then h.updates[2].Error? else h.updates[2] == T.Closed)
            && !h.relay.select.exit.Running?
  }

  predicate Untouched(r: R.Relay<byte>) {
    r.up.total == r.up.own == r.down.total == r.down.own == 0 && R.AtRest(r.up) && R.AtRest(r.down)
  }

  ghost predicate HandlerInv(h: Handler) {
    && LifecycleAt(h)
    && R.RelayInv(h.relay)
    && (h.stage.Arrived? || h.stage.Allocated? || h.stage.Handshaking? ==> Untouched(h.relay))
  }

  ghost predicate PermitInv(x: Server) {
    x.free + Sum(x.handlers, Live) == MAX_CONNECTIONS
  }

  ghost predicate StatsInv(x: Server) {
    && x.stats.directTx == Sum(x.handlers, DirectSent)
    && x.stats.upstreamTx == Sum(x.handlers, UpstreamSent)
    && x.stats.directRx == Sum(x.handlers, DirectReceived)
    && x.stats.upstreamRx == Sum(x.handlers, UpstreamReceived)
  }

  /** Every id taken belongs to one handler; it is pending until it is in the table for the first time. */
  ghost predicate OwnerInv(handlers: seq<Handler>, owner: map<nat, nat>, pending: set<nat>, seen: set<nat>) {
    && (forall id :: id in owner ==>
         owner[id] < |handlers| && handlers[owner[id]].id == id && !handlers[owner[id]].stage.Arrived?)
    && (forall i :: 0 <= i < |handlers| && !handlers[i].stage.Arrived? ==>
         handlers[i].id in owner && owner[handlers[i].id] == i)
    && (forall id :: id in pending <==> id in owner && handlers[owner[id]].stage.Allocated?)
    && (forall id :: id in seen <==> id in owner && !handlers[owner[id]].stage.Allocated?)
  }

  /** The record of a connection that is still in the table shows its last status. */
  predicate RecordShows(info: T.Info, h: Handler) {
    && h.updates != [] && info.shown.status == Last(h.updates)
    && (info.closedAt.Some? <==> Terminal(info.shown.status))
  }

  function Last(updates: seq<T.Status>): T.Status
    requires updates != []
  {
    updates[|updates| - 1]
  }

  ghost predicate RecordsInv(handlers: seq<Handler>, owner: map<nat, nat>, connections: map<nat, T.Info>) {
    forall id :: id in connections ==>
      id in owner && owner[id] < |handlers| && RecordShows(connections[id], handlers[owner[id]])
  }

  ghost predicate AllHandlers(handlers: seq<Handler>) {
    forall i :: 0 <= i < |handlers| ==> HandlerInv(handlers[i])
  }

  ghost predicate Inv(x: Server) {
    && T.Inv(x.tracker)
    && OwnerInv(x.handlers, x.owner, x.tracker.pending, x.tracker.seen)
    && RecordsInv(x.handlers, x.owner, x.tracker.table.connections)
    && AllHandlers(x.handlers)
    && PermitInv(x)
    && StatsInv(x)
  }

  // ---- What one changed handler means for each part ----

  lemma SumsUpdate(handlers: seq<Handler>, i: nat, h: Handler)
    requires i < |handlers|
    ensures var hs, was := handlers[i := h], handlers[i];
            && Sum(hs, Live) == Sum(handlers, Live) - Live(was) + Live(h)
            && Sum(hs, DirectSent) == Sum(handlers, DirectSent) - DirectSent(was) + DirectSent(h)
            && Sum(hs, UpstreamSent) == Sum(handlers, UpstreamSent) - UpstreamSent(was) + UpstreamSent(h)
            && Sum(hs, DirectReceived) == Sum(handlers, DirectReceived) - DirectReceived(was) + DirectReceived(h)
            && Sum(hs, UpstreamReceived)
                 == Sum(handlers, UpstreamReceived) - UpstreamReceived(was) + UpstreamReceived(h)
  {
    SumUpdate(handlers, i, h, Live);
    SumUpdate(handlers, i, h, DirectSent);
    SumUpdate(handlers, i, h, UpstreamSent);
    SumUpdate(handlers, i, h, DirectReceived);
    SumUpdate(handlers, i, h, UpstreamReceived);
  }

  /** A handler that neither counts bytes nor gives its permit back. */
  lemma SumsSame(x: Server, i: nat, h: Handler, y: Server)
    requires i < |x.handlers| && PermitInv(x) && StatsInv(x)
    requires y.handlers == x.handlers[i := h] && y.free == x.free && y.stats == x.stats
    requires h.stage.Released? == x.handlers[i].stage.Released?
    requires (h.isDirect == x.handlers[i].isDirect && h.relay == x.handlers[i].relay)
        || (Untouched(h.relay) && Untouched(x.handlers[i].relay))
    ensures PermitInv(y) && StatsInv(y)
  {
    hide Sum;
    SumsUpdate(x.handlers, i, h);
  }

  lemma HandlersUpdate(handlers: seq<Handler>, i: nat, h: Handler)
    requires AllHandlers(handlers) && i < |handlers| && HandlerInv(h)
    ensures AllHandlers(handlers[i := h])
  {
    hide HandlerInv;
  }

  lemma OwnerSame(handlers: seq<Handler>, owner: map<nat, nat>, pending: set<nat>, seen: set<nat>, i: nat, h: Handler)
    requires OwnerInv(handlers, owner, pending, seen) && i < |handlers|
    requires h.id == handlers[i].id && !h.stage.Arrived? && !h.stage.Allocated?
    requires !handlers[i].stage.Arrived? && !handlers[i].stage.Allocated?
    ensures OwnerInv(handlers[i := h], owner, pending, seen)
  {
  }

  lemma OwnerTakes(handlers: seq<Handler>, owner: map<nat, nat>, pending: set<nat>, seen: set<nat>, i: nat, h: Handler)
    requires OwnerInv(handlers, owner, pending, seen) && i < |handlers|
    requires handlers[i].stage.Arrived? && h.stage.Allocated? && h.id !in pending && h.id !in seen
    ensures OwnerInv(handlers[i := h], owner[h.id := i], pending + {h.id}, seen)
  {
  }

  lemma OwnerRegisters(handlers: seq<Handler>, owner: map<nat, nat>, pending: set<nat>, seen: set<nat>, i: nat,
      h: Handler)
    requires OwnerInv(handlers, owner, pending, seen) && i < |handlers|
    requires handlers[i].stage.Allocated? && h.stage.Handshaking? && h.id == handlers[i].id
    ensures OwnerInv(handlers[i := h], owner, pending - {h.id}, seen + {h.id})
    ensures h.id in pending
  {
  }

  /** The records of one table are among those of another one, up to details. */
  predicate Alike(was: map<nat, T.Info>, now: map<nat, T.Info>) {
    forall id :: id in now ==>
        id in was && now[id].closedAt == was[id].closedAt && now[id].shown.status == was[id].shown.status
  }

  lemma RecordsAlike(handlers: seq<Handler>, owner: map<nat, nat>, was: map<nat, T.Info>, now: map<nat, T.Info>)
    requires RecordsInv(handlers, owner, was) && Alike(was, now)
    ensures RecordsInv(handlers, owner, now)
  {
  }

  lemma RecordsSame(handlers: seq<Handler>, owner: map<nat, nat>, connections: map<nat, T.Info>, i: nat, h: Handler)
    requires RecordsInv(handlers, owner, connections) && i < |handlers| && h.updates == handlers[i].updates
    ensures RecordsInv(handlers[i := h], owner, connections)
  {
  }

  /** The record of one id changes with its handler; the others stay or are gone. */
  lemma RecordsOne(handlers: seq<Handler>, owner: map<nat, nat>, was: map<nat, T.Info>, now: map<nat, T.Info>,
      i: nat, h: Handler)
    requires RecordsInv(handlers, owner, was) && i < |handlers|
    requires h.id in owner && owner[h.id] == i
    requires forall id :: id in now && id != h.id ==> id in was && now[id] == was[id] && id in owner && owner[id] != i
    requires h.id in now ==> RecordShows(now[h.id], h)
    ensures RecordsInv(handlers[i := h], owner, now)
  {
  }

  // ---- One step keeps it ----

  lemma AcceptKeeps(x: Server, y: Server)
    requires Inv(x) && Accepts(x, y)
    ensures Inv(y)
  {
    hide T.Inv, Sum, HandlerInv;
    SumAppend(x.handlers, NEWCOMER, Live);
    SumAppend(x.handlers, NEWCOMER, DirectSent);
    SumAppend(x.handlers, NEWCOMER, UpstreamSent);
    SumAppend(x.handlers, NEWCOMER, DirectReceived);
    SumAppend(x.handlers, NEWCOMER, UpstreamReceived);
    NewcomerInv(NEWCOMER);
  }

  lemma FreshRelay(leftover: seq<byte>, client: seq<byte>, targetLeftover: seq<byte>, target: seq<byte>)
    ensures var r := R.StartRelay(leftover, client, targetLeftover, target);
            R.RelayInv(r) && Untouched(r) && r.select.exit.Running?
  {
    R.StartInv(leftover, client);
    R.StartInv(targetLeftover, target);
    hide R.PumpInv;
  }

  lemma NewcomerInv(h: Handler)
    requires h == NEWCOMER
    ensures HandlerInv(h)
  {
    FreshRelay([], [], [], []);
    hide R.RelayInv, Untouched, R.StartRelay;
  }

  lemma TakeIdKeeps(x: Server, i: nat, y: Server)
    requires Inv(x) && i < |x.handlers| && TakesId(x, i, y)
    ensures Inv(y)
  {
    T.StepContinues(x.tracker, y.tracker);
    var h := y.handlers[i];
    NextIdIsNew(x.tracker);
    OwnerTakes(x.handlers, x.owner, x.tracker.pending, x.tracker.seen, i, h);
    hide T.Inv, OwnerInv, R.RelayInv, PermitInv, StatsInv, AllHandlers;
    SumsSame(x, i, h, y);
    HandlersUpdate(x.handlers, i, h);
  }

  lemma NextIdIsNew(x: T.System)
    requires T.Inv(x)
    ensures x.nextId !in x.pending && x.nextId !in x.seen && x.nextId !in x.table.connections
  {
  }

  lemma RegisteredHandler(h: Handler)
    requires HandlerInv(h) && h.stage.Allocated?
    ensures HandlerInv(h.(stage := Handshaking, updates := [T.Connecting]))
  {
    hide R.RelayInv, Untouched;
  }

  lemma RegisterKeeps(x: Server, i: nat, info: T.Info, y: Server)
    requires Inv(x) && i < |x.handlers| && Registers(x, i, info, y)
    requires info.shown.id == x.handlers[i].id && info.shown.status == T.Connecting && info.closedAt == None
    ensures Inv(y)
  {
    hide T.Inv, T.Inserted, HandlerInv, PermitInv, StatsInv, RecordsInv, Untouched, OwnerInv;
    var h := y.handlers[i];
    assert HandlerInv(x.handlers[i]);
    RegisteredHandler(x.handlers[i]);
    hide AllHandlers;
    OwnerRegisters(x.handlers, x.owner, x.tracker.pending, x.tracker.seen, i, h);
    PendingNotShown(x.tracker, info, y.tracker);
    OwnedOnce(x.handlers, x.owner, x.tracker.pending, x.tracker.seen, i);
    ShownAreOwned(x);
    RecordsOne(x.handlers, x.owner, x.tracker.table.connections, y.tracker.table.connections, i, h);
    SumsSame(x, i, h, y);
    HandlersUpdate(x.handlers, i, h);
  }

  lemma ShownAreOwned(x: Server)
    requires RecordsInv(x.handlers, x.owner, x.tracker.table.connections)
    ensures forall id :: id in x.tracker.table.connections ==> id in x.owner
  {
  }

  lemma OwnedOnce(handlers: seq<Handler>, owner: map<nat, nat>, pending: set<nat>, seen: set<nat>, i: nat)
    requires OwnerInv(handlers, owner, pending, seen) && i < |handlers| && !handlers[i].stage.Arrived?
    ensures handlers[i].id in owner && owner[handlers[i].id] == i
    ensures forall id :: id in owner && id != handlers[i].id ==> owner[id] != i
  {
  }

  lemma PendingNotShown(x: T.System, info: T.Info, y: T.System)
    requires T.Inv(x) && info.shown.id in x.pending
    requires y
        == x.(table := T.Inserted(x.table, info), pending := x.pending - {info.shown.id},
            seen := x.seen + {info.shown.id})
    ensures T.Inv(y) && info.shown.id in y.table.connections && y.table.connections[info.shown.id] == info
    ensures forall id :: id in y.table.connections && id != info.shown.id ==>
              id in x.table.connections && y.table.connections[id] == x.table.connections[id]
  {
    assert T.Inserts(x, y);
    T.StepContinues(x, y);
    T.InsertedMeaning(x.table, info);
  }

  lemma StatusRecords(x: Server, i: nat, h: Handler, closedAt: Option<nat>)
    requires OwnerInv(x.handlers, x.owner, x.tracker.pending, x.tracker.seen)
    requires RecordsInv(x.handlers, x.owner, x.tracker.table.connections)
    requires i < |x.handlers| && h.updates != [] && h.id == x.handlers[i].id && !x.handlers[i].stage.Arrived?
    requires x.handlers[i].updates != [] && !Terminal(Last(x.handlers[i].updates))
    requires closedAt.Some? <==> Terminal(Last(h.updates))
    ensures RecordsInv(x.handlers[i := h], x.owner,
              T.Modified(x.tracker.table, h.id, T.WithStatus(Last(h.updates), closedAt)).connections)
  {
    var was := x.tracker.table.connections;
    var change := T.WithStatus(Last(h.updates), closedAt);
    ModifiedRecords(x.tracker.table, h.id, change);
    OwnedOnce(x.handlers, x.owner, x.tracker.pending, x.tracker.seen, i);
    ShownAreOwned(x);
    if h.id in was {
      StatusShown(was[h.id], x.handlers[i], h, closedAt);
    }
    hide OwnerInv, T.Modified, T.WithStatus, RecordsInv;
    RecordsOne(x.handlers, x.owner, was, T.Modified(x.tracker.table, h.id, change).connections, i, h);
  }

  lemma StatusShown(info: T.Info, was: Handler, h: Handler, closedAt: Option<nat>)
    requires RecordShows(info, was) && !Terminal(Last(was.updates))
    requires h.updates != [] && (closedAt.Some? <==> Terminal(Last(h.updates)))
    ensures RecordShows(T.WithStatus(Last(h.updates), closedAt)(info), h)
  {
  }

  lemma ModifiedRecords(t: T.Table, id: nat, change: T.Info -> T.Info)
    ensures var now := T.Modified(t, id, change).connections;
            && now.Keys == t.connections.Keys
            && (id in t.connections ==> now[id] == change(t.connections[id]))
            && forall other :: other in t.connections && other != id ==> now[other] == t.connections[other]
  {
  }

  lemma ModifyKeeps(x: T.System, id: nat, change: T.Info -> T.Info, y: T.System)
    requires T.Inv(x) && y == x.(table := T.Modified(x.table, id, change))
    requires forall info: T.Info :: change(info).shown.id == info.shown.id
    ensures T.Inv(y)
  {
    assert T.Modifies(x, y);
    T.StepContinues(x, y);
  }

  /** From one status to the next one. */
  ghost predicate Succeeds(h: Handler, g: Handler, closedAt: Option<nat>) {
    && HandlerInv(g) && g.id == h.id
    && (h.stage.Handshaking? || h.stage.Relaying?) && (g.stage.Relaying? || g.stage.Ended?)
    && h.updates != [] && !Terminal(Last(h.updates))
    && g.updates != [] && (closedAt.Some? <==> Terminal(Last(g.updates)))
    && ((g.isDirect == h.isDirect && g.relay == h.relay) || (Untouched(g.relay) && Untouched(h.relay)))
  }

  lemma ConnectedHandler(h: Handler, isDirect: bool, relay: R.Relay<byte>)
    requires HandlerInv(h) && h.stage.Handshaking? && R.RelayInv(relay) && Untouched(relay)
    ensures Succeeds(h,
        h.(stage := Relaying, isDirect := isDirect, updates := h.updates + [T.Connected], relay := relay), None)
  {
    hide R.RelayInv, Untouched;
  }

  lemma FailedHandler(h: Handler, message: string, now: nat)
    requires HandlerInv(h) && h.stage.Handshaking?
    ensures Succeeds(h, h.(stage := Ended, updates := h.updates + [T.Error(message)]), Some(now))
  {
    hide R.RelayInv, Untouched;
  }

  lemma TerminatedHandler(h: Handler, message: string, now: nat)
    requires HandlerInv(h) && h.stage.Relaying? && !h.relay.select.exit.Running?
    ensures Succeeds(h, h.(stage := Ended,
      updates := h.updates + [if h.relay.select.exit.PumpError? then T.Error(message) else T.Closed]), Some(now))
  {
    hide R.RelayInv, Untouched;
  }

  /** Giving a record its next status. */
  lemma StatusKeeps(x: Server, i: nat, h: Handler, closedAt: Option<nat>, y: Server)
    requires Inv(x) && i < |x.handlers| && Succeeds(x.handlers[i], h, closedAt) && SetsStatus(x, i, h, closedAt, y)
    ensures Inv(y)
  {
    hide T.Inv, PermitInv, StatsInv, AllHandlers, OwnerInv, T.Modified, T.WithStatus, RecordsInv, HandlerInv, Untouched;
    StatusModifies(x.tracker, h.id, Last(h.updates), closedAt, y.tracker);
    StatusRecords(x, i, h, closedAt);
    OwnerSame(x.handlers, x.owner, x.tracker.pending, x.tracker.seen, i, h);
    SumsSame(x, i, h, y);
    HandlersUpdate(x.handlers, i, h);
  }

  lemma StatusModifies(x: T.System, id: nat, status: T.Status, closedAt: Option<nat>, y: T.System)
    requires T.Inv(x) && y == x.(table := T.Modified(x.table, id, T.WithStatus(status, closedAt)))
    ensures T.Inv(y)
  {
    hide T.Inv, T.Modified;
    ModifyKeeps(x, id, T.WithStatus(status, closedAt), y);
  }

  lemma ConnectKeeps(x: Server, i: nat, isDirect: bool, leftover: seq<byte>, client: seq<byte>,
                     targetLeftover: seq<byte>, target: seq<byte>, y: Server)
    requires Inv(x) && i < |x.handlers| && Connects(x, i, isDirect, leftover, client, targetLeftover, target, y)
    ensures Inv(y)
  {
    FreshRelay(leftover, client, targetLeftover, target);
    assert HandlerInv(x.handlers[i]);
    hide Inv, HandlerInv, R.RelayInv, R.StartRelay, Untouched, Succeeds;
    ConnectedHandler(x.handlers[i], isDirect, R.StartRelay(leftover, client, targetLeftover, target));
    StatusKeeps(x, i, y.handlers[i], None, y);
  }

  lemma HandshakeFailKeeps(x: Server, i: nat, message: string, now: nat, y: Server)
    requires Inv(x) && i < |x.handlers| && HandshakeFails(x, i, message, now, y)
    ensures Inv(y)
  {
    assert HandlerInv(x.handlers[i]);
    hide Inv, HandlerInv, Succeeds;
    FailedHandler(x.handlers[i], message, now);
    StatusKeeps(x, i, y.handlers[i], Some(now), y);
  }

  lemma TerminateKeeps(x: Server, i: nat, message: string, now: nat, y: Server)
    requires Inv(x) && i < |x.handlers| && Terminates(x, i, message, now, y)
    ensures Inv(y)
  {
    assert HandlerInv(x.handlers[i]);
    hide Inv, HandlerInv, Succeeds;
    TerminatedHandler(x.handlers[i], message, now);
    StatusKeeps(x, i, y.handlers[i], Some(now), y);
  }

  /** A relaying handler: the four totals grow by what its pumps added to them. */
  lemma RelaySums(x: Server, i: nat, h: Handler, y: Server)
    requires i < |x.handlers| && PermitInv(x) && StatsInv(x)
    requires y.handlers == x.handlers[i := h] && y.free == x.free
    requires h == x.handlers[i].(relay := h.relay)
    requires x.handlers[i].relay.up.total <= h.relay.up.total && x.handlers[i].relay.down.total <= h.relay.down.total
    requires y.stats == Counted(x.stats, h.isDirect,
      h.relay.up.total - x.handlers[i].relay.up.total, h.relay.down.total - x.handlers[i].relay.down.total)
    ensures PermitInv(y) && StatsInv(y)
  {
    hide Sum;
    SumsUpdate(x.handlers, i, h);
  }

  lemma RelayingHandler(h: Handler, relay: R.Relay<byte>)
    requires HandlerInv(h) && h.stage.Relaying? && R.RelayStep(h.relay, relay)
    ensures HandlerInv(h.(relay := relay))
  {
    R.RelayStepInv(h.relay, relay);
    hide R.RelayInv, R.RelayStep, Untouched;
  }

  lemma RelayKeeps(x: Server, i: nat, relay: R.Relay<byte>, y: Server)
    requires Inv(x) && i < |x.handlers| && Relays(x, i, relay, y)
    ensures Inv(y)
  {
    assert HandlerInv(x.handlers[i]);
    hide HandlerInv, R.RelayStep, T.Inv, RecordsInv, OwnerInv, PermitInv, StatsInv, AllHandlers, Counted;
    var h := x.handlers[i].(relay := relay);
    RelayingHandler(x.handlers[i], relay);
    RelaySums(x, i, h, y);
    SameBusiness(x, i, h, y);
  }

  /** A handler that goes on with what it was doing: the table and its owners stay. */
  lemma SameBusiness(x: Server, i: nat, h: Handler, y: Server)
    requires Inv(x) && i < |x.handlers| && HandlerInv(h) && y.handlers == x.handlers[i := h]
    requires h.id == x.handlers[i].id && h.updates == x.handlers[i].updates
    requires !h.stage.Arrived? && !h.stage.Allocated?
    requires !x.handlers[i].stage.Arrived? && !x.handlers[i].stage.Allocated?
    requires y.tracker == x.tracker && y.owner == x.owner && PermitInv(y) && StatsInv(y)
    ensures Inv(y)
  {
    hide HandlerInv, T.Inv, RecordsInv, OwnerInv, PermitInv, StatsInv, AllHandlers;
    HandlersUpdate(x.handlers, i, h);
    OwnerSame(x.handlers, x.owner, x.tracker.pending, x.tracker.seen, i, h);
    RecordsSame(x.handlers, x.owner, x.tracker.table.connections, i, h);
  }

  lemma ReleaseSums(x: Server, i: nat, y: Server)
    requires i < |x.handlers| && PermitInv(x) && StatsInv(x) && Releases(x, i, y)
    ensures PermitInv(y) && StatsInv(y)
  {
    hide Sum;
    SumsUpdate(x.handlers, i, y.handlers[i]);
  }

  lemma ReleasedHandler(h: Handler)
    requires HandlerInv(h) && h.stage.Ended?
    ensures HandlerInv(h.(stage := Released))
  {
    hide R.RelayInv, Untouched;
  }

  lemma ReleaseKeeps(x: Server, i: nat, y: Server)
    requires Inv(x) && i < |x.handlers| && Releases(x, i, y)
    ensures Inv(y)
  {
    var h := y.handlers[i];
    ReleaseSums(x, i, y);
    assert HandlerInv(x.handlers[i]);
    ReleasedHandler(x.handlers[i]);
    hide HandlerInv, T.Inv, RecordsInv, OwnerInv, PermitInv, StatsInv, AllHandlers;
    SameBusiness(x, i, h, y);
  }

  lemma SumsUntouched(x: Server, y: Server)
    requires PermitInv(x) && StatsInv(x) && y.handlers == x.handlers && y.free == x.free && y.stats == x.stats
    ensures PermitInv(y) && StatsInv(y)
  {
    hide Sum;
  }

  lemma DetailsAlike(t: T.Table, id: nat, change: T.Info -> T.Info)
    requires DetailOnly(change)
    ensures Alike(t.connections, T.Modified(t, id, change).connections)
  {
    ModifiedRecords(t, id, change);
  }

  lemma DescribeKeeps(x: Server, id: nat, change: T.Info -> T.Info, y: Server)
    requires Inv(x) && Describes(x, id, change, y)
    ensures Inv(y)
  {
    ModifyKeeps(x.tracker, id, change, y.tracker);
    DetailsAlike(x.tracker.table, id, change);
    SumsUntouched(x, y);
    hide T.Inv, T.Modified, RecordsInv, OwnerInv, AllHandlers, PermitInv, StatsInv, Alike;
    RecordsAlike(x.handlers, x.owner, x.tracker.table.connections, y.tracker.table.connections);
  }

  lemma CleanKeeps(x: Server, now: nat, y: Server)
    requires Inv(x) && Cleans(x, now, y)
    ensures Inv(y)
  {
    assert T.Cleans(x.tracker, now, y.tracker);
    T.StepContinues(x.tracker, y.tracker);
    T.CleanedValid(x.tracker.table, now);
    SumsUntouched(x, y);
    hide T.Inv, T.Cleaned, RecordsInv, OwnerInv, AllHandlers, PermitInv, StatsInv;
    RecordsAlike(x.handlers, x.owner, x.tracker.table.connections, y.tracker.table.connections);
  }

  lemma HandlerStepKeeps(x: Server, i: nat, y: Server)
    requires Inv(x) && i < |x.handlers| && HandlerStep(x, i, y)
    ensures Inv(y)
  {
    hide Inv, Registers, Connects, HandshakeFails, Relays, Terminates, Releases, TakesId, FirstRecord;
    if TakesId(x, i, y) {
      TakeIdKeeps(x, i, y);
    } else if peer, startTime :| Registers(x, i, FirstRecord(x.handlers[i].id, peer, startTime), y) {
      RegisterKeeps(x, i, FirstRecord(x.handlers[i].id, peer, startTime), y);
    } else if isDirect, leftover, client, targetLeftover, target :|
        Connects(x, i, isDirect, leftover, client, targetLeftover, target, y) {
      ConnectKeeps(x, i, isDirect, leftover, client, targetLeftover, target, y);
    } else if message, now :| HandshakeFails(x, i, message, now, y) {
      HandshakeFailKeeps(x, i, message, now, y);
    } else if relay :| Relays(x, i, relay, y) {
      RelayKeeps(x, i, relay, y);
    } else if message, now :| Terminates(x, i, message, now, y) {
      TerminateKeeps(x, i, message, now, y);
    } else {
      ReleaseKeeps(x, i, y);
    }
  }

  lemma StepKeeps(x: Server, y: Server)
    requires Inv(x) && Step(x, y)
    ensures Inv(y)
  {
    hide Inv, HandlerStep, Describes, Cleans, Accepts;
    if Accepts(x, y) {
      AcceptKeeps(x, y);
    } else if i :| 0 <= i < |x.handlers| && HandlerStep(x, i, y) {
      HandlerStepKeeps(x, i, y);
    } else if id, change :| Describes(x, id, change, y) {
      DescribeKeeps(x, id, change, y);
    } else if now :| Cleans(x, now, y) {
      CleanKeeps(x, now, y);
    }
  }

  ghost predicate IsRun(run: seq<Server>) {
    && run != [] && run[0] == Initial()
    && forall i :: 0 <= i < |run| - 1 ==> Step(run[i], run[i + 1])
  }

  lemma {:induction false} RunInv(run: seq<Server>, i: nat)
    requires IsRun(run) && i < |run|
    ensures Inv(run[i])
  {
    if i > 0 {
      hide Inv, Step;
      RunInv(run, i - 1);
      StepKeeps(run[i - 1], run[i]);
    }
  }

  // ---- What every run guarantees ----

  lemma {:induction false} SumBalance(handlers: seq<Handler>, a: Handler -> nat, b: Handler -> nat,
      c: Handler -> nat, d: Handler -> nat)
    requires forall i :: 0 <= i < |handlers| ==> a(handlers[i]) + b(handlers[i]) == c(handlers[i]) + d(handlers[i])
    ensures Sum(handlers, a) + Sum(handlers, b) == Sum(handlers, c) + Sum(handlers, d)
  {
    if handlers != [] {
      SumBalance(handlers[..|handlers| - 1], a, b, c, d);
    }
  }

  lemma {:induction false} SumZero(handlers: seq<Handler>, a: Handler -> nat)
    requires forall i :: 0 <= i < |handlers| ==> a(handlers[i]) == 0
    ensures Sum(handlers, a) == 0
  {
    if handlers != [] {
      SumZero(handlers[..|handlers| - 1], a);
    }
  }

  /** Bytes the sockets took and no counter shows yet, or ever: chunks in flight and chunks cut short. */
  function SentUncounted(h: Handler): nat { R.Uncounted(h.relay.up) }
  function ReceivedUncounted(h: Handler): nat { R.Uncounted(h.relay.down) }

  function SentTotal(h: Handler): nat { h.relay.up.total }
  function ReceivedTotal(h: Handler): nat { h.relay.down.total }

  function SentDelivered(h: Handler): nat { |h.relay.up.delivered| }
  function ReceivedDelivered(h: Handler): nat { |h.relay.down.delivered| }

  function Zero(h: Handler): nat { 0 }

  /**
   * The two global totals of a direction are the counters of all connections ever accepted plus
   * the chunks between their two updates, and fall short of the bytes the sockets took by exactly
   * the uncounted ones.
   */
  lemma Conservation(x: Server)
    requires Inv(x)
    ensures x.stats.directTx + x.stats.upstreamTx == Sum(x.handlers, Sent) + Sum(x.handlers, SentGap)
    ensures x.stats.directRx + x.stats.upstreamRx == Sum(x.handlers, Received) + Sum(x.handlers, ReceivedGap)
    ensures Sum(x.handlers, SentDelivered) == x.stats.directTx + x.stats.upstreamTx + Sum(x.handlers, SentUncounted)
    ensures Sum(x.handlers, ReceivedDelivered)
        == x.stats.directRx + x.stats.upstreamRx + Sum(x.handlers, ReceivedUncounted)
  {
    SentConserved(x.handlers);
    ReceivedConserved(x.handlers);
  }

  lemma SentConserved(hs: seq<Handler>)
    requires AllHandlers(hs)
    ensures Sum(hs, DirectSent) + Sum(hs, UpstreamSent) == Sum(hs, Sent) + Sum(hs, SentGap)
    ensures Sum(hs, SentDelivered) == Sum(hs, DirectSent) + Sum(hs, UpstreamSent) + Sum(hs, SentUncounted)
  {
    PumpBalance(hs);
    hide AllHandlers, Sum;
    SumBalance(hs, DirectSent, UpstreamSent, Sent, SentGap);
    SumBalance(hs, DirectSent, UpstreamSent, SentTotal, Zero);
    SumBalance(hs, SentDelivered, Zero, SentTotal, SentUncounted);
    SumZero(hs, Zero);
  }

  lemma ReceivedConserved(hs: seq<Handler>)
    requires AllHandlers(hs)
    ensures Sum(hs, DirectReceived) + Sum(hs, UpstreamReceived) == Sum(hs, Received) + Sum(hs, ReceivedGap)
    ensures Sum(hs, ReceivedDelivered)
        == Sum(hs, DirectReceived) + Sum(hs, UpstreamReceived) + Sum(hs, ReceivedUncounted)
  {
    PumpBalance(hs);
    hide AllHandlers, Sum;
    SumBalance(hs, DirectReceived, UpstreamReceived, Received, ReceivedGap);
    SumBalance(hs, DirectReceived, UpstreamReceived, ReceivedTotal, Zero);
    SumBalance(hs, ReceivedDelivered, Zero, ReceivedTotal, ReceivedUncounted);
    SumZero(hs, Zero);
  }

  lemma PumpBalance(hs: seq<Handler>)
    requires AllHandlers(hs)
    ensures forall i :: 0 <= i < |hs| ==>
      && SentTotal(hs[i]) == Sent(hs[i]) + SentGap(hs[i])
      && ReceivedTotal(hs[i]) == Received(hs[i]) + ReceivedGap(hs[i])
      && SentDelivered(hs[i]) == SentTotal(hs[i]) + SentUncounted(hs[i])
      && ReceivedDelivered(hs[i]) == ReceivedTotal(hs[i]) + ReceivedUncounted(hs[i])
  {
    forall i | 0 <= i < |hs|
      ensures R.PumpInv(hs[i].relay.up) && R.PumpInv(hs[i].relay.down)
    {
      assert HandlerInv(hs[i]);
    }
  }

  lemma {:induction false} SumCongruent(handlers: seq<Handler>, a: Handler -> nat, b: Handler -> nat)
    requires forall i :: 0 <= i < |handlers| ==> a(handlers[i]) == b(handlers[i])
    ensures Sum(handlers, a) == Sum(handlers, b)
  {
    if handlers != [] {
      SumCongruent(handlers[..|handlers| - 1], a, b);
    }
  }

  /**
   * Each of the four totals is the sum of what the pumps of its direction added to it, over the
   * connections that took its route.
   */
  ghost predicate TotalsAdd(x: Server) {
    && x.stats.directTx == Sum(x.handlers, (h: Handler) => if h.isDirect then h.relay.up.total else 0)
    && x.stats.upstreamTx == Sum(x.handlers, (h: Handler) => if h.isDirect then 0 else h.relay.up.total)
    && x.stats.directRx == Sum(x.handlers, (h: Handler) => if h.isDirect then h.relay.down.total else 0)
    && x.stats.upstreamRx == Sum(x.handlers, (h: Handler) => if h.isDirect then 0 else h.relay.down.total)
  }

  lemma TotalsByRoute(x: Server)
    requires StatsInv(x)
    ensures TotalsAdd(x)
  {
    hide Sum;
    SumCongruent(x.handlers, DirectSent, (h: Handler) => if h.isDirect then h.relay.up.total else 0);
    SumCongruent(x.handlers, UpstreamSent, (h: Handler) => if h.isDirect then 0 else h.relay.up.total);
    SumCongruent(x.handlers, DirectReceived, (h: Handler) => if h.isDirect then h.relay.down.total else 0);
    SumCongruent(x.handlers, UpstreamReceived, (h: Handler) => if h.isDirect then 0 else h.relay.down.total);
  }

  /** No pump of any connection is between its write and its two counter updates. */
  predicate Settled(x: Server) {
    forall i :: 0 <= i < |x.handlers| ==> R.AtRest(x.handlers[i].relay.up) && R.AtRest(x.handlers[i].relay.down)
  }

  lemma SettledTotals(x: Server)
    requires Inv(x) && Settled(x)
    ensures x.stats.directTx + x.stats.upstreamTx == Sum(x.handlers, Sent)
    ensures x.stats.directRx + x.stats.upstreamRx == Sum(x.handlers, Received)
  {
    Conservation(x);
    SumZero(x.handlers, SentGap);
    SumZero(x.handlers, ReceivedGap);
  }

  /** How many of the statuses are terminal. */
  function TerminalCount(updates: seq<T.Status>): nat {
    if updates == [] then 0
    else TerminalCount(updates[..|updates| - 1]) + if Terminal(Last(updates)) then 1 else 0
  }

  /** Every handler makes exactly one terminal update, as its last one, before it gives up its permit. */
  lemma OneTerminalUpdate(h: Handler)
    requires HandlerInv(h)
    ensures TerminalCount(h.updates) == if h.stage.Ended? || h.stage.Released? then 1 else 0
    ensures h.stage.Released? ==> Terminal(Last(h.updates))
  {
    hide R.RelayInv, Untouched;
    var u := h.updates;
    if |u| >= 1 {
      assert u[..1] == [u[0]] && u[..1][..0] == [];
      assert TerminalCount(u[..0]) == 0;
      assert TerminalCount(u[..1]) == 0;
      if |u| >= 2 {
        assert u[..2][..1] == u[..1];
        assert TerminalCount(u[..2]) == if Terminal(u[1]) then 1 else 0;
      }
    }
    assert u[..|u|] == u;
    if |u| == 3 {
      assert u[..3][..2] == u[..2];
    }
  }

  /** The connections in the table that have no closing time yet. */
  function Unclosed(x: Server): set<nat> {
    set id | id in x.tracker.table.connections && x.tracker.table.connections[id].closedAt.None?
  }

  function LiveIndices(handlers: seq<Handler>): set<nat> {
    set i | 0 <= i < |handlers| && !handlers[i].stage.Released?
  }

  lemma {:induction false} CountLive(handlers: seq<Handler>)
    ensures |LiveIndices(handlers)| == Sum(handlers, Live)
  {
    if handlers == [] {
      assert LiveIndices(handlers) == {};
    } else {
      var n := |handlers| - 1;
      CountLive(handlers[..n]);
      if handlers[n].stage.Released? {
        assert LiveIndices(handlers) == LiveIndices(handlers[..n]);
      } else {
        assert LiveIndices(handlers) == LiveIndices(handlers[..n]) + {n};
      }
    }
  }

  lemma {:induction false} Injection(ids: set<nat>, owner: map<nat, nat>, indices: set<nat>)
    requires forall id :: id in ids ==> id in owner && owner[id] in indices
    requires forall a, b :: a in ids && b in ids && owner[a] == owner[b] ==> a == b
    ensures |ids| <= |indices|
    decreases ids
  {
    if id :| id in ids {
      Injection(ids - {id}, owner, indices - {owner[id]});
    }
  }

  /**
   * A handler keeps its permit until its record has a closing time, so at most as many records are
   * unclosed as there are permits out, and never more than 1024.
   */
  lemma UnclosedBounded(x: Server)
    requires Inv(x)
    ensures |Unclosed(x)| <= Sum(x.handlers, Live) == MAX_CONNECTIONS - x.free
    ensures |Unclosed(x)| <= MAX_CONNECTIONS
  {
    var hs := x.handlers;
    forall id | id in Unclosed(x)
      ensures id in x.owner && x.owner[id] in LiveIndices(hs)
    {
      assert HandlerInv(hs[x.owner[id]]);
      UnclosedIsLive(x.tracker.table.connections[id], hs[x.owner[id]]);
    }
    Injection(Unclosed(x), x.owner, LiveIndices(hs));
    CountLive(hs);
  }

  lemma UnclosedIsLive(info: T.Info, h: Handler)
    requires HandlerInv(h) && RecordShows(info, h) && info.closedAt.None?
    ensures !h.stage.Released? && !h.stage.Ended?
  {
  }

  /** Every step is a step of the tracker or leaves it alone, so what holds of its runs holds here. */
  lemma StepOfTracker(x: Server, y: Server)
    requires Inv(x) && Step(x, y)
    ensures y.tracker == x.tracker || T.Step(x.tracker, y.tracker)
  {
    hide R.RelayStep, Sum, T.Inserted, T.Modified, T.Cleaned, HandlerInv;
    if i :| 0 <= i < |x.handlers| && HandlerStep(x, i, y) {
      if peer, startTime :| Registers(x, i, FirstRecord(x.handlers[i].id, peer, startTime), y) {
        var info := FirstRecord(x.handlers[i].id, peer, startTime);
        OwnerRegisters(x.handlers, x.owner, x.tracker.pending, x.tracker.seen, i, y.handlers[i]);
        assert info.shown.id in x.tracker.pending;
        assert T.Inserts(x.tracker, y.tracker);
      } else if !TakesId(x, i, y) {
        StatusIsModify(x, i, y);
      }
    } else if now :| Cleans(x, now, y) {
      assert T.Cleans(x.tracker, now, y.tracker);
    } else if id, change :| Describes(x, id, change, y) {
      assert T.Modifies(x.tracker, y.tracker);
    }
  }

  lemma StatusIsModify(x: Server, i: nat, y: Server)
    requires i < |x.handlers| && HandlerStep(x, i, y) && !TakesId(x, i, y)
    requires forall peer, startTime :: !Registers(x, i, FirstRecord(x.handlers[i].id, peer, startTime), y)
    ensures y.tracker == x.tracker || T.Modifies(x.tracker, y.tracker)
  {
    hide R.RelayStep, T.Modified;
  }

  /**
   * In every run of the server a later table lists the survivors of an earlier one in their order,
   * then only newer ids.
   */
  lemma {:induction false} TableOrderIsStable(run: seq<Server>, i: nat, j: nat)
    requires IsRun(run) && i <= j < |run|
    ensures T.Inv(run[i].tracker) && T.Inv(run[j].tracker) && run[i].tracker.seen <= run[j].tracker.seen
    ensures T.Continues(run[i].tracker.table.order, run[i].tracker.seen, run[j].tracker.table.order)
    decreases j
  {
    hide Step, OwnerInv, RecordsInv, AllHandlers, PermitInv, StatsInv;
    RunInv(run, i);
    RunInv(run, j);
    var o := run[i].tracker.table.order;
    assert forall id :: id in o ==> id in T.Elements(o);
    if i == j {
      T.KeepInAll(o, T.Elements(o));
    } else {
      TableOrderIsStable(run, i, j - 1);
      RunInv(run, j - 1);
      var x, y := run[j - 1], run[j];
      StepOfTracker(x, y);
      if y.tracker != x.tracker {
        T.StepContinues(x.tracker, y.tracker);
        T.ContinuesTransitive(o, run[i].tracker.seen, x.tracker.table.order, x.tracker.seen, y.tracker.table.order);
      }
    }
  }

  /** A status once given is never taken back: later histories extend earlier ones. */
  lemma {:induction false} HistoryGrows(run: seq<Server>, i: nat, j: nat, k: nat)
    requires IsRun(run) && i <= j < |run| && k < |run[i].handlers|
    ensures k < |run[j].handlers| && run[i].handlers[k].updates <= run[j].handlers[k].updates
    ensures HandlerInv(run[j].handlers[k])
    decreases j
  {
    hide Step, OwnerInv, RecordsInv, PermitInv, StatsInv, HandlerInv, T.Inv;
    RunInv(run, j);
    if i < j {
      HistoryGrows(run, i, j - 1, k);
      StepExtends(run[j - 1], run[j], k);
    }
  }

  lemma StepExtends(x: Server, y: Server, k: nat)
    requires Step(x, y) && k < |x.handlers| && HandlerInv(x.handlers[k])
    ensures k < |y.handlers| && x.handlers[k].updates <= y.handlers[k].updates
  {
    hide HandlerStep, HandlerInv;
    if i :| 0 <= i < |x.handlers| && HandlerStep(x, i, y) {
      HandlerStepExtends(x, i, y, k);
    }
  }

  lemma HandlerStepExtends(x: Server, i: nat, y: Server, k: nat)
    requires i < |x.handlers| && HandlerStep(x, i, y) && k < |x.handlers| && HandlerInv(x.handlers[k])
    ensures k < |y.handlers| && x.handlers[k].updates <= y.handlers[k].updates
  {
    assert x.handlers[k].stage.Allocated? ==> x.handlers[k].updates == [];
    hide HandlerInv, R.RelayStep, R.StartRelay, Counted, T.Allocates;
    if TakesId(x, i, y) {
      ReplacedExtends(x, i, y.handlers[i], y, k);
    } else if peer, startTime :| Registers(x, i, FirstRecord(x.handlers[i].id, peer, startTime), y) {
      ReplacedExtends(x, i, y.handlers[i], y, k);
    } else if isDirect, leftover, client, targetLeftover, target :|
        Connects(x, i, isDirect, leftover, client, targetLeftover, target, y) {
      ReplacedExtends(x, i, y.handlers[i], y, k);
    } else if message, now :| HandshakeFails(x, i, message, now, y) {
      ReplacedExtends(x, i, y.handlers[i], y, k);
    } else if relay :| Relays(x, i, relay, y) {
      ReplacedExtends(x, i, y.handlers[i], y, k);
    } else if message, now :| Terminates(x, i, message, now, y) {
      ReplacedExtends(x, i, y.handlers[i], y, k);
    } else {
      ReplacedExtends(x, i, y.handlers[i], y, k);
    }
  }

  lemma ReplacedExtends(x: Server, i: nat, h: Handler, y: Server, k: nat)
    requires i < |x.handlers| && k < |x.handlers| && y.handlers == x.handlers[i := h]
    requires i == k ==> x.handlers[i].updates <= h.updates
    ensures k < |y.handlers| && x.handlers[k].updates <= y.handlers[k].updates
  {
  }

  // ---- What every connection delivers ----

  predicate HasRelay(h: Handler) {
    h.stage.Relaying? || h.stage.Ended? || h.stage.Released?
  }

  /** The same streams, and at least as much of them delivered. */
  ghost predicate CarriesOn(h: Handler, g: Handler) {
    && g.relay.up.leftover == h.relay.up.leftover && g.relay.up.stream == h.relay.up.stream
    && g.relay.down.leftover == h.relay.down.leftover && g.relay.down.stream == h.relay.down.stream
    && h.relay.up.delivered <= g.relay.up.delivered && h.relay.down.delivered <= g.relay.down.delivered
    && g.isDirect == h.isDirect && HasRelay(g)
  }

  lemma RelayCarriesOn(h: Handler, relay: R.Relay<byte>)
    requires HandlerInv(h) && h.stage.Relaying? && R.RelayStep(h.relay, relay)
    ensures CarriesOn(h, h.(relay := relay))
  {
    hide R.PumpInv, R.Whole, R.Reads, R.Writes, Untouched;
    R.RelayStepInv(h.relay, relay);
    if R.ClientMoves(h.relay, relay) {
      R.PumpKeepsStream(h.relay.up, relay.up);
    } else if R.TargetMoves(h.relay, relay) {
      R.PumpKeepsStream(h.relay.down, relay.down);
    }
  }

  lemma StepCarriesOn(x: Server, y: Server, k: nat)
    requires Step(x, y) && k < |x.handlers| && HandlerInv(x.handlers[k]) && HasRelay(x.handlers[k])
    ensures k < |y.handlers| && CarriesOn(x.handlers[k], y.handlers[k])
  {
    hide HandlerStep, HandlerInv;
    if i :| 0 <= i < |x.handlers| && HandlerStep(x, i, y) {
      HandlerStepCarriesOn(x, i, y, k);
    }
  }

  lemma HandlerStepCarriesOn(x: Server, i: nat, y: Server, k: nat)
    requires i < |x.handlers| && HandlerStep(x, i, y)
    requires k < |x.handlers| && HandlerInv(x.handlers[k]) && HasRelay(x.handlers[k])
    ensures k < |y.handlers| && CarriesOn(x.handlers[k], y.handlers[k])
  {
    hide HandlerInv, R.RelayStep, R.StartRelay, Counted, T.Allocates, T.Inserted, T.Modified, T.WithStatus, FirstRecord;
    if relay :| Relays(x, i, relay, y) {
      if i == k {
        RelayCarriesOn(x.handlers[k], relay);
      }
    } else if i == k {
      OtherStepKeepsRelay(x, i, y);
    }
  }

  lemma OtherStepKeepsRelay(x: Server, i: nat, y: Server)
    requires i < |x.handlers| && HandlerStep(x, i, y) && HasRelay(x.handlers[i])
    requires forall relay :: !Relays(x, i, relay, y)
    ensures i < |y.handlers| && CarriesOn(x.handlers[i], y.handlers[i])
  {
    hide R.RelayStep, R.StartRelay, Counted, T.Allocates, T.Inserted, T.Modified, T.WithStatus, FirstRecord;
  }

  /** Once connected a handler keeps its streams and its route for ever, and never takes back what it delivered. */
  lemma {:induction false} StreamsStay(run: seq<Server>, i: nat, j: nat, k: nat)
    requires IsRun(run) && i <= j < |run| && k < |run[i].handlers| && HasRelay(run[i].handlers[k])
    ensures k < |run[j].handlers| && CarriesOn(run[i].handlers[k], run[j].handlers[k])
    decreases j
  {
    hide Step, HandlerInv, CarriesOn, HasRelay, Initial;
    if i < j {
      StreamsStay(run, i, j - 1, k);
      HistoryGrows(run, i, j - 1, k);
      CarriedOn(run[i].handlers[k], run[j - 1].handlers[k]);
      StepCarriesOn(run[j - 1], run[j], k);
      CarriesOnFurther(run[i].handlers[k], run[j - 1].handlers[k], run[j].handlers[k]);
    } else {
      CarriesOnItself(run[i].handlers[k]);
    }
  }

  lemma CarriedOn(h: Handler, g: Handler)
    requires CarriesOn(h, g)
    ensures HasRelay(g)
  {
  }

  lemma CarriesOnItself(h: Handler)
    requires HasRelay(h)
    ensures CarriesOn(h, h)
  {
  }

  lemma CarriesOnFurther(a: Handler, b: Handler, c: Handler)
    requires CarriesOn(a, b) && CarriesOn(b, c)
    ensures CarriesOn(a, c)
  {
  }

  /**
   * Every connection of every run is transparent: for the leftovers and streams it was connected
   * with, each side has got a prefix of what the other side sent, both have got all of it when the
   * relay left because both were done, and one of them when lingering ended.
   */
  lemma EveryHandlerTransparent(run: seq<Server>, i: nat, j: nat, k: nat, isDirect: bool,
                                leftover: seq<byte>, client: seq<byte>, targetLeftover: seq<byte>, target: seq<byte>)
    requires IsRun(run) && i < j < |run| && k < |run[i].handlers|
    requires Connects(run[i], k, isDirect, leftover, client, targetLeftover, target, run[i + 1])
    ensures k < |run[j].handlers|
    ensures var r, up, down := run[j].handlers[k].relay, leftover + client, targetLeftover + target;
            && r.up.delivered <= up && r.down.delivered <= down
            && (r.select.exit.BothDone? ==> r.up.delivered == up && r.down.delivered == down)
            && (r.select.exit.Lingered? ==> r.up.delivered == up || r.down.delivered == down)
  {
    hide Step, Connects, HandlerInv, R.PumpInv;
    ConnectedWith(run[i], k, isDirect, leftover, client, targetLeftover, target, run[i + 1]);
    StreamsStay(run, i + 1, j, k);
    HistoryGrows(run, i, j, k);
    HandlerDelivers(run[j].handlers[k]);
  }

  lemma ConnectedWith(x: Server, k: nat, isDirect: bool, leftover: seq<byte>, client: seq<byte>,
                      targetLeftover: seq<byte>, target: seq<byte>, y: Server)
    requires k < |x.handlers| && Connects(x, k, isDirect, leftover, client, targetLeftover, target, y)
    ensures k < |y.handlers| && HasRelay(y.handlers[k]) && y.handlers[k].isDirect == isDirect
    ensures y.handlers[k].relay == R.StartRelay(leftover, client, targetLeftover, target)
  {
  }

  lemma HandlerDelivers(h: Handler)
    requires HandlerInv(h)
    ensures h.relay.up.delivered <= R.Whole(h.relay.up) && h.relay.down.delivered <= R.Whole(h.relay.down)
    ensures h.relay.select.exit.BothDone? ==>
              h.relay.up.delivered == R.Whole(h.relay.up) && h.relay.down.delivered == R.Whole(h.relay.down)
    ensures h.relay.select.exit.Lingered? ==>
              h.relay.up.delivered == R.Whole(h.relay.up) || h.relay.down.delivered == R.Whole(h.relay.down)
  {
    hide Lifecycle, LifecycleAt, Untouched;
    if h.relay.up.phase.Finished? {
      R.FinishedDeliveredAll(h.relay.up);
    }
    if h.relay.down.phase.Finished? {
      R.FinishedDeliveredAll(h.relay.down);
    }
  }

  /** A history that ends in its only terminal status, when the handler is through, and has none before. */
  predicate EndsOnce(h: Handler) {
    var n := |h.updates|;
    if h.stage.Ended? || h.stage.Released? then
      && 0 < n && (h.updates[n - 1].Closed? || h.updates[n - 1].Error?)
      && forall j :: 0 <= j < n - 1 ==> !h.updates[j].Closed? && !h.updates[j].Error?
    else
      forall j :: 0 <= j < n ==> !h.updates[j].Closed? && !h.updates[j].Error?
  }

  lemma HistoryEnds(h: Handler)
    requires HandlerInv(h)
    ensures EndsOnce(h) && R.Accounted(h.relay.up) && R.Accounted(h.relay.down)
  {
    R.InvAccounted(h.relay.up);
    R.InvAccounted(h.relay.down);
    hide Untouched, R.PumpInv, R.Accounted;
  }

  /** Handlers at work and free permits are 1024, and no more records lack a closing time than permits are out. */
  ghost predicate PermitsCover(x: Server) {
    && x.free + |set k | 0 <= k < |x.handlers| && x.handlers[k].stage != Released| == 1024
    && |set id | id in x.tracker.table.connections && x.tracker.table.connections[id].closedAt == None|
         <= 1024 - x.free
  }

  lemma PermitsOut(x: Server)
    requires Inv(x)
    ensures PermitsCover(x)
  {
    UnclosedBounded(x);
    hide Inv, Sum, Unclosed, LiveIndices;
    CountLive(x.handlers);
    AtWork(x.handlers);
    WithoutClosingTime(x);
  }

  lemma AtWork(handlers: seq<Handler>)
    ensures LiveIndices(handlers) == set k | 0 <= k < |handlers| && handlers[k].stage != Released
  {
  }

  lemma WithoutClosingTime(x: Server)
    ensures Unclosed(x)
         == set id | id in x.tracker.table.connections && x.tracker.table.connections[id].closedAt == None
  {
  }

  /**
   * All of it at once, in every state of every run: the permits; the four totals as sums by
   * direction and route; every counter lacks exactly its chunk in flight or cut short; and every
   * handler that is through has made exactly one terminal update, as its last.
   */
  lemma EveryRun(run: seq<Server>, i: nat)
    requires IsRun(run) && i < |run|
    ensures PermitsCover(run[i]) && TotalsAdd(run[i])
    ensures forall k :: 0 <= k < |run[i].handlers| ==>
              var h := run[i].handlers[k];
              EndsOnce(h) && R.Accounted(h.relay.up) && R.Accounted(h.relay.down)
  {
    RunInv(run, i);
    var x := run[i];
    hide IsRun, T.Inv, OwnerInv, RecordsInv, HandlerInv, R.Accounted, EndsOnce, PermitsCover, TotalsAdd, StatsInv;
    TotalsByRoute(x);
    PermitsOut(x);
    forall k | 0 <= k < |x.handlers|
      ensures EndsOnce(x.handlers[k])
      ensures R.Accounted(x.handlers[k].relay.up) && R.Accounted(x.handlers[k].relay.down)
    {
      HistoryEnds(x.handlers[k]);
    }
  }

  // ---- One handler as code ----

  /** What the three protocol handlers give back, or the error or the timeout of the handshake. */
  datatype Handshake =
    | Ready(target: string, proxy: string, protocol: string)
    | Refused(message: string)
    | TimedOut(message: string)

  /** The record a handler leaves behind when nobody evicts it. */
  function FinalRecord(info: T.Info, handshake: Handshake, exit: R.Exit, relayError: string, now: nat): T.Info {
    match handshake
    case Ready(target, proxy, protocol) =>
      T.Info(info.shown.(outboundTarget := target, proxy := proxy, proxyProtocol := protocol,
                         status := if exit.PumpError? then T.Error(relayError) else T.Closed), Some(now))
    case Refused(message) => T.Info(info.shown.(status := T.Error(message)), Some(now))
    case TimedOut(message) => T.Info(info.shown.(status := T.Error(message)), Some(now))
  }

  /** The table with one record exchanged. */
  predicate OneChanged(was: T.Table, id: nat, info: T.Info, now: T.Table) {
    now == T.Table(was.connections[id := info], was.order)
  }

  lemma ChangedAgain(was: T.Table, id: nat, info: T.Info, now: T.Table, change: T.Info -> T.Info)
    requires OneChanged(was, id, info, now)
    ensures OneChanged(was, id, change(info), T.Modified(now, id, change))
    ensures id in T.Modified(now, id, change).connections
  {
  }

  lemma NothingChanged(t: T.Table, id: nat)
    requires id in t.connections
    ensures OneChanged(t, id, t.connections[id], t)
  {
  }

  lemma ChangedRecord(was: T.Table, id: nat, info: T.Info, now: T.Table)
    requires OneChanged(was, id, info, now)
    ensures id in now.connections && now.connections[id] == info
  {
  }

  function AnnouncedRecord(info: T.Info, handshake: Handshake): T.Info
    requires handshake.Ready?
  {
    info.(shown := info.shown.(outboundTarget := handshake.target, proxy := handshake.proxy,
                               proxyProtocol := handshake.protocol, status := T.Connected))
  }

  /** `set_proxy_protocol`, `set_outbound_target`, `set_proxy` and `set_connected` after a good handshake. */
  method Announce(tracker: T.ConnectionTracker, id: nat, handshake: Handshake)
    requires tracker.Valid() && id in tracker.connections && handshake.Ready?
    modifies tracker`connections
    ensures tracker.Valid()
    ensures OneChanged(old(tracker.Contents()), id, AnnouncedRecord(old(tracker.connections)[id], handshake),
        tracker.Contents())
    ensures id in tracker.connections
    ensures var was := old(tracker.connections)[id];
            tracker.connections[id] == was.(shown := was.shown.(outboundTarget := handshake.target,
              proxy := handshake.proxy, proxyProtocol := handshake.protocol, status := T.Connected))
  {
    hide T.Modified, T.ValidTable, OneChanged;
    ghost var t := tracker.Contents();
    ghost var info := t.connections[id];
    NothingChanged(t, id);
    ChangedAgain(t, id, info, tracker.Contents(), T.WithProtocol(handshake.protocol));
    tracker.SetProxyProtocol(id, handshake.protocol);
    info := T.WithProtocol(handshake.protocol)(info);
    ChangedAgain(t, id, info, tracker.Contents(), T.WithTarget(handshake.target));
    tracker.SetOutboundTarget(id, handshake.target);
    info := T.WithTarget(handshake.target)(info);
    ChangedAgain(t, id, info, tracker.Contents(), T.WithProxy(handshake.proxy));
    tracker.SetProxy(id, handshake.proxy);
    info := T.WithProxy(handshake.proxy)(info);
    ChangedAgain(t, id, info, tracker.Contents(), T.WithStatus(T.Connected, None));
    tracker.SetConnected(id);
    ChangedRecord(t, id, AnnouncedRecord(t.connections[id], handshake), tracker.Contents());
  }

  /** `set_closed` or `set_error` after the relay. */
  method Conclude(tracker: T.ConnectionTracker, id: nat, exit: R.Exit, relayError: string, now: nat)
    requires tracker.Valid() && id in tracker.connections
    modifies tracker`connections
    ensures tracker.Valid()
    ensures OneChanged(old(tracker.Contents()), id,
              T.WithStatus(if exit.PumpError? then T.Error(relayError) else T.Closed, Some(now))
                (old(tracker.connections)[id]),
              tracker.Contents())
    ensures id in tracker.connections
    ensures tracker.connections[id] == T.Info(old(tracker.connections)[id].shown.(
              status := if exit.PumpError? then T.Error(relayError) else T.Closed), Some(now))
  {
    if exit.PumpError? {
      tracker.SetError(id, relayError, now);
    } else {
      tracker.SetClosed(id, now);
    }
  }

  lemma ChangedTwice(a: T.Table, b: T.Table, c: T.Table, id: nat, info: T.Info, last: T.Info)
    requires OneChanged(a, id, info, b) && OneChanged(b, id, last, c)
    ensures OneChanged(a, id, last, c)
  {
  }

  /** `handle_connection` for given results of the handshake and of the two pumps. */
  method HandleConnection(tracker: T.ConnectionTracker, peer: string, startTime: string, handshake: Handshake,
                          clientOk: bool, targetOk: bool, relayError: string, now: nat) returns (ok: bool, exit: R.Exit)
    requires tracker.Valid()
    modifies tracker`connections, tracker`order, tracker`nextId
    ensures tracker.Valid()
    ensures var id := old(tracker.nextId);
            id in tracker.connections && tracker.connections[id] ==
              T.Info(
                match handshake
                case Ready(target, proxy, protocol) =>
                  T.Shown(id, peer, target, protocol, proxy, startTime,
                          if exit.PumpError? then T.Error(relayError) else T.Closed, "")
                case Refused(message) =>
                  T.Shown(id, peer, "resolving...", "detecting...", "connecting...", startTime, T.Error(message), "")
                case TimedOut(message) =>
                  T.Shown(id, peer, "resolving...", "detecting...", "connecting...", startTime, T.Error(message), ""),
                Some(now))
    ensures var first := FirstRecord(old(tracker.nextId), peer, startTime);
            OneChanged(T.Inserted(old(tracker.Contents()), first), first.shown.id,
              FinalRecord(first, handshake, exit, relayError, now), tracker.Contents())
    ensures ok <==> handshake.Ready? && !exit.PumpError?
    ensures exit.PumpError? ==> !clientOk || !targetOk
    ensures exit.BothDone? ==> clientOk && targetOk
    ensures handshake.Ready? <==> !exit.Running?
  {
    hide T.Inserted, T.Modified, T.ValidTable, OneChanged;
    var id := tracker.Register(peer, "resolving...", "detecting...", startTime);
    ghost var table, first := tracker.Contents(), FirstRecord(id, peer, startTime);
    exit := R.Running;
    if handshake.Ready? {
      Announce(tracker, id, handshake);
      ghost var announced, shown := tracker.Contents(), AnnouncedRecord(first, handshake);
      ChangedRecord(table, id, shown, announced);
      var relay := new R.RelayLoop();
      ghost var taken := relay.Loop(clientOk, targetOk);
      exit := relay.exit;
      ok := !exit.PumpError?;
      Conclude(tracker, id, exit, relayError, now);
      ChangedTwice(table, announced, tracker.Contents(), id, shown,
          FinalRecord(first, handshake, exit, relayError, now));
    } else {
      NothingChanged(table, id);
      ChangedAgain(table, id, first, table, T.WithStatus(T.Error(handshake.message), Some(now)));
      tracker.SetError(id, handshake.message, now);
      ok := false;
    }
  }
}
