/**
 * src/connection_tracker.rs: the connection table behind its lock, and what every interleaving of
 * its operations keeps.
 */
module Tracker {
  import opened Basics

  const MAX_CONNECTIONS: nat := 5000

  /** `CLOSED_RETENTION` in milliseconds. */
  const CLOSED_RETENTION: nat := 5000

  datatype Status = Connecting | Connected | Closed | Error(message: string)

  /** The fields a row shows; the byte counters are shared atomics and not part of the record. */
  datatype Shown = Shown(
    id: nat,
    sourceIp: string,
    outboundTarget: string,
    proxyProtocol: string,
    proxy: string,
    startTime: string,
    status: Status,
    exeName: string)

  datatype Info = Info(shown: Shown, closedAt: Option<nat>)

  /** What the lock protects. */
  datatype Table = Table(connections: map<nat, Info>, order: seq<nat>)

  // ---- Sequences of ids ----

  function Elements(s: seq<nat>): set<nat> {
    set x | x in s
  }

  /** The elements of `s` that are in `keep`, in order (`VecDeque::retain`). */
  function KeepIn(s: seq<nat>, keep: set<nat>): (r: seq<nat>)
    ensures forall x :: x in r <==> x in s && x in keep
    ensures |r| <= |s|
  {
    if s == [] then []
    else
      assert s == [s[0]] + s[1..];
      (if s[0] in keep then [s[0]] else []) + KeepIn(s[1..], keep)
  }

  lemma {:induction false} KeepInAppend(a: seq<nat>, b: seq<nat>, keep: set<nat>)
    ensures KeepIn(a + b, keep) == KeepIn(a, keep) + KeepIn(b, keep)
  {
    if a == [] {
      assert a + b == b;
    } else {
      TailAppend(a, b);
      KeepInAppend(a[1..], b, keep);
      Associate(if a[0] in keep then [a[0]] else [], KeepIn(a[1..], keep), KeepIn(b, keep));
    }
  }

  /** Only membership of the elements of `s` matters. */
  lemma {:induction false} KeepInAgree(s: seq<nat>, p: set<nat>, q: set<nat>)
    requires forall x :: x in s ==> (x in p <==> x in q)
    ensures KeepIn(s, p) == KeepIn(s, q)
  {
    if s != [] {
      KeepInAgree(s[1..], p, q);
    }
  }

  lemma {:induction false} KeepInAll(s: seq<nat>, keep: set<nat>)
    requires forall x :: x in s ==> x in keep
    ensures KeepIn(s, keep) == s
  {
    if s != [] {
      KeepInAll(s[1..], keep);
    }
  }

  lemma {:induction false} KeepInNone(s: seq<nat>, keep: set<nat>)
    requires forall x :: x in s ==> x !in keep
    ensures KeepIn(s, keep) == []
  {
    if s != [] {
      KeepInNone(s[1..], keep);
    }
  }

  lemma {:induction false} KeepInTwice(s: seq<nat>, p: set<nat>, q: set<nat>)
    ensures KeepIn(KeepIn(s, p), q) == KeepIn(s, p * q)
  {
    if s != [] {
      KeepInTwice(s[1..], p, q);
      KeepInAppend(if s[0] in p then [s[0]] else [], KeepIn(s[1..], p), q);
    }
  }

  lemma {:induction false} KeepInDistinct(s: seq<nat>, keep: set<nat>)
    requires NoDuplicates(s)
    ensures NoDuplicates(KeepIn(s, keep))
  {
    if s != [] {
      assert s[0] !in s[1..];
      KeepInDistinct(s[1..], keep);
    }
  }

  // ---- The operations on the table ----

  /** `id` keys its own record, and `order` lists every key once. */
  ghost predicate ValidTable(t: Table) {
    && NoDuplicates(t.order)
    && Elements(t.order) == t.connections.Keys
    && |t.order| <= MAX_CONNECTIONS
    && forall id :: id in t.connections ==> t.connections[id].shown.id == id
  }

  function EmptyTable(): Table {
    Table(map[], [])
  }

  /** Drops entries from the front until at most `limit` are left. */
  function Evict(t: Table, limit: nat): Table
    decreases |t.order|
  {
    if |t.order| <= limit then t
    else Evict(Table(t.connections - {t.order[0]}, t.order[1..]), limit)
  }

  /** The locked part of `register`. */
  function Inserted(t: Table, info: Info): Table {
    Evict(Table(t.connections[info.shown.id := info], t.order + [info.shown.id]), MAX_CONNECTIONS)
  }

  /** `modify`: the record is replaced if the id is still in the table. */
  function Modified(t: Table, id: nat, change: Info -> Info): Table {
    if id in t.connections then t.(connections := t.connections[id := change(t.connections[id])]) else t
  }

  predicate Retained(info: Info, now: nat) {
    info.closedAt.None? || now < info.closedAt.value + CLOSED_RETENTION
  }

  function Cleaned(t: Table, now: nat): Table {
    var live := map id | id in t.connections && Retained(t.connections[id], now) :: t.connections[id];
    Table(live, KeepIn(t.order, live.Keys))
  }

  /** The records in arrival order. */
  function SnapshotOf(t: Table): seq<Info> {
    Lookup(t.connections, t.order)
  }

  function Lookup(connections: map<nat, Info>, order: seq<nat>): seq<Info> {
    if order == [] then []
    else (if order[0] in connections then [connections[order[0]]] else []) + Lookup(connections, order[1..])
  }

  function Ids(infos: seq<Info>): seq<nat> {
    seq(|infos|, i requires 0 <= i < |infos| => infos[i].shown.id)
  }

  lemma {:induction false} LookupAll(connections: map<nat, Info>, order: seq<nat>)
    requires forall id :: id in order ==> id in connections && connections[id].shown.id == id
    ensures |Lookup(connections, order)| == |order|
    ensures forall i :: 0 <= i < |order| ==> Lookup(connections, order)[i] == connections[order[i]]
    ensures Ids(Lookup(connections, order)) == order
  {
    if order != [] {
      assert order[0] in order && forall id :: id in order[1..] ==> id in order;
      LookupAll(connections, order[1..]);
    }
  }

  /** A snapshot of a valid table shows every record once, in arrival order. */
  lemma SnapshotShowsAll(t: Table)
    requires ValidTable(t)
    ensures Ids(SnapshotOf(t)) == t.order
    ensures |SnapshotOf(t)| == |t.order|
    ensures forall i :: 0 <= i < |t.order| ==>
        t.order[i] in t.connections && SnapshotOf(t)[i] == t.connections[t.order[i]]
  {
    assert forall id :: id in t.order ==> id in Elements(t.order);
    LookupAll(t.connections, t.order);
  }

  lemma InsertedMeaning(t: Table, info: Info)
    requires ValidTable(t) && info.shown.id !in t.connections
    ensures ValidTable(Inserted(t, info))
    ensures Inserted(t, info).order == (if |t.order| < 5000 then t.order else t.order[1..]) + [info.shown.id]
    ensures info.shown.id in Inserted(t, info).connections && Inserted(t, info).connections[info.shown.id] == info
    ensures forall id :: id in Inserted(t, info).connections && id != info.shown.id ==>
              id in t.connections && Inserted(t, info).connections[id] == t.connections[id]
  {
    hide Evict, Elements, NoDuplicates;
    var id := info.shown.id;
    var full := Table(t.connections[id := info], t.order + [id]);
    FullOrder(t, id);
    EvictOne(full);
    if MAX_CONNECTIONS < |full.order| {
      WithoutFirst(full.order);
      assert full.order[1..] == t.order[1..] + [id];
    }
  }

  lemma FullOrder(t: Table, id: nat)
    requires ValidTable(t) && id !in t.connections
    ensures id !in t.order && NoDuplicates(t.order + [id])
    ensures Elements(t.order + [id]) == t.connections.Keys + {id}
  {
    assert id !in Elements(t.order);
  }

  lemma EvictOne(t: Table)
    requires |t.order| <= MAX_CONNECTIONS + 1
    ensures Evict(t, MAX_CONNECTIONS)
         == if |t.order| <= MAX_CONNECTIONS then t else Table(t.connections - {t.order[0]}, t.order[1..])
  {
    if MAX_CONNECTIONS < |t.order| {
      var rest := Table(t.connections - {t.order[0]}, t.order[1..]);
      assert Evict(rest, MAX_CONNECTIONS) == rest;
    }
  }

  lemma WithoutFirst(order: seq<nat>)
    requires NoDuplicates(order) && order != []
    ensures NoDuplicates(order[1..])
    ensures Elements(order[1..]) == Elements(order) - {order[0]}
  {
    assert order == [order[0]] + order[1..];
  }

  lemma ModifiedValid(t: Table, id: nat, change: Info -> Info)
    requires ValidTable(t)
    requires id in t.connections ==> change(t.connections[id]).shown.id == id
    ensures ValidTable(Modified(t, id, change))
    ensures Modified(t, id, change).order == t.order
  {
  }

  lemma CleanedValid(t: Table, now: nat)
    requires ValidTable(t)
    ensures ValidTable(Cleaned(t, now))
    ensures forall id :: id in Cleaned(t, now).connections <==>
              && id in t.connections
              && (t.connections[id].closedAt == None || now < t.connections[id].closedAt.value + 5000)
    ensures forall id :: id in Cleaned(t, now).connections ==> Cleaned(t, now).connections[id] == t.connections[id]
  {
    var live := Cleaned(t, now).connections;
    KeepInDistinct(t.order, live.Keys);
    assert forall id :: id in live ==> id in Elements(t.order);
  }

  /** No record but that of `id` has changed, and none has come or gone. */
  predicate Changes(was: map<nat, Info>, id: nat, now: map<nat, Info>) {
    now.Keys == was.Keys && forall other :: other in was && other != id ==> now[other] == was[other]
  }

  // ---- The class ----

  /** One method body is one critical section of the lock, except `Register`, which takes its id before. */
  class ConnectionTracker {
    var connections: map<nat, Info>
    var order: seq<nat>
    var nextId: nat
    var snapshotCount: nat

    function Contents(): Table
      reads this
    {
      Table(connections, order)
    }

    ghost predicate Valid()
      reads this
    {
      ValidTable(Contents()) && forall id :: id in connections ==> id < nextId
    }

    constructor ()
      ensures Valid() && Contents() == EmptyTable() && nextId == 1 && snapshotCount == 0
    {
      connections, order, nextId, snapshotCount := map[], [], 1, 0;
    }

    /** `next_id.fetch_add(1)`, outside the lock. */
    method AllocateId() returns (id: nat)
      requires Valid()
      modifies this`nextId
      ensures Valid() && id == old(nextId) && nextId == old(nextId) + 1 && id !in connections
    {
      id := nextId;
      nextId := nextId + 1;
    }

    /** The locked part of `register`. */
    method Insert(info: Info)
      requires Valid() && info.shown.id !in connections && info.shown.id < nextId
      modifies this`connections, this`order
      ensures Valid() && info.shown.id in connections && connections[info.shown.id] == info
      ensures Contents() == Inserted(old(Contents()), info)
    {
      InsertedMeaning(Contents(), info);
      ghost var before := Contents();
      connections := connections[info.shown.id := info];
      order := order + [info.shown.id];
      while |order| > MAX_CONNECTIONS
        invariant Evict(Contents(), MAX_CONNECTIONS) == Inserted(before, info)
        decreases |order|
      {
        var oldest := order[0];
        order := order[1..];
        connections := connections - {oldest};
      }
    }

    method Register(sourceIp: string, outboundTarget: string, proxyProtocol: string, startTime: string)
        returns (id: nat)
      requires Valid()
      modifies this`connections, this`order, this`nextId
      ensures Valid() && id in connections
      ensures connections[id].closedAt == None
      ensures connections[id].shown == Shown(id, sourceIp, outboundTarget, proxyProtocol, "connecting...", startTime,
          Connecting, "")
      ensures id == old(nextId) && nextId == old(nextId) + 1
      ensures Contents() == Inserted(old(Contents()), NewInfo(id, sourceIp, outboundTarget, proxyProtocol, startTime))
    {
      id := AllocateId();
      Insert(NewInfo(id, sourceIp, outboundTarget, proxyProtocol, startTime));
    }

    /** Copy-on-write update of one record. */
    method Modify(id: nat, change: Info -> Info)
      requires Valid()
      requires forall info: Info :: change(info).shown.id == info.shown.id
      modifies this`connections
      ensures Valid() && Contents() == Modified(old(Contents()), id, change)
      ensures connections == if id in old(connections) then old(connections)[id := change(old(connections)[id])]
                             else old(connections)
    {
      ModifiedValid(Contents(), id, change);
      if id in connections {
        connections := connections[id := change(connections[id])];
      }
    }

    method SetExeName(id: nat, exeName: string)
      requires Valid()
      modifies this`connections
      ensures Valid() && Contents() == Modified(old(Contents()), id, WithExeName(exeName))
      ensures Changes(old(connections), id, connections)
      ensures id in connections ==> var was := old(connections)[id];
          connections[id] == was.(shown := was.shown.(exeName := exeName))
    {
      Modify(id, WithExeName(exeName));
    }

    method SetProxy(id: nat, proxy: string)
      requires Valid()
      modifies this`connections
      ensures Valid() && Contents() == Modified(old(Contents()), id, WithProxy(proxy))
      ensures Changes(old(connections), id, connections)
      ensures id in connections ==> var was := old(connections)[id];
          connections[id] == was.(shown := was.shown.(proxy := proxy))
    {
      Modify(id, WithProxy(proxy));
    }

    method SetOutboundTarget(id: nat, target: string)
      requires Valid()
      modifies this`connections
      ensures Valid() && Contents() == Modified(old(Contents()), id, WithTarget(target))
      ensures Changes(old(connections), id, connections)
      ensures id in connections ==> var was := old(connections)[id];
          connections[id] == was.(shown := was.shown.(outboundTarget := target))
    {
      Modify(id, WithTarget(target));
    }

    method SetProxyProtocol(id: nat, protocol: string)
      requires Valid()
      modifies this`connections
      ensures Valid() && Contents() == Modified(old(Contents()), id, WithProtocol(protocol))
      ensures Changes(old(connections), id, connections)
      ensures id in connections ==> var was := old(connections)[id];
          connections[id] == was.(shown := was.shown.(proxyProtocol := protocol))
    {
      Modify(id, WithProtocol(protocol));
    }

    method SetConnected(id: nat)
      requires Valid()
      modifies this`connections
      ensures Valid() && Contents() == Modified(old(Contents()), id, WithStatus(Connected, None))
      ensures Changes(old(connections), id, connections)
      ensures id in connections ==> var was := old(connections)[id];
          connections[id] == was.(shown := was.shown.(status := Connected))
    {
      Modify(id, WithStatus(Connected, None));
    }

    method SetClosed(id: nat, now: nat)
      requires Valid()
      modifies this`connections
      ensures Valid() && Contents() == Modified(old(Contents()), id, WithStatus(Closed, Some(now)))
      ensures Changes(old(connections), id, connections)
      ensures id in connections ==>
          connections[id] == Info(old(connections)[id].shown.(status := Closed), Some(now))
    {
      Modify(id, WithStatus(Closed, Some(now)));
    }

    method SetError(id: nat, err: string, now: nat)
      requires Valid()
      modifies this`connections
      ensures Valid() && Contents() == Modified(old(Contents()), id, WithStatus(Error(err), Some(now)))
      ensures Changes(old(connections), id, connections)
      ensures id in connections ==>
          connections[id] == Info(old(connections)[id].shown.(status := Error(err)), Some(now))
    {
      Modify(id, WithStatus(Error(err), Some(now)));
    }

    /** Drops the entries that closed long enough ago. */
    method Cleanup(now: nat)
      requires Valid()
      modifies this`connections, this`order
      ensures Valid() && Contents() == Cleaned(old(Contents()), now)
      ensures forall id :: id in connections <==>
                && id in old(connections)
                && (old(connections)[id].closedAt == None || now < old(connections)[id].closedAt.value + 5000)
      ensures forall id :: id in connections ==> connections[id] == old(connections)[id]
    {
      CleanedValid(Contents(), now);
      hide ValidTable, KeepIn, Retained;
      connections := map id | id in connections && Retained(connections[id], now) :: connections[id];
      order := KeepIn(order, connections.Keys);
    }

    /** Every fifth snapshot cleans up first. */
    method Snapshot(now: nat) returns (infos: seq<Info>)
      requires Valid()
      modifies this`connections, this`order, this`snapshotCount
      ensures Valid() && snapshotCount == old(snapshotCount) + 1
      ensures Contents() == if old(snapshotCount) % 5 == 0 then Cleaned(old(Contents()), now) else old(Contents())
      ensures infos == SnapshotOf(Contents()) && Ids(infos) == order
    {
      hide ValidTable, Cleaned, SnapshotOf, Ids;
      var count := snapshotCount;
      snapshotCount := snapshotCount + 1;
      if count % 5 == 0 {
        Cleanup(now);
      }
      SnapshotShowsAll(Contents());
      infos := SnapshotOf(Contents());
    }
  }

  function NewInfo(id: nat, sourceIp: string, outboundTarget: string, proxyProtocol: string, startTime: string): Info {
    Info(Shown(id, sourceIp, outboundTarget, proxyProtocol, "connecting...", startTime, Connecting, ""), None)
  }

  function WithExeName(exeName: string): Info -> Info {
    (info: Info) => info.(shown := info.shown.(exeName := exeName))
  }

  function WithProxy(proxy: string): Info -> Info {
    (info: Info) => info.(shown := info.shown.(proxy := proxy))
  }

  function WithTarget(target: string): Info -> Info {
    (info: Info) => info.(shown := info.shown.(outboundTarget := target))
  }

  function WithProtocol(protocol: string): Info -> Info {
    (info: Info) => info.(shown := info.shown.(proxyProtocol := protocol))
  }

  /** The closing time is set together with a terminal status and otherwise left as it is. */
  function WithStatus(status: Status, closedAt: Option<nat>): Info -> Info {
    (info: Info) => Info(info.shown.(status := status), if closedAt.Some? then closedAt else info.closedAt)
  }

  // ---- Every interleaving ----

  /** The tracker as the other threads see it: ids taken but not yet inserted, and ids ever inserted. */
  datatype System = System(table: Table, nextId: nat, pending: set<nat>, seen: set<nat>)

  function Initial(): System {
    System(EmptyTable(), 1, {}, {})
  }

  predicate Allocates(x: System, y: System) {
    y == x.(nextId := x.nextId + 1, pending := x.pending + {x.nextId})
  }

  ghost predicate Inserts(x: System, y: System) {
    exists info: Info ::
      && info.shown.id in x.pending
      && y == x.(table := Inserted(x.table, info), pending := x.pending - {info.shown.id},
           seen := x.seen + {info.shown.id})
  }

  ghost predicate Modifies(x: System, y: System) {
    exists id: nat, change: Info -> Info ::
      (forall info: Info :: change(info).shown.id == info.shown.id) && y == x.(table := Modified(x.table, id, change))
  }

  predicate Cleans(x: System, now: nat, y: System) {
    y == x.(table := Cleaned(x.table, now))
  }

  ghost predicate Step(x: System, y: System) {
    Allocates(x, y) || Inserts(x, y) || Modifies(x, y) || exists now: nat :: Cleans(x, now, y)
  }

  ghost predicate Inv(x: System) {
    && ValidTable(x.table)
    && x.table.connections.Keys <= x.seen
    && x.pending !! x.seen
    && (forall id :: id in x.pending ==> id < x.nextId)
    && (forall id :: id in x.seen ==> id < x.nextId)
  }

  /** `new` is what survives of `old`, in its order, followed by ids that had not been seen. */
  predicate Continues(old': seq<nat>, seen: set<nat>, new': seq<nat>) {
    var kept := KeepIn(old', Elements(new'));
    kept <= new' && forall k :: |kept| <= k < |new'| ==> new'[k] !in seen
  }

  lemma ContinuesBy(old': seq<nat>, seen: set<nat>, new': seq<nat>, added: seq<nat>)
    requires new' == KeepIn(old', Elements(new')) + added
    requires forall x :: x in added ==> x !in seen
    ensures Continues(old', seen, new')
  {
    var kept := KeepIn(old', Elements(new'));
    forall k | |kept| <= k < |new'|
      ensures new'[k] !in seen
    {
      assert new'[k] == added[k - |kept|];
    }
  }

  lemma ContinuesAs(old': seq<nat>, seen: set<nat>, new': seq<nat>, kept: seq<nat>, added: seq<nat>)
    requires new' == kept + added && forall x :: x in added ==> x !in seen
    requires forall x :: x in old' ==> x in seen
    requires kept == KeepIn(old', Elements(kept))
    ensures Continues(old', seen, new')
  {
    assert forall x :: x in new' <==> x in kept || x in added;
    KeepInAgree(old', Elements(new'), Elements(kept));
    ContinuesBy(old', seen, new', added);
  }

  lemma StepContinues(x: System, y: System)
    requires Inv(x) && Step(x, y)
    ensures Inv(y) && x.seen <= y.seen && Continues(x.table.order, x.seen, y.table.order)
  {
    hide Continues, ValidTable;
    SeenOrder(x);
    if Allocates(x, y) {
      Unchanged(x.table.order, x.seen);
    } else if Modifies(x, y) {
      ModifyContinues(x, y);
    } else if Inserts(x, y) {
      InsertContinues(x, y);
    } else {
      var now: nat :| Cleans(x, now, y);
      CleanContinues(x, now, y);
    }
  }

  lemma SeenOrder(x: System)
    requires Inv(x)
    ensures forall id :: id in x.table.order ==> id in x.seen
  {
    assert forall id :: id in x.table.order ==> id in Elements(x.table.order);
  }

  lemma Unchanged(order: seq<nat>, seen: set<nat>)
    requires forall id :: id in order ==> id in seen
    ensures Continues(order, seen, order)
  {
    KeepInAll(order, Elements(order));
    ContinuesAs(order, seen, order, order, []);
  }

  lemma ModifiedKeys(t: Table, id: nat, change: Info -> Info)
    ensures Modified(t, id, change).connections.Keys == t.connections.Keys
  {
  }

  lemma ModifyContinues(x: System, y: System)
    requires Inv(x) && Modifies(x, y)
    ensures Inv(y) && Continues(x.table.order, x.seen, y.table.order)
  {
    var id: nat, change: Info -> Info :| (forall info: Info :: change(info).shown.id == info.shown.id)
                      && y == x.(table := Modified(x.table, id, change));
    hide Continues;
    ModifiedValid(x.table, id, change);
    ModifiedKeys(x.table, id, change);
    SeenOrder(x);
    Unchanged(x.table.order, x.seen);
  }

  lemma CleanContinues(x: System, now: nat, y: System)
    requires Inv(x) && Cleans(x, now, y)
    ensures Inv(y) && Continues(x.table.order, x.seen, y.table.order)
  {
    CleanedValid(x.table, now);
    SeenOrder(x);
    var o, rest := x.table.order, y.table.order;
    KeepInAgree(o, y.table.connections.Keys, Elements(rest));
    hide ValidTable, KeepIn, Continues;
    ContinuesAs(o, x.seen, rest, rest, []);
  }

  lemma InsertContinues(x: System, y: System)
    requires Inv(x) && Inserts(x, y)
    ensures Inv(y) && Continues(x.table.order, x.seen, y.table.order)
  {
    var info: Info :| info.shown.id in x.pending
      && y == x.(table := Inserted(x.table, info), pending := x.pending - {info.shown.id},
           seen := x.seen + {info.shown.id});
    InsertedMeaning(x.table, info);
    InsertedOrder(x.table.order, x.seen, info.shown.id);
  }

  lemma InsertedOrder(o: seq<nat>, seen: set<nat>, id: nat)
    requires NoDuplicates(o) && id !in seen && forall x :: x in o ==> x in seen
    ensures Continues(o, seen, o + [id])
    ensures o != [] ==> Continues(o, seen, o[1..] + [id])
  {
    KeepInAll(o, Elements(o));
    ContinuesAs(o, seen, o + [id], o, [id]);
    if o != [] {
      var rest := o[1..];
      KeepInAll(rest, Elements(rest));
      assert o[0] !in Elements(rest);
      ContinuesAs(o, seen, rest + [id], rest, [id]);
    }
  }

  lemma ContinuesTransitive(a: seq<nat>, seenA: set<nat>, b: seq<nat>, seenB: set<nat>, c: seq<nat>)
    requires Continues(a, seenA, b) && Continues(b, seenB, c)
    requires seenA <= seenB && (forall x :: x in a ==> x in seenA)
    ensures Continues(a, seenA, c)
  {
    var inB, inC := Elements(b), Elements(c);
    var keptB, keptC := KeepIn(a, inB), KeepIn(b, inC);
    var addedB, addedC := b[|keptB|..], c[|keptC|..];
    Survivors(a, seenA, b, seenB, c);
    hide KeepIn, Elements;
    assert c == keptC + addedC;
    Associate(KeepIn(a, inC), KeepIn(addedB, inC), addedC);
    ContinuesBy(a, seenA, c, KeepIn(addedB, inC) + addedC);
  }

  /** The survivors of the middle are the survivors of the first and of what was added in between. */
  lemma Survivors(a: seq<nat>, seenA: set<nat>, b: seq<nat>, seenB: set<nat>, c: seq<nat>)
    requires Continues(a, seenA, b) && Continues(b, seenB, c)
    requires seenA <= seenB && (forall x :: x in a ==> x in seenA)
    ensures KeepIn(b, Elements(c)) == KeepIn(a, Elements(c)) + KeepIn(b[|KeepIn(a, Elements(b))|..], Elements(c))
  {
    var inB, inC := Elements(b), Elements(c);
    var keptB := KeepIn(a, inB);
    assert b == keptB + b[|keptB|..];
    KeepInAppend(keptB, b[|keptB|..], inC);
    KeepInTwice(a, inB, inC);
    SurvivorsPass(a, seenA, seenB, b, c, KeepIn(b, inC));
    KeepInAgree(a, inB * inC, inC);
  }

  /** What survives from the first moment to the last was there in between. */
  lemma SurvivorsPass(a: seq<nat>, seenA: set<nat>, seenB: set<nat>, b: seq<nat>, c: seq<nat>, keptC: seq<nat>)
    requires keptC == KeepIn(b, Elements(c)) && Continues(b, seenB, c)
    requires seenA <= seenB && (forall x :: x in a ==> x in seenA)
    ensures forall x :: x in a && x in c ==> x in b
  {
    forall x | x in a && x in c
      ensures x in b
    {
      var k :| 0 <= k < |c| && c[k] == x;
      assert k < |keptC|;
      assert x in keptC;
    }
  }

  ghost predicate IsRun(run: seq<System>) {
    && run != [] && run[0] == Initial()
    && forall i :: 0 <= i < |run| - 1 ==> Step(run[i], run[i + 1])
  }

  lemma {:induction false} RunInv(run: seq<System>, i: nat)
    requires IsRun(run) && i < |run|
    ensures Inv(run[i])
  {
    if i > 0 {
      RunInv(run, i - 1);
      StepContinues(run[i - 1], run[i]);
    }
  }

  /**
   * In every run, at every later moment, the table lists the survivors of any earlier moment in
   * their earlier order and behind them only ids registered in between; ids need not be ascending.
   */
  lemma {:induction false} OrderIsStable(run: seq<System>, i: nat, j: nat)
    requires IsRun(run) && i <= j < |run|
    ensures Inv(run[i]) && Inv(run[j]) && run[i].seen <= run[j].seen
    ensures Continues(run[i].table.order, run[i].seen, run[j].table.order)
    decreases j
  {
    RunInv(run, i);
    RunInv(run, j);
    var o := run[i].table.order;
    assert forall id :: id in o ==> id in Elements(o);
    if i == j {
      KeepInAll(o, Elements(o));
    } else {
      OrderIsStable(run, i, j - 1);
      StepContinues(run[j - 1], run[j]);
      ContinuesTransitive(o, run[i].seen, run[j - 1].table.order, run[j - 1].seen, run[j].table.order);
    }
  }

  /** Ids may be inserted out of order: two threads allocate, the second inserts first. */
  lemma OrderNotAscending(first: Info, second: Info) returns (run: seq<System>)
    requires first.shown.id == 1 && second.shown.id == 2
    ensures IsRun(run) && run[|run| - 1].table.order == [2, 1]
  {
    var a := Initial();
    var b := a.(nextId := 2, pending := {1});
    var c := b.(nextId := 3, pending := {1, 2});
    var d := c.(table := Inserted(c.table, second), pending := c.pending - {2}, seen := {2});
    var e := d.(table := Inserted(d.table, first), pending := d.pending - {1}, seen := {2} + {1});
    assert Allocates(a, b) && Allocates(b, c) && Inserts(c, d) && Inserts(d, e);
    run := [a, b, c, d, e];
  }
}
