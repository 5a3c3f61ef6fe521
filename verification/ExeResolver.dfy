/**
 * src/etw_resolver.rs: the two port caches behind their two locks, as the event callback, any
 * number of lookups and the removals use them.
 */
module ExeResolver {
  import opened Basics

  const EXE_CACHE_CAPACITY: nat := 1000

  /** `EXE_CACHE_TTL_SECS` in milliseconds. */
  const EXE_CACHE_TTL: nat := 30000

  datatype Entry<V> = Entry(value: V, time: nat)

  /** What the two locks protect: `port_to_pid` and `port_to_exe`. */
  datatype Caches = Caches(pids: map<port, Entry<nat>>, exes: map<port, Entry<string>>)

  /** `evict_stale_entries`. */
  function Evicted<V>(m: map<port, Entry<V>>, now: nat): map<port, Entry<V>> {
    if |m| > EXE_CACHE_CAPACITY
    then map p | p in m && now < m[p].time + EXE_CACHE_TTL :: m[p]
    else m
  }

  /**
   * What is left of `was` at `now`: all of it up to 1000 entries, and of more exactly those younger
   * than 30 seconds; nothing else comes, and nothing changes.
   */
  ghost predicate LeftOf<V>(was: map<port, Entry<V>>, now: nat, left: map<port, Entry<V>>) {
    && (forall q :: q in left ==> q in was && left[q] == was[q])
    && (forall q :: q in was ==> (q in left <==> |was| <= 1000 || now < was[q].time + 30000))
  }

  lemma EvictedLeaves<V>(m: map<port, Entry<V>>, now: nat)
    ensures LeftOf(m, now, Evicted(m, now))
  {
  }

  /** An insertion with its eviction: the new entry stays, and no other one appears or changes. */
  lemma InsertedSurvives<V>(m: map<port, Entry<V>>, p: port, v: V, time: nat, now: nat)
    requires now < time + EXE_CACHE_TTL
    ensures var r := Evicted(m[p := Entry(v, time)], now);
            && p in r && r[p] == Entry(v, time)
            && (forall q :: q in r && q != p ==> q in m && r[q] == m[q])
            && (forall q :: q in m && q != p && q !in r ==> m[q].time + 30000 <= now)
            && (|m| < 1000 ==> r == m[p := Entry(v, time)])
            && LeftOf(m[p := Entry(v, time)], now, r)
  {
    var longer := m[p := Entry(v, time)];
    assert longer.Keys == m.Keys + {p};
  }

  /** The entry of `q` is as it was, or has gone from an overfull cache because it was 30 seconds old. */
  ghost predicate Untouched<V>(was: map<port, Entry<V>>, q: port, now: nat, after: map<port, Entry<V>>) {
    if q in after then q in was && after[q] == was[q]
    else q in was ==> 1000 <= |was| && was[q].time + 30000 <= now
  }

  lemma OthersUntouched<V>(m: map<port, Entry<V>>, p: port, v: V, now: nat, left: map<port, Entry<V>>)
    requires LeftOf(m[p := Entry(v, now)], now, left)
    ensures forall q :: q != p ==> Untouched(m, q, now, left)
  {
    assert m[p := Entry(v, now)].Keys == m.Keys + {p};
  }

  // ---- The critical sections ----

  /** The event callback, under both locks. */
  function AfterEvent(c: Caches, p: port, pid: nat, now: nat): Caches {
    Caches(Evicted(c.pids[p := Entry(pid, now)], now), Evicted(c.exes - {p}, now))
  }

  /** A pid found by the scan of the connection table, under the first lock alone. */
  function AfterScan(c: Caches, p: port, pid: nat, now: nat): Caches {
    c.(pids := Evicted(c.pids[p := Entry(pid, now)], now))
  }

  predicate Current(c: Caches, p: port, pid: nat) {
    p in c.pids && c.pids[p].value == pid
  }

  function AfterStore(c: Caches, p: port, exe: string, now: nat): Caches {
    c.(exes := Evicted(c.exes[p := Entry(exe, now)], now))
  }

  /** What each of them does to every port. */
  lemma SectionsMean(c: Caches, p: port, pid: nat, exe: string, now: nat)
    ensures LeftOf(c.pids[p := Entry(pid, now)], now, AfterEvent(c, p, pid, now).pids)
    ensures LeftOf(c.exes - {p}, now, AfterEvent(c, p, pid, now).exes)
    ensures LeftOf(c.pids[p := Entry(pid, now)], now, AfterScan(c, p, pid, now).pids)
    ensures AfterScan(c, p, pid, now).exes == c.exes && AfterStore(c, p, exe, now).pids == c.pids
    ensures LeftOf(c.exes[p := Entry(exe, now)], now, AfterStore(c, p, exe, now).exes)
  {
    EvictedLeaves(c.pids[p := Entry(pid, now)], now);
    EvictedLeaves(c.exes - {p}, now);
    EvictedLeaves(c.exes[p := Entry(exe, now)], now);
  }

  class Resolver {
    const listenPort: port
    var portToPid: map<port, Entry<nat>>
    var portToExe: map<port, Entry<string>>

    constructor (listenPort: port)
      ensures this.listenPort == listenPort && Contents() == Caches(map[], map[])
    {
      this.listenPort, portToPid, portToExe := listenPort, map[], map[];
    }

    function Contents(): Caches
      reads this
    {
      Caches(portToPid, portToExe)
    }

    /** The event callback: only connections to our own port count. */
    method OnEvent(dport: port, sport: port, pid: nat, now: nat)
      modifies this
      ensures Contents() == if dport == listenPort && sport != 0 then AfterEvent(old(Contents()), sport, pid, now)
                            else old(Contents())
      ensures if dport == listenPort && sport != 0 then
                && LeftOf(old(portToPid)[sport := Entry(pid, now)], now, portToPid)
                && LeftOf(old(portToExe) - {sport}, now, portToExe)
              else
                portToPid == old(portToPid) && portToExe == old(portToExe)
    {
      SectionsMean(Contents(), sport, pid, "", now);
      if dport != listenPort || sport == 0 {
        return;
      }
      portToPid := portToPid[sport := Entry(pid, now)];
      portToExe := portToExe - {sport};
      portToPid := Evicted(portToPid, now);
      portToExe := Evicted(portToExe, now);
    }

    /** `resolve_and_cache_pid`: the name is kept only while the pid is still the current one. */
    method ResolveAndCache(p: port, pid: nat, resolve: nat -> Option<string>, now: nat) returns (exe: Option<string>)
      modifies this`portToExe
      ensures exe == resolve(pid)
      ensures Contents() == if exe.Some? && Current(old(Contents()), p, pid)
                            then AfterStore(old(Contents()), p, exe.value, now) else old(Contents())
      ensures if exe.Some? && p in portToPid && portToPid[p].value == pid
              then LeftOf(old(portToExe)[p := Entry(exe.value, now)], now, portToExe)
              else portToExe == old(portToExe)
    {
      exe := resolve(pid);
      if exe.Some? && p in portToPid && portToPid[p].value == pid {
        EvictedLeaves(portToExe[p := Entry(exe.value, now)], now);
        portToExe := portToExe[p := Entry(exe.value, now)];
        portToExe := Evicted(portToExe, now);
      }
    }

    /** `lookup` when nobody interferes. */
    method Lookup(p: port, scan: Option<nat>, resolve: nat -> Option<string>, now: nat) returns (exe: Option<string>)
      modifies this
      ensures p in old(portToExe) ==> exe == Some(old(portToExe)[p].value) && Contents() == old(Contents())
      ensures p !in old(portToExe) && p in old(portToPid) ==> exe == resolve(old(portToPid)[p].value)
      ensures p !in old(portToExe) && p !in old(portToPid) ==> exe == if scan.Some? then resolve(scan.value) else None
      ensures exe.Some? ==> p in portToExe && portToExe[p].value == exe.value
      ensures exe.Some? && p !in old(portToExe) ==> LeftOf(old(portToExe)[p := Entry(exe.value, now)], now, portToExe)
      ensures exe.None? ==> portToExe == old(portToExe)
      ensures if p in old(portToExe) || p in old(portToPid) || scan.None? then portToPid == old(portToPid)
              else LeftOf(old(portToPid)[p := Entry(scan.value, now)], now, portToPid)
      ensures forall q :: q != p ==> Untouched(old(portToPid), q, now, portToPid)
                                     && Untouched(old(portToExe), q, now, portToExe)
      ensures p !in old(portToExe) && p !in old(portToPid) && scan.Some? ==> Current(Contents(), p, scan.value)
    {
      if p in portToExe {
        return Some(portToExe[p].value);
      }
      if p in portToPid {
        exe := ResolveAndCache(p, portToPid[p].value, resolve, now);
        if exe.Some? {
          InsertedSurvives(old(portToExe), p, exe.value, now, now);
          OthersUntouched(old(portToExe), p, exe.value, now, portToExe);
        }
        return;
      }
      if scan.None? {
        return None;
      }
      portToPid := portToPid[p := Entry(scan.value, now)];
      portToPid := Evicted(portToPid, now);
      InsertedSurvives(old(portToPid), p, scan.value, now, now);
      OthersUntouched(old(portToPid), p, scan.value, now, portToPid);
      exe := ResolveAndCache(p, scan.value, resolve, now);
      if exe.Some? {
        InsertedSurvives(old(portToExe), p, exe.value, now, now);
        OthersUntouched(old(portToExe), p, exe.value, now, portToExe);
      }
    }

    method Remove(p: port)
      modifies this
      ensures Contents() == Caches(old(portToPid) - {p}, old(portToExe) - {p})
    {
      portToPid := portToPid - {p};
      portToExe := portToExe - {p};
    }
  }

  // ---- All interleavings at the granularity of the locks ----

  /** Where a thread is; the comment says what it holds. */
  datatype Pc =
    | Idle
    | EventStart(p: port, pid: nat)                 // wants the pid lock
    | EventPid(p: port, pid: nat)                   // pid lock, wants the exe lock
    | EventBoth(p: port, pid: nat)                  // both
    | EventDropping                                 // exe lock
    | LookExe(p: port)                              // wants the exe lock
    | LookExeHeld(p: port)                          // exe lock
    | LookPid(p: port)                              // wants the pid lock
    | LookPidHeld(p: port)                          // pid lock
    | Scanning(p: port)                             // nothing
    | Found(p: port, pid: nat)                      // wants the pid lock
    | FoundHeld(p: port, pid: nat)                  // pid lock
    | Resolving(p: port, pid: nat)                  // nothing
    | Resolved(p: port, pid: nat, exe: string)      // wants the pid lock
    | Comparing(p: port, pid: nat, exe: string)     // pid lock
    | Storing(p: port, pid: nat, exe: string)       // pid lock, wants the exe lock
    | StoringBoth(p: port, pid: nat, exe: string)   // both
    | Stored                                        // pid lock
    | RemovePid(p: port)                            // wants the pid lock
    | RemovePidHeld(p: port)                        // pid lock
    | RemoveExe(p: port)                            // wants the exe lock
    | RemoveExeHeld(p: port)                        // exe lock

  predicate HoldsPid(pc: Pc) {
    pc.EventPid? || pc.EventBoth? || pc.LookPidHeld? || pc.FoundHeld? || pc.Comparing? || pc.Storing?
    || pc.StoringBoth? || pc.Stored? || pc.RemovePidHeld?
  }

  predicate HoldsExe(pc: Pc) {
    pc.EventBoth? || pc.EventDropping? || pc.LookExeHeld? || pc.StoringBoth? || pc.RemoveExeHeld?
  }

  predicate WantsPid(pc: Pc) {
    pc.EventStart? || pc.LookPid? || pc.Found? || pc.Resolved? || pc.RemovePid?
  }

  predicate WantsExe(pc: Pc) {
    pc.EventPid? || pc.LookExe? || pc.Storing? || pc.RemoveExe?
  }

  /** Who wrote the pid of a port last. */
  datatype Writer = Event(pid: nat) | Scan(pid: nat)

  /** `answers` collects what the operating system has ever answered for a pid. */
  datatype System = System(
    caches: Caches, pidLock: Option<nat>, exeLock: Option<nat>, threads: seq<Pc>,
    latest: map<port, Writer>, answers: set<(nat, string)>)

  /** What is left open in a step: the operation started, the clock, the scan and the name. */
  datatype Choice = Choice(start: Pc, now: nat, scan: Option<nat>, name: Option<string>)

  predicate Enabled(x: System, t: nat, c: Choice) {
    && t < |x.threads|
    && (WantsPid(x.threads[t]) ==> x.pidLock.None?)
    && (WantsExe(x.threads[t]) ==> x.exeLock.None?)
    && (x.threads[t].Idle? ==> Starts(c.start))
    && (x.threads[t].Scanning? && c.scan.Some? ==> c.scan.value != 0 && c.scan.value != 4)
  }

  /** An operation begins; events for port 0 are ignored. */
  predicate Starts(pc: Pc) {
    (pc.EventStart? && pc.p != 0) || pc.LookExe? || pc.RemovePid?
  }

  /** Where a thread goes next; the parts of a step that touch the caches and the locks follow below. */
  function Next(pc: Pc, caches: Caches, c: Choice): Pc {
    match pc
    case Idle => c.start
    case EventStart(p, pid) => EventPid(p, pid)
    case EventPid(p, pid) => EventBoth(p, pid)
    case EventBoth(_, _) => EventDropping
    case EventDropping => Idle
    case LookExe(p) => LookExeHeld(p)
    case LookExeHeld(p) => if p in caches.exes then Idle else LookPid(p)
    case LookPid(p) => LookPidHeld(p)
    case LookPidHeld(p) => if p in caches.pids then Resolving(p, caches.pids[p].value) else Scanning(p)
    case Scanning(p) => if c.scan.Some? then Found(p, c.scan.value) else Idle
    case Found(p, pid) => FoundHeld(p, pid)
    case FoundHeld(p, pid) => Resolving(p, pid)
    case Resolving(p, pid) => if c.name.Some? then Resolved(p, pid, c.name.value) else Idle
    case Resolved(p, pid, exe) => Comparing(p, pid, exe)
    case Comparing(p, pid, exe) => if Current(caches, p, pid) then Storing(p, pid, exe) else Idle
    case Storing(p, pid, exe) => StoringBoth(p, pid, exe)
    case StoringBoth(_, _, _) => Stored
    case Stored => Idle
    case RemovePid(p) => RemovePidHeld(p)
    case RemovePidHeld(p) => RemoveExe(p)
    case RemoveExe(p) => RemoveExeHeld(p)
    case RemoveExeHeld(_) => Idle
  }

  function NextCaches(pc: Pc, caches: Caches, now: nat): Caches {
    match pc
    case EventBoth(p, pid) => AfterEvent(caches, p, pid, now)
    case FoundHeld(p, pid) => AfterScan(caches, p, pid, now)
    case StoringBoth(p, _, exe) => AfterStore(caches, p, exe, now)
    case RemovePidHeld(p) => caches.(pids := caches.pids - {p})
    case RemoveExeHeld(p) => caches.(exes := caches.exes - {p})
    case _ => caches
  }

  function NextLatest(pc: Pc, latest: map<port, Writer>): map<port, Writer> {
    match pc
    case EventBoth(p, pid) => latest[p := Event(pid)]
    case FoundHeld(p, pid) => latest[p := Scan(pid)]
    case _ => latest
  }

  function NextAnswers(pc: Pc, answers: set<(nat, string)>, name: Option<string>): set<(nat, string)> {
    if pc.Resolving? && name.Some? then answers + {(pc.pid, name.value)} else answers
  }

  /** A lock after thread `t` moved on: taken, released, or as it was. */
  function Relocked(lock: Option<nat>, t: nat, held: bool, holds: bool): Option<nat> {
    if held == holds then lock else if holds then Some(t) else None
  }

  /** One step of thread `t`. */
  function After(x: System, t: nat, c: Choice): System
    requires Enabled(x, t, c)
  {
    var pc := x.threads[t];
    var next := Next(pc, x.caches, c);
    System(
      NextCaches(pc, x.caches, c.now),
      Relocked(x.pidLock, t, HoldsPid(pc), HoldsPid(next)),
      Relocked(x.exeLock, t, HoldsExe(pc), HoldsExe(next)),
      x.threads[t := next],
      NextLatest(pc, x.latest),
      NextAnswers(pc, x.answers, c.name))
  }

  predicate Initial(x: System) {
    && x.caches == Caches(map[], map[]) && x.pidLock.None? && x.exeLock.None?
    && x.latest == map[] && x.answers == {}
    && forall t :: 0 <= t < |x.threads| ==> x.threads[t].Idle?
  }

  ghost predicate Step(x: System, y: System) {
    exists t: nat, c: Choice :: Enabled(x, t, c) && y == After(x, t, c)
  }

  // ---- The locks ----

  /** A lock names the thread that holds it. */
  predicate LockInv(threads: seq<Pc>, pidLock: Option<nat>, exeLock: Option<nat>) {
    && (pidLock.Some? ==> pidLock.value < |threads|)
    && (exeLock.Some? ==> exeLock.value < |threads|)
    && (forall t :: 0 <= t < |threads| ==> (HoldsPid(threads[t]) <==> pidLock == Some(t)))
    && (forall t :: 0 <= t < |threads| ==> (HoldsExe(threads[t]) <==> exeLock == Some(t)))
  }

  /** A step reads and writes a cache only while its thread holds the lock of that cache. */
  lemma AccessUnderLock(pc: Pc, a: Caches, b: Caches, c: Choice)
    ensures NextCaches(pc, a, c.now).pids != a.pids ==> HoldsPid(pc)
    ensures NextCaches(pc, a, c.now).exes != a.exes ==> HoldsExe(pc)
    ensures a.pids == b.pids || HoldsPid(pc) || Next(pc, a, c) == Next(pc, Caches(b.pids, a.exes), c)
    ensures a.exes == b.exes || HoldsExe(pc) || Next(pc, a, c) == Next(pc, Caches(a.pids, b.exes), c)
  {
    hide AfterEvent;
  }

  /** A lock is only ever taken from a place that waits for it. */
  lemma TakesWhatItWants(pc: Pc, caches: Caches, c: Choice)
    requires pc.Idle? ==> Starts(c.start)
    ensures HoldsPid(Next(pc, caches, c)) && !HoldsPid(pc) ==> WantsPid(pc)
    ensures HoldsExe(Next(pc, caches, c)) && !HoldsExe(pc) ==> WantsExe(pc)
  {
    hide Current;
  }

  lemma LockMove(threads: seq<Pc>, t: nat, pc: Pc, lock: Option<nat>, holds: Pc -> bool)
    requires t < |threads|
    requires lock.Some? ==> lock.value < |threads|
    requires forall u :: 0 <= u < |threads| ==> (holds(threads[u]) <==> lock == Some(u))
    requires holds(pc) && !holds(threads[t]) ==> lock.None?
    ensures var moved := Relocked(lock, t, holds(threads[t]), holds(pc));
            && (moved.Some? ==> moved.value < |threads|)
            && forall u :: 0 <= u < |threads| ==> (holds(threads[t := pc][u]) <==> moved == Some(u))
  {
  }

  lemma LockStep(x: System, t: nat, c: Choice)
    requires Enabled(x, t, c) && LockInv(x.threads, x.pidLock, x.exeLock)
    ensures var y := After(x, t, c); LockInv(y.threads, y.pidLock, y.exeLock)
  {
    hide Next, NextCaches, NextLatest, NextAnswers, HoldsPid, HoldsExe, WantsPid, WantsExe, Relocked;
    var next := Next(x.threads[t], x.caches, c);
    TakesWhatItWants(x.threads[t], x.caches, c);
    LockMove(x.threads, t, next, x.pidLock, HoldsPid);
    LockMove(x.threads, t, next, x.exeLock, HoldsExe);
  }

  /**
   * Whenever a lock is held, some thread that holds one can move: the holder of the exe lock never
   * waits, and whoever waits for the exe lock holds at most the pid lock.
   */
  lemma SomeHolderMoves(x: System) returns (t: nat)
    requires LockInv(x.threads, x.pidLock, x.exeLock) && (x.pidLock.Some? || x.exeLock.Some?)
    ensures t < |x.threads| && (HoldsPid(x.threads[t]) || HoldsExe(x.threads[t]))
    ensures forall c :: Enabled(x, t, c)
  {
    t := if x.exeLock.Some? then x.exeLock.value else x.pidLock.value;
  }

  // ---- The caches ----

  /** What a thread carries towards the cache is an answer for its pid, and current once it has been compared. */
  predicate Carries(pc: Pc, caches: Caches, answers: set<(nat, string)>) {
    && (pc.Resolved? || pc.Comparing? || pc.Storing? || pc.StoringBoth? ==> (pc.pid, pc.exe) in answers)
    && (pc.Storing? || pc.StoringBoth? ==> Current(caches, pc.p, pc.pid))
  }

  /** If an event wrote the pid of a port last, the caches know no other pid and no name of another pid. */
  predicate Coherent(p: port, caches: Caches, latest: map<port, Writer>, answers: set<(nat, string)>) {
    p in latest && latest[p].Event? ==>
      && (p in caches.pids ==> caches.pids[p].value == latest[p].pid)
      && (p in caches.exes ==> (latest[p].pid, caches.exes[p].value) in answers)
  }

  ghost predicate Inv(x: System) {
    && LockInv(x.threads, x.pidLock, x.exeLock)
    && (forall t :: 0 <= t < |x.threads| ==> Carries(x.threads[t], x.caches, x.answers))
    && (forall p :: p in x.latest ==> Coherent(p, x.caches, x.latest, x.answers))
  }

  lemma OwnCarries(pc: Pc, caches: Caches, answers: set<(nat, string)>, c: Choice)
    requires Carries(pc, caches, answers)
    requires pc.Idle? ==> Starts(c.start)
    ensures Carries(Next(pc, caches, c), NextCaches(pc, caches, c.now), NextAnswers(pc, answers, c.name))
  {
    hide AfterEvent, AfterScan, AfterStore, Current;
  }

  /** While one thread holds the pid lock the pids do not change under the others. */
  lemma OtherCarries(pc: Pc, caches: Caches, answers: set<(nat, string)>, c: Choice, other: Pc)
    requires Carries(other, caches, answers) && !(HoldsPid(pc) && HoldsPid(other))
    ensures Carries(other, NextCaches(pc, caches, c.now), NextAnswers(pc, answers, c.name))
  {
    hide AfterEvent, AfterScan;
  }

  lemma EvictedShrinks<V>(m: map<port, Entry<V>>, now: nat)
    ensures forall p :: p in Evicted(m, now) ==> p in m && Evicted(m, now)[p] == m[p]
  {
  }

  lemma EventCoherent(p: port, caches: Caches, latest: map<port, Writer>, answers: set<(nat, string)>, q: port,
      pid: nat, now: nat)
    requires p in latest ==> Coherent(p, caches, latest, answers)
    ensures Coherent(p, AfterEvent(caches, q, pid, now), latest[q := Event(pid)], answers)
  {
    EvictedShrinks(caches.pids[q := Entry(pid, now)], now);
    EvictedShrinks(caches.exes - {q}, now);
  }

  lemma ScanCoherent(p: port, caches: Caches, latest: map<port, Writer>, answers: set<(nat, string)>, q: port,
      pid: nat, now: nat)
    requires p in latest ==> Coherent(p, caches, latest, answers)
    ensures Coherent(p, AfterScan(caches, q, pid, now), latest[q := Scan(pid)], answers)
  {
    EvictedShrinks(caches.pids[q := Entry(pid, now)], now);
  }

  lemma StoreCoherent(p: port, caches: Caches, latest: map<port, Writer>, answers: set<(nat, string)>, q: port,
      pid: nat, exe: string, now: nat)
    requires Coherent(p, caches, latest, answers)
    requires Current(caches, q, pid) && (pid, exe) in answers
    ensures Coherent(p, AfterStore(caches, q, exe, now), latest, answers)
  {
    EvictedShrinks(caches.exes[q := Entry(exe, now)], now);
  }

  lemma NextCoherent(pc: Pc, caches: Caches, latest: map<port, Writer>, answers: set<(nat, string)>, c: Choice, p: port)
    requires Carries(pc, caches, answers)
    requires p in latest ==> Coherent(p, caches, latest, answers)
    ensures Coherent(p, NextCaches(pc, caches, c.now), NextLatest(pc, latest), NextAnswers(pc, answers, c.name))
  {
    hide AfterEvent, AfterScan, AfterStore, Current;
    if pc.EventBoth? {
      EventCoherent(p, caches, latest, answers, pc.p, pc.pid, c.now);
    } else if pc.FoundHeld? {
      ScanCoherent(p, caches, latest, answers, pc.p, pc.pid, c.now);
    } else if pc.StoringBoth? {
      StoreCoherent(p, caches, latest, answers, pc.p, pc.pid, pc.exe, c.now);
    }
  }

  lemma StepInv(x: System, y: System)
    requires Inv(x) && Step(x, y)
    ensures Inv(y)
  {
    hide Next, NextCaches, NextLatest, NextAnswers, Relocked, Carries, Coherent, HoldsPid, HoldsExe;
    var t: nat, c: Choice :| Enabled(x, t, c) && y == After(x, t, c);
    var pc := x.threads[t];
    LockStep(x, t, c);
    forall u | 0 <= u < |y.threads|
      ensures Carries(y.threads[u], y.caches, y.answers)
    {
      if u == t {
        OwnCarries(pc, x.caches, x.answers, c);
      } else {
        OtherCarries(pc, x.caches, x.answers, c, x.threads[u]);
      }
    }
    forall p | p in y.latest
      ensures Coherent(p, y.caches, y.latest, y.answers)
    {
      NextCoherent(pc, x.caches, x.latest, x.answers, c, p);
    }
  }

  ghost predicate IsRun(run: seq<System>) {
    && run != [] && Initial(run[0])
    && forall i :: 0 <= i < |run| - 1 ==> Step(run[i], run[i + 1])
  }

  lemma {:induction false} RunInv(run: seq<System>, i: nat)
    requires IsRun(run) && i < |run|
    ensures Inv(run[i])
  {
    if i > 0 {
      hide Inv, Step;
      RunInv(run, i - 1);
      StepInv(run[i - 1], run[i]);
    }
  }

  /**
   * In every interleaving: a name cached for a port whose pid an event wrote last is an answer for
   * the pid of that event, and the cached pid is that of the event.
   */
  lemma CachedNameIsOfEvent(run: seq<System>, i: nat, p: port)
    requires IsRun(run) && i < |run|
    requires p in run[i].latest && run[i].latest[p].Event?
    ensures p in run[i].caches.exes ==> (run[i].latest[p].pid, run[i].caches.exes[p].value) in run[i].answers
    ensures p in run[i].caches.pids ==> run[i].caches.pids[p].value == run[i].latest[p].pid
  {
    RunInv(run, i);
    assert Coherent(p, run[i].caches, run[i].latest, run[i].answers);
  }

  /** No reachable state has all holders of locks waiting. */
  lemma NeverDeadlocked(run: seq<System>, i: nat) returns (t: nat)
    requires IsRun(run) && i < |run| && (run[i].pidLock.Some? || run[i].exeLock.Some?)
    ensures t < |run[i].threads| && (HoldsPid(run[i].threads[t]) || HoldsExe(run[i].threads[t]))
    ensures forall c :: Enabled(run[i], t, c)
  {
    RunInv(run, i);
    t := SomeHolderMoves(run[i]);
  }

  // ---- Where the two caches part ----

  /** The name and the pid cached for a port belong together. */
  predicate Together(p: port, caches: Caches, answers: set<(nat, string)>) {
    p in caches.pids && p in caches.exes ==> (caches.pids[p].value, caches.exes[p].value) in answers
  }

  /** Thread `t` is about to record a scanned pid for `p` although the name of some other pid is cached. */
  predicate ScanMeetsName(x: System, t: nat, p: port) {
    && t < |x.threads| && x.threads[t].FoundHeld? && x.threads[t].p == p
    && p in x.caches.exes && (x.threads[t].pid, x.caches.exes[p].value) !in x.answers
  }

  ghost predicate ScanStep(x: System, y: System, p: port) {
    exists t: nat, c: Choice :: Enabled(x, t, c) && y == After(x, t, c) && ScanMeetsName(x, t, p)
  }

  lemma EventTogether(p: port, caches: Caches, answers: set<(nat, string)>, q: port, pid: nat, now: nat)
    requires Together(p, caches, answers)
    ensures Together(p, AfterEvent(caches, q, pid, now), answers)
  {
    EvictedShrinks(caches.pids[q := Entry(pid, now)], now);
    EvictedShrinks(caches.exes - {q}, now);
  }

  lemma ScanTogether(p: port, caches: Caches, answers: set<(nat, string)>, q: port, pid: nat, now: nat)
    requires Together(p, caches, answers)
    ensures Together(p, AfterScan(caches, q, pid, now), answers)
       <==> !(q == p && p in caches.exes && (pid, caches.exes[p].value) !in answers)
  {
    EvictedShrinks(caches.pids[q := Entry(pid, now)], now);
    InsertedSurvives(caches.pids, q, pid, now, now);
  }

  lemma StoreTogether(p: port, caches: Caches, answers: set<(nat, string)>, q: port, pid: nat, exe: string, now: nat)
    requires Together(p, caches, answers) && Current(caches, q, pid) && (pid, exe) in answers
    ensures Together(p, AfterStore(caches, q, exe, now), answers)
  {
    EvictedShrinks(caches.exes[q := Entry(exe, now)], now);
  }

  /** One step parts the caches of a port exactly when it is a scan that meets the name of some other pid. */
  lemma OnlyScansPart(x: System, t: nat, c: Choice, p: port)
    requires Inv(x) && Enabled(x, t, c) && Together(p, x.caches, x.answers)
    ensures Together(p, After(x, t, c).caches, After(x, t, c).answers) <==> !ScanMeetsName(x, t, p)
  {
    assert Carries(x.threads[t], x.caches, x.answers);
    hide AfterEvent, AfterScan, AfterStore, Current, LockInv, Coherent;
    var pc := x.threads[t];
    if pc.EventBoth? {
      EventTogether(p, x.caches, x.answers, pc.p, pc.pid, c.now);
    } else if pc.FoundHeld? {
      ScanTogether(p, x.caches, x.answers, pc.p, pc.pid, c.now);
    } else if pc.StoringBoth? {
      StoreTogether(p, x.caches, x.answers, pc.p, pc.pid, pc.exe, c.now);
    }
  }

  /**
   * In every interleaving the two caches have belonged together at a port in all states so far
   * exactly when no scan has met the name of some other pid there: of all the steps of callbacks,
   * lookups, evictions and removals only that one parts them.
   */
  lemma {:induction false} TogetherUntilScan(run: seq<System>, i: nat, p: port)
    requires IsRun(run) && i < |run|
    ensures (forall k :: 0 <= k <= i ==> Together(p, run[k].caches, run[k].answers))
       <==> (forall k :: 0 <= k < i ==> !ScanStep(run[k], run[k + 1], p))
  {
    hide Inv, After, Together, ScanMeetsName, Enabled;
    if i == 0 {
      EmptyTogether(run[0], p);
    } else {
      TogetherUntilScan(run, i - 1, p);
      RunInv(run, i - 1);
      if Together(p, run[i - 1].caches, run[i - 1].answers) {
        StepTogether(run[i - 1], run[i], p);
      }
    }
  }

  lemma EmptyTogether(x: System, p: port)
    requires Initial(x)
    ensures Together(p, x.caches, x.answers)
  {
  }

  lemma StepTogether(x: System, y: System, p: port)
    requires Inv(x) && Step(x, y) && Together(p, x.caches, x.answers)
    ensures Together(p, y.caches, y.answers) <==> !ScanStep(x, y, p)
  {
    hide Inv, After, Together, ScanMeetsName, Enabled;
    forall t: nat, c: Choice | Enabled(x, t, c) && y == After(x, t, c)
      ensures Together(p, y.caches, y.answers) <==> !ScanMeetsName(x, t, p)
    {
      OnlyScansPart(x, t, c, p);
    }
  }

  // ---- A run that parts them ----

  /** `run` ends in `x`. */
  ghost predicate RunTo(run: seq<System>, x: System) {
    IsRun(run) && run[|run| - 1] == x
  }

  lemma Continue(run: seq<System>, x: System, t: nat, c: Choice) returns (longer: seq<System>)
    requires RunTo(run, x) && Enabled(x, t, c)
    ensures RunTo(longer, After(x, t, c))
  {
    longer := run + [After(x, t, c)];
    assert Step(x, After(x, t, c));
    forall i | 0 <= i < |longer| - 1
      ensures Step(longer[i], longer[i + 1])
    {
      if i < |run| - 1 {
        assert longer[i] == run[i] && longer[i + 1] == run[i + 1];
      }
    }
  }

  /** The state `x`, in which nobody holds a lock, but with thread `t` at `pc`. */
  function Placed(x: System, t: nat, pc: Pc): System
    requires t < |x.threads|
  {
    x.(threads := x.threads[t := pc],
       pidLock := if HoldsPid(pc) then Some(t) else None,
       exeLock := if HoldsExe(pc) then Some(t) else None)
  }

  /** What a step of a thread at `pc` leaves behind besides places and locks. */
  function Effect(x: System, pc: Pc, c: Choice): System {
    x.(caches := NextCaches(pc, x.caches, c.now), latest := NextLatest(pc, x.latest),
       answers := NextAnswers(pc, x.answers, c.name))
  }

  /** While the others hold no lock, thread `t` can always take its next step. */
  lemma Walk(run: seq<System>, x: System, t: nat, pc: Pc, c: Choice) returns (longer: seq<System>)
    requires t < |x.threads| && RunTo(run, Placed(x, t, pc))
    requires (pc.Idle? ==> Starts(c.start)) && (pc.Scanning? && c.scan.Some? ==> c.scan.value != 0 && c.scan.value != 4)
    ensures RunTo(longer, Placed(Effect(x, pc, c), t, Next(pc, x.caches, c)))
  {
    longer := Continue(run, Placed(x, t, pc), t, c);
    WalkIs(x, t, pc, c);
  }

  lemma WalkIs(x: System, t: nat, pc: Pc, c: Choice)
    requires t < |x.threads| && Enabled(Placed(x, t, pc), t, c)
    ensures After(Placed(x, t, pc), t, c) == Placed(Effect(x, pc, c), t, Next(pc, x.caches, c))
  {
    hide Next, NextCaches, NextLatest, NextAnswers;
    assert x.threads[t := pc][t := Next(pc, x.caches, c)] == x.threads[t := Next(pc, x.caches, c)];
  }

  lemma ToScan(run: seq<System>, x: System, t: nat, p: port) returns (longer: seq<System>)
    requires t < |x.threads| && RunTo(run, Placed(x, t, Idle)) && p !in x.caches.exes && p !in x.caches.pids
    ensures RunTo(longer, Placed(x, t, Scanning(p)))
  {
    hide RunTo, Placed;
    var c := Choice(LookExe(p), 0, None, None);
    longer := Walk(run, x, t, Idle, c);
    longer := Walk(longer, x, t, LookExe(p), c);
    longer := Walk(longer, x, t, LookExeHeld(p), c);
    longer := Walk(longer, x, t, LookPid(p), c);
    longer := Walk(longer, x, t, LookPidHeld(p), c);
  }

  lemma ThroughEvent(run: seq<System>, x: System, t: nat, p: port, pid: nat) returns (longer: seq<System>)
    requires t < |x.threads| && RunTo(run, Placed(x, t, Idle)) && p != 0
    ensures RunTo(longer,
        Placed(x.(caches := AfterEvent(x.caches, p, pid, 0), latest := x.latest[p := Event(pid)]), t, Idle))
  {
    hide RunTo, Placed, AfterEvent;
    var c := Choice(EventStart(p, pid), 0, None, None);
    longer := Walk(run, x, t, Idle, c);
    longer := Walk(longer, x, t, EventStart(p, pid), c);
    longer := Walk(longer, x, t, EventPid(p, pid), c);
    longer := Walk(longer, x, t, EventBoth(p, pid), c);
    longer := Walk(longer, Effect(x, EventBoth(p, pid), c), t, EventDropping, c);
  }

  lemma ToResolving(run: seq<System>, x: System, t: nat, p: port) returns (longer: seq<System>)
    requires t < |x.threads| && RunTo(run, Placed(x, t, Idle)) && p !in x.caches.exes && p in x.caches.pids
    ensures RunTo(longer, Placed(x, t, Resolving(p, x.caches.pids[p].value)))
  {
    hide RunTo, Placed;
    var c := Choice(LookExe(p), 0, None, None);
    longer := Walk(run, x, t, Idle, c);
    longer := Walk(longer, x, t, LookExe(p), c);
    longer := Walk(longer, x, t, LookExeHeld(p), c);
    longer := Walk(longer, x, t, LookPid(p), c);
    longer := Walk(longer, x, t, LookPidHeld(p), c);
  }

  lemma ToStored(run: seq<System>, x: System, t: nat, p: port, pid: nat, exe: string) returns (longer: seq<System>)
    requires t < |x.threads| && RunTo(run, Placed(x, t, Resolving(p, pid))) && Current(x.caches, p, pid)
    ensures RunTo(longer,
        Placed(x.(caches := AfterStore(x.caches, p, exe, 0), answers := x.answers + {(pid, exe)}), t, Idle))
  {
    hide RunTo, Placed, AfterStore, Current;
    var c := Choice(Idle, 0, None, Some(exe));
    longer := Walk(run, x, t, Resolving(p, pid), c);
    var y := Effect(x, Resolving(p, pid), c);
    longer := Walk(longer, y, t, Resolved(p, pid, exe), c);
    longer := Walk(longer, y, t, Comparing(p, pid, exe), c);
    longer := Walk(longer, y, t, Storing(p, pid, exe), c);
    longer := Walk(longer, y, t, StoringBoth(p, pid, exe), c);
    longer := Walk(longer, Effect(y, StoringBoth(p, pid, exe), c), t, Stored, c);
  }

  lemma ThroughScan(run: seq<System>, x: System, t: nat, p: port, pid: nat) returns (longer: seq<System>)
    requires t < |x.threads| && RunTo(run, Placed(x, t, Scanning(p))) && pid != 0 && pid != 4
    ensures RunTo(longer,
      Placed(x.(caches := AfterScan(x.caches, p, pid, 0), latest := x.latest[p := Scan(pid)]), t, Resolving(p, pid)))
  {
    hide RunTo, Placed, AfterScan;
    var c := Choice(Idle, 0, Some(pid), None);
    longer := Walk(run, x, t, Scanning(p), c);
    longer := Walk(longer, x, t, Found(p, pid), c);
    longer := Walk(longer, x, t, FoundHeld(p, pid), c);
  }

  /** What the caches hold after event, lookup and overtaken scan. */
  lemma Leftovers(p: port, pid: nat, other: nat, exe: string) returns (after: Caches, stored: Caches, last: Caches)
    ensures after == AfterEvent(Caches(map[], map[]), p, pid, 0)
    ensures stored == AfterStore(after, p, exe, 0) && last == AfterScan(stored, p, other, 0)
    ensures p !in after.exes && Current(after, p, pid)
    ensures Current(last, p, other) && p in last.exes && last.exes[p].value == exe
  {
    var none := Caches(map[], map[]);
    after := AfterEvent(none, p, pid, 0);
    stored := AfterStore(after, p, exe, 0);
    last := AfterScan(stored, p, other, 0);
    InsertedSurvives(none.pids, p, pid, 0, 0);
    EvictedShrinks(none.exes - {p}, 0);
    InsertedSurvives(after.exes, p, exe, 0, 0);
    InsertedSurvives(stored.pids, p, other, 0, 0);
  }

  /**
   * A lookup that begins its scan before an event, and records what it found after another lookup
   * has cached the name for the event's pid: the run is reachable and leaves the port with the pid
   * of one process and the name of another.
   */
  lemma OvertakenScan(p: port, pid: nat, other: nat, exe: string) returns (run: seq<System>)
    requires p != 0 && other != 0 && other != 4 && other != pid
    ensures IsRun(run)
    ensures var x := run[|run| - 1];
            && Current(x.caches, p, other) && p in x.caches.exes && x.caches.exes[p].value == exe
            && x.answers == {(pid, exe)} && !Together(p, x.caches, x.answers)
  {
    var after, stored, last := Leftovers(p, pid, other, exe);
    hide AfterEvent, AfterScan, AfterStore, Initial;
    var x0 := System(Caches(map[], map[]), None, None, [Idle, Idle, Idle], map[], {});
    AllIdle(x0);
    run := ToScan([x0], x0, 0, p);
    var x1 := x0.(threads := [Scanning(p), Idle, Idle]);
    assert Placed(x0, 0, Scanning(p)) == x1 == Placed(x1, 1, Idle);
    run := ThroughEvent(run, x1, 1, p, pid);
    var x2 := x1.(caches := after, latest := map[p := Event(pid)]);
    assert Placed(x2, 1, Idle) == x2 == Placed(x2, 2, Idle);
    run := ToResolving(run, x2, 2, p);
    run := ToStored(run, x2, 2, p, pid, exe);
    var x3 := x2.(caches := stored, answers := {(pid, exe)});
    assert Placed(x3, 2, Idle) == x3 == Placed(x3, 0, Scanning(p));
    run := ThroughScan(run, x3, 0, p, other);
  }

  lemma AllIdle(x: System)
    requires x == System(Caches(map[], map[]), None, None, [Idle, Idle, Idle], map[], {})
    ensures RunTo([x], Placed(x, 0, Idle))
  {
    assert x.threads[0 := Idle] == x.threads;
  }
}
