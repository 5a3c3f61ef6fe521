/**
 * src/main.rs: the watcher of the configuration file and the rules it keeps up to date.
 */
module Reload {
  import opened Basics

  // ---- Parsing and storing, as code ----

  datatype Rule = Rule(matchPatterns: seq<string>, forwardTo: string)

  /** A parsed rule: the patterns and the proxy they lead to. */
  datatype Route<P> = Route(matchPatterns: seq<string>, proxy: P)

  /** `parse_rules`: every rule in order, or the error of the first one that has none. */
  method ParseRules<P>(rules: seq<Rule>, fromUrl: string -> Result<P, string>)
      returns (r: Result<seq<Route<P>>, string>)
    ensures r.Ok? <==> forall i :: 0 <= i < |rules| ==> fromUrl(rules[i].forwardTo).Ok?
    ensures r.Ok? ==> |r.value| == |rules|
    ensures r.Ok? ==> forall i :: 0 <= i < |rules| ==>
      Ok(r.value[i].proxy) == fromUrl(rules[i].forwardTo) && r.value[i].matchPatterns == rules[i].matchPatterns
    ensures r.Err? ==> exists i :: 0 <= i < |rules| && Err(r.error) == fromUrl(rules[i].forwardTo)
                                   && forall j :: 0 <= j < i ==> fromUrl(rules[j].forwardTo).Ok?
  {
    var routes: seq<Route<P>> := [];
    for n := 0 to |rules|
      invariant |routes| == n
      invariant forall i :: 0 <= i < n ==> Ok(routes[i].proxy) == fromUrl(rules[i].forwardTo)
                                           && routes[i].matchPatterns == rules[i].matchPatterns
    {
      match fromUrl(rules[n].forwardTo)
      case Ok(proxy) => routes := routes + [Route(rules[n].matchPatterns, proxy)];
      case Err(e) => return Err(e);
    }
    return Ok(routes);
  }

  /** How one attempt to load the file ends. */
  datatype Load = Loaded(rules: seq<Rule>) | LoadFailed | TimedOut

  /** The rules of the last load that gives any. */
  ghost predicate LastGood<P(!new)>(loads: seq<Load>, fromUrl: string -> Result<P, string>, k: nat,
      routes: seq<Route<P>>) {
    && k < |loads| && Parses(loads[k], fromUrl, routes)
    && forall j :: k < j < |loads| ==> Useless(loads[j], fromUrl)
  }

  ghost predicate Parses<P>(load: Load, fromUrl: string -> Result<P, string>, routes: seq<Route<P>>) {
    && load.Loaded? && |routes| == |load.rules|
    && forall i :: 0 <= i < |routes| ==> Ok(routes[i].proxy) == fromUrl(load.rules[i].forwardTo)
                                         && routes[i].matchPatterns == load.rules[i].matchPatterns
  }

  ghost predicate Useless<P>(load: Load, fromUrl: string -> Result<P, string>) {
    load.Loaded? ==> exists i :: 0 <= i < |load.rules| && fromUrl(load.rules[i].forwardTo).Err?
  }

  /** The `ArcSwap` that the server reads its rules from. */
  class RuleCell<P(!new)> {
    var routes: seq<Route<P>>

    constructor (initial: seq<Route<P>>)
      ensures routes == initial
    {
      routes := initial;
    }

    /** The watcher loop over the attempts that its tokens lead to: a bad file never replaces the rules. */
    method Watch(loads: seq<Load>, fromUrl: string -> Result<P, string>)
      modifies this
      ensures (exists k :: LastGood(loads, fromUrl, k, routes))
           || (routes == old(routes) && forall j :: 0 <= j < |loads| ==> Useless(loads[j], fromUrl))
    {
      ghost var last := -1;
      for n := 0 to |loads|
        invariant -1 <= last < n
        invariant if last < 0 then routes == old(routes) else Parses(loads[last], fromUrl, routes)
        invariant forall j :: last < j < n ==> Useless(loads[j], fromUrl)
      {
        if loads[n].Loaded? {
          var parsed := ParseRules(loads[n].rules, fromUrl);
          if parsed.Ok? {
            routes := parsed.value;
            last := n;
          }
        }
      }
      if 0 <= last {
        assert LastGood(loads, fromUrl, last, routes);
      }
    }
  }

  // ---- The protocol between the file, the notifications and the loop ----

  /** Where the loop is; an attempt that has read knows the version it saw. */
  datatype Pc = Waiting | Sleeping | Reading | HasRead(version: nat)

  /**
   * Versions count the changes of the file.  `events` are notifications not yet delivered, `token`
   * says whether the channel of capacity one is full, `failed` whether the last attempt ended
   * without content, and `loaded` lists the versions of all loads that did end with content, the
   * one of the start first.  `watchedFrom` is the version when the watch began, and `unreported` the
   * newest version whose change was not reported as a modification, or the first version.
   */
  datatype System = System(
    version: nat, watchedFrom: Option<nat>, events: nat, token: bool, pc: Pc, failed: bool, loaded: seq<nat>,
    active: nat, unreported: nat)

  /** The file is read once, then the watcher is set up. */
  predicate Initial(x: System, good: nat -> bool) {
    && good(x.version)
    && x == System(x.version, None, 0, false, Waiting, false, [x.version], x.version, x.version)
  }

  predicate StartsWatching(x: System, y: System) {
    x.watchedFrom.None? && y == x.(watchedFrom := Some(x.version))
  }

  /** A change that is reported as a modification; notifications may be doubled or merged, but one is left. */
  predicate Changes(x: System, y: System) {
    x.watchedFrom.Some? && y.events >= 1 && y == x.(version := x.version + 1, events := y.events)
  }

  /**
   * Any other change: before the watch begins, or one that reaches the watcher as something else
   * than a modification, or as an error, and is ignored.
   */
  predicate ChangesUnreported(x: System, y: System) {
    y == x.(version := x.version + 1, unreported := x.version + 1)
  }

  /** A notification without a new version, such as a change of metadata. */
  predicate Touches(x: System, y: System) {
    x.watchedFrom.Some? && y == x.(events := x.events + 1)
  }

  /** `try_send`: into a full channel the token is dropped. */
  predicate Delivers(x: System, y: System) {
    0 < x.events && y == x.(events := x.events - 1, token := true)
  }

  predicate Receives(x: System, y: System) {
    x.pc.Waiting? && x.token && y == x.(token := false, pc := Sleeping)
  }

  predicate Wakes(x: System, y: System) {
    x.pc.Sleeping? && y == x.(pc := Reading)
  }

  predicate ReadsFile(x: System, y: System) {
    x.pc.Reading? && y == x.(pc := HasRead(x.version))
  }

  /** The five seconds are over, or the file cannot be read. */
  predicate GivesUp(x: System, y: System) {
    (x.pc.Reading? || x.pc.HasRead?) && y == x.(pc := Waiting, failed := true)
  }

  /** The content arrived in time; the rules change only if it parses. */
  predicate Finishes(x: System, good: nat -> bool, y: System) {
    && x.pc.HasRead?
    && y == x.(pc := Waiting, failed := false, loaded := x.loaded + [x.pc.version],
               active := if good(x.pc.version) then x.pc.version else x.active)
  }

  predicate OwnStep(x: System, good: nat -> bool, y: System) {
    Delivers(x, y) || Receives(x, y) || Wakes(x, y) || ReadsFile(x, y) || GivesUp(x, y) || Finishes(x, good, y)
  }

  predicate Step(x: System, good: nat -> bool, y: System) {
    StartsWatching(x, y) || Changes(x, y) || ChangesUnreported(x, y) || Touches(x, y) || OwnStep(x, good, y)
  }

  function LastLoaded(x: System): nat
    requires x.loaded != []
  {
    x.loaded[|x.loaded| - 1]
  }

  /** Something is on its way that will make the loop read the file again. */
  predicate Underway(x: System) {
    0 < x.events || x.token || x.pc.Sleeping? || x.pc.Reading?
  }

  predicate Ascending(loaded: seq<nat>) {
    forall i, j :: 0 <= i <= j < |loaded| ==> loaded[i] <= loaded[j]
  }

  predicate LaterFrom(loaded: seq<nat>, start: nat) {
    forall i :: 1 <= i < |loaded| ==> start <= loaded[i]
  }

  predicate Ordered(x: System) {
    && x.loaded != []
    && Ascending(x.loaded)
    && LastLoaded(x) <= x.version
    && (x.pc.HasRead? ==> LastLoaded(x) <= x.pc.version <= x.version)
  }

  /** Nothing happens before the watch begins, and what is loaded later is at least as new as its beginning. */
  predicate Watched(x: System)
    requires x.loaded != []
  {
    if x.watchedFrom.None? then
      !Underway(x) && x.pc.Waiting? && !x.failed && |x.loaded| == 1
    else
      && x.loaded[0] <= x.watchedFrom.value <= x.version
      && LaterFrom(x.loaded, x.watchedFrom.value)
      && (x.pc.HasRead? ==> x.watchedFrom.value <= x.pc.version)
  }

  /** What the loop knows is the newest version, or more is on its way, or the newest change was not reported. */
  predicate Notified(x: System)
    requires x.loaded != []
  {
    && x.loaded[0] <= x.unreported <= x.version
    && (x.pc.HasRead? && x.pc.version < x.version ==> Underway(x) || x.unreported == x.version)
    && (x.pc.Waiting? && !x.failed && LastLoaded(x) < x.version ==> Underway(x) || x.unreported == x.version)
  }

  /** The rules in force are those of the newest version that was loaded and parses. */
  predicate NewestGood(active: nat, loaded: seq<nat>, good: nat -> bool) {
    active in loaded && good(active) && forall v :: v in loaded && good(v) ==> v <= active
  }

  predicate Inv(x: System, good: nat -> bool) {
    Ordered(x) && Watched(x) && Notified(x) && NewestGood(x.active, x.loaded, good)
  }

  lemma StepInv(x: System, good: nat -> bool, y: System)
    requires Inv(x, good) && Step(x, good, y)
    ensures Inv(y, good)
  {
    hide NewestGood, Ascending, LaterFrom;
    if Finishes(x, good, y) {
      LoadInv(x, good, y);
    } else if StartsWatching(x, y) {
      assert LaterFrom(y.loaded, y.version) by {
        NothingLater(y.loaded, y.version);
      }
    }
  }

  lemma NothingLater(loaded: seq<nat>, start: nat)
    requires |loaded| == 1
    ensures LaterFrom(loaded, start)
  {
  }

  lemma LoadInv(x: System, good: nat -> bool, y: System)
    requires Inv(x, good) && Finishes(x, good, y)
    ensures Inv(y, good)
  {
    assert forall v :: v in y.loaded <==> v in x.loaded || v == x.pc.version;
  }

  ghost predicate IsRun(run: seq<System>, good: nat -> bool) {
    && run != [] && Initial(run[0], good)
    && forall i :: 0 <= i < |run| - 1 ==> Step(run[i], good, run[i + 1])
  }

  lemma {:induction false} RunInv(run: seq<System>, good: nat -> bool, i: nat)
    requires IsRun(run, good) && i < |run|
    ensures Inv(run[i], good)
  {
    if i > 0 {
      RunInv(run, good, i - 1);
      StepInv(run[i - 1], good, run[i]);
    }
  }

  /**
   * In every interleaving of changes, notifications and steps of the loop: when the file is newer
   * than what was loaded last, a notification or a token or an attempt that has not read yet is on
   * its way, or an attempt has just read the newest version, or the last attempt ended without
   * content, or the newest change was never reported.
   */
  lemma NoLostReload(run: seq<System>, good: nat -> bool, i: nat)
    requires IsRun(run, good) && i < |run|
    ensures var x := run[i];
            && x.loaded != []
            && (LastLoaded(x) < x.version ==>
                 || Underway(x)
                 || x.pc == HasRead(x.version)
                 || (x.pc.Waiting? && x.failed)
                 || x.unreported == x.version)
  {
    RunInv(run, good, i);
  }

  /** The rules in force never go back to an older version, and are the newest good one loaded. */
  lemma {:induction false} ActiveIsNewestGood(run: seq<System>, good: nat -> bool, i: nat, j: nat)
    requires IsRun(run, good) && i <= j < |run|
    ensures NewestGood(run[j].active, run[j].loaded, good) && run[i].active <= run[j].active
    decreases j
  {
    hide Step, NewestGood, Ordered, Watched, Notified;
    RunInv(run, good, j);
    if i < j {
      ActiveIsNewestGood(run, good, i, j - 1);
      RunInv(run, good, j - 1);
      StepNeverGoesBack(run[j - 1], good, run[j]);
    }
  }

  lemma StepNeverGoesBack(x: System, good: nat -> bool, y: System)
    requires Inv(x, good) && Step(x, good, y)
    ensures x.active <= y.active
  {
    if Finishes(x, good, y) {
      var k :| 0 <= k < |x.loaded| && x.loaded[k] == x.active;
      assert x.loaded[k] <= LastLoaded(x);
    }
  }

  // ---- At rest ----

  /** How far the loop is from rest when the file is left alone. */
  function Work(x: System): nat {
    6 * x.events + (if x.token then 5 else 0)
    + match x.pc
      case Waiting => 0
      case Sleeping => 4
      case Reading => 3
      case HasRead(_) => 2
  }

  /** Left alone, the loop comes to rest: every step uses up work, and there is a step as long as any is left. */
  lemma ComesToRest(x: System, good: nat -> bool)
    ensures forall y :: OwnStep(x, good, y) ==> Work(y) < Work(x)
    ensures (exists y :: OwnStep(x, good, y)) <==> 0 < Work(x)
  {
    if 0 < Work(x) {
      var y := if 0 < x.events then x.(events := x.events - 1, token := true)
               else if x.pc.Sleeping? then x.(pc := Reading)
               else if x.pc.Reading? then x.(pc := HasRead(x.version))
               else if x.pc.HasRead? then x.(pc := Waiting, failed := true)
               else x.(token := false, pc := Sleeping);
      assert OwnStep(x, good, y);
    }
  }

  /** The file is watched, and the loop has nothing to do until it changes. */
  predicate AtRest(x: System) {
    x.watchedFrom.Some? && Work(x) == 0
  }

  /** The file changed between the first load and the beginning of the watch, and nothing was loaded since. */
  predicate InGap(x: System) {
    x.watchedFrom.Some? && |x.loaded| == 1 && x.loaded[0] < x.watchedFrom.value
  }

  /**
   * At rest the newest version can be missing only because the last attempt ended without content
   * or because a change behind the last load was not reported, and exactly because of the latter
   * when the last attempt did not fail.  With every change under watch reported that is the gap.
   */
  lemma RestIsCurrent(x: System, good: nat -> bool)
    requires Inv(x, good) && AtRest(x)
    ensures LastLoaded(x) < x.version ==> x.failed || LastLoaded(x) < x.unreported
    ensures !x.failed ==> (LastLoaded(x) < x.version <==> LastLoaded(x) < x.unreported)
    ensures x.unreported <= x.watchedFrom.value ==> (LastLoaded(x) < x.unreported ==> InGap(x))
    ensures x.unreported <= x.watchedFrom.value ==> (LastLoaded(x) < x.version ==> x.failed || InGap(x))
    ensures x.unreported <= x.watchedFrom.value && !x.failed ==> (LastLoaded(x) < x.version <==> InGap(x))
    ensures LastLoaded(x) == x.version && good(x.version) ==> x.active == x.version
  {
    assert LastLoaded(x) in x.loaded;
    var k :| 0 <= k < |x.loaded| && x.loaded[k] == x.active;
    assert x.loaded[k] <= LastLoaded(x);
  }

  /** A change right between the first load and the watch: the loop rests on the old rules. */
  lemma StartupGap(first: System, good: nat -> bool) returns (run: seq<System>)
    requires Initial(first, good) && good(first.version + 1)
    ensures IsRun(run, good) && run[0] == first
    ensures var x := run[|run| - 1];
            && AtRest(x) && !x.failed && InGap(x) && x.active < x.version && good(x.version)
            && forall y :: !OwnStep(x, good, y)
  {
    var changed := first.(version := first.version + 1, unreported := first.version + 1);
    var watching := changed.(watchedFrom := Some(changed.version));
    assert ChangesUnreported(first, changed) && StartsWatching(changed, watching);
    run := [first, changed, watching];
  }

  /** A file that is replaced under watch without a report of a modification: the loop rests on the old rules. */
  lemma IgnoredChange(first: System, good: nat -> bool) returns (run: seq<System>)
    requires Initial(first, good) && good(first.version + 1)
    ensures IsRun(run, good) && run[0] == first
    ensures var x := run[|run| - 1];
            && AtRest(x) && !x.failed && !InGap(x) && x.active < x.version && good(x.version)
            && forall y :: !OwnStep(x, good, y)
  {
    var watching := first.(watchedFrom := Some(first.version));
    var replaced := watching.(version := first.version + 1, unreported := first.version + 1);
    assert StartsWatching(first, watching) && ChangesUnreported(watching, replaced);
    run := [first, watching, replaced];
  }

  /** A change whose only attempt times out or cannot be read: the loop rests on the old rules although it was told. */
  lemma FailedAttempt(first: System, good: nat -> bool) returns (run: seq<System>)
    requires Initial(first, good) && good(first.version + 1)
    ensures IsRun(run, good) && run[0] == first
    ensures var x := run[|run| - 1];
            && AtRest(x) && x.failed && !InGap(x) && x.loaded != [] && LastLoaded(x) < x.version
            && x.active < x.version && good(x.version)
            && forall y :: !OwnStep(x, good, y)
  {
    var watching := first.(watchedFrom := Some(first.version));
    var changed := watching.(version := first.version + 1, events := 1);
    var told := changed.(events := 0, token := true);
    var received := told.(token := false, pc := Sleeping);
    var reading := received.(pc := Reading);
    var failed := reading.(pc := Waiting, failed := true);
    assert StartsWatching(first, watching) && Changes(watching, changed) && Delivers(changed, told);
    assert Receives(told, received) && Wakes(received, reading) && GivesUp(reading, failed);
    run := [first, watching, changed, told, received, reading, failed];
  }

  /** A failed attempt alone does not mean that anything is missing: a notification may bring no new version. */
  lemma FailedButCurrent(first: System, good: nat -> bool) returns (run: seq<System>)
    requires Initial(first, good)
    ensures IsRun(run, good) && run[0] == first
    ensures var x := run[|run| - 1];
            AtRest(x) && x.failed && x.loaded != [] && LastLoaded(x) == x.version == x.active
  {
    var watching := first.(watchedFrom := Some(first.version));
    var touched := watching.(events := 1);
    var told := touched.(events := 0, token := true);
    var received := told.(token := false, pc := Sleeping);
    var reading := received.(pc := Reading);
    var failed := reading.(pc := Waiting, failed := true);
    assert StartsWatching(first, watching) && Touches(watching, touched) && Delivers(touched, told);
    assert Receives(told, received) && Wakes(received, reading) && GivesUp(reading, failed);
    run := [first, watching, touched, told, received, reading, failed];
  }
}
