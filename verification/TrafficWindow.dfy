/**
 * src/traffic_window.rs: the tick that turns two snapshots into row notifications, and the view
 * that replays them.
 */
module TrafficWindow {
  import opened Basics
  import opened Tracker

  const TOP_N: nat := 5
  const HIGHLIGHT_MIN_BYTES: nat := 10 * 1024 * 1024

  /** A table row as it is painted; the two byte columns are live counters and left out. */
  datatype Row = Row(shown: Shown, sentHighlight: bool, recvHighlight: bool)

  function RowIds(rows: seq<Row>): (ids: seq<nat>)
    ensures |ids| == |rows|
  {
    seq(|rows|, i requires 0 <= i < |rows| => rows[i].shown.id)
  }

  function IdSet(rows: seq<Row>): set<nat> {
    Elements(RowIds(rows))
  }

  /** The rows the data source answers with. */
  function Display(infos: seq<Info>, topSent: set<nat>, topRecv: set<nat>): (rows: seq<Row>)
    ensures RowIds(rows) == Ids(infos)
  {
    seq(|infos|, i requires 0 <= i < |infos| =>
      Row(infos[i].shown, infos[i].shown.id in topSent, infos[i].shown.id in topRecv))
  }

  /**
   * `rows` are the records of the table in their order, each as it is, with a sent cell highlighted
   * exactly for the ids in `topSent` and a received cell exactly for those in `topRecv`.
   */
  predicate ShowsTable(rows: seq<Row>, table: Table, topSent: set<nat>, topRecv: set<nat>) {
    && |rows| == |table.order|
    && forall i :: 0 <= i < |rows| ==>
         && table.order[i] in table.connections && rows[i].shown == table.connections[table.order[i]].shown
         && (rows[i].sentHighlight <==> table.order[i] in topSent)
         && (rows[i].recvHighlight <==> table.order[i] in topRecv)
  }

  lemma DisplayShows(table: Table, topSent: set<nat>, topRecv: set<nat>)
    requires ValidTable(table)
    ensures ShowsTable(Display(SnapshotOf(table), topSent, topRecv), table, topSent, topRecv)
  {
    SnapshotShowsAll(table);
  }

  // ---- The view ----

  /** The list view behind `notify_row_*`: it keeps the rows it painted until told otherwise. */
  class TableView {
    var rows: seq<Row>

    constructor (painted: seq<Row>)
      ensures rows == painted
    {
      rows := painted;
    }

    method NotifyRowDeleted(index: nat)
      requires index < |rows|
      modifies this
      ensures rows == old(rows)[..index] + old(rows)[index + 1..]
    {
      rows := rows[..index] + rows[index + 1..];
    }

    method NotifyRowInserted(index: nat, row: Row)
      requires index <= |rows|
      modifies this
      ensures rows == old(rows)[..index] + [row] + old(rows)[index..]
    {
      rows := rows[..index] + [row] + rows[index..];
    }

    method NotifyRowChanged(index: nat, row: Row)
      requires index < |rows|
      modifies this
      ensures rows == old(rows)[index := row]
    {
      rows := rows[index := row];
    }
  }

  // ---- Step 1: deletions, old indices from high to low ----

  /** The rows whose id is in `keep`, in order. */
  function KeepRows(rows: seq<Row>, keep: set<nat>): seq<Row> {
    if rows == [] then []
    else (if rows[0].shown.id in keep then [rows[0]] else []) + KeepRows(rows[1..], keep)
  }

  lemma {:induction false} KeepRowsMeaning(rows: seq<Row>, keep: set<nat>)
    ensures RowIds(KeepRows(rows, keep)) == KeepIn(RowIds(rows), keep)
    ensures forall row :: row in KeepRows(rows, keep) ==> row in rows
  {
    if rows != [] {
      KeepRowsMeaning(rows[1..], keep);
      assert RowIds(rows)[1..] == RowIds(rows[1..]);
    }
  }

  lemma {:induction false} KeepRowsAppend(a: seq<Row>, b: seq<Row>, keep: set<nat>)
    ensures KeepRows(a + b, keep) == KeepRows(a, keep) + KeepRows(b, keep)
  {
    if a == [] {
      assert a + b == b;
    } else {
      TailAppend(a, b);
      KeepRowsAppend(a[1..], b, keep);
      Associate(if a[0].shown.id in keep then [a[0]] else [], KeepRows(a[1..], keep), KeepRows(b, keep));
    }
  }

  predicate SortedBy(s: seq<nat>, key: nat -> nat) {
    forall i, j :: 0 <= i < j < |s| ==> key(s[i]) >= key(s[j])
  }

  /** The library sort: some descending permutation by `key`. */
  method SortByDescending(items: seq<nat>, key: nat -> nat) returns (sorted: seq<nat>)
    ensures multiset(sorted) == multiset(items)
    ensures SortedBy(sorted, key)
  {
    sorted := [];
    for n := 0 to |items|
      invariant multiset(sorted) == multiset(items[..n])
      invariant SortedBy(sorted, key)
    {
      assert items[..n + 1] == items[..n] + [items[n]];
      sorted := InsertSorted(sorted, items[n], key);
    }
    assert items[..|items|] == items;
  }

  method InsertSorted(sorted: seq<nat>, x: nat, key: nat -> nat) returns (longer: seq<nat>)
    requires SortedBy(sorted, key)
    ensures multiset(longer) == multiset(sorted) + multiset{x}
    ensures SortedBy(longer, key)
  {
    var p := 0;
    while p < |sorted| && key(sorted[p]) >= key(x)
      invariant p <= |sorted|
      invariant forall i :: 0 <= i < p ==> key(sorted[i]) >= key(x)
    {
      p := p + 1;
    }
    assert sorted == sorted[..p] + sorted[p..];
    longer := sorted[..p] + [x] + sorted[p..];
    InsertedSorted(sorted, p, x, key);
  }

  lemma InsertedSorted(sorted: seq<nat>, p: nat, x: nat, key: nat -> nat)
    requires SortedBy(sorted, key) && p <= |sorted|
    requires forall i :: 0 <= i < p ==> key(sorted[i]) >= key(x)
    requires p < |sorted| ==> key(sorted[p]) <= key(x)
    ensures SortedBy(sorted[..p] + [x] + sorted[p..], key)
  {
  }

  predicate Descending(s: seq<nat>) {
    forall i, j :: 0 <= i < j < |s| ==> s[i] > s[j]
  }

  lemma {:induction false} CountOnce(s: seq<nat>, x: nat)
    requires NoDuplicates(s)
    ensures multiset(s)[x] <= 1
  {
    if s != [] {
      assert s == [s[0]] + s[1..];
      CountOnce(s[1..], x);
      assert s[0] !in s[1..];
    }
  }

  /** A permutation of a sequence without duplicates has none either. */
  lemma PermutationDistinct(a: seq<nat>, b: seq<nat>)
    requires NoDuplicates(a) && multiset(a) == multiset(b)
    ensures NoDuplicates(b) && Elements(a) == Elements(b)
  {
    forall i, j | 0 <= i < j < |b|
      ensures b[i] != b[j]
    {
      CountOnce(a, b[i]);
      assert b == b[..j] + b[j..];
      assert b[i] in b[..j];
      assert b[j] in b[j..];
      assert multiset(b)[b[j]] == multiset(b[..j])[b[j]] + multiset(b[j..])[b[j]];
    }
    assert forall x :: x in a <==> x in multiset(a);
    assert forall x :: x in b <==> x in multiset(b);
  }

  /** The old indices whose id is gone. */
  method GoneIndices(oldIds: seq<nat>, newIds: set<nat>) returns (gone: seq<nat>)
    ensures Descending(gone)
    ensures forall i :: i in gone <==> 0 <= i < |oldIds| && oldIds[i] !in newIds
  {
    gone := [];
    for i := 0 to |oldIds|
      invariant forall k :: k in gone <==> 0 <= k < i && oldIds[k] !in newIds
      invariant forall j, k :: 0 <= j < k < |gone| ==> gone[j] < gone[k]
    {
      if oldIds[i] !in newIds {
        assert forall k :: k in gone + [i] <==> k in gone || k == i;
        assert forall k :: 0 <= k < |gone| ==> gone[k] in gone;
        gone := gone + [i];
      }
    }
    ghost var ascending := gone;
    gone := SortByDescending(gone, i => i);
    PermutationDistinct(ascending, gone);
    assert Elements(gone) == Elements(ascending);
    assert forall k :: k in gone <==> k in Elements(gone);
    assert forall k :: k in ascending <==> k in Elements(ascending);
  }

  /** The view when every row from `c` on has been dealt with. */
  function DeletedFrom(rows: seq<Row>, keep: set<nat>, c: nat): seq<Row>
    requires c <= |rows|
  {
    rows[..c] + KeepRows(rows[c..], keep)
  }

  lemma {:induction false} KeepRowsRun(rows: seq<Row>, keep: set<nat>, i: nat, c: nat)
    requires i <= c <= |rows| && forall k :: i <= k < c ==> rows[k].shown.id in keep
    ensures KeepRows(rows[i..], keep) == rows[i..c] + KeepRows(rows[c..], keep)
    decreases c - i
  {
    if i < c {
      KeepRowsRun(rows, keep, i + 1, c);
      assert rows[i..][1..] == rows[i + 1..];
      assert rows[i..c] == [rows[i]] + rows[i + 1..c];
    }
  }

  lemma DeleteSlices(rows: seq<Row>, tail: seq<Row>, i: nat, c: nat)
    requires i < c <= |rows|
    ensures (rows[..c] + tail)[..i] == rows[..i]
    ensures (rows[..c] + tail)[i + 1..] == rows[i + 1..c] + tail
  {
  }

  /** Deleting the next gone index, counted in old indices, keeps the picture. */
  lemma DeleteStep(rows: seq<Row>, keep: set<nat>, i: nat, c: nat)
    requires i < c <= |rows| && rows[i].shown.id !in keep
    requires forall k :: i < k < c ==> rows[k].shown.id in keep
    ensures i < |DeletedFrom(rows, keep, c)|
    ensures DeletedFrom(rows, keep, c)[..i] + DeletedFrom(rows, keep, c)[i + 1..] == DeletedFrom(rows, keep, i)
  {
    KeepRowsRun(rows, keep, i + 1, c);
    assert rows[i..][1..] == rows[i + 1..];
    DeleteSlices(rows, KeepRows(rows[c..], keep), i, c);
  }

  lemma DeleteNext(rows: seq<Row>, keep: set<nat>, gone: seq<nat>, n: nat, c: nat)
    requires Descending(gone) && n < |gone| && gone[n] < c <= |rows|
    requires forall i :: i in gone ==> i < |rows| && rows[i].shown.id !in keep
    requires forall k :: 0 <= k < c && RowIds(rows)[k] !in keep ==> k in gone[n..]
    ensures gone[n] < |DeletedFrom(rows, keep, c)|
    ensures DeletedFrom(rows, keep, c)[..gone[n]] + DeletedFrom(rows, keep, c)[gone[n] + 1..]
        == DeletedFrom(rows, keep, gone[n])
    ensures n + 1 < |gone| ==> gone[n + 1] < gone[n]
    ensures forall k :: 0 <= k < gone[n] && RowIds(rows)[k] !in keep ==> k in gone[n + 1..]
  {
    NextGone(gone, n, RowIds(rows), keep, c);
    assert gone[n] in gone;
    assert forall k :: gone[n] < k < c ==> RowIds(rows)[k] == rows[k].shown.id;
    DeleteStep(rows, keep, gone[n], c);
  }

  lemma NothingGone(rows: seq<Row>, keep: set<nat>, c: nat)
    requires c <= |rows| && forall k :: 0 <= k < c ==> RowIds(rows)[k] in keep
    ensures DeletedFrom(rows, keep, c) == KeepRows(rows, keep)
  {
    assert forall k :: 0 <= k < c ==> rows[k].shown.id == RowIds(rows)[k];
    KeepRowsRun(rows, keep, 0, c);
    assert rows[0..] == rows && rows[0..c] == rows[..c];
  }

  method DeleteGone(view: TableView, oldIds: seq<nat>, newIds: set<nat>)
    requires RowIds(view.rows) == oldIds
    modifies view
    ensures view.rows == KeepRows(old(view.rows), newIds)
  {
    hide KeepRows, DeletedFrom;
    ghost var was := view.rows;
    var gone := GoneIndices(oldIds, newIds);
    ghost var c: nat := |was|;
    NothingDeletedYet(was, newIds);
    assert gone[0..] == gone;
    assert gone != [] ==> gone[0] in gone;
    for n := 0 to |gone|
      invariant c <= |was|
      invariant n < |gone| ==> gone[n] < c
      invariant forall k :: 0 <= k < c && oldIds[k] !in newIds ==> k in gone[n..]
      invariant view.rows == DeletedFrom(was, newIds, c)
    {
      DeleteNext(was, newIds, gone, n, c);
      view.NotifyRowDeleted(gone[n]);
      c := gone[n];
    }
    NothingGone(was, newIds, c);
  }

  /** Between the next index to delete and the last one deleted, every row stays. */
  lemma NextGone(gone: seq<nat>, n: nat, oldIds: seq<nat>, newIds: set<nat>, c: nat)
    requires Descending(gone) && n < |gone| && gone[n] < c <= |oldIds|
    requires forall k :: 0 <= k < c && oldIds[k] !in newIds ==> k in gone[n..]
    ensures forall k :: gone[n] < k < c ==> oldIds[k] in newIds
    ensures forall k :: 0 <= k < gone[n] && oldIds[k] !in newIds ==> k in gone[n + 1..]
  {
    forall k | 0 <= k < c && oldIds[k] !in newIds
      ensures k == gone[n] || (k < gone[n] && k in gone[n + 1..])
    {
      var j :| 0 <= j < |gone[n..]| && gone[n..][j] == k;
      assert gone[n + j] == k;
      if j > 0 {
        assert gone[n + 1..][j - 1] == k;
      }
    }
  }

  // ---- Step 2: insertions, new indices from low to high ----

  function WithRow(rows: seq<Row>, index: nat, row: Row): seq<Row>
    requires index <= |rows|
  {
    rows[..index] + [row] + rows[index..]
  }

  /** How many of the first `n` new rows were there before. */
  function Surviving(current: seq<Row>, oldIds: set<nat>, n: nat): nat
    requires n <= |current|
  {
    |KeepRows(current[..n], oldIds)|
  }

  lemma SurvivingStep(current: seq<Row>, oldIds: set<nat>, n: nat)
    requires n < |current|
    ensures KeepRows(current[..n + 1], oldIds)
         == KeepRows(current[..n], oldIds) + if current[n].shown.id in oldIds then [current[n]] else []
  {
    assert current[..n + 1] == current[..n] + [current[n]];
    KeepRowsAppend(current[..n], [current[n]], oldIds);
    assert [current[n]][1..] == [];
  }

  lemma SurvivingBounded(current: seq<Row>, oldIds: set<nat>, n: nat)
    requires n <= |current|
    ensures Surviving(current, oldIds, n) <= |KeepRows(current, oldIds)|
    ensures KeepRows(current[..n], oldIds) <= KeepRows(current, oldIds)
  {
    assert current == current[..n] + current[n..];
    KeepRowsAppend(current[..n], current[n..], oldIds);
  }

  /** What the view shows after the first `n` new rows were considered, starting from `kept`. */
  function AfterInsertions(kept: seq<Row>, current: seq<Row>, oldIds: set<nat>, n: nat): (rows: seq<Row>)
    requires n <= |current| && |KeepRows(current, oldIds)| <= |kept|
    ensures |rows| == |kept| + n - Surviving(current, oldIds, n)
    ensures n <= |rows|
  {
    SurvivingBounded(current, oldIds, n);
    if n == 0 then
      kept
    else
      SurvivingStep(current, oldIds, n - 1);
      var before := AfterInsertions(kept, current, oldIds, n - 1);
      if current[n - 1].shown.id in oldIds then before else WithRow(before, n - 1, current[n - 1])
  }

  method InsertNew(view: TableView, current: seq<Row>, oldIds: set<nat>)
    requires |KeepRows(current, oldIds)| <= |view.rows|
    modifies view
    ensures view.rows == AfterInsertions(old(view.rows), current, oldIds, |current|)
  {
    ghost var kept := view.rows;
    for i := 0 to |current|
      invariant view.rows == AfterInsertions(kept, current, oldIds, i)
    {
      if current[i].shown.id !in oldIds {
        view.NotifyRowInserted(i, current[i]);
      }
    }
  }

  lemma {:induction false} InsertedTail(kept: seq<Row>, current: seq<Row>, oldIds: set<nat>, n: nat)
    requires n <= |current| && |KeepRows(current, oldIds)| <= |kept|
    ensures Surviving(current, oldIds, n) <= |kept|
    ensures AfterInsertions(kept, current, oldIds, n)[n..] == kept[Surviving(current, oldIds, n)..]
  {
    SurvivingBounded(current, oldIds, n);
    if n > 0 {
      var before := AfterInsertions(kept, current, oldIds, n - 1);
      InsertedTail(kept, current, oldIds, n - 1);
      SurvivingStep(current, oldIds, n - 1);
      if current[n - 1].shown.id in oldIds {
        assert before[n..] == before[n - 1..][1..];
      } else {
        assert WithRow(before, n - 1, current[n - 1])[n..] == before[n - 1..];
      }
    }
  }

  /** New rows stand at their own index; the others are the kept rows in their order. */
  lemma {:induction false} InsertedRow(kept: seq<Row>, current: seq<Row>, oldIds: set<nat>, n: nat, i: nat)
    requires i < n <= |current| && |KeepRows(current, oldIds)| <= |kept|
    ensures RowAt(kept, current, oldIds, i, AfterInsertions(kept, current, oldIds, n)[i])
    decreases n
  {
    hide KeepRows, RowAt;
    if i < n - 1 {
      InsertedRow(kept, current, oldIds, n - 1, i);
    } else {
      LastInserted(kept, current, oldIds, i);
    }
  }

  lemma LastInserted(kept: seq<Row>, current: seq<Row>, oldIds: set<nat>, i: nat)
    requires i < |current| && |KeepRows(current, oldIds)| <= |kept|
    ensures RowAt(kept, current, oldIds, i, AfterInsertions(kept, current, oldIds, i + 1)[i])
  {
    hide KeepRows;
    if current[i].shown.id in oldIds {
      SurvivingStep(current, oldIds, i);
      SurvivingBounded(current, oldIds, i + 1);
      var before := AfterInsertions(kept, current, oldIds, i);
      InsertedTail(kept, current, oldIds, i);
      assert before[i] == before[i..][0];
    }
  }

  predicate RowAt(kept: seq<Row>, current: seq<Row>, oldIds: set<nat>, i: nat, row: Row)
    requires i < |current|
  {
    if current[i].shown.id in oldIds
    then Surviving(current, oldIds, i) < |kept| && row == kept[Surviving(current, oldIds, i)]
    else row == current[i]
  }

  // ---- Step 3: change notices ----

  /** A surviving row whose painted cells differ from the ones painted before. */
  ghost predicate Changed(painted: seq<Row>, row: Row) {
    exists j :: 0 <= j < |painted| && painted[j].shown.id == row.shown.id && painted[j] != row
  }

  ghost function AfterChanges(rows: seq<Row>, painted: seq<Row>, current: seq<Row>): (r: seq<Row>)
    requires |rows| == |current|
    ensures |r| == |rows|
  {
    seq(|rows|, i requires 0 <= i < |rows| => if Changed(painted, current[i]) then current[i] else rows[i])
  }

  /** `old_idx_by_id`. */
  method IndexById(rows: seq<Row>) returns (index: map<nat, nat>)
    requires NoDuplicates(RowIds(rows))
    ensures index.Keys == IdSet(rows)
    ensures forall id :: id in index ==> index[id] < |rows| && rows[index[id]].shown.id == id
  {
    index := map[];
    for i := 0 to |rows|
      invariant index.Keys == set k | 0 <= k < i :: rows[k].shown.id
      invariant forall id :: id in index ==> index[id] < i && rows[index[id]].shown.id == id
    {
      index := index[rows[i].shown.id := i];
    }
    assert index.Keys == IdSet(rows) by {
      assert forall k :: 0 <= k < |rows| ==> RowIds(rows)[k] == rows[k].shown.id;
    }
  }

  method NotifyChanged(view: TableView, painted: seq<Row>, current: seq<Row>, index: map<nat, nat>)
    requires |view.rows| == |current| && NoDuplicates(RowIds(painted))
    requires index.Keys == IdSet(painted)
    requires forall id :: id in index ==> index[id] < |painted| && painted[index[id]].shown.id == id
    modifies view
    ensures view.rows == AfterChanges(old(view.rows), painted, current)
  {
    ghost var was := view.rows;
    for i := 0 to |current|
      invariant |view.rows| == |current|
      invariant forall k :: 0 <= k < i ==> view.rows[k] == if Changed(painted, current[k]) then current[k] else was[k]
      invariant forall k :: i <= k < |current| ==> view.rows[k] == was[k]
    {
      ChangedByIndex(painted, current[i], index);
      var id := current[i].shown.id;
      if id in index && painted[index[id]] != current[i] {
        view.NotifyRowChanged(i, current[i]);
      }
    }
  }

  lemma ChangedByIndex(painted: seq<Row>, row: Row, index: map<nat, nat>)
    requires NoDuplicates(RowIds(painted)) && index.Keys == IdSet(painted)
    requires forall id :: id in index ==> index[id] < |painted| && painted[index[id]].shown.id == id
    ensures Changed(painted, row) <==> row.shown.id in index && painted[index[row.shown.id]] != row
  {
    forall j | 0 <= j < |painted| && painted[j].shown.id == row.shown.id
      ensures row.shown.id in index && index[row.shown.id] == j
    {
      assert RowIds(painted)[j] == row.shown.id;
      assert RowIds(painted)[index[row.shown.id]] == row.shown.id;
    }
  }

  // ---- The whole tick ----

  /** The rows that were painted and are still there come in the same order in both snapshots. */
  predicate SameOrder(oldIds: seq<nat>, newIds: seq<nat>) {
    KeepIn(oldIds, Elements(newIds)) == KeepIn(newIds, Elements(oldIds))
  }

  lemma {:induction false} DistinctSize(s: seq<nat>)
    requires NoDuplicates(s)
    ensures |Elements(s)| == |s|
  {
    if s != [] {
      DistinctSize(s[1..]);
      assert s[0] !in s[1..];
      assert s == [s[0]] + s[1..];
      assert Elements(s) == {s[0]} + Elements(s[1..]);
    }
  }

  /** Every index the tick sends is inside the view: as many rows survive in the one list as in the other. */
  lemma SurvivorsMatch(oldIds: seq<nat>, newIds: seq<nat>)
    requires NoDuplicates(oldIds) && NoDuplicates(newIds)
    ensures |KeepIn(oldIds, Elements(newIds))| == |KeepIn(newIds, Elements(oldIds))|
  {
    var a, b := KeepIn(oldIds, Elements(newIds)), KeepIn(newIds, Elements(oldIds));
    KeepInDistinct(oldIds, Elements(newIds));
    KeepInDistinct(newIds, Elements(oldIds));
    DistinctSize(a);
    DistinctSize(b);
    assert Elements(a) == Elements(b);
  }

  predicate Tickable(painted: seq<Row>, current: seq<Row>) {
    NoDuplicates(RowIds(painted)) && NoDuplicates(RowIds(current))
  }

  function AfterInserts(painted: seq<Row>, current: seq<Row>): (rows: seq<Row>)
    requires Tickable(painted, current)
    ensures |rows| == |current|
  {
    SurvivorsMatch(RowIds(painted), RowIds(current));
    KeepRowsMeaning(painted, IdSet(current));
    KeepRowsMeaning(current, IdSet(painted));
    assert current[..|current|] == current;
    AfterInsertions(KeepRows(painted, IdSet(current)), current, IdSet(painted), |current|)
  }

  ghost function AfterTick(painted: seq<Row>, current: seq<Row>): (rows: seq<Row>)
    requires Tickable(painted, current)
  {
    AfterChanges(AfterInserts(painted, current), painted, current)
  }

  lemma {:induction false} InsertionsKeepOld(kept: seq<Row>, current: seq<Row>, oldIds: set<nat>, n: nat)
    requires n <= |current| && |KeepRows(current, oldIds)| <= |kept|
    ensures KeepRows(AfterInsertions(kept, current, oldIds, n), oldIds) == KeepRows(kept, oldIds)
  {
    if n > 0 {
      InsertionsKeepOld(kept, current, oldIds, n - 1);
      var before := AfterInsertions(kept, current, oldIds, n - 1);
      var row := current[n - 1];
      if row.shown.id !in oldIds {
        WithRowKeepsOld(before, n - 1, row, oldIds);
      }
    }
  }

  lemma KeepRowsNone(row: Row, keep: set<nat>)
    requires row.shown.id !in keep
    ensures KeepRows([row], keep) == []
  {
    assert [row][1..] == [];
  }

  lemma WithRowKeepsOld(rows: seq<Row>, i: nat, row: Row, oldIds: set<nat>)
    requires i <= |rows| && row.shown.id !in oldIds
    ensures KeepRows(WithRow(rows, i, row), oldIds) == KeepRows(rows, oldIds)
  {
    hide KeepRows;
    var before, after := rows[..i], rows[i..];
    KeepRowsAppend(before + [row], after, oldIds);
    KeepRowsAppend(before, [row], oldIds);
    KeepRowsAppend(before, after, oldIds);
    KeepRowsNone(row, oldIds);
    assert rows == before + after;
  }

  /** A kept row that stands where its id stands in the new snapshot. */
  lemma KeptRowMatches(painted: seq<Row>, current: seq<Row>, i: nat)
    requires Tickable(painted, current) && SameOrder(RowIds(painted), RowIds(current))
    requires i < |current| && current[i].shown.id in IdSet(painted)
    ensures var kept, s := KeepRows(painted, IdSet(current)), Surviving(current, IdSet(painted), i);
            s < |kept| && kept[s].shown.id == current[i].shown.id && kept[s] in painted
  {
    var oldIds := IdSet(painted);
    var kept := KeepRows(painted, IdSet(current));
    KeepRowsMeaning(painted, IdSet(current));
    KeepRowsMeaning(current, oldIds);
    SurvivingStep(current, oldIds, i);
    SurvivingBounded(current, oldIds, i + 1);
    var s := Surviving(current, oldIds, i);
    assert KeepRows(current, oldIds)[s] == current[i];
    assert RowIds(kept)[s] == RowIds(KeepRows(current, oldIds))[s];
    assert kept[s] in kept;
  }

  /**
   * After deletions and insertions the view lists the new snapshot's ids exactly when the
   * surviving rows did not change their relative order.
   */
  lemma IdsMatchIffSameOrder(painted: seq<Row>, current: seq<Row>)
    requires Tickable(painted, current)
    ensures RowIds(AfterInserts(painted, current)) == RowIds(current) <==> SameOrder(RowIds(painted), RowIds(current))
  {
    var rows := AfterInserts(painted, current);
    if SameOrder(RowIds(painted), RowIds(current)) {
      forall i | 0 <= i < |current|
        ensures rows[i].shown.id == current[i].shown.id
      {
        InsertedRowOfTick(painted, current, i);
        if current[i].shown.id in IdSet(painted) {
          KeptRowMatches(painted, current, i);
        }
      }
    }
    if RowIds(rows) == RowIds(current) {
      SameIdsSameOrder(painted, current);
    }
  }

  lemma InsertedRowOfTick(painted: seq<Row>, current: seq<Row>, i: nat)
    requires Tickable(painted, current) && i < |current|
    ensures RowAt(KeepRows(painted, IdSet(current)), current, IdSet(painted), i, AfterInserts(painted, current)[i])
  {
    SurvivorsMatch(RowIds(painted), RowIds(current));
    KeepRowsMeaning(painted, IdSet(current));
    KeepRowsMeaning(current, IdSet(painted));
    InsertedRow(KeepRows(painted, IdSet(current)), current, IdSet(painted), |current|, i);
  }

  lemma SameIdsSameOrder(painted: seq<Row>, current: seq<Row>)
    requires Tickable(painted, current)
    requires RowIds(AfterInserts(painted, current)) == RowIds(current)
    ensures SameOrder(RowIds(painted), RowIds(current))
  {
    var oldIds, kept := IdSet(painted), KeepRows(painted, IdSet(current));
    SurvivorsMatch(RowIds(painted), RowIds(current));
    KeepRowsMeaning(painted, IdSet(current));
    KeepRowsMeaning(current, oldIds);
    InsertionsKeepOld(kept, current, oldIds, |current|);
    KeepRowsMeaning(AfterInserts(painted, current), oldIds);
    KeepRowsMeaning(kept, oldIds);
    KeepInAll(RowIds(kept), oldIds);
  }

  /** When the surviving rows keep their order, the view shows the data source row for row after the tick. */
  lemma TickShowsSource(painted: seq<Row>, current: seq<Row>)
    requires Tickable(painted, current) && SameOrder(RowIds(painted), RowIds(current))
    ensures AfterTick(painted, current) == current
  {
    var rows := AfterInserts(painted, current);
    forall i | 0 <= i < |current|
      ensures Changed(painted, current[i]) || rows[i] == current[i]
    {
      InsertedRowOfTick(painted, current, i);
      if current[i].shown.id in IdSet(painted) {
        KeptRowMatches(painted, current, i);
      }
    }
  }

  // ---- The notices of a tick, replayed ----

  datatype Notice = RowDeleted(index: nat) | RowInserted(index: nat, row: Row) | RowChanged(index: nat, row: Row)

  /** What one notice makes of a list of rows; an index out of range makes nothing of it. */
  function Apply(rows: seq<Row>, notice: Notice): Option<seq<Row>> {
    match notice
    case RowDeleted(i) => if i < |rows| then Some(rows[..i] + rows[i + 1..]) else None
    case RowInserted(i, row) => if i <= |rows| then Some(WithRow(rows, i, row)) else None
    case RowChanged(i, row) => if i < |rows| then Some(rows[i := row]) else None
  }

  function Replay(rows: seq<Row>, notices: seq<Notice>): Option<seq<Row>>
    decreases |notices|
  {
    if notices == [] then Some(rows)
    else match Apply(rows, notices[0])
      case None => None
      case Some(next) => Replay(next, notices[1..])
  }

  lemma {:induction false} ReplayAppend(rows: seq<Row>, a: seq<Notice>, b: seq<Notice>)
    ensures Replay(rows, a).Some? ==> Replay(rows, a + b) == Replay(Replay(rows, a).value, b)
    decreases |a|
  {
    if a == [] {
      assert a + b == b;
    } else if Apply(rows, a[0]).Some? {
      assert (a + b)[1..] == a[1..] + b;
      ReplayAppend(Apply(rows, a[0]).value, a[1..], b);
    }
  }

  /** The deletions below old index `c`, from high to low. */
  function Deletions(painted: seq<Row>, keep: set<nat>, c: nat): seq<Notice>
    requires c <= |painted|
  {
    if c == 0 then []
    else (if painted[c - 1].shown.id in keep then [] else [RowDeleted(c - 1)]) + Deletions(painted, keep, c - 1)
  }

  /** The insertions below new index `n`, from low to high. */
  function Insertions(current: seq<Row>, oldIds: set<nat>, n: nat): seq<Notice>
    requires n <= |current|
  {
    if n == 0 then []
    else Insertions(current, oldIds, n - 1)
         + if current[n - 1].shown.id in oldIds then [] else [RowInserted(n - 1, current[n - 1])]
  }

  ghost function Changes(painted: seq<Row>, current: seq<Row>, n: nat): seq<Notice>
    requires n <= |current|
  {
    if n == 0 then []
    else Changes(painted, current, n - 1)
         + if Changed(painted, current[n - 1]) then [RowChanged(n - 1, current[n - 1])] else []
  }

  /** All notices of a tick from the rows painted before to the rows of the new snapshot. */
  ghost function Notices(painted: seq<Row>, current: seq<Row>): seq<Notice> {
    Deletions(painted, IdSet(current), |painted|)
    + Insertions(current, IdSet(painted), |current|)
    + Changes(painted, current, |current|)
  }

  lemma {:induction false} ReplayDeletions(painted: seq<Row>, keep: set<nat>, c: nat)
    requires c <= |painted|
    ensures Replay(DeletedFrom(painted, keep, c), Deletions(painted, keep, c)) == Some(KeepRows(painted, keep))
  {
    if c == 0 {
      assert painted[0..] == painted && painted[..0] + KeepRows(painted, keep) == KeepRows(painted, keep);
    } else {
      ReplayDeletions(painted, keep, c - 1);
      if painted[c - 1].shown.id in keep {
        KeptBelow(painted, keep, c);
        assert [] + Deletions(painted, keep, c - 1) == Deletions(painted, keep, c - 1);
      } else {
        DeleteStep(painted, keep, c - 1, c);
        FirstNotice(RowDeleted(c - 1), Deletions(painted, keep, c - 1));
      }
    }
  }

  lemma KeptBelow(painted: seq<Row>, keep: set<nat>, c: nat)
    requires 0 < c <= |painted| && painted[c - 1].shown.id in keep
    ensures DeletedFrom(painted, keep, c - 1) == DeletedFrom(painted, keep, c)
  {
    KeepRowsRun(painted, keep, c - 1, c);
    assert painted[..c - 1] + painted[c - 1..c] == painted[..c];
    Associate(painted[..c - 1], painted[c - 1..c], KeepRows(painted[c..], keep));
  }

  lemma FirstNotice(notice: Notice, notices: seq<Notice>)
    ensures ([notice] + notices)[0] == notice && ([notice] + notices)[1..] == notices
  {
  }

  lemma ReplayOne(rows: seq<Row>, notice: Notice)
    ensures Replay(rows, [notice]) == Apply(rows, notice)
  {
    assert [notice][1..] == [];
  }

  lemma {:induction false} ReplayInsertions(kept: seq<Row>, current: seq<Row>, oldIds: set<nat>, n: nat)
    requires n <= |current| && |KeepRows(current, oldIds)| <= |kept|
    ensures Replay(kept, Insertions(current, oldIds, n)) == Some(AfterInsertions(kept, current, oldIds, n))
  {
    if n > 0 {
      ReplayInsertions(kept, current, oldIds, n - 1);
      var before := Insertions(current, oldIds, n - 1);
      if current[n - 1].shown.id in oldIds {
        assert before + [] == before;
      } else {
        var notice := RowInserted(n - 1, current[n - 1]);
        ReplayAppend(kept, before, [notice]);
        ReplayOne(AfterInsertions(kept, current, oldIds, n - 1), notice);
      }
    }
  }

  ghost function ChangedBelow(rows: seq<Row>, painted: seq<Row>, current: seq<Row>, n: nat): (r: seq<Row>)
    requires |rows| == |current|
    ensures |r| == |rows|
  {
    seq(|rows|, i requires 0 <= i < |rows| => if i < n && Changed(painted, current[i]) then current[i] else rows[i])
  }

  lemma {:induction false} ReplayChanges(rows: seq<Row>, painted: seq<Row>, current: seq<Row>, n: nat)
    requires n <= |current| == |rows|
    ensures Replay(rows, Changes(painted, current, n)) == Some(ChangedBelow(rows, painted, current, n))
  {
    hide Changed, ChangedBelow, Replay, Apply;
    ChangedNone(rows, painted, current);
    if n > 0 {
      ReplayChanges(rows, painted, current, n - 1);
      ChangedNext(rows, painted, current, n);
      var before := Changes(painted, current, n - 1);
      if Changed(painted, current[n - 1]) {
        var notice := RowChanged(n - 1, current[n - 1]);
        ReplayAppend(rows, before, [notice]);
        ReplayOne(ChangedBelow(rows, painted, current, n - 1), notice);
      } else {
        assert before + [] == before;
      }
    }
  }

  lemma ChangedNone(rows: seq<Row>, painted: seq<Row>, current: seq<Row>)
    requires |rows| == |current|
    ensures Replay(rows, []) == Some(rows) && ChangedBelow(rows, painted, current, 0) == rows
  {
  }

  lemma ChangedNext(rows: seq<Row>, painted: seq<Row>, current: seq<Row>, n: nat)
    requires 0 < n <= |current| == |rows|
    ensures var so, next := ChangedBelow(rows, painted, current, n - 1), ChangedBelow(rows, painted, current, n);
            if Changed(painted, current[n - 1]) then Apply(so, RowChanged(n - 1, current[n - 1])) == Some(next)
                else so == next
  {
    hide Changed;
    var so, next := ChangedBelow(rows, painted, current, n - 1), ChangedBelow(rows, painted, current, n);
    if Changed(painted, current[n - 1]) {
      assert so[n - 1 := current[n - 1]] == next;
    } else {
      assert so == next;
    }
  }

  /** Replayed on the rows they were made for, all notices are in range and have the effect of the tick. */
  lemma ReplayIsTick(painted: seq<Row>, current: seq<Row>)
    requires Tickable(painted, current)
    ensures Replay(painted, Notices(painted, current)) == Some(AfterTick(painted, current))
  {
    hide Replay, Deletions, Insertions, Changes, KeepRows, AfterInsertions, Changed;
    var gone, fresh', changed := Deletions(painted, IdSet(current), |painted|),
      Insertions(current, IdSet(painted), |current|), Changes(painted, current, |current|);
    var kept := KeepRows(painted, IdSet(current));
    NothingDeletedYet(painted, IdSet(current));
    ReplayDeletions(painted, IdSet(current), |painted|);
    SurvivorsMatch(RowIds(painted), RowIds(current));
    KeepRowsMeaning(painted, IdSet(current));
    KeepRowsMeaning(current, IdSet(painted));
    ReplayInsertions(kept, current, IdSet(painted), |current|);
    ReplayAppend(painted, gone, fresh');
    var rows := AfterInserts(painted, current);
    assert Replay(painted, gone + fresh') == Some(rows);
    ReplayAppend(painted, gone + fresh', changed);
    ReplayChanges(rows, painted, current, |current|);
    assert ChangedBelow(rows, painted, current, |current|) == AfterChanges(rows, painted, current);
  }

  lemma NothingDeletedYet(painted: seq<Row>, keep: set<nat>)
    ensures DeletedFrom(painted, keep, |painted|) == painted
  {
    assert painted[..|painted|] == painted && painted[|painted|..] == [];
  }

  /** When nothing changed, nothing is sent. */
  lemma NothingToNotify(rows: seq<Row>)
    requires NoDuplicates(RowIds(rows))
    ensures Notices(rows, rows) == []
  {
    NoDeletions(rows, |rows|);
    NoInsertions(rows, |rows|);
    NoChanges(rows, |rows|);
  }

  lemma {:induction false} NoDeletions(rows: seq<Row>, c: nat)
    requires c <= |rows|
    ensures Deletions(rows, IdSet(rows), c) == []
  {
    if c > 0 {
      assert RowIds(rows)[c - 1] == rows[c - 1].shown.id;
      NoDeletions(rows, c - 1);
    }
  }

  lemma {:induction false} NoInsertions(rows: seq<Row>, n: nat)
    requires n <= |rows|
    ensures Insertions(rows, IdSet(rows), n) == []
  {
    if n > 0 {
      assert RowIds(rows)[n - 1] == rows[n - 1].shown.id;
      NoInsertions(rows, n - 1);
    }
  }

  lemma {:induction false} NoChanges(rows: seq<Row>, n: nat)
    requires n <= |rows| && NoDuplicates(RowIds(rows))
    ensures Changes(rows, rows, n) == []
  {
    if n > 0 {
      NoChanges(rows, n - 1);
      forall j | 0 <= j < |rows| && rows[j].shown.id == rows[n - 1].shown.id
        ensures rows[j] == rows[n - 1]
      {
        assert RowIds(rows)[j] == RowIds(rows)[n - 1];
      }
    }
  }

  // ---- Notices on a view that is not the one they were made for ----

  /** What a notice makes of the number of rows; whether it is in range depends on nothing else. */
  function ApplyLength(n: nat, notice: Notice): Option<nat> {
    match notice
    case RowDeleted(i) => if i < n then Some(n - 1) else None
    case RowInserted(i, _) => if i <= n then Some(n + 1) else None
    case RowChanged(i, _) => if i < n then Some(n) else None
  }

  function ReplayLength(n: nat, notices: seq<Notice>): Option<nat>
    decreases |notices|
  {
    if notices == [] then Some(n)
    else match ApplyLength(n, notices[0])
      case None => None
      case Some(next) => ReplayLength(next, notices[1..])
  }

  lemma {:induction false} LengthOfReplay(rows: seq<Row>, notices: seq<Notice>)
    ensures ReplayLength(|rows|, notices)
         == match Replay(rows, notices) case None => None case Some(after) => Some(|after|)
    decreases |notices|
  {
    if notices != [] && Apply(rows, notices[0]).Some? {
      LengthOfReplay(Apply(rows, notices[0]).value, notices[1..]);
    }
  }

  lemma {:induction false} ReplayLengthAppend(n: nat, a: seq<Notice>, b: seq<Notice>)
    ensures ReplayLength(n, a + b)
         == match ReplayLength(n, a) case None => None case Some(m) => ReplayLength(m, b)
    decreases |a|
  {
    if a == [] {
      assert a + b == b;
    } else {
      assert (a + b)[0] == a[0] && (a + b)[1..] == a[1..] + b;
      if ApplyLength(n, a[0]).Some? {
        ReplayLengthAppend(ApplyLength(n, a[0]).value, a[1..], b);
      }
    }
  }

  lemma ReplayLengthOne(n: nat, notice: Notice)
    ensures ReplayLength(n, [notice]) == ApplyLength(n, notice)
  {
    assert [notice][1..] == [];
  }

  /** How many of the first `c` rows are not in `keep`. */
  function Dropped(rows: seq<Row>, keep: set<nat>, c: nat): (n: nat)
    requires c <= |rows|
    ensures n <= c
  {
    if c == 0 then 0 else Dropped(rows, keep, c - 1) + if rows[c - 1].shown.id in keep then 0 else 1
  }

  ghost predicate DeletionsFit(rows: seq<Row>, keep: set<nat>, c: nat, n: nat)
    requires c <= |rows|
  {
    forall i :: 0 <= i < c && rows[i].shown.id !in keep ==> i < n
  }

  lemma {:induction false} DroppedFit(rows: seq<Row>, keep: set<nat>, c: nat, n: nat)
    requires c <= |rows| && DeletionsFit(rows, keep, c, n)
    ensures Dropped(rows, keep, c) <= n
  {
    if c > 0 {
      if rows[c - 1].shown.id in keep {
        DroppedFit(rows, keep, c - 1, n);
      } else {
        assert c - 1 < n;
      }
    }
  }

  lemma {:induction false} DeletionsLength(rows: seq<Row>, keep: set<nat>, c: nat, n: nat)
    requires c <= |rows|
    ensures DeletionsFit(rows, keep, c, n) ==> Dropped(rows, keep, c) <= n
    ensures ReplayLength(n, Deletions(rows, keep, c))
         == if DeletionsFit(rows, keep, c, n) then Some(n - Dropped(rows, keep, c)) else None
  {
    if DeletionsFit(rows, keep, c, n) {
      DroppedFit(rows, keep, c, n);
    }
    if c > 0 {
      var rest := Deletions(rows, keep, c - 1);
      if rows[c - 1].shown.id in keep {
        DeletionsLength(rows, keep, c - 1, n);
        assert [] + rest == rest;
        assert DeletionsFit(rows, keep, c, n) <==> DeletionsFit(rows, keep, c - 1, n);
      } else {
        FirstNotice(RowDeleted(c - 1), rest);
        if c - 1 < n {
          DeletionsLength(rows, keep, c - 1, n - 1);
        }
      }
    }
  }

  ghost predicate InsertionsFit(current: seq<Row>, oldIds: set<nat>, c: nat, n: nat)
    requires c <= |current|
  {
    forall j :: 0 <= j < c && current[j].shown.id !in oldIds ==> j <= n + Dropped(current, oldIds, j)
  }

  lemma InsertionsFitNext(current: seq<Row>, oldIds: set<nat>, c: nat, n: nat)
    requires c <= |current|
    ensures ReplayLength(n, []) == Some(n) && InsertionsFit(current, oldIds, 0, n)
    ensures c > 0 ==> (InsertionsFit(current, oldIds, c, n) <==>
              && InsertionsFit(current, oldIds, c - 1, n)
              && (current[c - 1].shown.id in oldIds || c - 1 <= n + Dropped(current, oldIds, c - 1)))
  {
  }

  lemma {:induction false} InsertionsLength(current: seq<Row>, oldIds: set<nat>, c: nat, n: nat)
    requires c <= |current|
    ensures ReplayLength(n, Insertions(current, oldIds, c))
         == if InsertionsFit(current, oldIds, c, n) then Some(n + Dropped(current, oldIds, c)) else None
  {
    hide ReplayLength, InsertionsFit;
    InsertionsFitNext(current, oldIds, c, n);
    if c > 0 {
      var before := Insertions(current, oldIds, c - 1);
      InsertionsLength(current, oldIds, c - 1, n);
      if current[c - 1].shown.id in oldIds {
        assert before + [] == before;
      } else {
        var notice := RowInserted(c - 1, current[c - 1]);
        ReplayLengthAppend(n, before, [notice]);
        ReplayLengthOne(n + Dropped(current, oldIds, c - 1), notice);
      }
    }
  }

  ghost predicate ChangesFit(painted: seq<Row>, current: seq<Row>, c: nat, n: nat)
    requires c <= |current|
  {
    forall i :: 0 <= i < c && Changed(painted, current[i]) ==> i < n
  }

  lemma ChangesFitNext(painted: seq<Row>, current: seq<Row>, c: nat, n: nat)
    requires c <= |current|
    ensures ReplayLength(n, []) == Some(n) && ChangesFit(painted, current, 0, n)
    ensures c > 0 ==> (ChangesFit(painted, current, c, n) <==>
              ChangesFit(painted, current, c - 1, n) && (Changed(painted, current[c - 1]) ==> c - 1 < n))
  {
    hide Changed;
  }

  lemma {:induction false} ChangesLength(painted: seq<Row>, current: seq<Row>, c: nat, n: nat)
    requires c <= |current|
    ensures ReplayLength(n, Changes(painted, current, c)) == if ChangesFit(painted, current, c, n) then Some(n)
        else None
  {
    hide Changed, ReplayLength, ChangesFit;
    ChangesFitNext(painted, current, c, n);
    if c > 0 {
      var before := Changes(painted, current, c - 1);
      ChangesLength(painted, current, c - 1, n);
      if Changed(painted, current[c - 1]) {
        var notice := RowChanged(c - 1, current[c - 1]);
        ReplayLengthAppend(n, before, [notice]);
        ReplayLengthOne(n, notice);
      } else {
        assert before + [] == before;
      }
    }
  }

  /**
   * The notices of a tick suit a view of `n` rows: every row to delete lies below its length, every
   * new row has room after the deletions and the new rows before it, and every changed row lies
   * below the length that results.
   */
  ghost predicate NoticesFit(n: nat, painted: seq<Row>, current: seq<Row>) {
    var gone, added := Dropped(painted, IdSet(current), |painted|), Dropped(current, IdSet(painted), |current|);
    && DeletionsFit(painted, IdSet(current), |painted|, n)
    && gone <= n
    && InsertionsFit(current, IdSet(painted), |current|, n - gone)
    && ChangesFit(painted, current, |current|, n - gone + added)
  }

  lemma NoticesLength(n: nat, painted: seq<Row>, current: seq<Row>)
    ensures ReplayLength(n, Notices(painted, current)).Some? <==> NoticesFit(n, painted, current)
  {
    hide ReplayLength, Deletions, Insertions, Changes, DeletionsFit, InsertionsFit, ChangesFit, Dropped, IdSet;
    var gone, added, changed := Deletions(painted, IdSet(current), |painted|),
      Insertions(current, IdSet(painted), |current|), Changes(painted, current, |current|);
    ReplayLengthAppend(n, gone + added, changed);
    ReplayLengthAppend(n, gone, added);
    DeletionsLength(painted, IdSet(current), |painted|, n);
    if DeletionsFit(painted, IdSet(current), |painted|, n) {
      var m := n - Dropped(painted, IdSet(current), |painted|);
      InsertionsLength(current, IdSet(painted), |current|, m);
      ChangesLength(painted, current, |current|, m + Dropped(current, IdSet(painted), |current|));
    }
  }

  /** On any view whatever all notices of a tick are in range exactly when they suit its length. */
  lemma NoticesInRangeIff(view: seq<Row>, painted: seq<Row>, current: seq<Row>)
    ensures Replay(view, Notices(painted, current)).Some? <==> NoticesFit(|view|, painted, current)
  {
    hide Replay, ReplayLength, Notices, NoticesFit;
    LengthOfReplay(view, Notices(painted, current));
    NoticesLength(|view|, painted, current);
  }

  // ---- The tick method ----

  /** `top` is a choice of the (at most five) busiest connections above the threshold. */
  ghost predicate IsTop(ids: seq<nat>, bytes: nat -> nat, top: set<nat>) {
    var busy := set id | id in ids && bytes(id) > 10 * 1024 * 1024;
    && top <= busy
    && |top| <= 5 && (|top| < 5 ==> top == busy)
    && forall a, b :: a in top && b in busy - top ==> bytes(a) >= bytes(b)
  }

  method TopBusy(ids: seq<nat>, bytes: nat -> nat) returns (top: set<nat>)
    requires NoDuplicates(ids)
    ensures IsTop(ids, bytes, top)
  {
    var busy: seq<nat> := [];
    for i := 0 to |ids|
      invariant NoDuplicates(busy)
      invariant forall x :: x in busy <==> x in ids[..i] && bytes(x) > HIGHLIGHT_MIN_BYTES
    {
      assert ids[..i + 1] == ids[..i] + [ids[i]];
      if bytes(ids[i]) > HIGHLIGHT_MIN_BYTES {
        busy := busy + [ids[i]];
      }
    }
    assert ids[..|ids|] == ids;
    var sorted := SortByDescending(busy, bytes);
    PermutationDistinct(busy, sorted);
    var n := Min(TOP_N, |sorted|);
    top := Elements(sorted[..n]);
    TopOfSorted(ids, bytes, busy, sorted, n);
  }

  lemma TopOfSorted(ids: seq<nat>, bytes: nat -> nat, busy: seq<nat>, sorted: seq<nat>, n: nat)
    requires forall x :: x in busy <==> x in ids && bytes(x) > HIGHLIGHT_MIN_BYTES
    requires NoDuplicates(sorted) && Elements(busy) == Elements(sorted) && SortedBy(sorted, bytes)
    requires n == Min(TOP_N, |sorted|)
    ensures IsTop(ids, bytes, Elements(sorted[..n]))
  {
    var qualifying := set id | id in ids && bytes(id) > HIGHLIGHT_MIN_BYTES;
    assert qualifying == Elements(sorted) by {
      assert forall x :: x in busy <==> x in Elements(busy);
    }
    TopCount(sorted, n);
    hide NoDuplicates, Elements;
    TopIsBusier(sorted, bytes, n);
  }

  lemma TopCount(sorted: seq<nat>, n: nat)
    requires NoDuplicates(sorted) && n <= |sorted|
    ensures |Elements(sorted[..n])| == n && Elements(sorted[..n]) <= Elements(sorted)
    ensures n == |sorted| ==> sorted[..n] == sorted
  {
    DistinctSize(sorted[..n]);
  }

  lemma TopIsBusier(sorted: seq<nat>, bytes: nat -> nat, n: nat)
    requires SortedBy(sorted, bytes) && n <= |sorted|
    ensures forall a, b :: a in Elements(sorted[..n]) && b in Elements(sorted) - Elements(sorted[..n]) ==>
              bytes(a) >= bytes(b)
  {
    forall a, b | a in Elements(sorted[..n]) && b in Elements(sorted) - Elements(sorted[..n])
      ensures bytes(a) >= bytes(b)
    {
      var i :| 0 <= i < n && sorted[i] == a;
      var j :| 0 <= j < |sorted| && sorted[j] == b;
      assert forall k :: 0 <= k < n ==> sorted[k] in sorted[..n];
    }
  }

  /** The three batches of notices, in the order the tick sends them. */
  method SendNotices(view: TableView, painted: seq<Row>, current: seq<Row>)
    requires Tickable(painted, current) && view.rows == painted
    modifies view
    ensures view.rows == AfterTick(painted, current)
    ensures Replay(painted, Notices(painted, current)) == Some(view.rows)
  {
    ReplayIsTick(painted, current);
    hide Replay, Notices, AfterInsertions, AfterChanges, KeepRows, KeepIn, Elements;
    SurvivorsMatch(RowIds(painted), RowIds(current));
    KeepRowsMeaning(painted, IdSet(current));
    KeepRowsMeaning(current, IdSet(painted));
    var index := IndexById(painted);
    DeleteGone(view, RowIds(painted), IdSet(current));
    InsertNew(view, current, IdSet(painted));
    assert view.rows == AfterInserts(painted, current);
    NotifyChanged(view, painted, current, index);
  }

  lemma TableDistinct(tracker: ConnectionTracker)
    requires tracker.Valid()
    ensures NoDuplicates(tracker.order)
  {
  }

  class TrafficDataSource {
    var connections: seq<Info>
    var topSent: set<nat>
    var topRecv: set<nat>

    constructor (infos: seq<Info>)
      ensures connections == infos && topSent == {} && topRecv == {}
    {
      connections, topSent, topRecv := infos, {}, {};
    }

    function Rows(): seq<Row>
      reads this
    {
      Display(connections, topSent, topRecv)
    }

    method RecomputeHighlights(sent: nat -> nat, received: nat -> nat)
      requires NoDuplicates(Ids(connections))
      modifies this`topSent, this`topRecv
      ensures IsTop(Ids(connections), sent, topSent) && IsTop(Ids(connections), received, topRecv)
    {
      topSent := TopBusy(Ids(connections), sent);
      topRecv := TopBusy(Ids(connections), received);
    }

    /** One visible tick: a new snapshot, new highlights, then the three batches of notices. */
    method OnTick(tracker: ConnectionTracker, view: TableView, now: nat, sent: nat -> nat, received: nat -> nat)
      requires tracker.Valid() && NoDuplicates(Ids(connections))
      requires view.rows == Rows()
      modifies this, view, tracker`connections, tracker`order, tracker`snapshotCount
      ensures tracker.Valid() && connections == SnapshotOf(tracker.Contents())
      ensures tracker.Contents() == if old(tracker.snapshotCount) % 5 == 0 then Cleaned(old(tracker.Contents()), now)
                                    else old(tracker.Contents())
      ensures IsTop(Ids(connections), sent, topSent) && IsTop(Ids(connections), received, topRecv)
      ensures Tickable(old(Rows()), Rows()) && view.rows == AfterTick(old(Rows()), Rows())
      ensures ShowsTable(Rows(), tracker.Contents(), topSent, topRecv)
      ensures SameOrder(old(Ids(connections)), Ids(connections)) ==>
                view.rows == Rows() && ShowsTable(view.rows, tracker.Contents(), topSent, topRecv)
    {
      hide ShowsTable, Display, AfterTick, SnapshotOf, Cleaned, IsTop, SameOrder, NoDuplicates;
      ghost var oldIds := Ids(connections);
      var oldRows := Rows();
      connections := tracker.Snapshot(now);
      TableDistinct(tracker);
      RecomputeHighlights(sent, received);
      var newRows := Rows();
      DisplayShows(tracker.Contents(), topSent, topRecv);
      SendNotices(view, oldRows, newRows);
      assert SameOrder(oldIds, Ids(connections)) ==> SameOrder(RowIds(oldRows), RowIds(newRows));
      if SameOrder(RowIds(oldRows), RowIds(newRows)) {
        TickShowsSource(oldRows, newRows);
      }
    }
  }

  // ---- Runs that interleave the tracker with ticks ----

  /** The tracker, the rows of the data source, the rows in the view, and the ids seen at the last snapshot. */
  datatype Live = Live(tracker: System, source: seq<Row>, view: seq<Row>, seenThen: set<nat>)

  /** Opening the window: the table is filled from a first snapshot. */
  predicate Opens(x: Live, topSent: set<nat>, topRecv: set<nat>) {
    && x.source == Display(SnapshotOf(x.tracker.table), topSent, topRecv)
    && x.view == x.source
    && x.seenThen == x.tracker.seen
  }

  ghost predicate TracksOnly(x: Live, y: Live) {
    Tracker.Step(x.tracker, y.tracker) && y == x.(tracker := y.tracker)
  }

  /** A tick: a snapshot, possibly with cleanup, any highlights, and the notices replayed on the view. */
  ghost predicate Ticks(x: Live, now: nat, cleans: bool, topSent: set<nat>, topRecv: set<nat>, y: Live) {
    var table := if cleans then Cleaned(x.tracker.table, now) else x.tracker.table;
    var rows := Display(SnapshotOf(table), topSent, topRecv);
    && y.tracker == x.tracker.(table := table)
    && y.source == rows
    && y.seenThen == x.tracker.seen
    && Replay(x.view, Notices(x.source, rows)) == Some(y.view)
  }

  ghost predicate LiveStep(x: Live, y: Live) {
    TracksOnly(x, y) || exists now, cleans, topSent, topRecv :: Ticks(x, now, cleans, topSent, topRecv, y)
  }

  ghost predicate LiveInv(x: Live) {
    && Tracker.Inv(x.tracker)
    && x.view == x.source
    && NoDuplicates(RowIds(x.source))
    && (forall id :: id in RowIds(x.source) ==> id in x.seenThen)
    && x.seenThen <= x.tracker.seen
    && Continues(RowIds(x.source), x.seenThen, x.tracker.table.order)
  }

  /** A list that continues an earlier one keeps the common ids in the same order. */
  lemma ContinuesSameOrder(a: seq<nat>, seen: set<nat>, b: seq<nat>)
    requires Continues(a, seen, b) && forall id :: id in a ==> id in seen
    ensures SameOrder(a, b)
  {
    var kept := KeepIn(a, Elements(b));
    var added := b[|kept|..];
    assert b == kept + added;
    KeepInAppend(kept, added, Elements(a));
    KeepInAll(kept, Elements(a));
    KeepInNone(added, Elements(a));
  }

  lemma SnapshotInv(x: Tracker.System, topSent: set<nat>, topRecv: set<nat>)
    requires Tracker.Inv(x)
    ensures var rows := Display(SnapshotOf(x.table), topSent, topRecv);
            && RowIds(rows) == x.table.order && NoDuplicates(RowIds(rows))
            && (forall id :: id in RowIds(rows) ==> id in x.seen)
            && Continues(RowIds(rows), x.seen, x.table.order)
  {
    SnapshotShowsAll(x.table);
    assert forall id :: id in x.table.order ==> id in Elements(x.table.order);
    KeepInAll(x.table.order, Elements(x.table.order));
  }

  lemma TickKeeps(x: Live, now: nat, cleans: bool, topSent: set<nat>, topRecv: set<nat>, y: Live)
    requires LiveInv(x) && Ticks(x, now, cleans, topSent, topRecv, y)
    ensures LiveInv(y)
  {
    var rows := Display(SnapshotOf(y.tracker.table), topSent, topRecv);
    if cleans {
      assert Tracker.Cleans(x.tracker, now, y.tracker);
      StepContinues(x.tracker, y.tracker);
      ContinuesTransitive(RowIds(x.source), x.seenThen, x.tracker.table.order, x.tracker.seen, y.tracker.table.order);
    }
    SnapshotInv(y.tracker, topSent, topRecv);
    ContinuesSameOrder(RowIds(x.source), x.seenThen, y.tracker.table.order);
    ReplayIsTick(x.source, rows);
    TickShowsSource(x.source, rows);
  }

  /** A tick is possible in every such state: none of its notices is out of range. */
  lemma NoticesInRange(x: Live, now: nat, cleans: bool, topSent: set<nat>, topRecv: set<nat>) returns (y: Live)
    requires LiveInv(x)
    ensures Ticks(x, now, cleans, topSent, topRecv, y)
  {
    var table := if cleans then Cleaned(x.tracker.table, now) else x.tracker.table;
    var rows := Display(SnapshotOf(table), topSent, topRecv);
    if cleans {
      CleanedValid(x.tracker.table, now);
    }
    SnapshotShowsAll(table);
    ReplayIsTick(x.source, rows);
    y := Live(x.tracker.(table := table), rows, AfterTick(x.source, rows), x.tracker.seen);
  }

  lemma LiveStepKeeps(x: Live, y: Live)
    requires LiveInv(x) && LiveStep(x, y)
    ensures LiveInv(y)
  {
    if TracksOnly(x, y) {
      StepContinues(x.tracker, y.tracker);
      ContinuesTransitive(RowIds(x.source), x.seenThen, x.tracker.table.order, x.tracker.seen, y.tracker.table.order);
    } else {
      var now, cleans, topSent, topRecv :| Ticks(x, now, cleans, topSent, topRecv, y);
      TickKeeps(x, now, cleans, topSent, topRecv, y);
    }
  }

  /** The tick of a window that is being resized on Windows: a new snapshot and no notices. */
  predicate Resizes(x: Live, topSent: set<nat>, topRecv: set<nat>, y: Live) {
    && y.tracker == x.tracker && y.view == x.view && y.seenThen == x.tracker.seen
    && y.source == Display(SnapshotOf(x.tracker.table), topSent, topRecv)
  }

  /**
   * Why that tick is not among the steps: a connection registered before it is missing from the
   * view, and an ordinary tick after it sends nothing to repair that when nothing else changed.
   */
  lemma ResizeLosesRow(x: Live, y: Live, topSent: set<nat>, topRecv: set<nat>, z: Live)
    requires LiveInv(x) && Tracker.Inserts(x.tracker, y.tracker) && y == x.(tracker := y.tracker)
        && Resizes(y, topSent, topRecv, z)
    ensures z.view != z.source
    ensures exists id :: id in RowIds(z.source) && id !in RowIds(z.view)
    ensures forall now, w :: Ticks(z, now, false, topSent, topRecv, w) ==> w.view == z.view && w.source == z.source
  {
    var info: Info :| info.shown.id in x.tracker.pending
      && y.tracker
           == x.tracker.(table := Inserted(x.tracker.table, info), pending := x.tracker.pending - {info.shown.id},
               seen := x.tracker.seen + {info.shown.id});
    InsertContinues(x.tracker, y.tracker);
    InsertedMeaning(x.tracker.table, info);
    SnapshotInv(y.tracker, topSent, topRecv);
    var order := y.tracker.table.order;
    assert order[|order| - 1] == info.shown.id;
    assert info.shown.id in RowIds(z.source) && info.shown.id !in RowIds(z.view);
    NothingToNotify(z.source);
  }

  /**
   * When the row that a resize lost goes away, the tick that should delete it names an index beyond
   * the view: it is not possible on that view, whatever else has changed.
   */
  lemma LostRowGoes(z: Live, i: nat, now: nat, cleans: bool, topSent: set<nat>, topRecv: set<nat>)
    requires |z.view| <= i < |z.source|
    requires var table := if cleans then Cleaned(z.tracker.table, now) else z.tracker.table;
             z.source[i].shown.id !in IdSet(Display(SnapshotOf(table), topSent, topRecv))
    ensures forall w :: !Ticks(z, now, cleans, topSent, topRecv, w)
  {
    var table := if cleans then Cleaned(z.tracker.table, now) else z.tracker.table;
    NoticesInRangeIff(z.view, z.source, Display(SnapshotOf(table), topSent, topRecv));
  }

  /** A window opened in any reachable state of the tracker, and everything after. */
  ghost predicate IsLiveRun(run: seq<Live>) {
    && run != []
    && Tracker.Inv(run[0].tracker)
    && (exists topSent, topRecv :: Opens(run[0], topSent, topRecv))
    && forall i :: 0 <= i < |run| - 1 ==> LiveStep(run[i], run[i + 1])
  }

  /**
   * In every run that interleaves registrations, updates, evictions and cleanup with ticks, the
   * view equals the data source after every step, and at each tick the rows common to the old and
   * the new snapshot come in the same order.
   */
  lemma {:induction false} ViewFollowsSource(run: seq<Live>, i: nat)
    requires IsLiveRun(run) && i < |run|
    ensures LiveInv(run[i]) && run[i].view == run[i].source
    ensures SameOrder(RowIds(run[i].source), run[i].tracker.table.order)
  {
    if i == 0 {
      var topSent, topRecv :| Opens(run[0], topSent, topRecv);
      SnapshotInv(run[0].tracker, topSent, topRecv);
    } else {
      ViewFollowsSource(run, i - 1);
      LiveStepKeeps(run[i - 1], run[i]);
    }
    ContinuesSameOrder(RowIds(run[i].source), run[i].seenThen, run[i].tracker.table.order);
  }

  /** A tick with these highlights. */
  ghost predicate TicksWith(x: Live, topSent: set<nat>, topRecv: set<nat>, y: Live) {
    exists now, cleans :: Ticks(x, now, cleans, topSent, topRecv, y)
  }

  /**
   * What the view shows in any state of such a run: the table of the last tick (or of the opening),
   * record for record with the highlights of that tick, and nothing has moved since.
   */
  lemma {:induction false} ViewShowsLastTick(run: seq<Live>, i: nat)
      returns (k: nat, topSent: set<nat>, topRecv: set<nat>)
    requires IsLiveRun(run) && i < |run|
    ensures k <= i && ShowsTable(run[i].view, run[k].tracker.table, topSent, topRecv)
    ensures if k == 0 then Opens(run[0], topSent, topRecv)
            else TicksWith(run[k - 1], topSent, topRecv, run[k])
    ensures forall j :: k < j <= i ==> TracksOnly(run[j - 1], run[j])
  {
    hide LiveInv, Opens, Ticks, TracksOnly, ShowsTable;
    ViewFollowsSource(run, i);
    if i == 0 {
      k := 0;
      topSent, topRecv :| Opens(run[0], topSent, topRecv);
      OpeningShows(run[0], topSent, topRecv);
    } else if TracksOnly(run[i - 1], run[i]) {
      k, topSent, topRecv := ViewShowsLastTick(run, i - 1);
      TrackingKeepsView(run[i - 1], run[i]);
    } else {
      k := i;
      ViewFollowsSource(run, i - 1);
      var now, cleans;
      now, cleans, topSent, topRecv :| Ticks(run[i - 1], now, cleans, topSent, topRecv, run[i]);
      TickShows(run[i - 1], now, cleans, topSent, topRecv, run[i]);
    }
  }

  lemma OpeningShows(x: Live, topSent: set<nat>, topRecv: set<nat>)
    requires Tracker.Inv(x.tracker) && Opens(x, topSent, topRecv)
    ensures ShowsTable(x.view, x.tracker.table, topSent, topRecv)
  {
    DisplayShows(x.tracker.table, topSent, topRecv);
  }

  lemma TrackingKeepsView(x: Live, y: Live)
    requires TracksOnly(x, y)
    ensures y.view == x.view
  {
  }

  lemma TickShows(x: Live, now: nat, cleans: bool, topSent: set<nat>, topRecv: set<nat>, y: Live)
    requires LiveInv(x) && Ticks(x, now, cleans, topSent, topRecv, y)
    ensures ShowsTable(y.view, y.tracker.table, topSent, topRecv)
  {
    TickKeeps(x, now, cleans, topSent, topRecv, y);
    DisplayShows(y.tracker.table, topSent, topRecv);
  }
}
