/**
 * src/util.rs: the search for the blank line that ends an HTTP head, and its resumed form.
 * Octets are characters; nothing below depends on their being less than 256.
 */
module HeaderSearch {
  import opened Basics

  /** A separator (two line feeds, or line feed, carriage return, line feed) begins at `i`. */
  predicate Begins(buf: string, i: nat) {
    && i + 1 < |buf|
    && buf[i] == '\n'
    && (buf[i + 1] == '\n' || (i + 2 < |buf| && buf[i + 1] == '\r' && buf[i + 2] == '\n'))
  }

  /** The offset just past the separator that begins at `i`. */
  function EndOf(buf: string, i: nat): (e: nat)
    requires Begins(buf, i)
    ensures i + 2 <= e <= |buf|
  {
    if buf[i + 1] == '\n' then i + 2 else i + 3
  }

  /** A head may end at `e`: the bytes up to `e` finish with a separator. */
  predicate HeadEnds(buf: string, e: nat) {
    && e <= |buf|
    && (|| (2 <= e && buf[e - 2] == '\n' && buf[e - 1] == '\n')
        || (3 <= e && buf[e - 3] == '\n' && buf[e - 2] == '\r' && buf[e - 1] == '\n'))
  }

  /** The first separator that begins at `i` or later. */
  function SearchFrom(buf: string, i: nat): (r: Option<nat>)
    ensures r.Some? ==> i + 2 <= r.value <= |buf|
    decreases |buf| - i
  {
    if |buf| <= i + 1 then None
    else if Begins(buf, i) then Some(EndOf(buf, i))
    else SearchFrom(buf, i + 1)
  }

  /** The whole-buffer search. */
  function Search(buf: string): (r: Option<nat>)
    ensures r.Some? ==> 2 <= r.value <= |buf|
  {
    SearchFrom(buf, 0)
  }

  /** How many positions a search from `i` looks at: up to the first separator, or up to the end. */
  function Looked(buf: string, i: nat): (n: nat)
    ensures n <= SaturatingSub(|buf|, i)
    decreases |buf| - i
  {
    if |buf| <= i + 1 then 0
    else if Begins(buf, i) then 1
    else 1 + Looked(buf, i + 1)
  }

  function SaturatingSub(a: nat, b: nat): nat {
    if a < b then 0 else a - b
  }

  /** The search as the program runs it, with the number of positions it looked at. */
  method FindHeaderSeparator(buf: string, startPos: nat) returns (r: Option<nat>, ghost steps: nat)
    ensures r == SearchFrom(buf, SaturatingSub(startPos, 3))
    ensures steps == Looked(buf, SaturatingSub(startPos, 3))
  {
    steps := 0;
    if |buf| < 2 {
      return None, 0;
    }
    var start := SaturatingSub(startPos, 3);
    var i := start;
    while i < |buf| - 1
      invariant start <= i
      invariant SearchFrom(buf, i) == SearchFrom(buf, start)
      invariant steps + Looked(buf, i) == Looked(buf, start)
    {
      steps := steps + 1;
      if buf[i] == '\n' {
        if buf[i + 1] == '\n' {
          return Some(i + 2), steps;
        }
        if i + 2 < |buf| && buf[i + 1] == '\r' && buf[i + 2] == '\n' {
          return Some(i + 3), steps;
        }
      }
      i := i + 1;
    }
    return None, steps;
  }

  /** What a search from `i` means: the least beginning at or after `i`. */
  lemma {:induction false} SearchFromMeaning(buf: string, i: nat)
    ensures SearchFrom(buf, i).None? <==> forall k: nat :: i <= k ==> !Begins(buf, k)
    ensures SearchFrom(buf, i).Some? ==>
              exists k: nat :: i <= k && Begins(buf, k) && SearchFrom(buf, i).value == EndOf(buf, k)
                        && forall j: nat :: i <= j < k ==> !Begins(buf, j)
    decreases |buf| - i
  {
    if |buf| <= i + 1 {
      assert forall k: nat :: i <= k ==> !Begins(buf, k);
    } else if !Begins(buf, i) {
      SearchFromMeaning(buf, i + 1);
      hide EndOf;
      if SearchFrom(buf, i + 1).Some? {
        var k: nat :| i + 1 <= k && Begins(buf, k) && SearchFrom(buf, i + 1).value == EndOf(buf, k)
                      && forall j: nat :: i + 1 <= j < k ==> !Begins(buf, j);
        assert i <= k && forall j: nat :: i <= j < k ==> !Begins(buf, j);
      }
    } else {
      assert i <= i && SearchFrom(buf, i).value == EndOf(buf, i);
    }
  }

  /** A search looks at every position up to the separator it finds, or up to the last but one, and at no other. */
  lemma {:induction false} LookedMeaning(buf: string, i: nat)
    ensures SearchFrom(buf, i).None? ==> Looked(buf, i) == if |buf| <= i + 1 then 0 else |buf| - 1 - i
    ensures SearchFrom(buf, i).Some? ==>
              exists k: nat :: i <= k && Begins(buf, k) && SearchFrom(buf, i).value == EndOf(buf, k)
                        && Looked(buf, i) == k - i + 1
    decreases |buf| - i
  {
    if i + 1 < |buf| {
      if Begins(buf, i) {
        assert i <= i && SearchFrom(buf, i).value == EndOf(buf, i);
      } else {
        LookedMeaning(buf, i + 1);
        hide EndOf;
        if SearchFrom(buf, i + 1).Some? {
          var k: nat :| i + 1 <= k && Begins(buf, k) && SearchFrom(buf, i + 1).value == EndOf(buf, k)
                        && Looked(buf, i + 1) == k - (i + 1) + 1;
          assert i <= k && Looked(buf, i) == k - i + 1;
        }
      }
    }
  }

  lemma EndOfHeadEnds(buf: string, i: nat)
    requires Begins(buf, i)
    ensures HeadEnds(buf, EndOf(buf, i))
  {
  }

  lemma HeadEndsBegin(buf: string, e: nat) returns (i: nat)
    requires HeadEnds(buf, e)
    ensures Begins(buf, i) && EndOf(buf, i) == e
  {
    i := if 2 <= e && buf[e - 2] == '\n' then e - 2 else e - 3;
  }

  /** An earlier separator ends earlier. */
  lemma EndsInOrder(buf: string, i: nat, j: nat)
    requires Begins(buf, i) && Begins(buf, j) && i < j
    ensures EndOf(buf, i) < EndOf(buf, j)
  {
  }

  /** The whole-buffer search returns the least offset at which a head ends, if there is one. */
  lemma SearchIsLeast(buf: string)
    ensures Search(buf).None? ==> forall e: nat :: !HeadEnds(buf, e)
    ensures Search(buf).Some? ==>
              var e := Search(buf).value;
              HeadEnds(buf, e) && forall d: nat :: d < e ==> !HeadEnds(buf, d)
  {
    SearchFromMeaning(buf, 0);
    forall d: nat | HeadEnds(buf, d)
      ensures Search(buf).Some? && Search(buf).value <= d
    {
      var j := HeadEndsBegin(buf, d);
      assert Begins(buf, j);
      var k: nat :| Begins(buf, k) && Search(buf).value == EndOf(buf, k) && forall i: nat :: i < k ==> !Begins(buf, i);
      if k < j {
        EndsInOrder(buf, k, j);
      }
    }
    if Search(buf).Some? {
      var k: nat :| Begins(buf, k) && Search(buf).value == EndOf(buf, k);
      EndOfHeadEnds(buf, k);
    }
  }

  /** The offset that satisfies this description is what the search returns. */
  lemma LeastIsSearch(buf: string, e: nat)
    requires HeadEnds(buf, e) && forall d: nat :: d < e ==> !HeadEnds(buf, d)
    ensures Search(buf) == Some(e)
  {
    SearchIsLeast(buf);
    assert Search(buf).Some?;
    var f := Search(buf).value;
    assert HeadEnds(buf, f);
  }

  /**
   * The resumed search finds what the whole search finds exactly when nothing begins in the part
   * it skips.
   */
  lemma ResumedSearchExact(buf: string, startPos: nat)
    ensures SearchFrom(buf, SaturatingSub(startPos, 3)) == Search(buf)
       <==> forall i: nat :: i < SaturatingSub(startPos, 3) ==> !Begins(buf, i)
  {
    var start := SaturatingSub(startPos, 3);
    SearchFromMeaning(buf, start);
    SearchFromMeaning(buf, 0);
    if forall i: nat :: i < start ==> !Begins(buf, i) {
      SkipTo(buf, 0, start);
    } else {
      var k: nat :| Begins(buf, k) && Search(buf).value == EndOf(buf, k) && forall i: nat :: i < k ==> !Begins(buf, i);
      var i: nat :| i < start && Begins(buf, i);
      assert k <= i;
      if SearchFrom(buf, start).Some? {
        var j: nat :| start <= j && Begins(buf, j) && SearchFrom(buf, start).value == EndOf(buf, j);
        EndsInOrder(buf, k, j);
      }
    }
  }

  lemma {:induction false} SkipTo(buf: string, i: nat, start: nat)
    requires i <= start
    requires forall k: nat :: i <= k < start ==> !Begins(buf, k)
    ensures SearchFrom(buf, i) == SearchFrom(buf, start)
    decreases start - i
  {
    if i < start {
      SkipTo(buf, i + 1, start);
      if |buf| <= i + 1 {
        assert SearchFrom(buf, start).None?;
      }
    }
  }

  /** A search that resumes where an unsuccessful one stopped loses nothing, however the buffer grew. */
  lemma ResumedSearch(buf: string, startPos: nat)
    requires startPos <= |buf|
    requires Search(buf[..startPos]).None?
    ensures SearchFrom(buf, SaturatingSub(startPos, 3)) == Search(buf)
  {
    SearchFromMeaning(buf[..startPos], 0);
    forall i: nat | i < SaturatingSub(startPos, 3)
      ensures !Begins(buf, i)
    {
      assert Begins(buf[..startPos], i) == Begins(buf, i);
    }
    ResumedSearchExact(buf, startPos);
  }

  /** A head that ends inside a prefix ends at the same place in any extension, and conversely. */
  lemma HeadEndsPrefix(buf: string, n: nat, e: nat)
    requires e <= n <= |buf|
    ensures HeadEnds(buf[..n], e) <==> HeadEnds(buf, e)
  {
  }

  /** A prefix shows the separator exactly when it reaches past its end. */
  lemma SearchPrefix(buf: string, n: nat)
    requires n <= |buf|
    ensures Search(buf[..n]) == if Search(buf).Some? && Search(buf).value <= n then Search(buf) else None
  {
    SearchIsLeast(buf);
    SearchIsLeast(buf[..n]);
    if Search(buf[..n]).Some? {
      var e := Search(buf[..n]).value;
      HeadEndsPrefix(buf, n, e);
      assert HeadEnds(buf, e);
      HeadEndsPrefix(buf, n, Search(buf).value);
    } else if Search(buf).Some? && Search(buf).value <= n {
      HeadEndsPrefix(buf, n, Search(buf).value);
    }
  }
}
