/** Small types shared by every module of the model. */
module Basics {

  datatype Option<+T> = None | Some(value: T)

  datatype Result<+T, +E> = Ok(value: T) | Err(error: E)

  /** One octet on the wire. */
  newtype byte = b: int | 0 <= b < 256

  /** A `u16` port number. */
  type port = p: int | 0 <= p < 0x1_0000

  function Min(a: nat, b: nat): (m: nat)
    ensures m <= a && m <= b && (m == a || m == b)
  {
    if a < b then a else b
  }

  /** The index of the first occurrence of `x`, as Rust's `position` and `find` report it. */
  function Position<T(==)>(s: seq<T>, x: T): (r: Option<nat>)
    ensures r.None? <==> x !in s
    ensures r.Some? ==> r.value < |s| && s[r.value] == x
  {
    if s == [] then None
    else if s[0] == x then Some(0)
    else match Position(s[1..], x)
      case None => None
      case Some(i) => Some(i + 1)
  }

  lemma Associate<T>(a: seq<T>, b: seq<T>, c: seq<T>)
    ensures a + b + c == a + (b + c)
  {
  }

  lemma Halves<T>(a: seq<T>, b: seq<T>)
    ensures (a + b)[..|a|] == a && (a + b)[|a|..] == b
  {
  }

  lemma TailAppend<T>(a: seq<T>, b: seq<T>)
    requires a != []
    ensures (a + b)[0] == a[0] && (a + b)[1..] == a[1..] + b
  {
  }

  /** Elements in front that differ from `x` shift its first occurrence. */
  lemma {:induction false} PositionShift<T>(before: seq<T>, s: seq<T>, x: T)
    requires x !in before
    ensures Position(before + s, x) == match Position(s, x) case None => None case Some(i) => Some(|before| + i)
  {
    if before == [] {
      assert before + s == s;
    } else {
      assert (before + s)[1..] == before[1..] + s;
      PositionShift(before[1..], s, x);
    }
  }

  /** The first occurrence is found whatever follows it. */
  lemma PositionOf<T>(before: seq<T>, x: T, after: seq<T>)
    requires x !in before
    ensures Position(before + [x] + after, x) == Some(|before|)
  {
    Associate(before, [x], after);
    PositionShift(before, [x] + after, x);
  }

  /** What is found is the first occurrence. */
  lemma {:induction false} PositionIsFirst<T>(s: seq<T>, x: T)
    ensures x in s ==> forall k :: 0 <= k < Position(s, x).value ==> s[k] != x
  {
    if x in s && s[0] != x {
      PositionIsFirst(s[1..], x);
    }
  }

  lemma PositionAt<T>(s: seq<T>, x: T, i: nat)
    requires i < |s| && s[i] == x && forall k :: 0 <= k < i ==> s[k] != x
    ensures Position(s, x) == Some(i)
  {
    assert s[i] in s;
    PositionIsFirst(s, x);
  }

  lemma {:induction false} PositionPrefix<T>(s: seq<T>, x: T, after: seq<T>)
    ensures x in s ==> Position(s + after, x) == Position(s, x)
  {
    if x in s && s[0] != x {
      assert (s + after)[1..] == s[1..] + after;
      PositionPrefix(s[1..], x, after);
    }
  }

  /** The same letter up to the case of ASCII letters. */
  predicate SameLetter(c: char, d: char) {
    || c == d
    || ('A' <= c <= 'Z' && d as int == c as int + 32)
    || ('A' <= d <= 'Z' && c as int == d as int + 32)
  }

  predicate SameLetters(a: string, b: string) {
    |a| == |b| && forall i :: 0 <= i < |a| ==> SameLetter(a[i], b[i])
  }

  /** `pieces` with `sep` between them. */
  ghost function Joined(pieces: seq<string>, sep: char): string
    requires pieces != []
  {
    if |pieces| == 1 then pieces[0] else pieces[0] + [sep] + Joined(pieces[1..], sep)
  }

  /** `s` is the list of `pieces`, none of which holds `sep`. */
  ghost predicate IsListOf(s: string, sep: char, pieces: seq<string>) {
    pieces != [] && s == Joined(pieces, sep) && forall k :: 0 <= k < |pieces| ==> sep !in pieces[k]
  }

  predicate NoDuplicates<T(==)>(s: seq<T>) {
    forall i, j :: 0 <= i < j < |s| ==> s[i] != s[j]
  }
}
