/**
 * The read half of a socket.  `unread` is everything the peer will still send before it closes;
 * how it is cut into reads is left open, so a contract proved over `Read` holds for every
 * fragmentation.
 */
module Streams {
  import opened Basics

  class ByteSource<T> {
    var unread: seq<T>

    /** How often `Read` was called. */
    ghost var readCount: nat

    constructor (stream: seq<T>)
      ensures unread == stream && readCount == 0
    {
      unread := stream;
      readCount := 0;
    }

    /** `stream.read(&mut temp)`: a non-empty chunk of at most `max` bytes, or nothing at end of stream. */
    method Read(max: nat) returns (chunk: seq<T>)
      requires 0 < max
      modifies this
      ensures chunk + unread == old(unread)
      ensures |chunk| <= max
      ensures chunk == [] <==> old(unread) == []
      ensures readCount == old(readCount) + 1
    {
      readCount := readCount + 1;
      if unread == [] {
        return [];
      }
      var n :| 1 <= n <= |unread| && n <= max;
      chunk, unread := unread[..n], unread[n..];
    }

    /** `stream.read_exact(&mut buf)`: `n` bytes, or nothing when the stream ends before that. */
    method ReadExact(n: nat) returns (r: Option<seq<T>>)
      modifies this
      ensures n <= |old(unread)| ==> r == Some(old(unread)[..n]) && unread == old(unread)[n..]
      ensures |old(unread)| < n ==> r.None? && unread == []
    {
      ghost var stream := unread;
      var got: seq<T> := [];
      while |got| < n
        invariant |got| <= n
        invariant got + unread == stream
      {
        var chunk := Read(n - |got|);
        if chunk == [] {
          assert got == stream;
          return None;
        }
        got := got + chunk;
      }
      assert got == stream[..n] && unread == stream[n..];
      return Some(got);
    }
  }
}
