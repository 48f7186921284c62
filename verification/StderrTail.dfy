/** The bounded tail of a subprocess's standard error. */
module StderrTail {
  import opened Rows

  type Bytes = seq<bv8>

  function Concat(chunks: seq<Bytes>): Bytes {
    if chunks == [] then [] else Concat(chunks[..|chunks| - 1]) + chunks[|chunks| - 1]
  }

  lemma ChunkAdded(first: Bytes, chunks: seq<Bytes>, n: nat, maxBytes: nat)
    requires n < |chunks|
    ensures Last(Last(first + Concat(chunks[..n]), maxBytes) + chunks[n], maxBytes)
         == Last(first + Concat(chunks[..n + 1]), maxBytes)
  {
    LastOfLast(first + Concat(chunks[..n]), chunks[n], maxBytes);
    assert chunks[..n + 1][..n] == chunks[..n];
    assert first + Concat(chunks[..n]) + chunks[n] == first + Concat(chunks[..n + 1]);
  }

  class BoundedStderrDrainer {
    const maxBytes: nat
    var buffer: Bytes

    constructor (maxBytes: nat := 65536)
      ensures this.maxBytes == maxBytes && buffer == []
    {
      this.maxBytes := maxBytes;
      buffer := [];
    }

    /** Reads until an empty chunk; afterwards the buffer is the tail of everything read, however it was cut. */
    method Drain(chunks: seq<Bytes>) returns (n: nat)
      requires |buffer| <= maxBytes
      modifies this`buffer
      ensures n <= |chunks| && (forall i :: 0 <= i < n ==> chunks[i] != []) && (n < |chunks| ==> chunks[n] == [])
      ensures buffer == Last(old(buffer) + Concat(chunks[..n]), maxBytes)
    {
      n := 0;
      while n < |chunks| && chunks[n] != []
        invariant n <= |chunks| && forall i :: 0 <= i < n ==> chunks[i] != []
        invariant buffer == Last(old(buffer) + Concat(chunks[..n]), maxBytes)
      {
        ChunkAdded(old(buffer), chunks, n, maxBytes);
        buffer := buffer + chunks[n];
        if |buffer| > maxBytes {
          buffer := buffer[|buffer| - maxBytes..];
        }
        n := n + 1;
      }
    }
  }

  /** The tail does not depend on how the bytes were cut into chunks. */
  lemma {:induction false} TailIgnoresChunking(chunks: seq<Bytes>, chunks': seq<Bytes>, maxBytes: nat)
    requires Concat(chunks) == Concat(chunks')
    ensures Tail(chunks, maxBytes) == Tail(chunks', maxBytes)
  {
    TailIsLast(chunks, maxBytes);
    TailIsLast(chunks', maxBytes);
  }

  /** The buffer after each chunk in turn. */
  function Tail(chunks: seq<Bytes>, maxBytes: nat): Bytes {
    if chunks == [] then []
    else Last(Tail(chunks[..|chunks| - 1], maxBytes) + chunks[|chunks| - 1], maxBytes)
  }

  lemma {:induction false} TailIsLast(chunks: seq<Bytes>, maxBytes: nat)
    ensures Tail(chunks, maxBytes) == Last(Concat(chunks), maxBytes)
  {
    if chunks != [] {
      var n := |chunks| - 1;
      TailIsLast(chunks[..n], maxBytes);
      LastOfLast(Concat(chunks[..n]), chunks[n], maxBytes);
    }
  }
}
