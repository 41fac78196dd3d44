/** The bytes one output stream keeps, bounded from the head or from the tail. */
module Collected {
  import opened Utf8

  datatype Keep = Head(cap: nat) | Tail(cap: nat)

  function Least(a: nat, b: nat): nat {
    if a < b then a else b
  }

  /** What a whole stream keeps: its first or its last `cap` bytes. */
  function Kept(stream: seq<Byte>, keep: Keep): seq<Byte> {
    var n := Least(keep.cap, |stream|);
    if keep.Head? then stream[..n] else stream[|stream| - n..]
  }

  function Stream(chunks: seq<seq<Byte>>): seq<Byte> {
    if chunks == [] then [] else Stream(chunks[..|chunks| - 1]) + chunks[|chunks| - 1]
  }

  class Collected {
    var bytes: seq<Byte>
    var truncated: bool

    constructor ()
      ensures forall keep :: Holds([], keep)
    {
      bytes, truncated := [], false;
    }

    /**
     * What the buffer holds of the stream so far. From the head it is already
     * what is kept; from the tail it is a longer end of the stream, so that the
     * buffer is trimmed in steps and not on every chunk.
     */
    ghost predicate Holds(stream: seq<Byte>, keep: Keep)
      reads this
    {
      && (keep.Head? ==> bytes == Kept(stream, keep) && truncated == (|stream| > keep.cap))
      && (keep.Tail? ==>
            && |bytes| <= |stream| && bytes == stream[|stream| - |bytes|..]
            && truncated == (|bytes| < |stream|)
            && (truncated ==> |bytes| >= keep.cap))
    }

    method Push(chunk: seq<Byte>, keep: Keep, ghost stream: seq<Byte>)
      requires Holds(stream, keep)
      modifies this
      ensures Holds(stream + chunk, keep)
    {
      match keep {
        case Head(cap) =>
          var room := if cap > |bytes| then cap - |bytes| else 0;
          if |chunk| > room { truncated := true; }
          bytes := bytes + chunk[..Least(|chunk|, room)];
        case Tail(cap) =>
          bytes := bytes + chunk;
          assert Holds(stream + chunk, keep);
          if |bytes| > 2 * cap && |bytes| > cap + 8192 { TrimTail(cap, stream + chunk); }
      }
    }

    method TrimTail(cap: nat, ghost stream: seq<Byte>)
      requires Holds(stream, Tail(cap))
      modifies this
      ensures Holds(stream, Tail(cap)) && |bytes| <= cap
      ensures |bytes| == if old(|bytes|) > cap then cap else old(|bytes|)
    {
      if |bytes| > cap {
        bytes := bytes[|bytes| - cap..];
        truncated := true;
      }
    }

    method Finish(keep: Keep, ghost stream: seq<Byte>) returns (kept: seq<Byte>, cut: bool)
      requires Holds(stream, keep)
      modifies this
      ensures kept == Kept(stream, keep) && cut == (|stream| > keep.cap)
      ensures bytes == []
    {
      if keep.Tail? { TrimTail(keep.cap, stream); }
      kept, cut := bytes, truncated;
      bytes := [];
    }
  }

  /**
   * For every chunking of a stream, the collected output is exactly its first
   * or last min(cap, length) bytes, and it is reported cut exactly when the
   * stream is longer than the cap.
   */
  method Collect(chunks: seq<seq<Byte>>, keep: Keep) returns (kept: seq<Byte>, cut: bool)
    ensures kept == Kept(Stream(chunks), keep)
    ensures cut <==> |Stream(chunks)| > keep.cap
  {
    var buffer := new Collected();
    ghost var stream := [];
    for i := 0 to |chunks|
      invariant fresh(buffer) && stream == Stream(chunks[..i]) && buffer.Holds(stream, keep)
    {
      StreamGrows(chunks, i);
      buffer.Push(chunks[i], keep, stream);
      stream := stream + chunks[i];
    }
    assert chunks[..|chunks|] == chunks;
    kept, cut := buffer.Finish(keep, stream);
  }

  lemma {:induction false} StreamGrows(chunks: seq<seq<Byte>>, i: nat)
    requires i < |chunks|
    ensures Stream(chunks[..i + 1]) == Stream(chunks[..i]) + chunks[i]
  {
    assert chunks[..i + 1][..i] == chunks[..i];
  }
}
