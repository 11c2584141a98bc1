/** The byte streams both programs read and write. An input stream is the data its peer makes
    available, in the groups ("bursts") in which a blocking read can see it, followed either by
    end of stream or by an `IOException`. An output sink records every write call it receives
    as one unit, so that what one call wrote can never be split by another writer. */
module Streams {
  import opened Bytes

  /** All the bytes of `parts`, in order. */
  function Concat(parts: seq<seq<byte>>): seq<byte>
  {
    if parts == [] then [] else parts[0] + Concat(parts[1..])
  }

  lemma {:induction false} ConcatAppend(a: seq<seq<byte>>, b: seq<seq<byte>>)
    ensures Concat(a + b) == Concat(a) + Concat(b)
  {
    if a == [] {
      assert a + b == b;
    } else {
      assert (a + b)[0] == a[0] && (a + b)[1..] == a[1..] + b;
      ConcatAppend(a[1..], b);
    }
  }

  /** The chunks that successive reads into a buffer of `capacity` bytes take from one burst:
      full buffers while more than a buffer's worth remains, then the rest. */
  function Split(burst: seq<byte>, capacity: nat): seq<seq<byte>>
    requires capacity > 0
    decreases |burst|
  {
    if |burst| <= capacity then [burst]
    else [burst[..capacity]] + Split(burst[capacity..], capacity)
  }

  /** Splitting a burst yields at least one chunk, none larger than the buffer, none empty
      unless the burst is, and together exactly the burst. */
  lemma {:induction false} SplitChunks(burst: seq<byte>, capacity: nat)
    requires capacity > 0
    ensures Split(burst, capacity) != []
    ensures forall k :: 0 <= k < |Split(burst, capacity)| ==> |Split(burst, capacity)[k]| <= capacity
    ensures burst != [] ==> forall k :: 0 <= k < |Split(burst, capacity)| ==> Split(burst, capacity)[k] != []
    ensures Concat(Split(burst, capacity)) == burst
    decreases |burst|
  {
    var r := Split(burst, capacity);
    if |burst| <= capacity {
      assert Concat([burst]) == burst + Concat([]);
    } else {
      var rest := Split(burst[capacity..], capacity);
      SplitChunks(burst[capacity..], capacity);
      assert r[0] == burst[..capacity] && r[1..] == rest;
      assert burst == burst[..capacity] + burst[capacity..];
    }
  }

  /** The chunks that successive reads into a buffer of `capacity` bytes return, one per read,
      until the data runs out. A read never spans two bursts. */
  function Chunks(pending: seq<seq<byte>>, capacity: nat): seq<seq<byte>>
    requires capacity > 0
  {
    if pending == [] then [] else Split(pending[0], capacity) + Chunks(pending[1..], capacity)
  }

  /** No read returns more than the buffer holds. */
  lemma {:induction false} ChunksBounded(pending: seq<seq<byte>>, capacity: nat)
    requires capacity > 0
    ensures forall k :: 0 <= k < |Chunks(pending, capacity)| ==> |Chunks(pending, capacity)[k]| <= capacity
  {
    if pending != [] {
      SplitChunks(pending[0], capacity);
      ChunksBounded(pending[1..], capacity);
    }
  }

  /** Reading in chunks neither loses, duplicates nor reorders a byte. */
  lemma {:induction false} ChunksKeepBytes(pending: seq<seq<byte>>, capacity: nat)
    requires capacity > 0
    ensures Concat(Chunks(pending, capacity)) == Concat(pending)
  {
    if pending != [] {
      SplitChunks(pending[0], capacity);
      ChunksKeepBytes(pending[1..], capacity);
      ConcatAppend(Split(pending[0], capacity), Chunks(pending[1..], capacity));
    }
  }

  /** A read returns zero bytes only where the peer made an empty burst available. */
  lemma {:induction false} ChunksOfNonEmptyBursts(pending: seq<seq<byte>>, capacity: nat)
    requires capacity > 0
    requires forall j :: 0 <= j < |pending| ==> pending[j] != []
    ensures forall k :: 0 <= k < |Chunks(pending, capacity)| ==> Chunks(pending, capacity)[k] != []
  {
    if pending != [] {
      SplitChunks(pending[0], capacity);
      ChunksOfNonEmptyBursts(pending[1..], capacity);
    }
  }

  /** When the chunks still to come are `chunk` followed by `rest`, `chunk` is the next one. */
  lemma ChunkStep(chunks: seq<seq<byte>>, i: nat, chunk: seq<byte>, rest: seq<seq<byte>>)
    requires i <= |chunks| && chunks[i..] == [chunk] + rest
    ensures i < |chunks| && chunks[i] == chunk && chunks[i + 1..] == rest
  {
    assert chunks[i..][0] == chunk;
    assert chunks[i..][1..] == rest;
  }

  /** A Java `InputStream` as `read(byte[])` sees it. */
  class InputStream {
    /** The data still to be delivered, in the bursts in which it arrives. */
    var pending: seq<seq<byte>>
    /** What follows the data: an `IOException` (true) or end of stream (false). */
    const fails: bool

    constructor (pending: seq<seq<byte>>, fails: bool)
      ensures this.pending == pending && this.fails == fails
    {
      this.pending := pending;
      this.fails := fails;
    }

    /** `read(buffer)`: the number of bytes placed at the front of `buffer`, -1 at end of
        stream, or an exception (`thrown`) once the data has run out on a failing stream. */
    method Read(buffer: array<byte>) returns (n: int, thrown: bool)
      requires buffer.Length > 0
      modifies this, buffer
      ensures thrown <==> old(pending) == [] && fails
      ensures !thrown ==> (n == -1 <==> old(pending) == [])
      ensures old(pending) == [] ==> pending == []
      ensures old(pending) != [] ==>
        0 <= n <= buffer.Length &&
        Chunks(old(pending), buffer.Length) == [buffer[..n]] + Chunks(pending, buffer.Length)
    {
      if pending == [] {
        return -1, fails;
      }
      thrown := false;
      var head, capacity := pending[0], buffer.Length;
      n := if |head| <= capacity then |head| else capacity;
      for i := 0 to n
        invariant pending == old(pending)
        invariant buffer[..i] == head[..i]
      {
        buffer[i] := head[i];
      }
      assert Chunks(pending, capacity) == Split(head, capacity) + Chunks(pending[1..], capacity);
      if |head| <= capacity {
        assert buffer[..n] == head;
        pending := pending[1..];
      } else {
        var rest := [head[capacity..]] + pending[1..];
        assert rest[0] == head[capacity..] && rest[1..] == pending[1..];
        pending := rest;
      }
    }
  }

  /** A Java `OutputStream` shared by several writers. */
  class OutputSink {
    /** The write units received so far, oldest first. */
    var units: seq<seq<byte>>

    constructor ()
      ensures units == []
    {
      units := [];
    }

    /** One write call (or several made under the stream's lock), appended as one unit. */
    method Write(data: seq<byte>)
      modifies this
      ensures units == old(units) + [data]
    {
      units := units + [data];
    }
  }
}
