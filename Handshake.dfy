/** The identity handshake: a Box announces its UUID as the first bytes of its connection, and
    the Controller reads it back. */
module Handshake {
  import opened Bytes
  import opened Results

  /** A `java.util.UUID`, as its two 64-bit halves. */
  datatype Uuid = Uuid(mostSignificantBits: bv64, leastSignificantBits: bv64)

  /** `Long.SIZE`: the width of a `long` in bits, not in bytes. */
  const LongSize: nat := 64

  /** The buffer both sides size as `Long.SIZE * 2`: 128 bytes, eight times what two longs need. */
  const AdvertisedLength: nat := LongSize * 2

  /** The bytes a UUID occupies: two longs of eight bytes. */
  const IdLength: nat := 16

  /** What `advertise` sends: the 128-byte backing array of its buffer, holding the most
      significant half, then the least significant half, then zeros. */
  function HandshakeFrame(id: Uuid): (frame: seq<byte>)
    ensures |frame| == AdvertisedLength
    ensures Long(frame[..8]) == id.mostSignificantBits
    ensures Long(frame[8..IdLength]) == id.leastSignificantBits
    ensures forall i :: IdLength <= i < AdvertisedLength ==> frame[i] == 0
  {
    var frame := BigEndian64(id.mostSignificantBits) + BigEndian64(id.leastSignificantBits)
                 + Zeros(AdvertisedLength - IdLength);
    assert frame[..8] == BigEndian64(id.mostSignificantBits);
    assert frame[8..IdLength] == BigEndian64(id.leastSignificantBits);
    LongOfBigEndian(id.mostSignificantBits);
    LongOfBigEndian(id.leastSignificantBits);
    frame
  }

  /** Two `putLong`s into a fresh 128-byte buffer leave exactly the frame in it. */
  lemma FrameOfPuts(blank: seq<byte>, first: seq<byte>, second: seq<byte>, id: Uuid)
    requires blank == Zeros(AdvertisedLength)
    requires first == blank[..0] + BigEndian64(id.mostSignificantBits) + blank[8..]
    requires second == first[..8] + BigEndian64(id.leastSignificantBits) + first[16..]
    ensures second == HandshakeFrame(id)
  {
    assert first[..8] == BigEndian64(id.mostSignificantBits);
    assert first[16..] == Zeros(AdvertisedLength - IdLength);
  }

  /** The exception a relative `get` throws when fewer bytes remain than it needs. */
  datatype BufferError = BufferUnderflow

  /** `ByteBuffer.getLong()` at `position`: the big-endian long there, or an underflow when
      fewer than eight bytes remain. */
  function GetLong(bytes: seq<byte>, position: nat): (r: Result<bv64, BufferError>)
    ensures r.Ok? <==> position + 8 <= |bytes|
    ensures r.Ok? ==> BigEndian64(r.value) == bytes[position..position + 8]
  {
    if position + 8 <= |bytes| then
      BigEndianOfLong(bytes[position..position + 8]);
      Ok(Long(bytes[position..position + 8]))
    else Err(BufferUnderflow)
  }

  /** `readId`: wraps the bytes in a buffer and reads two longs from it, the first as the most
      significant half. Fails with an underflow on fewer than 16 bytes; ignores bytes past 16. */
  function ReadId(bytes: seq<byte>): (r: Result<Uuid, BufferError>)
    ensures r.Ok? <==> |bytes| >= IdLength
    ensures r.Ok? ==> bytes[..8] == BigEndian64(r.value.mostSignificantBits)
    ensures r.Ok? ==> bytes[8..IdLength] == BigEndian64(r.value.leastSignificantBits)
  {
    match GetLong(bytes, 0)
    case Err(e) => Err(e)
    case Ok(mostSignificant) =>
      match GetLong(bytes, 8)
      case Err(e) => Err(e)
      case Ok(leastSignificant) => Ok(Uuid(mostSignificant, leastSignificant))
  }

  /** Bytes after the sixteenth never influence the identity read. */
  lemma ReadIdIgnoresTail(bytes: seq<byte>)
    requires |bytes| >= IdLength
    ensures ReadId(bytes) == ReadId(bytes[..IdLength])
  {
    assert bytes[..IdLength][..8] == bytes[..8];
    assert bytes[..IdLength][8..IdLength] == bytes[8..IdLength];
  }

  /** The handshake round trip: reading back what `advertise` sends yields the advertised id. */
  lemma HandshakeRoundTrip(id: Uuid)
    ensures ReadId(HandshakeFrame(id)) == Ok(id)
  {
    var frame := HandshakeFrame(id);
    var r := ReadId(frame);
    assert r.Ok?;
    LongOfBigEndian(r.value.mostSignificantBits);
    LongOfBigEndian(r.value.leastSignificantBits);
  }

  /** `readNBytes(n)`: the first `n` bytes received, or all of them if the peer closes sooner. */
  function ReadNBytes(received: seq<byte>, n: nat): (r: seq<byte>)
    ensures |r| == if |received| < n then |received| else n
    ensures r == received[..|r|]
  {
    if |received| < n then received else received[..n]
  }

  /** What the Controller makes of a connection's first bytes: it asks for up to 128 bytes and
      reads an id from them. Fewer than 16 received bytes is a failed handshake; otherwise the
      id is the one whose frame begins with exactly those 16 bytes. */
  function ReceiveHandshake(received: seq<byte>): (r: Result<Uuid, BufferError>)
    ensures r.Err? <==> |received| < IdLength
    ensures r.Ok? ==> received[..IdLength] == HandshakeFrame(r.value)[..IdLength]
  {
    var r := ReadId(ReadNBytes(received, AdvertisedLength));
    if r.Ok? then
      var frame := HandshakeFrame(r.value);
      assert received[..IdLength] == received[..8] + received[8..IdLength];
      assert frame[..IdLength] == frame[..8] + frame[8..IdLength];
      r
    else r
  }

  /** Whatever a Box sends after its frame, the Controller reads the Box's own id. */
  lemma AdvertisedIdIsReceived(id: Uuid, later: seq<byte>)
    ensures ReceiveHandshake(HandshakeFrame(id) + later) == Ok(id)
  {
    var received := HandshakeFrame(id) + later;
    assert ReadNBytes(received, AdvertisedLength) == HandshakeFrame(id);
    HandshakeRoundTrip(id);
  }

  /** An array that agrees with `before` except for `bytes` written at `p` is the splice. */
  lemma Spliced(before: seq<byte>, after: seq<byte>, p: nat, bytes: seq<byte>)
    requires p + |bytes| <= |before| == |after|
    requires forall j :: 0 <= j < |after| ==>
      after[j] == if p <= j < p + |bytes| then bytes[j - p] else before[j]
    ensures after == before[..p] + bytes + before[p + |bytes|..]
  {
  }

  /** A Java `ByteBuffer` used for writing: a backing array and the position of the next put. */
  class ByteBuffer {
    const backing: array<byte>
    var position: nat
    var limit: nat

    ghost predicate Valid()
      reads this
    {
      position <= limit <= backing.Length
    }

    /** `ByteBuffer.allocate(capacity)`: a zero-filled array, position 0, limit at the end. */
    constructor Allocate(capacity: nat)
      ensures Valid() && fresh(backing)
      ensures backing[..] == Zeros(capacity) && position == 0 && limit == capacity
    {
      backing := new byte[capacity](_ => 0);
      position, limit := 0, capacity;
    }

    /** `put(bytes)`: the bytes at the position, which advances past them; a
        `BufferOverflowException` (and no change) when fewer than `|bytes|` remain. */
    method Put(bytes: seq<byte>) returns (overflow: bool)
      requires Valid()
      modifies this, backing
      ensures Valid() && limit == old(limit)
      ensures overflow <==> old(position) + |bytes| > limit
      ensures overflow ==> position == old(position) && backing[..] == old(backing[..])
      ensures !overflow ==>
        position == old(position) + |bytes| &&
        backing[..] == old(backing[..])[..old(position)] + bytes + old(backing[..])[old(position) + |bytes|..]
    {
      if position + |bytes| > limit {
        return true;
      }
      overflow := false;
      for k := 0 to |bytes|
        invariant position == old(position) && limit == old(limit)
        invariant forall j :: 0 <= j < backing.Length ==>
          backing[j] == if position <= j < position + k then bytes[j - position] else old(backing[j])
      {
        backing[position + k] := bytes[k];
      }
      Spliced(old(backing[..]), backing[..], position, bytes);
      position := position + |bytes|;
    }

    /** `putLong(v)`: the eight big-endian bytes of `v`, put as by `put`. */
    method PutLong(v: bv64) returns (overflow: bool)
      requires Valid()
      modifies this, backing
      ensures Valid() && limit == old(limit)
      ensures overflow <==> old(position) + 8 > limit
      ensures overflow ==> position == old(position) && backing[..] == old(backing[..])
      ensures !overflow ==>
        position == old(position) + 8 &&
        backing[..] == old(backing[..])[..old(position)] + BigEndian64(v) + old(backing[..])[old(position) + 8..]
    {
      overflow := Put(BigEndian64(v));
    }

    /** `flip()`: the limit moves to the position and the position to zero. */
    method Flip()
      requires Valid()
      modifies this
      ensures Valid() && limit == old(position) && position == 0
    {
      limit, position := position, 0;
    }
  }
}
