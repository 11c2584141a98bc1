/** Bytes as the Java code sees them: the big-endian layout `ByteBuffer` gives a `long`,
    and the UTF-8 encoding `String.getBytes(StandardCharsets.UTF_8)` produces. */
module Bytes {

  /** A Java `byte`, kept as its 8-bit pattern. */
  type byte = bv8

  /** `n` zero bytes, as a freshly allocated Java array holds. */
  function Zeros(n: nat): (r: seq<byte>)
    ensures |r| == n && forall i :: 0 <= i < n ==> r[i] == 0
  {
    seq(n, _ => 0)
  }

  /** The eight bytes `ByteBuffer.putLong` stores for `v` in the default (big-endian) order:
      the most significant byte first. */
  function BigEndian64(v: bv64): (r: seq<byte>)
    ensures |r| == 8
  {
    [ ((v >> 56) & 0xFF) as byte, ((v >> 48) & 0xFF) as byte,
      ((v >> 40) & 0xFF) as byte, ((v >> 32) & 0xFF) as byte,
      ((v >> 24) & 0xFF) as byte, ((v >> 16) & 0xFF) as byte,
      ((v >> 8) & 0xFF) as byte, (v & 0xFF) as byte ]
  }

  /** The `long` that `ByteBuffer.getLong` assembles from eight bytes, first byte most significant. */
  function Long(b: seq<byte>): bv64
    requires |b| == 8
  {
    (b[0] as bv64 << 56) | (b[1] as bv64 << 48) | (b[2] as bv64 << 40) | (b[3] as bv64 << 32) |
    (b[4] as bv64 << 24) | (b[5] as bv64 << 16) | (b[6] as bv64 << 8) | b[7] as bv64
  }

  /** Decoding undoes encoding ... */
  lemma LongOfBigEndian(v: bv64)
    ensures Long(BigEndian64(v)) == v
  {
  }

  /** Shifting eight byte-sized values into one `long` keeps each of them in its own byte. */
  lemma BytesOfPackedLong(b0: bv64, b1: bv64, b2: bv64, b3: bv64, b4: bv64, b5: bv64, b6: bv64, b7: bv64)
    requires b0 < 0x100 && b1 < 0x100 && b2 < 0x100 && b3 < 0x100
    requires b4 < 0x100 && b5 < 0x100 && b6 < 0x100 && b7 < 0x100
    ensures var v := (b0 << 56) | (b1 << 48) | (b2 << 40) | (b3 << 32) | (b4 << 24) | (b5 << 16) | (b6 << 8) | b7;
      (v >> 56) & 0xFF == b0 && (v >> 48) & 0xFF == b1 && (v >> 40) & 0xFF == b2 && (v >> 32) & 0xFF == b3 &&
      (v >> 24) & 0xFF == b4 && (v >> 16) & 0xFF == b5 && (v >> 8) & 0xFF == b6 && v & 0xFF == b7
  {
  }

  /** ... and encoding undoes decoding: the two are inverse bijections between `long`s and
      eight-byte groups. */
  lemma BigEndianOfLong(b: seq<byte>)
    requires |b| == 8
    ensures BigEndian64(Long(b)) == b
  {
    BytesOfPackedLong(b[0] as bv64, b[1] as bv64, b[2] as bv64, b[3] as bv64,
                      b[4] as bv64, b[5] as bv64, b[6] as bv64, b[7] as bv64);
  }

  /** The first byte of a multi-byte UTF-8 sequence: the length `marker` plus the high bits. */
  function LeadByte(marker: nat, high: nat): (r: byte)
    requires 0xC0 <= marker && marker + high < 0x100
    ensures r >= 0xC0
  {
    (marker + high) as byte
  }

  /** A UTF-8 continuation byte carrying the low six bits of `n`. */
  function ContinuationByte(n: nat): (r: byte)
    ensures 0x80 <= r < 0xC0
  {
    (0x80 + n % 0x40) as byte
  }

  /** A multi-byte UTF-8 sequence: a lead byte, then continuation bytes. */
  predicate IsMultiByte(r: seq<byte>)
  {
    |r| > 1 && r[0] >= 0xC0 && forall i :: 1 <= i < |r| ==> 0x80 <= r[i] < 0xC0
  }

  /** The one-byte form, for code points below 0x80: the code point itself. */
  function Utf8One(n: nat): (r: seq<byte>)
    requires n < 0x80
    ensures |r| == 1 && r[0] as int == n
  {
    [n as byte]
  }

  /** The two-byte form, for code points from 0x80 below 0x800. */
  function Utf8Two(n: nat): (r: seq<byte>)
    requires 0x80 <= n < 0x800
    ensures |r| == 2 && IsMultiByte(r)
  {
    assert n / 0x40 < 0x20;
    [LeadByte(0xC0, n / 0x40), ContinuationByte(n)]
  }

  /** The three-byte form, for code points from 0x800 below 0x10000. */
  function Utf8Three(n: nat): (r: seq<byte>)
    requires 0x800 <= n < 0x10000
    ensures |r| == 3 && IsMultiByte(r)
  {
    assert n / 0x1000 < 0x10;
    [LeadByte(0xE0, n / 0x1000), ContinuationByte(n / 0x40), ContinuationByte(n)]
  }

  /** The four-byte form, for code points from 0x10000 to 0x10FFFF. */
  function Utf8Four(n: nat): (r: seq<byte>)
    requires 0x10000 <= n <= 0x10FFFF
    ensures |r| == 4 && IsMultiByte(r)
  {
    assert n / 0x40000 < 0x8;
    [LeadByte(0xF0, n / 0x40000), ContinuationByte(n / 0x1000), ContinuationByte(n / 0x40),
     ContinuationByte(n)]
  }

  /** The UTF-8 encoding of one Unicode scalar value: the value itself as one byte below 0x80,
      otherwise a lead byte and one to three continuation bytes, none of them below 0x80. */
  function Utf8Char(c: char): (r: seq<byte>)
    ensures 1 <= |r| <= 4
    ensures |r| == 1 <==> c as int < 0x80
    ensures |r| == 1 ==> r[0] as int == c as int
    ensures |r| > 1 ==> IsMultiByte(r)
  {
    var n := c as int;
    if n < 0x80 then Utf8One(n)
    else if n < 0x800 then Utf8Two(n)
    else if n < 0x10000 then Utf8Three(n)
    else Utf8Four(n)
  }

  /** `s.getBytes(StandardCharsets.UTF_8)`: the encodings of the characters, in order. */
  function Utf8(s: string): (r: seq<byte>)
    ensures r == [] <==> s == []
  {
    if s == [] then [] else Utf8Char(s[0]) + Utf8(s[1..])
  }

  /** Encoding distributes over concatenation, so a formatted string encodes piece by piece. */
  lemma {:induction false} Utf8Append(a: string, b: string)
    ensures Utf8(a + b) == Utf8(a) + Utf8(b)
  {
    if a == [] {
      assert a + b == b;
    } else {
      assert (a + b)[0] == a[0] && (a + b)[1..] == a[1..] + b;
      Utf8Append(a[1..], b);
    }
  }

  /** Every character takes one to four bytes. */
  lemma {:induction false} Utf8Length(s: string)
    ensures |s| <= |Utf8(s)| <= 4 * |s|
  {
    if s != [] {
      Utf8Length(s[1..]);
    }
  }

  predicate IsAscii(s: string)
  {
    forall i :: 0 <= i < |s| ==> s[i] as int < 0x80
  }

  /** An ASCII string encodes to one byte per character, each byte the character's code. */
  lemma {:induction false} Utf8OfAscii(s: string)
    requires IsAscii(s)
    ensures |Utf8(s)| == |s|
    ensures forall i :: 0 <= i < |s| ==> Utf8(s)[i] as int == s[i] as int
  {
    if s != [] {
      Utf8OfAscii(s[1..]);
    }
  }
}
