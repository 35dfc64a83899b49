/** Bytes and the big-endian unsigned 32-bit fields that a JavaScript
    `DataView` writes by default. */
module Bytes {

  type byte = x: int | 0 <= x < 256

  const Two32: int := 0x1_0000_0000

  /** The low `n` base-256 digits of `x`, most significant first. */
  function BigEndian(x: nat, n: nat): (r: seq<byte>)
    ensures |r| == n
  {
    if n == 0 then [] else BigEndian(x / 256, n - 1) + [x % 256]
  }

  /** `DataView.setUint32(at, v)`: the value is first reduced modulo 2^32
      (ECMAScript ToUint32), then written most significant byte first. */
  function Uint32BE(v: int): (r: seq<byte>)
    ensures |r| == 4
  {
    BigEndian(v % Two32, 4)
  }

  /** `DataView.getUint32(at)`: four bytes read most significant first. */
  function ReadUint32BE(b: seq<byte>, at: nat): (v: nat)
    requires at + 4 <= |b|
    ensures v < Two32
  {
    var b0: int, b1: int, b2: int, b3: int := b[at], b[at + 1], b[at + 2], b[at + 3];
    ((b0 * 256 + b1) * 256 + b2) * 256 + b3
  }

  /** Reading back a written field gives the written value modulo 2^32. */
  lemma Uint32RoundTrip(v: int)
    ensures ReadUint32BE(Uint32BE(v), 0) == v % Two32
  {
    var x := v % Two32;
    var q1 := x / 256;
    var q2 := q1 / 256;
    var q3 := q2 / 256;
    assert BigEndian(q3, 1) == [q3 % 256] by { assert BigEndian(q3 / 256, 0) == []; }
    assert BigEndian(q2, 2) == [q3 % 256, q2 % 256];
    assert BigEndian(q1, 3) == [q3 % 256, q2 % 256, q1 % 256];
    assert BigEndian(x, 4) == [q3 % 256, q2 % 256, q1 % 256, x % 256];
    assert x == q1 * 256 + x % 256;
    assert q1 == q2 * 256 + q1 % 256;
    assert q2 == q3 * 256 + q2 % 256;
    assert q1 < 0x100_0000;
    assert q2 < 0x1_0000;
    assert q3 < 256;
  }

  /** A field reads as zero exactly when all four of its bytes are zero. */
  lemma Uint32ZeroIff(b: seq<byte>, at: nat)
    requires at + 4 <= |b|
    ensures ReadUint32BE(b, at) == 0 <==> b[at..at + 4] == [0, 0, 0, 0]
  {
    if ReadUint32BE(b, at) == 0 {
      assert b[at] == 0 && b[at + 1] == 0 && b[at + 2] == 0 && b[at + 3] == 0;
    }
  }
}
