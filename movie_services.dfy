/** The chunk wire codec of `movieServices`: a 16-byte big-endian header
    (sequence at 0, payload length at 4, an 8-byte timestamp at 8, a flags
    word at 12) followed by the payload. The flags word overlaps the second
    half of the timestamp and is written after it. `Date.now()` encoded as a
    Float64 is an input of 8 opaque bytes. */
module MovieServices {
  import opened Wrappers
  import opened Bytes

  const HeaderSize: nat := 16
  const SequenceOffset: nat := 0
  const SizeOffset: nat := 4
  const TimestampOffset: nat := 8
  const FlagsOffset: nat := 12
  /** Width of the Float64 timestamp field. */
  const TimestampWidth: nat := 8

  /** `new DataView(buffer, 0, 16)` on a shorter buffer throws a RangeError. */
  datatype FramingError = HeaderOutOfRange(length: nat)

  /** The object `parseChunkMessage` returns; the timestamp is the raw bytes. */
  datatype ParsedChunk = ParsedChunk(sequence: nat, size: nat, timestamp: seq<byte>, isLastChunk: bool, data: seq<byte>)

  /** `buf` with `bytes` written from offset `at` on. */
  function WriteAt(buf: seq<byte>, at: nat, bytes: seq<byte>): (r: seq<byte>)
    requires at + |bytes| <= |buf|
    ensures |r| == |buf|
    ensures r[at..at + |bytes|] == bytes
    ensures r[..at] == buf[..at] && r[at + |bytes|..] == buf[at + |bytes|..]
  {
    buf[..at] + bytes + buf[at + |bytes|..]
  }

  function Zeros(n: nat): (r: seq<byte>)
    ensures |r| == n && forall i :: 0 <= i < n ==> r[i] == 0
  {
    seq(n, _ => 0)
  }

  function FlagWord(isLastChunk: bool): int { if isLastChunk then 1 else 0 }

  /** The header as the four setter calls of `createChunkMessage` leave it,
      applied in their order to a zeroed 16-byte view. */
  function HeaderWrites(sequence: int, size: int, clock: seq<byte>, isLastChunk: bool): seq<byte>
    requires |clock| == TimestampWidth
  {
    var h0 := Zeros(HeaderSize);
    var h1 := WriteAt(h0, SequenceOffset, Uint32BE(sequence));
    var h2 := WriteAt(h1, SizeOffset, Uint32BE(size));
    var h3 := WriteAt(h2, TimestampOffset, clock);
    WriteAt(h3, FlagsOffset, Uint32BE(FlagWord(isLastChunk)))
  }

  /** The header's byte layout: big-endian sequence and payload length, the
      first half of the timestamp, then the flags word where the second half
      of the timestamp was. */
  function Header(sequence: int, size: int, clock: seq<byte>, isLastChunk: bool): (h: seq<byte>)
    requires |clock| == TimestampWidth
    ensures |h| == HeaderSize
  {
    Uint32BE(sequence) + Uint32BE(size) + clock[..4] + Uint32BE(FlagWord(isLastChunk))
  }

  /** The whole message `createChunkMessage` returns. */
  function EncodeMessage(sequence: int, data: seq<byte>, clock: seq<byte>, isLastChunk: bool): seq<byte>
    requires |clock| == TimestampWidth
  {
    Header(sequence, |data|, clock, isLastChunk) + data
  }

  /** The four writes leave exactly that layout: the flags word, written
      last, overwrites the low half of the timestamp, and nothing else
      overlaps. */
  lemma HeaderWritesLayout(sequence: int, size: int, clock: seq<byte>, isLastChunk: bool)
    requires |clock| == TimestampWidth
    ensures HeaderWrites(sequence, size, clock, isLastChunk) == Header(sequence, size, clock, isLastChunk)
  {
    var h0 := Zeros(HeaderSize);
    var h1 := WriteAt(h0, SequenceOffset, Uint32BE(sequence));
    var h2 := WriteAt(h1, SizeOffset, Uint32BE(size));
    var h3 := WriteAt(h2, TimestampOffset, clock);
    var h := WriteAt(h3, FlagsOffset, Uint32BE(FlagWord(isLastChunk)));
    assert h2[0..4] == h1[0..4] == Uint32BE(sequence);
    assert h3[0..4] == h2[0..4] && h3[4..8] == h2[4..8];
    assert h[0..8] == h3[0..8];
    assert h3[8..12] == clock[..4];
    assert h[8..12] == h3[8..12];
    assert h == h[0..4] + h[4..8] + h[8..12] + h[12..16];
  }

  /** Byte layout of a message, field by field. */
  lemma MessageLayout(sequence: int, data: seq<byte>, clock: seq<byte>, isLastChunk: bool)
    requires |clock| == TimestampWidth
    ensures var m := EncodeMessage(sequence, data, clock, isLastChunk);
      && |m| == HeaderSize + |data|
      && m[0..4] == Uint32BE(sequence)
      && m[4..8] == Uint32BE(|data|)
      && m[8..12] == clock[..4]
      && m[12..16] == Uint32BE(FlagWord(isLastChunk))
      && m[16..] == data
  {
  }

  // ---------------------------------------------------------------------
  // createChunkMessage

  /** `Uint8Array.set` / a DataView setter: copy `bytes` into `view` from `at`. */
  method SetBytes(view: array<byte>, at: nat, bytes: seq<byte>)
    requires at + |bytes| <= view.Length
    modifies view
    ensures view[..] == WriteAt(old(view[..]), at, bytes)
  {
    for i := 0 to |bytes|
      invariant view[..] == old(view[..])[..at] + bytes[..i] + old(view[..])[at + i..]
    {
      view[at + i] := bytes[i];
      assert bytes[..i + 1] == bytes[..i] + [bytes[i]];
    }
    assert bytes[..|bytes|] == bytes;
  }

  /** `DataView.setUint32(at, v)` in the default big-endian order. */
  method SetUint32(view: array<byte>, at: nat, v: int)
    requires at + 4 <= view.Length
    modifies view
    ensures view[..] == WriteAt(old(view[..]), at, Uint32BE(v))
  {
    SetBytes(view, at, Uint32BE(v));
  }

  /** `createChunkMessage(sequence, data, isLastChunk)`, with the clock's
      Float64 encoding given as `clock`. */
  method CreateChunkMessage(sequence: int, data: seq<byte>, clock: seq<byte>, isLastChunk: bool)
    returns (message: array<byte>)
    requires |clock| == TimestampWidth
    ensures fresh(message)
    ensures message[..] == EncodeMessage(sequence, data, clock, isLastChunk)
  {
    var header := new byte[HeaderSize](_ => 0);
    assert header[..] == Zeros(HeaderSize);
    SetUint32(header, SequenceOffset, sequence);
    SetUint32(header, SizeOffset, |data|);
    SetBytes(header, TimestampOffset, clock);
    SetUint32(header, FlagsOffset, if isLastChunk then 1 else 0);
    assert header[..] == HeaderWrites(sequence, |data|, clock, isLastChunk);
    HeaderWritesLayout(sequence, |data|, clock, isLastChunk);
    message := new byte[HeaderSize + |data|](_ => 0);
    SetBytes(message, 0, header[..]);
    SetBytes(message, HeaderSize, data);
    assert message[..] == header[..] + data;
  }

  // ---------------------------------------------------------------------
  // parseChunkMessage

  /** `parseChunkMessage(buffer)`: fails only when the buffer is shorter than
      the header; otherwise reads the three words and slices the payload. */
  function ParseChunkMessage(buffer: seq<byte>): (r: Result<ParsedChunk, FramingError>)
    ensures r.Err? <==> |buffer| < HeaderSize
    ensures r.Err? ==> r.error == HeaderOutOfRange(|buffer|)
    ensures r.Ok? ==> r.value.sequence < Two32 && r.value.size < Two32
    ensures r.Ok? ==> |r.value.timestamp| == TimestampWidth && HeaderSize + |r.value.data| == |buffer|
  {
    if |buffer| < HeaderSize then Err(HeaderOutOfRange(|buffer|))
    else
      Ok(ParsedChunk(ReadUint32BE(buffer, SequenceOffset),
                     ReadUint32BE(buffer, SizeOffset),
                     buffer[TimestampOffset..TimestampOffset + TimestampWidth],
                     ReadUint32BE(buffer, FlagsOffset) != 0,
                     buffer[HeaderSize..]))
  }

  /** Round trip: parsing a created message gives back the sequence number
      modulo 2^32, the payload length modulo 2^32, the last-chunk flag and the
      payload; the timestamp comes back with its low half overwritten by the
      flags word. */
  lemma RoundTrip(sequence: int, data: seq<byte>, clock: seq<byte>, isLastChunk: bool)
    requires |clock| == TimestampWidth
    ensures ParseChunkMessage(EncodeMessage(sequence, data, clock, isLastChunk))
         == Ok(ParsedChunk(sequence % Two32, |data| % Two32, clock[..4] + Uint32BE(FlagWord(isLastChunk)),
                           isLastChunk, data))
  {
    var m := EncodeMessage(sequence, data, clock, isLastChunk);
    MessageLayout(sequence, data, clock, isLastChunk);
    ParseByFields(m);
    Uint32RoundTrip(sequence);
    Uint32RoundTrip(|data|);
    Uint32RoundTrip(FlagWord(isLastChunk));
    assert m[8..16] == m[8..12] + m[12..16];
  }

  /** A successful parse reads each field from its own four-byte slice. */
  lemma ParseByFields(b: seq<byte>)
    requires |b| >= HeaderSize
    ensures ParseChunkMessage(b) == Ok(ParsedChunk(ReadUint32BE(b[0..4], 0), ReadUint32BE(b[4..8], 0), b[8..16],
                                                    ReadUint32BE(b[12..16], 0) != 0, b[16..]))
  {
    ReadAtSlice(b, 0);
    ReadAtSlice(b, 4);
    ReadAtSlice(b, 12);
  }

  /** A 32-bit field read depends only on its four bytes. */
  lemma ReadAtSlice(b: seq<byte>, at: nat)
    requires at + 4 <= |b|
    ensures ReadUint32BE(b, at) == ReadUint32BE(b[at..at + 4], 0)
  {
  }

  /** For in-range values the round trip is exact for sequence and size. */
  lemma RoundTripInRange(sequence: nat, data: seq<byte>, clock: seq<byte>, isLastChunk: bool)
    requires |clock| == TimestampWidth && sequence < Two32 && |data| < Two32
    ensures var r := ParseChunkMessage(EncodeMessage(sequence, data, clock, isLastChunk));
      r.Ok? && r.value.sequence == sequence && r.value.size == |data| &&
      r.value.isLastChunk == isLastChunk && r.value.data == data
  {
    RoundTrip(sequence, data, clock, isLastChunk);
  }

  /** The timestamp does not survive: whenever the clock's low four bytes
      differ from the flags word, the parsed timestamp differs from it. */
  lemma TimestampClobbered(sequence: int, data: seq<byte>, clock: seq<byte>, isLastChunk: bool)
    requires |clock| == TimestampWidth && clock[4..] != Uint32BE(FlagWord(isLastChunk))
    ensures ParseChunkMessage(EncodeMessage(sequence, data, clock, isLastChunk)).value.timestamp != clock
  {
    RoundTrip(sequence, data, clock, isLastChunk);
    var t := clock[..4] + Uint32BE(FlagWord(isLastChunk));
    assert t[4..] == Uint32BE(FlagWord(isLastChunk));
  }

  /** Any non-zero flags word parses as the last chunk. */
  lemma NonzeroFlagsMeanLast(buffer: seq<byte>)
    requires |buffer| >= HeaderSize
    ensures ParseChunkMessage(buffer).value.isLastChunk <==> buffer[12..16] != [0, 0, 0, 0]
  {
    Uint32ZeroIff(buffer, FlagsOffset);
  }

  /** The declared size is never compared with the payload: any 16-byte
      header followed by any payload parses, the payload is every byte after
      the header, and the size is whatever the header says. */
  lemma PayloadLengthUnchecked(header: seq<byte>, payload: seq<byte>)
    requires |header| == HeaderSize
    ensures var r := ParseChunkMessage(header + payload);
      r.Ok? && r.value.data == payload && r.value.size == ReadUint32BE(header, SizeOffset)
  {
    var b := header + payload;
    assert b[HeaderSize..] == payload;
    assert b[4..8] == header[4..8];
    ReadAtSlice(b, SizeOffset);
    ReadAtSlice(header, SizeOffset);
  }

  /** A concrete mismatch that parses without complaint: the header claims
      five payload bytes, none follow. */
  lemma DeclaredSizeMayDisagree()
    ensures var r := ParseChunkMessage(Uint32BE(0) + Uint32BE(5) + Zeros(8));
      r.Ok? && r.value.size == 5 && r.value.data == []
  {
    var h := Uint32BE(0) + Uint32BE(5) + Zeros(8);
    PayloadLengthUnchecked(h, []);
    assert h + [] == h;
    assert h[4..8] == Uint32BE(5);
    ReadAtSlice(h, 4);
    Uint32RoundTrip(5);
  }
}
