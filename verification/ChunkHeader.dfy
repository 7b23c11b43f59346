/** The 16-byte header of a data-channel chunk. */
module ChunkHeader {

  type Byte = x: int | 0 <= x < 256

  const HEADER_SIZE := 16

  datatype Header = Header(
    messageId: int, chunkNum: int, totalChunks: int, senderIdSizeBytes: int, chunkSizeBytes: int, totalSizeBytes: int)

  const TWO16 := 0x1_0000
  const TWO24 := 0x100_0000
  const TWO31 := 0x8000_0000
  const TWO32 := 0x1_0000_0000

  /** The 16-bit fields and the two 31-bit sizes are in range. */
  predicate Fits(h: Header) {
    && 0 <= h.messageId < TWO16 && 0 <= h.chunkNum < TWO16
    && 0 <= h.totalChunks < TWO16 && 0 <= h.senderIdSizeBytes < TWO16
    && 0 <= h.chunkSizeBytes < TWO31 && 0 <= h.totalSizeBytes < TWO31
  }

  predicate NonNegative(h: Header) {
    && 0 <= h.messageId && 0 <= h.chunkNum && 0 <= h.totalChunks && 0 <= h.senderIdSizeBytes
    && 0 <= h.chunkSizeBytes && 0 <= h.totalSizeBytes
  }

  /** (x & 0xFF00) >> 8 and its relatives, for the k-th byte from the right. */
  function Byte0(x: nat): Byte { x % 0x100 }
  function Byte1(x: nat): Byte { x / 0x100 % 0x100 }
  function Byte2(x: nat): Byte { x / TWO16 % 0x100 }
  /** (x & 0x7F000000) >> 24. */
  function Byte3(x: nat): Byte { x / TWO24 % 0x80 }

  function HeaderBytes(h: Header): (data: seq<Byte>)
    requires NonNegative(h)
  {
    [Byte1(h.messageId), Byte0(h.messageId), Byte1(h.chunkNum), Byte0(h.chunkNum),
     Byte1(h.totalChunks), Byte0(h.totalChunks), Byte1(h.senderIdSizeBytes), Byte0(h.senderIdSizeBytes),
     Byte3(h.chunkSizeBytes), Byte2(h.chunkSizeBytes), Byte1(h.chunkSizeBytes), Byte0(h.chunkSizeBytes),
     Byte3(h.totalSizeBytes), Byte2(h.totalSizeBytes), Byte1(h.totalSizeBytes), Byte0(h.totalSizeBytes)]
  }

  method EncodeHeader(header: Header) returns (data: array<Byte>)
    requires NonNegative(header)
    ensures fresh(data) && data[..] == HeaderBytes(header)
  {
    data := new Byte[16];
    data[0] := Byte1(header.messageId);
    data[1] := Byte0(header.messageId);
    data[2] := Byte1(header.chunkNum);
    data[3] := Byte0(header.chunkNum);
    data[4] := Byte1(header.totalChunks);
    data[5] := Byte0(header.totalChunks);
    data[6] := Byte1(header.senderIdSizeBytes);
    data[7] := Byte0(header.senderIdSizeBytes);
    data[8] := Byte3(header.chunkSizeBytes);
    data[9] := Byte2(header.chunkSizeBytes);
    data[10] := Byte1(header.chunkSizeBytes);
    data[11] := Byte0(header.chunkSizeBytes);
    data[12] := Byte3(header.totalSizeBytes);
    data[13] := Byte2(header.totalSizeBytes);
    data[14] := Byte1(header.totalSizeBytes);
    data[15] := Byte0(header.totalSizeBytes);
  }

  /** The number that bytes denote, most significant first. */
  function BigEndian(data: seq<Byte>): nat {
    if data == [] then 0 else BigEndian(data[..|data| - 1]) * 0x100 + data[|data| - 1]
  }

  lemma BigEndian2(a: Byte, b: Byte)
    ensures BigEndian([a, b]) == a * 0x100 + b
  {
    assert [a, b][..1] == [a];
    assert BigEndian([a]) == a by {
      assert [a][..0] == [];
    }
  }

  lemma BigEndian4(a: Byte, b: Byte, c: Byte, d: Byte)
    ensures BigEndian([a, b, c, d]) == a * TWO24 + b * TWO16 + c * 0x100 + d
  {
    assert [a, b, c, d][..3] == [a, b, c];
    assert [a, b, c][..2] == [a, b];
    BigEndian2(a, b);
  }

  /** The documented layout: four big-endian 16-bit fields, then two 32-bit fields whose
      top bit is clear. */
  lemma HeaderLayout(h: Header)
    requires NonNegative(h)
    ensures var data := HeaderBytes(h);
      && |data| == 16
      && BigEndian(data[0..2]) == h.messageId % TWO16 && BigEndian(data[2..4]) == h.chunkNum % TWO16
      && BigEndian(data[4..6]) == h.totalChunks % TWO16 && BigEndian(data[6..8]) == h.senderIdSizeBytes % TWO16
      && BigEndian(data[8..12]) == h.chunkSizeBytes % TWO31 && BigEndian(data[12..16]) == h.totalSizeBytes % TWO31
  {
    var data := HeaderBytes(h);
    Field16(data, 0, h.messageId);
    Field16(data, 2, h.chunkNum);
    Field16(data, 4, h.totalChunks);
    Field16(data, 6, h.senderIdSizeBytes);
    Field31(data, 8, h.chunkSizeBytes);
    Field31(data, 12, h.totalSizeBytes);
  }

  lemma Field16(data: seq<Byte>, i: nat, x: nat)
    requires i + 2 <= |data| && data[i] == Byte1(x) && data[i + 1] == Byte0(x)
    ensures BigEndian(data[i..i + 2]) == x % TWO16
  {
    assert data[i..i + 2] == [data[i], data[i + 1]];
    BigEndian2(data[i], data[i + 1]);
    Join16(x);
  }

  lemma Field31(data: seq<Byte>, i: nat, x: nat)
    requires i + 4 <= |data| && data[i] == Byte3(x) && data[i + 1] == Byte2(x)
    requires data[i + 2] == Byte1(x) && data[i + 3] == Byte0(x)
    ensures BigEndian(data[i..i + 4]) == x % TWO31
  {
    assert data[i..i + 4] == [data[i], data[i + 1], data[i + 2], data[i + 3]];
    BigEndian4(data[i], data[i + 1], data[i + 2], data[i + 3]);
    Join31(x);
  }

  /** Reading past the end of a typed array counts as zero in a bitwise expression. */
  function At(data: seq<Byte>, i: nat): Byte {
    if i < |data| then data[i] else 0
  }

  function Read16(data: seq<Byte>, i: nat): int {
    At(data, i) * 0x100 + At(data, i + 1)
  }

  /** A shift by 24 produces a signed 32-bit number. */
  function Read32(data: seq<Byte>, i: nat): int {
    var x := At(data, i) * TWO24 + At(data, i + 1) * TWO16 + At(data, i + 2) * 0x100 + At(data, i + 3);
    if x < TWO31 then x else x - TWO32
  }

  function DecodeHeader(data: seq<Byte>): Header {
    Header(Read16(data, 0), Read16(data, 2), Read16(data, 4), Read16(data, 6), Read32(data, 8), Read32(data, 12))
  }

  // -----------------------------------------------------------------------
  // Round trip
  // -----------------------------------------------------------------------

  /** Missing bytes count as zeros. */
  lemma ShortHeaderReadsZeros(data: seq<Byte>)
    ensures DecodeHeader(data) == DecodeHeader(data + [0])
  {
    assert forall i: nat :: At(data, i) == At(data + [0], i);
  }

  lemma Join16(x: nat)
    ensures Byte1(x) * 0x100 + Byte0(x) == x % TWO16
  {
    var a := x / 0x100;
    assert x == a * 0x100 + x % 0x100;
    assert a == (a / 0x100) * 0x100 + a % 0x100;
    assert x / TWO16 == a / 0x100;
  }

  lemma Join31(x: nat)
    ensures Byte3(x) * TWO24 + Byte2(x) * TWO16 + Byte1(x) * 0x100 + Byte0(x) == x % TWO31
  {
    var a, b, c := x / 0x100, x / TWO16, x / TWO24;
    assert x == a * 0x100 + x % 0x100;
    assert b == a / 0x100 && a == b * 0x100 + a % 0x100;
    assert c == b / 0x100 && b == c * 0x100 + b % 0x100;
    assert c == (c / 0x80) * 0x80 + c % 0x80;
    assert x / TWO31 == c / 0x80;
  }

  lemma Read16Bytes(data: seq<Byte>, i: nat, x: nat)
    requires At(data, i) == Byte1(x) && At(data, i + 1) == Byte0(x)
    ensures Read16(data, i) == x % TWO16
  {
    Join16(x);
  }

  lemma Read32Bytes(data: seq<Byte>, i: nat, x: nat)
    requires At(data, i) == Byte3(x) && At(data, i + 1) == Byte2(x)
    requires At(data, i + 2) == Byte1(x) && At(data, i + 3) == Byte0(x)
    ensures Read32(data, i) == x % TWO31
  {
    Join31(x);
  }

  /** What survives of a header: the low bits of each field. */
  function Truncated(h: Header): Header
    requires NonNegative(h)
  {
    Header(h.messageId % TWO16, h.chunkNum % TWO16, h.totalChunks % TWO16, h.senderIdSizeBytes % TWO16,
           h.chunkSizeBytes % TWO31, h.totalSizeBytes % TWO31)
  }

  lemma TruncatedWhenFits(h: Header)
    requires NonNegative(h)
    ensures Truncated(h) == h <==> Fits(h)
  {
  }

  lemma HeaderFirst(h: Header, rest: seq<Byte>, i: nat)
    requires NonNegative(h) && i < HEADER_SIZE
    ensures At(HeaderBytes(h) + rest, i) == HeaderBytes(h)[i]
  {
  }

  /** Decoding the first bytes of a chunk returns the header, with each field cut to
      its width; and returns the header itself exactly when the fields fit. */
  lemma HeaderRoundTrips(h: Header, rest: seq<Byte>)
    requires NonNegative(h)
    ensures DecodeHeader(HeaderBytes(h) + rest) == Truncated(h)
    ensures DecodeHeader(HeaderBytes(h) + rest) == h <==> Fits(h)
  {
    var data := HeaderBytes(h) + rest;
    assert Read16(data, 0) == h.messageId % TWO16 by {
      HeaderFirst(h, rest, 0); HeaderFirst(h, rest, 1);
      Read16Bytes(data, 0, h.messageId);
    }
    assert Read16(data, 2) == h.chunkNum % TWO16 by {
      HeaderFirst(h, rest, 2); HeaderFirst(h, rest, 3);
      Read16Bytes(data, 2, h.chunkNum);
    }
    assert Read16(data, 4) == h.totalChunks % TWO16 by {
      HeaderFirst(h, rest, 4); HeaderFirst(h, rest, 5);
      Read16Bytes(data, 4, h.totalChunks);
    }
    assert Read16(data, 6) == h.senderIdSizeBytes % TWO16 by {
      HeaderFirst(h, rest, 6); HeaderFirst(h, rest, 7);
      Read16Bytes(data, 6, h.senderIdSizeBytes);
    }
    assert Read32(data, 8) == h.chunkSizeBytes % TWO31 by {
      HeaderFirst(h, rest, 8); HeaderFirst(h, rest, 9); HeaderFirst(h, rest, 10); HeaderFirst(h, rest, 11);
      Read32Bytes(data, 8, h.chunkSizeBytes);
    }
    assert Read32(data, 12) == h.totalSizeBytes % TWO31 by {
      HeaderFirst(h, rest, 12); HeaderFirst(h, rest, 13); HeaderFirst(h, rest, 14); HeaderFirst(h, rest, 15);
      Read32Bytes(data, 12, h.totalSizeBytes);
    }
    TruncatedWhenFits(h);
  }
}
