/** Splitting a message into chunks that fit a size limit, and numbering messages. */
module ChunkEncoder {
  import opened Common
  import opened ChunkHeader

  /** A message as handed to the worker; the sender ID is kept as its UTF-8 bytes. */
  datatype Message = Message(id: nat, sender: seq<Byte>, data: seq<Byte>, maxSize: int) {
    /** How many bytes of data a chunk has room for. */
    function Room(): int { maxSize - HEADER_SIZE - |sender| }

    /** The number of chunks: the size divided by the room, rounded up. */
    function Total(): nat
      requires Room() > 0
    {
      (|data| + Room() - 1) / Room()
    }

    function Start(k: nat): nat
      requires Room() > 0
    {
      k * Room()
    }

    /** Where the data of chunk k ends. */
    function End(k: nat): nat
      requires Room() > 0
    {
      if Start(k) + Room() <= |data| then Start(k) + Room() else |data|
    }
  }

  /** Chunk k starts inside the data exactly when k is below the number of chunks;
      the chunks that precede it are full. */
  lemma StartsWithin(m: Message, k: nat)
    requires m.Room() > 0
    ensures m.Start(k) < |m.data| <==> k < m.Total()
    ensures k < m.Total() ==> m.Start(k) < m.End(k) <= |m.data|
    ensures k + 1 < m.Total() ==> m.End(k) == m.Start(k) + m.Room() == m.Start(k + 1)
    ensures k + 1 == m.Total() ==> m.End(k) == |m.data|
    ensures k >= m.Total() ==> m.End(k) == |m.data|
  {
    var n, r, t := |m.data|, m.Room(), m.Total();
    CeilBounds(n, r);
    if k + 1 <= t {
      Monotone(k + 1, t, r);
      Monotone(k, t - 1, r);
    } else {
      Monotone(t, k, r);
    }
    assert m.Start(k + 1) == m.Start(k) + r;
    if k + 2 <= t {
      Monotone(k + 2, t, r);
      Monotone(k + 1, t - 1, r);
    }
  }

  lemma CeilBounds(n: nat, r: nat)
    requires r > 0
    ensures var t := (n + r - 1) / r; t * r >= n && (t > 0 ==> (t - 1) * r < n)
  {
    var t := (n + r - 1) / r;
    assert t * r + (n + r - 1) % r == n + r - 1;
    assert t > 0 ==> (t - 1) * r == t * r - r;
  }

  lemma Monotone(a: nat, b: nat, r: nat)
    requires a <= b
    ensures a * r <= b * r
  {
  }

  function HeaderOf(m: Message, k: nat): (h: Header)
    requires m.Room() > 0 && k < m.Total()
    ensures NonNegative(h)
  {
    StartsWithin(m, k);
    Header(m.id, k, m.Total(), |m.sender|, |m.sender| + m.End(k) - m.Start(k), |m.data|)
  }

  /** The data that chunk k carries. */
  function Part(m: Message, k: nat): seq<Byte>
    requires m.Room() > 0 && k < m.Total()
  {
    StartsWithin(m, k);
    m.data[m.Start(k)..m.End(k)]
  }

  /** A chunk is its header, the sender ID and its part of the data. */
  function ChunkBytes(m: Message, k: nat): seq<Byte>
    requires m.Room() > 0 && k < m.Total()
  {
    HeaderBytes(HeaderOf(m, k)) + m.sender + Part(m, k)
  }

  function Chunks(m: Message, n: nat): seq<seq<Byte>>
    requires m.Room() > 0 && n <= m.Total()
  {
    seq(n, k requires 0 <= k < n => ChunkBytes(m, k))
  }

  lemma ChunksGrow(m: Message, n: nat)
    requires m.Room() > 0 && n < m.Total()
    ensures Chunks(m, n + 1) == Chunks(m, n) + [ChunkBytes(m, n)]
  {
  }

  /** The bytes of a buffer after source is copied into it at an offset. */
  function Overwrite(target: seq<Byte>, source: seq<Byte>, offset: nat): (r: seq<Byte>)
    requires offset + |source| <= |target|
    ensures |r| == |target|
  {
    target[..offset] + source + target[offset + |source|..]
  }

  /** TypedArray.set, within bounds. */
  method SetBytes(target: array<Byte>, source: seq<Byte>, offset: nat)
    requires offset + |source| <= target.Length
    modifies target
    ensures target[..] == Overwrite(old(target[..]), source, offset)
  {
    for i := 0 to |source|
      invariant forall j | 0 <= j < target.Length ::
        target[j] == if offset <= j < offset + i then source[j - offset] else old(target[j])
    {
      target[offset + i] := source[i];
    }
  }

  /** Builds one chunk in a fresh buffer. */
  method BuildChunk(headerBytes: array<Byte>, sender: seq<Byte>, part: seq<Byte>) returns (chunk: array<Byte>)
    ensures fresh(chunk) && chunk[..] == headerBytes[..] + sender + part
  {
    chunk := new Byte[headerBytes.Length + |sender| + |part|](_ => 0);
    var writeOffset := 0;
    SetBytes(chunk, headerBytes[..], writeOffset);
    writeOffset := writeOffset + headerBytes.Length;
    assert chunk[..writeOffset] == headerBytes[..];
    SetBytes(chunk, sender, writeOffset);
    writeOffset := writeOffset + |sender|;
    assert chunk[..writeOffset] == headerBytes[..] + sender;
    SetBytes(chunk, part, writeOffset);
  }

  method JoinChunk(header: Header, sender: seq<Byte>, part: seq<Byte>) returns (chunk: seq<Byte>)
    requires NonNegative(header)
    ensures chunk == HeaderBytes(header) + sender + part
  {
    var headerBytes := EncodeHeader(header);
    var built := BuildChunk(headerBytes, sender, part);
    chunk := built[..];
  }

  /** One chunk, from its offset and its size. */
  method MakeChunk(m: Message, chunkNum: nat, totalChunks: nat, readOffset: nat, chunkSizeBytes: nat)
    returns (chunk: seq<Byte>)
    requires m.Room() > 0 && chunkNum < totalChunks == m.Total()
    requires readOffset == m.Start(chunkNum) && chunkSizeBytes == |m.sender| + m.End(chunkNum) - m.Start(chunkNum)
    ensures chunk == ChunkBytes(m, chunkNum)
  {
    StartsWithin(m, chunkNum);
    var header := Header(m.id, chunkNum, totalChunks, |m.sender|, chunkSizeBytes, |m.data|);
    var part := m.data[readOffset..readOffset + chunkSizeBytes - |m.sender|];
    assert header == HeaderOf(m, chunkNum) && part == Part(m, chunkNum);
    chunk := JoinChunk(header, m.sender, part);
  }

  /** The worker: None when a chunk would have no room for data. */
  method Split(m: Message) returns (chunks: Option<seq<seq<Byte>>>)
    ensures chunks == None <==> m.maxSize <= 16 + |m.sender|
    ensures chunks.Some? ==> m.Room() > 0 && chunks.value == Chunks(m, m.Total())
  {
    var totalSizeBytes := |m.data|;
    var maxChunkSize := m.maxSize - HEADER_SIZE;
    var readOffset := 0;
    var senderIdSizeBytes := |m.sender|;
    var dataBytesInChunk := maxChunkSize - senderIdSizeBytes;
    if dataBytesInChunk <= 0 {
      return None;
    }
    var totalChunks := (totalSizeBytes + dataBytesInChunk - 1) / dataBytesInChunk;
    var posted := [];
    var chunkNum := 0;
    StartsWithin(m, 0);
    while readOffset < totalSizeBytes
      invariant chunkNum <= totalChunks == m.Total()
      invariant readOffset == if chunkNum < totalChunks then m.Start(chunkNum) else totalSizeBytes
      invariant posted == Chunks(m, chunkNum)
      decreases totalSizeBytes - readOffset
    {
      StartsWithin(m, chunkNum);
      var chunkSizeBytes :=
        if maxChunkSize < senderIdSizeBytes + totalSizeBytes - readOffset then maxChunkSize
        else senderIdSizeBytes + totalSizeBytes - readOffset;
      var readSize := chunkSizeBytes - senderIdSizeBytes;
      var chunk := MakeChunk(m, chunkNum, totalChunks, readOffset, chunkSizeBytes);
      ChunksGrow(m, chunkNum);
      posted := posted + [chunk];
      readOffset := readOffset + readSize;
      chunkNum := chunkNum + 1;
    }
    StartsWithin(m, chunkNum);
    return Some(posted);
  }

  /** Every chunk fits the limit, all but the last are full, and together they
      carry the data in order. */
  lemma ChunksFit(m: Message, k: nat)
    requires m.Room() > 0 && k < m.Total()
    ensures |ChunkBytes(m, k)| <= m.maxSize
    ensures k + 1 < m.Total() ==> |ChunkBytes(m, k)| == m.maxSize
  {
    StartsWithin(m, k);
  }

  function Payload(m: Message, n: nat): seq<Byte>
    requires m.Room() > 0 && n <= m.Total()
  {
    if n == 0 then []
    else Payload(m, n - 1) + Part(m, n - 1)
  }

  lemma {:induction false} PayloadIsData(m: Message, n: nat)
    requires m.Room() > 0 && n <= m.Total()
    ensures n == 0 ==> Payload(m, n) == []
    ensures n > 0 ==> m.End(n - 1) <= |m.data| && Payload(m, n) == m.data[..m.End(n - 1)]
    ensures n == m.Total() ==> Payload(m, n) == m.data
  {
    if n > 0 {
      PayloadIsData(m, n - 1);
      StartsWithin(m, n - 1);
      if n > 1 {
        StartsWithin(m, n - 2);
      }
    } else {
      StartsWithin(m, 0);
    }
  }

  // -----------------------------------------------------------------------
  // Message IDs
  // -----------------------------------------------------------------------

  const MAX_MESSAGE_ID := 0x1_0000

  function NextId(counter: nat): nat {
    if counter + 1 >= MAX_MESSAGE_ID then 1 else counter + 1
  }

  class Encoder {
    var counter: nat

    constructor ()
      ensures counter == 0
    {
      counter := 0;
    }

    method NewMessageId() returns (messageId: nat)
      modifies this
      ensures counter == messageId == NextId(old(counter))
    {
      counter := counter + 1;
      if counter >= MAX_MESSAGE_ID {
        counter := 1;
      }
      messageId := counter;
    }
  }

  /** The n-th message ID that an encoder gives out, counting from 1. */
  function IdOf(n: nat): nat {
    if n == 0 then 0 else NextId(IdOf(n - 1))
  }

  lemma {:induction false} IdsCycle(n: nat)
    requires n > 0
    ensures IdOf(n) == (n - 1) % 65535 + 1
  {
    if n > 1 {
      IdsCycle(n - 1);
    }
  }

  /** Any 65535 consecutive messages have different IDs, none of them 0 and all of
      them 16-bit; and the 65536th repeats the first. */
  lemma IdsDiffer(a: nat, b: nat)
    requires 0 < a < b
    ensures b - a < 65535 ==> IdOf(a) != IdOf(b)
    ensures b - a == 65535 ==> IdOf(a) == IdOf(b)
    ensures 0 < IdOf(a) < TWO16
  {
    IdsCycle(a);
    IdsCycle(b);
  }
}
