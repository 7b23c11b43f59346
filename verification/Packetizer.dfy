/** The framing of the string multiplexer: a marker byte, the length of the stream
    ID, the stream ID and the data. */
module Packetizer {
  import opened Common

  type Byte = x: int | 0 <= x < 256
  type Bytes = seq<Byte>

  const STRING_MUX_BYTE: Byte := 200
  const MAX_LEN_STREAM_ID := 255

  datatype Packet = Packet(streamID: Bytes, data: Bytes)

  datatype Error = StreamIDTooLarge | InvalidHeader

  datatype Marshalled = Frame(bytes: Bytes) | MarshalError(error: Error)

  datatype Unmarshalled = Parsed(packet: Packet) | ParseError(error: Error)

  function FrameOf(p: Packet): Bytes
    requires |p.streamID| <= MAX_LEN_STREAM_ID
  {
    [STRING_MUX_BYTE, |p.streamID|] + p.streamID + p.data
  }

  method Copy(target: array<Byte>, offset: nat, source: Bytes)
    requires offset + |source| <= target.Length
    modifies target
    ensures target[..] == old(target[..offset]) + source + old(target[offset + |source|..])
  {
    for i := 0 to |source|
      invariant forall j | 0 <= j < target.Length ::
        target[j] == if offset <= j < offset + i then source[j - offset] else old(target[j])
    {
      target[offset + i] := source[i];
    }
  }

  method Marshal(streamID: Bytes, data: Bytes) returns (result: Marshalled)
    ensures |streamID| > MAX_LEN_STREAM_ID ==> result == MarshalError(StreamIDTooLarge)
    ensures |streamID| <= MAX_LEN_STREAM_ID ==> result == Frame(FrameOf(Packet(streamID, data)))
    ensures |streamID| <= 255 <==> result.Frame?
    ensures result.Frame? ==> result.bytes == [200, |streamID|] + streamID + data
  {
    var lenStreamID := |streamID|;
    if lenStreamID > MAX_LEN_STREAM_ID {
      return MarshalError(StreamIDTooLarge);
    }
    var buffer := new Byte[2 + lenStreamID + |data|](_ => 0);
    var offset := 0;
    buffer[offset] := STRING_MUX_BYTE;
    offset := offset + 1;
    buffer[offset] := lenStreamID;
    offset := offset + 1;
    assert buffer[..2] == [STRING_MUX_BYTE, lenStreamID];
    Copy(buffer, offset, streamID);
    offset := offset + lenStreamID;
    assert buffer[..offset] == [STRING_MUX_BYTE, lenStreamID] + streamID;
    Copy(buffer, offset, data);
    return Frame(buffer[..]);
  }

  function Unmarshal(data: Bytes): Unmarshalled {
    if |data| < 2 || data[0] != STRING_MUX_BYTE then ParseError(InvalidHeader)
    else
      var end: int := data[1] as int + 2;
      if |data| < end then ParseError(InvalidHeader)
      else Parsed(Packet(data[2..end], data[end..]))
  }

  /** Framing and parsing are inverse to each other, both ways. */
  lemma FramesRoundTrip(p: Packet, data: Bytes)
    ensures |p.streamID| <= MAX_LEN_STREAM_ID ==> Unmarshal(FrameOf(p)) == Parsed(p)
    ensures Unmarshal(data) == Parsed(p) <==> |p.streamID| <= MAX_LEN_STREAM_ID && data == FrameOf(p)
  {
    if |p.streamID| <= MAX_LEN_STREAM_ID {
      var f := FrameOf(p);
      assert f[2..2 + |p.streamID|] == p.streamID && f[2 + |p.streamID|..] == p.data;
    }
    if Unmarshal(data) == Parsed(p) {
      var end: int := data[1] as int + 2;
      assert data == [data[0], data[1]] + data[2..end] + data[end..];
    }
  }
}
