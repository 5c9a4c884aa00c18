/** The frame encoder: `ProtobufPacket.Build`. */
module ProtobufPacket {
  import opened Wrappers
  import opened Bytes
  import opened NetCommon

  /** The exception `Build` throws for a frame over the size limit, with the size it computed. */
  datatype BuildError = PacketTooLarge(size: int)

  /**
   * The serialized message: a `null` message contributes an empty body;
   * otherwise the protobuf serialization, which the model takes as given bytes.
   */
  function BodyOf(msg: Option<seq<Byte>>): seq<Byte>
  {
    msg.GetOr([])
  }

  /** The size field a frame carries, read the way the receive loop reads it. */
  function SizeField(frame: seq<Byte>): UInt16
    requires |frame| >= HeaderSize
  {
    BytesToUInt16(frame[2], frame[3])
  }

  /** The id field a frame carries, read the way the receive loop reads it. */
  function IdField(frame: seq<Byte>): UInt16
    requires |frame| >= HeaderSize
  {
    BytesToUInt16(frame[0], frame[1])
  }

  /**
   * Header (little-endian id, little-endian total size) followed by the body.
   * The `(ushort)size` cast is written out; it never loses bits because the
   * size check runs first.
   */
  function Build(pktId: UInt16, msg: Option<seq<Byte>>): (r: Result<seq<Byte>, BuildError>)
    ensures r.Failure? <==> HeaderSize + |BodyOf(msg)| > MaxReceiveBufferLen
    ensures r.Failure? ==> r.error == PacketTooLarge(HeaderSize + |BodyOf(msg)|)
    ensures r.Success? ==>
      && |r.value| == HeaderSize + |BodyOf(msg)|
      && |r.value| <= MaxReceiveBufferLen
      && IdField(r.value) == pktId
      && SizeField(r.value) == |r.value|
      && r.value[HeaderSize..] == BodyOf(msg)
  {
    var body := BodyOf(msg);
    var size := HeaderSize + |body|;
    if size > MaxReceiveBufferLen then
      Failure(PacketTooLarge(size))
    else
      UInt16RoundTrip(pktId);
      UInt16RoundTrip(TruncateToUInt16(size));
      var buffer := UInt16ToBytes(pktId) + UInt16ToBytes(TruncateToUInt16(size)) + body;
      assert buffer[HeaderSize..] == body;
      Success(buffer)
  }

  /** A `null` message is sent as a bare 4-byte header whose size field says 4. */
  lemma NullMessageIsBareHeader(pktId: UInt16)
    ensures Build(pktId, None).Success?
    ensures |Build(pktId, None).value| == HeaderSize
    ensures SizeField(Build(pktId, None).value) == HeaderSize
    ensures IdField(Build(pktId, None).value) == pktId
  {
  }

  /** The boundary: a 2044-byte body fills a 2048-byte frame exactly; one more byte is refused. */
  lemma SizeLimitBoundary(pktId: UInt16, body: seq<Byte>)
    ensures |body| == MaxBodyLen ==> Build(pktId, Some(body)).Success? && |Build(pktId, Some(body)).value| == 2048
    ensures |body| == MaxBodyLen + 1 ==> Build(pktId, Some(body)) == Failure(PacketTooLarge(2049))
  {
  }
}
