/**
 * The receive side of the framing: the header decode and size check of
 * `FixerClient.ReceiveLoop`, the loop as a parser over the bytes the socket
 * delivers, and `ReadExact` over the sizes of successive socket reads.
 */
module FrameReceiver {
  import opened Wrappers
  import opened Bytes
  import opened NetCommon
  import opened ProtobufPacket

  datatype Header = Header(pktId: UInt16, size: UInt16)

  /** One decoded frame, as queued for the main thread. */
  datatype Frame = Frame(pktId: UInt16, body: seq<Byte>)

  /** Why the receive loop stopped; every exit is followed by `Disconnect`. */
  datatype LoopExit =
    | HeaderShort            // the stream ended inside (or before) a header
    | BadSize(size: UInt16)  // the size field is below the header size or above the maximum
    | BodyShort              // the stream ended inside a body

  datatype Received = Received(frames: seq<Frame>, exit: LoopExit)

  /** `BitConverter.ToUInt16` at offsets 0 and 2 of the header buffer. */
  function DecodeHeader(h: seq<Byte>): (r: Header)
    requires |h| == HeaderSize
    ensures r.pktId == IdField(h) && r.size == SizeField(h)
  {
    Header(BytesToUInt16(h[0], h[1]), BytesToUInt16(h[2], h[3]))
  }

  /**
   * The body length `size - HeaderSize`, or `None` when the loop breaks:
   * a negative body length or a size above the maximum.
   */
  function BodyLength(h: Header): (r: Option<nat>)
    ensures r.Some? <==> HeaderSize <= h.size <= MaxReceiveBufferLen
    ensures r.Some? ==> r.value + HeaderSize == h.size && r.value <= MaxBodyLen
  {
    var bodySize := h.size - HeaderSize;
    if bodySize < 0 || h.size > MaxReceiveBufferLen then None else Some(bodySize)
  }

  /** A frame the encoder can produce: its body fits under the size limit. */
  predicate Encodable(f: Frame)
  {
    HeaderSize + |f.body| <= MaxReceiveBufferLen
  }

  /** The bytes `Build` writes for a frame. */
  function Encode(f: Frame): (r: seq<Byte>)
    requires Encodable(f)
    ensures |r| == HeaderSize + |f.body|
  {
    Build(f.pktId, Some(f.body)).value
  }

  /** The bytes of a sequence of frames written back to back. */
  function EncodeAll(fs: seq<Frame>): (r: seq<Byte>)
    requires forall i :: 0 <= i < |fs| ==> Encodable(fs[i])
  {
    if fs == [] then [] else Encode(fs[0]) + EncodeAll(fs[1..])
  }

  /**
   * The receive loop over the complete byte stream the socket delivers before
   * it closes: read 4 header bytes, decode, check the size, read the body
   * (none when it is empty), queue the frame, repeat.
   * Every frame it yields is one the encoder could have produced, and the
   * frames re-encode to exactly the bytes the loop consumed.
   */
  function ReceiveAll(stream: seq<Byte>): (r: Received)
    ensures forall i :: 0 <= i < |r.frames| ==> Encodable(r.frames[i])
    ensures |EncodeAll(r.frames)| <= |stream|
    ensures EncodeAll(r.frames) == stream[..|EncodeAll(r.frames)|]
    decreases |stream|
  {
    if |stream| < HeaderSize then
      Received([], HeaderShort)
    else
      var h := DecodeHeader(stream[..HeaderSize]);
      match BodyLength(h)
      case None => Received([], BadSize(h.size))
      case Some(n) =>
        if |stream| - HeaderSize < n then
          Received([], BodyShort)
        else
          var f := Frame(h.pktId, stream[HeaderSize..HeaderSize + n]);
          var rest := ReceiveAll(stream[HeaderSize + n..]);
          EncodeMatchesStream(stream, h, n);
          assert EncodeAll([f] + rest.frames) == Encode(f) + EncodeAll(rest.frames) by {
            assert ([f] + rest.frames)[1..] == rest.frames;
          }
          Received([f] + rest.frames, rest.exit)
  }

  /** The bytes `Build` writes for a decoded frame are the bytes it was decoded from. */
  lemma EncodeMatchesStream(stream: seq<Byte>, h: Header, n: nat)
    requires |stream| >= HeaderSize + n
    requires h == DecodeHeader(stream[..HeaderSize])
    requires BodyLength(h) == Some(n)
    ensures Encodable(Frame(h.pktId, stream[HeaderSize..HeaderSize + n]))
    ensures Encode(Frame(h.pktId, stream[HeaderSize..HeaderSize + n])) == stream[..HeaderSize + n]
  {
    var f := Frame(h.pktId, stream[HeaderSize..HeaderSize + n]);
    var e := Encode(f);
    BytesRoundTrip(stream[0], stream[1]);
    BytesRoundTrip(stream[2], stream[3]);
    assert e[..2] == UInt16ToBytes(h.pktId);
    assert e[2..4] == UInt16ToBytes(h.size);
    assert e[..HeaderSize] == stream[..HeaderSize];
    assert e[HeaderSize..] == stream[HeaderSize..HeaderSize + n];
  }

  /** Decoding the start of an encoded frame recovers its id and its total size. */
  lemma HeaderRoundTrip(f: Frame, tail: seq<Byte>)
    requires Encodable(f)
    ensures DecodeHeader((Encode(f) + tail)[..HeaderSize]) == Header(f.pktId, HeaderSize + |f.body|)
    ensures BodyLength(Header(f.pktId, HeaderSize + |f.body|)) == Some(|f.body|)
  {
    var e := Encode(f);
    assert (e + tail)[..HeaderSize] == e[..HeaderSize];
  }

  /** One encoded frame in front of any stream is received as that frame, then the rest. */
  lemma ReceiveFrameThenRest(f: Frame, tail: seq<Byte>)
    requires Encodable(f)
    ensures ReceiveAll(Encode(f) + tail) ==
      Received([f] + ReceiveAll(tail).frames, ReceiveAll(tail).exit)
  {
    var s := Encode(f) + tail;
    var n := |f.body|;
    HeaderRoundTrip(f, tail);
    var e := Encode(f);
    assert s[HeaderSize..HeaderSize + n] == e[HeaderSize..] == f.body;
    assert s[HeaderSize + n..] == tail;
  }

  /**
   * Round trip: a stream made of encoded frames is received as exactly those
   * frames, and the loop then stops at the end of the stream.
   */
  lemma {:induction false} ReceiveAllEncoded(fs: seq<Frame>)
    requires forall i :: 0 <= i < |fs| ==> Encodable(fs[i])
    ensures ReceiveAll(EncodeAll(fs)) == Received(fs, HeaderShort)
  {
    if fs == [] {
      assert EncodeAll(fs) == [];
    } else {
      ReceiveAllEncoded(fs[1..]);
      ReceiveFrameThenRest(fs[0], EncodeAll(fs[1..]));
      assert [fs[0]] + fs[1..] == fs;
    }
  }

  /** A header whose size field is out of range ends the loop before any body byte is read. */
  lemma BadSizeStopsBeforeBody(stream: seq<Byte>)
    requires |stream| >= HeaderSize
    requires var s := SizeField(stream); s < HeaderSize || s > MaxReceiveBufferLen
    ensures ReceiveAll(stream) == Received([], BadSize(SizeField(stream)))
  {
  }

  /** A header claiming 5000 bytes (`0x88, 0x13` little-endian) ends the connection. */
  lemma OversizeHeaderScenario(pktId: UInt16, rest: seq<Byte>)
    ensures ReceiveAll(UInt16ToBytes(pktId) + [0x88, 0x13] + rest) == Received([], BadSize(5000))
  {
    var s := UInt16ToBytes(pktId) + [0x88, 0x13] + rest;
    assert s[2] == 0x88 && s[3] == 0x13;
    BadSizeStopsBeforeBody(s);
  }

  // ---------------------------------------------------------------------
  // ReadExact over the sizes of successive socket reads
  // ---------------------------------------------------------------------

  /**
   * The bytes the socket hands over before it first reports end of stream:
   * `chunks[i]` is how many bytes the i-th read finds ready, 0 meaning the
   * connection ended; reads past the end of `chunks` find the end too.
   */
  function Delivered(chunks: seq<nat>): nat
  {
    if chunks == [] || chunks[0] == 0 then 0 else chunks[0] + Delivered(chunks[1..])
  }

  /**
   * `ReadExact(buf, size)`: reads until `size` bytes are in, each read asking
   * for at most the bytes still missing; gives up on the first read that
   * returns no bytes. `requests` lists the count passed to each read.
   */
  method ReadExact(chunks: seq<nat>, size: nat) returns (ok: bool, read: nat, requests: seq<nat>)
    ensures ok <==> Delivered(chunks) >= size
    ensures ok ==> read == size
    ensures !ok ==> read == Delivered(chunks) < size
    ensures forall j :: 0 <= j < |requests| ==> 0 < requests[j] <= size
    ensures |requests| <= |chunks| + 1
  {
    read := 0;
    requests := [];
    var i := 0;
    while read < size
      invariant 0 <= i <= |chunks|
      invariant 0 <= read <= size
      invariant |requests| == i
      invariant forall j :: 0 <= j < |requests| ==> 0 < requests[j] <= size
      invariant read < size ==> Delivered(chunks) == read + Delivered(chunks[i..])
      invariant read == size ==> Delivered(chunks) >= size
    {
      var want := size - read;
      requests := requests + [want];
      var r := if i < |chunks| then (if chunks[i] < want then chunks[i] else want) else 0;
      if r <= 0 {
        assert Delivered(chunks[i..]) == 0;
        return false, read, requests;
      }
      assert Delivered(chunks[i..]) == chunks[i] + Delivered(chunks[i + 1..]);
      read := read + r;
      i := i + 1;
    }
    ok := true;
  }
}
