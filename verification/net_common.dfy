/** The framing constants shared by the encoder and the receive loop. */
module NetCommon {

  /** A header is a 2-byte packet id followed by a 2-byte total packet size. */
  const HeaderSize: nat := 4

  /** The largest frame, header included, either side accepts. */
  const MaxReceiveBufferLen: nat := 2048

  /** The largest body a frame can carry. */
  const MaxBodyLen: nat := MaxReceiveBufferLen - HeaderSize

  lemma MaxBodyIs2044()
    ensures MaxBodyLen == 2044
    ensures HeaderSize + MaxBodyLen == MaxReceiveBufferLen
  {
  }
}
