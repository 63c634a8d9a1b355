/**
 The bytes of a ratchet message (native-crypto/src/double_ratchet.rs): four bytes of little-endian header
 length, the header, the sealed body.
*/
module RatchetWire {
  import opened LittleEndian
  import opened PrimeField

  datatype Parts = Parts(header: Bytes, body: Bytes)

  datatype Split = Malformed | Split(parts: Parts)

  const LENGTH_BYTES: nat := 4
  const U32: nat := 0x1_0000_0000

  /** The length is cut to 32 bits. */
  function Frame(header: Bytes, body: Bytes): Bytes {
    ToLE(|header| % U32, LENGTH_BYTES) + header + body
  }

  function Parse(message: Bytes): Split {
    if |message| < LENGTH_BYTES then Malformed
    else
      var headerLen := FromLE(message[..LENGTH_BYTES]);
      if |message| < LENGTH_BYTES + headerLen then Malformed
      else Split(Parts(message[LENGTH_BYTES..LENGTH_BYTES + headerLen], message[LENGTH_BYTES + headerLen..]))
  }

  lemma LengthFits()
    ensures Pow(256, LENGTH_BYTES) == U32
  {
    assert Pow(256, 2) == 0x1_0000 && Pow(256, 3) == 0x100_0000;
  }

  /** A framed message is taken apart again exactly when its header is shorter than 4 GiB. */
  lemma ParseFrameIff(header: Bytes, body: Bytes)
    ensures Parse(Frame(header, body)) == Split(Parts(header, body)) <==> |header| < U32
  {
    var message := Frame(header, body);
    var len := |header| % U32;
    LengthFits();
    LittleEndianRoundTrip(len, LENGTH_BYTES);
    assert message[..LENGTH_BYTES] == ToLE(len, LENGTH_BYTES);
    if |header| < U32 {
      assert message[LENGTH_BYTES..LENGTH_BYTES + len] == header;
      assert message[LENGTH_BYTES + len..] == body;
    }
  }

  /** Whatever parses is the frame of its parts, so different messages never have the same parts. */
  lemma FrameParse(message: Bytes)
    requires Parse(message).Split?
    ensures message == Frame(Parse(message).parts.header, Parse(message).parts.body)
  {
    var length := message[..LENGTH_BYTES];
    LengthFits();
    LittleEndianExact(length);
    var parts := Parse(message).parts;
    assert message == length + parts.header + parts.body;
  }
}
