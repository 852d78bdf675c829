/** The wire format of the RS-485 link: 0x55, then COBS( type, sequence number, payload, CRC high byte
    first ), then the delimiter 0x00. */
module Frames {
  import opened Bytes
  import opened Crc16
  import opened CrcDetection
  import opened Cobs
  import opened CobsTheorems
  import opened Wrappers

  const SOF: byte := 0x55
  const DATA: byte := 0x01
  const ACK: byte := 0x02
  const NACK: byte := 0x03
  const MAX_PAYLOAD: nat := 128

  datatype Frame = Frame(kind: byte, number: byte, payload: seq<byte>)

  /** The bytes that are stuffed: header, payload and checksum. */
  function Raw(f: Frame): (raw: seq<byte>)
    ensures |raw| == |f.payload| + 4
  {
    Sealed([f.kind, f.number] + f.payload)
  }

  function Wire(f: Frame): seq<byte> {
    [SOF] + Encoded(Raw(f))
  }

  function Control(kind: byte, number: byte): Frame {
    Frame(kind, number, [])
  }

  /** What a receiver concludes from the bytes between start byte and delimiter. */
  datatype Verdict = Malformed | Corrupt(number: byte) | Good(frame: Frame)

  function Judge(raw: seq<byte>): Verdict {
    if |raw| < 4 then Malformed
    else if !Check(raw) then Corrupt(raw[1])
    else Good(Frame(raw[0], raw[1], raw[2..|raw| - 2]))
  }

  function Inspect(chunk: seq<byte>): Verdict {
    match Decoded(chunk)
    case None => Malformed
    case Some(raw) => Judge(raw)
  }

  lemma RawJudged(f: Frame)
    ensures Judge(Raw(f)) == Good(f)
  {
    var head := [f.kind, f.number] + f.payload;
    SealedChecks(head);
    assert Raw(f)[2..|Raw(f)| - 2] == f.payload;
  }

  /** A receiver reads from a frame on the wire exactly the frame that was sent. */
  lemma FrameRoundTrip(f: Frame)
    ensures Inspect(Encoded(Raw(f))) == Good(f)
  {
    EncodedDecodes(Raw(f));
    RawJudged(f);
  }

  /** What a frame puts on the wire: the start byte, the stuffed bytes without a zero, and the delimiter; unstuffed they
      are the type, the number, the payload and the checksum of these. */
  lemma WireLayout(f: Frame)
    ensures var wire, n, raw := Wire(f), |f.payload|, Decoded(Wire(f)[1..]);
            && wire[0] == 0x55 && wire[|wire| - 1] == 0x00 && NoZero(wire[..|wire| - 1])
            && raw.Some? && |raw.value| == n + 4
            && raw.value[0] == f.kind && raw.value[1] == f.number && raw.value[2..n + 2] == f.payload
            && ((raw.value[n + 2] as bv16) << 8) | (raw.value[n + 3] as bv16) == Crc(raw.value[..n + 2])
  {
    hide Crc, Decoded, Stuffed, Check;
    var head := [f.kind, f.number] + f.payload;
    var body := EncodedShape(Raw(f));
    EncodedDecodes(Raw(f));
    SealedChecks(head);
    CheckIsJoin(Raw(f));
    assert Wire(f)[1..] == Encoded(Raw(f)) && Wire(f)[..|Wire(f)| - 1] == [SOF] + body;
    assert Raw(f)[2..|f.payload| + 2] == f.payload;
  }

  lemma CheckIsJoin(raw: seq<byte>)
    requires |raw| >= 2 && Check(raw)
    ensures ((raw[|raw| - 2] as bv16) << 8) | (raw[|raw| - 1] as bv16) == Crc(raw[..|raw| - 2])
  {
    hide Crc;
  }

  /** Only the raw bytes of a frame are judged good as that frame. */
  lemma GoodMeansRaw(raw: seq<byte>, f: Frame)
    ensures Judge(raw) == Good(f) <==> raw == Raw(f)
  {
    RawJudged(f);
    if Judge(raw) == Good(f) {
      CheckMeansSealed(raw);
      assert raw[..|raw| - 2] == [f.kind, f.number] + f.payload;
    }
  }

  lemma InspectGood(chunk: seq<byte>, f: Frame)
    ensures Inspect(chunk) == Good(f) <==> Decoded(chunk) == Some(Raw(f))
  {
    if Decoded(chunk).Some? {
      GoodMeansRaw(Decoded(chunk).value, f);
    }
  }

  /** A chunk is the encoding of a message: no zero but the last byte. */
  lemma EncodedShape(x: seq<byte>) returns (body: seq<byte>)
    ensures body == Stuffed(x) && NoZero(body) && |body| > 0 && Encoded(x) == body + [0]
  {
    NoZeroInside(x);
    StuffedNonempty(x);
    body := Stuffed(x);
  }

  /** Control frames take six bytes after the start byte, and no frame outgrows its buffer. */
  lemma WireSize(f: Frame)
    requires |f.payload| <= 128
    ensures |Encoded(Raw(f))| == |f.payload| + 6
  {
    EncodedSize(Raw(f));
  }
}
