/** The stop-and-wait driver of src/drivers/rs485_protocol.cpp. */
module Rs485Protocol {
  import opened Bytes
  import opened Crc16
  import opened CrcDetection
  import opened Cobs
  import opened CobsTheorems
  import opened Frames
  import opened Link
  import opened Wrappers

  const MAX_RETRIES: nat := 3
  const ACK_CHUNK: nat := 16
  const FRAME_CHUNK: nat := 256

  // ---- What the driver does, step by step ----

  predicate IsAck(v: Verdict, number: byte) {
    v.Good? && v.frame.kind == ACK && v.frame.number == number
  }

  /** Waiting for an acknowledgement looks at one chunk. */
  function AwaitAck(line: Line, number: byte): Outcome {
    match Collect(line.rx, false, [], ACK_CHUNK)
    case TimedOut(rest) => Outcome(false, line.(rx := rest))
    case Chunk(chunk, rest) => Outcome(IsAck(Inspect(chunk), number), line.(rx := rest))
  }

  /** A step of the driver: what happens to the line, and whether it went well. */
  type Step = Line -> Outcome

  function Sender(env: Env, wire: seq<byte>): Step {
    (line: Line) => Transmit(env, line, wire)
  }

  function Waiter(number: byte): Step {
    (line: Line) => AwaitAck(line, number)
  }

  /** Up to n rounds of sending and waiting; a send that fails skips its wait. */
  function Attempts(send: Step, wait: Step, line: Line, n: nat): Outcome
    decreases n
  {
    if n == 0 then Outcome(false, line)
    else
      var sent := send(line);
      if !sent.ok then Attempts(send, wait, sent.line, n - 1)
      else
        var acked := wait(sent.line);
        if acked.ok then acked else Attempts(send, wait, acked.line, n - 1)
  }

  function SendOutcome(env: Env, line: Line, payload: seq<byte>, number: byte): Outcome {
    Attempts(Sender(env, Wire(Frame(DATA, number, payload))), Waiter(number), line, MAX_RETRIES + 1)
  }

  datatype Received = Received(ok: bool, payload: seq<byte>, line: Line)

  /** A data frame is acknowledged first and then handed over if it fits. */
  function AcceptData(env: Env, line: Line, f: Frame, room: nat): Received {
    var line' := Transmit(env, line, Wire(Control(ACK, f.number))).line;
    if |f.payload| > room then Received(false, [], line') else Received(true, f.payload, line')
  }

  function Answer(env: Env, line: Line, v: Verdict, room: nat): Received {
    match v
    case Malformed => Received(false, [], line)
    case Corrupt(number) => Received(false, [], Transmit(env, line, Wire(Control(NACK, number))).line)
    case Good(f) => if f.kind == DATA then AcceptData(env, line, f, room) else Received(false, [], line)
  }

  /** Receiving looks at one chunk. */
  function ReceiveOutcome(env: Env, line: Line, room: nat): Received {
    match Collect(line.rx, false, [], FRAME_CHUNK)
    case TimedOut(rest) => Received(false, [], line.(rx := rest))
    case Chunk(chunk, rest) => Answer(env, line.(rx := rest), Inspect(chunk), room)
  }

  // ---- The driver ----

  class Protocol {
    var nextNumber: byte
    const hal: Rs485Hal

    constructor (hal: Rs485Hal)
      ensures this.hal == hal && nextNumber == 0
    {
      this.hal := hal;
      this.nextNumber := 0;
    }

    /** The byte loop of the receivers. */
    method ReadChunk(packet: array<byte>) returns (ok: bool, n: nat)
      requires packet.Length > 0
      modifies hal, packet
      ensures hal.sent == old(hal.sent) && n <= packet.Length
      ensures Collect(old(hal.rx), false, [], packet.Length)
           == if ok then Chunk(packet[..n], hal.rx) else TimedOut(hal.rx)
    {
      var sof := false;
      n := 0;
      while n < packet.Length
        invariant n <= packet.Length && hal.sent == old(hal.sent)
        invariant Collect(old(hal.rx), false, [], packet.Length) == Collect(hal.rx, sof, packet[..n], packet.Length)
        decreases |hal.rx|
      {
        ghost var rx, got := hal.rx, packet[..n];
        var b;
        ok, b := hal.Recv();
        if !ok {
          return;
        }
        if !sof {
          if b == SOF {
            sof := true;
          }
          continue;
        }
        packet[n] := b;
        n := n + 1;
        assert packet[..n] == got + [b];
        if b == 0 {
          return;
        }
      }
      ok := true;
    }

    /** The receivers' verdict on a decoded frame, from its length, checksum and bytes. */
    static method Verify(raw: array<byte>, n: nat) returns (good: bool)
      requires 4 <= n <= raw.Length
      ensures good == Check(raw[..n])
    {
      var rxCrc := Join(raw[n - 2], raw[n - 1]);
      var calcCrc := Crc16Ccitt(raw, n - 2);
      assert raw[..n][..n - 2] == raw[..n - 2];
      good := rxCrc == calcCrc;
    }

    /** Unpacks a collected chunk: fewer than 4 decoded bytes, or a failed or matching checksum. */
    static method Unpack(packet: array<byte>, size: nat, raw: array<byte>) returns (decoded: nat, good: bool)
      requires size <= packet.Length <= raw.Length && packet != raw
      modifies raw
      ensures decoded <= raw.Length && (decoded > 0 ==> Decoded(packet[..size]) == Some(raw[..decoded]))
      ensures decoded >= 4 ==> good == Check(raw[..decoded])
      ensures decoded < 4 ==> Inspect(packet[..size]) == Malformed
      ensures decoded >= 4 && !good ==> Inspect(packet[..size]) == Corrupt(raw[1])
      ensures decoded >= 4 && good ==>
                && Inspect(packet[..size]) == Good(Frame(raw[0], raw[1], raw[2..decoded - 2]))
    {
      good := false;
      decoded := CobsDecode(packet, size, raw, raw.Length);
      NoOverflow(packet[..size], raw.Length);
      if decoded >= 4 {
        good := Verify(raw, decoded);
        assert raw[..decoded][2..decoded - 2] == raw[2..decoded - 2];
      }
    }

    method WaitForAck(expectedNumber: byte) returns (ok: bool)
      modifies hal
      ensures Outcome(ok, hal.State()) == AwaitAck(old(hal.State()), expectedNumber)
    {
      var packet := new byte[ACK_CHUNK];
      var n;
      ok, n := ReadChunk(packet);
      if !ok {
        return false;
      }
      var raw := new byte[ACK_CHUNK];
      var decoded, good := Unpack(packet, n, raw);
      if decoded < 4 {
        return false;
      }
      if !good {
        return false;
      }
      ok := raw[0] == ACK && raw[1] == expectedNumber;
    }

    /** Appends the checksum to a frame under construction. */
    static method Seal(raw: array<byte>, n: nat)
      requires n + 2 <= raw.Length
      modifies raw
      ensures raw[..n + 2] == Sealed(old(raw[..n]))
    {
      var crc := Crc16Ccitt(raw, n);
      ghost var data := raw[..n];
      raw[n] := High(crc);
      raw[n + 1] := Low(crc);
      assert raw[..n] == data;
      assert raw[..n + 2] == raw[..n] + [raw[n], raw[n + 1]];
    }

    /** Puts a start byte and the stuffed frame into a wire buffer; 0 when the buffer is too small. */
    static method BuildWire(raw: array<byte>, n: nat, wire: array<byte>) returns (total: nat)
      requires n <= raw.Length && raw != wire && wire.Length > 0
      modifies wire
      ensures wire.Length <= Room(n) ==> total == 0
      ensures wire.Length > Room(n) ==> 1 < total <= wire.Length && wire[..total] == [SOF] + Encoded(raw[..n])
    {
      wire[0] := SOF;
      var cobsLen := CobsEncode(raw, n, wire, 1, wire.Length - 1);
      if cobsLen == 0 {
        ghost var body := EncodedShape(raw[..n]);
        return 0;
      }
      total := 1 + cobsLen;
      assert wire[0] == SOF by {
        assert wire[..1] == [SOF];
      }
      assert wire[..total] == [wire[0]] + wire[1..total];
    }

    static method BuildControl(kind: byte, number: byte) returns (frame: array<byte>)
      ensures fresh(frame) && frame.Length == 4 && frame[..4] == Raw(Control(kind, number))
    {
      frame := new byte[4];
      frame[0], frame[1] := kind, number;
      assert frame[..2] == [kind, number];
      Seal(frame, 2);
      ControlRaw(kind, number);
    }

    /** Sends an ACK or NACK; the caller ignores whether that succeeds. */
    method SendControl(kind: byte, number: byte)
      modifies hal
      ensures hal.State() == Transmit(hal.env, old(hal.State()), Wire(Control(kind, number))).line
    {
      var frame := BuildControl(kind, number);
      var resp := new byte[8];
      var n := BuildWire(frame, 4, resp);
      var ok := hal.Send(resp, n);
    }

    /** The raw frame of a payload, built in place. */
    static method BuildData(raw: array<byte>, number: byte, payload: array<byte>, len: nat)
      requires len <= payload.Length && len + 4 <= raw.Length && raw != payload
      modifies raw
      ensures raw[..len + 4] == Raw(Frame(DATA, number, payload[..len]))
    {
      raw[0] := DATA;
      raw[1] := number;
      for i := 0 to len
        invariant raw[..i + 2] == [DATA, number] + payload[..i]
      {
        raw[2 + i] := payload[i];
        assert raw[..i + 3] == raw[..i + 2] + [payload[i]];
      }
      Seal(raw, len + 2);
    }

    /** Steps 1 and 2 of sending: the raw frame and its wire form, which always fits. */
    method BuildFrame(payload: array<byte>, len: nat) returns (txBuf: array<byte>, total: nat)
      requires len <= payload.Length && len <= MAX_PAYLOAD
      ensures fresh(txBuf) && 1 < total <= txBuf.Length
      ensures txBuf[..total] == Wire(Frame(DATA, nextNumber, payload[..len]))
    {
      var raw := new byte[3 + MAX_PAYLOAD + 2];
      BuildData(raw, nextNumber, payload, len);
      txBuf := new byte[3 + MAX_PAYLOAD + 8];
      total := BuildWire(raw, len + 4, txBuf);
    }

    method SendFrame(payload: array?<byte>, len: nat) returns (ok: bool)
      requires payload != null ==> len <= payload.Length
      modifies this, hal
      ensures payload == null || len > 128 ==> !ok && hal.State() == old(hal.State())
      ensures payload != null && len <= 128 ==>
                Outcome(ok, hal.State()) == SendOutcome(hal.env, old(hal.State()), payload[..len], old(nextNumber))
      ensures nextNumber == if ok then old(nextNumber) + 1 else old(nextNumber)
    {
      hide Wire, Transmit, AwaitAck;
      if len > MAX_PAYLOAD || payload == null {
        return false;
      }
      var txBuf, total := BuildFrame(payload, len);
      ghost var wire, line := txBuf[..total], hal.State();
      ghost var send, wait := Sender(hal.env, wire), Waiter(nextNumber);
      var attempt := 0;
      while attempt <= MAX_RETRIES
        invariant attempt <= MAX_RETRIES + 1 && nextNumber == old(nextNumber) && txBuf[..total] == wire
        invariant Attempts(send, wait, line, MAX_RETRIES + 1)
               == Attempts(send, wait, hal.State(), MAX_RETRIES + 1 - attempt)
      {
        var sent := hal.Send(txBuf, total);
        attempt := attempt + 1;
        if !sent {
          continue;
        }
        var acked := WaitForAck(nextNumber);
        if acked {
          nextNumber := nextNumber + 1;
          return true;
        }
      }
      ok := false;
    }

    static method Copy(from: array<byte>, start: nat, to: array<byte>, n: nat)
      requires start + n <= from.Length && n <= to.Length && from != to
      modifies to
      ensures to[..n] == from[start..start + n] && to[n..] == old(to[n..])
    {
      forall i | 0 <= i < n {
        to[i] := from[start + i];
      }
    }

    /** Step 4 of receiving: acknowledges a data frame, then copies its payload if it fits. */
    method AcceptPayload(raw: array<byte>, decoded: nat, payload: array<byte>, room: nat) returns (ok: bool, n: nat)
      requires 4 <= decoded <= raw.Length && room <= payload.Length && raw != payload
      modifies hal, payload
      ensures n <= room && payload[n..] == old(payload[n..])
      ensures !ok ==> n == room && payload[..] == old(payload[..])
      ensures Received(ok, if ok then payload[..n] else [], hal.State())
           == AcceptData(hal.env, old(hal.State()), Frame(raw[0], raw[1], raw[2..decoded - 2]), room)
    {
      hide Wire, Transmit;
      SendControl(ACK, raw[1]);
      n := decoded - 4;
      if n > room {
        return false, room;
      }
      Copy(raw, 2, payload, n);
      ok := true;
    }

    /** `room` is the caller's buffer size on entry; `n` is the payload length written back to it. Nothing behind the
        payload is written. */
    method RecvFrame(payload: array<byte>, room: nat) returns (ok: bool, n: nat)
      requires room <= payload.Length
      modifies hal, payload
      ensures n <= room && payload[n..] == old(payload[n..])
      ensures !ok ==> n == room && payload[..] == old(payload[..])
      ensures Received(ok, if ok then payload[..n] else [], hal.State())
           == ReceiveOutcome(hal.env, old(hal.State()), room)
    {
      hide Collect, Inspect, AcceptData, Transmit, Wire;
      n := room;
      var packet := new byte[FRAME_CHUNK];
      var size;
      ok, size := ReadChunk(packet);
      if !ok {
        return;
      }
      if size < 6 {
        TooShort(packet[..size]);
        return false, n;
      }
      var raw := new byte[FRAME_CHUNK];
      var decoded, good := Unpack(packet, size, raw);
      if decoded < 4 {
        return false, n;
      }
      if !good {
        SendControl(NACK, raw[1]);
        return false, n;
      }
      if raw[0] == DATA {
        ok, n := AcceptPayload(raw, decoded, payload, room);
      } else {
        ok := false;
      }
    }
  }

  lemma ControlRaw(kind: byte, number: byte)
    ensures Raw(Control(kind, number)) == Sealed([kind, number])
  {
    assert [kind, number] + [] == [kind, number];
  }

  /** The size test before decoding rejects nothing that decoding would have passed. */
  lemma TooShort(chunk: seq<byte>)
    requires |chunk| < 6
    ensures Inspect(chunk) == Malformed
  {
    if Decoded(chunk).Some? {
      DecodedSize(chunk[..|chunk| - 1]);
    }
  }
}
