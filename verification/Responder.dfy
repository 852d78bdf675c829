/** The peer node of rp2040/protocol_responder.cpp: one byte at a time, it answers data frames with an
    acknowledgement and an echo, and damaged frames with a NACK. */
module Responder {
  import opened Bytes
  import opened Cobs
  import opened CobsTheorems
  import opened CrcDetection
  import opened Frames
  import opened Link
  import opened Rs485Protocol
  import Reception

  const BUFFER: nat := 300

  // ---- What the responder does with each byte ----

  /** Hunting for a start byte, or collecting the bytes behind one. */
  datatype Mode = Hunting | InFrame(got: seq<byte>)

  datatype Reaction = Reaction(mode: Mode, out: seq<byte>)

  /** The bytes sent in answer to a collected chunk. */
  function Reply(v: Verdict): seq<byte> {
    match v
    case Malformed => []
    case Corrupt(number) => Wire(Control(NACK, number))
    case Good(f) =>
      if f.kind == DATA then Wire(Control(ACK, f.number)) + Wire(Frame(DATA, f.number, f.payload)) else []
  }

  /** The receive machine around any way of answering a collected chunk. */
  function Collecting(answer: seq<byte> -> seq<byte>, m: Mode, b: byte): Reaction {
    match m
    case Hunting => Reaction(if b == SOF then InFrame([]) else Hunting, [])
    case InFrame(got) =>
      if |got| >= BUFFER then Reaction(Hunting, [])
      else if b != 0 then Reaction(InFrame(got + [b]), [])
      else Reaction(Hunting, answer(got + [b]))
  }

  function AnswerChunk(chunk: seq<byte>): seq<byte> {
    Reply(Inspect(chunk))
  }

  function React(m: Mode, b: byte): Reaction {
    Collecting(AnswerChunk, m, b)
  }

  /** How that machine reacts to a byte string, one byte after another. */
  function Fed(answer: seq<byte> -> seq<byte>, m: Mode, bytes: seq<byte>): Reaction
    decreases bytes
  {
    if bytes == [] then Reaction(m, [])
    else
      var first := Collecting(answer, m, bytes[0]);
      var others := Fed(answer, first.mode, bytes[1..]);
      Reaction(others.mode, first.out + others.out)
  }

  function ReactAll(m: Mode, bytes: seq<byte>): Reaction {
    Fed(AnswerChunk, m, bytes)
  }

  /** The echo buffer holds 128 payload bytes. */
  predicate FitsEcho(v: Verdict) {
    v.Good? && v.frame.kind == DATA ==> |v.frame.payload| <= 128
  }

  /** So only such data frames may be completed. */
  predicate EchoFits(m: Mode, b: byte) {
    m.InFrame? && |m.got| < BUFFER && b == 0 ==> FitsEcho(Inspect(m.got + [b]))
  }

  ghost predicate AllFit(m: Mode, bytes: seq<byte>)
    decreases bytes
  {
    bytes == [] || (EchoFits(m, bytes[0]) && AllFit(React(m, bytes[0]).mode, bytes[1..]))
  }

  // ---- The responder ----

  class Node {
    var inFrame: bool
    var idx: nat
    const cobsBuf: array<byte>
    var out: seq<byte>

    constructor ()
      ensures Valid() && fresh(cobsBuf) && State() == Hunting && out == []
    {
      inFrame, idx, out := false, 0, [];
      cobsBuf := new byte[BUFFER];
    }

    predicate Valid()
      reads this
    {
      idx <= cobsBuf.Length == BUFFER
    }

    function State(): Mode
      reads this, cobsBuf
      requires Valid()
    {
      if inFrame then InFrame(cobsBuf[..idx]) else Hunting
    }

    method SendWire(raw: array<byte>, len: nat)
      requires len <= raw.Length && Room(len) < BUFFER
      modifies this`out
      ensures out == old(out) + ([SOF] + Encoded(raw[..len]))
    {
      var wire := new byte[BUFFER];
      var n := Protocol.BuildWire(raw, len, wire);
      out := out + wire[..n];
    }

    method SendControl(kind: byte, number: byte)
      modifies this`out
      ensures out == old(out) + Wire(Control(kind, number))
    {
      var f := Protocol.BuildControl(kind, number);
      SendWire(f, 4);
    }

    method SendData(number: byte, payload: array<byte>, len: nat)
      requires len <= payload.Length && len <= 128
      modifies this`out
      ensures out == old(out) + Wire(Frame(DATA, number, payload[..len]))
    {
      var f := new byte[2 + 128 + 2];
      Protocol.BuildData(f, number, payload, len);
      SendWire(f, len + 4);
    }

    /** The answer to a valid data frame. */
    method AcceptData(raw: array<byte>, n: nat)
      requires 4 <= n <= raw.Length && n - 4 <= 128
      modifies this`out
      ensures out == old(out) + Wire(Control(ACK, raw[1])) + Wire(Frame(DATA, raw[1], raw[2..n - 2]))
    {
      SendControl(ACK, raw[1]);
      var payload := new byte[BUFFER];
      Protocol.Copy(raw, 2, payload, n - 4);
      SendData(raw[1], payload, n - 4);
    }

    /** A complete chunk has been collected. */
    method OnChunk()
      requires Valid() && |cobsBuf[..idx]| > 0
      requires FitsEcho(Inspect(cobsBuf[..idx]))
      modifies this`out
      ensures out == old(out) + Reply(Inspect(cobsBuf[..idx]))
    {
      hide Inspect, Wire;
      var raw := new byte[BUFFER];
      var n, good := Protocol.Unpack(cobsBuf, idx, raw);
      if n < 4 {
        return;
      }
      if !good {
        SendControl(NACK, raw[1]);
        return;
      }
      if raw[0] == DATA {
        AcceptData(raw, n);
      }
    }

    /** The body of the endless receive loop, for one byte from the UART. */
    method OnByte(b: byte)
      requires Valid() && EchoFits(State(), b)
      modifies this, cobsBuf
      ensures Valid()
      ensures Reaction(State(), out) == Reaction(React(old(State()), b).mode, old(out) + React(old(State()), b).out)
    {
      if !inFrame {
        if b == SOF {
          inFrame := true;
          idx := 0;
        }
        return;
      }
      if idx >= BUFFER {
        inFrame := false;
        return;
      }
      ghost var got := cobsBuf[..idx];
      cobsBuf[idx] := b;
      idx := idx + 1;
      assert cobsBuf[..idx] == got + [b];
      if b != 0 {
        return;
      }
      inFrame := false;
      OnChunk();
    }

    /** The receive loop, for the bytes the UART delivers. */
    method Run(uart: seq<byte>)
      requires Valid() && AllFit(State(), uart)
      modifies this, cobsBuf
      ensures Valid()
      ensures State() == ReactAll(old(State()), uart).mode
      ensures out == old(out) + ReactAll(old(State()), uart).out
    {
      hide React;
      ghost var m, sent := State(), out;
      assert sent + [] == sent;
      for i := 0 to |uart|
        invariant Valid() && AllFit(State(), uart[i..])
        invariant State() == ReactAll(m, uart[..i]).mode && out == sent + ReactAll(m, uart[..i]).out
      {
        ReactNext(m, uart, i);
        assert uart[i..][1..] == uart[i + 1..];
        OnByte(uart[i]);
      }
      assert uart[..|uart|] == uart;
    }
  }

  // ---- Byte by byte ----

  lemma {:induction false} FedConcat(answer: seq<byte> -> seq<byte>, m: Mode, a: seq<byte>, b: seq<byte>)
    ensures Fed(answer, m, a + b).mode == Fed(answer, Fed(answer, m, a).mode, b).mode
    ensures Fed(answer, m, a + b).out == Fed(answer, m, a).out + Fed(answer, Fed(answer, m, a).mode, b).out
    decreases a
  {
    if a == [] {
      assert a + b == b;
    } else {
      assert (a + b)[1..] == a[1..] + b;
      FedConcat(answer, Collecting(answer, m, a[0]).mode, a[1..], b);
    }
  }

  lemma FedOne(answer: seq<byte> -> seq<byte>, m: Mode, b: byte)
    ensures Fed(answer, m, [b]) == Collecting(answer, m, b)
  {
    var first := Collecting(answer, m, b);
    assert first.out + [] == first.out;
  }

  lemma ReactNext(m: Mode, bytes: seq<byte>, i: nat)
    requires i < |bytes|
    ensures var before, step := ReactAll(m, bytes[..i]), React(ReactAll(m, bytes[..i]).mode, bytes[i]);
            ReactAll(m, bytes[..i + 1]) == Reaction(step.mode, before.out + step.out)
  {
    hide Collecting, AnswerChunk;
    assert bytes[..i + 1] == bytes[..i] + [bytes[i]];
    FedConcat(AnswerChunk, m, bytes[..i], [bytes[i]]);
    FedOne(AnswerChunk, ReactAll(m, bytes[..i]).mode, bytes[i]);
  }

  // ---- Self-synchronisation ----

  lemma FedFirst(answer: seq<byte> -> seq<byte>, m: Mode, bytes: seq<byte>)
    requires bytes != [] && Collecting(answer, m, bytes[0]).out == []
    ensures Fed(answer, m, bytes) == Fed(answer, Collecting(answer, m, bytes[0]).mode, bytes[1..])
  {
    var others := Fed(answer, Collecting(answer, m, bytes[0]).mode, bytes[1..]);
    assert [] + others.out == others.out;
  }

  lemma FedAfterQuiet(answer: seq<byte> -> seq<byte>, m: Mode, a: seq<byte>, b: seq<byte>)
    requires Fed(answer, m, a) == Reaction(m, [])
    ensures Fed(answer, m, a + b) == Fed(answer, m, b)
  {
    FedConcat(answer, m, a, b);
    assert [] + Fed(answer, m, b).out == Fed(answer, m, b).out;
  }

  /** After any history that ends in a delimiter the responder is hunting. */
  lemma HuntsAfterZero(answer: seq<byte> -> seq<byte>, m: Mode, history: seq<byte>)
    requires history != [] && history[|history| - 1] == 0
    ensures Fed(answer, m, history).mode == Hunting
  {
    var n := |history| - 1;
    assert history == history[..n] + [0];
    FedConcat(answer, m, history[..n], [0]);
    FedOne(answer, Fed(answer, m, history[..n]).mode, 0);
  }

  lemma {:induction false} SkipsGarbage(answer: seq<byte> -> seq<byte>, g: seq<byte>)
    requires Free(SOF, g)
    ensures Fed(answer, Hunting, g) == Reaction(Hunting, [])
    decreases g
  {
    if g != [] {
      SkipsGarbage(answer, g[1..]);
    }
  }

  lemma {:induction false} KeepsBody(answer: seq<byte> -> seq<byte>, got: seq<byte>, c: seq<byte>)
    requires NoZero(c) && |got| + |c| + 1 <= BUFFER
    ensures Fed(answer, InFrame(got), c + [0]) == Reaction(Hunting, answer(got + c + [0]))
    decreases c
  {
    if c == [] {
      FedOne(answer, InFrame(got), 0);
      assert got + [] + [0] == got + [0] && [] + [0 as byte] == [0];
    } else {
      assert (c + [0])[1..] == c[1..] + [0];
      FedFirst(answer, InFrame(got), c + [0]);
      KeepsBody(answer, got + [c[0]], c[1..]);
      assert (got + [c[0]]) + c[1..] + [0] == got + c + [0];
    }
  }

  lemma AnswersFramed(answer: seq<byte> -> seq<byte>, c: seq<byte>)
    requires NoZero(c) && |c| + 1 <= BUFFER
    ensures Fed(answer, Hunting, [SOF] + (c + [0])) == Reaction(Hunting, answer(c + [0]))
  {
    FedFirst(answer, Hunting, [SOF] + (c + [0]));
    assert ([SOF] + (c + [0]))[1..] == c + [0];
    KeepsBody(answer, [], c);
    assert [] + c + [0] == c + [0];
  }

  /** A framed body, whatever precedes it without a start byte, gets exactly its own answer. */
  lemma AnswersFrame(answer: seq<byte> -> seq<byte>, g: seq<byte>, c: seq<byte>)
    requires Free(0x55, g) && NoZero(c) && |c| + 1 <= 300
    ensures Fed(answer, Hunting, g + [0x55] + c + [0x00]) == Reaction(Hunting, answer(c + [0]))
  {
    var framed := [SOF] + (c + [0]);
    hide Fed;
    SkipsGarbage(answer, g);
    AnswersFramed(answer, c);
    FedAfterQuiet(answer, Hunting, g, framed);
    assert g + [SOF] + c + [0] == g + framed;
  }

  lemma {:induction false} FillsBuffer(answer: seq<byte> -> seq<byte>, got: seq<byte>, c: seq<byte>)
    requires NoZero(c) && |got| + |c| <= BUFFER
    ensures Fed(answer, InFrame(got), c) == Reaction(InFrame(got + c), [])
    decreases c
  {
    if c == [] {
      assert got + c == got;
    } else {
      FedFirst(answer, InFrame(got), c);
      FillsBuffer(answer, got + [c[0]], c[1..]);
      assert (got + [c[0]]) + c[1..] == got + c;
    }
  }

  /** A frame that fills the 300 bytes without a zero is dropped with the byte behind it, whatever that is, and the
      responder hunts again. */
  lemma OverlongDropped(answer: seq<byte> -> seq<byte>, c: seq<byte>, b: byte)
    requires NoZero(c) && |c| == 300
    ensures Fed(answer, Hunting, [0x55] + (c + [b])) == Reaction(Hunting, [])
  {
    FedFirst(answer, Hunting, [SOF] + (c + [b]));
    assert ([SOF] + (c + [b]))[1..] == c + [b];
    FillsBuffer(answer, [], c);
    FedConcat(answer, InFrame([]), c, [b]);
    FedOne(answer, InFrame([] + c), b);
    assert [] + c == c;
  }

  // ---- What is answered ----

  /** The answer to a collected chunk: none to one of less than four bytes or that does not decode; a NACK under the
      number it carries if the checksum does not match; an ACK and an echo to a data frame; none to any other. */
  lemma AnswerDecides(chunk: seq<byte>)
    ensures var raw := Decoded(chunk);
            AnswerChunk(chunk)
            == if raw.None? || |raw.value| < 4 then []
               else
                 var x, n := raw.value, |raw.value| - 4;
                 if !Check(x) then Wire(Control(0x03, x[1]))
                 else if x[0] != 0x01 then []
                 else Wire(Control(0x02, x[1])) + Wire(Frame(0x01, x[1], x[2..n + 2]))
  {
    hide Wire, Decoded, Check;
  }

  /** A frame that fits the receive buffer gets its answer. */
  lemma FrameAnswered(f: Frame)
    requires |Encoded(Raw(f))| <= 300
    ensures ReactAll(Hunting, Wire(f)) == Reaction(Hunting, Reply(Good(f)))
  {
    hide Raw, Inspect, Reply, Encoded;
    var body := EncodedShape(Raw(f));
    FrameRoundTrip(f);
    AnswersFrame(AnswerChunk, [], body);
    assert [] + [SOF] + body + [0] == [SOF] + (body + [0]);
  }

  /** Only data frames are answered: an ACK, then the same frame. */
  lemma DataAnswered(f: Frame)
    requires |Encoded(Raw(f))| <= 300
    ensures ReactAll(Hunting, Wire(f))
         == Reaction(Hunting, if f.kind == 0x01 then Wire(Frame(0x02, f.number, [])) + Wire(f) else [])
  {
    hide Wire, ReactAll, Encoded, Raw;
    FrameAnswered(f);
  }

  /** A frame with one data byte of its stuffed form replaced by another nonzero byte is answered with a NACK under its
      number, unless that is the byte replaced. */
  lemma ReplacedByteAnswered(f: Frame, j: nat, v: byte)
    requires |f.payload| <= 128
    requires var body := Stuffed(Raw(f)); j < |body| && IsData(body, j) && v != body[j] && v != 0
    ensures ReactAll(Hunting, [0x55] + (Stuffed(Raw(f))[j := v] + [0x00]))
         == Reaction(Hunting, Wire(Control(0x03, if j == 2 then v else f.number)))
  {
    hide Inspect, IsData, Unstuffed, Check, Wire, Stuffed, Raw;
    var body, x := Reception.SealedBody(f);
    Reception.ReplacedByteCorrupt(body, x, j, v);
    AnswersFramed(AnswerChunk, body[j := v]);
  }

  /** Garbage without a start byte, then a framed body. */
  datatype Packet = Packet(garbage: seq<byte>, body: seq<byte>)

  predicate WellFormed(i: Packet) {
    Free(0x55, i.garbage) && NoZero(i.body) && |i.body| + 1 <= 300
  }

  function Stream(items: seq<Packet>): seq<byte> {
    if items == [] then [] else (items[0].garbage + [SOF] + items[0].body + [0]) + Stream(items[1..])
  }

  function Answers(answer: seq<byte> -> seq<byte>, items: seq<Packet>): seq<byte> {
    if items == [] then [] else answer(items[0].body + [0]) + Answers(answer, items[1..])
  }

  lemma {:induction false} AnswersStream(answer: seq<byte> -> seq<byte>, items: seq<Packet>)
    requires forall i | i in items :: WellFormed(i)
    ensures Fed(answer, Hunting, Stream(items)) == Reaction(Hunting, Answers(answer, items))
    decreases |items|
  {
    if items != [] {
      assert WellFormed(items[0]);
      AnswersFrame(answer, items[0].garbage, items[0].body);
      AnswersStream(answer, items[1..]);
      FedConcat(answer, Hunting, items[0].garbage + [SOF] + items[0].body + [0], Stream(items[1..]));
    }
  }

  /** After any history ending in a delimiter, frames separated by garbage without start bytes get
      exactly their replies, in order, and garbage at the end none. */
  lemma SelfSynchronising(m: Mode, history: seq<byte>, items: seq<Packet>, tail: seq<byte>)
    requires history != [] && history[|history| - 1] == 0
    requires (forall i | i in items :: WellFormed(i)) && Free(SOF, tail)
    ensures ReactAll(m, history + Stream(items) + tail).out
         == ReactAll(m, history).out + Answers(AnswerChunk, items)
    ensures ReactAll(m, history + Stream(items) + tail).mode == Hunting
  {
    HuntsAfterZero(AnswerChunk, m, history);
    AnswersStream(AnswerChunk, items);
    SkipsGarbage(AnswerChunk, tail);
    FedConcat(AnswerChunk, m, history + Stream(items), tail);
    FedConcat(AnswerChunk, m, history, Stream(items));
  }

  // ---- Frames the echo buffer can answer ----

  lemma {:induction false} BodyFits(got: seq<byte>, c: seq<byte>)
    requires NoZero(c) && |got| + |c| + 1 <= BUFFER
    ensures AllFit(InFrame(got), c + [0]) <==> FitsEcho(Inspect(got + c + [0]))
    decreases c
  {
    hide Inspect;
    var bytes := c + [0];
    if c == [] {
      assert got + [] + [0] == got + [0];
      assert AllFit(React(InFrame(got), 0).mode, bytes[1..]);
    } else {
      assert bytes[1..] == c[1..] + [0];
      assert (got + [c[0]]) + c[1..] + [0] == got + c + [0];
      BodyFits(got + [c[0]], c[1..]);
    }
  }

  /** A frame that the receive buffer can hold overflows the echo buffer exactly when it is a data frame whose payload
      is longer than 128 bytes. */
  lemma WireFitsIff(f: Frame)
    requires |Encoded(Raw(f))| <= 300
    ensures AllFit(Hunting, Wire(f)) <==> (f.kind == 0x01 ==> |f.payload| <= 128)
  {
    hide Raw, Inspect, Encoded;
    var body := EncodedShape(Raw(f));
    FrameRoundTrip(f);
    assert [] + body + [0] == body + [0];
    BodyFits([], body);
    assert ([SOF] + (body + [0]))[1..] == body + [0];
  }

  /** The frames of this protocol never do. */
  lemma WireFits(f: Frame)
    requires |f.payload| <= 128
    ensures AllFit(Hunting, Wire(f))
  {
    WireSize(f);
    WireFitsIff(f);
  }
}
