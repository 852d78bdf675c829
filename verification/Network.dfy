/** A network between the driver and its peer, in bytes: whole frames are lost, delayed or joined by noise on either
    way, and the peer of rp2040/protocol_responder.cpp answers what reaches it. */
module Network {
  import opened Bytes
  import opened Cobs
  import opened Frames
  import opened Link
  import opened Rs485Protocol
  import opened Segments
  import opened Wrappers
  import Responder

  /** A wire under way to the peer, and the transmission it comes from unless it was spoilt. */
  datatype Up = Up(wire: seq<byte>, from: Option<nat>)

  /** A data frame that the peer has heard, and the transmission that brought it. */
  datatype Hearing = Hearing(frame: Frame, from: nat)

  /** The wires under way to the peer, the bodies under way back, what the peer has heard, and the bytes that sends have
      written before they failed. */
  datatype Net = Net(up: seq<Up>, back: seq<seq<byte>>, heard: seq<Hearing>, cut: seq<byte>)

  /** What reaches the driver: a body and its delimiter, or a silence in which a receive times out. */
  type Arrival = Option<seq<byte>>

  datatype Happening =
    | LoseUp(at: nat)
    | NoiseUp(at: nat, body: seq<byte>)
    | Hear
    | LoseBack(at: nat)
    | NoiseBack(at: nat, body: seq<byte>)
    | Arrive
    | Silence

  datatype Turn = Turn(net: Net, arrivals: seq<Arrival>)

  function EventsOf(arrivals: seq<Arrival>): seq<Event> {
    if arrivals == [] then []
    else (match arrivals[0] case None => [Failed] case Some(b) => OnLine(b)) + EventsOf(arrivals[1..])
  }

  /** The bodies that delimiters separate. */
  function Cut(bytes: seq<byte>, got: seq<byte>): seq<seq<byte>>
    decreases bytes
  {
    if bytes == [] then []
    else if bytes[0] == 0 then [got] + Cut(bytes[1..], [])
    else Cut(bytes[1..], got + [bytes[0]])
  }

  function Said(wire: seq<byte>): seq<byte> {
    Responder.ReactAll(Responder.Hunting, wire).out
  }

  /** The data frame that a wire brings the peer. */
  function Brings(wire: seq<byte>): seq<Frame> {
    if wire == [] || wire[0] != SOF then []
    else
      var v := Inspect(wire[1..]);
      if IsDataFrame(v) then [v.frame] else []
  }

  function Gets(u: Up): seq<Hearing> {
    var frames := Brings(u.wire);
    if frames == [] || u.from.None? then [] else [Hearing(frames[0], u.from.value)]
  }

  function Nacks(numbers: seq<byte>): seq<byte> {
    if numbers == [] then [] else Wire(Control(NACK, numbers[0])) + Nacks(numbers[1..])
  }

  /** A wire in which the peer finds no data frame: at most it refuses something. */
  ghost predicate Refused(wire: seq<byte>) {
    Brings(wire) == [] && exists numbers :: Said(wire) == Nacks(numbers)
  }

  ghost predicate Possible(net: Net, h: Happening) {
    match h
    case LoseUp(i) => i < |net.up|
    case NoiseUp(i, b) => i <= |net.up| && Refused(b + [0])
    case Hear => net.up != []
    case LoseBack(i) => i < |net.back|
    case NoiseBack(i, b) => i <= |net.back| && NoZero(b) && Barren(b)
    case Arrive => net.back != []
    case Silence => true
  }

  /** What does not apply does not happen. */
  ghost function Happen(net: Net, h: Happening): Turn {
    if !Possible(net, h) then Turn(net, [])
    else
      match h
      case LoseUp(i) => Turn(net.(up := net.up[..i] + net.up[i + 1..]), [])
      case NoiseUp(i, b) => Turn(net.(up := net.up[..i] + [Up(b + [0], None)] + net.up[i..]), [])
      case Hear =>
        var u := net.up[0];
        Turn(net.(up := net.up[1..], back := net.back + Cut(Said(u.wire), []), heard := net.heard + Gets(u)), [])
      case LoseBack(i) => Turn(net.(back := net.back[..i] + net.back[i + 1..]), [])
      case NoiseBack(i, b) => Turn(net.(back := net.back[..i] + [b] + net.back[i..]), [])
      case Arrive => Turn(net.(back := net.back[1..]), [Some(net.back[0])])
      case Silence => Turn(net, [None])
  }

  ghost function HappenAll(net: Net, hs: seq<Happening>): Turn
    decreases hs
  {
    if hs == [] then Turn(net, [])
    else
      var first := Happen(net, hs[0]);
      var others := HappenAll(first.net, hs[1..]);
      Turn(others.net, first.arrivals + others.arrivals)
  }

  /** What becomes of a transmission: how many bytes it writes if it fails, and what happens after it. */
  datatype Fate = Fate(kept: nat, later: seq<Happening>)

  type Plan = nat -> Fate

  function Least(a: nat, b: nat): nat {
    if a < b then a else b
  }

  /** A send that fails leaves its frame without the last byte. What it has written joins the next frame and spoils
      it: if the peer can make nothing of the two together they arrive as noise, and otherwise not at all. */
  ghost function Handed(net: Net, n: nat, tx: Tx, kept: nat): Net {
    if !tx.ok then
      (if tx.bytes == [] then net else net.(cut := net.cut + tx.bytes[..Least(kept, |tx.bytes| - 1)]))
    else if net.cut == [] then net.(up := net.up + [Up(tx.bytes, Some(n))])
    else if Refused(net.cut + tx.bytes) then net.(up := net.up + [Up(net.cut + tx.bytes, None)], cut := [])
    else net.(cut := [])
  }

  ghost function Carry(plan: Plan, net: Net, n: nat, tx: Tx): Turn {
    HappenAll(Handed(net, n, tx, plan(n).kept), plan(n).later)
  }

  ghost function Situation(plan: Plan, sent: seq<Tx>): Net {
    if sent == [] then Net([], [], [], [])
    else
      var n := |sent| - 1;
      Carry(plan, Situation(plan, sent[..n]), n, sent[n]).net
  }

  ghost function Answering(plan: Plan, sent: seq<Tx>): seq<Event> {
    if sent == [] then []
    else
      var n := |sent| - 1;
      EventsOf(Carry(plan, Situation(plan, sent[..n]), n, sent[n]).arrivals)
  }

  type Acceptance = (seq<Tx>, seq<byte>) -> bool

  /** The surroundings of a driver on this network. */
  ghost function Lossy(plan: Plan, accept: Acceptance): Env {
    Env(accept, (sent: seq<Tx>) => Answering(plan, sent))
  }

  lemma TransmitOn(plan: Plan, accept: Acceptance, line: Line, wire: seq<byte>)
    ensures var r := Transmit(Lossy(plan, accept), line, wire);
            var turn := Carry(plan, Situation(plan, line.sent), |line.sent|, Tx(wire, r.ok));
            && r.line.rx == line.rx + EventsOf(turn.arrivals)
            && Situation(plan, r.line.sent) == turn.net
            && r.line.sent == line.sent + [Tx(wire, r.ok)]
  {
    hide Carry;
    var sent := line.sent + [Tx(wire, accept(line.sent, wire))];
    assert sent[..|line.sent|] == line.sent;
  }

  // ---- Arrivals ----

  lemma {:induction false} EventsOfConcat(a: seq<Arrival>, b: seq<Arrival>)
    ensures EventsOf(a + b) == EventsOf(a) + EventsOf(b)
    decreases a
  {
    hide OnLine;
    if a == [] {
      assert a + b == b;
    } else {
      assert (a + b)[1..] == a[1..] + b;
      EventsOfConcat(a[1..], b);
    }
  }

  /** The bodies among the arrivals. */
  function Somes(arrivals: seq<Arrival>): seq<seq<byte>> {
    if arrivals == [] then []
    else (match arrivals[0] case None => [] case Some(b) => [b]) + Somes(arrivals[1..])
  }

  lemma {:induction false} SomesConcat(a: seq<Arrival>, b: seq<Arrival>)
    ensures Somes(a + b) == Somes(a) + Somes(b)
    decreases a
  {
    if a == [] {
      assert a + b == b;
    } else {
      assert (a + b)[1..] == a[1..] + b;
      SomesConcat(a[1..], b);
    }
  }

  // ---- What the peer says ----

  lemma {:induction false} CutBody(b: seq<byte>, rest: seq<byte>, got: seq<byte>)
    requires NoZero(b)
    ensures Cut(b + ([0] + rest), got) == [got + b] + Cut(rest, [])
    decreases b
  {
    var bytes := b + ([0] + rest);
    if b == [] {
      assert bytes[1..] == rest && got + b == got;
    } else {
      assert bytes[1..] == b[1..] + ([0] + rest);
      CutBody(b[1..], rest, got + [b[0]]);
      assert (got + [b[0]]) + b[1..] == got + b;
    }
  }

  lemma CutClosed(b: seq<byte>, rest: seq<byte>)
    requires NoZero(b)
    ensures Cut(b + [0] + rest, []) == [b] + Cut(rest, [])
  {
    hide Cut;
    CutBody(b, rest, []);
    assert b + [0] + rest == b + ([0] + rest) && [] + b == b;
  }

  lemma CutWire(f: Frame, rest: seq<byte>)
    ensures Cut(Wire(f) + rest, []) == [FrameBody(f)] + Cut(rest, [])
  {
    hide *;
    FrameBodyIs(f);
    CutClosed(FrameBody(f), rest);
  }

  /** The peer acknowledges and echoes a data frame. */
  lemma DataHeard(f: Frame)
    requires f.kind == 0x01 && |f.payload| <= 128
    ensures Brings(Wire(f)) == [f] && Cut(Said(Wire(f)), []) == [FrameBody(Control(ACK, f.number)), FrameBody(f)]
  {
    hide Raw, Encoded, Inspect, FrameBody, Cut, Responder.ReactAll;
    WireSize(f);
    Responder.FrameAnswered(f);
    FrameRoundTrip(f);
    assert ([SOF] + Encoded(Raw(f)))[1..] == Encoded(Raw(f));
    var ack, echo := Control(ACK, f.number), Frame(DATA, f.number, f.payload);
    assert echo == f;
    CutWire(ack, Wire(f));
    CutWire(f, []);
    assert Wire(f) + [] == Wire(f);
    CutNothing();
  }

  lemma CutNothing()
    ensures Cut([], []) == []
  {
  }

  /** It ignores control frames. */
  lemma ControlRefused(kind: byte, number: byte)
    requires kind != 0x01
    ensures Said(Wire(Control(kind, number))) == [] && Refused(Wire(Control(kind, number)))
  {
    hide Raw, Encoded, Inspect, Responder.ReactAll;
    var f := Control(kind, number);
    WireSize(f);
    Responder.FrameAnswered(f);
    FrameRoundTrip(f);
    assert ([SOF] + Encoded(Raw(f)))[1..] == Encoded(Raw(f));
    assert Said(Wire(f)) == Nacks([]);
  }

  /** What it says to refuse something is noise to the driver. */
  lemma NackIsNoise(number: byte)
    ensures var b := FrameBody(Control(NACK, number)); NoZero(b) && Barren(b)
  {
    hide Inspect, FrameBody, Caught, Left;
    var f := Control(NACK, number);
    FrameBodyIs(f);
    FrameCaught(f, ACK_CHUNK);
    FrameCaught(f, FRAME_CHUNK);
  }
}
