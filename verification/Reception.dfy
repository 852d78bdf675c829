/** What the driver accepts from an arbitrary byte stream, and what it sends and counts meanwhile. */
module Reception {
  import opened Bytes
  import opened CrcDetection
  import opened Cobs
  import opened CobsTheorems
  import opened Frames
  import opened Link
  import opened Rs485Protocol
  import opened Wrappers

  /** The stream holds, after bytes that are not start bytes, a framed body that fits a receive buffer and
      decodes to the raw bytes of f. */
  ghost predicate Offers(rx: seq<Event>, f: Frame, cap: nat, rest: seq<Event>) {
    exists g, c :: Framed(rx, g, c, rest) && |c| + 1 <= cap && Decoded(c + [0]) == Some(Raw(f))
  }

  lemma CollectOffers(rx: seq<Event>, f: Frame, cap: nat, rest: seq<Event>)
    requires cap > 0
    ensures Offers(rx, f, cap, rest) <==>
            var r := Collect(rx, false, [], cap);
            r.Chunk? && r.rest == rest && Inspect(r.bytes) == Good(f)
  {
    hide Collect, Inspect, Raw, Events;
    var r := Collect(rx, false, [], cap);
    if g, c :| Framed(rx, g, c, rest) && |c| + 1 <= cap && Decoded(c + [0]) == Some(Raw(f)) {
      CollectFrame(g, c, rest, cap);
      InspectGood(c + [0], f);
    }
    if r.Chunk? && r.rest == rest && Inspect(r.bytes) == Good(f) {
      var g, c := ChunkOrigin(rx, cap);
      InspectGood(r.bytes, f);
      assert Framed(rx, g, c, rest) && |c| + 1 <= cap && Decoded(c + [0]) == Some(Raw(f));
    }
  }

  /** Receiving succeeds with payload p exactly when the stream offers a data frame with a matching
      checksum that carries p, and p fits. */
  lemma ReceiveExact(env: Env, line: Line, room: nat, p: seq<byte>)
    ensures var r := ReceiveOutcome(env, line, room);
            r.ok && r.payload == p <==>
            |p| <= room && exists number, rest :: Offers(line.rx, Frame(0x01, number, p), 256, rest)
  {
    hide Wire, Collect, Inspect, Offers, Transmit;
    var r := ReceiveOutcome(env, line, room);
    if r.ok && r.payload == p {
      var c := Collect(line.rx, false, [], FRAME_CHUNK);
      var f := Inspect(c.bytes).frame;
      CollectOffers(line.rx, f, FRAME_CHUNK, c.rest);
      assert f == Frame(DATA, f.number, p);
      assert Offers(line.rx, Frame(DATA, f.number, p), FRAME_CHUNK, c.rest);
    }
    if number, rest :| Offers(line.rx, Frame(DATA, number, p), FRAME_CHUNK, rest) && |p| <= room {
      CollectOffers(line.rx, Frame(DATA, number, p), FRAME_CHUNK, rest);
    }
  }

  /** A data frame is acknowledged whether or not its payload fits the caller's buffer; it is handed over
      exactly when it fits, so a sender can succeed with a payload that was dropped. */
  lemma AcknowledgedAnyway(env: Env, line: Line, room: nat, number: byte, p: seq<byte>, rest: seq<Event>)
    requires Offers(line.rx, Frame(0x01, number, p), 256, rest)
    ensures var r := ReceiveOutcome(env, line, room);
            && (r.ok <==> |p| <= room)
            && r.line == Transmit(env, Line(rest, line.sent), Wire(Control(0x02, number))).line
  {
    hide Wire, Collect, Inspect, Offers, Transmit;
    CollectOffers(line.rx, Frame(DATA, number, p), FRAME_CHUNK, rest);
  }

  /** What a call of receive does with the chunk it has collected: one of less than four bytes, or that does not decode,
      is dropped; one whose checksum does not match is refused under the number it carries; a data frame is
      acknowledged under its number and handed over if it fits; any other frame is dropped. */
  lemma ReceiveDecides(env: Env, line: Line, room: nat, chunk: seq<byte>, rest: seq<Event>)
    requires Collect(line.rx, false, [], 256) == Chunk(chunk, rest)
    ensures var r, left, raw := ReceiveOutcome(env, line, room), Line(rest, line.sent), Decoded(chunk);
            if raw.None? || |raw.value| < 4 then r == Received(false, [], left)
            else
              var x, n := raw.value, |raw.value| - 4;
              if !Check(x) then r == Received(false, [], Transmit(env, left, Wire(Control(0x03, x[1]))).line)
              else if x[0] != 0x01 then r == Received(false, [], left)
              else r == Received(n <= room, if n <= room then x[2..n + 2] else [],
                                 Transmit(env, left, Wire(Control(0x02, x[1]))).line)
  {
    hide Wire, Collect, Decoded, Check, Transmit;
  }

  /** A wait drops what it has collected and sends nothing; it succeeds on a frame of type 2 with its number. */
  lemma AwaitDecides(line: Line, number: byte, chunk: seq<byte>, rest: seq<Event>)
    requires Collect(line.rx, false, [], 16) == Chunk(chunk, rest)
    ensures var raw := Decoded(chunk);
            AwaitAck(line, number)
            == Outcome(raw.Some? && |raw.value| >= 4 && Check(raw.value) && raw.value[0] == 0x02
                       && raw.value[1] == number, Line(rest, line.sent))
  {
    hide Collect, Decoded, Check;
  }

  /** Both give up with a reader that does. */
  lemma NothingCollected(env: Env, line: Line, room: nat, number: byte, rest: seq<Event>)
    ensures Collect(line.rx, false, [], 256) == TimedOut(rest) ==>
              ReceiveOutcome(env, line, room) == Received(false, [], Line(rest, line.sent))
    ensures Collect(line.rx, false, [], 16) == TimedOut(rest) ==>
              AwaitAck(line, number) == Outcome(false, Line(rest, line.sent))
  {
    hide Collect;
  }

  /** Waiting succeeds exactly when the stream offers an acknowledgement of that number. */
  lemma AwaitExact(line: Line, number: byte)
    ensures AwaitAck(line, number).ok <==>
            exists payload, rest :: Offers(line.rx, Frame(0x02, number, payload), 16, rest)
  {
    hide Collect, Inspect, Offers;
    var c := Collect(line.rx, false, [], ACK_CHUNK);
    if AwaitAck(line, number).ok {
      var f := Inspect(c.bytes).frame;
      CollectOffers(line.rx, f, ACK_CHUNK, c.rest);
      assert f == Frame(ACK, number, f.payload);
      assert Offers(line.rx, Frame(ACK, number, f.payload), ACK_CHUNK, c.rest);
    }
    if payload, rest :| Offers(line.rx, Frame(ACK, number, payload), ACK_CHUNK, rest) {
      CollectOffers(line.rx, Frame(ACK, number, payload), ACK_CHUNK, rest);
    }
  }

  /** What is offered is what remains behind it, and nothing is sent. */
  lemma AwaitLeaves(line: Line, number: byte, payload: seq<byte>, rest: seq<Event>)
    requires Offers(line.rx, Frame(ACK, number, payload), ACK_CHUNK, rest)
    ensures AwaitAck(line, number) == Outcome(true, Line(rest, line.sent))
  {
    hide Collect, Inspect, Offers;
    CollectOffers(line.rx, Frame(ACK, number, payload), ACK_CHUNK, rest);
  }

  /** Whatever arrives, one call of receive sends at most one control frame, and hands over a payload only
      after sending an ACK. */
  lemma ReceiveAnswersOnce(env: Env, line: Line, room: nat)
    ensures var r := ReceiveOutcome(env, line, room);
            && line.sent <= r.line.sent && |r.line.sent| <= |line.sent| + 1
            && (r.ok ==> exists number ::
                  var wire := Wire(Control(ACK, number));
                  r.line.sent[|line.sent|..] == [Tx(wire, env.accept(line.sent, wire))])
  {
    hide Wire, Collect, Inspect;
    var r := ReceiveOutcome(env, line, room);
    if r.ok {
      var c := Collect(line.rx, false, [], FRAME_CHUNK);
      var number := Inspect(c.bytes).frame.number;
      var wire := Wire(Control(ACK, number));
      assert r.line.sent[|line.sent|..] == [Tx(wire, env.accept(line.sent, wire))];
    }
  }

  // ---- A frame on the line ----

  lemma ChunkOffered(g: seq<byte>, x: seq<byte>, rest: seq<Event>, cap: nat)
    requires Free(SOF, g) && |Encoded(x)| <= cap
    ensures Collect(Events(g + ([SOF] + Encoded(x))) + rest, false, [], cap) == Chunk(Encoded(x), rest)
  {
    var body := EncodedShape(x);
    CollectFrame(g, body, rest, cap);
    assert g + [SOF] + body + [0] == g + ([SOF] + (body + [0]));
  }

  lemma FrameOffered(g: seq<byte>, f: Frame, rest: seq<Event>, cap: nat)
    requires Free(SOF, g) && |Encoded(Raw(f))| <= cap
    ensures Collect(Events(g + Wire(f)) + rest, false, [], cap) == Chunk(Encoded(Raw(f)), rest)
    ensures Inspect(Encoded(Raw(f))) == Good(f)
  {
    ChunkOffered(g, Raw(f), rest, cap);
    FrameRoundTrip(f);
  }

  lemma AwaitFrame(f: Frame, rest: seq<Event>, sent: seq<Tx>, number: byte)
    requires |f.payload| <= 10
    ensures AwaitAck(Line(Events(Wire(f)) + rest, sent), number)
         == Outcome(f.kind == ACK && f.number == number, Line(rest, sent))
  {
    WireSize(f);
    FrameOffered([], f, rest, ACK_CHUNK);
    assert [] + Wire(f) == Wire(f);
  }

  lemma ReceiveData(env: Env, number: byte, p: seq<byte>, rest: seq<Event>, sent: seq<Tx>, room: nat)
    requires |p| <= MAX_PAYLOAD && |p| <= room
    ensures ReceiveOutcome(env, Line(Events(Wire(Frame(DATA, number, p))) + rest, sent), room)
         == Received(true, p, Transmit(env, Line(rest, sent), Wire(Control(ACK, number))).line)
  {
    var f := Frame(DATA, number, p);
    WireSize(f);
    FrameOffered([], f, rest, FRAME_CHUNK);
    assert [] + Wire(f) == Wire(f);
  }

  // ---- Sending ----

  function SameTx(tx: Tx, n: nat): (txs: seq<Tx>)
    ensures |txs| == n
  {
    seq(n, _ => tx)
  }

  ghost predicate Sends(send: Step, wire: seq<byte>) {
    forall line {:trigger send(line)} :: send(line).line.sent == line.sent + [Tx(wire, send(line).ok)]
  }

  ghost predicate OnlyReads(wait: Step) {
    forall line {:trigger wait(line)} :: wait(line).line.sent == line.sent
  }

  /** Every transmission of a call is the same frame; a call that fails has made all n attempts, and one
      that succeeds has ended with a transmission that went out. */
  lemma {:induction false} AttemptsSend(send: Step, wait: Step, wire: seq<byte>, line: Line, n: nat)
    returns (txs: seq<Tx>)
    requires Sends(send, wire) && OnlyReads(wait)
    ensures var r := Attempts(send, wait, line, n);
            && r.line.sent == line.sent + txs && |txs| <= n
            && (forall t | t in txs :: t.bytes == wire)
            && (if r.ok then |txs| > 0 && txs[|txs| - 1].ok else |txs| == n)
    decreases n
  {
    txs := [];
    if n != 0 {
      var sent := send(line);
      txs := [Tx(wire, sent.ok)];
      if !sent.ok || !wait(sent.line).ok {
        var others := AttemptsSend(send, wait, wire, if !sent.ok then sent.line else wait(sent.line).line, n - 1);
        assert (line.sent + txs) + others == line.sent + (txs + others);
        txs := txs + others;
      }
    }
  }

  /** A call that succeeds has ended with a wait that succeeded. */
  lemma {:induction false} AttemptsAcked(send: Step, wait: Step, line: Line, n: nat) returns (before: Line)
    ensures var r := Attempts(send, wait, line, n); r.ok ==> wait(before) == r
    decreases n
  {
    before := line;
    if n != 0 {
      var sent := send(line);
      before := sent.line;
      if !sent.ok || !wait(sent.line).ok {
        before := AttemptsAcked(send, wait, if !sent.ok then sent.line else wait(sent.line).line, n - 1);
      }
    }
  }

  /** A call of send puts between one and four copies of the same data frame on the line, and four before it fails. It
      succeeds only after a transmission that went out and a wait that found an acknowledgement of its number. */
  lemma SendSound(env: Env, line: Line, p: seq<byte>, number: byte)
    returns (txs: seq<Tx>, rx: seq<Event>, payload: seq<byte>)
    ensures var r := SendOutcome(env, line, p, number);
            && r.line.sent == line.sent + txs && 1 <= |txs| <= 4 && (!r.ok ==> |txs| == 4)
            && (forall t | t in txs :: t.bytes == Wire(Frame(0x01, number, p)))
            && (r.ok ==> txs[|txs| - 1].ok && Offers(rx, Frame(ACK, number, payload), ACK_CHUNK, r.line.rx))
  {
    hide Wire, Offers, Collect, Inspect;
    var send, wait := Sender(env, Wire(Frame(DATA, number, p))), Waiter(number);
    txs := AttemptsSend(send, wait, Wire(Frame(DATA, number, p)), line, MAX_RETRIES + 1);
    var before := AttemptsAcked(send, wait, line, MAX_RETRIES + 1);
    rx, payload := before.rx, [];
    AwaitExact(before, number);
    if SendOutcome(env, line, p, number).ok {
      var carried, rest :| Offers(before.rx, Frame(ACK, number, carried), ACK_CHUNK, rest);
      AwaitLeaves(before, number, carried, rest);
      payload := carried;
    }
  }

  ghost predicate Refuses(send: Step, tx: Tx) {
    forall line {:trigger send(line)} ::
      !send(line).ok && send(line).line.sent == line.sent + [tx] && line.rx <= send(line).line.rx
  }

  lemma {:induction false} RefusedAttempts(send: Step, wait: Step, tx: Tx, line: Line, n: nat)
    requires Refuses(send, tx)
    ensures var r := Attempts(send, wait, line, n);
            !r.ok && r.line.sent == line.sent + SameTx(tx, n) && line.rx <= r.line.rx
    decreases n
  {
    if n != 0 {
      var next := send(line).line;
      RefusedAttempts(send, wait, tx, next, n - 1);
      CopiesStep(line.sent, tx, n - 1);
    }
  }

  /** A send that fails skips its wait: when none succeeds, the call makes four attempts and reads nothing. */
  lemma RefusedSends(env: Env, line: Line, p: seq<byte>, number: byte)
    requires forall sent, bytes {:trigger env.accept(sent, bytes)} :: !env.accept(sent, bytes)
    ensures var r := SendOutcome(env, line, p, number);
            && !r.ok && line.rx <= r.line.rx
            && r.line.sent == line.sent + SameTx(Tx(Wire(Frame(0x01, number, p)), false), 4)
  {
    hide Wire;
    var wire := Wire(Frame(DATA, number, p));
    RefusedAttempts(Sender(env, wire), Waiter(number), Tx(wire, false), line, MAX_RETRIES + 1);
  }

  /** Every send succeeds and causes nothing new to arrive. */
  ghost predicate Quiet(env: Env) {
    && (forall sent, bytes {:trigger env.accept(sent, bytes)} :: env.accept(sent, bytes))
    && (forall sent {:trigger env.react(sent)} :: env.react(sent) == [])
  }

  /** Bytes that make a wait end, and with which result. */
  ghost predicate Ends(w: seq<byte>, wait: Step, ok: bool) {
    forall rest, sent {:trigger wait(Line(Events(w) + rest, sent))} ::
      wait(Line(Events(w) + rest, sent)) == Outcome(ok, Line(rest, sent))
  }

  lemma ShortFrameEnds(f: Frame, number: byte)
    requires |f.payload| <= 10
    ensures Ends(Wire(f), Waiter(number), f.kind == ACK && f.number == number)
  {
    forall rest, sent
      ensures Waiter(number)(Line(Events(Wire(f)) + rest, sent))
           == Outcome(f.kind == ACK && f.number == number, Line(rest, sent))
    {
      AwaitFrame(f, rest, sent, number);
    }
  }

  /** Stale wires, then the acknowledgement, then whatever follows. */
  function StaleStream(ws: seq<seq<byte>>, ack: seq<byte>, rest: seq<Event>): seq<Event> {
    if ws == [] then Events(ack) + rest else Events(ws[0]) + StaleStream(ws[1..], ack, rest)
  }

  /** The send step of a quiet line: it only records the transmission. */
  ghost predicate Records(send: Step, tx: Tx) {
    forall line: Line {:trigger send(line)} :: send(line) == Outcome(true, Line(line.rx, line.sent + [tx]))
  }

  lemma QuietRecords(env: Env, wire: seq<byte>)
    requires Quiet(env)
    ensures Records(Sender(env, wire), Tx(wire, true))
  {
    forall line: Line
      ensures Sender(env, wire)(line) == Outcome(true, Line(line.rx, line.sent + [Tx(wire, true)]))
    {
      assert line.rx + [] == line.rx;
    }
  }

  lemma CopiesStep(sent: seq<Tx>, tx: Tx, n: nat)
    ensures (sent + [tx]) + SameTx(tx, n) == sent + SameTx(tx, n + 1)
  {
  }

  lemma AttemptOn(send: Step, wait: Step, tx: Tx, sent: seq<Tx>, w: seq<byte>, ok: bool, rest: seq<Event>, n: nat)
    requires Records(send, tx) && Ends(w, wait, ok) && n > 0
    ensures Attempts(send, wait, Line(Events(w) + rest, sent), n)
         == if ok then Outcome(true, Line(rest, sent + [tx]))
            else Attempts(send, wait, Line(rest, sent + [tx]), n - 1)
  {
    var line, sent' := Line(Events(w) + rest, sent), sent + [tx];
    assert send(line) == Outcome(true, Line(line.rx, sent'));
    assert wait(Line(line.rx, sent')) == Outcome(ok, Line(rest, sent'));
  }

  /** Each stale wire ahead of the acknowledgement costs one attempt: the call succeeds exactly when
      there are fewer of them than attempts. */
  lemma {:induction false} StaleWires(send: Step, wait: Step, tx: Tx, sent: seq<Tx>, ws: seq<seq<byte>>, ack: seq<byte>,
                                     rest: seq<Event>, n: nat)
    requires Records(send, tx) && Ends(ack, wait, true) && forall w | w in ws :: Ends(w, wait, false)
    ensures var r := Attempts(send, wait, Line(StaleStream(ws, ack, rest), sent), n);
            && (r.ok <==> |ws| < n)
            && (|ws| < n ==> r.line == Line(rest, sent + SameTx(tx, |ws| + 1)))
    decreases n
  {
    if n != 0 {
      CopiesStep(sent, tx, |ws|);
      if ws == [] {
        AttemptOn(send, wait, tx, sent, ack, true, rest, n);
        assert (sent + [tx]) + SameTx(tx, 0) == sent + [tx];
      } else {
        AttemptOn(send, wait, tx, sent, ws[0], false, StaleStream(ws[1..], ack, rest), n);
        StaleWires(send, wait, tx, sent + [tx], ws[1..], ack, rest, n - 1);
      }
    }
  }

  function Wires(fs: seq<Frame>): (ws: seq<seq<byte>>)
    ensures |ws| == |fs|
  {
    seq(|fs|, i requires 0 <= i < |fs| => Wire(fs[i]))
  }

  /** A short frame that does not acknowledge this number. */
  predicate Stale(f: Frame, number: byte) {
    |f.payload| <= 10 && !(f.kind == ACK && f.number == number)
  }

  lemma StaleEnd(fs: seq<Frame>, number: byte)
    requires forall f | f in fs :: Stale(f, number)
    ensures forall w | w in Wires(fs) :: Ends(w, Waiter(number), false)
  {
    forall w | w in Wires(fs)
      ensures Ends(w, Waiter(number), false)
    {
      var i :| 0 <= i < |fs| && Wires(fs)[i] == w;
      assert Stale(fs[i], number);
      ShortFrameEnds(fs[i], number);
    }
  }

  /** With up to three stale frames in the way, and no more, a call of send still succeeds. */
  lemma StaleTolerance(env: Env, line: Line, fs: seq<Frame>, number: byte, rest: seq<Event>, p: seq<byte>)
    requires Quiet(env) && forall f | f in fs :: Stale(f, number)
    requires line.rx == StaleStream(Wires(fs), Wire(Control(ACK, number)), rest)
    ensures var r := SendOutcome(env, line, p, number);
            && (r.ok <==> |fs| <= 3)
            && (|fs| <= 3 ==>
                  r.line == Line(rest, line.sent + SameTx(Tx(Wire(Frame(DATA, number, p)), true), |fs| + 1)))
  {
    var wire := Wire(Frame(DATA, number, p));
    StaleEnd(fs, number);
    ShortFrameEnds(Control(ACK, number), number);
    QuietRecords(env, wire);
    StaleWires(Sender(env, wire), Waiter(number), Tx(wire, true), line.sent, Wires(fs), Wire(Control(ACK, number)),
               rest, MAX_RETRIES + 1);
  }

  // ---- The sequence number over any history of calls ----

  datatype History = History(oks: seq<bool>, number: byte, line: Line)

  /** One call of send, as a function of the line, the sequence number and the payload. */
  type Caller = (Line, byte, seq<byte>) -> Outcome

  function DriverCall(env: Env): Caller {
    (line: Line, number: byte, p: seq<byte>) =>
      if |p| > MAX_PAYLOAD then Outcome(false, line) else SendOutcome(env, line, p, number)
  }

  function Calls(call: Caller, line: Line, number: byte, payloads: seq<seq<byte>>): History
    decreases payloads
  {
    if payloads == [] then History([], number, line)
    else
      var r := call(line, number, payloads[0]);
      var h := Calls(call, r.line, if r.ok then number + 1 else number, payloads[1..]);
      h.(oks := [r.ok] + h.oks)
  }

  function Successes(oks: seq<bool>): nat {
    if oks == [] then 0 else (if oks[0] then 1 else 0) + Successes(oks[1..])
  }

  lemma CallsHead(call: Caller, line: Line, number: byte, payloads: seq<seq<byte>>) returns (r: Outcome)
    requires payloads != []
    ensures var h := Calls(call, line, number, payloads);
            var t := Calls(call, r.line, if r.ok then number + 1 else number, payloads[1..]);
            h.number == t.number && h.oks == [r.ok] + t.oks
  {
    r := call(line, number, payloads[0]);
  }

  lemma {:induction false} CallsCount(call: Caller, line: Line, n: nat, payloads: seq<seq<byte>>)
    ensures var h := Calls(call, line, Nth(n), payloads); h.number == Nth(n + Successes(h.oks))
    decreases payloads
  {
    if payloads != [] {
      hide Nth;
      var r := CallsHead(call, line, Nth(n), payloads);
      var m := if r.ok then n + 1 else n;
      NthNext(n);
      CallsCount(call, r.line, m, payloads[1..]);
    }
  }

  /** The number a fresh driver uses next is the count of its successful calls modulo 256. */
  lemma NumberCountsSuccesses(env: Env, line: Line, payloads: seq<seq<byte>>)
    ensures var h := Calls(DriverCall(env), line, 0, payloads); Value(h.number) == Successes(h.oks) % 256
  {
    CallsCount(DriverCall(env), line, 0, payloads);
    ValueOfNth(Successes(Calls(DriverCall(env), line, 0, payloads).oks));
  }

  // ---- One damaged byte ----

  lemma CutFrameCollected(body: seq<byte>, j: nat, g: seq<byte>, rest: seq<Event>)
    requires j < |body| && NoZero(body) && |body| < FRAME_CHUNK && Free(SOF, g)
    ensures Collect(Events(g + [SOF] + body[j := 0] + [0]) + rest, false, [], FRAME_CHUNK)
         == Chunk(body[..j] + [0], Events(body[j + 1..] + [0]) + rest)
  {
    var head, tail := g + [SOF] + body[..j] + [0], body[j + 1..] + [0];
    assert g + [SOF] + body[j := 0] + [0] == head + tail;
    EventsConcat(head, tail);
    assert Events(head + tail) + rest == Events(head) + (Events(tail) + rest);
    CollectFrame(g, body[..j], Events(tail) + rest, FRAME_CHUNK);
  }

  /** Without full blocks byte j of the stuffed form is byte j - 1 of the message; byte 1 of that is the number. */
  lemma ReplacedByteCorrupt(body: seq<byte>, x: seq<byte>, j: nat, v: byte)
    requires Unstuffed(body).Some? && Unstuffed(body).value == x && Check(x) && |x| >= 4 && |body| < 255
    requires j < |body| && IsData(body, j) && v != body[j] && v != 0
    ensures Inspect(body[j := v] + [0]) == Corrupt(if j == 2 then v else x[1])
  {
    var k := DataByteChanged(body, x, j, v);
    ByteChangeDetected(x, k, v);
    assert (body[j := v] + [0])[..|body|] == body[j := v];
  }

  lemma ZeroedByteMalformed(x: seq<byte>, j: nat)
    requires j < |Stuffed(x)| && IsData(Stuffed(x), j)
    ensures Inspect(Stuffed(x)[..j] + [0]) == Malformed
  {
    var body := Stuffed(x);
    RoundTrip(x);
    DataByteCut(body, j);
    assert (body[..j] + [0])[..j] == body[..j];
  }

  lemma CorruptAnswered(env: Env, line: Line, room: nat, g: seq<byte>, body: seq<byte>, rest: seq<Event>, n: byte)
    requires Free(SOF, g) && NoZero(body) && |body| < FRAME_CHUNK && Inspect(body + [0]) == Corrupt(n)
    requires line.rx == Events(g + [SOF] + body + [0]) + rest
    ensures ReceiveOutcome(env, line, room)
         == Received(false, [], Transmit(env, Line(rest, line.sent), Wire(Control(NACK, n))).line)
  {
    CollectFrame(g, body, rest, FRAME_CHUNK);
  }

  lemma SealedBody(f: Frame) returns (body: seq<byte>, x: seq<byte>)
    requires |f.payload| <= MAX_PAYLOAD
    ensures body == Stuffed(Raw(f)) && x == Raw(f) && NoZero(body) && |body| < 255 && x[1] == f.number
    ensures Unstuffed(body) == Some(x) && Check(x) && |x| >= 4
  {
    x := Raw(f);
    body := EncodedShape(x);
    WireSize(f);
    SealedChecks([f.kind, f.number] + f.payload);
    RoundTrip(x);
  }

  lemma ReplacedByteAnswered(env: Env, line: Line, room: nat, body: seq<byte>, x: seq<byte>, j: nat, v: byte,
                             g: seq<byte>, rest: seq<Event>)
    requires Free(SOF, g) && NoZero(body) && |body| < 255 && Unstuffed(body) == Some(x) && Check(x) && |x| >= 4
    requires j < |body| && IsData(body, j) && v != body[j] && v != 0
    requires line.rx == Events(g + [SOF] + body[j := v] + [0]) + rest
    ensures var n := if j == 2 then v else x[1];
            ReceiveOutcome(env, line, room)
            == Received(false, [], Transmit(env, Line(rest, line.sent), Wire(Control(NACK, n))).line)
  {
    hide Inspect, IsData, Unstuffed, Check, Transmit, Wire, ReceiveOutcome;
    ReplacedByteCorrupt(body, x, j, v);
    CorruptAnswered(env, line, room, g, body[j := v], rest, if j == 2 then v else x[1]);
  }

  /** A frame with one data byte of its stuffed form replaced by another nonzero byte is never delivered:
      the receiver answers with a NACK under the frame's number, unless that is the byte replaced. */
  lemma ReplacedByteRejected(env: Env, line: Line, room: nat, f: Frame, j: nat, v: byte, g: seq<byte>, rest: seq<Event>)
    requires |f.payload| <= 128 && Free(SOF, g)
    requires var body := Stuffed(Raw(f));
             && j < |body| && IsData(body, j) && v != body[j] && v != 0
             && line.rx == Events(g + [SOF] + body[j := v] + [0]) + rest
    ensures var nack := Wire(Control(0x03, if j == 2 then v else f.number));
            ReceiveOutcome(env, line, room) == Received(false, [], Transmit(env, Line(rest, line.sent), nack).line)
  {
    var body, x := SealedBody(f);
    ReplacedByteAnswered(env, line, room, body, x, j, v, g, rest);
  }

  /** A frame with one data byte of its stuffed form zeroed is cut short there: it is neither delivered nor
      answered, and the receiver is left at the byte behind the false delimiter. */
  lemma ZeroedByteRejected(env: Env, line: Line, room: nat, f: Frame, j: nat, g: seq<byte>, rest: seq<Event>)
    requires |f.payload| <= MAX_PAYLOAD && Free(SOF, g)
    requires var body := Stuffed(Raw(f));
             && j < |body| && IsData(body, j)
             && line.rx == Events(g + [SOF] + body[j := 0] + [0]) + rest
    ensures ReceiveOutcome(env, line, room)
         == Received(false, [], Line(Events(Stuffed(Raw(f))[j + 1..] + [0]) + rest, line.sent))
  {
    var body := EncodedShape(Raw(f));
    WireSize(f);
    ZeroedByteMalformed(Raw(f), j);
    CutFrameCollected(body, j, g, rest);
  }
}
