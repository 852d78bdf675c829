/** The tail of an echo that a wait could not take whole: when the next call is misled by it, a payload with which it
    is, and what later calls make of a frame that was cut in two. */
module EchoTails {
  import opened Bytes
  import opened Cobs
  import opened CobsTheorems
  import opened Crc16
  import opened FrameExamples
  import opened Frames
  import opened Link
  import opened Reception
  import opened Round
  import opened Rs485Protocol
  import opened Segments
  import opened StopAndWait
  import opened StopAndWaitRuns
  import opened StopAndWaitSafety
  import opened StopAndWaitTheorems
  import opened Wrappers

  // ---- A call whose every frame is lost ----

  lemma {:induction false} OneWaitLess(b: seq<byte>, c: seq<byte>, r: nat)
    requires AfterWaits(b, 1) == Some(c)
    ensures AfterWaits(b, r + 1) == AfterWaits(c, r)
  {
    hide Starts, Left;
    if r > 0 {
      OneWaitLess(b, c, r - 1);
    }
  }

  /** A line on which nothing is left. */
  lemma {:induction false} SilentFails(send: Step, tx: Tx, sent: seq<Tx>, number: byte, n: nat)
    requires Records(send, tx)
    ensures !Attempts(send, Waiter(number), Line([], sent), n).ok
    decreases n
  {
    if n > 0 {
      assert send(Line([], sent)) == Outcome(true, Line([], sent + [tx]));
      assert Waiter(number)(Line([], sent + [tx])) == Outcome(false, Line([], sent + [tx]));
      SilentFails(send, tx, sent + [tx], number, n - 1);
    }
  }

  /** One wait on a body. */
  lemma WaitOn(b: seq<byte>, sent: seq<Tx>, number: byte)
    requires NoZero(b)
    ensures AwaitAck(Line(OnLine(b), sent), number).ok <==> AckAt(b, 0, number)
    ensures !AckAt(b, 0, number) ==>
              AwaitAck(Line(OnLine(b), sent), number).line
              == Line(if AfterWaits(b, 1).Some? then OnLine(AfterWaits(b, 1).value) else [], sent)
  {
    hide Collect, Inspect, Caught, Left, Starts;
    CollectSegment(b, [], ACK_CHUNK);
    assert OnLine(b) + [] == OnLine(b);
    NoWaits(b);
    if Starts(b) && Left(b, ACK_CHUNK).Some? {
      assert OnLine(Left(b, ACK_CHUNK).value) + [] == OnLine(Left(b, ACK_CHUNK).value);
    }
    SilentCollect();
  }

  lemma SilentCollect()
    ensures Collect([], false, [], ACK_CHUNK) == TimedOut([])
  {
  }

  /** The call succeeds with the wait that first finds an acknowledgement, and only then. */
  lemma {:induction false} WaitsOn(send: Step, tx: Tx, sent: seq<Tx>, b: seq<byte>, number: byte, n: nat)
    requires Records(send, tx) && NoZero(b)
    ensures var r := Attempts(send, Waiter(number), Line(OnLine(b), sent), n);
            && (r.ok <==> AcksWithin(b, number, n))
            && (r.ok ==> exists i: nat :: i < n && AckAt(b, i, number) && r.line.sent == sent + SameTx(tx, i + 1))
    decreases n
  {
    hide AwaitAck, AckAt, AfterWaits;
    if n > 0 {
      var line, sent' := Line(OnLine(b), sent), sent + [tx];
      assert send(line) == Outcome(true, Line(OnLine(b), sent'));
      WaitOn(b, sent', number);
      CopiesStep(sent, tx, 0);
      assert (sent + [tx]) + SameTx(tx, 0) == sent + [tx];
      if AckAt(b, 0, number) {
        AwaitKeepsSent(Line(OnLine(b), sent'), number);
      } else if AfterWaits(b, 1).None? {
        SilentFails(send, tx, sent', number, n - 1);
        NoLaterAck(b, number, n);
      } else {
        var c := AfterWaits(b, 1).value;
        WaitsOn(send, tx, sent', c, number, n - 1);
        LaterAcks(b, c, number, n - 1);
        var r := Attempts(send, Waiter(number), Line(OnLine(c), sent'), n - 1);
        if r.ok {
          var i: nat :| i < n - 1 && AckAt(c, i, number) && r.line.sent == sent' + SameTx(tx, i + 1);
          CopiesStep(sent, tx, i + 1);
          assert AckAt(b, i + 1, number);
        }
      }
    }
  }

  lemma AwaitKeepsSent(line: Line, number: byte)
    ensures AwaitAck(line, number).line.sent == line.sent
  {
    hide Collect, Inspect;
  }

  lemma NoLaterAck(b: seq<byte>, number: byte, n: nat)
    requires !AckAt(b, 0, number) && AfterWaits(b, 1).None?
    ensures !AcksWithin(b, number, n)
  {
    hide Starts, Left, AfterWaits, Inspect, Caught;
    forall i: nat
      ensures !AckAt(b, i, number)
    {
      if i > 1 {
        NothingLeft(b, 1, i);
      }
    }
  }

  lemma LaterAcks(b: seq<byte>, c: seq<byte>, number: byte, n: nat)
    requires AfterWaits(b, 1) == Some(c) && !AckAt(b, 0, number)
    ensures forall i: nat {:trigger AckAt(c, i, number)} :: AckAt(c, i, number) <==> AckAt(b, i + 1, number)
    ensures AcksWithin(b, number, n + 1) <==> AcksWithin(c, number, n)
  {
    hide Starts, AfterWaits, Inspect, Caught;
    forall i: nat
      ensures AckAt(c, i, number) <==> AckAt(b, i + 1, number)
    {
      OneWaitLess(b, c, i);
    }
    if AcksWithin(b, number, n + 1) {
      var i: nat :| i < n + 1 && AckAt(b, i, number);
      assert AckAt(c, i - 1, number);
    }
    if AcksWithin(c, number, n) {
      var i: nat :| i < n && AckAt(c, i, number);
      assert AckAt(b, i + 1, number);
    }
  }

  /** A call whose every frame is lost, while the echo of an earlier call (or other bytes) lies unread on the line,
      succeeds exactly when one of its four waits finds an acknowledgement of its number in there. */
  lemma LostCallIff(env: Env, sent: seq<Tx>, b: seq<byte>, q: seq<byte>, number: byte)
    requires Quiet(env) && NoZero(b)
    ensures SendOutcome(env, Line(OnLine(b), sent), q, number).ok <==> AcksWithin(b, number, MAX_RETRIES + 1)
  {
    hide Wire, Attempts, AcksWithin;
    var wire := Wire(Frame(DATA, number, q));
    QuietRecords(env, wire);
    WaitsOn(Sender(env, wire), Tx(wire, true), sent, b, number, MAX_RETRIES + 1);
  }

  // ---- A payload that misleads ----

  const MISLEADING: seq<byte> := [0x41, 0x41, 0x41, 0x41, 0x41, 0x41, 0x41, 0x41, 0x41, 0x41, 0x41,
                                  0x2A, 0x72, 0x55, 0x05, 0x02, 0x01]

  lemma MisleadingCrc()
    ensures Crc([DATA, 0] + MISLEADING) == 0x6B4C
  {
    hide Crc;
    NothingFed();
    var d1 := NextByte([], 0x01, 0xFFFF, 0xF1D1);
    var d2 := NextByte(d1, 0x00, 0xF1D1, 0x2E3E);
    var d3 := NextByte(d2, 0x41, 0x2E3E, 0xA349);
    var d4 := NextByte(d3, 0x41, 0xA349, 0x946C);
    var d5 := NextByte(d4, 0x41, 0x946C, 0xF7D8);
    var d6 := NextByte(d5, 0x41, 0xF7D8, 0x1F1D);
    var d7 := NextByte(d6, 0x41, 0x1F1D, 0xA63B);
    var d8 := NextByte(d7, 0x41, 0xA63B, 0xB6C9);
    var d9 := NextByte(d8, 0x41, 0xB6C9, 0x56F8);
    var d10 := NextByte(d9, 0x41, 0x56F8, 0x9AD6);
    var d11 := NextByte(d10, 0x41, 0x9AD6, 0xAC16);
    var d12 := NextByte(d11, 0x41, 0xAC16, 0x3A83);
    var d13 := NextByte(d12, 0x41, 0x3A83, 0x4CFC);
    var d14 := NextByte(d13, 0x2A, 0x4CFC, 0xF060);
    var d15 := NextByte(d14, 0x72, 0xF060, 0xD1CA);
    var d16 := NextByte(d15, 0x55, 0xD1CA, 0x1B0C);
    var d17 := NextByte(d16, 0x05, 0x1B0C, 0xFFFF);
    var d18 := NextByte(d17, 0x02, 0xFFFF, 0xC1B2);
    var d19 := NextByte(d18, 0x01, 0xC1B2, 0x6B4C);
    assert d19 == [DATA, 0] + MISLEADING;
  }

  lemma AckBodyOfOne()
    ensures AckBody(1) == [SOF, 0x05, 0x02, 0x01, 0x6B, 0x4C]
  {
    AckOnWire();
    BodyOnWire(Control(ACK, 1), [SOF, 0x05, 0x02, 0x01, 0x6B, 0x4C]);
  }

  lemma BodyOnWire(f: Frame, body: seq<byte>)
    requires Wire(f) == body + [0]
    ensures FrameBody(f) == body
  {
    hide Raw, Stuffed;
    assert Wire(f) == FrameBody(f) + [0];
    assert Wire(f)[..|body|] == body && Wire(f)[..|FrameBody(f)|] == FrameBody(f);
  }

  lemma MisleadingRaw() returns (rest: seq<byte>)
    ensures Raw(Frame(DATA, 0, MISLEADING)) == [DATA] + ([0] + rest)
    ensures |rest| == 19 && NoZero(rest) && rest[13..] == AckBody(1)
  {
    hide Crc, AckBody;
    MisleadingCrc();
    AckBodyOfOne();
    rest := MISLEADING + [0x6B, 0x4C];
    assert [DATA, 0] + MISLEADING + [0x6B, 0x4C] == [DATA] + ([0] + rest);
  }

  /** Seventeen payload bytes without a zero, under number 0, are stuffed with two more bytes in front. */
  lemma StuffedUnderZero(p: seq<byte>, rest: seq<byte>) returns (head: seq<byte>)
    requires Raw(Frame(DATA, 0, p)) == [DATA] + ([0] + rest) && |rest| == 19 && NoZero(rest)
    ensures Stuffed(Raw(Frame(DATA, 0, p))) == head + rest[13..] && |head| == ACK_CHUNK
  {
    hide Raw, Stuffed, Nth;
    StuffedAtZero([DATA], rest);
    StuffedAtEnd(rest);
    head := Block([DATA]) + [Nth(20)] + rest[..13];
    assert Block([DATA]) + Block(rest) == head + rest[13..];
  }

  lemma TailUnderZero(p: seq<byte>, rest: seq<byte>)
    requires |p| == 17 && Raw(Frame(DATA, 0, p)) == [DATA] + ([0] + rest) && |rest| == 19 && NoZero(rest)
    ensures Tail(Frame(DATA, 0, p)) == Some(rest[13..])
  {
    hide Raw, Stuffed, Tail, FrameBody, AfterWaits, AckAt;
    var head := StuffedUnderZero(p, rest);
    FirstWait(Frame(DATA, 0, p), 0);
    assert (head + rest[13..])[ACK_CHUNK..] == rest[13..];
  }

  lemma MisleadingTail()
    ensures Tail(Frame(DATA, 0, MISLEADING)) == Some(AckBody(1))
  {
    hide Raw, Tail, AckBody;
    var rest := MisleadingRaw();
    TailUnderZero(MISLEADING, rest);
  }

  /** The first wait on the echo of this payload under number 0 stops in the middle of it; the second finds an
      acknowledgement of number 1 in the rest, which is payload and checksum of the echo. */
  lemma MisleadingAcks()
    ensures AckAt(EchoBody(0, MISLEADING), 1, 1) && !AckAt(EchoBody(0, MISLEADING), 0, 1)
  {
    hide Tail, Inspect, Caught, Left, Starts, FrameBody, AfterWaits;
    MisleadingTail();
    FirstWait(Frame(DATA, 0, MISLEADING), 1);
    AckMatches(1);
  }

  /** From n transmissions on every send succeeds and causes nothing new to arrive. */
  ghost predicate QuietAfter(env: Env, n: nat) {
    && (forall sent, bytes {:trigger env.accept(sent, bytes)} :: |sent| >= n ==> env.accept(sent, bytes))
    && (forall sent {:trigger env.react(sent)} :: |sent| > n ==> env.react(sent) == [])
  }

  lemma QuietSend(env: Env, rx: seq<Event>, sent: seq<Tx>, wire: seq<byte>)
    requires QuietAfter(env, |sent|)
    ensures Sender(env, wire)(Line(rx, sent)) == Outcome(true, Line(rx, sent + [Tx(wire, true)]))
    ensures QuietAfter(env, |sent| + 1)
  {
    assert rx + [] == rx;
  }

  lemma AttemptFailed(send: Step, wait: Step, line: Line, n: nat)
    requires n > 0 && send(line).ok && !wait(send(line).line).ok
    ensures Attempts(send, wait, line, n) == Attempts(send, wait, wait(send(line).line).line, n - 1)
  {
  }

  lemma AckTaken(number: byte, sent: seq<Tx>)
    ensures AwaitAck(Line(OnLine(AckBody(number)), sent), number) == Outcome(true, Line([], sent))
  {
    hide Wire, AwaitAck, FrameBody, Events;
    FrameBodyIs(Control(ACK, number));
    AwaitFrame(Control(ACK, number), [], sent, number);
    assert Events(Wire(Control(ACK, number))) + [] == Events(Wire(Control(ACK, number)));
  }

  lemma TwoAttempts(env: Env, sent: seq<Tx>, b: seq<byte>, q: seq<byte>, number: byte)
    requires QuietAfter(env, |sent|) && NoZero(b)
    requires !AckAt(b, 0, number) && AfterWaits(b, 1) == Some(AckBody(number))
    ensures SendOutcome(env, Line(OnLine(b), sent), q, number)
         == Outcome(true, Line([], sent + SameTx(Tx(Wire(Frame(DATA, number, q)), true), 2)))
  {
    hide Wire, AwaitAck, AckBody, OnLine, Attempts, AckAt, AfterWaits, Sender, SameTx, QuietAfter;
    var wire := Wire(Frame(DATA, number, q));
    var send, wait, tx := Sender(env, wire), Waiter(number), Tx(wire, true);
    QuietSend(env, OnLine(b), sent, wire);
    WaitOn(b, sent + [tx], number);
    AttemptFailed(send, wait, Line(OnLine(b), sent), MAX_RETRIES + 1);
    assert |sent + [tx]| == |sent| + 1;
    QuietSend(env, OnLine(AckBody(number)), sent + [tx], wire);
    AckTaken(number, sent + [tx] + [tx]);
    AttemptAcked(send, wait, Line(OnLine(AckBody(number)), sent + [tx]), MAX_RETRIES);
    TwoCopies(sent, tx);
  }

  lemma TwoCopies(sent: seq<Tx>, tx: Tx)
    ensures sent + [tx] + [tx] == sent + SameTx(tx, 2)
  {
  }

  /** With the echo of this payload unread, a call whose every frame is lost returns success after two transmissions,
      whatever it was to send. */
  lemma FalseSuccess(env: Env, sent: seq<Tx>, q: seq<byte>)
    requires QuietAfter(env, |sent|)
    ensures var r := SendOutcome(env, Line(OnLine(EchoBody(0, MISLEADING)), sent), q, 1);
            r.ok && r.line == Line([], sent + SameTx(Tx(Wire(Frame(DATA, 1, q)), true), 2))
  {
    hide Wire, FrameBody, SendOutcome, QuietAfter, OnLine, Tail, AfterWaits, AckAt;
    MisleadingAcks();
    EchoNoZero(0, MISLEADING);
    FirstWait(Frame(DATA, 0, MISLEADING), 1);
    MisleadingTail();
    TwoAttempts(env, sent, EchoBody(0, MISLEADING), q, 1);
  }

  /** Every frame but the first is lost. */
  function FirstOnly(): Env {
    Env((_, _) => true, (sent: seq<Tx>) => if |sent| <= 1 then Round.HeardBack(sent) else [])
  }

  /** The first call of a fresh driver is answered. */
  lemma FirstAnswered(p: seq<byte>)
    requires |p| <= MAX_PAYLOAD
    ensures SendOutcome(FirstOnly(), Line([], []), p, 0)
         == Outcome(true, Line(OnLine(EchoBody(0, p)), [Tx(Wire(Frame(DATA, 0, p)), true)]))
  {
    hide Wire, Link.Transmit, AwaitAck, FrameBody, Events, Attempts, FirstOnly, Lossless, Responder.ReactAll;
    var f := Frame(DATA, 0, p);
    var start, wire := Line([], []), Wire(f);
    SendRound(start, p, 0);
    FrameBodyIs(f);
    FirstCarried(start, wire);
    AnsweredLine(f);
    AttemptAcked(Sender(FirstOnly(), wire), Waiter(0), start, MAX_RETRIES + 1);
  }

  lemma AnsweredLine(f: Frame)
    requires |f.payload| <= MAX_PAYLOAD && f.kind == DATA
    ensures var r := Link.Transmit(Lossless(), Line([], []), Wire(f));
            r.ok && AwaitAck(r.line, f.number) == Outcome(true, Line(Events(Wire(f)), [Tx(Wire(f), true)]))
  {
    hide Wire, Link.Transmit, AwaitAck, Events, Responder.ReactAll;
    var start, ack, tx := Line([], []), Control(ACK, f.number), Tx(Wire(f), true);
    Carried(start, f);
    EventsConcat(Wire(ack), Wire(f));
    assert [] + [tx] == [tx];
    assert [] + Events(Wire(ack) + Wire(f)) == Events(Wire(ack)) + Events(Wire(f));
    AwaitFrame(ack, Events(Wire(f)), [tx], f.number);
  }

  lemma FirstCarried(line: Line, bytes: seq<byte>)
    requires line.sent == []
    ensures Link.Transmit(FirstOnly(), line, bytes) == Link.Transmit(Lossless(), line, bytes)
  {
    hide Round.HeardBack;
  }

  /** A fresh driver sends the misleading payload and has it acknowledged, and everything it transmits afterwards is
      lost: its second call returns success all the same. */
  lemma SecondCallMisled(q: seq<byte>)
    ensures var first := SendOutcome(FirstOnly(), Line([], []), MISLEADING, 0);
            var second := SendOutcome(FirstOnly(), first.line, q, 1);
            && first.ok && second.ok
            && second.line.sent == first.line.sent + SameTx(Tx(Wire(Frame(DATA, 1, q)), true), 2)
  {
    hide Wire, SendOutcome, FrameBody, Round.HeardBack;
    FirstAnswered(MISLEADING);
    FalseSuccess(FirstOnly(), [Tx(Wire(Frame(DATA, 0, MISLEADING)), true)], q);
  }

  /** So the log of these two calls is not sound, and some run of the system with it never delivers the second
      payload. */
  lemma MisleadingLog(q: seq<byte>, budget: nat) returns (s: State)
    requires |q| <= MAX_PAYLOAD && budget >= 2
    ensures Reachable(s) && s.budget == budget && Log(s.calls) == [Entry(MISLEADING, true), Entry(q, true)]
    ensures !Has(s.delivered, 1)
  {
    hide EchoBody, AckAt, Reachable, Log, Has;
    var log := [Entry(MISLEADING, true), Entry(q, true)];
    MisleadingAcks();
    assert Number(log, 0) == 0 && Number(log, 1) == 1 && Place(log, 1) == 1;
    assert Nth(0) == 0 && Nth(1) == 1;
    assert Misleads(log, 0, 1, budget);
    s := Misled(log, 0, 1, budget);
  }

  // ---- A payload that leaks ----

  const LEAKY: seq<byte> := [0x41, 0x41, 0x41, 0x41, 0x41, 0x41, 0x41, 0x41, 0x41, 0x41, 0x41,
                             0x2A, 0x72, 0x55, 0x05, 0x01, 0x01]

  lemma LeakyCrc()
    ensures Crc([DATA, 0] + LEAKY) == 0x3E1F
  {
    hide Crc;
    NothingFed();
    var d1 := NextByte([], 0x01, 0xFFFF, 0xF1D1);
    var d2 := NextByte(d1, 0x00, 0xF1D1, 0x2E3E);
    var d3 := NextByte(d2, 0x41, 0x2E3E, 0xA349);
    var d4 := NextByte(d3, 0x41, 0xA349, 0x946C);
    var d5 := NextByte(d4, 0x41, 0x946C, 0xF7D8);
    var d6 := NextByte(d5, 0x41, 0xF7D8, 0x1F1D);
    var d7 := NextByte(d6, 0x41, 0x1F1D, 0xA63B);
    var d8 := NextByte(d7, 0x41, 0xA63B, 0xB6C9);
    var d9 := NextByte(d8, 0x41, 0xB6C9, 0x56F8);
    var d10 := NextByte(d9, 0x41, 0x56F8, 0x9AD6);
    var d11 := NextByte(d10, 0x41, 0x9AD6, 0xAC16);
    var d12 := NextByte(d11, 0x41, 0xAC16, 0x3A83);
    var d13 := NextByte(d12, 0x41, 0x3A83, 0x4CFC);
    var d14 := NextByte(d13, 0x2A, 0x4CFC, 0xF060);
    var d15 := NextByte(d14, 0x72, 0xF060, 0xD1CA);
    var d16 := NextByte(d15, 0x55, 0xD1CA, 0x1B0C);
    var d17 := NextByte(d16, 0x05, 0x1B0C, 0xFFFF);
    var d18 := NextByte(d17, 0x01, 0xFFFF, 0xF1D1);
    var d19 := NextByte(d18, 0x01, 0xF1D1, 0x3E1F);
    assert d19 == [DATA, 0] + LEAKY;
  }

  lemma EmptyDataBody()
    ensures EchoBody(1, []) == [SOF, 0x05, 0x01, 0x01, 0x3E, 0x1F]
  {
    DataOnWire();
    BodyOnWire(Frame(DATA, 1, []), [SOF, 0x05, 0x01, 0x01, 0x3E, 0x1F]);
  }

  lemma LeakyRaw() returns (rest: seq<byte>)
    ensures Raw(Frame(DATA, 0, LEAKY)) == [DATA] + ([0] + rest)
    ensures |rest| == 19 && NoZero(rest) && rest[13..] == EchoBody(1, [])
  {
    hide Crc, EchoBody;
    LeakyCrc();
    EmptyDataBody();
    rest := LEAKY + [0x3E, 0x1F];
    assert [DATA, 0] + LEAKY + [0x3E, 0x1F] == [DATA] + ([0] + rest);
  }

  /** What the first wait leaves of an echo is itself the body of a data frame. */
  lemma LeaksWhole(number: byte, p: seq<byte>, n: byte, q: seq<byte>)
    requires |p| <= MAX_PAYLOAD && |q| <= MAX_PAYLOAD && Tail(Frame(DATA, number, p)) == Some(EchoBody(n, q))
    ensures Leaks(EchoBody(number, p)) && DataAt(EchoBody(number, p), 1)
    ensures Inspect(Caught(LeftOf(EchoBody(number, p), 1), FRAME_CHUNK)) == Good(Frame(DATA, n, q))
  {
    hide Raw, Tail, AfterWaits, Inspect, Caught, Left, Starts, FrameBody;
    FirstWait(Frame(DATA, number, p), 0);
    FrameCaught(Frame(DATA, n, q), FRAME_CHUNK);
    assert LeftOf(EchoBody(number, p), 1) == EchoBody(n, q);
    assert DataAt(EchoBody(number, p), 1);
  }

  lemma LeakyTail()
    ensures Tail(Frame(DATA, 0, LEAKY)) == Some(EchoBody(1, []))
  {
    hide Raw, Tail, EchoBody;
    var rest := LeakyRaw();
    TailUnderZero(LEAKY, rest);
  }

  /** What the first wait leaves of the echo of this payload is a data frame without payload, which nobody sent. */
  lemma LeakyLeaks()
    ensures Leaks(EchoBody(0, LEAKY)) && DataAt(EchoBody(0, LEAKY), 1)
    ensures Inspect(Caught(LeftOf(EchoBody(0, LEAKY), 1), FRAME_CHUNK)) == Good(Frame(DATA, 1, []))
  {
    LeakyTail();
    assert |LEAKY| <= MAX_PAYLOAD;
    hide *;
    LeaksWhole(0, LEAKY, 1, []);
  }

  // ---- A receive on a tail ----

  /** A body holds, behind its first start byte, a data frame of p that fits the buffer of a receive. */
  ghost predicate HoldsData(b: seq<byte>, p: seq<byte>) {
    exists g, c, number ::
      && b == g + [SOF] + c && Free(SOF, g) && |c| < FRAME_CHUNK
      && Decoded(c + [0]) == Some(Raw(Frame(DATA, number, p)))
  }

  /** A receive on what lies on the line delivers p exactly when it holds a data frame of p. */
  lemma TailDeliversIff(env: Env, tail: seq<byte>, rest: seq<Event>, sent: seq<Tx>, room: nat, p: seq<byte>)
    requires NoZero(tail) && Starts(tail)
    ensures var r := ReceiveOutcome(env, Line(OnLine(tail) + rest, sent), room);
            r.ok && r.payload == p <==> |p| <= room && HoldsData(tail, p)
  {
    hide Collect, Raw, Inspect, Link.Transmit, Wire;
    CollectSegment(tail, rest, FRAME_CHUNK);
    var g, c := tail[..FirstStart(tail)], Behind(tail);
    var r := ReceiveOutcome(env, Line(OnLine(tail) + rest, sent), room);
    if r.ok && r.payload == p {
      if |c| >= FRAME_CHUNK {
        CutIsMalformed(tail, FRAME_CHUNK);
      } else {
        var f := Inspect(c + [0]).frame;
        InspectGood(c + [0], f);
        assert f == Frame(DATA, f.number, p);
        assert tail == g + [SOF] + c;
      }
    }
    if g', c', number :|
      && tail == g' + [SOF] + c' && Free(SOF, g') && |c'| < FRAME_CHUNK
      && Decoded(c' + [0]) == Some(Raw(Frame(DATA, number, p)))
    {
      FirstStartIs(tail, g', c');
      InspectGood(c' + [0], Frame(DATA, number, p));
    }
  }

  /** A tail without a start byte is passed over by whatever call comes next. */
  lemma StartFreeSkipped(env: Env, tail: seq<byte>, rest: seq<Event>, sent: seq<Tx>, room: nat, number: byte)
    requires NoZero(tail) && Free(SOF, tail)
    ensures ReceiveOutcome(env, Line(OnLine(tail) + rest, sent), room) == ReceiveOutcome(env, Line(rest, sent), room)
    ensures AwaitAck(Line(OnLine(tail) + rest, sent), number) == AwaitAck(Line(rest, sent), number)
  {
    hide Collect, Inspect, Answer;
    StartsIffSof(tail);
    CollectSegment(tail, rest, FRAME_CHUNK);
    CollectSegment(tail, rest, ACK_CHUNK);
  }

  /** What the calls after ZeroedByteRejected make of the rest of the frame: without a start byte in it they pass over
      it; otherwise the next wait succeeds exactly when it holds an acknowledgement, and the next receive delivers p
      exactly when it holds a data frame of p. */
  lemma ZeroedByteLeft(env: Env, line: Line, room: nat, f: Frame, j: nat, g: seq<byte>, rest: seq<Event>, n: byte,
                       p: seq<byte>)
    requires |f.payload| <= MAX_PAYLOAD && Free(SOF, g)
    requires var body := Stuffed(Raw(f));
             && j < |body| && IsData(body, j)
             && line.rx == Events(g + [SOF] + body[j := 0] + [0]) + rest
    ensures var tail, left := Stuffed(Raw(f))[j + 1..], ReceiveOutcome(env, line, room).line;
            var wait, receive := AwaitAck(left, n), ReceiveOutcome(env, left, room);
            && (Free(SOF, tail) ==>
                  wait == AwaitAck(Line(rest, line.sent), n) &&
                  receive == ReceiveOutcome(env, Line(rest, line.sent), room))
            && (!Free(SOF, tail) ==>
                  (wait.ok <==> HoldsAck(tail, n)))
            && (!Free(SOF, tail) ==>
                  (receive.ok && receive.payload == p <==> |p| <= room && HoldsData(tail, p)))
  {
    hide Raw, Stuffed, ReceiveOutcome, AwaitAck;
    ZeroedByteRejected(env, line, room, f, j, g, rest);
    var body := EncodedShape(Raw(f));
    var tail := body[j + 1..];
    StartsIffSof(tail);
    if Free(SOF, tail) {
      StartFreeSkipped(env, tail, rest, line.sent, room, n);
    } else {
      TailAcksIff(tail, rest, line.sent, n);
      TailDeliversIff(env, tail, rest, line.sent, room, p);
    }
  }
}
