/** The driver and the responder on a link that loses nothing (src/app/main_blinky.cpp). */
module Round {
  import opened Bytes
  import opened Frames
  import opened Link
  import opened Rs485Protocol
  import opened Reception
  import opened Responder

  /** The responder's mode once it has heard everything sent. */
  function ModeAfter(sent: seq<Tx>): Mode {
    if sent == [] then Hunting
    else ReactAll(ModeAfter(sent[..|sent| - 1]), sent[|sent| - 1].bytes).mode
  }

  /** What the responder sends back on the latest transmission. */
  function HeardBack(sent: seq<Tx>): seq<Event> {
    if sent == [] then []
    else Events(ReactAll(ModeAfter(sent[..|sent| - 1]), sent[|sent| - 1].bytes).out)
  }

  /** Every byte sent reaches the responder, and every byte of its answers comes back. */
  function Lossless(): Env {
    Env((_, _) => true, HeardBack)
  }

  /** Nothing is under way and the responder waits for a start byte. */
  predicate Idle(line: Line) {
    line.rx == [] && ModeAfter(line.sent) == Hunting
  }

  lemma Carried(line: Line, f: Frame)
    requires |f.payload| <= 128 && ModeAfter(line.sent) == Hunting
    ensures var r := Transmit(Lossless(), line, Wire(f));
            && r == Outcome(true, Line(line.rx + Events(Reply(Good(f))), line.sent + [Tx(Wire(f), true)]))
            && ModeAfter(r.line.sent) == Hunting
  {
    hide Wire, Reply, ReactAll;
    WireSize(f);
    FrameAnswered(f);
    var sent := line.sent + [Tx(Wire(f), true)];
    assert sent[..|sent| - 1] == line.sent;
  }

  lemma AttemptAcked(send: Step, wait: Step, line: Line, n: nat)
    requires n > 0 && send(line).ok && wait(send(line).line).ok
    ensures Attempts(send, wait, line, n) == wait(send(line).line)
  {
  }

  /** Sending succeeds at the first attempt and leaves the echo to be received. */
  lemma SendRound(line: Line, p: seq<byte>, number: byte)
    requires Idle(line) && |p| <= 128
    ensures var f := Frame(DATA, number, p);
            var r := SendOutcome(Lossless(), line, p, number);
            && r == Outcome(true, Line(Events(Wire(f)), line.sent + [Tx(Wire(f), true)]))
            && ModeAfter(r.line.sent) == Hunting
  {
    hide Wire, Transmit, AwaitAck;
    var f, ack := Frame(DATA, number, p), Control(ACK, number);
    Carried(line, f);
    EventsConcat(Wire(ack), Wire(f));
    AwaitFrame(ack, Events(Wire(f)), line.sent + [Tx(Wire(f), true)], number);
    assert line.rx + Events(Wire(ack) + Wire(f)) == Events(Wire(ack)) + Events(Wire(f));
    AttemptAcked(Sender(Lossless(), Wire(f)), Waiter(number), line, MAX_RETRIES + 1);
  }

  /** Receiving then returns the echo and acknowledges it, and the responder ignores the acknowledgement. */
  lemma ReceiveRound(sent: seq<Tx>, p: seq<byte>, number: byte, room: nat)
    requires ModeAfter(sent) == Hunting && |p| <= 128 && |p| <= room
    ensures var ack := Control(ACK, number);
            var r := ReceiveOutcome(Lossless(), Line(Events(Wire(Frame(DATA, number, p))), sent), room);
            r == Received(true, p, Line([], sent + [Tx(Wire(ack), true)])) && Idle(r.line)
  {
    hide Wire, Transmit, ReceiveOutcome;
    var echo := Events(Wire(Frame(DATA, number, p)));
    ReceiveData(Lossless(), number, p, [], sent, room);
    assert echo + [] == echo;
    Carried(Line([], sent), Control(ACK, number));
    assert [] + Events([]) == [];
  }

  datatype Session = Session(oks: seq<bool>, received: seq<seq<byte>>, number: byte, line: Line)

  /** What one round of sending and then receiving does, for each payload in turn. */
  function Rounds(env: Env, line: Line, number: byte, payloads: seq<seq<byte>>, room: nat): Session
    decreases payloads
  {
    if payloads == [] then Session([], [], number, line)
    else
      var s := SendOutcome(env, line, payloads[0], number);
      var r := ReceiveOutcome(env, s.line, room);
      var others := Rounds(env, r.line, if s.ok then number + 1 else number, payloads[1..], room);
      Session([s.ok] + others.oks, (if r.ok then [r.payload] else []) + others.received, others.number, others.line)
  }

  /** The transmissions of a session without retries. */
  function Exchanged(payloads: seq<seq<byte>>, n: nat): seq<Tx> {
    if payloads == [] then []
    else
      var f, ack := Frame(DATA, Nth(n), payloads[0]), Control(ACK, Nth(n));
      [Tx(Wire(f), true), Tx(Wire(ack), true)] + Exchanged(payloads[1..], n + 1)
  }

  lemma OneRound(line: Line, p: seq<byte>, number: byte, room: nat)
    returns (s: Outcome, r: Received, txs: seq<Tx>)
    requires Idle(line) && |p| <= 128 && |p| <= room
    ensures s == SendOutcome(Lossless(), line, p, number) && r == ReceiveOutcome(Lossless(), s.line, room)
    ensures s.ok && r.ok && r.payload == p && Idle(r.line) && r.line.sent == line.sent + txs
    ensures txs == [Tx(Wire(Frame(DATA, number, p)), true), Tx(Wire(Control(ACK, number)), true)]
  {
    hide Wire, SendOutcome, ReceiveOutcome;
    s := SendOutcome(Lossless(), line, p, number);
    r := ReceiveOutcome(Lossless(), s.line, room);
    SendRound(line, p, number);
    ReceiveRound(s.line.sent, p, number, room);
    txs := [Tx(Wire(Frame(DATA, number, p)), true), Tx(Wire(Control(ACK, number)), true)];
    assert (line.sent + [txs[0]]) + [txs[1]] == line.sent + txs;
  }

  function AllOk(n: nat): seq<bool> {
    seq(n, _ => true)
  }

  lemma AllOkNext(n: nat)
    ensures AllOk(n) == if n == 0 then [] else [true] + AllOk(n - 1)
  {
  }

  lemma Reassociate<T>(a: seq<T>, b: seq<T>, c: seq<T>)
    ensures (a + b) + c == a + (b + c)
  {
  }

  lemma Rejoin<T>(a: seq<T>)
    requires a != []
    ensures [a[0]] + a[1..] == a
  {
  }

  lemma RestFits(payloads: seq<seq<byte>>)
    requires payloads != [] && forall p | p in payloads :: |p| <= 128
    ensures |payloads[0]| <= 128 && forall p | p in payloads[1..] :: |p| <= 128
  {
  }

  lemma RoundsHead(env: Env, line: Line, number: byte, payloads: seq<seq<byte>>, room: nat)
    requires payloads != []
    ensures var s := SendOutcome(env, line, payloads[0], number);
            var r := ReceiveOutcome(env, s.line, room);
            var others := Rounds(env, r.line, if s.ok then number + 1 else number, payloads[1..], room);
            Rounds(env, line, number, payloads, room)
            == Session([s.ok] + others.oks, (if r.ok then [r.payload] else []) + others.received, others.number,
                       others.line)
  {
    hide SendOutcome, ReceiveOutcome;
  }

  lemma NoRounds(line: Line, number: byte, n: nat, room: nat)
    ensures Rounds(Lossless(), line, number, [], room) == Session([], [], number, line)
    ensures Exchanged([], n) == [] && AllOk(0) == [] && line.sent + [] == line.sent
  {
  }

  lemma ExchangedHead(payloads: seq<seq<byte>>, n: nat, txs: seq<Tx>)
    requires payloads != []
    requires txs == [Tx(Wire(Frame(DATA, Nth(n), payloads[0])), true), Tx(Wire(Control(ACK, Nth(n))), true)]
    ensures Exchanged(payloads, n) == txs + Exchanged(payloads[1..], n + 1)
  {
    hide Wire, Nth;
  }

  /** For any number of rounds from any starting number: every send succeeds at its first attempt, exactly
      the payloads sent come back, nothing is left on the line, and the number has grown by one a round. */
  lemma {:induction false} SessionExact(line: Line, n: nat, payloads: seq<seq<byte>>, room: nat)
    requires Idle(line) && room >= 128 && forall p | p in payloads :: |p| <= 128
    ensures var s := Rounds(Lossless(), line, Nth(n), payloads, room);
            && s.received == payloads && s.oks == AllOk(|payloads|)
            && s.number == Nth(n + |payloads|)
            && Idle(s.line) && s.line.sent == line.sent + Exchanged(payloads, n)
    decreases payloads
  {
    hide *;
    var all := Rounds(Lossless(), line, Nth(n), payloads, room);
    if payloads == [] {
      NoRounds(line, Nth(n), n, room);
    } else {
      var rest := payloads[1..];
      RestFits(payloads);
      var s, r, txs := OneRound(line, payloads[0], Nth(n), room);
      NthNext(n);
      SessionExact(r.line, n + 1, rest, room);
      RoundsHead(Lossless(), line, Nth(n), payloads, room);
      var others := Rounds(Lossless(), r.line, Nth(n + 1), rest, room);
      assert all == Session([true] + others.oks, [payloads[0]] + others.received, others.number, others.line);
      AllOkNext(|payloads|);
      Rejoin(payloads);
      ExchangedHead(payloads, n, txs);
      Reassociate(line.sent, txs, Exchanged(rest, n + 1));
    }
  }

  // ---- The application loop ----

  /** The payload of the application's n-th round. */
  function Greeting(n: nat): seq<byte> {
    [0xAA, 0xBB, Nth(n), Nth(n) + 1]
  }

  /** What the first n rounds print. */
  function Printed(n: nat): seq<byte> {
    if n == 0 then [] else Printed(n - 1) + Greeting(n - 1) + [10]
  }

  /** That is five bytes a round: AA BB, the count, the count plus one, and a line feed. */
  lemma {:induction false} PrintedAt(n: nat, i: nat)
    requires i < n
    ensures |Printed(n)| == 5 * n
    ensures Printed(n)[5 * i..5 * i + 5] == [0xAA, 0xBB, Nth(i), Nth(i + 1), 0x0A]
    decreases n
  {
    hide Nth;
    var before, last := Printed(n - 1), Greeting(n - 1) + [10];
    PrintedSize(n - 1);
    assert Printed(n) == before + last;
    if i < n - 1 {
      PrintedAt(n - 1, i);
      assert Printed(n)[5 * i..5 * i + 5] == before[5 * i..5 * i + 5];
    } else {
      NthNext(i);
      assert Printed(n)[5 * i..5 * i + 5] == last;
    }
  }

  lemma {:induction false} PrintedSize(n: nat)
    ensures |Printed(n)| == 5 * n
  {
    if n > 0 {
      PrintedSize(n - 1);
    }
  }

  method Print(buf: array<byte>, n: nat, already: seq<byte>) returns (printed: seq<byte>)
    requires n <= buf.Length
    ensures printed == already + buf[..n] + [10]
  {
    printed := already;
    for i := 0 to n
      invariant printed == already + buf[..i]
    {
      printed := printed + [buf[i]];
    }
    printed := printed + [10];
  }

  /** One pass of the application's loop. */
  method TaskRound(proto: Protocol, counter: byte) returns (ok: bool, rxBuf: array<byte>, rxLen: nat)
    requires proto.hal.env == Lossless() && Idle(proto.hal.State())
    modifies proto, proto.hal
    ensures ok && fresh(rxBuf) && rxLen <= rxBuf.Length && rxBuf[..rxLen] == [0xAA, 0xBB, counter, counter + 1]
    ensures Idle(proto.hal.State()) && proto.nextNumber == old(proto.nextNumber) + 1
  {
    hide Wire, SendOutcome, ReceiveOutcome, Idle, Lossless;
    var payload := new byte[4];
    payload[0], payload[1], payload[2], payload[3] := 0xAA, 0xBB, counter, counter + 1;
    assert payload[..4] == [0xAA, 0xBB, counter, counter + 1];
    ghost var s, r, txs := OneRound(proto.hal.State(), payload[..4], proto.nextNumber, 128);
    var sent := proto.SendFrame(payload, 4);
    rxBuf := new byte[128];
    ok, rxLen := proto.RecvFrame(rxBuf, 128);
  }

  lemma NthZero()
    ensures Nth(0) == 0
  {
  }

  /** The application's endless loop, for a given number of rounds. */
  method Rs485Task(proto: Protocol, rounds: nat) returns (printed: seq<byte>)
    requires proto.hal.env == Lossless() && Idle(proto.hal.State())
    modifies proto, proto.hal
    ensures printed == Printed(rounds) && Idle(proto.hal.State())
    ensures Value(proto.nextNumber) == (Value(old(proto.nextNumber)) + rounds) % 256
  {
    hide Idle, Lossless, Nth;
    ghost var first := Value(proto.nextNumber);
    NthOfValue(proto.nextNumber);
    var counter: byte := 0;
    NthZero();
    printed := [];
    for n := 0 to rounds
      invariant printed == Printed(n) && counter == Nth(n)
      invariant Idle(proto.hal.State()) && proto.nextNumber == Nth(first + n)
    {
      NthNext(n);
      NthNext(first + n);
      var ok, rxBuf, rxLen := TaskRound(proto, counter);
      if ok {
        printed := Print(rxBuf, rxLen, printed);
      }
      counter := counter + 1;
    }
    ValueOfNth(first + rounds);
  }
}
