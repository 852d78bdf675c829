/** Runs of the driver on a lossy network, call by call: plans under which its failures happen. Every send succeeds;
    frames and answers are lost or late. */
module WireRuns {
  import opened Bytes
  import opened Cobs
  import opened DriverSimulation
  import opened EchoTails
  import opened Frames
  import opened Link
  import opened Network
  import opened Rs485Protocol
  import opened Segments
  import opened StopAndWait
  import opened StopAndWaitRuns
  import opened StopAndWaitSafety
  import opened Wrappers

  function AllAccepted(): Acceptance {
    (_, _) => true
  }

  // ---- What happens after a transmission ----

  const LOST: seq<Happening> := [LoseUp(0)]

  /** The frame is lost and an older answer arrives. */
  const ARRIVES: seq<Happening> := [LoseUp(0), Arrive]
  const ARRIVES_ALONE: seq<Happening> := [LoseUp(0), Arrive, LoseBack(0)]

  /** The frame is heard; its answers are late, or the acknowledgement arrives, or that alone, or neither. */
  const LATE: seq<Happening> := [Hear]
  const ANSWERED: seq<Happening> := [Hear, Arrive]
  const ACKED: seq<Happening> := [Hear, Arrive, LoseBack(0)]
  const UNANSWERED: seq<Happening> := [Hear, LoseBack(0), LoseBack(0)]

  lemma HappenFirst(net: Net, h: Happening, hs: seq<Happening>)
    ensures HappenAll(net, [h] + hs)
         == Turn(HappenAll(Happen(net, h).net, hs).net,
                 Happen(net, h).arrivals + HappenAll(Happen(net, h).net, hs).arrivals)
  {
    hide Happen;
    assert ([h] + hs)[1..] == hs;
  }

  lemma HappenNothing(net: Net)
    ensures HappenAll(net, []) == Turn(net, [])
  {
  }

  lemma LosesUp(u: Up, back: seq<seq<byte>>, heard: seq<Hearing>)
    ensures Happen(Net([u], back, heard, []), LoseUp(0)) == Turn(Net([], back, heard, []), [])
  {
    assert [u][..0] + [u][1..] == [];
  }

  lemma LosesBack(b: seq<byte>, back: seq<seq<byte>>, heard: seq<Hearing>)
    ensures Happen(Net([], [b] + back, heard, []), LoseBack(0)) == Turn(Net([], back, heard, []), [])
  {
    assert ([b] + back)[..0] + ([b] + back)[1..] == back;
  }

  lemma Arrives(b: seq<byte>, back: seq<seq<byte>>, heard: seq<Hearing>)
    ensures Happen(Net([], [b] + back, heard, []), Arrive) == Turn(Net([], back, heard, []), [Some(b)])
  {
    assert ([b] + back)[1..] == back;
  }

  function BothAnswers(number: byte, p: seq<byte>): seq<seq<byte>> {
    [AckBody(number), EchoBody(number, p)]
  }

  lemma Hears(n: nat, number: byte, p: seq<byte>, back: seq<seq<byte>>, heard: seq<Hearing>)
    requires |p| <= MAX_PAYLOAD
    ensures var f := Frame(DATA, number, p);
            Happen(Net([Up(Wire(f), Some(n))], back, heard, []), Hear)
            == Turn(Net([], back + BothAnswers(number, p), heard + [Hearing(f, n)], []), [])
  {
    hide Wire, Said, Brings, Cut, FrameBody;
    var f := Frame(DATA, number, p);
    DataHeard(f);
    assert [Up(Wire(f), Some(n))][1..] == [];
  }

  lemma LostTurn(u: Up, back: seq<seq<byte>>, heard: seq<Hearing>)
    ensures HappenAll(Net([u], back, heard, []), LOST) == Turn(Net([], back, heard, []), [])
  {
    hide Happen, HappenAll;
    HappenFirst(Net([u], back, heard, []), LoseUp(0), []);
    LosesUp(u, back, heard);
    HappenNothing(Net([], back, heard, []));
    assert [LoseUp(0)] + [] == LOST;
  }

  lemma ArrivesTurn(u: Up, b: seq<byte>, back: seq<seq<byte>>, heard: seq<Hearing>)
    ensures HappenAll(Net([u], [b] + back, heard, []), ARRIVES) == Turn(Net([], back, heard, []), [Some(b)])
  {
    hide Happen, HappenAll;
    var net := Net([u], [b] + back, heard, []);
    HappenFirst(net, LoseUp(0), [Arrive]);
    LosesUp(u, [b] + back, heard);
    HappenFirst(Net([], [b] + back, heard, []), Arrive, []);
    Arrives(b, back, heard);
    HappenNothing(Net([], back, heard, []));
    assert [LoseUp(0)] + [Arrive] == ARRIVES && [Arrive] + [] == [Arrive];
  }

  lemma ArrivesAloneTurn(u: Up, b: seq<byte>, e: seq<byte>, heard: seq<Hearing>)
    ensures HappenAll(Net([u], [b, e], heard, []), ARRIVES_ALONE) == Turn(Net([], [], heard, []), [Some(b)])
  {
    hide Happen, HappenAll;
    HappenFirst(Net([u], [b, e], heard, []), LoseUp(0), [Arrive, LoseBack(0)]);
    LosesUp(u, [b, e], heard);
    assert [b, e] == [b] + [e];
    HappenFirst(Net([], [b] + [e], heard, []), Arrive, [LoseBack(0)]);
    Arrives(b, [e], heard);
    HappenFirst(Net([], [e] + [], heard, []), LoseBack(0), []);
    LosesBack(e, [], heard);
    HappenNothing(Net([], [], heard, []));
    assert [LoseUp(0)] + [Arrive, LoseBack(0)] == ARRIVES_ALONE && [Arrive] + [LoseBack(0)] == [Arrive, LoseBack(0)];
    assert [LoseBack(0)] + [] == [LoseBack(0)] && [e] + [] == [e];
  }

  lemma LateTurn(n: nat, number: byte, p: seq<byte>, heard: seq<Hearing>)
    requires |p| <= MAX_PAYLOAD
    ensures var f := Frame(DATA, number, p);
            HappenAll(Net([Up(Wire(f), Some(n))], [], heard, []), LATE)
            == Turn(Net([], BothAnswers(number, p), heard + [Hearing(f, n)], []), [])
  {
    hide Happen, HappenAll, Wire, EchoBody, AckBody;
    var f := Frame(DATA, number, p);
    HappenFirst(Net([Up(Wire(f), Some(n))], [], heard, []), Hear, []);
    Hears(n, number, p, [], heard);
    HappenNothing(Net([], BothAnswers(number, p), heard + [Hearing(f, n)], []));
    assert [Hear] + [] == LATE && [] + BothAnswers(number, p) == BothAnswers(number, p);
  }

  lemma AnsweredTurn(n: nat, number: byte, p: seq<byte>, heard: seq<Hearing>)
    requires |p| <= MAX_PAYLOAD
    ensures var f := Frame(DATA, number, p);
            HappenAll(Net([Up(Wire(f), Some(n))], [], heard, []), ANSWERED)
            == Turn(Net([], [EchoBody(number, p)], heard + [Hearing(f, n)], []), [Some(AckBody(number))])
  {
    hide Happen, HappenAll, Wire, EchoBody, AckBody;
    var f, ack, echo := Frame(DATA, number, p), AckBody(number), EchoBody(number, p);
    var more := heard + [Hearing(f, n)];
    HappenFirst(Net([Up(Wire(f), Some(n))], [], heard, []), Hear, [Arrive]);
    Hears(n, number, p, [], heard);
    assert [] + BothAnswers(number, p) == [ack] + [echo];
    HappenFirst(Net([], [ack] + [echo], more, []), Arrive, []);
    Arrives(ack, [echo], more);
    HappenNothing(Net([], [echo], more, []));
    assert [Hear] + [Arrive] == ANSWERED && [Arrive] + [] == [Arrive];
  }

  lemma AckedTurn(n: nat, number: byte, p: seq<byte>, heard: seq<Hearing>)
    requires |p| <= MAX_PAYLOAD
    ensures var f := Frame(DATA, number, p);
            HappenAll(Net([Up(Wire(f), Some(n))], [], heard, []), ACKED)
            == Turn(Net([], [], heard + [Hearing(f, n)], []), [Some(AckBody(number))])
  {
    hide Happen, HappenAll, Wire, EchoBody, AckBody;
    var f, ack, echo := Frame(DATA, number, p), AckBody(number), EchoBody(number, p);
    var more := heard + [Hearing(f, n)];
    HappenFirst(Net([Up(Wire(f), Some(n))], [], heard, []), Hear, [Arrive, LoseBack(0)]);
    Hears(n, number, p, [], heard);
    assert [] + BothAnswers(number, p) == [ack] + [echo];
    HappenFirst(Net([], [ack] + [echo], more, []), Arrive, [LoseBack(0)]);
    Arrives(ack, [echo], more);
    HappenFirst(Net([], [echo] + [], more, []), LoseBack(0), []);
    LosesBack(echo, [], more);
    HappenNothing(Net([], [], more, []));
    assert [Hear] + [Arrive, LoseBack(0)] == ACKED && [Arrive] + [LoseBack(0)] == [Arrive, LoseBack(0)];
    assert [LoseBack(0)] + [] == [LoseBack(0)] && [echo] + [] == [echo];
  }

  lemma UnansweredTurn(n: nat, number: byte, p: seq<byte>, heard: seq<Hearing>)
    requires |p| <= MAX_PAYLOAD
    ensures var f := Frame(DATA, number, p);
            HappenAll(Net([Up(Wire(f), Some(n))], [], heard, []), UNANSWERED)
            == Turn(Net([], [], heard + [Hearing(f, n)], []), [])
  {
    hide Happen, HappenAll, Wire, EchoBody, AckBody;
    var f, ack, echo := Frame(DATA, number, p), AckBody(number), EchoBody(number, p);
    var more := heard + [Hearing(f, n)];
    HappenFirst(Net([Up(Wire(f), Some(n))], [], heard, []), Hear, [LoseBack(0), LoseBack(0)]);
    Hears(n, number, p, [], heard);
    assert [] + BothAnswers(number, p) == [ack] + [echo];
    HappenFirst(Net([], [ack] + [echo], more, []), LoseBack(0), [LoseBack(0)]);
    LosesBack(ack, [echo], more);
    HappenFirst(Net([], [echo] + [], more, []), LoseBack(0), []);
    LosesBack(echo, [], more);
    HappenNothing(Net([], [], more, []));
    assert [Hear] + [LoseBack(0), LoseBack(0)] == UNANSWERED;
    assert [LoseBack(0)] + [LoseBack(0)] == [LoseBack(0), LoseBack(0)] && [LoseBack(0)] + [] == [LoseBack(0)];
    assert [echo] + [] == [echo];
  }

  // ---- One attempt ----

  function LineOf(rest: Option<seq<byte>>): seq<Event> {
    match rest
    case None => []
    case Some(b) => OnLine(b)
  }

  /** Nothing is on the way out; this is on the way back, on the line and heard. */
  ghost predicate Mid(plan: Plan, line: Line, back: seq<seq<byte>>, rest: Option<seq<byte>>, heard: seq<Hearing>) {
    line.rx == LineOf(rest) && Situation(plan, line.sent) == Net([], back, heard, [])
  }

  lemma Transmitted(plan: Plan, line: Line, wire: seq<byte>, back: seq<seq<byte>>, rest: Option<seq<byte>>,
                    heard: seq<Hearing>)
    requires Mid(plan, line, back, rest, heard)
    ensures var r := Link.Transmit(Lossy(plan, AllAccepted()), line, wire);
            var turn := HappenAll(Net([Up(wire, Some(|line.sent|))], back, heard, []), plan(|line.sent|).later);
            && r.ok && r.line.sent == line.sent + [Tx(wire, true)]
            && r.line.rx == LineOf(rest) + EventsOf(turn.arrivals) && Situation(plan, r.line.sent) == turn.net
  {
    hide HappenAll, EventsOf, Situation;
    TransmitOn(plan, AllAccepted(), line, wire);
    assert [] + [Up(wire, Some(|line.sent|))] == [Up(wire, Some(|line.sent|))];
  }

  lemma OneArrival(b: seq<byte>)
    ensures EventsOf([Some(b)]) == OnLine(b) && EventsOf([]) == []
  {
    hide OnLine;
    assert EventsOf([Some(b)][1..]) == [];
    assert OnLine(b) + [] == OnLine(b);
  }

  /** The frame is lost, and nothing arrives. */
  lemma LostAttempt(plan: Plan, line: Line, wire: seq<byte>, number: byte, back: seq<seq<byte>>, heard: seq<Hearing>)
    requires Mid(plan, line, back, None, heard) && plan(|line.sent|).later == LOST
    ensures var r := AttemptOnce(Lossy(plan, AllAccepted()), line, wire, number);
            !r.ok && r.line.sent == line.sent + [Tx(wire, true)] && Mid(plan, r.line, back, None, heard)
  {
    hide HappenAll, Lossy, Link.Transmit, Situation;
    Transmitted(plan, line, wire, back, None, heard);
    LostTurn(Up(wire, Some(|line.sent|)), back, heard);
    assert [] + EventsOf([]) == [];
    SilentCollect();
  }

  /** The wait takes this body and leaves the rest of it. */
  lemma WaitTakes(plan: Plan, line: Line, number: byte, back: seq<seq<byte>>, b: seq<byte>, heard: seq<Hearing>)
    requires Mid(plan, line, back, Some(b), heard) && NoZero(b)
    ensures var r := AwaitAck(line, number);
            && (r.ok <==> AckAt(b, 0, number)) && r.line.sent == line.sent
            && Mid(plan, r.line, back, if AckAt(b, 0, number) then None else AfterWaits(b, 1), heard)
  {
    hide AckAt, AfterWaits, AwaitAck, OnLine, Situation;
    WaitOn(b, line.sent, number);
    assert line == Line(OnLine(b), line.sent);
    if AckAt(b, 0, number) {
      AckUsesUp(b, number, line.sent);
    }
  }

  /** A wait that succeeds has read a body to its end. */
  lemma AckUsesUp(b: seq<byte>, number: byte, sent: seq<Tx>)
    requires NoZero(b) && AckAt(b, 0, number)
    ensures AwaitAck(Line(OnLine(b), sent), number).line == Line([], sent)
  {
    hide Inspect, Caught, Left, Starts, Collect;
    NoWaits(b);
    CutIsNoAck(b, number);
    CollectSegment(b, [], ACK_CHUNK);
    assert OnLine(b) + [] == OnLine(b);
  }

  /** The frame is lost, and the wait reads what arrives, or what has been left on the line. */
  lemma ReadingAttempt(plan: Plan, line: Line, wire: seq<byte>, number: byte, b: seq<byte>, late: bool,
                       more: seq<seq<byte>>, heard: seq<Hearing>)
    requires NoZero(b) && plan(|line.sent|).later == (if late then ARRIVES else LOST)
    requires if late then Mid(plan, line, [b] + more, None, heard) else Mid(plan, line, more, Some(b), heard)
    ensures var r := AttemptOnce(Lossy(plan, AllAccepted()), line, wire, number);
            && (r.ok <==> AckAt(b, 0, number)) && r.line.sent == line.sent + [Tx(wire, true)]
            && Mid(plan, r.line, more, if AckAt(b, 0, number) then None else AfterWaits(b, 1), heard)
  {
    hide HappenAll, Lossy, Link.Transmit, AckAt, AfterWaits, AwaitAck, OnLine, Situation;
    var u, sent := Up(wire, Some(|line.sent|)), Link.Transmit(Lossy(plan, AllAccepted()), line, wire);
    OneArrival(b);
    if late {
      Transmitted(plan, line, wire, [b] + more, None, heard);
      ArrivesTurn(u, b, more, heard);
      assert [] + OnLine(b) == OnLine(b);
    } else {
      Transmitted(plan, line, wire, more, Some(b), heard);
      LostTurn(u, more, heard);
      assert OnLine(b) + [] == OnLine(b);
    }
    WaitTakes(plan, sent.line, number, more, b, heard);
  }

  lemma AckIsAck(number: byte)
    ensures NoZero(AckBody(number)) && AckAt(AckBody(number), 0, number)
  {
    hide Inspect, Caught, Left, Starts, FrameBody;
    FrameBodyIs(Control(ACK, number));
    AckMatches(number);
    NoWaits(AckBody(number));
  }

  /** The frame is heard, and its acknowledgement ends the call; the echo is still under way or lost. */
  lemma AckedAttempt(plan: Plan, line: Line, number: byte, p: seq<byte>, heard: seq<Hearing>, lost: bool)
    requires |p| <= MAX_PAYLOAD && Mid(plan, line, [], None, heard)
    requires plan(|line.sent|).later == (if lost then ACKED else ANSWERED)
    ensures var f := Frame(DATA, number, p);
            var r := AttemptOnce(Lossy(plan, AllAccepted()), line, Wire(f), number);
            && r.ok && r.line.sent == line.sent + [Tx(Wire(f), true)]
            && Mid(plan, r.line, if lost then [] else [EchoBody(number, p)], None, heard + [Hearing(f, |line.sent|)])
  {
    hide HappenAll, Lossy, Link.Transmit, AckAt, AfterWaits, AwaitAck, OnLine, Situation, Wire, AckBody, EchoBody;
    var f := Frame(DATA, number, p);
    var sent := Link.Transmit(Lossy(plan, AllAccepted()), line, Wire(f));
    Transmitted(plan, line, Wire(f), [], None, heard);
    AckedTurn(|line.sent|, number, p, heard);
    AnsweredTurn(|line.sent|, number, p, heard);
    OneArrival(AckBody(number));
    assert [] + OnLine(AckBody(number)) == OnLine(AckBody(number));
    AckIsAck(number);
    WaitTakes(plan, sent.line, number, if lost then [] else [EchoBody(number, p)], AckBody(number),
              heard + [Hearing(f, |line.sent|)]);
  }

  /** The frame is heard, and the wait finds nothing: its answers are late or lost. */
  lemma UnackedAttempt(plan: Plan, line: Line, number: byte, p: seq<byte>, heard: seq<Hearing>, lost: bool)
    requires |p| <= MAX_PAYLOAD && Mid(plan, line, [], None, heard)
    requires plan(|line.sent|).later == (if lost then UNANSWERED else LATE)
    ensures var f := Frame(DATA, number, p);
            var r := AttemptOnce(Lossy(plan, AllAccepted()), line, Wire(f), number);
            && !r.ok && r.line.sent == line.sent + [Tx(Wire(f), true)]
            && Mid(plan, r.line, if lost then [] else BothAnswers(number, p), None, heard + [Hearing(f, |line.sent|)])
  {
    hide HappenAll, Lossy, Link.Transmit, Situation, Wire, AckBody, EchoBody;
    var f := Frame(DATA, number, p);
    Transmitted(plan, line, Wire(f), [], None, heard);
    UnansweredTurn(|line.sent|, number, p, heard);
    LateTurn(|line.sent|, number, p, heard);
    assert [] + EventsOf([]) == [];
    SilentCollect();
  }

  /** A late acknowledgement arrives and ends a call whose own frame is lost; the echo behind it is still under way, or
      lost. */
  lemma StolenAttempt(plan: Plan, line: Line, wire: seq<byte>, number: byte, e: seq<byte>, heard: seq<Hearing>,
                      lost: bool)
    requires Mid(plan, line, [AckBody(number), e], None, heard)
    requires plan(|line.sent|).later == (if lost then ARRIVES_ALONE else ARRIVES)
    ensures var r := AttemptOnce(Lossy(plan, AllAccepted()), line, wire, number);
            && r.ok && r.line.sent == line.sent + [Tx(wire, true)]
            && Mid(plan, r.line, if lost then [] else [e], None, heard)
  {
    hide HappenAll, Lossy, Link.Transmit, AckAt, AfterWaits, AwaitAck, OnLine, Situation, AckBody;
    var u, b := Up(wire, Some(|line.sent|)), AckBody(number);
    var sent := Link.Transmit(Lossy(plan, AllAccepted()), line, wire);
    OneArrival(b);
    assert [b, e] == [b] + [e];
    Transmitted(plan, line, wire, [b, e], None, heard);
    ArrivesTurn(u, b, [e], heard);
    ArrivesAloneTurn(u, b, e, heard);
    assert [] + OnLine(b) == OnLine(b);
    AckIsAck(number);
    WaitTakes(plan, sent.line, number, if lost then [] else [e], b, heard);
  }
}
