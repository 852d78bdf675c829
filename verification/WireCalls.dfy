/** Whole calls of a fresh driver under a plan, and plans for any log of calls. */
module WireCalls {
  import opened Bytes
  import opened Cobs
  import opened DriverSimulation
  import opened Frames
  import opened Link
  import opened Network
  import opened Rs485Protocol
  import opened Segments
  import opened Simulation
  import opened StopAndWait
  import opened StopAndWaitRuns
  import opened WireRuns
  import opened WireSafety
  import opened Wrappers

  /** Where a driver is between calls: what its caller has seen, for which calls it has transmitted, what is on the way
      back, on the line and heard. */
  datatype Stage = Stage(
    log: seq<Entry>,
    received: seq<seq<byte>>,
    number: byte,
    owners: Owners,
    back: seq<seq<byte>>,
    rest: Option<seq<byte>>,
    heard: seq<Hearing>)

  const START := Stage([], [], 0, [], [], None, [])

  ghost predicate At(plan: Plan, ops: seq<Op>, g: Stage) {
    var t := FreshDriver(plan, AllAccepted(), ops);
    && t.log == g.log && t.received == g.received && t.number == g.number
    && t.owners == g.owners && |t.owners| == |t.line.sent| && Mid(plan, t.line, g.back, g.rest, g.heard)
  }

  /** From the n-th transmission on the plan follows the script. */
  ghost predicate Scripted(plan: Plan, n: nat, script: seq<seq<Happening>>) {
    forall i {:trigger script[i]} | 0 <= i < |script| :: plan(n + i).later == script[i]
  }

  lemma ScriptedParts(plan: Plan, n: nat, a: seq<seq<Happening>>, b: seq<seq<Happening>>)
    requires Scripted(plan, n, a + b)
    ensures Scripted(plan, n, a) && Scripted(plan, n + |a|, b)
  {
    forall i | 0 <= i < |a|
      ensures plan(n + i).later == a[i]
    {
      assert (a + b)[i] == a[i];
    }
    forall i | 0 <= i < |b|
      ensures plan(n + |a| + i).later == b[i]
    {
      assert (a + b)[|a| + i] == b[i];
    }
  }

  /** The plan that follows a script from the start. */
  function PlanOf(script: seq<seq<Happening>>): Plan {
    (n: nat) => if n < |script| then Fate(0, script[n]) else Fate(0, [])
  }

  lemma PlanScripted(script: seq<seq<Happening>>)
    ensures Scripted(PlanOf(script), 0, script)
  {
  }

  lemma StartAt(plan: Plan)
    ensures At(plan, [], START)
  {
  }

  function Owning(c: nat, n: nat): (owners: Owners)
    ensures |owners| == n
  {
    seq(n, _ => Some(c))
  }

  /** The stage after a call of n transmissions. */
  function Staged(g: Stage, p: seq<byte>, n: nat, ok: bool, back: seq<seq<byte>>, rest: Option<seq<byte>>,
                  heard: seq<Hearing>): Stage
  {
    Stage(g.log + [Entry(p, ok)], g.received, if ok then g.number + 1 else g.number, g.owners + Owning(|g.log|, n),
          back, rest, heard)
  }

  ghost function LineAt(plan: Plan, ops: seq<Op>): Line {
    FreshDriver(plan, AllAccepted(), ops).line
  }

  ghost function Accepting(plan: Plan): Env {
    Lossy(plan, AllAccepted())
  }

  lemma Snoc(plan: Plan, ops: seq<Op>, op: Op)
    ensures FreshDriver(plan, AllAccepted(), ops + [op])
         == Performed(Accepting(plan), FreshDriver(plan, AllAccepted(), ops), op)
  {
    assert (ops + [op])[..|ops|] == ops;
  }

  lemma StageAfter(plan: Plan, ops: seq<Op>, g: Stage, p: seq<byte>, n: nat, ok: bool, back: seq<seq<byte>>,
                   rest: Option<seq<byte>>, heard: seq<Hearing>)
    requires At(plan, ops, g) && |p| <= MAX_PAYLOAD
    requires var r := SendOutcome(Accepting(plan), LineAt(plan, ops), p, g.number);
             && r.ok == ok && |r.line.sent| == |LineAt(plan, ops).sent| + n && Mid(plan, r.line, back, rest, heard)
    ensures At(plan, ops + [Sends(p)], Staged(g, p, n, ok, back, rest, heard))
  {
    hide FreshDriver, SendOutcome, Mid, Lossy;
    Snoc(plan, ops, Sends(p));
    var owners := g.owners;
    assert Extended(owners, |owners| + n, Some(|g.log|)) == owners + Owning(|g.log|, n);
  }

  lemma AtMid(plan: Plan, ops: seq<Op>, g: Stage)
    requires At(plan, ops, g)
    ensures Mid(plan, LineAt(plan, ops), g.back, g.rest, g.heard) && |LineAt(plan, ops).sent| == |g.owners|
  {
    hide FreshDriver, Mid;
  }

  // ---- Calls ----

  function Losses(n: nat): (script: seq<seq<Happening>>)
    ensures |script| == n
  {
    seq(n, _ => LOST)
  }

  lemma {:induction false} LostAttempts(plan: Plan, line: Line, wire: seq<byte>, number: byte, back: seq<seq<byte>>,
                                       heard: seq<Hearing>, n: nat)
    requires Mid(plan, line, back, None, heard) && Scripted(plan, |line.sent|, Losses(n))
    ensures var r := Attempts(Sender(Accepting(plan), wire), Waiter(number), line, n);
            !r.ok && |r.line.sent| == |line.sent| + n && Mid(plan, r.line, back, None, heard)
    decreases n
  {
    hide Mid, Attempts, Sender, Waiter, Lossy, AttemptOnce;
    if n == 0 {
      NoAttempts(Sender(Accepting(plan), wire), Waiter(number), line);
    } else {
      assert Losses(n) == [LOST] + Losses(n - 1);
      ScriptedParts(plan, |line.sent|, [LOST], Losses(n - 1));
      assert [LOST][0] == LOST;
      LostAttempt(plan, line, wire, number, back, heard);
      AttemptsUnfold(Accepting(plan), line, wire, number, n);
      LostAttempts(plan, AttemptOnce(Accepting(plan), line, wire, number).line, wire, number, back, heard, n - 1);
    }
  }

  ghost function FrameAt(g: Stage, p: seq<byte>): Frame {
    Frame(DATA, g.number, p)
  }

  lemma SendIs(plan: Plan, ops: seq<Op>, g: Stage, p: seq<byte>)
    ensures SendOutcome(Accepting(plan), LineAt(plan, ops), p, g.number)
         == Attempts(Sender(Accepting(plan), Wire(FrameAt(g, p))), Waiter(g.number), LineAt(plan, ops), MAX_RETRIES + 1)
  {
  }

  /** The first attempt is heard and acknowledged; the echo is lost, or on its way back. */
  lemma GoodOnWire(plan: Plan, ops: seq<Op>, g: Stage, p: seq<byte>, lost: bool)
    requires At(plan, ops, g) && g.back == [] && g.rest.None? && |p| <= MAX_PAYLOAD
    requires Scripted(plan, |g.owners|, [if lost then ACKED else ANSWERED])
    ensures At(plan, ops + [Sends(p)],
               Staged(g, p, 1, true, if lost then [] else [EchoBody(g.number, p)], None,
                      g.heard + [Hearing(FrameAt(g, p), |g.owners|)]))
  {
    hide At, Mid, Attempts, SendOutcome, Sender, Waiter, Lossy, AttemptOnce, LineAt, Wire, EchoBody;
    var line, script := LineAt(plan, ops), [if lost then ACKED else ANSWERED];
    AtMid(plan, ops, g);
    assert script[0] == script[0];
    AckedAttempt(plan, line, g.number, p, g.heard, lost);
    AttemptsUnfold(Accepting(plan), line, Wire(FrameAt(g, p)), g.number, MAX_RETRIES + 1);
    SendIs(plan, ops, g, p);
    StageAfter(plan, ops, g, p, 1, true, if lost then [] else [EchoBody(g.number, p)], None,
               g.heard + [Hearing(FrameAt(g, p), |g.owners|)]);
  }

  lemma FailedOnWire(plan: Plan, ops: seq<Op>, g: Stage, p: seq<byte>)
    requires At(plan, ops, g) && g.rest.None? && |p| <= MAX_PAYLOAD && Scripted(plan, |g.owners|, Losses(4))
    ensures At(plan, ops + [Sends(p)], Staged(g, p, 4, false, g.back, None, g.heard))
  {
    hide At, Mid, Attempts, SendOutcome, Sender, Waiter, Lossy, LineAt, Wire;
    AtMid(plan, ops, g);
    LostAttempts(plan, LineAt(plan, ops), Wire(FrameAt(g, p)), g.number, g.back, g.heard, 4);
    SendIs(plan, ops, g, p);
    StageAfter(plan, ops, g, p, 4, false, g.back, None, g.heard);
  }

  function LateScript(): seq<seq<Happening>> {
    [LATE] + Losses(3)
  }

  /** The first attempt is heard, but its answers come after the call has given up. */
  lemma LateOnWire(plan: Plan, ops: seq<Op>, g: Stage, p: seq<byte>)
    requires At(plan, ops, g) && g.back == [] && g.rest.None? && |p| <= MAX_PAYLOAD
    requires Scripted(plan, |g.owners|, LateScript())
    ensures At(plan, ops + [Sends(p)],
               Staged(g, p, 4, false, BothAnswers(g.number, p), None, g.heard + [Hearing(FrameAt(g, p), |g.owners|)]))
  {
    hide At, Mid, Attempts, SendOutcome, Sender, Waiter, Lossy, LineAt, Wire, AttemptOnce, BothAnswers;
    var line, wire, env := LineAt(plan, ops), Wire(FrameAt(g, p)), Accepting(plan);
    var heard := g.heard + [Hearing(FrameAt(g, p), |g.owners|)];
    AtMid(plan, ops, g);
    ScriptedParts(plan, |g.owners|, [LATE], Losses(3));
    assert [LATE][0] == LATE;
    UnackedAttempt(plan, line, g.number, p, g.heard, false);
    AttemptsUnfold(env, line, wire, g.number, MAX_RETRIES + 1);
    LostAttempts(plan, AttemptOnce(env, line, wire, g.number).line, wire, g.number, BothAnswers(g.number, p), heard, 3);
    SendIs(plan, ops, g, p);
    StageAfter(plan, ops, g, p, 4, false, BothAnswers(g.number, p), None, heard);
  }

  /** The late acknowledgement arrives during a call whose own frame is lost. */
  lemma StolenOnWire(plan: Plan, ops: seq<Op>, g: Stage, p: seq<byte>, e: seq<byte>, lost: bool)
    requires At(plan, ops, g) && g.back == [AckBody(g.number), e] && g.rest.None? && |p| <= MAX_PAYLOAD
    requires Scripted(plan, |g.owners|, [if lost then ARRIVES_ALONE else ARRIVES])
    ensures At(plan, ops + [Sends(p)], Staged(g, p, 1, true, if lost then [] else [e], None, g.heard))
  {
    hide At, Mid, Attempts, SendOutcome, Sender, Waiter, Lossy, LineAt, Wire, AttemptOnce, AckBody;
    var line, wire, script := LineAt(plan, ops), Wire(FrameAt(g, p)), [if lost then ARRIVES_ALONE else ARRIVES];
    AtMid(plan, ops, g);
    assert script[0] == script[0];
    StolenAttempt(plan, line, wire, g.number, e, g.heard, lost);
    AttemptsUnfold(Accepting(plan), line, wire, g.number, MAX_RETRIES + 1);
    SendIs(plan, ops, g, p);
    StageAfter(plan, ops, g, p, 1, true, if lost then [] else [e], None, g.heard);
  }

  function HeardTimesScript(): seq<seq<Happening>> {
    [UNANSWERED, UNANSWERED, UNANSWERED, ACKED]
  }

  ghost function HeardAt(g: Stage, p: seq<byte>, n: nat): seq<Hearing> {
    seq(n, i requires 0 <= i < n => Hearing(FrameAt(g, p), |g.owners| + i))
  }

  /** Up to three attempts that are heard and not answered. */
  lemma {:induction false} UnackedAttempts(plan: Plan, ops: seq<Op>, g: Stage, p: seq<byte>, n: nat)
    returns (line: Line)
    requires At(plan, ops, g) && g.back == [] && g.rest.None? && |p| <= MAX_PAYLOAD && n <= 3
    requires Scripted(plan, |g.owners|, HeardTimesScript())
    ensures Mid(plan, line, [], None, g.heard + HeardAt(g, p, n)) && |line.sent| == |g.owners| + n
    ensures var send, wait := Sender(Accepting(plan), Wire(FrameAt(g, p))), Waiter(g.number);
            Attempts(send, wait, LineAt(plan, ops), 4) == Attempts(send, wait, line, 4 - n)
  {
    hide At, Mid, Attempts, Sender, Waiter, Lossy, LineAt, Wire, AttemptOnce;
    if n == 0 {
      AtMid(plan, ops, g);
      line := LineAt(plan, ops);
      assert g.heard + HeardAt(g, p, 0) == g.heard;
    } else {
      var before := UnackedAttempts(plan, ops, g, p, n - 1);
      assert HeardTimesScript()[n - 1] == UNANSWERED;
      UnackedAttempt(plan, before, g.number, p, g.heard + HeardAt(g, p, n - 1), true);
      AttemptsUnfold(Accepting(plan), before, Wire(FrameAt(g, p)), g.number, 4 - (n - 1));
      line := AttemptOnce(Accepting(plan), before, Wire(FrameAt(g, p)), g.number).line;
      assert g.heard + HeardAt(g, p, n - 1) + [Hearing(FrameAt(g, p), |g.owners| + (n - 1))]
          == g.heard + HeardAt(g, p, n);
    }
  }

  /** A call whose every attempt is heard, and the last one acknowledged. */
  lemma HeardFourTimes(plan: Plan, ops: seq<Op>, g: Stage, p: seq<byte>)
    requires At(plan, ops, g) && g.back == [] && g.rest.None? && |p| <= MAX_PAYLOAD
    requires Scripted(plan, |g.owners|, HeardTimesScript())
    ensures At(plan, ops + [Sends(p)], Staged(g, p, 4, true, [], None, g.heard + HeardAt(g, p, 4)))
  {
    hide At, Mid, Attempts, SendOutcome, Sender, Waiter, Lossy, LineAt, Wire, AttemptOnce;
    AtMid(plan, ops, g);
    var line := UnackedAttempts(plan, ops, g, p, 3);
    assert HeardTimesScript()[3] == ACKED;
    AckedAttempt(plan, line, g.number, p, g.heard + HeardAt(g, p, 3), true);
    AttemptsUnfold(Accepting(plan), line, Wire(FrameAt(g, p)), g.number, 1);
    assert g.heard + HeardAt(g, p, 3) + [Hearing(FrameAt(g, p), |g.owners| + 3)] == g.heard + HeardAt(g, p, 4);
    SendIs(plan, ops, g, p);
    StageAfter(plan, ops, g, p, 4, true, [], None, g.heard + HeardAt(g, p, 4));
  }

  // ---- Calls that read an echo ----

  /** An echo on its way back, or what r waits have left of it on the line. */
  function EchoBack(e: seq<byte>, r: nat): seq<seq<byte>> {
    if r == 0 then [e] else []
  }

  function EchoRest(e: seq<byte>, r: nat): Option<seq<byte>> {
    if r == 0 then None else Some(LeftOf(e, r))
  }

  /** Frames are lost; after a delay the echo arrives. */
  function WaitScript(n: nat, delay: nat, r: nat): (script: seq<seq<Happening>>)
    ensures |script| == n
  {
    if n == 0 then []
    else if delay > 0 then [LOST] + WaitScript(n - 1, delay - 1, r)
    else [if r == 0 then ARRIVES else LOST] + WaitScript(n - 1, 0, r + 1)
  }

  lemma NextLeft(e: seq<byte>, r: nat, number: byte)
    requires NoZero(e) && AfterWaits(e, r + 1).Some?
    ensures AfterWaits(LeftOf(e, r), 1) == Some(LeftOf(e, r + 1)) && NoZero(LeftOf(e, r))
    ensures !AckAt(LeftOf(e, r), 0, number)
  {
    hide Starts, Left, Inspect, Caught;
    EarlierLeft(e, r);
    LeavingIsNoMatch(e, r, number);
    EarlierIs(e, r);
  }

  lemma EarlierIs(e: seq<byte>, r: nat)
    requires AfterWaits(e, r).Some? && Starts(AfterWaits(e, r).value)
    ensures AfterWaits(LeftOf(e, r), 1) == Left(AfterWaits(e, r).value, ACK_CHUNK)
    ensures AfterWaits(LeftOf(e, r), 0) == Some(LeftOf(e, r))
  {
    hide Starts, Left;
  }

  lemma {:induction false} WaitsOnWire(plan: Plan, line: Line, wire: seq<byte>, number: byte, e: seq<byte>, r: nat,
                                       n: nat, delay: nat, total: nat, heard: seq<Hearing>)
    returns (after: Line)
    requires n <= total && NoZero(e) && (r == 0 || delay == 0) && AfterWaits(e, r + Reads(n, delay)).Some?
    requires Mid(plan, line, EchoBack(e, r), EchoRest(e, r), heard)
    requires Scripted(plan, |line.sent|, WaitScript(n, delay, r))
    ensures Mid(plan, after, EchoBack(e, r + Reads(n, delay)), EchoRest(e, r + Reads(n, delay)), heard)
    ensures |after.sent| == |line.sent| + n
    ensures var send, wait := Sender(Accepting(plan), wire), Waiter(number);
            Attempts(send, wait, line, total) == Attempts(send, wait, after, total - n)
    decreases n
  {
    hide Mid, Attempts, Sender, Waiter, Lossy, AttemptOnce, AckAt, AfterWaits;
    if n == 0 {
      after := line;
    } else {
      var first, others := WaitScript(n, delay, r)[..1], WaitScript(n, delay, r)[1..];
      assert WaitScript(n, delay, r) == first + others;
      ScriptedParts(plan, |line.sent|, first, others);
      assert first[0] == WaitScript(n, delay, r)[0];
      AttemptsUnfold(Accepting(plan), line, wire, number, total);
      var next := AttemptOnce(Accepting(plan), line, wire, number).line;
      if delay > 0 {
        LostAttempt(plan, line, wire, number, [e], heard);
        after := WaitsOnWire(plan, next, wire, number, e, r, n - 1, delay - 1, total - 1, heard);
      } else {
        StillLeft(e, r + 1, n - 1);
        StillLeft(e, r, n);
        NextLeft(e, r, number);
        FirstLeft(e);
        ReadingAttempt(plan, line, wire, number, LeftOf(e, r), r == 0, [], heard);
        assert [e] + [] == [e];
        after := WaitsOnWire(plan, next, wire, number, e, r + 1, n - 1, 0, total - 1, heard);
      }
    }
  }

  lemma FirstLeft(e: seq<byte>)
    ensures LeftOf(e, 0) == e
  {
  }

  /** A call that fails, its frames lost, while an echo arrives and is read. */
  lemma ReadingOnWire(plan: Plan, ops: seq<Op>, g: Stage, p: seq<byte>, e: seq<byte>, r: nat, delay: nat)
    requires At(plan, ops, g) && g.back == EchoBack(e, r) && g.rest == EchoRest(e, r) && |p| <= MAX_PAYLOAD
    requires NoZero(e) && (r == 0 || delay == 0) && AfterWaits(e, r + Reads(4, delay)).Some?
    requires Scripted(plan, |g.owners|, WaitScript(4, delay, r))
    ensures At(plan, ops + [Sends(p)], Staged(g, p, 4, false, EchoBack(e, r + Reads(4, delay)),
                                              EchoRest(e, r + Reads(4, delay)), g.heard))
  {
    hide At, Mid, Attempts, SendOutcome, Sender, Waiter, Lossy, LineAt, Wire, AfterWaits, EchoBack, EchoRest;
    var wire := Wire(FrameAt(g, p));
    AtMid(plan, ops, g);
    var after := WaitsOnWire(plan, LineAt(plan, ops), wire, g.number, e, r, 4, delay, 4, g.heard);
    NoAttempts(Sender(Accepting(plan), wire), Waiter(g.number), after);
    SendIs(plan, ops, g, p);
    StageAfter(plan, ops, g, p, 4, false, EchoBack(e, r + Reads(4, delay)), EchoRest(e, r + Reads(4, delay)), g.heard);
  }

  lemma {:induction false} WaitScriptSplit(a: nat, b: nat, delay: nat, r: nat)
    ensures WaitScript(a + b, delay, r) == WaitScript(a, delay, r) + WaitScript(b, Later(delay, a), r + Reads(a, delay))
    decreases a
  {
    if a > 0 {
      if delay > 0 {
        WaitScriptSplit(a - 1, b, delay - 1, r);
      } else {
        WaitScriptSplit(a - 1, b, 0, r + 1);
      }
    }
  }

  function LastWait(r: nat): seq<Happening> {
    if r == 0 then ARRIVES else LOST
  }

  lemma LastScript(r: nat)
    ensures WaitScript(1, 0, r) == [LastWait(r)]
  {
    assert WaitScript(0, 0, r + 1) == [];
  }

  lemma AckAtLeft(e: seq<byte>, r: nat, number: byte)
    requires NoZero(e) && AckAt(e, r, number)
    ensures AfterWaits(e, r).Some? && NoZero(LeftOf(e, r)) && AckAt(LeftOf(e, r), 0, number)
  {
    hide Starts, Inspect, Caught;
    EarlierIs(e, r);
  }

  /** The last wait finds the echo there, or reads on in what is left of it. */
  lemma LastAttempt(plan: Plan, line: Line, wire: seq<byte>, number: byte, e: seq<byte>, r: nat, n: nat,
                    heard: seq<Hearing>)
    requires Mid(plan, line, EchoBack(e, r), EchoRest(e, r), heard) && NoZero(e) && AckAt(e, r, number) && n > 0
    requires Scripted(plan, |line.sent|, [LastWait(r)])
    ensures var o := Attempts(Sender(Accepting(plan), wire), Waiter(number), line, n);
            o.ok && |o.line.sent| == |line.sent| + 1 && Mid(plan, o.line, [], None, heard)
  {
    hide Mid, Attempts, Sender, Waiter, Lossy, AfterWaits, AttemptOnce;
    AckAtLeft(e, r, number);
    FirstLeft(e);
    assert [e] + [] == [e] && [LastWait(r)][0] == LastWait(r);
    ReadingAttempt(plan, line, wire, number, LeftOf(e, r), r == 0, [], heard);
    AttemptsUnfold(Accepting(plan), line, wire, number, n);
  }

  /** A call whose every frame is lost, and which the wait after n others makes succeed. */
  lemma MisledOnWire(plan: Plan, ops: seq<Op>, g: Stage, p: seq<byte>, e: seq<byte>, r: nat, n: nat, delay: nat)
    requires At(plan, ops, g) && g.back == EchoBack(e, r) && g.rest == EchoRest(e, r) && |p| <= MAX_PAYLOAD && n < 4
    requires NoZero(e) && (r == 0 || delay == 0) && delay <= n && AckAt(e, r + Reads(n, delay), g.number)
    requires Scripted(plan, |g.owners|, WaitScript(n + 1, delay, r))
    ensures At(plan, ops + [Sends(p)], Staged(g, p, n + 1, true, [], None, g.heard))
  {
    hide At, Mid, Attempts, SendOutcome, Sender, Waiter, Lossy, LineAt, Wire, AfterWaits, Scripted, WaitScript,
      EchoBack, EchoRest, AckAt, Staged, Reads, LastWait;
    var wire, last := Wire(FrameAt(g, p)), r + Reads(n, delay);
    WaitScriptSplit(n, 1, delay, r);
    LastScript(last);
    ScriptedParts(plan, |g.owners|, WaitScript(n, delay, r), [LastWait(last)]);
    AtMid(plan, ops, g);
    AckAtLeft(e, last, g.number);
    var after := WaitsOnWire(plan, LineAt(plan, ops), wire, g.number, e, r, n, delay, 4, g.heard);
    LastAttempt(plan, after, wire, g.number, e, last, 4 - n, g.heard);
    SendIs(plan, ops, g, p);
    StageAfter(plan, ops, g, p, n + 1, true, [], None, g.heard);
  }
}
