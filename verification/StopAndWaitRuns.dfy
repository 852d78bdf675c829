/** Runs of the stop-and-wait system, built call by call: they show that its failures can happen. */
module StopAndWaitRuns {
  import opened Bytes
  import opened Cobs
  import opened Frames
  import opened Rs485Protocol
  import opened Segments
  import opened StopAndWait
  import opened StopAndWaitSafety
  import opened Wrappers

  /** A call of send as its caller sees it. */
  datatype Entry = Entry(payload: seq<byte>, ok: bool)

  function Log(calls: seq<Call>): (log: seq<Entry>)
    ensures |log| == |calls|
  {
    seq(|calls|, i requires 0 <= i < |calls| => Entry(calls[i].payload, calls[i].ok))
  }

  lemma LogSnoc(calls: seq<Call>, c: Call)
    ensures Log(calls + [c]) == Log(calls) + [Entry(c.payload, c.ok)]
  {
  }

  // ---- One move further ----

  lemma {:induction false} ExecSnoc(s: State, run: seq<Move>, m: Move, t: State)
    requires Exec(s, run) == Some(t) && Enabled(t, m)
    ensures Exec(s, run + [m]) == Some(Moved(t, m))
    decreases run
  {
    hide Moved, Enabled;
    if run == [] {
      assert [] + [m] == [m] && [m][1..] == [];
    } else {
      assert (run + [m])[1..] == run[1..] + [m];
      ExecSnoc(Moved(s, run[0]), run[1..], m, t);
    }
  }

  lemma ReachTo(s: State, m: Move, t: State)
    requires Reachable(s) && Enabled(s, m) && Moved(s, m) == t
    ensures Reachable(t)
  {
    hide Moved, Enabled, Inv;
    var run :| Exec(Init(s.budget), run) == Some(s);
    InitInv(s.budget);
    RunKeeps(Init(s.budget), run);
    ReachableInv(s);
    MoveKeeps(s, m);
    ExecSnoc(Init(s.budget), run, m, s);
    assert Exec(Init(t.budget), run + [m]) == Some(t);
  }

  lemma InitReachable(budget: nat)
    ensures Reachable(Init(budget))
  {
    assert Exec(Init(budget), []) == Some(Init(budget));
  }

  // ---- Between calls ----

  /** Between calls, with nothing on the way out. */
  ghost predicate AtRest(s: State) {
    Reachable(s) && s.phase == Idle && s.forward == [] && s.number == Nth(s.k)
  }

  ghost predicate Below(delivered: seq<Item>, k: nat) {
    forall d | d in delivered :: d.Data? && d.k < k
  }

  function Called(s: State, p: seq<byte>, n: nat, ok: bool): Call {
    Call(p, s.k, NextPlace(s.calls), n, ok)
  }

  /** During the next call, for payload p, after n of its attempts. */
  function During(s: State, phase: Phase, p: seq<byte>, n: nat): State {
    s.(phase := phase, calls := s.calls + [Called(s, p, n, false)])
  }

  /** The frame of the next call. */
  function NextFrame(s: State): Item {
    Data(s.number, s.k, |s.calls|)
  }

  lemma CallBegun(s: State, p: seq<byte>)
    requires AtRest(s) && |p| <= MAX_PAYLOAD
    ensures Reachable(During(s, Ready, p, 0))
  {
    hide Reachable, Nth;
    ReachTo(s, Submit(p), During(s, Ready, p, 0));
  }

  /** An attempt whose frame is on its way. */
  lemma Attempted(s: State, p: seq<byte>, n: nat)
    requires n < s.budget && s.forward == [] && Reachable(During(s, Ready, p, n))
    ensures Reachable(During(s, Waiting, p, n + 1).(forward := [NextFrame(s)]))
  {
    hide Reachable, NextPlace;
    var now, next := During(s, Ready, p, n), During(s, Waiting, p, n + 1);
    assert now.calls[|s.calls| := Called(s, p, n + 1, false)] == next.calls;
    assert [] + [NextFrame(s)] == [NextFrame(s)];
    ReachTo(now, Transmit(true), next.(forward := [NextFrame(s)]));
  }

  /** Its wait finds nothing that has arrived. */
  lemma TimedOut(s: State, p: seq<byte>, n: nat)
    requires Reachable(During(s, Waiting, p, n))
    ensures Reachable(During(s, Ready, p, n))
  {
    hide Reachable, NextPlace;
    ReachTo(During(s, Waiting, p, n), Timeout, During(s, Ready, p, n));
  }

  /** An attempt whose frame is lost and whose wait finds nothing. */
  lemma LostOnce(s: State, p: seq<byte>, n: nat)
    requires n < s.budget && s.forward == [] && Reachable(During(s, Ready, p, n))
    ensures Reachable(During(s, Ready, p, n + 1))
  {
    hide Reachable, NextPlace;
    Attempted(s, p, n);
    DroppedOut(During(s, Waiting, p, n + 1), NextFrame(s));
    TimedOut(s, p, n + 1);
  }

  lemma DroppedOut(s: State, x: Item)
    requires s.forward == [] && Reachable(s.(forward := [x]))
    ensures Reachable(s)
  {
    hide Reachable;
    assert [x][..0] + [x][1..] == [];
    ReachTo(s.(forward := [x]), Harm(true, Drop(0)), s);
  }

  lemma DroppedBack(s: State, i: nat)
    requires i < |s.reverse| && Reachable(s)
    ensures Reachable(s.(reverse := s.reverse[..i] + s.reverse[i + 1..]))
  {
    hide Reachable;
    ReachTo(s, Harm(false, Drop(i)), s.(reverse := s.reverse[..i] + s.reverse[i + 1..]));
  }

  /** All further frames of a call are lost, and it gives up. */
  lemma LostAll(s: State, p: seq<byte>, n: nat)
    requires n <= s.budget && s.forward == [] && Reachable(During(s, Ready, p, n))
    ensures Reachable(During(s, Idle, p, s.budget))
    decreases s.budget - n
  {
    hide Reachable, NextPlace;
    if n == s.budget {
      ReachTo(During(s, Ready, p, n), GiveUp, During(s, Idle, p, n));
    } else {
      LostOnce(s, p, n);
      LostAll(s, p, n + 1);
    }
  }

  function AckOf(number: byte, k: nat, c: nat): Item {
    Ack(AckBody(number), k, c)
  }

  function LeftOf(b: seq<byte>, r: nat): seq<byte> {
    match AfterWaits(b, r)
    case None => []
    case Some(left) => left
  }

  /** What r waits leave of the echo of call c. */
  function EchoOf(number: byte, p: seq<byte>, r: nat, k: nat, c: nat): Item {
    Echo(LeftOf(EchoBody(number, p), r), r, k, c)
  }

  function AnswersOf(number: byte, p: seq<byte>, k: nat, c: nat): seq<Item> {
    [AckOf(number, k, c), EchoOf(number, p, 0, k, c)]
  }

  /** The peer hears the frame of the call under way. */
  lemma HeardOut(s: State, p: seq<byte>, n: nat)
    requires s.forward == [] && Reachable(During(s, Waiting, p, n).(forward := [NextFrame(s)]))
    ensures Reachable(During(s, Waiting, p, n).(delivered := s.delivered + [NextFrame(s)],
                                                reverse := s.reverse + AnswersOf(s.number, p, s.k, |s.calls|)))
  {
    hide Reachable, NextPlace, EchoBody, AckBody;
    var now := During(s, Waiting, p, n);
    assert [NextFrame(s)][1..] == [];
    ReachTo(now.(forward := [NextFrame(s)]), Deliver,
            now.(delivered := s.delivered + [NextFrame(s)],
                 reverse := s.reverse + AnswersOf(s.number, p, s.k, |s.calls|)));
  }

  /** The state after a call that succeeds, leaving this on the way back. */
  function Succeeded(s: State, p: seq<byte>, n: nat, reverse: seq<Item>, delivered: seq<Item>): State {
    s.(phase := Idle, k := s.k + 1, number := s.number + 1, waits := 0, reverse := reverse, delivered := delivered,
       calls := s.calls + [Called(s, p, n, true)])
  }

  lemma NumberGrows(s: State)
    requires s.number == Nth(s.k)
    ensures s.number + 1 == Nth(s.k + 1)
  {
    NthNext(s.k);
  }

  lemma AckMatches(number: byte)
    ensures Starts(AckBody(number)) && IsAck(Inspect(Caught(AckBody(number), ACK_CHUNK)), number)
    ensures Left(AckBody(number), ACK_CHUNK) == None
  {
    AckRead(number, number);
  }

  /** The acknowledgement of the current number ends the call. */
  lemma Acknowledged(s: State, p: seq<byte>, n: nat, c: nat, more: seq<Item>, delivered: seq<Item>)
    requires Reachable(During(s, Waiting, p, n).(reverse := [AckOf(s.number, s.k, c)] + more, delivered := delivered))
    ensures Reachable(Succeeded(s, p, n, more, delivered))
  {
    hide Reachable, NextPlace, AckBody, Inspect, Caught, Left, Starts, Nth;
    var ack := AckOf(s.number, s.k, c);
    var now := During(s, Waiting, p, n).(reverse := [ack] + more, delivered := delivered);
    AckMatches(s.number);
    assert now.calls[|s.calls| := Called(s, p, n, true)] == s.calls + [Called(s, p, n, true)];
    assert ([ack] + more)[1..] == more && [] + more == more;
    ReachTo(now, Take, Succeeded(s, p, n, more, delivered));
  }

  // ---- Calls ----

  /** A call whose first frame arrives and is acknowledged; its echo is still to be read. */
  lemma EchoCall(s: State, p: seq<byte>)
    requires AtRest(s) && s.reverse == [] && s.budget > 0 && |p| <= MAX_PAYLOAD
    ensures AtRest(Succeeded(s, p, 1, [EchoOf(s.number, p, 0, s.k, |s.calls|)], s.delivered + [NextFrame(s)]))
  {
    hide Reachable, Nth, EchoBody, AckBody, NextPlace;
    var echo := EchoOf(s.number, p, 0, s.k, |s.calls|);
    CallBegun(s, p);
    Attempted(s, p, 0);
    HeardOut(s, p, 1);
    assert [] + AnswersOf(s.number, p, s.k, |s.calls|) == [AckOf(s.number, s.k, |s.calls|)] + [echo];
    Acknowledged(s, p, 1, |s.calls|, [echo], s.delivered + [NextFrame(s)]);
    NumberGrows(s);
  }

  /** What is on the way back is lost. */
  lemma DroppedHead(s: State, x: Item, more: seq<Item>)
    requires AtRest(s) && s.reverse == [x] + more
    ensures AtRest(s.(reverse := more))
  {
    hide Reachable, Nth;
    assert s.reverse[..0] + s.reverse[1..] == more;
    DroppedBack(s, 0);
  }

  lemma GoodCall(s: State, p: seq<byte>)
    requires AtRest(s) && s.reverse == [] && s.budget > 0 && |p| <= MAX_PAYLOAD
    ensures AtRest(Succeeded(s, p, 1, [], s.delivered + [NextFrame(s)]))
  {
    hide Reachable, Nth, EchoBody, AckBody, NextPlace;
    EchoCall(s, p);
    var echo := EchoOf(s.number, p, 0, s.k, |s.calls|);
    DroppedHead(Succeeded(s, p, 1, [echo], s.delivered + [NextFrame(s)]), echo, []);
  }

  lemma FailedCall(s: State, p: seq<byte>)
    requires AtRest(s) && |p| <= MAX_PAYLOAD
    ensures AtRest(During(s, Idle, p, s.budget))
  {
    hide Reachable, Nth, NextPlace;
    CallBegun(s, p);
    LostAll(s, p, 0);
  }

  /** A call that fails although its payload is delivered: the answers are late. */
  lemma LateCall(s: State, p: seq<byte>)
    requires AtRest(s) && s.reverse == [] && s.budget > 0 && |p| <= MAX_PAYLOAD
    ensures AtRest(During(s, Idle, p, s.budget).(delivered := s.delivered + [NextFrame(s)],
                                               reverse := AnswersOf(s.number, p, s.k, |s.calls|)))
  {
    hide Reachable, Nth, EchoBody, AckBody, NextPlace;
    CallBegun(s, p);
    Attempted(s, p, 0);
    HeardOut(s, p, 1);
    var answers := AnswersOf(s.number, p, s.k, |s.calls|);
    assert [] + answers == answers;
    var after := s.(delivered := s.delivered + [NextFrame(s)], reverse := answers);
    assert During(after, Waiting, p, 1)
        == During(s, Waiting, p, 1).(delivered := s.delivered + [NextFrame(s)], reverse := answers);
    TimedOut(after, p, 1);
    LostAll(after, p, 1);
  }

  /** A late acknowledgement makes a call succeed although its own frame is lost. */
  lemma StolenCall(s: State, c: nat, p: seq<byte>, more: seq<Item>)
    requires AtRest(s) && s.reverse == [AckOf(s.number, s.k, c)] + more && s.budget > 0 && |p| <= MAX_PAYLOAD
    ensures AtRest(Succeeded(s, p, 1, more, s.delivered))
  {
    hide Reachable, Nth, EchoBody, AckBody, NextPlace;
    CallBegun(s, p);
    Attempted(s, p, 0);
    DroppedOut(During(s, Waiting, p, 1), NextFrame(s));
    assert During(s, Waiting, p, 1)
        == During(s, Waiting, p, 1).(reverse := [AckOf(s.number, s.k, c)] + more, delivered := s.delivered);
    Acknowledged(s, p, 1, c, more, s.delivered);
    NumberGrows(s);
  }

  // ---- Any log ----

  ghost predicate Sendable(log: seq<Entry>, budget: nat) {
    forall e | e in log :: |e.payload| <= MAX_PAYLOAD && (e.ok ==> budget > 0)
  }

  /** Every log continues some run, which leaves nothing under way and delivers nothing under older numbers. */
  lemma {:induction false} PlayedOn(s: State, log: seq<Entry>) returns (t: State)
    requires AtRest(s) && s.reverse == [] && Sendable(log, s.budget) && Below(s.delivered, s.k)
    ensures AtRest(t) && t.reverse == [] && t.budget == s.budget && Below(t.delivered, t.k)
    ensures Log(t.calls) == Log(s.calls) + log && s.calls <= t.calls
    ensures forall d | d in t.delivered :: d in s.delivered || d.k >= s.k
    ensures t.k >= s.k
    decreases log
  {
    hide AtRest, Log, NextPlace;
    t := s;
    if log == [] {
      assert Log(s.calls) + log == Log(s.calls);
    } else {
      var e, next := log[0], s;
      assert e in log;
      if e.ok {
        GoodCall(s, e.payload);
        next := Succeeded(s, e.payload, 1, [], s.delivered + [NextFrame(s)]);
        LogSnoc(s.calls, Called(s, e.payload, 1, true));
      } else {
        FailedCall(s, e.payload);
        next := During(s, Idle, e.payload, s.budget);
        LogSnoc(s.calls, Called(s, e.payload, s.budget, false));
      }
      t := PlayedOn(next, log[1..]);
      assert Log(s.calls) + [e] + log[1..] == Log(s.calls) + log;
    }
  }

  lemma Played(budget: nat, log: seq<Entry>) returns (t: State)
    requires Sendable(log, budget)
    ensures AtRest(t) && t.reverse == [] && t.budget == budget && Below(t.delivered, t.k) && Log(t.calls) == log
  {
    hide Reachable;
    InitReachable(budget);
    t := PlayedOn(Init(budget), log);
    assert Log([]) + log == log;
  }

  /** Calls fail while answers are late. */
  lemma {:induction false} PlayedFailures(s: State, log: seq<Entry>) returns (t: State)
    requires AtRest(s) && Sendable(log, s.budget) && forall e | e in log :: !e.ok
    ensures AtRest(t) && t == s.(calls := t.calls) && Log(t.calls) == Log(s.calls) + log && s.calls <= t.calls
    decreases log
  {
    hide AtRest, Log, NextPlace;
    t := s;
    if log == [] {
      assert Log(s.calls) + log == Log(s.calls);
    } else {
      var e := log[0];
      assert e in log;
      assert s.phase == Idle by { AtRestIs(s); }
      FailedCall(s, e.payload);
      LogSnoc(s.calls, Called(s, e.payload, s.budget, false));
      t := PlayedFailures(During(s, Idle, e.payload, s.budget), log[1..]);
      assert Log(s.calls) + [e] + log[1..] == Log(s.calls) + log;
    }
  }

  lemma AtRestIs(s: State)
    requires AtRest(s)
    ensures s.phase == Idle && s.forward == [] && s.number == Nth(s.k)
  {
  }

  // ---- Waits that read an echo ----

  lemma EarlierLeft(b: seq<byte>, r: nat)
    requires AfterWaits(b, r + 1).Some?
    ensures AfterWaits(b, r).Some? && Starts(AfterWaits(b, r).value)
    ensures AfterWaits(b, r + 1) == Left(AfterWaits(b, r).value, ACK_CHUNK)
  {
    hide Starts, Left;
  }

  lemma {:induction false} StillLeft(b: seq<byte>, r: nat, n: nat)
    requires AfterWaits(b, r + n).Some?
    ensures AfterWaits(b, r).Some?
    decreases n
  {
    hide AfterWaits;
    if n > 0 {
      EarlierLeft(b, r + n - 1);
      StillLeft(b, r, n - 1);
    }
  }

  /** A wait that leaves something has found nothing. */
  lemma LeavingIsNoMatch(b: seq<byte>, r: nat, n: byte)
    requires NoZero(b) && AfterWaits(b, r + 1).Some?
    ensures AfterWaits(b, r).Some? && !IsAck(Inspect(Caught(AfterWaits(b, r).value, ACK_CHUNK)), n)
  {
    hide Starts, Left, AfterWaits, Inspect, Caught;
    EarlierLeft(b, r);
    var left := AfterWaits(b, r).value;
    if IsAck(Inspect(Caught(left, ACK_CHUNK)), n) {
      CutIsNoAck(left, n);
    }
  }

  lemma EchoNoZero(number: byte, p: seq<byte>)
    ensures NoZero(EchoBody(number, p))
  {
    hide FrameBody;
    FrameBodyIs(Frame(DATA, number, p));
  }

  /** An attempt whose frame is lost and whose wait reads some of an echo. */
  lemma ReadOnce(s: State, p: seq<byte>, a: nat, number: byte, q: seq<byte>, r: nat, k: nat, c: nat)
    requires a < s.budget && s.forward == [] && Reachable(During(s, Ready, p, a))
    requires AfterWaits(EchoBody(number, q), r).Some? && s.reverse == [EchoOf(number, q, r, k, c)]
    requires AfterWaits(EchoBody(number, q), r + 1).Some?
    ensures Reachable(During(s.(reverse := [EchoOf(number, q, r + 1, k, c)], waits := s.waits + 1), Ready, p, a + 1))
  {
    hide Reachable, NextPlace, EchoBody, AfterWaits, Inspect, Caught, Left, Starts, Nth;
    var b := EchoBody(number, q);
    EchoNoZero(number, q);
    EarlierLeft(b, r);
    LeavingIsNoMatch(b, r, s.number);
    Attempted(s, p, a);
    DroppedOut(During(s, Waiting, p, a + 1), NextFrame(s));
    var now, more := During(s, Waiting, p, a + 1), [EchoOf(number, q, r + 1, k, c)];
    assert Waited(s.reverse[0]) == more;
    assert more + s.reverse[1..] == more;
    assert During(s.(reverse := more, waits := s.waits + 1), Ready, p, a + 1)
        == now.(phase := Ready, reverse := more, waits := s.waits + 1);
    ReachTo(now, Take, now.(phase := Ready, reverse := more, waits := s.waits + 1));
  }

  /** Of n waits, those that come after an echo delayed for this many waits. */
  function Reads(n: nat, delay: nat): nat {
    if n <= delay then 0 else n - delay
  }

  /** What is left of a delay after n waits. */
  function Later(delay: nat, n: nat): nat {
    if delay <= n then 0 else delay - n
  }

  lemma ReadsSplit(a: nat, b: nat, delay: nat)
    ensures Reads(a + b, delay) == Reads(a, delay) + Reads(b, Later(delay, a))
  {
  }

  /** The echo with these further waits on it. */
  function ReadOn(s: State, number: byte, q: seq<byte>, r: nat, k: nat, c: nat, n: nat): State {
    s.(reverse := [EchoOf(number, q, r + n, k, c)], waits := s.waits + n)
  }

  /** n attempts whose frames are lost: the echo arrives after a delay, and then each wait reads some of it. */
  lemma {:induction false} WaitSome(s: State, p: seq<byte>, a: nat, n: nat, delay: nat, number: byte, q: seq<byte>,
                                    r: nat, k: nat, c: nat)
    requires a + n <= s.budget && s.forward == [] && Reachable(During(s, Ready, p, a))
    requires s.reverse == [EchoOf(number, q, r, k, c)]
    requires AfterWaits(EchoBody(number, q), r + Reads(n, delay)).Some?
    ensures Reachable(During(ReadOn(s, number, q, r, k, c, Reads(n, delay)), Ready, p, a + n))
    decreases n
  {
    hide Reachable, NextPlace, EchoBody, AfterWaits, During;
    if n == 0 {
      assert ReadOn(s, number, q, r, k, c, 0) == s;
    } else if delay > 0 {
      LostOnce(s, p, a);
      WaitSome(s, p, a + 1, n - 1, delay - 1, number, q, r, k, c);
      assert Reads(n, delay) == Reads(n - 1, delay - 1);
    } else {
      StillLeft(EchoBody(number, q), r + 1, n - 1);
      StillLeft(EchoBody(number, q), r, n);
      ReadOnce(s, p, a, number, q, r, k, c);
      var next := ReadOn(s, number, q, r, k, c, 1);
      WaitSome(next, p, a + 1, n - 1, 0, number, q, r + 1, k, c);
      assert ReadOn(next, number, q, r + 1, k, c, n - 1) == ReadOn(s, number, q, r, k, c, n);
    }
  }

  /** A call that fails, its frames lost, while the echo arrives and is read. */
  lemma ReadingCall(s: State, p: seq<byte>, delay: nat, number: byte, q: seq<byte>, r: nat, k: nat, c: nat)
    requires AtRest(s) && |p| <= MAX_PAYLOAD && s.reverse == [EchoOf(number, q, r, k, c)]
    requires AfterWaits(EchoBody(number, q), r + Reads(s.budget, delay)).Some?
    ensures AtRest(During(ReadOn(s, number, q, r, k, c, Reads(s.budget, delay)), Idle, p, s.budget))
  {
    hide Reachable, NextPlace, EchoBody, AfterWaits, Nth;
    CallBegun(s, p);
    WaitSome(s, p, 0, s.budget, delay, number, q, r, k, c);
    LostAll(ReadOn(s, number, q, r, k, c, Reads(s.budget, delay)), p, s.budget);
  }

  /** Calls that fail while the echo arrives and is read. */
  lemma {:induction false} ReadingFailures(s: State, log: seq<Entry>, delay: nat, number: byte, q: seq<byte>, r: nat,
                                          k: nat, c: nat)
    returns (t: State)
    requires AtRest(s) && Sendable(log, s.budget) && (forall e | e in log :: !e.ok)
    requires s.reverse == [EchoOf(number, q, r, k, c)]
    requires AfterWaits(EchoBody(number, q), r + Reads(s.budget * |log|, delay)).Some?
    ensures AtRest(t) && t.reverse == [EchoOf(number, q, r + Reads(s.budget * |log|, delay), k, c)]
    ensures t == s.(reverse := t.reverse, waits := t.waits, calls := t.calls)
    ensures Log(t.calls) == Log(s.calls) + log && s.calls <= t.calls
    decreases log
  {
    hide AtRest, Log, NextPlace, EchoBody, AfterWaits;
    t := s;
    if log == [] {
      assert Log(s.calls) + log == Log(s.calls);
    } else {
      var e, rest := log[0], s.budget * |log[1..]|;
      assert e in log;
      OneMorePlace(s.budget, |log|);
      assert s.budget * |log| == s.budget + rest;
      ReadsSplit(s.budget, rest, delay);
      var first, others := Reads(s.budget, delay), Reads(rest, Later(delay, s.budget));
      StillLeft(EchoBody(number, q), r + first, others);
      AtRestIs(s);
      ReadingCall(s, e.payload, delay, number, q, r, k, c);
      LogSnoc(s.calls, Called(s, e.payload, s.budget, false));
      var read := During(ReadOn(s, number, q, r, k, c, first), Idle, e.payload, s.budget);
      t := ReadingFailures(read, log[1..], Later(delay, s.budget), number, q, r + first, k, c);
      assert Log(s.calls) + [e] + log[1..] == Log(s.calls) + log;
    }
  }

  /** A call whose every frame is lost, and which succeeds because the wait after n others finds an acknowledgement in
      what is left of the echo. */
  lemma MisledCall(s: State, p: seq<byte>, n: nat, delay: nat, number: byte, q: seq<byte>, r: nat, k: nat, c: nat)
    requires AtRest(s) && n < s.budget && |p| <= MAX_PAYLOAD && s.reverse == [EchoOf(number, q, r, k, c)]
    requires delay <= n && AckAt(EchoBody(number, q), r + Reads(n, delay), s.number)
    ensures AtRest(Succeeded(s, p, n + 1, [], s.delivered))
  {
    hide Reachable, NextPlace, EchoBody, AfterWaits, Inspect, Caught, Left, Starts, Nth;
    var b, looks := EchoBody(number, q), Reads(n, delay);
    var read := ReadOn(s, number, q, r, k, c, looks);
    CallBegun(s, p);
    WaitSome(s, p, 0, n, delay, number, q, r, k, c);
    Attempted(read, p, n);
    DroppedOut(During(read, Waiting, p, n + 1), NextFrame(read));
    var now := During(read, Waiting, p, n + 1);
    EchoNoZero(number, q);
    CutIsNoAck(AfterWaits(b, r + looks).value, s.number);
    assert Waited(now.reverse[0]) == [];
    assert [] + now.reverse[1..] == [];
    assert now.calls[|s.calls| := Called(s, p, n + 1, true)] == s.calls + [Called(s, p, n + 1, true)];
    ReachTo(now, Take, Succeeded(s, p, n + 1, [], s.delivered));
    NumberGrows(s);
  }
}
