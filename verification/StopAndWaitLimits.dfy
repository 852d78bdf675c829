/** What stop-and-wait without duplicate removal cannot promise: single delivery, and that what is received was
    submitted. */
module StopAndWaitLimits {
  import opened Bytes
  import opened CobsTheorems
  import opened CrcDetection
  import opened Frames
  import opened Rs485Protocol
  import opened Segments
  import opened StopAndWait
  import opened StopAndWaitRuns
  import opened StopAndWaitSafety
  import opened StopAndWaitTheorems

  // ---- Duplicates ----

  function Repeated<T>(x: T, n: nat): (xs: seq<T>)
    ensures |xs| == n
  {
    seq(n, _ => x)
  }

  lemma RepeatedNext<T>(x: T, n: nat)
    ensures Repeated(x, n + 1) == Repeated(x, n) + [x]
  {
  }

  lemma {:induction false} CountRepeated(x: Item, n: nat)
    requires x.Data?
    ensures Count(Repeated(x, n), x.call) == n
  {
    if n > 0 {
      CountRepeated(x, n - 1);
      RepeatedNext(x, n - 1);
      CountConcat(Repeated(x, n - 1), [x], x.call);
    }
  }

  /** An attempt whose frame arrives and whose answers are lost. */
  lemma HeardAgain(s: State, p: seq<byte>, n: nat)
    requires n < s.budget && s.forward == [] && s.reverse == [] && Reachable(During(s, Ready, p, n))
    ensures Reachable(During(s.(delivered := s.delivered + [NextFrame(s)]), Ready, p, n + 1))
  {
    hide Reachable, NextPlace, EchoBody, AckBody;
    Attempted(s, p, n);
    HeardOut(s, p, n + 1);
    var answers := AnswersOf(s.number, p, s.k, |s.calls|);
    assert [] + answers == answers;
    var after := s.(delivered := s.delivered + [NextFrame(s)]);
    var now := During(after, Waiting, p, n + 1);
    assert During(s, Waiting, p, n + 1).(delivered := s.delivered + [NextFrame(s)], reverse := answers)
        == now.(reverse := answers);
    DroppedBack(now.(reverse := answers), 0);
    assert answers[..0] + answers[1..] == [answers[1]];
    DroppedBack(now.(reverse := [answers[1]]), 0);
    assert [answers[1]][..0] + [answers[1]][1..] == [];
    assert now.(reverse := []) == now;
    TimedOut(after, p, n + 1);
  }

  lemma {:induction false} HeardTimes(s: State, p: seq<byte>, n: nat)
    requires AtRest(s) && s.reverse == [] && n <= s.budget && |p| <= MAX_PAYLOAD
    ensures Reachable(During(s.(delivered := s.delivered + Repeated(NextFrame(s), n)), Ready, p, n))
  {
    hide Reachable, NextPlace, Nth;
    if n == 0 {
      CallBegun(s, p);
      assert s.delivered + Repeated(NextFrame(s), 0) == s.delivered;
    } else {
      HeardTimes(s, p, n - 1);
      RepeatedNext(NextFrame(s), n - 1);
      var before := s.(delivered := s.delivered + Repeated(NextFrame(s), n - 1));
      HeardAgain(before, p, n - 1);
      assert before.delivered + [NextFrame(s)] == s.delivered + Repeated(NextFrame(s), n);
    }
  }

  /** Whatever the calls before, there is a run in which the next call succeeds and has been delivered as often as the
      budget allows. */
  lemma DuplicatedSuccess(log: seq<Entry>, p: seq<byte>, budget: nat) returns (s: State)
    requires Payloads(log) && |p| <= MAX_PAYLOAD && budget > 0
    ensures Reachable(s) && s.budget == budget && Log(s.calls) == log + [Entry(p, true)]
    ensures Count(s.delivered, |log|) == budget
  {
    hide Reachable, NextPlace, Nth, EchoBody, AckBody, Log, Sendable, AfterWaits;
    SendableSlice(log, 0, |log|, budget);
    assert log[0..|log|] == log;
    var t := Played(budget, log);
    var c, frame := |t.calls|, NextFrame(t);
    assert |Log(t.calls)| == c == |log|;
    HeardTimes(t, p, budget - 1);
    var now := t.(delivered := t.delivered + Repeated(frame, budget - 1));
    Attempted(now, p, budget - 1);
    HeardOut(now, p, budget);
    var echo := EchoOf(t.number, p, 0, t.k, c);
    assert [] + AnswersOf(t.number, p, t.k, c) == [AckOf(t.number, t.k, c)] + [echo];
    Acknowledged(now, p, budget, c, [echo], now.delivered + [frame]);
    s := Succeeded(now, p, budget, [echo], now.delivered + [frame]);
    LogSnoc(t.calls, Called(t, p, budget, true));
    RepeatedNext(frame, budget - 1);
    assert s.delivered == t.delivered + Repeated(frame, budget);
    CountConcat(t.delivered, Repeated(frame, budget), c);
    CountRepeated(frame, budget);
    NoneYet(t);
  }

  lemma NoneYet(s: State)
    requires Reachable(s)
    ensures Count(s.delivered, |s.calls|) == 0
  {
    hide CallsInv, WaitsInv, FlowInv, DeliveryInv, Reachable;
    ReachableInv(s);
    forall i | i in s.delivered && i.Data?
      ensures i.call < |s.calls|
    {
      assert i in s.forward + s.delivered;
    }
    CountNone(s.delivered, |s.calls|);
  }

  /** With this budget no call is ever delivered twice exactly when the budget is one attempt at most. */
  lemma DuplicatesIff(budget: nat)
    ensures (forall s: State, c: nat {:trigger s.calls[c], Reachable(s)} ::
               Reachable(s) && s.budget == budget && c < |s.calls| ==> Count(s.delivered, c) <= 1)
            <==> budget <= 1
  {
    hide Reachable, Has, Ordered, Clear, Log, Count;
    if budget <= 1 {
      forall s: State, c: nat | Reachable(s) && s.budget == budget && c < |s.calls|
        ensures Count(s.delivered, c) <= 1
      {
        InOrderAtLeastOnce(s);
        assert s.calls[c].attempts <= s.budget;
      }
    } else {
      var s := DuplicatedSuccess([], [], budget);
      assert |Log(s.calls)| == 1;
      assert Count(s.delivered, 0) == budget && s.calls[0] == s.calls[0];
    }
  }

  // ---- Frames nobody submitted ----

  /** What the driver has handed over are frames that calls submitted. */
  ghost predicate AllGenuine(s: State) {
    forall i | i in s.received ::
      i.Got? && i.call < |s.calls| && i.frame == Frame(DATA, Nth(i.k), s.calls[i.call].payload)
  }

  ghost predicate OnlyAllowed(s: State, allowed: seq<byte> -> bool) {
    forall c | c in s.calls :: allowed(c.payload)
  }

  /** A frame found in what is left of an echo is shorter than the one echoed. */
  lemma LeakShorter(number: byte, p: seq<byte>, r: nat)
    requires |p| <= MAX_PAYLOAD && r > 0 && DataAt(EchoBody(number, p), r)
    ensures |Inspect(Caught(LeftOf(EchoBody(number, p), r), FRAME_CHUNK)).frame.payload| < |p|
  {
    hide AfterWaits, FrameBody, Check;
    var f := Frame(DATA, number, p);
    FrameBodyIs(f);
    FrameStartsAtOnce(f);
    var left := LeftOf(EchoBody(number, p), r);
    var chunk := Caught(left, FRAME_CHUNK);
    assert |FrameBody(f)| == |p| + 6;
    DecodedSize(chunk[..|chunk| - 1]);
  }

  lemma {:induction false} AllSucceeded(p: seq<byte>, n: nat, c: nat)
    requires c <= n
    ensures Number(Repeated(Entry(p, true), n), c) == c
    decreases c
  {
    if c > 0 {
      AllSucceeded(p, n, c - 1);
    }
  }

  /** The echo of payload p under this number lies unread, and only p has been submitted. */
  lemma EchoUnread(number: byte, p: seq<byte>, budget: nat) returns (s: State, k: nat)
    requires |p| <= MAX_PAYLOAD && budget > 0
    ensures AtRest(s) && s.budget == budget && s.reverse == [EchoOf(number, p, 0, k, k)] && Nth(k) == number
    ensures k < |s.calls| && s.calls[k].payload == p && forall c | c in s.calls :: c.payload == p
  {
    hide Reachable, NextPlace, Nth, EchoBody, AckBody, Log, AtRest;
    k := Value(number);
    NthOfValue(number);
    var log := Repeated(Entry(p, true), k);
    assert Payloads(log);
    var t := PlayedPrefix(log, k, budget);
    AllSucceeded(p, k, k);
    assert log[..k] == log;
    AtRestIs(t);
    EchoCall(t, p);
    s := Succeeded(t, p, 1, [EchoOf(number, p, 0, k, k)], t.delivered + [NextFrame(t)]);
    forall c | 0 <= c < |s.calls|
      ensures s.calls[c].payload == p
    {
      if c < k {
        LoggedAt(t.calls, c);
      }
    }
  }

  /** If what is left of an echo holds a data frame, some run hands it over. */
  lemma Leaked(number: byte, p: seq<byte>, budget: nat) returns (s: State)
    requires |p| <= MAX_PAYLOAD && budget > 0 && Leaks(EchoBody(number, p))
    ensures Reachable(s) && s.budget == budget && !AllGenuine(s) && forall c | c in s.calls :: c.payload == p
  {
    hide Reachable, NextPlace, Nth, EchoBody, AckBody, Log, AfterWaits, Inspect, Caught, Left, Starts;
    var b := EchoBody(number, p);
    var r: nat :| r > 0 && DataAt(b, r);
    var t, k := EchoUnread(number, p, budget);
    NoWaits(b);
    var log := Repeated(Entry(p, false), r);
    assert forall e | e in log :: e == Entry(p, false);
    EnoughWaits(budget, r);
    var delay := budget * r - r;
    assert Reads(budget * |log|, delay) == r;
    var u := ReadingFailures(t, log, delay, number, p, 0, k, k);
    var f := Inspect(Caught(LeftOf(b, r), FRAME_CHUNK)).frame;
    var found := Receive(|f.payload|);
    s := Moved(u, found);
    ReachTo(u, found, s);
    LeakShorter(number, p, r);
    var got := Got(f, k, k);
    assert got in s.received && u.calls[k] == t.calls[k];
    forall c | 0 <= c < |u.calls|
      ensures u.calls[c].payload == p
    {
      LoggedAt(u.calls, c);
      if c < |t.calls| {
        assert u.calls[c] == t.calls[c];
      }
    }
  }

  lemma EnoughWaits(budget: nat, r: nat)
    requires budget > 0
    ensures r <= budget * r
  {
  }

  /** When callers submit allowed payloads only, every frame handed over on every run was submitted, exactly when the
      echo of no allowed payload leaks. */
  lemma EchoesGenuineIff(allowed: seq<byte> -> bool, budget: nat)
    requires budget > 0
    ensures (forall s: State {:trigger Reachable(s)} ::
               Reachable(s) && s.budget == budget && OnlyAllowed(s, allowed) ==> AllGenuine(s))
            <==> (forall number, p {:trigger EchoBody(number, p)} ::
                    allowed(p) && |p| <= MAX_PAYLOAD ==> !Leaks(EchoBody(number, p)))
  {
    hide Reachable, EchoBody, Leaks, Nth;
    if number, p :| allowed(p) && |p| <= MAX_PAYLOAD && Leaks(EchoBody(number, p)) {
      var s := Leaked(number, p, budget);
      assert OnlyAllowed(s, allowed);
    } else {
      forall s: State | Reachable(s) && s.budget == budget && OnlyAllowed(s, allowed)
        ensures AllGenuine(s)
      {
        EchoesAreDelivered(s);
        PayloadsFit(s);
      }
    }
  }

  lemma PayloadsFit(s: State)
    requires Reachable(s)
    ensures forall c | 0 <= c < |s.calls| :: |s.calls[c].payload| <= MAX_PAYLOAD
  {
    hide Reachable, WaitsInv, FlowInv, DeliveryInv, CopiesInv, CallsOrdered, Numbered, Nth;
    ReachableInv(s);
  }
}
