/** What a caller of send may conclude, on every run, and exactly when. */
module StopAndWaitTheorems {
  import opened Bytes
  import opened Frames
  import opened Segments
  import opened StopAndWait
  import opened StopAndWaitRuns
  import opened StopAndWaitSafety

  // ---- On every run ----

  /** In every reachable state whose calls are clear the frames under way carry the current number or the one
      before, in order, so that comparing 8 bits compares logical numbers. */
  lemma NumbersNeverConfused(s: State, i: Item)
    requires Reachable(s) && Clear(s.calls, s.budget) && i in s.reverse + s.forward && !i.Other?
    ensures i.k <= s.k <= i.k + 1
    ensures Nth(i.k) == s.number <==> i.k == s.k
    ensures Ordered(s.reverse + s.forward)
  {
    hide CallsOrdered, Numbered, Within, WaitsInv, DeliveryInv, CopiesInv, Known, Clear, Fresh, Nth;
    ReachableInv(s);
    assert i.k <= s.k <= i.k + 1;
    if Nth(i.k) == s.number {
      NumbersMatch(i.k, s.k);
    }
    var q, r := s.received + s.reverse + s.forward, s.reverse + s.forward;
    assert forall n | 0 <= n < |r| :: r[n] == q[|s.received| + n];
  }

  /** Delivery is in order and genuine, and no call is delivered more often than it was transmitted, which is
      as often as the budget says at most. Unless a call was misled nothing before the current number is
      missing. */
  lemma InOrderAtLeastOnce(s: State)
    requires Reachable(s)
    ensures Ordered(s.delivered)
    ensures forall d | d in s.delivered ::
              d.Data? && d.call < |s.calls| && d == Data(Nth(d.k), s.calls[d.call].k, d.call)
    ensures forall c: nat {:trigger s.calls[c]} | c < |s.calls| ::
              Count(s.delivered, c) <= s.calls[c].attempts <= s.budget
    ensures Clear(s.calls, s.budget) ==> forall j: nat | j < s.k :: Has(s.delivered, j)
  {
    hide FlowInv, Has, WaitsInv, CallsOrdered, Numbered, Clear, Nth;
    ReachableInv(s);
    var q := s.delivered + s.forward;
    assert forall n | 0 <= n < |s.delivered| :: s.delivered[n] == q[n];
    forall d | d in s.delivered
      ensures d.Data? && d.call < |s.calls| && d == Data(Nth(d.k), s.calls[d.call].k, d.call)
    {
      assert Known(s.calls, d);
    }
    forall c: nat | c < |s.calls|
      ensures Count(s.delivered, c) <= s.calls[c].attempts <= s.budget
    {
      assert Count(s.delivered, c) + Count(s.forward, c) <= s.calls[c].attempts;
      assert s.calls[c].attempts <= s.budget;
    }
  }

  /** What the driver hands over comes from echoes of frames the peer has delivered, in order; it is such a frame
      unless the echo leaks. */
  lemma EchoesAreDelivered(s: State)
    requires Reachable(s)
    ensures Ordered(s.received)
    ensures forall i | i in s.received ::
              && i.Got? && i.call < |s.calls| && Data(Nth(i.k), i.k, i.call) in s.delivered
              && (i.frame == Frame(DATA, Nth(i.k), s.calls[i.call].payload)
                  || Leaks(EchoBody(Nth(i.k), s.calls[i.call].payload)))
  {
    hide CallsInv, WaitsInv, CopiesInv, Has, Clear, Leaks, EchoBody, Nth, Recent, Fresh, LooksAtMost;
    ReachableInv(s);
    var q := s.received + s.reverse + s.forward;
    assert forall n | 0 <= n < |s.received| :: s.received[n] == q[n];
    forall i | i in s.received
      ensures && i.Got? && i.call < |s.calls| && Data(Nth(i.k), i.k, i.call) in s.delivered
              && (i.frame == Frame(DATA, Nth(i.k), s.calls[i.call].payload)
                  || Leaks(EchoBody(Nth(i.k), s.calls[i.call].payload)))
    {
      assert Known(s.calls, i) && Heard(s.delivered, i);
    }
  }

  lemma SameNumber(k: nat, calls: seq<Call>, b: nat, c: nat)
    requires CallsOrdered(k, calls) && b < |calls| && c < |calls| && calls[c].ok && calls[b].k == calls[c].k
    ensures b <= c && forall e | b <= e < c :: !calls[e].ok
  {
    forall e | b <= e < c
      ensures !calls[e].ok
    {
      assert b == e || calls[b].k <= calls[e].k;
    }
  }

  /** A call that succeeded under number k, when no call was misled: the peer has delivered a payload submitted
      under k, by this call or by an earlier one. */
  lemma SuccessMeansDelivered(s: State, c: nat) returns (d: Item)
    requires Reachable(s) && Clear(s.calls, s.budget) && c < |s.calls| && s.calls[c].ok
    ensures d in s.delivered && d.Data? && d.call <= c && s.calls[d.call].k == d.k == s.calls[c].k
    ensures forall e | d.call <= e < c :: !s.calls[e].ok
  {
    hide WaitsInv, FlowInv, CopiesInv, Ordered, AllHeard, Clear, Numbered, Within, Nth;
    ReachableInv(s);
    var k := s.calls[c].k;
    assert Has(s.delivered, k);
    d :| d in s.delivered && d.Data? && d.k == k;
    assert Known(s.calls, d);
    SameNumber(s.k, s.calls, d.call, c);
  }

  // ---- In terms of the log ----

  /** The number of the call at place c of a log, and its place among the calls under that number. */
  function Number(log: seq<Entry>, c: nat): nat
    requires c <= |log|
  {
    if c == 0 then 0 else Number(log, c - 1) + if log[c - 1].ok then 1 else 0
  }

  function Place(log: seq<Entry>, c: nat): nat
    requires c <= |log|
  {
    if c == 0 || log[c - 1].ok then 1 else Place(log, c - 1) + 1
  }

  /** What is left of the echo of payload d is taken for the acknowledgement of call c, within the waits that c and
      the calls before it under its number may make. */
  ghost predicate Misleads(log: seq<Entry>, d: nat, c: nat, budget: nat)
    requires d < |log| && c < |log|
  {
    && log[c].ok && Number(log, d) + 1 == Number(log, c)
    && AcksWithin(EchoBody(Nth(Number(log, d)), log[d].payload), Nth(Number(log, c)), budget * Place(log, c))
  }

  ghost predicate SoundTails(log: seq<Entry>, budget: nat) {
    forall c, d {:trigger log[c], log[d]} | 0 <= c < |log| && 0 <= d < |log| :: !Misleads(log, d, c, budget)
  }

  lemma {:induction false} NumberedAsLogged(calls: seq<Call>, c: nat)
    requires Numbered(calls) && c <= |calls|
    ensures NextK(calls[..c]) == Number(Log(calls), c) && NextPlace(calls[..c]) == Place(Log(calls), c)
  {
    if c > 0 {
      NumberedAsLogged(calls, c - 1);
      assert calls[..c][c - 1] == calls[c - 1];
    }
  }

  lemma CallsAsLogged(s: State)
    requires Reachable(s)
    ensures s.k == Number(Log(s.calls), |s.calls|) && s.number == Nth(s.k)
    ensures forall c | 0 <= c < |s.calls| ::
              s.calls[c].k == Number(Log(s.calls), c) && s.calls[c].place == Place(Log(s.calls), c)
  {
    hide WaitsInv, FlowInv, DeliveryInv, CopiesInv, CallsOrdered, Within, Log, NextK, NextPlace, Nth;
    ReachableInv(s);
    NumberedAsLogged(s.calls, |s.calls|);
    assert s.calls[..|s.calls|] == s.calls;
    forall c | 0 <= c < |s.calls|
      ensures s.calls[c].k == Number(Log(s.calls), c) && s.calls[c].place == Place(Log(s.calls), c)
    {
      NumberedAsLogged(s.calls, c);
    }
  }

  /** The two forms of the condition agree. */
  lemma ClearAsLogged(s: State)
    requires Reachable(s)
    ensures Clear(s.calls, s.budget) <==> SoundTails(Log(s.calls), s.budget)
  {
    hide EchoBody, AcksWithin, Nth, Reachable;
    CallsAsLogged(s);
    var log := Log(s.calls);
    forall c, d | 0 <= c < |log| && 0 <= d < |log|
      ensures Misleads(log, d, c, s.budget) <==>
              s.calls[c].ok && s.calls[d].k + 1 == s.calls[c].k && Fakes(s.calls[d], s.calls[c], s.budget)
    {
      assert log[c].ok == s.calls[c].ok && log[d].payload == s.calls[d].payload;
    }
    if Clear(s.calls, s.budget) {
      forall c, d | 0 <= c < |log| && 0 <= d < |log|
        ensures !Misleads(log, d, c, s.budget)
      {
        assert s.calls[c].ok && s.calls[d].k + 1 == s.calls[c].k ==> !Fakes(s.calls[d], s.calls[c], s.budget);
      }
    }
    if SoundTails(log, s.budget) {
      forall c, d | 0 <= c < |log| && 0 <= d < |log| && s.calls[c].ok && s.calls[d].k + 1 == s.calls[c].k
        ensures !Fakes(s.calls[d], s.calls[c], s.budget)
      {
        assert log[c] == log[c] && log[d] == log[d];
      }
    }
  }

  lemma {:induction false} PrefixAsLogged(log: seq<Entry>, n: nat, c: nat)
    requires c <= n <= |log|
    ensures Number(log[..n], c) == Number(log, c) && Place(log[..n], c) == Place(log, c)
    decreases c
  {
    if c > 0 {
      PrefixAsLogged(log, n, c - 1);
    }
  }

  lemma {:induction false} NumberMonotone(log: seq<Entry>, d: nat, c: nat)
    requires d <= c <= |log|
    ensures Number(log, d) <= Number(log, c)
    decreases c
  {
    if d < c {
      NumberMonotone(log, d, c - 1);
    }
  }

  /** The success between two calls with different numbers that comes last. */
  lemma {:induction false} LastSuccess(log: seq<Entry>, d: nat, c: nat) returns (m: nat)
    requires d <= c <= |log| && Number(log, d) < Number(log, c)
    ensures d <= m < c && log[m].ok && Number(log, m) + 1 == Number(log, c)
    ensures (forall e | m < e < c :: !log[e].ok) && Place(log, c) == c - m
    decreases c
  {
    m := c - 1;
    if !log[m].ok {
      m := LastSuccess(log, d, c - 1);
    }
  }

  lemma {:induction false} NoneBetween(log: seq<Entry>, d: nat, m: nat)
    requires d <= m <= |log| && Number(log, d) == Number(log, m)
    ensures forall e | d <= e < m :: !log[e].ok
    decreases m
  {
    if d < m {
      NumberMonotone(log, d, m - 1);
      NoneBetween(log, d, m - 1);
    }
  }

  // ---- What is missing ----

  ghost predicate NothingMissing(s: State) {
    forall j: nat | j < s.k :: Has(s.delivered, j)
  }

  predicate Payloads(log: seq<Entry>) {
    forall e | e in log :: |e.payload| <= MAX_PAYLOAD
  }

  lemma SendableSlice(log: seq<Entry>, a: nat, b: nat, budget: nat)
    requires a <= b <= |log| && Payloads(log) && budget > 0
    ensures Sendable(log[a..b], budget)
  {
  }

  /** Call e fails although its payload is delivered, and its late acknowledgement makes call c succeed, with the echo
      of e still to be read. */
  lemma StolenAt(log: seq<Entry>, e: nat, c: nat, budget: nat) returns (s: State, before: seq<Item>)
    requires e < c < |log| && log[c].ok && budget > 0 && Payloads(log) && forall i | e <= i < c :: !log[i].ok
    ensures AtRest(s) && s.budget == budget && Log(s.calls) == log[..c + 1]
    ensures var k := Number(log, e);
            && s.reverse == [EchoOf(Nth(k), log[e].payload, 0, k, e)] && s.k == k + 1
            && s.delivered == before + [Data(Nth(k), k, e)] && Below(before, k)
  {
    hide Reachable, Log, EchoBody, AckBody, AfterWaits, Nth, NextPlace, Sendable, Below;
    var k, p, q := Number(log, e), log[e].payload, log[c].payload;
    SendableSlice(log, 0, e, budget);
    var t := PlayedPrefix(log, e, budget);
    before := t.delivered;
    assert log[e] in log && log[c] in log;
    LateCall(t, p);
    var late := During(t, Idle, p, budget).(delivered := before + [NextFrame(t)],
                                            reverse := AnswersOf(Nth(k), p, k, e));
    LogSnoc(t.calls, Called(t, p, budget, false));
    SendableSlice(log, e + 1, c, budget);
    var u := PlayedFailures(late, log[e + 1..c]);
    var echo := EchoOf(Nth(k), p, 0, k, e);
    assert u.reverse == [AckOf(Nth(k), k, e)] + [echo];
    StolenCall(u, e, q, [echo]);
    LogSnoc(u.calls, Called(u, q, 1, true));
    assert log[..e] + [log[e]] + log[e + 1..c] + [log[c]] == log[..c + 1];
    s := Succeeded(u, q, 1, [echo], u.delivered);
  }

  lemma PlayedPrefix(log: seq<Entry>, n: nat, budget: nat) returns (t: State)
    requires n <= |log| && budget > 0 && Payloads(log)
    ensures AtRest(t) && t.reverse == [] && t.budget == budget && t.k == Number(log, n) && Below(t.delivered, t.k)
    ensures Log(t.calls) == log[..n] && |t.calls| == n
  {
    hide Log, Sendable, Below, Reachable, Nth;
    SendableSlice(log, 0, n, budget);
    t := Played(budget, log[..n]);
    CallsAsLogged(t);
    PrefixAsLogged(log, n, n);
    assert |Log(t.calls)| == n;
  }

  /** The echo of call d is still to be read after the next success, of call m. */
  lemma EchoLeft(log: seq<Entry>, d: nat, m: nat, budget: nat) returns (s: State)
    requires d <= m < |log| && log[m].ok && budget > 0 && Payloads(log) && forall e | d <= e < m :: !log[e].ok
    ensures AtRest(s) && s.budget == budget && Log(s.calls) == log[..m + 1]
    ensures var k := Number(log, d);
            && s.reverse == [EchoOf(Nth(k), log[d].payload, 0, k, d)] && s.k == k + 1 && Below(s.delivered, k + 1)
  {
    hide Reachable, Log, EchoBody, AckBody, AfterWaits, Nth, NextPlace, Sendable;
    if d == m {
      var k, p := Number(log, d), log[d].payload;
      var t := PlayedPrefix(log, d, budget);
      assert log[d] in log;
      EchoCall(t, p);
      LogSnoc(t.calls, Called(t, p, 1, true));
      assert log[..d] + [log[d]] == log[..d + 1];
      s := Succeeded(t, p, 1, [EchoOf(Nth(k), p, 0, k, d)], t.delivered + [NextFrame(t)]);
    } else {
      var before;
      s, before := StolenAt(log, d, m, budget);
    }
  }

  /** If the echo of call d can mislead call c, some run with this log delivers nothing under c's number. */
  lemma Misled(log: seq<Entry>, d: nat, c: nat, budget: nat) returns (s: State)
    requires d < |log| && c < |log| && Misleads(log, d, c, budget) && Payloads(log)
    ensures Reachable(s) && s.budget == budget && Log(s.calls) == log
    ensures s.k > s.calls[c].k == Number(log, c) && !Has(s.delivered, Number(log, c))
  {
    hide Reachable, Log, EchoBody, AckBody, AfterWaits, Nth, NextPlace, AckAt;
    var k, p := Number(log, d), log[d].payload;
    var r: nat :| r < budget * Place(log, c) && AckAt(EchoBody(Nth(k), p), r, Nth(k + 1));
    if c < d {
      NumberMonotone(log, c, d);
    }
    var m := LastSuccess(log, d, c);
    NoneBetween(log, d, m);
    SomeBudget(budget, Place(log, c), r);
    var s1 := EchoLeft(log, d, m, budget);
    var s3 := MisledAt(log, m, c, s1, r, c - m, Nth(k), p, k, d);
    assert Sendable(log[c + 1..], budget);
    s := PlayedOn(s3, log[c + 1..]);
    assert log[..c + 1] + log[c + 1..] == log;
    CallsAsLogged(s);
  }

  lemma SomeBudget(budget: nat, place: nat, r: nat)
    requires r < budget * place
    ensures budget > 0
  {
  }

  /** When the echo has to arrive, and how many waits of the last call come before the one that is misled, for that to
      be the wait behind r waits on the echo. */
  lemma Schedule(budget: nat, place: nat, others: nat, r: nat) returns (delay: nat, n: nat)
    requires r < budget * place && place == others + 1
    ensures n < budget && Reads(budget * others + n, delay) == r && Later(delay, budget * others) <= n
  {
    OneMorePlace(budget, place);
    var before := budget * others;
    n := if r <= before then 0 else r - before;
    delay := before + n - r;
    SomeBudget(budget, place, r);
  }

  lemma PrefixGlued(log: seq<Entry>, a: nat, c: nat)
    requires a <= c < |log|
    ensures log[..a] + log[a..c] + [log[c]] == log[..c + 1]
  {
  }

  lemma MisledAt(log: seq<Entry>, m: nat, c: nat, s: State, r: nat, place: nat, number: byte, p: seq<byte>, k: nat,
                 d: nat)
    returns (t: State)
    requires m < c < |log| && log[c].ok && Payloads(log) && forall e | m < e < c :: !log[e].ok
    requires AtRest(s) && s.budget > 0 && Log(s.calls) == log[..m + 1] && place == c - m && r < s.budget * place
    requires s.reverse == [EchoOf(number, p, 0, k, d)] && AckAt(EchoBody(number, p), r, s.number)
    ensures AtRest(t) && t.budget == s.budget && Log(t.calls) == log[..c + 1] && t.reverse == []
    ensures t.k == s.k + 1 && t.delivered == s.delivered
  {
    hide Reachable, Log, EchoBody, AckBody, AfterWaits, Nth, NextPlace, Sendable, EchoOf;
    var b, between := EchoBody(number, p), log[m + 1..c];
    var delay, n := Schedule(s.budget, place, |between|, r);
    var before := s.budget * |between|;
    ReadsSplit(before, n, delay);
    StillLeft(b, Reads(before, delay), Reads(n, Later(delay, before)));
    SendableSlice(log, m + 1, c, s.budget);
    assert log[c] in log;
    var u := ReadingFailures(s, between, delay, number, p, 0, k, d);
    MisledCall(u, log[c].payload, n, Later(delay, before), number, p, Reads(before, delay), k, d);
    LogSnoc(u.calls, Called(u, log[c].payload, n + 1, true));
    PrefixGlued(log, m + 1, c);
    t := Succeeded(u, log[c].payload, n + 1, [], u.delivered);
  }

  /** On every run with this log and this budget nothing below the current number is missing exactly when no echo
      can mislead a later call. */
  lemma GapIff(log: seq<Entry>, budget: nat)
    requires Payloads(log)
    ensures (forall s: State {:trigger Reachable(s)} ::
               Reachable(s) && s.budget == budget && Log(s.calls) == log ==> NothingMissing(s))
            <==> SoundTails(log, budget)
  {
    hide Reachable, Log, Misleads, Has, Clear;
    if SoundTails(log, budget) {
      forall s: State | Reachable(s) && s.budget == budget && Log(s.calls) == log
        ensures NothingMissing(s)
      {
        ClearAsLogged(s);
        InOrderAtLeastOnce(s);
      }
    } else {
      var c, d :| 0 <= c < |log| && 0 <= d < |log| && Misleads(log, d, c, budget);
      var s := Misled(log, d, c, budget);
    }
  }

  /** What a caller can check before each call: the payload has at most ten bytes, or no start byte comes behind the
      sixteenth byte of its stuffed frame. */
  lemma CheckedBeforeSending(log: seq<Entry>, budget: nat)
    requires Payloads(log)
    requires forall d {:trigger log[d]} | 0 <= d < |log| ::
               var tail := Tail(Frame(DATA, Nth(Number(log, d)), log[d].payload));
               |log[d].payload| <= 10 || (tail.Some? && SOF !in tail.value)
    ensures SoundTails(log, budget)
  {
    hide Tail, AcksWithin, Leaks, Nth, Number, Place, FrameBody;
    forall c, d | 0 <= c < |log| && 0 <= d < |log|
      ensures !Misleads(log, d, c, budget)
    {
      var f := Frame(DATA, Nth(Number(log, d)), log[d].payload);
      assert log[d] in log;
      ShortOrStartFree(f, Nth(Number(log, c)), budget * Place(log, c));
    }
  }

  // ---- Whose payload was delivered ----

  /** The peer has delivered the payload of call c under that call's number. */
  ghost predicate OwnDelivered(s: State, c: nat)
    requires c < |s.calls|
  {
    exists d :: d in s.delivered && d.Data? && d.call < |s.calls| && d.k == s.calls[c].k
                && s.calls[d.call].payload == s.calls[c].payload
  }

  ghost predicate OwnAlways(s: State) {
    forall c {:trigger s.calls[c]} | 0 <= c < |s.calls| :: s.calls[c].ok ==> OwnDelivered(s, c)
  }

  /** Between a success and the one before, nothing but the payload of the former was submitted. */
  ghost predicate Repeats(log: seq<Entry>) {
    forall e, c {:trigger log[e], log[c]} | 0 <= e < c < |log| ::
      log[c].ok && Number(log, e) == Number(log, c) ==> log[e].payload == log[c].payload
  }

  lemma RepeatedIsDelivered(s: State, c: nat)
    requires Reachable(s) && SoundTails(Log(s.calls), s.budget) && Repeats(Log(s.calls))
    requires c < |s.calls| && s.calls[c].ok
    ensures OwnDelivered(s, c)
  {
    hide Reachable, SoundTails, Has, Clear, Log, Number, Place;
    ClearAsLogged(s);
    CallsAsLogged(s);
    var d := SuccessMeansDelivered(s, c);
    LoggedAt(s.calls, d.call);
    LoggedAt(s.calls, c);
  }

  /** If call e before the success of call c submitted another payload under the same number, some run with this
      log delivers that payload instead, and call c succeeds all the same. */
  lemma AnotherDelivered(log: seq<Entry>, e: nat, c: nat, budget: nat) returns (s: State)
    requires e < c < |log| && log[c].ok && Number(log, e) == Number(log, c) && log[e].payload != log[c].payload
    requires Payloads(log) && budget > 0
    ensures Reachable(s) && s.budget == budget && Log(s.calls) == log
    ensures s.calls[c].ok && !OwnDelivered(s, c)
  {
    hide Reachable, Log, EchoBody, AfterWaits, Nth, AtRest, Sendable;
    NoneBetween(log, e, c);
    var v, before := StolenAt(log, e, c, budget);
    DroppedHead(v, v.reverse[0], []);
    SendableSlice(log, c + 1, |log|, budget);
    assert log[c + 1..|log|] == log[c + 1..];
    s := PlayedOn(v.(reverse := []), log[c + 1..]);
    AtRestReached(s);
    assert log[..c + 1] + log[c + 1..] == log;
    CallsAsLogged(s);
    LoggedAt(s.calls, e);
    LoggedAt(s.calls, c);
    OnlyEarly(s, before, Number(log, e), e, c);
  }

  lemma LoggedAt(calls: seq<Call>, c: nat)
    requires c < |calls|
    ensures Log(calls)[c] == Entry(calls[c].payload, calls[c].ok)
  {
  }

  lemma AtRestReached(s: State)
    requires AtRest(s)
    ensures Reachable(s)
  {
  }

  /** Under the number of call c the peer has heard call e alone. */
  lemma OnlyEarly(s: State, before: seq<Item>, k: nat, e: nat, c: nat)
    requires e < c < |s.calls| && s.calls[c].k == k && s.calls[e].payload != s.calls[c].payload && Below(before, k)
    requires forall d | d in s.delivered ::
               d in before + [Data(Nth(k), k, e)] || (d.Data? && d.k >= k + 1)
    ensures !OwnDelivered(s, c)
  {
  }

  /** On every run with this log and this budget each successful call has had its own payload delivered, exactly
      when no echo can mislead a later call and the caller submitted nothing else between two successes. */
  lemma OwnPayloadIff(log: seq<Entry>, budget: nat)
    requires Payloads(log) && budget > 0
    ensures (forall s: State {:trigger Reachable(s)} ::
               Reachable(s) && s.budget == budget && Log(s.calls) == log ==> OwnAlways(s))
            <==> SoundTails(log, budget) && Repeats(log)
  {
    hide Reachable, Log, Misleads, OwnDelivered;
    if !SoundTails(log, budget) {
      var c, d :| 0 <= c < |log| && 0 <= d < |log| && Misleads(log, d, c, budget);
      var s := Misled(log, d, c, budget);
      MissingIsNotOwn(s, c, d, log);
    } else if !Repeats(log) {
      var e, c :| 0 <= e < c < |log| && log[c].ok && Number(log, e) == Number(log, c)
                  && log[e].payload != log[c].payload;
      var s := AnotherDelivered(log, e, c, budget);
    } else {
      forall s: State | Reachable(s) && s.budget == budget && Log(s.calls) == log
        ensures OwnAlways(s)
      {
        forall c | 0 <= c < |s.calls| && s.calls[c].ok
          ensures OwnDelivered(s, c)
        {
          RepeatedIsDelivered(s, c);
        }
      }
    }
  }

  lemma MissingIsNotOwn(s: State, c: nat, d: nat, log: seq<Entry>)
    requires d < |log| && c < |log| && Log(s.calls) == log && Misleads(log, d, c, s.budget)
    requires s.calls[c].k == Number(log, c) && !Has(s.delivered, Number(log, c))
    ensures !OwnAlways(s)
  {
    hide AcksWithin;
    assert log[c].ok == s.calls[c].ok;
  }
}
