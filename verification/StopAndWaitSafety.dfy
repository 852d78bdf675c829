/** Every reachable state of the stop-and-wait system keeps the invariant. */
module StopAndWaitSafety {
  import opened Bytes
  import opened Cobs
  import opened Frames
  import opened Rs485Protocol
  import opened Segments
  import opened StopAndWait
  import opened Wrappers

  // ---- Calls ----

  /** Calls only grow: they keep what they submitted, their numbers, places and successes. */
  ghost predicate Extends(calls: seq<Call>, calls': seq<Call>) {
    && |calls| <= |calls'|
    && forall c | 0 <= c < |calls| ::
         && calls'[c].k == calls[c].k && calls'[c].place == calls[c].place && calls'[c].payload == calls[c].payload
         && (calls[c].ok ==> calls'[c].ok)
  }

  lemma KnownStill(calls: seq<Call>, calls': seq<Call>, q: seq<Item>)
    requires Extends(calls, calls') && AllKnown(calls, q)
    ensures AllKnown(calls', q)
  {
    hide EchoBody, AckBody, AfterWaits, Leaks, Barren;
    forall i | i in q
      ensures Known(calls', i)
    {
      assert Known(calls, i);
    }
  }

  /** What is clear stays clear when looked at earlier. */
  lemma ClearBefore(calls: seq<Call>, calls': seq<Call>, budget: nat)
    requires Extends(calls, calls') && Clear(calls', budget)
    ensures Clear(calls, budget)
  {
    hide EchoBody, AcksWithin;
    forall c, d | 0 <= c < |calls| && 0 <= d < |calls| && calls[c].ok && calls[d].k + 1 == calls[c].k
      ensures !Fakes(calls[d], calls[c], budget)
    {
      assert !Fakes(calls'[d], calls'[c], budget);
    }
  }

  /** No frame is ahead of the current number. */
  lemma KnownBelow(k: nat, calls: seq<Call>, q: seq<Item>)
    requires CallsOrdered(k, calls) && AllKnown(calls, q)
    ensures forall i | i in q :: i.Other? || i.k <= k
  {
    hide EchoBody, AckBody, AfterWaits, Leaks, Barren;
    forall i | i in q
      ensures i.Other? || i.k <= k
    {
      assert Known(calls, i);
      if !i.Other? {
        assert calls[i.call].k <= k;
      }
    }
  }

  lemma AllKnownConcat(calls: seq<Call>, a: seq<Item>, b: seq<Item>)
    requires AllKnown(calls, a) && AllKnown(calls, b)
    ensures AllKnown(calls, a + b)
  {
    hide Known;
  }

  lemma AllKnownGrows(calls: seq<Call>, q: seq<Item>, x: Item)
    requires AllKnown(calls, q) && Known(calls, x)
    ensures AllKnown(calls, q + [x])
  {
    hide Known;
  }

  // ---- What is on the way back ----

  lemma BodyNoZero(calls: seq<Call>, i: Item)
    requires Known(calls, i) && OnTheWayBack(i)
    ensures NoZero(BodyOf(i))
  {
    hide FrameBody, Barren, AfterWaits;
    if !i.Other? {
      FrameBodyIs(Control(ACK, Nth(i.k)));
      FrameBodyIs(Frame(DATA, Nth(i.k), calls[i.call].payload));
    }
  }

  lemma AckRead(number: byte, n: byte)
    ensures IsAck(Inspect(Caught(AckBody(number), ACK_CHUNK)), n) <==> n == number
    ensures Left(AckBody(number), ACK_CHUNK) == None && Left(AckBody(number), FRAME_CHUNK) == None
    ensures !IsDataFrame(Inspect(Caught(AckBody(number), FRAME_CHUNK)))
  {
    hide Inspect, FrameBody, Caught, Left;
    FrameCaught(Control(ACK, number), ACK_CHUNK);
    FrameCaught(Control(ACK, number), FRAME_CHUNK);
  }

  /** An echo is shorter than a receive buffer. */
  lemma EchoSize(number: byte, payload: seq<byte>, looks: nat)
    requires |payload| <= MAX_PAYLOAD && AfterWaits(EchoBody(number, payload), looks).Some?
    ensures |AfterWaits(EchoBody(number, payload), looks).value| < FRAME_CHUNK
  {
    hide FrameBody, AfterWaits;
    var f := Frame(DATA, number, payload);
    FrameBodyIs(f);
    assert |FrameBody(f)| == |FrameBody(f)[..FirstStart(FrameBody(f))]| + 1 + |Behind(FrameBody(f))|;
    FrameStartsAtOnce(f);
  }

  lemma FrameStartsAtOnce(f: Frame)
    ensures FirstStart(FrameBody(f)) == 0
  {
    hide Raw;
    assert FrameBody(f)[0] == SOF;
  }

  /** A receive reads a whole echo as the frame it is. */
  lemma WholeEchoRead(number: byte, payload: seq<byte>)
    requires |payload| <= MAX_PAYLOAD
    ensures Inspect(Caught(EchoBody(number, payload), FRAME_CHUNK)) == Good(Frame(DATA, number, payload))
  {
    hide Inspect, FrameBody, Caught;
    FrameCaught(Frame(DATA, number, payload), FRAME_CHUNK);
  }

  lemma CutIsNoAck(b: seq<byte>, n: byte)
    requires NoZero(b) && Starts(b) && IsAck(Inspect(Caught(b, ACK_CHUNK)), n)
    ensures Left(b, ACK_CHUNK) == None
  {
    hide Inspect, Caught;
    if Left(b, ACK_CHUNK).Some? {
      CutIsMalformed(b, ACK_CHUNK);
    }
  }

  // ---- Submit ----

  lemma OrderedAppend(k: nat, calls: seq<Call>, x: Call)
    requires CallsOrdered(k, calls) && x.k == k && !x.ok
    ensures CallsOrdered(k, calls + [x])
  {
    var more := calls + [x];
    forall c, d | 0 <= c < d < |more|
      ensures more[c].k <= more[d].k && (more[c].ok ==> more[c].k < more[d].k)
    {
      assert more[c] == calls[c];
      if d < |calls| {
        assert more[d] == calls[d];
      }
    }
  }

  lemma NumberedAppend(calls: seq<Call>, x: Call)
    requires Numbered(calls) && x.k == NextK(calls) && x.place == NextPlace(calls)
    ensures Numbered(calls + [x])
  {
    hide NextK, NextPlace;
    var more := calls + [x];
    forall c | 0 <= c < |more|
      ensures more[c].k == NextK(more[..c]) && more[c].place == NextPlace(more[..c])
    {
      assert more[..c] == calls[..c];
      if c < |calls| {
        assert more[c] == calls[c];
      } else {
        assert calls[..c] == calls;
      }
    }
  }

  lemma SubmitCalls(s: State, p: seq<byte>)
    requires CallsInv(s) && Enabled(s, Submit(p))
    ensures CallsInv(Moved(s, Submit(p))) && Extends(s.calls, Moved(s, Submit(p)).calls)
  {
    hide Nth, CallsOrdered, Numbered, NextPlace;
    var x := Call(p, s.k, NextPlace(s.calls), 0, false);
    OrderedAppend(s.k, s.calls, x);
    NumberedAppend(s.calls, x);
  }

  /** The last call replaced by one with its number, place and payload, which may have succeeded. */
  lemma OrderedLast(k: nat, calls: seq<Call>, y: Call)
    requires CallsOrdered(k, calls) && calls != [] && !calls[|calls| - 1].ok
    requires y.k == calls[|calls| - 1].k == k
    ensures CallsOrdered(if y.ok then k + 1 else k, calls[|calls| - 1 := y])
  {
    var n, next := |calls| - 1, calls[|calls| - 1 := y];
    forall c | 0 <= c < |next|
      ensures next[c].k == calls[c].k <= k
      ensures c < n ==> next[c] == calls[c] && (calls[c].ok ==> calls[c].k < k)
    {
    }
    forall c, d | 0 <= c < d < |next|
      ensures next[c].k <= next[d].k && (next[c].ok ==> next[c].k < next[d].k)
    {
      assert calls[c].k <= calls[d].k && (calls[c].ok ==> calls[c].k < calls[d].k);
    }
  }

  lemma NumberedLast(calls: seq<Call>, y: Call)
    requires Numbered(calls) && calls != []
    requires y.k == calls[|calls| - 1].k && y.place == calls[|calls| - 1].place
    ensures Numbered(calls[|calls| - 1 := y])
  {
    hide NextK, NextPlace;
    var next := calls[|calls| - 1 := y];
    forall c | 0 <= c < |next|
      ensures next[c].k == NextK(next[..c]) && next[c].place == NextPlace(next[..c])
    {
      assert next[..c] == calls[..c];
      assert calls[c].k == NextK(calls[..c]);
    }
  }

  lemma WithinLast(budget: nat, calls: seq<Call>, y: Call)
    requires Within(budget, calls) && calls != []
    requires y.attempts <= budget && y.payload == calls[|calls| - 1].payload
    ensures Within(budget, calls[|calls| - 1 := y])
  {
    assert |calls[|calls| - 1].payload| <= MAX_PAYLOAD;
  }

  lemma OneMorePlace(budget: nat, place: nat)
    requires place > 0
    ensures budget * place == budget * (place - 1) + budget
  {
  }

  lemma SubmitWaits(s: State, p: seq<byte>)
    requires CallsInv(s) && WaitsInv(s) && Enabled(s, Submit(p))
    ensures WaitsInv(Moved(s, Submit(p)))
  {
    hide CallsOrdered, Numbered;
    if s.calls != [] && !s.calls[|s.calls| - 1].ok {
      var last := s.calls[|s.calls| - 1];
      OneMorePlace(s.budget, last.place);
      assert last.attempts <= s.budget;
    }
  }

  lemma SubmitCopies(s: State, p: seq<byte>)
    requires CopiesInv(s) && Enabled(s, Submit(p))
    ensures CopiesInv(Moved(s, Submit(p)))
  {
    var t := Moved(s, Submit(p));
    var n := |s.calls|;
    forall i | i in s.forward && i.Data?
      ensures i.call < n
    {
      assert i in s.forward + s.delivered;
    }
    forall i | i in s.delivered && i.Data?
      ensures i.call < n
    {
      assert i in s.forward + s.delivered;
    }
    CountNone(s.forward, n);
    CountNone(s.delivered, n);
    forall c: nat | c < |t.calls|
      ensures Count(t.delivered, c) + Count(t.forward, c) <= t.calls[c].attempts
    {
      if c < n {
        assert t.calls[c] == s.calls[c];
      }
    }
  }

  /** A change of the calls alone. */
  lemma OnlyCallsChange(s: State, t: State)
    requires FlowInv(s) && DeliveryInv(s) && Extends(s.calls, t.calls)
    requires t.budget == s.budget && t.k == s.k && t.waits == s.waits
    requires t.forward == s.forward && t.reverse == s.reverse && t.delivered == s.delivered && t.received == s.received
    ensures FlowInv(t) && DeliveryInv(t)
  {
    hide AllKnown, Ordered, Recent, AllHeard, Has, Extends, Clear, Fresh, LooksAtMost;
    KnownStill(s.calls, t.calls, s.received);
    KnownStill(s.calls, t.calls, s.reverse);
    KnownStill(s.calls, t.calls, s.forward);
    KnownStill(s.calls, t.calls, s.delivered);
    if Clear(t.calls, t.budget) {
      ClearBefore(s.calls, t.calls, s.budget);
    }
  }

  lemma SubmitKeeps(s: State, p: seq<byte>)
    requires Inv(s) && Enabled(s, Submit(p))
    ensures Inv(Moved(s, Submit(p)))
  {
    hide CallsInv, WaitsInv, FlowInv, DeliveryInv, CopiesInv, Extends;
    SubmitCalls(s, p);
    SubmitWaits(s, p);
    SubmitCopies(s, p);
    OnlyCallsChange(s, Moved(s, Submit(p)));
  }

  // ---- Transmit ----

  lemma SentCalls(s: State, ok: bool)
    requires CallsInv(s) && Enabled(s, Transmit(ok))
    ensures CallsInv(Sent(s, ok)) && Extends(s.calls, Sent(s, ok).calls)
  {
    hide Nth, CallsOrdered, Numbered, Within;
    var last := s.calls[|s.calls| - 1];
    var y := last.(attempts := last.attempts + 1);
    OrderedLast(s.k, s.calls, y);
    NumberedLast(s.calls, y);
    WithinLast(s.budget, s.calls, y);
  }

  /** The frame transmitted, if any, belongs to the newest number. */
  lemma SentFrame(s: State, ok: bool) returns (xs: seq<Item>)
    requires CallsInv(s) && Enabled(s, Transmit(ok))
    ensures xs == (if ok then [Data(s.number, s.k, |s.calls| - 1)] else []) && Sent(s, ok).forward == s.forward + xs
    ensures forall x | x in xs :: Known(Sent(s, ok).calls, x) && OnTheWayOut(x)
  {
    hide Nth;
    xs := if ok then [Data(s.number, s.k, |s.calls| - 1)] else [];
  }

  lemma SentOthers(s: State, ok: bool)
    requires Enabled(s, Transmit(ok))
    ensures var t := Sent(s, ok);
            && t.received == s.received && t.reverse == s.reverse && t.delivered == s.delivered
            && t.k == s.k && t.waits == s.waits && t.budget == s.budget
  {
  }

  lemma SentWaits(s: State, ok: bool)
    requires CallsInv(s) && WaitsInv(s) && Enabled(s, Transmit(ok))
    ensures WaitsInv(Sent(s, ok))
  {
    hide CallsOrdered, Numbered, Within;
  }

  lemma RecentGrows(k: nat, q: seq<Item>, xs: seq<Item>)
    requires Recent(k, q) && forall x | x in xs :: x.Other? || x.k == k
    ensures Recent(k, q + xs)
  {
  }

  lemma SentFlow(s: State, ok: bool)
    requires CallsInv(s) && FlowInv(s) && Enabled(s, Transmit(ok))
    ensures FlowInv(Sent(s, ok))
  {
    hide AllKnown, Ordered, Recent, CallsOrdered, Sent, Extends, Known, Clear, Fresh, LooksAtMost, Numbered, Within;
    var xs := SentFrame(s, ok);
    var t, before := Sent(s, ok), s.received + s.reverse + s.forward;
    SentCalls(s, ok);
    SentOthers(s, ok);
    KnownStill(s.calls, t.calls, s.received);
    KnownStill(s.calls, t.calls, s.reverse);
    KnownStill(s.calls, t.calls, s.forward);
    AllKnownMore(t.calls, s.forward, xs);
    AllKnownConcat(t.calls, s.received, s.reverse);
    AllKnownConcat(t.calls, s.received + s.reverse, s.forward);
    KnownBelow(s.k, t.calls, before);
    OrderedMore(before, xs);
    assert before + xs == s.received + s.reverse + (s.forward + xs);
    if Clear(t.calls, t.budget) {
      ClearBefore(s.calls, t.calls, s.budget);
      RecentGrows(s.k, s.forward, xs);
    }
  }

  lemma AllKnownMore(calls: seq<Call>, q: seq<Item>, xs: seq<Item>)
    requires AllKnown(calls, q) && forall x | x in xs :: Known(calls, x)
    ensures AllKnown(calls, q + xs)
  {
    hide Known;
  }

  lemma OrderedMore(q: seq<Item>, xs: seq<Item>)
    requires Ordered(q) && |xs| <= 1 && forall x, i | x in xs && i in q :: i.Other? || x.Other? || i.k <= x.k
    ensures Ordered(q + xs)
  {
    if xs == [] {
      assert q + xs == q;
    } else {
      OrderedGrows(q, xs[0]);
      assert xs == [xs[0]];
    }
  }

  lemma SentDelivery(s: State, ok: bool)
    requires CallsInv(s) && FlowInv(s) && DeliveryInv(s) && Enabled(s, Transmit(ok))
    ensures DeliveryInv(Sent(s, ok))
  {
    hide AllKnown, Ordered, Recent, CallsOrdered, Sent, Extends, AllHeard, Has, Known, Clear, Numbered, Within;
    var xs := SentFrame(s, ok);
    var t := Sent(s, ok);
    SentCalls(s, ok);
    SentOthers(s, ok);
    KnownStill(s.calls, t.calls, s.delivered);
    KnownStill(s.calls, t.calls, s.forward);
    AllKnownConcat(t.calls, s.delivered, s.forward);
    KnownBelow(s.k, t.calls, s.delivered + s.forward);
    OrderedMore(s.delivered + s.forward, xs);
    assert s.delivered + s.forward + xs == s.delivered + (s.forward + xs);
    if Clear(t.calls, t.budget) {
      ClearBefore(s.calls, t.calls, s.budget);
    }
  }

  lemma SentCopies(s: State, ok: bool)
    requires CallsInv(s) && CopiesInv(s) && Enabled(s, Transmit(ok))
    ensures CopiesInv(Sent(s, ok))
  {
    hide CallsOrdered, Numbered, Within, Nth;
    var t, n := Sent(s, ok), |s.calls| - 1;
    var xs := t.forward[|s.forward|..];
    assert t.forward == s.forward + xs;
    forall i | i in t.forward + t.delivered && i.Data?
      ensures i.call < |t.calls|
    {
      assert i in xs || i in s.forward + s.delivered;
    }
    forall c: nat | c < |t.calls|
      ensures Count(t.delivered, c) + Count(t.forward, c) <= t.calls[c].attempts
    {
      CountConcat(s.forward, xs, c);
      assert Count(s.delivered, c) + Count(s.forward, c) <= s.calls[c].attempts;
    }
  }

  lemma TransmitKeeps(s: State, ok: bool)
    requires Inv(s) && Enabled(s, Transmit(ok))
    ensures Inv(Moved(s, Transmit(ok)))
  {
    hide CallsInv, WaitsInv, FlowInv, DeliveryInv, CopiesInv, Sent;
    SentCalls(s, ok);
    SentWaits(s, ok);
    SentFlow(s, ok);
    SentDelivery(s, ok);
    SentCopies(s, ok);
  }

  // ---- Waiting ----

  /** Only a frame can match, and it is used up by matching. */
  lemma MatchIsFrame(s: State)
    requires FlowInv(s) && Matches(s)
    ensures var h := s.reverse[0]; !h.Other? && Known(s.calls, h) && OnTheWayBack(h) && Waited(h) == []
  {
    hide AllKnown, Ordered, Recent, Clear, Fresh, LooksAtMost, Inspect, Caught, Left, Starts, EchoBody, AckBody,
      AfterWaits;
    var h := s.reverse[0];
    assert h in s.reverse;
    assert Known(s.calls, h) by {
      HeadKnown(s.calls, s.reverse);
    }
    BodyNoZero(s.calls, h);
    CutIsNoAck(BodyOf(h), s.number);
  }

  lemma HeadKnown(calls: seq<Call>, q: seq<Item>)
    requires AllKnown(calls, q) && q != []
    ensures Known(calls, q[0])
  {
    hide Known;
    assert q[0] in q;
  }

  lemma NumbersMatch(j: nat, k: nat)
    requires j <= k <= j + 1 && Nth(j) == Nth(k)
    ensures j == k
  {
    if j != k {
      NthNext(j);
      NotNext(Nth(j));
    }
  }

  lemma NotNext(b: byte)
    ensures b + 1 != b
  {
  }

  /** When the echo of a call under the number before matches, that echo misleads the current call. */
  lemma EchoFakes(s: State)
    requires CallsInv(s) && WaitsInv(s) && FlowInv(s) && Enabled(s, Take) && Matches(s)
    requires s.reverse[0].Echo? && s.reverse[0].k + 1 == s.k
    ensures s.reverse[0].call < |s.calls|
    ensures var early, late := s.calls[s.reverse[0].call], s.calls[|s.calls| - 1];
            early.k + 1 == late.k && Fakes(early, late, s.budget)
  {
    hide AllKnown, Ordered, CallsOrdered, Numbered, Within, Inspect, Caught, Left, Starts, AckBody, EchoBody,
      AfterWaits, Nth, Clear, Fresh;
    var h, late := s.reverse[0], s.calls[|s.calls| - 1];
    assert h in s.reverse;
    HeadKnown(s.calls, s.reverse);
    LastWithin(s);
    OneMorePlace(s.budget, late.place);
    assert AckAt(EchoBody(Nth(h.k), s.calls[h.call].payload), h.looks, Nth(s.k));
  }

  lemma EchoNotClear(s: State)
    requires CallsInv(s) && WaitsInv(s) && FlowInv(s) && Enabled(s, Take) && Matches(s)
    requires s.reverse[0].Echo? && s.reverse[0].k + 1 == s.k
    ensures !Clear(Taken(s).calls, s.budget)
  {
    hide AllKnown, Ordered, CallsOrdered, Numbered, Within, Nth, Fresh, WaitsInv, FlowInv, Fakes;
    EchoFakes(s);
    TakenCalls(s);
    StillFakes(s.calls, Taken(s).calls, s.reverse[0].call, |s.calls| - 1, s.budget);
  }

  /** A match belongs to the current number, unless the calls are not clear: then the echo of a call under the
      number before can match as well. */
  lemma MatchMeansCurrent(s: State)
    requires CallsInv(s) && WaitsInv(s) && FlowInv(s) && Enabled(s, Take) && Matches(s)
    requires Clear(Taken(s).calls, s.budget)
    ensures var h := s.reverse[0]; !h.Other? && h.k == s.k
  {
    hide AllKnown, Ordered, CallsOrdered, Numbered, Within, Inspect, Caught, Left, Starts, AckBody, EchoBody,
      AfterWaits, Nth, AcksWithin, Fresh, WaitsInv;
    var h, calls := s.reverse[0], Taken(s).calls;
    MatchIsFrame(s);
    TakenCalls(s);
    ClearBefore(s.calls, calls, s.budget);
    assert h in s.reverse;
    if h.Ack? {
      AckRead(Nth(h.k), s.number);
      NumbersMatch(h.k, s.k);
    } else if h.k != s.k {
      EchoNotClear(s);
    }
  }

  lemma StillFakes(calls: seq<Call>, calls': seq<Call>, d: nat, c: nat, budget: nat)
    requires Extends(calls, calls') && d < |calls| && c < |calls| && calls[d].k + 1 == calls[c].k
    ensures Fakes(calls[d], calls[c], budget) <==> Fakes(calls'[d], calls'[c], budget)
    ensures calls'[d].k + 1 == calls'[c].k
  {
    hide EchoBody, AcksWithin;
  }

  lemma LastWithin(s: State)
    requires CallsInv(s) && s.calls != []
    ensures s.calls[|s.calls| - 1].attempts <= s.budget
  {
    hide CallsOrdered, Numbered, Nth;
  }

  lemma TakenCalls(s: State)
    requires CallsInv(s) && Enabled(s, Take)
    ensures CallsInv(Taken(s)) && Extends(s.calls, Taken(s).calls)
    ensures Matches(s) ==> Taken(s).calls[|s.calls| - 1].ok
  {
    hide Nth, CallsOrdered, Numbered, Within, Waited, Matches, Readable;
    if Matches(s) {
      var y := s.calls[|s.calls| - 1].(ok := true);
      LastWithin(s);
      OrderedLast(s.k, s.calls, y);
      NumberedLast(s.calls, y);
      WithinLast(s.budget, s.calls, y);
      NthNext(s.k);
    }
  }

  lemma TakenOthers(s: State)
    requires Enabled(s, Take)
    ensures var t := Taken(s);
            && t.received == s.received && t.reverse == Waited(s.reverse[0]) + s.reverse[1..] && t.forward == s.forward
            && t.delivered == s.delivered && t.budget == s.budget
            && t.k == (if Matches(s) then s.k + 1 else s.k) && t.waits == (if Matches(s) then 0 else s.waits + 1)
  {
  }

  lemma TakenWaits(s: State)
    requires CallsInv(s) && WaitsInv(s) && Enabled(s, Take)
    ensures WaitsInv(Taken(s))
  {
    hide CallsOrdered, Numbered, Within, Waited, Matches, Readable, Nth;
  }

  /** What a wait leaves is the same item, read once more. */
  lemma WaitedIs(calls: seq<Call>, h: Item)
    requires Known(calls, h) && OnTheWayBack(h) && Starts(BodyOf(h))
    ensures |Waited(h)| <= 1
    ensures forall x | x in Waited(h) ::
              && Known(calls, x) && OnTheWayBack(x) && x.Other? == h.Other?
              && (!h.Other? ==> x.k == h.k && x.call == h.call)
              && (x.Echo? ==> h.Echo? && x.looks == h.looks + 1)
  {
    hide Inspect, Caught, EchoBody, AckBody, Starts, Left;
    if h.Ack? {
      AckRead(Nth(h.k), 0);
    } else {
      BodyNoZero(calls, h);
    }
  }

  lemma OrderedReplaced(a: seq<Item>, h: Item, x: Item, b: seq<Item>)
    requires Ordered(a + [h] + b) && (x.Other? || (!h.Other? && x.k == h.k))
    ensures Ordered(a + [x] + b)
  {
    var q, r := a + [h] + b, a + [x] + b;
    forall i, j | 0 <= i < j < |r|
      ensures r[i].Other? || r[j].Other? || r[i].k <= r[j].k
    {
      assert i == |a| || r[i] == q[i];
      assert j == |a| || r[j] == q[j];
      assert q[i].Other? || q[j].Other? || q[i].k <= q[j].k;
    }
  }

  /** The head of a pipeline replaced by nothing or by one item with its number, or by noise. */
  lemma OrderedHead(a: seq<Item>, q: seq<Item>, xs: seq<Item>, b: seq<Item>)
    requires q != [] && Ordered(a + q + b) && |xs| <= 1
    requires forall x | x in xs :: x.Other? || (!q[0].Other? && x.k == q[0].k)
    ensures Ordered(a + (xs + q[1..]) + b)
  {
    var h, tail := q[0], q[1..] + b;
    assert a + q + b == a + [h] + tail;
    if xs == [] {
      OrderedWithout(a, tail, h);
      assert a + (xs + q[1..]) + b == a + tail;
    } else {
      OrderedReplaced(a, h, xs[0], tail);
      assert a + (xs + q[1..]) + b == a + [xs[0]] + tail;
    }
  }

  lemma FreshHead(q: seq<Item>, xs: seq<Item>)
    requires q != [] && Fresh(q) && |xs| <= 1 && forall x | x in xs :: q[0].Other? ==> x.Other?
    ensures Fresh(xs + q[1..])
  {
    var r := xs + q[1..];
    forall i, j | 0 <= i < j < |r| && r[j].Echo? && r[j].looks > 0
      ensures r[i].Other?
    {
      var m := 1 - |xs|;
      assert r[j] == q[j + m] && (i + m == 0 || r[i] == q[i + m]);
      if i + m == 0 {
        assert r[i] in xs;
        assert q[0].Other?;
      } else {
        assert q[i + m].Other?;
      }
    }
  }

  /** Behind a match nothing has been read. */
  lemma FreshBehind(q: seq<Item>, waits: nat)
    requires q != [] && Fresh(q) && !q[0].Other?
    ensures LooksAtMost(q[1..], waits)
  {
    forall i | i in q[1..] && i.Echo?
      ensures i.looks <= waits
    {
      var n :| 0 <= n < |q| - 1 && q[1..][n] == i;
      assert q[n + 1] == i;
    }
  }

  lemma LooksHead(q: seq<Item>, xs: seq<Item>, waits: nat)
    requires q != [] && LooksAtMost(q, waits)
    requires forall x | x in xs :: x.Echo? ==> q[0].Echo? && x.looks == q[0].looks + 1
    ensures LooksAtMost(xs + q[1..], waits + 1)
  {
  }

  lemma TypesHead(q: seq<Item>, xs: seq<Item>)
    requires q != [] && (forall i | i in q :: OnTheWayBack(i)) && forall x | x in xs :: OnTheWayBack(x)
    ensures forall i | i in xs + q[1..] :: OnTheWayBack(i)
  {
  }

  lemma RecentHead(k: nat, q: seq<Item>, xs: seq<Item>)
    requires q != [] && Recent(k, q) && forall x | x in xs :: x.Other? || (!q[0].Other? && x.k == q[0].k)
    ensures Recent(k, xs + q[1..])
  {
    assert q[0] in q;
  }

  lemma KnownHead(calls: seq<Call>, q: seq<Item>, xs: seq<Item>)
    requires q != [] && AllKnown(calls, q) && forall x | x in xs :: Known(calls, x)
    ensures AllKnown(calls, xs + q[1..])
  {
    hide Known;
  }

  /** Behind a current match everything in the pipeline is current. */
  lemma RecentAfterMatch(s: State)
    requires FlowInv(s) && CallsOrdered(s.k, s.calls)
    requires s.reverse != [] && !s.reverse[0].Other? && s.reverse[0].k == s.k
    ensures Recent(s.k + 1, s.reverse[1..]) && Recent(s.k + 1, s.forward)
  {
    hide CallsOrdered, Known, Fresh, LooksAtMost, Clear;
    var h, tail := s.reverse[0], s.reverse[1..] + s.forward;
    assert s.received + s.reverse + s.forward == s.received + [h] + tail;
    OrderedTail(s.received, h, tail);
    KnownBelow(s.k, s.calls, s.reverse);
    KnownBelow(s.k, s.calls, s.forward);
    forall i | i in s.reverse[1..]
      ensures i.Other? || i.k <= s.k + 1 <= i.k + 1
    {
      assert i in tail && i in s.reverse;
    }
    forall i | i in s.forward
      ensures i.Other? || i.k <= s.k + 1 <= i.k + 1
    {
      assert i in tail;
    }
  }

  lemma WaitedRest(s: State)
    requires CallsInv(s) && FlowInv(s) && Enabled(s, Take)
    ensures var rest := Waited(s.reverse[0]) + s.reverse[1..];
            && AllKnown(Taken(s).calls, rest) && (forall i | i in rest :: OnTheWayBack(i)) && Fresh(rest)
            && Ordered(s.received + rest + s.forward) && LooksAtMost(rest, if Matches(s) then 0 else s.waits + 1)
            && (Recent(s.k, s.reverse) ==> Recent(s.k, rest))
  {
    hide AllKnown, Ordered, Recent, CallsOrdered, Clear, Fresh, LooksAtMost, Waited, Taken, Extends, Known, Numbered,
      Within;
    var h := s.reverse[0];
    assert h in s.reverse && OnTheWayBack(h);
    HeadKnown(s.calls, s.reverse);
    WaitedIs(s.calls, h);
    TakenCalls(s);
    KnownHead(s.calls, s.reverse, Waited(h));
    KnownStill(s.calls, Taken(s).calls, Waited(h) + s.reverse[1..]);
    TypesHead(s.reverse, Waited(h));
    FreshHead(s.reverse, Waited(h));
    OrderedHead(s.received, s.reverse, Waited(h), s.forward);
    LooksHead(s.reverse, Waited(h), s.waits);
    if Matches(s) {
      MatchIsFrame(s);
      FreshBehind(s.reverse, 0);
      assert Waited(h) + s.reverse[1..] == s.reverse[1..];
    }
    if Recent(s.k, s.reverse) {
      RecentHead(s.k, s.reverse, Waited(h));
    }
  }

  lemma TakenFlow(s: State)
    requires CallsInv(s) && WaitsInv(s) && FlowInv(s) && Enabled(s, Take)
    ensures FlowInv(Taken(s))
  {
    hide AllKnown, Ordered, Recent, Clear, Fresh, LooksAtMost, Waited, Taken, Extends, Matches, WaitsInv, CallsInv;
    var t := Taken(s);
    TakenCalls(s);
    TakenOthers(s);
    WaitedRest(s);
    KnownStill(s.calls, t.calls, s.received);
    KnownStill(s.calls, t.calls, s.forward);
    if Clear(t.calls, t.budget) {
      ClearBefore(s.calls, t.calls, s.budget);
      if Matches(s) {
        MatchMeansCurrent(s);
        MatchIsFrame(s);
        CurrentOrdered(s);
        RecentAfterMatch(s);
        assert Waited(s.reverse[0]) + s.reverse[1..] == s.reverse[1..];
      }
    }
  }

  lemma CurrentOrdered(s: State)
    requires CallsInv(s)
    ensures CallsOrdered(s.k, s.calls)
  {
    hide CallsOrdered, Numbered, Within, Nth;
  }

  /** A current match means that its number has been delivered. */
  lemma MatchMeansDelivered(s: State)
    requires DeliveryInv(s) && Matches(s) && !s.reverse[0].Other? && s.reverse[0].k == s.k
    ensures Has(s.delivered, s.k)
  {
    hide Ordered, Known, Clear;
    var h := s.reverse[0];
    assert h in s.reverse;
    assert Heard(s.delivered, h);
    assert Data(Nth(h.k), h.k, h.call) in s.delivered;
  }

  lemma AllHeardHead(delivered: seq<Item>, q: seq<Item>, xs: seq<Item>)
    requires q != [] && AllHeard(delivered, q)
    requires forall x | x in xs :: x.Other? || (!q[0].Other? && x.k == q[0].k && x.call == q[0].call)
    ensures AllHeard(delivered, xs + q[1..])
  {
    assert q[0] in q;
    assert Heard(delivered, q[0]);
  }

  lemma TakenDelivery(s: State)
    requires CallsInv(s) && WaitsInv(s) && FlowInv(s) && DeliveryInv(s) && Enabled(s, Take)
    ensures DeliveryInv(Taken(s))
  {
    hide AllKnown, Ordered, Recent, Clear, Fresh, LooksAtMost, Waited, Taken, Extends, Matches, WaitsInv, CallsInv,
      Has, AllHeard, Known;
    var t, h := Taken(s), s.reverse[0];
    TakenCalls(s);
    TakenOthers(s);
    KnownStill(s.calls, t.calls, s.delivered);
    assert h in s.reverse && OnTheWayBack(h);
    HeadKnown(s.calls, s.reverse);
    WaitedIs(s.calls, h);
    AllHeardHead(s.delivered, s.reverse, Waited(h));
    if Clear(t.calls, t.budget) {
      ClearBefore(s.calls, t.calls, s.budget);
      if Matches(s) {
        MatchMeansCurrent(s);
        MatchMeansDelivered(s);
      }
    }
  }

  lemma TakenCopies(s: State)
    requires CopiesInv(s) && Enabled(s, Take)
    ensures CopiesInv(Taken(s))
  {
    hide Waited, Matches, Readable;
    var t := Taken(s);
    forall c: nat | c < |t.calls|
      ensures Count(t.delivered, c) + Count(t.forward, c) <= t.calls[c].attempts
    {
      assert t.calls[c].attempts == s.calls[c].attempts;
      assert Count(s.delivered, c) + Count(s.forward, c) <= s.calls[c].attempts;
    }
  }

  lemma TakeKeeps(s: State)
    requires Inv(s) && Enabled(s, Take)
    ensures Inv(Moved(s, Take))
  {
    hide CallsInv, WaitsInv, FlowInv, DeliveryInv, CopiesInv, Taken;
    TakenCalls(s);
    TakenWaits(s);
    TakenFlow(s);
    TakenDelivery(s);
    TakenCopies(s);
  }

  // ---- Receiving ----

  /** What a receive leaves is noise, and what it hands over is a whole echo, or found in the rest of one. */
  lemma UnreadIs(calls: seq<Call>, h: Item, room: nat)
    requires Known(calls, h) && OnTheWayBack(h) && Starts(BodyOf(h))
    requires forall c | 0 <= c < |calls| :: |calls[c].payload| <= MAX_PAYLOAD
    ensures |Unread(h)| <= 1 && |HandedOver(h, room)| <= 1
    ensures forall x | x in Unread(h) :: x.Other? && Known(calls, x)
    ensures forall x | x in HandedOver(h, room) ::
              x.Got? && Known(calls, x) && h.Echo? && x.k == h.k && x.call == h.call
    ensures HandedOver(h, room) != [] ==> Unread(h) == []
  {
    hide Inspect, Caught, EchoBody, AckBody, Starts, AfterWaits, FrameBody, Behind;
    if h.Ack? {
      AckRead(Nth(h.k), 0);
    } else if h.Echo? {
      var payload := calls[h.call].payload;
      EchoSize(Nth(h.k), payload, h.looks);
      NoLeft(h.body);
      if h.looks == 0 {
        WholeEchoRead(Nth(h.k), payload);
        NoWaits(EchoBody(Nth(h.k), payload));
      } else if IsDataFrame(Inspect(Caught(h.body, FRAME_CHUNK))) {
        assert DataAt(EchoBody(Nth(h.k), payload), h.looks);
      }
    } else {
      NoiseUnread(h.body);
    }
  }

  lemma NoWaits(b: seq<byte>)
    ensures AfterWaits(b, 0) == Some(b)
  {
  }

  lemma NoLeft(b: seq<byte>)
    requires Starts(b) && |b| < FRAME_CHUNK
    ensures Left(b, FRAME_CHUNK) == None
  {
  }

  lemma NoiseUnread(b: seq<byte>)
    requires NoZero(b) && Starts(b) && Barren(b)
    ensures !IsDataFrame(Inspect(Caught(b, FRAME_CHUNK)))
    ensures Left(b, FRAME_CHUNK).Some? ==> NoZero(Left(b, FRAME_CHUNK).value) && Barren(Left(b, FRAME_CHUNK).value)
  {
    hide Inspect, Caught;
  }

  lemma OrderedMoved(a: seq<Item>, q: seq<Item>, got: Item, b: seq<Item>)
    requires q != [] && Ordered(a + q + b) && !q[0].Other? && !got.Other? && got.k == q[0].k
    ensures Ordered((a + [got]) + q[1..] + b)
  {
    OrderedHead(a, q, [got], b);
    assert a + ([got] + q[1..]) + b == (a + [got]) + q[1..] + b;
  }

  lemma OrderedPadded(q: seq<Item>, answers: seq<Item>)
    requires Ordered(q) && |answers| <= 1 && forall x | x in answers :: x.Other?
    ensures Ordered(q + answers)
  {
    if answers == [] {
      assert q + answers == q;
    } else {
      OrderedGrows(q, answers[0]);
      assert answers == [answers[0]];
    }
  }

  lemma AnsweredIs(calls: seq<Call>, h: Item)
    requires Starts(BodyOf(h))
    ensures |Answered(h)| <= 1 && forall x | x in Answered(h) :: x == Other([]) && Known(calls, x)
  {
    hide Inspect, Caught;
    assert !Starts([]);
  }

  lemma ReceiveOrdered(s: State, room: nat)
    requires FlowInv(s) && CallsInv(s) && Enabled(s, Receive(room))
    ensures var t := ReceivedOne(s, room); Ordered(t.received + t.reverse + t.forward) && Fresh(t.reverse)
  {
    hide Ordered, Recent, Clear, LooksAtMost, Fresh, Known, HandedOver, Unread, Answered, CallsOrdered, Numbered;
    var h, t := s.reverse[0], ReceivedOne(s, room);
    assert h in s.reverse && OnTheWayBack(h);
    HeadKnown(s.calls, s.reverse);
    UnreadIs(s.calls, h, room);
    AnsweredIs(s.calls, h);
    FreshHead(s.reverse, Unread(h));
    if HandedOver(h, room) == [] {
      OrderedHead(s.received, s.reverse, Unread(h), s.forward);
      assert t.received == s.received;
    } else {
      assert HandedOver(h, room)[0] in HandedOver(h, room);
      assert HandedOver(h, room) == [HandedOver(h, room)[0]];
      OrderedMoved(s.received, s.reverse, HandedOver(h, room)[0], s.forward);
      assert Unread(h) + s.reverse[1..] == s.reverse[1..];
    }
    OrderedPadded(t.received + t.reverse + s.forward, Answered(h));
    assert t.received + t.reverse + t.forward == t.received + t.reverse + s.forward + Answered(h);
  }

  lemma ReceiveFlow(s: State, room: nat)
    requires CallsInv(s) && FlowInv(s) && Enabled(s, Receive(room))
    ensures FlowInv(ReceivedOne(s, room))
  {
    hide Ordered, Clear, Fresh, Known, HandedOver, Unread, Answered, CallsOrdered, Numbered, Starts;
    var h := s.reverse[0];
    assert h in s.reverse && OnTheWayBack(h);
    HeadKnown(s.calls, s.reverse);
    UnreadIs(s.calls, h, room);
    AnsweredIs(s.calls, h);
    ReceiveOrdered(s, room);
  }

  lemma ReceiveDelivery(s: State, room: nat)
    requires CallsInv(s) && FlowInv(s) && DeliveryInv(s) && Enabled(s, Receive(room))
    ensures DeliveryInv(ReceivedOne(s, room))
  {
    hide Ordered, Clear, Fresh, Known, HandedOver, Unread, Answered, CallsOrdered, Numbered, Starts, Has, Recent,
      LooksAtMost, AllKnown;
    var h := s.reverse[0];
    assert h in s.reverse && OnTheWayBack(h);
    HeadKnown(s.calls, s.reverse);
    UnreadIs(s.calls, h, room);
    AnsweredIs(s.calls, h);
    assert Heard(s.delivered, h);
    OrderedPadded(s.delivered + s.forward, Answered(h));
    assert s.delivered + s.forward + Answered(h) == s.delivered + (s.forward + Answered(h));
  }

  lemma ReceiveCopies(s: State, room: nat)
    requires CopiesInv(s) && Enabled(s, Receive(room))
    ensures CopiesInv(ReceivedOne(s, room))
  {
    hide HandedOver, Unread, Answered, Starts;
    var t, h := ReceivedOne(s, room), s.reverse[0];
    AnsweredIs(s.calls, h);
    forall i | i in t.forward + t.delivered && i.Data?
      ensures i.call < |t.calls|
    {
      assert i in s.forward + s.delivered;
    }
    forall c: nat | c < |t.calls|
      ensures Count(t.delivered, c) + Count(t.forward, c) <= t.calls[c].attempts
    {
      CountConcat(s.forward, Answered(h), c);
      CountNone(Answered(h), c);
      assert Count(s.delivered, c) + Count(s.forward, c) <= s.calls[c].attempts;
    }
  }

  lemma ReceiveKeeps(s: State, room: nat)
    requires Inv(s) && Enabled(s, Receive(room))
    ensures Inv(Moved(s, Receive(room)))
  {
    hide FlowInv, DeliveryInv, CopiesInv, CallsOrdered, Numbered, Within, HandedOver, Unread, Answered;
    ReceiveFlow(s, room);
    ReceiveDelivery(s, room);
    ReceiveCopies(s, room);
  }

  // ---- Delivery at the peer ----

  lemma AnswersKnown(calls: seq<Call>, h: Item)
    requires Known(calls, h) && h.Data?
    ensures Known(calls, Ack(AckBody(h.number), h.k, h.call))
    ensures Known(calls, Echo(EchoBody(h.number, calls[h.call].payload), 0, h.k, h.call))
  {
    hide AckBody, EchoBody, Nth;
  }

  lemma FreshGrows(q: seq<Item>, x: Item)
    requires Fresh(q) && (x.Echo? ==> x.looks == 0)
    ensures Fresh(q + [x])
  {
    var r := q + [x];
    forall i, j | 0 <= i < j < |r| && r[j].Echo? && r[j].looks > 0
      ensures r[i].Other?
    {
      assert r[i] == q[i] && r[j] == q[j];
    }
  }

  lemma DeliverFlow(s: State)
    requires FlowInv(s) && Enabled(s, Deliver)
    ensures FlowInv(Delivered(s))
  {
    hide Ordered, Clear, Fresh, Known, EchoBody, AckBody;
    var h, rest := s.forward[0], s.forward[1..];
    var before := s.received + s.reverse;
    assert h in s.forward && OnTheWayOut(h);
    HeadKnown(s.calls, s.forward);
    assert before + s.forward == before + [h] + rest;
    if h.Data? {
      DataHasCall(s.calls, h);
      var ack := Ack(AckBody(h.number), h.k, h.call);
      var echo := Echo(EchoBody(h.number, s.calls[h.call].payload), 0, h.k, h.call);
      AnswersKnown(s.calls, h);
      OrderedTwice(before, h, ack, rest);
      OrderedReplacedSecond(before, ack, h, echo, rest);
      assert before + [ack, echo] + rest == s.received + (s.reverse + [ack, echo]) + rest;
      FreshGrows(s.reverse, ack);
      FreshGrows(s.reverse + [ack], echo);
      assert s.reverse + [ack] + [echo] == s.reverse + [ack, echo];
    } else {
      OrderedWithout(before, rest, h);
    }
  }

  lemma DataHasCall(calls: seq<Call>, h: Item)
    requires Known(calls, h) && h.Data?
    ensures h.call < |calls|
  {
  }

  lemma OrderedReplacedSecond(a: seq<Item>, x: Item, h: Item, y: Item, b: seq<Item>)
    requires Ordered(a + [x, h] + b) && !h.Other? && !y.Other? && y.k == h.k
    ensures Ordered(a + [x, y] + b)
  {
    assert a + [x, h] + b == (a + [x]) + [h] + b;
    OrderedReplaced(a + [x], h, y, b);
    assert a + [x, y] + b == (a + [x]) + [y] + b;
  }

  lemma HeardStill(delivered: seq<Item>, x: Item, q: seq<Item>)
    requires AllHeard(delivered, q)
    ensures AllHeard(delivered + [x], q)
  {
    forall i | i in q
      ensures Heard(delivered + [x], i)
    {
      assert Heard(delivered, i);
    }
  }

  lemma HasStill(delivered: seq<Item>, x: Item, k: nat)
    requires Has(delivered, k)
    ensures Has(delivered + [x], k)
  {
    var d :| d in delivered && d.Data? && d.k == k;
    assert d in delivered + [x];
  }

  lemma AnswersHeard(calls: seq<Call>, delivered: seq<Item>, q: seq<Item>, h: Item)
    requires AllHeard(delivered, q) && h.Data? && Known(calls, h) && h in delivered
    ensures AllHeard(delivered, q + [Ack(AckBody(h.number), h.k, h.call),
                                     Echo(EchoBody(h.number, calls[h.call].payload), 0, h.k, h.call)])
  {
    hide AckBody, EchoBody, Nth;
    assert h == Data(Nth(h.k), h.k, h.call);
    assert Heard(delivered, Ack(AckBody(h.number), h.k, h.call));
    assert Heard(delivered, Echo(EchoBody(h.number, calls[h.call].payload), 0, h.k, h.call));
  }

  lemma DeliverDelivery(s: State)
    requires FlowInv(s) && DeliveryInv(s) && Enabled(s, Deliver)
    ensures DeliveryInv(Delivered(s))
  {
    hide Ordered, Has, AllHeard, AllKnown, Recent, Fresh, LooksAtMost, Clear, Known, EchoBody, AckBody;
    var h, rest, t := s.forward[0], s.forward[1..], Delivered(s);
    assert h in s.forward && OnTheWayOut(h);
    HeadKnown(s.calls, s.forward);
    if h.Data? {
      DataHasCall(s.calls, h);
      assert s.delivered + s.forward == (s.delivered + [h]) + rest;
      HeardStill(s.delivered, h, s.reverse);
      HeardStill(s.delivered, h, s.received);
      AllKnownGrows(s.calls, s.delivered, h);
      if Clear(s.calls, s.budget) {
        forall j: nat | j < s.k
          ensures Has(t.delivered, j)
        {
          HasStill(s.delivered, h, j);
        }
      }
      AnswersHeard(s.calls, t.delivered, s.reverse, h);
    } else {
      assert s.delivered + s.forward == s.delivered + [h] + rest;
      OrderedWithout(s.delivered, rest, h);
    }
  }

  lemma DeliverCopies(s: State)
    requires CopiesInv(s) && Enabled(s, Deliver)
    ensures CopiesInv(Delivered(s))
  {
    hide EchoBody, AckBody;
    var t, h := Delivered(s), s.forward[0];
    assert h in s.forward + s.delivered;
    forall i | i in t.forward + t.delivered && i.Data?
      ensures i.call < |t.calls|
    {
      assert i in s.forward + s.delivered;
    }
    forall c: nat | c < |t.calls|
      ensures Count(t.delivered, c) + Count(t.forward, c) <= t.calls[c].attempts
    {
      CountConcat(s.delivered, [h], c);
      assert s.forward == [h] + s.forward[1..];
      CountConcat([h], s.forward[1..], c);
      assert Count(s.delivered, c) + Count(s.forward, c) <= s.calls[c].attempts;
    }
  }

  lemma DeliverOthers(s: State)
    requires Enabled(s, Deliver)
    ensures var t := Delivered(s);
            && t.calls == s.calls && t.k == s.k && t.number == s.number && t.phase == s.phase && t.waits == s.waits
            && t.budget == s.budget
  {
  }

  lemma DeliverKeeps(s: State)
    requires Inv(s) && Enabled(s, Deliver)
    ensures Inv(Moved(s, Deliver))
  {
    hide FlowInv, DeliveryInv, CopiesInv, CallsOrdered, Numbered, Within, Delivered;
    DeliverFlow(s);
    DeliverDelivery(s);
    DeliverCopies(s);
    DeliverOthers(s);
  }

  // ---- Loss and noise ----

  lemma HarmedKnown(calls: seq<Call>, q: seq<Item>, d: Damage)
    requires CanHarm(q, d) && AllKnown(calls, q)
    ensures AllKnown(calls, Harmed(q, d))
  {
    hide EchoBody, AckBody, AfterWaits, Leaks, Barren;
    forall x | x in Harmed(q, d)
      ensures Known(calls, x)
    {
      HarmedIsOld(q, d, x);
    }
  }

  lemma HarmedRecent(k: nat, q: seq<Item>, d: Damage)
    requires CanHarm(q, d) && Recent(k, q)
    ensures Recent(k, Harmed(q, d))
  {
    forall x | x in Harmed(q, d)
      ensures x.Other? || x.k <= k <= x.k + 1
    {
      HarmedIsOld(q, d, x);
    }
  }

  lemma HarmedHeard(delivered: seq<Item>, q: seq<Item>, d: Damage)
    requires CanHarm(q, d) && AllHeard(delivered, q)
    ensures AllHeard(delivered, Harmed(q, d))
  {
    forall x | x in Harmed(q, d)
      ensures Heard(delivered, x)
    {
      HarmedIsOld(q, d, x);
    }
  }

  lemma HarmedFresh(q: seq<Item>, d: Damage)
    requires CanHarm(q, d) && Fresh(q)
    ensures Fresh(Harmed(q, d))
  {
    hide Barren;
    var r := Harmed(q, d);
    forall i, j | 0 <= i < j < |r| && r[j].Echo? && r[j].looks > 0
      ensures r[i].Other?
    {
      if d.Drop? {
        assert r[i] == q[if i < d.at then i else i + 1] && r[j] == q[if j < d.at then j else j + 1];
      } else if i != d.at {
        assert j != d.at;
        assert r[i] == q[if i < d.at then i else i - 1] && r[j] == q[if j < d.at then j else j - 1];
      }
    }
  }

  lemma HarmedKinds(q: seq<Item>, d: Damage)
    requires CanHarm(q, d)
    ensures (forall i | i in q :: OnTheWayBack(i)) ==> forall i | i in Harmed(q, d) :: OnTheWayBack(i)
    ensures (forall i | i in q :: OnTheWayOut(i)) ==> forall i | i in Harmed(q, d) :: OnTheWayOut(i)
    ensures forall waits: nat :: LooksAtMost(q, waits) ==> LooksAtMost(Harmed(q, d), waits)
  {
    hide Barren, Harmed;
    forall x | x in Harmed(q, d)
      ensures x in q || x.Other?
    {
      HarmedIsOld(q, d, x);
    }
  }

  lemma HarmUpFlow(s: State, d: Damage)
    requires Enabled(s, Harm(true, d)) && FlowInv(s)
    ensures FlowInv(Moved(s, Harm(true, d)))
  {
    hide Ordered, Recent, AllKnown, Harmed, Fresh, LooksAtMost, Clear, Barren;
    HarmedKnown(s.calls, s.forward, d);
    HarmedKinds(s.forward, d);
    if Clear(s.calls, s.budget) {
      HarmedRecent(s.k, s.forward, d);
    }
    OrderedHarmedEnd(s.received + s.reverse, s.forward, d);
  }

  lemma OrderedHarmedEnd(a: seq<Item>, q: seq<Item>, d: Damage)
    requires CanHarm(q, d) && Ordered(a + q)
    ensures Ordered(a + Harmed(q, d))
  {
    hide Ordered, Harmed, Barren;
    assert a + q + [] == a + q;
    OrderedHarmed(a, q, [], d);
    assert a + Harmed(q, d) + [] == a + Harmed(q, d);
  }

  lemma HarmUpDelivery(s: State, d: Damage)
    requires Enabled(s, Harm(true, d)) && DeliveryInv(s)
    ensures DeliveryInv(Moved(s, Harm(true, d)))
  {
    hide Ordered, AllKnown, AllHeard, Has, Harmed, Clear, Barren;
    OrderedHarmedEnd(s.delivered, s.forward, d);
  }

  lemma HarmUpKeeps(s: State, d: Damage)
    requires Enabled(s, Harm(true, d)) && Inv(s)
    ensures Inv(Moved(s, Harm(true, d)))
  {
    hide CallsInv, FlowInv, DeliveryInv, CopiesInv, WaitsInv, Harmed, Barren;
    var t := Moved(s, Harm(true, d));
    SameCalls(s, t);
    SameWaits(s, t);
    HarmUpFlow(s, d);
    HarmUpDelivery(s, d);
    HarmedCopies(s, d);
  }

  lemma SameCalls(s: State, t: State)
    requires CallsInv(s) && t.calls == s.calls && t.k == s.k && t.number == s.number && t.phase == s.phase
    requires t.budget == s.budget
    ensures CallsInv(t)
  {
  }

  lemma SameWaits(s: State, t: State)
    requires WaitsInv(s) && t.calls == s.calls && t.waits == s.waits && t.budget == s.budget
    requires t.phase == s.phase || t.phase != Waiting
    ensures WaitsInv(t)
  {
  }

  lemma HarmedCopies(s: State, d: Damage)
    requires CopiesInv(s) && CanHarm(s.forward, d)
    ensures CopiesInv(Moved(s, Harm(true, d)))
  {
    hide Barren;
    var t := Moved(s, Harm(true, d));
    forall i | i in t.forward + t.delivered && i.Data?
      ensures i.call < |t.calls|
    {
      if i in t.forward {
        HarmedIsOld(s.forward, d, i);
      }
      assert i in s.forward + s.delivered;
    }
    forall c: nat | c < |t.calls|
      ensures Count(t.delivered, c) + Count(t.forward, c) <= t.calls[c].attempts
    {
      CountHarmed(s.forward, d, c);
      assert Count(s.delivered, c) + Count(s.forward, c) <= s.calls[c].attempts;
    }
  }

  lemma HarmDownKeeps(s: State, d: Damage)
    requires Enabled(s, Harm(false, d)) && Inv(s)
    ensures Inv(Moved(s, Harm(false, d)))
  {
    hide CallsOrdered, Numbered, Within, Ordered, Recent, AllKnown, AllHeard, Has, Harmed, Fresh, LooksAtMost, Clear,
      Barren, WaitsInv;
    SameWaits(s, Moved(s, Harm(false, d)));
    HarmedKnown(s.calls, s.reverse, d);
    HarmedKinds(s.reverse, d);
    HarmedFresh(s.reverse, d);
    if Clear(s.calls, s.budget) {
      HarmedRecent(s.k, s.reverse, d);
    }
    HarmedHeard(s.delivered, s.reverse, d);
    OrderedHarmed(s.received, s.reverse, s.forward, d);
  }

  // ---- Every run ----

  lemma WaitEndsKeeps(s: State, m: Move)
    requires Inv(s) && Enabled(s, m) && (m.Timeout? || m.GiveUp?)
    ensures Inv(Moved(s, m))
  {
    hide CallsOrdered, Numbered, Within, Ordered, AllKnown, Recent, AllHeard, Has, Fresh, LooksAtMost, Clear,
      WaitsInv;
    SameWaits(s, Moved(s, m));
  }

  lemma MoveKeeps(s: State, m: Move)
    requires Inv(s) && Enabled(s, m)
    ensures Inv(Moved(s, m)) && Moved(s, m).budget == s.budget
  {
    hide Inv;
    match m {
      case Submit(p) => SubmitKeeps(s, p);
      case Transmit(ok) => TransmitKeeps(s, ok);
      case Take => TakeKeeps(s);
      case Timeout => WaitEndsKeeps(s, m);
      case GiveUp => WaitEndsKeeps(s, m);
      case Receive(room) => ReceiveKeeps(s, room);
      case Deliver => DeliverKeeps(s);
      case Harm(up, d) =>
        if up {
          HarmUpKeeps(s, d);
        } else {
          HarmDownKeeps(s, d);
        }
    }
  }

  lemma {:induction false} RunKeeps(s: State, run: seq<Move>)
    requires Inv(s)
    ensures var r := Exec(s, run); r.Some? ==> Inv(r.value) && r.value.budget == s.budget
    decreases run
  {
    hide Inv, Moved, Enabled;
    if run != [] && Enabled(s, run[0]) {
      MoveKeeps(s, run[0]);
      RunKeeps(Moved(s, run[0]), run[1..]);
    }
  }

  lemma InitInv(budget: nat)
    ensures Inv(Init(budget))
  {
  }

  lemma ReachableInv(s: State)
    requires Reachable(s)
    ensures Inv(s)
  {
    hide Inv;
    var run :| Exec(Init(s.budget), run) == Some(s);
    InitInv(s.budget);
    RunKeeps(Init(s.budget), run);
  }
}
