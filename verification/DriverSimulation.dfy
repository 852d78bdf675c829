/** Each call of the driver on a lossy network is a sequence of moves of the stop-and-wait system, and what is proved
    of every run of the system holds of the bytes. */
module DriverSimulation {
  import opened Bytes
  import opened Cobs
  import opened Frames
  import opened Link
  import opened Network
  import opened Rs485Protocol
  import opened Segments
  import opened Simulation
  import opened StopAndWait
  import opened StopAndWaitRuns
  import opened StopAndWaitSafety
  import opened Wrappers

  // ---- Transmitting ----

  lemma OwnersGrow(owners: Owners, who: Option<nat>, s: State, net: Net, arrivals: seq<Arrival>)
    requires Describes(owners, s, net, arrivals)
    ensures Describes(owners + [who], s, net, arrivals)
  {
    hide Refused, Wire, BackMatches;
    forall i | 0 <= i < |net.up|
      ensures Carries(owners + [who], s.calls, s.forward[i], net.up[i])
    {
      assert Carries(owners, s.calls, s.forward[i], net.up[i]);
    }
    forall i | 0 <= i < |net.heard|
      ensures HearsOf(owners + [who], s.calls, s.delivered[i], net.heard[i])
    {
      assert HearsOf(owners, s.calls, s.delivered[i], net.heard[i]);
    }
  }

  lemma UpGrows(owners: Owners, calls: seq<Call>, q: seq<Item>, up: seq<Up>, x: Item, u: Up)
    requires UpMatches(owners, calls, q, up) && Carries(owners, calls, x, u)
    ensures UpMatches(owners, calls, q + [x], up + [u])
  {
    hide UpMatches, Carries;
    UpLength(owners, calls, q, up);
    UpWith(owners, calls, q, up, |q|, x, u);
    assert q[..|q|] + [x] + q[|q|..] == q + [x] && up[..|q|] + [u] + up[|q|..] == up + [u];
  }

  /** What is on the way out apart from the newest frames. */
  function Without(s: State, n: nat): State
    requires n <= |s.forward|
  {
    s.(forward := s.forward[..n])
  }

  /** A transmission hands its frame to the network, unless it fails or is spoilt by one that failed. */
  lemma HandedSim(owners: Owners, who: Option<nat>, s: State, xs: seq<Item>, net: Net, arrivals: seq<Arrival>, tx: Tx,
                  kept: nat)
    returns (t: State)
    requires |xs| <= |s.forward| && s.forward[|s.forward| - |xs|..] == xs && |xs| <= 1 && (xs == [] ==> !tx.ok)
    requires Describes(owners, Without(s, |s.forward| - |xs|), net, arrivals)
    requires forall x | x in xs :: Carries(owners + [who], s.calls, x, Up(tx.bytes, Some(|owners|)))
    ensures Leads(s, t) && SameDriver(s, t)
    ensures Describes(owners + [who], t, Handed(net, |owners|, tx, kept), arrivals)
  {
    hide Leads, UpMatches, BackMatches, HeardMatches, Carries, Refused;
    var m, grown := |net.up|, owners + [who];
    OwnersGrow(owners, who, Without(s, |s.forward| - |xs|), net, arrivals);
    LeadsNowhere(s);
    t := s;
    if xs == [] {
      assert s.forward[..|s.forward|] == s.forward;
    } else {
      var q, u := s.forward[..|s.forward| - 1], Up(tx.bytes, Some(|owners|));
      assert s.forward == q + [xs[0]];
      UpGrows(grown, s.calls, q, net.up, xs[0], u);
      var full := net.(up := net.up + [u]);
      assert Describes(grown, s, full, arrivals);
      if !tx.ok || net.cut != [] {
        t := LoseUpSim(grown, s, full, arrivals, m);
        assert full.up[..m] + full.up[m + 1..] == net.up;
        if tx.ok && Refused(net.cut + tx.bytes) {
          var v, noise := t, Up(net.cut + tx.bytes, None);
          t := NoiseUpSim(grown, v, net, arrivals, m, noise);
          LeadsOn(s, v, t);
          assert net.up[..m] + [noise] + net.up[m..] == net.up + [noise];
        }
      }
    }
  }

  lemma CarrySim(plan: Plan, owners: Owners, accept: Acceptance, who: Option<nat>, s: State, xs: seq<Item>, line: Line,
                 arrivals: seq<Arrival>, wire: seq<byte>)
    returns (t: State, arrived: seq<Arrival>)
    requires Reachable(s) && s.budget == MAX_RETRIES + 1 && line.rx == EventsOf(arrivals) && |owners| == |line.sent|
    requires |xs| <= |s.forward| && s.forward[|s.forward| - |xs|..] == xs && |xs| <= 1
    requires xs == [] ==> !Link.Transmit(Lossy(plan, accept), line, wire).ok
    requires Describes(owners, Without(s, |s.forward| - |xs|), Situation(plan, line.sent), arrivals)
    requires forall x | x in xs :: Carries(owners + [who], s.calls, x, Up(wire, Some(|owners|)))
    ensures Leads(s, t) && SameDriver(s, t)
    ensures Related(plan, owners + [who], t, Link.Transmit(Lossy(plan, accept), line, wire).line, arrived)
  {
    hide Reachable, Leads, Describes, HappenAll, Lossy, Link.Transmit, EventsOf, Handed, Carries;
    var net, n := Situation(plan, line.sent), |line.sent|;
    var tx := Tx(wire, Link.Transmit(Lossy(plan, accept), line, wire).ok);
    TransmitOn(plan, accept, line, wire);
    var more := Carry(plan, net, n, tx).arrivals;
    var u := HandedSim(owners, who, s, xs, net, arrivals, tx, plan(n).kept);
    LeadsReachable(s, u);
    t := HappenAllSim(owners + [who], u, Handed(net, n, tx, plan(n).kept), arrivals, plan(n).later);
    LeadsOn(s, u, t);
    LeadsReachable(s, t);
    arrived := arrivals + more;
    EventsOfConcat(arrivals, more);
  }

  lemma UpStill(owners: Owners, calls: seq<Call>, calls': seq<Call>, q: seq<Item>, up: seq<Up>)
    requires Extends(calls, calls') && UpMatches(owners, calls, q, up)
    ensures UpMatches(owners, calls', q, up)
  {
    hide Refused, Wire;
    forall i | 0 <= i < |q|
      ensures Carries(owners, calls', q[i], up[i])
    {
      assert Carries(owners, calls, q[i], up[i]);
    }
  }

  lemma HeardMatchesStill(owners: Owners, calls: seq<Call>, calls': seq<Call>, delivered: seq<Item>,
                          heard: seq<Hearing>)
    requires Extends(calls, calls') && HeardMatches(owners, calls, delivered, heard)
    ensures HeardMatches(owners, calls', delivered, heard)
  {
    forall i | 0 <= i < |heard|
      ensures HearsOf(owners, calls', delivered[i], heard[i])
    {
      assert HearsOf(owners, calls, delivered[i], heard[i]);
    }
  }

  /** A change of the calls alone. */
  lemma DescribesStill(owners: Owners, s: State, t: State, net: Net, arrivals: seq<Arrival>)
    requires Describes(owners, s, net, arrivals) && Extends(s.calls, t.calls)
    requires t.forward == s.forward && t.reverse == s.reverse && t.delivered == s.delivered
    ensures Describes(owners, t, net, arrivals)
  {
    hide Extends, UpMatches, BackMatches, HeardMatches;
    UpStill(owners, s.calls, t.calls, s.forward, net.up);
    HeardMatchesStill(owners, s.calls, t.calls, s.delivered, net.heard);
  }

  /** The last call of a state in which one is under way. */
  function Last(s: State): Call
    requires s.calls != []
  {
    s.calls[|s.calls| - 1]
  }

  /** The state of the calls during call number |before|. */
  predicate Under(s: State, before: seq<Call>, p: seq<byte>, a: nat) {
    |s.calls| == |before| + 1 && s.calls[..|before|] == before && Last(s).payload == p && Last(s).attempts == a
    && !Last(s).ok
  }

  lemma SentExtends(s: State, ok: bool)
    requires Reachable(s) && Enabled(s, Transmit(ok))
    ensures Extends(s.calls, Sent(s, ok).calls) && Last(s).k == s.k
  {
    hide WaitsInv, FlowInv, DeliveryInv, CopiesInv, CallsOrdered, Numbered, Within, Nth, Extends, Reachable, Sent;
    ReachableInv(s);
    SentCalls(s, ok);
  }

  lemma TransmitSim(plan: Plan, owners: Owners, accept: Acceptance, s: State, line: Line, arrivals: seq<Arrival>,
                    before: seq<Call>, p: seq<byte>, a: nat)
    returns (t: State, arrived: seq<Arrival>)
    requires Related(plan, owners, s, line, arrivals)
    requires s.phase == Ready && Under(s, before, p, a) && a < MAX_RETRIES + 1
    ensures var r := Link.Transmit(Lossy(plan, accept), line, Wire(Frame(DATA, s.number, p)));
            && Leads(s, t) && Related(plan, owners + [Some(|before|)], t, r.line, arrived)
            && t.phase == (if r.ok then Waiting else Ready)
            && Under(t, before, p, a + 1) && t.k == s.k && t.number == s.number && t.received == s.received
  {
    hide Reachable, Leads, Lossy, EventsOf, Wire, UpMatches, BackMatches, HeardMatches, Extends;
    var wire := Wire(Frame(DATA, s.number, p));
    var ok := Link.Transmit(Lossy(plan, accept), line, wire).ok;
    var m, net, c := Move.Transmit(ok), Situation(plan, line.sent), |before|;
    LeadsBy(s, m);
    var u := Moved(s, m);
    SentExtends(s, ok);
    LeadsReachable(s, u);
    var xs := if ok then [Data(s.number, s.k, c)] else [];
    assert u.forward == s.forward + xs && (s.forward + xs)[..|s.forward|] == s.forward;
    assert u.calls[..c] == s.calls[..c];
    DescribesStill(owners, s, u.(forward := s.forward), net, arrivals);
    assert Without(u, |u.forward| - |xs|) == u.(forward := s.forward);
    t, arrived := CarrySim(plan, owners, accept, Some(c), u, xs, line, arrivals, wire);
    LeadsOn(s, u, t);
  }

  // ---- Reading what has arrived ----

  lemma EventsOfHead(arrivals: seq<Arrival>)
    requires arrivals != []
    ensures EventsOf(arrivals)
         == (match arrivals[0] case None => [Failed] case Some(b) => OnLine(b)) + EventsOf(arrivals[1..])
    ensures EventsOf([]) == []
  {
  }

  lemma SomesHead(arrivals: seq<Arrival>)
    requires arrivals != []
    ensures arrivals[0].None? ==> Somes(arrivals) == Somes(arrivals[1..])
    ensures arrivals[0].Some? ==> Somes(arrivals) == [arrivals[0].value] + Somes(arrivals[1..])
  {
  }

  /** The first body that has arrived is the head of the way back. */
  lemma ArrivedHead(owners: Owners, s: State, net: Net, arrivals: seq<Arrival>)
    requires Reachable(s) && Describes(owners, s, net, arrivals) && arrivals != [] && arrivals[0].Some?
    ensures s.reverse != [] && BodyOf(s.reverse[0]) == arrivals[0].value && NoZero(arrivals[0].value)
    ensures Known(s.calls, s.reverse[0]) && OnTheWayBack(s.reverse[0])
    ensures BackMatches(s.reverse[1..], Somes(arrivals[1..]) + net.back)
  {
    hide Reachable, CallsInv, WaitsInv, DeliveryInv, CopiesInv, Ordered, Clear, Fresh, LooksAtMost, Recent, AllKnown,
      UpMatches, HeardMatches, Known, BodyOf;
    SomesHead(arrivals);
    var bodies := Somes(arrivals) + net.back;
    assert bodies[0] == arrivals[0].value && bodies[1..] == Somes(arrivals[1..]) + net.back;
    BackWithout(s.reverse, bodies, 0);
    assert s.reverse[..0] + s.reverse[1..] == s.reverse[1..] && bodies[..0] + bodies[1..] == bodies[1..];
    assert BodyOf(s.reverse[0]) == bodies[0];
    ReachableInv(s);
    HeadKnown(s.calls, s.reverse);
    assert s.reverse[0] in s.reverse;
    BodyNoZero(s.calls, s.reverse[0]);
  }

  lemma SkippedBytes(arrivals: seq<Arrival>, cap: nat)
    requires arrivals != [] && arrivals[0].Some? && NoZero(arrivals[0].value) && !Starts(arrivals[0].value) && cap > 0
    ensures Collect(EventsOf(arrivals), false, [], cap) == Collect(EventsOf(arrivals[1..]), false, [], cap)
  {
    hide Collect, Starts, EventsOf, OnLine;
    EventsOfHead(arrivals);
    CollectSegment(arrivals[0].value, EventsOf(arrivals[1..]), cap);
  }

  /** A body without a start byte is passed over: to the system it is lost. */
  lemma SkippedSim(plan: Plan, owners: Owners, s: State, line: Line, arrivals: seq<Arrival>) returns (t: State)
    requires Related(plan, owners, s, line, arrivals)
    requires arrivals != [] && arrivals[0].Some? && !Starts(arrivals[0].value)
    ensures Leads(s, t) && SameDriver(s, t)
    ensures Related(plan, owners, t, line.(rx := EventsOf(arrivals[1..])), arrivals[1..])
    ensures Collect(line.rx, false, [], ACK_CHUNK) == Collect(EventsOf(arrivals[1..]), false, [], ACK_CHUNK)
    ensures Collect(line.rx, false, [], FRAME_CHUNK) == Collect(EventsOf(arrivals[1..]), false, [], FRAME_CHUNK)
  {
    hide Reachable, Leads, Collect, UpMatches, BackMatches, HeardMatches, Starts, EventsOf, BodyOf, Known, Situation;
    ArrivedHead(owners, s, Situation(plan, line.sent), arrivals);
    SkippedBytes(arrivals, ACK_CHUNK);
    SkippedBytes(arrivals, FRAME_CHUNK);
    LeadsBy(s, Harm(false, Drop(0)));
    t := Moved(s, Harm(false, Drop(0)));
    assert s.reverse[..0] + s.reverse[1..] == s.reverse[1..];
    LeadsReachable(s, t);
  }

  /** What a reader with this buffer leaves of the first arrival. */
  function Rest(arrivals: seq<Arrival>, cap: nat): seq<Arrival>
    requires arrivals != [] && arrivals[0].Some? && Starts(arrivals[0].value)
  {
    (match Left(arrivals[0].value, cap) case None => [] case Some(left) => [Some(left)]) + arrivals[1..]
  }

  lemma ReadsFirst(arrivals: seq<Arrival>, cap: nat)
    requires arrivals != [] && arrivals[0].Some? && NoZero(arrivals[0].value) && Starts(arrivals[0].value) && cap > 0
    ensures Collect(EventsOf(arrivals), false, [], cap)
         == Chunk(Caught(arrivals[0].value, cap), EventsOf(Rest(arrivals, cap)))
  {
    hide Collect, Caught, OnLine, Starts, EventsOf, Left;
    var b := arrivals[0].value;
    EventsOfHead(arrivals);
    CollectSegment(b, EventsOf(arrivals[1..]), cap);
    if Left(b, cap).Some? {
      EventsOfHead(Rest(arrivals, cap));
      assert Rest(arrivals, cap)[1..] == arrivals[1..];
    } else {
      assert Rest(arrivals, cap) == arrivals[1..];
    }
  }

  /** What the reader leaves is still described. */
  lemma RestDescribed(q: seq<Item>, net: Net, arrivals: seq<Arrival>, cap: nat, xs: seq<Item>)
    requires arrivals != [] && arrivals[0].Some? && Starts(arrivals[0].value)
    requires BackMatches(q, Somes(arrivals[1..]) + net.back)
    requires var left := Left(arrivals[0].value, cap);
             if left.None? then xs == [] else |xs| == 1 && BodyOf(xs[0]) == left.value
    ensures BackMatches(xs + q, Somes(Rest(arrivals, cap)) + net.back)
  {
    hide BodyOf, Left, Starts, Somes;
    var left, rest := Left(arrivals[0].value, cap), Rest(arrivals, cap);
    if left.Some? {
      SomesHead(rest);
      assert rest[1..] == arrivals[1..];
      BackGrows(xs, [left.value], q, Somes(arrivals[1..]) + net.back);
      assert [left.value] + (Somes(arrivals[1..]) + net.back) == Somes(rest) + net.back;
    } else {
      assert rest == arrivals[1..] && xs + q == q;
    }
  }

  // ---- Waiting ----

  lemma SilentWait(plan: Plan, owners: Owners, s: State, line: Line, arrivals: seq<Arrival>)
    returns (t: State, arrived: seq<Arrival>)
    requires Related(plan, owners, s, line, arrivals) && s.phase == Waiting && (arrivals == [] || arrivals[0].None?)
    ensures Leads(s, t) && t == s.(phase := Ready)
    ensures AwaitAck(line, s.number) == Outcome(false, line.(rx := EventsOf(arrived)))
    ensures Related(plan, owners, t, line.(rx := EventsOf(arrived)), arrived)
  {
    hide Reachable, Leads, UpMatches, BackMatches, HeardMatches, Inspect;
    LeadsBy(s, Timeout);
    t := Moved(s, Timeout);
    LeadsReachable(s, t);
    arrived := if arrivals == [] then [] else arrivals[1..];
    if arrivals != [] {
      EventsOfHead(arrivals);
      SomesHead(arrivals);
    }
  }

  lemma TakenWaited(i: Item)
    requires Starts(BodyOf(i))
    ensures var left := Left(BodyOf(i), ACK_CHUNK);
            if left.None? then Waited(i) == [] else |Waited(i)| == 1 && BodyOf(Waited(i)[0]) == left.value
  {
    hide Starts, Left;
  }

  /** What a wait does to the calls under way. */
  predicate WaitEnds(s: State, t: State, before: seq<Call>, p: seq<byte>, a: nat, ok: bool) {
    && t.received == s.received && t.number == (if ok then s.number + 1 else s.number)
    && if ok then t.phase == Idle && Log(t.calls) == Log(before) + [Entry(p, true)]
       else t.phase == Ready && Under(t, before, p, a)
  }

  lemma TakeWaitEnds(s: State, before: seq<Call>, p: seq<byte>, a: nat)
    requires Enabled(s, Take) && Under(s, before, p, a)
    ensures WaitEnds(s, Taken(s), before, p, a, Matches(s))
  {
    hide Matches, Readable, Waited;
    var t := Taken(s);
    if Matches(s) {
      LogSnoc(before, Last(t));
      assert t.calls == before + [Last(t)];
    }
  }

  lemma ReadWait(plan: Plan, owners: Owners, s: State, line: Line, arrivals: seq<Arrival>, before: seq<Call>,
                 p: seq<byte>, a: nat)
    returns (t: State, arrived: seq<Arrival>)
    requires Related(plan, owners, s, line, arrivals) && s.phase == Waiting && Under(s, before, p, a)
    requires arrivals != [] && arrivals[0].Some? && Starts(arrivals[0].value)
    ensures var r := AwaitAck(line, s.number);
            Leads(s, t) && Related(plan, owners, t, r.line, arrived) && WaitEnds(s, t, before, p, a, r.ok)
  {
    hide Reachable, Leads, UpMatches, BackMatches, HeardMatches, Inspect, Collect, EventsOf, Starts, Caught, Left,
      Known, BodyOf, Waited, WaitEnds, Under, Somes;
    var net := Situation(plan, line.sent);
    ArrivedHead(owners, s, net, arrivals);
    ReadsFirst(arrivals, ACK_CHUNK);
    arrived := Rest(arrivals, ACK_CHUNK);
    UnderIs(s, before, p, a);
    LeadsBy(s, Take);
    t := Moved(s, Take);
    LeadsReachable(s, t);
    TakeWaitEnds(s, before, p, a);
    TakenWaited(s.reverse[0]);
    RestDescribed(s.reverse[1..], net, arrivals, ACK_CHUNK, Waited(s.reverse[0]));
    TakeDescribed(owners, s, net, arrivals, arrived);
  }

  lemma UnderIs(s: State, before: seq<Call>, p: seq<byte>, a: nat)
    requires Under(s, before, p, a)
    ensures s.calls != []
  {
  }

  lemma TakeDescribed(owners: Owners, s: State, net: Net, arrivals: seq<Arrival>, arrived: seq<Arrival>)
    requires Reachable(s) && Enabled(s, Take) && Describes(owners, s, net, arrivals)
    requires BackMatches(Waited(s.reverse[0]) + s.reverse[1..], Somes(arrived) + net.back)
    ensures Describes(owners, Taken(s), net, arrived)
  {
    hide Reachable, WaitsInv, FlowInv, DeliveryInv, CopiesInv, CallsInv, UpMatches, BackMatches, HeardMatches, Waited,
      Matches, Readable, Taken, Extends;
    ReachableInv(s);
    TakenCalls(s);
    TakenOthers(s);
    UpStill(owners, s.calls, Taken(s).calls, s.forward, net.up);
    HeardMatchesStill(owners, s.calls, Taken(s).calls, s.delivered, net.heard);
  }

  /** A wait, whatever has arrived. */
  lemma {:induction false} AwaitSim(plan: Plan, owners: Owners, s: State, line: Line, arrivals: seq<Arrival>,
                                    before: seq<Call>, p: seq<byte>, a: nat)
    returns (t: State, arrived: seq<Arrival>)
    requires Related(plan, owners, s, line, arrivals) && s.phase == Waiting && Under(s, before, p, a)
    ensures var r := AwaitAck(line, s.number);
            Leads(s, t) && Related(plan, owners, t, r.line, arrived) && WaitEnds(s, t, before, p, a, r.ok)
    decreases arrivals
  {
    hide Related, Leads, Inspect, Collect, EventsOf, Starts;
    if arrivals == [] || arrivals[0].None? {
      t, arrived := SilentWait(plan, owners, s, line, arrivals);
    } else if Starts(arrivals[0].value) {
      t, arrived := ReadWait(plan, owners, s, line, arrivals, before, p, a);
    } else {
      var u := SkippedSim(plan, owners, s, line, arrivals);
      t, arrived := AwaitSim(plan, owners, u, line.(rx := EventsOf(arrivals[1..])), arrivals[1..], before, p, a);
      LeadsOn(s, u, t);
    }
  }

  // ---- A call of send ----

  predicate Done(s: State, t: State, before: seq<Call>, p: seq<byte>, ok: bool) {
    && t.phase == Idle && Log(t.calls) == Log(before) + [Entry(p, ok)] && t.received == s.received
    && t.number == (if ok then s.number + 1 else s.number)
  }

  lemma GivenUp(plan: Plan, owners: Owners, s: State, line: Line, arrivals: seq<Arrival>, before: seq<Call>,
                p: seq<byte>)
    returns (t: State)
    requires Related(plan, owners, s, line, arrivals) && s.phase == Ready && Under(s, before, p, MAX_RETRIES + 1)
    ensures Leads(s, t) && Related(plan, owners, t, line, arrivals) && Done(s, t, before, p, false)
  {
    hide Reachable, Leads, UpMatches, BackMatches, HeardMatches, Log;
    LeadsBy(s, GiveUp);
    t := Moved(s, GiveUp);
    LeadsReachable(s, t);
    LogSnoc(before, Last(s));
    assert t.calls == before + [Last(s)];
  }

  function AttemptOnce(env: Env, line: Line, wire: seq<byte>, number: byte): Outcome {
    var sent := Link.Transmit(env, line, wire);
    if sent.ok then AwaitAck(sent.line, number) else sent
  }

  lemma AttemptsUnfold(env: Env, line: Line, wire: seq<byte>, number: byte, n: nat)
    requires n > 0
    ensures var once := AttemptOnce(env, line, wire, number);
            Attempts(Sender(env, wire), Waiter(number), line, n)
            == if once.ok then once else Attempts(Sender(env, wire), Waiter(number), once.line, n - 1)
  {
    hide Link.Transmit, AwaitAck;
  }

  lemma AttemptSim(plan: Plan, owners: Owners, accept: Acceptance, s: State, line: Line, arrivals: seq<Arrival>,
                   before: seq<Call>, p: seq<byte>, a: nat)
    returns (t: State, arrived: seq<Arrival>)
    requires Related(plan, owners, s, line, arrivals)
    requires s.phase == Ready && Under(s, before, p, a) && a < MAX_RETRIES + 1
    ensures var r := AttemptOnce(Lossy(plan, accept), line, Wire(Frame(DATA, s.number, p)), s.number);
            && Leads(s, t) && Related(plan, owners + [Some(|before|)], t, r.line, arrived)
            && WaitEnds(s, t, before, p, a + 1, r.ok)
  {
    hide Related, Leads, Lossy, Link.Transmit, AwaitAck, Wire, Under, Log;
    var sent := Link.Transmit(Lossy(plan, accept), line, Wire(Frame(DATA, s.number, p)));
    t, arrived := TransmitSim(plan, owners, accept, s, line, arrivals, before, p, a);
    if sent.ok {
      var u := t;
      t, arrived := AwaitSim(plan, owners + [Some(|before|)], u, sent.line, arrived, before, p, a + 1);
      LeadsOn(s, u, t);
    }
  }

  /** The transmissions up to the n-th are made for the same call, or for none. */
  function Extended(owners: Owners, n: nat, who: Option<nat>): Owners {
    owners + seq(if n < |owners| then 0 else n - |owners|, _ => who)
  }

  lemma ExtendedTwice(owners: Owners, n: nat, who: Option<nat>)
    ensures n > |owners| ==> Extended(owners + [who], n, who) == Extended(owners, n, who)
    ensures n <= |owners| ==> Extended(owners, n, who) == owners
    ensures n == |owners| + 1 ==> Extended(owners, n, who) == owners + [who]
  {
  }

  lemma RelatedSize(plan: Plan, owners: Owners, s: State, line: Line, arrivals: seq<Arrival>)
    requires Related(plan, owners, s, line, arrivals)
    ensures |owners| == |line.sent|
  {
  }

  /** The retry loop, with n attempts to go. */
  lemma {:induction false} AttemptsSim(plan: Plan, owners: Owners, accept: Acceptance, s: State, line: Line,
                                      arrivals: seq<Arrival>, before: seq<Call>, p: seq<byte>, n: nat)
    returns (t: State, arrived: seq<Arrival>)
    requires Related(plan, owners, s, line, arrivals) && s.phase == Ready && n <= MAX_RETRIES + 1
    requires Under(s, before, p, MAX_RETRIES + 1 - n)
    ensures var env := Lossy(plan, accept);
            var r := Attempts(Sender(env, Wire(Frame(DATA, s.number, p))), Waiter(s.number), line, n);
            && Leads(s, t) && Related(plan, Extended(owners, |r.line.sent|, Some(|before|)), t, r.line, arrived)
            && Done(s, t, before, p, r.ok) && |r.line.sent| >= |line.sent|
    decreases n
  {
    hide Related, Leads, Lossy, Wire, Under, Log, AttemptOnce, Sender, Waiter, Attempts, Extended;
    var env, wire := Lossy(plan, accept), Wire(Frame(DATA, s.number, p));
    var who: Option<nat> := Some(|before|);
    RelatedSize(plan, owners, s, line, arrivals);
    if n == 0 {
      NoAttempts(Sender(env, wire), Waiter(s.number), line);
      t := GivenUp(plan, owners, s, line, arrivals, before, p);
      arrived := arrivals;
      ExtendedTwice(owners, |line.sent|, who);
    } else {
      AttemptsUnfold(env, line, wire, s.number, n);
      t, arrived := AttemptSim(plan, owners, accept, s, line, arrivals, before, p, MAX_RETRIES + 1 - n);
      var once := AttemptOnce(env, line, wire, s.number);
      RelatedSize(plan, owners + [who], t, once.line, arrived);
      ExtendedTwice(owners, |once.line.sent|, who);
      if !once.ok {
        var u := t;
        t, arrived := AttemptsSim(plan, owners + [who], accept, u, once.line, arrived, before, p, n - 1);
        LeadsOn(s, u, t);
        ExtendedTwice(owners, |Attempts(Sender(env, wire), Waiter(s.number), line, n).line.sent|, who);
      }
    }
  }

  lemma NoAttempts(send: Step, wait: Step, line: Line)
    ensures Attempts(send, wait, line, 0) == Outcome(false, line)
  {
  }

  /** A call of send from a related state ends in one, reached by moves: Submit, then for each attempt Transmit, what
      happens on the network, and a wait. */
  lemma SendSim(plan: Plan, owners: Owners, accept: Acceptance, s: State, line: Line, arrivals: seq<Arrival>,
                p: seq<byte>)
    returns (t: State, arrived: seq<Arrival>)
    requires Related(plan, owners, s, line, arrivals) && s.phase == Idle && |p| <= MAX_PAYLOAD
    ensures var r := SendOutcome(Lossy(plan, accept), line, p, s.number);
            && Leads(s, t) && Related(plan, Extended(owners, |r.line.sent|, Some(|s.calls|)), t, r.line, arrived)
            && Done(s, t, s.calls, p, r.ok) && |r.line.sent| >= |line.sent|
  {
    hide Reachable, Leads, Lossy, UpMatches, BackMatches, HeardMatches, Attempts, Wire, Log, NextPlace, Sender,
      Waiter;
    LeadsBy(s, Submit(p));
    var u := Moved(s, Submit(p));
    LeadsReachable(s, u);
    Appended(s.calls, Last(u));
    DescribesStill(owners, s, u, Situation(plan, line.sent), arrivals);
    t, arrived := AttemptsSim(plan, owners, accept, u, line, arrivals, s.calls, p, MAX_RETRIES + 1);
    LeadsOn(s, u, t);
  }

  lemma Appended(calls: seq<Call>, c: Call)
    ensures Extends(calls, calls + [c])
  {
  }

  // ---- A call of receive ----

  /** What a receive adds to what has been handed over. */
  predicate Adds(before: seq<Item>, after: seq<Item>, r: Received) {
    if r.ok then |after| == |before| + 1 && after[..|before|] == before &&
                 after[|before|].Got? && after[|before|].frame.payload == r.payload
    else after == before
  }

  /** A data frame that fits is handed over. */
  predicate HandedTo(before: seq<Item>, after: seq<Item>, v: Verdict, room: nat) {
    if IsDataFrame(v) && |v.frame.payload| <= room
    then
      && |after| == |before| + 1 && after[..|before|] == before
      && after[|before|].Got? && after[|before|].frame == v.frame
    else after == before
  }

  predicate KeepsCalls(s: State, t: State) {
    t.phase == s.phase && t.calls == s.calls && t.number == s.number && t.k == s.k
  }

  lemma UnreadLeaves(i: Item)
    requires Starts(BodyOf(i))
    ensures var left := Left(BodyOf(i), FRAME_CHUNK);
            if left.None? then Unread(i) == [] else |Unread(i)| == 1 && BodyOf(Unread(i)[0]) == left.value
  {
    hide Starts, Left;
  }

  lemma NoiseIsNoData(calls: seq<Call>, i: Item)
    requires Known(calls, i) && OnTheWayBack(i) && Starts(BodyOf(i))
    requires IsDataFrame(Inspect(Caught(BodyOf(i), FRAME_CHUNK)))
    ensures i.Echo? || i.Ack?
  {
    hide Starts, Inspect, Caught, AfterWaits, EchoBody, AckBody;
    if i.Other? {
      NoiseUnread(i.body);
    }
  }

  /** The control frame with which a receive answers. */
  function ReplyFrame(v: Verdict): Option<seq<byte>> {
    match v
    case Malformed => None
    case Corrupt(number) => Some(Wire(Control(NACK, number)))
    case Good(f) => if f.kind == DATA then Some(Wire(Control(ACK, f.number))) else None
  }

  lemma ReplyRefused(v: Verdict)
    ensures ReplyFrame(v).Some? ==> Refused(ReplyFrame(v).value)
    ensures ReplyFrame(v).Some? <==> v.Corrupt? || IsDataFrame(v)
  {
    hide Refused, Wire;
    if v.Corrupt? {
      ControlRefused(NACK, v.number);
    } else if v.Good? {
      ControlRefused(ACK, v.frame.number);
    }
  }

  lemma AnswerIs(env: Env, line: Line, v: Verdict, room: nat)
    ensures var r := Answer(env, line, v, room);
            && r.line == (if ReplyFrame(v).Some? then Link.Transmit(env, line, ReplyFrame(v).value).line else line)
            && (r.ok <==> IsDataFrame(v) && |v.frame.payload| <= room) && (r.ok ==> r.payload == v.frame.payload)
  {
    hide Wire, Link.Transmit;
  }

  /** The move of a receive that reads something, before its answer is sent. */
  lemma ReceiveMove(plan: Plan, owners: Owners, s: State, line: Line, arrivals: seq<Arrival>, room: nat)
    returns (u: State)
    requires Related(plan, owners, s, line, arrivals) && s.phase == Idle
    requires arrivals != [] && arrivals[0].Some? && Starts(arrivals[0].value)
    ensures Leads(s, u) && Reachable(u) && u.budget == s.budget && KeepsCalls(s, u)
    ensures var v := Inspect(Caught(arrivals[0].value, FRAME_CHUNK));
            && u.forward == s.forward + (if v.Corrupt? || IsDataFrame(v) then [Other([])] else [])
            && HandedTo(s.received, u.received, v, room)
    ensures Describes(owners, u.(forward := s.forward), Situation(plan, line.sent), Rest(arrivals, FRAME_CHUNK))
  {
    hide Reachable, Leads, UpMatches, BackMatches, HeardMatches, Inspect, Collect, EventsOf, Starts, Caught, Left,
      Known, BodyOf, Unread, HandedOver, Answered, Somes, IsDataFrame, Situation;
    var net := Situation(plan, line.sent);
    ArrivedHead(owners, s, net, arrivals);
    LeadsBy(s, Receive(room));
    u := Moved(s, Receive(room));
    LeadsReachable(s, u);
    UnreadLeaves(s.reverse[0]);
    RestDescribed(s.reverse[1..], net, arrivals, FRAME_CHUNK, Unread(s.reverse[0]));
    HandsOver(s, room);
  }

  lemma ReadReceive(plan: Plan, owners: Owners, accept: Acceptance, s: State, line: Line, arrivals: seq<Arrival>,
                    room: nat)
    returns (t: State, arrived: seq<Arrival>)
    requires Related(plan, owners, s, line, arrivals) && s.phase == Idle
    requires arrivals != [] && arrivals[0].Some? && Starts(arrivals[0].value)
    ensures var r := ReceiveOutcome(Lossy(plan, accept), line, room);
            && Leads(s, t) && Related(plan, Extended(owners, |r.line.sent|, None), t, r.line, arrived)
            && KeepsCalls(s, t) && Adds(s.received, t.received, r) && |r.line.sent| >= |line.sent|
  {
    hide Reachable, Leads, Describes, Inspect, Collect, EventsOf, Starts, Caught, Left, Known, ReplyFrame, Answer,
      Lossy, Link.Transmit, Refused, Somes, IsDataFrame, Extended, Situation;
    ArrivedNoZero(plan, owners, s, line, arrivals);
    ReadsFirst(arrivals, FRAME_CHUNK);
    var left, v := Rest(arrivals, FRAME_CHUNK), Inspect(Caught(arrivals[0].value, FRAME_CHUNK));
    var line' := line.(rx := EventsOf(left));
    var u := ReceiveMove(plan, owners, s, line, arrivals, room);
    ReplyRefused(v);
    AnswerIs(Lossy(plan, accept), line', v, room);
    if ReplyFrame(v).Some? {
      var wire := ReplyFrame(v).value;
      TransmitOn(plan, accept, line', wire);
      assert Without(u, |s.forward|) == u.(forward := s.forward);
      t, arrived := CarrySim(plan, owners, accept, None, u, [Other([])], line', left, wire);
      LeadsOn(s, u, t);
      ExtendedTwice(owners, |owners| + 1, None);
    } else {
      assert u.forward == s.forward && u.(forward := s.forward) == u;
      t, arrived := u, left;
      ExtendedTwice(owners, |owners|, None);
    }
  }

  lemma ArrivedNoZero(plan: Plan, owners: Owners, s: State, line: Line, arrivals: seq<Arrival>)
    requires Related(plan, owners, s, line, arrivals) && arrivals != [] && arrivals[0].Some?
    ensures NoZero(arrivals[0].value)
  {
    hide Reachable, Describes, Situation, EventsOf;
    ArrivedHead(owners, s, Situation(plan, line.sent), arrivals);
  }

  /** The moves of a receive hand over and answer what the bytes say. */
  lemma HandsOver(s: State, room: nat)
    requires Enabled(s, Receive(room)) && Known(s.calls, s.reverse[0]) && OnTheWayBack(s.reverse[0])
    ensures var v, t := Inspect(Caught(BodyOf(s.reverse[0]), FRAME_CHUNK)), ReceivedOne(s, room);
            && t.forward == s.forward + (if v.Corrupt? || IsDataFrame(v) then [Other([])] else [])
            && HandedTo(s.received, t.received, v, room)
  {
    hide Starts, Inspect, Caught, Known, Unread, BodyOf;
    var h := s.reverse[0];
    var v := Inspect(Caught(BodyOf(h), FRAME_CHUNK));
    if IsDataFrame(v) {
      NoiseIsNoData(s.calls, h);
    }
  }

  lemma SilentReceive(plan: Plan, owners: Owners, accept: Acceptance, s: State, line: Line, arrivals: seq<Arrival>,
                      room: nat)
    returns (arrived: seq<Arrival>)
    requires Related(plan, owners, s, line, arrivals) && (arrivals == [] || arrivals[0].None?)
    ensures ReceiveOutcome(Lossy(plan, accept), line, room) == Received(false, [], line.(rx := EventsOf(arrived)))
    ensures Related(plan, owners, s, line.(rx := EventsOf(arrived)), arrived)
  {
    hide Reachable, UpMatches, BackMatches, HeardMatches, Inspect, Answer;
    arrived := if arrivals == [] then [] else arrivals[1..];
    if arrivals != [] {
      EventsOfHead(arrivals);
      SomesHead(arrivals);
    }
  }

  lemma ReceiveDepends(env: Env, line: Line, line': Line, room: nat)
    requires line'.sent == line.sent
    requires Collect(line'.rx, false, [], FRAME_CHUNK) == Collect(line.rx, false, [], FRAME_CHUNK)
    ensures ReceiveOutcome(env, line', room) == ReceiveOutcome(env, line, room)
  {
    hide Collect, Inspect, Answer;
  }

  /** A call of receive between calls from a related state ends in one, reached by moves. */
  lemma {:induction false} ReceiveSim(plan: Plan, owners: Owners, accept: Acceptance, s: State, line: Line,
                                     arrivals: seq<Arrival>, room: nat)
    returns (t: State, arrived: seq<Arrival>)
    requires Related(plan, owners, s, line, arrivals) && s.phase == Idle
    ensures var r := ReceiveOutcome(Lossy(plan, accept), line, room);
            && Leads(s, t) && Related(plan, Extended(owners, |r.line.sent|, None), t, r.line, arrived)
            && KeepsCalls(s, t) && Adds(s.received, t.received, r) && |r.line.sent| >= |line.sent|
    decreases arrivals
  {
    hide Related, Leads, Collect, EventsOf, Starts, ReceiveOutcome, Lossy, Extended;
    RelatedSize(plan, owners, s, line, arrivals);
    if arrivals == [] || arrivals[0].None? {
      arrived := SilentReceive(plan, owners, accept, s, line, arrivals, room);
      LeadsNowhere(s);
      t := s;
      ExtendedTwice(owners, |owners|, None);
    } else if Starts(arrivals[0].value) {
      t, arrived := ReadReceive(plan, owners, accept, s, line, arrivals, room);
    } else {
      var u := SkippedSim(plan, owners, s, line, arrivals);
      var line' := line.(rx := EventsOf(arrivals[1..]));
      t, arrived := ReceiveSim(plan, owners, accept, u, line', arrivals[1..], room);
      LeadsOn(s, u, t);
      ReceiveDepends(Lossy(plan, accept), line, line', room);
    }
  }
}
