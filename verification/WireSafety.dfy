/** What is proved of every run of the stop-and-wait system, in bytes: for every list of calls of the driver, and
    whatever a lossy network does between them. */
module WireSafety {
  import opened Bytes
  import opened DriverSimulation
  import opened Frames
  import opened Link
  import opened Network
  import opened Rs485Protocol
  import opened Segments
  import opened Simulation
  import opened StopAndWait
  import opened StopAndWaitRuns
  import opened StopAndWaitTheorems
  import opened Wrappers

  datatype Op = Sends(payload: seq<byte>) | Receives(room: nat)

  /** What the caller has seen, where the driver and the line are, and for which call each transmission was made. */
  datatype Trace = Trace(log: seq<Entry>, received: seq<seq<byte>>, number: byte, line: Line, owners: Owners)

  /** One call. A payload that is too long is refused at once. */
  ghost function Performed(env: Env, t: Trace, op: Op): Trace {
    match op
    case Sends(p) =>
      if |p| > MAX_PAYLOAD then t
      else
        var r := SendOutcome(env, t.line, p, t.number);
        Trace(t.log + [Entry(p, r.ok)], t.received, if r.ok then t.number + 1 else t.number, r.line,
              Extended(t.owners, |r.line.sent|, Some(|t.log|)))
    case Receives(room) =>
      var r := ReceiveOutcome(env, t.line, room);
      Trace(t.log, t.received + (if r.ok then [r.payload] else []), t.number, r.line,
            Extended(t.owners, |r.line.sent|, None))
  }

  /** The calls of a fresh driver one after another. */
  ghost function Operated(env: Env, ops: seq<Op>): Trace {
    if ops == [] then Trace([], [], 0, Line([], []), [])
    else Performed(env, Operated(env, ops[..|ops| - 1]), ops[|ops| - 1])
  }

  ghost function FreshDriver(plan: Plan, accept: Acceptance, ops: seq<Op>): Trace {
    Operated(Lossy(plan, accept), ops)
  }

  ghost function HeardBy(plan: Plan, t: Trace): seq<Hearing> {
    Situation(plan, t.line.sent).heard
  }

  /** The payloads of the frames handed over. */
  function HandedBytes(received: seq<Item>): (ps: seq<seq<byte>>)
    ensures |ps| == |received|
  {
    seq(|received|, i requires 0 <= i < |received| => if received[i].Got? then received[i].frame.payload else [])
  }

  lemma HandedMore(before: seq<Item>, after: seq<Item>, r: Received)
    requires Adds(before, after, r)
    ensures HandedBytes(after) == HandedBytes(before) + if r.ok then [r.payload] else []
  {
    if r.ok {
      assert forall i | 0 <= i < |before| :: after[i] == after[..|before|][i];
    }
  }

  /** The state of the system describes what the driver and the network have come to. */
  ghost predicate Follows(plan: Plan, t: Trace, s: State, arrived: seq<Arrival>) {
    && Related(plan, t.owners, s, t.line, arrived) && s.phase == Idle && s.number == t.number
    && Log(s.calls) == t.log && HandedBytes(s.received) == t.received
  }

  lemma PerformedSim(plan: Plan, accept: Acceptance, t: Trace, s: State, arrived: seq<Arrival>, op: Op)
    returns (s': State, arrived': seq<Arrival>)
    requires Follows(plan, t, s, arrived)
    ensures Follows(plan, Performed(Lossy(plan, accept), t, op), s', arrived')
  {
    hide Related, Leads, Lossy, SendOutcome, ReceiveOutcome, Log, HandedBytes, Adds, Extended;
    s', arrived' := s, arrived;
    match op {
      case Sends(p) =>
        if |p| <= MAX_PAYLOAD {
          assert |Log(s.calls)| == |s.calls|;
          s', arrived' := SendSim(plan, t.owners, accept, s, t.line, arrived, p);
        }
      case Receives(room) =>
        s', arrived' := ReceiveSim(plan, t.owners, accept, s, t.line, arrived, room);
        HandedMore(s.received, s'.received, ReceiveOutcome(Lossy(plan, accept), t.line, room));
    }
  }

  lemma InitFollowed(plan: Plan)
    ensures Follows(plan, Trace([], [], 0, Line([], []), []), Init(MAX_RETRIES + 1), [])
  {
    hide Reachable;
    InitReachable(MAX_RETRIES + 1);
  }

  /** Whatever a fresh driver is asked to do and whatever the network does, the outcome is that of a reachable state. */
  lemma {:induction false} EveryTraceReachable(plan: Plan, accept: Acceptance, ops: seq<Op>)
    returns (s: State, arrived: seq<Arrival>)
    ensures Follows(plan, FreshDriver(plan, accept, ops), s, arrived)
    decreases ops
  {
    hide Follows, Lossy, Performed;
    if ops == [] {
      InitFollowed(plan);
      s, arrived := Init(MAX_RETRIES + 1), [];
    } else {
      var before := ops[..|ops| - 1];
      var u, arrivals := EveryTraceReachable(plan, accept, before);
      s, arrived := PerformedSim(plan, accept, FreshDriver(plan, accept, before), u, arrivals, ops[|ops| - 1]);
    }
  }

  lemma FollowsIs(plan: Plan, t: Trace, s: State, arrived: seq<Arrival>)
    requires Follows(plan, t, s, arrived)
    ensures Reachable(s) && s.budget == MAX_RETRIES + 1 && s.number == t.number
    ensures Log(s.calls) == t.log && HandedBytes(s.received) == t.received && |t.owners| == |t.line.sent|
    ensures HeardMatches(t.owners, s.calls, s.delivered, HeardBy(plan, t))
  {
    hide Reachable, HeardMatches, UpMatches, BackMatches, Situation, Log, HandedBytes;
  }

  // ---- What callers may conclude ----

  /** The frame of call d of a log. */
  function FrameOfEntry(log: seq<Entry>, d: nat): Frame
    requires d < |log|
  {
    Frame(DATA, Nth(Number(log, d)), log[d].payload)
  }

  /** The peer has heard a transmission made for call c. */
  ghost predicate HeardFrom(owners: Owners, heard: seq<Hearing>, c: nat) {
    exists h :: h in heard && Owned(owners, h.from, c)
  }

  /** A delivered item is the frame of its call. */
  lemma DeliveredAsLogged(s: State, d: Item)
    requires Reachable(s) && d in s.delivered
    ensures d.Data? && d.call < |s.calls|
    ensures Frame(DATA, d.number, s.calls[d.call].payload) == FrameOfEntry(Log(s.calls), d.call)
    ensures d.k == s.calls[d.call].k == Number(Log(s.calls), d.call)
  {
    hide Reachable, Has, Clear, Count, Log, Number;
    InOrderAtLeastOnce(s);
    CallsAsLogged(s);
    LoggedAt(s.calls, d.call);
  }

  lemma HeardIfDelivered(owners: Owners, s: State, heard: seq<Hearing>, d: Item)
    requires HeardMatches(owners, s.calls, s.delivered, heard) && d in s.delivered
    ensures d.Data? && HeardFrom(owners, heard, d.call)
  {
    var i :| 0 <= i < |s.delivered| && s.delivered[i] == d;
    assert HearsOf(owners, s.calls, s.delivered[i], heard[i]);
    assert heard[i] in heard;
  }

  /** Everything the peer hears is the frame of the call it was transmitted for, under the number it was submitted
      under, and it hears them in the order of their numbers. */
  lemma HeardIsGenuine(plan: Plan, accept: Acceptance, ops: seq<Op>, i: nat) returns (d: nat)
    requires i < |HeardBy(plan, FreshDriver(plan, accept, ops))|
    ensures var t := FreshDriver(plan, accept, ops);
            && d < |t.log| && Owned(t.owners, HeardBy(plan, t)[i].from, d)
            && HeardBy(plan, t)[i].frame == FrameOfEntry(t.log, d)
  {
    hide Reachable, FreshDriver, HeardBy, Log, FrameOfEntry, HandedBytes, Follows;
    var s, arrived := EveryTraceReachable(plan, accept, ops);
    var t := FreshDriver(plan, accept, ops);
    FollowsIs(plan, t, s, arrived);
    var x := s.delivered[i];
    assert HearsOf(t.owners, s.calls, x, HeardBy(plan, t)[i]);
    DeliveredAsLogged(s, x);
    d := x.call;
  }

  lemma HeardInOrder(plan: Plan, accept: Acceptance, ops: seq<Op>, i: nat, j: nat, c: nat, d: nat)
    requires var t := FreshDriver(plan, accept, ops);
             && i <= j < |HeardBy(plan, t)| && c < |t.log| && d < |t.log|
             && Owned(t.owners, HeardBy(plan, t)[i].from, c) && Owned(t.owners, HeardBy(plan, t)[j].from, d)
    ensures var log := FreshDriver(plan, accept, ops).log; Number(log, c) <= Number(log, d)
  {
    hide Reachable, FreshDriver, HeardBy, Log, HandedBytes, Follows, Has, Clear, Count, Number;
    var s, arrived := EveryTraceReachable(plan, accept, ops);
    var t := FreshDriver(plan, accept, ops);
    FollowsIs(plan, t, s, arrived);
    var x, y := s.delivered[i], s.delivered[j];
    assert HearsOf(t.owners, s.calls, x, HeardBy(plan, t)[i]) && HearsOf(t.owners, s.calls, y, HeardBy(plan, t)[j]);
    DeliveredAsLogged(s, x);
    DeliveredAsLogged(s, y);
    InOrderAtLeastOnce(s);
  }

  /** How often the peer has heard call c. */
  function Copies(owners: Owners, heard: seq<Hearing>, c: nat): nat {
    if heard == [] then 0 else (if Owned(owners, heard[0].from, c) then 1 else 0) + Copies(owners, heard[1..], c)
  }

  lemma {:induction false} CopiesAreCounted(owners: Owners, calls: seq<Call>, delivered: seq<Item>, heard: seq<Hearing>,
                                           c: nat)
    requires HeardMatches(owners, calls, delivered, heard)
    ensures Copies(owners, heard, c) == Count(delivered, c)
    decreases heard
  {
    if heard != [] {
      assert HearsOf(owners, calls, delivered[0], heard[0]);
      forall i | 0 <= i < |heard| - 1
        ensures HearsOf(owners, calls, delivered[1..][i], heard[1..][i])
      {
        assert HearsOf(owners, calls, delivered[i + 1], heard[i + 1]);
      }
      CopiesAreCounted(owners, calls, delivered[1..], heard[1..], c);
    }
  }

  /** No call is heard more than four times. */
  lemma FourCopiesAtMost(plan: Plan, accept: Acceptance, ops: seq<Op>, c: nat)
    requires c < |FreshDriver(plan, accept, ops).log|
    ensures var t := FreshDriver(plan, accept, ops); Copies(t.owners, HeardBy(plan, t), c) <= 4
  {
    hide Reachable, FreshDriver, HeardBy, Log, HandedBytes, Follows, Has, Clear, Count, Ordered, Copies, HeardMatches;
    var s, arrived := EveryTraceReachable(plan, accept, ops);
    var t := FreshDriver(plan, accept, ops);
    FollowsIs(plan, t, s, arrived);
    CopiesAreCounted(t.owners, s.calls, s.delivered, HeardBy(plan, t), c);
    InOrderAtLeastOnce(s);
    assert s.calls[c].attempts <= s.budget;
  }

  /** Behind a call that returns success, if no echo can mislead a later call, the peer has heard a payload submitted
      under its number, by this call or by one before it that failed. */
  lemma NumberIsHeard(plan: Plan, accept: Acceptance, ops: seq<Op>, c: nat) returns (d: nat)
    requires var log := FreshDriver(plan, accept, ops).log;
             c < |log| && log[c].ok && SoundTails(log, MAX_RETRIES + 1)
    ensures var t := FreshDriver(plan, accept, ops);
            && d <= c && Number(t.log, d) == Number(t.log, c) && (d < c ==> !t.log[d].ok)
            && HeardFrom(t.owners, HeardBy(plan, t), d)
  {
    hide Reachable, FreshDriver, HeardBy, Log, HandedBytes, SoundTails, HeardMatches, Number, Clear, Follows,
      HeardFrom;
    var s, arrived := EveryTraceReachable(plan, accept, ops);
    var t := FreshDriver(plan, accept, ops);
    FollowsIs(plan, t, s, arrived);
    ClearAsLogged(s);
    LoggedAt(s.calls, c);
    var x := SuccessMeansDelivered(s, c);
    HeardIfDelivered(t.owners, s, HeardBy(plan, t), x);
    CallsAsLogged(s);
    d := x.call;
    LoggedAt(s.calls, d);
  }

  /** If the caller also repeats a payload until it succeeds, that very payload has been heard. */
  lemma SuccessIsHeard(plan: Plan, accept: Acceptance, ops: seq<Op>, c: nat) returns (d: nat)
    requires var log := FreshDriver(plan, accept, ops).log;
             c < |log| && log[c].ok && SoundTails(log, MAX_RETRIES + 1) && Repeats(log)
    ensures var t := FreshDriver(plan, accept, ops);
            && d <= c && FrameOfEntry(t.log, d) == FrameOfEntry(t.log, c)
            && Number(t.log, d) == Number(t.log, c) && HeardFrom(t.owners, HeardBy(plan, t), d)
  {
    hide FreshDriver, HeardBy, SoundTails, Number, HeardFrom;
    d := NumberIsHeard(plan, accept, ops, c);
  }

  /** Every payload handed over was heard by the peer, from a call that submitted it, if no echo leaks. */
  lemma ReceivedIsHeard(plan: Plan, accept: Acceptance, ops: seq<Op>, p: seq<byte>) returns (d: nat)
    requires p in FreshDriver(plan, accept, ops).received
    requires var log := FreshDriver(plan, accept, ops).log;
             forall i {:trigger log[i]} | 0 <= i < |log| :: !Leaks(EchoBody(Nth(Number(log, i)), log[i].payload))
    ensures var t := FreshDriver(plan, accept, ops);
            d < |t.log| && t.log[d].payload == p && HeardFrom(t.owners, HeardBy(plan, t), d)
  {
    hide Reachable, FreshDriver, HeardBy, Log, HeardMatches, EchoBody, Leaks, Nth, Follows, HeardFrom;
    var s, arrived := EveryTraceReachable(plan, accept, ops);
    var t := FreshDriver(plan, accept, ops);
    FollowsIs(plan, t, s, arrived);
    var ps := HandedBytes(s.received);
    var i :| 0 <= i < |ps| && ps[i] == p;
    var got := s.received[i];
    EchoesAreDelivered(s);
    assert got in s.received;
    d := got.call;
    LoggedAt(s.calls, d);
    var x := Data(Nth(got.k), got.k, d);
    DeliveredAsLogged(s, x);
    HeardIfDelivered(t.owners, s, HeardBy(plan, t), x);
  }

  /** No payload sent has more than n bytes. */
  predicate AtMost(ops: seq<Op>, n: nat) {
    forall op | op in ops :: op.Sends? ==> |op.payload| <= n
  }

  lemma {:induction false} LoggedAtMost(env: Env, ops: seq<Op>, n: nat)
    requires AtMost(ops, n)
    ensures forall e | e in Operated(env, ops).log :: |e.payload| <= n && |e.payload| <= MAX_PAYLOAD
    decreases ops
  {
    hide SendOutcome, ReceiveOutcome, Extended;
    if ops != [] {
      LoggedAtMost(env, ops[..|ops| - 1], n);
      assert ops[|ops| - 1] in ops;
    }
  }

  /** With payloads of at most ten bytes, as the application's, no echo misleads and none leaks, so that all of the
      above holds on every network. */
  lemma ShortPayloadsAreSafe(plan: Plan, accept: Acceptance, ops: seq<Op>)
    requires AtMost(ops, 10)
    ensures var log := FreshDriver(plan, accept, ops).log;
            && SoundTails(log, MAX_RETRIES + 1)
            && forall i {:trigger log[i]} | 0 <= i < |log| :: !Leaks(EchoBody(Nth(Number(log, i)), log[i].payload))
  {
    hide Operated, Lossy, SoundTails, Leaks, Nth, Number, Tail, AcksWithin, FrameBody;
    LoggedAtMost(Lossy(plan, accept), ops, 10);
    var log := FreshDriver(plan, accept, ops).log;
    assert forall d | 0 <= d < |log| :: log[d] in log;
    CheckedBeforeSending(log, MAX_RETRIES + 1);
    forall i | 0 <= i < |log|
      ensures !Leaks(EchoBody(Nth(Number(log, i)), log[i].payload))
    {
      ShortOrStartFree(Frame(DATA, Nth(Number(log, i)), log[i].payload), 0, 0);
    }
  }
}
