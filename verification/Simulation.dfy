/** The driver's byte-level functions on a lossy network follow the moves of the stop-and-wait system. */
module Simulation {
  import opened Bytes
  import opened Cobs
  import opened Frames
  import opened Link
  import opened Network
  import opened Rs485Protocol
  import opened Segments
  import opened StopAndWait
  import opened StopAndWaitLimits
  import opened StopAndWaitSafety
  import opened Wrappers

  // ---- Runs from one state to another ----

  ghost predicate Leads(s: State, t: State) {
    exists run :: Exec(s, run) == Some(t)
  }

  lemma LeadsBy(s: State, m: Move)
    requires Enabled(s, m)
    ensures Leads(s, Moved(s, m))
  {
    hide Enabled, Moved;
    assert [m][1..] == [];
    assert Exec(s, [m]) == Some(Moved(s, m));
  }

  lemma {:induction false} ExecConcat(s: State, a: seq<Move>, b: seq<Move>, t: State)
    requires Exec(s, a) == Some(t)
    ensures Exec(s, a + b) == Exec(t, b)
    decreases a
  {
    hide Enabled, Moved;
    if a == [] {
      assert a + b == b;
    } else {
      assert (a + b)[1..] == a[1..] + b;
      ExecConcat(Moved(s, a[0]), a[1..], b, t);
    }
  }

  lemma LeadsOn(s: State, t: State, u: State)
    requires Leads(s, t) && Leads(t, u)
    ensures Leads(s, u)
  {
    hide Exec;
    var a :| Exec(s, a) == Some(t);
    var b :| Exec(t, b) == Some(u);
    ExecConcat(s, a, b, t);
    assert Exec(s, a + b) == Some(u);
  }

  lemma LeadsNowhere(s: State)
    ensures Leads(s, s)
  {
    assert Exec(s, []) == Some(s);
  }

  lemma LeadsReachable(s: State, t: State)
    requires Reachable(s) && Leads(s, t)
    ensures Reachable(t) && t.budget == s.budget
  {
    hide Exec, Inv;
    var a :| Exec(Init(s.budget), a) == Some(s);
    var b :| Exec(s, b) == Some(t);
    ExecConcat(Init(s.budget), a, b, s);
    ReachableInv(s);
    RunKeeps(s, b);
    assert Exec(Init(t.budget), a + b) == Some(t);
  }

  // ---- The relation ----

  /** The calls that the transmissions were made for. */
  type Owners = seq<Option<nat>>

  predicate Owned(owners: Owners, n: nat, c: nat) {
    n < |owners| && owners[n] == Some(c)
  }

  ghost predicate Carries(owners: Owners, calls: seq<Call>, x: Item, u: Up) {
    if x.Data? then
      && x.call < |calls| && u.wire == Wire(Frame(DATA, x.number, calls[x.call].payload))
      && u.from.Some? && Owned(owners, u.from.value, x.call)
    else x.Other? && Refused(u.wire)
  }

  ghost predicate UpMatches(owners: Owners, calls: seq<Call>, q: seq<Item>, up: seq<Up>) {
    |q| == |up| && forall i {:trigger q[i]} {:trigger up[i]} | 0 <= i < |q| :: Carries(owners, calls, q[i], up[i])
  }

  predicate BackMatches(q: seq<Item>, bodies: seq<seq<byte>>) {
    |q| == |bodies| && forall i {:trigger q[i]} {:trigger bodies[i]} | 0 <= i < |q| :: BodyOf(q[i]) == bodies[i]
  }

  predicate HearsOf(owners: Owners, calls: seq<Call>, d: Item, h: Hearing) {
    && d.Data? && d.call < |calls| && h.frame == Frame(DATA, d.number, calls[d.call].payload)
    && Owned(owners, h.from, d.call)
  }

  predicate HeardMatches(owners: Owners, calls: seq<Call>, delivered: seq<Item>, heard: seq<Hearing>) {
    |delivered| == |heard| &&
    forall i {:trigger delivered[i]} {:trigger heard[i]} | 0 <= i < |heard| ::
      HearsOf(owners, calls, delivered[i], heard[i])
  }

  /** The state describes the network and what has arrived from it: on the way back are the bodies that have arrived
      and then those still under way. */
  ghost predicate Describes(owners: Owners, s: State, net: Net, arrivals: seq<Arrival>) {
    && UpMatches(owners, s.calls, s.forward, net.up)
    && BackMatches(s.reverse, Somes(arrivals) + net.back)
    && HeardMatches(owners, s.calls, s.delivered, net.heard)
  }

  ghost predicate Related(plan: Plan, owners: Owners, s: State, line: Line, arrivals: seq<Arrival>) {
    && Reachable(s) && s.budget == MAX_RETRIES + 1
    && |owners| == |line.sent| && line.rx == EventsOf(arrivals)
    && Describes(owners, s, Situation(plan, line.sent), arrivals)
  }

  /** The driver and what it knows are the same. */
  predicate SameDriver(s: State, t: State) {
    && t.budget == s.budget && t.phase == s.phase && t.k == s.k && t.number == s.number && t.waits == s.waits
    && t.calls == s.calls && t.received == s.received
  }

  // ---- What happens on the network ----

  lemma UpWithout(owners: Owners, calls: seq<Call>, q: seq<Item>, up: seq<Up>, i: nat)
    requires UpMatches(owners, calls, q, up) && i < |up|
    ensures UpMatches(owners, calls, q[..i] + q[i + 1..], up[..i] + up[i + 1..])
  {
    hide Carries;
    var q', up' := q[..i] + q[i + 1..], up[..i] + up[i + 1..];
    forall j | 0 <= j < |q'|
      ensures Carries(owners, calls, q'[j], up'[j])
    {
      var m := if j < i then j else j + 1;
      assert q'[j] == q[m] && up'[j] == up[m];
    }
  }

  lemma UpWith(owners: Owners, calls: seq<Call>, q: seq<Item>, up: seq<Up>, i: nat, x: Item, u: Up)
    requires UpMatches(owners, calls, q, up) && i <= |up| && Carries(owners, calls, x, u)
    ensures UpMatches(owners, calls, q[..i] + [x] + q[i..], up[..i] + [u] + up[i..])
  {
    hide Carries;
    var q', up' := q[..i] + [x] + q[i..], up[..i] + [u] + up[i..];
    forall j | 0 <= j < |q'|
      ensures Carries(owners, calls, q'[j], up'[j])
    {
      if j != i {
        var m := if j < i then j else j - 1;
        assert q'[j] == q[m] && up'[j] == up[m];
      }
    }
  }

  lemma BackWithout(q: seq<Item>, bodies: seq<seq<byte>>, i: nat)
    requires BackMatches(q, bodies) && i < |bodies|
    ensures BackMatches(q[..i] + q[i + 1..], bodies[..i] + bodies[i + 1..])
  {
    hide BodyOf;
    var q', bodies' := q[..i] + q[i + 1..], bodies[..i] + bodies[i + 1..];
    forall j | 0 <= j < |q'|
      ensures BodyOf(q'[j]) == bodies'[j]
    {
      var m := if j < i then j else j + 1;
      assert q'[j] == q[m] && bodies'[j] == bodies[m];
    }
  }

  lemma OtherBody(b: seq<byte>)
    ensures BodyOf(Other(b)) == b
  {
  }

  lemma BackWith(q: seq<Item>, bodies: seq<seq<byte>>, i: nat, b: seq<byte>)
    requires BackMatches(q, bodies) && i <= |bodies|
    ensures BackMatches(q[..i] + [Other(b)] + q[i..], bodies[..i] + [b] + bodies[i..])
  {
    OtherBody(b);
    hide BodyOf;
    var q', bodies' := q[..i] + [Other(b)] + q[i..], bodies[..i] + [b] + bodies[i..];
    forall j | 0 <= j < |q'|
      ensures BodyOf(q'[j]) == bodies'[j]
    {
      if j != i {
        var m := if j < i then j else j - 1;
        assert q'[j] == q[m] && bodies'[j] == bodies[m];
      }
    }
  }

  lemma LoseUpSim(owners: Owners, s: State, net: Net, arrivals: seq<Arrival>, i: nat) returns (t: State)
    requires Describes(owners, s, net, arrivals) && i < |net.up|
    ensures Leads(s, t) && SameDriver(s, t) && Describes(owners, t, net.(up := net.up[..i] + net.up[i + 1..]), arrivals)
  {
    hide Leads, UpMatches, BackMatches, HeardMatches;
    UpLength(owners, s.calls, s.forward, net.up);
    LeadsBy(s, Harm(true, Drop(i)));
    t := Moved(s, Harm(true, Drop(i)));
    UpWithout(owners, s.calls, s.forward, net.up, i);
  }

  lemma UpLength(owners: Owners, calls: seq<Call>, q: seq<Item>, up: seq<Up>)
    requires UpMatches(owners, calls, q, up)
    ensures |q| == |up|
  {
  }

  lemma BackLength(q: seq<Item>, bodies: seq<seq<byte>>)
    requires BackMatches(q, bodies)
    ensures |q| == |bodies|
  {
  }

  lemma NoiseUpSim(owners: Owners, s: State, net: Net, arrivals: seq<Arrival>, i: nat, u: Up) returns (t: State)
    requires Describes(owners, s, net, arrivals) && i <= |net.up| && Refused(u.wire)
    ensures Leads(s, t) && SameDriver(s, t)
    ensures Describes(owners, t, net.(up := net.up[..i] + [u] + net.up[i..]), arrivals)
  {
    hide Leads, UpMatches, BackMatches, HeardMatches, Refused;
    UpLength(owners, s.calls, s.forward, net.up);
    assert Barren([]) by {
      assert !Starts([]);
    }
    LeadsBy(s, Harm(true, Noise(i, [])));
    t := Moved(s, Harm(true, Noise(i, [])));
    UpWith(owners, s.calls, s.forward, net.up, i, Other([]), u);
  }

  lemma LoseBackSim(owners: Owners, s: State, net: Net, arrivals: seq<Arrival>, i: nat) returns (t: State)
    requires Describes(owners, s, net, arrivals) && i < |net.back|
    ensures Leads(s, t) && SameDriver(s, t)
    ensures Describes(owners, t, net.(back := net.back[..i] + net.back[i + 1..]), arrivals)
  {
    hide Leads, UpMatches, BackMatches, HeardMatches;
    var bodies, m := Somes(arrivals) + net.back, |Somes(arrivals)| + i;
    BackLength(s.reverse, bodies);
    LeadsBy(s, Harm(false, Drop(m)));
    t := Moved(s, Harm(false, Drop(m)));
    BackWithout(s.reverse, bodies, m);
    assert bodies[..m] + bodies[m + 1..] == Somes(arrivals) + (net.back[..i] + net.back[i + 1..]);
  }

  lemma NoiseBackSim(owners: Owners, s: State, net: Net, arrivals: seq<Arrival>, i: nat, b: seq<byte>)
    returns (t: State)
    requires Describes(owners, s, net, arrivals) && i <= |net.back| && NoZero(b) && Barren(b)
    ensures Leads(s, t) && SameDriver(s, t)
    ensures Describes(owners, t, net.(back := net.back[..i] + [b] + net.back[i..]), arrivals)
    ensures t.forward == s.forward && t.delivered == s.delivered
  {
    hide Leads, UpMatches, BackMatches, HeardMatches, Barren;
    var bodies, m := Somes(arrivals) + net.back, |Somes(arrivals)| + i;
    BackLength(s.reverse, bodies);
    LeadsBy(s, Harm(false, Noise(m, b)));
    t := Moved(s, Harm(false, Noise(m, b)));
    BackWith(s.reverse, bodies, m, b);
    assert bodies[..m] + [b] + bodies[m..] == Somes(arrivals) + (net.back[..i] + [b] + net.back[i..]);
  }

  /** What the peer says to refuse a wire is noise on the way back. */
  lemma {:induction false} NacksSim(owners: Owners, s: State, net: Net, arrivals: seq<Arrival>, numbers: seq<byte>)
    returns (t: State)
    requires Describes(owners, s, net, arrivals)
    ensures Leads(s, t) && SameDriver(s, t)
    ensures Describes(owners, t, net.(back := net.back + Cut(Nacks(numbers), [])), arrivals)
    decreases numbers
  {
    hide Leads, Describes, Cut, FrameBody, Wire, Barren;
    if numbers == [] {
      CutNothing();
      LeadsNowhere(s);
      t := s;
      assert net.back + [] == net.back && net.(back := net.back) == net;
    } else {
      var b, n := FrameBody(Control(NACK, numbers[0])), |net.back|;
      NackIsNoise(numbers[0]);
      var u := NoiseBackSim(owners, s, net, arrivals, n, b);
      assert net.back[..n] + [b] + net.back[n..] == net.back + [b];
      var next := net.(back := net.back + [b]);
      t := NacksSim(owners, u, next, arrivals, numbers[1..]);
      LeadsOn(s, u, t);
      CutWire(Control(NACK, numbers[0]), Nacks(numbers[1..]));
      assert (net.back + [b]) + Cut(Nacks(numbers[1..]), []) == net.back + Cut(Nacks(numbers), []);
    }
  }

  lemma BackGrows(q: seq<Item>, bodies: seq<seq<byte>>, more: seq<Item>, others: seq<seq<byte>>)
    requires BackMatches(q, bodies) && BackMatches(more, others)
    ensures BackMatches(q + more, bodies + others)
  {
    hide BodyOf;
    forall j | 0 <= j < |q + more|
      ensures BodyOf((q + more)[j]) == (bodies + others)[j]
    {
      if j < |q| {
        assert (q + more)[j] == q[j] && (bodies + others)[j] == bodies[j];
      } else {
        assert (q + more)[j] == more[j - |q|] && (bodies + others)[j] == others[j - |q|];
      }
    }
  }

  lemma UpHead(owners: Owners, calls: seq<Call>, q: seq<Item>, up: seq<Up>)
    requires UpMatches(owners, calls, q, up) && up != []
    ensures q != [] && Carries(owners, calls, q[0], up[0]) && UpMatches(owners, calls, q[1..], up[1..])
  {
    hide Carries;
    UpWithout(owners, calls, q, up, 0);
    assert q[..0] + q[1..] == q[1..] && up[..0] + up[1..] == up[1..];
  }

  lemma HeardGrows(owners: Owners, calls: seq<Call>, delivered: seq<Item>, heard: seq<Hearing>, d: Item, h: Hearing)
    requires HeardMatches(owners, calls, delivered, heard) && HearsOf(owners, calls, d, h)
    ensures HeardMatches(owners, calls, delivered + [d], heard + [h])
  {
    hide HearsOf;
    forall j | 0 <= j < |heard + [h]|
      ensures HearsOf(owners, calls, (delivered + [d])[j], (heard + [h])[j])
    {
      if j < |heard| {
        assert (delivered + [d])[j] == delivered[j] && (heard + [h])[j] == heard[j];
      }
    }
  }

  function PeerAnswers(h: Item, p: seq<byte>): seq<Item>
    requires h.Data?
  {
    [Ack(AckBody(h.number), h.k, h.call), Echo(EchoBody(h.number, p), 0, h.k, h.call)]
  }

  lemma AnswerBodies(h: Item, p: seq<byte>)
    requires h.Data?
    ensures BackMatches(PeerAnswers(h, p), [FrameBody(Control(ACK, h.number)), FrameBody(Frame(DATA, h.number, p))])
  {
    hide FrameBody;
  }

  lemma DeliverIs(s: State)
    requires s.forward != [] && s.forward[0].Data? && s.forward[0].call < |s.calls|
    ensures var h := s.forward[0];
            && Enabled(s, Deliver)
            && Moved(s, Deliver)
            == s.(forward := s.forward[1..], delivered := s.delivered + [h],
                  reverse := s.reverse + PeerAnswers(h, s.calls[h.call].payload))
  {
    hide EchoBody, AckBody;
  }

  /** The peer hears a data frame. */
  lemma HearDataSim(owners: Owners, s: State, net: Net, arrivals: seq<Arrival>) returns (t: State)
    requires Reachable(s) && Describes(owners, s, net, arrivals)
    requires net.up != [] && s.forward != [] && s.forward[0].Data?
    ensures Leads(s, t) && SameDriver(s, t) && Describes(owners, t, Happen(net, Hear).net, arrivals)
  {
    hide Reachable, Leads, UpMatches, BackMatches, HeardMatches, PeerAnswers, FrameBody, Wire, Cut, Said, Brings,
      Moved, Enabled;
    var h, u := s.forward[0], net.up[0];
    UpHead(owners, s.calls, s.forward, net.up);
    var p := s.calls[h.call].payload;
    var f, said := Frame(DATA, h.number, p), Cut(Said(u.wire), []);
    PayloadsFit(s);
    DataHeard(f);
    DeliverIs(s);
    LeadsBy(s, Deliver);
    t := Moved(s, Deliver);
    AnswerBodies(h, p);
    BackGrows(s.reverse, Somes(arrivals) + net.back, PeerAnswers(h, p), said);
    assert Somes(arrivals) + net.back + said == Somes(arrivals) + (net.back + said);
    HeardGrows(owners, s.calls, s.delivered, net.heard, h, Hearing(f, u.from.value));
    assert Happen(net, Hear).net
        == net.(up := net.up[1..], back := net.back + said, heard := net.heard + [Hearing(f, u.from.value)]);
  }

  lemma RefusedSays(wire: seq<byte>) returns (numbers: seq<byte>)
    requires Refused(wire)
    ensures Brings(wire) == [] && Said(wire) == Nacks(numbers)
  {
    hide Said, Nacks, Brings;
    numbers :| Said(wire) == Nacks(numbers);
  }

  lemma HearOtherSim(owners: Owners, s: State, net: Net, arrivals: seq<Arrival>) returns (t: State)
    requires Describes(owners, s, net, arrivals) && net.up != [] && s.forward != [] && !s.forward[0].Data?
    ensures Leads(s, t) && SameDriver(s, t) && Describes(owners, t, Happen(net, Hear).net, arrivals)
  {
    hide Leads, UpMatches, BackMatches, HeardMatches, EchoBody, AckBody, FrameBody, Wire, Cut, Said, Brings, Nacks,
      Refused;
    UpHead(owners, s.calls, s.forward, net.up);
    var numbers := RefusedSays(net.up[0].wire);
    LeadsBy(s, Deliver);
    var u, next := Moved(s, Deliver), net.(up := net.up[1..]);
    assert Describes(owners, u, next, arrivals);
    t := NacksSim(owners, u, next, arrivals, numbers);
    LeadsOn(s, u, t);
    assert net.heard + [] == net.heard;
    assert Happen(net, Hear).net == next.(back := next.back + Cut(Nacks(numbers), []));
  }

  lemma ArriveSim(owners: Owners, s: State, net: Net, arrivals: seq<Arrival>)
    requires Describes(owners, s, net, arrivals) && net.back != []
    ensures Describes(owners, s, net.(back := net.back[1..]), arrivals + [Some(net.back[0])])
    ensures Describes(owners, s, net, arrivals + [None])
  {
    hide UpMatches, BackMatches, HeardMatches;
    SomesConcat(arrivals, [Some(net.back[0])]);
    SomesOne(net.back[0]);
    assert Somes(arrivals) + [net.back[0]] + net.back[1..] == Somes(arrivals) + net.back;
    SilenceSim(owners, s, net, arrivals);
  }

  lemma SomesOne(b: seq<byte>)
    ensures Somes([Some(b)]) == [b] && Somes([None]) == []
  {
    assert Somes([Some(b)][1..]) == [] && Somes([None][1..]) == [];
  }

  lemma SilenceSim(owners: Owners, s: State, net: Net, arrivals: seq<Arrival>)
    requires Describes(owners, s, net, arrivals)
    ensures Describes(owners, s, net, arrivals + [None])
  {
    hide UpMatches, BackMatches, HeardMatches;
    SomesConcat(arrivals, [None]);
    SomesOne([]);
    assert Somes(arrivals) + [] == Somes(arrivals);
  }

  /** Whatever happens on the network is a sequence of moves of the system. */
  lemma HappenSim(owners: Owners, s: State, net: Net, arrivals: seq<Arrival>, h: Happening) returns (t: State)
    requires Reachable(s) && Describes(owners, s, net, arrivals)
    ensures var turn := Happen(net, h);
            Leads(s, t) && SameDriver(s, t) && Describes(owners, t, turn.net, arrivals + turn.arrivals)
  {
    hide Reachable, Leads, Describes, Refused, Cut, Said, Brings, Barren;
    LeadsNowhere(s);
    assert arrivals + [] == arrivals;
    t := s;
    if Possible(net, h) {
      match h {
        case LoseUp(i) => t := LoseUpSim(owners, s, net, arrivals, i);
        case NoiseUp(i, b) => t := NoiseUpSim(owners, s, net, arrivals, i, Up(b + [0], None));
        case Hear =>
          DescribedHead(owners, s, net, arrivals);
          if s.forward[0].Data? {
            t := HearDataSim(owners, s, net, arrivals);
          } else {
            t := HearOtherSim(owners, s, net, arrivals);
          }
        case LoseBack(i) => t := LoseBackSim(owners, s, net, arrivals, i);
        case NoiseBack(i, b) => t := NoiseBackSim(owners, s, net, arrivals, i, b);
        case Arrive => ArriveSim(owners, s, net, arrivals);
        case Silence => SilenceSim(owners, s, net, arrivals);
      }
    }
  }

  lemma DescribedHead(owners: Owners, s: State, net: Net, arrivals: seq<Arrival>)
    requires Describes(owners, s, net, arrivals) && net.up != []
    ensures s.forward != []
  {
  }

  lemma {:induction false} HappenAllSim(owners: Owners, s: State, net: Net, arrivals: seq<Arrival>, hs: seq<Happening>)
    returns (t: State)
    requires Reachable(s) && Describes(owners, s, net, arrivals)
    ensures var turn := HappenAll(net, hs);
            Leads(s, t) && SameDriver(s, t) && Describes(owners, t, turn.net, arrivals + turn.arrivals)
    decreases hs
  {
    hide Reachable, Leads, Describes, Happen;
    if hs == [] {
      LeadsNowhere(s);
      t := s;
      assert arrivals + [] == arrivals;
    } else {
      var first := Happen(net, hs[0]);
      var u := HappenSim(owners, s, net, arrivals, hs[0]);
      LeadsReachable(s, u);
      t := HappenAllSim(owners, u, first.net, arrivals + first.arrivals, hs[1..]);
      LeadsOn(s, u, t);
      var others := HappenAll(first.net, hs[1..]).arrivals;
      assert (arrivals + first.arrivals) + others == arrivals + (first.arrivals + others);
    }
  }
}
