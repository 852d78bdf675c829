/** The stop-and-wait protocol between the driver and its peer as a transition system. The channels are first-in
    first-out; they may lose any frame and add noise in which no receiver finds a frame, but they do not forge
    or reorder frames. What the driver reads is decided by the bytes on the line: a wait takes at most 16 of
    them, and what it leaves of a longer echo is read next. */
module StopAndWait {
  import opened Bytes
  import opened Cobs
  import opened Frames
  import opened Rs485Protocol
  import opened Segments
  import opened Wrappers

  /** What a channel carries. A frame's 8-bit number is on the wire. Its logical number k and the index of the
      call that submitted it are not: they serve only to state what is true. On the way out there are data
      frames; on the way back acknowledgements and echoes, each with the bytes that are still to be read (looks
      is the number of waits that have read an echo before). Got is a data frame the driver's receiver has
      handed over, and the echo it read it from. Other is anything else: control frames the peer ignores, and
      noise. */
  datatype Item =
    | Data(number: byte, k: nat, call: nat)
    | Ack(body: seq<byte>, k: nat, call: nat)
    | Echo(body: seq<byte>, looks: nat, k: nat, call: nat)
    | Got(frame: Frame, k: nat, call: nat)
    | Other(body: seq<byte>)

  /** A call of send: what it submits, under which logical number, its place among the calls under that number,
      its transmissions and its success. */
  datatype Call = Call(payload: seq<byte>, k: nat, place: nat, attempts: nat, ok: bool)

  /** Between calls, about to transmit or give up, or waiting for an acknowledgement. */
  datatype Phase = Idle | Ready | Waiting

  /** The budget is the number of attempts of a call; waits counts the waits that read something since the last
      success. */
  datatype State = State(
    budget: nat,
    phase: Phase,
    k: nat,
    number: byte,
    waits: nat,
    calls: seq<Call>,
    forward: seq<Item>,
    reverse: seq<Item>,
    delivered: seq<Item>,
    received: seq<Item>)

  datatype Damage = Drop(at: nat) | Noise(at: nat, body: seq<byte>)

  datatype Move =
    | Submit(payload: seq<byte>)
    | Transmit(ok: bool)
    | Take
    | Timeout
    | GiveUp
    | Receive(room: nat)
    | Deliver
    | Harm(up: bool, damage: Damage)

  function Init(budget: nat): State {
    State(budget, Idle, 0, 0, 0, [], [], [], [], [])
  }

  predicate CanHarm(q: seq<Item>, d: Damage) {
    if d.Noise? then d.at <= |q| && NoZero(d.body) && Barren(d.body) else d.at < |q|
  }

  function Harmed(q: seq<Item>, d: Damage): seq<Item>
    requires CanHarm(q, d)
  {
    match d
    case Drop(i) => q[..i] + q[i + 1..]
    case Noise(i, body) => q[..i] + [Other(body)] + q[i..]
  }

  function EchoBody(number: byte, payload: seq<byte>): seq<byte> {
    FrameBody(Frame(DATA, number, payload))
  }

  function AckBody(number: byte): seq<byte> {
    FrameBody(Control(ACK, number))
  }

  /** The bytes of an item on the way back. */
  function BodyOf(i: Item): seq<byte> {
    match i
    case Ack(body, _, _) => body
    case Echo(body, _, _, _) => body
    case Other(body) => body
    case _ => []
  }

  /** The head of the way back has something to read. */
  predicate Readable(s: State) {
    s.reverse != [] && Starts(BodyOf(s.reverse[0]))
  }

  predicate Enabled(s: State, m: Move) {
    match m
    case Submit(p) => s.phase == Idle && |p| <= MAX_PAYLOAD
    case Transmit(_) => s.phase == Ready && s.calls != [] && s.calls[|s.calls| - 1].attempts < s.budget
    case Take => s.phase == Waiting && s.calls != [] && Readable(s)
    case Timeout => s.phase == Waiting
    case GiveUp => s.phase == Ready && s.calls != [] && s.calls[|s.calls| - 1].attempts >= s.budget
    case Receive(_) => s.phase == Idle && Readable(s)
    case Deliver => s.forward != []
    case Harm(up, d) => CanHarm(if up then s.forward else s.reverse, d)
  }

  /** Under which number and at which place among its calls the next call is. */
  function NextK(calls: seq<Call>): nat {
    if calls == [] then 0
    else
      var last := calls[|calls| - 1];
      last.k + if last.ok then 1 else 0
  }

  function NextPlace(calls: seq<Call>): nat {
    if calls == [] then 1
    else
      var last := calls[|calls| - 1];
      if last.ok then 1 else last.place + 1
  }

  /** Sending copies the number into the frame; whether the status is OK decides if a wait follows. A send that fails
      has not written the last byte of its frame, which therefore never arrives. */
  function Sent(s: State, ok: bool): State
    requires Enabled(s, Transmit(ok))
  {
    var c := |s.calls| - 1;
    var call := s.calls[c];
    s.(phase := if ok then Waiting else Ready,
       calls := s.calls[c := call.(attempts := call.attempts + 1)],
       forward := s.forward + if ok then [Data(s.number, call.k, c)] else [])
  }

  /** The head of the way back is an acknowledgement to a wait for this number. */
  predicate Matches(s: State) {
    Readable(s) && IsAck(Inspect(Caught(BodyOf(s.reverse[0]), ACK_CHUNK)), s.number)
  }

  /** What a wait leaves of an item. */
  function Waited(i: Item): seq<Item>
    requires Starts(BodyOf(i))
  {
    match Left(BodyOf(i), ACK_CHUNK)
    case None => []
    case Some(left) =>
      match i
      case Echo(_, looks, k, call) => [Echo(left, looks + 1, k, call)]
      case Ack(_, k, call) => [Ack(left, k, call)]
      case _ => [Other(left)]
  }

  /** A wait compares 8-bit numbers only. */
  function Taken(s: State): State
    requires Enabled(s, Take)
  {
    var c, rest := |s.calls| - 1, Waited(s.reverse[0]) + s.reverse[1..];
    if Matches(s) then
      s.(phase := Idle, k := s.k + 1, number := s.number + 1, waits := 0, reverse := rest,
         calls := s.calls[c := s.calls[c].(ok := true)])
    else
      s.(phase := Ready, waits := s.waits + 1, reverse := rest)
  }

  /** What a receive leaves of an item. */
  function Unread(i: Item): seq<Item>
    requires Starts(BodyOf(i))
  {
    match Left(BodyOf(i), FRAME_CHUNK)
    case None => []
    case Some(left) => [Other(left)]
  }

  /** What a receive hands over. */
  function HandedOver(i: Item, room: nat): seq<Item>
    requires Starts(BodyOf(i))
  {
    var v := Inspect(Caught(BodyOf(i), FRAME_CHUNK));
    if IsDataFrame(v) && |v.frame.payload| <= room && (i.Echo? || i.Ack?) then [Got(v.frame, i.k, i.call)] else []
  }

  /** The driver's receiver answers a data frame with an acknowledgement and a damaged one with a NACK, both of
      which the peer ignores. */
  function Answered(i: Item): seq<Item>
    requires Starts(BodyOf(i))
  {
    var v := Inspect(Caught(BodyOf(i), FRAME_CHUNK));
    if v.Corrupt? || IsDataFrame(v) then [Other([])] else []
  }

  function ReceivedOne(s: State, room: nat): State
    requires Enabled(s, Receive(room))
  {
    var head := s.reverse[0];
    s.(reverse := Unread(head) + s.reverse[1..], received := s.received + HandedOver(head, room),
       forward := s.forward + Answered(head))
  }

  /** The peer delivers a data frame, acknowledges it and echoes it; it removes no duplicates. */
  function Delivered(s: State): State
    requires Enabled(s, Deliver)
  {
    var head := s.forward[0];
    if head.Data? && head.call < |s.calls| then
      s.(forward := s.forward[1..], delivered := s.delivered + [head],
         reverse := s.reverse + [Ack(AckBody(head.number), head.k, head.call),
                                 Echo(EchoBody(head.number, s.calls[head.call].payload), 0, head.k, head.call)])
    else
      s.(forward := s.forward[1..])
  }

  function Moved(s: State, m: Move): State
    requires Enabled(s, m)
  {
    match m
    case Submit(p) => s.(phase := Ready, calls := s.calls + [Call(p, s.k, NextPlace(s.calls), 0, false)])
    case Transmit(ok) => Sent(s, ok)
    case Take => Taken(s)
    case Timeout => s.(phase := Ready)
    case GiveUp => s.(phase := Idle)
    case Receive(room) => ReceivedOne(s, room)
    case Deliver => Delivered(s)
    case Harm(up, d) =>
      if up then s.(forward := Harmed(s.forward, d)) else s.(reverse := Harmed(s.reverse, d))
  }

  /** The state after a run, or None if some move of it is not possible. */
  function Exec(s: State, run: seq<Move>): Option<State>
    decreases run
  {
    if run == [] then Some(s)
    else if !Enabled(s, run[0]) then None
    else Exec(Moved(s, run[0]), run[1..])
  }

  ghost predicate Reachable(s: State) {
    exists run :: Exec(Init(s.budget), run) == Some(s)
  }

  // ---- The condition ----

  /** A wait within reach finds, in what is left of the echo of this call, an acknowledgement of the next number,
      which success of that call would rest on. */
  ghost predicate Fakes(early: Call, late: Call, budget: nat) {
    AcksWithin(EchoBody(Nth(early.k), early.payload), Nth(late.k), budget * late.place)
  }

  /** No call that has succeeded could have been misled by the echo of a call under the number before. */
  ghost predicate Clear(calls: seq<Call>, budget: nat) {
    forall c, d {:trigger calls[c], calls[d]} | 0 <= c < |calls| && 0 <= d < |calls| ::
      calls[c].ok && calls[d].k + 1 == calls[c].k ==> !Fakes(calls[d], calls[c], budget)
  }

  // ---- The invariant ----

  /** Frames of one pipeline are in the order of their logical numbers. */
  ghost predicate Ordered(q: seq<Item>) {
    forall i, j {:trigger q[i], q[j]} | 0 <= i < j < |q| :: q[i].Other? || q[j].Other? || q[i].k <= q[j].k
  }

  /** An item is what its tags say. */
  ghost predicate Known(calls: seq<Call>, i: Item) {
    if i.Other? then NoZero(i.body) && Barren(i.body)
    else
      && i.call < |calls| && i.k == calls[i.call].k
      && var number, payload := Nth(i.k), calls[i.call].payload;
         match i
         case Data(n, _, _) => n == number
         case Ack(body, _, _) => body == AckBody(number)
         case Echo(body, looks, _, _) => AfterWaits(EchoBody(number, payload), looks) == Some(body)
         case Got(f, _, _) => f == Frame(DATA, number, payload) || Leaks(EchoBody(number, payload))
  }

  ghost predicate AllKnown(calls: seq<Call>, q: seq<Item>) {
    forall i | i in q :: Known(calls, i)
  }

  /** Numbers k-1 and k only. */
  ghost predicate Recent(k: nat, q: seq<Item>) {
    forall i | i in q :: i.Other? || i.k <= k <= i.k + 1
  }

  ghost predicate CallsOrdered(k: nat, calls: seq<Call>) {
    && (forall c | 0 <= c < |calls| :: calls[c].k <= k && (calls[c].ok ==> calls[c].k < k))
    && (forall c, d {:trigger calls[c], calls[d]} | 0 <= c < d < |calls| ::
          calls[c].k <= calls[d].k && (calls[c].ok ==> calls[c].k < calls[d].k))
  }

  /** Each call follows the one before: under its number, or under the next one after a success. */
  ghost predicate Numbered(calls: seq<Call>) {
    forall c {:trigger calls[c]} | 0 <= c < |calls| ::
      calls[c].k == NextK(calls[..c]) && calls[c].place == NextPlace(calls[..c])
  }

  ghost predicate Within(budget: nat, calls: seq<Call>) {
    forall c | 0 <= c < |calls| :: calls[c].attempts <= budget && |calls[c].payload| <= MAX_PAYLOAD
  }

  ghost predicate CallsInv(s: State) {
    && s.number == Nth(s.k) && s.k == NextK(s.calls)
    && CallsOrdered(s.k, s.calls) && Numbered(s.calls) && Within(s.budget, s.calls)
    && (s.phase != Idle ==> s.calls != [] && !s.calls[|s.calls| - 1].ok)
    && (s.phase == Waiting ==> s.calls[|s.calls| - 1].attempts > 0)
  }

  /** No more waits than transmissions under the current number. */
  ghost predicate WaitsInv(s: State) {
    if s.calls == [] || s.calls[|s.calls| - 1].ok then s.waits == 0
    else
      var last := s.calls[|s.calls| - 1];
      last.place > 0 &&
      s.waits + (if s.phase == Waiting then 1 else 0) <= s.budget * (last.place - 1) + last.attempts
  }

  /** Only the first of the frames on the way back can have been read in part. */
  ghost predicate Fresh(q: seq<Item>) {
    forall i, j {:trigger q[i], q[j]} | 0 <= i < j < |q| && q[j].Echo? && q[j].looks > 0 :: q[i].Other?
  }

  ghost predicate LooksAtMost(q: seq<Item>, waits: nat) {
    forall i | i in q :: i.Echo? ==> i.looks <= waits
  }

  predicate OnTheWayBack(i: Item) {
    i.Ack? || i.Echo? || i.Other?
  }

  predicate OnTheWayOut(i: Item) {
    i.Data? || i.Other?
  }

  /** The way back followed by the way out is sorted, and holds two numbers at most. */
  ghost predicate FlowInv(s: State) {
    && AllKnown(s.calls, s.received) && AllKnown(s.calls, s.reverse) && AllKnown(s.calls, s.forward)
    && (forall i | i in s.reverse :: OnTheWayBack(i)) && (forall i | i in s.forward :: OnTheWayOut(i))
    && (forall i | i in s.received :: i.Got?)
    && Ordered(s.received + s.reverse + s.forward)
    && Fresh(s.reverse) && LooksAtMost(s.reverse, s.waits)
    && (Clear(s.calls, s.budget) ==> Recent(s.k, s.reverse) && Recent(s.k, s.forward))
  }

  predicate Heard(delivered: seq<Item>, i: Item) {
    i.Other? || Data(Nth(i.k), i.k, i.call) in delivered
  }

  ghost predicate AllHeard(delivered: seq<Item>, q: seq<Item>) {
    forall i | i in q :: Heard(delivered, i)
  }

  ghost predicate Has(delivered: seq<Item>, k: nat) {
    exists d :: d in delivered && d.Data? && d.k == k
  }

  /** What comes back has been delivered, in order, and no number before k is missing. */
  ghost predicate DeliveryInv(s: State) {
    && AllKnown(s.calls, s.delivered) && AllHeard(s.delivered, s.reverse) && AllHeard(s.delivered, s.received)
    && (forall d | d in s.delivered :: d.Data?)
    && Ordered(s.delivered + s.forward)
    && (Clear(s.calls, s.budget) ==> forall j: nat | j < s.k :: Has(s.delivered, j))
  }

  /** The data frames of call c in q. */
  function Count(q: seq<Item>, c: nat): nat {
    if q == [] then 0 else (if q[0].Data? && q[0].call == c then 1 else 0) + Count(q[1..], c)
  }

  ghost predicate CopiesInv(s: State) {
    && (forall i | i in s.forward + s.delivered :: i.Data? ==> i.call < |s.calls|)
    && (forall c: nat {:trigger Count(s.delivered, c)} {:trigger s.calls[c]} | c < |s.calls| ::
          Count(s.delivered, c) + Count(s.forward, c) <= s.calls[c].attempts)
  }

  ghost predicate Inv(s: State) {
    CallsInv(s) && WaitsInv(s) && FlowInv(s) && DeliveryInv(s) && CopiesInv(s)
  }

  // ---- Queues ----

  lemma {:induction false} CountConcat(a: seq<Item>, b: seq<Item>, c: nat)
    ensures Count(a + b, c) == Count(a, c) + Count(b, c)
    decreases a
  {
    if a == [] {
      assert a + b == b;
    } else {
      assert (a + b)[1..] == a[1..] + b;
      CountConcat(a[1..], b, c);
    }
  }

  lemma {:induction false} CountNone(q: seq<Item>, c: nat)
    requires forall i | i in q :: i.Data? ==> i.call < c
    ensures Count(q, c) == 0
    decreases q
  {
    if q != [] {
      CountNone(q[1..], c);
    }
  }

  lemma CountHarmed(q: seq<Item>, d: Damage, c: nat)
    requires CanHarm(q, d)
    ensures Count(Harmed(q, d), c) <= Count(q, c)
  {
    var i := d.at;
    assert q == q[..i] + q[i..];
    CountConcat(q[..i], q[i..], c);
    if d.Noise? {
      CountConcat(q[..i] + [Other(d.body)], q[i..], c);
      CountConcat(q[..i], [Other(d.body)], c);
    } else {
      CountConcat(q[..i], q[i + 1..], c);
    }
  }

  lemma OrderedWithout(a: seq<Item>, b: seq<Item>, x: Item)
    requires Ordered(a + [x] + b)
    ensures Ordered(a + b)
  {
    var q, r := a + [x] + b, a + b;
    forall i, j | 0 <= i < j < |r|
      ensures r[i].Other? || r[j].Other? || r[i].k <= r[j].k
    {
      assert r[i] == q[if i < |a| then i else i + 1] && r[j] == q[if j < |a| then j else j + 1];
    }
  }

  lemma OrderedWithOther(a: seq<Item>, b: seq<Item>, body: seq<byte>)
    requires Ordered(a + b)
    ensures Ordered(a + [Other(body)] + b)
  {
    var q, r := a + b, a + [Other(body)] + b;
    forall i, j | 0 <= i < j < |r|
      ensures r[i].Other? || r[j].Other? || r[i].k <= r[j].k
    {
      if i != |a| && j != |a| {
        assert r[i] == q[if i < |a| then i else i - 1] && r[j] == q[if j < |a| then j else j - 1];
      }
    }
  }

  /** Damage to part of a pipeline leaves it ordered. */
  lemma OrderedHarmed(a: seq<Item>, q: seq<Item>, b: seq<Item>, d: Damage)
    requires CanHarm(q, d) && Ordered(a + q + b)
    ensures Ordered(a + Harmed(q, d) + b)
  {
    var i := d.at;
    if d.Noise? {
      assert a + q + b == (a + q[..i]) + (q[i..] + b);
      OrderedWithOther(a + q[..i], q[i..] + b, d.body);
      assert (a + q[..i]) + [Other(d.body)] + (q[i..] + b) == a + Harmed(q, d) + b;
    } else {
      assert a + q + b == (a + q[..i]) + [q[i]] + (q[i + 1..] + b);
      OrderedWithout(a + q[..i], q[i + 1..] + b, q[i]);
      assert (a + q[..i]) + (q[i + 1..] + b) == a + Harmed(q, d) + b;
    }
  }

  lemma HarmedIsOld(q: seq<Item>, d: Damage, x: Item)
    requires CanHarm(q, d) && x in Harmed(q, d)
    ensures x in q || (d.Noise? && x == Other(d.body))
  {
  }

  /** A frame may be followed by further frames with its number, or with the newest one. */
  lemma OrderedGrows(q: seq<Item>, x: Item)
    requires Ordered(q) && forall i | i in q :: i.Other? || x.Other? || i.k <= x.k
    ensures Ordered(q + [x])
  {
    var r := q + [x];
    forall i, j | 0 <= i < j < |r|
      ensures r[i].Other? || r[j].Other? || r[i].k <= r[j].k
    {
      if j == |q| {
        assert r[i] in q;
      } else {
        assert r[i] == q[i] && r[j] == q[j];
      }
    }
  }

  /** Replacing a frame by two with the same number keeps the order. */
  lemma OrderedTwice(a: seq<Item>, x: Item, y: Item, b: seq<Item>)
    requires Ordered(a + [x] + b) && !x.Other? && !y.Other? && y.k == x.k
    ensures Ordered(a + [y, x] + b)
  {
    var q, r := a + [x] + b, a + [y, x] + b;
    assert q[|a|] == x;
    forall i, j | 0 <= i < j < |r|
      ensures r[i].Other? || r[j].Other? || r[i].k <= r[j].k
    {
      var i', j' := if i <= |a| then i else i - 1, if j <= |a| then j else j - 1;
      assert i == |a| || r[i] == q[i'];
      assert j == |a| || r[j] == q[j'];
      if i == |a| && j == |a| + 1 {
      } else {
        assert q[i'].Other? || q[j'].Other? || q[i'].k <= q[j'].k;
      }
    }
  }

  lemma OrderedTail(a: seq<Item>, x: Item, b: seq<Item>)
    requires Ordered(a + [x] + b) && !x.Other?
    ensures forall i | i in b :: i.Other? || x.k <= i.k
  {
    var q := a + [x] + b;
    forall i | i in b
      ensures i.Other? || x.k <= i.k
    {
      var n :| 0 <= n < |b| && b[n] == i;
      assert q[|a|] == x && q[|a| + 1 + n] == i;
    }
  }
}
