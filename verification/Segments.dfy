/** What receivers find in the bytes between two zeros, however often they come back to them. A receiver that
    hunts for a start byte reads from the first 0x55 to the zero, or until its buffer is full; what is left
    then stays on the line, and the next reader hunts in it. */
module Segments {
  import opened Bytes
  import opened Cobs
  import opened Frames
  import opened Link
  import opened Rs485Protocol
  import opened Wrappers

  // ---- One reader ----

  /** The first start byte of a body, or its length. */
  function FirstStart(b: seq<byte>): (j: nat)
    ensures j <= |b| && Link.Free(SOF, b[..j])
    ensures j < |b| ==> b[j] == SOF
  {
    if b == [] || b[0] == SOF then 0 else 1 + FirstStart(b[1..])
  }

  predicate Starts(b: seq<byte>) {
    FirstStart(b) < |b|
  }

  function Behind(b: seq<byte>): (c: seq<byte>)
    requires Starts(b)
    ensures |c| < |b| && b == b[..FirstStart(b)] + [SOF] + c
    ensures NoZero(b) ==> NoZero(c)
  {
    b[FirstStart(b) + 1..]
  }

  /** The chunk that a reader with a buffer of cap bytes collects from a body and its delimiter. */
  function Caught(b: seq<byte>, cap: nat): seq<byte>
    requires Starts(b)
  {
    var c := Behind(b);
    if |c| < cap then c + [0] else c[..cap]
  }

  /** The body it leaves on the line, if it did not reach the delimiter. */
  function Left(b: seq<byte>, cap: nat): (left: Option<seq<byte>>)
    requires Starts(b)
    ensures left.Some? ==> |left.value| + cap < |b| && (NoZero(b) ==> NoZero(left.value))
  {
    var c := Behind(b);
    if |c| < cap then None else Some(c[cap..])
  }

  function OnLine(b: seq<byte>): seq<Event> {
    Events(b + [0])
  }

  lemma StartsIffSof(b: seq<byte>)
    ensures Starts(b) <==> !Link.Free(SOF, b)
  {
    if !Starts(b) {
      assert b[..FirstStart(b)] == b;
    }
  }

  lemma CollectBehind(c: seq<byte>, rest: seq<Event>, cap: nat)
    requires NoZero(c) && cap > 0
    ensures Collect(OnLine(c) + rest, true, [], cap)
         == if |c| < cap then Chunk(c + [0], rest) else Chunk(c[..cap], OnLine(c[cap..]) + rest)
  {
    hide Collect;
    if |c| < cap {
      CollectKeeps([], c, rest, cap);
      EventsConcat(c, [0]);
      assert Events([0]) == [Got(0)] && [] + c + [0] == c + [0];
    } else {
      var tail := c[cap..] + [0];
      CollectFills([], c[..cap], Events(tail) + rest, cap);
      EventsConcat(c[..cap], tail);
      assert c + [0] == c[..cap] + tail && [] + c[..cap] == c[..cap];
      assert Events(c[..cap]) + Events(tail) + rest == Events(c[..cap]) + (Events(tail) + rest);
    }
  }

  /** A reader skips a body without a start byte, and takes its chunk from one that has one. */
  lemma CollectSegment(b: seq<byte>, rest: seq<Event>, cap: nat)
    requires NoZero(b) && cap > 0
    ensures !Starts(b) ==> Collect(OnLine(b) + rest, false, [], cap) == Collect(rest, false, [], cap)
    ensures Starts(b) ==>
              (var more := if Left(b, cap).Some? then OnLine(Left(b, cap).value) + rest else rest;
               Collect(OnLine(b) + rest, false, [], cap) == Chunk(Caught(b, cap), more))
  {
    hide Collect;
    if Starts(b) {
      var g, c := b[..FirstStart(b)], Behind(b);
      CollectHunts(g, OnLine(c) + rest, cap);
      CollectBehind(c, rest, cap);
      assert b + [0] == g + ([SOF] + (c + [0]));
      EventsConcat(g, [SOF] + (c + [0]));
      EventsConcat([SOF], c + [0]);
      assert Events([SOF]) == [Got(SOF)];
      assert Events(g) + ([Got(SOF)] + OnLine(c)) + rest == Events(g) + [Got(SOF)] + (OnLine(c) + rest);
    } else {
      StartsIffSof(b);
      CollectHunts(b + [0], rest, cap);
    }
  }

  /** A chunk cut off by a full buffer has no delimiter and is malformed. */
  lemma CutIsMalformed(b: seq<byte>, cap: nat)
    requires NoZero(b) && Starts(b) && cap > 0 && Left(b, cap).Some?
    ensures Inspect(Caught(b, cap)) == Malformed
  {
  }

  // ---- Whole frames ----

  function FrameBody(f: Frame): (b: seq<byte>)
    ensures Starts(b) && Behind(b) == Stuffed(Raw(f))
  {
    [SOF] + Stuffed(Raw(f))
  }

  lemma FrameBodyIs(f: Frame)
    ensures NoZero(FrameBody(f)) && Wire(f) == FrameBody(f) + [0]
    ensures Inspect(Behind(FrameBody(f)) + [0]) == Good(f)
    ensures |f.payload| <= MAX_PAYLOAD ==> |Behind(FrameBody(f))| == |f.payload| + 5
  {
    hide Raw, Inspect;
    var body := EncodedShape(Raw(f));
    FrameRoundTrip(f);
    if |f.payload| <= MAX_PAYLOAD {
      WireSize(f);
    }
    assert FrameBody(f)[..0] == [];
  }

  /** A frame that fits the reader's buffer is read whole. */
  lemma FrameCaught(f: Frame, cap: nat)
    requires |f.payload| <= MAX_PAYLOAD && |f.payload| + 5 < cap
    ensures Inspect(Caught(FrameBody(f), cap)) == Good(f) && Left(FrameBody(f), cap) == None
  {
    hide Inspect, FrameBody;
    FrameBodyIs(f);
  }

  // ---- A reader that comes back ----

  /** What r waits, each with a buffer of 16 bytes, leave of a body. */
  function AfterWaits(b: seq<byte>, r: nat): (left: Option<seq<byte>>)
    ensures left.Some? && NoZero(b) ==> NoZero(left.value)
    ensures left.Some? ==> |left.value| + 17 * r <= |b|
  {
    if r == 0 then Some(b)
    else match AfterWaits(b, r - 1)
      case None => None
      case Some(c) => if Starts(c) then Left(c, ACK_CHUNK) else None
  }

  /** The wait after r waits finds an acknowledgement of n. */
  predicate AckAt(b: seq<byte>, r: nat, n: byte) {
    var left := AfterWaits(b, r);
    left.Some? && Starts(left.value) && IsAck(Inspect(Caught(left.value, ACK_CHUNK)), n)
  }

  /** One of the first w waits on a body finds an acknowledgement of n. */
  ghost predicate AcksWithin(b: seq<byte>, n: byte, w: nat) {
    exists r: nat :: r < w && AckAt(b, r, n)
  }

  predicate IsDataFrame(v: Verdict) {
    v.Good? && v.frame.kind == DATA
  }

  /** A receive after r waits finds a data frame. */
  predicate DataAt(b: seq<byte>, r: nat) {
    var left := AfterWaits(b, r);
    left.Some? && Starts(left.value) && IsDataFrame(Inspect(Caught(left.value, FRAME_CHUNK)))
  }

  /** A receive that comes after one or more waits finds a data frame in what they left. */
  ghost predicate Leaks(b: seq<byte>) {
    exists r: nat :: r > 0 && DataAt(b, r)
  }

  predicate Accepted(v: Verdict) {
    v.Good? && (v.frame.kind == ACK || v.frame.kind == DATA)
  }

  /** Bytes in which no reader ever finds an acknowledgement or a data frame. */
  predicate Barren(b: seq<byte>)
    decreases |b|
  {
    Starts(b) ==>
      && !Accepted(Inspect(Caught(b, ACK_CHUNK))) && !Accepted(Inspect(Caught(b, FRAME_CHUNK)))
      && (Left(b, ACK_CHUNK).Some? ==> Barren(Left(b, ACK_CHUNK).value))
      && (Left(b, FRAME_CHUNK).Some? ==> Barren(Left(b, FRAME_CHUNK).value))
  }

  // ---- When the tail of a data frame can be mistaken ----

  /** What a wait leaves of a frame that does not fit its buffer. */
  function Tail(f: Frame): Option<seq<byte>> {
    Left(FrameBody(f), ACK_CHUNK)
  }

  /** The first wait on a data frame finds no acknowledgement, and takes it whole unless its payload is
      longer than ten bytes. */
  lemma FirstWait(f: Frame, n: byte)
    requires f.kind == DATA && |f.payload| <= MAX_PAYLOAD
    ensures !AckAt(FrameBody(f), 0, n)
    ensures AfterWaits(FrameBody(f), 1) == Tail(f) && (Tail(f).Some? <==> |f.payload| > 10)
    ensures Tail(f).Some? ==> |Stuffed(Raw(f))| >= ACK_CHUNK && Tail(f).value == Stuffed(Raw(f))[ACK_CHUNK..]
  {
    hide Inspect, FrameBody, Raw;
    FrameBodyIs(f);
    if |f.payload| <= 10 {
      FrameCaught(f, ACK_CHUNK);
    } else {
      CutIsMalformed(FrameBody(f), ACK_CHUNK);
    }
  }

  lemma {:induction false} NothingLeft(b: seq<byte>, s: nat, r: nat)
    requires s <= r && (AfterWaits(b, s).None? || !Starts(AfterWaits(b, s).value))
    ensures s < r ==> AfterWaits(b, r).None?
    decreases r - s
  {
    hide Starts, Left;
    if s < r {
      NothingLeft(b, s, r - 1);
    }
  }

  /** What a caller can check before sending: a payload of at most ten bytes, or no start byte behind the
      sixteenth byte of the stuffed frame, leaves nothing that could be mistaken. */
  lemma ShortOrStartFree(f: Frame, n: byte, w: nat)
    requires f.kind == DATA && |f.payload| <= MAX_PAYLOAD
    requires |f.payload| <= 10 || (Tail(f).Some? && Link.Free(SOF, Tail(f).value))
    ensures !AcksWithin(FrameBody(f), n, w) && !Leaks(FrameBody(f))
  {
    hide Inspect, FrameBody, Raw, IsAck, Caught, Left, Starts, AfterWaits;
    FirstWait(f, n);
    if |f.payload| > 10 {
      StartsIffSof(Tail(f).value);
    }
    forall r: nat
      ensures !AckAt(FrameBody(f), r, n) && (r > 0 ==> !DataAt(FrameBody(f), r))
    {
      if r > 0 {
        NothingLeft(FrameBody(f), 1, r);
      }
    }
  }

  lemma {:induction false} FirstStartIs(b: seq<byte>, g: seq<byte>, c: seq<byte>)
    requires b == g + [SOF] + c && Link.Free(SOF, g)
    ensures FirstStart(b) == |g| && Starts(b) && Behind(b) == c
    decreases g
  {
    if g != [] {
      assert b[1..] == g[1..] + [SOF] + c;
      FirstStartIs(b[1..], g[1..], c);
    }
  }

  /** A body holds, behind its first start byte, an acknowledgement of n that fits the buffer of a wait. */
  ghost predicate HoldsAck(b: seq<byte>, n: byte) {
    exists g, c, payload ::
      && b == g + [SOF] + c && Link.Free(SOF, g) && |c| < ACK_CHUNK
      && Decoded(c + [0]) == Some(Raw(Frame(ACK, n, payload)))
  }

  /** That is what a wait looks for. */
  lemma CaughtAckIff(b: seq<byte>, n: byte)
    requires NoZero(b)
    ensures (Starts(b) && IsAck(Inspect(Caught(b, ACK_CHUNK)), n)) <==> HoldsAck(b, n)
  {
    hide Raw, Inspect;
    if Starts(b) && IsAck(Inspect(Caught(b, ACK_CHUNK)), n) {
      var g, c := b[..FirstStart(b)], Behind(b);
      if |c| >= ACK_CHUNK {
        CutIsMalformed(b, ACK_CHUNK);
      } else {
        var f := Inspect(c + [0]).frame;
        InspectGood(c + [0], f);
        assert f == Frame(ACK, n, f.payload);
        assert b == g + [SOF] + c;
      }
    }
    if g, c, payload :|
      && b == g + [SOF] + c && Link.Free(SOF, g) && |c| < ACK_CHUNK
      && Decoded(c + [0]) == Some(Raw(Frame(ACK, n, payload)))
    {
      FirstStartIs(b, g, c);
      InspectGood(c + [0], Frame(ACK, n, payload));
    }
  }

  /** A wait on what lies on the line succeeds exactly when it holds an acknowledgement. */
  lemma TailAcksIff(tail: seq<byte>, rest: seq<Event>, sent: seq<Tx>, n: byte)
    requires NoZero(tail) && Starts(tail)
    ensures AwaitAck(Line(OnLine(tail) + rest, sent), n).ok <==> HoldsAck(tail, n)
  {
    hide Collect, Inspect, Caught, HoldsAck;
    CollectSegment(tail, rest, ACK_CHUNK);
    CaughtAckIff(tail, n);
  }

  lemma AckAtIff(b: seq<byte>, r: nat, n: byte)
    requires NoZero(b)
    ensures AckAt(b, r, n) <==> AfterWaits(b, r).Some? && HoldsAck(AfterWaits(b, r).value, n)
  {
    hide Inspect, Caught, HoldsAck, AfterWaits, Starts;
    if AfterWaits(b, r).Some? {
      CaughtAckIff(AfterWaits(b, r).value, n);
    }
  }

  /** The second wait on the echo of a data frame is misled exactly when the bytes behind the sixteenth of its stuffed
      form hold an acknowledgement. */
  lemma SecondWaitIff(f: Frame, n: byte)
    requires f.kind == DATA && |f.payload| <= MAX_PAYLOAD
    ensures AckAt(FrameBody(f), 1, n) <==>
            |Stuffed(Raw(f))| >= ACK_CHUNK && HoldsAck(Stuffed(Raw(f))[ACK_CHUNK..], n)
  {
    hide Inspect, Caught, HoldsAck, Raw, FrameBody, AfterWaits, Starts, Stuffed, Encoded;
    FirstWait(f, n);
    var body := EncodedShape(Raw(f));
    WireSize(f);
    EncodedIs(Raw(f));
    if Tail(f).Some? {
      CaughtAckIff(Tail(f).value, n);
    }
  }

  lemma EncodedIs(x: seq<byte>)
    ensures |Encoded(x)| == |Stuffed(x)| + 1
  {
  }
}
