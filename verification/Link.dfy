/** The half-duplex serial link below the protocol, and what one step of the protocol does to it. */
module Link {
  import opened Bytes
  import opened Cobs
  import opened Frames

  /** The outcome of one single-byte `recv`: a byte, or a status other than OK. */
  datatype Event = Got(b: byte) | Failed

  /** One call of `send`: the bytes handed over and whether the status was OK. */
  datatype Tx = Tx(bytes: seq<byte>, ok: bool)

  /** Everything outside the node, as a function of what the node has sent so far: whether the next
      `send` succeeds, and which receive events the latest one causes. */
  datatype Env = Env(accept: (seq<Tx>, seq<byte>) -> bool, react: seq<Tx> -> seq<Event>)

  /** The receive events still to come, and the calls of `send` so far. */
  datatype Line = Line(rx: seq<Event>, sent: seq<Tx>)

  datatype Outcome = Outcome(ok: bool, line: Line)

  function Transmit(env: Env, line: Line, bytes: seq<byte>): Outcome {
    var ok := env.accept(line.sent, bytes);
    var sent := line.sent + [Tx(bytes, ok)];
    Outcome(ok, Line(line.rx + env.react(sent), sent))
  }

  class Rs485Hal {
    const env: Env
    var rx: seq<Event>
    var sent: seq<Tx>

    constructor (env: Env, rx: seq<Event>)
      ensures this.env == env && State() == Line(rx, [])
    {
      this.env, this.rx, this.sent := env, rx, [];
    }

    function State(): Line
      reads this
    {
      Line(rx, sent)
    }

    method Send(data: array<byte>, len: nat) returns (ok: bool)
      requires 0 < len <= data.Length
      modifies this
      ensures Outcome(ok, State()) == Transmit(env, old(State()), data[..len])
    {
      ok := env.accept(sent, data[..len]);
      sent := sent + [Tx(data[..len], ok)];
      rx := rx + env.react(sent);
    }

    /** A receive line that stays silent times out. */
    method Recv() returns (ok: bool, b: byte)
      modifies this
      ensures sent == old(sent)
      ensures old(rx) == [] ==> !ok && rx == []
      ensures old(rx) != [] ==> rx == old(rx)[1..] && ok == old(rx)[0].Got? && (ok ==> b == old(rx)[0].b)
    {
      ok, b := false, 0;
      if rx != [] {
        match rx[0] {
          case Got(v) => ok, b := true, v;
          case Failed =>
        }
        rx := rx[1..];
      }
    }
  }

  // ---- Collecting a chunk ----

  datatype Catch = Chunk(bytes: seq<byte>, rest: seq<Event>) | TimedOut(rest: seq<Event>)

  /** The receivers' byte loop: hunt for the start byte, then keep bytes up to a zero or `cap`. */
  function Collect(rx: seq<Event>, sof: bool, got: seq<byte>, cap: nat): Catch
    decreases rx
  {
    if |got| >= cap then Chunk(got, rx)
    else if rx == [] then TimedOut([])
    else match rx[0]
      case Failed => TimedOut(rx[1..])
      case Got(b) =>
        if !sof then Collect(rx[1..], b == SOF, got, cap)
        else if b == 0 then Chunk(got + [b], rx[1..])
        else Collect(rx[1..], true, got + [b], cap)
  }

  function Events(bytes: seq<byte>): (rx: seq<Event>)
    ensures |rx| == |bytes|
  {
    seq(|bytes|, i requires 0 <= i < |bytes| => Got(bytes[i]))
  }

  lemma EventsConcat(a: seq<byte>, b: seq<byte>)
    ensures Events(a + b) == Events(a) + Events(b)
  {
  }

  predicate Free(b: byte, s: seq<byte>) {
    forall i | 0 <= i < |s| :: s[i] != b
  }

  /** Bytes before the start byte are skipped. */
  lemma {:induction false} CollectHunts(g: seq<byte>, rest: seq<Event>, cap: nat)
    requires Free(SOF, g) && cap > 0
    ensures Collect(Events(g) + [Got(SOF)] + rest, false, [], cap) == Collect(rest, true, [], cap)
    ensures Collect(Events(g) + rest, false, [], cap) == Collect(rest, false, [], cap)
    decreases g
  {
    var rx, ry := Events(g) + [Got(SOF)] + rest, Events(g) + rest;
    if g == [] {
      assert rx[1..] == rest && ry == rest;
    } else {
      CollectHunts(g[1..], rest, cap);
      assert rx[1..] == Events(g[1..]) + [Got(SOF)] + rest;
      assert ry[1..] == Events(g[1..]) + rest;
    }
  }

  /** Inside a frame bytes are kept until the zero. */
  lemma {:induction false} CollectKeeps(got: seq<byte>, c: seq<byte>, rest: seq<Event>, cap: nat)
    requires NoZero(c) && |got| + |c| + 1 <= cap
    ensures Collect(Events(c) + [Got(0)] + rest, true, got, cap) == Chunk(got + c + [0], rest)
    decreases c
  {
    var rx := Events(c) + [Got(0)] + rest;
    if c == [] {
      assert rx[1..] == rest;
      assert got + c == got;
    } else {
      assert NoZero(c[1..]);
      CollectKeeps(got + [c[0]], c[1..], rest, cap);
      assert rx[1..] == Events(c[1..]) + [Got(0)] + rest;
      assert (got + [c[0]]) + c[1..] == got + c;
    }
  }

  lemma {:induction false} CollectFills(got: seq<byte>, c: seq<byte>, rest: seq<Event>, cap: nat)
    requires NoZero(c) && |got| + |c| == cap
    ensures Collect(Events(c) + rest, true, got, cap) == Chunk(got + c, rest)
    decreases c
  {
    var rx := Events(c) + rest;
    if c == [] {
      assert rx == rest && got + c == got;
    } else {
      CollectFills(got + [c[0]], c[1..], rest, cap);
      assert rx[1..] == Events(c[1..]) + rest;
      assert (got + [c[0]]) + c[1..] == got + c;
    }
  }

  /** A frame on the line, whatever precedes it without a start byte, is collected whole. */
  lemma CollectFrame(g: seq<byte>, c: seq<byte>, rest: seq<Event>, cap: nat)
    requires Free(SOF, g) && NoZero(c) && |c| + 1 <= cap
    ensures Collect(Events(g + [SOF] + c + [0]) + rest, false, [], cap) == Chunk(c + [0], rest)
  {
    CollectHunts(g, Events(c) + [Got(0)] + rest, cap);
    CollectKeeps([], c, rest, cap);
    assert Events(g + [SOF] + c + [0]) + rest == Events(g) + [Got(SOF)] + (Events(c) + [Got(0)] + rest);
    assert [] + c + [0] == c + [0];
  }

  /** Bytes behind a start byte that fill the buffer without a zero are collected as they are; the rest stays. */
  lemma CollectFull(g: seq<byte>, c: seq<byte>, rest: seq<Event>, cap: nat)
    requires Free(SOF, g) && NoZero(c) && |c| == cap && cap > 0
    ensures Collect(Events(g + [SOF] + c) + rest, false, [], cap) == Chunk(c, rest)
  {
    CollectHunts(g, Events(c) + rest, cap);
    CollectFills([], c, rest, cap);
    assert Events(g + [SOF] + c) + rest == Events(g) + [Got(SOF)] + (Events(c) + rest);
    assert [] + c == c;
  }

  lemma {:induction false} CollectStarved(got: seq<byte>, c: seq<byte>, rest: seq<Event>, cap: nat)
    requires NoZero(c) && |got| + |c| < cap
    ensures Collect(Events(c) + [Failed] + rest, true, got, cap) == TimedOut(rest)
    ensures Collect(Events(c), true, got, cap) == TimedOut([])
    decreases c
  {
    var rx := Events(c) + [Failed] + rest;
    if c == [] {
      assert rx[0] == Failed && rx[1..] == rest && Events(c) == [];
    } else {
      CollectStarved(got + [c[0]], c[1..], rest, cap);
      assert rx[1..] == Events(c[1..]) + [Failed] + rest && Events(c)[1..] == Events(c[1..]);
    }
  }

  /** A reader gives up at the first failed receive, or when nothing more comes: before a start byte. */
  lemma CollectHuntsInVain(g: seq<byte>, rest: seq<Event>, cap: nat)
    requires Free(SOF, g) && cap > 0
    ensures Collect(Events(g) + ([Failed] + rest), false, [], cap) == TimedOut(rest)
    ensures Collect(Events(g), false, [], cap) == TimedOut([])
  {
    CollectHunts(g, [Failed] + rest, cap);
    CollectHunts(g, [], cap);
    assert ([Failed] + rest)[1..] == rest && Events(g) + [] == Events(g);
  }

  /** And behind one, with the frame unfinished; the bytes collected are gone. */
  lemma CollectTimesOut(g: seq<byte>, c: seq<byte>, rest: seq<Event>, cap: nat)
    requires Free(SOF, g) && NoZero(c) && |c| < cap
    ensures Collect(Events(g) + ([Got(SOF)] + Events(c)) + ([Failed] + rest), false, [], cap) == TimedOut(rest)
    ensures Collect(Events(g) + ([Got(SOF)] + Events(c)), false, [], cap) == TimedOut([])
  {
    hide Collect;
    CollectHunts(g, Events(c) + [Failed] + rest, cap);
    CollectHunts(g, Events(c), cap);
    CollectStarved([], c, rest, cap);
    Regrouped(Events(g), [Got(SOF)], Events(c), [Failed] + rest);
    Regrouped(Events(g), [Got(SOF)], Events(c), []);
    assert Events(c) + [Failed] + rest == Events(c) + ([Failed] + rest) && Events(c) + [] == Events(c);
    assert Events(g) + ([Got(SOF)] + Events(c)) + [] == Events(g) + ([Got(SOF)] + Events(c));
  }

  lemma Regrouped<T>(a: seq<T>, b: seq<T>, c: seq<T>, d: seq<T>)
    ensures a + (b + c) + d == a + b + (c + d)
  {
  }

  /** Where a chunk ending in zero comes from. */
  ghost predicate Framed(rx: seq<Event>, g: seq<byte>, c: seq<byte>, rest: seq<Event>) {
    Free(SOF, g) && NoZero(c) && rx == Events(g + [SOF] + c + [0]) + rest
  }

  lemma FramedOneLater(rx: seq<Event>, g: seq<byte>, c: seq<byte>, rest: seq<Event>)
    requires rx != [] && rx[0].Got? && rx[0].b != SOF && Framed(rx[1..], g, c, rest)
    ensures Framed(rx, [rx[0].b] + g, c, rest)
  {
    var b := rx[0].b;
    assert Events([b] + g + [SOF] + c + [0]) == [Got(b)] + Events(g + [SOF] + c + [0]);
  }

  lemma {:induction false} ChunkAfterStart(rx: seq<Event>, got: seq<byte>, cap: nat)
    returns (c: seq<byte>)
    requires NoZero(got)
    ensures var r := Collect(rx, true, got, cap);
            r.Chunk? && |r.bytes| > 0 && r.bytes[|r.bytes| - 1] == 0 ==>
              r.bytes == got + c + [0] && NoZero(c) && rx == Events(c) + [Got(0)] + r.rest && |r.bytes| <= cap
    decreases rx
  {
    c := [];
    if |got| < cap && rx != [] && rx[0].Got? {
      var b := rx[0].b;
      if b == 0 {
        assert rx == Events([]) + [Got(0)] + rx[1..];
        assert got + [] + [0] == got + [0];
      } else {
        var d := ChunkAfterStart(rx[1..], got + [b], cap);
        c := [b] + d;
        var r := Collect(rx, true, got, cap);
        if r.Chunk? && |r.bytes| > 0 && r.bytes[|r.bytes| - 1] == 0 {
          assert (got + [b]) + d + [0] == got + c + [0];
          assert Events(c) == [Got(b)] + Events(d);
        }
      }
    }
  }

  lemma {:induction false} ChunkOrigin(rx: seq<Event>, cap: nat) returns (g: seq<byte>, c: seq<byte>)
    requires cap > 0
    ensures var r := Collect(rx, false, [], cap);
            r.Chunk? && |r.bytes| > 0 && r.bytes[|r.bytes| - 1] == 0 ==>
              r.bytes == c + [0] && Framed(rx, g, c, r.rest) && |c| + 1 <= cap
    decreases rx
  {
    g, c := [], [];
    if rx != [] && rx[0].Got? {
      var b := rx[0].b;
      var r := Collect(rx, false, [], cap);
      if b == SOF {
        c := ChunkAfterStart(rx[1..], [], cap);
        if r.Chunk? && |r.bytes| > 0 && r.bytes[|r.bytes| - 1] == 0 {
          assert [] + c + [0] == c + [0];
          assert Events([] + [SOF] + c + [0]) == [Got(SOF)] + (Events(c) + [Got(0)]);
        }
      } else {
        g, c := ChunkOrigin(rx[1..], cap);
        if r.Chunk? && |r.bytes| > 0 && r.bytes[|r.bytes| - 1] == 0 {
          FramedOneLater(rx, g, c, r.rest);
        }
        g := [b] + g;
      }
    }
  }
}
