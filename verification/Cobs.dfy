/** Consistent Overhead Byte Stuffing (Cheshire and Baker, IEEE/ACM Transactions on Networking 7(2),
    1999): the encoder and decoder loops of src/util/cobs.cpp against a block-by-block definition. */
module Cobs {
  import opened Bytes
  import opened Wrappers

  predicate NoZero(s: seq<byte>) {
    forall i | 0 <= i < |s| :: s[i] != 0
  }

  /** The length of the run of nonzero bytes that fills the next block, at most 254. */
  function RunLength(x: seq<byte>): (n: nat)
    ensures n <= |x| && n <= 254 && NoZero(x[..n])
    ensures n < |x| && n < 254 ==> x[n] == 0
  {
    RunLengthFrom(x, 0)
  }

  function RunLengthFrom(x: seq<byte>, k: nat): (n: nat)
    requires k <= |x| && k <= 254 && NoZero(x[..k])
    ensures k <= n <= |x| && n <= 254 && NoZero(x[..n])
    ensures n < |x| && n < 254 ==> x[n] == 0
    decreases |x| - k
  {
    if k == |x| || k == 254 || x[k] == 0 then k else RunLengthFrom(x, k + 1)
  }

  /** A run of nonzero bytes with its code byte in front. */
  function Block(p: seq<byte>): seq<byte> {
    [Nth(|p| + 1)] + p
  }

  /** The stuffed form of x without the delimiter. */
  function Stuffed(x: seq<byte>): seq<byte> {
    var n := RunLength(x);
    Block(x[..n]) +
    (if n == 254 then Stuffed(x[n..])
     else if n == |x| then []
     else Stuffed(x[n + 1..]))
  }

  /** The wire form: the stuffed bytes and the delimiter. */
  function Encoded(x: seq<byte>): seq<byte> {
    Stuffed(x) + [0]
  }

  /** The bytes that a stuffed body stands for, or None if its blocks are malformed. */
  function Unstuffed(body: seq<byte>): Option<seq<byte>> {
    if body == [] then Some([])
    else
      var code := Value(body[0]);
      if code == 0 || |body| < code || !NoZero(body[1..code]) then None
      else
        var rest := body[code..];
        match Unstuffed(rest)
        case None => None
        case Some(tail) =>
          Some(body[1..code] + (if code < 255 && rest != [] then [0] else []) + tail)
  }

  /** What the decoder makes of a received chunk, its delimiter included. */
  function Decoded(wire: seq<byte>): Option<seq<byte>> {
    if |wire| < 2 || wire[|wire| - 1] != 0 then None else Unstuffed(wire[..|wire| - 1])
  }

  /** The number the decoder returns: 0 for a malformed chunk and for one that does not fit. */
  function DecodedLength(wire: seq<byte>, outputLen: nat): nat {
    match Decoded(wire)
    case None => 0
    case Some(d) => if |d| <= outputLen then |d| else 0
  }

  // ---- The encoder ----

  lemma RunLengthIs(x: seq<byte>, n: nat)
    requires n <= |x| && n <= 254 && NoZero(x[..n])
    requires n == |x| || n == 254 || x[n] == 0
    ensures RunLength(x) == n
  {
    var m := RunLength(x);
    assert forall i | 0 <= i < n :: x[..n][i] == x[i];
    assert forall i | 0 <= i < m :: x[..m][i] == x[i];
  }

  lemma StuffedAtZero(p: seq<byte>, rest: seq<byte>)
    requires NoZero(p) && |p| < 254
    ensures Stuffed(p + ([0] + rest)) == Block(p) + Stuffed(rest)
  {
    var x := p + ([0] + rest);
    assert x[..|p|] == p;
    assert x[|p| + 1..] == rest;
    RunLengthIs(x, |p|);
  }

  lemma StuffedAtFull(p: seq<byte>, rest: seq<byte>)
    requires NoZero(p) && |p| == 254
    ensures Stuffed(p + rest) == Block(p) + Stuffed(rest)
  {
    var x := p + rest;
    assert x[..254] == p;
    assert x[254..] == rest;
    RunLengthIs(x, 254);
  }

  lemma StuffedAtEnd(p: seq<byte>)
    requires NoZero(p) && |p| < 254
    ensures Stuffed(p) == Block(p)
  {
    assert p[..|p|] == p;
    RunLengthIs(p, |p|);
  }

  lemma Nth255()
    ensures Nth(255) == 255
  {
    ValueOf255();
    NthOfValue(255);
  }

  lemma CodeIsFull(k: nat)
    requires k <= 255
    ensures Nth(k) == 255 <==> k == 255
  {
    Nth255();
    ValueOfNth(k);
    ValueOf255();
  }

  /** The guard of the encoder: the bytes that the worst input of this length needs. */
  function Room(n: nat): nat {
    n + n / 254 + 2
  }

  /** After i input bytes `done` is final and `p` is the unfinished block, whose code is yet to be set. */
  ghost predicate Stuffing(x: seq<byte>, i: nat, done: seq<byte>, p: seq<byte>) {
    && i <= |x| && |p| < 254 && NoZero(p)
    && Stuffed(x) == done + Stuffed(p + x[i..])
  }

  lemma StuffingStarts(x: seq<byte>)
    ensures Stuffing(x, 0, [], [])
  {
    assert [] + x[0..] == x;
  }

  lemma StuffingAppends(x: seq<byte>, i: nat, done: seq<byte>, p: seq<byte>, p': seq<byte>)
    requires i < |x| && Stuffing(x, i, done, p)
    requires NoZero(p') && Stuffed(p + x[i..]) == Block(p') + Stuffed(x[i + 1..])
    ensures Stuffing(x, i + 1, done + Block(p'), [])
  {
    assert [] + x[i + 1..] == x[i + 1..];
    assert (done + Block(p')) + Stuffed(x[i + 1..]) == done + (Block(p') + Stuffed(x[i + 1..]));
  }

  lemma StuffingStep(x: seq<byte>, i: nat, done: seq<byte>, p: seq<byte>)
    requires i < |x| && Stuffing(x, i, done, p)
    ensures x[i] == 0 ==> Stuffing(x, i + 1, done + Block(p), [])
    ensures x[i] != 0 && |p| < 253 ==> Stuffing(x, i + 1, done, p + [x[i]])
    ensures x[i] != 0 && |p| == 253 ==> Stuffing(x, i + 1, done + Block(p + [x[i]]), [])
  {
    var rest := x[i + 1..];
    assert x[i..] == [x[i]] + rest;
    if x[i] == 0 {
      StuffedAtZero(p, rest);
      StuffingAppends(x, i, done, p, p);
    } else {
      assert p + x[i..] == (p + [x[i]]) + rest;
      if |p| == 253 {
        StuffedAtFull(p + [x[i]], rest);
        StuffingAppends(x, i, done, p, p + [x[i]]);
      }
    }
  }

  lemma StuffingEnds(x: seq<byte>, done: seq<byte>, p: seq<byte>)
    requires Stuffing(x, |x|, done, p)
    ensures Encoded(x) == done + Block(p) + [0]
  {
    assert p + x[|x|..] == p;
    StuffedAtEnd(p);
  }

  /** The output buffer from `start` on: finished blocks, an unset code byte, the unfinished block. */
  ghost predicate Holds(o: seq<byte>, start: nat, codeIdx: nat, writeIdx: nat, done: seq<byte>, p: seq<byte>) {
    && start <= codeIdx < writeIdx <= |o|
    && o[start..codeIdx] == done && o[codeIdx + 1..writeIdx] == p
  }

  lemma HoldsMore(o: seq<byte>, start: nat, c: nat, w: nat, done: seq<byte>, p: seq<byte>, b: byte)
    requires w < |o| && Holds(o, start, c, w, done, p)
    ensures Holds(o[w := b], start, c, w + 1, done, p + [b])
  {
  }

  lemma HoldsBlock(o: seq<byte>, start: nat, c: nat, w: nat, done: seq<byte>, p: seq<byte>, code: byte)
    requires w < |o| && Holds(o, start, c, w, done, p) && code == Nth(|p| + 1)
    ensures Holds(o[c := code][w := 0], start, w, w + 1, done + Block(p), [])
    ensures o[c := code][w := 0][start..w + 1] == done + Block(p) + [0]
  {
    var o' := o[c := code][w := 0];
    assert o'[start..c] == done;
    assert o'[c..w] == [code] + o'[c + 1..w] && o'[c + 1..w] == p;
    Glued(o', start, c, w);
    Glued(o', start, w, w + 1);
  }

  lemma Glued(o: seq<byte>, a: nat, b: nat, c: nat)
    requires a <= b <= c <= |o|
    ensures o[a..c] == o[a..b] + o[b..c]
  {
  }

  /** Only the bytes between start and end differ. */
  ghost predicate SameAround(o: seq<byte>, was: seq<byte>, start: nat, end: nat) {
    start <= end <= |o| == |was| && o[..start] == was[..start] && o[end..] == was[end..]
  }

  lemma SameAroundWrite(o: seq<byte>, was: seq<byte>, start: nat, end: nat, k: nat, b: byte)
    requires SameAround(o, was, start, end) && start <= k < |o|
    ensures k < end ==> SameAround(o[k := b], was, start, end)
    ensures k == end ==> SameAround(o[k := b], was, start, end + 1)
  {
    if k == end {
      assert o[k := b][end + 1..] == o[end..][1..] == was[end..][1..] == was[end + 1..];
    }
  }

  /** The encoder's state between two input bytes: the finished blocks and the unfinished one. */
  datatype Scan = Scan(done: seq<byte>, p: seq<byte>)

  function Next(s: Scan, b: byte): Scan {
    if b == 0 then Scan(s.done + Block(s.p), [])
    else if |s.p| == 253 then Scan(s.done + Block(s.p + [b]), [])
    else Scan(s.done, s.p + [b])
  }

  function Scanned(x: seq<byte>): Scan {
    if x == [] then Scan([], []) else Next(Scanned(x[..|x| - 1]), x[|x| - 1])
  }

  lemma ScannedStep(x: seq<byte>, i: nat)
    requires i < |x|
    ensures Scanned(x[..i + 1]) == Next(Scanned(x[..i]), x[i])
  {
    assert x[..i + 1][..i] == x[..i];
  }

  lemma {:induction false} ScannedStuffs(x: seq<byte>, i: nat)
    requires i <= |x|
    ensures Stuffing(x, i, Scanned(x[..i]).done, Scanned(x[..i]).p)
  {
    if i == 0 {
      StuffingStarts(x);
    } else {
      ScannedStuffs(x, i - 1);
      assert x[..i][..i - 1] == x[..i - 1];
      var s := Scanned(x[..i - 1]);
      StuffingStep(x, i - 1, s.done, s.p);
    }
  }

  lemma ScannedEncodes(x: seq<byte>)
    ensures Encoded(x) == Scanned(x).done + Block(Scanned(x).p) + [0]
  {
    ScannedStuffs(x, |x|);
    assert x[..|x|] == x;
    StuffingEnds(x, Scanned(x).done, Scanned(x).p);
  }

  lemma {:induction false} ScannedSize(x: seq<byte>)
    ensures |Scanned(x).p| < 254
    ensures |Scanned(x).done| + |Scanned(x).p| <= |x| + (|x| - |Scanned(x).p|) / 254
  {
    if x != [] {
      ScannedSize(x[..|x| - 1]);
    }
  }

  /** The output buffer holds the state s. */
  ghost predicate Buffered(o: seq<byte>, was: seq<byte>, start: nat, codeIdx: nat, writeIdx: nat, code: byte, s: Scan)
  {
    && |s.p| < 254 && code == Nth(|s.p| + 1)
    && Holds(o, start, codeIdx, writeIdx, s.done, s.p)
    && SameAround(o, was, start, writeIdx)
  }

  lemma BufferedBlock(o: seq<byte>, was: seq<byte>, start: nat, c: nat, w: nat, code: byte, done: seq<byte>,
                      p: seq<byte>)
    requires Holds(o, start, c, w, done, p) && SameAround(o, was, start, w)
    requires w < |o| && code == Nth(|p| + 1)
    ensures Buffered(o[c := code][w := 0], was, start, w, w + 1, 1, Scan(done + Block(p), []))
    ensures o[c := code][w := 0][start..w + 1] == done + Block(p) + [0]
  {
    HoldsBlock(o, start, c, w, done, p, code);
    SameAroundWrite(o, was, start, w, c, code);
    SameAroundWrite(o[c := code], was, start, w, w, 0);
  }

  lemma BufferedData(o: seq<byte>, was: seq<byte>, start: nat, c: nat, w: nat, code: byte, s: Scan, b: byte)
    requires Buffered(o, was, start, c, w, code, s) && w < |o|
    ensures Holds(o[w := b], start, c, w + 1, s.done, s.p + [b]) && SameAround(o[w := b], was, start, w + 1)
    ensures code + 1 == Nth(|s.p| + 2) && (code + 1 == 0xFF <==> |s.p| == 253)
  {
    HoldsMore(o, start, c, w, s.done, s.p, b);
    SameAroundWrite(o, was, start, w, w, b);
    CodeIsFull(|s.p| + 2);
  }

  /** Sets the code byte of the block that ends here and puts a 0 behind the block. */
  method EndBlock(output: array<byte>, codeIdx: nat, writeIdx: nat, code: byte)
    requires codeIdx < writeIdx < output.Length
    modifies output
    ensures output[..] == old(output[..])[codeIdx := code][writeIdx := 0]
  {
    output[codeIdx] := code;
    output[writeIdx] := 0;
  }

  /** The body of the encoder's loop. */
  method EncodeByte(b: byte, output: array<byte>, codeIdx0: nat, writeIdx0: nat, code0: byte,
                    ghost was: seq<byte>, ghost start: nat, ghost s: Scan)
    returns (codeIdx: nat, writeIdx: nat, code: byte)
    requires Buffered(output[..], was, start, codeIdx0, writeIdx0, code0, s)
    requires writeIdx0 + (if |s.p| == 253 then 1 else 0) < output.Length
    modifies output
    ensures Buffered(output[..], was, start, codeIdx, writeIdx, code, Next(s, b))
  {
    codeIdx, writeIdx, code := codeIdx0, writeIdx0, code0;
    if b == 0 {
      BufferedBlock(output[..], was, start, codeIdx, writeIdx, code, s.done, s.p);
      EndBlock(output, codeIdx, writeIdx, code);
      codeIdx, writeIdx, code := writeIdx, writeIdx + 1, 1;
    } else {
      BufferedData(output[..], was, start, codeIdx, writeIdx, code, s, b);
      output[writeIdx] := b;
      writeIdx, code := writeIdx + 1, code + 1;
      if code == 0xFF {
        BufferedBlock(output[..], was, start, codeIdx, writeIdx, code, s.done, s.p + [b]);
        EndBlock(output, codeIdx, writeIdx, 0xFF);
        codeIdx, writeIdx, code := writeIdx, writeIdx + 1, 1;
      }
    }
  }

  /** The buffer is large enough for the next byte, whatever it is. */
  lemma RoomForNext(x: seq<byte>, i: nat, start: nat, s: Scan, w: nat)
    requires i < |x| && s == Scanned(x[..i]) && w == start + |s.done| + 1 + |s.p|
    ensures w + (if |s.p| == 253 then 1 else 0) < start + Room(|x|)
  {
    ScannedSize(x[..i]);
  }

  lemma LastBlock(x: seq<byte>, o: seq<byte>, was: seq<byte>, start: nat, c: nat, w: nat, code: byte)
    requires Buffered(o, was, start, c, w, code, Scanned(x)) && start + Room(|x|) <= |o|
    ensures w + 1 <= start + Room(|x|)
    ensures o[c := code][w := 0][start..w + 1] == Encoded(x)
    ensures SameAround(o[c := code][w := 0], was, start, w + 1)
  {
    var s := Scanned(x);
    ScannedSize(x);
    ScannedEncodes(x);
    BufferedBlock(o, was, start, c, w, code, s.done, s.p);
  }

  method CobsEncode(input: array?<byte>, inputLen: nat, output: array<byte>, start: nat, outputLen: nat)
    returns (written: nat)
    requires input == null ==> inputLen == 0
    requires input != null ==> inputLen <= input.Length && input != output
    requires start + outputLen <= output.Length
    modifies output
    ensures outputLen < Room(inputLen) ==> written == 0
    ensures outputLen >= Room(inputLen) ==>
              && written == |Encoded(Given(input, inputLen))| <= outputLen
              && output[start..start + written] == Encoded(Given(input, inputLen))
    ensures SameAround(output[..], old(output[..]), start, start + written)
  {
    if outputLen < inputLen + inputLen / 254 + 2 {
      return 0;
    }
    ghost var x, was, s := Given(input, inputLen), output[..], Scan([], []);

    var writeIdx: nat, codeIdx: nat := start, start;
    var code: byte := 1;
    SameAroundWrite(was, was, start, start, start, 0);
    output[writeIdx] := 0;
    writeIdx := writeIdx + 1;

    for i := 0 to inputLen
      invariant s == Scanned(x[..i])
      invariant Buffered(output[..], was, start, codeIdx, writeIdx, code, s)
    {
      RoomForNext(x, i, start, s, writeIdx);
      ScannedStep(x, i);
      codeIdx, writeIdx, code := EncodeByte(input[i], output, codeIdx, writeIdx, code, was, start, s);
      s := Next(s, x[i]);
    }

    assert x[..inputLen] == x;
    LastBlock(x, output[..], was, start, codeIdx, writeIdx, code);
    EndBlock(output, codeIdx, writeIdx, code);
    written := writeIdx + 1 - start;
  }

  // ---- The decoder ----

  /** What decoding ends with once `out` is written and `body` is still to be read. */
  function After(out: seq<byte>, body: seq<byte>): Option<seq<byte>> {
    match Unstuffed(body)
    case None => None
    case Some(tail) => Some(out + tail)
  }

  lemma AfterBlock(out: seq<byte>, body: seq<byte>, d: seq<byte>, rest: seq<byte>, gap: seq<byte>)
    requires body != [] && 0 < Value(body[0]) <= |body|
    requires d == body[1..Value(body[0])] && NoZero(d) && rest == body[Value(body[0])..]
    requires gap == if Value(body[0]) < 255 && rest != [] then [0] else []
    ensures After(out, body) == After(out + d + gap, rest)
  {
    match Unstuffed(rest) {
      case None =>
      case Some(tail) => assert out + (d + gap + tail) == out + d + gap + tail;
    }
  }

  /** The decoder between two bytes: data bytes still due in the block, whether the block is full, and
      the output so far. The zero that a block stands for is added when the next code byte arrives. */
  datatype Reader = Reader(left: nat, full: bool, out: seq<byte>) | Broken {

    function Read(b: byte): Reader {
      if Broken? || b == 0 then Broken
      else if left > 0 then Reader(left - 1, full, out + [b])
      else Reader(Value(b) - 1, b == 0xFF, out + Gap())
    }

    function Gap(): seq<byte> {
      if Broken? || full then [] else [0]
    }

    function ReadAll(body: seq<byte>): Reader
      decreases body
    {
      if body == [] then this else Read(body[0]).ReadAll(body[1..])
    }

    function Result(): Option<seq<byte>> {
      if Broken? || left > 0 then None else Some(out)
    }

    lemma {:induction false} ReadConcat(a: seq<byte>, b: seq<byte>)
      ensures ReadAll(a + b) == ReadAll(a).ReadAll(b)
      decreases a
    {
      if a == [] {
        assert a + b == b;
      } else {
        assert (a + b)[1..] == a[1..] + b;
        Read(a[0]).ReadConcat(a[1..], b);
      }
    }

    lemma {:induction false} ReadBroken(body: seq<byte>)
      requires Broken?
      ensures ReadAll(body).Broken?
      decreases body
    {
      if body != [] {
        ReadBroken(body[1..]);
      }
    }

    lemma {:induction false} ReadData(d: seq<byte>)
      requires Reader? && |d| <= left
      ensures ReadAll(d) == if NoZero(d) then Reader(left - |d|, full, out + d) else Broken
      decreases d
    {
      if d == [] {
        assert out + d == out;
      } else if d[0] == 0 {
        Read(d[0]).ReadBroken(d[1..]);
      } else {
        Read(d[0]).ReadData(d[1..]);
        assert (out + [d[0]]) + d[1..] == out + d;
        assert NoZero(d) <==> NoZero(d[1..]) by {
          assert forall i | 0 < i < |d| :: d[i] == d[1..][i - 1];
        }
      }
    }

    lemma ReadBlock(body: seq<byte>)
      requires Reader? && left == 0 && body != []
      ensures var code := Value(body[0]);
              if code == 0 || |body| < code || !NoZero(body[1..code]) then ReadAll(body).Result().None?
              else ReadAll(body) == Reader(0, code == 255, out + Gap() + body[1..code]).ReadAll(body[code..])
    {
      var code, s := Value(body[0]), Read(body[0]);
      ValueOrder(0, body[0]);
      if code == 0 {
        s.ReadBroken(body[1..]);
      } else if |body| < code {
        s.ReadData(body[1..]);
      } else {
        var d, rest := body[1..code], body[code..];
        assert body[1..] == d + rest;
        s.ReadConcat(d, rest);
        s.ReadData(d);
        ValueOf255();
        ValueBelow255(body[0]);
        if !NoZero(d) {
          s.ReadAll(d).ReadBroken(rest);
        }
      }
    }

    /** Reading byte by byte is reading block by block. */
    lemma {:induction false} ReadBlocks(body: seq<byte>)
      requires Reader? && left == 0
      ensures ReadAll(body).Result() == After(out + (if body == [] then [] else Gap()), body)
      decreases |body|
    {
      if body == [] {
        assert out + [] + [] == out;
      } else {
        var code := Value(body[0]);
        ValueIsInt(body[0]);
        ReadBlock(body);
        if code != 0 && code <= |body| && NoZero(body[1..code]) {
          var d, rest := body[1..code], body[code..];
          var next := Reader(0, code == 255, out + Gap() + d);
          next.ReadBlocks(rest);
          AfterBlock(out + Gap(), body, d, rest, if rest == [] then [] else next.Gap());
        }
      }
    }

    /** Output is never taken back. */
    lemma {:induction false} ReadGrows(body: seq<byte>)
      requires Reader?
      ensures ReadAll(body).Reader? ==> |ReadAll(body).out| >= |out|
      decreases body
    {
      if body != [] {
        if Read(body[0]).Reader? {
          Read(body[0]).ReadGrows(body[1..]);
        } else {
          Read(body[0]).ReadBroken(body[1..]);
        }
      }
    }
  }

  const FRESH := Reader(0, true, [])

  /** The decoder after the first r bytes of the body. */
  function ReadUpTo(body: seq<byte>, r: nat): Reader
    requires r <= |body|
  {
    FRESH.ReadAll(body[..r])
  }

  lemma ReadNext(body: seq<byte>, r: nat)
    requires r < |body|
    ensures ReadUpTo(body, r + 1) == ReadUpTo(body, r).Read(body[r])
  {
    assert body[..r + 1] == body[..r] + [body[r]];
    FRESH.ReadConcat(body[..r], [body[r]]);
    assert [body[r]][1..] == [];
  }

  lemma ReadDone(body: seq<byte>)
    ensures ReadUpTo(body, |body|).Result() == Unstuffed(body)
  {
    assert body[..|body|] == body;
    FRESH.ReadBlocks(body);
    match Unstuffed(body) {
      case None =>
      case Some(d) => assert [] + [] + d == d;
    }
  }

  /** A broken body is malformed, and what has been written is part of any result. */
  lemma ReadSoFar(body: seq<byte>, r: nat)
    requires r <= |body|
    ensures ReadUpTo(body, r).Broken? ==> Unstuffed(body).None?
    ensures ReadUpTo(body, r).Reader? && Unstuffed(body).Some? ==>
              |ReadUpTo(body, r).out| <= |Unstuffed(body).value|
  {
    assert body == body[..r] + body[r..];
    FRESH.ReadConcat(body[..r], body[r..]);
    assert body[..|body|] == body;
    ReadDone(body);
    if ReadUpTo(body, r).Broken? {
      ReadUpTo(body, r).ReadBroken(body[r..]);
    } else {
      ReadUpTo(body, r).ReadGrows(body[r..]);
    }
  }

  /** Fewer bytes have been written than read, so that decoding in place overwrites only what it has read. */
  lemma {:induction false} ReadShrinks(body: seq<byte>, r: nat)
    requires r <= |body| && ReadUpTo(body, r).Reader?
    ensures r > 0 ==> |ReadUpTo(body, r).out| < r
    decreases r
  {
    if r > 0 {
      ReadNext(body, r - 1);
      ReadShrinks(body, r - 1);
      if r == 1 {
        assert ReadUpTo(body, 0) == FRESH;
      }
    }
  }

  /** The output buffer starts with `written` and is as before beyond the part handed over. */
  ghost predicate Wrote(o: seq<byte>, was: seq<byte>, outputLen: nat, written: seq<byte>) {
    && |written| <= outputLen <= |o| == |was|
    && o[..|written|] == written && o[outputLen..] == was[outputLen..]
  }

  lemma WroteMore(o: seq<byte>, was: seq<byte>, outputLen: nat, written: seq<byte>, b: byte)
    requires Wrote(o, was, outputLen, written) && |written| < outputLen
    ensures Wrote(o[|written| := b], was, outputLen, written + [b])
  {
  }

  /** What is still to be read is as it was. */
  ghost predicate ToRead(input: seq<byte>, body: seq<byte>, r: nat) {
    r <= |body| <= |input| && input[r..|body|] == body[r..]
  }

  lemma ToReadNext(input: seq<byte>, body: seq<byte>, r: nat)
    requires ToRead(input, body, r) && r < |body|
    ensures input[r] == body[r] && ToRead(input, body, r + 1)
  {
    assert input[r] == input[r..|body|][0];
    assert input[r + 1..|body|] == input[r..|body|][1..];
  }

  /** Writing behind the reader changes nothing of it. */
  lemma ToReadStill(input: seq<byte>, body: seq<byte>, r: nat, w: nat, b: byte)
    requires ToRead(input, body, r) && w < r
    ensures ToRead(input[w := b], body, r)
  {
    assert input[w := b][r..|body|] == input[r..|body|];
  }

  /** The loop invariant of the decoder: it has read r bytes of the body and written `out`. */
  ghost predicate Decoding(body: seq<byte>, r: nat, s: Reader, o: seq<byte>, was: seq<byte>, outputLen: nat,
                           writeIdx: nat, out: seq<byte>)
  {
    && r <= |body| && s.Reader? && s == ReadUpTo(body, r)
    && Wrote(o, was, outputLen, out) && writeIdx == |out|
  }

  lemma DecodingReads(body: seq<byte>, r: nat, s: Reader)
    requires r < |body| && s.Reader? && s == ReadUpTo(body, r)
    ensures s.Read(body[r]) == ReadUpTo(body, r + 1)
    ensures body[r] == 0 ==> Unstuffed(body).None?
    ensures body[r] != 0 && Unstuffed(body).Some? ==> |s.Read(body[r]).out| <= |Unstuffed(body).value|
  {
    ReadNext(body, r);
    ReadSoFar(body, r + 1);
  }

  lemma CountUp(i: byte, code: byte)
    requires i < code
    ensures i + 1 <= code && Value(i + 1) == Value(i) + 1 <= Value(code)
  {
    ValueOrder(i, code);
    ValueOfIncrement(i);
  }

  /** One data byte: it joins the output, unless the chunk is malformed or the output full. */
  lemma DecodingData(body: seq<byte>, r: nat, s: Reader, o: seq<byte>, was: seq<byte>, outputLen: nat, w: nat)
    requires s.Reader? && s.left > 0 && Decoding(body, r, s, o, was, outputLen, w, s.out)
    ensures r == |body| || body[r] == 0 ==> Unstuffed(body).None?
    ensures r < |body| && body[r] != 0 && w < outputLen ==>
              var s' := s.Read(body[r]);
              && s' == Reader(s.left - 1, s.full, s.out + [body[r]])
              && Decoding(body, r + 1, s', o[w := body[r]], was, outputLen, w + 1, s'.out)
    ensures w >= outputLen && Unstuffed(body).Some? ==> |Unstuffed(body).value| > outputLen
  {
    if r == |body| {
      ReadDone(body);
    } else {
      DecodingReads(body, r, s);
      if w < outputLen {
        WroteMore(o, was, outputLen, s.out, body[r]);
      }
    }
  }

  /** The inner loop of the decoder: copies the data bytes of one block. */
  method CopyBlock(code: byte, input: array<byte>, inputLen: nat, output: array<byte>, outputLen: nat,
                   readIdx0: nat, writeIdx0: nat, ghost body: seq<byte>, ghost was: seq<byte>, ghost s0: Reader)
    returns (ok: bool, readIdx: nat, writeIdx: nat, ghost s: Reader)
    requires 0 < inputLen <= input.Length && inputLen == |body| + 1 && ToRead(input[..], body, readIdx0)
    requires s0.Reader? && Decoding(body, readIdx0, s0, output[..], was, outputLen, writeIdx0, s0.out)
    requires s0.left + 1 == Value(code)
    modifies output
    ensures !ok && Unstuffed(body).Some? ==> |Unstuffed(body).value| > outputLen
    ensures s.Reader? && Decoding(body, readIdx, s, output[..], was, outputLen, writeIdx, s.out)
    ensures ToRead(input[..], body, readIdx)
    ensures ok ==> s.left == 0
    ensures s.full == s0.full && readIdx >= readIdx0
  {
    ok, readIdx, writeIdx, s := false, readIdx0, writeIdx0, s0;
    var i: byte := 1;
    assert Value(1) == 1;
    while i < code
      invariant s.Reader? && Value(i) + s.left == Value(code) && s.full == s0.full && readIdx >= readIdx0
      invariant Decoding(body, readIdx, s, output[..], was, outputLen, writeIdx, s.out)
      invariant ToRead(input[..], body, readIdx)
      decreases s.left
    {
      CountUp(i, code);
      ReadShrinks(body, readIdx);
      DecodingData(body, readIdx, s, output[..], was, outputLen, writeIdx);
      if readIdx >= inputLen - 1 {
        return;
      }
      var b := input[readIdx];
      if b == 0 {
        return;
      }
      if writeIdx >= outputLen {
        return;
      }
      ToReadNext(input[..], body, readIdx);
      ToReadStill(input[..], body, readIdx + 1, writeIdx, b);
      ghost var before := input[..];
      output[writeIdx] := b;
      assert input[..] == if input == output then before[writeIdx := b] else before;
      readIdx, writeIdx, i, s := readIdx + 1, writeIdx + 1, i + 1, s.Read(b);
    }
    ValueOrder(i, code);
    ok := true;
  }

  /** Between two blocks the zero that the last one stands for has been written, unless the body ends there. */
  ghost predicate BetweenBlocks(body: seq<byte>, r: nat, s: Reader, o: seq<byte>, was: seq<byte>, outputLen: nat,
                                writeIdx: nat, out: seq<byte>)
  {
    && Decoding(body, r, s, o, was, outputLen, writeIdx, out)
    && s.left == 0 && out == s.out + (if r < |body| then s.Gap() else [])
  }

  lemma DecodingStarts(wire: seq<byte>, body: seq<byte>, was: seq<byte>, outputLen: nat)
    requires |wire| >= 2 && wire[|wire| - 1] == 0 && body == wire[..|wire| - 1] && outputLen <= |was|
    ensures Decoded(wire) == Unstuffed(body)
    ensures Unstuffed(body).None? || |Unstuffed(body).value| > outputLen ==> DecodedLength(wire, outputLen) == 0
    ensures Unstuffed(body).Some? && |Unstuffed(body).value| <= outputLen ==>
              DecodedLength(wire, outputLen) == |Unstuffed(body).value|
    ensures BetweenBlocks(body, 0, FRESH, was, was, outputLen, 0, [])
  {
  }

  lemma ToReadStarts(input: seq<byte>, body: seq<byte>)
    requires body <= input
    ensures ToRead(input, body, 0)
  {
  }

  /** A code byte. */
  lemma DecodingCode(body: seq<byte>, r: nat, s: Reader, o: seq<byte>, was: seq<byte>, outputLen: nat, w: nat,
                     out: seq<byte>)
    requires r < |body| && BetweenBlocks(body, r, s, o, was, outputLen, w, out)
    ensures body[r] == 0 ==> Unstuffed(body).None?
    ensures body[r] != 0 ==>
              var s' := s.Read(body[r]);
              && s'.Reader? && s'.left + 1 == Value(body[r]) && s'.full == (body[r] == 0xFF)
              && Decoding(body, r + 1, s', o, was, outputLen, w, s'.out)
  {
    DecodingReads(body, r, s);
    ValueOrder(0, body[r]);
  }

  /** Behind a block. */
  lemma DecodingGap(body: seq<byte>, r: nat, s: Reader, o: seq<byte>, was: seq<byte>, outputLen: nat, w: nat)
    requires s.Reader? && s.left == 0 && Decoding(body, r, s, o, was, outputLen, w, s.out)
    ensures r == |body| || s.full ==> BetweenBlocks(body, r, s, o, was, outputLen, w, s.out)
    ensures r < |body| && !s.full && w < outputLen ==>
              BetweenBlocks(body, r, s, o[w := 0], was, outputLen, w + 1, s.out + [0])
    ensures r < |body| && !s.full && w >= outputLen && Unstuffed(body).Some? ==> |Unstuffed(body).value| > outputLen
    ensures w == |s.out| <= outputLen <= |o| && r <= |body|
  {
    if r == |body| || s.full {
      assert s.out + [] == s.out;
    } else {
      DecodingReads(body, r, s);
      if w < outputLen {
        WroteMore(o, was, outputLen, s.out, 0);
      }
    }
  }

  lemma DecodingEnds(body: seq<byte>, s: Reader, o: seq<byte>, was: seq<byte>, outputLen: nat, w: nat, out: seq<byte>)
    requires BetweenBlocks(body, |body|, s, o, was, outputLen, w, out)
    ensures Unstuffed(body) == Some(out) && w == |out| <= outputLen && o[..w] == out
  {
    ReadDone(body);
    assert s.out + [] == s.out;
  }

  /** What has been written so far leaves the rest of the buffer alone. */
  lemma BeyondKept(body: seq<byte>, r: nat, s: Reader, o: seq<byte>, was: seq<byte>, outputLen: nat, w: nat,
                   out: seq<byte>)
    requires Decoding(body, r, s, o, was, outputLen, w, out)
    ensures outputLen <= |o| == |was| && o[outputLen..] == was[outputLen..]
  {
  }

  /** Input and output may be one buffer. */
  method CobsDecode(input: array<byte>, inputLen: nat, output: array<byte>, outputLen: nat) returns (n: nat)
    requires inputLen <= input.Length && outputLen <= output.Length
    modifies output
    ensures n == DecodedLength(old(input[..inputLen]), outputLen)
    ensures n > 0 ==> output[..n] == Decoded(old(input[..inputLen])).value
    ensures output[outputLen..] == old(output[outputLen..])
  {
    if inputLen < 2 || input[inputLen - 1] != 0 {
      return 0;
    }
    var readIdx: nat, writeIdx: nat := 0, 0;
    ghost var body, was, s, out := input[..inputLen - 1], output[..], FRESH, [];
    DecodingStarts(input[..inputLen], body, was, outputLen);
    ToReadStarts(input[..], body);
    hide *;

    while readIdx < inputLen - 1
      invariant s.Reader? && readIdx <= inputLen - 1 && ToRead(input[..], body, readIdx)
      invariant BetweenBlocks(body, readIdx, s, output[..], was, outputLen, writeIdx, out)
      invariant output[outputLen..] == was[outputLen..]
      decreases inputLen - readIdx
    {
      var code := input[readIdx];
      ToReadNext(input[..], body, readIdx);
      DecodingCode(body, readIdx, s, output[..], was, outputLen, writeIdx, out);
      if code == 0 {
        return 0;
      }
      s := s.Read(code);
      var ok;
      ok, readIdx, writeIdx, s :=
        CopyBlock(code, input, inputLen, output, outputLen, readIdx + 1, writeIdx, body, was, s);
      BeyondKept(body, readIdx, s, output[..], was, outputLen, writeIdx, s.out);
      if !ok {
        return 0;
      }
      DecodingGap(body, readIdx, s, output[..], was, outputLen, writeIdx);
      out := s.out;
      if code < 0xFF && readIdx < inputLen - 1 {
        if writeIdx >= outputLen {
          return 0;
        }
        ReadShrinks(body, readIdx);
        ToReadStill(input[..], body, readIdx, writeIdx, 0);
        ghost var before := input[..];
        output[writeIdx] := 0;
        assert input[..] == if input == output then before[writeIdx := 0] else before;
        writeIdx := writeIdx + 1;
        out := out + [0];
      }
    }
    DecodingEnds(body, s, output[..], was, outputLen, writeIdx, out);
    n := writeIdx;
  }
}
