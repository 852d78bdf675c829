/** What the stuffing is for: no zero before the delimiter, and nothing lost, added or confused. */
module CobsTheorems {
  import opened Bytes
  import opened Cobs
  import opened Wrappers

  // ---- Blocks ----

  ghost predicate IsBlock(p: seq<byte>) {
    |p| <= 254 && NoZero(p)
  }

  /** The zero that a block stands for unless it is full or the last one. */
  function GapAfter(p: seq<byte>, rest: seq<byte>): seq<byte> {
    if |p| < 254 && rest != [] then [0] else []
  }

  lemma BlockOnWire(p: seq<byte>, rest: seq<byte>)
    requires IsBlock(p)
    ensures Value((Block(p) + rest)[0]) == |p| + 1
    ensures Unstuffed(rest).None? ==> Unstuffed(Block(p) + rest).None?
    ensures Unstuffed(rest).Some? ==> Unstuffed(Block(p) + rest) == Some(p + GapAfter(p, rest) + Unstuffed(rest).value)
  {
    var body := Block(p) + rest;
    ValueOfNth(|p| + 1);
    assert body[1..|p| + 1] == p;
    assert body[|p| + 1..] == rest;
  }

  lemma SplitAt(body: seq<byte>, code: nat)
    requires 0 < code <= |body|
    ensures body == ([body[0]] + body[1..code]) + body[code..]
  {
  }

  /** The first block of an accepted body. */
  lemma FirstBlock(body: seq<byte>) returns (p: seq<byte>, rest: seq<byte>)
    requires Unstuffed(body).Some? && body != []
    ensures IsBlock(p) && body == Block(p) + rest && Value(body[0]) == |p| + 1
    ensures rest == body[|p| + 1..] && Unstuffed(rest).Some?
    ensures Unstuffed(body).value == p + GapAfter(p, rest) + Unstuffed(rest).value
  {
    var code := Value(body[0]);
    NthOfValue(body[0]);
    ValueIsInt(body[0]);
    SplitAt(body, code);
    p, rest := body[1..code], body[code..];
  }

  /** The first run of a message: it ends the message, or a zero follows, or it is full. */
  lemma FirstRun(x: seq<byte>) returns (p: seq<byte>, rest: seq<byte>, last: bool)
    ensures IsBlock(p) && |rest| < |x| + (if last then 1 else 0)
    ensures last ==> |p| < 254 && x == p && Stuffed(x) == Block(p)
    ensures !last ==> x == p + (if |p| < 254 then [0] else []) + rest && Stuffed(x) == Block(p) + Stuffed(rest)
  {
    var n := RunLength(x);
    p := x[..n];
    if n == 254 {
      rest, last := x[n..], false;
    } else if n == |x| {
      rest, last := [], true;
      StuffedAtEnd(p);
      assert p == x;
    } else {
      rest, last := x[n + 1..], false;
    }
  }

  lemma StuffedNonempty(x: seq<byte>)
    ensures |Stuffed(x)| > 0
  {
  }

  /** Decoding takes back encoding, for every byte string. */
  lemma {:induction false} RoundTrip(x: seq<byte>)
    ensures Unstuffed(Stuffed(x)) == Some(x)
    decreases |x|
  {
    var p, rest, last := FirstRun(x);
    if last {
      BlockOnWire(p, []);
      assert Block(p) + [] == Block(p);
      assert p + [] + [] == p;
    } else {
      RoundTrip(rest);
      StuffedNonempty(rest);
      BlockOnWire(p, Stuffed(rest));
    }
  }

  lemma EncodedDecodes(x: seq<byte>)
    ensures |Encoded(x)| >= 2 && Decoded(Encoded(x)) == Some(x)
  {
    RoundTrip(x);
    var wire := Encoded(x);
    assert wire[..|wire| - 1] == Stuffed(x);
  }

  /** The delimiter is the only zero of the wire form. */
  lemma {:induction false} NoZeroInside(x: seq<byte>)
    ensures NoZero(Stuffed(x))
    decreases |x|
  {
    var p, rest, last := FirstRun(x);
    ValueOfNth(|p| + 1);
    assert NoZero(Block(p));
    if !last {
      NoZeroInside(rest);
    }
  }

  // ---- Size ----

  /** How many 254-byte blocks the encoder emits. */
  function FullBlocks(x: seq<byte>): nat
    decreases |x|
  {
    var n := RunLength(x);
    if n == 254 then 1 + FullBlocks(x[n..])
    else if n == |x| then 0
    else FullBlocks(x[n + 1..])
  }

  lemma {:induction false} EncodedSize(x: seq<byte>)
    ensures |Encoded(x)| == |x| + 2 + FullBlocks(x)
    ensures 254 * FullBlocks(x) <= |x|
    decreases |x|
  {
    var n := RunLength(x);
    if n == 254 {
      EncodedSize(x[n..]);
    } else if n < |x| {
      EncodedSize(x[n + 1..]);
    }
  }

  lemma {:induction false} WorstCase(x: seq<byte>)
    requires NoZero(x)
    ensures FullBlocks(x) == |x| / 254
    decreases |x|
  {
    var n := RunLength(x);
    if n == 254 {
      WorstCase(x[n..]);
    }
  }

  /** The encoder's entry guard is enough for every input of a length, and one byte less is not: an
      input without zeros fills it. */
  lemma RoomIsExact(x: seq<byte>)
    ensures |Encoded(x)| <= Room(|x|)
    ensures NoZero(x) ==> |Encoded(x)| == Room(|x|)
  {
    EncodedSize(x);
    if NoZero(x) {
      WorstCase(x);
    }
  }

  /** Decoding a chunk of n bytes, delimiter included, yields at most n - 2. */
  lemma {:induction false} DecodedSize(body: seq<byte>)
    requires Unstuffed(body).Some? && body != []
    ensures |Unstuffed(body).value| <= |body| - 1
    decreases |body|
  {
    var code := Value(body[0]);
    var rest := body[code..];
    if rest != [] {
      DecodedSize(rest);
    }
  }

  /** The overflow test of the decoder cannot fire when the output has room for the chunk less two. */
  lemma NoOverflow(wire: seq<byte>, outputLen: nat)
    requires outputLen + 2 >= |wire|
    ensures Decoded(wire).Some? ==> DecodedLength(wire, outputLen) == |Decoded(wire).value|
  {
    if Decoded(wire).Some? {
      DecodedSize(wire[..|wire| - 1]);
    }
  }

  // ---- Canonical form ----

  /** The last block of the body is a full one. */
  predicate EndsFull(body: seq<byte>) {
    body != [] &&
    var code := Value(body[0]);
    0 < code <= |body| && if code == |body| then code == 255 else EndsFull(body[code..])
  }

  lemma StuffedFirst(p: seq<byte>, rest: seq<byte>, tail: seq<byte>)
    requires IsBlock(p) && (rest == [] ==> tail == [])
    ensures Stuffed(p + GapAfter(p, rest) + tail)
         == if |p| < 254 && rest == [] then Block(p) else Block(p) + Stuffed(tail)
  {
    if |p| == 254 {
      assert p + [] + tail == p + tail;
      StuffedAtFull(p, tail);
    } else if rest == [] {
      assert p + [] + [] == p;
      StuffedAtEnd(p);
    } else {
      assert p + [0] + tail == p + ([0] + tail);
      StuffedAtZero(p, tail);
    }
  }

  lemma EndsFullFirst(body: seq<byte>, p: seq<byte>, rest: seq<byte>)
    requires IsBlock(p) && body == Block(p) + rest && Value(body[0]) == |p| + 1 && rest == body[|p| + 1..]
    ensures EndsFull(body) == if rest == [] then |p| == 254 else EndsFull(rest)
  {
  }

  lemma EmptyStuffed()
    ensures Stuffed([]) == [1]
  {
    StuffedAtEnd([]);
    assert Nth(1) == 1;
  }

  lemma AppendEmpty(s: seq<byte>)
    ensures s + [] == s
  {
  }

  lemma Associative(a: seq<byte>, b: seq<byte>, c: seq<byte>)
    ensures a + (b + c) == a + b + c
  {
  }

  lemma CanonicalFirst(p: seq<byte>, rest: seq<byte>, tail: seq<byte>, full: bool)
    requires IsBlock(p)
    requires if rest == [] then tail == [] && full == (|p| == 254)
             else Stuffed(tail) == if full then rest + [1] else rest
    ensures Stuffed(p + GapAfter(p, rest) + tail) == Block(p) + rest + if full then [1] else []
  {
    StuffedFirst(p, rest, tail);
    EmptyStuffed();
    if rest == [] {
      AppendEmpty(Block(p));
      AppendEmpty(Block(p) + rest);
    } else {
      AppendEmpty(Block(p) + rest);
      Associative(Block(p), rest, [1]);
    }
  }

  /** Encoding what was decoded gives back the same wire, except that after a closing full block the
      encoder adds an empty block. */
  lemma {:induction false} Canonical(body: seq<byte>)
    requires Unstuffed(body).Some? && body != []
    ensures Stuffed(Unstuffed(body).value) == if EndsFull(body) then body + [1] else body
    decreases |body|
  {
    var p, rest := FirstBlock(body);
    if rest != [] {
      Canonical(rest);
    }
    EndsFullFirst(body, p, rest);
    CanonicalFirst(p, rest, Unstuffed(rest).value, EndsFull(body));
  }

  /** Two bodies that do not end in a full block and decode alike are the same. */
  lemma DecodingInjective(a: seq<byte>, b: seq<byte>)
    requires a != [] && b != [] && !EndsFull(a) && !EndsFull(b)
    requires Unstuffed(a).Some? && Unstuffed(a) == Unstuffed(b)
    ensures a == b
  {
    Canonical(a);
    Canonical(b);
  }

  /** A result of 0 means a malformed chunk, one that does not fit, or the empty frame 01 00. */
  lemma ZeroIsAmbiguous(wire: seq<byte>)
    ensures Decoded(wire) == Some([]) <==> wire == [1, 0]
  {
    EmptyStuffed();
    if wire == [1, 0] {
      assert wire == Encoded([]);
      EncodedDecodes([]);
    }
    if Decoded(wire) == Some([]) {
      var body := wire[..|wire| - 1];
      Canonical(body);
      assert wire == body + [0];
    }
  }

  // ---- The accepted language ----

  function Flat(blocks: seq<seq<byte>>): seq<byte> {
    if blocks == [] then [] else Block(blocks[0]) + Flat(blocks[1..])
  }

  /** What a list of blocks stands for: a zero after every block but the full ones and the last. */
  function Joined(blocks: seq<seq<byte>>): seq<byte> {
    if blocks == [] then []
    else blocks[0] + GapAfter(blocks[0], Flat(blocks[1..])) + Joined(blocks[1..])
  }

  lemma {:induction false} FlatDecodes(blocks: seq<seq<byte>>)
    requires forall p | p in blocks :: IsBlock(p)
    ensures Unstuffed(Flat(blocks)) == Some(Joined(blocks))
    decreases |blocks|
  {
    if blocks != [] {
      assert IsBlock(blocks[0]);
      FlatDecodes(blocks[1..]);
      BlockOnWire(blocks[0], Flat(blocks[1..]));
    }
  }

  lemma {:induction false} BlocksOf(body: seq<byte>) returns (blocks: seq<seq<byte>>)
    requires Unstuffed(body).Some?
    ensures Flat(blocks) == body && forall p | p in blocks :: IsBlock(p)
    decreases |body|
  {
    if body == [] {
      blocks := [];
    } else {
      var p, rest := FirstBlock(body);
      var others := BlocksOf(rest);
      blocks := [p] + others;
      assert blocks[1..] == others;
    }
  }

  /** The decoder accepts exactly the concatenations of blocks. */
  lemma AcceptedLanguage(body: seq<byte>)
    ensures Unstuffed(body).Some? <==>
            exists blocks :: Flat(blocks) == body && forall p | p in blocks :: IsBlock(p)
  {
    if Unstuffed(body).Some? {
      var blocks := BlocksOf(body);
    }
    if blocks :| Flat(blocks) == body && forall p | p in blocks :: IsBlock(p) {
      FlatDecodes(blocks);
    }
  }

  // ---- One byte damaged ----

  /** Position j of the body is a data byte, not a code byte. */
  predicate IsData(body: seq<byte>, j: nat)
    requires j < |body|
  {
    var code := Value(body[0]);
    j != 0 && code != 0 && if j < code then true else IsData(body[code..], j - code)
  }

  lemma ChangeInBlock(p: seq<byte>, rest: seq<byte>, j: nat, v: byte)
    requires 0 < j <= |p|
    ensures (Block(p) + rest)[j := v] == Block(p[j - 1 := v]) + rest
  {
  }

  lemma ChangeInRest(p: seq<byte>, rest: seq<byte>, m: nat, v: byte)
    requires m < |rest|
    ensures (Block(p) + rest)[|p| + 1 + m := v] == Block(p) + rest[m := v]
  {
  }

  lemma SameGap(p: seq<byte>, p': seq<byte>, rest: seq<byte>, rest': seq<byte>)
    requires |p| == |p'| && |rest| == |rest'|
    ensures GapAfter(p, rest) == GapAfter(p', rest')
  {
  }

  lemma ChangeInSum(a: seq<byte>, b: seq<byte>, c: seq<byte>, k: nat, v: byte)
    ensures k < |a| ==> (a + b + c)[k] == a[k]
    ensures k < |c| ==> (a + b + c)[|a| + |b| + k] == c[k]
    ensures k < |a| ==> a[k := v] + b + c == (a + b + c)[k := v]
    ensures k < |c| ==> a + b + c[k := v] == (a + b + c)[|a| + |b| + k := v]
  {
  }

  lemma BlockByteChanged(p: seq<byte>, rest: seq<byte>, tail: seq<byte>, j: nat, v: byte)
    requires IsBlock(p) && 0 < j <= |p| && v != 0 && Unstuffed(rest) == Some(tail)
    ensures Unstuffed((Block(p) + rest)[j := v]) == Some((p + GapAfter(p, rest) + tail)[j - 1 := v])
    ensures (p + GapAfter(p, rest) + tail)[j - 1] == (Block(p) + rest)[j]
  {
    ChangeInBlock(p, rest, j, v);
    BlockOnWire(p[j - 1 := v], rest);
    SameGap(p, p[j - 1 := v], rest, rest);
    ChangeInSum(p, GapAfter(p, rest), tail, j - 1, v);
  }

  lemma RestByteChanged(p: seq<byte>, rest: seq<byte>, tail: seq<byte>, i: nat, m: nat, v: byte)
    requires IsBlock(p) && i < |rest| && m < |tail| && Unstuffed(rest[i := v]) == Some(tail[m := v])
    requires tail[m] == rest[i]
    ensures (p + GapAfter(p, rest) + tail)[|p| + |GapAfter(p, rest)| + m] == (Block(p) + rest)[|p| + 1 + i]
    ensures Unstuffed((Block(p) + rest)[|p| + 1 + i := v])
         == Some((p + GapAfter(p, rest) + tail)[|p| + |GapAfter(p, rest)| + m := v])
  {
    ChangeInRest(p, rest, i, v);
    BlockOnWire(p, rest[i := v]);
    SameGap(p, p, rest, rest[i := v]);
    ChangeInSum(p, GapAfter(p, rest), tail, m, v);
  }

  lemma DataInRest(body: seq<byte>, p: seq<byte>, rest: seq<byte>, j: nat)
    requires j < |body| && IsData(body, j) && |p| < |body|
    requires Value(body[0]) == |p| + 1 && rest == body[|p| + 1..]
    ensures j > 0 && (j > |p| ==> IsData(rest, j - (|p| + 1)))
  {
  }

  /** Replacing a data byte by another nonzero byte replaces the same byte of the message. */
  lemma {:induction false} DataByteChanged(body: seq<byte>, x: seq<byte>, j: nat, v: byte) returns (k: nat)
    requires Unstuffed(body).Some? && Unstuffed(body).value == x && j < |body| && IsData(body, j) && v != 0
    ensures k < |x| && x[k] == body[j] && (|body| < 255 ==> k == j - 1)
    ensures Unstuffed(body[j := v]) == Some(x[k := v])
    decreases |body|
  {
    hide Unstuffed, Block, GapAfter, IsData, NoZero;
    var p, rest := FirstBlock(body);
    BlockSize(p);
    DataInRest(body, p, rest, j);
    var tail := Unstuffed(rest).value;
    if j <= |p| {
      k := j - 1;
      BlockByteChanged(p, rest, tail, j, v);
    } else {
      var i := j - (|p| + 1);
      var m := DataByteChanged(rest, tail, i, v);
      k := |p| + |GapAfter(p, rest)| + m;
      RestByteChanged(p, rest, tail, i, m, v);
      GapSize(p, rest);
    }
  }

  lemma GapSize(p: seq<byte>, rest: seq<byte>)
    ensures |p| < 254 && rest != [] ==> |GapAfter(p, rest)| == 1
  {
  }

  lemma BlockSize(p: seq<byte>)
    ensures |Block(p)| == |p| + 1
  {
  }

  /** Cutting the body at a data byte leaves a malformed one. */
  lemma {:induction false} DataByteCut(body: seq<byte>, j: nat)
    requires Unstuffed(body).Some? && j < |body| && IsData(body, j)
    ensures Unstuffed(body[..j]).None?
    decreases |body|
  {
    var code := Value(body[0]);
    var cut := body[..j];
    if code <= j {
      var rest := body[code..];
      DataByteCut(rest, j - code);
      assert cut[code..] == rest[..j - code];
    }
  }
}
