/** What the 16-bit check of a received frame catches, for frames of any length. */
module CrcDetection {
  import opened Bytes
  import opened Crc16
  import opened Gf2
  import opened ErrorPatterns

  function High(w: bv16): byte {
    (w >> 8) as byte
  }

  function Low(w: bv16): byte {
    (w & 0xFF) as byte
  }

  function Join(h: byte, l: byte): bv16 {
    ((h as bv16) << 8) | (l as bv16)
  }

  /** A message followed by its checksum, high byte first. */
  function Sealed(data: seq<byte>): seq<byte> {
    data + [High(Crc(data)), Low(Crc(data))]
  }

  /** The receivers' test: the last two bytes are the checksum of the bytes before them. */
  predicate Check(frame: seq<byte>) {
    var n := |frame|;
    n >= 2 && Join(frame[n - 2], frame[n - 1]) == Crc(frame[..n - 2])
  }

  lemma JoinSplit(w: bv16, h: byte, l: byte)
    ensures Join(High(w), Low(w)) == w
    ensures High(Join(h, l)) == h && Low(Join(h, l)) == l
  {
  }

  lemma SealedChecks(data: seq<byte>)
    ensures Check(Sealed(data))
  {
    JoinSplit(Crc(data), 0, 0);
    assert Sealed(data)[..|data|] == data;
  }

  /** The test is exact: only sealed messages pass. */
  lemma CheckMeansSealed(frame: seq<byte>)
    requires Check(frame)
    ensures frame == Sealed(frame[..|frame| - 2])
  {
    var n := |frame|;
    JoinSplit(0, frame[n - 2], frame[n - 1]);
    assert frame == frame[..n - 2] + [frame[n - 2], frame[n - 1]];
  }

  // ---- The CRC register divides ----

  function WordBit(w: bv16, k: nat): bit
    requires k < 16
  {
    ((w >> k) & 1) as bit
  }

  lemma WordBitAfterShift(w: bv16, k: nat)
    requires k < 15
    ensures WordBit(w << 1, k + 1) == WordBit(w, k)
  {
    if k == 0 {
    } else if k == 1 {
    } else if k == 2 {
    } else if k == 3 {
    } else if k == 4 {
    } else if k == 5 {
    } else if k == 6 {
    } else if k == 7 {
    } else if k == 8 {
    } else if k == 9 {
    } else if k == 10 {
    } else if k == 11 {
    } else if k == 12 {
    } else if k == 13 {
    } else if k == 14 {
    }
  }

  lemma {:induction false} TopBitAt(w: bv16, n: nat, i: nat)
    requires i < n <= 16
    ensures TopBits(w, n)[i] == WordBit(w, 15 - i)
    decreases n
  {
    if i != 0 {
      TopBitAt(w << 1, n - 1, i - 1);
      WordBitAfterShift(w, 15 - i);
    }
  }

  lemma WordBitOfJoin(h: byte, l: byte, k: nat)
    requires k < 8
    ensures WordBit(Join(h, l), k) == BitAt(l, k)
    ensures WordBit(Join(h, l), k + 8) == BitAt(h, k)
  {
    if k == 0 {
    } else if k == 1 {
    } else if k == 2 {
    } else if k == 3 {
    } else if k == 4 {
    } else if k == 5 {
    } else if k == 6 {
    } else if k == 7 {
    }
  }

  lemma TopBitOfJoin(h: byte, l: byte, i: nat)
    requires i < 8
    ensures TopBits(Join(h, l), 16)[i] == Bits8(h)[i]
    ensures TopBits(Join(h, l), 16)[i + 8] == Bits8(l)[i]
  {
    TopBitAt(Join(h, l), 16, i);
    TopBitAt(Join(h, l), 16, i + 8);
    WordBitOfJoin(h, l, 7 - i);
    BitFromTop(h, 7 - i);
    BitFromTop(l, 7 - i);
  }

  lemma TwoHalves(s: seq<bit>, a: seq<bit>, b: seq<bit>)
    requires |s| == 16 && |a| == 8 && |b| == 8
    requires forall i | 0 <= i < 8 :: s[i] == a[i] && s[i + 8] == b[i]
    ensures s == a + b
  {
    forall i | 8 <= i < 16
      ensures s[i] == b[i - 8]
    {
      assert s[(i - 8) + 8] == b[i - 8];
    }
  }

  lemma TopBitsOfJoin(h: byte, l: byte)
    ensures TopBits(Join(h, l), 16) == Bits8(h) + Bits8(l)
  {
    var top, a, b := TopBits(Join(h, l), 16), Bits8(h), Bits8(l);
    forall i | 0 <= i < 8
      ensures top[i] == a[i] && top[i + 8] == b[i]
    {
      TopBitOfJoin(h, l, i);
    }
    TwoHalves(top, a, b);
  }

  function TailBit(k: nat): bit {
    if k == 0 || k == 5 || k == 12 then 1 else 0
  }

  function PreviousBit(r: bv16, k: nat): bit
    requires k < 16
  {
    if k == 0 then 0 else WordBit(r, k - 1)
  }

  lemma FeedBitAt(r: bv16, b: bit, k: nat)
    requires k < 16
    ensures WordBit(FeedBit(r, b), k) == PreviousBit(r, k) ^ ((WordBit(r, 15) ^ b) & TailBit(k))
  {
    if k == 0 {
    } else if k == 1 {
    } else if k == 2 {
    } else if k == 3 {
    } else if k == 4 {
    } else if k == 5 {
    } else if k == 6 {
    } else if k == 7 {
    } else if k == 8 {
    } else if k == 9 {
    } else if k == 10 {
    } else if k == 11 {
    } else if k == 12 {
    } else if k == 13 {
    } else if k == 14 {
    } else if k == 15 {
    }
  }

  lemma TailBitAt(i: nat)
    requires i < 16
    ensures TAIL[i] == TailBit(15 - i)
  {
  }

  lemma FedBitFromTop(r: bv16, fed: bv16, b: bit, i: nat)
    requires i < 16
    requires WordBit(fed, 15 - i) == PreviousBit(r, 15 - i) ^ ((WordBit(r, 15) ^ b) & TailBit(15 - i))
    ensures TopBits(fed, 16)[i]
         == (if i == 15 then 0 else TopBits(r, 16)[i + 1]) ^ ((TopBits(r, 16)[0] ^ b) & TAIL[i])
  {
    hide WordBit, TopBits;
    TopBitAt(fed, 16, i);
    TopBitAt(r, 16, 0);
    TailBitAt(i);
    if i < 15 {
      TopBitAt(r, 16, i + 1);
    }
  }

  lemma StepFromBits(x: seq<bit>, r: Register, b: bit)
    requires |x| == 16
    requires forall i | 0 <= i < 16 :: x[i] == (if i == 15 then 0 else r[i + 1]) ^ ((r[0] ^ b) & TAIL[i])
    ensures x == Step(r, b)
  {
  }

  /** The bits of the CRC register are a division register. */
  lemma FeedBitDivides(r: bv16, b: bit)
    ensures TopBits(FeedBit(r, b), 16) == Step(TopBits(r, 16), b)
  {
    var x, reg := TopBits(FeedBit(r, b), 16), TopBits(r, 16);
    forall i | 0 <= i < 16
      ensures x[i] == (if i == 15 then 0 else reg[i + 1]) ^ ((reg[0] ^ b) & TAIL[i])
    {
      FeedBitAt(r, b, 15 - i);
      FedBitFromTop(r, FeedBit(r, b), b, i);
    }
    StepFromBits(x, reg, b);
  }

  lemma {:induction false} FeedDivides(r: bv16, bits: seq<bit>)
    ensures TopBits(Feed(r, bits), 16) == Run(TopBits(r, 16), bits)
    decreases bits
  {
    if bits != [] {
      FeedBitDivides(r, bits[0]);
      FeedDivides(FeedBit(r, bits[0]), bits[1..]);
    }
  }

  lemma SixteenBits(a: bv16, b: bv16)
    requires WordBit(a, 0) == WordBit(b, 0) && WordBit(a, 1) == WordBit(b, 1)
    requires WordBit(a, 2) == WordBit(b, 2) && WordBit(a, 3) == WordBit(b, 3)
    requires WordBit(a, 4) == WordBit(b, 4) && WordBit(a, 5) == WordBit(b, 5)
    requires WordBit(a, 6) == WordBit(b, 6) && WordBit(a, 7) == WordBit(b, 7)
    requires WordBit(a, 8) == WordBit(b, 8) && WordBit(a, 9) == WordBit(b, 9)
    requires WordBit(a, 10) == WordBit(b, 10) && WordBit(a, 11) == WordBit(b, 11)
    requires WordBit(a, 12) == WordBit(b, 12) && WordBit(a, 13) == WordBit(b, 13)
    requires WordBit(a, 14) == WordBit(b, 14) && WordBit(a, 15) == WordBit(b, 15)
    ensures a == b
  {
  }

  lemma TopBitsInjective(a: bv16, b: bv16)
    requires TopBits(a, 16) == TopBits(b, 16)
    ensures a == b
  {
    forall k: nat | k < 16
      ensures WordBit(a, k) == WordBit(b, k)
    {
      TopBitAt(a, 16, 15 - k);
      TopBitAt(b, 16, 15 - k);
    }
    SixteenBits(a, b);
  }

  // ---- Theorems about frames ----

  const PRESET: Register := seq(16, _ => 1 as bit)

  lemma PresetIsInit()
    ensures TopBits(INIT, 16) == PRESET
  {
    forall i | 0 <= i < 16
      ensures TopBits(INIT, 16)[i] == 1
    {
      TopBitAt(INIT, 16, i);
      PresetBit(15 - i);
    }
  }

  lemma PresetBit(k: nat)
    requires k < 16
    ensures WordBit(INIT, k) == 1
  {
    if k == 0 {
    } else if k == 1 {
    } else if k == 2 {
    } else if k == 3 {
    } else if k == 4 {
    } else if k == 5 {
    } else if k == 6 {
    } else if k == 7 {
    } else if k == 8 {
    } else if k == 9 {
    } else if k == 10 {
    } else if k == 11 {
    } else if k == 12 {
    } else if k == 13 {
    } else if k == 14 {
    } else if k == 15 {
    }
  }

  lemma CrcBits(data: seq<byte>)
    ensures TopBits(Crc(data), 16) == Run(PRESET, Bits(data))
  {
    PresetIsInit();
    FeedDivides(INIT, Bits(data));
  }

  /** The checksum is the one remainder of data(x) * x^16 + 0xFFFF * x^(8n) by the generator. */
  lemma CrcIsTheRemainder(data: seq<byte>, w: bv16)
    ensures IsRemainder(PRESET, Bits(data), TopBits(w, 16)) <==> w == Crc(data)
  {
    CrcBits(data);
    RunIsTheRemainder(PRESET, Bits(data), TopBits(w, 16));
    if TopBits(w, 16) == TopBits(Crc(data), 16) {
      TopBitsInjective(w, Crc(data));
    }
  }

  /** The receivers' comparison holds exactly when the whole frame leaves the register empty. */
  lemma CheckIsResidueZero(frame: seq<byte>)
    requires |frame| >= 2
    ensures Check(frame) <==> Run(PRESET, Bits(frame)) == EMPTY
  {
    var n := |frame|;
    var body, h, l := frame[..n - 2], frame[n - 2], frame[n - 1];
    assert frame == body + ([h] + [l]);
    BitsConcat(body, [h] + [l]);
    BitsConcat([h], [l]);
    BitsOfOne(h);
    BitsOfOne(l);
    TopBitsOfJoin(h, l);
    CrcBits(body);
    var w: Register := TopBits(Join(h, l), 16);
    RunConcat(PRESET, Bits(body), w);
    SixteenEmpty(TopBits(Crc(body), 16), w);
    if TopBits(Crc(body), 16) == w {
      TopBitsInjective(Crc(body), Join(h, l));
    }
  }

  function Errors(sent: seq<byte>, got: seq<byte>): seq<bit>
    requires |got| == |sent|
  {
    XorBits(Bits(sent), Bits(got))
  }

  lemma XorTwice(a: seq<bit>, b: seq<bit>)
    requires |a| == |b|
    ensures XorBits(a, XorBits(a, b)) == b
  {
  }

  /** An altered frame passes exactly when the generator divides the error pattern. */
  lemma UndetectedIff(sent: seq<byte>, got: seq<byte>)
    requires Check(sent) && |got| == |sent|
    ensures Check(got) <==> Unnoticed(Errors(sent, got))
  {
    CheckIsResidueZero(sent);
    CheckIsResidueZero(got);
    var e := Errors(sent, got);
    XorWithEmpty(PRESET);
    XorTwice(Bits(sent), Bits(got));
    RunLinear(PRESET, EMPTY, Bits(sent), e);
    XorWithZeros(Run(EMPTY, e));
  }

  lemma NoErrorsMeansEqual(sent: seq<byte>, got: seq<byte>)
    requires |got| == |sent|
    requires Errors(sent, got) == ZeroBits(8 * |sent|)
    ensures got == sent
  {
    SelfXor(Bits(sent), Bits(got));
    BitsInjective(sent, got);
  }

  /** A frame with an error burst of up to 16 bits anywhere in payload or checksum is rejected. */
  lemma BurstDetected(sent: seq<byte>, got: seq<byte>, k: nat)
    requires Check(sent) && |got| == |sent| && got != sent
    requires InWindow(Errors(sent, got), k, 16)
    ensures !Check(got)
  {
    var e := Errors(sent, got);
    UndetectedIff(sent, got);
    var k' := if k + 16 <= |e| then k else |e| - 16;
    Burst16(e, k');
    if e == ZeroBits(|e|) {
      NoErrorsMeansEqual(sent, got);
    }
  }

  /** A frame with an odd number of flipped bits is rejected. */
  lemma OddDetected(sent: seq<byte>, got: seq<byte>)
    requires Check(sent) && |got| == |sent|
    requires Ones(Errors(sent, got)) % 2 == 1
    ensures !Check(got)
  {
    UndetectedIff(sent, got);
    if Check(got) {
      OddErrors(Errors(sent, got));
    }
  }

  lemma EqualBytesNoError(sent: seq<byte>, got: seq<byte>, q: nat, r: nat)
    requires |got| == |sent| && q < |sent| && r < 8 && got[q] == sent[q]
    ensures Errors(sent, got)[8 * q + r] == 0
  {
    BitsAt(sent, q, r);
    BitsAt(got, q, r);
  }

  /** A frame with one byte replaced is rejected. */
  lemma ByteChangeDetected(sent: seq<byte>, i: nat, b: byte)
    requires Check(sent) && i < |sent| && b != sent[i]
    ensures !Check(sent[i := b])
  {
    var got := sent[i := b];
    var e := Errors(sent, got);
    forall j | 0 <= j < |e| && e[j] == 1
      ensures 8 * i <= j < 8 * i + 16
    {
      if j / 8 != i {
        EqualBytesNoError(sent, got, j / 8, j % 8);
      }
    }
    BurstDetected(sent, got, 8 * i);
  }
}
