/** CRC-16/CCITT-FALSE: the two bit-serial loops of the repository, proved against one shift register. */
module Crc16 {
  import opened Bytes

  const INIT: bv16 := 0xFFFF

  /** One zero bit through the register: multiply by x, and replace an x^16 that falls out by
      x^12 + x^5 + 1. ShiftAsBranch shows that this is the `if` of the loops. */
  function Shift(r: bv16): bv16 {
    var carry := r >> 15;
    (r << 1) ^ carry ^ (carry << 5) ^ (carry << 12)
  }

  /** The register after n zero bits. */
  function Shifts(r: bv16, n: nat): bv16 {
    if n == 0 then r else Shift(Shifts(r, n - 1))
  }

  function FeedBit(r: bv16, b: bit): bv16 {
    Shift(r ^ ((b as bv16) << 15))
  }

  function Feed(r: bv16, bits: seq<bit>): bv16
    decreases bits
  {
    if bits == [] then r else Feed(FeedBit(r, bits[0]), bits[1..])
  }

  /** The checksum of a message: its bits fed to a register preset to ones. */
  function Crc(data: seq<byte>): bv16 {
    Feed(INIT, Bits(data))
  }

  // ---- The register is linear and reversible ----

  lemma ShiftAsBranch(r: bv16)
    ensures r & 0x8000 != 0 ==> Shift(r) == (r << 1) ^ 0x1021
    ensures r & 0x8000 == 0 ==> Shift(r) == r << 1
  {
    if r & 0x8000 != 0 {
      assert r >> 15 == 1;
    } else {
      assert r >> 15 == 0;
    }
  }

  lemma ShiftLinear(a: bv16, b: bv16)
    ensures Shift(a ^ b) == Shift(a) ^ Shift(b)
  {
  }

  lemma ShiftInjective(a: bv16, b: bv16)
    requires Shift(a) == Shift(b)
    ensures a == b
  {
  }

  lemma {:induction false} FeedConcat(r: bv16, a: seq<bit>, b: seq<bit>)
    ensures Feed(r, a + b) == Feed(Feed(r, a), b)
    decreases a
  {
    if a == [] {
      assert a + b == b;
    } else {
      assert (a + b)[1..] == a[1..] + b;
      FeedConcat(FeedBit(r, a[0]), a[1..], b);
    }
  }

  lemma FeedSnoc(r: bv16, bits: seq<bit>, b: bit)
    ensures Feed(r, bits + [b]) == FeedBit(Feed(r, bits), b)
  {
    FeedConcat(r, bits, [b]);
    assert [b][1..] == [];
  }

  lemma FeedByte(r: bv16, data: seq<byte>, b: byte)
    ensures Feed(r, Bits(data + [b])) == Feed(Feed(r, Bits(data)), Bits8(b))
  {
    BitsConcat(data, [b]);
    BitsOfOne(b);
    FeedConcat(r, Bits(data), Bits8(b));
  }

  // ---- Words in the register ----

  function Top(w: bv16): bit {
    (w >> 15) as bit
  }

  /** The n topmost bits of a word, most significant first. */
  function TopBits(w: bv16, n: nat): (bits: seq<bit>)
    ensures |bits| == n
    decreases n
  {
    if n == 0 then [] else [Top(w)] + TopBits(w << 1, n - 1)
  }

  function ShiftLeft(w: bv16, n: nat): bv16
    decreases n
  {
    if n == 0 then w else ShiftLeft(w << 1, n - 1)
  }

  /** XORing a whole word into the register and shifting is feeding its bits one at a time. */
  lemma PendingStep(s: bv16, w: bv16)
    ensures Shift(s ^ w) == FeedBit(s, Top(w)) ^ (w << 1)
  {
  }

  lemma TopOfByte(b: byte)
    ensures Top((b as bv16) << 8) == TopBit(b)
    ensures ((b as bv16) << 8) << 1 == ((b << 1) as bv16) << 8
  {
  }

  lemma {:induction false} TopBitsOfByte(b: byte, n: nat)
    ensures TopBits((b as bv16) << 8, n) == ShiftedBits(b, n)
    decreases n
  {
    if n != 0 {
      TopOfByte(b);
      TopBitsOfByte(b << 1, n - 1);
    }
  }

  lemma ByteShiftedOut(b: byte)
    ensures ShiftLeft((b as bv16) << 8, 8) == 0
  {
    var w := (b as bv16) << 8;
    assert w << 1 << 1 << 1 << 1 << 1 << 1 << 1 << 1 == 0;
    assert ShiftLeft(w, 8) == ShiftLeft(w << 1 << 1 << 1 << 1, 4);
  }

  // ---- The C++ loop (include/util/crc16.hpp) ----

  ghost predicate InByte(crc: bv16, start: bv16, b: byte, bit: nat, pending: bv16) {
    && bit <= 8
    && crc == Feed(start, Bits8(b)[..bit]) ^ pending
    && TopBits(pending, 8 - bit) == Bits8(b)[bit..]
    && ShiftLeft(pending, 8 - bit) == 0
  }

  lemma InByteStarts(start: bv16, b: byte)
    ensures InByte(start ^ ((b as bv16) << 8), start, b, 0, (b as bv16) << 8)
  {
    TopBitsOfByte(b, 8);
    ByteShiftedOut(b);
  }

  lemma FeedPrefix(start: bv16, bits: seq<bit>, bit: nat)
    requires bit < |bits|
    ensures Feed(start, bits[..bit + 1]) == FeedBit(Feed(start, bits[..bit]), bits[bit])
  {
    FeedSnoc(start, bits[..bit], bits[bit]);
    assert bits[..bit + 1] == bits[..bit] + [bits[bit]];
  }

  lemma PendingShifts(b: byte, bit: nat, pending: bv16)
    requires bit < 8
    requires TopBits(pending, 8 - bit) == Bits8(b)[bit..]
    ensures Top(pending) == Bits8(b)[bit]
    ensures TopBits(pending << 1, 8 - (bit + 1)) == Bits8(b)[bit + 1..]
  {
    assert TopBits(pending, 8 - bit)[0] == Bits8(b)[bit..][0];
    assert TopBits(pending, 8 - bit)[1..] == TopBits(pending << 1, 8 - (bit + 1));
  }

  lemma InByteSteps(crc: bv16, start: bv16, b: byte, j: nat, pending: bv16)
    requires j < 8 && InByte(crc, start, b, j, pending)
    ensures InByte(Shift(crc), start, b, j + 1, pending << 1)
    ensures crc & 0x8000 != 0 ==> Shift(crc) == (crc << 1) ^ 0x1021
    ensures crc & 0x8000 == 0 ==> Shift(crc) == crc << 1
  {
    ShiftAsBranch(crc);
    PendingStep(Feed(start, Bits8(b)[..j]), pending);
    FeedPrefix(start, Bits8(b), j);
    PendingShifts(b, j, pending);
  }

  lemma InByteEnds(crc: bv16, data: seq<byte>, b: byte, pending: bv16)
    requires InByte(crc, Crc(data), b, 8, pending)
    ensures crc == Crc(data + [b])
  {
    assert Bits8(b)[..8] == Bits8(b);
    FeedByte(INIT, data, b);
  }

  method Crc16Ccitt(data: array?<byte>, len: nat) returns (crc: bv16)
    requires data != null ==> len <= data.Length
    ensures crc == if data == null then 0xFFFF else Crc(data[..len])
  {
    if data == null {
      return 0xFFFF;
    }
    crc := 0xFFFF;
    for i := 0 to len
      invariant crc == Crc(data[..i])
    {
      ghost var start, pending := crc, (data[i] as bv16) << 8;
      InByteStarts(start, data[i]);
      crc := crc ^ ((data[i] as bv16) << 8);
      for bit := 0 to 8
        invariant InByte(crc, start, data[i], bit, pending)
      {
        InByteSteps(crc, start, data[i], bit, pending);
        if crc & 0x8000 != 0 {
          crc := (crc << 1) ^ 0x1021;
        } else {
          crc := crc << 1;
        }
        pending := pending << 1;
      }
      InByteEnds(crc, data[..i], data[i], pending);
      assert data[..i + 1] == data[..i] + [data[i]];
    }
  }

  // ---- The Python loop (tools/crc_validator.py) ----

  const WORD: nat := 0x1_0000

  function AsInt(w: bv16): (n: nat)
    ensures n < WORD
  {
    w as nat
  }

  function LowWord(n: nat): bv16 {
    (n % WORD) as bv16
  }

  /** The integer with its low sixteen bits replaced. */
  function Replaced(crc: nat, m: nat): nat {
    crc / WORD * WORD + m
  }

  /** `^` of an unbounded integer and a 16-bit one. */
  function XorLow(crc: nat, w: bv16): nat {
    Replaced(crc, AsInt(LowWord(crc) ^ w))
  }

  lemma LowWordFollows(crc: nat, low: bv16)
    requires crc % WORD == AsInt(low)
    ensures LowWord(crc) == low
  {
  }

  lemma Remainder(crc: nat, m: nat)
    requires m < WORD
    ensures Replaced(crc, m) % WORD == m && (crc < WORD ==> Replaced(crc, m) == m)
  {
  }

  lemma XorFollows(crc: nat, low: bv16, w: bv16)
    requires crc % WORD == AsInt(low)
    ensures XorLow(crc, w) % WORD == AsInt(low ^ w)
    ensures crc < WORD ==> XorLow(crc, w) == AsInt(low ^ w)
  {
    hide LowWord, AsInt, Replaced;
    LowWordFollows(crc, low);
    Remainder(crc, AsInt(low ^ w));
  }

  lemma ShiftBelowTop(w: bv16)
    requires w < 0x8000
    ensures AsInt(w << 1) == 2 * AsInt(w) && AsInt(w) < 0x8000 && w & 0x8000 == 0
  {
  }

  lemma ShiftDropsTop(w: bv16)
    requires w >= 0x8000
    ensures AsInt(w - 0x8000) == AsInt(w) - 0x8000 && (w - 0x8000) << 1 == w << 1
    ensures AsInt(w) >= 0x8000 && w & 0x8000 != 0 && w - 0x8000 < 0x8000
  {
  }

  lemma ShiftAsInt(w: bv16)
    ensures w & 0x8000 != 0 <==> AsInt(w) >= 0x8000
    ensures AsInt(w << 1) == if AsInt(w) >= 0x8000 then 2 * AsInt(w) - WORD else 2 * AsInt(w)
  {
    if w >= 0x8000 {
      ShiftDropsTop(w);
      ShiftBelowTop(w - 0x8000);
    } else {
      ShiftBelowTop(w);
    }
  }

  lemma Doubled(crc: nat, x: nat)
    requires crc % WORD == x
    ensures (crc / 0x8000) % 2 == 1 <==> x >= 0x8000
    ensures (2 * crc) % WORD == if x >= 0x8000 then 2 * x - WORD else 2 * x
  {
    var q := crc / WORD;
    assert crc == q * WORD + x;
    if x >= 0x8000 {
      assert crc / 0x8000 == 2 * q + 1;
      assert 2 * crc == (2 * q + 1) * WORD + (2 * x - WORD);
    } else {
      assert crc / 0x8000 == 2 * q;
      assert 2 * crc == (2 * q) * WORD + 2 * x;
    }
  }

  /** The low sixteen bits of the integer follow the 16-bit register: what piles up above them is never seen
      by the test or the shift. */
  lemma LowBitsFollow(crc: nat, low: bv16)
    requires crc % WORD == AsInt(low)
    ensures (crc / 0x8000) % 2 == 1 <==> low & 0x8000 != 0
    ensures (2 * crc) % WORD == AsInt(low << 1)
  {
    hide AsInt;
    ShiftAsInt(low);
    Doubled(crc, AsInt(low));
  }

  /** The inner loop on an unbounded integer, and what its mask leaves. */
  method ValidatorByte(crc0: nat, b: byte, ghost start: bv16, ghost data: seq<byte>) returns (crc: nat)
    requires crc0 == AsInt(start) && start == Crc(data)
    ensures crc == AsInt(Crc(data + [b]))
  {
    hide XorLow, Shift, Feed, Crc, InByte, AsInt;
    ghost var low, pending := start ^ ((b as bv16) << 8), (b as bv16) << 8;
    InByteStarts(start, b);
    XorFollows(crc0, start, pending);
    crc := XorLow(crc0, (b as bv16) << 8);
    for bit := 0 to 8
      invariant InByte(low, start, b, bit, pending) && crc % WORD == AsInt(low)
    {
      crc := ValidatorBit(crc, low);
      InByteSteps(low, start, b, bit, pending);
      low, pending := Shift(low), pending << 1;
    }
    InByteEnds(low, data, b, pending);
    crc := crc % WORD;
  }

  method ValidatorBit(crc0: nat, ghost low: bv16) returns (crc: nat)
    requires crc0 % WORD == AsInt(low)
    ensures crc % WORD == AsInt(Shift(low))
  {
    hide AsInt, XorLow, Shift;
    ShiftAsBranch(low);
    LowBitsFollow(crc0, low);
    if (crc0 / 0x8000) % 2 == 1 {
      XorFollows(2 * crc0, low << 1, 0x1021);
      crc := XorLow(2 * crc0, 0x1021);
    } else {
      crc := 2 * crc0;
    }
  }

  /** The validator masks once per byte, so what the C++ register drops piles up above bit 16 in between. It
      never comes back: the integer ends as the checksum, on every message. */
  method Crc16Validator(data: seq<byte>) returns (crc: nat)
    ensures crc == Crc(data) as nat
  {
    crc := 0xFFFF;
    NothingFed();
    for i := 0 to |data|
      invariant crc == AsInt(Crc(data[..i]))
    {
      crc := ValidatorByte(crc, data[i], Crc(data[..i]), data[..i]);
      assert data[..i + 1] == data[..i] + [data[i]];
    }
    assert data[..|data|] == data;
  }

  lemma NothingFed()
    ensures Crc([]) == INIT && AsInt(INIT) == 0xFFFF
  {
  }

  // ---- The documented check value ----

  lemma {:induction false} ByteShifted(start: bv16, b: byte, j: nat) returns (pending: bv16)
    requires j <= 8
    ensures InByte(Shifts(start ^ ((b as bv16) << 8), j), start, b, j, pending)
  {
    hide Shift, InByte;
    if j == 0 {
      pending := (b as bv16) << 8;
      InByteStarts(start, b);
    } else {
      var w := ByteShifted(start, b, j - 1);
      InByteSteps(Shifts(start ^ ((b as bv16) << 8), j - 1), start, b, j - 1, w);
      pending := w << 1;
    }
  }

  /** A whole byte at a time. */
  lemma ByteFed(data: seq<byte>, b: byte)
    ensures Crc(data + [b]) == Shifts(Crc(data) ^ ((b as bv16) << 8), 8)
  {
    hide Shift, InByte, Crc, Shifts;
    var w := ByteShifted(Crc(data), b, 8);
    InByteEnds(Shifts(Crc(data) ^ ((b as bv16) << 8), 8), data, b, w);
  }

  function EightShifts(r: bv16): bv16 {
    Shift(Shift(Shift(Shift(Shift(Shift(Shift(Shift(r))))))))
  }

  lemma EightAre(r: bv16)
    ensures EightShifts(r) == Shifts(r, 8)
  {
    hide Shift;
    assert Shifts(r, 1) == Shift(Shifts(r, 0));
    assert Shifts(r, 2) == Shift(Shift(r));
    assert Shifts(r, 4) == Shift(Shift(Shifts(r, 2)));
    assert Shifts(r, 6) == Shift(Shift(Shifts(r, 4)));
  }

  lemma NextByte(data: seq<byte>, b: byte, r: bv16, n: bv16) returns (more: seq<byte>)
    requires Crc(data) == r && n == EightShifts(r ^ ((b as bv16) << 8))
    ensures more == data + [b] && Crc(more) == n
  {
    hide Crc, Shifts, EightShifts;
    ByteFed(data, b);
    EightAre(r ^ ((b as bv16) << 8));
    more := data + [b];
  }

  /** The published check value: the checksum of the digits 1 to 9. */
  lemma CheckValue()
    ensures Crc([0x31, 0x32, 0x33, 0x34, 0x35, 0x36, 0x37, 0x38, 0x39]) == 0x29B1
  {
    hide Crc;
    NothingFed();
    var d1 := NextByte([], 0x31, 0xFFFF, 0xC782);
    var d2 := NextByte(d1, 0x32, 0xC782, 0x3DBA);
    var d3 := NextByte(d2, 0x33, 0x3DBA, 0x5BCE);
    var d4 := NextByte(d3, 0x34, 0x5BCE, 0x5349);
    var d5 := NextByte(d4, 0x35, 0x5349, 0x4560);
    var d6 := NextByte(d5, 0x36, 0x4560, 0x2EF4);
    var d7 := NextByte(d6, 0x37, 0x2EF4, 0x7718);
    var d8 := NextByte(d7, 0x38, 0x7718, 0xA12B);
    var d9 := NextByte(d8, 0x39, 0xA12B, 0x29B1);
    assert d9 == [0x31, 0x32, 0x33, 0x34, 0x35, 0x36, 0x37, 0x38, 0x39];
  }
}
