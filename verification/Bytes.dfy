/** Bytes are the firmware's uint8_t: bit-vectors, so that `code++` and `seq_++` wrap as they do on
    the target. This module relates a byte to its numeric value and to its eight bits. */
module Bytes {

  type byte = bv8

  /** A bit is a number modulo 2: XOR adds and AND multiplies. */
  type bit = bv1

  function Zeros(n: nat): (bytes: seq<byte>)
    ensures |bytes| == n
  {
    seq(n, _ => 0)
  }

  /** The value of a byte, counted up by increments from zero (see ValueIsInt). */
  function Value(b: byte): nat
    decreases b
  {
    if b == 0 then 0 else 1 + Value(b - 1)
  }

  /** The byte reached after n increments from zero, wrapping at 256. */
  function Nth(n: nat): byte {
    if n == 0 then 0 else Nth(n - 1) + 1
  }

  lemma NthNext(n: nat)
    ensures Nth(n + 1) == Nth(n) + 1
  {
  }

  lemma {:induction false} ValueIsInt(b: byte)
    ensures Value(b) == b as int
    ensures Value(b) <= 255
    decreases b
  {
    if b != 0 {
      ValueIsInt(b - 1);
      IncrementAsInt(b - 1);
    }
  }

  lemma IncrementAsInt(b: byte)
    requires b != 255
    ensures (b + 1) as int == b as int + 1
  {
  }

  lemma ValueOf255()
    ensures Value(255) == 255
  {
    ValueIsInt(255);
  }

  lemma {:induction false} ValueInjective(a: byte, b: byte)
    requires Value(a) == Value(b)
    ensures a == b
    decreases a
  {
    if a != 0 && b != 0 {
      ValueInjective(a - 1, b - 1);
    }
  }

  lemma {:induction false} ValueMonotone(a: byte, b: byte)
    requires a < b
    ensures Value(a) < Value(b)
    decreases b
  {
    if a != b - 1 {
      ValueMonotone(a, b - 1);
    }
  }

  lemma ValueOrder(a: byte, b: byte)
    ensures a < b <==> Value(a) < Value(b)
  {
    if a < b {
      ValueMonotone(a, b);
    } else if b < a {
      ValueMonotone(b, a);
    }
  }

  lemma ValueOfIncrement(b: byte)
    ensures Value(b + 1) == if b == 255 then 0 else Value(b) + 1
  {
    if b != 255 {
      assert b + 1 != 0 && (b + 1) - 1 == b;
    }
  }

  lemma ValueBelow255(b: byte)
    ensures b != 255 ==> Value(b) < 255
  {
    ValueOf255();
    if b != 255 {
      ValueMonotone(b, 255);
    }
  }

  /** Counting in a uint8_t is counting modulo 256. */
  lemma {:induction false} ValueOfNth(n: nat)
    ensures Value(Nth(n)) == n % 256
  {
    if n != 0 {
      hide Value;
      ValueOfNth(n - 1);
      NthNext(n - 1);
      ValueOfIncrement(Nth(n - 1));
      ValueOf255();
      ValueBelow255(Nth(n - 1));
      NextModulo(n - 1);
    }
  }

  lemma NextModulo(n: nat)
    ensures (n + 1) % 256 == if n % 256 == 255 then 0 else n % 256 + 1
  {
  }

  lemma NthOfValue(b: byte)
    ensures Nth(Value(b)) == b
  {
    ValueIsInt(b);
    ValueOfNth(Value(b));
    ValueInjective(Nth(Value(b)), b);
  }

  /** The bytes behind a pointer and a length; a null pointer has none. */
  function Given(data: array?<byte>, len: nat): (x: seq<byte>)
    requires data != null ==> len <= data.Length
    reads data
    ensures data != null ==> |x| == len
  {
    if data == null then [] else data[..len]
  }

  function TopBit(b: byte): bit {
    (b >> 7) as bit
  }

  /** The n topmost bits of a byte, most significant first. */
  function ShiftedBits(b: byte, n: nat): (bits: seq<bit>)
    ensures |bits| == n
    decreases n
  {
    if n == 0 then [] else [TopBit(b)] + ShiftedBits(b << 1, n - 1)
  }

  /** The bits of a byte in the order in which a bit-serial loop visits them. */
  function Bits8(b: byte): (bits: seq<bit>)
    ensures |bits| == 8
  {
    ShiftedBits(b, 8)
  }

  function BitAt(b: byte, k: nat): bit
    requires k < 8
  {
    ((b >> k) & 1) as bit
  }

  lemma BitAtAfterShift(b: byte, k: nat)
    requires k < 7
    ensures BitAt(b << 1, k + 1) == BitAt(b, k)
  {
    if k == 0 {
    } else if k == 1 {
    } else if k == 2 {
    } else if k == 3 {
    } else if k == 4 {
    } else if k == 5 {
    } else {
    }
  }

  lemma {:induction false} ShiftedBitAt(b: byte, n: nat, i: nat)
    requires i < n <= 8
    ensures ShiftedBits(b, n)[i] == BitAt(b, 7 - i)
    decreases n
  {
    if i != 0 {
      ShiftedBitAt(b << 1, n - 1, i - 1);
      BitAtAfterShift(b, 7 - i);
    }
  }

  /** `(b >> bit) & 1`, the test of a loop that sends k 7 first. */
  lemma BitFromTop(b: byte, k: nat)
    requires k < 8
    ensures BitAt(b, k) == Bits8(b)[7 - k]
  {
    ShiftedBitAt(b, 8, 7 - k);
  }

  lemma EightBits(a: byte, b: byte)
    requires BitAt(a, 0) == BitAt(b, 0) && BitAt(a, 1) == BitAt(b, 1)
    requires BitAt(a, 2) == BitAt(b, 2) && BitAt(a, 3) == BitAt(b, 3)
    requires BitAt(a, 4) == BitAt(b, 4) && BitAt(a, 5) == BitAt(b, 5)
    requires BitAt(a, 6) == BitAt(b, 6) && BitAt(a, 7) == BitAt(b, 7)
    ensures a == b
  {
  }

  lemma Bits8Injective(a: byte, b: byte)
    requires Bits8(a) == Bits8(b)
    ensures a == b
  {
    forall k: nat | k < 8
      ensures BitAt(a, k) == BitAt(b, k)
    {
      BitFromTop(a, k);
      BitFromTop(b, k);
    }
    EightBits(a, b);
  }

  /** The bits of a byte string, first byte first. */
  function Bits(data: seq<byte>): (bits: seq<bit>)
    ensures |bits| == 8 * |data|
  {
    if data == [] then [] else Bits8(data[0]) + Bits(data[1..])
  }

  lemma {:induction false} BitsConcat(a: seq<byte>, b: seq<byte>)
    ensures Bits(a + b) == Bits(a) + Bits(b)
  {
    if a == [] {
      assert a + b == b;
    } else {
      assert (a + b)[1..] == a[1..] + b;
      BitsConcat(a[1..], b);
    }
  }

  lemma BitsOfOne(b: byte)
    ensures Bits([b]) == Bits8(b)
  {
    assert [b][1..] == [];
  }

  lemma {:induction false} BitsAt(data: seq<byte>, i: nat, j: nat)
    requires i < |data| && j < 8
    ensures Bits(data)[8 * i + j] == Bits8(data[i])[j]
  {
    if i != 0 {
      BitsAt(data[1..], i - 1, j);
    }
  }

  lemma BitsInjective(a: seq<byte>, b: seq<byte>)
    requires Bits(a) == Bits(b)
    ensures a == b
  {
    forall i | 0 <= i < |a|
      ensures a[i] == b[i]
    {
      forall j | 0 <= j < 8
        ensures Bits8(a[i])[j] == Bits8(b[i])[j]
      {
        BitsAt(a, i, j);
        BitsAt(b, i, j);
      }
      Bits8Injective(a[i], b[i]);
    }
  }

  // ---- Receiving bit by bit ----

  /** What `value = (value << 1) | bit` has collected. */
  function Collected(bits: seq<bit>): byte {
    if bits == [] then 0 else (Collected(bits[..|bits| - 1]) << 1) | (bits[|bits| - 1] as byte)
  }

  lemma CollectedStep(b: byte, x: bit, k: nat)
    requires k < 7
    ensures BitAt((b << 1) | (x as byte), 0) == x
    ensures BitAt((b << 1) | (x as byte), k + 1) == BitAt(b, k)
  {
    if k == 0 {
    } else if k == 1 {
    } else if k == 2 {
    } else if k == 3 {
    } else if k == 4 {
    } else if k == 5 {
    } else {
    }
  }

  lemma {:induction false} CollectedAt(bits: seq<bit>, k: nat)
    requires k < |bits| <= 8
    ensures BitAt(Collected(bits), k) == bits[|bits| - 1 - k]
  {
    var n := |bits|;
    if k == 0 {
      CollectedStep(Collected(bits[..n - 1]), bits[n - 1], 0);
    } else {
      CollectedStep(Collected(bits[..n - 1]), bits[n - 1], k - 1);
      CollectedAt(bits[..n - 1], k - 1);
    }
  }

  /** Eight bits shifted in are the byte that shifts out as those bits. */
  lemma CollectedBits(bits: seq<bit>)
    requires |bits| == 8
    ensures Bits8(Collected(bits)) == bits
  {
    hide *;
    forall i | 0 <= i < 8
      ensures Bits8(Collected(bits))[i] == bits[i]
    {
      BitFromTop(Collected(bits), 7 - i);
      CollectedAt(bits, 7 - i);
    }
  }
}
