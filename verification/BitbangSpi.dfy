/** The bit-banged SPI master of src/hal/lpc1768/bitbang_spi_lpc1768.cpp, with a slave in the same mode. */
module BitbangSpi {
  import opened Bytes
  import opened Delay

  const MAX_CLOCK_HZ: nat := 4000000

  datatype Status = Ok | HwError

  /** The levels of the clock and of both data lines at one moment. */
  datatype Level = Level(sck: bit, mosi: bit, miso: bit)

  /** The bits a slave sends while it captures the given ones after history h: each is chosen knowing all
      the bits captured before it. */
  function Offered(next: seq<bit> -> bit, h: seq<bit>, bits: seq<bit>): (sent: seq<bit>)
    ensures |sent| == |bits|
  {
    seq(|bits|, k requires 0 <= k < |bits| => next(h + bits[..k]))
  }

  lemma OfferedNext(next: seq<bit> -> bit, h: seq<bit>, bits: seq<bit>, x: bit)
    ensures Offered(next, h, bits + [x]) == Offered(next, h, bits) + [next(h + bits)]
  {
    forall k | 0 <= k < |bits|
      ensures (bits + [x])[..k] == bits[..k]
    {
    }
    assert (bits + [x])[..|bits|] == bits;
  }

  lemma {:induction false} OfferedConcat(next: seq<bit> -> bit, h: seq<bit>, a: seq<bit>, b: seq<bit>)
    ensures Offered(next, h, a + b) == Offered(next, h, a) + Offered(next, h + a, b)
    decreases b
  {
    if b == [] {
      assert a + b == a;
    } else {
      var n := |b| - 1;
      OfferedConcat(next, h, a, b[..n]);
      OfferedNext(next, h, a + b[..n], b[n]);
      OfferedNext(next, h + a, b[..n], b[n]);
      assert a + b == (a + b[..n]) + [b[n]] && b == b[..n] + [b[n]];
      assert (h + a) + b[..n] == h + (a + b[..n]);
    }
  }

  /** The number of leading clock edges in a waveform whose clock idles at cpol. */
  function Pulses(wave: seq<Level>, cpol: bit): nat {
    if |wave| < 2 then 0
    else
      var n := |wave| - 1;
      Pulses(wave[..n], cpol) + if wave[n - 1].sck == cpol && wave[n].sck != cpol then 1 else 0
  }

  class Master {
    var cpol: bit
    var cpha: bit
    var delayNs: nat
    var cs: bit

    var sck: bit
    var mosi: bit
    var miso: bit

    // The slave: what it sends after the bits it has captured since it was selected.
    const next: seq<bit> -> bit
    var captured: seq<bit>
    var wave: seq<Level>

    constructor (next: seq<bit> -> bit)
      ensures this.next == next && cpol == 0 && cpha == 0
    {
      this.next := next;
      cpol, cpha, delayNs, cs := 0, 0, 0, 1;
      sck, mosi, miso, captured, wave := 0, 0, 0, [], [];
    }

    /** Between two bits: the clock idles, and a slave that changes its output on the trailing edge has
        its next bit ready. */
    predicate Ready()
      reads this
    {
      && sck == cpol && wave != [] && wave[|wave| - 1].sck == sck
      && (cpha == 0 ==> miso == next(captured))
    }

    method Sample()
      modifies this`wave
      ensures wave == old(wave) + [Level(sck, mosi, miso)]
    {
      wave := wave + [Level(sck, mosi, miso)];
    }

    /** On one of the two clock edges the slave captures MOSI, on the other it changes MISO: with cpha 0 it
        captures on the leading edge. */
    method SetSck(v: bit)
      modifies this`sck, this`miso, this`captured, this`wave
      ensures sck == v
      ensures wave == old(wave) + [Level(sck, mosi, miso)]
      ensures var edge, captures := v != old(sck), (v != cpol) == (cpha == 0);
              && captured == (if edge && captures then old(captured) + [mosi] else old(captured))
              && miso == (if edge && !captures then next(old(captured)) else old(miso))
    {
      if v != sck {
        if (v != cpol) == (cpha == 0) {
          captured := captured + [mosi];
        } else {
          miso := next(captured);
        }
      }
      sck := v;
      Sample();
    }

    method SetMosi(v: bit)
      modifies this`mosi, this`wave
      ensures mosi == v && wave == old(wave) + [Level(sck, mosi, miso)]
    {
      mosi := v;
      Sample();
    }

    method Init(clockHz: nat, mode: byte) returns (status: Status)
      modifies this
      ensures status == if clockHz == 0 || clockHz > 4000000 || mode > 3 then HwError else Status.Ok
      ensures status == Status.Ok ==>
                && (cpol as byte) * 2 + (cpha as byte) == mode
                && delayNs == DelayLoops(clockHz) && sck == cpol && cs == 1
      ensures status == HwError ==> cpol == old(cpol) && cpha == old(cpha) && sck == old(sck) && cs == old(cs)
    {
      if clockHz == 0 || clockHz > MAX_CLOCK_HZ || mode > 3 {
        return HwError;
      }
      cpol := ((mode >> 1) & 1) as bit;
      cpha := (mode & 1) as bit;
      delayNs := HalfPeriodLoops(clockHz);
      SetSck(cpol);
      cs := 1;
      status := Status.Ok;
    }

    /** The slave starts afresh, with its first bit on MISO. */
    method SelectSlave() returns (status: Status)
      requires sck == cpol
      modifies this`cs, this`captured, this`miso, this`wave
      ensures status == Status.Ok && cs == 0 && captured == [] && Ready()
    {
      cs := 0;
      captured, miso := [], next([]);
      Sample();
      status := Status.Ok;
    }

    method DeselectSlave() returns (status: Status)
      modifies this`cs
      ensures status == Status.Ok && cs == 1
    {
      cs := 1;
      status := Status.Ok;
    }

    /** One bit each way. MOSI holds the bit all along; MISO is read behind the leading edge of the pulse with phase 0,
        and behind the trailing edge with phase 1. */
    method ExchangeBit(x: bit) returns (got: bit)
      requires Ready()
      modifies this`sck, this`mosi, this`miso, this`captured, this`wave
      ensures |wave| == |old(wave)| + 3 && old(wave) <= wave
      ensures var a, b, c := wave[|wave| - 3], wave[|wave| - 2], wave[|wave| - 1];
              && a.sck == cpol && b.sck == 1 ^ cpol && c.sck == cpol
              && a.mosi == x && b.mosi == x && c.mosi == x
              && got == if cpha == 0 then b.miso else c.miso
      ensures Ready() && captured == old(captured) + [x] && got == next(old(captured))
      ensures Pulses(wave, cpol) == Pulses(old(wave), cpol) + 1
    {
      ghost var w0 := wave;
      SetMosi(x);
      ghost var w1 := wave;
      if cpha == 0 {
        SetSck(1 ^ cpol);
        got := miso;
        ghost var w2 := wave;
        SetSck(cpol);
        PulsesInBit(w0, w1, w2, wave, cpol);
      } else {
        SetSck(1 ^ cpol);
        ghost var w2 := wave;
        SetSck(cpol);
        got := miso;
        PulsesInBit(w0, w1, w2, wave, cpol);
      }
    }

    /** One byte each way, most significant bit first. */
    method ExchangeByte(txb: byte) returns (rxb: byte)
      requires Ready()
      modifies this`sck, this`mosi, this`miso, this`captured, this`wave
      ensures Ready() && captured == old(captured) + Bits8(txb)
      ensures Bits8(rxb) == Offered(next, old(captured), Bits8(txb))
      ensures Pulses(wave, cpol) == Pulses(old(wave), cpol) + 8
    {
      hide BitAt, Bits8, Offered, Pulses;
      ghost var h, bits, sent := captured, Bits8(txb), [];
      rxb := 0;
      assert bits[..0] == [] && h + [] == h;
      assert Offered(next, h, []) == [];
      var k: nat := 8;
      while k > 0
        invariant k <= 8 && Ready() && captured == h + bits[..8 - k]
        invariant sent == Offered(next, h, bits[..8 - k]) && rxb == Collected(sent)
        invariant Pulses(wave, cpol) == Pulses(old(wave), cpol) + (8 - k)
      {
        k := k - 1;
        BitFromTop(txb, k);
        var got := ExchangeBit(BitAt(txb, k));
        rxb := (rxb << 1) | (got as byte);
        assert bits[..8 - k] == bits[..7 - k] + [bits[7 - k]];
        OfferedNext(next, h, bits[..7 - k], bits[7 - k]);
        assert (sent + [got])[..|sent|] == sent;
        sent := sent + [got];
      }
      assert bits[..8] == bits;
      CollectedBits(sent);
    }

    /** The slave captures exactly the bits of tx, and rx receives exactly the bits the slave sends, with
        eight clock pulses a byte; tx and rx may be the same buffer. */
    method Transfer(tx: array?<byte>, rx: array?<byte>, len: nat) returns (status: Status)
      requires Ready() && (tx != null && rx != null ==> len <= tx.Length && len <= rx.Length)
      modifies this`sck, this`mosi, this`miso, this`captured, this`wave
      modifies if rx == null then {} else {rx}
      ensures tx == null || rx == null ==> status == HwError && captured == old(captured) && wave == old(wave)
      ensures tx == null && rx != null ==> rx[..] == old(rx[..])
      ensures tx != null && rx != null ==>
                && status == Status.Ok
                && captured == old(captured) + Bits(old(tx[..len]))
                && Bits(rx[..len]) == Offered(next, old(captured), Bits(old(tx[..len])))
                && rx[len..] == old(rx[len..])
                && Pulses(wave, cpol) == Pulses(old(wave), cpol) + 8 * len
      ensures Ready()
    {
      hide Bits8, Offered, Pulses;
      if tx == null || rx == null {
        return HwError;
      }
      ghost var h, all := captured, tx[..len];
      assert Offered(next, h, []) == [];
      assert h + [] == h && all[..0] == [] && rx[..0] == [];
      for i := 0 to len
        invariant Ready() && tx[i..len] == all[i..] && rx[len..] == old(rx[len..])
        invariant captured == h + Bits(all[..i])
        invariant Bits(rx[..i]) == Offered(next, h, Bits(all[..i]))
        invariant Pulses(wave, cpol) == Pulses(old(wave), cpol) + 8 * i
      {
        assert tx[i..len][0] == all[i];
        ghost var got := rx[..i];
        var rxb := ExchangeByte(tx[i]);
        rx[i] := rxb;
        assert rx[..i + 1] == got + [rxb];
        NextByte(next, h, all, i, got, rxb);
        assert tx[i + 1..len] == all[i + 1..];
      }
      assert all[..len] == all;
      status := Status.Ok;
    }
  }

  lemma NextByte(next: seq<bit> -> bit, h: seq<bit>, tx: seq<byte>, i: nat, rx: seq<byte>, b: byte)
    requires i < |tx| && Bits(rx) == Offered(next, h, Bits(tx[..i]))
    requires Bits8(b) == Offered(next, h + Bits(tx[..i]), Bits8(tx[i]))
    ensures Bits(rx + [b]) == Offered(next, h, Bits(tx[..i + 1]))
    ensures h + Bits(tx[..i]) + Bits8(tx[i]) == h + Bits(tx[..i + 1])
  {
    hide Bits8, Offered;
    assert tx[..i + 1] == tx[..i] + [tx[i]];
    BitsConcat(tx[..i], [tx[i]]);
    BitsOfOne(tx[i]);
    BitsConcat(rx, [b]);
    BitsOfOne(b);
    OfferedConcat(next, h, Bits(tx[..i]), Bits8(tx[i]));
    assert h + Bits(tx[..i]) + Bits8(tx[i]) == h + (Bits(tx[..i]) + Bits8(tx[i]));
  }

  /** Setting MOSI, leaving the idle level and returning to it is one pulse. */
  lemma PulsesInBit(w0: seq<Level>, w1: seq<Level>, w2: seq<Level>, w3: seq<Level>, cpol: bit)
    requires w0 != [] && |w1| == |w0| + 1 && |w2| == |w1| + 1 && |w3| == |w2| + 1 && w0 <= w1 <= w2 <= w3
    requires w0[|w0| - 1].sck == w1[|w1| - 1].sck == w3[|w3| - 1].sck == cpol && w2[|w2| - 1].sck != cpol
    ensures Pulses(w3, cpol) == Pulses(w0, cpol) + 1
  {
    assert w3[..|w2|] == w2 && w2[..|w1|] == w1 && w1[..|w0|] == w0;
    assert Pulses(w1, cpol) == Pulses(w0, cpol);
    assert Pulses(w2, cpol) == Pulses(w1, cpol) + 1;
  }
}
