/** The bit-banged I2C master of src/hal/lpc1768/bitbang_i2c_lpc1768.cpp, on a bus with one slave. */
module BitbangI2c {
  import opened Bytes
  import opened Delay
  import opened I2cBus

  const MAX_CLOCK_HZ: nat := 400000

  class Master {
    const slave: Slave
    var delayNs: nat

    // The lines: what the master drives low, what the slave pulls, how long it still holds the clock.
    var sdaDriven: bool
    var sclDriven: bool
    var sdaPulled: bool
    var sclHeld: nat

    /** The waveform so far. */
    var wave: seq<Level>

    constructor (slave: Slave)
      ensures this.slave == slave && Valid() && Now() == Level(true, true) && Symbols() == []
    {
      this.slave := slave;
      delayNs, sclHeld, wave := 0, 0, [];
      sdaDriven, sclDriven, sdaPulled := false, false, false;
    }

    function Now(): Level
      reads this
    {
      Level(!sclDriven && sclHeld == 0, !sdaDriven && !sdaPulled)
    }

    function Seen(): Monitor
      reads this
    {
      Watched(wave)
    }

    function Symbols(): seq<Symbol>
      reads this
    {
      Seen().symbols
    }

    /** The monitor is up to date, and while SCL is low the slave pulls SDA as it wants to. */
    ghost predicate Valid()
      reads this
    {
      && Seen().scl == Now().scl && Seen().sda == Now().sda
      && (sclDriven ==> sclHeld == 0 && sdaPulled == slave.pulls(Symbols()))
    }

    /** Both lines are high. */
    ghost predicate Idle()
      reads this
    {
      Valid() && Now() == Level(true, true)
    }

    /** The master holds the clock low between two cells. */
    ghost predicate Between()
      reads this
    {
      Valid() && sclDriven
    }

    /** The monitor samples the lines. */
    method Sample()
      modifies this`wave
      ensures Seen() == Observe(old(Seen()), Now())
    {
      WatchedNext(wave, Now());
      wave := wave + [Now()];
    }

    // ---- Pins ----

    method SdaLow()
      requires Valid()
      modifies this`wave, this`sdaDriven
      ensures Valid() && sdaDriven && Seen() == Observe(old(Seen()), Level(Now().scl, false))
    {
      sdaDriven := true;
      Sample();
    }

    method SdaRelease()
      requires Valid()
      modifies this`wave, this`sdaDriven
      ensures Valid() && !sdaDriven && Seen() == Observe(old(Seen()), Level(Now().scl, !sdaPulled))
    {
      sdaDriven := false;
      Sample();
    }

    /** The slave changes SDA only after SCL has fallen, and what it holds SCL for counts anew. */
    method SclLow()
      requires Valid()
      modifies this`wave, this`sclDriven, this`sdaPulled, this`sclHeld
      ensures Between()
      ensures Symbols() == Observe(old(Seen()), Level(false, old(Now()).sda)).symbols
    {
      sclDriven := true;
      sclHeld := 0;
      Sample();
      sdaPulled := slave.pulls(Symbols());
      Sample();
    }

    function SdaRead(): bit
      reads this
    {
      LevelBit(Now().sda)
    }

    /** How long the slave will hold SCL once the master has let it go. */
    function Hold(): nat
      reads this
    {
      if sclDriven then slave.holds(Symbols()) else sclHeld
    }

    /** SCL rises once the slave lets go of it; every poll that finds it low counts down the timeout. */
    method SclReleaseAndWait() returns (ok: bool)
      requires Valid()
      modifies this`wave, this`sclDriven, this`sclHeld
      ensures Valid() && !sclDriven && ok == Now().scl
      ensures ok <==> old(Hold()) < 100000
      ensures ok ==> Seen() == if old(Now()).scl then old(Seen()) else Observe(old(Seen()), Level(true, Now().sda))
      ensures !ok ==> Seen() == old(Seen()) && sclHeld == old(Hold()) - 99999
    {
      sclHeld := Hold();
      sclDriven := false;
      ghost var was := Seen();
      Sample();
      var timeout := STRETCH_TIMEOUT_LOOPS;
      while !Now().scl
        invariant !sclDriven && 0 < timeout <= STRETCH_TIMEOUT_LOOPS && Seen() == Observe(was, Now())
        invariant sclHeld + (STRETCH_TIMEOUT_LOOPS - timeout) == old(Hold())
        decreases sclHeld
      {
        timeout := timeout - 1;
        if timeout == 0 {
          return false;
        }
        sclHeld := sclHeld - 1;
        Sample();
      }
      ok := true;
    }

    // ---- Conditions and cells ----

    /** What a monitor makes of an attempt at a START in this state. */
    function Begun(): seq<Symbol>
      reads this
    {
      var released := Observe(Seen(), Level(Now().scl, !sdaPulled));
      var risen := if Hold() >= STRETCH_TIMEOUT_LOOPS then released else Observe(released, Level(true, !sdaPulled));
      Observe(Observe(risen, Level(risen.scl, false)), Level(false, false)).symbols
    }

    method Start()
      requires Valid()
      modifies this`wave, this`sdaDriven, this`sclDriven, this`sdaPulled, this`sclHeld
      ensures Between() && Symbols() == old(Begun())
      ensures old(Idle()) ==> Symbols() == old(Symbols()) + [I2cBus.Start]
      ensures old(Between()) ==> Symbols() == Restarted(slave, old(Symbols()))
    {
      SdaRelease();
      var ok := SclReleaseAndWait();
      SdaLow();
      SclLow();
    }

    /** A STOP, unless the slave holds SCL or pulls SDA in this cell. */
    method Stop()
      requires Between()
      modifies this`wave, this`sdaDriven, this`sclDriven, this`sclHeld
      ensures Valid() && Symbols() == Ended(slave, old(Symbols()))
      ensures !Stuck(slave, old(Symbols())) && !slave.pulls(old(Symbols())) ==> Idle()
    {
      SdaLow();
      var ok := SclReleaseAndWait();
      SdaRelease();
    }

    /** One clock pulse: the cell holds what the master drives and the slave lets pass. */
    method Clock() returns (sampled: bit)
      requires Between()
      modifies this`wave, this`sclDriven, this`sdaPulled, this`sclHeld
      ensures Between() && Symbols() == Clocked(slave, old(Symbols()), !sdaDriven)
      ensures sampled == if sdaDriven then 0 else SlaveBit(slave, old(Symbols()))
    {
      var ok := SclReleaseAndWait();
      sampled := SdaRead();
      SclLow();
    }

    method WriteBit(high: bool)
      requires Between()
      modifies this`wave, this`sdaDriven, this`sclDriven, this`sdaPulled, this`sclHeld
      ensures Between() && Symbols() == Clocked(slave, old(Symbols()), high)
    {
      if high {
        SdaRelease();
      } else {
        SdaLow();
      }
      var x := Clock();
    }

    /** Eight cells, and one in which the slave may answer. */
    method WriteByte(b: byte) returns (ack: bool)
      requires Between()
      modifies this`wave, this`sdaDriven, this`sclDriven, this`sdaPulled, this`sclHeld
      ensures Between()
      ensures Sending(Symbols(), ack) == SendingByte(slave, old(Symbols()), b)
    {
      hide BitAt, Bits8, Watched, Clocked;
      ghost var h, bits := Symbols(), Bits8(b);
      assert bits[0..] == bits;
      var k: nat := 8;
      while k > 0
        invariant k <= 8 && Between() && ClockedAll(slave, h, bits) == ClockedAll(slave, Symbols(), bits[8 - k..])
        modifies this`wave, this`sdaDriven, this`sclDriven, this`sdaPulled, this`sclHeld
      {
        k := k - 1;
        assert bits[7 - k..][1..] == bits[8 - k..];
        BitFromTop(b, k);
        WriteBit(BitAt(b, k) == 1);
      }
      assert bits[8..] == [];
      SdaRelease();
      var x := Clock();
      ack := x == 0;
    }

    method ReadByte(sendAck: bool) returns (value: byte)
      requires Between()
      modifies this`wave, this`sdaDriven, this`sclDriven, this`sdaPulled, this`sclHeld
      ensures Between()
      ensures Fetched(Symbols(), [value]) == ReadingByte(slave, old(Symbols()), sendAck)
    {
      hide Watched, Clocked, Released, Sampled, Collected, SlaveBit;
      ghost var h := Symbols();
      value := 0;
      SampledNothing(slave, h);
      SdaRelease();
      for n := 0 to 8
        invariant Between() && !sdaDriven
        invariant Symbols() == Released(slave, h, n) && value == Collected(Sampled(slave, h, n))
        modifies this`wave, this`sclDriven, this`sdaPulled, this`sclHeld
      {
        SampledNext(slave, h, n);
        var x := Clock();
        value := (value << 1) | (x as byte);
      }
      WriteBit(!sendAck);
      SdaRelease();
    }

    // ---- Transactions ----

    /** Releases both lines, whatever state the bus is in; an idle bus stays idle. */
    method Init(clockHz: nat) returns (status: Status)
      requires Valid()
      modifies this`delayNs, this`wave, this`sdaDriven, this`sclDriven, this`sclHeld
      ensures status == if clockHz == 0 || clockHz > 400000 then HwError else I2cBus.Ok
      ensures status == HwError ==> unchanged(this)
      ensures status == I2cBus.Ok ==>
                delayNs == DelayLoops(clockHz) && !sdaDriven && !sclDriven && sclHeld == old(Hold())
      ensures Valid() && (old(Idle()) ==> Idle() && Symbols() == old(Symbols()))
    {
      if clockHz == 0 || clockHz > MAX_CLOCK_HZ {
        return HwError;
      }
      delayNs := HalfPeriodLoops(clockHz);
      SdaRelease();
      sclHeld := Hold();
      sclDriven := false;
      Sample();
      status := I2cBus.Ok;
    }

    /** Sends bytes until one is not acknowledged. */
    method WriteBytes(data: array<byte>, len: nat) returns (ok: bool)
      requires len <= data.Length && Between()
      modifies this`wave, this`sdaDriven, this`sclDriven, this`sdaPulled, this`sclHeld
      ensures Between()
      ensures Sending(Symbols(), ok) == SendingAll(slave, old(Symbols()), data[..len])
    {
      hide SendingByte, Watched;
      ghost var whole := SendingAll(slave, Symbols(), data[..len]);
      var i := 0;
      while i < len
        invariant i <= len && Between()
        invariant whole == SendingAll(slave, Symbols(), data[i..len])
        modifies this`wave, this`sdaDriven, this`sclDriven, this`sdaPulled, this`sclHeld
      {
        assert data[i..len][0] == data[i] && data[i..len][1..] == data[i + 1..len];
        var acked := WriteByte(data[i]);
        if !acked {
          return false;
        }
        i := i + 1;
      }
      ok := true;
    }

    /** START, the address with the write bit and the data, as far as they are acknowledged. */
    method AddressAndWrite(addr: byte, data: array?<byte>, len: nat) returns (ok: bool)
      requires Valid() && if data == null then len == 0 else len <= data.Length
      modifies this`wave, this`sdaDriven, this`sclDriven, this`sdaPulled, this`sclHeld
      ensures Between()
      ensures Sending(Symbols(), ok) == SendingAll(slave, old(Begun()), [addr << 1] + Given(data, len))
    {
      hide Watched, SendingByte;
      ghost var all := [addr << 1] + Given(data, len);
      assert all[0] == addr << 1 && all[1..] == Given(data, len);
      Start();
      ok := WriteByte(addr << 1);
      if !ok {
        return;
      }
      if data != null {
        ok := WriteBytes(data, len);
      }
    }

    /** On an idle bus this begins with a START; what it begins with on another is what `Begun` says. */
    method Write(addr: byte, data: array?<byte>, len: nat) returns (status: Status)
      requires Valid() && (data != null ==> len <= data.Length)
      modifies this`wave, this`sdaDriven, this`sclDriven, this`sdaPulled, this`sclHeld
      ensures data == null && len > 0 ==> status == HwError && unchanged(this)
      ensures data != null || len == 0 ==>
                Transaction(status, Symbols(), []) == WriteFrom(slave, old(Begun()), addr, old(Given(data, len)))
      ensures Valid() && (old(Idle()) ==> old(Begun()) == old(Symbols()) + [I2cBus.Start])
    {
      hide Watched, SendingAll;
      BegunIdle();
      if data == null && len > 0 {
        return HwError;
      }
      var ok := AddressAndWrite(addr, data, len);
      Stop();
      status := if ok then I2cBus.Ok else Nack;
    }

    lemma BegunIdle()
      ensures Idle() ==> Begun() == Symbols() + [I2cBus.Start]
    {
      hide Watched;
    }

    /** Reads bytes, acknowledging all but the last. */
    method ReadBytes(rdata: array<byte>, rlen: nat)
      requires rlen <= rdata.Length && Between()
      modifies this`wave, this`sdaDriven, this`sclDriven, this`sdaPulled, this`sclHeld, rdata
      ensures Between() && rdata[rlen..] == old(rdata[rlen..])
      ensures Fetched(Symbols(), rdata[..rlen]) == ReadingSome(slave, old(Symbols()), rlen, rlen)
    {
      hide Watched, ReadingByte;
      ghost var h := Symbols();
      for i := 0 to rlen
        invariant Between() && rdata[rlen..] == old(rdata[rlen..])
        invariant Fetched(Symbols(), rdata[..i]) == ReadingSome(slave, h, i, rlen)
        modifies this`wave, this`sdaDriven, this`sclDriven, this`sdaPulled, this`sclHeld, rdata
      {
        var last := i == rlen - 1;
        var value := ReadByte(!last);
        rdata[i] := value;
        assert rdata[..i + 1] == rdata[..i] + [value];
      }
    }

    method WriteRead(addr: byte, wdata: array?<byte>, wlen: nat, rdata: array?<byte>, rlen: nat)
      returns (status: Status)
      requires Valid() && (wdata != null ==> wlen <= wdata.Length) && (rdata != null ==> rlen <= rdata.Length)
      modifies this`wave, this`sdaDriven, this`sclDriven, this`sdaPulled, this`sclHeld
      modifies if rdata == null then {} else {rdata}
      ensures (wdata == null && wlen > 0) || (rdata == null && rlen > 0) ==> status == HwError && unchanged(this)
      ensures (wdata != null || wlen == 0) && (rdata != null || rlen == 0) ==>
                (var done := WriteReadFrom(slave, old(Begun()), addr, old(Given(wdata, wlen)), rlen);
                 Transaction(status, Symbols(), if status == I2cBus.Ok then Given(rdata, rlen) else []) == done)
      ensures Valid() && (old(Idle()) ==> old(Begun()) == old(Symbols()) + [I2cBus.Start])
    {
      hide Watched, SendingAll, SendingByte, ReadingSome;
      BegunIdle();
      if (wdata == null && wlen > 0) || (rdata == null && rlen > 0) {
        return HwError;
      }
      var ok := AddressAndWrite(addr, wdata, wlen);
      if !ok {
        Stop();
        return Nack;
      }
      Start();
      var acked := WriteByte((addr << 1) | 1);
      if !acked {
        Stop();
        return Nack;
      }
      if rdata == null {
        NothingRead(slave, Symbols());
      } else {
        ReadBytes(rdata, rlen);
      }
      Stop();
      status := I2cBus.Ok;
    }
  }

  lemma SampledNothing(slave: Slave, h: seq<Symbol>)
    ensures Released(slave, h, 0) == h && Collected(Sampled(slave, h, 0)) == 0
  {
  }

  lemma SampledNext(slave: Slave, h: seq<Symbol>, n: nat)
    ensures Released(slave, h, n + 1) == Clocked(slave, Released(slave, h, n), true)
    ensures Collected(Sampled(slave, h, n + 1))
         == (Collected(Sampled(slave, h, n)) << 1) | (SlaveBit(slave, Released(slave, h, n)) as byte)
  {
    hide Clocked, SlaveBit;
    var before, x := Sampled(slave, h, n), SlaveBit(slave, Released(slave, h, n));
    assert (before + [x])[..n] == before;
  }

  lemma NothingRead(slave: Slave, h: seq<Symbol>)
    ensures ReadingSome(slave, h, 0, 0) == Fetched(h, [])
  {
  }

  lemma AddressIsWrite(addr: byte)
    ensures Bits8(addr << 1)[7] == 0
  {
    BitFromTop(addr << 1, 0);
    assert BitAt(addr << 1, 0) == 0;
  }

  lemma AddressIsRead(addr: byte)
    ensures Bits8((addr << 1) | 1)[7] == 1
  {
    BitFromTop((addr << 1) | 1, 0);
    assert BitAt((addr << 1) | 1, 0) == 1;
  }
}
