/** What a monitor reads back from the bus, for every slave that follows the rules. */
module I2cTransactions {
  import opened Bytes
  import opened I2cBus
  import opened BitbangI2c

  /** Written bytes: each is acknowledged, except perhaps the last. */
  function Spelled(bytes: seq<byte>, acked: bool): seq<Symbol> {
    if bytes == [] then []
    else if |bytes| == 1 then Cells(Bits8(bytes[0])) + [Bit(if acked then 0 else 1)]
    else Cells(Bits8(bytes[0])) + [Bit(0)] + Spelled(bytes[1..], acked)
  }

  /** Read bytes: the master acknowledges each. */
  function Fetching(bytes: seq<byte>): seq<Symbol> {
    if bytes == [] then []
    else Fetching(bytes[..|bytes| - 1]) + Cells(Bits8(bytes[|bytes| - 1])) + [Bit(0)]
  }

  /** Read bytes: the master acknowledges all but the last. */
  function FetchedAll(bytes: seq<byte>): seq<Symbol> {
    if bytes == [] then []
    else Fetching(bytes[..|bytes| - 1]) + Cells(Bits8(bytes[|bytes| - 1])) + [Bit(1)]
  }

  lemma SpelledFirst(first: byte, others: seq<byte>, acked: bool)
    requires others != []
    ensures Spelled([first] + others, acked) == Cells(Bits8(first)) + [Bit(0)] + Spelled(others, acked)
  {
  }

  lemma {:induction false} SendAllSpelled(slave: Slave, h: seq<Symbol>, data: seq<byte>) returns (m: nat)
    ensures var r := SendAll(slave, h, data);
            && m <= |data| && (if r.acked then m == |data| else m > 0)
            && r.symbols == h + Spelled(data[..m], r.acked)
    decreases data
  {
    hide Bits8;
    m := 0;
    if data == [] {
      assert h + [] == h;
    } else {
      var first := SendByte(slave, h, data[0]);
      assert data[..1] == [data[0]];
      m := 1;
      if first.acked {
        var n := SendAllSpelled(slave, first.symbols, data[1..]);
        assert data[..n + 1] == [data[0]] + data[1..][..n];
        if n > 0 {
          SpelledFirst(data[0], data[1..][..n], SendAll(slave, first.symbols, data[1..]).acked);
        }
        m := n + 1;
      }
    }
  }

  lemma {:induction false} TurnAfterAll(slave: Slave, h: seq<Symbol>, data: seq<byte>)
    requires TurnAfter(h) == Writing(0)
    ensures var r := SendAll(slave, h, data); TurnAfter(r.symbols) == if r.acked then Writing(0) else Off
    decreases data
  {
    hide TurnAfter, Bits8, SendByte;
    if data != [] {
      TurnAfterByte(slave, h, data[0]);
      if SendByte(slave, h, data[0]).acked {
        TurnAfterAll(slave, SendByte(slave, h, data[0]).symbols, data[1..]);
      }
    }
  }

  lemma TurnAfterWrite(slave: Slave, h: seq<Symbol>, addr: byte, data: seq<byte>)
    ensures var r := SendAll(slave, h + [Start], [addr << 1] + data);
            TurnAfter(r.symbols) == if r.acked then Writing(0) else Off
  {
    hide TurnAfter, Bits8, SendByte;
    var first := SendByte(slave, h + [Start], addr << 1);
    TurnNext(h, Start);
    AddressIsWrite(addr);
    TurnAfterByte(slave, h + [Start], addr << 1);
    assert ([addr << 1] + data)[1..] == data;
    if first.acked {
      TurnAfterAll(slave, first.symbols, data);
    }
  }

  lemma EmptyFetched()
    ensures Fetching([]) == FetchedAll([]) == []
  {
  }

  lemma FetchedNext(bytes: seq<byte>, b: byte)
    ensures Fetching(bytes + [b]) == Fetching(bytes) + (Cells(Bits8(b)) + [Bit(0)])
    ensures FetchedAll(bytes + [b]) == Fetching(bytes) + (Cells(Bits8(b)) + [Bit(1)])
  {
    hide Bits8;
    assert (bytes + [b])[..|bytes|] == bytes;
  }

  lemma ReadStep(h: seq<Symbol>, f: seq<Symbol>, cells: seq<Symbol>, ack: Symbol)
    ensures (h + f) + cells + [ack] == h + (f + (cells + [ack]))
  {
  }

  lemma {:induction false} ReadSomeSpelled(slave: Slave, h: seq<Symbol>, i: nat, n: nat)
    requires i <= n
    ensures var r := ReadSome(slave, h, i, n);
            r.symbols == h + if i == n then FetchedAll(r.bytes) else Fetching(r.bytes)
  {
    hide Bits8, Collected, Fetching, FetchedAll, Offered;
    EmptyFetched();
    if i == 0 {
      assert h + [] == h;
    } else {
      var before := ReadSome(slave, h, i - 1, n);
      var r := ReadSome(slave, h, i, n);
      var bits := Offered(slave, before.symbols, 8);
      ReadSomeSpelled(slave, h, i - 1, n);
      CollectedBits(bits);
      FetchedNext(before.bytes, Collected(bits));
      ReadStep(h, Fetching(before.bytes), Cells(bits), Bit(if i != n then 0 else 1));
    }
  }

  /** A write puts on the bus START, the address and the data up to the first byte not acknowledged, and
      STOP; it reports success exactly when all were acknowledged. */
  lemma WriteReadsBack(slave: Slave, h: seq<Symbol>, addr: byte, data: seq<byte>) returns (m: nat)
    requires Compliant(slave)
    ensures var t := WriteTransaction(slave, h, addr, data);
            var ok := t.status == Ok;
            && m <= 1 + |data| && (if ok then m == 1 + |data| else m > 0)
            && t.symbols == h + [Start] + Spelled(([addr << 1] + data)[..m], ok) + [Stop]
  {
    hide SendAll, Spelled, TurnAfter;
    var r := SendAll(slave, h + [Start], [addr << 1] + data);
    m := SendAllSpelled(slave, h + [Start], [addr << 1] + data);
    TurnAfterWrite(slave, h, addr, data);
    assert !slave.pulls(r.symbols);
  }

  /** The read part behind its START: the address, and the bytes if it was acknowledged. */
  function ReadSpelled(addr: byte, t: Transaction, ok: bool): seq<Symbol> {
    Spelled([(addr << 1) | 1], ok) + if ok then FetchedAll(t.bytes) else []
  }

  lemma ReadPartReadsBack(slave: Slave, h: seq<Symbol>, addr: byte, n: nat)
    requires Compliant(slave) && n > 0
    ensures var t := ReadPart(slave, h, addr, n);
            var ok := t.status == Ok;
            && (ok ==> |t.bytes| == n)
            && t.symbols == h + [Start] + ReadSpelled(addr, t, ok) + [Stop]
  {
    hide SendAll, ReadSome, FetchedAll, TurnAfter, Bits8;
    var a := SendByte(slave, h + [Start], (addr << 1) | 1);
    TurnNext(h, Start);
    AddressIsRead(addr);
    TurnAfterByte(slave, h + [Start], (addr << 1) | 1);
    if a.acked {
      var r := ReadSome(slave, a.symbols, n, n);
      TurnInReadAll(slave, a.symbols, n, n);
      ReadSomeSpelled(slave, a.symbols, n, n);
      assert !slave.pulls(r.symbols);
    } else {
      assert !slave.pulls(a.symbols);
    }
  }

  /** A write followed by a read of at least one byte: START, address and data up to the first byte not
      acknowledged; when all were, a repeated START, the address again and the bytes returned, the master
      acknowledging all but the last; then STOP. */
  lemma WriteReadReadsBack(slave: Slave, h: seq<Symbol>, addr: byte, data: seq<byte>, n: nat)
    returns (m: nat, written: bool)
    requires Compliant(slave) && n > 0
    ensures var t := WriteReadTransaction(slave, h, addr, data, n);
            var ok := t.status == Ok;
            m <= 1 + |data| && (if written then m == 1 + |data| else m > 0 && !ok) &&
            var head := h + [Start] + Spelled(([addr << 1] + data)[..m], written);
            && (ok ==> |t.bytes| == n)
            && t.symbols ==
                 if !written then head + [Stop]
                 else head + [Start] + ReadSpelled(addr, t, ok) + [Stop]
  {
    hide SendAll, Spelled, TurnAfter, ReadPart, FetchedAll;
    var w := SendAll(slave, h + [Start], [addr << 1] + data);
    written := w.acked;
    m := SendAllSpelled(slave, h + [Start], [addr << 1] + data);
    TurnAfterWrite(slave, h, addr, data);
    if written {
      ReadPartReadsBack(slave, w.symbols, addr, n);
    } else {
      assert !slave.pulls(w.symbols);
    }
  }

  // ---- The master's transactions with such a slave ----

  lemma CellPassed(slave: Slave, h: seq<Symbol>, high: bool)
    requires Compliant(slave) && !SlaveTurn(TurnAfter(h))
    ensures Clocked(slave, h, high) == h + [Bit(LevelBit(high))]
  {
    assert !slave.pulls(h) && slave.holds(h) < STRETCH_TIMEOUT_LOOPS;
  }

  lemma CellAnswered(slave: Slave, h: seq<Symbol>)
    requires Compliant(slave)
    ensures Clocked(slave, h, true) == h + [Bit(SlaveBit(slave, h))]
  {
    assert slave.holds(h) < STRETCH_TIMEOUT_LOOPS;
  }

  /** The bits of a byte pass as the master drives them. */
  lemma {:induction false} BitsPassed(slave: Slave, h: seq<Symbol>, bits: seq<bit>, i: nat)
    requires Compliant(slave) && MasterByte(TurnAfter(h)) && |bits| == 8 && i <= 8
    ensures ClockedAll(slave, h + Cells(bits[..i]), bits[i..]) == h + Cells(bits)
    decreases 8 - i
  {
    hide TurnAfter, Clocked, Compliant;
    var now := h + Cells(bits[..i]);
    if i == 8 {
      assert bits[..8] == bits && bits[8..] == [];
    } else {
      TurnInByte(h, bits[..i]);
      CellPassed(slave, now, bits[i] == 1);
      OneOrZero(bits[i]);
      assert bits[i..][1..] == bits[i + 1..];
      assert now + [Bit(bits[i])] == h + Cells(bits[..i + 1]);
      BitsPassed(slave, h, bits, i + 1);
    }
  }

  lemma OneOrZero(b: bit)
    ensures LevelBit(b == 1) == b
  {
  }

  lemma BytePassed(slave: Slave, h: seq<Symbol>, b: byte)
    requires Compliant(slave) && MasterByte(TurnAfter(h))
    ensures SendingByte(slave, h, b) == SendByte(slave, h, b)
  {
    hide TurnAfter, Clocked, Compliant, Bits8, ClockedAll;
    BitsPassed(slave, h, Bits8(b), 0);
    assert Bits8(b)[..0] == [] && Bits8(b)[0..] == Bits8(b) && h + Cells([]) == h;
    CellAnswered(slave, h + Cells(Bits8(b)));
  }

  lemma {:induction false} AllPassed(slave: Slave, h: seq<Symbol>, data: seq<byte>)
    requires Compliant(slave) && (TurnAfter(h) == Writing(0) || AddressFirst(h, data))
    ensures SendingAll(slave, h, data) == SendAll(slave, h, data)
    decreases data
  {
    hide TurnAfter, Compliant, Bits8, SendingByte, SendByte;
    if data != [] {
      BytePassed(slave, h, data[0]);
      TurnAfterByte(slave, h, data[0]);
      if SendByte(slave, h, data[0]).acked {
        AllPassed(slave, SendByte(slave, h, data[0]).symbols, data[1..]);
      }
    }
  }

  /** The first byte is an address with the write bit. */
  predicate AddressFirst(h: seq<Symbol>, data: seq<byte>) {
    TurnAfter(h) == Address(0) && data != [] && Bits8(data[0])[7] == 0
  }

  lemma WriteStarts(h: seq<Symbol>, addr: byte, data: seq<byte>)
    ensures AddressFirst(h + [Start], [addr << 1] + data)
  {
    hide Bits8;
    TurnNext(h, Start);
    AddressIsWrite(addr);
  }

  lemma {:induction false} BitsRead(slave: Slave, h: seq<Symbol>, n: nat)
    requires Compliant(slave)
    ensures Sampled(slave, h, n) == Offered(slave, h, n) && Released(slave, h, n) == h + Cells(Offered(slave, h, n))
  {
    hide Compliant, Clocked;
    if n == 0 {
      assert h + Cells([]) == h;
    } else {
      BitsRead(slave, h, n - 1);
      CellAnswered(slave, Released(slave, h, n - 1));
      var before := Offered(slave, h, n - 1);
      var x := SlaveBit(slave, h + Cells(before));
      assert h + Cells(before) + [Bit(x)] == h + Cells(before + [x]);
    }
  }

  lemma ByteRead(slave: Slave, h: seq<Symbol>, ack: bool)
    requires Compliant(slave) && TurnAfter(h) == Reading(0)
    ensures ReadingByte(slave, h, ack) == ReadByte(slave, h, ack)
  {
    hide Compliant, TurnAfter, Clocked, Offered, Released, Sampled, Collected;
    BitsRead(slave, h, 8);
    TurnInRead(h, Offered(slave, h, 8));
    CellPassed(slave, h + Cells(Offered(slave, h, 8)), !ack);
  }

  lemma {:induction false} SomeRead(slave: Slave, h: seq<Symbol>, i: nat, n: nat)
    requires Compliant(slave) && TurnAfter(h) == Reading(0) && i <= n
    ensures ReadingSome(slave, h, i, n) == ReadSome(slave, h, i, n)
  {
    hide Compliant, TurnAfter, ReadingByte, ReadByte;
    if i > 0 {
      SomeRead(slave, h, i - 1, n);
      TurnInReadAll(slave, h, i - 1, n);
      ByteRead(slave, ReadSome(slave, h, i - 1, n).symbols, i != n);
    }
  }

  /** What the master does behind a START is the transaction with that slave. */
  lemma WriteIsTransaction(slave: Slave, h: seq<Symbol>, addr: byte, data: seq<byte>)
    requires Compliant(slave)
    ensures WriteFrom(slave, h + [Start], addr, data) == WriteTransaction(slave, h, addr, data)
  {
    hide SendingAll, SendAll, TurnAfter, Bits8;
    WriteStarts(h, addr, data);
    AllPassed(slave, h + [Start], [addr << 1] + data);
  }

  lemma ReadIsPart(slave: Slave, h: seq<Symbol>, addr: byte, n: nat)
    requires Compliant(slave) && !SlaveTurn(TurnAfter(h))
    ensures ReadFrom(slave, h, addr, n) == ReadPart(slave, h, addr, n)
  {
    hide SendingByte, SendByte, TurnAfter, Bits8, ReadingSome, ReadSome;
    assert Restarted(slave, h) == h + [Start];
    TurnNext(h, Start);
    AddressIsRead(addr);
    BytePassed(slave, h + [Start], (addr << 1) | 1);
    TurnAfterByte(slave, h + [Start], (addr << 1) | 1);
    var a := SendByte(slave, h + [Start], (addr << 1) | 1);
    if a.acked {
      SomeRead(slave, a.symbols, n, n);
    }
  }

  lemma WriteReadIsTransaction(slave: Slave, h: seq<Symbol>, addr: byte, data: seq<byte>, n: nat)
    requires Compliant(slave)
    ensures WriteReadFrom(slave, h + [Start], addr, data, n) == WriteReadTransaction(slave, h, addr, data, n)
  {
    hide SendingAll, SendAll, TurnAfter, Bits8, ReadFrom, ReadPart;
    WriteStarts(h, addr, data);
    AllPassed(slave, h + [Start], [addr << 1] + data);
    TurnAfterWrite(slave, h, addr, data);
    var w := SendAll(slave, h + [Start], [addr << 1] + data);
    if w.acked {
      ReadIsPart(slave, w.symbols, addr, n);
    }
  }

  // ---- A slave that holds SCL too long ----

  /** Nothing happens on a stuck bus, and every answer is what SDA was when it got stuck. */
  lemma {:induction false} StuckBits(slave: Slave, h: seq<Symbol>, bits: seq<bit>)
    requires Stuck(slave, h)
    ensures ClockedAll(slave, h, bits) == h
    decreases bits
  {
    if bits != [] {
      StuckBits(slave, h, bits[1..]);
    }
  }

  lemma StuckByte(slave: Slave, h: seq<Symbol>, b: byte)
    requires Stuck(slave, h)
    ensures SendingByte(slave, h, b) == Sending(h, slave.pulls(h))
  {
    StuckBits(slave, h, Bits8(b));
  }

  lemma {:induction false} StuckAll(slave: Slave, h: seq<Symbol>, data: seq<byte>)
    requires Stuck(slave, h)
    ensures SendingAll(slave, h, data) == Sending(h, data == [] || slave.pulls(h))
    decreases data
  {
    hide Stuck, SendingByte;
    if data != [] {
      StuckByte(slave, h, data[0]);
      if slave.pulls(h) {
        StuckAll(slave, h, data[1..]);
      }
    }
  }

  lemma {:induction false} StuckRead(slave: Slave, h: seq<Symbol>, n: nat)
    requires Stuck(slave, h)
    ensures Released(slave, h, n) == h && forall i | 0 <= i < n :: Sampled(slave, h, n)[i] == SlaveBit(slave, h)
  {
    if n > 0 {
      StuckRead(slave, h, n - 1);
    }
  }

  /** A byte read from a stuck bus is 0x00 or 0xFF. */
  lemma StuckReadsConstant(slave: Slave, h: seq<Symbol>, ack: bool)
    requires Stuck(slave, h)
    ensures ReadingByte(slave, h, ack) == Fetched(h, [if slave.pulls(h) then 0x00 else 0xFF])
  {
    hide Collected;
    StuckRead(slave, h, 8);
    var x := SlaveBit(slave, h);
    assert Sampled(slave, h, 8) == [x, x, x, x, x, x, x, x];
    EqualBits(x);
  }

  lemma EqualBits(x: bit)
    ensures Collected([x, x, x, x, x, x, x, x]) == if x == 0 then 0x00 else 0xFF
  {
    hide Collected, BitAt;
    var bits := [x, x, x, x, x, x, x, x];
    var value: byte := if x == 0 then 0x00 else 0xFF;
    forall k: nat | k < 8
      ensures BitAt(Collected(bits), k) == BitAt(value, k)
    {
      CollectedAt(bits, k);
      EqualBitAt(x, k);
    }
    EightBits(Collected(bits), value);
  }

  lemma EqualBitAt(x: bit, k: nat)
    requires k < 8
    ensures BitAt(if x == 0 then 0x00 else 0xFF, k) == x
  {
    if k == 0 {
    } else if k == 1 {
    } else if k == 2 {
    } else if k == 3 {
    } else if k == 4 {
    } else if k == 5 {
    } else if k == 6 {
    } else {
    }
  }

  /** The bits of a byte pass, up to the first cell that the slave holds. */
  lemma {:induction false} BitsOrStuck(slave: Slave, h: seq<Symbol>, bits: seq<bit>, i: nat) returns (j: nat)
    requires KeepsTurns(slave) && MasterByte(TurnAfter(h)) && |bits| == 8 && i <= 8
    ensures j <= 8 && ClockedAll(slave, h + Cells(bits[..i]), bits[i..]) == h + Cells(bits[..j])
    ensures j < 8 ==> Stuck(slave, h + Cells(bits[..j]))
    decreases 8 - i
  {
    hide TurnAfter, Stuck, KeepsTurns;
    var now := h + Cells(bits[..i]);
    j := i;
    if i == 8 {
      assert bits[8..] == [];
    } else if Stuck(slave, now) {
      StuckBits(slave, now, bits[i..]);
    } else {
      TurnInByte(h, bits[..i]);
      NotPulled(slave, now);
      OneOrZero(bits[i]);
      assert bits[i..][1..] == bits[i + 1..];
      assert now + [Bit(bits[i])] == h + Cells(bits[..i + 1]);
      j := BitsOrStuck(slave, h, bits, i + 1);
    }
  }

  lemma NotPulled(slave: Slave, h: seq<Symbol>)
    requires KeepsTurns(slave) && !SlaveTurn(TurnAfter(h))
    ensures !slave.pulls(h)
  {
  }

  lemma ByteOrStuck(slave: Slave, h: seq<Symbol>, b: byte)
    requires KeepsTurns(slave) && MasterByte(TurnAfter(h))
    ensures var r := SendingByte(slave, h, b);
            || r == SendByte(slave, h, b)
            || (Stuck(slave, r.symbols) && r.acked == slave.pulls(r.symbols) && |r.symbols| < |h| + 9)
  {
    hide TurnAfter, KeepsTurns, Bits8, ClockedAll, Stuck;
    var bits := Bits8(b);
    var j := BitsOrStuck(slave, h, bits, 0);
    assert bits[..0] == [] && bits[0..] == bits && h + Cells([]) == h && bits[..8] == bits;
  }

  lemma {:induction false} AckedSize(slave: Slave, h: seq<Symbol>, data: seq<byte>)
    ensures SendAll(slave, h, data).acked ==> |SendAll(slave, h, data).symbols| == |h| + 9 * |data|
    decreases data
  {
    hide Bits8;
    if data != [] {
      AckedSize(slave, SendByte(slave, h, data[0]).symbols, data[1..]);
    }
  }

  /** Sending on a bus that the slave may hold too long. */
  lemma {:induction false} AllOrStuck(slave: Slave, h: seq<Symbol>, data: seq<byte>)
    requires KeepsTurns(slave) && (TurnAfter(h) == Writing(0) || AddressFirst(h, data))
    ensures var r := SendingAll(slave, h, data);
            if !Stuck(slave, r.symbols) then r == SendAll(slave, h, data)
            else r.acked <==> slave.pulls(r.symbols) || SendAll(slave, h, data) == Sending(r.symbols, true)
    decreases data
  {
    hide TurnAfter, KeepsTurns, Bits8, SendingByte, SendByte, Stuck;
    if data != [] {
      var r, first := SendingByte(slave, h, data[0]), SendByte(slave, h, data[0]);
      ByteOrStuck(slave, h, data[0]);
      TurnAfterByte(slave, h, data[0]);
      if r != first {
        AckedSize(slave, h, data);
        StuckAll(slave, r.symbols, data[1..]);
      } else if first.acked {
        AllOrStuck(slave, first.symbols, data[1..]);
      } else {
        NotPulled(slave, first.symbols);
      }
    }
  }

  /** When the slave has held SCL until the master gave up, a write reports success exactly when all its bytes had
      been acknowledged by then, or the slave holds SDA as well; no STOP appears. Otherwise the write is what it would
      be with a slave that never holds SCL too long. */
  lemma StuckStatusIff(slave: Slave, h: seq<Symbol>, addr: byte, data: seq<byte>)
    requires KeepsTurns(slave)
    ensures var all := [addr << 1] + data;
            var f, t := SendingAll(slave, h + [Start], all).symbols, WriteFrom(slave, h + [Start], addr, data);
            if Stuck(slave, f) then
              && t.symbols == f
              && (t.status == Ok <==> slave.pulls(f) || SendAll(slave, h + [Start], all) == Sending(f, true))
            else t == WriteTransaction(slave, h, addr, data)
  {
    hide TurnAfter, KeepsTurns, Bits8, SendingAll, SendAll, Stuck, Stopped;
    WriteStarts(h, addr, data);
    AllOrStuck(slave, h + [Start], [addr << 1] + data);
  }

  lemma {:induction false} StuckSome(slave: Slave, h: seq<Symbol>, i: nat, n: nat)
    requires Stuck(slave, h) && slave.pulls(h)
    ensures ReadingSome(slave, h, i, n) == Fetched(h, Zeros(i))
  {
    hide Stuck, ReadingByte;
    if i > 0 {
      StuckSome(slave, h, i - 1, n);
      StuckReadsConstant(slave, h, i != n);
      assert Zeros(i - 1) + [0x00] == Zeros(i);
    }
  }

  /** When that happens before the repeated START of a write-read, it reports success exactly when the slave holds SDA
      as well; it then returns zeros, and no repeated START has appeared. */
  lemma StuckReadIff(slave: Slave, h: seq<Symbol>, addr: byte, data: seq<byte>, n: nat)
    requires KeepsTurns(slave) && Stuck(slave, SendingAll(slave, h + [Start], [addr << 1] + data).symbols)
    ensures var f := SendingAll(slave, h + [Start], [addr << 1] + data).symbols;
            WriteReadFrom(slave, h + [Start], addr, data, n)
            == if slave.pulls(f) then Transaction(Ok, f, Zeros(n)) else Transaction(Nack, f, [])
  {
    hide TurnAfter, KeepsTurns, Bits8, SendingAll, SendAll, Stuck, Stopped, SendingByte, ReadingSome, Zeros;
    var w := SendingAll(slave, h + [Start], [addr << 1] + data);
    WriteStarts(h, addr, data);
    AllOrStuck(slave, h + [Start], [addr << 1] + data);
    StuckByte(slave, w.symbols, (addr << 1) | 1);
    if slave.pulls(w.symbols) {
      StuckSome(slave, w.symbols, n, n);
    }
  }

  /** A slave that acknowledges its address and holds SCL for ever in that cell. */
  function Holding(): Slave {
    Slave(h => TurnAfter(h).AddressAck?, h => if TurnAfter(h).AddressAck? then STRETCH_TIMEOUT_LOOPS else 0)
  }

  lemma HoldingWaits(h: seq<Symbol>, bits: seq<bit>)
    requires TurnAfter(h) == Address(0) && |bits| < 8
    ensures !Stuck(Holding(), h + Cells(bits))
  {
    TurnInByte(h, bits);
  }

  /** Every write to it reports success, although nothing but the address bits has passed. */
  lemma HoldingSucceeds(h: seq<Symbol>, addr: byte, data: seq<byte>)
    ensures KeepsTurns(Holding())
    ensures WriteFrom(Holding(), h + [Start], addr, data)
         == Transaction(Ok, h + [Start] + Cells(Bits8(addr << 1)), [])
  {
    hide TurnAfter, Bits8, ClockedAll;
    var begun, bits, all := h + [Start], Bits8(addr << 1), [addr << 1] + data;
    TurnNext(h, Start);
    var j := BitsOrStuck(Holding(), begun, bits, 0);
    TurnInByte(begun, bits[..j]);
    assert bits[..0] == [] && bits[0..] == bits && begun + Cells([]) == begun && bits[..8] == bits;
    var sent := begun + Cells(bits);
    if j < 8 {
      HoldingWaits(begun, bits[..j]);
    }
    TurnInByte(begun, bits);
    assert all[0] == addr << 1 && all[1..] == data;
    StuckAll(Holding(), sent, data);
  }

  // ---- Reading nothing ----

  /** A slave that acknowledges everything and whose every data bit is 0. */
  function Eager(): Slave {
    Slave(h => SlaveTurn(TurnAfter(h)), _ => 0)
  }

  lemma {:induction false} EagerAcks(h: seq<Symbol>, data: seq<byte>)
    requires MasterByte(TurnAfter(h)) && (TurnAfter(h) == Address(0) ==> |data| > 0 && Bits8(data[0])[7] == 0)
    ensures SendAll(Eager(), h, data).acked
    decreases data
  {
    hide TurnAfter, Bits8;
    if data != [] {
      TurnInByte(h, Bits8(data[0]));
      TurnAfterByte(Eager(), h, data[0]);
      EagerAcks(SendByte(Eager(), h, data[0]).symbols, data[1..]);
    }
  }

  ghost predicate EndsInStop(t: Transaction) {
    t.symbols != [] && t.symbols[|t.symbols| - 1] == Stop
  }

  /** With a read of no bytes this slave still pulls SDA for its first data bit when the master tries to
      stop, and no STOP appears on the bus. */
  lemma StopMissing(h: seq<Symbol>, addr: byte, data: seq<byte>)
    ensures !EndsInStop(WriteReadTransaction(Eager(), h, addr, data, 0))
  {
    hide TurnAfter, Bits8, SendAll;
    var w := SendAll(Eager(), h + [Start], [addr << 1] + data);
    TurnNext(h, Start);
    AddressIsWrite(addr);
    EagerAcks(h + [Start], [addr << 1] + data);
    TurnNext(w.symbols, Start);
    AddressIsRead(addr);
    var h2 := w.symbols + [Start];
    TurnInByte(h2, Bits8((addr << 1) | 1));
    TurnAfterByte(Eager(), h2, (addr << 1) | 1);
  }

  /** A write-read is sure to end with a STOP exactly when at least one byte is asked for. */
  lemma StopIff(h: seq<Symbol>, addr: byte, data: seq<byte>, n: nat)
    ensures (forall slave {:trigger Compliant(slave)} ::
               Compliant(slave) ==> EndsInStop(WriteReadTransaction(slave, h, addr, data, n)))
            <==> n > 0
  {
    hide WriteReadTransaction, Spelled, FetchedAll;
    if n > 0 {
      forall slave | Compliant(slave)
        ensures EndsInStop(WriteReadTransaction(slave, h, addr, data, n))
      {
        var m, written := WriteReadReadsBack(slave, h, addr, data, n);
      }
    } else {
      StopMissing(h, addr, data);
      assert Compliant(Eager());
    }
  }
}
