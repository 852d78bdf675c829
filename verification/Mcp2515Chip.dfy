/** A register-file model of the MCP2515 CAN controller behind its SPI instructions (DS20001801K, sections
    10 and 12), as far as the driver uses it: one transmit and one receive buffer, and loopback mode. */
module Mcp2515Chip {
  import opened Bytes

  const SIZE: nat := 128
  type Registers = r: seq<byte> | |r| == SIZE witness seq(SIZE, _ => 0)

  const INSTR_RESET: byte := 0xC0
  const INSTR_READ: byte := 0x03
  const INSTR_WRITE: byte := 0x02
  const INSTR_RTS_TXB0: byte := 0x81
  const INSTR_READ_RXB0: byte := 0x90
  const INSTR_LOAD_TXB0: byte := 0x40

  const CANSTAT: nat := 0x0E
  const CANCTRL: nat := 0x0F
  const CNF3: nat := 0x28
  const CNF2: nat := 0x29
  const CNF1: nat := 0x2A
  const CANINTF: nat := 0x2C
  const TXB0: nat := 0x31
  const RXB0: nat := 0x61

  /** The registers, and how many transactions a mode change and a transmission still take; both delays are
      properties of the chip. */
  datatype Chip = Chip(regs: Registers, modeWait: nat, txWait: nat, modeLag: nat, txLag: nat)

  function Put(r: Registers, at: nat, b: byte): Registers {
    if at < SIZE then r[at := b] else r
  }

  /** The operating mode that CANSTAT shows. */
  function Mode(r: Registers): byte {
    r[CANSTAT] >> 5
  }

  const CONFIG: byte := 4
  const LOOPBACK: byte := 2

  predicate Waiting(r: Registers) {
    r[CANINTF] & 1 == 1
  }

  /** Resetting selects configuration mode and clears the interrupt flags. */
  function Restarted(c: Chip): Chip {
    Chip(Put(Put(Put(c.regs, CANCTRL, 0x87), CANSTAT, 0x80), CANINTF, 0), 0, 0, c.modeLag, c.txLag)
  }

  /** CANSTAT cannot be written, the bit timing only in configuration mode, and CANCTRL requests a mode. */
  function Written(c: Chip, at: nat, b: byte): Chip {
    if at == CANSTAT || (CNF3 <= at <= CNF1 && Mode(c.regs) != CONFIG) then c
    else if at == CANCTRL then c.(regs := Put(c.regs, at, b), modeWait := c.modeLag + 1)
    else c.(regs := Put(c.regs, at, b))
  }

  function WrittenAll(c: Chip, at: nat, data: seq<byte>): Chip
    decreases data
  {
    if data == [] then c else WrittenAll(Written(c, at, data[0]), (at + 1) % SIZE, data[1..])
  }

  /** Registers from `at` on, one a byte; the first `skip` bytes of the transaction are the instruction. */
  function ReadOut(r: Registers, at: nat, skip: nat, n: nat): (rx: seq<byte>)
    ensures |rx| == n
  {
    seq(n, i requires 0 <= i < n => if i < skip then 0 else r[(at + (i - skip)) % SIZE])
  }

  function Overlaid(r: Registers, at: nat, data: seq<byte>): Registers {
    seq(SIZE, i requires 0 <= i < SIZE => if at <= i < at + |data| then data[i - at] else r[i])
  }

  /** The four bits of a length register, clipped to the eight bytes a frame can have. */
  function Length(b: byte): (n: nat)
    ensures n <= 8
  {
    var n := Value(b & 0x0F);
    if n > 8 then 8 else n
  }

  /** A transmitted frame arrives in the receive buffer, of whose data registers only the used ones change;
      if that buffer is still full, the frame is lost. */
  function Arrived(r: Registers): Registers {
    if Waiting(r) then r
    else
      var n := Length(r[TXB0 + 4]);
      seq(SIZE, i requires 0 <= i < SIZE =>
        if i == RXB0 + 1 then r[TXB0 + 1] & 0xE0
        else if RXB0 <= i < RXB0 + 5 + n then r[i - RXB0 + TXB0]
        else if i == CANINTF then r[i] | 1
        else r[i])
  }

  datatype Reply = Reply(chip: Chip, rx: seq<byte>)

  /** What one transaction does while the chip is selected, and the bytes it sends meanwhile. */
  function Process(c: Chip, tx: seq<byte>): (r: Reply)
    ensures |r.rx| == |tx|
  {
    if tx == [] then Reply(c, [])
    else if tx[0] == INSTR_RESET then Reply(Restarted(c), Zeros(|tx|))
    else if tx[0] == INSTR_READ && |tx| > 1 then Reply(c, ReadOut(c.regs, Value(tx[1]), 2, |tx|))
    else if tx[0] == INSTR_WRITE && |tx| > 1 then Reply(WrittenAll(c, Value(tx[1]), tx[2..]), Zeros(|tx|))
    else if tx[0] == INSTR_LOAD_TXB0 then Reply(c.(regs := Overlaid(c.regs, TXB0, tx[1..])), Zeros(|tx|))
    else if tx[0] == INSTR_RTS_TXB0 then
      Reply(if Mode(c.regs) == LOOPBACK then c.(txWait := c.txLag + 1) else c, Zeros(|tx|))
    else if tx[0] == INSTR_READ_RXB0 then
      Reply(c.(regs := Put(c.regs, CANINTF, c.regs[CANINTF] & 0xFE)), ReadOut(c.regs, RXB0, 1, |tx|))
    else Reply(c, Zeros(|tx|))
  }

  /** Time passes with every transaction. */
  function ModeTick(c: Chip): Chip {
    if c.modeWait == 0 then c
    else if c.modeWait > 1 then c.(modeWait := c.modeWait - 1)
    else c.(modeWait := 0, regs := Put(c.regs, CANSTAT, (c.regs[CANSTAT] & 0x1F) | (c.regs[CANCTRL] & 0xE0)))
  }

  function TxTick(c: Chip): Chip {
    if c.txWait == 0 then c
    else if c.txWait > 1 then c.(txWait := c.txWait - 1)
    else c.(txWait := 0, regs := Arrived(c.regs))
  }

  function Tick(c: Chip): Chip {
    TxTick(ModeTick(c))
  }

  /** A whole transaction, from select to deselect. */
  function ChipAfter(c: Chip, tx: seq<byte>): Chip {
    Tick(Process(c, tx).chip)
  }

  // ---- Frames ----

  datatype Frame = Frame(id: bv16, dlc: nat, data: seq<byte>)

  /** The fields of the C++ structure hold nothing else. */
  predicate Fits(f: Frame) {
    f.dlc < 256 && |f.data| == 8
  }

  predicate Standard(f: Frame) {
    f.id <= 0x7FF && f.dlc <= 8
  }

  function IdHigh(id: bv16): byte {
    ((id >> 3) & 0xFF) as byte
  }

  function IdLow(id: bv16): byte {
    ((id & 0x07) << 5) as byte
  }

  function IdOf(high: byte, low: byte): bv16 {
    ((high as bv16) << 3) | ((low >> 5) as bv16)
  }

  lemma IdRoundTrip(id: bv16)
    requires id <= 0x7FF
    ensures IdOf(IdHigh(id), IdLow(id)) == id && IdLow(id) & 0xE0 == IdLow(id)
  {
  }

  lemma JoinedAsInt(high: byte, low: byte)
    ensures (((high as bv16) << 3) | ((low >> 5) as bv16)) as int == high as int * 8 + low as int / 32
  {
  }

  /** An identifier is eight times the high register and the upper three bits of the low one. */
  lemma IdOfAsInt(high: byte, low: byte)
    ensures IdOf(high, low) as int == high as int * 8 + low as int / 32
  {
    JoinedAsInt(high, low);
  }

  lemma LowAsInt(id: bv16)
    ensures IdLow(id) as int % 32 == 0
  {
  }

  /** So the high register holds its upper eight bits, and the low one the other three in its upper bits. */
  lemma IdSplit(id: bv16)
    requires id <= 0x7FF
    ensures IdHigh(id) as int == id as int / 8 && IdLow(id) as int == id as int % 8 * 32
  {
    hide *;
    IdRoundTrip(id);
    IdOfAsInt(IdHigh(id), IdLow(id));
    LowAsInt(id);
  }

  /** The transaction that loads a frame into the transmit buffer. */
  function LoadBytes(f: Frame): (tx: seq<byte>)
    requires Standard(f) && Fits(f)
    ensures |tx| == 6 + f.dlc
  {
    [INSTR_LOAD_TXB0, IdHigh(f.id), IdLow(f.id), 0, 0, Nth(f.dlc)] + f.data[..f.dlc]
  }

  /** A frame as a receive transaction spells it: data beyond the length is zero. */
  function FrameIn(rx: seq<byte>): (f: Frame)
    requires |rx| == 14
    ensures Fits(f)
  {
    var n := Length(rx[5]);
    Frame(IdOf(rx[1], rx[2]), n, rx[6..6 + n] + Zeros(8 - n))
  }

  lemma NthAsInt(n: nat)
    requires n < 256
    ensures Nth(n) as int == n
  {
    ValueOfNth(n);
    ValueIsInt(Nth(n));
  }

  lemma LoadParts(f: Frame)
    requires Standard(f) && Fits(f)
    ensures var tx := LoadBytes(f);
            && tx[0] == 0x40 && tx[1] == IdHigh(f.id) && tx[2] == IdLow(f.id) && tx[3] == 0 && tx[4] == 0
            && tx[5] == Nth(f.dlc) && tx[6..] == f.data[..f.dlc]
  {
    hide IdHigh, IdLow, Nth;
  }

  /** What a load transaction says, in numbers: the instruction, the identifier in two bytes, two zeros, the length and
      the data. */
  lemma LoadSpelled(f: Frame)
    requires Standard(f) && Fits(f)
    ensures var tx, id := LoadBytes(f), f.id as int;
            && tx[0] == 0x40 && tx[1] as int == id / 8 && tx[2] as int == id % 8 * 32 && tx[3] == 0 && tx[4] == 0
            && tx[5] as int == f.dlc && tx[6..] == f.data[..f.dlc]
  {
    LoadParts(f);
    SmallId(f);
    hide *;
    IdSplit(f.id);
    NthAsInt(f.dlc);
  }

  lemma SmallId(f: Frame)
    requires Standard(f)
    ensures f.id <= 0x7FF && f.dlc < 256
  {
  }

  lemma LowNibble(b: byte)
    ensures (b & 0x0F) as int == b as int % 16
  {
  }

  lemma LengthAsInt(b: byte)
    ensures Length(b) == if b as int % 16 > 8 then 8 else b as int % 16
  {
    LowNibble(b);
    ValueIsInt(b & 0x0F);
  }

  /** What the receive buffer holds. */
  function Held(r: Registers): Frame {
    FrameIn(ReadOut(r, RXB0, 1, 14))
  }

  /** What the driver makes of the registers of the receive buffer, in numbers. A length code above eight stands for
      eight data bytes, and data registers beyond the length count as zero. */
  lemma HeldSpelled(r: Registers)
    ensures var f, n := Held(r), r[0x65] as int % 16;
            && f.id as int == r[0x61] as int * 8 + r[0x62] as int / 32
            && f.dlc == (if n > 8 then 8 else n) && |f.data| == 8
            && forall i | 0 <= i < 8 :: f.data[i] == if i < f.dlc then r[0x66 + i] else 0
  {
    hide IdOf, Length;
    IdOfAsInt(r[0x61], r[0x62]);
    LengthAsInt(r[0x65]);
    var rx := ReadOut(r, RXB0, 1, 14);
    assert rx[1] == r[0x61] && rx[2] == r[0x62] && rx[5] == r[0x65];
    assert forall i | 6 <= i < 14 :: rx[i] == r[0x60 + i];
  }

  function Padded(f: Frame): Frame
    requires Standard(f) && Fits(f)
  {
    Frame(f.id, f.dlc, f.data[..f.dlc] + Zeros(8 - f.dlc))
  }

  /** Settled in loopback mode with nothing to send or to read. */
  predicate Free(c: Chip) {
    c.modeWait == 0 && c.txWait == 0 && Mode(c.regs) == LOOPBACK && !Waiting(c.regs)
  }

  /** The transmit buffer holds f. */
  predicate Loaded(r: Registers, f: Frame)
    requires Standard(f) && Fits(f)
  {
    && r[TXB0] == IdHigh(f.id) && r[TXB0 + 1] == IdLow(f.id) && r[TXB0 + 4] == Nth(f.dlc)
    && forall i | 0 <= i < f.dlc :: r[TXB0 + 5 + i] == f.data[i]
  }

  /** The frame f is on its way through the chip, or waits in the receive buffer. */
  predicate Passing(c: Chip, f: Frame)
    requires Standard(f) && Fits(f)
  {
    && c.modeWait == 0 && Mode(c.regs) == LOOPBACK
    && if c.txWait > 0 then !Waiting(c.regs) && Loaded(c.regs, f) else Waiting(c.regs) && Held(c.regs) == Padded(f)
  }

  lemma LengthOfNth(n: nat)
    requires n <= 8
    ensures Length(Nth(n)) == n
  {
    ValueOfNth(n);
    LowBits(Nth(n), n);
  }

  lemma LowBits(b: byte, n: nat)
    requires n <= 8 && b == Nth(n)
    ensures b & 0x0F == b
  {
    assert Nth(0) == 0 && Nth(1) == 1 && Nth(2) == 2;
    assert Nth(3) == 3 && Nth(4) == 4 && Nth(5) == 5;
    assert Nth(6) == 6 && Nth(7) == 7 && Nth(8) == 8;
  }

  lemma ArrivedHeader(r: Registers)
    requires !Waiting(r)
    ensures var d := Arrived(r);
            d[RXB0] == r[TXB0] && d[RXB0 + 1] == r[TXB0 + 1] & 0xE0 && d[RXB0 + 4] == r[TXB0 + 4]
  {
    hide Length, Waiting;
  }

  lemma ArrivedData(r: Registers, i: nat)
    requires !Waiting(r) && i < Length(r[TXB0 + 4])
    ensures Arrived(r)[RXB0 + 5 + i] == r[TXB0 + 5 + i]
  {
    hide Length, Waiting;
  }

  /** What a read of the receive buffer gives once a loaded frame has arrived there. */
  lemma ArrivedBytes(r: Registers, f: Frame)
    requires Standard(f) && Fits(f) && Loaded(r, f) && !Waiting(r)
    ensures var rx := ReadOut(Arrived(r), RXB0, 1, 14);
            && rx[1] == IdHigh(f.id) && rx[2] == IdLow(f.id) & 0xE0 && rx[5] == Nth(f.dlc)
            && rx[6..6 + f.dlc] == f.data[..f.dlc]
  {
    hide IdOf, IdHigh, IdLow, Nth, Length, Waiting, Arrived;
    LengthOfNth(f.dlc);
    ArrivedHeader(r);
    var rx := ReadOut(Arrived(r), RXB0, 1, 14);
    forall i | 0 <= i < f.dlc
      ensures rx[6 + i] == f.data[i]
    {
      ArrivedData(r, i);
    }
    assert rx[6..6 + f.dlc] == f.data[..f.dlc];
  }

  lemma LowKept(id: bv16)
    ensures IdLow(id) & 0xE0 == IdLow(id)
  {
  }

  /** A frame that arrives in an empty buffer is the frame that was loaded, its data padded with zeros
      whatever the buffer held before. */
  lemma ArrivesIntact(r: Registers, f: Frame)
    requires Standard(f) && Fits(f) && Loaded(r, f) && !Waiting(r)
    ensures Waiting(Arrived(r)) && Held(Arrived(r)) == Padded(f) && Mode(Arrived(r)) == Mode(r)
  {
    hide IdOf, IdHigh, IdLow, Nth, Length, ReadOut;
    LengthOfNth(f.dlc);
    IdRoundTrip(f.id);
    FlagSet(r[CANINTF]);
    LowKept(f.id);
    ArrivedBytes(r, f);
  }

  lemma FlagSet(b: byte)
    ensures (b | 1) & 1 == 1 && (b & 0xFE) & 1 == 0
  {
  }

  /** Idle time leaves a frame where it is or completes its way. */
  lemma TickCarries(c: Chip, f: Frame)
    requires Standard(f) && Fits(f) && Passing(c, f)
    ensures Passing(Tick(c), f) && Tick(c).txWait == (if c.txWait == 0 then 0 else c.txWait - 1)
    ensures Tick(c).modeLag == c.modeLag && Tick(c).txLag == c.txLag
  {
    hide Loaded, Held, Arrived, Padded, Mode, Waiting;
    if c.txWait == 1 {
      ArrivesIntact(c.regs, f);
    }
  }

  function Request(c: Chip): Chip {
    ChipAfter(c, [INSTR_RTS_TXB0])
  }

  lemma LoadedBy(c: Chip, f: Frame)
    requires Standard(f) && Fits(f) && Free(c)
    ensures var d := ChipAfter(c, LoadBytes(f));
            Free(d) && Loaded(d.regs, f) && Held(d.regs) == Held(c.regs) && d.txLag == c.txLag && d.modeLag == c.modeLag
  {
    hide IdOf, IdHigh, IdLow, Nth, Length;
    var tx := LoadBytes(f);
    var r := Overlaid(c.regs, TXB0, tx[1..]);
    assert ReadOut(r, RXB0, 1, 14) == ReadOut(c.regs, RXB0, 1, 14);
    assert forall i | 0 <= i < f.dlc :: tx[1..][5 + i] == f.data[i];
  }

  /** The registers of the transmit buffer behind a load, in numbers. */
  lemma LoadedSpelled(c: Chip, f: Frame)
    requires Standard(f) && Fits(f) && Free(c)
    ensures var r, id := ChipAfter(c, LoadBytes(f)).regs, f.id as int;
            && r[0x31] as int == id / 8 && r[0x32] as int == id % 8 * 32 && r[0x35] as int == f.dlc
            && forall i | 0 <= i < f.dlc :: r[0x36 + i] == f.data[i]
  {
    hide IdHigh, IdLow, Nth, ChipAfter, LoadBytes;
    LoadedBy(c, f);
    SmallId(f);
    IdSplit(f.id);
    NthAsInt(f.dlc);
  }

  /** Loading and requesting transmission in loopback mode sends the frame on its way. */
  lemma SentOff(c: Chip, f: Frame)
    requires Standard(f) && Fits(f) && Free(c)
    ensures var d := Request(ChipAfter(c, LoadBytes(f)));
            Passing(d, f) && d.txWait == c.txLag == d.txLag && d.modeLag == c.modeLag
  {
    hide Loaded, Held, Arrived, Padded, Mode, Waiting, LoadBytes;
    var d := ChipAfter(c, LoadBytes(f));
    LoadedBy(c, f);
    ArrivesIntact(d.regs, f);
    assert [INSTR_RTS_TXB0] != [];
  }

  // ---- Changing the mode ----

  predicate Settled(c: Chip) {
    c.modeWait == 0 && c.txWait == 0
  }

  function WithMode(canctrl: byte, mode: byte): byte {
    (canctrl & 0x1F) | (mode << 5)
  }

  /** The chip i transactions after a settled chip was asked for another mode. */
  function Turning(c: Chip, canctrl: byte, i: nat): Chip {
    var r := Put(c.regs, CANCTRL, canctrl);
    if i < c.modeLag then c.(regs := r, modeWait := c.modeLag - i)
    else c.(regs := Put(r, CANSTAT, (r[CANSTAT] & 0x1F) | (canctrl & 0xE0)), modeWait := 0)
  }

  lemma TurningStarts(c: Chip, canctrl: byte)
    requires Settled(c)
    ensures Tick(Written(c, CANCTRL, canctrl)) == Turning(c, canctrl, 0)
  {
  }

  lemma TurningOn(c: Chip, canctrl: byte, i: nat)
    requires Settled(c)
    ensures Tick(Turning(c, canctrl, i)) == Turning(c, canctrl, i + 1)
  {
  }

  lemma ModeBits(canctrl: byte, canstat: byte, mode: byte)
    requires mode <= 4
    ensures ((canstat & 0x1F) | (WithMode(canctrl, mode) & 0xE0)) >> 5 == mode
    ensures WithMode(canctrl, mode) & 0x1F == canctrl & 0x1F
  {
  }

  /** The requested mode shows once the mode change is over, or all along if it was the old one. */
  lemma ModeWhileTurning(c: Chip, mode: byte, i: nat)
    requires mode <= 4
    ensures Mode(Turning(c, WithMode(c.regs[CANCTRL], mode), i).regs) == mode
            <==> i >= c.modeLag || Mode(c.regs) == mode
  {
    ModeBits(c.regs[CANCTRL], c.regs[CANSTAT], mode);
    hide WithMode;
  }

  lemma TickSettled(c: Chip)
    requires Settled(c)
    ensures Tick(c) == c
  {
  }
}
