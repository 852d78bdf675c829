/** The I2C bus as a monitor sees it, slaves that follow the bus rules, and what a transaction with such a
    slave puts on the bus (UM10204 sections 3.1.3 to 3.1.6, 3.1.9 and 3.1.10). */
module I2cBus {
  import opened Bytes

  /** The levels of both lines at one moment: true is high. */
  datatype Level = Level(scl: bool, sda: bool)

  datatype Symbol = Start | Stop | Bit(b: bit)

  /** A monitor knows the present levels, whether SDA has been stable since SCL rose, and the symbols so far. */
  datatype Monitor = Monitor(scl: bool, sda: bool, stable: bool, symbols: seq<Symbol>)

  function LevelBit(high: bool): bit {
    if high then 1 else 0
  }

  /** SDA falling while SCL is high is a START, rising a STOP; a stable high period of SCL is a bit. */
  function Observe(m: Monitor, l: Level): Monitor {
    if m.scl && l.scl && m.sda != l.sda then
      Monitor(l.scl, l.sda, false, m.symbols + [if m.sda then Start else Stop])
    else if m.scl && !l.scl && m.stable then
      Monitor(l.scl, l.sda, false, m.symbols + [Bit(LevelBit(m.sda))])
    else
      Monitor(l.scl, l.sda, l.scl && (m.stable || !m.scl), m.symbols)
  }

  /** What a monitor that joins an idle bus makes of a waveform. */
  function Watched(wave: seq<Level>): Monitor {
    if wave == [] then Monitor(true, true, false, []) else Observe(Watched(wave[..|wave| - 1]), wave[|wave| - 1])
  }

  lemma WatchedNext(wave: seq<Level>, l: Level)
    ensures Watched(wave + [l]) == Observe(Watched(wave), l)
  {
    assert (wave + [l])[..|wave|] == wave;
  }

  // ---- Whose turn it is to drive SDA ----

  /** The cell that comes next: n counts the bits of a byte, the ninth being its acknowledgement. */
  datatype Turn = Off | Address(n: nat) | AddressAck(read: bool) | Writing(n: nat) | Reading(n: nat)

  function Turned(t: Turn, s: Symbol): Turn {
    match s
    case Start => Address(0)
    case Stop => Off
    case Bit(b) =>
      match t
      case Off => Off
      case Address(n) => if n < 7 then Address(n + 1) else AddressAck(b == 1)
      case AddressAck(read) => if b == 1 then Off else if read then Reading(0) else Writing(0)
      case Writing(n) => if n < 8 then Writing(n + 1) else if b == 0 then Writing(0) else Off
      case Reading(n) => if n < 8 then Reading(n + 1) else if b == 0 then Reading(0) else Off
  }

  function TurnAfter(symbols: seq<Symbol>): Turn {
    if symbols == [] then Off else Turned(TurnAfter(symbols[..|symbols| - 1]), symbols[|symbols| - 1])
  }

  lemma TurnNext(symbols: seq<Symbol>, s: Symbol)
    ensures TurnAfter(symbols + [s]) == Turned(TurnAfter(symbols), s)
  {
    assert (symbols + [s])[..|symbols|] == symbols;
  }

  /** A slave acknowledges an address, acknowledges written bytes and sends the bits of read ones. */
  predicate SlaveTurn(t: Turn) {
    match t
    case AddressAck(_) => true
    case Writing(n) => n == 8
    case Reading(n) => n < 8
    case _ => false
  }

  /** A slave decides from the symbols so far whether to pull SDA low in the next cell, and for how many
      polls to hold SCL low before it. A cell that it holds until the master gives up does not take place. */
  datatype Slave = Slave(pulls: seq<Symbol> -> bool, holds: seq<Symbol> -> nat)

  const STRETCH_TIMEOUT_LOOPS: nat := 100000

  /** It pulls SDA in its own cells only. */
  ghost predicate KeepsTurns(slave: Slave) {
    forall h {:trigger slave.pulls(h)} :: slave.pulls(h) ==> SlaveTurn(TurnAfter(h))
  }

  /** It also lets SCL go before the master gives up. */
  ghost predicate Compliant(slave: Slave) {
    KeepsTurns(slave) && forall h {:trigger slave.holds(h)} :: slave.holds(h) < STRETCH_TIMEOUT_LOOPS
  }

  /** The master gives up waiting for SCL. */
  predicate Stuck(slave: Slave, h: seq<Symbol>) {
    slave.holds(h) >= STRETCH_TIMEOUT_LOOPS
  }

  // ---- What a transaction looks like with any slave ----

  /** One clock pulse in which the master drives SDA low or leaves it alone. */
  function Clocked(slave: Slave, h: seq<Symbol>, high: bool): seq<Symbol> {
    if Stuck(slave, h) then h else h + [Bit(LevelBit(high && !slave.pulls(h)))]
  }

  function ClockedAll(slave: Slave, h: seq<Symbol>, bits: seq<bit>): seq<Symbol>
    decreases bits
  {
    if bits == [] then h else ClockedAll(slave, Clocked(slave, h, bits[0] == 1), bits[1..])
  }

  /** The bit that is on the bus when the master releases SDA after history h. */
  function SlaveBit(slave: Slave, h: seq<Symbol>): bit {
    if slave.pulls(h) then 0 else 1
  }

  datatype Sending = Sending(symbols: seq<Symbol>, acked: bool)

  function SendingByte(slave: Slave, h: seq<Symbol>, b: byte): Sending {
    var sent := ClockedAll(slave, h, Bits8(b));
    Sending(Clocked(slave, sent, true), SlaveBit(slave, sent) == 0)
  }

  function SendingAll(slave: Slave, h: seq<Symbol>, data: seq<byte>): Sending
    decreases data
  {
    if data == [] then Sending(h, true)
    else
      var first := SendingByte(slave, h, data[0]);
      if !first.acked then first else SendingAll(slave, first.symbols, data[1..])
  }

  /** After n clock pulses with SDA released, and what was read in them. */
  function Released(slave: Slave, h: seq<Symbol>, n: nat): seq<Symbol> {
    if n == 0 then h else Clocked(slave, Released(slave, h, n - 1), true)
  }

  function Sampled(slave: Slave, h: seq<Symbol>, n: nat): (bits: seq<bit>)
    ensures |bits| == n
  {
    if n == 0 then [] else Sampled(slave, h, n - 1) + [SlaveBit(slave, Released(slave, h, n - 1))]
  }

  datatype Fetched = Fetched(symbols: seq<Symbol>, bytes: seq<byte>)

  function ReadingByte(slave: Slave, h: seq<Symbol>, ack: bool): Fetched {
    Fetched(Clocked(slave, Released(slave, h, 8), !ack), [Collected(Sampled(slave, h, 8))])
  }

  /** The first i of n bytes; the master acknowledges all but the last of the n. */
  function ReadingSome(slave: Slave, h: seq<Symbol>, i: nat, n: nat): (r: Fetched)
    ensures |r.bytes| == i
  {
    if i == 0 then Fetched(h, [])
    else
      var before := ReadingSome(slave, h, i - 1, n);
      var last := ReadingByte(slave, before.symbols, i != n);
      Fetched(last.symbols, before.bytes + last.bytes)
  }

  /** A START within a transaction. */
  function Restarted(slave: Slave, h: seq<Symbol>): seq<Symbol> {
    if Stuck(slave, h) then h else h + [if slave.pulls(h) then Bit(0) else Start]
  }

  /** The attempt at a STOP: SDA rises while SCL is high, unless the slave holds one of them. */
  function Ended(slave: Slave, h: seq<Symbol>): seq<Symbol> {
    if Stuck(slave, h) then h else Stopped(slave, h)
  }

  datatype Status = Ok | Nack | HwError

  datatype Transaction = Transaction(status: Status, symbols: seq<Symbol>, bytes: seq<byte>)

  /** The transactions behind the attempt at a START. */
  function WriteFrom(slave: Slave, h: seq<Symbol>, addr: byte, data: seq<byte>): Transaction {
    var w := SendingAll(slave, h, [addr << 1] + data);
    Transaction(if w.acked then Ok else Nack, Ended(slave, w.symbols), [])
  }

  function ReadFrom(slave: Slave, h: seq<Symbol>, addr: byte, n: nat): Transaction {
    var a := SendingByte(slave, Restarted(slave, h), (addr << 1) | 1);
    if !a.acked then Transaction(Nack, Ended(slave, a.symbols), [])
    else
      var r := ReadingSome(slave, a.symbols, n, n);
      Transaction(Ok, Ended(slave, r.symbols), r.bytes)
  }

  function WriteReadFrom(slave: Slave, h: seq<Symbol>, addr: byte, data: seq<byte>, n: nat): Transaction {
    var w := SendingAll(slave, h, [addr << 1] + data);
    if !w.acked then Transaction(Nack, Ended(slave, w.symbols), [])
    else ReadFrom(slave, w.symbols, addr, n)
  }

  // ---- What it looks like with a slave that follows the rules ----

  function Cells(bits: seq<bit>): (cells: seq<Symbol>)
    ensures |cells| == |bits|
  {
    seq(|bits|, i requires 0 <= i < |bits| => Bit(bits[i]))
  }

  function SendByte(slave: Slave, h: seq<Symbol>, b: byte): Sending {
    var sent := h + Cells(Bits8(b));
    Sending(sent + [Bit(SlaveBit(slave, sent))], SlaveBit(slave, sent) == 0)
  }

  /** Bytes are sent until one is not acknowledged. */
  function SendAll(slave: Slave, h: seq<Symbol>, data: seq<byte>): Sending
    decreases data
  {
    if data == [] then Sending(h, true)
    else
      var first := SendByte(slave, h, data[0]);
      if !first.acked then first else SendAll(slave, first.symbols, data[1..])
  }

  /** The next n bits a slave sends. */
  function Offered(slave: Slave, h: seq<Symbol>, n: nat): (bits: seq<bit>)
    ensures |bits| == n
  {
    if n == 0 then []
    else
      var before := Offered(slave, h, n - 1);
      before + [SlaveBit(slave, h + Cells(before))]
  }

  function ReadByte(slave: Slave, h: seq<Symbol>, ack: bool): Fetched {
    var bits := Offered(slave, h, 8);
    Fetched(h + Cells(bits) + [Bit(if ack then 0 else 1)], [Collected(bits)])
  }

  /** The first i of n bytes; the master acknowledges all but the last of the n. */
  function ReadSome(slave: Slave, h: seq<Symbol>, i: nat, n: nat): (r: Fetched)
    ensures |r.bytes| == i
  {
    if i == 0 then Fetched(h, [])
    else
      var before := ReadSome(slave, h, i - 1, n);
      var last := ReadByte(slave, before.symbols, i != n);
      Fetched(last.symbols, before.bytes + last.bytes)
  }

  /** A STOP condition needs SDA to rise, which a slave that pulls it prevents. */
  function Stopped(slave: Slave, h: seq<Symbol>): seq<Symbol> {
    if slave.pulls(h) then h else h + [Stop]
  }

  function WriteTransaction(slave: Slave, h: seq<Symbol>, addr: byte, data: seq<byte>): Transaction {
    var w := SendAll(slave, h + [Start], [addr << 1] + data);
    Transaction(if w.acked then Ok else Nack, Stopped(slave, w.symbols), [])
  }

  function ReadPart(slave: Slave, h: seq<Symbol>, addr: byte, n: nat): Transaction {
    var a := SendByte(slave, h + [Start], (addr << 1) | 1);
    if !a.acked then Transaction(Nack, Stopped(slave, a.symbols), [])
    else
      var r := ReadSome(slave, a.symbols, n, n);
      Transaction(Ok, Stopped(slave, r.symbols), r.bytes)
  }

  function WriteReadTransaction(slave: Slave, h: seq<Symbol>, addr: byte, data: seq<byte>, n: nat): Transaction {
    var w := SendAll(slave, h + [Start], [addr << 1] + data);
    if !w.acked then Transaction(Nack, Stopped(slave, w.symbols), [])
    else ReadPart(slave, w.symbols, addr, n)
  }

  // ---- Turns within a transaction ----

  /** The master is about to send a byte: an address or data. */
  predicate MasterByte(t: Turn) {
    t == Address(0) || t == Writing(0)
  }

  lemma {:induction false} TurnInByte(h: seq<Symbol>, bits: seq<bit>)
    requires MasterByte(TurnAfter(h)) && |bits| <= 8
    ensures var t := TurnAfter(h + Cells(bits));
            if TurnAfter(h).Writing? then t == Writing(|bits|)
            else if |bits| < 8 then t == Address(|bits|) else t == AddressAck(bits[7] == 1)
    decreases bits
  {
    var n := |bits|;
    if n == 0 {
      assert h + Cells(bits) == h;
    } else {
      TurnInByte(h, bits[..n - 1]);
      assert h + Cells(bits) == (h + Cells(bits[..n - 1])) + [Bit(bits[n - 1])];
      TurnNext(h + Cells(bits[..n - 1]), Bit(bits[n - 1]));
    }
  }

  lemma {:induction false} TurnInRead(h: seq<Symbol>, bits: seq<bit>)
    requires TurnAfter(h) == Reading(0) && |bits| <= 8
    ensures TurnAfter(h + Cells(bits)) == Reading(|bits|)
    decreases bits
  {
    var n := |bits|;
    if n == 0 {
      assert h + Cells(bits) == h;
    } else {
      TurnInRead(h, bits[..n - 1]);
      assert h + Cells(bits) == (h + Cells(bits[..n - 1])) + [Bit(bits[n - 1])];
      TurnNext(h + Cells(bits[..n - 1]), Bit(bits[n - 1]));
    }
  }

  /** Behind an acknowledged byte the master writes on, unless the byte was an address with the read bit;
      behind any other byte nobody drives. */
  lemma TurnAfterByte(slave: Slave, h: seq<Symbol>, b: byte)
    requires MasterByte(TurnAfter(h))
    ensures var r := SendByte(slave, h, b);
            TurnAfter(r.symbols) ==
              if !r.acked then Off
              else if TurnAfter(h) == Address(0) && Bits8(b)[7] == 1 then Reading(0) else Writing(0)
  {
    var sent := h + Cells(Bits8(b));
    TurnInByte(h, Bits8(b));
    TurnNext(sent, Bit(SlaveBit(slave, sent)));
  }

  lemma TurnAfterRead(slave: Slave, h: seq<Symbol>, ack: bool)
    requires TurnAfter(h) == Reading(0)
    ensures TurnAfter(ReadByte(slave, h, ack).symbols) == if ack then Reading(0) else Off
  {
    var bits := Offered(slave, h, 8);
    TurnInRead(h, bits);
    TurnNext(h + Cells(bits), Bit(if ack then 0 else 1));
  }

  lemma {:induction false} TurnInReadAll(slave: Slave, h: seq<Symbol>, i: nat, n: nat)
    requires TurnAfter(h) == Reading(0) && i <= n
    ensures TurnAfter(ReadSome(slave, h, i, n).symbols) == if i == n && n > 0 then Off else Reading(0)
  {
    if i > 0 {
      TurnInReadAll(slave, h, i - 1, n);
      TurnAfterRead(slave, ReadSome(slave, h, i - 1, n).symbols, i != n);
    }
  }
}
