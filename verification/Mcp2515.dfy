/** The MCP2515 driver of src/drivers/mcp2515.cpp. */
module Mcp2515 {
  import opened Arithmetic
  import opened Bytes
  import opened Mcp2515Chip

  const POLLS: nat := 1000

  const REG_CANSTAT: byte := 0x0E
  const REG_CANCTRL: byte := 0x0F
  const REG_CNF3: byte := 0x28
  const REG_CANINTF: byte := 0x2C

  // ---- The SPI bus ----

  /** What happens to a transaction: all is well, the select fails, or the transfer fails and leaves the chip
      in any state. */
  datatype Course = Fine | NoSelect | NoTransfer(chip: Chip)

  ghost predicate AllFine(plan: nat -> Course, from: nat, upTo: nat) {
    forall k: nat {:trigger plan(k)} | from <= k < upTo :: plan(k).Fine?
  }

  /** What the driver asks of the bus and of the caller's delay function, in order; the bytes are those it sends. */
  datatype SpiEvent = Selected(ok: bool) | Transferred(tx: seq<byte>) | Deselected | Waited(micros: nat)

  /** Whether the chip is selected after these events, or None if one of them was out of place. */
  datatype Cs = High | Low | Misused

  function CsAfter(log: seq<SpiEvent>): Cs {
    if log == [] then High
    else
      match (CsAfter(log[..|log| - 1]), log[|log| - 1])
      case (High, Selected(ok)) => if ok then Low else High
      case (Low, Transferred(_)) => Low
      case (Low, Deselected) => High
      case (cs, Waited(_)) => cs
      case (_, _) => Misused
  }

  lemma CsNext(log: seq<SpiEvent>, e: SpiEvent)
    ensures CsAfter(log + [e]) ==
      match (CsAfter(log), e)
      case (High, Selected(ok)) => if ok then Low else High
      case (Low, Transferred(_)) => Low
      case (Low, Deselected) => High
      case (cs, Waited(_)) => cs
      case (_, _) => Misused
  {
    assert (log + [e])[..|log|] == log;
  }

  /** How often the chip was selected and deselected. */
  function Selects(log: seq<SpiEvent>): nat {
    if log == [] then 0
    else Selects(log[..|log| - 1]) + if log[|log| - 1] == Selected(true) then 1 else 0
  }

  function Deselects(log: seq<SpiEvent>): nat {
    if log == [] then 0 else Deselects(log[..|log| - 1]) + if log[|log| - 1] == Deselected then 1 else 0
  }

  /** Every successful select is matched by one deselect. */
  lemma {:induction false} SelectsMatched(log: seq<SpiEvent>)
    ensures CsAfter(log) == High ==> Selects(log) == Deselects(log)
    ensures CsAfter(log) == Low ==> Selects(log) == Deselects(log) + 1
  {
    if log != [] {
      SelectsMatched(log[..|log| - 1]);
    }
  }

  // ---- Scripts ----

  /** One transaction, or a delay. */
  datatype Action = Transact(tx: seq<byte>) | Wait(micros: nat)

  function Transactions(script: seq<Action>): nat {
    if script == [] then 0 else (if script[0].Transact? then 1 else 0) + Transactions(script[1..])
  }

  function Transacted(tx: seq<byte>): seq<SpiEvent> {
    [Selected(true), Transferred(tx), Deselected]
  }

  /** What a driver does that carries out a script and stops at the first failure. */
  function Ran(script: seq<Action>, plan: nat -> Course, n: nat): seq<SpiEvent>
    decreases script
  {
    if script == [] then []
    else match script[0]
      case Wait(us) => [Waited(us)] + Ran(script[1..], plan, n)
      case Transact(tx) =>
        match plan(n)
        case Fine => Transacted(tx) + Ran(script[1..], plan, n + 1)
        case NoSelect => [Selected(false)]
        case NoTransfer(_) => Transacted(tx)
  }

  lemma RanOne(tx: seq<byte>, plan: nat -> Course, n: nat)
    ensures Ran([Transact(tx)], plan, n) == if plan(n).NoSelect? then [Selected(false)] else Transacted(tx)
    ensures Transactions([Transact(tx)]) == 1
  {
    assert Transacted(tx) + [] == Transacted(tx);
  }

  lemma RanWait(us: nat, plan: nat -> Course, n: nat)
    ensures Ran([Wait(us)], plan, n) == [Waited(us)] && Transactions([Wait(us)]) == 0
  {
  }

  lemma {:induction false} TransactionsConcat(a: seq<Action>, b: seq<Action>)
    ensures Transactions(a + b) == Transactions(a) + Transactions(b)
    decreases a
  {
    if a == [] {
      assert a + b == b;
    } else {
      assert (a + b)[1..] == a[1..] + b;
      TransactionsConcat(a[1..], b);
    }
  }

  lemma {:induction false} RanConcat(a: seq<Action>, b: seq<Action>, plan: nat -> Course, n: nat)
    ensures Ran(a + b, plan, n)
         == if AllFine(plan, n, n + Transactions(a)) then Ran(a, plan, n) + Ran(b, plan, n + Transactions(a))
            else Ran(a, plan, n)
    decreases a
  {
    if a == [] {
      assert a + b == b && [] + Ran(b, plan, n) == Ran(b, plan, n);
    } else {
      assert (a + b)[1..] == a[1..] + b;
      match a[0] {
        case Wait(us) =>
          RanConcat(a[1..], b, plan, n);
        case Transact(tx) =>
          RanConcat(a[1..], b, plan, n + 1);
          FineFirst(plan, n, n + Transactions(a));
      }
    }
  }

  lemma FineFirst(plan: nat -> Course, n: nat, m: nat)
    requires n < m
    ensures AllFine(plan, n, m) <==> plan(n).Fine? && AllFine(plan, n + 1, m)
  {
  }

  /** A script that went well goes on with the next part. */
  lemma GoesOn(log: seq<SpiEvent>, a: seq<Action>, b: seq<Action>, plan: nat -> Course, n: nat)
    requires AllFine(plan, n, n + Transactions(a))
    ensures log + Ran(a, plan, n) + Ran(b, plan, n + Transactions(a)) == log + Ran(a + b, plan, n)
    ensures Transactions(a + b) == Transactions(a) + Transactions(b)
  {
    hide Ran, Transactions, AllFine;
    RanConcat(a, b, plan, n);
    TransactionsConcat(a, b);
    var x, y := Ran(a, plan, n), Ran(b, plan, n + Transactions(a));
    assert log + x + y == log + (x + y);
  }

  /** The others stop. */
  lemma Stops(a: seq<Action>, b: seq<Action>, plan: nat -> Course, n: nat)
    requires !AllFine(plan, n, n + Transactions(a))
    ensures Ran(a + b, plan, n) == Ran(a, plan, n)
  {
    hide Ran, Transactions, AllFine;
    RanConcat(a, b, plan, n);
  }

  // ---- The bus ----

  class Spi {
    const plan: nat -> Course
    var n: nat
    var chip: Chip
    var log: seq<SpiEvent>

    constructor (plan: nat -> Course, chip: Chip)
      ensures this.plan == plan && this.chip == chip && n == 0 && log == []
    {
      this.plan, this.chip, n, log := plan, chip, 0, [];
    }

    method SelectSlave() returns (ok: bool)
      modifies this`log, this`n
      ensures ok == !plan(old(n)).NoSelect? && n == (if ok then old(n) else old(n) + 1)
      ensures log == old(log) + [Selected(ok)]
    {
      ok := !plan(n).NoSelect?;
      log := log + [Selected(ok)];
      if !ok {
        n := n + 1;
      }
    }

    method Transfer(tx: array<byte>, rx: array<byte>, len: nat) returns (ok: bool)
      requires len <= tx.Length && len <= rx.Length && tx != rx
      modifies this`log, this`chip, rx
      ensures log == old(log) + [Transferred(tx[..len])] && ok == plan(n).Fine?
      ensures ok ==> chip == Process(old(chip), tx[..len]).chip && rx[..len] == Process(old(chip), tx[..len]).rx
    {
      hide Process;
      log := log + [Transferred(tx[..len])];
      match plan(n) {
        case Fine =>
          ghost var sent := tx[..len];
          var r := Process(chip, tx[..len]);
          forall i | 0 <= i < len {
            rx[i] := r.rx[i];
          }
          assert tx[..len] == sent;
          chip, ok := r.chip, true;
        case NoSelect => ok := false;
        case NoTransfer(c) => chip, ok := c, false;
      }
    }

    method DeselectSlave()
      modifies this`log, this`chip, this`n
      ensures log == old(log) + [Deselected] && chip == Tick(old(chip)) && n == old(n) + 1
    {
      log := log + [Deselected];
      chip, n := Tick(chip), n + 1;
    }

    /** The delay function that the caller passes; to the chip it is as if nothing happened. */
    method DelayUs(micros: nat)
      modifies this`log
      ensures log == old(log) + [Waited(micros)]
    {
      log := log + [Waited(micros)];
    }
  }

  // ---- The driver ----

  class Driver {
    const spi: Spi

    constructor (spi: Spi)
      ensures this.spi == spi
    {
      this.spi := spi;
    }

    /** One transaction: select, transfer if that went well, and deselect whether or not the transfer did. */
    method Exchange(tx: array<byte>, rx: array<byte>, len: nat) returns (ok: bool)
      requires len <= tx.Length && len <= rx.Length && tx != rx && CsAfter(spi.log) == High
      modifies spi, rx
      ensures CsAfter(spi.log) == High && spi.n == old(spi.n) + 1 && ok == spi.plan(old(spi.n)).Fine?
      ensures ok ==> spi.chip == ChipAfter(old(spi.chip), tx[..len])
                     && rx[..len] == Process(old(spi.chip), tx[..len]).rx
      ensures spi.log == old(spi.log) + Ran([Transact(tx[..len])], spi.plan, old(spi.n))
    {
      hide Process, CsAfter, Tick, Ran;
      RanOne(tx[..len], spi.plan, spi.n);
      CsNext(spi.log, Selected(true));
      CsNext(spi.log, Selected(false));
      ok := spi.SelectSlave();
      if !ok {
        return;
      }
      CsNext(spi.log, Transferred(tx[..len]));
      ok := spi.Transfer(tx, rx, len);
      CsNext(spi.log, Deselected);
      spi.DeselectSlave();
    }

    method Reset() returns (ok: bool)
      requires CsAfter(spi.log) == High
      modifies spi
      ensures CsAfter(spi.log) == High && spi.n == old(spi.n) + 1 && ok == spi.plan(old(spi.n)).Fine?
      ensures ok ==> spi.chip == Tick(Restarted(old(spi.chip)))
      ensures spi.log == old(spi.log) + Ran([Transact([0xC0])], spi.plan, old(spi.n))
    {
      hide Ran;
      var tx, rx := new byte[1][INSTR_RESET], new byte[1][0];
      assert tx[..1] == [INSTR_RESET];
      ok := Exchange(tx, rx, 1);
    }

    method WriteReg(reg: byte, value: byte) returns (ok: bool)
      requires Value(reg) < SIZE && CsAfter(spi.log) == High
      modifies spi
      ensures CsAfter(spi.log) == High && spi.n == old(spi.n) + 1 && ok == spi.plan(old(spi.n)).Fine?
      ensures ok ==> spi.chip == Tick(Written(old(spi.chip), Value(reg), value))
      ensures spi.log == old(spi.log) + Ran([Transact([0x02, reg, value])], spi.plan, old(spi.n))
    {
      hide Written, Tick, CsAfter, Ran, Value;
      var tx, rx := new byte[3][INSTR_WRITE, reg, value], new byte[3][0, 0, 0];
      assert tx[..3] == [INSTR_WRITE, reg, value];
      WriteProcessed(spi.chip, reg, value);
      ok := Exchange(tx, rx, 3);
    }

    method ReadReg(reg: byte) returns (ok: bool, value: byte)
      requires Value(reg) < SIZE && CsAfter(spi.log) == High
      modifies spi
      ensures CsAfter(spi.log) == High && spi.n == old(spi.n) + 1 && ok == spi.plan(old(spi.n)).Fine?
      ensures ok ==> spi.chip == Tick(old(spi.chip)) && value == old(spi.chip).regs[Value(reg)]
      ensures spi.log == old(spi.log) + Ran([Transact([0x03, reg, 0x00])], spi.plan, old(spi.n))
    {
      hide Tick, CsAfter, Ran, Value;
      value := 0;
      var tx, rx := new byte[3][INSTR_READ, reg, 0], new byte[3][0, 0, 0];
      assert tx[..3] == [INSTR_READ, reg, 0];
      ReadProcessed(spi.chip, reg);
      ok := Exchange(tx, rx, 3);
      if ok {
        assert rx[..3][2] == rx[2];
        value := rx[2];
      }
    }

    /** Succeeds exactly when every transaction does and the chip changes mode within the poll budget. */
    method SetMode(mode: byte) returns (ok: bool)
      requires mode <= 4 && CsAfter(spi.log) == High && Settled(spi.chip)
      modifies spi
      ensures CsAfter(spi.log) == High && spi.n > old(spi.n)
      ensures ok ==> Turned(old(spi.chip), spi.chip, mode) && spi.chip.regs[0x0E] >> 5 == mode
      ensures AllFine(spi.plan, old(spi.n), spi.n) ==>
                (ok <==> Mode(old(spi.chip).regs) == mode || old(spi.chip).modeLag < 1000)
      ensures spi.log == old(spi.log) + Ran(ModeScript(old(spi.chip), mode), spi.plan, old(spi.n))
    {
      hide CsAfter, Written, Tick, Mode, WithMode, Turning, Turned, Ran, Value, Transactions, AllFine, PollsFor;
      Addresses();
      ghost var c, log, plan, n := spi.chip, spi.log, spi.plan, spi.n;
      ghost var canctrl' := WithMode(c.regs[CANCTRL], mode);
      ghost var read, write := [Transact([0x03, 0x0F, 0x00])], [Transact([0x02, 0x0F, canctrl'])];
      ghost var polls := Polls(PollsFor(c, mode));
      ScriptIs(c, mode);
      FineOne(plan, n, [0x03, 0x0F, 0x00]);
      var canctrl;
      TickSettled(c);
      ok, canctrl := ReadReg(REG_CANCTRL);
      if !ok {
        Stops(read, write + polls, plan, n);
        return;
      }
      WithModeIs(canctrl, mode);
      canctrl := (canctrl & 0x1F) | (mode << 5);
      TurningStarts(c, canctrl);
      ok := WriteReg(REG_CANCTRL, canctrl);
      GoesOn(log, read, write, plan, n);
      FineOne(plan, n + 1, [0x02, 0x0F, canctrl]);
      FineBoth(plan, n, n + 1, n + 2);
      if !ok {
        Stops(read + write, polls, plan, n);
        return;
      }
      ok := PollMode(mode, c);
      GoesOn(log, read + write, polls, plan, n);
      FineBoth(plan, n, n + 2, spi.n);
    }

    /** The loop that waits until the mode shows. */
    method PollMode(mode: byte, ghost c: Chip) returns (ok: bool)
      requires mode <= 4 && CsAfter(spi.log) == High && Settled(c)
      requires spi.chip == Turning(c, WithMode(c.regs[CANCTRL], mode), 0)
      modifies spi
      ensures CsAfter(spi.log) == High && spi.n >= old(spi.n)
      ensures ok ==> Turned(c, spi.chip, mode) && spi.chip.regs[0x0E] >> 5 == mode
      ensures AllFine(spi.plan, old(spi.n), spi.n) ==> (ok <==> Mode(c.regs) == mode || c.modeLag < 1000)
      ensures spi.log == old(spi.log) + Ran(Polls(PollsFor(c, mode)), spi.plan, old(spi.n))
    {
      hide CsAfter, Tick, Mode, WithMode, Turning, Turned, Ran, Value, Transactions, AllFine;
      Addresses();
      ghost var log, plan, n, canctrl := spi.log, spi.plan, spi.n, WithMode(c.regs[CANCTRL], mode);
      NothingRan(plan, n);
      assert log + [] == log;
      for attempt := 0 to POLLS
        invariant CsAfter(spi.log) == High && spi.n == n + attempt
        invariant spi.chip == Turning(c, canctrl, attempt)
        invariant attempt > 0 ==> attempt <= c.modeLag && Mode(c.regs) != mode
        invariant Transactions(Polls(attempt)) == attempt && AllFine(plan, n, n + attempt)
        invariant spi.log == log + Ran(Polls(attempt), plan, n)
      {
        var canstat;
        TurningOn(c, canctrl, attempt);
        ModeWhileTurning(c, mode, attempt);
        ok, canstat := ReadReg(REG_CANSTAT);
        PollAgain(log, plan, n, attempt);
        if !ok {
          PollsStop(plan, n, attempt + 1, PollsFor(c, mode));
          return;
        }
        TopThreeBits(canstat);
        ShownMode(Turning(c, canctrl, attempt).regs);
        if (canstat >> 5) & 0x07 == mode {
          IsTurned(c, mode, attempt);
          ModeShows(c, spi.chip, mode);
          return true;
        }
      }
      ok := false;
    }

    /** Resets the chip, waits out its oscillator start-up, writes the bit timing and sets the mode. */
    method Init(cnf1: byte, cnf2: byte, cnf3: byte, mode: byte, oscFreqHz: nat) returns (ok: bool)
      requires mode <= 4 && oscFreqHz < 0x1_0000_0000 && CsAfter(spi.log) == High
      modifies spi
      ensures CsAfter(spi.log) == High && spi.n > old(spi.n)
      ensures ok ==> Initialised(spi.chip, cnf1, cnf2, cnf3, mode) && spi.chip.txLag == old(spi.chip).txLag
      ensures AllFine(spi.plan, old(spi.n), spi.n) ==>
                (ok <==> oscFreqHz > 0 && (mode == 4 || old(spi.chip).modeLag < 1000))
      ensures spi.log == old(spi.log)
                         + Ran(InitScript(cnf1, cnf2, cnf3, mode, oscFreqHz, old(spi.chip).modeLag),
                               spi.plan, old(spi.n))
    {
      hide CsAfter, Tick, Restarted, Ran, Transactions, AllFine, AfterReset, JustReset, Settled, Initialised, Mode;
      ghost var log, plan, n, lag := spi.log, spi.plan, spi.n, spi.chip.modeLag;
      ghost var after := AfterReset(cnf1, cnf2, cnf3, mode, oscFreqHz, lag);
      ok := Reset();
      FineOne(plan, n, [0xC0]);
      if !ok {
        Stops(RESETTING, after, plan, n);
        return;
      }
      ResetSettled(spi.chip, old(spi.chip));
      GoesOn(log, RESETTING, after, plan, n);
      if oscFreqHz == 0 {
        NothingAfter(cnf1, cnf2, cnf3, mode, lag, plan, n + 1);
        return false;
      }
      ok := Configure(cnf1, cnf2, cnf3, mode, oscFreqHz);
      FineBoth(plan, n, n + 1, spi.n);
    }

    /** What follows a reset: the start-up wait, the bit timing and the mode. */
    method Configure(cnf1: byte, cnf2: byte, cnf3: byte, mode: byte, oscFreqHz: nat) returns (ok: bool)
      requires mode <= 4 && 0 < oscFreqHz < 0x1_0000_0000 && CsAfter(spi.log) == High && JustReset(spi.chip)
      modifies spi
      ensures CsAfter(spi.log) == High && spi.n > old(spi.n)
      ensures ok ==> Initialised(spi.chip, cnf1, cnf2, cnf3, mode) && spi.chip.txLag == old(spi.chip).txLag
      ensures AllFine(spi.plan, old(spi.n), spi.n) ==> (ok <==> mode == 4 || old(spi.chip).modeLag < 1000)
      ensures spi.log == old(spi.log)
                         + Ran(AfterReset(cnf1, cnf2, cnf3, mode, oscFreqHz, old(spi.chip).modeLag),
                               spi.plan, old(spi.n))
    {
      hide CsAfter, Tick, Written, Turned, Ran, Transactions, AllFine, OstMicros, TimingScript, InitModes, ModeScript,
        AfterReset, JustReset, Settled, Initialised, Timed, Mode, Waiting;
      ghost var log, plan, n, lag := spi.log, spi.plan, spi.n, spi.chip.modeLag;
      var us := StartupMicros(oscFreqHz);
      ghost var wait, timing, modes := [Wait(us)], TimingScript(cnf1, cnf2, cnf3), InitModes(mode, lag);
      AfterResetIs(cnf1, cnf2, cnf3, mode, oscFreqHz, lag);
      CsNext(spi.log, Waited(us));
      spi.DelayUs(us);
      RanWait(us, plan, n);
      NoneYet(plan, n);
      ok := WriteTiming(cnf1, cnf2, cnf3);
      GoesOn(log, wait, timing, plan, n);
      if !ok {
        Stops(wait + timing, modes, plan, n);
        return;
      }
      ghost var c := spi.chip;
      ModesAre(c, mode);
      JustResetIs(c);
      ok := SetMode(mode);
      GoesOn(log, wait + timing, modes, plan, n);
      FineBoth(plan, n, n + 3, spi.n);
      if ok {
        TimingKept(c, spi.chip, cnf1, cnf2, cnf3, mode);
      }
    }

    /** The length of that wait, computed in 64 bits and passed in 32. */
    static method StartupMicros(oscFreqHz: nat) returns (us: nat)
      requires oscFreqHz > 0
      ensures us == OstMicros(oscFreqHz)
    {
      DelayFits(oscFreqHz);
      us := (128 * 1000000 + oscFreqHz - 1) / oscFreqHz % 0x1_0000_0000;
    }

    /** The three configuration registers, highest first. */
    method WriteTiming(cnf1: byte, cnf2: byte, cnf3: byte) returns (ok: bool)
      requires CsAfter(spi.log) == High && JustReset(spi.chip)
      modifies spi
      ensures CsAfter(spi.log) == High && spi.n > old(spi.n)
      ensures ok ==> JustReset(spi.chip) && Timed(spi.chip, cnf1, cnf2, cnf3) && SameLags(old(spi.chip), spi.chip)
      ensures ok <==> AllFine(spi.plan, old(spi.n), old(spi.n) + 3)
      ensures if ok then spi.n == old(spi.n) + 3 else !AllFine(spi.plan, old(spi.n), spi.n)
      ensures spi.log == old(spi.log) + Ran(TimingScript(cnf1, cnf2, cnf3), spi.plan, old(spi.n))
      ensures Transactions(TimingScript(cnf1, cnf2, cnf3)) == 3
    {
      hide CsAfter, Tick, Written, Ran, Value, Transactions, AllFine;
      Addresses();
      TimingSize(cnf1, cnf2, cnf3);
      ghost var log, plan, n := spi.log, spi.plan, spi.n;
      ghost var a, b := [Transact([0x02, 0x28, cnf3])], [Transact([0x02, 0x29, cnf2])];
      ghost var c := [Transact([0x02, 0x2A, cnf1])];
      assert a + (b + c) == TimingScript(cnf1, cnf2, cnf3) == a + b + c;
      WrittenFresh(spi.chip, CNF3, cnf3);
      ok := WriteReg(REG_CNF3, cnf3);
      FineOne(plan, n, [0x02, 0x28, cnf3]);
      FineBoth(plan, n, n + 1, n + 3);
      if !ok {
        Stops(a, b + c, plan, n);
        return;
      }
      WrittenFresh(spi.chip, CNF2, cnf2);
      ok := WriteReg(REG_CNF3 + 1, cnf2);
      GoesOn(log, a, b, plan, n);
      FineOne(plan, n + 1, [0x02, 0x29, cnf2]);
      FineBoth(plan, n, n + 1, n + 2);
      FineBoth(plan, n, n + 2, n + 3);
      if !ok {
        Stops(a + b, c, plan, n);
        return;
      }
      WrittenFresh(spi.chip, CNF1, cnf1);
      ok := WriteReg(REG_CNF3 + 2, cnf1);
      GoesOn(log, a + b, c, plan, n);
      FineOne(plan, n + 2, [0x02, 0x2A, cnf1]);
    }

    /** Loads the frame and requests its transmission. */
    method Send(f: Frame) returns (ok: bool)
      requires Fits(f) && CsAfter(spi.log) == High
      modifies spi
      ensures CsAfter(spi.log) == High
      ensures !Standard(f) ==> !ok && spi.n == old(spi.n) && spi.log == old(spi.log) && spi.chip == old(spi.chip)
      ensures Standard(f) ==> spi.n > old(spi.n) && (ok <==> AllFine(spi.plan, old(spi.n), spi.n))
      ensures Standard(f) && ok ==> spi.chip == Request(ChipAfter(old(spi.chip), LoadBytes(f)))
      ensures Standard(f) ==>
                spi.log == old(spi.log) + Ran([Transact(LoadBytes(f)), Transact([0x81])], spi.plan, old(spi.n))
    {
      hide CsAfter, ChipAfter, IdHigh, IdLow, Ran, Transactions, AllFine;
      ghost var log, plan, n := spi.log, spi.plan, spi.n;
      if f.id > 0x7FF || f.dlc > 8 {
        return false;
      }
      var tx := Load(f);
      var rx := new byte[14](_ => 0);
      ok := Exchange(tx, rx, 6 + f.dlc);
      ghost var load, rts := [Transact(LoadBytes(f))], [Transact([0x81])];
      assert load + rts == [Transact(LoadBytes(f)), Transact([0x81])];
      FineOne(plan, n, LoadBytes(f));
      if !ok {
        Stops(load, rts, plan, n);
        return;
      }
      var rtsTx, rtsRx := new byte[1][INSTR_RTS_TXB0], new byte[1][0];
      assert rtsTx[..1] == [INSTR_RTS_TXB0];
      ok := Exchange(rtsTx, rtsRx, 1);
      GoesOn(log, load, rts, plan, n);
      FineOne(plan, n + 1, [0x81]);
      FineBoth(plan, n, n + 1, n + 2);
    }

    static method Load(f: Frame) returns (tx: array<byte>)
      requires Fits(f) && Standard(f)
      ensures fresh(tx) && tx.Length == 14 && tx[..6 + f.dlc] == LoadBytes(f)
    {
      hide IdHigh, IdLow, Nth, LoadBytes;
      LoadParts(f);
      tx := new byte[14](_ => 0);
      tx[0], tx[1], tx[2] := INSTR_LOAD_TXB0, IdHigh(f.id), IdLow(f.id);
      tx[3], tx[4], tx[5] := 0, 0, Nth(f.dlc);
      ghost var load := LoadBytes(f);
      for i := 0 to f.dlc
        invariant forall k | 0 <= k < 6 + i :: tx[k] == load[k]
      {
        assert load[6 + i] == load[6..][i];
        tx[6 + i] := f.data[i];
      }
    }

    method HasMessage() returns (has: bool)
      requires CsAfter(spi.log) == High
      modifies spi
      ensures CsAfter(spi.log) == High && spi.n == old(spi.n) + 1
      ensures has == (spi.plan(old(spi.n)).Fine? && old(spi.chip).regs[0x2C] & 0x01 == 1)
      ensures has == (spi.plan(old(spi.n)).Fine? && Waiting(old(spi.chip).regs))
      ensures spi.plan(old(spi.n)).Fine? ==> spi.chip == Tick(old(spi.chip))
      ensures spi.log == old(spi.log) + Ran([Transact([0x03, 0x2C, 0x00])], spi.plan, old(spi.n))
    {
      hide CsAfter, Tick, Ran, Value;
      Addresses();
      var ok, canintf := ReadReg(REG_CANINTF);
      if !ok {
        return false;
      }
      has := canintf & 0x01 != 0;
      FlagTest(canintf);
    }

    /** Reads the receive buffer, whether or not a frame waits there. */
    method Receive(frame: Frame) returns (ok: bool, f: Frame)
      requires Fits(frame) && CsAfter(spi.log) == High
      modifies spi
      ensures CsAfter(spi.log) == High && spi.n == old(spi.n) + 1 && ok == spi.plan(old(spi.n)).Fine?
      ensures f == if ok then Held(old(spi.chip).regs) else frame
      ensures ok ==> spi.chip == ChipAfter(old(spi.chip), [INSTR_READ_RXB0] + Zeros(13))
      ensures spi.log == old(spi.log) + Ran([Transact([0x90] + Zeros(13))], spi.plan, old(spi.n))
    {
      hide CsAfter, Tick, Ran;
      f := frame;
      var tx, rx := new byte[14](i => if i == 0 then INSTR_READ_RXB0 else 0), new byte[14](_ => 0);
      assert tx[..14] == [INSTR_READ_RXB0] + Zeros(13);
      ok := Exchange(tx, rx, 14);
      if !ok {
        return;
      }
      assert rx[..14] == rx[..];
      f := Parse(rx);
    }

    static method Parse(rx: array<byte>) returns (f: Frame)
      requires rx.Length == 14
      ensures f == FrameIn(rx[..])
    {
      hide IdOf;
      var dlc := Value(rx[5] & 0x0F);
      if dlc > 8 {
        dlc := 8;
      }
      var data := new byte[8];
      for i := 0 to dlc
        invariant data[..i] == rx[6..6 + i]
      {
        data[i] := rx[6 + i];
      }
      for i := dlc to 8
        invariant data[..i] == rx[6..6 + dlc] + Zeros(i - dlc)
      {
        data[i] := 0;
      }
      assert rx[..][6..6 + dlc] == rx[6..6 + dlc];
      assert data[..] == data[..8];
      f := Frame(IdOf(rx[1], rx[2]), dlc, data[..]);
    }
  }

  lemma FineOne(plan: nat -> Course, n: nat, tx: seq<byte>)
    ensures AllFine(plan, n, n + 1) <==> plan(n).Fine?
    ensures Transactions([Transact(tx)]) == 1
  {
  }

  lemma FineBoth(plan: nat -> Course, n: nat, m: nat, k: nat)
    requires n <= m <= k
    ensures AllFine(plan, n, k) <==> AllFine(plan, n, m) && AllFine(plan, m, k)
  {
  }

  lemma Addresses()
    ensures Value(REG_CANSTAT) == CANSTAT && Value(REG_CANCTRL) == CANCTRL && Value(REG_CANINTF) == CANINTF
    ensures Value(REG_CNF3) == CNF3 && Value(REG_CNF3 + 1) == CNF2 && Value(REG_CNF3 + 2) == CNF1
  {
    ValueIsInt(REG_CANSTAT);
    ValueIsInt(REG_CANCTRL);
    ValueIsInt(REG_CANINTF);
    ValueIsInt(REG_CNF3);
    ValueIsInt(REG_CNF3 + 1);
    ValueIsInt(REG_CNF3 + 2);
  }

  // ---- What the driver does on the bus ----

  function Polls(k: nat): (script: seq<Action>)
    ensures |script| == k
  {
    seq(k, _ => Transact([0x03, 0x0E, 0x00]))
  }

  /** CANSTAT is read until the mode shows, at most a thousand times. */
  function PollsFor(c: Chip, mode: byte): nat {
    if Mode(c.regs) == mode then 1 else if c.modeLag < 1000 then c.modeLag + 1 else 1000
  }

  /** CANCTRL is read, and written with the mode in its upper three bits. */
  function ModeScript(c: Chip, mode: byte): seq<Action> {
    [Transact([0x03, 0x0F, 0x00]), Transact([0x02, 0x0F, (c.regs[0x0F] & 0x1F) | (mode << 5)])]
    + Polls(PollsFor(c, mode))
  }

  lemma ScriptIs(c: Chip, mode: byte)
    ensures var read := [Transact([0x03, 0x0F, 0x00])];
            var write := [Transact([0x02, 0x0F, WithMode(c.regs[CANCTRL], mode)])];
            && ModeScript(c, mode) == read + (write + Polls(PollsFor(c, mode)))
            && ModeScript(c, mode) == read + write + Polls(PollsFor(c, mode))
  {
    hide Mode;
  }

  lemma WithModeIs(canctrl: byte, mode: byte)
    ensures (canctrl & 0x1F) | (mode << 5) == WithMode(canctrl, mode)
  {
  }

  lemma NothingRan(plan: nat -> Course, n: nat)
    ensures Polls(0) == [] && Ran([], plan, n) == [] && Transactions([]) == 0 && AllFine(plan, n, n)
  {
  }

  /** One more poll after k that went well. */
  lemma PollAgain(log: seq<SpiEvent>, plan: nat -> Course, n: nat, k: nat)
    requires Transactions(Polls(k)) == k && AllFine(plan, n, n + k)
    ensures log + Ran(Polls(k), plan, n) + Ran([Transact([0x03, 0x0E, 0x00])], plan, n + k)
         == log + Ran(Polls(k + 1), plan, n)
    ensures Transactions(Polls(k + 1)) == k + 1
    ensures AllFine(plan, n, n + k + 1) <==> plan(n + k).Fine?
  {
    hide Ran, Transactions, AllFine;
    var poll: Action := Transact([0x03, 0x0E, 0x00]);
    GoesOn(log, Polls(k), [poll], plan, n);
    FineOne(plan, n + k, [0x03, 0x0E, 0x00]);
    FineBoth(plan, n, n + k, n + k + 1);
    assert Polls(k) + [poll] == Polls(k + 1);
  }

  lemma PollsStop(plan: nat -> Course, n: nat, k: nat, m: nat)
    requires k <= m && Transactions(Polls(k)) == k && !AllFine(plan, n, n + k)
    ensures Ran(Polls(m), plan, n) == Ran(Polls(k), plan, n)
  {
    hide Ran, Transactions, AllFine;
    Stops(Polls(k), Polls(m - k), plan, n);
    assert Polls(k) + Polls(m - k) == Polls(m);
  }

  lemma ModeShows(c: Chip, d: Chip, mode: byte)
    requires Turned(c, d, mode)
    ensures d.regs[0x0E] >> 5 == mode
  {
  }

  const RESETTING: seq<Action> := [Transact([0xC0])]

  function TimingScript(cnf1: byte, cnf2: byte, cnf3: byte): seq<Action> {
    [Transact([0x02, 0x28, cnf3]), Transact([0x02, 0x29, cnf2]), Transact([0x02, 0x2A, cnf1])]
  }

  lemma TimingSize(cnf1: byte, cnf2: byte, cnf3: byte)
    ensures Transactions(TimingScript(cnf1, cnf2, cnf3)) == 3
  {
    TransactionsConcat([Transact([0x02, 0x28, cnf3])], [Transact([0x02, 0x29, cnf2]), Transact([0x02, 0x2A, cnf1])]);
    TransactionsConcat([Transact([0x02, 0x29, cnf2])], [Transact([0x02, 0x2A, cnf1])]);
  }

  /** After a reset CANCTRL holds 0x87, and the chip is in configuration mode, which is mode 4. */
  function InitModes(mode: byte, lag: nat): seq<Action> {
    [Transact([0x03, 0x0F, 0x00]), Transact([0x02, 0x0F, 0x07 | (mode << 5)])]
    + Polls(if mode == 4 then 1 else if lag < 1000 then lag + 1 else 1000)
  }

  function AfterReset(cnf1: byte, cnf2: byte, cnf3: byte, mode: byte, oscFreqHz: nat, lag: nat): seq<Action> {
    if oscFreqHz == 0 then []
    else [Wait((128000000 + oscFreqHz - 1) / oscFreqHz)] + TimingScript(cnf1, cnf2, cnf3) + InitModes(mode, lag)
  }

  /** Reset, start-up wait, bit timing, mode. */
  function InitScript(cnf1: byte, cnf2: byte, cnf3: byte, mode: byte, oscFreqHz: nat, lag: nat): seq<Action> {
    [Transact([0xC0])] + AfterReset(cnf1, cnf2, cnf3, mode, oscFreqHz, lag)
  }

  lemma InitParts(cnf1: byte, cnf2: byte, cnf3: byte, mode: byte, oscFreqHz: nat, lag: nat)
    ensures InitScript(cnf1, cnf2, cnf3, mode, oscFreqHz, lag)
         == if oscFreqHz == 0 then RESETTING
            else RESETTING + [Wait(OstMicros(oscFreqHz))] + TimingScript(cnf1, cnf2, cnf3) + InitModes(mode, lag)
  {
    hide TimingScript, InitModes;
  }

  lemma AfterResetIs(cnf1: byte, cnf2: byte, cnf3: byte, mode: byte, oscFreqHz: nat, lag: nat)
    requires oscFreqHz > 0
    ensures AfterReset(cnf1, cnf2, cnf3, mode, oscFreqHz, lag)
         == [Wait(OstMicros(oscFreqHz))] + TimingScript(cnf1, cnf2, cnf3) + InitModes(mode, lag)
  {
  }

  lemma NothingAfter(cnf1: byte, cnf2: byte, cnf3: byte, mode: byte, lag: nat, plan: nat -> Course, n: nat)
    ensures Ran(AfterReset(cnf1, cnf2, cnf3, mode, 0, lag), plan, n) == []
  {
  }

  lemma NoneYet(plan: nat -> Course, n: nat)
    ensures AllFine(plan, n, n)
  {
  }

  lemma JustResetIs(c: Chip)
    requires JustReset(c)
    ensures Settled(c) && Mode(c.regs) == 4
  {
  }

  lemma ModesAre(c: Chip, mode: byte)
    requires JustReset(c)
    ensures ModeScript(c, mode) == InitModes(mode, c.modeLag)
  {
    assert 0x87 as byte & 0x1F == 0x07;
  }

  /** Whatever fails, no transaction behind the reset comes before a wait of at least 128 oscillator periods. */
  lemma WaitsBeforeUse(cnf1: byte, cnf2: byte, cnf3: byte, mode: byte, oscFreqHz: nat, lag: nat, plan: nat -> Course,
                       n: nat)
    ensures var log := Ran(InitScript(cnf1, cnf2, cnf3, mode, oscFreqHz, lag), plan, n);
            |log| > 3 ==> log[..3] == Transacted([0xC0]) && log[3].Waited? && log[3].micros * oscFreqHz >= 128000000
  {
    hide TimingScript, InitModes, OstMicros;
    InitParts(cnf1, cnf2, cnf3, mode, oscFreqHz, lag);
    RanOne([0xC0], plan, n);
    if oscFreqHz > 0 {
      OstIsCeiling(oscFreqHz);
      WaitIsThird(OstMicros(oscFreqHz), TimingScript(cnf1, cnf2, cnf3) + InitModes(mode, lag), plan, n);
      Regroup(RESETTING, [Wait(OstMicros(oscFreqHz))], TimingScript(cnf1, cnf2, cnf3), InitModes(mode, lag));
    }
  }

  lemma Regroup<T>(a: seq<T>, b: seq<T>, c: seq<T>, d: seq<T>)
    ensures a + b + c + d == a + (b + (c + d))
  {
  }

  lemma WaitIsThird(us: nat, others: seq<Action>, plan: nat -> Course, n: nat)
    ensures var log := Ran(RESETTING + ([Wait(us)] + others), plan, n);
            |log| > 3 ==> log[..3] == Transacted([0xC0]) && log[3] == Waited(us)
  {
    hide Ran, Transactions;
    RanConcat(RESETTING, [Wait(us)] + others, plan, n);
    RanOne([0xC0], plan, n);
    RanConcat([Wait(us)], others, plan, n + 1);
    RanWait(us, plan, n + 1);
  }

  /** The mode is set, its other control bits and all other registers are as before. */
  predicate Turned(c: Chip, d: Chip, mode: byte) {
    && Mode(d.regs) == mode && d.txWait == 0 && (Mode(c.regs) != mode ==> d.modeWait == 0)
    && SameLags(c, d)
    && d.regs[CANCTRL] == WithMode(c.regs[CANCTRL], mode)
    && forall a | 0 <= a < SIZE && a != CANCTRL && a != CANSTAT :: d.regs[a] == c.regs[a]
  }

  lemma IsTurned(c: Chip, mode: byte, i: nat)
    requires mode <= 4 && Settled(c) && (i >= c.modeLag || Mode(c.regs) == mode)
    ensures Turned(c, Turning(c, WithMode(c.regs[CANCTRL], mode), i + 1), mode)
  {
    ModeWhileTurning(c, mode, i + 1);
    hide WithMode, Mode;
  }

  lemma TopThreeBits(b: byte)
    ensures (b >> 5) & 0x07 == b >> 5
  {
  }

  lemma ShownMode(r: Registers)
    ensures Mode(r) == r[CANSTAT] >> 5
  {
  }

  lemma FlagTest(b: byte)
    ensures b & 1 != 0 <==> b & 1 == 1
  {
  }

  /** 128 oscillator periods in microseconds, rounded up. */
  function OstMicros(hz: nat): nat
    requires hz > 0
  {
    (128000000 + hz - 1) / hz
  }

  /** The wait covers 128 oscillator periods, and a microsecond less would not. */
  lemma OstIsCeiling(hz: nat)
    requires hz > 0
    ensures OstMicros(hz) * hz >= 128000000 > (OstMicros(hz) - 1) * hz
  {
    var q := OstMicros(hz);
    assert q * hz + (128000000 + hz - 1) % hz == 128000000 + hz - 1;
  }

  lemma SmallRemainder(q: nat)
    requires q <= 128000000
    ensures q % 0x1_0000_0000 == q
  {
  }

  /** The delay never overflows the 32 bits it is passed in. */
  lemma DelayFits(hz: nat)
    requires hz > 0
    ensures OstMicros(hz) % 0x1_0000_0000 == OstMicros(hz)
  {
    hide OstMicros;
    var q := OstMicros(hz);
    OstIsCeiling(hz);
    if q > 0 {
      ProductGrows(q - 1, hz);
    }
    SmallRemainder(q);
  }

  predicate SameLags(c: Chip, d: Chip) {
    d.modeLag == c.modeLag && d.txLag == c.txLag
  }

  /** A chip in configuration mode after a reset. */
  predicate JustReset(c: Chip) {
    Settled(c) && Mode(c.regs) == CONFIG && !Waiting(c.regs) && c.regs[CANCTRL] == 0x87
  }

  predicate Timed(c: Chip, cnf1: byte, cnf2: byte, cnf3: byte) {
    c.regs[CNF1] == cnf1 && c.regs[CNF2] == cnf2 && c.regs[CNF3] == cnf3
  }

  predicate Initialised(c: Chip, cnf1: byte, cnf2: byte, cnf3: byte, mode: byte) {
    && Timed(c, cnf1, cnf2, cnf3) && Mode(c.regs) == mode && !Waiting(c.regs) && c.txWait == 0
    && (mode != CONFIG ==> c.modeWait == 0) && c.regs[CANCTRL] & 0x1F == 0x07
  }

  lemma ResetSettled(d: Chip, c: Chip)
    requires d == Tick(Restarted(c))
    ensures JustReset(d) && SameLags(c, d)
  {
  }

  lemma WrittenFresh(c: Chip, at: nat, b: byte)
    requires JustReset(c) && CNF3 <= at <= CNF1
    ensures var d := Tick(Written(c, at, b));
            && JustReset(d) && SameLags(c, d) && d.regs[at] == b
            && forall a | CNF3 <= a <= CNF1 && a != at :: d.regs[a] == c.regs[a]
  {
  }

  lemma TimingKept(c: Chip, d: Chip, cnf1: byte, cnf2: byte, cnf3: byte, mode: byte)
    requires JustReset(c) && Timed(c, cnf1, cnf2, cnf3) && Turned(c, d, mode) && mode <= 4
    ensures Initialised(d, cnf1, cnf2, cnf3, mode) && SameLags(c, d)
  {
    ModeBits(0x87, 0, mode);
    hide WithMode;
  }

  lemma WriteOne(c: Chip, reg: nat, value: byte)
    requires reg < SIZE
    ensures WrittenAll(c, reg, [value]) == Written(c, reg, value)
  {
    hide Written;
    assert [value][1..] == [];
  }

  lemma WriteProcessed(c: Chip, reg: byte, value: byte)
    requires Value(reg) < SIZE
    ensures ChipAfter(c, [INSTR_WRITE, reg, value]) == Tick(Written(c, Value(reg), value))
  {
    hide Written, WrittenAll, Tick, Value;
    var tx := [INSTR_WRITE, reg, value];
    assert tx[2..] == [value];
    WriteOne(c, Value(reg), value);
  }

  lemma ReadProcessed(c: Chip, reg: byte)
    requires Value(reg) < SIZE
    ensures ChipAfter(c, [INSTR_READ, reg, 0]) == Tick(c)
    ensures Process(c, [INSTR_READ, reg, 0]).rx[2] == c.regs[Value(reg)]
  {
    hide Tick, ReadOut, Value;
    ReadOne(c.regs, Value(reg));
  }

  lemma ReadOne(r: Registers, reg: nat)
    requires reg < SIZE
    ensures ReadOut(r, reg, 2, 3)[2] == r[reg]
  {
  }

  // ---- Loopback ----

  /** The receive transaction empties the buffer, and the chip is ready for the next frame. */
  lemma ReceiveFrees(c: Chip, f: Frame)
    requires Standard(f) && Fits(f) && Passing(c, f) && c.txWait == 0
    ensures Held(c.regs) == Padded(f)
    ensures var d := ChipAfter(c, [INSTR_READ_RXB0] + Zeros(13));
            Free(d) && d.txLag == c.txLag && d.modeLag == c.modeLag
  {
    FlagSet(c.regs[CANINTF]);
    hide Held, Padded, Loaded;
  }

  /** A frame sent in loopback mode is in the receive buffer once RX0IF is set; before that, receiving it
      gives back what the buffer held before. */
  lemma FlagMatters(c: Chip, f: Frame)
    requires Standard(f) && Fits(f) && Free(c)
    ensures var d := Request(ChipAfter(c, LoadBytes(f)));
            Held(d.regs) == (if Waiting(d.regs) then Padded(f) else Held(c.regs))
  {
    hide Loaded, Held, Arrived, Padded, LoadBytes, Waiting, Mode;
    var d := ChipAfter(c, LoadBytes(f));
    LoadedBy(c, f);
    SentOff(c, f);
    ArrivesIntact(d.regs, f);
  }

  /** This is what waits in the receive buffer. */
  predicate Keeps(c: Chip, g: Frame) {
    Waiting(c.regs) && Held(c.regs) == g
  }

  function Ticks(c: Chip, k: nat): Chip {
    if k == 0 then c else Tick(Ticks(c, k - 1))
  }

  lemma TickKeeps(c: Chip, g: Frame)
    requires Keeps(c, g)
    ensures Keeps(Tick(c), g)
  {
    hide Arrived, FrameIn;
    var m := ModeTick(c);
    assert ReadOut(m.regs, RXB0, 1, 14) == ReadOut(c.regs, RXB0, 1, 14);
    NothingArrives(m.regs);
  }

  lemma NothingArrives(r: Registers)
    ensures Waiting(r) ==> Arrived(r) == r
  {
  }

  lemma LoadKeeps(c: Chip, g: Frame, f: Frame)
    requires Standard(f) && Fits(f) && Keeps(c, g)
    ensures Keeps(ChipAfter(c, LoadBytes(f)), g)
  {
    hide IdHigh, IdLow, Nth, FrameIn, Tick;
    var tx := LoadBytes(f);
    var r := Overlaid(c.regs, TXB0, tx[1..]);
    assert ReadOut(r, RXB0, 1, 14) == ReadOut(c.regs, RXB0, 1, 14);
    TickKeeps(c.(regs := r), g);
  }

  /** A full buffer keeps what it holds when another frame is sent, however long one waits. */
  lemma {:induction false} SecondFrameLost(c: Chip, g: Frame, f: Frame, k: nat)
    requires Standard(f) && Fits(f) && Keeps(c, g)
    ensures Keeps(Ticks(Request(ChipAfter(c, LoadBytes(f))), k), g)
  {
    hide Held, LoadBytes, Tick, Waiting;
    var d := ChipAfter(c, LoadBytes(f));
    LoadKeeps(c, g, f);
    if k == 0 {
      TickKeeps(Process(d, [INSTR_RTS_TXB0]).chip, g);
    } else {
      SecondFrameLost(c, g, f, k - 1);
      TickKeeps(Ticks(Request(d), k - 1), g);
    }
  }

  lemma {:induction false} TicksCarry(c: Chip, f: Frame, k: nat)
    requires Standard(f) && Fits(f) && Passing(c, f)
    ensures Passing(Ticks(c, k), f) && Ticks(c, k).txWait == (if c.txWait <= k then 0 else c.txWait - k)
  {
    hide Passing, Tick;
    if k > 0 {
      TicksCarry(c, f, k - 1);
      TickCarries(Ticks(c, k - 1), f);
    }
  }

  /** A frame sent in loopback mode is in the receive buffer when its transmission is over exactly when `has_message`
      was false before the send, or the buffer held that very frame: a second frame is lost if the first one has not
      been read. */
  lemma SecondFrameIff(c: Chip, f: Frame)
    requires Standard(f) && Fits(f) && c.modeWait == 0 && c.txWait == 0 && Mode(c.regs) == LOOPBACK
    ensures Held(Ticks(Request(ChipAfter(c, LoadBytes(f))), c.txLag).regs) == Padded(f)
            <==> !Waiting(c.regs) || Held(c.regs) == Padded(f)
  {
    hide Held, Padded, LoadBytes, Tick, Waiting, Mode, ChipAfter, Loaded;
    if Waiting(c.regs) {
      SecondFrameLost(c, Held(c.regs), f, c.txLag);
    } else {
      SentOff(c, f);
      TicksCarry(Request(ChipAfter(c, LoadBytes(f))), f, c.txLag);
    }
  }

  /** After i polls that found no message, and perhaps one that did. */
  predicate OnItsWay(d: Chip, c: Chip, f: Frame, i: nat, has: bool)
    requires Fits(f)
  {
    && Standard(f) && Passing(d, f) && d.txLag == c.txLag && d.modeLag == c.modeLag
    && i <= c.txLag && d.txWait == c.txLag - i && (has ==> d.txWait == 0)
  }

  lemma PollStep(d: Chip, c: Chip, f: Frame, i: nat, has: bool)
    requires Fits(f) && OnItsWay(d, c, f, i, has)
    ensures Waiting(d.regs) <==> i == c.txLag
    ensures if Waiting(d.regs) then OnItsWay(Tick(d), c, f, i, true) else OnItsWay(Tick(d), c, f, i + 1, false)
  {
    hide Waiting, Held, Padded, Loaded, Tick, Mode;
    TickCarries(d, f);
  }

  /** The test's poll loop, and its final test. */
  method AwaitMessage(can: Driver, ghost c: Chip, ghost f: Frame) returns (has: bool)
    requires Fits(f) && CsAfter(can.spi.log) == High
    modifies can.spi
    ensures CsAfter(can.spi.log) == High && can.spi.n >= old(can.spi.n)
    ensures OnItsWay(old(can.spi.chip), c, f, 0, false) && AllFine(can.spi.plan, old(can.spi.n), can.spi.n) ==>
              (has <==> c.txLag <= 1000) && (has ==> OnItsWay(can.spi.chip, c, f, c.txLag, true))
  {
    hide CsAfter, OnItsWay, Tick, Waiting;
    ghost var n, sent := can.spi.n, OnItsWay(can.spi.chip, c, f, 0, false);
    var i := 0;
    has := false;
    while i < POLLS && !has
      invariant i <= POLLS && CsAfter(can.spi.log) == High && can.spi.n >= n
      invariant sent && AllFine(can.spi.plan, n, can.spi.n) ==>
                  OnItsWay(can.spi.chip, c, f, i, has) && i <= c.txLag && (has ==> i == c.txLag)
      decreases POLLS - i, !has
    {
      if sent && AllFine(can.spi.plan, n, can.spi.n) {
        PollStep(can.spi.chip, c, f, i, has);
        WayCounts(can.spi.chip, c, f, i, has);
      }
      has := can.HasMessage();
      if !has {
        i := i + 1;
      }
    }
    if sent && AllFine(can.spi.plan, n, can.spi.n) {
      PollStep(can.spi.chip, c, f, i, has);
    }
    has := can.HasMessage();
  }

  lemma WayCounts(d: Chip, c: Chip, f: Frame, i: nat, has: bool)
    requires Fits(f) && OnItsWay(d, c, f, i, has)
    ensures i <= c.txLag
  {
  }

  /** The frame is the one sent, as far as its data reach. */
  predicate SameFrame(f: Frame, g: Frame)
    requires Fits(f) && Standard(f) && |g.data| == 8
  {
    g.id == f.id && g.dlc == f.dlc && g.data[..f.dlc] == f.data[..f.dlc]
  }

  lemma SameSpelled(f: Frame, g: Frame)
    requires Fits(f) && Standard(f) && |g.data| == 8 && SameFrame(f, g)
    ensures g.id == f.id && g.dlc == f.dlc && forall i | 0 <= i < f.dlc :: g.data[i] == f.data[i]
  {
    assert forall i | 0 <= i < f.dlc :: g.data[..f.dlc][i] == f.data[..f.dlc][i];
  }

  /** The test's comparison. */
  method Compare(f: Frame, g: Frame) returns (pass: bool)
    requires Fits(f) && Standard(f) && |g.data| == 8
    ensures pass <==> SameFrame(f, g)
  {
    pass := g.id == f.id && g.dlc == f.dlc;
    var i := 0;
    while pass && i < f.dlc
      invariant i <= f.dlc && (pass ==> g.data[..i] == f.data[..i])
      invariant !pass ==> !SameFrame(f, g)
      invariant pass ==> g.id == f.id && g.dlc == f.dlc
      decreases f.dlc - i, pass
    {
      if g.data[i] != f.data[i] {
        assert g.data[..f.dlc][i] != f.data[..f.dlc][i];
        pass := false;
      } else {
        i := i + 1;
      }
    }
  }

  lemma PaddedIsSame(f: Frame)
    requires Fits(f) && Standard(f)
    ensures |Padded(f).data| == 8 && SameFrame(f, Padded(f))
  {
  }

  /** One pass of the loopback test's loop: send, poll for a message, receive, compare. It passes only with the
      frame it sent. Without bus errors it passes exactly when the transmission is over within the poll budget, and
      the rest of the data comes back as zeros. */
  method LoopbackRound(can: Driver, f: Frame) returns (pass: bool, g: Frame)
    requires Fits(f) && CsAfter(can.spi.log) == High
    modifies can.spi
    ensures CsAfter(can.spi.log) == High && can.spi.n >= old(can.spi.n)
    ensures pass ==> Standard(f) && |g.data| == 8 && SameFrame(f, g)
    ensures pass ==> g.id == f.id && g.dlc == f.dlc && forall i | 0 <= i < f.dlc :: g.data[i] == f.data[i]
    ensures Free(old(can.spi.chip)) && AllFine(can.spi.plan, old(can.spi.n), can.spi.n) ==>
              && (pass <==> Standard(f) && old(can.spi.chip).txLag <= 1000)
              && (pass ==> g == Padded(f) && Free(can.spi.chip) && can.spi.chip.txLag == old(can.spi.chip).txLag)
  {
    hide CsAfter, ChipAfter, Padded, Free, Tick, LoadBytes, Waiting, Passing, SameFrame;
    pass, g := false, Frame(0, 0, Zeros(8));
    ghost var c := can.spi.chip;
    var ok := can.Send(f);
    if !ok {
      return;
    }
    if Free(c) {
      SentOff(c, f);
    }
    var has := AwaitMessage(can, c, f);
    if has {
      ghost var d := can.spi.chip;
      if Free(c) && AllFine(can.spi.plan, old(can.spi.n), can.spi.n) {
        ReceiveFrees(d, f);
      }
      ok, g := can.Receive(g);
      if ok {
        PaddedIsSame(f);
        pass := Compare(f, g);
        if pass {
          SameSpelled(f, g);
        }
      }
    }
  }

  lemma InitialisedIsFree(c: Chip, cnf1: byte, cnf2: byte, cnf3: byte)
    requires Initialised(c, cnf1, cnf2, cnf3, LOOPBACK)
    ensures Free(c)
  {
  }

  /** The loopback test on any list of frames: without bus errors, on a chip fast enough, every frame comes
      back with its identifier, its length and its data, padded with zeros. */
  method LoopbackTest(can: Driver, cnf1: byte, cnf2: byte, cnf3: byte, oscFreqHz: nat, frames: seq<Frame>)
    returns (ok: bool, received: seq<Frame>)
    requires 0 < oscFreqHz < 0x1_0000_0000 && CsAfter(can.spi.log) == High
    requires forall f | f in frames :: Fits(f) && Standard(f)
    modifies can.spi
    ensures CsAfter(can.spi.log) == High
    ensures (&& AllFine(can.spi.plan, old(can.spi.n), can.spi.n)
             && old(can.spi.chip).modeLag < 1000 && old(can.spi.chip).txLag <= 1000) ==>
              ok && received == seq(|frames|, i requires 0 <= i < |frames| => PaddedAt(frames, i))
  {
    hide CsAfter, Initialised, Free, Padded;
    received := [];
    ghost var n, lag := can.spi.n, can.spi.chip.txLag;
    ok := can.Init(cnf1, cnf2, cnf3, LOOPBACK, oscFreqHz);
    if !ok {
      return;
    }
    InitialisedIsFree(can.spi.chip, cnf1, cnf2, cnf3);
    for k := 0 to |frames|
      invariant ok && CsAfter(can.spi.log) == High && can.spi.n >= n
      invariant |received| == k
      invariant AllFine(can.spi.plan, n, can.spi.n) && lag <= 1000 ==>
                  && Free(can.spi.chip) && can.spi.chip.txLag == lag
                  && forall i | 0 <= i < k :: received[i] == PaddedAt(frames, i)
    {
      var pass, f := LoopbackRound(can, frames[k]);
      if !pass {
        ok := false;
        return;
      }
      received := received + [f];
    }
  }

  function PaddedAt(frames: seq<Frame>, i: nat): Frame
    requires i < |frames|
  {
    if Standard(frames[i]) && Fits(frames[i]) then Padded(frames[i]) else frames[i]
  }
}
