/** The delay count of both bit-banged buses: nop-loop iterations for half a clock period. */
module Delay {
  const WORD: nat := 0x1_0000_0000

  /** Half a clock period in nanoseconds. */
  function HalfPeriod(clockHz: nat): nat
    requires clockHz > 0
  {
    500000000 / clockHz
  }

  /** In uint32_t arithmetic, at least 1: from 3 Hz on the loop takes half a period, within one iteration. */
  method HalfPeriodLoops(clockHz: nat) returns (loops: nat)
    requires clockHz > 0
    ensures loops == DelayLoops(clockHz) && loops >= 1
    ensures clockHz >= 3 ==> 500000000 / clockHz * 24 < (loops + 1) * 1000
    ensures clockHz >= 3 && loops > 1 ==> loops * 1000 <= 500000000 / clockHz * 24
  {
    var halfPeriodNs := HalfPeriod(clockHz);
    if clockHz >= 3 {
      AtMostAThird(halfPeriodNs, clockHz);
    }
    loops := (halfPeriodNs * 24) % WORD / 1000;
    if loops < 1 {
      loops := 1;
    }
  }

  function AtLeastOne(n: nat): nat {
    if n < 1 then 1 else n
  }

  function DelayLoops(clockHz: nat): nat
    requires clockHz > 0
  {
    AtLeastOne((HalfPeriod(clockHz) * 24) % WORD / 1000)
  }

  /** What the same computation gives without overflow. */
  function IntendedLoops(clockHz: nat): nat
    requires clockHz > 0
  {
    AtLeastOne(HalfPeriod(clockHz) * 24 / 1000)
  }

  lemma AtMostAThird(q: nat, clockHz: nat)
    requires clockHz >= 3 && q * clockHz <= 500000000
    ensures q * 24 < WORD
  {
    assert q * 3 <= q * clockHz;
  }

  lemma SlowClocks()
    ensures DelayLoops(1) == 3410065 && DelayLoops(2) == 1705032
  {
  }

  /** 24 iterations take a microsecond; the product overflows 32 bits at 1 and 2 Hz, and only there. */
  lemma DelayExactIff(clockHz: nat)
    requires clockHz > 0
    ensures DelayLoops(clockHz) == IntendedLoops(clockHz) <==> clockHz >= 3
  {
    SlowClocks();
    var half := HalfPeriod(clockHz);
    if clockHz >= 3 {
      hide WORD;
      AtMostAThird(half, clockHz);
    }
  }
}
