/** Which error patterns leave a division register empty, and so go unnoticed, at any length. */
module ErrorPatterns {
  import opened Bytes
  import opened Gf2

  predicate Unnoticed(e: seq<bit>) {
    Run(EMPTY, e) == EMPTY
  }

  /** All the errors are among the n bits from position k on. */
  predicate InWindow(e: seq<bit>, k: nat, n: nat) {
    forall i | 0 <= i < |e| && e[i] == 1 :: k <= i < k + n
  }

  lemma BitIsZeroOrOne(b: bit)
    ensures b == 0 || b == 1
  {
  }

  lemma ZerosOutside(e: seq<bit>, k: nat, n: nat)
    requires InWindow(e, k, n) && k + n <= |e|
    ensures e == ZeroBits(k) + e[k..k + n] + ZeroBits(|e| - k - n)
  {
    forall i | 0 <= i < |e| && !(k <= i < k + n)
      ensures e[i] == 0
    {
      BitIsZeroOrOne(e[i]);
    }
  }

  lemma {:induction false} RunTrailingZeros(r: Register, n: nat)
    ensures Run(r, ZeroBits(n)) == EMPTY <==> r == EMPTY
  {
    RunZeros(n);
    if Run(r, ZeroBits(n)) == EMPTY {
      RunInjective(r, EMPTY, ZeroBits(n));
    }
  }

  lemma WindowDecides(e: seq<bit>, k: nat, n: nat)
    requires InWindow(e, k, n) && k + n <= |e|
    ensures Unnoticed(e) <==> Unnoticed(e[k..k + n])
  {
    var w := e[k..k + n];
    ZerosOutside(e, k, n);
    RunConcat(EMPTY, ZeroBits(k) + w, ZeroBits(|e| - k - n));
    RunPadded(k, w);
    RunTrailingZeros(Run(EMPTY, w), |e| - k - n);
  }

  /** No burst of up to 16 bits goes unnoticed. */
  lemma Burst16(e: seq<bit>, k: nat)
    requires k + 16 <= |e| && InWindow(e, k, 16)
    ensures Unnoticed(e) <==> e == ZeroBits(|e|)
  {
    WindowDecides(e, k, 16);
    ZerosOutside(e, k, 16);
    SixteenEmpty(EMPTY, e[k..k + 16]);
    if e == ZeroBits(|e|) {
      RunZeros(|e|);
    }
  }

  lemma SeventeenBits(w: seq<bit>)
    requires |w| == 17
    ensures Unnoticed(w) <==> w == ZeroBits(17) || w == GENERATOR
  {
    BitIsZeroOrOne(w[0]);
    if w[0] == 0 {
      SeventeenDecided(w);
    } else {
      var d := XorBits(w, GENERATOR);
      RunFromEmpty(w, GENERATOR);
      RunGenerator();
      XorWithEmpty(Run(EMPTY, w));
      SeventeenDecided(d);
      SelfXor(w, GENERATOR);
    }
  }

  lemma SameWindow(e: seq<bit>, f: seq<bit>, k: nat, n: nat)
    requires k + n <= |e| == |f| && InWindow(e, k, n) && InWindow(f, k, n)
    ensures e == f <==> e[k..k + n] == f[k..k + n]
  {
    ZerosOutside(e, k, n);
    ZerosOutside(f, k, n);
  }

  /** Among bursts of up to 17 bits exactly one goes unnoticed: the generator itself. */
  lemma Burst17(e: seq<bit>, k: nat)
    requires k + 17 <= |e| && InWindow(e, k, 17)
    ensures Unnoticed(e) <==> e == ZeroBits(|e|) || e == ZeroBits(k) + GENERATOR + ZeroBits(|e| - k - 17)
  {
    var g := ZeroBits(k) + GENERATOR + ZeroBits(|e| - k - 17);
    WindowDecides(e, k, 17);
    SeventeenBits(e[k..k + 17]);
    SameWindow(e, ZeroBits(|e|), k, 17);
    assert ZeroBits(|e|)[k..k + 17] == ZeroBits(17);
    SameWindow(e, g, k, 17);
    assert g[k..k + 17] == GENERATOR;
  }

  lemma XorWithEmpty(r: Register)
    ensures XorBits(r, EMPTY) == r
  {
  }

  lemma SeventeenDecided(w: seq<bit>)
    requires |w| == 17 && w[0] == 0
    ensures Unnoticed(w) <==> w == ZeroBits(17)
  {
    assert w == ZeroBits(1) + w[1..];
    RunPadded(1, w[1..]);
    SixteenEmpty(EMPTY, w[1..]);
    assert w == ZeroBits(17) <==> w[1..] == ZeroBits(16);
  }

  // ---- Parity ----

  function Ones(bits: seq<bit>): nat {
    if bits == [] then 0 else (if bits[0] == 1 then 1 else 0) + Ones(bits[1..])
  }

  function Parity(bits: seq<bit>): bit {
    if bits == [] then 0 else bits[0] ^ Parity(bits[1..])
  }

  lemma {:induction false} ParityOfOnes(bits: seq<bit>)
    ensures Parity(bits) == 1 <==> Ones(bits) % 2 == 1
  {
    if bits != [] {
      ParityOfOnes(bits[1..]);
      BitIsZeroOrOne(bits[0]);
      BitIsZeroOrOne(Parity(bits[1..]));
    }
  }

  lemma {:induction false} ParityOfXor(a: seq<bit>, b: seq<bit>)
    requires |a| == |b|
    ensures Parity(XorBits(a, b)) == Parity(a) ^ Parity(b)
  {
    if a != [] {
      assert XorBits(a, b)[1..] == XorBits(a[1..], b[1..]);
      ParityOfXor(a[1..], b[1..]);
    }
  }

  lemma {:induction false} ParityOfConcat(a: seq<bit>, b: seq<bit>)
    ensures Parity(a + b) == Parity(a) ^ Parity(b)
  {
    if a == [] {
      assert a + b == b;
      assert (0 as bit) ^ Parity(b) == Parity(b);
    } else {
      assert (a + b)[1..] == a[1..] + b;
      ParityOfConcat(a[1..], b);
    }
  }

  lemma {:induction false} ParityOfZeros(n: nat)
    ensures Parity(ZeroBits(n)) == 0
  {
    if n != 0 {
      assert ZeroBits(n)[1..] == ZeroBits(n - 1);
      ParityOfZeros(n - 1);
    }
  }

  lemma ParityOfBit(b: bit)
    ensures Parity([b]) == b
  {
    assert [b][1..] == [];
  }

  /** The generator has four terms, so its last three have odd parity. */
  lemma ParityOfTail()
    ensures Parity(TAIL) == 1
  {
    var a, b, c := ZeroBits(3) + [1], ZeroBits(6) + [1], ZeroBits(4) + [1];
    assert TAIL == a + (b + c);
    ParityOfConcat(a, b + c);
    ParityOfConcat(b, c);
    ParityOfConcat(ZeroBits(3), [1]);
    ParityOfConcat(ZeroBits(6), [1]);
    ParityOfConcat(ZeroBits(4), [1]);
    ParityOfZeros(3);
    ParityOfZeros(4);
    ParityOfZeros(6);
    ParityOfBit(1);
  }

  lemma ParityOfScaledTail(f: bit)
    ensures Parity(Scale(f, TAIL)) == f
  {
    BitIsZeroOrOne(f);
    if f == 0 {
      assert Scale(f, TAIL) == ZeroBits(16);
      ParityOfZeros(16);
    } else {
      assert Scale(f, TAIL) == TAIL;
      ParityOfTail();
    }
  }

  lemma ParityOfStep(r: Register, b: bit)
    ensures Parity(Step(r, b)) == Parity(r) ^ b
  {
    var f := r[0] ^ b;
    ParityOfXor(r[1..] + [0], Scale(f, TAIL));
    ParityOfScaledTail(f);
    ParityOfConcat(r[1..], [0]);
    ParityOfBit(0);
    assert Parity(r) == r[0] ^ Parity(r[1..]);
  }

  lemma {:induction false} ParityOfRun(r: Register, bits: seq<bit>)
    ensures Parity(Run(r, bits)) == Parity(r) ^ Parity(bits)
    decreases bits
  {
    if bits == [] {
      assert Parity(r) ^ 0 == Parity(r);
    } else {
      ParityOfStep(r, bits[0]);
      ParityOfRun(Step(r, bits[0]), bits[1..]);
    }
  }

  /** No error of an odd number of bits goes unnoticed. */
  lemma OddErrors(e: seq<bit>)
    requires Unnoticed(e)
    ensures Ones(e) % 2 == 0
  {
    ParityOfRun(EMPTY, e);
    ParityOfZeros(16);
    ParityOfOnes(e);
  }
}
