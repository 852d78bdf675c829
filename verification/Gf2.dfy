/** Polynomials over GF(2), written as bit strings with the highest power first, and division by the
    generator x^16 + x^12 + x^5 + 1 of ITU-T V.41. */
module Gf2 {
  import opened Bytes

  /** The sum of two polynomials: a 1 where they differ. */
  function XorBits(a: seq<bit>, b: seq<bit>): (e: seq<bit>)
    requires |a| == |b|
    ensures |e| == |a|
  {
    seq(|a|, i requires 0 <= i < |a| => a[i] ^ b[i])
  }

  function ZeroBits(n: nat): (bits: seq<bit>)
    ensures |bits| == n
  {
    seq(n, _ => 0 as bit)
  }

  function Scale(f: bit, p: seq<bit>): (q: seq<bit>)
    ensures |q| == |p|
  {
    seq(|p|, i requires 0 <= i < |p| => f & p[i])
  }

  /** x^12 + x^5 + 1 */
  const TAIL: seq<bit> := [0, 0, 0, 1, 0, 0, 0, 0, 0, 0, 1, 0, 0, 0, 0, 1]

  /** x^16 + x^12 + x^5 + 1 */
  const GENERATOR: seq<bit> := [1] + TAIL

  type Register = r: seq<bit> | |r| == 16 witness ZeroBits(16)

  /** One bit of a message through a division register. */
  function Step(r: Register, b: bit): Register {
    XorBits(r[1..] + [0], Scale(r[0] ^ b, TAIL))
  }

  function Run(r: Register, bits: seq<bit>): Register
    decreases bits
  {
    if bits == [] then r else Run(Step(r, bits[0]), bits[1..])
  }

  lemma {:induction false} RunConcat(r: Register, a: seq<bit>, b: seq<bit>)
    ensures Run(r, a + b) == Run(Run(r, a), b)
    decreases a
  {
    if a == [] {
      assert a + b == b;
    } else {
      assert (a + b)[1..] == a[1..] + b;
      RunConcat(Step(r, a[0]), a[1..], b);
    }
  }

  lemma RunSnoc(r: Register, bits: seq<bit>, b: bit)
    ensures Run(r, bits + [b]) == Step(Run(r, bits), b)
  {
    RunConcat(r, bits, [b]);
    assert [b][1..] == [];
  }

  // ---- The register is linear and reversible ----

  lemma StepLinear(a: Register, b: Register, p: bit, q: bit)
    ensures Step(XorBits(a, b), p ^ q) == XorBits(Step(a, p), Step(b, q))
  {
    var f, g := a[0] ^ p, b[0] ^ q;
    assert (a[0] ^ b[0]) ^ (p ^ q) == f ^ g;
    forall i | 0 <= i < 16
      ensures Step(XorBits(a, b), p ^ q)[i] == XorBits(Step(a, p), Step(b, q))[i]
    {
      var x, y := (a[1..] + [0])[i], (b[1..] + [0])[i];
      assert (XorBits(a, b)[1..] + [0])[i] == x ^ y;
      assert (x ^ y) ^ ((f ^ g) & TAIL[i]) == (x ^ (f & TAIL[i])) ^ (y ^ (g & TAIL[i]));
    }
  }

  lemma {:induction false} RunLinear(a: Register, b: Register, p: seq<bit>, q: seq<bit>)
    requires |p| == |q|
    ensures Run(XorBits(a, b), XorBits(p, q)) == XorBits(Run(a, p), Run(b, q))
    decreases p
  {
    if p != [] {
      StepLinear(a, b, p[0], q[0]);
      assert XorBits(p, q)[1..] == XorBits(p[1..], q[1..]);
      RunLinear(Step(a, p[0]), Step(b, q[0]), p[1..], q[1..]);
    }
  }

  lemma StepInjective(a: Register, b: Register, x: bit)
    requires Step(a, x) == Step(b, x)
    ensures a == b
  {
    assert Step(a, x)[15] == a[0] ^ x && Step(b, x)[15] == b[0] ^ x;
    assert a[0] == b[0];
    forall i | 0 < i < 16
      ensures a[i] == b[i]
    {
      assert Step(a, x)[i - 1] == a[i] ^ ((a[0] ^ x) & TAIL[i - 1]);
      assert Step(b, x)[i - 1] == b[i] ^ ((a[0] ^ x) & TAIL[i - 1]);
    }
  }

  lemma {:induction false} RunInjective(a: Register, b: Register, bits: seq<bit>)
    requires Run(a, bits) == Run(b, bits)
    ensures a == b
    decreases bits
  {
    if bits != [] {
      RunInjective(Step(a, bits[0]), Step(b, bits[0]), bits[1..]);
      StepInjective(a, b, bits[0]);
    }
  }

  lemma StepOwnTop(r: Register)
    ensures Step(r, r[0]) == r[1..] + [0]
  {
    assert r[0] ^ r[0] == 0;
    forall i | 0 <= i < 16
      ensures Step(r, r[0])[i] == (r[1..] + [0])[i]
    {
      assert (0 as bit) & TAIL[i] == 0;
    }
  }

  /** A register fed its own bits is merely shifted out. */
  lemma {:induction false} RunOwnBits(r: Register, n: nat)
    requires n <= 16
    ensures Run(r, r[..n]) == r[n..] + ZeroBits(n)
  {
    if n != 0 {
      RunOwnBits(r, n - 1);
      var s: Register := r[n - 1..] + ZeroBits(n - 1);
      assert r[..n] == r[..n - 1] + [r[n - 1]];
      RunSnoc(r, r[..n - 1], r[n - 1]);
      StepOwnTop(s);
    }
  }

  /** Sixteen more bits empty the register exactly when they repeat it. */
  lemma SixteenEmpty(r: Register, w: Register)
    ensures Run(r, w) == ZeroBits(16) <==> r == w
  {
    RunOwnBits(w, 16);
    assert w[..16] == w;
    if Run(r, w) == ZeroBits(16) {
      RunInjective(r, w, w);
    }
  }

  lemma {:induction false} RunZeros(n: nat)
    ensures Run(ZeroBits(16), ZeroBits(n)) == ZeroBits(16)
  {
    if n != 0 {
      assert ZeroBits(n)[1..] == ZeroBits(n - 1);
      StepOwnTop(ZeroBits(16));
      assert ZeroBits(16)[1..] + [0] == ZeroBits(16);
      RunZeros(n - 1);
    }
  }

  // ---- Division ----

  /** The product of two polynomials, one power of the first factor at a time. */
  function Times(q: seq<bit>, g: seq<bit>): (p: seq<bit>)
    requires g != []
    ensures |p| == |q| + |g| - 1
  {
    var n := |q|;
    if n == 0 then ZeroBits(|g| - 1)
    else XorBits(Times(q[..n - 1], g) + [0], ZeroBits(n - 1) + Scale(q[n - 1], g))
  }

  /** The dividend of a register preset to r: the message times x^16, plus r aligned with its start. */
  function Dividend(r: Register, bits: seq<bit>): (p: seq<bit>)
    ensures |p| == |bits| + 16
  {
    XorBits(bits + ZeroBits(16), r + ZeroBits(|bits|))
  }

  /** A polynomial of degree below 16, written with |bits| + 16 coefficients. */
  function Padded(n: nat, r: Register): seq<bit> {
    ZeroBits(n) + r
  }

  lemma DividendSnoc(r: Register, bits: seq<bit>, b: bit)
    ensures Dividend(r, bits + [b])
         == XorBits(Dividend(r, bits) + [0], ZeroBits(|bits|) + ([b] + ZeroBits(16)))
  {
    var n := |bits|;
    var left, right := Dividend(r, bits + [b]), XorBits(Dividend(r, bits) + [0], ZeroBits(n) + ([b] + ZeroBits(16)));
    var m, p := (bits + [b]) + ZeroBits(16), r + ZeroBits(n + 1);
    var m0, p0 := bits + ZeroBits(16), r + ZeroBits(n);
    forall i | 0 <= i < n + 17
      ensures left[i] == right[i]
    {
      assert left[i] == m[i] ^ p[i];
      if i < n + 16 {
        assert p[i] == p0[i];
        assert right[i] == (m0[i] ^ p0[i]) ^ (ZeroBits(n) + ([b] + ZeroBits(16)))[i];
      }
    }
  }

  lemma StepDivides(r: Register, b: bit)
    ensures XorBits(r + [0], [b] + ZeroBits(16)) == XorBits(Scale(r[0] ^ b, GENERATOR), [0] + Step(r, b))
  {
    var f := r[0] ^ b;
    var left, right := XorBits(r + [0], [b] + ZeroBits(16)), XorBits(Scale(f, GENERATOR), [0] + Step(r, b));
    assert left[0] == f && right[0] == (f & 1) ^ 0;
    forall i | 0 < i < 17
      ensures left[i] == right[i]
    {
      assert GENERATOR[i] == TAIL[i - 1];
      assert left[i] == (r + [0])[i] ^ 0;
      assert (r + [0])[i] == (r[1..] + [0])[i - 1];
      assert right[i] == (f & TAIL[i - 1]) ^ ((r[1..] + [0])[i - 1] ^ (f & TAIL[i - 1]));
    }
  }

  lemma XorAssociative(a: seq<bit>, b: seq<bit>, c: seq<bit>)
    requires |a| == |b| == |c|
    ensures XorBits(XorBits(a, b), c) == XorBits(a, XorBits(b, c))
  {
    forall i | 0 <= i < |a|
      ensures XorBits(XorBits(a, b), c)[i] == XorBits(a, XorBits(b, c))[i]
    {
      assert (a[i] ^ b[i]) ^ c[i] == a[i] ^ (b[i] ^ c[i]);
    }
  }

  lemma XorPadded(n: nat, a: seq<bit>, b: seq<bit>)
    requires |a| == |b|
    ensures XorBits(ZeroBits(n) + a, ZeroBits(n) + b) == ZeroBits(n) + XorBits(a, b)
  {
  }

  lemma XorShifted(a: seq<bit>, b: seq<bit>)
    requires |a| == |b|
    ensures XorBits(a, b) + [0] == XorBits(a + [0], b + [0])
  {
  }

  /** Long division: the register divides and what is left in it is the remainder. */
  lemma {:induction false} Division(r: Register, bits: seq<bit>) returns (q: seq<bit>)
    ensures |q| == |bits|
    ensures Dividend(r, bits) == XorBits(Times(q, GENERATOR), Padded(|bits|, Run(r, bits)))
  {
    var n := |bits| - 1;
    if bits == [] {
      q := [];
    } else {
      var q0 := Division(r, bits[..n]);
      var s, b := Run(r, bits[..n]), bits[n];
      q := q0 + [s[0] ^ b];
      assert bits == bits[..n] + [b];
      RunSnoc(r, bits[..n], b);
      DividendSnoc(r, bits[..n], b);
      DivisionStep(Times(q0, GENERATOR), n, s, b);
      assert q[..n] == q0;
    }
  }

  lemma DivisionStep(t: seq<bit>, n: nat, s: Register, b: bit)
    requires |t| == n + 16
    ensures XorBits(XorBits(t, Padded(n, s)) + [0], ZeroBits(n) + ([b] + ZeroBits(16)))
         == XorBits(XorBits(t + [0], ZeroBits(n) + Scale(s[0] ^ b, GENERATOR)), Padded(n + 1, Step(s, b)))
  {
    var g := Scale(s[0] ^ b, GENERATOR);
    calc {
      XorBits(XorBits(t, Padded(n, s)) + [0], ZeroBits(n) + ([b] + ZeroBits(16)));
    == { XorShifted(t, Padded(n, s)); assert Padded(n, s) + [0] == ZeroBits(n) + (s + [0]); }
      XorBits(XorBits(t + [0], ZeroBits(n) + (s + [0])), ZeroBits(n) + ([b] + ZeroBits(16)));
    == { XorAssociative(t + [0], ZeroBits(n) + (s + [0]), ZeroBits(n) + ([b] + ZeroBits(16)));
         XorPadded(n, s + [0], [b] + ZeroBits(16)); }
      XorBits(t + [0], ZeroBits(n) + XorBits(s + [0], [b] + ZeroBits(16)));
    == { StepDivides(s, b); XorPadded(n, g, [0] + Step(s, b)); }
      XorBits(t + [0], XorBits(ZeroBits(n) + g, ZeroBits(n) + ([0] + Step(s, b))));
    == { assert ZeroBits(n) + ([0] + Step(s, b)) == Padded(n + 1, Step(s, b)); }
      XorBits(t + [0], XorBits(ZeroBits(n) + g, Padded(n + 1, Step(s, b))));
    == { XorAssociative(t + [0], ZeroBits(n) + g, Padded(n + 1, Step(s, b))); }
      XorBits(XorBits(t + [0], ZeroBits(n) + g), Padded(n + 1, Step(s, b)));
    }
  }

  // ---- The remainder is unique ----

  const EMPTY: Register := ZeroBits(16)

  lemma RunFromEmpty(p: seq<bit>, q: seq<bit>)
    requires |p| == |q|
    ensures Run(EMPTY, XorBits(p, q)) == XorBits(Run(EMPTY, p), Run(EMPTY, q))
  {
    assert XorBits(EMPTY, EMPTY) == EMPTY;
    RunLinear(EMPTY, EMPTY, p, q);
  }

  lemma RunPadded(n: nat, bits: seq<bit>)
    ensures Run(EMPTY, ZeroBits(n) + bits) == Run(EMPTY, bits)
  {
    RunConcat(EMPTY, ZeroBits(n), bits);
    RunZeros(n);
  }

  lemma RunGenerator()
    ensures Run(EMPTY, GENERATOR) == EMPTY
  {
    assert GENERATOR[1..] == TAIL;
    assert Step(EMPTY, 1) == TAIL;
    SixteenEmpty(TAIL, TAIL);
  }

  lemma RunScaledGenerator(f: bit)
    ensures Run(EMPTY, Scale(f, GENERATOR)) == EMPTY
  {
    if f == 0 {
      assert Scale(f, GENERATOR) == ZeroBits(17);
      RunZeros(17);
    } else {
      assert Scale(f, GENERATOR) == GENERATOR;
      RunGenerator();
    }
  }

  lemma {:induction false} RunMultiple(q: seq<bit>)
    ensures Run(EMPTY, Times(q, GENERATOR)) == EMPTY
  {
    var n := |q|;
    if n == 0 {
      RunZeros(16);
    } else {
      var t, g := Times(q[..n - 1], GENERATOR), Scale(q[n - 1], GENERATOR);
      RunFromEmpty(t + [0], ZeroBits(n - 1) + g);
      RunMultiple(q[..n - 1]);
      RunSnoc(EMPTY, t, 0);
      StepOwnTop(EMPTY);
      assert EMPTY[1..] + [0] == EMPTY;
      RunPadded(n - 1, g);
      RunScaledGenerator(q[n - 1]);
      assert XorBits(EMPTY, EMPTY) == EMPTY;
    }
  }

  lemma SelfXor(a: seq<bit>, b: seq<bit>)
    requires |a| == |b|
    ensures XorBits(a, b) == ZeroBits(|a|) <==> a == b
  {
    if XorBits(a, b) == ZeroBits(|a|) {
      forall i | 0 <= i < |a|
        ensures a[i] == b[i]
      {
        assert XorBits(a, b)[i] == 0;
      }
    }
  }

  lemma XorWithZeros(a: seq<bit>)
    ensures XorBits(ZeroBits(|a|), a) == a
  {
  }

  lemma ResidueOfDecomposition(q: seq<bit>, n: nat, t: Register)
    requires |q| == n
    ensures Run(EMPTY, XorBits(Times(q, GENERATOR), Padded(n, t))) == Run(EMPTY, t)
  {
    RunFromEmpty(Times(q, GENERATOR), Padded(n, t));
    RunMultiple(q);
    RunPadded(n, t);
    XorWithZeros(Run(EMPTY, t));
  }

  lemma SixteenInjective(s: Register, t: Register)
    requires Run(EMPTY, s) == Run(EMPTY, t)
    ensures s == t
  {
    var e: Register := XorBits(s, t);
    RunFromEmpty(s, t);
    SelfXor(Run(EMPTY, s), Run(EMPTY, t));
    SixteenEmpty(EMPTY, e);
    SelfXor(s, t);
  }

  ghost predicate IsRemainder(r: Register, bits: seq<bit>, t: Register) {
    exists q: seq<bit> :: |q| == |bits| && Dividend(r, bits) == XorBits(Times(q, GENERATOR), Padded(|bits|, t))
  }

  /** The register holds the remainder of the dividend, and nothing else of degree below 16 is one. */
  lemma RunIsTheRemainder(r: Register, bits: seq<bit>, t: Register)
    ensures IsRemainder(r, bits, t) <==> t == Run(r, bits)
  {
    var q := Division(r, bits);
    if IsRemainder(r, bits, t) {
      var p: seq<bit> :| |p| == |bits| && Dividend(r, bits) == XorBits(Times(p, GENERATOR), Padded(|bits|, t));
      ResidueOfDecomposition(q, |bits|, Run(r, bits));
      ResidueOfDecomposition(p, |bits|, t);
      SixteenInjective(t, Run(r, bits));
    }
  }
}
