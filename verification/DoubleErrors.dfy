/** Two flipped bits: they go unnoticed exactly at distances that are multiples of the order of x modulo
    the generator, which is 32767. */
module DoubleErrors {
  import opened Arithmetic
  import opened Bytes
  import opened Crc16
  import opened CrcDetection
  import opened ErrorPatterns
  import opened Gf2

  const ORDER: nat := 32767

  // ---- Powers of x ----

  /** x^n modulo the generator. */
  function Power(n: nat): bv16 {
    Shifts(1, n)
  }

  lemma {:induction false} ShiftsAdd(r: bv16, m: nat, n: nat)
    ensures Shifts(r, m + n) == Shifts(Shifts(r, m), n)
  {
    hide Shift;
    if n != 0 {
      ShiftsAdd(r, m, n - 1);
    }
  }

  lemma {:induction false} ShiftsInjective(a: bv16, b: bv16, n: nat)
    requires Shifts(a, n) == Shifts(b, n)
    ensures a == b
  {
    hide Shift;
    if n != 0 {
      ShiftInjective(Shifts(a, n - 1), Shifts(b, n - 1));
      ShiftsInjective(a, b, n - 1);
    }
  }

  /** Addition of polynomials. */
  function Xor(a: bv16, b: bv16): bv16 {
    a ^ b
  }

  function Part1(a: bv16): bv16 {
    (-((a >> 0) & 1) & 0x0001) ^ (-((a >> 1) & 1) & 0x0004) ^
    (-((a >> 2) & 1) & 0x0010) ^ (-((a >> 3) & 1) & 0x0040)
  }

  function Part2(a: bv16): bv16 {
    (-((a >> 4) & 1) & 0x0100) ^ (-((a >> 5) & 1) & 0x0400) ^
    (-((a >> 6) & 1) & 0x1000) ^ (-((a >> 7) & 1) & 0x4000)
  }

  function Part3(a: bv16): bv16 {
    (-((a >> 8) & 1) & 0x1021) ^ (-((a >> 9) & 1) & 0x4084) ^
    (-((a >> 10) & 1) & 0x1231) ^ (-((a >> 11) & 1) & 0x48C4)
  }

  function Part4(a: bv16): bv16 {
    (-((a >> 12) & 1) & 0x3331) ^ (-((a >> 13) & 1) & 0xCCC4)
  }

  function Part5(a: bv16): bv16 {
    (-((a >> 14) & 1) & 0x0373) ^ (-((a >> 15) & 1) & 0x0DCC)
  }

  /** Squaring modulo the generator is linear: it sends x^i to x^(2i). */
  function Square(a: bv16): bv16 {
    Xor(Xor(Part1(a), Part2(a)), Xor(Part3(a), Xor(Part4(a), Part5(a))))
  }

  lemma Part1Linear(a: bv16, b: bv16)
    ensures Part1(Xor(a, b)) == Xor(Part1(a), Part1(b))
  {
  }

  lemma Part2Linear(a: bv16, b: bv16)
    ensures Part2(Xor(a, b)) == Xor(Part2(a), Part2(b))
  {
  }

  lemma Part3Linear(a: bv16, b: bv16)
    ensures Part3(Xor(a, b)) == Xor(Part3(a), Part3(b))
  {
  }

  lemma Part4Linear(a: bv16, b: bv16)
    ensures Part4(Xor(a, b)) == Xor(Part4(a), Part4(b))
  {
  }

  lemma Part5Bitwise(a: bv16, b: bv16)
    ensures Part5(a ^ b) == Part5(a) ^ Part5(b)
  {
  }

  lemma Part5Linear(a: bv16, b: bv16)
    ensures Part5(Xor(a, b)) == Xor(Part5(a), Part5(b))
  {
    Part5Bitwise(a, b);
    hide Part5;
  }

  lemma XorAssociates(a: bv16, b: bv16, c: bv16)
    ensures Xor(Xor(a, b), c) == Xor(a, Xor(b, c))
  {
  }

  lemma XorCommutes(a: bv16, b: bv16)
    ensures Xor(a, b) == Xor(b, a)
  {
  }

  lemma XorSwap(a: bv16, b: bv16, c: bv16, d: bv16)
    ensures Xor(Xor(a, b), Xor(c, d)) == Xor(Xor(a, c), Xor(b, d))
  {
    hide Xor;
    XorAssociates(a, b, Xor(c, d));
    XorAssociates(b, c, d);
    XorCommutes(b, c);
    XorAssociates(c, b, d);
    XorAssociates(a, c, Xor(b, d));
  }

  lemma ShiftOfXor(a: bv16, b: bv16)
    ensures Shift(Xor(a, b)) == Xor(Shift(a), Shift(b))
  {
    ShiftLinear(a, b);
  }

  lemma SquareLinear(a: bv16, b: bv16)
    ensures Square(Xor(a, b)) == Xor(Square(a), Square(b))
  {
    hide Part1, Part2, Part3, Part4, Part5, Xor;
    Part1Linear(a, b);
    Part2Linear(a, b);
    Part3Linear(a, b);
    Part4Linear(a, b);
    Part5Linear(a, b);
    XorSwap(Part1(a), Part1(b), Part2(a), Part2(b));
    XorSwap(Part4(a), Part4(b), Part5(a), Part5(b));
    var p, q := Xor(Part4(a), Part5(a)), Xor(Part4(b), Part5(b));
    XorSwap(Part3(a), Part3(b), p, q);
    XorSwap(Xor(Part1(a), Part2(a)), Xor(Part1(b), Part2(b)), Xor(Part3(a), p), Xor(Part3(b), q));
  }

  predicate Commutes(a: bv16) {
    Square(Shift(a)) == Shift(Shift(Square(a)))
  }

  lemma CommutesSum(a: bv16, b: bv16)
    requires Commutes(a) && Commutes(b)
    ensures Commutes(Xor(a, b))
  {
    hide Square, Shift, Xor;
    SquareLinear(a, b);
    SquareLinear(Shift(a), Shift(b));
    ShiftOfXor(a, b);
    ShiftOfXor(Square(a), Square(b));
    ShiftOfXor(Shift(Square(a)), Shift(Square(b)));
  }

  lemma CommutesNibbles(a: bv16)
    ensures Commutes(a & 0x000F) && Commutes(a & 0x00F0) && Commutes(a & 0x0F00) && Commutes(a & 0xF000)
  {
  }

  lemma FourNibbles(a: bv16)
    ensures a == Xor(Xor(a & 0x000F, a & 0x00F0), Xor(a & 0x0F00, a & 0xF000))
  {
  }

  lemma SquareShift(a: bv16)
    ensures Square(Shift(a)) == Shift(Shift(Square(a)))
  {
    hide Square, Shift, Xor;
    CommutesNibbles(a);
    FourNibbles(a);
    CommutesSum(a & 0x000F, a & 0x00F0);
    CommutesSum(a & 0x0F00, a & 0xF000);
    CommutesSum(Xor(a & 0x000F, a & 0x00F0), Xor(a & 0x0F00, a & 0xF000));
  }

  lemma SquareOne()
    ensures Square(1) == 1
  {
  }

  lemma {:induction false} PowerDoubles(n: nat)
    ensures Power(2 * n) == Square(Power(n))
  {
    hide Shift, Square;
    if n == 0 {
      SquareOne();
    } else {
      PowerDoubles(n - 1);
      SquareShift(Power(n - 1));
      assert Shifts(1, 2 * n) == Shift(Shifts(1, 2 * n - 1)) && Shifts(1, 2 * n - 1) == Shift(Shifts(1, 2 * n - 2));
    }
  }

  lemma PowerOfOne()
    ensures Power(1) == 2
  {
    assert Shifts(1, 0) == 1 && Shift(1) == 2;
  }

  lemma Even(n: nat, v: bv16, w: bv16)
    requires Power(n) == v && w == Square(v)
    ensures Power(2 * n) == w
  {
    hide Shift, Square;
    PowerDoubles(n);
  }

  lemma Odd(n: nat, v: bv16, w: bv16)
    requires Power(n) == v && w == Shift(Square(v))
    ensures Power(2 * n + 1) == w
  {
    hide Shift, Square;
    PowerDoubles(n);
  }

  lemma WholeOrder()
    ensures Power(32767) == 1
  {
    hide Power;
    PowerOfOne();
    Odd(1, 0x2, 0x8);
    Odd(3, 0x8, 0x80);
    Odd(7, 0x80, 0x8000);
    Odd(15, 0x8000, 0x1b98);
    Odd(31, 0x1b98, 0xd420);
    Odd(63, 0xd420, 0x577e);
    Odd(127, 0x577e, 0xcf04);
    Odd(255, 0xcf04, 0x9fe);
    Odd(511, 0x9fe, 0x1b62);
    Odd(1023, 0x1b62, 0x7ea8);
    Odd(2047, 0x7ea8, 0x554f);
    Odd(4095, 0x554f, 0x440e);
    Odd(8191, 0x440e, 0x222c);
    Odd(16383, 0x222c, 0x1);
  }

  lemma Seventh()
    ensures Power(4681) == 0x2C42
  {
    hide Power;
    PowerOfOne();
    Even(1, 0x2, 0x4);
    Even(2, 0x4, 0x10);
    Odd(4, 0x10, 0x200);
    Even(9, 0x200, 0x4084);
    Even(18, 0x4084, 0x4363);
    Odd(36, 0x4363, 0x8fa6);
    Even(73, 0x8fa6, 0x4388);
    Even(146, 0x4388, 0x1396);
    Odd(292, 0x1396, 0x4500);
    Even(585, 0x4500, 0x163);
    Even(1170, 0x163, 0x424);
    Odd(2340, 0x424, 0x2c42);
  }

  lemma ThirtyFirst()
    ensures Power(1057) == 0xF2AF
  {
    hide Power;
    PowerOfOne();
    Even(1, 0x2, 0x4);
    Even(2, 0x4, 0x10);
    Even(4, 0x10, 0x100);
    Even(8, 0x100, 0x1021);
    Odd(16, 0x1021, 0x6e60);
    Even(33, 0x6e60, 0xc1c6);
    Even(66, 0xc1c6, 0x4e8a);
    Even(132, 0x4e8a, 0x5946);
    Even(264, 0x5946, 0x78b3);
    Odd(528, 0x78b3, 0xf2af);
  }

  lemma HundredFiftyFirst()
    ensures Power(217) == 0x48E3
  {
    hide Power;
    PowerOfOne();
    Odd(1, 0x2, 0x8);
    Even(3, 0x8, 0x40);
    Odd(6, 0x40, 0x2000);
    Odd(13, 0x2000, 0x89a9);
    Even(27, 0x89a9, 0x1168);
    Even(54, 0x1168, 0x3750);
    Odd(108, 0x3750, 0x48e3);
  }

  // ---- The order of x ----

  /** The powers that are 1 are closed under sums and differences. */
  lemma {:induction false} PowerMultiple(g: nat, k: nat)
    requires Power(g) == 1
    ensures Power(g * k) == 1
  {
    hide Shift;
    if k != 0 {
      PowerMultiple(g, k - 1);
      ShiftsAdd(1, g * (k - 1), g);
      assert g * k == g * (k - 1) + g;
    }
  }

  lemma PowerDifference(a: nat, b: nat)
    requires Power(a) == 1 && Power(b) == 1 && a >= b
    ensures Power(a - b) == 1
  {
    hide Shift;
    ShiftsAdd(1, b, a - b);
  }

  /** A common divisor of two exponents whose powers are 1, by repeated subtraction. */
  lemma {:induction false} CommonDivisor(a: nat, b: nat) returns (g: nat, p: nat, q: nat)
    requires a > 0 && b > 0 && Power(a) == 1 && Power(b) == 1
    ensures g > 0 && a == g * p && b == g * q && Power(g) == 1
    decreases a + b
  {
    hide Power;
    if a == b {
      g, p, q := a, 1, 1;
    } else if a > b {
      PowerDifference(a, b);
      g, p, q := CommonDivisor(a - b, b);
      p := p + q;
    } else {
      PowerDifference(b, a);
      g, p, q := CommonDivisor(a, b - a);
      q := p + q;
    }
  }

  /** A greatest common divisor is an integer combination. */
  lemma {:induction false} Combination(a: nat, b: nat) returns (g: nat, p: nat, q: nat, s: int, t: int)
    requires a > 0 && b > 0
    ensures g > 0 && a == g * p && b == g * q && g == s * a + t * b
    decreases a + b
  {
    if a == b {
      g, p, q, s, t := a, 1, 1, 1, 0;
    } else if a > b {
      g, p, q, s, t := Combination(a - b, b);
      assert s * (a - b) + t * b == s * a + (t - s) * b;
      p, t := p + q, t - s;
    } else {
      g, p, q, s, t := Combination(a, b - a);
      assert s * a + t * (b - a) == (s - t) * a + t * b;
      q, s := p + q, s - t;
    }
  }

  ghost predicate Prime(p: nat) {
    p > 1 && forall h: nat, k: nat :: h * k == p ==> h == 1 || k == 1
  }

  /** A prime that divides a product divides one of its factors. */
  lemma Euclid(p: nat, a: nat, b: nat, n: nat) returns (inFirst: bool, d: nat)
    requires Prime(p) && a > 0 && a * b == p * n
    ensures if inFirst then a == p * d && d * b == n else b == p * d && a * d == n
  {
    var g, u, v, s, t := Combination(p, a);
    assert g == 1 || u == 1;
    if g == 1 {
      inFirst := false;
      var m := s * b + t * n;
      Coprime(p, a, b, n, s, t);
      FactorIsNat(p, m, b);
      d := m;
      Regroup(a, p, d);
      Cancel(p, a * d, n);
    } else {
      inFirst, d := true, v;
      Regroup(b, p, d);
      Cancel(p, d * b, n);
    }
  }

  lemma Regroup(a: nat, p: nat, d: nat)
    ensures a * (p * d) == p * (a * d) && (p * d) * a == p * (d * a)
  {
  }

  lemma Coprime(p: nat, a: nat, b: nat, n: nat, s: int, t: int)
    requires s * p + t * a == 1 && a * b == p * n
    ensures b == p * (s * b + t * n)
  {
    assert (s * p + t * a) * b == (s * p) * b + (t * a) * b;
    assert (s * p) * b == p * (s * b);
    assert (t * a) * b == t * (a * b);
    assert t * (p * n) == p * (t * n);
    assert p * (s * b) + p * (t * n) == p * (s * b + t * n);
  }

  lemma FactorIsNat(p: nat, m: int, b: nat)
    requires p > 0 && b == p * m
    ensures m >= 0
  {
    if m < 0 {
      NegativeProduct(p, m);
    }
  }

  lemma NegativeProduct(p: nat, m: int)
    requires p > 0 && m < 0
    ensures p * m < 0
  {
    ProductGrows(-m, p);
    assert p * m == -(p * (-m));
  }

  lemma ProductsDiffer(p: nat, x: int, y: int)
    requires p > 0 && x < y
    ensures p * x < p * y
  {
    ProductGrows(y - x, p);
    assert p * y == p * x + p * (y - x);
  }

  lemma Cancel(p: nat, x: int, y: int)
    requires p > 0 && p * x == p * y
    ensures x == y
  {
    if x < y {
      ProductsDiffer(p, x, y);
    } else if y < x {
      ProductsDiffer(p, y, x);
    }
  }

  /** None of 2 to n divides p. */
  predicate Undivided(p: nat, n: nat) {
    n < 2 || (p % n != 0 && Undivided(p, n - 1))
  }

  lemma {:induction false} UndividedBelow(p: nat, n: nat, h: nat)
    requires Undivided(p, n) && 2 <= h <= n
    ensures p % h != 0
    decreases n
  {
    if h < n {
      UndividedBelow(p, n - 1, h);
    }
  }

  lemma LargeProduct(n: nat, h: nat, k: nat)
    requires n < h && n < k
    ensures h * k >= (n + 1) * (n + 1)
  {
    assert h * k == (n + 1) * (n + 1) + (n + 1) * (k - n - 1) + (h - n - 1) * k;
    ProductOfNats(n + 1, k - n - 1);
    ProductOfNats(h - n - 1, k);
  }

  lemma ProductOfNats(a: nat, b: nat)
    ensures a * b >= 0
  {
  }

  lemma NoRemainder(h: nat, q: nat, r: nat, k: nat)
    requires r < h && h * q + r == h * k
    ensures r == 0
  {
    if q < k {
      assert h * k == h * q + h * (k - q);
      ProductGrows(h, k - q);
    } else if k < q {
      ProductsDiffer(h, k, q);
    }
  }

  lemma DividesProduct(h: nat, k: nat, p: nat)
    requires h > 0 && h * k == p
    ensures p % h == 0
  {
    NoRemainder(h, p / h, p % h, k);
  }

  /** Trial division up to the square root. */
  lemma PrimeByTrial(p: nat, n: nat)
    requires p > 1 && n > 0 && p < (n + 1) * (n + 1) && Undivided(p, n)
    ensures Prime(p)
  {
    forall h: nat, k: nat | h * k == p
      ensures h == 1 || k == 1
    {
      if h <= n {
        SmallFactor(p, n, h, k);
      } else if k <= n {
        SmallFactor(p, n, k, h);
      } else {
        LargeProduct(n, h, k);
      }
    }
  }

  lemma SmallFactor(p: nat, n: nat, h: nat, k: nat)
    requires p > 1 && Undivided(p, n) && h <= n && h * k == p
    ensures h == 1
  {
    if h > 1 {
      DividesProduct(h, k, p);
      UndividedBelow(p, n, h);
    }
  }

  lemma PrimeFactors()
    ensures Prime(7) && Prime(31) && Prime(151)
  {
    hide Prime;
    PrimeByTrial(7, 2);
    PrimeByTrial(31, 5);
    PrimeByTrial(151, 12);
  }

  lemma DivisorIsWhole(g: nat, q: nat)
    requires g * q == ORDER && Power(g) == 1 && q > 0
    ensures g == ORDER
  {
    hide Power, Prime;
    PrimeFactors();
    assert g * q == 7 * 4681;
    var in7, d := Euclid(7, q, g, 4681);
    if in7 {
      PowerMultiple(g, d);
      Seventh();
    } else {
      assert q * d == 31 * 151;
      var in31, e := Euclid(31, q, d, 151);
      if in31 {
        PowerMultiple(g, e);
        Thirtieth(d, e);
        ThirtyFirst();
      } else {
        LastFactor(g, q, e);
      }
    }
  }

  lemma Thirtieth(d: nat, e: nat)
    requires e * d == 151
    ensures (7 * d) * e == 1057
  {
    assert (7 * d) * e == 7 * (e * d);
  }

  lemma LastFactor(g: nat, q: nat, e: nat)
    requires g == 217 * e && q * e == 151 && Power(g) == 1 && q > 0
    ensures g == ORDER
  {
    hide Power, Prime;
    PrimeFactors();
    assert Prime(151);
    OneIs(q, e);
    if e == 1 {
      HundredFiftyFirst();
    }
  }

  lemma OneIs(q: nat, e: nat)
    requires q * e == 151
    ensures e == 1 || e == 151
  {
    PrimeFactors();
    assert Prime(151);
    assert q == 1 || e == 1;
  }

  /** The order of x modulo the generator. */
  lemma PowerIsOne(d: nat)
    ensures Power(d) == 1 <==> d % ORDER == 0
  {
    hide Power;
    WholeOrder();
    if d % ORDER == 0 {
      PowerMultiple(ORDER, d / ORDER);
    } else if Power(d) == 1 {
      var g, p, q := CommonDivisor(d, ORDER);
      DivisorIsWhole(g, q);
      MultipleOf(d, p);
    }
  }

  lemma MultipleOf(d: nat, p: nat)
    requires d == ORDER * p
    ensures d % ORDER == 0
  {
  }

  // ---- Two flipped bits ----

  /** The errors are exactly bits i and j. */
  predicate TwoBits(e: seq<bit>, i: nat, j: nat) {
    i < j < |e| && forall k | 0 <= k < |e| :: e[k] == 1 <==> k == i || k == j
  }

  lemma TwoBitsSpelled(e: seq<bit>, i: nat, j: nat)
    requires TwoBits(e, i, j)
    ensures e == ZeroBits(i) + [1] + ZeroBits(j - i - 1) + [1] + ZeroBits(|e| - 1 - j)
  {
    var f := ZeroBits(i) + [1] + ZeroBits(j - i - 1) + [1] + ZeroBits(|e| - 1 - j);
    forall k | 0 <= k < |e|
      ensures e[k] == f[k]
    {
      BitIsZeroOrOne(e[k]);
    }
  }

  lemma {:induction false} FeedZeros(r: bv16, n: nat)
    ensures Feed(r, ZeroBits(n)) == Shifts(r, n)
  {
    hide FeedBit, Shift;
    if n != 0 {
      FeedZeros(r, n - 1);
      assert ZeroBits(n) == ZeroBits(n - 1) + [0];
      FeedSnoc(r, ZeroBits(n - 1), 0);
      FeedZero(Shifts(r, n - 1));
    }
  }

  lemma FeedZero(r: bv16)
    ensures FeedBit(r, 0) == Shift(r)
  {
  }

  lemma FeedBitOne(r: bv16)
    ensures FeedBit(r, 1) == Shift(r ^ 0x8000)
  {
  }

  lemma ShiftTop()
    ensures Shift(0x8000) == 0x1021 && Shift(0) == 0 && Xor(0, 0x1021) == 0x1021
  {
  }

  lemma FeedOne(r: bv16)
    ensures FeedBit(r, 1) == Xor(Shift(r), 0x1021)
  {
    hide Shift, FeedBit;
    FeedBitOne(r);
    ShiftLinear(r, 0x8000);
    ShiftTop();
  }

  lemma {:induction false} ShiftsOfZero(n: nat)
    ensures Shifts(0, n) == 0
  {
    if n != 0 {
      ShiftsOfZero(n - 1);
    }
  }

  lemma Sixteen()
    ensures Power(16) == 0x1021
  {
    hide Power;
    PowerOfOne();
    Even(1, 0x2, 0x4);
    Even(2, 0x4, 0x10);
    Even(4, 0x10, 0x100);
    Even(8, 0x100, 0x1021);
  }

  lemma FedTwoBits(i: nat, m: nat, n: nat)
    ensures Feed(0, ZeroBits(i) + [1] + ZeroBits(m) + [1] + ZeroBits(n))
         == Shifts(Xor(Shifts(0x1021, m + 1), 0x1021), n)
  {
    hide FeedBit, Shift, Feed, Xor;
    ShiftTop();
    FeedZeros(0, i);
    ShiftsOfZero(i);
    FeedSnoc(0, ZeroBits(i), 1);
    FeedOne(0);
    FeedConcat(0, ZeroBits(i) + [1], ZeroBits(m));
    FeedZeros(0x1021, m);
    FeedSnoc(0, ZeroBits(i) + [1] + ZeroBits(m), 1);
    FeedOne(Shifts(0x1021, m));
    FeedConcat(0, ZeroBits(i) + [1] + ZeroBits(m) + [1], ZeroBits(n));
    FeedZeros(Xor(Shifts(0x1021, m + 1), 0x1021), n);
  }

  lemma XorIsZero(a: bv16, b: bv16)
    ensures Xor(a, b) == 0 ==> a == b
    ensures a == b ==> Xor(a, b) == 0
  {
  }

  lemma ShiftsBack(d: nat)
    ensures Shifts(0x1021, d) == 0x1021 <==> Power(d) == 1
  {
    hide Shift;
    Sixteen();
    ShiftsAdd(1, 16, d);
    ShiftsAdd(1, d, 16);
    if Shifts(0x1021, d) == 0x1021 {
      ShiftsInjective(Power(d), 1, 16);
    }
  }

  lemma UnnoticedWord(e: seq<bit>)
    ensures Unnoticed(e) <==> Feed(0, e) == 0
  {
    hide Run, Feed, TopBits;
    FeedDivides(0, e);
    TopBitsOfZero();
    if TopBits(Feed(0, e), 16) == EMPTY {
      TopBitsInjective(Feed(0, e), 0);
    }
  }

  lemma TopBitsOfZero()
    ensures TopBits(0, 16) == EMPTY
  {
    forall i | 0 <= i < 16
      ensures TopBits(0, 16)[i] == 0
    {
      TopBitAt(0, 16, i);
    }
  }

  /** Two flipped bits go unnoticed exactly when their distance is a multiple of 32767. */
  lemma DoubleErrorIff(e: seq<bit>, i: nat, j: nat)
    requires TwoBits(e, i, j)
    ensures Unnoticed(e) <==> (j - i) % ORDER == 0
  {
    hide Unnoticed, Power, Feed, Shifts, Xor;
    var n := |e| - 1 - j;
    var r := Xor(Shifts(0x1021, j - i), 0x1021);
    TwoBitsSpelled(e, i, j);
    FedTwoBits(i, j - i - 1, n);
    UnnoticedWord(e);
    ShiftsOfZero(n);
    if Shifts(r, n) == 0 {
      ShiftsInjective(r, 0, n);
    }
    XorIsZero(Shifts(0x1021, j - i), 0x1021);
    ShiftsBack(j - i);
    PowerIsOne(j - i);
  }

  lemma {:induction false} OneOne(e: seq<bit>) returns (i: nat)
    requires Ones(e) == 1
    ensures i < |e| && forall k | 0 <= k < |e| :: e[k] == 1 <==> k == i
  {
    if e[0] == 1 {
      i := 0;
      NoOnes(e[1..]);
    } else {
      i := OneOne(e[1..]);
      i := i + 1;
    }
  }

  lemma {:induction false} NoOnes(e: seq<bit>)
    requires Ones(e) == 0
    ensures forall k | 0 <= k < |e| :: e[k] != 1
  {
    if e != [] {
      NoOnes(e[1..]);
    }
  }

  lemma {:induction false} TwoOnes(e: seq<bit>) returns (i: nat, j: nat)
    requires Ones(e) == 2
    ensures TwoBits(e, i, j)
  {
    if e[0] == 1 {
      i := 0;
      j := OneOne(e[1..]);
    } else {
      i, j := TwoOnes(e[1..]);
      i := i + 1;
    }
    j := j + 1;
  }

  /** Every frame of up to 4095 bytes with one, two or three flipped bits is rejected. */
  lemma FewErrorsDetected(sent: seq<byte>, got: seq<byte>)
    requires Check(sent) && |got| == |sent| <= 4095
    requires 1 <= Ones(Errors(sent, got)) <= 3
    ensures !Check(got)
  {
    hide Check, Ones;
    var e := Errors(sent, got);
    UndetectedIff(sent, got);
    if Ones(e) == 2 {
      var i, j := TwoOnes(e);
      DoubleErrorIff(e, i, j);
    } else {
      OddDetected(sent, got);
    }
  }

  // ---- The bound is tight ----

  lemma FlippedTop(b: byte, k: nat)
    requires k < 8
    ensures BitAt(b ^ 0x80, k) ^ BitAt(b, k) == if k == 7 then 1 else 0
    ensures BitAt(b ^ 0x01, k) ^ BitAt(b, k) == if k == 0 then 1 else 0
  {
    if k == 0 {
    } else if k == 1 {
    } else if k == 2 {
    } else if k == 3 {
    } else if k == 4 {
    } else if k == 5 {
    } else if k == 6 {
    } else {
    }
  }

  lemma ErrorAt(sent: seq<byte>, got: seq<byte>, q: nat, r: nat)
    requires |got| == |sent| && q < |sent| && r < 8
    ensures Errors(sent, got)[8 * q + r] == BitAt(sent[q], 7 - r) ^ BitAt(got[q], 7 - r)
  {
    hide BitAt, Bits, Bits8;
    BitsAt(sent, q, r);
    BitsAt(got, q, r);
    BitFromTop(sent[q], 7 - r);
    BitFromTop(got[q], 7 - r);
    assert 7 - (7 - r) == r;
  }

  lemma XorBit(a: bit, b: bit)
    ensures a ^ b == b ^ a
  {
  }

  /** Flipping the first bit and the one 32767 further on. */
  function FarFlip(sent: seq<byte>): (got: seq<byte>)
    requires |sent| > 4095
    ensures |got| == |sent|
  {
    sent[0 := sent[0] ^ 0x80][4095 := sent[4095] ^ 0x01]
  }

  lemma FarFlipAt(sent: seq<byte>, q: nat, r: nat)
    requires |sent| > 4095 && q < |sent| && r < 8
    ensures Errors(sent, FarFlip(sent))[8 * q + r] == if (q == 0 && r == 0) || (q == 4095 && r == 7) then 1 else 0
  {
    hide BitAt, Errors;
    var got := FarFlip(sent);
    if q == 0 || q == 4095 {
      ErrorAt(sent, got, q, r);
      FlippedTop(sent[q], 7 - r);
      XorBit(BitAt(sent[q], 7 - r), BitAt(got[q], 7 - r));
    } else {
      EqualBytesNoError(sent, got, q, r);
    }
  }

  lemma FarFlipIsTwoBits(sent: seq<byte>)
    requires |sent| > 4095
    ensures TwoBits(Errors(sent, FarFlip(sent)), 0, ORDER)
  {
    var e := Errors(sent, FarFlip(sent));
    hide Errors, FarFlip;
    forall k | 0 <= k < |e|
      ensures e[k] == 1 <==> k == 0 || k == ORDER
    {
      FarFlipAt(sent, k / 8, k % 8);
    }
  }

  lemma {:induction false} OnesOfOne(e: seq<bit>, i: nat)
    requires i < |e| && forall k | 0 <= k < |e| :: e[k] == 1 <==> k == i
    ensures Ones(e) == 1
  {
    if i == 0 {
      ZeroOnes(e[1..]);
    } else {
      OnesOfOne(e[1..], i - 1);
    }
  }

  lemma {:induction false} ZeroOnes(e: seq<bit>)
    requires forall k | 0 <= k < |e| :: e[k] != 1
    ensures Ones(e) == 0
  {
    if e != [] {
      ZeroOnes(e[1..]);
    }
  }

  /** A frame too long for the distance argument, damaged in two bits without notice. */
  lemma FarFlipUnnoticed(sent: seq<byte>)
    requires |sent| > 4095 && Check(sent)
    ensures Check(FarFlip(sent)) && Ones(Errors(sent, FarFlip(sent))) == 2
  {
    var e := Errors(sent, FarFlip(sent));
    FarFlipIsTwoBits(sent);
    hide Check, Errors, FarFlip;
    UndetectedIff(sent, FarFlip(sent));
    DoubleErrorIff(e, 0, ORDER);
    OnesOfOne(e[1..], ORDER - 1);
  }

  /** All errors of one to three bits are sure to be detected exactly in frames of at most 4095 bytes. */
  lemma FewErrorsIff(n: nat)
    ensures (forall sent: seq<byte>, got: seq<byte> {:trigger Check(sent), Check(got)} ::
               |sent| == n && |got| == n && Check(sent) && 1 <= Ones(Errors(sent, got)) <= 3 ==> !Check(got))
            <==> n <= 4095
  {
    hide Check, Errors, Ones, FarFlip;
    if n <= 4095 {
      forall sent: seq<byte>, got: seq<byte>
        | |sent| == n && |got| == n && Check(sent) && 1 <= Ones(Errors(sent, got)) <= 3
        ensures !Check(got)
      {
        FewErrorsDetected(sent, got);
      }
    } else {
      var sent := Sealed(seq(n - 2, _ => 0));
      SealedChecks(seq(n - 2, _ => 0));
      FarFlipUnnoticed(sent);
      assert Check(sent) && Check(FarFlip(sent));
    }
  }
}
