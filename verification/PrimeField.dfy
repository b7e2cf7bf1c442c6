/** The Goldilocks modulus is prime, so a wrong round message has at most two lucky challenges. */
module PrimeField {
  import opened Arith
  import opened Goldilocks
  import E = Economics

  // ----- powers modulo any n ------------------------------------------------------------------------------

  /** b^e mod n */
  function Power(b: nat, e: nat, n: nat): (r: nat)
    requires n > 0
    ensures r < n
  {
    if e == 0 then 1 % n else Power(b, e - 1, n) * b % n
  }

  lemma ShiftMod(x: int, k: int, n: int)
    requires n > 0
    ensures (x + k * n) % n == x % n
  {
    DivMod(x, n);
    MulDistrib(x / n, k, n);
    EuclidUnique(x + k * n, n, x / n + k, x % n);
  }

  /** A factor may be reduced first. */
  lemma FactorMod(x: int, y: int, n: int)
    requires n > 0
    ensures (x % n) * y % n == x * y % n
  {
    DivMod(x, n);
    var q, r := x / n, x % n;
    MulDistrib(q * n, r, y);
    MulAssoc(q, n, y);
    MulAssoc(q, y, n);
    ShiftMod(r * y, q * y, n);
  }

  lemma ProductMod(x: int, y: int, z: int, n: int)
    requires n > 0
    ensures (x * y % n) * z % n == x * (y * z % n) % n
  {
    FactorMod(x * y, z, n);
    FactorMod(y * z, x, n);
    MulAssoc(x, y, z);
  }

  lemma PowerStep(b: nat, e: nat, n: nat)
    requires n > 0
    ensures Power(b, e, n) == if e == 0 then 1 % n else Power(b, e - 1, n) * b % n
  {
  }

  lemma TimesOne(x: nat, n: nat)
    requires x < n
    ensures x * (1 % n) % n == x
  {
    if n > 1 { EuclidUnique(1, n, 0, 1); }
    assert x * (1 % n) == x;
    EuclidUnique(x, n, 0, x);
  }

  lemma {:induction false} PowerAdd(b: nat, e: nat, f: nat, n: nat)
    requires n > 0
    ensures Power(b, e + f, n) == Power(b, e, n) * Power(b, f, n) % n
  {
    hide Power;
    PowerStep(b, e + f, n);
    PowerStep(b, f, n);
    var x := Power(b, e, n);
    if f == 0 {
      TimesOne(x, n);
    } else {
      PowerAdd(b, e, f - 1, n);
      var y := Power(b, f - 1, n);
      calc {
        Power(b, e + f, n);
        Power(b, e + (f - 1), n) * b % n;
        (x * y % n) * b % n;
        { ProductMod(x, y, b, n); }
        x * (y * b % n) % n;
        x * Power(b, f, n) % n;
      }
    }
  }

  lemma {:induction false} PowerMul(b: nat, e: nat, f: nat, n: nat)
    requires n > 0
    ensures e * f >= 0 && Power(b, e * f, n) == Power(Power(b, e, n), f, n)
  {
    MulNonneg(e, f);
    if f > 0 {
      MulNonneg(e, f - 1);
      PowerMul(b, e, f - 1, n);
      MulDistrib(f - 1, 1, e);
      PowerAdd(b, e * (f - 1), e, n);
    }
  }

  /** Reduction modulo a divisor commutes with powers. */
  lemma {:induction false} PowerDivisor(b: nat, e: nat, q: nat, k: nat)
    requires q > 0 && k > 0 && q * k > 0
    ensures Power(b, e, q * k) % q == Power(b, e, q)
  {
    var n := q * k;
    if e == 0 {
      ModOfMod(1, q, k);
    } else {
      PowerDivisor(b, e - 1, q, k);
      ModOfMod(Power(b, e - 1, n) * b, q, k);
      FactorMod(Power(b, e - 1, n), b, q);
    }
  }

  lemma ModOfMod(x: int, q: nat, k: nat)
    requires q > 0 && q * k > 0
    ensures x % (q * k) % q == x % q
  {
    var n := q * k;
    DivMod(x, n);
    MulAssoc(x / n, k, q);
    ShiftMod(x % n, (x / n) * k, q);
  }

  // ----- the certificate ------------------------------------------------------------------------------------

  /** A root of unity of order 2^32. */
  const ROOT: nat := 0x185629dcda58878c

  /** x^(2^k) modulo P */
  function SquareTimes(x: nat, k: nat): nat {
    if k == 0 then x % P else SquareTimes(x, k - 1) * SquareTimes(x, k - 1) % P
  }

  lemma SquareStep(k: nat, half: nat, whole: nat)
    requires SquareTimes(ROOT, k) == half && half * half % P == whole
    ensures SquareTimes(ROOT, k + 1) == whole
  {
  }

  lemma Certificate0()
    ensures SquareTimes(ROOT, 8) == 0x86cdcc31c307e171
  {
    hide SquareTimes;
    FirstSquare();
    SquareStep(0, 0x185629dcda58878c, 0x400a7f755588e659);
    SquareStep(1, 0x400a7f755588e659, 0x7e9bd009b86a0845);
    SquareStep(2, 0x7e9bd009b86a0845, 0xdfa8c93ba46d2666);
    SquareStep(3, 0xdfa8c93ba46d2666, 0x59049500004a4485);
    SquareStep(4, 0x59049500004a4485, 0x10d78dd8915a171d);
    SquareStep(5, 0x10d78dd8915a171d, 0xed41d05b78d6e286);
    SquareStep(6, 0xed41d05b78d6e286, 0x4bbaf5976ecfefd8);
    SquareStep(7, 0x4bbaf5976ecfefd8, 0x86cdcc31c307e171);
  }

  lemma Certificate1()
    ensures SquareTimes(ROOT, 16) == 0x54df9630bf79450e
  {
    hide SquareTimes;
    Certificate0();
    SquareStep(8, 0x86cdcc31c307e171, 0xea9d5a1336fbc98b);
    SquareStep(9, 0xea9d5a1336fbc98b, 0x4b2a18ade67246b5);
    SquareStep(10, 0x4b2a18ade67246b5, 0xf502aef532322654);
    SquareStep(11, 0xf502aef532322654, 0x30ba2ecd5e93e76d);
    SquareStep(12, 0x30ba2ecd5e93e76d, 0xfbd41c6b8caa3302);
    SquareStep(13, 0xfbd41c6b8caa3302, 0x81281a7b05f9beac);
    SquareStep(14, 0x81281a7b05f9beac, 0xabd0a6e8aa3d8a0e);
    SquareStep(15, 0xabd0a6e8aa3d8a0e, 0x54df9630bf79450e);
  }

  lemma Certificate2()
    ensures SquareTimes(ROOT, 24) == 0xbf79143ce60ca966
  {
    hide SquareTimes;
    Certificate1();
    SquareStep(16, 0x54df9630bf79450e, 0xf6b2cffe2306baac);
    SquareStep(17, 0xf6b2cffe2306baac, 0xe0ee099310bba1e2);
    SquareStep(18, 0xe0ee099310bba1e2, 0x1544ef2335d17997);
    SquareStep(19, 0x1544ef2335d17997, 0xf2c35199959dfcb6);
    SquareStep(20, 0xf2c35199959dfcb6, 0x653b4801da1c8cf);
    SquareStep(21, 0x653b4801da1c8cf, 0x9d8f2ad78bfed972);
    SquareStep(22, 0x9d8f2ad78bfed972, 0x1905d02a5c411f4e);
    SquareStep(23, 0x1905d02a5c411f4e, 0xbf79143ce60ca966);
  }

  lemma Certificate3()
    ensures SquareTimes(ROOT, 31) == P - 1
  {
    hide SquareTimes;
    Certificate2();
    SquareStep(24, 0xbf79143ce60ca966, 0xf80007ff08000001);
    SquareStep(25, 0xf80007ff08000001, 0x8000000000);
    SquareStep(26, 0x8000000000, 0x3fffffffc000);
    SquareStep(27, 0x3fffffffc000, 0xefffffff00000001);
    SquareStep(28, 0xefffffff00000001, 0xfffffffeff000001);
    SquareStep(29, 0xfffffffeff000001, 0x1000000000000);
    SquareStep(30, 0x1000000000000, 0xffffffff00000000);
  }

  lemma FirstSquare()
    ensures SquareTimes(ROOT, 0) == ROOT
  {
  }

  lemma {:induction false} SquaresArePowers(k: nat)
    ensures SquareTimes(ROOT, k) == Power(ROOT, Pow2(k), P)
  {
    if k == 0 {
      PowerStep(ROOT, 1, P);
      PowerStep(ROOT, 0, P);
    } else {
      SquaresArePowers(k - 1);
      PowerAdd(ROOT, Pow2(k - 1), Pow2(k - 1), P);
    }
  }

  // ----- powers of the root modulo a divisor ----------------------------------------------------------------

  /** q is a divisor of P other than one. */
  ghost predicate Factor(q: nat, k: nat) { q > 1 && k > 0 && q * k == P }

  /** The root's powers modulo q. */
  ghost function F(q: nat, e: nat): nat
    requires q > 1
  {
    Power(ROOT, e, q)
  }

  lemma HalfwayIsMinusOne(q: nat, k: nat)
    requires Factor(q, k)
    ensures F(q, Pow2(31)) == q - 1 && q > 2
  {
    hide Power, SquareTimes, Pow2;
    SquaresArePowers(31);
    Certificate3();
    PowerDivisor(ROOT, Pow2(31), q, k);
    LastResidue(q, k);
    OddModulus(k);
  }

  lemma LastResidue(q: nat, k: nat)
    requires q > 1 && q * k == P
    ensures (P - 1) % q == q - 1
  {
    ShiftMod(-1, k, q);
    EuclidUnique(-1, q, -1, q - 1);
  }

  lemma OddModulus(k: nat)
    ensures 2 * k != P
  {
  }

  /** (-1)^i */
  lemma {:induction false} MinusOnePower(q: nat, i: nat)
    requires q > 2
    ensures Power(q - 1, i, q) == if i % 2 == 0 then 1 else q - 1
  {
    hide Power;
    PowerStep(q - 1, i, q);
    if i > 0 {
      MinusOnePower(q, i - 1);
      MinusTimes(q);
    } else {
      EuclidUnique(1, q, 0, 1);
    }
  }

  lemma MinusTimes(q: nat)
    requires q > 2
    ensures (q - 1) * (q - 1) % q == 1 && 1 * (q - 1) % q == q - 1
  {
    calc {
      (q - 1) * (q - 1);
      { MulDistrib(q, 1, q - 1); }
      q * (q - 1) - (q - 1);
      { MulDistrib(q - 2, 1, q); }
      (q - 2) * q + 1;
    }
    EuclidUnique((q - 1) * (q - 1), q, q - 2, 1);
    EuclidUnique(q - 1, q, 0, q - 1);
  }

  lemma {:induction false} OnePower(i: nat, q: nat)
    requires q > 1
    ensures Power(1, i, q) == 1
  {
    EuclidUnique(1, q, 0, 1);
    PowerStep(1, i, q);
    if i > 0 { OnePower(i - 1, q); }
  }

  lemma FullTurn(q: nat, k: nat)
    requires Factor(q, k)
    ensures F(q, Pow2(32)) == 1
  {
    hide Power, Pow2;
    HalfwayIsMinusOne(q, k);
    assert Pow2(32) == Pow2(31) * 2 by { DoublePow2(31); }
    PowerMul(ROOT, Pow2(31), 2, q);
    MinusOnePower(q, 2);
  }

  lemma DoublePow2(k: nat)
    ensures Pow2(k + 1) == Pow2(k) * 2 == 2 * Pow2(k)
  {
  }

  /** No power below 2^32 returns to one: halve an even exponent, raise an odd one to -1. */
  lemma {:induction false} NotOne(q: nat, k: nat, m: nat, s: nat)
    requires Factor(q, k) && s <= 31 && 0 < m < Pow2(s + 1)
    ensures m * Pow2(31 - s) >= 0 && F(q, m * Pow2(31 - s)) != 1
    decreases s
  {
    hide Power, Pow2;
    MulNonneg(m, Pow2(31 - s));
    if m % 2 == 0 {
      DoublePow2(s);
      EvenHalves(m, s);
      NotOne(q, k, m / 2, s - 1);
    } else {
      HalfwayIsMinusOne(q, k);
      var e := m * Pow2(31 - s);
      Pow2Add(31 - s, s);
      MulAssoc(m, Pow2(31 - s), Pow2(s));
      assert e * Pow2(s) == Pow2(31) * m;
      PowerMul(ROOT, e, Pow2(s), q);
      PowerMul(ROOT, Pow2(31), m, q);
      MinusOnePower(q, m);
      OnePower(Pow2(s), q);
    }
  }

  lemma EvenHalves(m: nat, s: nat)
    requires s <= 31 && 0 < m < Pow2(s + 1) && m % 2 == 0
    ensures s > 0 && 0 < m / 2 < Pow2(s) && (m / 2) * Pow2(31 - (s - 1)) == m * Pow2(31 - s)
  {
    hide Pow2;
    DoublePow2(s);
    if s == 0 { assert Pow2(0) == 1 by { Pow2Zero(); } }
    DoublePow2(31 - s);
    MulAssoc(m / 2, 2, Pow2(31 - s));
  }

  lemma Pow2Zero()
    ensures Pow2(0) == 1
  {
  }

  /** Every power has an inverse among the powers. */
  lemma PowerInverse(q: nat, k: nat, i: nat)
    requires Factor(q, k) && i <= Pow2(32)
    ensures F(q, i) * F(q, Pow2(32) - i) % q == 1
    ensures F(q, i) > 0
  {
    hide Power, Pow2;
    PowerAdd(ROOT, i, Pow2(32) - i, q);
    FullTurn(q, k);
    if F(q, i) == 0 { EuclidUnique(0, q, 0, 0); }
  }

  lemma PowersDistinct(q: nat, k: nat, i: nat, j: nat)
    requires Factor(q, k) && i < j < Pow2(32)
    ensures F(q, i) != F(q, j)
  {
    hide Power, Pow2;
    if F(q, i) == F(q, j) {
      var back := Pow2(32) - i;
      PowerInverse(q, k, i);
      PowerAdd(ROOT, j, back, q);
      PowerAdd(ROOT, Pow2(32), j - i, q);
      FullTurn(q, k);
      EuclidUnique(F(q, j - i), q, 0, F(q, j - i));
      Pow2Zero();
      NotOne(q, k, j - i, 31);
    }
  }

  // ----- pigeonhole -------------------------------------------------------------------------------------------

  ghost function Values(q: nat, n: nat): set<int>
    requires q > 1
  {
    if n == 0 then {} else Values(q, n - 1) + {F(q, n - 1)}
  }

  ghost function Positive(n: nat): set<int> {
    if n == 0 then {} else Positive(n - 1) + {n}
  }

  lemma {:induction false} PositiveSet(n: nat)
    ensures |Positive(n)| == n && forall x :: x in Positive(n) <==> 1 <= x <= n
  {
    if n > 0 { PositiveSet(n - 1); }
  }

  lemma {:induction false} ValuesCount(q: nat, k: nat, n: nat)
    requires Factor(q, k) && n <= Pow2(32)
    ensures |Values(q, n)| == n
    ensures forall x :: x in Values(q, n) ==> 1 <= x < q
    ensures forall x :: x in Values(q, n) ==> exists i :: 0 <= i < n && F(q, i) == x
  {
    hide F, Pow2;
    if n > 0 {
      ValuesCount(q, k, n - 1);
      var last := F(q, n - 1);
      PowerInRange(q, k, n - 1);
      if last in Values(q, n - 1) {
        var i :| 0 <= i < n - 1 && F(q, i) == last;
        PowersDistinct(q, k, i, n - 1);
        assert false;
      }
    }
  }

  lemma PowerInRange(q: nat, k: nat, i: nat)
    requires Factor(q, k) && i <= Pow2(32)
    ensures 1 <= F(q, i) < q
  {
    PowerInverse(q, k, i);
  }

  lemma SubsetSize(a: set<int>, b: set<int>)
    requires a <= b
    ensures |a| <= |b|
  {
    assert b == a + (b - a);
  }

  /** A proper divisor would have to exceed 2^32. */
  lemma FactorIsLarge(q: nat, k: nat)
    requires Factor(q, k)
    ensures q > Pow2(32)
  {
    hide Pow2, Values, Positive;
    ValuesCount(q, k, Pow2(32));
    PositiveSet(q - 1);
    forall x | x in Values(q, Pow2(32)) ensures x in Positive(q - 1) {
      assert 1 <= x < q;
    }
    SubsetSize(Values(q, Pow2(32)), Positive(q - 1));
  }

  lemma Pow2Value()
    ensures Pow2(32) == 0x1_0000_0000
  {
    assert Pow2(8) == 256;
    Pow2Add(8, 8);
    Pow2Add(16, 16);
  }

  /** The modulus has no proper factorization. */
  lemma ModulusIsPrime(q: nat, k: nat)
    requires q > 1 && k > 1
    ensures q * k != P
  {
    hide Pow2;
    if q * k == P {
      FactorIsLarge(q, k);
      FactorIsLarge(k, q);
      Pow2Value();
      MulMono(0x1_0000_0001, q, k);
      MulMono(0x1_0000_0001, k, 0x1_0000_0001);
    }
  }

  // ----- a field ------------------------------------------------------------------------------------------------

  ghost predicate Null(x: int) { x % P == 0 }

  lemma NullMultiple(k: int)
    ensures Null(k * P)
  {
    ShiftMod(0, k, P);
  }

  lemma NullWitness(x: int) returns (k: int)
    requires Null(x)
    ensures x == k * P
  {
    DivMod(x, P);
    k := x / P;
  }

  /** x has an inverse when it is not null. */
  lemma InverseExists(x: nat) returns (u: int, v: int)
    requires 0 < x < P
    ensures u * x + v * P == 1
  {
    u, v := E.Bezout(x, P);
    var g := E.Gcd(x, P);
    E.GcdPositive(x, P);
    E.GcdDivides(x, P);
    var k := E.DivisorWitness(g, P);
    var j := E.DivisorWitness(g, x);
    if g > 1 {
      MulSign(k, g);
      MulSign(j, g);
      if k > 1 { ModulusIsPrime(g, k); }
    }
  }

  /** There are no zero divisors. */
  lemma NullProduct(x: int, y: int)
    requires Null(x * y)
    ensures Null(x) || Null(y)
  {
    if !Null(x) {
      var r := x % P;
      var u, v := InverseExists(r);
      FactorMod(x, y, P);
      var k := NullWitness(r * y);
      calc {
        y;
        (u * r + v * P) * y;
        { MulDistrib(u * r, v * P, y); }
        (u * r) * y + (v * P) * y;
        { MulAssoc(u, r, y); MulAssoc(u, k, P); MulAssoc(v, P, y); MulAssoc(v, y, P); }
        (u * k) * P + (v * y) * P;
        { MulDistrib(u * k, v * y, P); }
        (u * k + v * y) * P;
      }
      NullMultiple(u * k + v * y);
    }
  }

  lemma NullDifference(x: int, y: int)
    requires Null(x) && Null(y)
    ensures Null(x - y) && Null(x + y)
  {
    var j := NullWitness(x);
    var k := NullWitness(y);
    MulDistrib(j, k, P);
    NullMultiple(j - k);
    NullMultiple(j + k);
  }

  lemma DistinctNotNull(x: Felt, y: Felt)
    requires x != y
    ensures !Null(x - y)
  {
  }

  /** Two zeros of a quadratic leave a linear relation between its coefficients. */
  lemma TwoZeros(d: int, a: int, b: int, x: Felt, y: Felt)
    requires x != y && Null(d + a * x + b * (x * (x - 1))) && Null(d + a * y + b * (y * (y - 1)))
    ensures Null(a + b * (x + y - 1))
  {
    NullDifference(d + a * x + b * (x * (x - 1)), d + a * y + b * (y * (y - 1)));
    calc {
      (d + a * x + b * (x * (x - 1))) - (d + a * y + b * (y * (y - 1)));
      { MulDistrib(x, y, a); MulDistrib(x * (x - 1), y * (y - 1), b); }
      a * (x - y) + b * (x * (x - 1) - y * (y - 1));
      { DifferenceOfProducts(x, y); }
      a * (x - y) + b * ((x - y) * (x + y - 1));
      { MulAssoc(b, x - y, x + y - 1); MulDistrib(a, b * (x + y - 1), x - y); }
      (x - y) * (a + b * (x + y - 1));
    }
    DistinctNotNull(x, y);
    NullProduct(x - y, a + b * (x + y - 1));
  }

  lemma DifferenceOfProducts(x: int, y: int)
    ensures x * (x - 1) - y * (y - 1) == (x - y) * (x + y - 1)
  {
    MulDistrib(x, 1, x);
    MulDistrib(y, 1, y);
    MulDistrib(x, y, x + y - 1);
    MulDistrib(x, y - 1, x);
    MulDistrib(x - 1, y, y);
  }

  /** A quadratic with three zeros vanishes. */
  lemma ThreeZeros(d: int, a: int, b: int, x: Felt, y: Felt, z: Felt)
    requires x != y && y != z && x != z
    requires Null(d + a * x + b * (x * (x - 1))) && Null(d + a * y + b * (y * (y - 1)))
            && Null(d + a * z + b * (z * (z - 1)))
    ensures Null(d) && Null(a) && Null(b)
  {
    TwoZeros(d, a, b, x, y);
    TwoZeros(d, a, b, x, z);
    NullDifference(a + b * (x + y - 1), a + b * (x + z - 1));
    MulDistrib(x + y - 1, x + z - 1, b);
    DistinctNotNull(y, z);
    NullProduct(b, y - z);
    assert Null(b);
    NullTimes(b, x + y - 1);
    NullDifference(a + b * (x + y - 1), b * (x + y - 1));
    NullTimes(a, x);
    NullTimes(b, x * (x - 1));
    NullDifference(d + a * x + b * (x * (x - 1)), b * (x * (x - 1)));
    NullDifference(d + a * x, a * x);
  }

  lemma NullTimes(x: int, y: int)
    requires Null(x)
    ensures Null(x * y)
  {
    var k := NullWitness(x);
    MulAssoc(k, P, y);
    MulAssoc(k, y, P);
    NullMultiple(k * y);
  }

  // ----- quadratics -----------------------------------------------------------------------------------------------

  lemma EqualResidues(x: int, y: int)
    requires Mod(x) == Mod(y)
    ensures Null(x - y)
  {
    DivMod(x, P);
    DivMod(y, P);
    MulDistrib(x / P, y / P, P);
    NullMultiple(x / P - y / P);
  }

  /** The interpolation formula in its coefficients. */
  lemma NewtonForm(g0: int, g1: int, g2: int, x: int)
    ensures Newton(g0, g1, g2, x) == g0 + (g1 - g0) * x + ((g2 - 2 * g1 + g0) * INV_TWO) * (x * (x - 1))
  {
    var b := g2 - 2 * g1 + g0;
    MulAssoc(b, x, x - 1);
    MulAssoc(b, x * (x - 1), INV_TWO);
    MulAssoc(b, INV_TWO, x * (x - 1));
  }

  /** Where two quadratics agree, the quadratic of their differences vanishes. */
  lemma AgreementVanishes(g0: Felt, g1: Felt, g2: Felt, h0: Felt, h1: Felt, h2: Felt, x: Felt)
    requires EvaluateQuadratic(g0, g1, g2, x) == EvaluateQuadratic(h0, h1, h2, x)
    ensures var d0, d1, d2 := g0 - h0, g1 - h1, g2 - h2;
            Null(d0 + (d1 - d0) * x + ((d2 - 2 * d1 + d0) * INV_TWO) * (x * (x - 1)))
  {
    hide EvaluateQuadratic, Newton;
    QuadraticOfFelts(g0, g1, g2, x);
    QuadraticOfFelts(h0, h1, h2, x);
    EqualResidues(Newton(g0, g1, g2, x), Newton(h0, h1, h2, x));
    NewtonAdds(g0 - h0, g1 - h1, g2 - h2, h0, h1, h2, x);
    NewtonForm(g0 - h0, g1 - h1, g2 - h2, x);
  }

  lemma SmallNull(d: int)
    requires -P < d < P && Null(d)
    ensures d == 0
  {
  }

  /** Quadratics that agree at three points are equal. */
  lemma QuadraticsAgree(g0: Felt, g1: Felt, g2: Felt, h0: Felt, h1: Felt, h2: Felt, x: Felt, y: Felt, z: Felt)
    requires x != y && y != z && x != z
    requires EvaluateQuadratic(g0, g1, g2, x) == EvaluateQuadratic(h0, h1, h2, x)
    requires EvaluateQuadratic(g0, g1, g2, y) == EvaluateQuadratic(h0, h1, h2, y)
    requires EvaluateQuadratic(g0, g1, g2, z) == EvaluateQuadratic(h0, h1, h2, z)
    ensures g0 == h0 && g1 == h1 && g2 == h2
  {
    hide EvaluateQuadratic;
    var d0, d1, d2 := g0 - h0, g1 - h1, g2 - h2;
    var b := d2 - 2 * d1 + d0;
    AgreementVanishes(g0, g1, g2, h0, h1, h2, x);
    AgreementVanishes(g0, g1, g2, h0, h1, h2, y);
    AgreementVanishes(g0, g1, g2, h0, h1, h2, z);
    ThreeZeros(d0, d1 - d0, b * INV_TWO, x, y, z);
    NullProduct(b, INV_TWO);
    NullDifference(d0, d1 - d0);
    NullDifference(b, d0);
    NullDifference(b - d0, d1);
    NullDifference(b - d0 + d1, d1);
    SmallNull(d0);
    SmallNull(d1);
    SmallNull(d2);
  }
}
