/** Arithmetic modulo the Goldilocks prime 2^64 - 2^32 + 1, and the ring laws it obeys. */
module Goldilocks {
  import opened Arith

  const P: int := 0xffff_ffff_0000_0001
  const INV_TWO: Felt := 0x7fff_ffff_8000_0001

  /** A canonical field element. */
  type Felt = x: int | 0 <= x < P

  /** The residue of an integer. */
  function Mod(x: int): Felt { x % P }

  function FromSigned(value: int): Felt {
    if value >= 0 then value % P
    else if (-value) % P == 0 then 0
    else P - (-value) % P
  }

  function Add(x: Felt, y: Felt): Felt { (x + y) % P }

  function Sub(x: Felt, y: Felt): Felt { if x >= y then x - y else P - (y - x) }

  function Mul(x: Felt, y: Felt): Felt { (x * y) % P }

  function Double(x: Felt): Felt { Add(x, x) }

  // ----- every operation is the residue of the integer operation ------------------------------

  lemma ModOfFelt(x: Felt)
    ensures Mod(x) == x
  {
  }

  lemma ModShift(x: int, k: int)
    ensures Mod(x + k * P) == Mod(x)
  {
    DivMod(x, P);
    MulDistrib(x / P, k, P);
    EuclidUnique(x + k * P, P, x / P + k, x % P);
  }

  /** Equal residues differ by a multiple of P, and conversely. */
  lemma ModEqual(x: int, y: int, k: int)
    requires x == y + k * P
    ensures Mod(x) == Mod(y)
  {
    ModShift(y, k);
  }

  lemma AddMod(x: int, y: int)
    ensures Add(Mod(x), Mod(y)) == Mod(x + y)
  {
    DivMod(x, P);
    DivMod(y, P);
    MulDistrib(x / P, y / P, P);
    ModEqual(x + y, x % P + y % P, x / P + y / P);
  }

  lemma SubMod(x: int, y: int)
    ensures Sub(Mod(x), Mod(y)) == Mod(x - y)
  {
    var r, s := x % P, y % P;
    DivMod(x, P);
    DivMod(y, P);
    MulDistrib(x / P, y / P, P);
    ModEqual(x - y, r - s, x / P - y / P);
    ModShift(r - s, 1);
    if r >= s { EuclidUnique(r - s, P, 0, r - s); } else { EuclidUnique(r - s + P, P, 0, r - s + P); }
  }

  lemma MulMod(x: int, y: int)
    ensures Mul(Mod(x), Mod(y)) == Mod(x * y)
  {
    var a, b := x / P, y / P;
    var r, s := x % P, y % P;
    DivMod(x, P);
    DivMod(y, P);
    calc {
      x * y;
      (a * P + r) * y;
      { MulDistrib(a * P, r, y); MulAssoc(a, P, y); MulAssoc(a * y, P, 1); }
      (a * y) * P + r * y;
      { MulDistrib(b * P, s, r); MulAssoc(r, b, P); }
      (a * y) * P + ((r * b) * P + r * s);
      { MulDistrib(a * y, r * b, P); }
      r * s + (a * y + r * b) * P;
    }
    ModEqual(x * y, r * s, a * y + r * b);
  }

  lemma SignedMod(value: int)
    ensures FromSigned(value) == Mod(value)
  {
  }

  lemma DoubleMod(x: int)
    ensures Double(Mod(x)) == Mod(2 * x)
  {
    hide Add, Mod;
    AddMod(x, x);
  }

  // ----- ring laws ----------------------------------------------------------------------------

  lemma AddAssoc(x: Felt, y: Felt, z: Felt)
    ensures Add(Add(x, y), z) == Add(x, Add(y, z))
  {
  }

  lemma AddCommutes(x: Felt, y: Felt)
    ensures Add(x, y) == Add(y, x)
  {
  }

  /** (a + b) + (c + d) == (a + c) + (b + d) */
  lemma AddSwap(a: Felt, b: Felt, c: Felt, d: Felt)
    ensures Add(Add(a, b), Add(c, d)) == Add(Add(a, c), Add(b, d))
  {
    calc {
      Add(Add(a, b), Add(c, d));
      { AddAssoc(a, b, Add(c, d)); }
      Add(a, Add(b, Add(c, d)));
      { AddAssoc(b, c, d); AddCommutes(b, c); AddAssoc(c, b, d); }
      Add(a, Add(c, Add(b, d)));
      { AddAssoc(a, c, Add(b, d)); }
      Add(Add(a, c), Add(b, d));
    }
  }

  lemma MulCommutes(x: Felt, y: Felt)
    ensures Mul(x, y) == Mul(y, x)
  {
  }

  lemma MulAssociates(x: Felt, y: Felt, z: Felt)
    ensures Mul(Mul(x, y), z) == Mul(x, Mul(y, z))
  {
    calc {
      Mul(Mul(x, y), z);
      { ModOfFelt(z); }
      Mul(Mod(x * y), Mod(z));
      { MulMod(x * y, z); }
      Mod(x * y * z);
      { MulAssoc(x, y, z); }
      Mod(x * (y * z));
      { MulMod(x, y * z); }
      Mul(Mod(x), Mod(y * z));
      { ModOfFelt(x); }
      Mul(x, Mul(y, z));
    }
  }

  lemma MulDistributes(x: Felt, y: Felt, z: Felt)
    ensures Mul(x, Add(y, z)) == Add(Mul(x, y), Mul(x, z))
    ensures Mul(Add(y, z), x) == Add(Mul(y, x), Mul(z, x))
  {
    calc {
      Mul(x, Add(y, z));
      { ModOfFelt(x); }
      Mul(Mod(x), Mod(y + z));
      { MulMod(x, y + z); }
      Mod(x * (y + z));
      { MulDistrib(y, z, x); }
      Mod(x * y + x * z);
      { AddMod(x * y, x * z); }
      Add(Mod(x * y), Mod(x * z));
    }
    MulCommutes(x, Add(y, z));
    MulCommutes(x, y);
    MulCommutes(x, z);
  }

  lemma AddZero(x: Felt)
    ensures Add(x, 0) == x && Add(0, x) == x && Mul(x, 0) == 0 && Mul(0, x) == 0
  {
    MulMod(x, 0);
    MulMod(0, x);
  }

  lemma MulOne(x: Felt)
    ensures Mul(x, 1) == x && Mul(1, x) == x
  {
  }

  // ----- lines and parabolas ------------------------------------------------------------------

  /** The line through u at 0 and v at 1. */
  function Line(u: Felt, v: Felt, r: Felt): Felt { Add(u, Mul(Sub(v, u), r)) }

  lemma LineMod(u: Felt, v: Felt, r: Felt)
    ensures Line(u, v, r) == Mod(u + (v - u) * r)
  {
    calc {
      Mul(Sub(v, u), r);
      { ModOfFelt(u); ModOfFelt(v); ModOfFelt(r); SubMod(v, u); }
      Mul(Mod(v - u), Mod(r));
      { MulMod(v - u, r); }
      Mod((v - u) * r);
    }
    calc {
      Add(u, Mod((v - u) * r));
      { ModOfFelt(u); }
      Add(Mod(u), Mod((v - u) * r));
      { AddMod(u, (v - u) * r); }
      Mod(u + (v - u) * r);
    }
  }

  /** A line is the weighted mean of its endpoints. */
  lemma LineWeighted(u: Felt, v: Felt, r: Felt)
    ensures Line(u, v, r) == Add(Mul(u, Sub(1, r)), Mul(v, r))
  {
    calc {
      Add(Mul(u, Sub(1, r)), Mul(v, r));
      { ModOfFelt(u); ModOfFelt(r); SubMod(1, r); ModOfFelt(1); }
      Add(Mul(Mod(u), Mod(1 - r)), Mod(v * r));
      { MulMod(u, 1 - r); }
      Add(Mod(u * (1 - r)), Mod(v * r));
      { AddMod(u * (1 - r), v * r); }
      Mod(u * (1 - r) + v * r);
      { MulDistrib(1, r, u); MulDistrib(v, u, r); }
      Mod(u + (v - u) * r);
      { LineMod(u, v, r); }
      Line(u, v, r);
    }
  }

  /** The quadratic with the given values at 0, 1 and 2, by Newton's forward differences. */
  function EvaluateQuadratic(g0: Felt, g1: Felt, g2: Felt, x: Felt): Felt {
    var first := Sub(g1, g0);
    var second := Add(Sub(g2, Double(g1)), g0);
    Add(Add(g0, Mul(first, x)), Mul(Mul(Mul(second, x), Sub(x, 1)), INV_TWO))
  }

  lemma QuadraticMod(g0: int, g1: int, g2: int, x: int)
    ensures EvaluateQuadratic(Mod(g0), Mod(g1), Mod(g2), Mod(x)) == Mod(Newton(g0, g1, g2, x))
  {
    var second := g2 - 2 * g1 + g0;
    calc {
      Add(Sub(Mod(g2), Double(Mod(g1))), Mod(g0));
      { DoubleMod(g1); SubMod(g2, 2 * g1); }
      Add(Mod(g2 - 2 * g1), Mod(g0));
      { AddMod(g2 - 2 * g1, g0); }
      Mod(second);
    }
    calc {
      Mul(Mul(Mul(Mod(second), Mod(x)), Sub(Mod(x), 1)), INV_TWO);
      { MulMod(second, x); ModOfFelt(1); SubMod(x, 1); ModOfFelt(INV_TWO); }
      Mul(Mul(Mod(second * x), Mod(x - 1)), Mod(INV_TWO));
      { MulMod(second * x, x - 1); }
      Mul(Mod(second * x * (x - 1)), Mod(INV_TWO));
      { MulMod(second * x * (x - 1), INV_TWO); }
      Mod(second * x * (x - 1) * INV_TWO);
    }
    calc {
      Add(Mod(g0), Mul(Sub(Mod(g1), Mod(g0)), Mod(x)));
      { SubMod(g1, g0); MulMod(g1 - g0, x); }
      Add(Mod(g0), Mod((g1 - g0) * x));
      { AddMod(g0, (g1 - g0) * x); }
      Mod(g0 + (g1 - g0) * x);
    }
    AddMod(g0 + (g1 - g0) * x, second * x * (x - 1) * INV_TWO);
  }

  /** The interpolation formula over the integers. */
  function Newton(g0: int, g1: int, g2: int, x: int): int {
    g0 + (g1 - g0) * x + (g2 - 2 * g1 + g0) * x * (x - 1) * INV_TWO
  }

  /** The product of two lines, sampled at 0, 1 and 2, is recovered exactly. */
  lemma ProductOfLines(a0: Felt, a1: Felt, b0: Felt, b1: Felt, r: Felt)
    ensures EvaluateQuadratic(Mul(a0, b0), Mul(a1, b1),
                              Mul(Sub(Double(a1), a0), Sub(Double(b1), b0)), r)
         == Mul(Line(a0, a1, r), Line(b0, b1, r))
  {
    var g0, g1, g2 := a0 * b0, a1 * b1, (2 * a1 - a0) * (2 * b1 - b0);
    calc {
      Mul(Sub(Double(a1), a0), Sub(Double(b1), b0));
      { AtTwo(a0, a1); AtTwo(b0, b1); }
      Mul(Mod(2 * a1 - a0), Mod(2 * b1 - b0));
      { MulMod(2 * a1 - a0, 2 * b1 - b0); }
      Mod(g2);
    }
    calc {
      EvaluateQuadratic(Mul(a0, b0), Mul(a1, b1), Mod(g2), r);
      { ModOfFelt(r); }
      EvaluateQuadratic(Mod(g0), Mod(g1), Mod(g2), Mod(r));
      { QuadraticMod(g0, g1, g2, r); }
      Mod(Newton(g0, g1, g2, r));
      { NewtonIdentity(a0, a1, b0, b1, r); }
      Mod((a0 + (a1 - a0) * r) * (b0 + (b1 - b0) * r));
      { MulMod(a0 + (a1 - a0) * r, b0 + (b1 - b0) * r); }
      Mul(Mod(a0 + (a1 - a0) * r), Mod(b0 + (b1 - b0) * r));
      { LineMod(a0, a1, r); LineMod(b0, b1, r); }
      Mul(Line(a0, a1, r), Line(b0, b1, r));
    }
  }

  /** The value at two of the line through u and v. */
  lemma AtTwo(u: Felt, v: Felt)
    ensures Sub(Double(v), u) == Mod(2 * v - u)
  {
    ModOfFelt(u);
    ModOfFelt(v);
    DoubleMod(v);
    SubMod(2 * v, u);
  }

  /** The integer identity behind the interpolation; 2 * INV_TWO is P + 1. */
  lemma NewtonIdentity(a0: int, a1: int, b0: int, b1: int, r: int)
    ensures var g0, g1, g2 := a0 * b0, a1 * b1, (2 * a1 - a0) * (2 * b1 - b0);
            Mod(Newton(g0, g1, g2, r)) == Mod((a0 + (a1 - a0) * r) * (b0 + (b1 - b0) * r))
  {
    var g0, g1, g2 := a0 * b0, a1 * b1, (2 * a1 - a0) * (2 * b1 - b0);
    var d, e := a1 - a0, b1 - b0;
    var bend := d * e;
    SecondDifference(a0, b0, d, e);
    assert g2 - 2 * g1 + g0 == 2 * bend;
    var t := r * (r - 1);
    calc {
      (g2 - 2 * g1 + g0) * r * (r - 1) * INV_TWO;
      (2 * bend) * r * (r - 1) * INV_TWO;
      { MulAssoc(2 * bend, r, r - 1); }
      (2 * bend) * t * INV_TWO;
      { MulAssoc(2, bend, t); MulAssoc(2, bend * t, INV_TWO); }
      (bend * t) * (2 * INV_TWO);
      (bend * t) * (P + 1);
      { MulDistrib(P, 1, bend * t); }
      bend * t + (bend * t) * P;
    }
    ExpandProduct(a0, b0, d, e, r);
    ModEqual(Newton(g0, g1, g2, r), (a0 + d * r) * (b0 + e * r), bend * t);
  }

  lemma SecondDifference(a0: int, b0: int, d: int, e: int)
    ensures (2 * (a0 + d) - a0) * (2 * (b0 + e) - b0) - 2 * ((a0 + d) * (b0 + e)) + a0 * b0 == 2 * (d * e)
  {
    ExpandBinomials(a0, 2 * d, b0, 2 * e);
    ExpandBinomials(a0, d, b0, e);
    MulAssoc(2, d, e);
    MulAssoc(2, d, b0);
    MulAssoc(2, e, a0);
    assert (2 * d) * (2 * e) == 4 * (d * e) by { MulAssoc(2 * d, 2, e); }
    assert (2 * d) * b0 == 2 * (d * b0);
    assert a0 * (2 * e) == 2 * (a0 * e);
  }

  lemma ExpandBinomials(a: int, b: int, c: int, d: int)
    ensures (a + b) * (c + d) == a * c + a * d + b * c + b * d
  {
    MulDistrib(a, b, c + d);
    MulDistrib(c, d, a);
    MulDistrib(c, d, b);
  }

  lemma ExpandProduct(a0: int, b0: int, d: int, e: int, r: int)
    ensures (a0 + d * r) * (b0 + e * r)
         == a0 * b0 + ((a0 + d) * (b0 + e) - a0 * b0) * r + (d * e) * (r * (r - 1))
  {
    ExpandBinomials(a0, d * r, b0, e * r);
    ExpandBinomials(a0, d, b0, e);
    MulAssoc(a0, e, r);
    assert (d * r) * b0 == (d * b0) * r by { MulAssoc(d, r, b0); MulAssoc(d, b0, r); }
    assert (d * r) * (e * r) == (d * e) * (r * r) by {
      MulAssoc(d * r, e, r);
      MulAssoc(d, r, e);
      MulAssoc(d, e, r);
      MulAssoc(d * e, r, r);
    }
    MulDistrib(r, 1, r);
    MulDistrib(r * r, r, d * e);
    MulDistrib(a0 * e + d * b0, d * e, r);
    MulDistrib(a0 * e, d * b0, r);
  }

  lemma NewtonAdds(g0: int, g1: int, g2: int, h0: int, h1: int, h2: int, x: int)
    ensures Newton(g0 + h0, g1 + h1, g2 + h2, x) == Newton(g0, g1, g2, x) + Newton(h0, h1, h2, x)
  {
    var p, q := g1 - g0, h1 - h0;
    var s, t := g2 - 2 * g1 + g0, h2 - 2 * h1 + h0;
    MulDistrib(p, q, x);
    MulDistrib(s, t, x);
    MulDistrib(s * x, t * x, x - 1);
    MulDistrib(s * x * (x - 1), t * x * (x - 1), INV_TWO);
  }

  /** Evaluation is additive in the three sample values. */
  lemma QuadraticAdds(g0: Felt, g1: Felt, g2: Felt, h0: Felt, h1: Felt, h2: Felt, x: Felt)
    ensures EvaluateQuadratic(Add(g0, h0), Add(g1, h1), Add(g2, h2), x)
         == Add(EvaluateQuadratic(g0, g1, g2, x), EvaluateQuadratic(h0, h1, h2, x))
  {
    hide EvaluateQuadratic, Newton;
    calc {
      EvaluateQuadratic(Add(g0, h0), Add(g1, h1), Add(g2, h2), x);
      { ModOfFelt(x); }
      EvaluateQuadratic(Mod(g0 + h0), Mod(g1 + h1), Mod(g2 + h2), Mod(x));
      { QuadraticMod(g0 + h0, g1 + h1, g2 + h2, x); NewtonAdds(g0, g1, g2, h0, h1, h2, x); }
      Mod(Newton(g0, g1, g2, x) + Newton(h0, h1, h2, x));
      { AddMod(Newton(g0, g1, g2, x), Newton(h0, h1, h2, x)); }
      Add(Mod(Newton(g0, g1, g2, x)), Mod(Newton(h0, h1, h2, x)));
      { QuadraticOfFelts(g0, g1, g2, x); QuadraticOfFelts(h0, h1, h2, x); }
      Add(EvaluateQuadratic(g0, g1, g2, x), EvaluateQuadratic(h0, h1, h2, x));
    }
  }

  lemma QuadraticOfFelts(g0: Felt, g1: Felt, g2: Felt, x: Felt)
    ensures EvaluateQuadratic(g0, g1, g2, x) == Mod(Newton(g0, g1, g2, x))
  {
    ModOfFelt(g0);
    ModOfFelt(g1);
    ModOfFelt(g2);
    ModOfFelt(x);
    QuadraticMod(g0, g1, g2, x);
  }
}
