/** The emission schedule: subsidies, reward allocation and the closed-form pre-tail supply. */
module Economics {
  import opened Prelude
  import opened Arith

  datatype MonetaryPolicy = MonetaryPolicy(
    initialSubsidy: u64,
    tailHeight: u64,
    tailSubsidy: u64,
    stewardPercent: u8,
    communityPercent: u8)

  datatype Allocation = Allocation(subsidy: u64, miner: u64, steward: u64, community: u64, feesBurned: u64)

  datatype EconomicsError =
    | ZeroInitialSubsidy
    | InvalidEmissionWindow
    | ZeroTailSubsidy
    | InvalidPercentages
    | EmissionReachesZeroEarly
    | VanishingPreTailReward

  // ----- operations -------------------------------------------------------------------------

  function SaturatingSub(a: int, b: int): int { if a >= b then a - b else 0 }

  /** Linear decline; height zero is treated as the launch height. */
  function DecliningSubsidy(p: MonetaryPolicy, height: u64): (s: u64)
    requires p.tailHeight > 1
    ensures s <= p.initialSubsidy
  {
    var blocks := p.tailHeight - 1;
    var remaining := blocks - Min(SaturatingSub(height, 1), blocks);
    ScaledBounded(p.initialSubsidy, remaining, blocks);
    p.initialSubsidy * remaining / blocks
  }

  function PercentOf(amount: u64, percent: u8): int { amount * percent / 100 }

  function Validate(p: MonetaryPolicy): Result<(), EconomicsError> {
    if p.initialSubsidy == 0 then Err(ZeroInitialSubsidy)
    else if p.tailHeight <= 1 then Err(InvalidEmissionWindow)
    else if p.tailSubsidy == 0 then Err(ZeroTailSubsidy)
    else if p.stewardPercent + p.communityPercent > 100 then Err(InvalidPercentages)
    else
      var preceding := DecliningSubsidy(p, p.tailHeight - 1);
      if preceding == 0 then Err(EmissionReachesZeroEarly)
      else
        var steward := PercentOf(preceding, p.stewardPercent);
        var community := PercentOf(preceding, p.communityPercent);
        if preceding - steward - community == 0
           || (p.stewardPercent != 0 && steward == 0)
           || (p.communityPercent != 0 && community == 0)
        then Err(VanishingPreTailReward)
        else Ok(())
  }

  function Subsidy(p: MonetaryPolicy, height: u64): u64
    requires Validate(p).Ok?
  {
    if height >= p.tailHeight then p.tailSubsidy else DecliningSubsidy(p, height)
  }

  /** The split of one block's subsidy. Everything is paid out, and fees are only burned. */
  function Allocate(p: MonetaryPolicy, height: u64, fees: u64): (r: Result<Allocation, EconomicsError>)
    ensures r.Ok? <==> Validate(p).Ok?
    ensures r.Ok? ==>
              var a := r.value;
              && a.miner + a.steward + a.community == a.subsidy == Subsidy(p, height)
              && a.feesBurned == fees
              && (height >= p.tailHeight ==> a.steward == a.community == 0)
  {
    var _ :- Validate(p);
    var subsidy := Subsidy(p, height);
    if height >= p.tailHeight then
      Ok(Allocation(subsidy, subsidy, 0, 0, fees))
    else
      PercentagesFit(subsidy, p.stewardPercent, p.communityPercent);
      var steward := PercentOf(subsidy, p.stewardPercent);
      var community := PercentOf(subsidy, p.communityPercent);
      Ok(Allocation(subsidy, subsidy - steward - community, steward, community, fees))
  }

  ghost predicate Divides(d: int, n: int) { d != 0 && n % d == 0 }

  /** g is the largest common divisor of a and b. */
  ghost predicate IsGreatestCommonDivisor(g: int, a: nat, b: nat) {
    && Divides(g, a) && Divides(g, b)
    && forall d: int :: Divides(d, a) && Divides(d, b) ==> d <= g
  }

  function Gcd(a: nat, b: nat): nat
    decreases b
  {
    if b == 0 then a else Gcd(b, a % b)
  }

  method GreatestCommonDivisor(left: u64, right: u64) returns (g: u64)
    ensures g == Gcd(left, right)
    ensures left > 0 || right > 0 ==> IsGreatestCommonDivisor(g, left, right)
  {
    var a: u64, b: u64 := left, right;
    while b != 0
      invariant Gcd(a, b) == Gcd(left, right)
      decreases b
    {
      a, b := b, a % b;
    }
    g := a;
    if left > 0 || right > 0 {
      GcdIsGreatest(left, right);
    }
  }

  /** The closed form; every intermediate value fits u128 and the subtraction cannot underflow. */
  method LinearSupply(initialSubsidy: u64, emissionBlocks: u64) returns (supply: u128)
    requires initialSubsidy > 0 && emissionBlocks > 0
    ensures supply == FloorSum(initialSubsidy, emissionBlocks, emissionBlocks)
  {
    var g := GreatestCommonDivisor(initialSubsidy, emissionBlocks);
    ProductFits(initialSubsidy, emissionBlocks);
    FloorSumClosedForm(initialSubsidy, emissionBlocks);
    GcdBelowRight(initialSubsidy, emissionBlocks);
    var scaled: u128 := initialSubsidy * emissionBlocks;
    var widened: u128 := scaled + initialSubsidy;
    var lowered: u128 := widened - emissionBlocks;
    var total: u128 := lowered + g;
    supply := total / 2;
  }

  method ScheduledSupplyBeforeTail(p: MonetaryPolicy) returns (r: Result<u128, EconomicsError>)
    ensures r.Ok? <==> Validate(p).Ok?
    ensures r.Ok? ==> r.value == SubsidySum(p, p.tailHeight - 1)
    ensures r.Err? ==> Validate(p) == Err(r.error)
  {
    var v := Validate(p);
    if v.Err? {
      return Err(v.error);
    }
    var supply := LinearSupply(p.initialSubsidy, p.tailHeight - 1);
    SubsidySumIsFloorSum(p, p.tailHeight - 1);
    return Ok(supply);
  }

  // ----- reference definitions --------------------------------------------------------------

  /** floor(s*1/n) + ... + floor(s*count/n) */
  ghost function FloorSum(s: nat, n: nat, count: nat): nat
    requires n > 0
  {
    if count == 0 then 0 else FloorSum(s, n, count - 1) + Quot(s, n, count)
  }

  ghost function Quot(s: nat, n: nat, k: nat): nat
    requires n > 0
  {
    MulNonneg(s, k);
    (s * k) / n
  }

  /** Subsidies of heights 1 through count. */
  ghost function SubsidySum(p: MonetaryPolicy, count: nat): nat
    requires Validate(p).Ok?
    requires count <= U64_MAX
  {
    if count == 0 then 0 else SubsidySum(p, count - 1) + Subsidy(p, count)
  }

  // ----- arithmetic facts -------------------------------------------------------------------

  lemma ScaledBounded(s: nat, remaining: nat, blocks: nat)
    requires remaining <= blocks && blocks > 0
    ensures 0 <= s * remaining / blocks <= s
  {
    MulMono(remaining, blocks, s);
    DivOfMultiple(s, blocks);
    DivMonotone(s * remaining, s * blocks, blocks);
    MulNonneg(s, remaining);
    DivNonneg(s * remaining, blocks);
  }

  lemma PercentagesFit(amount: u64, a: u8, b: u8)
    requires a + b <= 100
    ensures 0 <= PercentOf(amount, a) && 0 <= PercentOf(amount, b)
    ensures PercentOf(amount, a) + PercentOf(amount, b) <= amount
  {
    MulDistrib(a, b, amount);
    MulMono(a + b, 100, amount);
    MulNonneg(amount, a);
    MulNonneg(amount, b);
  }

  lemma ProductFits(s: u64, n: u64)
    requires s > 0 && n > 0
    ensures n <= s * n && s * n + s <= U128_MAX
  {
    MulMono(s, U64_MAX, n);
    MulSign(s, n);
  }

  // ----- greatest common divisor ------------------------------------------------------------

  lemma GcdPositive(a: nat, b: nat)
    requires a > 0 || b > 0
    ensures Gcd(a, b) > 0
    decreases b
  {
    if b != 0 { GcdPositive(b, a % b); }
  }

  lemma DivisorWitness(d: int, n: int) returns (k: int)
    requires Divides(d, n)
    ensures n == d * k
  {
    k := n / d;
  }

  lemma MultipleDivides(d: int, k: int)
    requires d > 0
    ensures Divides(d, d * k)
  {
    EuclidUnique(d * k, d, k, 0);
  }

  /** Bezout coefficients of the Euclidean algorithm. */
  lemma Bezout(a: nat, b: nat) returns (u: int, v: int)
    ensures Gcd(a, b) == u * a + v * b
    decreases b
  {
    if b == 0 {
      u, v := 1, 0;
    } else {
      var u', v' := Bezout(b, a % b);
      var q := a / b;
      u, v := v', u' - v' * q;
      DivMod(a, b);
      MulDistrib(u', v' * q, b);
      MulAssoc(v', q, b);
      MulDistrib(a, q * b, v');
    }
  }

  lemma GcdDivides(a: nat, b: nat)
    requires a > 0 || b > 0
    ensures Divides(Gcd(a, b), a) && Divides(Gcd(a, b), b)
    decreases b
  {
    GcdPositive(a, b);
    var g := Gcd(a, b);
    if b == 0 {
      MultipleDivides(a, 1);
    } else {
      GcdDivides(b, a % b);
      var x := DivisorWitness(g, b);
      var y := DivisorWitness(g, a % b);
      var q := a / b;
      DivMod(a, b);
      MulAssoc(q, g, x);
      MulDistrib(q * x, y, g);
      assert a == g * (q * x + y);
      MultipleDivides(g, q * x + y);
    }
  }

  /** A combination of two multiples of d is a multiple of d. */
  lemma CombineMultiples(d: int, x: int, y: int, u: int, v: int)
    ensures u * (d * x) + v * (d * y) == d * (u * x + v * y)
  {
    MulAssoc(u, d, x);
    MulAssoc(v, d, y);
    MulDistrib(u * x, v * y, d);
  }

  lemma PositiveMultipleBound(g: int, d: int, x: int, y: int, u: int, v: int)
    requires g > 0 && d > 0 && g == u * (d * x) + v * (d * y)
    ensures d <= g
  {
    CombineMultiples(d, x, y, u, v);
    MulSign(u * x + v * y, d);
  }

  lemma CommonDivisorBelowGcd(a: nat, b: nat, d: int)
    requires a > 0 || b > 0
    requires d > 0 && Divides(d, a) && Divides(d, b)
    ensures d <= Gcd(a, b)
  {
    GcdPositive(a, b);
    var u, v := Bezout(a, b);
    var x := DivisorWitness(d, a);
    var y := DivisorWitness(d, b);
    PositiveMultipleBound(Gcd(a, b), d, x, y, u, v);
  }

  lemma GcdIsGreatest(a: nat, b: nat)
    requires a > 0 || b > 0
    ensures IsGreatestCommonDivisor(Gcd(a, b), a, b)
  {
    GcdDivides(a, b);
    GcdPositive(a, b);
    forall d: int | Divides(d, a) && Divides(d, b)
      ensures d <= Gcd(a, b)
    {
      if d > 0 { CommonDivisorBelowGcd(a, b, d); }
    }
  }

  lemma GcdBelowRight(a: nat, b: nat)
    requires b > 0
    ensures 0 < Gcd(a, b) <= b
  {
    GcdPositive(a, b);
    GcdDivides(a, b);
    var k := DivisorWitness(Gcd(a, b), b);
    MulSign(k, Gcd(a, b));
  }

  // ----- the floor-sum identity -------------------------------------------------------------

  ghost predicate Exact(s: nat, n: nat, k: nat)
    requires n > 0
  {
    (s * k) % n == 0
  }

  /** How many k in 1..count have n dividing s*k. */
  ghost function ExactCount(s: nat, n: nat, count: nat): nat
    requires n > 0
  {
    if count == 0 then 0
    else ExactCount(s, n, count - 1) + if Exact(s, n, count) then 1 else 0
  }

  /** Mirror terms k and n-k together miss s by one unless both quotients are exact. */
  lemma MirrorPair(s: nat, n: nat, k: nat)
    requires 0 < k < n
    ensures Quot(s, n, k) + Quot(s, n, n - k) == s - if Exact(s, n, k) then 0 else 1
  {
    var q, r := (s * k) / n, (s * k) % n;
    DivMod(s * k, n);
    MulDistrib(n, k, s);
    MulDistrib(s, q, n);
    if r == 0 {
      EuclidUnique(s * (n - k), n, s - q, 0);
    } else {
      MulDistrib(s - q, 1, n);
      EuclidUnique(s * (n - k), n, s - q - 1, n - r);
    }
  }

  lemma {:induction false} MirroredSum(s: nat, n: nat, count: nat)
    requires 0 < n && count < n
    ensures FloorSum(s, n, count) + FloorSum(s, n, n - 1) - FloorSum(s, n, n - 1 - count)
         == count * (s - 1) + ExactCount(s, n, count)
  {
    if count > 0 {
      MirroredSum(s, n, count - 1);
      MirrorPair(s, n, count);
      assert FloorSum(s, n, n - count) == FloorSum(s, n, n - 1 - count) + Quot(s, n, n - count);
      MulDistrib(count, 1, s - 1);
    }
  }

  /** With g = gcd(s,n), s = g*s' and n = g*d: if d divides k then n divides s*k. */
  lemma ExactIfMultiple(s: nat, n: nat, g: nat, d: nat, s': int, k: nat)
    requires n > 0 && d > 0 && n == g * d && s == g * s' && k % d == 0
    ensures Exact(s, n, k)
  {
    var m := k / d;
    DivMod(k, d);
    calc {
      s * k;
      (g * s') * (d * m);
      { MulAssoc(g, s', d * m); MulAssoc(s', d, m); }
      g * (d * (s' * m));
      { MulAssoc(g, d, s' * m); }
      n * (s' * m);
    }
    MultipleDivides(n, s' * m);
  }

  /** The converse, by Bezout. */
  lemma MultipleIfExact(s: nat, n: nat, g: nat, d: nat, k: nat)
    requires s > 0 && n > 0 && g == Gcd(s, n) && g > 0 && d > 0 && n == g * d
    requires Exact(s, n, k)
    ensures k % d == 0
  {
    var t := (s * k) / n;
    DivMod(s * k, n);
    var u, v := Bezout(s, n);
    var c := u * t + v * k;
    calc {
      g * k;
      { MulDistrib(u * s, v * n, k); MulAssoc(u, s, k); MulAssoc(v, n, k); }
      u * (s * k) + v * (n * k);
      u * (n * t) + v * (n * k);
      { CombineMultiples(n, t, k, u, v); }
      n * c;
      { MulAssoc(g, d, c); }
      g * (d * c);
    }
    MulCancel(g, k, d * c);
    MultipleDivides(d, c);
  }

  lemma {:induction false} CountMultiples(s: nat, n: nat, g: nat, d: nat, count: nat)
    requires s > 0 && n > 0 && g == Gcd(s, n) && g > 0 && d > 0 && n == g * d
    ensures ExactCount(s, n, count) == count / d
  {
    if count == 0 {
      EuclidUnique(0, d, 0, 0);
    } else {
      CountMultiples(s, n, g, d, count - 1);
      CountStep(count, d);
      if count % d == 0 {
        GcdDivides(s, n);
        var s' := DivisorWitness(g, s);
        ExactIfMultiple(s, n, g, d, s', count);
      } else if Exact(s, n, count) {
        MultipleIfExact(s, n, g, d, count);
      }
    }
  }

  lemma CountStep(count: nat, d: nat)
    requires count > 0 && d > 0
    ensures count / d == (count - 1) / d + if count % d == 0 then 1 else 0
  {
    var q, r := (count - 1) / d, (count - 1) % d;
    DivMod(count - 1, d);
    if r + 1 < d {
      EuclidUnique(count, d, q, r + 1);
    } else {
      MulDistrib(q, 1, d);
      EuclidUnique(count, d, q + 1, 0);
    }
  }

  lemma FloorSumClosedForm(s: nat, n: nat)
    requires s > 0 && n > 0
    ensures s * n + s - n + Gcd(s, n) == 2 * FloorSum(s, n, n)
  {
    GcdPositive(s, n);
    GcdDivides(s, n);
    var g := Gcd(s, n);
    var d := DivisorWitness(g, n);
    MulSign(d, g);
    MirroredSum(s, n, n - 1);
    CountMultiples(s, n, g, d, n - 1);
    MulDistrib(g, 1, d);
    EuclidUnique(n - 1, d, g - 1, d - 1);
    DivOfMultiple(s, n);
    assert FloorSum(s, n, n) == FloorSum(s, n, n - 1) + s;
    MulDistrib(n, 1, s - 1);
    MulDistrib(s, 1, n);
  }

  /** Walking heights upward walks the floor sum downward. */
  lemma {:induction false} SubsidySumIsFloorSum(p: MonetaryPolicy, count: nat)
    requires Validate(p).Ok?
    requires count <= p.tailHeight - 1
    ensures SubsidySum(p, count)
         == FloorSum(p.initialSubsidy, p.tailHeight - 1, p.tailHeight - 1)
          - FloorSum(p.initialSubsidy, p.tailHeight - 1, p.tailHeight - 1 - count)
  {
    if count > 0 {
      SubsidySumIsFloorSum(p, count - 1);
      var n := p.tailHeight - 1;
      assert Subsidy(p, count) == Quot(p.initialSubsidy, n, n - count + 1);
    }
  }

  /** The closed form equals the sum of the subsidies of all pre-tail heights. */
  lemma ClosedFormEmission(p: MonetaryPolicy)
    requires Validate(p).Ok?
    ensures var s, n := p.initialSubsidy, p.tailHeight - 1;
            SubsidySum(p, n) * 2 == s * n + s - n + Gcd(s, n)
  {
    FloorSumClosedForm(p.initialSubsidy, p.tailHeight - 1);
    SubsidySumIsFloorSum(p, p.tailHeight - 1);
  }

  // ----- where the configured rewards can vanish --------------------------------------------

  lemma SubsidyNeverBelowLast(p: MonetaryPolicy, height: u64)
    requires Validate(p).Ok? && height < p.tailHeight
    ensures Subsidy(p, height) >= Subsidy(p, p.tailHeight - 1) > 0
  {
    var n := p.tailHeight - 1;
    var remaining := n - Min(SaturatingSub(height, 1), n);
    MulMono(1, remaining, p.initialSubsidy);
    DivMonotone(p.initialSubsidy * 1, p.initialSubsidy * remaining, n);
  }

  lemma PercentMonotone(x: u64, y: u64, percent: u8)
    requires x <= y
    ensures PercentOf(x, percent) <= PercentOf(y, percent)
  {
    MulMono(x, y, percent);
    DivMonotone(x * percent, y * percent, 100);
  }

  /** What two percentage shares leave over. */
  lemma ShareLeft(s: u64, a: u8, b: u8)
    requires s > 0 && a + b <= 100
    ensures s - PercentOf(s, a) - PercentOf(s, b) > 0 <==> a + b < 100 || (s * a) % 100 != 0
  {
    MulDistrib(a, b, s);
    if a + b < 100 {
      MulMono(a + b, 99, s);
    }
  }

  /**
   * Validation looks at the last pre-tail height only. At every pre-tail height the steward and
   * community shares stay positive; the miner share does exactly when the percentages leave
   * something over or the steward share is rounded down.
   */
  lemma PreTailRewards(p: MonetaryPolicy, height: u64, fees: u64)
    requires Validate(p).Ok? && height < p.tailHeight
    ensures var a := Allocate(p, height, fees).value;
            && (p.stewardPercent != 0 ==> a.steward > 0)
            && (p.communityPercent != 0 ==> a.community > 0)
            && (a.miner > 0 <==>
                  p.stewardPercent + p.communityPercent < 100
                  || (a.subsidy * p.stewardPercent) % 100 != 0)
  {
    hide DecliningSubsidy, PercentOf;
    SubsidyNeverBelowLast(p, height);
    var s, last := Subsidy(p, height), Subsidy(p, p.tailHeight - 1);
    PercentagesFit(last, p.stewardPercent, p.communityPercent);
    PercentMonotone(last, s, p.stewardPercent);
    PercentMonotone(last, s, p.communityPercent);
    ShareLeft(s, p.stewardPercent, p.communityPercent);
  }

  /** The scheduled subsidy: the initial one scaled by the share of the emission window left, then the tail. */
  ghost predicate Scheduled(p: MonetaryPolicy, height: u64, subsidy: nat) {
    if height >= p.tailHeight then subsidy == p.tailSubsidy
    else
      var left: nat := if height == 0 then p.tailHeight - 1 else p.tailHeight - height;
      p.initialSubsidy * left >= 0 && IsFloor(subsidy, p.initialSubsidy * left, p.tailHeight - 1)
  }

  /** The share is that percentage of the amount, rounded down. */
  ghost predicate IsShare(share: nat, amount: nat, percent: nat) {
    MulNonneg(amount, percent);
    IsFloor(share, amount * percent, 100)
  }

  /** Before the tail each fund gets its percentage of the scheduled subsidy, rounded down; the miner the rest. */
  lemma SharesExact(p: MonetaryPolicy, height: u64, fees: u64)
    requires Validate(p).Ok?
    ensures var a := Allocate(p, height, fees).value;
            && Scheduled(p, height, a.subsidy)
            && (height < p.tailHeight ==> && IsShare(a.steward, a.subsidy, p.stewardPercent)
                                          && IsShare(a.community, a.subsidy, p.communityPercent))
            && a.miner == a.subsidy - a.steward - a.community
  {
    hide IsShare, PercentOf, Validate;
    SubsidyScheduled(p, height);
    ShareFloor(Subsidy(p, height), p.stewardPercent);
    ShareFloor(Subsidy(p, height), p.communityPercent);
  }

  lemma SubsidyScheduled(p: MonetaryPolicy, height: u64)
    requires Validate(p).Ok?
    ensures Scheduled(p, height, Subsidy(p, height))
  {
    hide IsFloor;
    if height < p.tailHeight {
      var left: nat := if height == 0 then p.tailHeight - 1 else p.tailHeight - height;
      MulNonneg(p.initialSubsidy, left);
      FloorBounds(p.initialSubsidy * left, p.tailHeight - 1);
    }
  }

  lemma ShareFloor(amount: u64, percent: u8)
    ensures PercentOf(amount, percent) >= 0 && IsShare(PercentOf(amount, percent), amount, percent)
  {
    hide IsFloor;
    MulNonneg(amount, percent);
    FloorBounds(amount * percent, 100);
  }

  /** A valid policy whose first block would have to pay the miner nothing. */
  lemma MinerRewardCanVanish()
    ensures var p := MonetaryPolicy(6, 3, 1, 50, 50);
            Validate(p).Ok? && Allocate(p, 1, 0).Ok? && Allocate(p, 1, 0).value.miner == 0
  {
    var p := MonetaryPolicy(6, 3, 1, 50, 50);
    assert DecliningSubsidy(p, 2) == 3;
    assert PercentOf(3, 50) == 1;
    assert DecliningSubsidy(p, 1) == 6;
    assert PercentOf(6, 50) == 3;
  }
}
