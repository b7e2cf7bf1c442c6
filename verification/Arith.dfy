/** Elementary facts about products and Euclidean division that the solver needs spelled out. */
module Arith {

  function Min(a: int, b: int): int { if a <= b then a else b }

  /** A multiple of a positive n is zero or at least n away from zero. */
  lemma MulSign(k: int, n: int)
    requires n > 0
    ensures k >= 1 ==> k * n >= n
    ensures k <= -1 ==> k * n <= -n
    ensures k == 0 ==> k * n == 0
  {
    if k >= 1 {
      assert (k - 1) * n >= 0;
    } else if k <= -1 {
      assert (-1 - k) * n >= 0;
    }
  }

  lemma MulMono(a: int, b: int, c: int)
    requires a <= b && c >= 0
    ensures a * c <= b * c && c * a <= c * b
  {
    assert (b - a) * c >= 0;
  }

  lemma MulNonneg(a: nat, b: nat)
    ensures a * b >= 0
  {
  }

  lemma MulDistrib(a: int, b: int, c: int)
    ensures (a + b) * c == a * c + b * c && (a - b) * c == a * c - b * c
    ensures c * (a + b) == c * a + c * b && c * (a - b) == c * a - c * b
  {
  }

  lemma MulAssoc(a: int, b: int, c: int)
    ensures a * (b * c) == (a * b) * c == b * (a * c)
  {
  }

  lemma DivMod(x: int, n: int)
    requires n > 0
    ensures x == (x / n) * n + x % n && 0 <= x % n < n
  {
  }

  /** Quotient and remainder are unique. */
  lemma EuclidUnique(x: int, n: int, q: int, r: int)
    requires n > 0 && 0 <= r < n && x == q * n + r
    ensures x / n == q && x % n == r
  {
    DivMod(x, n);
    MulDistrib(q, x / n, n);
    MulSign(q - x / n, n);
  }

  lemma DivOfMultiple(q: int, n: int)
    requires n > 0
    ensures (q * n) / n == q && (q * n) % n == 0
    ensures (n * q) / n == q && (n * q) % n == 0
  {
    EuclidUnique(q * n, n, q, 0);
  }

  lemma DivMonotone(x: int, y: int, n: int)
    requires x <= y && n > 0
    ensures x / n <= y / n
  {
    DivMod(x, n);
    DivMod(y, n);
    MulDistrib(x / n, y / n, n);
    MulSign(x / n - y / n, n);
  }

  lemma DivNonneg(x: int, n: int)
    requires x >= 0 && n > 0
    ensures x / n >= 0
  {
    DivMonotone(0, x, n);
    EuclidUnique(0, n, 0, 0);
  }

  /** Cancelling a positive factor. */
  lemma MulCancel(g: int, x: int, y: int)
    requires g > 0 && g * x == g * y
    ensures x == y
  {
    MulDistrib(x, y, g);
    MulSign(x - y, g);
  }

  /** q is x divided by d, rounded down. */
  ghost predicate IsFloor(q: nat, x: nat, d: nat) { q * d <= x < (q + 1) * d }

  lemma FloorBounds(x: nat, d: nat)
    requires d > 0
    ensures x / d >= 0 && IsFloor(x / d, x, d)
  {
    DivMod(x, d);
    DivNonneg(x, d);
    MulDistrib(x / d, 1, d);
  }

  // ----- powers of two ----------------------------------------------------------------------------------

  function Pow2(n: nat): (r: nat)
    ensures r > 0
  {
    if n == 0 then 1 else 2 * Pow2(n - 1)
  }

  lemma {:induction false} Pow2Add(a: nat, b: nat)
    ensures Pow2(a + b) == Pow2(a) * Pow2(b)
  {
    if a > 0 {
      Pow2Add(a - 1, b);
      MulAssoc(2, Pow2(a - 1), Pow2(b));
    }
  }

  predicate IsPowerOfTwo(n: nat) { n == 1 || (n > 0 && n % 2 == 0 && IsPowerOfTwo(n / 2)) }

  /** The number of bits below the leading one. */
  function Log2(n: nat): (k: nat)
    ensures IsPowerOfTwo(n) ==> Pow2(k) == n
  {
    if n <= 1 then 0 else 1 + Log2(n / 2)
  }
}
