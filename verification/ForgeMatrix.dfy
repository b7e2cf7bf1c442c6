/** The version-two integer relation: reference proofs and their full-recomputation verifier. */
module ForgeMatrix {
  import opened Prelude
  import opened Arith
  import opened Ledger

  const TRANSITION_MODULUS: int := 134217689
  const OUTPUT_MODULUS: int := 251
  const CENTER: int := 125
  const MAX_OUTPUT_QUOTIENT: int := 534731
  const I32_MAX: int := 0x7FFF_FFFF

  const ALGORITHM_VERSION: u32 := 2
  const PROOF_VERSION: u32 := 1

  type i32 = x: int | -I32_MAX - 1 <= x <= I32_MAX
  type i16 = x: int | -32768 <= x <= 32767
  type u16 = x: int | 0 <= x <= 65535
  /** A byte that survives the rejection sampling of mask coefficients. */
  type Coefficient = x: int | 0 <= x <= 250

  datatype ReductionWitness = ReductionWitness(
    z: i32, encodedZ: u32, squareQuotient: u32, squareRemainder: u32, cubeQuotient: u32, cubeRemainder: u32,
    outputQuotient: u32, outputRemainder: u16)

  datatype LayerWitness = LayerWitness(accumulators: seq<i32>, reductions: seq<ReductionWitness>, output: seq<i16>)

  datatype ReferenceProof = ReferenceProof(
    nonce: u64, challengeDigest: Digest, initialReductions: seq<ReductionWitness>, initialActivation: seq<i16>,
    layers: seq<LayerWitness>, finalActivationDigest: Digest, workDigest: Digest)

  datatype ForgeError =
    | WrongNetwork | InvalidShape | WitnessShape | ChallengeMismatch | Accumulator | EncodedAccumulator
    | TransitionFieldRange | SquareRelation | CubeRelation | OutputRange | OutputRelation | ActivationEncoding
    | OutputDigest | WorkDigest | HighHash | ArithmeticOverflow | AlgorithmVersion | ProofVersion
    | ModelManifestDigest | NonceExhausted

  /** A model with its explicit bytes; the hashes that bind it are arbitrary functions. */
  datatype Model = Model(
    networkId: Digest, manifestDigest: Digest, rows: nat, width: nat, baseInput: seq<u8>, weights: seq<seq<u8>>,
    challenge: (BlockChallenge, u64) -> Digest,
    maskStream: (Digest, u32, nat) -> Coefficient,
    outputHash: (Digest, seq<byte>) -> Digest,
    workHash: (Digest, Digest) -> Digest)

  predicate SmallBytes(s: seq<u8>) { forall i :: 0 <= i < |s| ==> s[i] <= 250 }

  /** What building a reference from an explicit model establishes. */
  predicate ValidModel(m: Model) {
    && m.rows in {1, 2, 4}
    && m.width in {1, 2, 4, 8, 16, 32}
    && |m.baseInput| == m.rows * m.width && SmallBytes(m.baseInput)
    && 0 < |m.weights| <= 4
    && forall j :: 0 <= j < |m.weights| ==> |m.weights[j]| == m.width * m.width && SmallBytes(m.weights[j])
  }

  // ----- one reduction ------------------------------------------------------------------------------------

  function EncodeZ(z: int): int { if z >= 0 then z else TRANSITION_MODULUS + z }

  /** Cube in the transition field, then reduction to a byte: the only witness for z. */
  function Honest(z: i32): (w: ReductionWitness)
    requires -TRANSITION_MODULUS <= z < TRANSITION_MODULUS
    ensures w.outputRemainder <= 250
  {
    var m := TRANSITION_MODULUS;
    var e := EncodeZ(z);
    ProductQuotient(e, e);
    var square := e * e % m;
    ProductQuotient(square, e);
    var cube := square * e % m;
    ReductionWitness(z, e, e * e / m, square, square * e / m, cube, cube / OUTPUT_MODULUS, cube % OUTPUT_MODULUS)
  }

  lemma ProductQuotient(a: int, b: int)
    requires 0 <= a < TRANSITION_MODULUS && 0 <= b < TRANSITION_MODULUS
    ensures 0 <= a * b / TRANSITION_MODULUS < TRANSITION_MODULUS
    ensures 0 <= a * b % TRANSITION_MODULUS < TRANSITION_MODULUS
    ensures 0 <= a * b <= U64_MAX
    ensures a * b == TRANSITION_MODULUS * (a * b / TRANSITION_MODULUS) + a * b % TRANSITION_MODULUS
  {
    var m := TRANSITION_MODULUS;
    MulMono(a, m - 1, b);
    MulMono(b, m - 1, m - 1);
    MulNonneg(a, b);
    DivMonotone(a * b, (m - 1) * (m - 1), m);
    DivNonneg(a * b, m);
    DivMod(a * b, m);
  }

  function InField(x: int): bool { 0 <= x < TRANSITION_MODULUS }

  function CheckReduction(z: i32, w: ReductionWitness): Result<(), ForgeError> {
    var m := TRANSITION_MODULUS;
    if !InField(w.encodedZ) || !InField(w.squareQuotient) || !InField(w.squareRemainder) || !InField(w.cubeQuotient)
       || !InField(w.cubeRemainder)
    then Err(TransitionFieldRange)
    else if w.outputQuotient > MAX_OUTPUT_QUOTIENT || w.outputRemainder > 250 then Err(OutputRange)
    else if EncodeZ(z) < 0 || w.z != z || w.encodedZ != EncodeZ(z) then Err(EncodedAccumulator)
    else if w.encodedZ * w.encodedZ != m * w.squareQuotient + w.squareRemainder then Err(SquareRelation)
    else if w.squareRemainder * w.encodedZ != m * w.cubeQuotient + w.cubeRemainder then Err(CubeRelation)
    else if w.cubeRemainder != OUTPUT_MODULUS * w.outputQuotient + w.outputRemainder then Err(OutputRelation)
    else Ok(())
  }

  /** The checker accepts exactly one witness, for exactly the values from minus the modulus up. */
  lemma ReductionExact(z: i32, w: ReductionWitness)
    ensures CheckReduction(z, w).Ok? <==> -TRANSITION_MODULUS <= z < TRANSITION_MODULUS && w == Honest(z)
  {
    var m := TRANSITION_MODULUS;
    if -m <= z < m && w == Honest(z) {
      var e := EncodeZ(z);
      ProductQuotient(e, e);
      ProductQuotient(w.squareRemainder, e);
    }
    if CheckReduction(z, w).Ok? {
      EuclidUnique(w.encodedZ * w.encodedZ, m, w.squareQuotient, w.squareRemainder);
      EuclidUnique(w.squareRemainder * w.encodedZ, m, w.cubeQuotient, w.cubeRemainder);
      EuclidUnique(w.cubeRemainder, OUTPUT_MODULUS, w.outputQuotient, w.outputRemainder);
    }
  }

  lemma AddMultiple(x: int, k: int)
    ensures (x + TRANSITION_MODULUS * k) % TRANSITION_MODULUS == x % TRANSITION_MODULUS
  {
    var m := TRANSITION_MODULUS;
    DivMod(x, m);
    MulDistrib(x / m, k, m);
    EuclidUnique(x + m * k, m, x / m + k, x % m);
  }

  /** Reducing a factor first does not change a product's residue. */
  lemma ReduceFactor(a: int, b: int)
    ensures (a % TRANSITION_MODULUS) * b % TRANSITION_MODULUS == a * b % TRANSITION_MODULUS
  {
    var m := TRANSITION_MODULUS;
    var q, r := a / m, a % m;
    DivMod(a, m);
    MulDistrib(m * q, r, b);
    MulAssoc(m, q, b);
    AddMultiple(r * b, q * b);
  }

  /** The encoding represents z itself. */
  lemma EncodedResidue(z: int)
    requires -TRANSITION_MODULUS <= z < TRANSITION_MODULUS
    ensures EncodeZ(z) % TRANSITION_MODULUS == z % TRANSITION_MODULUS
  {
    AddMultiple(z, 1);
  }

  lemma SameResidueProduct(a: int, b: int, c: int, d: int)
    requires a % TRANSITION_MODULUS == b % TRANSITION_MODULUS && c % TRANSITION_MODULUS == d % TRANSITION_MODULUS
    ensures a * c % TRANSITION_MODULUS == b * d % TRANSITION_MODULUS
  {
    ReduceFactor(a, c);
    ReduceFactor(b, c);
    ReduceFactor(c, b);
    ReduceFactor(d, b);
    assert b * c == c * b && d * b == b * d;
  }

  /** The output of a reduction is the cube of its input in the transition field, reduced to a byte. */
  lemma HonestIsCube(z: i32)
    requires -TRANSITION_MODULUS <= z < TRANSITION_MODULUS
    ensures Honest(z).outputRemainder == z * z * z % TRANSITION_MODULUS % OUTPUT_MODULUS
  {
    var e := EncodeZ(z);
    EncodedResidue(z);
    SameResidueProduct(e, z, e, z);
    ReduceFactor(e * e, e);
    SameResidueProduct(e * e, z * z, e, z);
  }

  /** Construction refuses one value the checker would accept: minus the modulus itself. */
  method ReductionWitnessFor(z: i32) returns (r: Result<ReductionWitness, ForgeError>)
    ensures r == if -TRANSITION_MODULUS < z < TRANSITION_MODULUS then Ok(Honest(z)) else Err(ArithmeticOverflow)
  {
    hide CheckReduction;
    if z >= TRANSITION_MODULUS || z <= -TRANSITION_MODULUS { return Err(ArithmeticOverflow); }
    var e := EncodeZ(z);
    var squareQuotient, squareRemainder := MultiplyReduce(e, e);
    var cubeQuotient, cubeRemainder := MultiplyReduce(squareRemainder, e);
    var w := ReductionWitness(z, e, squareQuotient, squareRemainder, cubeQuotient, cubeRemainder,
                              cubeRemainder / OUTPUT_MODULUS, cubeRemainder % OUTPUT_MODULUS);
    ReductionExact(z, w);
    var checked := CheckReduction(z, w);
    if checked.Err? { return Err(ArithmeticOverflow); }
    return Ok(w);
  }

  /** A product of field elements fits 64 bits, and its quotient and remainder fit the field. */
  method MultiplyReduce(a: u32, b: u32) returns (quotient: u32, remainder: u32)
    requires InField(a) && InField(b)
    ensures quotient == a * b / TRANSITION_MODULUS && remainder == a * b % TRANSITION_MODULUS
    ensures InField(quotient) && InField(remainder)
  {
    ProductQuotient(a, b);
    var product: u64 := a * b;
    quotient, remainder := product / TRANSITION_MODULUS, product % TRANSITION_MODULUS;
  }

  // ----- masks ----------------------------------------------------------------------------------------------

  function BitSet(x: nat, bit: nat): bool { x / Pow2(bit) % 2 == 1 }

  /** Sum of the coefficients selected by the low bits of x. */
  function BitSum(coefficients: seq<Coefficient>, offset: nat, x: nat, bits: nat): (s: nat)
    requires offset + bits <= |coefficients|
    ensures s <= 250 * bits
  {
    if bits == 0 then 0
    else BitSum(coefficients, offset, x, bits - 1) + if BitSet(x, bits - 1) then coefficients[offset + bits - 1] else 0
  }

  function CoefficientCount(m: Model): nat { 1 + Log2(m.rows) + Log2(m.width) }

  lemma ShapeLogs(m: Model)
    requires ValidModel(m)
    ensures Log2(m.rows) <= 2 && Log2(m.width) <= 5
  {
    assert Log2(1) == 0 && Log2(2) == 1 && Log2(4) == 2 && Log2(8) == 3 && Log2(16) == 4 && Log2(32) == 5;
  }

  /** The first accepted bytes of the mask stream. */
  function MaskCoefficients(m: Model, challenge: Digest, layer: u32, count: nat): (cs: seq<Coefficient>)
    ensures |cs| == count
  {
    if count == 0 then []
    else MaskCoefficients(m, challenge, layer, count - 1) + [m.maskStream(challenge, layer, count - 1)]
  }

  function MaskAt(m: Model, coefficients: seq<Coefficient>, row: nat, col: nat): (v: nat)
    requires |coefficients| == CoefficientCount(m)
  {
    coefficients[0] + BitSum(coefficients, 1, row, Log2(m.rows))
        + BitSum(coefficients, 1 + Log2(m.rows), col, Log2(m.width))
  }

  method MaskValue(m: Model, coefficients: seq<Coefficient>, row: nat, col: nat) returns (r: Result<i32, ForgeError>)
    requires ValidModel(m)
    ensures |coefficients| != CoefficientCount(m) ==> r == Err(InvalidShape)
    ensures |coefficients| == CoefficientCount(m) ==> r.Ok? && r.value == MaskAt(m, coefficients, row, col) <= 2000
  {
    hide Log2, BitSet;
    ShapeLogs(m);
    var rowBits, colBits := Log2(m.rows), Log2(m.width);
    if |coefficients| != 1 + rowBits + colBits { return Err(InvalidShape); }
    var value: int := coefficients[0];
    var bit := 0;
    while bit < rowBits
      invariant 0 <= bit <= rowBits && value == coefficients[0] + BitSum(coefficients, 1, row, bit)
    {
      if BitSet(row, bit) { value := value + coefficients[1 + bit]; }
      bit := bit + 1;
    }
    bit := 0;
    while bit < colBits
      invariant 0 <= bit <= colBits
      invariant value
                == coefficients[0] + BitSum(coefficients, 1, row, rowBits) + BitSum(coefficients, 1 + rowBits, col, bit)
    {
      if BitSet(col, bit) { value := value + coefficients[1 + rowBits + bit]; }
      bit := bit + 1;
    }
    return Ok(value);
  }

  // ----- the honest computation -------------------------------------------------------------------------------

  type Activation = x: int | -125 <= x <= 125

  function CenteredActivation(value: u16): Result<i16, ForgeError> {
    if value > 250 then Err(OutputRange) else Ok(value - CENTER)
  }

  function Size(m: Model): nat { MulNonneg(m.rows, m.width); m.rows * m.width }

  /** Sum of products of an activation row and a weight column. */
  function Dot(m: Model, act: seq<Activation>, w: seq<u8>, row: nat, col: nat, n: nat): int
    requires ValidModel(m) && |act| == Size(m) && |w| == m.width * m.width
    requires row < m.rows && col < m.width && n <= m.width
  {
    if n == 0 then 0
    else
      CellInside(m.rows, m.width, row, n - 1);
      CellInside(m.width, m.width, n - 1, col);
      Dot(m, act, w, row, col, n - 1) + act[row * m.width + (n - 1)] * (w[(n - 1) * m.width + col] - CENTER)
  }

  lemma CellInside(rows: nat, width: nat, row: nat, col: nat)
    requires row < rows && col < width
    ensures 0 <= row * width + col < rows * width
    ensures (row * width + col) / width == row && (row * width + col) % width == col
  {
    MulNonneg(row, width);
    MulMono(row + 1, rows, width);
    MulDistrib(row, 1, width);
    EuclidUnique(row * width + col, width, row, col);
  }

  lemma CellOf(rows: nat, width: nat, k: nat)
    requires k < rows * width && width > 0
    ensures k / width < rows && k % width < width && k == (k / width) * width + k % width
  {
    DivMod(k, width);
    DivNonneg(k, width);
    if k / width >= rows { MulMono(rows, k / width, width); }
  }

  lemma ProductBound(a: int, b: int)
    requires -125 <= a <= 125 && -125 <= b <= 125
    ensures -15625 <= a * b <= 15625
  {
    if b >= 0 { MulMono(a, 125, b); MulMono(-125, a, b); MulMono(b, 125, 125); }
    else { MulMono(a, 125, -b); MulMono(-125, a, -b); MulMono(-b, 125, 125); }
  }

  lemma {:induction false} DotBound(m: Model, act: seq<Activation>, w: seq<u8>, row: nat, col: nat, n: nat)
    requires ValidModel(m) && |act| == Size(m) && |w| == m.width * m.width && SmallBytes(w)
    requires row < m.rows && col < m.width && n <= m.width
    ensures -15625 * n <= Dot(m, act, w, row, col, n) <= 15625 * n
  {
    hide ValidModel;
    if n > 0 {
      DotBound(m, act, w, row, col, n - 1);
      CellInside(m.rows, m.width, row, n - 1);
      CellInside(m.width, m.width, n - 1, col);
      ProductBound(act[row * m.width + (n - 1)], w[(n - 1) * m.width + col] - CENTER);
    }
  }

  function Centered(z: i32): (a: Activation)
    requires -TRANSITION_MODULUS < z < TRANSITION_MODULUS
  {
    Honest(z).outputRemainder - CENTER
  }

  /** Pre-reduction values stay far inside the field. */
  predicate Reducible(z: int) { -TRANSITION_MODULUS < z < TRANSITION_MODULUS }

  function MaskOf(m: Model, mask: seq<Coefficient>, k: nat): (v: nat)
    requires ValidModel(m) && |mask| == CoefficientCount(m) && k < Size(m)
    ensures v <= 2000
  {
    ShapeLogs(m);
    MaskAt(m, mask, k / m.width, k % m.width)
  }

  function InitialZ(m: Model, mask: seq<Coefficient>, k: nat): (z: i32)
    requires ValidModel(m) && |mask| == CoefficientCount(m) && k < Size(m)
    ensures Reducible(z)
  {
    m.baseInput[k] - CENTER + MaskOf(m, mask, k)
  }

  function InitialZs(m: Model, mask: seq<Coefficient>, n: nat): (zs: seq<i32>)
    requires ValidModel(m) && |mask| == CoefficientCount(m) && n <= Size(m)
    ensures |zs| == n && AllReducible(zs) && forall k :: 0 <= k < n ==> zs[k] == InitialZ(m, mask, k)
  {
    if n == 0 then [] else InitialZs(m, mask, n - 1) + [InitialZ(m, mask, n - 1)]
  }

  function AccumulatorAt(m: Model, act: seq<Activation>, w: seq<u8>, k: nat): (a: i32)
    requires ValidModel(m) && |act| == Size(m) && |w| == m.width * m.width && SmallBytes(w) && k < Size(m)
    ensures -500000 <= a <= 500000
  {
    CellOf(m.rows, m.width, k);
    DotBound(m, act, w, k / m.width, k % m.width, m.width);
    Dot(m, act, w, k / m.width, k % m.width, m.width)
  }

  function Accumulators(m: Model, act: seq<Activation>, w: seq<u8>, n: nat): (s: seq<i32>)
    requires ValidModel(m) && |act| == Size(m) && |w| == m.width * m.width && SmallBytes(w) && n <= Size(m)
    ensures |s| == n && forall k :: 0 <= k < n ==> -500000 <= s[k] <= 500000 && s[k] == AccumulatorAt(m, act, w, k)
  {
    if n == 0 then [] else Accumulators(m, act, w, n - 1) + [AccumulatorAt(m, act, w, n - 1)]
  }

  function LayerZs(m: Model, act: seq<Activation>, w: seq<u8>, mask: seq<Coefficient>, n: nat): (zs: seq<i32>)
    requires ValidModel(m) && |act| == Size(m) && |w| == m.width * m.width && SmallBytes(w) && n <= Size(m)
    requires |mask| == CoefficientCount(m)
    ensures |zs| == n && AllReducible(zs)
    ensures forall k :: 0 <= k < n ==> zs[k] == AccumulatorAt(m, act, w, k) + MaskOf(m, mask, k)
  {
    if n == 0 then []
    else LayerZs(m, act, w, mask, n - 1) + [AccumulatorAt(m, act, w, n - 1) + MaskOf(m, mask, n - 1)]
  }

  predicate AllReducible(zs: seq<i32>) { forall k :: 0 <= k < |zs| ==> Reducible(zs[k]) }

  function Reductions(zs: seq<i32>): (ws: seq<ReductionWitness>)
    requires AllReducible(zs)
    ensures |ws| == |zs| && forall k :: 0 <= k < |zs| ==> ws[k] == Honest(zs[k])
  {
    if zs == [] then [] else Reductions(zs[..|zs| - 1]) + [Honest(zs[|zs| - 1])]
  }

  function Outputs(zs: seq<i32>): (act: seq<Activation>)
    requires AllReducible(zs)
    ensures |act| == |zs| && forall k :: 0 <= k < |zs| ==> act[k] == Centered(zs[k])
  {
    if zs == [] then [] else Outputs(zs[..|zs| - 1]) + [Centered(zs[|zs| - 1])]
  }

  function Coefficients(m: Model, challenge: Digest, layer: u32): (cs: seq<Coefficient>)
    ensures |cs| == CoefficientCount(m)
  {
    MaskCoefficients(m, challenge, layer, CoefficientCount(m))
  }

  function HonestLayer(m: Model, challenge: Digest, act: seq<Activation>, j: nat): LayerWitness
    requires ValidModel(m) && |act| == Size(m) && j < |m.weights|
  {
    var zs := LayerZs(m, act, m.weights[j], Coefficients(m, challenge, j), Size(m));
    LayerWitness(Accumulators(m, act, m.weights[j], Size(m)), Reductions(zs), Outputs(zs))
  }

  /** The activation before layer j. */
  function ActivationAt(m: Model, challenge: Digest, j: nat): (act: seq<Activation>)
    requires ValidModel(m) && j <= |m.weights|
    ensures |act| == Size(m)
  {
    if j == 0 then Outputs(InitialZs(m, Coefficients(m, challenge, U32_MAX), Size(m)))
    else
      var act := ActivationAt(m, challenge, j - 1);
      Outputs(LayerZs(m, act, m.weights[j - 1], Coefficients(m, challenge, j - 1), Size(m)))
  }

  function HonestLayers(m: Model, challenge: Digest, n: nat): (ls: seq<LayerWitness>)
    requires ValidModel(m) && n <= |m.weights|
    ensures |ls| == n
  {
    if n == 0 then []
    else HonestLayers(m, challenge, n - 1) + [HonestLayer(m, challenge, ActivationAt(m, challenge, n - 1), n - 1)]
  }

  lemma {:induction false} LayerAt(m: Model, challenge: Digest, n: nat, j: nat)
    requires ValidModel(m) && j < n <= |m.weights|
    ensures HonestLayers(m, challenge, n)[j] == HonestLayer(m, challenge, ActivationAt(m, challenge, j), j)
    ensures HonestLayer(m, challenge, ActivationAt(m, challenge, j), j).output == ActivationAt(m, challenge, j + 1)
  {
    hide ValidModel, LayerZs, Accumulators, Reductions, Outputs, Coefficients, InitialZs;
    if j < n - 1 { LayerAt(m, challenge, n - 1, j); }
  }

  function ActivationBytes(act: seq<Activation>): (bs: seq<byte>)
    ensures |bs| == |act| && forall k :: 0 <= k < |act| ==> bs[k] as int == act[k] + CENTER <= 250
  {
    if act == [] then [] else ActivationBytes(act[..|act| - 1]) + [(act[|act| - 1] + CENTER) as byte]
  }

  /** The one proof for a nonce. */
  function HonestProof(m: Model, block: BlockChallenge, nonce: u64): ReferenceProof
    requires ValidModel(m)
  {
    hide ValidModel, Coefficients, Reductions, Outputs, InitialZs, HonestLayers, ActivationAt, ActivationBytes;
    var challenge := m.challenge(block, nonce);
    var zs := InitialZs(m, Coefficients(m, challenge, U32_MAX), Size(m));
    var output := m.outputHash(challenge, ActivationBytes(ActivationAt(m, challenge, |m.weights|)));
    ReferenceProof(nonce, challenge, Reductions(zs), Outputs(zs), HonestLayers(m, challenge, |m.weights|), output,
                   m.workHash(challenge, output))
  }
}
