/** The relation a reference proof witnesses, cell by cell, and that exactly one proof satisfies it. */
module ForgeRelation {
  import opened Prelude
  import opened Arith
  import opened Ledger
  import opened ForgeMatrix
  import F = ForgeProofs
  import Sumcheck
  import SumcheckTheorems

  // ----- masks ------------------------------------------------------------------------------------------------

  /** Sum of n stream coefficients from an index on, each taken when the matching bit of x, low bit first, is set. */
  ghost function Selected(m: Model, challenge: Digest, layer: u32, x: nat, index: nat, n: nat): int
    decreases n
  {
    if n == 0 then 0
    else (if x % 2 == 1 then m.maskStream(challenge, layer, index) else 0)
         + Selected(m, challenge, layer, x / 2, index + 1, n - 1)
  }

  /** The mask of cell k: a constant, one coefficient per row bit and one per column bit. */
  ghost function Mask(m: Model, challenge: Digest, layer: u32, k: nat): int
    requires m.width > 0
  {
    DivNonneg(k, m.width);
    m.maskStream(challenge, layer, 0)
    + Selected(m, challenge, layer, k / m.width, 1, Log2(m.rows))
    + Selected(m, challenge, layer, k % m.width, 1 + Log2(m.rows), Log2(m.width))
  }

  lemma {:induction false} StreamAt(m: Model, challenge: Digest, layer: u32, count: nat, i: nat)
    requires i < count
    ensures MaskCoefficients(m, challenge, layer, count)[i] == m.maskStream(challenge, layer, i)
  {
    if i < count - 1 { StreamAt(m, challenge, layer, count - 1, i); }
  }

  lemma HalvedBit(x: nat, bit: nat)
    ensures BitSet(x, bit + 1) == BitSet(x / 2, bit)
  {
    var p := Pow2(bit);
    var h := x / 2;
    DivMod(h, p);
    DivNonneg(h, p);
    MulAssoc(2, h / p, p);
    MulAssoc(h / p, 2, p);
    EuclidUnique(x, 2 * p, h / p, 2 * (h % p) + x % 2);
  }

  /** Taking the low bit off first. */
  lemma {:induction false} LowBitFirst(cs: seq<Coefficient>, offset: nat, x: nat, n: nat)
    requires n > 0 && offset + n <= |cs|
    ensures BitSum(cs, offset, x, n) == (if x % 2 == 1 then cs[offset] else 0) + BitSum(cs, offset + 1, x / 2, n - 1)
  {
    if n == 1 {
      assert BitSum(cs, offset, x, 0) == 0 && BitSum(cs, offset + 1, x / 2, 0) == 0 && Pow2(0) == 1;
    } else {
      LowBitFirst(cs, offset, x, n - 1);
      HalvedBit(x, n - 2);
    }
  }

  lemma {:induction false} SelectedIsBitSum(m: Model, challenge: Digest, layer: u32, x: nat, index: nat, n: nat)
    requires index + n <= CoefficientCount(m)
    ensures BitSum(Coefficients(m, challenge, layer), index, x, n) == Selected(m, challenge, layer, x, index, n)
    decreases n
  {
    if n > 0 {
      LowBitFirst(Coefficients(m, challenge, layer), index, x, n);
      StreamAt(m, challenge, layer, CoefficientCount(m), index);
      SelectedIsBitSum(m, challenge, layer, x / 2, index + 1, n - 1);
    }
  }

  lemma MaskIs(m: Model, challenge: Digest, layer: u32, k: nat)
    requires ValidModel(m) && k < Size(m)
    ensures MaskOf(m, Coefficients(m, challenge, layer), k) == Mask(m, challenge, layer, k)
  {
    hide ValidModel, Log2, BitSum, Selected;
    assert m.width > 0 by { Shape(m); }
    DivNonneg(k, m.width);
    StreamAt(m, challenge, layer, CoefficientCount(m), 0);
    SelectedIsBitSum(m, challenge, layer, k / m.width, 1, Log2(m.rows));
    SelectedIsBitSum(m, challenge, layer, k % m.width, 1 + Log2(m.rows), Log2(m.width));
  }

  // ----- the product ------------------------------------------------------------------------------------------

  /** Weight bytes stand for the integers around zero. */
  ghost function CenteredWeights(w: seq<u8>): (c: seq<int>)
    ensures |c| == |w| && forall i :: 0 <= i < |w| ==> c[i] == w[i] as int - 125
  {
    seq(|w|, i requires 0 <= i < |w| => w[i] as int - 125)
  }

  /** The statement a layer makes: activation times centred weights are the accumulators. */
  ghost function LayerStatement(m: Model, act: seq<i16>, w: seq<u8>, accumulators: seq<i32>): Sumcheck.Statement {
    Sumcheck.Statement([], act, CenteredWeights(w), accumulators, m.rows, m.width, m.width)
  }

  lemma Shape(m: Model)
    requires ValidModel(m)
    ensures m.width > 0 && IsPowerOfTwo(m.rows) && IsPowerOfTwo(m.width)
    ensures 0 < m.rows * m.width <= 4096 && m.width * m.width <= 4096
  {
    assert IsPowerOfTwo(1) && IsPowerOfTwo(2) && IsPowerOfTwo(4) && IsPowerOfTwo(8) && IsPowerOfTwo(16)
           && IsPowerOfTwo(32);
    MulMono(m.rows, 4, m.width);
    MulMono(m.width, 32, 4);
    MulMono(m.width, 32, m.width);
    MulSign(m.rows, m.width);
  }

  lemma StatementShape(m: Model, act: seq<i16>, w: seq<u8>, accumulators: seq<i32>)
    requires ValidModel(m) && |act| == |accumulators| == Size(m) && |w| == m.width * m.width
    ensures Sumcheck.ValidateShape(LayerStatement(m, act, w, accumulators)).Ok?
  {
    hide ValidModel, IsPowerOfTwo;
    Shape(m);
  }

  lemma {:induction false} DotIsProductEntry(m: Model, act: seq<Activation>, w: seq<u8>, accumulators: seq<i32>,
                                             row: nat, col: nat, n: nat)
    requires ValidModel(m) && |act| == |accumulators| == Size(m) && |w| == m.width * m.width
    requires row < m.rows && col < m.width && n <= m.width
    requires Sumcheck.ValidateShape(LayerStatement(m, act, w, accumulators)).Ok?
    ensures Dot(m, act, w, row, col, n)
         == SumcheckTheorems.ProductEntry(LayerStatement(m, act, w, accumulators), row, col, n)
  {
    hide ValidModel, Sumcheck.ValidateShape;
    if n > 0 {
      DotIsProductEntry(m, act, w, accumulators, row, col, n - 1);
      CellInside(m.rows, m.width, row, n - 1);
      CellInside(m.width, m.width, n - 1, col);
    }
  }

  lemma CellProduct(m: Model, act: seq<Activation>, w: seq<u8>, accumulators: seq<i32>, row: nat, col: nat)
    requires ValidModel(m) && |act| == |accumulators| == Size(m) && |w| == m.width * m.width && SmallBytes(w)
    requires Sumcheck.ValidateShape(LayerStatement(m, act, w, accumulators)).Ok? && row < m.rows && col < m.width
    ensures var s, k := LayerStatement(m, act, w, accumulators), row * m.width + col;
            && 0 <= k < Size(m)
            && SumcheckTheorems.Entry(s.c, s.rows, s.cols, row, col) == accumulators[k]
            && SumcheckTheorems.ProductEntry(s, row, col, s.inner) == AccumulatorAt(m, act, w, k)
  {
    hide ValidModel, Sumcheck.ValidateShape, Dot, SumcheckTheorems.ProductEntry;
    CellInside(m.rows, m.width, row, col);
    DotIsProductEntry(m, act, w, accumulators, row, col, m.width);
  }

  /** A layer's accumulators are the product of its activation and its centred weights, and nothing else is. */
  lemma AccumulatorsAreProduct(m: Model, act: seq<Activation>, w: seq<u8>, accumulators: seq<i32>)
    requires ValidModel(m) && |act| == |accumulators| == Size(m) && |w| == m.width * m.width && SmallBytes(w)
    ensures var s := LayerStatement(m, act, w, accumulators);
            Sumcheck.ValidateShape(s).Ok?
            && (SumcheckTheorems.IsProduct(s) <==> accumulators == Accumulators(m, act, w, Size(m)))
  {
    hide ValidModel, Sumcheck.ValidateShape, SumcheckTheorems.Entry, SumcheckTheorems.ProductEntry, Accumulators,
         AccumulatorAt;
    var s := LayerStatement(m, act, w, accumulators);
    StatementShape(m, act, w, accumulators);
    var honest := Accumulators(m, act, w, Size(m));
    if SumcheckTheorems.IsProduct(s) {
      assert m.width > 0 by { Shape(m); }
      forall k | 0 <= k < Size(m) ensures accumulators[k] == honest[k] {
        CellOf(m.rows, m.width, k);
        DivNonneg(k, m.width);
        CellProduct(m, act, w, accumulators, k / m.width, k % m.width);
      }
    }
    if accumulators == honest {
      forall i, j | 0 <= i < s.rows && 0 <= j < s.cols
        ensures SumcheckTheorems.Entry(s.c, s.rows, s.cols, i, j) == SumcheckTheorems.ProductEntry(s, i, j, s.inner)
      {
        CellProduct(m, act, w, accumulators, i, j);
      }
    }
  }

  // ----- the relation -----------------------------------------------------------------------------------------

  /** The witness shows the cube of z in the transition field as a byte, and the output is that byte around zero. */
  ghost predicate Reduces(z: int, w: ReductionWitness, output: int) {
    var p := 134217689;
    && w.z == z && w.encodedZ == (if z < 0 then z + p else z) && 0 <= w.encodedZ < p
    && w.encodedZ * w.encodedZ == p * w.squareQuotient + w.squareRemainder && w.squareRemainder < p
    && w.squareRemainder * w.encodedZ == p * w.cubeQuotient + w.cubeRemainder && w.cubeRemainder < p
    && w.cubeRemainder == 251 * w.outputQuotient + w.outputRemainder && w.outputRemainder < 251
    && output == w.outputRemainder - 125
  }

  lemma ReducesExactly(z: i32, w: ReductionWitness, output: int)
    requires Reducible(z)
    ensures Reduces(z, w, output) <==> w == Honest(z) && output == Centered(z)
    ensures Reduces(z, w, output) ==> output + 125 == z * z * z % 134217689 % 251
  {
    if w == Honest(z) {
      HonestIsCube(z);
      var e := EncodeZ(z);
      ProductQuotient(e, e);
      ProductQuotient(w.squareRemainder, e);
    }
    if Reduces(z, w, output) {
      var p := TRANSITION_MODULUS;
      EuclidUnique(w.encodedZ * w.encodedZ, p, w.squareQuotient, w.squareRemainder);
      EuclidUnique(w.squareRemainder * w.encodedZ, p, w.cubeQuotient, w.cubeRemainder);
      EuclidUnique(w.cubeRemainder, 251, w.outputQuotient, w.outputRemainder);
    }
  }

  ghost predicate InitialCells(m: Model, challenge: Digest, ws: seq<ReductionWitness>, act: seq<i16>)
    requires m.width > 0
  {
    && |ws| == |act| == |m.baseInput|
    && forall k :: 0 <= k < |ws| ==> Reduces(m.baseInput[k] - 125 + Mask(m, challenge, U32_MAX, k), ws[k], act[k])
  }

  /** Layer j on an activation: the product, then each cell plus its mask of that layer reduced. */
  ghost predicate LayerCells(m: Model, challenge: Digest, j: u32, act: seq<i16>, layer: LayerWitness)
    requires m.width > 0 && j < |m.weights|
  {
    var s := LayerStatement(m, act, m.weights[j], layer.accumulators);
    && |layer.accumulators| == |layer.reductions| == |layer.output| == m.rows * m.width
    && Sumcheck.ValidateShape(s).Ok? && SumcheckTheorems.IsProduct(s)
    && forall k :: 0 <= k < |layer.output| ==>
                     Reduces(layer.accumulators[k] + Mask(m, challenge, j, k), layer.reductions[k], layer.output[k])
  }

  /** What layer j reads: the initial activation or the output of the layer before. */
  ghost function InputOf(p: ReferenceProof, j: nat): seq<i16>
    requires j <= |p.layers|
  {
    if j == 0 then p.initialActivation else p.layers[j - 1].output
  }

  ghost predicate Encodes(act: seq<i16>, bytes: seq<byte>) {
    |bytes| == |act| && forall k :: 0 <= k < |act| ==> bytes[k] as int == act[k] as int + 125
  }

  ghost predicate LayersRelate(m: Model, challenge: Digest, p: ReferenceProof)
    requires m.width > 0
  {
    && |p.layers| == |m.weights| <= 4
    && forall j :: 0 <= j < |p.layers| ==> LayerCells(m, challenge, j, InputOf(p, j), p.layers[j])
  }

  /** The last output's bytes hash to the digest. */
  ghost predicate FinalRelates(m: Model, challenge: Digest, p: ReferenceProof) {
    exists bytes :: Encodes(InputOf(p, |p.layers|), bytes)
                    && p.finalActivationDigest == m.outputHash(challenge, bytes)
  }

  /** What a proof for a nonce shows: digests, every initial cell, every layer on the output before it. */
  ghost predicate Relation(m: Model, block: BlockChallenge, nonce: u64, p: ReferenceProof)
    requires m.width > 0
  {
    var challenge := m.challenge(block, nonce);
    && p.nonce == nonce && p.challengeDigest == challenge
    && InitialCells(m, challenge, p.initialReductions, p.initialActivation)
    && LayersRelate(m, challenge, p)
    && FinalRelates(m, challenge, p)
    && p.workDigest == m.workHash(challenge, p.finalActivationDigest)
  }

  lemma InitialExact(m: Model, challenge: Digest, ws: seq<ReductionWitness>, act: seq<i16>)
    requires ValidModel(m) && m.width > 0
    ensures var zs := InitialZs(m, Coefficients(m, challenge, U32_MAX), Size(m));
            InitialCells(m, challenge, ws, act) <==> ws == Reductions(zs) && act == Outputs(zs)
  {
    hide Reduces, Honest, Centered, Mask, Coefficients, Reductions, Outputs, InitialZs, CoefficientCount;
    var zs := InitialZs(m, Coefficients(m, challenge, U32_MAX), Size(m));
    assert |m.baseInput| == Size(m);
    forall k | 0 <= k < Size(m)
      ensures zs[k] == m.baseInput[k] - 125 + Mask(m, challenge, U32_MAX, k)
    {
      MaskIs(m, challenge, U32_MAX, k);
    }
    hide ValidModel;
    Cells(zs, ws, act);
  }

  /** Cell by cell the reductions and outputs of a sequence of values. */
  lemma Cells(zs: seq<i32>, ws: seq<ReductionWitness>, output: seq<i16>)
    requires AllReducible(zs)
    ensures (|ws| == |output| == |zs| && forall k :: 0 <= k < |zs| ==> Reduces(zs[k], ws[k], output[k]))
            <==> ws == Reductions(zs) && output == Outputs(zs)
  {
    hide Reduces, Honest, Centered;
    forall k | 0 <= k < |zs| && k < |ws| && k < |output|
      ensures Reduces(zs[k], ws[k], output[k]) <==> ws[k] == Honest(zs[k]) && output[k] == Centered(zs[k])
    {
      ReducesExactly(zs[k], ws[k], output[k]);
    }
  }

  lemma LayerExact(m: Model, challenge: Digest, j: u32, act: seq<Activation>, layer: LayerWitness)
    requires ValidModel(m) && m.width > 0 && j < |m.weights| && |act| == Size(m)
    ensures LayerCells(m, challenge, j, act, layer) <==> layer == HonestLayer(m, challenge, act, j)
  {
    hide Reduces, Honest, Centered, Mask, Coefficients, Reductions, Outputs, LayerZs, CoefficientCount, Accumulators,
         AccumulatorAt, Sumcheck.ValidateShape, SumcheckTheorems.IsProduct, LayerStatement;
    var w, mask := m.weights[j], Coefficients(m, challenge, j);
    assert |w| == m.width * m.width && SmallBytes(w);
    hide ValidModel;
    var zs := LayerZs(m, act, w, mask, Size(m));
    if |layer.accumulators| == Size(m) {
      AccumulatorsAreProduct(m, act, w, layer.accumulators);
      forall k | 0 <= k < Size(m) && layer.accumulators == Accumulators(m, act, w, Size(m))
        ensures zs[k] == layer.accumulators[k] + Mask(m, challenge, j, k)
      {
        MaskIs(m, challenge, j, k);
      }
      Cells(zs, layer.reductions, layer.output);
    }
  }

  lemma {:induction false} LayersExact(m: Model, block: BlockChallenge, nonce: u64, p: ReferenceProof, n: nat)
    requires ValidModel(m) && m.width > 0 && Relation(m, block, nonce, p) && n <= |m.weights|
    ensures n <= |p.layers| && p.layers[..n] == HonestLayers(m, m.challenge(block, nonce), n)
    ensures InputOf(p, n) == ActivationAt(m, m.challenge(block, nonce), n)
  {
    hide Relation, HonestLayer, HonestLayers, ActivationAt, ValidModel, InputOf;
    if n == 0 {
      StartsHonest(m, block, nonce, p);
    } else {
      LayersExact(m, block, nonce, p, n - 1);
      LayerIsHonest(m, block, nonce, p, n - 1);
      OneMoreLayer(m, m.challenge(block, nonce), p.layers, n - 1);
    }
  }

  lemma LayerIsHonest(m: Model, block: BlockChallenge, nonce: u64, p: ReferenceProof, j: nat)
    requires ValidModel(m) && m.width > 0 && Relation(m, block, nonce, p) && j < |m.weights|
    requires j <= |p.layers| && InputOf(p, j) == ActivationAt(m, m.challenge(block, nonce), j)
    ensures |p.layers| == |m.weights| && InputOf(p, j + 1) == p.layers[j].output
    ensures var challenge := m.challenge(block, nonce);
            p.layers[j] == HonestLayer(m, challenge, ActivationAt(m, challenge, j), j)
  {
    assert |m.weights| <= 4;
    hide Relation, LayerCells, HonestLayer, ActivationAt, ValidModel, InputOf;
    RelatedLayer(m, block, nonce, p, j);
    LayerExact(m, m.challenge(block, nonce), j, ActivationAt(m, m.challenge(block, nonce), j), p.layers[j]);
  }

  lemma OneMoreLayer(m: Model, challenge: Digest, layers: seq<LayerWitness>, j: nat)
    requires ValidModel(m) && j < |m.weights| == |layers| && layers[..j] == HonestLayers(m, challenge, j)
    requires layers[j] == HonestLayer(m, challenge, ActivationAt(m, challenge, j), j)
    ensures layers[..j + 1] == HonestLayers(m, challenge, j + 1)
    ensures layers[j].output == ActivationAt(m, challenge, j + 1)
  {
    hide HonestLayer, HonestLayers, ActivationAt, ValidModel;
    LayerAt(m, challenge, j + 1, j);
    F.LayersGrow(m, challenge, j);
  }

  lemma StartsHonest(m: Model, block: BlockChallenge, nonce: u64, p: ReferenceProof)
    requires ValidModel(m) && m.width > 0 && Relation(m, block, nonce, p)
    ensures p.layers[..0] == HonestLayers(m, m.challenge(block, nonce), 0)
    ensures InputOf(p, 0) == ActivationAt(m, m.challenge(block, nonce), 0)
  {
    hide LayerCells, InitialCells, ValidModel, Encodes, Coefficients, InitialZs, Reductions, Outputs;
    InitialExact(m, m.challenge(block, nonce), p.initialReductions, p.initialActivation);
    F.NoLayers(m, m.challenge(block, nonce));
  }

  lemma RelatedLayer(m: Model, block: BlockChallenge, nonce: u64, p: ReferenceProof, j: u32)
    requires m.width > 0 && Relation(m, block, nonce, p) && j < |m.weights|
    ensures |p.layers| == |m.weights| && LayerCells(m, m.challenge(block, nonce), j, InputOf(p, j), p.layers[j])
    ensures InputOf(p, j + 1) == p.layers[j].output
  {
    hide LayerCells, InitialCells, Encodes;
  }

  lemma SameBytes(act: seq<Activation>, bytes: seq<byte>)
    ensures Encodes(act, bytes) <==> bytes == ActivationBytes(act)
  {
    hide ActivationBytes;
    if Encodes(act, bytes) {
      forall k | 0 <= k < |act| ensures bytes[k] == ActivationBytes(act)[k] {
        assert bytes[k] as int == ActivationBytes(act)[k] as int;
      }
    }
  }

  lemma RelationIsHonest(m: Model, block: BlockChallenge, nonce: u64, p: ReferenceProof)
    requires ValidModel(m) && m.width > 0 && Relation(m, block, nonce, p)
    ensures p == HonestProof(m, block, nonce)
  {
    var challenge := m.challenge(block, nonce);
    hide InitialCells, LayersRelate, ValidModel, Encodes, InputOf, HonestProof, HonestLayers, ActivationAt,
         ActivationBytes;
    LayersExact(m, block, nonce, p, |m.weights|);
    LayerTotal(m, challenge, p);
    assert p.layers[..|m.weights|] == p.layers;
    var bytes :| Encodes(InputOf(p, |p.layers|), bytes) && p.finalActivationDigest == m.outputHash(challenge, bytes);
    SameBytes(ActivationAt(m, challenge, |m.weights|), bytes);
    HonestParts(m, block, nonce);
    SameInitial(m, block, nonce, p);
  }

  lemma LayerTotal(m: Model, challenge: Digest, p: ReferenceProof)
    requires m.width > 0 && LayersRelate(m, challenge, p)
    ensures |p.layers| == |m.weights|
  {
  }

  lemma SameInitial(m: Model, block: BlockChallenge, nonce: u64, p: ReferenceProof)
    requires ValidModel(m) && m.width > 0
    requires InitialCells(m, m.challenge(block, nonce), p.initialReductions, p.initialActivation)
    ensures var honest := HonestProof(m, block, nonce);
            p.initialReductions == honest.initialReductions && p.initialActivation == honest.initialActivation
  {
    hide InitialCells, ValidModel, HonestProof;
    var challenge, honest := m.challenge(block, nonce), HonestProof(m, block, nonce);
    HonestParts(m, block, nonce);
    InitialExact(m, challenge, p.initialReductions, p.initialActivation);
    InitialExact(m, challenge, honest.initialReductions, honest.initialActivation);
  }

  lemma HonestInput(m: Model, block: BlockChallenge, nonce: u64, j: nat)
    requires ValidModel(m) && j <= |m.weights|
    ensures var p := HonestProof(m, block, nonce);
            |p.layers| == |m.weights| && InputOf(p, j) == ActivationAt(m, m.challenge(block, nonce), j)
  {
    hide ValidModel, Coefficients, InitialZs, Reductions, Outputs, HonestLayers, HonestLayer, ActivationBytes;
    if j > 0 { LayerAt(m, m.challenge(block, nonce), |m.weights|, j - 1); }
  }

  lemma HonestParts(m: Model, block: BlockChallenge, nonce: u64)
    requires ValidModel(m) && m.width > 0
    ensures var p, challenge := HonestProof(m, block, nonce), m.challenge(block, nonce);
            && p.nonce == nonce && p.challengeDigest == challenge
            && InitialCells(m, challenge, p.initialReductions, p.initialActivation)
            && p.layers == HonestLayers(m, challenge, |m.weights|)
            && p.finalActivationDigest
               == m.outputHash(challenge, ActivationBytes(ActivationAt(m, challenge, |m.weights|)))
            && p.workDigest == m.workHash(challenge, p.finalActivationDigest)
  {
    hide InitialCells, ValidModel, Coefficients, InitialZs, Reductions, Outputs, HonestLayers, ActivationAt,
         ActivationBytes;
    var p := HonestProof(m, block, nonce);
    InitialExact(m, m.challenge(block, nonce), p.initialReductions, p.initialActivation);
  }

  lemma HonestLayerCells(m: Model, block: BlockChallenge, nonce: u64, j: u32)
    requires ValidModel(m) && m.width > 0 && j < |m.weights|
    ensures var p := HonestProof(m, block, nonce);
            |p.layers| == |m.weights| && LayerCells(m, m.challenge(block, nonce), j, InputOf(p, j), p.layers[j])
  {
    hide InitialCells, LayerCells, ValidModel, HonestLayers, ActivationAt, ActivationBytes, HonestLayer, InputOf,
         HonestProof;
    var challenge := m.challenge(block, nonce);
    HonestParts(m, block, nonce);
    HonestInput(m, block, nonce, j);
    LayerAt(m, challenge, |m.weights|, j);
    LayerExact(m, challenge, j, ActivationAt(m, challenge, j), HonestProof(m, block, nonce).layers[j]);
  }

  lemma HonestFinal(m: Model, block: BlockChallenge, nonce: u64)
    requires ValidModel(m) && m.width > 0
    ensures FinalRelates(m, m.challenge(block, nonce), HonestProof(m, block, nonce))
  {
    hide InitialCells, ValidModel, Encodes, HonestLayers, ActivationAt, ActivationBytes, InputOf, HonestProof;
    var last := ActivationAt(m, m.challenge(block, nonce), |m.weights|);
    HonestParts(m, block, nonce);
    HonestInput(m, block, nonce, |m.weights|);
    SameBytes(last, ActivationBytes(last));
  }

  lemma HonestLayersRelate(m: Model, block: BlockChallenge, nonce: u64)
    requires ValidModel(m) && m.width > 0
    ensures LayersRelate(m, m.challenge(block, nonce), HonestProof(m, block, nonce))
  {
    assert |m.weights| <= 4;
    hide LayerCells, ValidModel, HonestLayers, InputOf, HonestProof;
    HonestInput(m, block, nonce, 0);
    var p := HonestProof(m, block, nonce);
    forall j | 0 <= j < |p.layers| ensures LayerCells(m, m.challenge(block, nonce), j, InputOf(p, j), p.layers[j]) {
      HonestLayerCells(m, block, nonce, j);
    }
  }

  lemma HonestRelates(m: Model, block: BlockChallenge, nonce: u64)
    requires ValidModel(m) && m.width > 0
    ensures Relation(m, block, nonce, HonestProof(m, block, nonce))
  {
    hide InitialCells, LayersRelate, FinalRelates, ValidModel, HonestProof, HonestLayers, ActivationAt, ActivationBytes;
    HonestParts(m, block, nonce);
    HonestLayersRelate(m, block, nonce);
    HonestFinal(m, block, nonce);
  }

  /** The honest proof is the one and only proof in the relation. */
  lemma HonestExactly(m: Model, block: BlockChallenge, nonce: u64, p: ReferenceProof)
    requires ValidModel(m)
    ensures m.width > 0 && (Relation(m, block, nonce, p) <==> p == HonestProof(m, block, nonce))
  {
    hide Relation, HonestProof;
    Shape(m);
    hide ValidModel;
    HonestRelates(m, block, nonce);
    if Relation(m, block, nonce, p) { RelationIsHonest(m, block, nonce, p); }
  }

  /** A compact proof claims the digests of the proof in the relation, under the versions in force. */
  lemma CompactClaims(m: Model, block: BlockChallenge, nonce: u64, p: ReferenceProof)
    requires ValidModel(m) && m.width > 0 && Relation(m, block, nonce, p)
    ensures F.Compact(m, block, nonce)
         == V2Reference(2, 1, nonce, m.manifestDigest, p.challengeDigest, p.finalActivationDigest, p.workDigest)
  {
    hide Relation, HonestProof, ValidModel;
    HonestExactly(m, block, nonce, p);
  }
}
