/** Prover and verifier of reference proofs, as loops over rows, columns and layers. */
module ForgeProofs {
  import opened Prelude
  import opened Arith
  import opened Bytes
  import opened Ledger
  import opened ForgeMatrix

  // ----- prefixes ---------------------------------------------------------------------------------------------

  lemma ReduceSnoc(zs: seq<i32>, z: i32)
    requires AllReducible(zs) && Reducible(z)
    ensures AllReducible(zs + [z])
    ensures Reductions(zs + [z]) == Reductions(zs) + [Honest(z)] && Outputs(zs + [z]) == Outputs(zs) + [Centered(z)]
  {
    hide Honest, Centered;
    assert (zs + [z])[..|zs|] == zs;
  }

  /** One more cell of the initial activation. */
  lemma InitialStep(m: Model, mask: seq<Coefficient>, row: nat, col: nat)
    requires ValidModel(m) && |mask| == CoefficientCount(m) && row < m.rows && col < m.width
    ensures var k := row * m.width + col;
            && 0 <= k < Size(m)
            && InitialZ(m, mask, k) == m.baseInput[k] - CENTER + MaskAt(m, mask, row, col)
            && InitialZs(m, mask, k + 1) == InitialZs(m, mask, k) + [InitialZ(m, mask, k)]
            && Reductions(InitialZs(m, mask, k + 1))
               == Reductions(InitialZs(m, mask, k)) + [Honest(InitialZ(m, mask, k))]
            && Outputs(InitialZs(m, mask, k + 1)) == Outputs(InitialZs(m, mask, k)) + [Centered(InitialZ(m, mask, k))]
  {
    hide Honest, Centered, MaskAt, Reductions, Outputs, CoefficientCount;
    CellInside(m.rows, m.width, row, col);
    var k := row * m.width + col;
    ReduceSnoc(InitialZs(m, mask, k), InitialZ(m, mask, k));
  }

  /** A layer's inputs, well formed. */
  ghost predicate LayerInput(m: Model, act: seq<Activation>, w: seq<u8>, mask: seq<Coefficient>) {
    && ValidModel(m) && |act| == Size(m) && |w| == m.width * m.width && SmallBytes(w) && |mask| == CoefficientCount(m)
  }

  function LayerZ(m: Model, act: seq<Activation>, w: seq<u8>, mask: seq<Coefficient>, k: nat): (z: i32)
    requires LayerInput(m, act, w, mask) && k < Size(m)
    ensures Reducible(z)
  {
    AccumulatorAt(m, act, w, k) + MaskOf(m, mask, k)
  }

  lemma LayerCellFacts(m: Model, act: seq<Activation>, w: seq<u8>, mask: seq<Coefficient>, row: nat, col: nat)
    requires LayerInput(m, act, w, mask) && row < m.rows && col < m.width
    ensures var k := row * m.width + col;
            && 0 <= k < Size(m)
            && AccumulatorAt(m, act, w, k) == Dot(m, act, w, row, col, m.width)
            && LayerZ(m, act, w, mask, k) == AccumulatorAt(m, act, w, k) + MaskAt(m, mask, row, col)
  {
    hide MaskAt, CoefficientCount, Dot, ValidModel;
    CellInside(m.rows, m.width, row, col);
  }

  lemma LayerPrefix(m: Model, act: seq<Activation>, w: seq<u8>, mask: seq<Coefficient>, k: nat)
    requires LayerInput(m, act, w, mask) && k < Size(m)
    ensures Accumulators(m, act, w, k + 1) == Accumulators(m, act, w, k) + [AccumulatorAt(m, act, w, k)]
    ensures LayerZs(m, act, w, mask, k + 1) == LayerZs(m, act, w, mask, k) + [LayerZ(m, act, w, mask, k)]
  {
    hide AccumulatorAt, MaskOf, ValidModel, CoefficientCount;
  }

  lemma LayerStep(m: Model, act: seq<Activation>, w: seq<u8>, mask: seq<Coefficient>, row: nat, col: nat)
    requires LayerInput(m, act, w, mask) && row < m.rows && col < m.width
    ensures var k := row * m.width + col;
            && 0 <= k < Size(m)
            && AccumulatorAt(m, act, w, k) == Dot(m, act, w, row, col, m.width)
            && LayerZ(m, act, w, mask, k) == AccumulatorAt(m, act, w, k) + MaskAt(m, mask, row, col)
            && Accumulators(m, act, w, k + 1) == Accumulators(m, act, w, k) + [AccumulatorAt(m, act, w, k)]
            && LayerZs(m, act, w, mask, k + 1) == LayerZs(m, act, w, mask, k) + [LayerZ(m, act, w, mask, k)]
            && Reductions(LayerZs(m, act, w, mask, k + 1))
               == Reductions(LayerZs(m, act, w, mask, k)) + [Honest(LayerZ(m, act, w, mask, k))]
            && Outputs(LayerZs(m, act, w, mask, k + 1))
               == Outputs(LayerZs(m, act, w, mask, k)) + [Centered(LayerZ(m, act, w, mask, k))]
  {
    hide Honest, Centered, MaskAt, Reductions, Outputs, CoefficientCount, Dot, ValidModel, LayerZs, LayerZ,
         Accumulators, AccumulatorAt;
    LayerCellFacts(m, act, w, mask, row, col);
    var k := row * m.width + col;
    LayerPrefix(m, act, w, mask, k);
    ReduceSnoc(LayerZs(m, act, w, mask, k), LayerZ(m, act, w, mask, k));
  }

  // ----- cells --------------------------------------------------------------------------------------------------

  /** The accumulation loop never leaves 64 bits. */
  method Accumulate(m: Model, act: seq<Activation>, w: seq<u8>, row: nat, col: nat) returns (a: i64)
    requires ValidModel(m) && |act| == Size(m) && |w| == m.width * m.width && SmallBytes(w) && row < m.rows
            && col < m.width
    ensures a == Dot(m, act, w, row, col, m.width) && -500000 <= a <= 500000
  {
    hide ValidModel;
    a := 0;
    var common := 0;
    assert m.width <= 32 by { WidthBound(m); }
    while common < m.width
      invariant 0 <= common <= m.width && a == Dot(m, act, w, row, col, common)
    {
      CellInside(m.rows, m.width, row, common);
      CellInside(m.width, m.width, common, col);
      DotBound(m, act, w, row, col, common + 1);
      a := a + act[row * m.width + common] * (w[common * m.width + col] - CENTER);
      common := common + 1;
    }
    DotBound(m, act, w, row, col, m.width);
  }

  lemma WidthBound(m: Model)
    requires ValidModel(m)
    ensures 0 < m.width <= 32
  {
  }

  /** One initial cell of the prover. */
  method InitialCell(m: Model, mask: seq<Coefficient>, row: nat, col: nat) returns (z: Result<i32, ForgeError>)
    requires ValidModel(m) && row < m.rows && col < m.width
    ensures |mask| == CoefficientCount(m) ==>
              row * m.width + col < Size(m) && z == Ok(InitialZ(m, mask, row * m.width + col))
  {
    hide CoefficientCount, MaskAt, Reducible;
    CellInside(m.rows, m.width, row, col);
    if |mask| == CoefficientCount(m) { InitialStep(m, mask, row, col); }
    var index := row * m.width + col;
    var value := MaskValue(m, mask, row, col);
    if value.Err? { return Err(value.error); }
    var sum: int := m.baseInput[index] - CENTER + value.value;
    if sum > I32_MAX { return Err(ArithmeticOverflow); }
    return Ok(sum);
  }

  // ----- proving --------------------------------------------------------------------------------------------------

  lemma NextRow(row: nat, width: nat)
    ensures (row + 1) * width == row * width + width
  {
    MulDistrib(row, 1, width);
  }

  method ProveInitial(m: Model, mask: seq<Coefficient>)
    returns (r: Result<(seq<ReductionWitness>, seq<Activation>), ForgeError>)
    requires ValidModel(m) && |mask| == CoefficientCount(m)
    ensures var zs := InitialZs(m, mask, Size(m)); r == Ok((Reductions(zs), Outputs(zs)))
  {
    hide Honest, MaskAt, Reductions, Outputs, CoefficientCount, InitialZs, InitialZ, ValidModel;
    var reductions: seq<ReductionWitness> := [];
    var activation: seq<Activation> := [];
    ghost var k := 0;
    EmptyPrefix(m, mask);
    var row := 0;
    while row < m.rows
      invariant 0 <= row <= m.rows && k == row * m.width <= Size(m)
      invariant reductions == Reductions(InitialZs(m, mask, k)) && activation == Outputs(InitialZs(m, mask, k))
    {
      var col := 0;
      while col < m.width
        invariant 0 <= col <= m.width && k == row * m.width + col <= Size(m)
        invariant reductions == Reductions(InitialZs(m, mask, k)) && activation == Outputs(InitialZs(m, mask, k))
      {
        InitialStep(m, mask, row, col);
        var z := InitialCell(m, mask, row, col);
        if z.Err? { return Err(ArithmeticOverflow); }
        var reduction := ReductionWitnessFor(z.value);
        if reduction.Err? { return Err(ArithmeticOverflow); }
        var centered := CenteredActivation(reduction.value.outputRemainder);
        if centered.Err? { return Err(OutputRange); }
        activation := activation + [centered.value];
        reductions := reductions + [reduction.value];
        col := col + 1;
        k := k + 1;
      }
      NextRow(row, m.width);
      row := row + 1;
    }
    return Ok((reductions, activation));
  }

  lemma EmptyPrefix(m: Model, mask: seq<Coefficient>)
    requires ValidModel(m) && |mask| == CoefficientCount(m)
    ensures InitialZs(m, mask, 0) == [] && Reductions([]) == [] && Outputs([]) == [] && 0 * m.width == 0
  {
  }

  method ProveLayer(m: Model, act: seq<Activation>, w: seq<u8>, mask: seq<Coefficient>)
    returns (r: Result<LayerWitness, ForgeError>)
    requires LayerInput(m, act, w, mask)
    ensures var zs := LayerZs(m, act, w, mask, Size(m));
            r == Ok(LayerWitness(Accumulators(m, act, w, Size(m)), Reductions(zs), Outputs(zs)))
  {
    hide Honest, MaskAt, Reductions, Outputs, CoefficientCount, LayerZs, LayerZ, Accumulators, AccumulatorAt, Dot,
         ValidModel;
    var accumulators: seq<i32> := [];
    var reductions: seq<ReductionWitness> := [];
    var output: seq<Activation> := [];
    ghost var k := 0;
    EmptyLayer(m, act, w, mask);
    var row := 0;
    while row < m.rows
      invariant 0 <= row <= m.rows && k == row * m.width <= Size(m)
      invariant accumulators == Accumulators(m, act, w, k)
      invariant reductions == Reductions(LayerZs(m, act, w, mask, k)) && output == Outputs(LayerZs(m, act, w, mask, k))
    {
      var col := 0;
      while col < m.width
        invariant 0 <= col <= m.width && k == row * m.width + col <= Size(m)
        invariant accumulators == Accumulators(m, act, w, k)
        invariant reductions == Reductions(LayerZs(m, act, w, mask, k))
                  && output == Outputs(LayerZs(m, act, w, mask, k))
      {
        LayerStep(m, act, w, mask, row, col);
        var accumulator, reduction, centered := LayerCell(m, act, w, mask, row, col);
        if reduction.Err? { return Err(ArithmeticOverflow); }
        accumulators := accumulators + [accumulator];
        output := output + [centered];
        reductions := reductions + [reduction.value];
        col := col + 1;
        k := k + 1;
      }
      NextRow(row, m.width);
      row := row + 1;
    }
    return Ok(LayerWitness(accumulators, reductions, output));
  }

  /** One layer cell: accumulate, mask, reduce, recentre. No check in it can fail. */
  method LayerCell(m: Model, act: seq<Activation>, w: seq<u8>, mask: seq<Coefficient>, row: nat, col: nat)
    returns (accumulator: i32, r: Result<ReductionWitness, ForgeError>, centered: Activation)
    requires LayerInput(m, act, w, mask) && row < m.rows && col < m.width
    ensures var k := row * m.width + col;
            && 0 <= k < Size(m) && accumulator == AccumulatorAt(m, act, w, k)
            && r == Ok(Honest(LayerZ(m, act, w, mask, k))) && centered == Centered(LayerZ(m, act, w, mask, k))
  {
    hide Honest, MaskAt, Reductions, Outputs, CoefficientCount, LayerZs, LayerZ, Accumulators, AccumulatorAt, Dot,
         ValidModel;
    LayerStep(m, act, w, mask, row, col);
    centered := 0;
    var sum := Accumulate(m, act, w, row, col);
    accumulator := sum;
    var value := MaskValue(m, mask, row, col);
    if value.Err? { r := Err(InvalidShape); return; }
    if accumulator + value.value > I32_MAX { r := Err(ArithmeticOverflow); return; }
    r := ReductionWitnessFor(accumulator + value.value);
    if r.Err? { return; }
    var encoded := CenteredActivation(r.value.outputRemainder);
    if encoded.Err? { r := Err(OutputRange); return; }
    centered := encoded.value;
  }

  lemma EmptyLayer(m: Model, act: seq<Activation>, w: seq<u8>, mask: seq<Coefficient>)
    requires LayerInput(m, act, w, mask)
    ensures LayerZs(m, act, w, mask, 0) == [] && Accumulators(m, act, w, 0) == []
    ensures Reductions([]) == [] && Outputs([]) == [] && 0 * m.width == 0
  {
    hide ValidModel;
  }

  /** The encoding loop over the final activation. */
  method EncodeActivation(act: seq<Activation>) returns (r: Result<seq<byte>, ForgeError>)
    ensures r == Ok(ActivationBytes(act))
  {
    var bytes: seq<byte> := [];
    var k := 0;
    while k < |act|
      invariant 0 <= k <= |act| && bytes == ActivationBytes(act[..k])
    {
      var encoded: int := act[k] + CENTER;
      if encoded < 0 || encoded > 250 { return Err(ActivationEncoding); }
      assert act[..k + 1][..k] == act[..k];
      bytes := bytes + [encoded as byte];
      k := k + 1;
    }
    assert act[..|act|] == act;
    return Ok(bytes);
  }

  /** On the model's own network proving always succeeds, with the honest proof. */
  method ProveReference(m: Model, block: BlockChallenge, nonce: u64) returns (r: Result<ReferenceProof, ForgeError>)
    requires ValidModel(m)
    ensures r == if block.networkId == m.networkId then Ok(HonestProof(m, block, nonce)) else Err(WrongNetwork)
  {
    hide Honest, Reductions, Outputs, InitialZs, LayerZs, Accumulators, ActivationBytes, ValidModel, Coefficients;
    if block.networkId != m.networkId { return Err(WrongNetwork); }
    var challenge := m.challenge(block, nonce);
    var start := ProveInitial(m, Coefficients(m, challenge, U32_MAX));
    if start.Err? { return Err(ArithmeticOverflow); }
    var activation := start.value.1;
    var layers: seq<LayerWitness> := [];
    var j := 0;
    WeightShape(m);
    while j < |m.weights|
      invariant 0 <= j <= |m.weights| <= 4
      invariant activation == ActivationAt(m, challenge, j) && layers == HonestLayers(m, challenge, j)
    {
      LayerAt(m, challenge, j + 1, j);
      var layer := ProveLayer(m, activation, m.weights[j], Coefficients(m, challenge, j));
      if layer.Err? { return Err(ArithmeticOverflow); }
      activation := layer.value.output;
      layers := layers + [layer.value];
      j := j + 1;
    }
    var bytes := EncodeActivation(activation);
    if bytes.Err? { return Err(ActivationEncoding); }
    var output := m.outputHash(challenge, bytes.value);
    return Ok(ReferenceProof(nonce, challenge, start.value.0, start.value.1, layers, output,
                             m.workHash(challenge, output)));
  }

  lemma WeightShape(m: Model)
    requires ValidModel(m)
    ensures |m.weights| <= 4
    ensures forall j :: 0 <= j < |m.weights| ==> |m.weights[j]| == m.width * m.width && SmallBytes(m.weights[j])
  {
  }

  // ----- verifying ------------------------------------------------------------------------------------------------

  /** Accepts exactly the honest initial part, and returns its activation. */
  method VerifyInitial(m: Model, mask: seq<Coefficient>, reductions: seq<ReductionWitness>, claimed: seq<i16>)
    returns (r: Result<seq<Activation>, ForgeError>)
    requires ValidModel(m) && |mask| == CoefficientCount(m) && |reductions| == |claimed| == Size(m)
    ensures var zs := InitialZs(m, mask, Size(m));
            && (r.Ok? <==> reductions == Reductions(zs) && claimed == Outputs(zs))
            && (r.Ok? ==> r.value == Outputs(zs))
  {
    hide Honest, MaskAt, Reductions, Outputs, CoefficientCount, InitialZs, InitialZ, ValidModel, CheckReduction;
    var activation: seq<Activation> := [];
    ghost var zs := InitialZs(m, mask, Size(m));
    ghost var k := 0;
    EmptyPrefix(m, mask);
    var row := 0;
    while row < m.rows
      invariant 0 <= row <= m.rows && k == row * m.width <= Size(m)
      invariant activation == Outputs(InitialZs(m, mask, k))
      invariant Matching(zs, reductions, claimed, k)
    {
      var col := 0;
      while col < m.width
        invariant 0 <= col <= m.width && k == row * m.width + col <= Size(m)
        invariant activation == Outputs(InitialZs(m, mask, k))
        invariant Matching(zs, reductions, claimed, k)
      {
        InitialStep(m, mask, row, col);
        var z := InitialCell(m, mask, row, col);
        if z.Err? { return Err(ArithmeticOverflow); }
        var cell := VerifyCell(z.value, reductions[row * m.width + col], claimed[row * m.width + col]);
        if cell.Err? { return Err(cell.error); }
        activation := activation + [cell.value];
        col := col + 1;
        k := k + 1;
      }
      NextRow(row, m.width);
      row := row + 1;
    }
    MatchingAll(zs, reductions, claimed);
    return Ok(activation);
  }

  /** The first k cells are the honest ones. */
  ghost predicate Matching(zs: seq<i32>, reductions: seq<ReductionWitness>, claimed: seq<i16>, k: nat)
    requires |zs| == |reductions| == |claimed| && AllReducible(zs) && k <= |zs|
  {
    forall i :: 0 <= i < k ==> reductions[i] == Honest(zs[i]) && claimed[i] == Centered(zs[i])
  }

  lemma MatchingAll(zs: seq<i32>, reductions: seq<ReductionWitness>, claimed: seq<i16>)
    requires |zs| == |reductions| == |claimed| && AllReducible(zs) && Matching(zs, reductions, claimed, |zs|)
    ensures reductions == Reductions(zs) && claimed == Outputs(zs)
  {
    hide Honest, Centered;
  }

  /** One cell: the witness checks, and the claimed activation is its centred remainder. */
  method VerifyCell(z: i32, reduction: ReductionWitness, claimed: i16) returns (r: Result<Activation, ForgeError>)
    requires Reducible(z)
    ensures r.Ok? <==> reduction == Honest(z) && claimed == Centered(z)
    ensures r.Ok? ==> r.value == Centered(z)
  {
    hide CheckReduction;
    ReductionExact(z, reduction);
    var checked := CheckReduction(z, reduction);
    if checked.Err? { return Err(checked.error); }
    var expected := CenteredActivation(reduction.outputRemainder);
    if expected.Err? { return Err(OutputRange); }
    if claimed != expected.value { return Err(ActivationEncoding); }
    return Ok(expected.value);
  }

  /** One layer cell: the claimed accumulator, witness and output are the honest ones. */
  method VerifyLayerCell(m: Model, act: seq<Activation>, w: seq<u8>, mask: seq<Coefficient>, row: nat, col: nat,
                         accumulator: i32, reduction: ReductionWitness, claimed: i16)
    returns (r: Result<Activation, ForgeError>)
    requires LayerInput(m, act, w, mask) && row < m.rows && col < m.width
    ensures var k := row * m.width + col;
            && 0 <= k < Size(m)
            && (r.Ok? <==>
                  && accumulator == AccumulatorAt(m, act, w, k) && reduction == Honest(LayerZ(m, act, w, mask, k))
                  && claimed == Centered(LayerZ(m, act, w, mask, k)))
            && (r.Ok? ==> r.value == Centered(LayerZ(m, act, w, mask, k)))
  {
    hide Honest, MaskAt, CoefficientCount, LayerZ, AccumulatorAt, Dot, ValidModel, Centered;
    LayerCellFacts(m, act, w, mask, row, col);
    var expected := Accumulate(m, act, w, row, col);
    if accumulator != expected { return Err(Accumulator); }
    var value := MaskValue(m, mask, row, col);
    if value.Err? { return Err(InvalidShape); }
    var z: int := accumulator + value.value;
    if z > I32_MAX { return Err(ArithmeticOverflow); }
    r := VerifyCell(z, reduction, claimed);
  }

  /** Accepts exactly the honest layer, and returns its output. */
  method VerifyLayer(m: Model, act: seq<Activation>, w: seq<u8>, mask: seq<Coefficient>, layer: LayerWitness)
    returns (r: Result<seq<Activation>, ForgeError>)
    requires LayerInput(m, act, w, mask)
    ensures var zs := LayerZs(m, act, w, mask, Size(m));
            && (r.Ok? <==> layer == LayerWitness(Accumulators(m, act, w, Size(m)), Reductions(zs), Outputs(zs)))
            && (r.Ok? ==> r.value == Outputs(zs))
  {
    hide Honest, MaskAt, Reductions, Outputs, CoefficientCount, LayerZs, LayerZ, Accumulators, AccumulatorAt, Dot,
         ValidModel;
    if |layer.accumulators| != Size(m) || |layer.reductions| != Size(m) || |layer.output| != Size(m) {
      return Err(WitnessShape);
    }
    var next: seq<Activation> := [];
    ghost var zs := LayerZs(m, act, w, mask, Size(m));
    ghost var accs := Accumulators(m, act, w, Size(m));
    ghost var k := 0;
    EmptyLayer(m, act, w, mask);
    var row := 0;
    while row < m.rows
      invariant 0 <= row <= m.rows && k == row * m.width <= Size(m)
      invariant next == Outputs(LayerZs(m, act, w, mask, k))
      invariant Matching(zs, layer.reductions, layer.output, k)
      invariant forall i :: 0 <= i < k ==> layer.accumulators[i] == accs[i]
    {
      var col := 0;
      while col < m.width
        invariant 0 <= col <= m.width && k == row * m.width + col <= Size(m)
        invariant next == Outputs(LayerZs(m, act, w, mask, k))
        invariant Matching(zs, layer.reductions, layer.output, k)
        invariant forall i :: 0 <= i < k ==> layer.accumulators[i] == accs[i]
      {
        LayerStep(m, act, w, mask, row, col);
        LayerZDef(m, act, w, mask, k);
        var index := row * m.width + col;
        var cell := VerifyLayerCell(m, act, w, mask, row, col, layer.accumulators[index], layer.reductions[index],
                                    layer.output[index]);
        if cell.Err? { return Err(cell.error); }
        next := next + [cell.value];
        col := col + 1;
        k := k + 1;
      }
      NextRow(row, m.width);
      row := row + 1;
    }
    MatchingAll(zs, layer.reductions, layer.output);
    assert layer.accumulators == accs;
    return Ok(next);
  }

  lemma LayerZDef(m: Model, act: seq<Activation>, w: seq<u8>, mask: seq<Coefficient>, k: nat)
    requires LayerInput(m, act, w, mask) && k < Size(m)
    ensures LayerZs(m, act, w, mask, Size(m))[k] == LayerZ(m, act, w, mask, k)
  {
    hide ValidModel, Dot, MaskAt;
  }

  /** All layers in turn; the activation threads through. */
  method VerifyLayers(m: Model, challenge: Digest, start: seq<Activation>, layers: seq<LayerWitness>)
    returns (r: Result<seq<Activation>, ForgeError>)
    requires ValidModel(m) && start == ActivationAt(m, challenge, 0) && |layers| == |m.weights|
    ensures r.Ok? <==> layers == HonestLayers(m, challenge, |m.weights|)
    ensures r.Ok? ==> r.value == ActivationAt(m, challenge, |m.weights|)
  {
    hide Reductions, Outputs, InitialZs, LayerZs, Accumulators, ValidModel, Coefficients, ActivationAt, HonestLayers;
    var activation := start;
    WeightShape(m);
    NoLayers(m, challenge);
    var j := 0;
    while j < |m.weights|
      invariant 0 <= j <= |m.weights| <= 4
      invariant activation == ActivationAt(m, challenge, j)
      invariant layers[..j] == HonestLayers(m, challenge, j)
    {
      LayerAt(m, challenge, |m.weights|, j);
      LayersGrow(m, challenge, j);
      var next := VerifyLayer(m, activation, m.weights[j], Coefficients(m, challenge, j), layers[j]);
      if next.Err? { return Err(next.error); }
      activation := next.value;
      assert layers[..j + 1] == layers[..j] + [layers[j]];
      j := j + 1;
    }
    assert layers[..|layers|] == layers;
    return Ok(activation);
  }

  lemma NoLayers(m: Model, challenge: Digest)
    requires ValidModel(m)
    ensures HonestLayers(m, challenge, 0) == []
  {
    hide ValidModel;
  }

  lemma LayersGrow(m: Model, challenge: Digest, j: nat)
    requires ValidModel(m) && j < |m.weights|
    ensures HonestLayers(m, challenge, j + 1)
         == HonestLayers(m, challenge, j) + [HonestLayer(m, challenge, ActivationAt(m, challenge, j), j)]
  {
    hide ValidModel, HonestLayer, ActivationAt;
  }

  /** A proof is accepted exactly when it is the honest proof for its nonce and its work meets the target. */
  method VerifyReference(m: Model, block: BlockChallenge, proof: ReferenceProof) returns (r: Result<(), ForgeError>)
    requires ValidModel(m)
    ensures r.Ok? <==>
            && block.networkId == m.networkId
            && proof == HonestProof(m, block, proof.nonce)
            && TargetValue(proof.workDigest) <= block.target
    ensures block.networkId == m.networkId && proof == HonestProof(m, block, proof.nonce) && r.Err? ==>
            r == Err(HighHash)
  {
    hide Reductions, Outputs, InitialZs, LayerZs, Accumulators, ActivationBytes, ValidModel, Coefficients, TargetValue;
    if block.networkId != m.networkId { return Err(WrongNetwork); }
    var challenge := m.challenge(block, proof.nonce);
    if proof.challengeDigest != challenge { return Err(ChallengeMismatch); }
    if |proof.initialReductions| != Size(m) || |proof.initialActivation| != Size(m) || |proof.layers| != |m.weights| {
      return Err(WitnessShape);
    }
    var start := VerifyInitial(m, Coefficients(m, challenge, U32_MAX), proof.initialReductions,
                               proof.initialActivation);
    if start.Err? { return Err(start.error); }
    var final := VerifyLayers(m, challenge, start.value, proof.layers);
    if final.Err? { return Err(final.error); }
    var bytes := EncodeActivation(final.value);
    if bytes.Err? { return Err(ActivationEncoding); }
    var output := m.outputHash(challenge, bytes.value);
    if proof.finalActivationDigest != output { return Err(OutputDigest); }
    if proof.workDigest != m.workHash(challenge, output) { return Err(WorkDigest); }
    if TargetValue(proof.workDigest) > block.target { return Err(HighHash); }
    return Ok(());
  }

  // ----- compact proofs ---------------------------------------------------------------------------------------

  /** The digests of the honest proof, without its witness. */
  function Compact(m: Model, block: BlockChallenge, nonce: u64): BlockProof
    requires ValidModel(m)
  {
    var p := HonestProof(m, block, nonce);
    V2Reference(ALGORITHM_VERSION, PROOF_VERSION, nonce, m.manifestDigest, p.challengeDigest,
                p.finalActivationDigest, p.workDigest)
  }

  method ProveCompact(m: Model, block: BlockChallenge, nonce: u64) returns (r: Result<BlockProof, ForgeError>)
    requires ValidModel(m)
    ensures r == if block.networkId == m.networkId then Ok(Compact(m, block, nonce)) else Err(WrongNetwork)
  {
    hide HonestProof, ValidModel;
    var p := ProveReference(m, block, nonce);
    if p.Err? { return Err(p.error); }
    return Ok(V2Reference(ALGORITHM_VERSION, PROOF_VERSION, nonce, m.manifestDigest, p.value.challengeDigest,
                          p.value.finalActivationDigest, p.value.workDigest));
  }

  /** Full recomputation: a compact claim is accepted exactly when it is the honest one and meets the target. */
  method VerifyCompact(m: Model, block: BlockChallenge, proof: BlockProof) returns (r: Result<(), ForgeError>)
    requires ValidModel(m) && proof.V2Reference?
    ensures r.Ok? <==>
            && block.networkId == m.networkId
            && proof == Compact(m, block, proof.nonce)
            && TargetValue(proof.workDigest) <= block.target
  {
    hide HonestProof, ValidModel, TargetValue;
    if block.networkId != m.networkId { return Err(WrongNetwork); }
    if proof.algorithmVersion != ALGORITHM_VERSION { return Err(AlgorithmVersion); }
    if proof.proofVersion != PROOF_VERSION { return Err(ProofVersion); }
    if proof.modelManifestDigest != m.manifestDigest { return Err(ModelManifestDigest); }
    var expected := ProveReference(m, block, proof.nonce);
    if proof.challengeDigest != expected.value.challengeDigest { return Err(ChallengeMismatch); }
    if proof.finalActivationDigest != expected.value.finalActivationDigest { return Err(OutputDigest); }
    if proof.workDigest != expected.value.workDigest { return Err(WorkDigest); }
    if TargetValue(proof.workDigest) > block.target { return Err(HighHash); }
    return Ok(());
  }

  function NonceAt(start: u64, offset: nat): u64 { (start + offset) % (U64_MAX + 1) }

  predicate Wins(m: Model, block: BlockChallenge, nonce: u64)
    requires ValidModel(m)
  {
    TargetValue(Compact(m, block, nonce).workDigest) <= block.target
  }

  /** The search returns the first winning nonce of the wrapping interval, or finds that there is none. */
  method MineCompact(m: Model, block: BlockChallenge, start: u64, attempts: u64)
    returns (r: Result<BlockProof, ForgeError>, ghost offset: nat)
    requires ValidModel(m)
    ensures block.networkId != m.networkId && attempts > 0 ==> r == Err(WrongNetwork)
    ensures r.Ok? ==> && offset < attempts && r.value == Compact(m, block, NonceAt(start, offset))
                      && Wins(m, block, NonceAt(start, offset))
                      && forall i :: 0 <= i < offset ==> !Wins(m, block, NonceAt(start, i))
    ensures r.Err? && block.networkId == m.networkId ==>
              r == Err(NonceExhausted) && forall i :: 0 <= i < attempts ==> !Wins(m, block, NonceAt(start, i))
  {
    hide HonestProof, ValidModel, TargetValue;
    offset := 0;
    var i := 0;
    while i < attempts
      invariant 0 <= i <= attempts && offset == i
      invariant i > 0 ==> block.networkId == m.networkId
      invariant forall j :: 0 <= j < i ==> !Wins(m, block, NonceAt(start, j))
    {
      var proof := ProveCompact(m, block, NonceAt(start, i));
      if proof.Err? { return Err(proof.error), i; }
      if TargetValue(proof.value.workDigest) <= block.target { return Ok(proof.value), i; }
      i := i + 1;
      offset := i;
    }
    return Err(NonceExhausted), offset;
  }
}
