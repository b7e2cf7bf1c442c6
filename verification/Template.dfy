/** Block templates built from the pool, and when a solved template is accepted. */
module Template {
  import opened Prelude
  import opened Ledger
  import opened Consensus
  import opened Utxo
  import opened BlockRules
  import opened Chain
  import opened Forks
  import opened Mempool
  import D = Difficulty
  import E = Economics
  import K = Merkle
  import W = WireObjects
  import F = WireFormat
  import Wire

  datatype BlockTemplate = BlockTemplate(
    challenge: BlockChallenge, coinbase: Coinbase, transactions: seq<Transaction>, feesBurned: u64)

  datatype TemplateError =
    | InvalidMinerDestination
    | TemplateTimeUnavailable
    | TemplateChainFailure(e: ChainError)

  function Max(a: int, b: int): int { if a >= b then a else b }

  /** The template for the next height of a state. */
  ghost function TemplateOn(c: Crypto, s: State, pool: seq<MempoolEntry>, miner: Digest, now: u64)
    : Result<BlockTemplate, TemplateError>
    requires s.rawTimestamps != []
  {
    if !c.channel.validKey(miner) then Err(InvalidMinerDestination)
    else
      var earliest := D.MedianTimestamp(s.rawTimestamps) + 1;
      if earliest > U64_MAX || now + s.params.maxFutureOffset > U64_MAX then Err(TemplateTimeUnavailable)
      else
        var timestamp := Max(now, earliest);
        if timestamp > now + s.params.maxFutureOffset then Err(TemplateTimeUnavailable)
        else
          var txs := Txs(pool);
          var set_ := ValidateSet(c, s, txs);
          if set_.Err? then Err(TemplateChainFailure(set_.error))
          else
            var a := E.Allocate(s.params.policy, s.nextHeight, set_.value.0);
            if a.Err? then Err(TemplateChainFailure(EconomicsFailure(a.error)))
            else if StateTarget(s).Err? then Err(TemplateChainFailure(DifficultyFailure(StateTarget(s).error)))
            else
              var coinbase := Coinbase(s.nextHeight, CoinbaseOutputs(s.nextHeight, a.value, miner, s.params.rewards));
              var ids := [c.coinbaseCommitment(coinbase, s.params.networkId)] + TxIds(c, txs);
              TargetIsU256(s);
              Ok(BlockTemplate(
                BlockChallenge(s.params.networkId, s.tip, K.Root(c, ids), s.nextHeight, timestamp,
                               StateTarget(s).value),
                coinbase, txs, set_.value.0))
  }

  lemma TargetIsU256(s: State)
    requires StateTarget(s).Ok?
    ensures 0 <= StateTarget(s).value < TWO_256
  {
    hide D.Ordered, D.NonzeroTargets, D.Average, D.TargetSum, D.Clamp, D.MeasuredSpan, D.ExpectedSpan, D.Adjusted;
    var w := D.Window(s.history);
    if |w| >= 2 { D.AdjustedBounds(w); AverageNonneg(w); }
  }

  lemma AverageNonneg(w: seq<D.HeaderWork>)
    requires |w| > 0
    ensures D.Average(w) >= 0 && D.Average(w) / 3 >= 0
  {
  }

  /** Template construction on a live state. */
  method BuildTemplate(state: ChainState, pool: seq<MempoolEntry>, miner: Digest, now: u64)
    returns (r: Result<BlockTemplate, TemplateError>)
    requires state.Valid()
    ensures r == TemplateOn(state.crypto, state.View(), pool, miner, now)
  {
    hide D.MedianTimestamp, D.ExpectedTarget, ValidateSet, Txs, K.Root, E.Allocate, CoinbaseOutputs, TxIds;
    var c, p := state.crypto, state.params;
    if !c.channel.validKey(miner) { return Err(InvalidMinerDestination); }
    var earliest := D.MedianTimestamp(state.rawTimestamps) + 1;
    if earliest > U64_MAX { return Err(TemplateTimeUnavailable); }
    if now + p.maxFutureOffset > U64_MAX { return Err(TemplateTimeUnavailable); }
    var timestamp := Max(now, earliest);
    if timestamp > now + p.maxFutureOffset { return Err(TemplateTimeUnavailable); }
    var txs := Txs(pool);
    var checked := state.ValidateTransactionsForNextBlock(txs);
    if checked.Err? { return Err(TemplateChainFailure(checked.error)); }
    var a := E.Allocate(p.policy, state.nextHeight, checked.value.0);
    if a.Err? { return Err(TemplateChainFailure(EconomicsFailure(a.error))); }
    var coinbase := Coinbase(state.nextHeight, CoinbaseOutputs(state.nextHeight, a.value, miner, p.rewards));
    var root := K.MerkleRoot(c, [c.coinbaseCommitment(coinbase, p.networkId)] + TxIds(c, txs));
    var target := D.NextWorkTarget(state.history, p.powLimit);
    if target.Err? { return Err(TemplateChainFailure(DifficultyFailure(target.error))); }
    return Ok(BlockTemplate(BlockChallenge(p.networkId, state.tip, root, state.nextHeight, timestamp, target.value),
                            coinbase, txs, checked.value.0));
  }

  function Solved(t: BlockTemplate, proof: BlockProof): Block {
    Block(BLOCK_VERSION, t.challenge, proof, t.coinbase, t.transactions)
  }

  // ----- which heights can be mined -----------------------------------------------------------------------

  /** The rewards at a height form a coinbase the block rules accept. */
  ghost predicate Mintable(p: E.MonetaryPolicy, height: u64)
    requires E.Validate(p).Ok?
  {
    var a := E.Allocate(p, height, 0).value;
    a.miner > 0 && (a.steward > 0 || a.community == 0)
  }

  /** Tail heights; earlier ones by the percentages and the rounding of the steward share. */
  ghost predicate PercentagesAllow(p: E.MonetaryPolicy, height: u64)
    requires E.Validate(p).Ok?
  {
    || height >= p.tailHeight
    || ((p.stewardPercent != 0 || p.communityPercent == 0)
        && (p.stewardPercent + p.communityPercent < 100 || (E.Subsidy(p, height) * p.stewardPercent) % 100 != 0))
  }

  /** Exactly which heights can be mined. */
  lemma MintableHeights(p: E.MonetaryPolicy, height: u64)
    requires E.Validate(p).Ok?
    ensures Mintable(p, height) <==> PercentagesAllow(p, height)
  {
    if height < p.tailHeight {
      E.PreTailRewards(p, height, 0);
      if p.stewardPercent == 0 { ZeroShare(E.Subsidy(p, height)); }
    }
  }

  lemma ZeroShare(amount: u64)
    ensures E.PercentOf(amount, 0) == 0
  {
  }

  lemma {:induction false} InsertedHaveValue(u: UtxoSet, txid: Digest, outputs: seq<TxOutput>, n: nat)
    requires n <= |outputs| && InsertOutputs(u, txid, outputs, n).Ok?
    ensures forall i :: 0 <= i < n ==> outputs[i].value > 0
  {
    if n > 0 { InsertedHaveValue(u, txid, outputs, n - 1); }
  }

  lemma SameRewards(p: E.MonetaryPolicy, height: u64, fees: u64)
    requires E.Validate(p).Ok?
    ensures E.Allocate(p, height, fees).value == E.Allocate(p, height, 0).value.(feesBurned := fees)
  {
    hide E.Validate, E.Subsidy;
  }

  lemma AcceptedIsMintable(c: Crypto, p: NetworkParams, u: UtxoSet, b: Block)
    requires ApplyBlock(c, p, u, b).Ok? && E.Validate(p.policy).Ok?
    ensures Mintable(p.policy, b.challenge.height)
  {
    hide ApplyTransactions, ValidateCoinbase, InsertOutputs, E.Validate, E.Allocate;
    var applied := ApplyTransactions(c, u, b.transactions, |b.transactions|, b.challenge.height, p.networkId).value;
    var a := E.Allocate(p.policy, b.challenge.height, applied.fee).value;
    SameRewards(p.policy, b.challenge.height, applied.fee);
    CoinbasePaysSubsidy(c, b.coinbase, a, p.rewards);
    InsertedHaveValue(applied.utxos, CoinbaseTxid(c, b), b.coinbase.outputs, |b.coinbase.outputs|);
  }

  /** No block whatever is valid at a height that is not mintable: the chain stops there. */
  lemma UnmintableHeightStalls(c: Crypto, s: State, b: Block, now: u64)
    requires s.rawTimestamps != [] && E.Validate(s.params.policy).Ok? && !Mintable(s.params.policy, s.nextHeight)
    ensures Step(c, s, b, now).Err?
  {
    hide Step, ApplyBlock, E.Validate, Mintable;
    if Step(c, s, b, now).Ok? {
      StepHeight(c, s, b, now);
      AcceptedIsMintable(c, s.params, s.utxos, b);
    }
  }

  /** A policy the program accepts, under which no block before the tail can ever be valid. */
  lemma CommunityOnlyPolicyStalls()
    ensures var p := E.MonetaryPolicy(1000, 3, 1, 0, 10);
            E.Validate(p).Ok? && !Mintable(p, 1) && !Mintable(p, 2)
  {
    var p := E.MonetaryPolicy(1000, 3, 1, 0, 10);
    assert E.DecliningSubsidy(p, 2) == 500;
    assert E.PercentOf(500, 10) == 50 && E.PercentOf(500, 0) == 0;
    MintableHeights(p, 1);
    MintableHeights(p, 2);
  }

  // ----- the coinbase goes in -----------------------------------------------------------------------------

  ghost predicate FreshPoints(u: UtxoSet, txid: Digest, n: nat) {
    forall i :: 0 <= i < n ==> OutputPoint(txid, i) !in u.outputs
  }

  /** Key-locked outputs go in exactly when they have value and their points are unused. */
  lemma {:induction false} KeyOutputsInsert(u: UtxoSet, txid: Digest, outputs: seq<TxOutput>, n: nat)
    requires n <= |outputs| <= U32_MAX && forall i :: 0 <= i < n ==> outputs[i].lock.KeyLock?
    ensures InsertOutputs(u, txid, outputs, n).Ok? <==>
            FreshPoints(u, txid, n) && forall i :: 0 <= i < n ==> outputs[i].value > 0
    ensures InsertOutputs(u, txid, outputs, n).Ok? ==>
              forall op :: op in InsertOutputs(u, txid, outputs, n).value.outputs ==>
                op in u.outputs || (op.txid == txid && op.index < n)
    ensures InsertOutputs(u, txid, outputs, n).Ok? ==>
            u.outputs.Keys <= InsertOutputs(u, txid, outputs, n).value.outputs.Keys
  {
    hide InsertOutput;
    if n > 0 {
      KeyOutputsInsert(u, txid, outputs, n - 1);
      if InsertOutputs(u, txid, outputs, n - 1).Ok? {
        KeyInsert(InsertOutputs(u, txid, outputs, n - 1).value, OutputPoint(txid, n - 1), outputs[n - 1]);
      }
    }
  }

  lemma KeyInsert(u: UtxoSet, op: OutPoint, o: TxOutput)
    requires o.lock.KeyLock?
    ensures InsertOutput(u, op, o).Ok? <==> o.value > 0 && op !in u.outputs
    ensures InsertOutput(u, op, o).Ok? ==> InsertOutput(u, op, o).value.outputs == u.outputs[op := o]
  {
  }

  /** The payout part of a block: the coinbase of a template is inserted exactly on these conditions. */
  lemma CoinbaseInserts(c: Crypto, p: NetworkParams, u: UtxoSet, height: u64, fees: u64, miner: Digest, txid: Digest)
    requires E.Validate(p.policy).Ok? && c.channel.validKey(miner)
    ensures var a := E.Allocate(p.policy, height, fees).value;
            var cb := Coinbase(height, CoinbaseOutputs(height, a, miner, p.rewards));
            (ValidateCoinbase(c, cb, a, p.rewards).Ok? && InsertOutputs(u, txid, cb.outputs, |cb.outputs|).Ok?)
            <==> Mintable(p.policy, height) && FreshPoints(u, txid, |cb.outputs|)
  {
    hide E.Validate, E.Subsidy, ValidateCoinbase, InsertOutputs;
    var a := E.Allocate(p.policy, height, fees).value;
    assert a == E.Allocate(p.policy, height, 0).value.(feesBurned := fees);
    var cb := Coinbase(height, CoinbaseOutputs(height, a, miner, p.rewards));
    BuiltCoinbaseAccepted(c, height, a, miner, p.rewards);
    KeyOutputsInsert(u, txid, cb.outputs, |cb.outputs|);
    assert cb.outputs[0].value == a.miner;
  }

  // ----- the block fits its frame ---------------------------------------------------------------------------

  lemma {:induction false} PoolFits(c: Crypto, pool: seq<MempoolEntry>)
    requires forall i :: 0 <= i < |pool| ==> Measured(c, pool[i])
    ensures |F.WriteMany(W.EmbeddedTransaction, Txs(pool))| <= ByteSum(pool)
  {
    if pool != [] {
      var shorter, e := pool[..|pool| - 1], pool[|pool| - 1];
      PoolFits(c, shorter);
      EmbeddedShorter(c, e);
      Wire.WriteManyAppend(W.EmbeddedTransaction, Txs(shorter), e.transaction);
    }
  }

  lemma EmbeddedShorter(c: Crypto, e: MempoolEntry)
    requires Measured(c, e)
    ensures |W.EmbeddedTransaction(e.transaction)| <= e.encodedBytes
  {
    hide W.TransactionPayload, W.TransactionShape;
  }

  lemma {:induction false} OutputListLength(outputs: seq<TxOutput>)
    ensures |F.OutputList(outputs)| == 49 * |outputs|
  {
    if outputs != [] {
      OutputListLength(outputs[1..]);
    }
  }

  lemma ChallengeLength(ch: BlockChallenge)
    ensures |W.ChallengeBytes(ch)| == 144
  {
    hide F.DigestList, F.U64List;
    W.DigestListLength([ch.networkId, ch.previousBlock, ch.transactionRoot]);
    U64ListLength([ch.height, ch.timestamp]);
  }

  lemma {:induction false} U64ListLength(xs: seq<u64>)
    ensures |F.U64List(xs)| == 8 * |xs|
  {
    if xs != [] { U64ListLength(xs[1..]); }
  }

  lemma PoolBlockFits(c: Crypto, s: State, pool: seq<MempoolEntry>, bytes: nat, b: Block)
    requires PoolSound(c, s, pool, bytes) && b.transactions == Txs(pool) && |b.coinbase.outputs| <= MAX_COINBASE_OUTPUTS
    ensures |W.BlockPayload(b)| + F.WIRE_HEADER_BYTES <= F.MAX_BLOCK_BYTES
  {
    hide ValidateSet, Measured, W.ChallengeBytes, W.ProofPayload, F.WriteMany, Txs, ByteSum, SortedById, Payable;
    ChallengeLength(b.challenge);
    W.ProofPayloadLength(b.proof, b.challenge.networkId);
    OutputListLength(b.coinbase.outputs);
    PoolFits(c, pool);
  }

  // ----- a solved template ------------------------------------------------------------------------------------

  lemma TemplateContext(c: Crypto, s: State, pool: seq<MempoolEntry>, miner: Digest, now: u64, proof: BlockProof,
                        at: u64)
    requires s.rawTimestamps != [] && TemplateOn(c, s, pool, miner, now).Ok?
    ensures var b := Solved(TemplateOn(c, s, pool, miner, now).value, proof);
            && (ContextRules(s, b, at).Ok? <==>
                  s.nextHeight + COINBASE_MATURITY <= U64_MAX && TimelyAt(s.params, b.challenge.timestamp, at))
            && (now <= at && at + s.params.maxFutureOffset <= U64_MAX ==> TimelyAt(s.params, b.challenge.timestamp, at))
  {
    hide D.MedianTimestamp, D.ExpectedTarget, ValidateSet, Txs, K.Root, E.Allocate, CoinbaseOutputs, TxIds;
  }

  lemma PoolEncodable(c: Crypto, s: State, ts: seq<Transaction>)
    requires ValidateSet(c, s, ts).Ok?
    ensures |ts| <= MAX_BLOCK_TRANSACTIONS && TransactionResources(ts).Ok? && Usage(ts).WithinBlockLimits()
    ensures FirstHeaderError(ts, 0, s.params.networkId).None? && W.AllEncodable(ts, s.params.networkId)
  {
    hide ApplyTransactions, W.PayloadEncodable, W.EncodeTransaction, FirstShapeError, FirstHeaderError, Usage;
    NoHeaderError(ts, 0, s.params.networkId);
    forall i | 0 <= i < |ts| ensures W.PayloadEncodable(ts[i], s.params.networkId) {
      FramePayload(c, ts[i]);
    }
  }

  lemma FramePayload(c: Crypto, t: Transaction)
    ensures W.EncodeTransaction(c.magic, t).Some? <==> W.PayloadEncodable(t, t.networkId)
  {
    hide W.PayloadEncodable, W.Frame, W.TransactionPayload;
  }

  lemma TemplateHeader(c: Crypto, s: State, pool: seq<MempoolEntry>, bytes: nat, miner: Digest, now: u64,
                       proof: BlockProof)
    requires s.rawTimestamps != [] && PoolSound(c, s, pool, bytes) && TemplateOn(c, s, pool, miner, now).Ok?
    ensures var b := Solved(TemplateOn(c, s, pool, miner, now).value, proof);
            BlockHeaderRules(c, s.params, b).Ok? <==> c.powAccepts(b.challenge, b.proof)
  {
    hide D.MedianTimestamp, D.ExpectedTarget, ValidateSet, Txs, K.Root, E.Allocate, TxIds, TransactionResources,
         FirstHeaderError, W.AllEncodable, W.BlockPayload, Usage, SortedById, EntriesSound;
    var b := Solved(TemplateOn(c, s, pool, miner, now).value, proof);
    PoolEncodable(c, s, Txs(pool));
    PoolBlockFits(c, s, pool, bytes, b);
    assert W.EncodeBlock(c.magic, b).Some?;
  }

  /** The outputs a template's transactions leave behind, before its coinbase is added. */
  ghost function BeforeCoinbase(c: Crypto, s: State, b: Block): UtxoSet
    requires ApplyTransactions(c, s.utxos, b.transactions, |b.transactions|, s.nextHeight, s.params.networkId).Ok?
  {
    ApplyTransactions(c, s.utxos, b.transactions, |b.transactions|, s.nextHeight, s.params.networkId).value.utxos
  }

  lemma TemplateBody(c: Crypto, s: State, pool: seq<MempoolEntry>, miner: Digest, now: u64, proof: BlockProof)
    requires s.rawTimestamps != [] && TemplateOn(c, s, pool, miner, now).Ok? && E.Validate(s.params.policy).Ok?
    ensures var b := Solved(TemplateOn(c, s, pool, miner, now).value, proof);
            && ApplyTransactions(c, s.utxos, b.transactions, |b.transactions|, s.nextHeight, s.params.networkId).Ok?
            && (ApplyBlock(c, s.params, s.utxos, b).Ok? <==>
                  && Mintable(s.params.policy, s.nextHeight)
                  && FreshPoints(BeforeCoinbase(c, s, b), CoinbaseTxid(c, b), |b.coinbase.outputs|))
  {
    hide D.MedianTimestamp, D.ExpectedTarget, Txs, K.Root, TxIds, TransactionResources, FirstHeaderError,
         ApplyTransactions, ValidateCoinbase, InsertOutputs, CoinbaseOutputs, E.Validate, E.Subsidy, FreshPoints,
         Mintable, W.EncodeTransaction;
    var b := Solved(TemplateOn(c, s, pool, miner, now).value, proof);
    var ts := b.transactions;
    var applied := ApplyTransactions(c, s.utxos, ts, |ts|, s.nextHeight, s.params.networkId).value;
    CoinbaseInserts(c, s.params, applied.utxos, s.nextHeight, applied.fee, miner, CoinbaseTxid(c, b));
  }

  /** What can still stop a solved template; every clause can be checked before submitting. */
  ghost predicate Submittable(c: Crypto, p: NetworkParams, k: Core, b: Block, at: u64)
    requires E.Validate(p.policy).Ok?
  {
    && !Known(k.index, BlockId(c, b))
    && TimelyAt(p, b.challenge.timestamp, at)
    && k.state.nextHeight + COINBASE_MATURITY <= U64_MAX
    && c.powAccepts(b.challenge, b.proof)
    && Mintable(p.policy, k.state.nextHeight)
    && ApplyTransactions(c, k.state.utxos, b.transactions, |b.transactions|, k.state.nextHeight,
                         k.state.params.networkId).Ok?
    && FreshPoints(BeforeCoinbase(c, k.state, b), CoinbaseTxid(c, b), |b.coinbase.outputs|)
  }

  /** The state side of the theorem. */
  lemma TemplateSteps(c: Crypto, p: NetworkParams, k: Core, pool: seq<MempoolEntry>, bytes: nat, miner: Digest,
                      now: u64, proof: BlockProof, at: u64)
    requires k.state.rawTimestamps != [] && k.state.params == p && E.Validate(p.policy).Ok?
    requires PoolSound(c, k.state, pool, bytes) && TemplateOn(c, k.state, pool, miner, now).Ok?
    ensures var b := Solved(TemplateOn(c, k.state, pool, miner, now).value, proof);
            Submittable(c, p, k, b, at) <==> !Known(k.index, BlockId(c, b)) && Step(c, k.state, b, at).Ok?
  {
    hide TemplateOn, ContextRules, BlockHeaderRules, ApplyBlock, E.Validate, Mintable, FreshPoints, ApplyTransactions,
         PoolSound;
    TemplateContext(c, k.state, pool, miner, now, proof, at);
    TemplateHeader(c, k.state, pool, bytes, miner, now, proof);
    TemplateBody(c, k.state, pool, miner, now, proof);
  }

  /**
   * A template from a sound pool, solved and submitted at any time before the tip moves, is accepted
   * exactly when it is submittable; it then becomes the tip.
   */
  lemma TemplateAccepted(c: Crypto, p: NetworkParams, k: Core, pool: seq<MempoolEntry>, bytes: nat, miner: Digest,
                         now: u64, proof: BlockProof, at: u64)
    requires GoodParams(p) && Sound(c, p, k) && k.state.rawTimestamps != []
    requires PoolSound(c, k.state, pool, bytes) && TemplateOn(c, k.state, pool, miner, now).Ok?
    ensures var b := Solved(TemplateOn(c, k.state, pool, miner, now).value, proof);
            && (Accept(c, p, k, b, at).Ok? <==> Submittable(c, p, k, b, at))
            && (Accept(c, p, k, b, at).Ok? ==> Accept(c, p, k, b, at).value.state.tip == BlockId(c, b))
  {
    hide Step, Successor, Run, EntrySound, Path, Branch, W.EncodeBlock, E.Validate, Decode, TargetWork, Timeline,
         Submittable, PoolSound, TemplateOn;
    var b := Solved(TemplateOn(c, k.state, pool, miner, now).value, proof);
    TemplateParent(c, k.state, pool, miner, now);
    ReplayTip(c, p, k.index, k.state.tip);
    TemplateSteps(c, p, k, pool, bytes, miner, now, proof, at);
    if Step(c, k.state, b, at).Ok? {
      StepHeader(c, k.state, b, at);
      StepHeight(c, k.state, b, at);
      ExtensionActivates(c, p, k, b, at);
      SuccessorTip(c, k.state, b, Step(c, k.state, b, at).value.view);
    }
  }

  /** On a sound node a template is refused only for an unusable miner key or clock. */
  lemma TemplateAvailable(c: Crypto, p: NetworkParams, k: Core, pool: seq<MempoolEntry>, bytes: nat, miner: Digest,
                          now: u64)
    requires GoodParams(p) && Sound(c, p, k) && PoolSound(c, k.state, pool, bytes)
    ensures k.state.rawTimestamps != []
    ensures var median := D.MedianTimestamp(k.state.rawTimestamps);
            TemplateOn(c, k.state, pool, miner, now).Ok? <==>
            c.channel.validKey(miner) && median < now + p.maxFutureOffset <= U64_MAX
  {
    hide Run, EntrySound, Path, Branch, Decode, Timeline, D.MedianTimestamp, D.ExpectedTarget, ValidateSet, Txs, K.Root,
         CoinbaseOutputs, TxIds, SortedById, ByteSum, EntriesSound, E.Validate;
    ReplayTip(c, p, k.index, k.state.tip);
    TargetAlwaysDefined(k.state);
    KnownReplays(c, p, k.index, k.state.tip);
  }

  lemma TemplateParent(c: Crypto, s: State, pool: seq<MempoolEntry>, miner: Digest, now: u64)
    requires s.rawTimestamps != [] && TemplateOn(c, s, pool, miner, now).Ok?
    ensures TemplateOn(c, s, pool, miner, now).value.challenge.previousBlock == s.tip
  {
    hide D.MedianTimestamp, D.ExpectedTarget, ValidateSet, Txs, K.Root, E.Allocate, CoinbaseOutputs, TxIds;
  }

  /** Extending the tip always adds work. */
  lemma ExtensionActivates(c: Crypto, p: NetworkParams, k: Core, b: Block, at: u64)
    requires GoodParams(p) && Sound(c, p, k) && b.challenge.previousBlock == k.state.tip
    requires k.state.rawTimestamps != [] && Step(c, k.state, b, at).Ok? && W.EncodeBlock(c.magic, b).Some?
    ensures NewEntry(c, k.index, b, at).work > k.index.activeWork
  {
    hide Step, Run, EntrySound, Path, Branch, W.EncodeBlock, E.Validate, Decode, TargetWork, Timeline, StateTarget;
    ReplayTip(c, p, k.index, k.state.tip);
    StepHeader(c, k.state, b, at);
    TargetAlwaysDefined(k.state);
    TargetWorkBound(b.challenge.target);
  }
}
