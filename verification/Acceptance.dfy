/** The exact condition a block is accepted under. */
module Acceptance {
  import opened Prelude
  import opened Arith
  import opened Ledger
  import opened Consensus
  import opened Utxo
  import opened BlockRules
  import opened Chain
  import opened Spending
  import opened Rewards
  import D = Difficulty
  import E = Economics
  import K = Merkle
  import P = Mempool
  import T = Template
  import W = WireObjects

  // ----- the header ---------------------------------------------------------------------------------------

  /** More than half, rounded down, of the last eleven timestamps, or of all there are, lie before t. */
  ghost predicate AfterMost(timestamps: seq<u64>, t: u64) {
    var n := if |timestamps| <= 11 then |timestamps| else 11;
    D.CountBelow(timestamps[|timestamps| - n..], t) > n / 2
  }

  /** The block extends the tip at its height and time, for the target due. */
  ghost predicate Extending(s: State, b: Block, now: u64) {
    && b.version == 1 && b.challenge.networkId == s.params.networkId
    && b.challenge.height == s.nextHeight && s.nextHeight + 100 <= U64_MAX
    && b.challenge.previousBlock == s.tip
    && AfterMost(s.rawTimestamps, b.challenge.timestamp)
    && b.challenge.timestamp <= now + s.params.maxFutureOffset <= U64_MAX
    && StateTarget(s) == Ok(b.challenge.target)
  }

  lemma ContextExact(s: State, b: Block, now: u64)
    requires s.rawTimestamps != []
    ensures ContextRules(s, b, now).Ok? <==> Extending(s, b, now)
  {
    hide D.MedianTimestamp, D.ExpectedTarget, D.CountBelow;
    D.MedianRank(s.rawTimestamps, b.challenge.timestamp);
  }

  // ----- resources ------------------------------------------------------------------------------------------

  /** Sum of a measure over a list, from the front. */
  ghost function Sum<T>(measure: T -> nat, xs: seq<T>): nat {
    if xs == [] then 0 else measure(xs[0]) + Sum(measure, xs[1..])
  }

  lemma {:induction false} SumSnoc<T>(measure: T -> nat, xs: seq<T>, x: T)
    ensures Sum(measure, xs + [x]) == Sum(measure, xs) + measure(x)
  {
    if xs == [] {
      assert [] + [x] == [x] && [x][1..] == [];
    } else {
      SumSnoc(measure, xs[1..], x);
      assert (xs + [x])[1..] == xs[1..] + [x];
    }
  }

  /** Signatures an input carries. */
  ghost function Signatures(input: TxInput): nat {
    match input.evidence
    case KeyWitness(_, _) => 1
    case SettlementWitness(_, _) => 2
    case RefundWitness(_) => 0
  }

  ghost function InputCount(t: Transaction): nat { |t.inputs| }
  ghost function OutputCount(t: Transaction): nat { |t.outputs| }
  ghost function SignatureCount(t: Transaction): nat { Sum(Signatures, t.inputs) }

  lemma {:induction false} ChecksAreSignatures(inputs: seq<TxInput>)
    ensures InputChecks(inputs) == Sum(Signatures, inputs)
  {
    if inputs != [] {
      var n := |inputs| - 1;
      ChecksAreSignatures(inputs[..n]);
      SumSnoc(Signatures, inputs[..n], inputs[n]);
      assert inputs == inputs[..n] + [inputs[n]];
    }
  }

  lemma {:induction false} UsageIsSum(ts: seq<Transaction>)
    ensures Usage(ts) == Resources(Sum(InputCount, ts), Sum(OutputCount, ts), Sum(SignatureCount, ts))
  {
    if ts != [] {
      var n := |ts| - 1;
      UsageIsSum(ts[..n]);
      SumSnoc(InputCount, ts[..n], ts[n]);
      SumSnoc(OutputCount, ts[..n], ts[n]);
      SumSnoc(SignatureCount, ts[..n], ts[n]);
      ChecksAreSignatures(ts[n].inputs);
      assert ts == ts[..n] + [ts[n]];
    }
  }

  /** Every transaction and the whole list within their limits. */
  ghost predicate Modest(ts: seq<Transaction>) {
    && (forall i :: 0 <= i < |ts| ==>
          |ts[i].inputs| <= 128 && |ts[i].outputs| <= 128 && AllCanonical(ts[i].inputs))
    && Sum(InputCount, ts) <= 4096 && Sum(OutputCount, ts) <= 4096 && Sum(SignatureCount, ts) <= 2048
  }

  lemma ResourcesExact(ts: seq<Transaction>)
    ensures TransactionResources(ts).Ok? <==> Modest(ts)
  {
    hide Usage, FirstShapeError, Sum, AllCanonical;
    NoShapeError(ts);
    UsageIsSum(ts);
    assert forall i :: 0 <= i < |ts| ==>
      (ShapeError(ts[i]).None? <==> |ts[i].inputs| <= 128 && |ts[i].outputs| <= 128 && AllCanonical(ts[i].inputs));
  }

  // ----- the body -------------------------------------------------------------------------------------------

  ghost predicate WellFormedBlock(c: Crypto, p: NetworkParams, b: Block) {
    && |b.transactions| <= 1024 && |b.coinbase.outputs| <= 3 && Modest(b.transactions)
    && b.version == 1 && b.challenge.networkId == p.networkId
    && (forall i :: 0 <= i < |b.transactions| ==>
          b.transactions[i].networkId == p.networkId && b.transactions[i].version == 1)
    && W.EncodeBlock(c.magic, b).Some?
    && b.coinbase.height == b.challenge.height
    && TransactionRoot(c, b) == b.challenge.transactionRoot
    && c.powAccepts(b.challenge, b.proof)
  }

  /** The transaction root is the tree over the coinbase commitment and then the transactions in order. */
  lemma RootOrder(c: Crypto, b: Block) returns (ids: seq<Digest>, height: nat)
    ensures |ids| == 1 + |b.transactions| <= Pow2(height) && (height == 0 || Pow2(height - 1) < |ids|)
    ensures ids[0] == c.coinbaseCommitment(b.coinbase, b.challenge.networkId)
    ensures forall i :: 0 <= i < |b.transactions| ==> ids[i + 1] == c.txid(b.transactions[i])
    ensures TransactionRoot(c, b) == K.Subtree(c, ids, 0, height)
  {
    hide K.Root, K.Subtree, TxIds;
    ids := TreeIds(c, b);
    height := K.RootIsSubtree(c, ids);
  }

  lemma HeaderExact(c: Crypto, p: NetworkParams, b: Block)
    ensures BlockHeaderRules(c, p, b).Ok? <==> WellFormedBlock(c, p, b)
  {
    hide TransactionResources, FirstHeaderError, W.EncodeBlock, TransactionRoot, Modest;
    ResourcesExact(b.transactions);
    NoHeaderError(b.transactions, 0, p.networkId);
  }

  /** The coinbase splits the height's allocation and can be added after the transactions. */
  ghost predicate CoinbaseDue(c: Crypto, p: NetworkParams, after: Applied, b: Block)
    requires E.Validate(p.policy).Ok?
  {
    var a := E.Allocate(p.policy, b.challenge.height, after.fee).value;
    var outputs := b.coinbase.outputs;
    && 0 < |outputs| <= U32_MAX && outputs[0].lock.KeyLock? && c.channel.validKey(outputs[0].lock.owner)
    && PaysOut(outputs, b.coinbase.height, p.rewards, outputs[0].lock.owner, a.miner, a.steward, a.community)
    && Insertable(after.utxos, CoinbaseTxid(c, b), outputs, |outputs|)
  }

  lemma BodyExact(c: Crypto, p: NetworkParams, u: UtxoSet, b: Block)
    requires |b.coinbase.outputs| <= 3
    ensures ApplyBlock(c, p, u, b).Ok? <==>
            && E.Validate(p.policy).Ok?
            && var ts := b.transactions;
               var applied := ApplyTransactions(c, u, ts, |ts|, b.challenge.height, p.networkId);
               applied.Ok? && CoinbaseDue(c, p, applied.value, b)
  {
    hide ApplyTransactions, E.Allocate, E.Validate, ValidateCoinbase, InsertOutputs, PaysOut, Insertable;
    var applied := ApplyTransactions(c, u, b.transactions, |b.transactions|, b.challenge.height, p.networkId);
    if applied.Ok? && E.Validate(p.policy).Ok? {
      CoinbaseExact(c, b.coinbase, E.Allocate(p.policy, b.challenge.height, applied.value.fee).value, p.rewards);
      InsertsExactly(applied.value.utxos, CoinbaseTxid(c, b), b.coinbase.outputs, |b.coinbase.outputs|);
    }
  }

  /**
   * A block is accepted exactly when it extends the tip, is well formed, its transactions apply one after the
   * other, and its coinbase is the one due.
   */
  lemma StepExact(c: Crypto, s: State, b: Block, now: u64)
    requires s.rawTimestamps != [] && E.Validate(s.params.policy).Ok?
    ensures Step(c, s, b, now).Ok? <==>
            && Extending(s, b, now) && WellFormedBlock(c, s.params, b)
            && var ts := b.transactions;
               var applied := ApplyTransactions(c, s.utxos, ts, |ts|, s.nextHeight, s.params.networkId);
               applied.Ok? && CoinbaseDue(c, s.params, applied.value, b)
  {
    hide ContextRules, BlockHeaderRules, ApplyBlock, ApplyTransactions, CoinbaseDue, E.Validate, Modest,
         TransactionRoot, W.EncodeBlock;
    ContextExact(s, b, now);
    HeaderExact(c, s.params, b);
    if WellFormedBlock(c, s.params, b) { BodyExact(c, s.params, s.utxos, b); }
  }

  // ----- templates ------------------------------------------------------------------------------------------

  /** The least time not before now that the next block may carry. */
  ghost predicate EarliestTime(timestamps: seq<u64>, now: u64, t: u64) {
    && t >= now && AfterMost(timestamps, t)
    && forall x: u64 :: x >= now && AfterMost(timestamps, x) ==> t <= x
  }

  /**
   * A template holds the pool's transactions in order with the fees they burn, extends the tip for the target
   * due at the least time allowed, and pays the height's allocation to the miner and the funds.
   */
  lemma TemplateHolds(c: Crypto, s: State, pool: seq<P.MempoolEntry>, miner: Digest, now: u64, proof: BlockProof)
    requires s.rawTimestamps != [] && T.TemplateOn(c, s, pool, miner, now).Ok?
    ensures var t := T.TemplateOn(c, s, pool, miner, now).value;
            && |t.transactions| == |pool|
            && (forall i :: 0 <= i < |pool| ==> t.transactions[i] == pool[i].transaction)
            && ValidateSet(c, s, t.transactions).Ok? && t.feesBurned == ValidateSet(c, s, t.transactions).value.0
            && t.challenge.networkId == s.params.networkId && t.challenge.previousBlock == s.tip
            && t.challenge.height == t.coinbase.height == s.nextHeight
            && StateTarget(s) == Ok(t.challenge.target)
            && EarliestTime(s.rawTimestamps, now, t.challenge.timestamp)
            && t.challenge.timestamp <= now + s.params.maxFutureOffset <= U64_MAX
            && t.challenge.transactionRoot == TransactionRoot(c, T.Solved(t, proof))
            && E.Validate(s.params.policy).Ok? && c.channel.validKey(miner)
            && var a := E.Allocate(s.params.policy, s.nextHeight, t.feesBurned).value;
               a.steward > 0 || a.community == 0 ==>
                 PaysOut(t.coinbase.outputs, s.nextHeight, s.params.rewards, miner, a.miner, a.steward, a.community)
  {
    hide D.MedianTimestamp, D.ExpectedTarget, ValidateSet, P.Txs, K.Root, E.Allocate, TxIds, D.CountBelow;
    var t := T.TemplateOn(c, s, pool, miner, now).value;
    forall x: u64 ensures AfterMost(s.rawTimestamps, x) <==> x > D.MedianTimestamp(s.rawTimestamps) {
      D.MedianRank(s.rawTimestamps, x);
    }
  }
}
