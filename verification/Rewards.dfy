/** Who a block's new coins belong to. */
module Rewards {
  import opened Prelude
  import opened Arith
  import opened Ledger
  import opened Consensus
  import opened Utxo
  import opened BlockRules
  import opened Chain
  import opened Spending
  import E = Economics
  import Overlay

  /** The outputs of an accepted coinbase, position by position. */
  ghost predicate PaysOut(outputs: seq<TxOutput>, height: u64, fixed: FixedRewardDestinations, miner: Digest, own: nat,
                          steward: nat, community: nat)
  {
    && |outputs| == 1 + (if steward > 0 then 1 else 0) + (if community > 0 then 1 else 0)
    && (community > 0 ==> steward > 0)
    && outputs[0].value == own && outputs[0].lock == KeyLock(miner)
    && outputs[0].spendableHeight == Min(height + 100, U64_MAX)
    && (steward > 0 ==> && outputs[1].value == steward && outputs[1].lock == KeyLock(fixed.steward)
                        && outputs[1].spendableHeight == height)
    && (community > 0 ==> && outputs[2].value == community && outputs[2].lock == KeyLock(fixed.community)
                          && outputs[2].spendableHeight == height)
  }

  /** A coinbase passes exactly when it pays out an allocation in this form to some valid key. */
  lemma CoinbaseExact(c: Crypto, cb: Coinbase, a: E.Allocation, fixed: FixedRewardDestinations)
    ensures ValidateCoinbase(c, cb, a, fixed).Ok? <==>
            && |cb.outputs| > 0 && cb.outputs[0].lock.KeyLock? && c.channel.validKey(cb.outputs[0].lock.owner)
            && PaysOut(cb.outputs, cb.height, fixed, cb.outputs[0].lock.owner, a.miner, a.steward, a.community)
  {
  }

  /**
   * After an accepted block the points of its coinbase hold the scheduled subsidy of that height: the funds'
   * percentages, rounded down, under their keys at once, and the rest under the miner's key a hundred blocks
   * later. From the tail on everything is the miner's.
   */
  lemma BlockRewards(c: Crypto, s: State, b: Block, now: u64)
    returns (miner: Digest, subsidy: nat, steward: nat, community: nat)
    requires s.rawTimestamps != [] && Step(c, s, b, now).Ok?
    ensures E.Scheduled(s.params.policy, s.nextHeight, subsidy) && steward + community <= subsidy
    ensures if s.nextHeight < s.params.policy.tailHeight
            then && E.IsShare(steward, subsidy, s.params.policy.stewardPercent)
                 && E.IsShare(community, subsidy, s.params.policy.communityPercent)
            else steward == community == 0
    ensures c.channel.validKey(miner)
    ensures PaysOut(b.coinbase.outputs, s.nextHeight, s.params.rewards, miner, subsidy - steward - community, steward,
                    community)
    ensures forall i :: 0 <= i < |b.coinbase.outputs| ==>
                          && i <= U32_MAX
                          && Overlay.Lookup(Step(c, s, b, now).value.view.outputs, OutPoint(CoinbaseTxid(c, b), i))
                             == Some(b.coinbase.outputs[i])
  {
    hide Step, ApplyTransactions, InsertOutputs, E.Scheduled, E.Validate, E.Subsidy, E.IsShare, PaysOut, Insertable,
         Extends, ValidateCoinbase, CoinbaseTxid, E.Allocate;
    StepHeight(c, s, b, now);
    StepShape(c, s, b, now);
    CoinbaseHeight(c, s, b, now);
    var fee, before := BlockParts(c, s, b, now);
    var p := s.params;
    var a := E.Allocate(p.policy, s.nextHeight, fee).value;
    E.SharesExact(p.policy, s.nextHeight, fee);
    CoinbaseExact(c, b.coinbase, a, p.rewards);
    miner, subsidy, steward, community := b.coinbase.outputs[0].lock.owner, a.subsidy, a.steward, a.community;
    InsertsExactly(before, CoinbaseTxid(c, b), b.coinbase.outputs, |b.coinbase.outputs|);
    ExtendsAt(before, Step(c, s, b, now).value.view, CoinbaseTxid(c, b), b.coinbase.outputs);
  }

  /** An accepted block's coinbase passed, for its fees and height, and was inserted after its transactions. */
  lemma BlockParts(c: Crypto, s: State, b: Block, now: u64) returns (fee: u64, before: UtxoSet)
    requires s.rawTimestamps != [] && Step(c, s, b, now).Ok?
    ensures E.Validate(s.params.policy).Ok?
    ensures var a := E.Allocate(s.params.policy, s.nextHeight, fee).value;
            ValidateCoinbase(c, b.coinbase, a, s.params.rewards).Ok?
    ensures |b.coinbase.outputs| <= 3
            && InsertOutputs(before, CoinbaseTxid(c, b), b.coinbase.outputs, |b.coinbase.outputs|)
               == Ok(Step(c, s, b, now).value.view)
  {
    hide Step, ApplyTransactions, InsertOutputs, E.Allocate, E.Validate, ValidateCoinbase;
    StepHeight(c, s, b, now);
    StepShape(c, s, b, now);
    var ts := b.transactions;
    var applied := ApplyTransactions(c, s.utxos, ts, |ts|, s.nextHeight, s.params.networkId).value;
    fee, before := applied.fee, applied.utxos;
  }

  lemma CoinbaseHeight(c: Crypto, s: State, b: Block, now: u64)
    requires s.rawTimestamps != [] && Step(c, s, b, now).Ok?
    ensures b.coinbase.height == b.challenge.height
  {
    hide ContextRules, ApplyBlock, BlockResources, FirstHeaderError, TransactionRoot;
  }

  lemma ExtendsAt(u: UtxoSet, v: UtxoSet, txid: Digest, outputs: seq<TxOutput>)
    requires |outputs| <= U32_MAX && Extends(u, v, txid, outputs, |outputs|)
    ensures forall i :: 0 <= i < |outputs| ==> Overlay.Lookup(v.outputs, OutPoint(txid, i)) == Some(outputs[i])
  {
    forall i | 0 <= i < |outputs| ensures Overlay.Lookup(v.outputs, OutPoint(txid, i)) == Some(outputs[i]) {
      var op := OutPoint(txid, i);
      assert op.txid == txid && op.index == i;
    }
  }
}
