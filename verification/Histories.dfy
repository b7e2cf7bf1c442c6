/** What a chain state records of the blocks that led to it. */
module Histories {
  import opened Prelude
  import opened Ledger
  import opened Consensus
  import opened Utxo
  import opened BlockRules
  import opened Chain
  import opened Spending
  import opened Acceptance
  import D = Difficulty
  import E = Economics

  /** Entry i + 1 holds block i's own time and target, and the median time up to it. */
  ghost predicate RecordedAt(s: State, b: Block, i: nat) {
    && i + 1 < |s.rawTimestamps| == |s.history|
    && s.rawTimestamps[i + 1] == b.challenge.timestamp
    && s.history[i + 1].target == b.challenge.target
    && s.history[i + 1].timestamp == D.MedianTimestamp(s.rawTimestamps[..i + 2])
  }

  ghost predicate Recorded(c: Crypto, p: NetworkParams, run: seq<Arrival>, s: State) {
    && |s.rawTimestamps| == |s.history| == s.nextHeight == |run| + 1 && s.params == p
    && s.rawTimestamps[0] == p.genesisTimestamp && s.history[0] == D.HeaderWork(p.genesisTimestamp, p.powLimit)
    && (forall i :: 0 <= i < |run| ==> RecordedAt(s, run[i].block, i))
    && s.tip == if run == [] then p.genesisHash
                else var b := run[|run| - 1].block; c.blockId(b.version, b.challenge, b.proof)
  }

  /** A run's state records genesis and then every block in order, and stands on the last of them. */
  lemma {:induction false} RunRecords(c: Crypto, p: NetworkParams, run: seq<Arrival>)
    requires Run(c, p, run).Ok?
    ensures Recorded(c, p, run, Run(c, p, run).value.state)
  {
    hide Step, D.MedianTimestamp, Run;
    if run == [] {
      assert Run(c, p, run).value.state == Genesis(p) by { NoRun(c, p); }
    } else {
      var n := |run| - 1;
      PriorRun(c, p, run);
      RunRecords(c, p, run[..n]);
      var prior, last := Run(c, p, run[..n]).value.state, run[n];
      StepHeight(c, prior, last.block, last.now);
      var view := Step(c, prior, last.block, last.now).value.view;
      RunUnfolds(c, p, run);
      SuccessorRecords(c, p, run, prior, view);
    }
  }

  lemma NoRun(c: Crypto, p: NetworkParams)
    ensures Run(c, p, []) == Ok(Progress(Genesis(p), 0))
  {
  }

  lemma PriorRun(c: Crypto, p: NetworkParams, run: seq<Arrival>)
    requires run != [] && Run(c, p, run).Ok?
    ensures var n := |run| - 1;
            Run(c, p, run[..n]).Ok? && Step(c, Run(c, p, run[..n]).value.state, run[n].block, run[n].now).Ok?
  {
    hide Step;
  }

  lemma SuccessorRecords(c: Crypto, p: NetworkParams, run: seq<Arrival>, prior: State, view: UtxoSet)
    requires run != [] && prior.nextHeight < U64_MAX && Recorded(c, p, run[..|run| - 1], prior)
    ensures Recorded(c, p, run, Successor(c, prior, run[|run| - 1].block, view))
  {
    hide D.MedianTimestamp;
    var n := |run| - 1;
    var s := Successor(c, prior, run[n].block, view);
    forall i | 0 <= i < |run| ensures RecordedAt(s, run[i].block, i) {
      if i < n {
        assert RecordedAt(prior, run[..n][i].block, i);
        assert s.rawTimestamps[..i + 2] == prior.rawTimestamps[..i + 2];
      } else {
        assert s.rawTimestamps[..i + 2] == s.rawTimestamps;
      }
    }
  }

  // ----- the first block ----------------------------------------------------------------------------------

  /** With nothing to spend no transaction is accepted. */
  lemma NothingToSpend(c: Crypto, t: Transaction, height: u64, network: Digest)
    requires |t.outputs| <= U32_MAX
    ensures ApplyTransaction(c, EMPTY, {}, t, height, network).Err?
  {
    hide ApplyKeyTransaction, ApplyChannelTransaction, Insertable, Extends, Entitled;
    TransactionExact(c, EMPTY, {}, t, height, network);
    KeySpendExact(c, EMPTY, {}, t, height);
    ChannelCloseExact(c, EMPTY, {}, t, height, network);
    if |t.inputs| > 0 { FirstSpends(c, EMPTY.outputs, c.signingDigest(t), height, t.inputs); }
  }

  lemma FirstSpends(c: Crypto, outputs: map<OutPoint, TxOutput>, digest: Digest, height: u64, inputs: seq<TxInput>)
    requires |inputs| > 0
    ensures InputsAuthorized(c, outputs, digest, height, inputs, |inputs|, {}) ==> inputs[0].previous in outputs
  {
    hide SignedFor;
  }

  /** The first block stands on genesis at height one, later than genesis, at the limit, and only pays a coinbase. */
  lemma FirstBlock(c: Crypto, p: NetworkParams, b: Block, now: u64)
    requires E.Validate(p.policy).Ok? && Step(c, Genesis(p), b, now).Ok?
    ensures b.challenge.height == 1 && b.challenge.previousBlock == p.genesisHash
    ensures b.challenge.timestamp > p.genesisTimestamp && b.challenge.target == p.powLimit
    ensures b.transactions == []
  {
    hide Step, ApplyTransaction, E.Validate, CoinbaseDue, WellFormedBlock;
    StepExact(c, Genesis(p), b, now);
    GenesisDue(p, b.challenge.timestamp);
    StepShape(c, Genesis(p), b, now);
    if b.transactions != [] {
      var t := b.transactions[0];
      assert |t.outputs| <= U32_MAX;
      FirstApplies(c, EMPTY, b.transactions, |b.transactions|, 1, p.networkId);
      NothingToSpend(c, t, 1, p.networkId);
    }
  }

  lemma GenesisDue(p: NetworkParams, t: u64)
    ensures AfterMost(Genesis(p).rawTimestamps, t) <==> t > p.genesisTimestamp
    ensures StateTarget(Genesis(p)).Ok? ==> StateTarget(Genesis(p)).value == p.powLimit
  {
    D.RetargetErrors(Genesis(p).history, p.powLimit);
    var times := Genesis(p).rawTimestamps;
    assert times[|times| - 1..] == times && times[1..] == [];
    assert D.CountBelow(times, t) == if p.genesisTimestamp < t then 1 else 0;
  }

  lemma {:induction false} FirstApplies(c: Crypto, u: UtxoSet, ts: seq<Transaction>, n: nat, height: u64,
                                        network: Digest)
    requires 0 < n <= |ts| && ApplyTransactions(c, u, ts, n, height, network).Ok?
    ensures ApplyTransaction(c, u, {}, ts[0], height, network).Ok?
  {
    hide ApplyTransaction;
    if n > 1 {
      FirstApplies(c, u, ts, n - 1, height, network);
    } else {
      assert ApplyTransactions(c, u, ts, 0, height, network) == Ok(Applied(u, {}, 0));
    }
  }
}
