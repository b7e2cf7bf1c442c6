/** What hashes pin down about a run: where its outputs come from, and which state a tip stands for. */
module Provenance {
  import opened Prelude
  import opened Ledger
  import opened Consensus
  import opened Utxo
  import opened BlockRules
  import opened Chain
  import opened Identity
  import D = Difficulty
  import E = Economics
  import K = Merkle
  import Overlay

  // ----- where unspent outputs come from ----------------------------------------------------------------

  /** One of the first n transactions has this identifier. */
  ghost predicate IssuedBy(c: Crypto, ts: seq<Transaction>, n: nat, txid: Digest)
    requires n <= |ts|
  {
    exists i :: 0 <= i < n && c.txid(ts[i]) == txid
  }

  /** The identifier is that of a block's coinbase or of one of its transactions. */
  ghost predicate Issues(c: Crypto, b: Block, txid: Digest) {
    txid == CoinbaseTxid(c, b) || IssuedBy(c, b.transactions, |b.transactions|, txid)
  }

  lemma {:induction false} InsertsIssue(u: UtxoSet, txid: Digest, outputs: seq<TxOutput>, n: nat)
    requires n <= |outputs| && InsertOutputs(u, txid, outputs, n).Ok?
    ensures forall op :: op in InsertOutputs(u, txid, outputs, n).value.outputs ==> op in u.outputs || op.txid == txid
  {
    if n > 0 { InsertsIssue(u, txid, outputs, n - 1); }
  }

  lemma {:induction false} RemovesOnly(u: UtxoSet, inputs: seq<TxInput>, n: nat)
    requires n <= |inputs|
    ensures RemoveInputs(u, inputs, n).outputs.Keys <= u.outputs.Keys
  {
    if n > 0 { RemovesOnly(u, inputs, n - 1); }
  }

  lemma TransactionIssues(c: Crypto, u: UtxoSet, spent: set<OutPoint>, t: Transaction, height: u64, network: Digest)
    requires ApplyTransaction(c, u, spent, t, height, network).Ok?
    ensures var v := ApplyTransaction(c, u, spent, t, height, network).value.utxos;
            forall op :: op in v.outputs ==> op in u.outputs || op.txid == c.txid(t)
  {
    hide SpendKeyInputs, InsertOutputs, RemoveInputs, OutputSum, CloseChannel;
    if AllKeys(t.inputs) {
      RemovesOnly(u, t.inputs, |t.inputs|);
      InsertsIssue(RemoveInputs(u, t.inputs, |t.inputs|), c.txid(t), t.outputs, |t.outputs|);
    } else {
      var op := t.inputs[0].previous;
      InsertsIssue(Retire(u, op, u.outputs[op].lock.channelId), c.txid(t), t.outputs, |t.outputs|);
    }
  }

  lemma {:induction false} TransactionsIssue(c: Crypto, u: UtxoSet, ts: seq<Transaction>, n: nat, height: u64,
                                             network: Digest)
    requires n <= |ts| && ApplyTransactions(c, u, ts, n, height, network).Ok?
    ensures var v := ApplyTransactions(c, u, ts, n, height, network).value.utxos;
            forall op :: op in v.outputs ==> op in u.outputs || IssuedBy(c, ts, n, op.txid)
  {
    hide ApplyTransaction;
    if n > 0 {
      TransactionsIssue(c, u, ts, n - 1, height, network);
      var prior := ApplyTransactions(c, u, ts, n - 1, height, network).value;
      TransactionIssues(c, prior.utxos, prior.spent, ts[n - 1], height, network);
      var v := ApplyTransactions(c, u, ts, n, height, network).value.utxos;
      forall op | op in v.outputs ensures op in u.outputs || IssuedBy(c, ts, n, op.txid) {
        if op in prior.utxos.outputs && op !in u.outputs {
          var i :| 0 <= i < n - 1 && c.txid(ts[i]) == op.txid;
        }
      }
    }
  }

  lemma BlockIssues(c: Crypto, p: NetworkParams, u: UtxoSet, b: Block)
    requires ApplyBlock(c, p, u, b).Ok?
    ensures forall op :: op in ApplyBlock(c, p, u, b).value.view.outputs ==> op in u.outputs || Issues(c, b, op.txid)
  {
    hide ApplyTransactions, ValidateCoinbase, InsertOutputs, E.Allocate, IssuedBy;
    var applied := ApplyTransactions(c, u, b.transactions, |b.transactions|, b.challenge.height, p.networkId).value;
    TransactionsIssue(c, u, b.transactions, |b.transactions|, b.challenge.height, p.networkId);
    InsertsIssue(applied.utxos, CoinbaseTxid(c, b), b.coinbase.outputs, |b.coinbase.outputs|);
  }

  ghost predicate IssuedInRun(c: Crypto, run: seq<Arrival>, txid: Digest) {
    exists j :: 0 <= j < |run| && Issues(c, run[j].block, txid)
  }

  /** Every unspent output of a run was issued by a transaction or the coinbase of one of its blocks. */
  lemma {:induction false} RunIssues(c: Crypto, p: NetworkParams, run: seq<Arrival>)
    requires Run(c, p, run).Ok?
    ensures forall op :: op in Run(c, p, run).value.state.utxos.outputs ==> IssuedInRun(c, run, op.txid)
  {
    hide Step, Issues, D.MedianTimestamp;
    if run != [] {
      var shorter, last := run[..|run| - 1], run[|run| - 1];
      RunIssues(c, p, shorter);
      var prior := Run(c, p, shorter).value.state;
      StepHeight(c, prior, last.block, last.now);
      BlockIssues(c, prior.params, prior.utxos, last.block);
      var after := Run(c, p, run).value.state.utxos;
      forall op | op in after.outputs ensures IssuedInRun(c, run, op.txid) {
        if op in prior.utxos.outputs {
          var j :| 0 <= j < |shorter| && Issues(c, shorter[j].block, op.txid);
          assert Issues(c, run[j].block, op.txid);
        } else {
          assert Issues(c, run[|run| - 1].block, op.txid);
        }
      }
    }
  }

  // ----- a tip stands for one state -------------------------------------------------------------------------

  /** No two hashes evaluated for blocks at the same place of two runs collide. */
  ghost predicate NoCollisions(c: Crypto, run: seq<Arrival>, other: seq<Arrival>)
    requires |run| == |other|
  {
    forall j :: 0 <= j < |run| ==> K.CollisionFree(c, BlockQueries(c, run[j].block) + BlockQueries(c, other[j].block))
  }

  /** What the last step of a run says. */
  lemma LastStep(c: Crypto, p: NetworkParams, run: seq<Arrival>)
    requires run != [] && Run(c, p, run).Ok?
    ensures Run(c, p, run[..|run| - 1]).Ok?
    ensures var s, last := Run(c, p, run[..|run| - 1]).value.state, run[|run| - 1];
            && Step(c, s, last.block, last.now).Ok? && s.nextHeight < U64_MAX
            && Run(c, p, run).value.state == Successor(c, s, last.block, Step(c, s, last.block, last.now).value.view)
            && Run(c, p, run).value.state.tip == BlockId(c, last.block)
            && last.block.challenge.previousBlock == s.tip
            && ValidateUtxos(c, s.params, s.utxos, last.block).Ok?
  {
    hide ContextRules, ValidateUtxos, D.MedianTimestamp;
    var s, last := Run(c, p, run[..|run| - 1]).value.state, run[|run| - 1];
    StepHeight(c, s, last.block, last.now);
    StepHeader(c, s, last.block, last.now);
  }

  /** Runs of one length with one tip have the same blocks and reach the same state, unless hashes collide. */
  lemma {:induction false} TipDeterminesState(c: Crypto, p: NetworkParams, run: seq<Arrival>, other: seq<Arrival>)
    requires Run(c, p, run).Ok? && Run(c, p, other).Ok? && |run| == |other| && NoCollisions(c, run, other)
    requires Run(c, p, run).value.state.tip == Run(c, p, other).value.state.tip
    ensures Run(c, p, run).value.state == Run(c, p, other).value.state
    ensures forall j :: 0 <= j < |run| ==> run[j].block == other[j].block
  {
    hide Step, Successor, ValidateUtxos, BlockId, BlockQueries, K.CollisionFree;
    if run == [] {
      assert run == other;
    } else {
      var n := |run| - 1;
      LastStep(c, p, run);
      LastStep(c, p, other);
      var s, t := Run(c, p, run[..n]).value.state, Run(c, p, other[..n]).value.state;
      assert K.CollisionFree(c, BlockQueries(c, run[n].block) + BlockQueries(c, other[n].block));
      BlockIdCommits(c, s.params, s.utxos, run[n].block, t.params, t.utxos, other[n].block);
      TipDeterminesState(c, p, run[..n], other[..n]);
      StepsAgree(c, s, run[n].block, run[n].now, other[n].now);
      forall j | 0 <= j < |run| ensures run[j].block == other[j].block {
        if j < n { assert run[..n][j] == run[j] && other[..n][j] == other[j]; }
      }
    }
  }

  /**
   * A token is committed only on the state it was validated on: a reachable state that passes the
   * staleness check has the same height and, unless hashes collide, is that very state.
   */
  lemma FreshOnlyAtBase(c: Crypto, p: NetworkParams, run: seq<Arrival>, other: seq<Arrival>, b: Block, view: UtxoSet,
                        fees: u64, v: ValidatedBlock)
    requires E.Validate(p.policy).Ok? && p.powLimit > 0 && Run(c, p, run).Ok? && Run(c, p, other).Ok?
    requires TokenFor(c, Run(c, p, run).value.state, b, view, fees, v)
    requires Fresh(Run(c, p, other).value.state, v)
    ensures |run| == |other|
    ensures NoCollisions(c, run, other) ==> Run(c, p, other).value.state == Run(c, p, run).value.state
  {
    hide Run, E.Validate, D.MedianTimestamp, D.ExpectedTarget, Overlay.Diff, Overlay.Matches, Timeline, Registry, Total,
         E.SubsidySum;
    RunInvariant(c, p, run);
    RunInvariant(c, p, other);
    if NoCollisions(c, run, other) {
      TipDeterminesState(c, p, run, other);
    }
  }
}
