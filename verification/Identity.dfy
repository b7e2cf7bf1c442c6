/** An accepted block is determined by its block identifier. */
module Identity {
  import opened Prelude
  import opened Ledger
  import opened Consensus
  import opened Utxo
  import opened BlockRules
  import opened K = Merkle
  import W = WireObjects

  // ----- the spent set ------------------------------------------------------------------------------

  function Previous(inputs: seq<TxInput>, n: nat): set<OutPoint>
    requires n <= |inputs|
  {
    set i | 0 <= i < n :: inputs[i].previous
  }

  function Spends(t: Transaction): set<OutPoint> { Previous(t.inputs, |t.inputs|) }

  lemma PreviousGrows(inputs: seq<TxInput>, n: nat)
    requires n < |inputs|
    ensures Previous(inputs, n + 1) == Previous(inputs, n) + {inputs[n].previous}
  {
  }

  lemma {:induction false} KeyInputsSpent(c: Crypto, outputs: map<OutPoint, TxOutput>, digest: Digest, height: u64,
                                          inputs: seq<TxInput>, n: nat, spent: set<OutPoint>)
    requires n <= |inputs| && SpendKeyInputs(c, outputs, digest, height, inputs, n, spent).Ok?
    ensures SpendKeyInputs(c, outputs, digest, height, inputs, n, spent).value.spent == spent + Previous(inputs, n)
    ensures Previous(inputs, n) !! spent && Previous(inputs, n) <= outputs.Keys
  {
    if n > 0 {
      hide Previous;
      KeyInputsSpent(c, outputs, digest, height, inputs, n - 1, spent);
      PreviousGrows(inputs, n - 1);
    } else {
      assert Previous(inputs, n) == {};
    }
  }

  /** A transaction spends outputs of the set that nothing before it in the block has spent. */
  lemma TransactionSpends(c: Crypto, u: UtxoSet, spent: set<OutPoint>, t: Transaction, height: u64, network: Digest)
    requires ApplyTransaction(c, u, spent, t, height, network).Ok?
    ensures t.inputs != [] && Spends(t) !! spent && Spends(t) <= u.outputs.Keys
    ensures ApplyTransaction(c, u, spent, t, height, network).value.spent == spent + Spends(t)
  {
    hide SpendKeyInputs, InsertOutputs, RemoveInputs, OutputSum, CloseChannel;
    if AllKeys(t.inputs) {
      KeyInputsSpent(c, u.outputs, c.signingDigest(t), height, t.inputs, |t.inputs|, spent);
    } else {
      PreviousGrows(t.inputs, 0);
      assert Previous(t.inputs, 0) == {};
    }
  }

  ghost function SpendsOf(ts: seq<Transaction>): set<OutPoint> {
    if ts == [] then {} else SpendsOf(ts[..|ts| - 1]) + Spends(ts[|ts| - 1])
  }

  /** No output is spent twice, and every transaction spends something. */
  ghost predicate Conflictless(ts: seq<Transaction>) {
    ts == [] ||
    var earlier, last := ts[..|ts| - 1], ts[|ts| - 1];
    Conflictless(earlier) && last.inputs != [] && Spends(last) !! SpendsOf(earlier)
  }

  lemma {:induction false} TransactionsConflictless(c: Crypto, u: UtxoSet, ts: seq<Transaction>, n: nat, height: u64,
                                                    network: Digest)
    requires n <= |ts| && ApplyTransactions(c, u, ts, n, height, network).Ok?
    ensures ApplyTransactions(c, u, ts, n, height, network).value.spent == SpendsOf(ts[..n])
    ensures Conflictless(ts[..n])
  {
    hide ApplyTransaction, Spends;
    if n > 0 {
      TransactionsConflictless(c, u, ts, n - 1, height, network);
      var prior := ApplyTransactions(c, u, ts, n - 1, height, network).value;
      TransactionSpends(c, prior.utxos, prior.spent, ts[n - 1], height, network);
      assert ts[..n][..n - 1] == ts[..n - 1];
    }
  }

  lemma {:induction false} SpendsMember(ts: seq<Transaction>, i: nat)
    requires i < |ts|
    ensures Spends(ts[i]) <= SpendsOf(ts)
  {
    hide Spends;
    if i < |ts| - 1 { SpendsMember(ts[..|ts| - 1], i); }
  }

  /** The transactions of an accepted block are pairwise different. */
  lemma {:induction false} ConflictlessDistinct(ts: seq<Transaction>)
    requires Conflictless(ts)
    ensures Distinct(ts)
  {
    hide Spends;
    if ts != [] {
      var earlier, last := ts[..|ts| - 1], ts[|ts| - 1];
      ConflictlessDistinct(earlier);
      SpendsSomething(last);
      forall i | 0 <= i < |earlier| ensures ts[i] != last {
        SpendsMember(earlier, i);
      }
    }
  }

  lemma SpendsSomething(t: Transaction)
    requires t.inputs != []
    ensures Spends(t) != {}
  {
    assert t.inputs[0].previous in Spends(t);
  }

  // ----- identity -----------------------------------------------------------------------------------

  /** Every hash evaluated to identify a block. */
  ghost function BlockQueries(c: Crypto, b: Block): set<Query> {
    {BlockQuery(b.version, b.challenge, b.proof), CoinbaseQuery(b.coinbase, b.challenge.networkId)}
    + (set i | 0 <= i < |b.transactions| :: TxQuery(b.transactions[i]))
    + RootQueries(c, TreeIds(c, b))
  }

  lemma QueryMembers(c: Crypto, b: Block, qs: set<Query>)
    requires BlockQueries(c, b) <= qs
    ensures BlockQuery(b.version, b.challenge, b.proof) in qs
    ensures CoinbaseQuery(b.coinbase, b.challenge.networkId) in qs
    ensures forall i :: 0 <= i < |b.transactions| ==> TxQuery(b.transactions[i]) in qs
    ensures RootQueries(c, TreeIds(c, b)) <= qs
  {
    forall i | 0 <= i < |b.transactions| ensures TxQuery(b.transactions[i]) in qs {
      assert TxQuery(b.transactions[i]) in BlockQueries(c, b);
    }
  }

  lemma TreeIdsDistinct(c: Crypto, b: Block, qs: set<Query>)
    requires Distinct(b.transactions) && BlockQueries(c, b) <= qs && CollisionFree(c, qs)
    ensures Distinct(TreeIds(c, b))
  {
    hide BlockQueries, RootQueries;
    QueryMembers(c, b, qs);
    var ids := TreeIds(c, b);
    forall i, j | 0 <= i < j < |ids| ensures ids[i] != ids[j] {
      assert ids[j] == Hash(c, TxQuery(b.transactions[j - 1]));
      if i == 0 {
        assert ids[i] == Hash(c, CoinbaseQuery(b.coinbase, b.challenge.networkId));
      } else {
        assert ids[i] == Hash(c, TxQuery(b.transactions[i - 1]));
        assert b.transactions[i - 1] != b.transactions[j - 1];
      }
    }
  }

  lemma TreeIdsDetermine(c: Crypto, a: Block, b: Block, qs: set<Query>)
    requires BlockQueries(c, a) + BlockQueries(c, b) <= qs && CollisionFree(c, qs)
    requires TreeIds(c, a) == TreeIds(c, b)
    ensures a.coinbase == b.coinbase && a.transactions == b.transactions
  {
    hide BlockQueries, RootQueries;
    QueryMembers(c, a, qs);
    QueryMembers(c, b, qs);
    assert TreeIds(c, a)[0] == Hash(c, CoinbaseQuery(a.coinbase, a.challenge.networkId));
    assert TreeIds(c, b)[0] == Hash(c, CoinbaseQuery(b.coinbase, b.challenge.networkId));
    assert |a.transactions| == |TreeIds(c, a)| - 1 == |b.transactions|;
    forall i | 0 <= i < |a.transactions| ensures a.transactions[i] == b.transactions[i] {
      assert Hash(c, TxQuery(a.transactions[i])) == TreeIds(c, a)[i + 1];
      assert Hash(c, TxQuery(b.transactions[i])) == TreeIds(c, b)[i + 1];
    }
  }

  lemma AcceptedIdsDistinct(c: Crypto, p: NetworkParams, u: UtxoSet, b: Block, qs: set<Query>)
    requires ValidateUtxos(c, p, u, b).Ok? && BlockQueries(c, b) <= qs && CollisionFree(c, qs)
    ensures Distinct(TreeIds(c, b)) && Root(c, TreeIds(c, b)) == b.challenge.transactionRoot
  {
    hide ApplyTransactions, InsertOutputs, ValidateCoinbase, BlockQueries, Conflictless, Distinct, CollisionFree, Root,
         BlockResources, TreeIds, W.EncodeBlock;
    TransactionsConflictless(c, u, b.transactions, |b.transactions|, b.challenge.height, p.networkId);
    assert b.transactions[..|b.transactions|] == b.transactions;
    ConflictlessDistinct(b.transactions);
    TreeIdsDistinct(c, b, qs);
  }

  /**
   * Two blocks accepted anywhere, under one identifier, are the same block, unless two of the hashes
   * evaluated for them collide. Odd tree levels repeat their last node, so this needs the rule that
   * no output is spent twice in a block.
   */
  lemma BlockIdCommits(c: Crypto, p: NetworkParams, u: UtxoSet, a: Block, p': NetworkParams, u': UtxoSet, b: Block)
    requires ValidateUtxos(c, p, u, a).Ok? && ValidateUtxos(c, p', u', b).Ok?
    requires CollisionFree(c, BlockQueries(c, a) + BlockQueries(c, b))
    requires BlockId(c, a) == BlockId(c, b)
    ensures a == b
  {
    hide ValidateUtxos, BlockQueries, RootQueries, Root, TreeIds, Distinct;
    var qs := BlockQueries(c, a) + BlockQueries(c, b);
    QueryMembers(c, a, qs);
    QueryMembers(c, b, qs);
    assert Hash(c, BlockQuery(a.version, a.challenge, a.proof)) == Hash(c, BlockQuery(b.version, b.challenge, b.proof));
    AcceptedIdsDistinct(c, p, u, a, qs);
    AcceptedIdsDistinct(c, p', u', b, qs);
    assert CollisionFree(c, RootQueries(c, TreeIds(c, a)) + RootQueries(c, TreeIds(c, b)));
    RootInjective(c, TreeIds(c, a), TreeIds(c, b));
    TreeIdsDetermine(c, a, b, qs);
  }
}
