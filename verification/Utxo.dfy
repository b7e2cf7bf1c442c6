/** The UTXO set, its channel registry and what a transaction does to them. */
module Utxo {
  import opened Prelude
  import opened Ledger
  import opened Consensus
  import M = Marketplace

  datatype UtxoSet = UtxoSet(outputs: map<OutPoint, TxOutput>, active: set<Digest>, retired: set<Digest>)

  const EMPTY: UtxoSet := UtxoSet(map[], {}, {})

  // ----- outputs --------------------------------------------------------------------------------

  function InsertOutput(u: UtxoSet, op: OutPoint, o: TxOutput): Result<UtxoSet, ChainError> {
    if o.value == 0 then Err(ZeroValueOutput)
    else if o.lock.ChannelLock? && (o.lock.channelId in u.active || o.lock.channelId in u.retired)
    then Err(DuplicateChannel)
    else if op in u.outputs then Err(TxidCollision)
    else
      var active := if o.lock.ChannelLock? then u.active + {o.lock.channelId} else u.active;
      Ok(UtxoSet(u.outputs[op := o], active, u.retired))
  }

  /** The index is narrowed to 32 bits. */
  function OutputPoint(txid: Digest, i: nat): OutPoint { OutPoint(txid, i % (U32_MAX + 1)) }

  /** Inserts the first n outputs of a transaction. */
  function InsertOutputs(u: UtxoSet, txid: Digest, outputs: seq<TxOutput>, n: nat): Result<UtxoSet, ChainError>
    requires n <= |outputs|
  {
    if n == 0 then Ok(u)
    else
      var prior :- InsertOutputs(u, txid, outputs, n - 1);
      InsertOutput(prior, OutputPoint(txid, n - 1), outputs[n - 1])
  }

  function Remove(u: UtxoSet, op: OutPoint): UtxoSet { u.(outputs := u.outputs - {op}) }

  function RemoveInputs(u: UtxoSet, inputs: seq<TxInput>, n: nat): UtxoSet
    requires n <= |inputs|
  {
    if n == 0 then u else Remove(RemoveInputs(u, inputs, n - 1), inputs[n - 1].previous)
  }

  /** Checked u64 sum of the first n output values. */
  function OutputSum(outputs: seq<TxOutput>, n: nat): Result<u64, ChainError>
    requires n <= |outputs|
  {
    if n == 0 then Ok(0)
    else
      var prior :- OutputSum(outputs, n - 1);
      if prior + outputs[n - 1].value > U64_MAX then Err(AmountOverflow) else Ok(prior + outputs[n - 1].value)
  }

  // ----- key spends -----------------------------------------------------------------------------

  datatype Spending = Spending(spent: set<OutPoint>, total: u64)

  /** One key input against the outputs, in the program's order of checks. */
  function SpendKeyInput(c: Crypto, outputs: map<OutPoint, TxOutput>, digest: Digest, height: u64, input: TxInput,
                         s: Spending): Result<Spending, ChainError>
  {
    if input.previous in s.spent then Err(DuplicateInput)
    else if input.previous !in outputs then Err(MissingInput)
    else
      var previous := outputs[input.previous];
      if height < previous.spendableHeight then Err(ImmatureInput(previous.spendableHeight))
      else if !previous.lock.KeyLock? || !input.evidence.KeyWitness? then Err(WrongWitness)
      else if input.evidence.publicKey != previous.lock.owner then Err(WrongOwner)
      else if !c.channel.validKey(input.evidence.publicKey)
              || !c.channel.wellFormedSignature(input.evidence.signature)
      then Err(MalformedSignature)
      else if !c.channel.verifies(input.evidence.publicKey, digest, input.evidence.signature)
      then Err(InvalidSignature)
      else if s.total + previous.value > U64_MAX then Err(AmountOverflow)
      else Ok(Spending(s.spent + {input.previous}, s.total + previous.value))
  }

  function SpendKeyInputs(c: Crypto, outputs: map<OutPoint, TxOutput>, digest: Digest, height: u64,
                          inputs: seq<TxInput>, n: nat, spent: set<OutPoint>): Result<Spending, ChainError>
    requires n <= |inputs|
  {
    if n == 0 then Ok(Spending(spent, 0))
    else
      var prior :- SpendKeyInputs(c, outputs, digest, height, inputs, n - 1, spent);
      SpendKeyInput(c, outputs, digest, height, inputs[n - 1], prior)
  }

  // ----- transactions ---------------------------------------------------------------------------

  datatype Applied = Applied(utxos: UtxoSet, spent: set<OutPoint>, fee: u64)

  function HasZeroOutput(outputs: seq<TxOutput>): bool { exists i :: 0 <= i < |outputs| && outputs[i].value == 0 }

  predicate AllKeys(inputs: seq<TxInput>) { forall i :: 0 <= i < |inputs| ==> inputs[i].evidence.KeyWitness? }

  function ApplyKeyTransaction(c: Crypto, u: UtxoSet, spent: set<OutPoint>, t: Transaction, height: u64)
    : Result<Applied, ChainError>
  {
    var s :- SpendKeyInputs(c, u.outputs, c.signingDigest(t), height, t.inputs, |t.inputs|, spent);
    var total :- OutputSum(t.outputs, |t.outputs|);
    if total > s.total then Err(CreatesValue)
    else
      var after :- InsertOutputs(RemoveInputs(u, t.inputs, |t.inputs|), c.txid(t), t.outputs, |t.outputs|);
      Ok(Applied(after, s.spent, s.total - total))
  }

  /** The exact outputs a channel close must have. */
  function ChannelOutputs(providerValue: u64, providerKey: Digest, customerValue: u64, customerKey: Digest, height: u64)
    : seq<TxOutput>
  {
    (if providerValue > 0 then [TxOutput(providerValue, KeyLock(providerKey), height)] else [])
    + (if customerValue > 0 then [TxOutput(customerValue, KeyLock(customerKey), height)] else [])
  }

  datatype Closing = Closing(outputs: seq<TxOutput>, fee: u64)

  /** The terms must be the channel's own: same network, same identifier, same deposit. */
  function CheckTerms(c: Crypto, terms: M.ChannelTerms, network: Digest, channelId: Digest, value: u64)
    : Result<(), ChainError>
  {
    if terms.networkId != network then Err(WrongNetwork)
    else
      var id :- LiftChannel(M.ChannelId(c.channel, terms));
      if id != channelId then Err(WrongWitness)
      else if terms.deposit != value then Err(ChannelDeposit)
      else Ok(())
  }

  function CloseChannel(c: Crypto, evidence: InputWitness, network: Digest, channelId: Digest, value: u64, height: u64)
    : Result<Closing, ChainError>
  {
    match evidence
    case KeyWitness(_, _) => Err(WrongWitness)
    case SettlementWitness(terms, settlement) =>
      var _ :- CheckTerms(c, terms, network, channelId, value);
      var _ :- LiftChannel(M.VerifySettlement(c.channel, terms, settlement));
      var state := settlement.state.state;
      Ok(Closing(ChannelOutputs(state.providerPayment, terms.providerKey, state.customerRefund, terms.customerKey,
                                height),
                 state.closeFeeBurn))
    case RefundWitness(terms) =>
      var _ :- CheckTerms(c, terms, network, channelId, value);
      var refund :- LiftChannel(M.RefundAt(c.channel, terms, height));
      Ok(Closing(ChannelOutputs(0, terms.providerKey, refund.customerAmount, terms.customerKey, height),
                 refund.feeBurn))
  }

  /** Moves a channel from the active to the retired set with its output. */
  function Retire(u: UtxoSet, op: OutPoint, channelId: Digest): UtxoSet {
    UtxoSet(u.outputs - {op}, u.active - {channelId}, u.retired + {channelId})
  }

  function ApplyChannelTransaction(c: Crypto, u: UtxoSet, spent: set<OutPoint>, t: Transaction, height: u64,
                                   network: Digest)
    : Result<Applied, ChainError>
  {
    if |t.inputs| != 1 then Err(ChannelCloseShape)
    else if t.inputs[0].previous in spent then Err(DuplicateInput)
    else if t.inputs[0].previous !in u.outputs then Err(MissingInput)
    else
      var op := t.inputs[0].previous;
      var previous := u.outputs[op];
      if height < previous.spendableHeight then Err(ImmatureInput(previous.spendableHeight))
      else if !previous.lock.ChannelLock? then Err(WrongWitness)
      else
        var id := previous.lock.channelId;
        var closing :- CloseChannel(c, t.inputs[0].evidence, network, id, previous.value, height);
        if t.outputs != closing.outputs then Err(ChannelCloseShape)
        else
          var total :- OutputSum(t.outputs, |t.outputs|);
          if total + closing.fee > U64_MAX then Err(AmountOverflow)
          else if total + closing.fee != previous.value then Err(ChannelCloseShape)
          else
            var after :- InsertOutputs(Retire(u, op, id), c.txid(t), t.outputs, |t.outputs|);
            Ok(Applied(after, spent + {op}, closing.fee))
  }

  function ApplyTransaction(c: Crypto, u: UtxoSet, spent: set<OutPoint>, t: Transaction, height: u64, network: Digest)
    : Result<Applied, ChainError>
  {
    if t.networkId != network then Err(WrongNetwork)
    else if t.version != TRANSACTION_VERSION then Err(UnsupportedTransactionVersion)
    else if t.inputs == [] then Err(NoInputs)
    else if t.outputs == [] then Err(NoOutputs)
    else if HasZeroOutput(t.outputs) then Err(ZeroValueOutput)
    else if !AllKeys(t.inputs) then ApplyChannelTransaction(c, u, spent, t, height, network)
    else ApplyKeyTransaction(c, u, spent, t, height)
  }

  /** The first n transactions of a block, with the running fee total. */
  function ApplyTransactions(c: Crypto, u: UtxoSet, ts: seq<Transaction>, n: nat, height: u64, network: Digest)
    : Result<Applied, ChainError>
    requires n <= |ts|
  {
    if n == 0 then Ok(Applied(u, {}, 0))
    else
      var prior :- ApplyTransactions(c, u, ts, n - 1, height, network);
      var next :- ApplyTransaction(c, prior.utxos, prior.spent, ts[n - 1], height, network);
      if prior.fee + next.fee > U64_MAX then Err(AmountOverflow)
      else Ok(Applied(next.utxos, next.spent, prior.fee + next.fee))
  }

  // ----- total value ----------------------------------------------------------------------------

  /** The value of all unspent outputs. */
  ghost function Total(m: map<OutPoint, TxOutput>): nat
    decreases |m|
  {
    if m == map[] then 0
    else
      var k :| k in m;
      m[k].value + Total(m - {k})
  }

  lemma {:induction false} TotalRemove(m: map<OutPoint, TxOutput>, k: OutPoint)
    requires k in m
    ensures Total(m) == m[k].value + Total(m - {k})
    decreases |m|
  {
    var p :| p in m && Total(m) == m[p].value + Total(m - {p});
    if p != k {
      TotalRemove(m - {p}, k);
      TotalRemove(m - {k}, p);
      assert m - {p} - {k} == m - {k} - {p};
    }
  }

  lemma TotalInsert(m: map<OutPoint, TxOutput>, k: OutPoint, o: TxOutput)
    requires k !in m
    ensures Total(m[k := o]) == Total(m) + o.value
  {
    TotalRemove(m[k := o], k);
    assert m[k := o] - {k} == m;
  }

  /** Unchecked sum of output values. */
  ghost function ValueSum(outputs: seq<TxOutput>, n: nat): nat
    requires n <= |outputs|
  {
    if n == 0 then 0 else ValueSum(outputs, n - 1) + outputs[n - 1].value
  }

  lemma {:induction false} OutputSumIsValueSum(outputs: seq<TxOutput>, n: nat)
    requires n <= |outputs| && OutputSum(outputs, n).Ok?
    ensures OutputSum(outputs, n).value == ValueSum(outputs, n)
  {
    if n > 0 { OutputSumIsValueSum(outputs, n - 1); }
  }

  lemma {:induction false} InsertAddsValue(u: UtxoSet, txid: Digest, outputs: seq<TxOutput>, n: nat)
    requires n <= |outputs| && InsertOutputs(u, txid, outputs, n).Ok?
    ensures Total(InsertOutputs(u, txid, outputs, n).value.outputs) == Total(u.outputs) + ValueSum(outputs, n)
  {
    if n > 0 {
      InsertAddsValue(u, txid, outputs, n - 1);
      var prior := InsertOutputs(u, txid, outputs, n - 1).value;
      TotalInsert(prior.outputs, OutputPoint(txid, n - 1), outputs[n - 1]);
    }
  }

  /** Spending n inputs collects exactly the value that removing them takes out. */
  lemma {:induction false} SpendRemovesValue(c: Crypto, u: UtxoSet, digest: Digest, height: u64, inputs: seq<TxInput>,
                                             n: nat, spent: set<OutPoint>)
    requires n <= |inputs| && SpendKeyInputs(c, u.outputs, digest, height, inputs, n, spent).Ok?
    ensures var s := SpendKeyInputs(c, u.outputs, digest, height, inputs, n, spent).value;
            var left := RemoveInputs(u, inputs, n).outputs;
            && Total(left) + s.total == Total(u.outputs)
            && spent <= s.spent
            && left.Keys == u.outputs.Keys - (s.spent - spent)
            && (forall op :: op in left ==> left[op] == u.outputs[op])
  {
    if n > 0 {
      SpendRemovesValue(c, u, digest, height, inputs, n - 1, spent);
      var prior := RemoveInputs(u, inputs, n - 1).outputs;
      var op := inputs[n - 1].previous;
      var s := SpendKeyInputs(c, u.outputs, digest, height, inputs, n - 1, spent).value;
      assert op in u.outputs && op !in s.spent;
      TotalRemove(prior, op);
    }
  }

  /** A transaction conserves value: what leaves the UTXO set is exactly its fee. */
  lemma KeyTransactionConserves(c: Crypto, u: UtxoSet, spent: set<OutPoint>, t: Transaction, height: u64)
    requires ApplyKeyTransaction(c, u, spent, t, height).Ok?
    ensures var a := ApplyKeyTransaction(c, u, spent, t, height).value;
            Total(a.utxos.outputs) + a.fee == Total(u.outputs)
  {
    hide SpendKeyInputs, InsertOutputs, OutputSum, RemoveInputs;
    SpendRemovesValue(c, u, c.signingDigest(t), height, t.inputs, |t.inputs|, spent);
    OutputSumIsValueSum(t.outputs, |t.outputs|);
    InsertAddsValue(RemoveInputs(u, t.inputs, |t.inputs|), c.txid(t), t.outputs, |t.outputs|);
  }

  lemma ChannelTransactionConserves(c: Crypto, u: UtxoSet, spent: set<OutPoint>, t: Transaction, height: u64,
                                    network: Digest)
    requires ApplyChannelTransaction(c, u, spent, t, height, network).Ok?
    ensures var a := ApplyChannelTransaction(c, u, spent, t, height, network).value;
            Total(a.utxos.outputs) + a.fee == Total(u.outputs)
  {
    hide InsertOutputs, OutputSum, CloseChannel;
    var op := t.inputs[0].previous;
    var id := u.outputs[op].lock.channelId;
    TotalRemove(u.outputs, op);
    OutputSumIsValueSum(t.outputs, |t.outputs|);
    InsertAddsValue(Retire(u, op, id), c.txid(t), t.outputs, |t.outputs|);
  }

  lemma TransactionConserves(c: Crypto, u: UtxoSet, spent: set<OutPoint>, t: Transaction, height: u64, network: Digest)
    requires ApplyTransaction(c, u, spent, t, height, network).Ok?
    ensures var a := ApplyTransaction(c, u, spent, t, height, network).value;
            Total(a.utxos.outputs) + a.fee == Total(u.outputs)
  {
    hide ApplyKeyTransaction, ApplyChannelTransaction;
    if AllKeys(t.inputs) {
      KeyTransactionConserves(c, u, spent, t, height);
    } else {
      ChannelTransactionConserves(c, u, spent, t, height, network);
    }
  }

  lemma {:induction false} TransactionsConserve(c: Crypto, u: UtxoSet, ts: seq<Transaction>, n: nat, height: u64,
                                                network: Digest)
    requires n <= |ts| && ApplyTransactions(c, u, ts, n, height, network).Ok?
    ensures var a := ApplyTransactions(c, u, ts, n, height, network).value;
            Total(a.utxos.outputs) + a.fee == Total(u.outputs)
  {
    hide ApplyTransaction;
    if n > 0 {
      TransactionsConserve(c, u, ts, n - 1, height, network);
      var prior := ApplyTransactions(c, u, ts, n - 1, height, network).value;
      TransactionConserves(c, prior.utxos, prior.spent, ts[n - 1], height, network);
    }
  }

  // ----- the channel registry ---------------------------------------------------------------------

  ghost predicate LocksChannel(u: UtxoSet, op: OutPoint, id: Digest) {
    op in u.outputs && u.outputs[op].lock == ChannelLock(id)
  }

  /**
   * Active identifiers are in bijection with channel-locked outputs, and no active identifier has
   * been retired.
   */
  ghost predicate Registry(u: UtxoSet) {
    && (forall op :: op in u.outputs && u.outputs[op].lock.ChannelLock? ==> u.outputs[op].lock.channelId in u.active)
    && (forall id :: id in u.active ==> exists op :: LocksChannel(u, op, id))
    && (forall op, op', id :: LocksChannel(u, op, id) && LocksChannel(u, op', id) ==> op == op')
    && u.active !! u.retired
  }

  /** Only retiring changes the retired set, and it only grows. */
  lemma InsertKeepsRegistry(u: UtxoSet, op: OutPoint, o: TxOutput)
    requires Registry(u) && InsertOutput(u, op, o).Ok?
    ensures Registry(InsertOutput(u, op, o).value)
    ensures InsertOutput(u, op, o).value.retired == u.retired
  {
    var v := InsertOutput(u, op, o).value;
    forall id | id in v.active ensures exists q :: LocksChannel(v, q, id) {
      if id in u.active {
        var q :| LocksChannel(u, q, id);
        assert LocksChannel(v, q, id);
      } else {
        assert LocksChannel(v, op, id);
      }
    }
    forall p, q, id | LocksChannel(v, p, id) && LocksChannel(v, q, id) ensures p == q {
      assert p == op || LocksChannel(u, p, id);
      assert q == op || LocksChannel(u, q, id);
    }
  }

  lemma {:induction false} InsertsKeepRegistry(u: UtxoSet, txid: Digest, outputs: seq<TxOutput>, n: nat)
    requires n <= |outputs| && Registry(u) && InsertOutputs(u, txid, outputs, n).Ok?
    ensures Registry(InsertOutputs(u, txid, outputs, n).value)
    ensures InsertOutputs(u, txid, outputs, n).value.retired == u.retired
  {
    hide Registry, InsertOutput;
    if n > 0 {
      InsertsKeepRegistry(u, txid, outputs, n - 1);
      InsertKeepsRegistry(InsertOutputs(u, txid, outputs, n - 1).value, OutputPoint(txid, n - 1), outputs[n - 1]);
    }
  }

  lemma RemoveKeepsRegistry(u: UtxoSet, op: OutPoint)
    requires Registry(u) && (op in u.outputs ==> u.outputs[op].lock.KeyLock?)
    ensures Registry(Remove(u, op))
  {
    var v := Remove(u, op);
    forall id | id in v.active ensures exists q :: LocksChannel(v, q, id) {
      var q :| LocksChannel(u, q, id);
      assert LocksChannel(v, q, id);
    }
    forall p, q, id | LocksChannel(v, p, id) && LocksChannel(v, q, id) ensures p == q {
      assert LocksChannel(u, p, id) && LocksChannel(u, q, id);
    }
  }

  lemma {:induction false} RemovesKeepRegistry(c: Crypto, u: UtxoSet, digest: Digest, height: u64, inputs: seq<TxInput>,
                                               n: nat, spent: set<OutPoint>)
    requires n <= |inputs| && Registry(u) && SpendKeyInputs(c, u.outputs, digest, height, inputs, n, spent).Ok?
    ensures Registry(RemoveInputs(u, inputs, n)) && RemoveInputs(u, inputs, n).retired == u.retired
  {
    if n > 0 {
      hide Registry;
      RemovesKeepRegistry(c, u, digest, height, inputs, n - 1, spent);
      SpendRemovesValue(c, u, digest, height, inputs, n - 1, spent);
      RemoveKeepsRegistry(RemoveInputs(u, inputs, n - 1), inputs[n - 1].previous);
    }
  }

  lemma RetireKeepsRegistry(u: UtxoSet, op: OutPoint, id: Digest)
    requires Registry(u) && LocksChannel(u, op, id)
    ensures Registry(Retire(u, op, id))
  {
    var v := Retire(u, op, id);
    forall i | i in v.active ensures exists q :: LocksChannel(v, q, i) {
      var q :| LocksChannel(u, q, i);
      assert LocksChannel(v, q, i);
    }
    forall p, q, i | LocksChannel(v, p, i) && LocksChannel(v, q, i) ensures p == q {
      assert LocksChannel(u, p, i) && LocksChannel(u, q, i);
    }
    forall p | p in v.outputs && v.outputs[p].lock.ChannelLock? ensures v.outputs[p].lock.channelId in v.active {
      if v.outputs[p].lock.channelId == id {
        assert LocksChannel(u, p, id);
      }
    }
  }

  lemma KeyTransactionKeepsRegistry(c: Crypto, u: UtxoSet, spent: set<OutPoint>, t: Transaction, height: u64)
    requires Registry(u) && ApplyKeyTransaction(c, u, spent, t, height).Ok?
    ensures var v := ApplyKeyTransaction(c, u, spent, t, height).value.utxos;
            Registry(v) && v.retired == u.retired
  {
    hide Registry, SpendKeyInputs, InsertOutputs, OutputSum, RemoveInputs;
    RemovesKeepRegistry(c, u, c.signingDigest(t), height, t.inputs, |t.inputs|, spent);
    InsertsKeepRegistry(RemoveInputs(u, t.inputs, |t.inputs|), c.txid(t), t.outputs, |t.outputs|);
  }

  lemma ChannelTransactionKeepsRegistry(c: Crypto, u: UtxoSet, spent: set<OutPoint>, t: Transaction, height: u64,
                                        network: Digest)
    requires Registry(u) && ApplyChannelTransaction(c, u, spent, t, height, network).Ok?
    ensures var v := ApplyChannelTransaction(c, u, spent, t, height, network).value.utxos;
            Registry(v) && u.retired <= v.retired
  {
    hide Registry, InsertOutputs, OutputSum, CloseChannel;
    var op := t.inputs[0].previous;
    var id := u.outputs[op].lock.channelId;
    RetireKeepsRegistry(u, op, id);
    InsertsKeepRegistry(Retire(u, op, id), c.txid(t), t.outputs, |t.outputs|);
  }

  lemma TransactionKeepsRegistry(c: Crypto, u: UtxoSet, spent: set<OutPoint>, t: Transaction, height: u64,
                                 network: Digest)
    requires Registry(u) && ApplyTransaction(c, u, spent, t, height, network).Ok?
    ensures var v := ApplyTransaction(c, u, spent, t, height, network).value.utxos;
            Registry(v) && u.retired <= v.retired
  {
    hide Registry, ApplyKeyTransaction, ApplyChannelTransaction;
    if AllKeys(t.inputs) {
      KeyTransactionKeepsRegistry(c, u, spent, t, height);
    } else {
      ChannelTransactionKeepsRegistry(c, u, spent, t, height, network);
    }
  }

  lemma {:induction false} TransactionsKeepRegistry(c: Crypto, u: UtxoSet, ts: seq<Transaction>, n: nat, height: u64,
                                                    network: Digest)
    requires n <= |ts| && Registry(u) && ApplyTransactions(c, u, ts, n, height, network).Ok?
    ensures var v := ApplyTransactions(c, u, ts, n, height, network).value.utxos;
            Registry(v) && u.retired <= v.retired
  {
    hide Registry, ApplyTransaction;
    if n > 0 {
      TransactionsKeepRegistry(c, u, ts, n - 1, height, network);
      var prior := ApplyTransactions(c, u, ts, n - 1, height, network).value;
      TransactionKeepsRegistry(c, prior.utxos, prior.spent, ts[n - 1], height, network);
    }
  }
}
