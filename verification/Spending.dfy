/** Who can spend what: the exact conditions of key spends and channel closes, and what they do to the set. */
module Spending {
  import opened Prelude
  import opened Ledger
  import opened Consensus
  import opened Utxo
  import opened BlockRules
  import opened Chain
  import opened Identity
  import D = Difficulty
  import E = Economics
  import M = Marketplace
  import Overlay

  // ----- one key input ------------------------------------------------------------------------------------

  /** The witness is the owner's key with a signature that verifies over the digest, and the output is mature. */
  ghost predicate SignedFor(c: Crypto, o: TxOutput, digest: Digest, height: u64, evidence: InputWitness) {
    && o.lock.KeyLock? && evidence.KeyWitness?
    && evidence.publicKey == o.lock.owner
    && height >= o.spendableHeight
    && c.channel.validKey(o.lock.owner) && c.channel.wellFormedSignature(evidence.signature)
    && c.channel.verifies(o.lock.owner, digest, evidence.signature)
  }

  ghost predicate Authorized(c: Crypto, outputs: map<OutPoint, TxOutput>, digest: Digest, height: u64, input: TxInput) {
    input.previous in outputs && SignedFor(c, outputs[input.previous], digest, height, input.evidence)
  }

  /** Value of the outputs the first n inputs name. */
  ghost function InputValue(outputs: map<OutPoint, TxOutput>, inputs: seq<TxInput>, n: nat): nat
    requires n <= |inputs|
  {
    if n == 0 then 0
    else
      var op := inputs[n - 1].previous;
      InputValue(outputs, inputs, n - 1) + if op in outputs then outputs[op].value else 0
  }

  /** The first n inputs are authorized, name different outputs, and nothing already spent. */
  ghost predicate InputsAuthorized(c: Crypto, outputs: map<OutPoint, TxOutput>, digest: Digest, height: u64,
                                   inputs: seq<TxInput>, n: nat, spent: set<OutPoint>)
    requires n <= |inputs|
  {
    && (forall i :: 0 <= i < n ==> Authorized(c, outputs, digest, height, inputs[i]) && inputs[i].previous !in spent)
    && (forall i, j :: 0 <= i < j < n ==> inputs[i].previous != inputs[j].previous)
  }

  lemma {:induction false} InputsSpend(c: Crypto, outputs: map<OutPoint, TxOutput>, digest: Digest, height: u64,
                                       inputs: seq<TxInput>, n: nat, spent: set<OutPoint>)
    requires n <= |inputs|
    ensures var r := SpendKeyInputs(c, outputs, digest, height, inputs, n, spent);
            && (r.Ok? <==> InputsAuthorized(c, outputs, digest, height, inputs, n, spent)
                           && InputValue(outputs, inputs, n) <= U64_MAX)
            && (r.Ok? ==>
                  r.value.total == InputValue(outputs, inputs, n) && r.value.spent == spent + Previous(inputs, n))
  {
    hide SpendKeyInput, InputsAuthorized, Authorized, Previous;
    if n > 0 {
      InputsSpend(c, outputs, digest, height, inputs, n - 1, spent);
      PreviousGrows(inputs, n - 1);
      AuthorizedMore(c, outputs, digest, height, inputs, n, spent);
      var prior := SpendKeyInputs(c, outputs, digest, height, inputs, n - 1, spent);
      if prior.Ok? { OneSpend(c, outputs, digest, height, inputs[n - 1], prior.value); }
    } else {
      NoneAuthorized(c, outputs, digest, height, inputs, spent);
    }
  }

  lemma OneSpend(c: Crypto, outputs: map<OutPoint, TxOutput>, digest: Digest, height: u64, input: TxInput,
                 prior: Utxo.Spending)
    ensures var r, op := SpendKeyInput(c, outputs, digest, height, input, prior), input.previous;
            && (r.Ok? <==> Authorized(c, outputs, digest, height, input) && op !in prior.spent
                           && prior.total + outputs[op].value <= U64_MAX)
            && (r.Ok? ==> r.value.spent == prior.spent + {op} && r.value.total == prior.total + outputs[op].value)
    ensures Authorized(c, outputs, digest, height, input) ==> input.previous in outputs
  {
  }

  lemma AuthorizedMore(c: Crypto, outputs: map<OutPoint, TxOutput>, digest: Digest, height: u64, inputs: seq<TxInput>,
                       n: nat, spent: set<OutPoint>)
    requires 0 < n <= |inputs|
    ensures InputsAuthorized(c, outputs, digest, height, inputs, n, spent) <==>
            && InputsAuthorized(c, outputs, digest, height, inputs, n - 1, spent)
            && Authorized(c, outputs, digest, height, inputs[n - 1])
            && inputs[n - 1].previous !in spent + Previous(inputs, n - 1)
  {
    hide Authorized;
    assert inputs[n - 1].previous in Previous(inputs, n - 1) <==>
           exists i :: 0 <= i < n - 1 && inputs[i].previous == inputs[n - 1].previous;
  }

  lemma NoneAuthorized(c: Crypto, outputs: map<OutPoint, TxOutput>, digest: Digest, height: u64, inputs: seq<TxInput>,
                       spent: set<OutPoint>)
    ensures InputsAuthorized(c, outputs, digest, height, inputs, 0, spent) && spent + Previous(inputs, 0) == spent
  {
    assert Previous(inputs, 0) == {};
  }

  // ----- inserting outputs ----------------------------------------------------------------------------------

  /** Outputs with value, at unused points, whose channels are new and pairwise different. */
  ghost predicate Insertable(u: UtxoSet, txid: Digest, outputs: seq<TxOutput>, n: nat)
    requires n <= |outputs| <= U32_MAX
  {
    && (forall i :: 0 <= i < n ==> outputs[i].value > 0 && OutPoint(txid, i) !in u.outputs)
    && (forall i :: 0 <= i < n && outputs[i].lock.ChannelLock? ==>
          outputs[i].lock.channelId !in u.active && outputs[i].lock.channelId !in u.retired)
    && (forall i, j :: 0 <= i < j < n && outputs[i].lock.ChannelLock? ==> outputs[i].lock != outputs[j].lock)
  }

  /** The set with the first n outputs added under a transaction identifier. */
  ghost predicate Extends(u: UtxoSet, v: UtxoSet, txid: Digest, outputs: seq<TxOutput>, n: nat)
    requires n <= |outputs|
  {
    && (forall op :: Overlay.Lookup(v.outputs, op)
                     == if op.txid == txid && op.index < n then Some(outputs[op.index])
                        else Overlay.Lookup(u.outputs, op))
    && (forall id :: id in v.active <==> id in u.active || exists i :: 0 <= i < n && outputs[i].lock == ChannelLock(id))
    && v.retired == u.retired
  }

  lemma {:induction false} InsertsExactly(u: UtxoSet, txid: Digest, outputs: seq<TxOutput>, n: nat)
    requires n <= |outputs| <= U32_MAX
    ensures InsertOutputs(u, txid, outputs, n).Ok? <==> Insertable(u, txid, outputs, n)
    ensures InsertOutputs(u, txid, outputs, n).Ok? ==>
            Extends(u, InsertOutputs(u, txid, outputs, n).value, txid, outputs, n)
  {
    if n > 0 {
      InsertsExactly(u, txid, outputs, n - 1);
      if InsertOutputs(u, txid, outputs, n - 1).Ok? {
        hide InsertOutputs, Insertable, Extends;
        var v := InsertOutputs(u, txid, outputs, n - 1).value;
        InsertVerdict(u, v, txid, outputs, n);
        InsertStep(u, txid, outputs, n);
        if InsertOutput(v, OutPoint(txid, n - 1), outputs[n - 1]).Ok? { InsertEffect(u, v, txid, outputs, n); }
      } else {
        InsertStep(u, txid, outputs, n);
        InsertableBefore(u, txid, outputs, n);
      }
    }
  }

  lemma InsertStep(u: UtxoSet, txid: Digest, outputs: seq<TxOutput>, n: nat)
    requires 0 < n <= |outputs| <= U32_MAX
    ensures InsertOutputs(u, txid, outputs, n)
         == var prior := InsertOutputs(u, txid, outputs, n - 1);
            if prior.Err? then prior else InsertOutput(prior.value, OutPoint(txid, n - 1), outputs[n - 1])
  {
    hide InsertOutput;
  }

  lemma InsertableBefore(u: UtxoSet, txid: Digest, outputs: seq<TxOutput>, n: nat)
    requires 0 < n <= |outputs| <= U32_MAX
    ensures Insertable(u, txid, outputs, n) ==> Insertable(u, txid, outputs, n - 1)
  {
  }

  lemma InsertVerdict(u: UtxoSet, v: UtxoSet, txid: Digest, outputs: seq<TxOutput>, n: nat)
    requires 0 < n <= |outputs| <= U32_MAX && Insertable(u, txid, outputs, n - 1) && Extends(u, v, txid, outputs, n - 1)
    ensures InsertOutput(v, OutPoint(txid, n - 1), outputs[n - 1]).Ok? <==> Insertable(u, txid, outputs, n)
  {
    var op := OutPoint(txid, n - 1);
    assert op in v.outputs <==> Overlay.Lookup(v.outputs, op).Some?;
    assert Overlay.Lookup(v.outputs, op) == Overlay.Lookup(u.outputs, op);
  }

  lemma InsertEffect(u: UtxoSet, v: UtxoSet, txid: Digest, outputs: seq<TxOutput>, n: nat)
    requires 0 < n <= |outputs| <= U32_MAX && Extends(u, v, txid, outputs, n - 1)
    requires InsertOutput(v, OutPoint(txid, n - 1), outputs[n - 1]).Ok?
    ensures Extends(u, InsertOutput(v, OutPoint(txid, n - 1), outputs[n - 1]).value, txid, outputs, n)
  {
    var w := InsertOutput(v, OutPoint(txid, n - 1), outputs[n - 1]).value;
    forall op ensures Overlay.Lookup(w.outputs, op)
                      == if op.txid == txid && op.index < n then Some(outputs[op.index])
                         else Overlay.Lookup(u.outputs, op)
    {
      assert Overlay.Lookup(v.outputs, op)
          == if op.txid == txid && op.index < n - 1 then Some(outputs[op.index]) else Overlay.Lookup(u.outputs, op);
      if op.txid == txid && op.index == n - 1 { assert op == OutPoint(txid, n - 1); }
    }
    forall id
      ensures id in w.active <==> id in u.active || exists i :: 0 <= i < n && outputs[i].lock == ChannelLock(id)
    {
      if id in w.active && id !in v.active { assert outputs[n - 1].lock == ChannelLock(id); }
    }
  }

  // ----- key transactions -----------------------------------------------------------------------------------

  /** The set without the outputs a transaction spends. */
  ghost function Without(u: UtxoSet, inputs: seq<TxInput>): UtxoSet {
    u.(outputs := u.outputs - Previous(inputs, |inputs|))
  }

  lemma {:induction false} RemovesExactly(u: UtxoSet, inputs: seq<TxInput>, n: nat)
    requires n <= |inputs|
    ensures RemoveInputs(u, inputs, n) == u.(outputs := u.outputs - Previous(inputs, n))
  {
    if n == 0 {
      assert Previous(inputs, 0) == {};
      assert u.outputs - {} == u.outputs;
    } else {
      RemovesExactly(u, inputs, n - 1);
      PreviousGrows(inputs, n - 1);
      assert u.outputs - Previous(inputs, n - 1) - {inputs[n - 1].previous} == u.outputs - Previous(inputs, n);
    }
  }

  /**
   * A key transaction is accepted exactly when every input is signed for by the owner of a matured, unspent
   * output of its own, the values fit, nothing is created, and its outputs can be added. It then replaces
   * those outputs by its own and burns the difference.
   */
  lemma KeySpendExact(c: Crypto, u: UtxoSet, spent: set<OutPoint>, t: Transaction, height: u64)
    requires |t.outputs| <= U32_MAX
    ensures var r := ApplyKeyTransaction(c, u, spent, t, height);
            var paid, given := InputValue(u.outputs, t.inputs, |t.inputs|), ValueSum(t.outputs, |t.outputs|);
            && (r.Ok? <==>
                  && InputsAuthorized(c, u.outputs, c.signingDigest(t), height, t.inputs, |t.inputs|, spent)
                  && given <= paid <= U64_MAX
                  && Insertable(Without(u, t.inputs), c.txid(t), t.outputs, |t.outputs|))
            && (r.Ok? ==>
                  && r.value.fee == paid - given
                  && r.value.spent == spent + Spends(t)
                  && Extends(Without(u, t.inputs), r.value.utxos, c.txid(t), t.outputs, |t.outputs|))
  {
    hide SpendKeyInputs, InsertOutputs, OutputSum, RemoveInputs, InputsAuthorized, Insertable, Extends;
    InputsSpend(c, u.outputs, c.signingDigest(t), height, t.inputs, |t.inputs|, spent);
    RemovesExactly(u, t.inputs, |t.inputs|);
    InsertsExactly(Without(u, t.inputs), c.txid(t), t.outputs, |t.outputs|);
    SumVerdict(t.outputs, |t.outputs|);
  }

  lemma {:induction false} SumVerdict(outputs: seq<TxOutput>, n: nat)
    requires n <= |outputs|
    ensures OutputSum(outputs, n).Ok? <==> ValueSum(outputs, n) <= U64_MAX
    ensures OutputSum(outputs, n).Ok? ==> OutputSum(outputs, n).value == ValueSum(outputs, n)
  {
    if n > 0 { SumVerdict(outputs, n - 1); }
  }

  /** Beyond that, a transaction must be of this network and version, and have inputs and outputs with value. */
  lemma TransactionExact(c: Crypto, u: UtxoSet, spent: set<OutPoint>, t: Transaction, height: u64, network: Digest)
    ensures ApplyTransaction(c, u, spent, t, height, network).Ok? <==>
            && t.networkId == network && t.version == 1 && |t.inputs| > 0 && |t.outputs| > 0
            && (forall i :: 0 <= i < |t.outputs| ==> t.outputs[i].value > 0)
            && (if forall i :: 0 <= i < |t.inputs| ==> t.inputs[i].evidence.KeyWitness?
                then ApplyKeyTransaction(c, u, spent, t, height).Ok?
                else ApplyChannelTransaction(c, u, spent, t, height, network).Ok?)
  {
    hide ApplyKeyTransaction, ApplyChannelTransaction;
  }

  // ----- no key-locked output moves without its owner ---------------------------------------------------------

  /** The output at a point is no longer what it was. */
  ghost predicate Moved(u: UtxoSet, v: UtxoSet, op: OutPoint) {
    op in u.outputs && Overlay.Lookup(v.outputs, op) != Some(u.outputs[op])
  }

  /** Some input of the transaction spends the output, signed for by its owner at a matured height. */
  ghost predicate OwnerSpends(c: Crypto, t: Transaction, op: OutPoint, o: TxOutput, height: u64) {
    exists i :: 0 <= i < |t.inputs| && t.inputs[i].previous == op
                && SignedFor(c, o, c.signingDigest(t), height, t.inputs[i].evidence)
  }

  lemma TransactionMoves(c: Crypto, u: UtxoSet, spent: set<OutPoint>, t: Transaction, height: u64, network: Digest,
                         op: OutPoint)
    requires ApplyTransaction(c, u, spent, t, height, network).Ok? && |t.outputs| <= U32_MAX
    requires Moved(u, ApplyTransaction(c, u, spent, t, height, network).value.utxos, op)
    requires u.outputs[op].lock.KeyLock?
    ensures OwnerSpends(c, t, op, u.outputs[op], height)
  {
    hide SpendKeyInputs, InsertOutputs, OutputSum, RemoveInputs, CloseChannel, SignedFor;
    if AllKeys(t.inputs) {
      KeySpendExact(c, u, spent, t, height);
      KeyMoves(c, u, spent, t, height, op);
    } else {
      var closed := t.inputs[0].previous;
      var v := Retire(u, closed, u.outputs[closed].lock.channelId);
      InsertsExactly(v, c.txid(t), t.outputs, |t.outputs|);
      StaysAfterInsert(v, ApplyTransaction(c, u, spent, t, height, network).value.utxos, c.txid(t), t.outputs, op);
    }
  }

  /** Insertable outputs never overwrite. */
  lemma StaysAfterInsert(u: UtxoSet, v: UtxoSet, txid: Digest, outputs: seq<TxOutput>, op: OutPoint)
    requires |outputs| <= U32_MAX && Insertable(u, txid, outputs, |outputs|) && Extends(u, v, txid, outputs, |outputs|)
    ensures op in u.outputs ==> Overlay.Lookup(v.outputs, op) == Some(u.outputs[op])
  {
    assert forall i :: 0 <= i < |outputs| ==> OutPoint(txid, i) !in u.outputs;
    assert op == OutPoint(op.txid, op.index);
  }

  lemma KeyMoves(c: Crypto, u: UtxoSet, spent: set<OutPoint>, t: Transaction, height: u64, op: OutPoint)
    requires |t.outputs| <= U32_MAX && ApplyKeyTransaction(c, u, spent, t, height).Ok?
    requires Moved(u, ApplyKeyTransaction(c, u, spent, t, height).value.utxos, op)
    ensures OwnerSpends(c, t, op, u.outputs[op], height)
  {
    hide ApplyKeyTransaction, Insertable, Extends, SignedFor;
    KeySpendExact(c, u, spent, t, height);
    StaysAfterInsert(Without(u, t.inputs), ApplyKeyTransaction(c, u, spent, t, height).value.utxos, c.txid(t),
                     t.outputs, op);
    assert op in Previous(t.inputs, |t.inputs|);
    var i :| 0 <= i < |t.inputs| && t.inputs[i].previous == op;
    assert Authorized(c, u.outputs, c.signingDigest(t), height, t.inputs[i]);
  }

  /** One of the first n transactions spends the output for its owner. */
  ghost predicate SpentForOwner(c: Crypto, ts: seq<Transaction>, n: nat, op: OutPoint, o: TxOutput, height: u64)
    requires n <= |ts|
  {
    exists i :: 0 <= i < n && OwnerSpends(c, ts[i], op, o, height)
  }

  ghost predicate FewOutputs(ts: seq<Transaction>) { forall i :: 0 <= i < |ts| ==> |ts[i].outputs| <= U32_MAX }

  lemma {:induction false} TransactionsMove(c: Crypto, u: UtxoSet, ts: seq<Transaction>, n: nat, height: u64,
                                            network: Digest, op: OutPoint)
    requires n <= |ts| && FewOutputs(ts) && ApplyTransactions(c, u, ts, n, height, network).Ok?
    requires Moved(u, ApplyTransactions(c, u, ts, n, height, network).value.utxos, op) && u.outputs[op].lock.KeyLock?
    ensures SpentForOwner(c, ts, n, op, u.outputs[op], height)
  {
    hide ApplyTransaction, OwnerSpends;
    if n > 0 {
      var prior := ApplyTransactions(c, u, ts, n - 1, height, network).value;
      if Moved(u, prior.utxos, op) {
        TransactionsMove(c, u, ts, n - 1, height, network, op);
        var i :| 0 <= i < n - 1 && OwnerSpends(c, ts[i], op, u.outputs[op], height);
      } else {
        TransactionMoves(c, prior.utxos, prior.spent, ts[n - 1], height, network, op);
        assert OwnerSpends(c, ts[n - 1], op, u.outputs[op], height);
      }
    }
  }

  /** Accepted transactions are small. */
  lemma ResourcesFew(ts: seq<Transaction>)
    requires TransactionResources(ts).Ok?
    ensures FewOutputs(ts)
  {
    hide Usage, FirstShapeError;
    NoShapeError(ts);
    forall i | 0 <= i < |ts| ensures |ts[i].outputs| <= U32_MAX {
      assert ShapeError(ts[i]).None?;
    }
  }

  lemma StepMoves(c: Crypto, s: State, b: Block, now: u64, op: OutPoint)
    requires s.rawTimestamps != [] && Step(c, s, b, now).Ok?
    requires Moved(s.utxos, Step(c, s, b, now).value.view, op) && s.utxos.outputs[op].lock.KeyLock?
    ensures SpentForOwner(c, b.transactions, |b.transactions|, op, s.utxos.outputs[op], s.nextHeight)
  {
    hide Step, ApplyTransactions, ValidateCoinbase, InsertOutputs, E.Allocate, SpentForOwner, Insertable, Extends;
    StepHeight(c, s, b, now);
    StepShape(c, s, b, now);
    var ts := b.transactions;
    var applied := ApplyTransactions(c, s.utxos, ts, |ts|, b.challenge.height, s.params.networkId).value;
    InsertsExactly(applied.utxos, CoinbaseTxid(c, b), b.coinbase.outputs, |b.coinbase.outputs|);
    StaysAfterInsert(applied.utxos, Step(c, s, b, now).value.view, CoinbaseTxid(c, b), b.coinbase.outputs, op);
    TransactionsMove(c, s.utxos, ts, |ts|, s.nextHeight, s.params.networkId, op);
  }

  lemma StepShape(c: Crypto, s: State, b: Block, now: u64)
    requires s.rawTimestamps != [] && Step(c, s, b, now).Ok?
    ensures FewOutputs(b.transactions) && |b.coinbase.outputs| <= 3
  {
    hide ContextRules, ApplyBlock, TransactionResources, FewOutputs;
    ResourcesFew(b.transactions);
  }

  /** Block j of the run spends the output for its owner. */
  ghost predicate SpentInRun(c: Crypto, run: seq<Arrival>, j: int, op: OutPoint, o: TxOutput) {
    && 0 <= j < |run| < U64_MAX
    && SpentForOwner(c, run[j].block.transactions, |run[j].block.transactions|, op, o, j + 1)
  }

  /**
   * Over any run, a key-locked output that is gone, or is not what it was, was spent in some block after
   * it was there by a transaction its owner signed, at a height it had matured at.
   */
  lemma {:induction false} OwnersDecide(c: Crypto, p: NetworkParams, run: seq<Arrival>, k: nat, op: OutPoint)
    requires E.Validate(p.policy).Ok? && p.powLimit > 0 && k <= |run| && Run(c, p, run[..k]).Ok? && Run(c, p, run).Ok?
    requires var u := Run(c, p, run[..k]).value.state.utxos;
             Moved(u, Run(c, p, run).value.state.utxos, op) && u.outputs[op].lock.KeyLock?
    ensures exists j :: k <= j < |run| && SpentInRun(c, run, j, op, Run(c, p, run[..k]).value.state.utxos.outputs[op])
    decreases |run|
  {
    hide Step, E.Validate, SpentForOwner, Run;
    var u := Run(c, p, run[..k]).value.state.utxos;
    assert run[..|run|] == run;
    if k < |run| {
      var n := |run| - 1;
      var shorter := run[..n];
      assert shorter[..k] == run[..k];
      LastUtxos(c, p, run);
      var prior := Run(c, p, shorter).value.state;
      if Moved(u, prior.utxos, op) {
        OwnersDecide(c, p, shorter, k, op);
        var j :| k <= j < |shorter| && SpentInRun(c, shorter, j, op, u.outputs[op]);
        assert shorter[j] == run[j];
        assert SpentInRun(c, run, j, op, u.outputs[op]);
      } else {
        StepMoves(c, prior, run[n].block, run[n].now, op);
        assert SpentInRun(c, run, n, op, u.outputs[op]);
      }
    }
  }

  /** The last step of a run and the heights around it. */
  lemma LastUtxos(c: Crypto, p: NetworkParams, run: seq<Arrival>)
    requires E.Validate(p.policy).Ok? && p.powLimit > 0 && run != [] && Run(c, p, run).Ok?
    ensures Run(c, p, run[..|run| - 1]).Ok? && |run| < U64_MAX
    ensures var s, last := Run(c, p, run[..|run| - 1]).value.state, run[|run| - 1];
            && s.nextHeight == |run| && Step(c, s, last.block, last.now).Ok?
            && Run(c, p, run).value.state.utxos == Step(c, s, last.block, last.now).value.view
  {
    hide Step, E.Validate, Timeline, Registry, Total, D.MedianTimestamp, E.SubsidySum;
    RunInvariant(c, p, run);
    RunInvariant(c, p, run[..|run| - 1]);
  }

  // ----- channel closes ---------------------------------------------------------------------------------------

  /** The terms are those the channel output was funded under, on this network. */
  ghost predicate TermsMatch(c: Crypto, terms: M.ChannelTerms, network: Digest, channelId: Digest, value: u64) {
    && terms.networkId == network && M.Validate(c.channel, terms).Ok?
    && c.channel.channelHash(terms) == channelId && terms.deposit == value
  }

  /** The outputs are the provider's part, if any, and then the customer's, if any; nothing else. */
  ghost predicate Splits(outputs: seq<TxOutput>, terms: M.ChannelTerms, provider: nat, customer: nat, height: u64) {
    && |outputs| == (if provider > 0 then 1 else 0) + (if customer > 0 then 1 else 0)
    && (provider > 0 ==> outputs[0].value == provider && outputs[0].lock == KeyLock(terms.providerKey))
    && (customer > 0 ==>
          outputs[|outputs| - 1].value == customer && outputs[|outputs| - 1].lock == KeyLock(terms.customerKey))
    && forall i :: 0 <= i < |outputs| ==> outputs[i].spendableHeight == height
  }

  /** What a witness entitles the parties to. */
  ghost predicate Entitled(c: Crypto, evidence: InputWitness, network: Digest, channelId: Digest, value: u64,
                           height: u64, outputs: seq<TxOutput>, burn: nat)
  {
    match evidence
    case KeyWitness(_, _) => false
    case SettlementWitness(terms, settlement) =>
      var state := settlement.state.state;
      && TermsMatch(c, terms, network, channelId, value)
      && M.VerifySettlement(c.channel, terms, settlement).Ok?
      && Splits(outputs, terms, state.providerPayment, state.customerRefund, height)
      && burn == state.closeFeeBurn
    case RefundWitness(terms) =>
      && TermsMatch(c, terms, network, channelId, value)
      && height >= terms.refundHeight
      && Splits(outputs, terms, 0, terms.deposit - terms.closeFeeBurn, height)
      && burn == terms.closeFeeBurn
  }

  /** The closing entitlement, the exact outputs and the burn are one and the same condition. */
  lemma CloseEntitles(c: Crypto, evidence: InputWitness, network: Digest, channelId: Digest, value: u64, height: u64,
                      outputs: seq<TxOutput>)
    ensures var closing := CloseChannel(c, evidence, network, channelId, value, height);
            forall burn: nat ::
              closing.Ok? && outputs == closing.value.outputs && burn == closing.value.fee <==>
              Entitled(c, evidence, network, channelId, value, height, outputs, burn)
  {
    hide M.VerifySettlement, M.Validate;
  }

  /** An entitlement spends the whole deposit. */
  lemma EntitledTotal(c: Crypto, evidence: InputWitness, network: Digest, channelId: Digest, value: u64, height: u64,
                      outputs: seq<TxOutput>, burn: nat)
    requires Entitled(c, evidence, network, channelId, value, height, outputs, burn)
    ensures ValueSum(outputs, |outputs|) + burn == value
  {
    hide M.VerifySettlement;
    if evidence.SettlementWitness? {
      M.SettlementSplitsDeposit(c.channel, evidence.terms, evidence.settlement);
    }
    assert ValueSum(outputs, 0) == 0;
    if |outputs| >= 1 { assert ValueSum(outputs, 1) == outputs[0].value; }
    if |outputs| == 2 { assert ValueSum(outputs, 2) == outputs[0].value + outputs[1].value; }
  }

  /** The set after a channel output is closed, before its payouts. */
  ghost function Closed(u: UtxoSet, op: OutPoint, id: Digest): UtxoSet {
    UtxoSet(u.outputs - {op}, u.active - {id}, u.retired + {id})
  }

  /**
   * A channel transaction is accepted exactly when its only input names an unspent, matured channel output
   * and its outputs are what the witness entitles the parties to. It then retires the channel, adds those
   * outputs, and burns the close fee.
   */
  lemma ChannelCloseExact(c: Crypto, u: UtxoSet, spent: set<OutPoint>, t: Transaction, height: u64, network: Digest)
    requires |t.outputs| <= U32_MAX
    ensures var r := ApplyChannelTransaction(c, u, spent, t, height, network);
            && (r.Ok? <==>
                  && |t.inputs| == 1
                  && var op := t.inputs[0].previous;
                     && op !in spent && op in u.outputs
                     && var o := u.outputs[op];
                        && height >= o.spendableHeight && o.lock.ChannelLock?
                        && (exists burn: nat ::
                              Entitled(c, t.inputs[0].evidence, network, o.lock.channelId, o.value, height, t.outputs,
                                       burn))
                        && Insertable(Closed(u, op, o.lock.channelId), c.txid(t), t.outputs, |t.outputs|))
            && (r.Ok? ==>
                  var op := t.inputs[0].previous;
                  var o := u.outputs[op];
                  && r.value.spent == spent + {op}
                  && Entitled(c, t.inputs[0].evidence, network, o.lock.channelId, o.value, height, t.outputs,
                              r.value.fee)
                  && Extends(Closed(u, op, o.lock.channelId), r.value.utxos, c.txid(t), t.outputs, |t.outputs|))
  {
    hide InsertOutputs, OutputSum, CloseChannel, Entitled, Insertable, Extends;
    if |t.inputs| == 1 && t.inputs[0].previous in u.outputs && u.outputs[t.inputs[0].previous].lock.ChannelLock? {
      var op := t.inputs[0].previous;
      var o := u.outputs[op];
      var id := o.lock.channelId;
      CloseEntitles(c, t.inputs[0].evidence, network, id, o.value, height, t.outputs);
      forall burn: nat | Entitled(c, t.inputs[0].evidence, network, id, o.value, height, t.outputs, burn)
        ensures ValueSum(t.outputs, |t.outputs|) + burn == o.value
      {
        EntitledTotal(c, t.inputs[0].evidence, network, id, o.value, height, t.outputs, burn);
      }
      SumVerdict(t.outputs, |t.outputs|);
      InsertsExactly(Closed(u, op, id), c.txid(t), t.outputs, |t.outputs|);
      var closing := CloseChannel(c, t.inputs[0].evidence, network, id, o.value, height);
      if closing.Ok? && t.outputs == closing.value.outputs {
        assert Entitled(c, t.inputs[0].evidence, network, id, o.value, height, t.outputs, closing.value.fee);
      }
    }
  }

  /** Value the first n outputs lock to a key. */
  ghost function PaidTo(outputs: seq<TxOutput>, key: Digest, n: nat): nat
    requires n <= |outputs|
  {
    if n == 0 then 0
    else PaidTo(outputs, key, n - 1) + if outputs[n - 1].lock == KeyLock(key) then outputs[n - 1].value else 0
  }

  /** A split pays each party its part and nobody else anything. */
  lemma SplitPays(outputs: seq<TxOutput>, terms: M.ChannelTerms, provider: nat, customer: nat, height: u64, key: Digest)
    requires Splits(outputs, terms, provider, customer, height) && terms.providerKey != terms.customerKey
    ensures PaidTo(outputs, key, |outputs|)
         == if key == terms.providerKey then provider else if key == terms.customerKey then customer else 0
  {
    assert PaidTo(outputs, key, 0) == 0;
    if |outputs| >= 1 {
      assert PaidTo(outputs, key, 1) == if outputs[0].lock == KeyLock(key) then outputs[0].value else 0;
    }
    if |outputs| == 2 {
      assert PaidTo(outputs, key, 2)
          == PaidTo(outputs, key, 1) + if outputs[1].lock == KeyLock(key) then outputs[1].value else 0;
    }
  }

  /**
   * After an accepted close the new outputs pay the provider its payment, the customer its refund and nobody
   * else; after a refund everything beyond the burn is the customer's.
   */
  lemma ClosePays(c: Crypto, u: UtxoSet, spent: set<OutPoint>, t: Transaction, height: u64, network: Digest,
                  key: Digest)
    requires |t.outputs| <= U32_MAX && ApplyChannelTransaction(c, u, spent, t, height, network).Ok?
    ensures var v := ApplyChannelTransaction(c, u, spent, t, height, network).value.utxos;
            && (forall i :: 0 <= i < |t.outputs| ==>
                  Overlay.Lookup(v.outputs, OutPoint(c.txid(t), i)) == Some(t.outputs[i]))
            && (forall op :: op in v.outputs && !(op.txid == c.txid(t) && op.index < |t.outputs|) ==> op in u.outputs)
    ensures match t.inputs[0].evidence
            case KeyWitness(_, _) => false
            case SettlementWitness(terms, settlement) =>
              PaidTo(t.outputs, key, |t.outputs|)
              == if key == terms.providerKey then settlement.state.state.providerPayment
                 else if key == terms.customerKey then settlement.state.state.customerRefund else 0
            case RefundWitness(terms) =>
              && height >= terms.refundHeight
              && PaidTo(t.outputs, key, |t.outputs|)
                 == if key == terms.customerKey then terms.deposit - terms.closeFeeBurn else 0
  {
    hide ApplyChannelTransaction, Insertable, Splits, M.VerifySettlement;
    ChannelCloseExact(c, u, spent, t, height, network);
    var v := ApplyChannelTransaction(c, u, spent, t, height, network).value.utxos;
    match t.inputs[0].evidence {
      case SettlementWitness(terms, settlement) =>
        var state := settlement.state.state;
        SplitPays(t.outputs, terms, state.providerPayment, state.customerRefund, height, key);
      case RefundWitness(terms) =>
        SplitPays(t.outputs, terms, 0, terms.deposit - terms.closeFeeBurn, height, key);
      case KeyWitness(_, _) =>
    }
    forall op | op in v.outputs && !(op.txid == c.txid(t) && op.index < |t.outputs|) ensures op in u.outputs {
      assert Overlay.Lookup(v.outputs, op).Some?;
    }
  }
}
