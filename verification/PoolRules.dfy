/** What the pool takes in and what it keeps: exact admission, and a revalidation that drops nothing it could keep. */
module PoolRules {
  import opened Prelude
  import opened Order
  import opened Ledger
  import opened Consensus
  import opened Utxo
  import opened BlockRules
  import opened Chain
  import opened Identity
  import opened Mempool
  import W = WireObjects
  import Wire

  // ----- one transaction ----------------------------------------------------------------------------------

  /** One unit for every KiB begun, and for an empty frame one. */
  ghost predicate RelayFee(fee: int, bytes: nat) {
    fee >= 1 && bytes <= 1024 * fee && (fee == 1 || 1024 * (fee - 1) < bytes)
  }

  /** Every input is confirmed and not taken. */
  ghost predicate Available(s: State, inputs: seq<TxInput>, taken: set<OutPoint>, from: nat) {
    forall i :: from <= i < |inputs| ==> inputs[i].previous in s.utxos.outputs && inputs[i].previous !in taken
  }

  /** The transaction is valid alone in the next block, and burns a fee that pays for relay. */
  ghost predicate PaysAlone(c: Crypto, s: State, t: Transaction, bytes: nat) {
    ValidateSet(c, s, [t]).Ok? && exists fee :: RelayFee(fee, bytes) && fee <= ValidateSet(c, s, [t]).value.0
  }

  lemma {:induction false} InputsAvailable(s: State, inputs: seq<TxInput>, i: nat, taken: set<OutPoint>)
    requires i <= |inputs|
    ensures FirstInputError(s, inputs, i, taken).None? <==> Available(s, inputs, taken, i)
    decreases |inputs| - i
  {
    if i < |inputs| { InputsAvailable(s, inputs, i + 1, taken); }
  }

  lemma RelayFeeExact(bytes: nat, fee: int)
    ensures RelayFee(fee, bytes) <==> fee == RequiredRelayFee(bytes)
  {
  }

  lemma CheckExact(c: Crypto, s: State, t: Transaction, bytes: nat, taken: set<OutPoint>)
    ensures CheckTransaction(c, s, t, bytes, taken).Ok? <==>
            Available(s, t.inputs, taken, 0) && PaysAlone(c, s, t, bytes)
    ensures CheckTransaction(c, s, t, bytes, taken).Ok? ==>
              CheckTransaction(c, s, t, bytes, taken).value == ValidateSet(c, s, [t]).value.0
  {
    hide ValidateSet, Available, RequiredRelayFee, RelayFee;
    InputsAvailable(s, t.inputs, 0, taken);
    RelayFeeExact(bytes, RequiredRelayFee(bytes));
    forall fee | RelayFee(fee, bytes) ensures fee == RequiredRelayFee(bytes) { RelayFeeExact(bytes, fee); }
  }

  /**
   * A transaction is admitted exactly when it is encodable, new and within the pool's two limits, spends
   * only confirmed outputs no entry spends, pays alone, and is valid with the whole pool in identifier
   * order. What is added records its identifier, size and burn.
   */
  lemma AdmitExact(c: Crypto, s: State, pool: seq<MempoolEntry>, bytes: nat, t: Transaction)
    ensures var r, frame := Admit(c, s, pool, bytes, t), W.EncodeTransaction(c.magic, t);
            && (r.Ok? <==>
                  && frame.Some? && !Holds(pool, c.txid(t)) && |pool| < 1024 && bytes + |frame.value| <= 524288
                  && Available(s, t.inputs, SpendsOf(Txs(pool)), 0) && PaysAlone(c, s, t, |frame.value|)
                  && ValidateSet(c, s, Txs(InsertSorted(pool, MempoolEntry(c.txid(t), t, |frame.value|,
                                                                           ValidateSet(c, s, [t]).value.0)))).Ok?)
            && (r.Ok? ==>
                  r.value == MempoolEntry(c.txid(t), t, |frame.value|, ValidateSet(c, s, [t]).value.0))
  {
    hide ValidateSet, W.EncodeTransaction, Txs, InsertSorted, SpendsOf, CheckTransaction, Available, PaysAlone, Holds;
    var frame := W.EncodeTransaction(c.magic, t);
    if frame.Some? { CheckExact(c, s, t, |frame.value|, SpendsOf(Txs(pool))); }
  }

  // ----- a valid set's beginnings are valid ---------------------------------------------------------------

  lemma {:induction false} AppliedBefore(c: Crypto, u: UtxoSet, ts: seq<Transaction>, k: nat, n: nat, height: u64,
                                         network: Digest)
    requires k <= n <= |ts| && ApplyTransactions(c, u, ts, n, height, network).Ok?
    ensures ApplyTransactions(c, u, ts, k, height, network).Ok?
  {
    hide ApplyTransaction;
    if k < n { AppliedBefore(c, u, ts, k, n - 1, height, network); }
  }

  lemma {:induction false} AppliedPrefix(c: Crypto, u: UtxoSet, ts: seq<Transaction>, k: nat, n: nat, height: u64,
                                         network: Digest)
    requires n <= k <= |ts|
    ensures ApplyTransactions(c, u, ts[..k], n, height, network) == ApplyTransactions(c, u, ts, n, height, network)
  {
    hide ApplyTransaction;
    if n > 0 { AppliedPrefix(c, u, ts, k, n - 1, height, network); }
  }

  lemma ResourcesPrefix(ts: seq<Transaction>, k: nat)
    requires k <= |ts| && TransactionResources(ts).Ok?
    ensures TransactionResources(ts[..k]).Ok?
  {
    hide Usage, FirstShapeError, ShapeError;
    NoShapeError(ts);
    NoShapeError(ts[..k]);
    Wire.UsageMonotone(ts, k);
  }

  /** The rules that hold of each transaction of a set by itself. */
  ghost predicate WellFormed(c: Crypto, ts: seq<Transaction>, network: Digest) {
    FirstHeaderError(ts, 0, network).None? && AllEncode(c, ts)
  }

  lemma WellFormedPrefix(c: Crypto, ts: seq<Transaction>, k: nat, network: Digest)
    requires k <= |ts| && WellFormed(c, ts, network)
    ensures WellFormed(c, ts[..k], network)
  {
    hide FirstHeaderError, W.EncodeTransaction;
    NoHeaderError(ts, 0, network);
    NoHeaderError(ts[..k], 0, network);
  }

  lemma SetPrefix(c: Crypto, s: State, ts: seq<Transaction>, k: nat)
    requires k <= |ts| && ValidateSet(c, s, ts).Ok?
    ensures ValidateSet(c, s, ts[..k]).Ok?
  {
    hide TransactionResources, FirstHeaderError, ApplyTransactions, AllEncode;
    ResourcesPrefix(ts, k);
    WellFormedPrefix(c, ts, k, s.params.networkId);
    AppliedBefore(c, s.utxos, ts, k, |ts|, s.nextHeight, s.params.networkId);
    AppliedPrefix(c, s.utxos, ts, k, k, s.nextHeight, s.params.networkId);
  }

  // ----- revalidation -------------------------------------------------------------------------------------

  /** The entry came from the pool before position n, was not confirmed, and only its fee was renewed. */
  ghost predicate Came(pool: seq<MempoolEntry>, from: nat, n: nat, confirmed: set<Digest>, e: MempoolEntry)
    requires n <= |pool|
  {
    exists j :: from <= j < n && e == pool[j].(feeBurned := e.feeBurned) && pool[j].txid !in confirmed
  }

  /** What is kept of a longer part extends what is kept of a shorter one. */
  lemma {:induction false} RetainedGrows(c: Crypto, s: State, pool: seq<MempoolEntry>, j: nat, n: nat,
                                         confirmed: set<Digest>)
    requires j <= n <= |pool|
    ensures var part, all := Retained(c, s, pool, j, confirmed), Retained(c, s, pool, n, confirmed);
            && |part| <= |all| && all[..|part|] == part
            && forall i :: |part| <= i < |all| ==> Came(pool, j, n, confirmed, all[i])
  {
    hide CheckTransaction, ValidateSet, Txs, SpendsOf;
    if j < n {
      RetainedGrows(c, s, pool, j, n - 1, confirmed);
      var part, prior := Retained(c, s, pool, j, confirmed), Retained(c, s, pool, n - 1, confirmed);
      var all := Retained(c, s, pool, n, confirmed);
      forall i | |part| <= i < |all| ensures Came(pool, j, n, confirmed, all[i]) {
        if i < |prior| {
          var k :| && j <= k < n - 1 && prior[i] == pool[k].(feeBurned := prior[i].feeBurned)
                   && pool[k].txid !in confirmed;
          assert all[i] == prior[i];
        } else {
          assert all[i] == pool[n - 1].(feeBurned := all[i].feeBurned);
        }
      }
    }
  }

  /** Every kept entry is an unconfirmed one of the pool. */
  lemma RetainedFromPool(c: Crypto, s: State, pool: seq<MempoolEntry>, confirmed: set<Digest>)
    ensures var kept := Retained(c, s, pool, |pool|, confirmed);
            forall i :: 0 <= i < |kept| ==> Came(pool, 0, |pool|, confirmed, kept[i])
  {
    hide CheckTransaction, ValidateSet, Txs, SpendsOf;
    RetainedGrows(c, s, pool, 0, |pool|, confirmed);
  }

  lemma {:induction false} PositionAfter(pool: seq<MempoolEntry>, txid: Digest, i: nat, pos: nat)
    requires i <= pos <= |pool|
    requires forall k :: i <= k < pos ==> !Less(txid, pool[k].txid)
    requires pos < |pool| ==> Less(txid, pool[pos].txid)
    ensures Position(pool, txid, i) == pos
    decreases pos - i
  {
    hide Less;
    if i < pos { PositionAfter(pool, txid, i + 1, pos); }
  }

  /** An entry that was not kept would have followed exactly what was kept before it. */
  lemma PlaceAmongKept(c: Crypto, s: State, pool: seq<MempoolEntry>, j: nat, confirmed: set<Digest>)
    requires j < |pool| && SortedById(pool)
    requires Retained(c, s, pool, j + 1, confirmed) == Retained(c, s, pool, j, confirmed)
    ensures var part, kept := Retained(c, s, pool, j, confirmed), Retained(c, s, pool, |pool|, confirmed);
            && |part| < |InsertSorted(kept, pool[j])|
            && InsertSorted(kept, pool[j])[..|part| + 1] == part + [pool[j]]
  {
    hide CheckTransaction, ValidateSet, Txs, SpendsOf, Less, Retained;
    var part, kept, e := Retained(c, s, pool, j, confirmed), Retained(c, s, pool, |pool|, confirmed), pool[j];
    RetainedGrows(c, s, pool, 0, j, confirmed);
    RetainedGrows(c, s, pool, j + 1, |pool|, confirmed);
    NothingKeptYet(c, s, pool, confirmed);
    forall k | 0 <= k < |part| ensures !Less(e.txid, kept[k].txid) {
      assert kept[k] == part[k];
      assert Came(pool, 0, j, confirmed, part[k]);
      var i :| 0 <= i < j && part[k] == pool[i].(feeBurned := part[k].feeBurned);
      if Less(e.txid, part[k].txid) {
        LessTransitive(e.txid, pool[i].txid, e.txid);
        LessIrreflexive(e.txid);
      }
    }
    if |part| < |kept| {
      var i :| j + 1 <= i < |pool| && kept[|part|] == pool[i].(feeBurned := kept[|part|].feeBurned);
    }
    PositionAfter(kept, e.txid, 0, |part|);
  }

  lemma NothingKeptYet(c: Crypto, s: State, pool: seq<MempoolEntry>, confirmed: set<Digest>)
    ensures Retained(c, s, pool, 0, confirmed) == []
  {
  }

  lemma KeptStays(c: Crypto, s: State, pool: seq<MempoolEntry>, j: nat, confirmed: set<Digest>)
    requires j < |pool| && Retained(c, s, pool, j + 1, confirmed) != Retained(c, s, pool, j, confirmed)
    ensures Holds(Retained(c, s, pool, |pool|, confirmed), pool[j].txid)
  {
    hide CheckTransaction, ValidateSet, Txs, SpendsOf;
    var part, next := Retained(c, s, pool, j, confirmed), Retained(c, s, pool, j + 1, confirmed);
    RetainedGrows(c, s, pool, j + 1, |pool|, confirmed);
    assert next[|part|].txid == pool[j].txid;
    assert Retained(c, s, pool, |pool|, confirmed)[|part|] == next[|part|];
  }

  /**
   * Nothing is dropped that could stay: an entry that was not kept was confirmed, or spends an output that
   * is gone, or no longer pays alone, or is not valid together with what was kept.
   */
  lemma RetainedMaximal(c: Crypto, s: State, pool: seq<MempoolEntry>, j: nat, confirmed: set<Digest>)
    requires j < |pool| && Listed(c, pool)
    requires !Holds(Retained(c, s, pool, |pool|, confirmed), pool[j].txid)
    ensures var e, kept := pool[j], Retained(c, s, pool, |pool|, confirmed);
            || e.txid in confirmed
            || !(Spends(e.transaction) <= s.utxos.outputs.Keys)
            || !PaysAlone(c, s, e.transaction, e.encodedBytes)
            || ValidateSet(c, s, Txs(InsertSorted(kept, e))).Err?
  {
    hide CheckTransaction, ValidateSet, Txs, SpendsOf, SortedById, PaysAlone, Available, InsertSorted;
    var e, kept := pool[j], Retained(c, s, pool, |pool|, confirmed);
    var part := Retained(c, s, pool, j, confirmed);
    if Retained(c, s, pool, j + 1, confirmed) != part { KeptStays(c, s, pool, j, confirmed); }
    PlaceAmongKept(c, s, pool, j, confirmed);
    if ValidateSet(c, s, Txs(InsertSorted(kept, e))).Ok? {
      TxsPrefix(InsertSorted(kept, e), |part| + 1);
      TxsSnoc(part, e);
      TogetherBefore(c, s, Txs(InsertSorted(kept, e)), Txs(part), e.transaction);
      CheckExact(c, s, e.transaction, e.encodedBytes, SpendsOf(Txs(part)));
      if Spends(e.transaction) <= s.utxos.outputs.Keys { SpendsAvailable(s, e.transaction, SpendsOf(Txs(part))); }
    }
  }

  /** A valid set is valid up to any transaction, which spends nothing spent before it. */
  lemma TogetherBefore(c: Crypto, s: State, ts: seq<Transaction>, earlier: seq<Transaction>, t: Transaction)
    requires ValidateSet(c, s, ts).Ok? && |earlier| < |ts| && ts[..|earlier| + 1] == earlier + [t]
    ensures ValidateSet(c, s, earlier + [t]).Ok? && Spends(t) !! SpendsOf(earlier)
  {
    hide ValidateSet, SpendsOf, Spends, Conflictless;
    SetPrefix(c, s, ts, |earlier| + 1);
    SetConflictless(c, s, earlier + [t]);
    LastSpendsFresh(earlier, t);
  }

  lemma LastSpendsFresh(ts: seq<Transaction>, t: Transaction)
    requires Conflictless(ts + [t])
    ensures Spends(t) !! SpendsOf(ts)
  {
    hide Spends, SpendsOf;
    assert (ts + [t])[..|ts|] == ts;
  }

  lemma TxsPrefix(pool: seq<MempoolEntry>, k: nat)
    requires k <= |pool|
    ensures Txs(pool)[..k] == Txs(pool[..k])
  {
    assert forall i :: 0 <= i < k ==> Txs(pool)[..k][i] == pool[i].transaction == Txs(pool[..k])[i];
  }

  lemma SpendsAvailable(s: State, t: Transaction, taken: set<OutPoint>)
    requires Spends(t) <= s.utxos.outputs.Keys && Spends(t) !! taken
    ensures Available(s, t.inputs, taken, 0)
  {
    forall i | 0 <= i < |t.inputs|
      ensures t.inputs[i].previous in s.utxos.outputs && t.inputs[i].previous !in taken
    {
      assert t.inputs[i].previous in Spends(t);
    }
  }
}
