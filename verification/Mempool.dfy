/** The transaction pool: admission, ordering by identifier, and revalidation after a new tip. */
module Mempool {
  import opened Prelude
  import opened Order
  import opened Ledger
  import opened Consensus
  import opened Utxo
  import opened BlockRules
  import opened Chain
  import opened Identity
  import W = WireObjects
  import Wire

  const MAX_MEMPOOL_TRANSACTIONS: nat := 1024
  const MAX_MEMPOOL_BYTES: nat := 512 * 1024
  const MIN_RELAY_FEE_PER_KIB: nat := 1

  datatype MempoolEntry = MempoolEntry(txid: Digest, transaction: Transaction, encodedBytes: nat, feeBurned: u64)

  datatype PoolError =
    | NotEncodable
    | DuplicateMempoolTransaction(txid: Digest)
    | MempoolTransactionLimit
    | MempoolByteLimit
    | MempoolUnconfirmedInput(missing: OutPoint)
    | MempoolInputConflict(taken: OutPoint)
    | MempoolChainFailure(e: ChainError)
    | MempoolFeeTooLow(required: nat, actual: u64)

  // ----- admission of one transaction -------------------------------------------------------------------

  /** One unit per started KiB, at least one. */
  function RequiredRelayFee(encodedBytes: nat): nat {
    var fee := (encodedBytes + 1023) / 1024 * MIN_RELAY_FEE_PER_KIB;
    if fee < MIN_RELAY_FEE_PER_KIB then MIN_RELAY_FEE_PER_KIB else fee
  }

  /** The first input from i on that is unconfirmed or already taken. */
  function FirstInputError(s: State, inputs: seq<TxInput>, i: nat, taken: set<OutPoint>): Option<PoolError>
    requires i <= |inputs|
    decreases |inputs| - i
  {
    if i == |inputs| then None
    else if inputs[i].previous !in s.utxos.outputs then Some(MempoolUnconfirmedInput(inputs[i].previous))
    else if inputs[i].previous in taken then Some(MempoolInputConflict(inputs[i].previous))
    else FirstInputError(s, inputs, i + 1, taken)
  }

  function CheckTransaction(c: Crypto, s: State, t: Transaction, encodedBytes: nat, taken: set<OutPoint>): Result<u64,
      PoolError> {
    var inputs := FirstInputError(s, t.inputs, 0, taken);
    if inputs.Some? then Err(inputs.value)
    else
      match ValidateSet(c, s, [t])
      case Err(e) => Err(MempoolChainFailure(e))
      case Ok((fee, _)) =>
        if fee < RequiredRelayFee(encodedBytes) then Err(MempoolFeeTooLow(RequiredRelayFee(encodedBytes), fee))
        else Ok(fee)
  }

  method ValidateMempoolTransaction(state: ChainState, t: Transaction, encodedBytes: nat, taken: set<OutPoint>)
    returns (r: Result<u64, PoolError>)
    requires state.Valid()
    ensures r == CheckTransaction(state.crypto, state.View(), t, encodedBytes, taken)
  {
    hide ValidateSet;
    ghost var s := state.View();
    var i := 0;
    while i < |t.inputs|
      invariant 0 <= i <= |t.inputs|
      invariant FirstInputError(s, t.inputs, i, taken) == FirstInputError(s, t.inputs, 0, taken)
    {
      var previous := t.inputs[i].previous;
      if previous !in state.utxos.outputs { return Err(MempoolUnconfirmedInput(previous)); }
      if previous in taken { return Err(MempoolInputConflict(previous)); }
      i := i + 1;
    }
    var checked := state.ValidateTransactionsForNextBlock([t]);
    if checked.Err? { return Err(MempoolChainFailure(checked.error)); }
    var required := RequiredRelayFee(encodedBytes);
    if checked.value.0 < required { return Err(MempoolFeeTooLow(required, checked.value.0)); }
    return Ok(checked.value.0);
  }

  lemma {:induction false} NoInputError(s: State, inputs: seq<TxInput>, i: nat, taken: set<OutPoint>)
    requires i <= |inputs| && FirstInputError(s, inputs, i, taken).None?
    ensures forall k :: i <= k < |inputs| ==> inputs[k].previous in s.utxos.outputs && inputs[k].previous !in taken
    decreases |inputs| - i
  {
    if i < |inputs| { NoInputError(s, inputs, i + 1, taken); }
  }

  // ----- the pool -----------------------------------------------------------------------------------------

  function Txs(pool: seq<MempoolEntry>): (ts: seq<Transaction>)
    ensures |ts| == |pool| && forall i :: 0 <= i < |pool| ==> ts[i] == pool[i].transaction
  {
    if pool == [] then [] else Txs(pool[..|pool| - 1]) + [pool[|pool| - 1].transaction]
  }

  function ByteSum(pool: seq<MempoolEntry>): nat {
    if pool == [] then 0 else ByteSum(pool[..|pool| - 1]) + pool[|pool| - 1].encodedBytes
  }

  ghost predicate SortedById(pool: seq<MempoolEntry>) {
    forall i, j :: 0 <= i < j < |pool| ==> Less(pool[i].txid, pool[j].txid)
  }

  /** The recorded size is that of the frame. */
  ghost predicate Measured(c: Crypto, e: MempoolEntry) {
    && e.txid == c.txid(e.transaction)
    && W.EncodeTransaction(c.magic, e.transaction).Some?
    && |W.EncodeTransaction(c.magic, e.transaction).value| == e.encodedBytes
  }

  /** Confirmed inputs, and a fee that is the exact burn of the transaction alone and pays for relay. */
  ghost predicate Payable(c: Crypto, s: State, e: MempoolEntry) {
    && Spends(e.transaction) <= s.utxos.outputs.Keys
    && ValidateSet(c, s, [e.transaction]).Ok?
    && ValidateSet(c, s, [e.transaction]).value.0 == e.feeBurned >= RequiredRelayFee(e.encodedBytes)
  }

  ghost predicate EntriesSound(c: Crypto, s: State, pool: seq<MempoolEntry>) {
    forall i :: 0 <= i < |pool| ==> Measured(c, pool[i]) && Payable(c, s, pool[i])
  }

  ghost predicate PoolSound(c: Crypto, s: State, pool: seq<MempoolEntry>, bytes: nat) {
    && SortedById(pool)
    && |pool| <= MAX_MEMPOOL_TRANSACTIONS
    && bytes == ByteSum(pool) <= MAX_MEMPOOL_BYTES
    && EntriesSound(c, s, pool)
    && ValidateSet(c, s, Txs(pool)).Ok?
  }

  lemma EmptyPool(c: Crypto, s: State)
    ensures PoolSound(c, s, [], 0)
  {
    hide W.EncodeTransaction;
    assert TransactionResources([]).Ok?;
  }

  /** A transaction that passed the single check is payable. */
  lemma CheckedIsPayable(c: Crypto, s: State, e: MempoolEntry, taken: set<OutPoint>)
    requires CheckTransaction(c, s, e.transaction, e.encodedBytes, taken) == Ok(e.feeBurned)
    ensures Payable(c, s, e)
  {
    hide ValidateSet;
    NoInputError(s, e.transaction.inputs, 0, taken);
  }

  /** Pool entries spend pairwise distinct confirmed outputs. */
  lemma PoolSpendsDistinct(c: Crypto, s: State, pool: seq<MempoolEntry>, bytes: nat)
    requires PoolSound(c, s, pool, bytes)
    ensures Conflictless(Txs(pool))
    ensures forall i :: 0 <= i < |pool| ==> Spends(pool[i].transaction) <= s.utxos.outputs.Keys
  {
    hide ValidateSet, Conflictless, Spends, Txs, SortedById, ByteSum, Measured;
    SetConflictless(c, s, Txs(pool));
    forall i | 0 <= i < |pool| ensures Spends(pool[i].transaction) <= s.utxos.outputs.Keys {
      assert Payable(c, s, pool[i]);
    }
  }

  lemma SetConflictless(c: Crypto, s: State, ts: seq<Transaction>)
    requires ValidateSet(c, s, ts).Ok?
    ensures Conflictless(ts)
  {
    hide ApplyTransactions, Conflictless, AllEncode, TransactionResources, FirstHeaderError;
    TransactionsConflictless(c, s.utxos, ts, |ts|, s.nextHeight, s.params.networkId);
    assert ts[..|ts|] == ts;
  }

  // ----- ordered insertion ----------------------------------------------------------------------------------

  function InsertAt(pool: seq<MempoolEntry>, e: MempoolEntry, pos: nat): seq<MempoolEntry>
    requires pos <= |pool|
  {
    pool[..pos] + [e] + pool[pos..]
  }

  /** pos is where the identifier belongs. */
  ghost predicate Belongs(pool: seq<MempoolEntry>, txid: Digest, pos: nat) {
    && pos <= |pool|
    && (forall i :: 0 <= i < pos ==> !Less(txid, pool[i].txid))
    && (pos < |pool| ==> Less(txid, pool[pos].txid))
  }

  predicate Holds(pool: seq<MempoolEntry>, txid: Digest) { exists i :: 0 <= i < |pool| && pool[i].txid == txid }

  lemma InsertKeepsSorted(pool: seq<MempoolEntry>, e: MempoolEntry, pos: nat)
    requires SortedById(pool) && !Holds(pool, e.txid) && Belongs(pool, e.txid, pos)
    ensures SortedById(InsertAt(pool, e, pos))
  {
    hide Less;
    var after := InsertAt(pool, e, pos);
    forall i, j | 0 <= i < j < |after| ensures Less(after[i].txid, after[j].txid) {
      if i == pos {
        if j > pos + 1 { LessTransitive(e.txid, pool[pos].txid, pool[j - 1].txid); }
      } else if j == pos {
        LessTotal(e.txid, pool[i].txid);
        assert pool[i].txid != e.txid;
      }
    }
  }

  lemma {:induction false} ByteSumInsert(pool: seq<MempoolEntry>, e: MempoolEntry, pos: nat)
    requires pos <= |pool|
    ensures ByteSum(InsertAt(pool, e, pos)) == ByteSum(pool) + e.encodedBytes
  {
    var after := InsertAt(pool, e, pos);
    if pos == |pool| {
      assert after[..|after| - 1] == pool;
    } else {
      ByteSumInsert(pool[..|pool| - 1], e, pos);
      assert after[..|after| - 1] == InsertAt(pool[..|pool| - 1], e, pos);
    }
  }

  lemma TxsSnoc(pool: seq<MempoolEntry>, e: MempoolEntry)
    ensures Txs(pool + [e]) == Txs(pool) + [e.transaction]
  {
    assert (pool + [e])[..|pool|] == pool;
  }

  /** Where the identifier belongs, looking from i on. */
  function Position(pool: seq<MempoolEntry>, txid: Digest, i: nat): (pos: nat)
    requires i <= |pool|
    ensures i <= pos <= |pool|
    decreases |pool| - i
  {
    if i == |pool| || Less(txid, pool[i].txid) then i else Position(pool, txid, i + 1)
  }

  lemma {:induction false} PositionBelongs(pool: seq<MempoolEntry>, txid: Digest, i: nat)
    requires i <= |pool| && forall k :: 0 <= k < i ==> !Less(txid, pool[k].txid)
    ensures Belongs(pool, txid, Position(pool, txid, i))
    decreases |pool| - i
  {
    hide Less;
    if i < |pool| && !Less(txid, pool[i].txid) { PositionBelongs(pool, txid, i + 1); }
  }

  /** The pool with an entry put in its place. */
  function InsertSorted(pool: seq<MempoolEntry>, e: MempoolEntry): seq<MempoolEntry> {
    InsertAt(pool, e, Position(pool, e.txid, 0))
  }

  /** The ordered copy of the transactions, built in one pass. */
  method OrderedWith(pool: seq<MempoolEntry>, e: MempoolEntry) returns (ordered: seq<Transaction>)
    ensures ordered == Txs(InsertSorted(pool, e))
  {
    hide Less, Txs, InsertAt;
    ordered := [];
    ghost var built: seq<MempoolEntry> := [];
    var inserted := false;
    ghost var pos := Position(pool, e.txid, 0);
    assert Txs([]) == [];
    var i := 0;
    while i < |pool|
      invariant 0 <= i <= |pool|
      invariant ordered == Txs(built)
      invariant !inserted ==> built == pool[..i] && Position(pool, e.txid, i) == pos
      invariant inserted ==> pos < i && built == InsertAt(pool[..i], e, pos)
    {
      if !inserted && Less(e.txid, pool[i].txid) {
        TxsSnoc(built, e);
        built := built + [e];
        ordered := ordered + [e.transaction];
        inserted := true;
        InsertAtEnd(pool[..i], e);
      }
      if inserted { InsertAtGrows(pool, e, pos, i); }
      assert pool[..i + 1] == pool[..i] + [pool[i]];
      TxsSnoc(built, pool[i]);
      built := built + [pool[i]];
      ordered := ordered + [pool[i].transaction];
      i := i + 1;
    }
    assert pool[..|pool|] == pool;
    if !inserted {
      TxsSnoc(built, e);
      ordered := ordered + [e.transaction];
      InsertAtEnd(pool, e);
    }
  }

  lemma InsertAtEnd(pool: seq<MempoolEntry>, e: MempoolEntry)
    ensures InsertAt(pool, e, |pool|) == pool + [e]
  {
  }

  lemma InsertAtGrows(pool: seq<MempoolEntry>, e: MempoolEntry, pos: nat, i: nat)
    requires pos <= i < |pool|
    ensures InsertAt(pool[..i + 1], e, pos) == InsertAt(pool[..i], e, pos) + [pool[i]]
  {
  }

  lemma InsertKeepsEntries(c: Crypto, s: State, pool: seq<MempoolEntry>, e: MempoolEntry, pos: nat)
    requires EntriesSound(c, s, pool) && Measured(c, e) && Payable(c, s, e) && pos <= |pool|
    ensures EntriesSound(c, s, InsertAt(pool, e, pos))
  {
    hide Measured, Payable;
  }

  // ----- admission ------------------------------------------------------------------------------------------

  /** Every output the pool spends. */
  method MempoolSpentInputs(pool: seq<MempoolEntry>) returns (taken: set<OutPoint>)
    ensures taken == SpendsOf(Txs(pool))
  {
    hide Txs;
    taken := {};
    assert pool[..0] == [] && Txs([]) == [];
    var i := 0;
    while i < |pool|
      invariant 0 <= i <= |pool|
      invariant taken == SpendsOf(Txs(pool[..i]))
    {
      assert pool[..i + 1] == pool[..i] + [pool[i]];
      TxsSnoc(pool[..i], pool[i]);
      SpendsSnoc(Txs(pool[..i]), pool[i].transaction);
      taken := taken + Spends(pool[i].transaction);
      i := i + 1;
    }
    assert pool[..|pool|] == pool;
  }

  lemma NothingSpent()
    ensures SpendsOf([]) == {}
  {
  }

  lemma SpendsSnoc(ts: seq<Transaction>, t: Transaction)
    ensures SpendsOf(ts + [t]) == SpendsOf(ts) + Spends(t)
  {
    assert (ts + [t])[..|ts|] == ts;
  }

  /** The entry admission would add, or the first check it fails. */
  ghost function Admit(c: Crypto, s: State, pool: seq<MempoolEntry>, bytes: nat, t: Transaction): Result<MempoolEntry,
      PoolError> {
    var frame := W.EncodeTransaction(c.magic, t);
    if frame.None? then Err(NotEncodable)
    else if Holds(pool, c.txid(t)) then Err(DuplicateMempoolTransaction(c.txid(t)))
    else if |pool| >= MAX_MEMPOOL_TRANSACTIONS then Err(MempoolTransactionLimit)
    else if bytes + |frame.value| > MAX_MEMPOOL_BYTES then Err(MempoolByteLimit)
    else
      var fee :- CheckTransaction(c, s, t, |frame.value|, SpendsOf(Txs(pool)));
      var e := MempoolEntry(c.txid(t), t, |frame.value|, fee);
      var together := ValidateSet(c, s, Txs(InsertSorted(pool, e)));
      if together.Err? then Err(MempoolChainFailure(together.error)) else Ok(e)
  }

  lemma AdmitKeepsPool(c: Crypto, s: State, pool: seq<MempoolEntry>, bytes: nat, t: Transaction)
    requires PoolSound(c, s, pool, bytes) && Admit(c, s, pool, bytes, t).Ok?
    ensures var e := Admit(c, s, pool, bytes, t).value;
            PoolSound(c, s, InsertSorted(pool, e), bytes + e.encodedBytes)
  {
    hide ValidateSet, W.EncodeTransaction, Txs, Less, SpendsOf, CheckTransaction, EntriesSound, SortedById, ByteSum;
    var e := Admit(c, s, pool, bytes, t).value;
    CheckedIsPayable(c, s, e, SpendsOf(Txs(pool)));
    var pos := Position(pool, e.txid, 0);
    PositionBelongs(pool, e.txid, 0);
    InsertKeepsSorted(pool, e, pos);
    ByteSumInsert(pool, e, pos);
    InsertKeepsEntries(c, s, pool, e, pos);
  }

  /** Admission; a refused transaction leaves the pool alone. */
  method AdmitTransaction(state: ChainState, pool: seq<MempoolEntry>, bytes: nat, t: Transaction)
    returns (r: Result<MempoolEntry, PoolError>)
    requires state.Valid()
    ensures r == Admit(state.crypto, state.View(), pool, bytes, t)
  {
    hide ValidateSet, W.EncodeTransaction, Txs, Less, SpendsOf, CheckTransaction;
    var frame := Wire.EncodeTransactionFrame(state.crypto.magic, t);
    if frame.None? { return Err(NotEncodable); }
    var txid := state.crypto.txid(t);
    if Holds(pool, txid) { return Err(DuplicateMempoolTransaction(txid)); }
    if |pool| >= MAX_MEMPOOL_TRANSACTIONS { return Err(MempoolTransactionLimit); }
    var nextBytes := bytes + |frame.value|;
    if nextBytes > MAX_MEMPOOL_BYTES { return Err(MempoolByteLimit); }
    var taken := MempoolSpentInputs(pool);
    var fee := ValidateMempoolTransaction(state, t, |frame.value|, taken);
    if fee.Err? { return Err(fee.error); }
    var entry := MempoolEntry(txid, t, |frame.value|, fee.value);
    var ordered := OrderedWith(pool, entry);
    var together := state.ValidateTransactionsForNextBlock(ordered);
    if together.Err? { return Err(MempoolChainFailure(together.error)); }
    return Ok(entry);
  }

  // ----- revalidation -----------------------------------------------------------------------------------------

  /** What survives of the first n entries of a pool on a new state. */
  ghost function Retained(c: Crypto, s: State, pool: seq<MempoolEntry>, n: nat, confirmed: set<Digest>)
    : seq<MempoolEntry>
    requires n <= |pool|
  {
    if n == 0 then []
    else
      var kept, e := Retained(c, s, pool, n - 1, confirmed), pool[n - 1];
      if e.txid in confirmed then kept
      else
        var fee := CheckTransaction(c, s, e.transaction, e.encodedBytes, SpendsOf(Txs(kept)));
        if fee.Err? || ValidateSet(c, s, Txs(kept) + [e.transaction]).Err? then kept
        else kept + [e.(feeBurned := fee.value)]
  }

  /** The facts about a pool that do not depend on the chain. */
  ghost predicate Listed(c: Crypto, pool: seq<MempoolEntry>) {
    SortedById(pool) && forall i :: 0 <= i < |pool| ==> Measured(c, pool[i])
  }

  lemma {:induction false} RetainedIsSublist(c: Crypto, s: State, pool: seq<MempoolEntry>, n: nat,
                                             confirmed: set<Digest>)
    requires n <= |pool| && Listed(c, pool)
    ensures var kept := Retained(c, s, pool, n, confirmed);
            && |kept| <= n && ByteSum(kept) <= ByteSum(pool[..n]) && Listed(c, kept)
            && forall i :: 0 <= i < |kept| ==> exists j :: 0 <= j < n && kept[i].txid == pool[j].txid
  {
    hide CheckTransaction, ValidateSet, Less, Measured, Txs, SpendsOf;
    if n > 0 {
      var kept, e := Retained(c, s, pool, n - 1, confirmed), pool[n - 1];
      RetainedIsSublist(c, s, pool, n - 1, confirmed);
      assert pool[..n][..n - 1] == pool[..n - 1];
      var next := Retained(c, s, pool, n, confirmed);
      if next != kept {
        assert next[..|kept|] == kept;
        SameMeasure(c, e, next[|kept|].feeBurned);
        SnocListed(c, pool, n, kept, next[|kept|]);
      }
    }
  }

  lemma SameMeasure(c: Crypto, e: MempoolEntry, fee: u64)
    requires Measured(c, e)
    ensures Measured(c, e.(feeBurned := fee))
  {
    hide W.EncodeTransaction;
  }

  lemma SnocListed(c: Crypto, pool: seq<MempoolEntry>, n: nat, kept: seq<MempoolEntry>, e: MempoolEntry)
    requires 0 < n <= |pool| && SortedById(pool) && Listed(c, kept) && Measured(c, e) && e.txid == pool[n - 1].txid
    requires forall i :: 0 <= i < |kept| ==> exists j :: 0 <= j < n - 1 && kept[i].txid == pool[j].txid
    ensures Listed(c, kept + [e])
  {
    hide Less, Measured;
  }

  lemma {:induction false} RetainedIsPayable(c: Crypto, s: State, pool: seq<MempoolEntry>, n: nat,
                                             confirmed: set<Digest>)
    requires n <= |pool|
    ensures var kept := Retained(c, s, pool, n, confirmed);
            (forall i :: 0 <= i < |kept| ==> Payable(c, s, kept[i])) && ValidateSet(c, s, Txs(kept)).Ok?
  {
    hide CheckTransaction, ValidateSet, Payable, Txs, SpendsOf;
    if n == 0 {
      EmptyPool(c, s);
      assert Txs([]) == [];
    } else {
      var kept, e := Retained(c, s, pool, n - 1, confirmed), pool[n - 1];
      RetainedIsPayable(c, s, pool, n - 1, confirmed);
      var next := Retained(c, s, pool, n, confirmed);
      if next != kept {
        TxsSnoc(kept, next[|kept|]);
        CheckedIsPayable(c, s, next[|kept|], SpendsOf(Txs(kept)));
      }
    }
  }

  /** Whatever the new state is, what revalidation keeps is a sound pool for it. */
  lemma RevalidationSound(c: Crypto, before: State, after: State, pool: seq<MempoolEntry>, bytes: nat,
                          confirmed: set<Digest>)
    requires PoolSound(c, before, pool, bytes)
    ensures var kept := Retained(c, after, pool, |pool|, confirmed);
            PoolSound(c, after, kept, ByteSum(kept))
  {
    hide Retained, ValidateSet, Payable, Measured, Less, Txs, SpendsOf, ByteSum;
    RetainedIsSublist(c, after, pool, |pool|, confirmed);
    RetainedIsPayable(c, after, pool, |pool|, confirmed);
    assert pool[..|pool|] == pool;
  }

  method RevalidateMempool(state: ChainState, pool: seq<MempoolEntry>, confirmed: set<Digest>)
    returns (kept: seq<MempoolEntry>, bytes: nat)
    requires state.Valid()
    ensures kept == Retained(state.crypto, state.View(), pool, |pool|, confirmed) && bytes == ByteSum(kept)
  {
    hide ValidateSet, CheckTransaction, Txs, SpendsOf;
    NothingSpent();
    kept, bytes := [], 0;
    var transactions: seq<Transaction> := [];
    var taken: set<OutPoint> := {};
    assert Txs([]) == [];
    var i := 0;
    while i < |pool|
      invariant 0 <= i <= |pool|
      invariant kept == Retained(state.crypto, state.View(), pool, i, confirmed)
      invariant transactions == Txs(kept) && taken == SpendsOf(Txs(kept)) && bytes == ByteSum(kept)
    {
      var e := pool[i];
      i := i + 1;
      if e.txid in confirmed { continue; }
      var fee := ValidateMempoolTransaction(state, e.transaction, e.encodedBytes, taken);
      if fee.Err? { continue; }
      var together := state.ValidateTransactionsForNextBlock(transactions + [e.transaction]);
      if together.Err? { continue; }
      var renewed := e.(feeBurned := fee.value);
      TxsSnoc(kept, renewed);
      SpendsSnoc(transactions, e.transaction);
      assert (kept + [renewed])[..|kept|] == kept;
      transactions := transactions + [e.transaction];
      taken := taken + Spends(e.transaction);
      bytes := bytes + e.encodedBytes;
      kept := kept + [renewed];
    }
  }
}
