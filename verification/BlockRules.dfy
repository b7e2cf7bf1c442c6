/** Stateless block rules: resource limits, the coinbase, and validation of a block on an overlay. */
module BlockRules {
  import opened Prelude
  import opened Ledger
  import opened Consensus
  import opened Utxo
  import opened Overlay
  import E = Economics
  import K = Merkle
  import W = WireObjects
  import Wire

  // ----- resource limits ----------------------------------------------------------------------------

  predicate AllCanonical(inputs: seq<TxInput>) {
    forall i :: 0 <= i < |inputs| ==> CanonicalSignatures(inputs[i].evidence)
  }

  function ShapeError(t: Transaction): Option<ChainError> {
    if |t.inputs| > MAX_TRANSACTION_INPUTS then Some(TransactionInputLimit)
    else if |t.outputs| > MAX_TRANSACTION_OUTPUTS then Some(TransactionOutputLimit)
    else if !AllCanonical(t.inputs) then Some(SignatureLength)
    else None
  }

  /** The first malformed transaction, if any. */
  function FirstShapeError(ts: seq<Transaction>): Option<ChainError> {
    if ts == [] then None
    else
      var earlier := FirstShapeError(ts[..|ts| - 1]);
      if earlier.Some? then earlier else ShapeError(ts[|ts| - 1])
  }

  /** Every transaction is well shaped and the totals are within the block limits. */
  function TransactionResources(ts: seq<Transaction>): Result<Resources, ChainError> {
    var used := Usage(ts);
    if FirstShapeError(ts).Some? then Err(FirstShapeError(ts).value)
    else if used.inputs > MAX_BLOCK_AGGREGATE_INPUTS || used.outputs > MAX_BLOCK_AGGREGATE_OUTPUTS
    then Err(BlockAggregateLimit)
    else if used.checks > MAX_BLOCK_SIGNATURE_CHECKS then Err(BlockSignatureLimit)
    else Ok(used)
  }

  lemma {:induction false} ShapeErrorStays(ts: seq<Transaction>, i: nat)
    requires i <= |ts| && FirstShapeError(ts[..i]).Some?
    ensures FirstShapeError(ts) == FirstShapeError(ts[..i])
    decreases |ts|
  {
    hide ShapeError;
    if i < |ts| {
      var shorter := ts[..|ts| - 1];
      assert shorter[..i] == ts[..i];
      ShapeErrorStays(shorter, i);
    } else {
      assert ts[..i] == ts;
    }
  }

  lemma {:induction false} NoShapeError(ts: seq<Transaction>)
    ensures FirstShapeError(ts).None? <==> forall i :: 0 <= i < |ts| ==> ShapeError(ts[i]).None?
  {
    hide ShapeError;
    if ts != [] {
      var shorter := ts[..|ts| - 1];
      NoShapeError(shorter);
      assert forall i :: 0 <= i < |shorter| ==> shorter[i] == ts[i];
    }
  }

  /** One transaction of the scan: its shape error, or its signature-check count. */
  method ScanTransaction(t: Transaction) returns (checks: nat, e: Option<ChainError>)
    ensures e == ShapeError(t)
    ensures e.None? ==> checks == InputChecks(t.inputs)
  {
    checks := 0;
    if |t.inputs| > MAX_TRANSACTION_INPUTS { return 0, Some(TransactionInputLimit); }
    if |t.outputs| > MAX_TRANSACTION_OUTPUTS { return 0, Some(TransactionOutputLimit); }
    var i := 0;
    while i < |t.inputs|
      invariant 0 <= i <= |t.inputs|
      invariant forall k :: 0 <= k < i ==> CanonicalSignatures(t.inputs[k].evidence)
      invariant checks == InputChecks(t.inputs[..i])
    {
      if !CanonicalSignatures(t.inputs[i].evidence) { return 0, Some(SignatureLength); }
      assert t.inputs[..i + 1][..i] == t.inputs[..i];
      checks := checks + SignatureChecks(t.inputs[i].evidence);
      i := i + 1;
    }
    assert t.inputs[..|t.inputs|] == t.inputs;
    return checks, None;
  }

  method ValidateTransactionResources(ts: seq<Transaction>) returns (r: Result<Resources, ChainError>)
    ensures r == TransactionResources(ts)
  {
    hide ShapeError, InputChecks;
    var used := Resources(0, 0, 0);
    var i := 0;
    while i < |ts|
      invariant 0 <= i <= |ts|
      invariant FirstShapeError(ts[..i]).None? && used == Usage(ts[..i])
    {
      assert ts[..i + 1][..i] == ts[..i];
      var checks, e := ScanTransaction(ts[i]);
      if e.Some? {
        ShapeErrorStays(ts, i + 1);
        return Err(e.value);
      }
      used := Resources(used.inputs + |ts[i].inputs|, used.outputs + |ts[i].outputs|, used.checks + checks);
      i := i + 1;
    }
    assert ts[..|ts|] == ts;
    if used.inputs > MAX_BLOCK_AGGREGATE_INPUTS || used.outputs > MAX_BLOCK_AGGREGATE_OUTPUTS {
      return Err(BlockAggregateLimit);
    }
    if used.checks > MAX_BLOCK_SIGNATURE_CHECKS { return Err(BlockSignatureLimit); }
    return Ok(used);
  }

  function BlockResources(b: Block): Result<Resources, ChainError> {
    if |b.transactions| > MAX_BLOCK_TRANSACTIONS then Err(BlockTransactionLimit)
    else if |b.coinbase.outputs| > MAX_COINBASE_OUTPUTS then Err(CoinbaseOutputLimit)
    else TransactionResources(b.transactions)
  }

  // ----- headers of the transactions ----------------------------------------------------------------

  function HeaderError(t: Transaction, network: Digest): Option<ChainError> {
    if t.networkId != network then Some(WrongNetwork)
    else if t.version != TRANSACTION_VERSION then Some(UnsupportedTransactionVersion)
    else None
  }

  /** The first transaction from i on for another network or version, if any. */
  function FirstHeaderError(ts: seq<Transaction>, i: nat, network: Digest): Option<ChainError>
    requires i <= |ts|
    decreases |ts| - i
  {
    if i == |ts| then None
    else if HeaderError(ts[i], network).Some? then HeaderError(ts[i], network)
    else FirstHeaderError(ts, i + 1, network)
  }

  method CheckHeaders(ts: seq<Transaction>, network: Digest) returns (e: Option<ChainError>)
    ensures e == FirstHeaderError(ts, 0, network)
  {
    var i := 0;
    while i < |ts|
      invariant 0 <= i <= |ts|
      invariant FirstHeaderError(ts, i, network) == FirstHeaderError(ts, 0, network)
    {
      if ts[i].networkId != network { return Some(WrongNetwork); }
      if ts[i].version != TRANSACTION_VERSION { return Some(UnsupportedTransactionVersion); }
      i := i + 1;
    }
    return None;
  }

  lemma {:induction false} NoHeaderError(ts: seq<Transaction>, i: nat, network: Digest)
    requires i <= |ts|
    ensures FirstHeaderError(ts, i, network).None? <==>
            forall k :: i <= k < |ts| ==> ts[k].networkId == network && ts[k].version == TRANSACTION_VERSION
    decreases |ts| - i
  {
    if i < |ts| { NoHeaderError(ts, i + 1, network); }
  }

  // ----- the coinbase ---------------------------------------------------------------------------------

  function SaturatingAdd(a: u64, b: u64): u64 { if a + b > U64_MAX then U64_MAX else a + b }

  /** The miner's output matures late; empty fixed shares are omitted. */
  function CoinbaseOutputs(height: u64, a: E.Allocation, miner: Digest, fixed: FixedRewardDestinations): seq<TxOutput> {
    [TxOutput(a.miner, KeyLock(miner), SaturatingAdd(height, COINBASE_MATURITY))]
    + (if a.steward > 0 then [TxOutput(a.steward, KeyLock(fixed.steward), height)] else [])
    + (if a.community > 0 then [TxOutput(a.community, KeyLock(fixed.community), height)] else [])
  }

  function ValueAt(outputs: seq<TxOutput>, i: nat): u64 { if i < |outputs| then outputs[i].value else 0 }

  function ValidateCoinbase(c: Crypto, cb: Coinbase, a: E.Allocation, fixed: FixedRewardDestinations): Result<(),
      ChainError> {
    if cb.outputs == [] || !cb.outputs[0].lock.KeyLock? then Err(CoinbaseLayout)
    else
      var miner := cb.outputs[0].lock.owner;
      if !c.channel.validKey(miner) then Err(CoinbaseLayout)
      else if cb.outputs != CoinbaseOutputs(cb.height, a, miner, fixed) then Err(CoinbaseLayout)
      else if ValueAt(cb.outputs, 0) != a.miner || ValueAt(cb.outputs, 1) != a.steward
              || ValueAt(cb.outputs, 2) != a.community
      then Err(CoinbaseLayout)
      else Ok(())
  }

  /**
   * The positional claim check refuses the program's own layout when the steward share is empty and
   * the community share is not; otherwise the built coinbase is exactly what validation accepts.
   */
  lemma BuiltCoinbaseAccepted(c: Crypto, height: u64, a: E.Allocation, miner: Digest, fixed: FixedRewardDestinations)
    ensures ValidateCoinbase(c, Coinbase(height, CoinbaseOutputs(height, a, miner, fixed)), a, fixed).Ok?
       <==> c.channel.validKey(miner) && (a.steward > 0 || a.community == 0)
  {
  }

  /** An accepted coinbase pays out the whole subsidy and no fees. */
  lemma CoinbasePaysSubsidy(c: Crypto, cb: Coinbase, a: E.Allocation, fixed: FixedRewardDestinations)
    requires ValidateCoinbase(c, cb, a, fixed).Ok? && a.miner + a.steward + a.community == a.subsidy
    ensures ValueSum(cb.outputs, |cb.outputs|) == a.subsidy
    ensures cb.outputs != [] && cb.outputs[0].value == a.miner && (a.steward > 0 || a.community == 0)
  {
    var o := cb.outputs;
    assert |o| <= 3;
    assert ValueSum(o, 0) == 0;
    assert ValueSum(o, 1) == a.miner;
    if |o| >= 2 { assert ValueSum(o, 2) == a.miner + o[1].value; }
    if |o| == 3 { assert ValueSum(o, 3) == a.miner + o[1].value + o[2].value; }
  }

  // ----- a whole block --------------------------------------------------------------------------------

  function TxIds(c: Crypto, ts: seq<Transaction>): (ids: seq<Digest>)
    ensures |ids| == |ts|
    ensures forall i :: 0 <= i < |ts| ==> ids[i] == c.txid(ts[i])
  {
    if ts == [] then [] else TxIds(c, ts[..|ts| - 1]) + [c.txid(ts[|ts| - 1])]
  }

  function TreeIds(c: Crypto, b: Block): seq<Digest> {
    [c.coinbaseCommitment(b.coinbase, b.challenge.networkId)] + TxIds(c, b.transactions)
  }

  function TransactionRoot(c: Crypto, b: Block): Digest { K.Root(c, TreeIds(c, b)) }

  function BlockId(c: Crypto, b: Block): Digest { c.blockId(b.version, b.challenge, b.proof) }

  function CoinbaseTxid(c: Crypto, b: Block): Digest { c.coinbaseOutpoint(b.challenge.networkId, BlockId(c, b)) }

  datatype Outcome = Outcome(view: UtxoSet, fees: u64)

  function LiftEconomics<T>(r: Result<T, E.EconomicsError>): Result<T, ChainError> {
    match r
    case Ok(v) => Ok(v)
    case Err(e) => Err(EconomicsFailure(e))
  }

  /** Checks that read only the block and the parameters. */
  function BlockHeaderRules(c: Crypto, p: NetworkParams, b: Block): Result<(), ChainError> {
    var _ :- BlockResources(b);
    if b.version != BLOCK_VERSION then Err(UnsupportedBlockVersion)
    else if b.challenge.networkId != p.networkId then Err(WrongNetwork)
    else if FirstHeaderError(b.transactions, 0, p.networkId).Some?
    then Err(FirstHeaderError(b.transactions, 0, p.networkId).value)
    else if W.EncodeBlock(c.magic, b).None? then Err(BlockEncoding)
    else if b.challenge.height != b.coinbase.height then Err(HeightMismatch)
    else if TransactionRoot(c, b) != b.challenge.transactionRoot then Err(MerkleRootMismatch)
    else if !c.powAccepts(b.challenge, b.proof) then Err(InvalidProof)
    else Ok(())
  }

  /** The block applied by direct mutation of a copy: transactions in order, then the coinbase. */
  function ApplyBlock(c: Crypto, p: NetworkParams, u: UtxoSet, b: Block): Result<Outcome, ChainError> {
    var applied :- ApplyTransactions(c, u, b.transactions, |b.transactions|, b.challenge.height, p.networkId);
    var a :- LiftEconomics(E.Allocate(p.policy, b.challenge.height, applied.fee));
    var _ :- ValidateCoinbase(c, b.coinbase, a, p.rewards);
    var view :- InsertOutputs(applied.utxos, CoinbaseTxid(c, b), b.coinbase.outputs, |b.coinbase.outputs|);
    Ok(Outcome(view, applied.fee))
  }

  function ValidateUtxos(c: Crypto, p: NetworkParams, u: UtxoSet, b: Block): Result<Outcome, ChainError> {
    var _ :- BlockHeaderRules(c, p, b);
    ApplyBlock(c, p, u, b)
  }

  method CheckHeaderRules(c: Crypto, p: NetworkParams, b: Block) returns (r: Result<(), ChainError>)
    ensures r == BlockHeaderRules(c, p, b)
  {
    hide TransactionResources, FirstHeaderError, K.Root, TreeIds, W.EncodeBlock;
    if |b.transactions| > MAX_BLOCK_TRANSACTIONS { return Err(BlockTransactionLimit); }
    if |b.coinbase.outputs| > MAX_COINBASE_OUTPUTS { return Err(CoinbaseOutputLimit); }
    var resources := ValidateTransactionResources(b.transactions);
    if resources.Err? { return Err(resources.error); }
    if b.version != BLOCK_VERSION { return Err(UnsupportedBlockVersion); }
    if b.challenge.networkId != p.networkId { return Err(WrongNetwork); }
    var header := CheckHeaders(b.transactions, p.networkId);
    if header.Some? { return Err(header.value); }
    var encoded := Wire.EncodeBlockFrame(c.magic, b);
    if encoded.None? { return Err(BlockEncoding); }
    if b.challenge.height != b.coinbase.height { return Err(HeightMismatch); }
    var root := K.MerkleRoot(c, TreeIds(c, b));
    if root != b.challenge.transactionRoot { return Err(MerkleRootMismatch); }
    if !c.powAccepts(b.challenge, b.proof) { return Err(InvalidProof); }
    return Ok(());
  }

  /** Validation stages everything on an overlay and leaves the set alone; the delta is minimal. */
  method ValidateDelta(c: Crypto, p: NetworkParams, u: UtxoSet, b: Block)
    returns (r: Result<(u64, UtxoDelta), ChainError>)
    ensures match r
            case Err(e) => ValidateUtxos(c, p, u, b) == Err(e)
            case Ok((fees, delta)) =>
              && ValidateUtxos(c, p, u, b).Ok?
              && fees == ValidateUtxos(c, p, u, b).value.fees
              && delta == Diff(u, ValidateUtxos(c, p, u, b).value.view)
  {
    hide BlockHeaderRules, ApplyTransactions, E.Allocate, ValidateCoinbase, InsertOutputs, Diff;
    var checked := CheckHeaderRules(c, p, b);
    if checked.Err? { return Err(checked.error); }
    var overlay := new UtxoOverlay(u);
    var charge := overlay.ApplyAll(c, b.transactions, b.challenge.height, p.networkId);
    if charge.Err? { return Err(charge.error); }
    var allocation := E.Allocate(p.policy, b.challenge.height, charge.value.fee);
    if allocation.Err? { return Err(EconomicsFailure(allocation.error)); }
    var coinbase := ValidateCoinbase(c, b.coinbase, allocation.value, p.rewards);
    if coinbase.Err? { return Err(coinbase.error); }
    var inserted := overlay.InsertAll(CoinbaseTxid(c, b), b.coinbase.outputs);
    if inserted.Err? { return Err(inserted.error); }
    return Ok((charge.value.fee, UtxoDelta(overlay.outputs, overlay.active, overlay.retired)));
  }

  // ----- what a block does to supply and registry -----------------------------------------------------

  lemma BlockConserves(c: Crypto, p: NetworkParams, u: UtxoSet, b: Block)
    requires ApplyBlock(c, p, u, b).Ok?
    ensures E.Validate(p.policy).Ok?
    ensures var r := ApplyBlock(c, p, u, b).value;
            Total(r.view.outputs) + r.fees == Total(u.outputs) + E.Subsidy(p.policy, b.challenge.height)
  {
    hide ApplyTransactions, ValidateCoinbase, InsertOutputs, E.Validate, E.Subsidy;
    var applied := ApplyTransactions(c, u, b.transactions, |b.transactions|, b.challenge.height, p.networkId).value;
    TransactionsConserve(c, u, b.transactions, |b.transactions|, b.challenge.height, p.networkId);
    var a := E.Allocate(p.policy, b.challenge.height, applied.fee).value;
    CoinbasePaysSubsidy(c, b.coinbase, a, p.rewards);
    InsertAddsValue(applied.utxos, CoinbaseTxid(c, b), b.coinbase.outputs, |b.coinbase.outputs|);
  }

  lemma BlockKeepsRegistry(c: Crypto, p: NetworkParams, u: UtxoSet, b: Block)
    requires ApplyBlock(c, p, u, b).Ok? && Registry(u)
    ensures var v := ApplyBlock(c, p, u, b).value.view; Registry(v) && u.retired <= v.retired
  {
    hide ApplyTransactions, ValidateCoinbase, InsertOutputs, E.Allocate, Registry;
    var applied := ApplyTransactions(c, u, b.transactions, |b.transactions|, b.challenge.height, p.networkId).value;
    TransactionsKeepRegistry(c, u, b.transactions, |b.transactions|, b.challenge.height, p.networkId);
    InsertsKeepRegistry(applied.utxos, CoinbaseTxid(c, b), b.coinbase.outputs, |b.coinbase.outputs|);
  }
}
