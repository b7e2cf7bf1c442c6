/** The node: live state, fork index, pool and log, updated by submissions. */
module Node {
  import opened Prelude
  import opened Ledger
  import opened Consensus
  import opened BlockRules
  import opened Chain
  import opened Forks
  import opened ForkNode
  import opened RecordLog
  import opened Mempool
  import opened Template
  import opened Mining
  import E = Economics
  import W = WireObjects
  import Wire

  /** The log write: done, or failed with this many bytes of the record in the file. */
  datatype LogWrite = Written | FailedAfter(bytes: nat)

  function Cut(record: seq<byte>, n: nat): seq<byte> { if n <= |record| then record[..n] else record }

  /**
   * What a restart finds after a write that failed at any point: the node before the block, the node
   * after it, or a log it refuses.
   */
  lemma CrashOutcomes(c: Crypto, p: NetworkParams, run: seq<Arrival>, a: Arrival, n: nat)
    requires GoodParams(p) && Accepted(c, p, run).Ok? && Accepted(c, p, run + [a]).Ok?
    ensures Sound(c, p, FreshCore(p))
    ensures ReplayLog(c, p, FreshCore(p), LogOf(c, run) + Cut(RecordOf(c, a), n))
         == if n == 0 then Accepted(c, p, run)
            else if n < |RecordOf(c, a)| then Err(CorruptLog)
            else Accepted(c, p, run + [a])
  {
    hide Accept, Sound, RecordOf, E.Validate, ReplayLog, LogOf, Accepted;
    var record := RecordOf(c, a);
    if n == 0 {
      assert |record| > 0 by { RecordHasBytes(c, a); }
      assert LogOf(c, run) + record[..0] == LogOf(c, run);
      ReplayRecovers(c, p, run);
    } else if n < |record| {
      TornTailDetected(c, p, run, a, n);
    } else {
      assert Cut(record, n) == record;
      AcceptedSnoc(c, p, run, a);
      ReplayRecovers(c, p, run + [a]);
    }
  }

  lemma RecordHasBytes(c: Crypto, a: Arrival)
    ensures |RecordOf(c, a)| > 0
  {
    FrameFits(c, a.block);
    RecordNonempty(c, a.now, FrameOf(c, a.block));
  }

  /** A new tip means the block took over; otherwise the live state is untouched. */
  lemma TipMoves(c: Crypto, p: NetworkParams, k: Core, b: Block, at: u64)
    requires GoodParams(p) && Sound(c, p, k) && Accept(c, p, k, b, at).Ok?
    ensures var k' := Accept(c, p, k, b, at).value; k'.state.tip == k.state.tip ==> k'.state == k.state
  {
    hide Step, Successor, Run, EntrySound, Path, Branch, W.EncodeBlock, E.Validate, Decode, TargetWork, BlockId;
    var parent := b.challenge.previousBlock;
    KnownReplays(c, p, k.index, parent);
    var base := Replay(c, p, k.index, parent).value.state;
    StepHeight(c, base, b, at);
    SuccessorTip(c, base, b, Step(c, base, b, at).value.view);
  }

  lemma AcceptedSnoc(c: Crypto, p: NetworkParams, run: seq<Arrival>, a: Arrival)
    requires GoodParams(p) && Accepted(c, p, run).Ok?
    ensures Accepted(c, p, run + [a]) == Accept(c, p, Accepted(c, p, run).value, a.block, a.now)
    ensures LogOf(c, run + [a]) == LogOf(c, run) + RecordOf(c, a)
  {
    hide Accept, Sound, RecordOf, E.Validate;
    assert (run + [a])[..|run|] == run;
  }

  lemma RunIsSound(c: Crypto, p: NetworkParams, run: seq<Arrival>)
    requires GoodParams(p) && Accepted(c, p, run).Ok?
    ensures Sound(c, p, Accepted(c, p, run).value)
  {
    hide Sound, Accept;
  }

  class Node {
    const crypto: Crypto
    const params: NetworkParams
    var state: ChainState
    var index: Index
    var mempool: seq<MempoolEntry>
    var mempoolBytes: nat
    var log: seq<byte>
    var storageFaulted: bool
    /** Every block accepted since genesis, in log order. */
    ghost var accepted: seq<Arrival>

    ghost function Core(): Core
      reads this, state
    {
      Forks.Core(index, state.View())
    }

    /**
     * The index and live state are those of the accepted run, the pool is sound for the live state,
     * and the log of a healthy node is the log of that run.
     */
    ghost predicate Valid()
      reads this, state
    {
      && GoodParams(params) && state.Valid() && state.crypto == crypto
      && Accepted(crypto, params, accepted) == Ok(Core())
      && PoolSound(crypto, state.View(), mempool, mempoolBytes)
      && (!storageFaulted ==> log == LogOf(crypto, accepted))
    }

    constructor (c: Crypto, p: NetworkParams, live: ChainState, ix: Index, bytes: seq<byte>, ghost run: seq<Arrival>)
      requires GoodParams(p) && live.Valid() && live.crypto == c
      requires Accepted(c, p, run) == Ok(Forks.Core(ix, live.View())) && LogOf(c, run) == bytes
      ensures Valid() && crypto == c && params == p && state == live && index == ix
      ensures mempool == [] && log == bytes && !storageFaulted && accepted == run
    {
      crypto, params, state, index := c, p, live, ix;
      mempool, mempoolBytes := [], 0;
      log, storageFaulted, accepted := bytes, false, run;
      new;
      EmptyPool(c, live.View());
    }

    /**
     * Submission of a block. Nothing changes unless the block is accepted and its record is durable;
     * a failed write stops the node with the live state as it was.
     */
    method SubmitBlock(b: Block, at: u64, write: LogWrite) returns (r: Result<u64, NodeError>)
      requires Valid()
      modifies this, state
      ensures Valid() && (state == old(state) || fresh(state))
      ensures Sound(crypto, params, old(Core()))
      ensures r == Err(StorageFaulted) <==> old(storageFaulted)
      ensures !old(storageFaulted) && W.EncodeBlock(crypto.magic, b).None? ==> r == Err(WireFailure)
      ensures !old(storageFaulted) && W.EncodeBlock(crypto.magic, b).Some? ==>
                var next := Accept(crypto, params, old(Core()), b, at);
                match next
                case Err(e) => r == Err(e)
                case Ok(k) =>
                  if write.Written? then
                    && r == Ok(AcceptedFees(crypto, params, old(Core()), b, at)) && Core() == k
                    && accepted == old(accepted) + [Arrival(b, at)]
                  else
                    && r == Err(StorageFailure) && storageFaulted
                    && log == old(log) + Cut(RecordOf(crypto, Arrival(b, at)), write.bytes)
      ensures r.Err? ==> Core() == old(Core()) && mempool == old(mempool) && accepted == old(accepted)
      ensures r.Err? && r != Err(StorageFailure) ==> storageFaulted == old(storageFaulted) && log == old(log)
      ensures r.Ok? ==> !storageFaulted
      ensures r.Ok? ==>
                mempool == if state.tip == old(state.tip) then old(mempool)
                           else Retained(crypto, state.View(), old(mempool), |old(mempool)|,
                                         TxidSet(crypto, b.transactions))
      ensures write.Written? ==> storageFaulted == old(storageFaulted)
    {
      hide Accept, Sound, W.EncodeBlock, PoolSound, LogOf, Accepted, PreparedFor, E.Validate, RecordOf, BlockId,
           Retained, AcceptedFees, TxidSet;
      RunIsSound(crypto, params, accepted);
      if storageFaulted { return Err(StorageFaulted); }
      var previousTip := state.tip;
      var confirmed := TxidSet(crypto, b.transactions);
      var canonical := Wire.EncodeBlockFrame(crypto.magic, b);
      if canonical.None? { return Err(WireFailure); }
      var prepared := PrepareBlock(crypto, params, state, index, b, at, canonical.value);
      if prepared.Err? {
        NoStorageErrors(crypto, params, Core(), b, at);
        return Err(prepared.error);
      }
      var record := AcceptedRecord(crypto, params, Core(), b, at, canonical.value);
      if write.FailedAfter? {
        log := log + Cut(record, write.bytes);
        storageFaulted := true;
        return Err(StorageFailure);
      }
      log := log + record;
      ghost var before := Core();
      AcceptedSnoc(crypto, params, accepted, Arrival(b, at));
      TipMoves(crypto, params, before, b, at);
      ghost var pool, bytes := mempool, mempoolBytes;
      var fees, live, ix := CommitPrepared(crypto, params, state, index, prepared.value, b, at);
      state, index := live, ix;
      accepted := accepted + [Arrival(b, at)];
      if state.tip != previousTip {
        RevalidationSound(crypto, before.state, state.View(), mempool, mempoolBytes, confirmed);
        mempool, mempoolBytes := RevalidateMempool(state, mempool, confirmed);
      }
      return Ok(fees.value);
    }

    /** Admission to the pool does not look at the log and cannot disturb the chain. */
    method SubmitTransaction(t: Transaction) returns (r: Result<MempoolEntry, PoolError>)
      requires Valid()
      modifies this
      ensures Valid() && state == old(state) && Core() == old(Core()) && accepted == old(accepted)
      ensures log == old(log) && storageFaulted == old(storageFaulted)
      ensures r == Admit(crypto, state.View(), old(mempool), old(mempoolBytes), t)
      ensures mempool == if r.Ok? then InsertSorted(old(mempool), r.value) else old(mempool)
    {
      hide Admit, PoolSound, Accepted, LogOf, GoodParams, InsertSorted, Sound;
      ghost var s := state.View();
      r := AdmitTransaction(state, mempool, mempoolBytes, t);
      if r.Ok? {
        AdmitKeepsPool(crypto, s, mempool, mempoolBytes, t);
        mempoolBytes := mempoolBytes + r.value.encodedBytes;
        mempool := InsertSorted(mempool, r.value);
        assert PoolSound(crypto, s, mempool, mempoolBytes);
      }
      assert state.View() == s;
    }

    /** Builds a template, solves it with the given proof, and submits it at the same time. */
    method MineOnce(miner: Digest, now: u64, proof: BlockProof, write: LogWrite) returns (r: Result<Block, NodeError>)
      requires Valid()
      modifies this, state
      ensures Valid() && (state == old(state) || fresh(state))
      ensures var t := TemplateOn(crypto, old(state.View()), old(mempool), miner, now);
              r.Ok? <==> !old(storageFaulted) && write.Written? && t.Ok?
                         && Submittable(crypto, params, old(Core()), Solved(t.value, proof), now)
      ensures r.Ok? ==> state.tip == BlockId(crypto, r.value)
      ensures MiningSucceeds(crypto, params, old(Core()), old(mempool), miner, now, proof) ==>
                (r.Ok? <==> !old(storageFaulted) && write.Written?)
    {
      hide Accept, Sound, W.EncodeBlock, PoolSound, LogOf, Accepted, E.Validate, RecordOf, BlockId, TemplateOn,
           Submittable, MiningSucceeds;
      RunIsSound(crypto, params, accepted);
      if MiningSucceeds(crypto, params, Core(), mempool, miner, now, proof) {
        MinedTemplateSubmits(crypto, params, Core(), mempool, mempoolBytes, miner, now, proof);
      }
      if storageFaulted { return Err(StorageFaulted); }
      var template := BuildTemplate(state, mempool, miner, now);
      if template.Err? { return Err(TemplateUnavailable); }
      var block := Solved(template.value, proof);
      TemplateAccepted(crypto, params, Core(), mempool, mempoolBytes, miner, now, proof, now);
      if Accept(crypto, params, Core(), block, now).Ok? {
        AcceptFrames(crypto, params, Core(), block, now);
      }
      var fees := SubmitBlock(block, now, write);
      if fees.Err? { return Err(fees.error); }
      return Ok(block);
    }
  }

  function TxidSet(c: Crypto, ts: seq<Transaction>): set<Digest> { set i | 0 <= i < |ts| :: c.txid(ts[i]) }

  /** Acceptance never reports a storage error of its own. */
  lemma NoStorageErrors(c: Crypto, p: NetworkParams, k: Core, b: Block, at: u64)
    requires Sound(c, p, k) && Accept(c, p, k, b, at).Err?
    ensures Accept(c, p, k, b, at) != Err(StorageFaulted) && Accept(c, p, k, b, at) != Err(StorageFailure)
  {
    hide Step, Successor, Run, EntrySound, Path, Branch, W.EncodeBlock, Decode, TargetWork, BlockId;
  }

  /** The record of an accepted block always encodes. */
  method AcceptedRecord(c: Crypto, p: NetworkParams, ghost k: Core, b: Block, at: u64, canonical: seq<byte>)
    returns (record: seq<byte>)
    requires GoodParams(p) && Sound(c, p, k) && Accept(c, p, k, b, at).Ok?
            && W.EncodeBlock(c.magic, b) == Some(canonical)
    ensures record == RecordOf(c, Arrival(b, at))
  {
    hide Accept, Sound, W.EncodeBlock, RecordBytes;
    FrameFits(c, b);
    var encoded := EncodeRecord(c, at, canonical);
    record := encoded.value;
  }

  /** Opening a data directory: a log that replays yields a valid node, any other log is refused. */
  method Open(c: Crypto, p: NetworkParams, bytes: seq<byte>) returns (r: Result<Node, NodeError>)
    requires GoodParams(p)
    ensures Sound(c, p, FreshCore(p))
    ensures r.Ok? <==> ReplayLog(c, p, FreshCore(p), bytes).Ok?
    ensures r.Ok? ==> && fresh(r.value) && fresh(r.value.state) && r.value.Valid() && r.value.log == bytes
                      && r.value.crypto == c && r.value.params == p
                      && ReplayLog(c, p, FreshCore(p), bytes) == Ok(r.value.Core())
  {
    hide ReplayLog, Sound, Accept, LogOf, E.Validate, PoolSound;
    var live, ix := Reopen(c, p, bytes);
    if live.Err? { return Err(live.error); }
    ghost var run := ReplayIsCanonical(c, p, [], bytes);
    assert LogOf(c, run) == bytes by { EmptyLog(c); assert [] + bytes == bytes; }
    var node := new Node(c, p, live.value, ix, bytes, run);
    return Ok(node);
  }

  lemma EmptyLog(c: Crypto)
    ensures LogOf(c, []) == []
  {
  }

  /** Restarting a healthy node from its own log gives back its index, active chain, work and state. */
  method Restart(node: Node) returns (again: Node)
    requires node.Valid() && !node.storageFaulted
    ensures again.Valid() && again.Core() == node.Core() && again.log == node.log
  {
    hide ReplayLog, Sound, Accept, LogOf, E.Validate, PoolSound, Accepted;
    ReplayRecovers(node.crypto, node.params, node.accepted);
    var r := Open(node.crypto, node.params, node.log);
    again := r.value;
  }
}
