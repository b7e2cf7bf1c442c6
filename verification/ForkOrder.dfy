/** Two views of one block tree: common blocks mean the same, and the order of arrival decides only ties. */
module ForkOrder {
  import opened Prelude
  import opened Ledger
  import opened Consensus
  import opened BlockRules
  import opened Chain
  import opened Forks
  import opened RecordLog
  import E = Economics
  import I = Identity
  import K = Merkle
  import Utxo
  import W = WireObjects

  // ----- two indexes of one network ---------------------------------------------------------------------------

  /** Blocks indexed on both sides are the same blocks. */
  ghost predicate Agree(c: Crypto, p: NetworkParams, a: Index, b: Index) {
    forall id :: id in a.blocks && id in b.blocks ==> Decode(c, p, a.blocks[id]) == Decode(c, p, b.blocks[id])
  }

  /** On a block known to both sides, both replay to the same state with the same work. */
  lemma {:induction false} SharedBranch(c: Crypto, p: NetworkParams, a: Index, b: Index, id: Digest)
    requires IndexSound(c, p, a) && IndexSound(c, p, b) && Agree(c, p, a, b) && Known(a, id) && Known(b, id)
    ensures WorkAt(a, id) == WorkAt(b, id)
    ensures Replay(c, p, a, id).Ok? && Replay(c, p, b, id).Ok?
    ensures Replay(c, p, a, id).value == Replay(c, p, b, id).value
    decreases HeightOf(a, id)
  {
    hide Step, Successor, BlockId, Decode, TargetWork;
    KnownReplays(c, p, a, id);
    KnownReplays(c, p, b, id);
    if id != a.genesis {
      assert EntrySound(c, p, a, id) && EntrySound(c, p, b, id);
      var parent := a.blocks[id].parent;
      SharedBranch(c, p, a, b, parent);
      SharedStep(c, p, a, b, id);
    }
  }

  lemma SharedStep(c: Crypto, p: NetworkParams, a: Index, b: Index, id: Digest)
    requires IndexSound(c, p, a) && IndexSound(c, p, b) && id in a.blocks && id in b.blocks
    requires Decode(c, p, a.blocks[id]) == Decode(c, p, b.blocks[id]) && a.blocks[id].parent == b.blocks[id].parent
    requires Replay(c, p, a, a.blocks[id].parent).Ok? && Replay(c, p, b, a.blocks[id].parent).Ok?
    requires Replay(c, p, a, a.blocks[id].parent).value == Replay(c, p, b, a.blocks[id].parent).value
    requires Replay(c, p, a, id).Ok? && Replay(c, p, b, id).Ok?
    ensures Replay(c, p, a, id).value == Replay(c, p, b, id).value
  {
    hide Step, Successor, BlockId, Decode, TargetWork, EntrySound, Run;
    var parent := a.blocks[id].parent;
    var x, y := ArrivalOf(c, p, a, id), ArrivalOf(c, p, b, id);
    RunAppend(c, p, Branch(c, p, a, parent), x);
    RunAppend(c, p, Branch(c, p, b, parent), y);
    StepsAgree(c, Replay(c, p, a, parent).value.state, x.block, x.now, y.now);
  }

  // ----- when two indexes agree ---------------------------------------------------------------------------------

  /** An indexed block was accepted on some state. */
  lemma IndexedWasAccepted(c: Crypto, p: NetworkParams, ix: Index, id: Digest) returns (u: Utxo.UtxoSet)
    requires GoodParams(p) && IndexSound(c, p, ix) && id in ix.blocks
    ensures var b := Decode(c, p, ix.blocks[id]).value;
            BlockId(c, b) == id && ValidateUtxos(c, p, u, b).Ok?
  {
    hide Decode, BlockId, Run, Successor, TargetWork, ValidateUtxos, Timeline, E.Validate, ContextRules;
    assert EntrySound(c, p, ix, id);
    var parent := ix.blocks[id].parent;
    KnownReplays(c, p, ix, parent);
    ReplayTip(c, p, ix, parent);
    var x := ArrivalOf(c, p, ix, id);
    RunAppend(c, p, Branch(c, p, ix, parent), x);
    u := Replay(c, p, ix, parent).value.state.utxos;
  }

  /** Two nodes of one network hold the same block under one identifier, unless hashes of it collide. */
  lemma AgreeUnlessCollision(c: Crypto, p: NetworkParams, a: Index, b: Index)
    requires GoodParams(p) && IndexSound(c, p, a) && IndexSound(c, p, b)
    requires forall id :: id in a.blocks && id in b.blocks ==>
               K.CollisionFree(c, I.BlockQueries(c, Decode(c, p, a.blocks[id]).value)
                                  + I.BlockQueries(c, Decode(c, p, b.blocks[id]).value))
    ensures Agree(c, p, a, b)
  {
    hide Decode, BlockId, K.CollisionFree, I.BlockQueries, EntrySound, ValidateUtxos, E.Validate;
    forall id | id in a.blocks && id in b.blocks ensures Decode(c, p, a.blocks[id]) == Decode(c, p, b.blocks[id]) {
      var u := IndexedWasAccepted(c, p, a, id);
      var v := IndexedWasAccepted(c, p, b, id);
      I.BlockIdCommits(c, p, u, Decode(c, p, a.blocks[id]).value, p, v, Decode(c, p, b.blocks[id]).value);
    }
  }

  // ----- order of arrival -------------------------------------------------------------------------------------

  ghost predicate InRun(run: seq<Arrival>, b: Block) { exists j :: 0 <= j < |run| && run[j].block == b }

  /** The index holds exactly the blocks of a run, each under its identifier. */
  ghost predicate HoldsRun(c: Crypto, p: NetworkParams, ix: Index, run: seq<Arrival>) {
    && (forall id :: id in ix.blocks ==>
          && Decode(c, p, ix.blocks[id]).Some?
          && BlockId(c, Decode(c, p, ix.blocks[id]).value) == id
          && InRun(run, Decode(c, p, ix.blocks[id]).value))
    && (forall b :: InRun(run, b) ==> Stored(c, p, ix, b))
  }

  ghost predicate Stored(c: Crypto, p: NetworkParams, ix: Index, b: Block) {
    BlockId(c, b) in ix.blocks && Decode(c, p, ix.blocks[BlockId(c, b)]) == Some(b)
  }

  /** What acceptance does to the indexed blocks. */
  lemma AcceptStores(c: Crypto, p: NetworkParams, k: Core, b: Block, at: u64)
    requires GoodParams(p) && Sound(c, p, k) && Accept(c, p, k, b, at).Ok?
    ensures var ix, id := Accept(c, p, k, b, at).value.index, BlockId(c, b);
            && id !in k.index.blocks && id in ix.blocks && Decode(c, p, ix.blocks[id]) == Some(b)
            && ix.blocks == k.index.blocks[id := ix.blocks[id]]
  {
    hide Step, Successor, Run, EntrySound, Path, Branch, W.EncodeBlock, W.DecodeBlock, E.Validate, TargetWork, BlockId;
    AcceptFrames(c, p, k, b, at);
  }

  lemma {:induction false} AcceptedHolds(c: Crypto, p: NetworkParams, run: seq<Arrival>)
    requires GoodParams(p) && Accepted(c, p, run).Ok?
    ensures HoldsRun(c, p, Accepted(c, p, run).value.index, run)
  {
    hide Accept, Sound, Decode, BlockId, E.Validate, Stored;
    if run != [] {
      var shorter, last := run[..|run| - 1], run[|run| - 1];
      AcceptedHolds(c, p, shorter);
      var prior := Accepted(c, p, shorter).value;
      AcceptStores(c, p, prior, last.block, last.now);
      HoldsOneMore(c, p, prior.index, Accepted(c, p, run).value.index, run);
    }
  }

  lemma HoldsOneMore(c: Crypto, p: NetworkParams, ix: Index, ix': Index, run: seq<Arrival>)
    requires run != [] && HoldsRun(c, p, ix, run[..|run| - 1])
    requires var b := run[|run| - 1].block;
             var id := BlockId(c, b);
             && id !in ix.blocks && id in ix'.blocks && Decode(c, p, ix'.blocks[id]) == Some(b)
             && ix'.blocks == ix.blocks[id := ix'.blocks[id]]
    ensures HoldsRun(c, p, ix', run)
  {
    hide Decode, BlockId;
    var shorter, b := run[..|run| - 1], run[|run| - 1].block;
    forall x | InRun(shorter, x) ensures InRun(run, x) {
      var j :| 0 <= j < |shorter| && shorter[j].block == x;
      assert run[j].block == x;
    }
    forall x | InRun(run, x) ensures Stored(c, p, ix', x) {
      var j :| 0 <= j < |run| && run[j].block == x;
      if j < |shorter| {
        assert shorter[j].block == x;
        assert Stored(c, p, ix, x);
      }
    }
    assert InRun(run, b);
  }

  ghost predicate SameBlocks(run: seq<Arrival>, other: seq<Arrival>) { forall b :: InRun(run, b) <==> InRun(other, b) }

  lemma SameBlocksAgree(c: Crypto, p: NetworkParams, a: Index, b: Index, run: seq<Arrival>, other: seq<Arrival>)
    requires HoldsRun(c, p, a, run) && HoldsRun(c, p, b, other) && SameBlocks(run, other)
    ensures a.blocks.Keys == b.blocks.Keys && Agree(c, p, a, b)
  {
    hide Decode, BlockId, InRun;
    forall id ensures id in a.blocks ==> id in b.blocks && Decode(c, p, a.blocks[id]) == Decode(c, p, b.blocks[id]) {
      if id in a.blocks { assert Stored(c, p, b, Decode(c, p, a.blocks[id]).value); }
    }
    forall id ensures id in b.blocks ==> id in a.blocks {
      if id in b.blocks { assert Stored(c, p, a, Decode(c, p, b.blocks[id]).value); }
    }
  }

  /** Only one known block has the largest work. */
  ghost predicate UniqueBest(k: Core) {
    forall id :: Known(k.index, id) && WorkAt(k.index, id) == k.index.activeWork ==> id == k.state.tip
  }

  /**
   * Runs that accept the same blocks, in any orders and at any times, give every block the same work and
   * the same active work, and reach the same tip and state when one block alone has the largest work.
   */
  lemma OrderDecidesOnlyTies(c: Crypto, p: NetworkParams, run: seq<Arrival>, other: seq<Arrival>)
    requires GoodParams(p) && Accepted(c, p, run).Ok? && Accepted(c, p, other).Ok? && SameBlocks(run, other)
    ensures var a, b := Accepted(c, p, run).value, Accepted(c, p, other).value;
            && a.index.blocks.Keys == b.index.blocks.Keys
            && (forall id :: Known(a.index, id) ==> WorkAt(a.index, id) == WorkAt(b.index, id))
            && a.index.activeWork == b.index.activeWork
            && (UniqueBest(a) ==> a.state == b.state && a.index.activeChain == b.index.activeChain)
  {
    hide Accepted, SameBlocks, Decode, Run, EntrySound, Path, Branch, HoldsRun, E.Validate, Agree;
    var a, b := Accepted(c, p, run).value, Accepted(c, p, other).value;
    AcceptedHolds(c, p, run);
    AcceptedHolds(c, p, other);
    SameBlocksAgree(c, p, a.index, b.index, run, other);
    forall id | Known(a.index, id) ensures Known(b.index, id) && WorkAt(a.index, id) == WorkAt(b.index, id) {
      SharedBranch(c, p, a.index, b.index, id);
    }
    assert Known(a.index, b.state.tip) && Known(b.index, a.state.tip);
    if UniqueBest(a) {
      SharedBranch(c, p, a.index, b.index, a.state.tip);
      SharedPath(c, p, a.index, b.index, a.state.tip);
    }
  }

  /** Common blocks have the same path. */
  lemma {:induction false} SharedPath(c: Crypto, p: NetworkParams, a: Index, b: Index, id: Digest)
    requires IndexSound(c, p, a) && IndexSound(c, p, b) && Agree(c, p, a, b) && Known(a, id) && Known(b, id)
    ensures Path(c, p, a, id) == Path(c, p, b, id)
    decreases HeightOf(a, id)
  {
    hide Decode, Run, BlockId, TargetWork, Branch;
    if id != a.genesis {
      assert EntrySound(c, p, a, id) && EntrySound(c, p, b, id);
      SharedPath(c, p, a, b, a.blocks[id].parent);
    }
  }
}
