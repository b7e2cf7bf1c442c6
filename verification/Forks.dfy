/** The fork index: every validated block, the active chain, and strict-work fork choice. */
module Forks {
  import opened Prelude
  import opened Ledger
  import opened Consensus
  import opened BlockRules
  import opened Chain
  import D = Difficulty
  import E = Economics
  import W = WireObjects
  import Arith
  import Utxo

  datatype IndexedBlock = IndexedBlock(parent: Digest, height: u64, acceptedAt: u64, canonical: seq<byte>, work: nat)

  datatype Index = Index(genesis: Digest, blocks: map<Digest, IndexedBlock>, activeChain: seq<Digest>, activeWork: nat)

  datatype NodeError =
    | DuplicateBlock(id: Digest)
    | UnknownParent(parent: Digest)
    | ChainFailure(e: ChainError)
    | WireFailure
    | CorruptLog
    | StorageFaulted
    | StorageFailure
    | TemplateUnavailable

  /** The part of the node that the log determines. */
  datatype Core = Core(index: Index, state: State)

  function EmptyIndex(genesis: Digest): Index { Index(genesis, map[], [genesis], 0) }

  function FreshCore(p: NetworkParams): Core { Core(EmptyIndex(p.genesisHash), Genesis(p)) }

  predicate Known(ix: Index, id: Digest) { id == ix.genesis || id in ix.blocks }

  function HeightOf(ix: Index, id: Digest): nat
    requires Known(ix, id)
  {
    if id == ix.genesis then 0 else ix.blocks[id].height
  }

  function WorkAt(ix: Index, id: Digest): nat
    requires Known(ix, id)
  {
    if id == ix.genesis then 0 else ix.blocks[id].work
  }

  // ----- branches -------------------------------------------------------------------------------------

  function Decode(c: Crypto, p: NetworkParams, e: IndexedBlock): Option<Block> {
    W.DecodeBlock(c.magic, e.canonical, p.networkId)
  }

  /** Parents are indexed one height below, and every frame decodes. */
  ghost predicate Linked(c: Crypto, p: NetworkParams, ix: Index) {
    && ix.genesis !in ix.blocks
    && (forall id :: id in ix.blocks ==>
          && Known(ix, ix.blocks[id].parent)
          && ix.blocks[id].height == HeightOf(ix, ix.blocks[id].parent) + 1
          && Decode(c, p, ix.blocks[id]).Some?)
  }

  /** The identifiers from the child of genesis to a block. */
  ghost function Path(c: Crypto, p: NetworkParams, ix: Index, id: Digest): (path: seq<Digest>)
    requires Linked(c, p, ix) && Known(ix, id)
    ensures |path| == HeightOf(ix, id)
    decreases HeightOf(ix, id)
  {
    if id == ix.genesis then [] else Path(c, p, ix, ix.blocks[id].parent) + [id]
  }

  ghost function ArrivalOf(c: Crypto, p: NetworkParams, ix: Index, id: Digest): Arrival
    requires Linked(c, p, ix) && id in ix.blocks
  {
    Arrival(Decode(c, p, ix.blocks[id]).value, ix.blocks[id].acceptedAt)
  }

  /** The blocks from the child of genesis to a block, with their acceptance times. */
  ghost function Branch(c: Crypto, p: NetworkParams, ix: Index, id: Digest): (run: seq<Arrival>)
    requires Linked(c, p, ix) && Known(ix, id)
    ensures |run| == HeightOf(ix, id)
    decreases HeightOf(ix, id)
  {
    if id == ix.genesis then [] else Branch(c, p, ix, ix.blocks[id].parent) + [ArrivalOf(c, p, ix, id)]
  }

  /** Consensus replay of a branch from genesis. */
  ghost function Replay(c: Crypto, p: NetworkParams, ix: Index, id: Digest): Result<Progress, ChainError>
    requires Linked(c, p, ix) && Known(ix, id)
  {
    Run(c, p, Branch(c, p, ix, id))
  }

  ghost function TargetWork(target: u256): nat {
    if target > 0 then D.BlockWork(target).value else 0
  }

  /** The metadata of an entry is that of its frame, its branch replays, and its work adds up. */
  ghost predicate EntrySound(c: Crypto, p: NetworkParams, ix: Index, id: Digest)
    requires Linked(c, p, ix) && id in ix.blocks
  {
    var e, b := ix.blocks[id], Decode(c, p, ix.blocks[id]).value;
    && BlockId(c, b) == id
    && b.challenge.previousBlock == e.parent
    && b.challenge.height == e.height
    && b.challenge.target > 0
    && e.work == WorkAt(ix, e.parent) + TargetWork(b.challenge.target)
    && Replay(c, p, ix, id).Ok?
  }

  ghost predicate IndexSound(c: Crypto, p: NetworkParams, ix: Index) {
    && ix.genesis == p.genesisHash
    && Linked(c, p, ix)
    && forall id :: id in ix.blocks ==> EntrySound(c, p, ix, id)
  }

  /**
   * Cached data agree with a recomputation from genesis: the active chain is the path to the tip, the
   * active work is the tip's and the largest of all, and the live state is the replay of the branch.
   */
  ghost predicate Sound(c: Crypto, p: NetworkParams, k: Core) {
    && IndexSound(c, p, k.index)
    && Known(k.index, k.state.tip)
    && k.index.activeChain == [k.index.genesis] + Path(c, p, k.index, k.state.tip)
    && k.index.activeWork == WorkAt(k.index, k.state.tip)
    && (forall id :: Known(k.index, id) ==> WorkAt(k.index, id) <= k.index.activeWork)
    && Replay(c, p, k.index, k.state.tip).Ok?
    && Replay(c, p, k.index, k.state.tip).value.state == k.state
  }

  ghost predicate GoodParams(p: NetworkParams) { E.Validate(p.policy).Ok? && p.powLimit > 0 }

  // ----- the transition ---------------------------------------------------------------------------------

  ghost function WithBlock(ix: Index, id: Digest, e: IndexedBlock): Index {
    ix.(blocks := ix.blocks[id := e])
  }

  /** The index entry of a block accepted on a known parent. */
  ghost function NewEntry(c: Crypto, ix: Index, b: Block, at: u64): IndexedBlock
    requires Known(ix, b.challenge.previousBlock) && W.EncodeBlock(c.magic, b).Some?
  {
    IndexedBlock(b.challenge.previousBlock, b.challenge.height, at, W.EncodeBlock(c.magic, b).value,
                 WorkAt(ix, b.challenge.previousBlock) + TargetWork(b.challenge.target))
  }

  /** Acceptance of one block: index it, and switch to it only on strictly more work. */
  ghost function Accept(c: Crypto, p: NetworkParams, k: Core, b: Block, at: u64): Result<Core, NodeError>
    requires Sound(c, p, k)
  {
    var ix, id, parent := k.index, BlockId(c, b), b.challenge.previousBlock;
    if Known(ix, id) then Err(DuplicateBlock(id))
    else if !Known(ix, parent) then Err(UnknownParent(parent))
    else
      KnownReplays(c, p, k.index, parent);
      var base := Replay(c, p, ix, parent).value.state;
      var o := Step(c, base, b, at);
      if o.Err? then Err(ChainFailure(o.error))
      else
        StepHeader(c, base, b, at);
        StepHeight(c, base, b, at);
        var e := NewEntry(c, ix, b, at);
        if e.work > ix.activeWork
        then Ok(Core(Index(ix.genesis, ix.blocks[id := e], [ix.genesis] + Path(c, p, ix, parent) + [id], e.work),
                     Successor(c, base, b, o.value.view)))
        else Ok(Core(WithBlock(ix, id, e), k.state))
  }

  /** The fees an accepted block burns. */
  ghost function AcceptedFees(c: Crypto, p: NetworkParams, k: Core, b: Block, at: u64): u64
    requires Sound(c, p, k) && Accept(c, p, k, b, at).Ok?
  {
    KnownReplays(c, p, k.index, b.challenge.previousBlock);
    Step(c, Replay(c, p, k.index, b.challenge.previousBlock).value.state, b, at).value.fees
  }

  lemma KnownReplays(c: Crypto, p: NetworkParams, ix: Index, id: Digest)
    requires IndexSound(c, p, ix) && Known(ix, id)
    ensures Replay(c, p, ix, id).Ok? && Replay(c, p, ix, id).value.state.rawTimestamps != []
  {
    hide Step, BlockId, Decode;
    if id != ix.genesis {
      assert EntrySound(c, p, ix, id);
    }
  }

  /** A replayed branch ends at its block. */
  lemma {:induction false} ReplayTip(c: Crypto, p: NetworkParams, ix: Index, id: Digest)
    requires IndexSound(c, p, ix) && Known(ix, id) && GoodParams(p)
    ensures Replay(c, p, ix, id).Ok?
    ensures var s := Replay(c, p, ix, id).value.state;
            && s.tip == id && s.params == p && s.nextHeight == HeightOf(ix, id) + 1
            && Timeline(s)
  {
    hide Step, BlockId, Decode, Timeline, E.Validate;
    KnownReplays(c, p, ix, id);
    RunInvariant(c, p, Branch(c, p, ix, id));
    if id != ix.genesis {
      var parent := ix.blocks[id].parent;
      assert EntrySound(c, p, ix, id);
      KnownReplays(c, p, ix, parent);
      RunAppend(c, p, Branch(c, p, ix, parent), ArrivalOf(c, p, ix, id));
    }
  }

  // ----- extending the index ------------------------------------------------------------------------------

  /** A new entry leaves every known branch as it was. */
  lemma {:induction false} BranchesStay(c: Crypto, p: NetworkParams, ix: Index, id: Digest, e: IndexedBlock, q: Digest)
    requires Linked(c, p, ix) && !Known(ix, id) && Linked(c, p, WithBlock(ix, id, e)) && Known(ix, q)
    ensures Path(c, p, WithBlock(ix, id, e), q) == Path(c, p, ix, q)
    ensures Branch(c, p, WithBlock(ix, id, e), q) == Branch(c, p, ix, q)
    decreases HeightOf(ix, q)
  {
    hide Decode;
    if q != ix.genesis {
      BranchesStay(c, p, ix, id, e, ix.blocks[q].parent);
    }
  }

  lemma StaysLinked(c: Crypto, p: NetworkParams, ix: Index, id: Digest, e: IndexedBlock)
    requires Linked(c, p, ix) && !Known(ix, id) && Known(ix, e.parent)
    requires e.height == HeightOf(ix, e.parent) + 1 && Decode(c, p, e).Some?
    ensures Linked(c, p, WithBlock(ix, id, e))
  {
    hide Decode;
  }

  lemma EntriesStaySound(c: Crypto, p: NetworkParams, ix: Index, id: Digest, e: IndexedBlock)
    requires IndexSound(c, p, ix) && !Known(ix, id) && Linked(c, p, WithBlock(ix, id, e))
    requires EntrySound(c, p, WithBlock(ix, id, e), id)
    ensures IndexSound(c, p, WithBlock(ix, id, e))
  {
    hide Decode, BlockId, Run;
    var ix' := WithBlock(ix, id, e);
    forall q | q in ix'.blocks ensures EntrySound(c, p, ix', q) {
      if q != id {
        assert EntrySound(c, p, ix, q);
        BranchesStay(c, p, ix, id, e, q);
      }
    }
  }

  /** The entry made for a valid block is sound, and its branch leads to the successor state. */
  lemma NewEntrySound(c: Crypto, p: NetworkParams, ix: Index, b: Block, at: u64)
    requires IndexSound(c, p, ix) && GoodParams(p)
    requires !Known(ix, BlockId(c, b)) && Known(ix, b.challenge.previousBlock)
    requires Replay(c, p, ix, b.challenge.previousBlock).Ok?
    requires Step(c, Replay(c, p, ix, b.challenge.previousBlock).value.state, b, at).Ok?
    ensures W.EncodeBlock(c.magic, b).Some?
    ensures var e, id := NewEntry(c, ix, b, at), BlockId(c, b);
            var ix' := WithBlock(ix, id, e);
            var base := Replay(c, p, ix, b.challenge.previousBlock).value.state;
            && IndexSound(c, p, ix')
            && base.nextHeight < U64_MAX
            && Replay(c, p, ix', id).Ok?
            && Replay(c, p, ix', id).value.state == Successor(c, base, b, Step(c, base, b, at).value.view)
            && Path(c, p, ix', id) == Path(c, p, ix, b.challenge.previousBlock) + [id]
  {
    hide Step, Successor, BlockId, W.DecodeBlock, W.EncodeBlock, Timeline, D.BlockWork, E.Validate, StateTarget, Run;
    var parent := b.challenge.previousBlock;
    var base := Replay(c, p, ix, parent).value.state;
    StepHeader(c, base, b, at);
    ReplayTip(c, p, ix, parent);
    TargetAlwaysDefined(base);
    var e, id := NewEntry(c, ix, b, at), BlockId(c, b);
    W.BlockBijection(c.magic, e.canonical, p.networkId, b);
    assert Decode(c, p, e) == Some(b);
    StaysLinked(c, p, ix, id, e);
    BranchesStay(c, p, ix, id, e, parent);
    RunAppend(c, p, Branch(c, p, ix, parent), Arrival(b, at));
    assert Branch(c, p, WithBlock(ix, id, e), id) == Branch(c, p, ix, parent) + [Arrival(b, at)];
    assert EntrySound(c, p, WithBlock(ix, id, e), id);
    EntriesStaySound(c, p, ix, id, e);
  }

  lemma FreshSound(c: Crypto, p: NetworkParams)
    ensures Sound(c, p, FreshCore(p))
  {
  }

  /** Every accepted block keeps the cached data in agreement with a recomputation. */
  lemma AcceptKeepsSound(c: Crypto, p: NetworkParams, k: Core, b: Block, at: u64)
    requires Sound(c, p, k) && GoodParams(p) && Accept(c, p, k, b, at).Ok?
    ensures Sound(c, p, Accept(c, p, k, b, at).value)
  {
    hide Step, Successor, BlockId, Decode, W.EncodeBlock, Run, E.Validate, EntrySound, TargetWork, Path, Branch;
    var ix, id, parent := k.index, BlockId(c, b), b.challenge.previousBlock;
    KnownReplays(c, p, ix, parent);
    NewEntrySound(c, p, ix, b, at);
    var e := NewEntry(c, ix, b, at);
    var ix' := WithBlock(ix, id, e);
    if e.work > ix.activeWork {
      var base := Replay(c, p, ix, parent).value.state;
      var next := Successor(c, base, b, Step(c, base, b, at).value.view);
      SuccessorTip(c, base, b, Step(c, base, b, at).value.view);
      var active := Index(ix.genesis, ix.blocks[id := e], [ix.genesis] + Path(c, p, ix, parent) + [id], e.work);
      CachesDoNotMatter(c, p, ix', active);
      NewWork(ix, id, e);
      SwitchedSound(c, p, ix', active, next, id);
    } else {
      KeptSound(c, p, k, id, e);
    }
  }

  lemma NewWork(ix: Index, id: Digest, e: IndexedBlock)
    requires !Known(ix, id)
    ensures forall q :: Known(WithBlock(ix, id, e), q) ==>
              q == id || (Known(ix, q) && WorkAt(WithBlock(ix, id, e), q) == WorkAt(ix, q))
    ensures WorkAt(WithBlock(ix, id, e), id) == e.work
  {
  }

  lemma KeptSound(c: Crypto, p: NetworkParams, k: Core, id: Digest, e: IndexedBlock)
    requires Sound(c, p, k) && !Known(k.index, id) && e.work <= k.index.activeWork
    requires IndexSound(c, p, WithBlock(k.index, id, e))
    ensures Sound(c, p, Core(WithBlock(k.index, id, e), k.state))
  {
    hide Run, Decode, EntrySound, Path, Branch;
    IndexLinked(c, p, k.index);
    IndexLinked(c, p, WithBlock(k.index, id, e));
    BranchesStay(c, p, k.index, id, e, k.state.tip);
    NewWork(k.index, id, e);
  }

  lemma SuccessorTip(c: Crypto, s: State, b: Block, view: Utxo.UtxoSet)
    requires s.nextHeight < U64_MAX
    ensures Successor(c, s, b, view).tip == BlockId(c, b)
  {
    hide D.MedianTimestamp;
  }

  /** Branches do not depend on the cached chain and work. */
  lemma CachesDoNotMatter(c: Crypto, p: NetworkParams, a: Index, b: Index)
    requires IndexSound(c, p, a) && a.genesis == b.genesis && a.blocks == b.blocks
    ensures IndexSound(c, p, b)
    ensures forall q :: Known(a, q) ==> Path(c, p, b, q) == Path(c, p, a, q) && Branch(c, p, b, q) == Branch(c, p, a, q)
  {
    hide Decode, BlockId, Run;
    assert Linked(c, p, b);
    forall q | Known(a, q) ensures Path(c, p, b, q) == Path(c, p, a, q) && Branch(c, p, b, q) == Branch(c, p, a, q) {
      SameBranch(c, p, a, b, q);
    }
    forall q | q in b.blocks ensures EntrySound(c, p, b, q) {
      assert EntrySound(c, p, a, q);
    }
  }

  lemma {:induction false} SameBranch(c: Crypto, p: NetworkParams, a: Index, b: Index, q: Digest)
    requires Linked(c, p, a) && Linked(c, p, b) && a.genesis == b.genesis && a.blocks == b.blocks && Known(a, q)
    ensures Path(c, p, b, q) == Path(c, p, a, q) && Branch(c, p, b, q) == Branch(c, p, a, q)
    decreases HeightOf(a, q)
  {
    hide Decode;
    if q != a.genesis {
      SameBranch(c, p, a, b, a.blocks[q].parent);
    }
  }

  lemma SwitchedSound(c: Crypto, p: NetworkParams, ix: Index, active: Index, next: State, id: Digest)
    requires IndexSound(c, p, ix) && IndexSound(c, p, active) && ix.genesis == active.genesis
            && ix.blocks == active.blocks
    requires Known(ix, id) && next.tip == id && Replay(c, p, ix, id).Ok? && Replay(c, p, ix, id).value.state == next
    requires Path(c, p, active, id) == Path(c, p, ix, id) && Branch(c, p, active, id) == Branch(c, p, ix, id)
    requires active.activeChain == [ix.genesis] + Path(c, p, ix, id) && active.activeWork == WorkAt(ix, id)
    requires forall q :: Known(ix, q) ==> WorkAt(ix, q) <= WorkAt(ix, id)
    ensures Sound(c, p, Core(active, next))
  {
    hide IndexSound, Run, Decode;
    assert Linked(c, p, active) by { IndexLinked(c, p, active); }
    assert forall q :: Known(active, q) ==> Known(ix, q) && WorkAt(active, q) == WorkAt(ix, q);
  }

  lemma IndexLinked(c: Crypto, p: NetworkParams, ix: Index)
    requires IndexSound(c, p, ix)
    ensures Linked(c, p, ix)
  {
  }

  lemma SoundLinked(c: Crypto, p: NetworkParams, k: Core)
    requires Sound(c, p, k)
    ensures Linked(c, p, k.index)
  {
  }

  // ----- work never overflows -----------------------------------------------------------------------------

  const HALF: int := TWO_256 / 2

  lemma TargetWorkBound(target: u256)
    requires target > 0
    ensures 1 <= TargetWork(target) <= HALF
  {
  }

  lemma {:induction false} WorkBound(c: Crypto, p: NetworkParams, ix: Index, id: Digest)
    requires IndexSound(c, p, ix) && Known(ix, id)
    ensures WorkAt(ix, id) <= HeightOf(ix, id) * HALF
    decreases HeightOf(ix, id)
  {
    hide Run, Decode, BlockId, TargetWork, Branch, Path;
    if id != ix.genesis {
      assert EntrySound(c, p, ix, id);
      var parent := ix.blocks[id].parent;
      WorkBound(c, p, ix, parent);
      TargetWorkBound(Decode(c, p, ix.blocks[id]).value.challenge.target);
      Arith.MulDistrib(HeightOf(ix, parent), 1, HALF);
    } else {
      Arith.MulNonneg(0, HALF);
    }
  }

  /** Adding a valid block's work to a known parent succeeds, and is strictly more than the parent. */
  lemma WorkAdds(c: Crypto, p: NetworkParams, ix: Index, parent: Digest, target: u256)
    requires IndexSound(c, p, ix) && Known(ix, parent) && HeightOf(ix, parent) <= U64_MAX && target > 0
    ensures D.AddChainWork(WorkAt(ix, parent), target) == Ok(WorkAt(ix, parent) + TargetWork(target))
    ensures TargetWork(target) > 0
  {
    hide IndexSound;
    WorkBound(c, p, ix, parent);
    Arith.MulMono(HeightOf(ix, parent), U64_MAX, HALF);
    TargetWorkBound(target);
    var bound := U64_MAX * HALF + HALF;
    assert bound < D.WORK_LIMIT;
  }

  // ----- runs of submissions ------------------------------------------------------------------------------

  /** The node after accepting exactly these blocks in this order. */
  ghost function Accepted(c: Crypto, p: NetworkParams, run: seq<Arrival>): (r: Result<Core, NodeError>)
    requires GoodParams(p)
    ensures r.Ok? ==> Sound(c, p, r.value)
  {
    if run == [] then FreshSound(c, p); Ok(FreshCore(p))
    else
      var prior :- Accepted(c, p, run[..|run| - 1]);
      var last := run[|run| - 1];
      var next := Accept(c, p, prior, last.block, last.now);
      if next.Ok? then AcceptKeepsSound(c, p, prior, last.block, last.now); next else next
  }

  ghost function Ids(c: Crypto, run: seq<Arrival>): (ids: seq<Digest>)
    ensures |ids| == |run| && forall i :: 0 <= i < |run| ==> ids[i] == BlockId(c, run[i].block)
  {
    if run == [] then [] else Ids(c, run[..|run| - 1]) + [BlockId(c, run[|run| - 1].block)]
  }

  ghost function Elements(ids: seq<Digest>): set<Digest> { set i | 0 <= i < |ids| :: ids[i] }

  lemma ElementsSnoc(ids: seq<Digest>, id: Digest)
    ensures Elements(ids + [id]) == Elements(ids) + {id}
  {
    var longer := ids + [id];
    forall q ensures q in Elements(longer) <==> q in Elements(ids) + {id} {
      if q == id { assert longer[|ids|] == q; }
      if q in Elements(ids) {
        var i :| 0 <= i < |ids| && ids[i] == q;
        assert longer[i] == q;
      }
    }
  }

  /** The tip is the first accepted block that reached the largest work. */
  ghost predicate FirstSeenBest(k: Core, ids: seq<Digest>) {
    && k.index.blocks.Keys == Elements(ids)
    && (ids == [] ==> k.state.tip == k.index.genesis)
    && (ids != [] ==> exists j :: FirstAt(k, ids, j))
  }

  ghost predicate FirstAt(k: Core, ids: seq<Digest>, j: int) {
    && 0 <= j < |ids| && ids[j] == k.state.tip
    && forall i :: 0 <= i < j ==> ids[i] in k.index.blocks && k.index.blocks[ids[i]].work < k.index.activeWork
  }

  lemma AcceptFirstSeen(c: Crypto, p: NetworkParams, k: Core, ids: seq<Digest>, b: Block, at: u64)
    requires Sound(c, p, k) && GoodParams(p) && FirstSeenBest(k, ids) && Accept(c, p, k, b, at).Ok?
    ensures FirstSeenBest(Accept(c, p, k, b, at).value, ids + [BlockId(c, b)])
  {
    hide Step, Successor, BlockId, Decode, W.EncodeBlock, Run, E.Validate, EntrySound, Path, Branch;
    var ix, id, parent := k.index, BlockId(c, b), b.challenge.previousBlock;
    KnownReplays(c, p, ix, parent);
    NewEntrySound(c, p, ix, b, at);
    var base := Replay(c, p, ix, parent).value.state;
    var next := Successor(c, base, b, Step(c, base, b, at).value.view);
    SuccessorTip(c, base, b, Step(c, base, b, at).value.view);
    var k' := Accept(c, p, k, b, at).value;
    var ids' := ids + [id];
    ElementsSnoc(ids, id);
    var e := NewEntry(c, ix, b, at);
    if e.work > ix.activeWork {
      forall i | 0 <= i < |ids| ensures ids'[i] in k'.index.blocks && k'.index.blocks[ids'[i]].work < e.work {
        assert ids[i] in Elements(ids);
        assert Known(ix, ids[i]) && WorkAt(ix, ids[i]) <= ix.activeWork;
      }
      assert FirstAt(k', ids', |ids|);
    } else {
      FirstBlockActivates(c, p, k, ids, b, at);
      var j :| FirstAt(k, ids, j);
      assert FirstAt(k', ids', j);
    }
  }

  /** On an index without blocks any valid block has more work than the active chain. */
  lemma FirstBlockActivates(c: Crypto, p: NetworkParams, k: Core, ids: seq<Digest>, b: Block, at: u64)
    requires Sound(c, p, k) && GoodParams(p) && FirstSeenBest(k, ids)
    requires Known(k.index, b.challenge.previousBlock)
    requires Replay(c, p, k.index, b.challenge.previousBlock).Ok?
    requires Step(c, Replay(c, p, k.index, b.challenge.previousBlock).value.state, b, at).Ok?
    requires W.EncodeBlock(c.magic, b).Some?
    requires NewEntry(c, k.index, b, at).work <= k.index.activeWork
    ensures ids != []
  {
    hide Step, BlockId, Decode, W.EncodeBlock, Run, E.Validate, EntrySound, Path, Branch, StateTarget, Timeline,
         TargetWork;
    var parent := b.challenge.previousBlock;
    var base := Replay(c, p, k.index, parent).value.state;
    StepHeader(c, base, b, at);
    ReplayTip(c, p, k.index, parent);
    TargetAlwaysDefined(base);
    TargetWorkBound(b.challenge.target);
  }

  lemma {:induction false} FirstSeenWins(c: Crypto, p: NetworkParams, run: seq<Arrival>)
    requires GoodParams(p) && Accepted(c, p, run).Ok?
    ensures FirstSeenBest(Accepted(c, p, run).value, Ids(c, run))
  {
    hide Accept, FirstSeenBest, BlockId, E.Validate;
    if run == [] {
      assert FirstSeenBest(FreshCore(p), []) by { FreshFirstSeen(p); }
    } else {
      FirstSeenWins(c, p, run[..|run| - 1]);
      var prior := Accepted(c, p, run[..|run| - 1]).value;
      AcceptFirstSeen(c, p, prior, Ids(c, run[..|run| - 1]), run[|run| - 1].block, run[|run| - 1].now);
    }
  }

  lemma FreshFirstSeen(p: NetworkParams)
    ensures FirstSeenBest(FreshCore(p), [])
  {
  }

  // ----- paths fit the index --------------------------------------------------------------------------------

  /** Position i of a path holds an indexed block of height i + 1. */
  lemma {:induction false} PathHeights(c: Crypto, p: NetworkParams, ix: Index, id: Digest, i: nat)
    requires Linked(c, p, ix) && Known(ix, id) && i < HeightOf(ix, id)
    ensures var q := Path(c, p, ix, id)[i];
            q in ix.blocks && ix.blocks[q].height == i + 1 && Branch(c, p, ix, id)[i] == ArrivalOf(c, p, ix, q)
    decreases HeightOf(ix, id)
  {
    hide Decode;
    if i < HeightOf(ix, id) - 1 {
      PathHeights(c, p, ix, ix.blocks[id].parent, i);
    }
  }

  lemma {:induction false} DistinctFits(s: seq<Digest>, m: set<Digest>)
    requires forall i :: 0 <= i < |s| ==> s[i] in m
    requires forall i, j :: 0 <= i < j < |s| ==> s[i] != s[j]
    ensures |s| <= |m|
  {
    if s != [] {
      var last := s[|s| - 1];
      DistinctFits(s[..|s| - 1], m - {last});
    }
  }

  /** No path is longer than the number of indexed blocks, so the cycle guard never fires. */
  lemma PathFits(c: Crypto, p: NetworkParams, ix: Index, id: Digest)
    requires Linked(c, p, ix) && Known(ix, id)
    ensures |Path(c, p, ix, id)| <= |ix.blocks|
  {
    hide Path, Branch, Decode;
    var path := Path(c, p, ix, id);
    forall i | 0 <= i < |path| ensures path[i] in ix.blocks && ix.blocks[path[i]].height == i + 1 {
      PathHeights(c, p, ix, id, i);
    }
    DistinctFits(path, ix.blocks.Keys);
    assert |ix.blocks.Keys| == |ix.blocks|;
  }

  // ----- consensus facts of the live state --------------------------------------------------------------------

  /** On any fork history the live state conserves supply and keeps its registry and timeline. */
  lemma LiveStateAccounted(c: Crypto, p: NetworkParams, k: Core)
    requires Sound(c, p, k) && GoodParams(p)
    ensures var g := Replay(c, p, k.index, k.state.tip).value;
            Accounted(p, g, HeightOf(k.index, k.state.tip)) && g.state == k.state
  {
    hide Accounted, Run, Decode, EntrySound;
    RunInvariant(c, p, Branch(c, p, k.index, k.state.tip));
  }
}
