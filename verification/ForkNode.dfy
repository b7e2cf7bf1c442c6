/** Preparing and committing blocks on the fork index, as the node does it in place. */
module ForkNode {
  import opened Prelude
  import opened Ledger
  import opened Consensus
  import opened BlockRules
  import opened Chain
  import opened Forks
  import D = Difficulty
  import E = Economics
  import W = WireObjects
  import Wire

  datatype Candidate =
    | Active(validated: ValidatedBlock)
    | Side(state: ChainState, validated: ValidatedBlock)

  datatype PreparedBlock = PreparedBlock(
    blockId: Digest, parent: Digest, height: u64, acceptedAt: u64, canonical: seq<byte>, work: nat,
    candidate: Candidate)

  // ----- paths ------------------------------------------------------------------------------------------

  function Reverse(s: seq<Digest>): seq<Digest> { if s == [] then [] else Reverse(s[1..]) + [s[0]] }

  lemma {:induction false} ReverseSnoc(s: seq<Digest>, x: Digest)
    ensures Reverse(s + [x]) == [x] + Reverse(s)
  {
    if s != [] {
      ReverseSnoc(s[1..], x);
      assert (s + [x])[1..] == s[1..] + [x];
    } else {
      assert s + [x] == [x];
    }
  }

  /** Walks parents back to genesis; on a linked index it neither meets a gap nor reports a cycle. */
  method PathTo(c: Crypto, p: NetworkParams, ix: Index, tip: Digest) returns (r: Result<seq<Digest>, NodeError>)
    requires Linked(c, p, ix)
    ensures r == if Known(ix, tip) then Ok(Path(c, p, ix, tip)) else Err(CorruptLog)
  {
    hide Decode;
    if tip == ix.genesis { return Ok([]); }
    var reversed: seq<Digest> := [];
    var cursor := tip;
    if Known(ix, tip) { PathFits(c, p, ix, tip); }
    while cursor != ix.genesis
      invariant Known(ix, tip) ==>
                  Known(ix, cursor) && Path(c, p, ix, tip) == Path(c, p, ix, cursor) + Reverse(reversed)
      invariant Known(ix, tip) ==> |Path(c, p, ix, tip)| == |Path(c, p, ix, cursor)| + |reversed|
      invariant !Known(ix, tip) ==> cursor == tip
      decreases if Known(ix, cursor) then HeightOf(ix, cursor) else 0
    {
      if |reversed| >= |ix.blocks| || cursor !in ix.blocks { return Err(CorruptLog); }
      ReverseSnoc(reversed, cursor);
      reversed := reversed + [cursor];
      cursor := ix.blocks[cursor].parent;
    }
    assert Path(c, p, ix, ix.genesis) + Reverse(reversed) == Reverse(reversed);
    return Ok(Reverse(reversed));
  }

  // ----- rebuilding ---------------------------------------------------------------------------------------

  lemma {:induction false} RunPrefix(c: Crypto, p: NetworkParams, run: seq<Arrival>, k: nat)
    requires k <= |run| && Run(c, p, run).Ok?
    ensures Run(c, p, run[..k]).Ok?
  {
    hide Step, Successor;
    if k == |run| {
      assert run[..k] == run;
    } else {
      var shorter := run[..|run| - 1];
      assert shorter[..k] == run[..k];
      RunPrefix(c, p, shorter, k);
    }
  }

  lemma RunStep(c: Crypto, p: NetworkParams, run: seq<Arrival>, i: nat)
    requires i < |run| && Run(c, p, run).Ok?
    ensures Run(c, p, run[..i]).Ok? && Run(c, p, run[..i + 1]).Ok?
    ensures var s := Run(c, p, run[..i]).value.state;
            var o := Step(c, s, run[i].block, run[i].now);
            && o.Ok? && s.nextHeight < U64_MAX
            && Run(c, p, run[..i + 1]).value.state == Successor(c, s, run[i].block, o.value.view)
  {
    hide Step, Successor, Run;
    RunPrefix(c, p, run, i);
    RunPrefix(c, p, run, i + 1);
    assert run[..i + 1] == run[..i] + [run[i]];
    RunAppend(c, p, run[..i], run[i]);
  }

  /** Replays a branch with full validation; on a sound index this never fails. */
  method RebuildStateTo(c: Crypto, p: NetworkParams, ix: Index, tip: Digest) returns (r: Result<ChainState, NodeError>)
    requires IndexSound(c, p, ix) && Known(ix, tip)
    ensures Replay(c, p, ix, tip).Ok?
    ensures r.Ok? && fresh(r.value) && r.value.Valid() && r.value.crypto == c
    ensures r.value.View() == Replay(c, p, ix, tip).value.state
  {
    hide Step, Successor, Run, EntrySound, Path, Branch, BlockId, W.DecodeBlock;
    KnownReplays(c, p, ix, tip);
    var state := new ChainState(c, p);
    var path := PathTo(c, p, ix, tip);
    if path.Err? { return Err(CorruptLog); }
    ghost var run := Branch(c, p, ix, tip);
    RunEmpty(c, p);
    assert run[..0] == [];
    var i := 0;
    while i < |path.value|
      invariant 0 <= i <= |path.value| == |run|
      invariant fresh(state) && state.Valid() && state.crypto == c
      invariant Run(c, p, run[..i]).Ok? && state.View() == Run(c, p, run[..i]).value.state
    {
      var id := path.value[i];
      PathHeights(c, p, ix, tip, i);
      RunStep(c, p, run, i);
      var entry := ix.blocks[id];
      var block := Wire.DecodeBlockFrame(c.magic, entry.canonical, p.networkId);
      assert block == Decode(c, p, entry);
      EntryMetadata(c, p, ix, id);
      if block.None? || BlockId(c, block.value) != id || block.value.challenge.previousBlock != entry.parent
         || block.value.challenge.height != entry.height
      {
        return Err(CorruptLog);
      }
      var applied := state.ValidateAndApply(block.value, entry.acceptedAt);
      if applied.Err? { return Err(CorruptLog); }
      i := i + 1;
    }
    assert run[..|run|] == run;
    return Ok(state);
  }

  lemma RunEmpty(c: Crypto, p: NetworkParams)
    ensures Run(c, p, []) == Ok(Progress(Genesis(p), 0))
  {
  }

  lemma EntryMetadata(c: Crypto, p: NetworkParams, ix: Index, id: Digest)
    requires IndexSound(c, p, ix) && id in ix.blocks
    ensures var e := ix.blocks[id];
            var b := Decode(c, p, e);
            && b.Some? && BlockId(c, b.value) == id && b.value.challenge.previousBlock == e.parent
            && b.value.challenge.height == e.height
  {
    hide Decode, BlockId, Run;
    assert EntrySound(c, p, ix, id);
  }

  // ----- preparing ------------------------------------------------------------------------------------------

  /** What a prepared block holds: the index entry to be and a token for the parent's state. */
  ghost predicate PreparedFor(c: Crypto, p: NetworkParams, ix: Index, live: State, b: Block, at: u64,
                              pre: PreparedBlock)
    requires IndexSound(c, p, ix)
    reads if pre.candidate.Side? then {pre.candidate.state} else {}
  {
    && Known(ix, b.challenge.previousBlock) && W.EncodeBlock(c.magic, b).Some?
    && Replay(c, p, ix, b.challenge.previousBlock).Ok?
    && pre.blockId == BlockId(c, b) && !Known(ix, pre.blockId)
    && IndexedBlock(pre.parent, pre.height, pre.acceptedAt, pre.canonical, pre.work) == NewEntry(c, ix, b, at)
    && (pre.candidate.Active? <==> pre.parent == live.tip)
    && (pre.candidate.Side? ==> pre.candidate.state.Valid() && pre.candidate.state.crypto == c
                                && pre.candidate.state.View() == Replay(c, p, ix, pre.parent).value.state)
    && TokenOf(c, Replay(c, p, ix, pre.parent).value.state, b, at, pre.candidate.validated)
  }

  ghost predicate TokenOf(c: Crypto, s: State, b: Block, at: u64, v: ValidatedBlock)
    requires s.rawTimestamps != []
  {
    var o := Step(c, s, b, at);
    o.Ok? && s.nextHeight < U64_MAX && TokenFor(c, s, b, o.value.view, o.value.fees, v)
  }

  /** Preparation fails exactly when acceptance does, with the same error, and changes nothing. */
  method PrepareBlock(c: Crypto, p: NetworkParams, live: ChainState, ix: Index, b: Block, at: u64, canonical: seq<byte>)
    returns (r: Result<PreparedBlock, NodeError>)
    requires GoodParams(p) && live.Valid() && live.crypto == c && Sound(c, p, Core(ix, live.View()))
    requires W.EncodeBlock(c.magic, b) == Some(canonical)
    ensures r.Ok? <==> Accept(c, p, Core(ix, live.View()), b, at).Ok?
    ensures r.Err? ==> Accept(c, p, Core(ix, live.View()), b, at) == Err(r.error)
    ensures r.Ok? ==> PreparedFor(c, p, ix, live.View(), b, at, r.value)
    ensures r.Ok? && r.value.candidate.Side? ==> fresh(r.value.candidate.state)
  {
    hide Step, Successor, Run, EntrySound, Path, Branch, W.EncodeBlock, TokenFor, E.Validate, Decode, TargetWork;
    var id := BlockId(c, b);
    if Known(ix, id) { return Err(DuplicateBlock(id)); }
    var parent := b.challenge.previousBlock;
    if !Known(ix, parent) { return Err(UnknownParent(parent)); }
    var parentWork := WorkAt(ix, parent);
    KnownReplays(c, p, ix, parent);
    ghost var base := Replay(c, p, ix, parent).value.state;
    var candidate: Candidate;
    if parent == live.tip {
      var v := live.ValidateBlock(b, at);
      if v.Err? { return Err(ChainFailure(v.error)); }
      candidate := Active(v.value);
    } else {
      var state := RebuildStateTo(c, p, ix, parent);
      if state.Err? { return Err(CorruptLog); }
      var v := state.value.ValidateBlock(b, at);
      if v.Err? { return Err(ChainFailure(v.error)); }
      candidate := Side(state.value, v.value);
    }
    assert Step(c, base, b, at).Ok?;
    AcceptedTarget(c, p, ix, b, at);
    var work := D.AddChainWork(parentWork, b.challenge.target);
    if work.Err? { return Err(ChainFailure(DifficultyFailure(D.WorkOverflow))); }
    return Ok(PreparedBlock(id, parent, b.challenge.height, at, canonical, work.value, candidate));
  }

  lemma AcceptedTarget(c: Crypto, p: NetworkParams, ix: Index, b: Block, at: u64)
    requires IndexSound(c, p, ix) && GoodParams(p) && Known(ix, b.challenge.previousBlock)
    requires Replay(c, p, ix, b.challenge.previousBlock).Ok?
    requires Step(c, Replay(c, p, ix, b.challenge.previousBlock).value.state, b, at).Ok?
    ensures b.challenge.target > 0
    ensures var parent := b.challenge.previousBlock;
            D.AddChainWork(WorkAt(ix, parent), b.challenge.target)
            == Ok(WorkAt(ix, parent) + TargetWork(b.challenge.target))
    ensures TargetWork(b.challenge.target) > 0
  {
    hide Step, Run, EntrySound, Path, Branch, W.EncodeBlock, E.Validate, Decode, TargetWork, Timeline, StateTarget,
         D.AddChainWork;
    var parent := b.challenge.previousBlock;
    var base := Replay(c, p, ix, parent).value.state;
    ReplayTip(c, p, ix, parent);
    StepHeader(c, base, b, at);
    TargetAlwaysDefined(base);
    WorkAdds(c, p, ix, parent, b.challenge.target);
  }

  // ----- committing -----------------------------------------------------------------------------------------

  /**
   * Commitment of a prepared block on the unchanged index and state: it always succeeds, and reaches
   * exactly the accepted core. The branch state takes over only on strictly more work.
   */
  method CommitPrepared(c: Crypto, p: NetworkParams, live: ChainState, ix: Index, pre: PreparedBlock, ghost b: Block,
                        ghost at: u64)
    returns (r: Result<u64, NodeError>, live': ChainState, ix': Index)
    requires GoodParams(p) && live.Valid() && live.crypto == c && Sound(c, p, Core(ix, live.View()))
    requires PreparedFor(c, p, ix, live.View(), b, at, pre)
    requires Accept(c, p, Core(ix, live.View()), b, at).Ok?
    requires pre.candidate.Side? ==> pre.candidate.state != live
    modifies live, if pre.candidate.Side? then {pre.candidate.state} else {}
    ensures r == Ok(AcceptedFees(c, p, Core(ix, old(live.View())), b, at)) && live'.Valid() && live'.crypto == c
    ensures live' == live || (pre.candidate.Side? && live' == pre.candidate.state)
    ensures Accept(c, p, Core(ix, old(live.View())), b, at) == Ok(Core(ix', live'.View()))
  {
    hide Step, Successor, Run, EntrySound, Path, Branch, W.EncodeBlock, TokenFor, E.Validate, Decode, TargetWork, Fresh,
         Committed;
    var parent := pre.parent;
    ghost var base := Replay(c, p, ix, parent).value.state;
    ghost var o := Step(c, base, b, at).value;
    TokenCommits(c, base, b, o.view, o.fees, pre.candidate.validated);
    TokenFees(c, base, b, o.view, o.fees, pre.candidate.validated);
    live', ix' := live, ix;
    var activates := pre.work > ix.activeWork;
    AcceptedTarget(c, p, ix, b, at);
    if pre.candidate.Active? && !activates { return Err(CorruptLog), live, ix; }
    var chain := ix.activeChain;
    if activates {
      var path := PathTo(c, p, ix, parent);
      if path.Err? { return Err(CorruptLog), live, ix; }
      chain := [ix.genesis] + path.value + [pre.blockId];
    }
    match pre.candidate {
      case Active(v) =>
        var fees := live.CommitValidated(v);
        if fees.Err? { return Err(ChainFailure(StaleValidatedBlock)), live, ix; }
        r := Ok(fees.value);
      case Side(state, v) =>
        var fees := state.CommitValidated(v);
        if fees.Err? { return Err(ChainFailure(StaleValidatedBlock)), live, ix; }
        if activates { live' := state; }
        r := Ok(fees.value);
    }
    if pre.blockId in ix.blocks { return Err(DuplicateBlock(pre.blockId)), live', ix; }
    var entry := IndexedBlock(parent, pre.height, pre.acceptedAt, pre.canonical, pre.work);
    ix' := if activates then Index(ix.genesis, ix.blocks[pre.blockId := entry], chain, pre.work)
           else ix.(blocks := ix.blocks[pre.blockId := entry]);
  }
}
