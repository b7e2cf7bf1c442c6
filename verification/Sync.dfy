/** Locators, inventories and the bounded block pull between two nodes. */
module Sync {
  import opened Prelude
  import opened Ledger
  import opened Consensus
  import opened BlockRules
  import opened Chain
  import opened Forks
  import opened ForkNode
  import opened ForkOrder
  import opened Arith
  import opened N = Node
  import E = Economics
  import T = Template
  import W = WireObjects
  import RL = RecordLog
  import Wire

  const MAX_BLOCKS_PER_SYNC: nat := 16

  // ----- locators ---------------------------------------------------------------------------------------

  /** The distance walked back after the k-th locator entry: one ten times, then doubling. */
  function Gap(k: nat): nat
    decreases k
  {
    if k <= 10 then 1 else 2 * Gap(k - 1)
  }

  function BackOff(position: nat, gap: nat): nat { if position >= gap then position - gap else 0 }

  /** The chain positions a locator names, newest first, without the closing genesis. */
  function Positions(start: nat, k: nat, room: nat): seq<nat>
    decreases room
  {
    if start == 0 || room == 0 then [] else [start] + Positions(BackOff(start, Gap(k)), k + 1, room - 1)
  }

  predicate OnChain(active: seq<Digest>, positions: seq<nat>) {
    forall i :: 0 <= i < |positions| ==> positions[i] < |active|
  }

  function At(active: seq<Digest>, positions: seq<nat>): seq<Digest>
    requires OnChain(active, positions)
  {
    seq(|positions|, i requires 0 <= i < |positions| => active[positions[i]])
  }

  lemma {:induction false} PositionsDescend(start: nat, k: nat, room: nat)
    ensures var ps := Positions(start, k, room);
            && |ps| <= room
            && (forall i :: 0 <= i < |ps| ==> 0 < ps[i] <= start)
            && (forall i, j :: 0 <= i < j < |ps| ==> ps[j] < ps[i])
    decreases room
  {
    if start > 0 && room > 0 {
      GapPositive(k);
      PositionsDescend(BackOff(start, Gap(k)), k + 1, room - 1);
    }
  }

  lemma {:induction false} GapPositive(k: nat)
    ensures Gap(k) >= 1
    decreases k
  {
    if k > 10 { GapPositive(k - 1); }
  }

  /** Newest first, at most max entries, closed by genesis. */
  method BlockLocator(active: seq<Digest>, max: nat) returns (locator: seq<Digest>)
    requires active != []
    ensures max == 0 ==> locator == []
    ensures max > 0 ==>
              && OnChain(active, Positions(|active| - 1, 1, max - 1))
              && locator == At(active, Positions(|active| - 1, 1, max - 1)) + [active[0]]
    ensures max > 0 ==> 1 <= |locator| <= max && locator[|locator| - 1] == active[0]
    ensures max > 1 ==> locator[0] == active[|active| - 1]
  {
    hide Positions, At;
    if max == 0 { return []; }
    PositionsDescend(|active| - 1, 1, max - 1);
    PositionsStep(|active| - 1, 1, max - 1);
    AtFirst(active, Positions(|active| - 1, 1, max - 1));
    if max == 1 || |active| == 1 { return [active[0]]; }
    locator := WalkBack(active, max - 1);
    locator := locator + [active[0]];
  }

  /** The walk from the tip towards genesis. */
  method WalkBack(active: seq<Digest>, room: nat) returns (locator: seq<Digest>)
    requires active != []
    ensures OnChain(active, Positions(|active| - 1, 1, room)) && locator == At(active, Positions(|active| - 1, 1, room))
  {
    hide Positions, Gap, At, BackOff, OnChain;
    ghost var all := Positions(|active| - 1, 1, room);
    ghost var done: seq<nat> := [];
    locator := [];
    AtFirst(active, []);
    GapStep(0);
    var position := |active| - 1;
    var step := 1;
    while position > 0 && |locator| < room
      invariant 0 <= position < |active| && |locator| == |done| <= room
      invariant step == Gap(|done| + 1)
      invariant all == done + Positions(position, |done| + 1, room - |done|)
      invariant OnChain(active, done) && locator == At(active, done)
    {
      PositionsStep(position, |done| + 1, room - |done|);
      GapStep(|done| + 1);
      GapPositive(|done| + 1);
      AtSnoc(active, done, position);
      BackOffBelow(position, step);
      locator := locator + [active[position]];
      done := done + [position];
      position := BackOff(position, step);
      if |locator| >= 10 { step := step * 2; }
    }
    PositionsStep(position, |done| + 1, room - |done|);
    assert all == done + [] == done;
  }

  lemma BackOffBelow(position: nat, gap: nat)
    ensures BackOff(position, gap) <= position
  {
  }

  lemma AtSnoc(active: seq<Digest>, positions: seq<nat>, p: nat)
    requires OnChain(active, positions) && p < |active|
    ensures OnChain(active, positions + [p]) && At(active, positions + [p]) == At(active, positions) + [active[p]]
    ensures OnChain(active, []) && At(active, []) == []
  {
  }

  lemma AtFirst(active: seq<Digest>, positions: seq<nat>)
    requires OnChain(active, positions)
    ensures |At(active, positions)| == |positions| && OnChain(active, [])
    ensures positions != [] ==> At(active, positions)[0] == active[positions[0]]
    ensures At(active, []) == []
  {
  }

  lemma PositionsStep(start: nat, k: nat, room: nat)
    ensures Positions(start, k, room)
         == if start == 0 || room == 0 then [] else [start] + Positions(BackOff(start, Gap(k)), k + 1, room - 1)
  {
  }

  lemma GapStep(k: nat)
    ensures Gap(k + 1) == if k >= 10 then 2 * Gap(k) else 1
    ensures k <= 10 ==> Gap(k) == 1
  {
  }

  /** Steps back: one after each of the first ten entries, then two, four, eight and so on. */
  ghost function StepBack(i: nat): nat { if i <= 9 then 1 else Pow2(i - 9) }

  lemma {:induction false} GapIsStep(i: nat)
    ensures Gap(i + 1) == StepBack(i)
  {
    if i >= 10 {
      GapIsStep(i - 1);
      if i == 10 { assert Pow2(0) == 1 && Pow2(1) == 2 * Pow2(0); }
    }
  }

  ghost predicate Spaced(ps: seq<nat>, i: nat) {
    forall j :: 0 < j < |ps| ==> ps[j - 1] == ps[j] + StepBack(i + j - 1)
  }

  lemma SpacedCons(start: nat, rest: seq<nat>, i: nat)
    requires Spaced(rest, i + 1) && (rest != [] ==> start == rest[0] + StepBack(i))
    ensures Spaced([start] + rest, i)
  {
    hide StepBack;
    var ps := [start] + rest;
    forall j | 0 < j < |ps| ensures ps[j - 1] == ps[j] + StepBack(i + j - 1) {
      if j > 1 {
        assert ps[j] == rest[j - 1] && ps[j - 1] == rest[j - 2];
        assert rest[j - 2] == rest[j - 1] + StepBack(i + 1 + (j - 1) - 1);
      }
    }
  }

  /** A locator starts at the tip, steps back by these distances, and ends only when full or near genesis. */
  lemma {:induction false} PositionsSpaced(start: nat, i: nat, room: nat)
    ensures var ps := Positions(start, i + 1, room);
            && Spaced(ps, i) && |ps| <= room
            && (start > 0 && room > 0 ==> ps != [] && ps[0] == start)
            && (|ps| < room ==> if ps == [] then start == 0 else ps[|ps| - 1] <= StepBack(i + |ps| - 1))
    decreases room
  {
    hide StepBack, Gap, Positions, Spaced;
    PositionsStep(start, i + 1, room);
    if start > 0 && room > 0 {
      GapIsStep(i);
      var next := BackOff(start, Gap(i + 1));
      PositionsSpaced(next, i + 1, room - 1);
      PositionsStep(next, i + 2, room - 1);
      SpacedCons(start, Positions(next, i + 2, room - 1), i);
    } else {
      NoPositions(i);
    }
  }

  lemma NoPositions(i: nat)
    ensures Spaced([], i)
  {
  }

  // ----- inventories ------------------------------------------------------------------------------------

  function PositionOf(active: seq<Digest>, id: Digest, i: nat): Option<nat>
    requires i <= |active|
    decreases |active| - i
  {
    if i == |active| then None else if active[i] == id then Some(i) else PositionOf(active, id, i + 1)
  }

  /** The chain position of the first locator entry on the chain. */
  function StartOf(active: seq<Digest>, locator: seq<Digest>): Option<nat> {
    if locator == [] then None
    else if PositionOf(active, locator[0], 0).Some? then PositionOf(active, locator[0], 0)
    else StartOf(active, locator[1..])
  }

  lemma {:induction false} PositionFound(active: seq<Digest>, id: Digest, i: nat, k: nat)
    requires i <= k < |active| && active[k] == id && forall j :: 0 <= j < |active| && j != k ==> active[j] != id
    ensures PositionOf(active, id, i) == Some(k)
    decreases |active| - i
  {
    if i < k { PositionFound(active, id, i + 1, k); }
  }

  lemma {:induction false} PositionInRange(active: seq<Digest>, id: Digest, i: nat)
    requires i <= |active| && PositionOf(active, id, i).Some?
    ensures i <= PositionOf(active, id, i).value < |active| && active[PositionOf(active, id, i).value] == id
    decreases |active| - i
  {
    if active[i] != id { PositionInRange(active, id, i + 1); }
  }

  lemma {:induction false} StartInRange(active: seq<Digest>, locator: seq<Digest>)
    requires StartOf(active, locator).Some?
    ensures StartOf(active, locator).value < |active|
  {
    if PositionOf(active, locator[0], 0).Some? {
      PositionInRange(active, locator[0], 0);
    } else {
      StartInRange(active, locator[1..]);
    }
  }

  lemma {:induction false} PositionExact(active: seq<Digest>, id: Digest, i: nat)
    requires i <= |active|
    ensures PositionOf(active, id, i).None? <==> id !in active[i..]
    ensures PositionOf(active, id, i).Some? ==>
              var k := PositionOf(active, id, i).value;
              i <= k < |active| && active[k] == id && id !in active[i..k]
    decreases |active| - i
  {
    if i < |active| {
      PositionExact(active, id, i + 1);
      assert active[i..] == [active[i]] + active[i + 1..];
      if active[i] != id && PositionOf(active, id, i + 1).Some? {
        var k := PositionOf(active, id, i + 1).value;
        assert active[i..k] == [active[i]] + active[i + 1..k];
      }
    }
  }

  /** The start is where the first locator entry that is on the chain stands; there is none if no entry is. */
  lemma {:induction false} StartExact(active: seq<Digest>, locator: seq<Digest>)
    ensures StartOf(active, locator).None? <==> forall j :: 0 <= j < |locator| ==> locator[j] !in active
    ensures StartOf(active, locator).Some? ==>
              var k := StartOf(active, locator).value;
              && k < |active|
              && exists j :: && 0 <= j < |locator| && locator[j] == active[k]
                             && forall i :: 0 <= i < j ==> locator[i] !in active
  {
    if locator != [] {
      var first := PositionOf(active, locator[0], 0);
      PositionExact(active, locator[0], 0);
      assert active[0..] == active;
      StartExact(active, locator[1..]);
      if first.None? && StartOf(active, locator[1..]).Some? {
        var k, rest := StartOf(active, locator[1..]).value, locator[1..];
        var j :| 0 <= j < |rest| && rest[j] == active[k] && forall i :: 0 <= i < j ==> rest[i] !in active;
        assert locator[j + 1] == active[k];
        forall i | 0 <= i < j + 1 ensures locator[i] !in active {
          if i > 0 { assert locator[i] == rest[i - 1]; }
        }
      }
      if first.None? && StartOf(active, locator[1..]).None? {
        forall j | 0 <= j < |locator| ensures locator[j] !in active {
          if j > 0 { assert locator[j] == locator[1..][j - 1]; }
        }
      }
    }
  }

  /** The active identifiers right after the first common one, up to the bound or the stop. */
  method InventoryAfter(active: seq<Digest>, locator: seq<Digest>, stop: Digest, max: nat)
    returns (inventory: seq<Digest>)
    ensures max == 0 || StartOf(active, locator).None? ==> inventory == []
    ensures max > 0 && StartOf(active, locator).Some? ==>
              var from, n := StartOf(active, locator).value + 1, |inventory|;
              && from <= |active| && n <= max && from + n <= |active|
              && inventory == active[from..from + n]
              && (n < max && from + n < |active| ==> n > 0 && stop != ZERO_DIGEST && inventory[n - 1] == stop)
              && (forall i :: 0 <= i < n - 1 && stop != ZERO_DIGEST ==> inventory[i] != stop)
  {
    if max == 0 { return []; }
    var start := StartOf(active, locator);
    if start.None? { return []; }
    StartInRange(active, locator);
    var from := start.value + 1;
    inventory := [];
    var i := from;
    while i < |active|
      invariant from <= i <= |active| && i - from < max
      invariant inventory == active[from..i]
      invariant stop != ZERO_DIGEST ==> forall k :: 0 <= k < |inventory| ==> inventory[k] != stop
    {
      inventory := inventory + [active[i]];
      i := i + 1;
      assert inventory == active[from..i];
      if |inventory| == max || (stop != ZERO_DIGEST && active[i - 1] == stop) { return; }
    }
  }

  // ----- the peer's chain -------------------------------------------------------------------------------------

  /** The active chain of a sound core, position by position. */
  lemma ActiveEntry(c: Crypto, p: NetworkParams, k: Core, i: nat)
    requires Sound(c, p, k) && 0 < i < |k.index.activeChain|
    ensures var id := k.index.activeChain[i];
            && id in k.index.blocks && k.index.blocks[id].height == i
            && k.index.blocks[id].parent == k.index.activeChain[i - 1]
            && Known(k.index, k.index.activeChain[i - 1])
  {
    hide Decode, Run, EntrySound;
    PathHeights(c, p, k.index, k.state.tip, i - 1);
    PathLinks(c, p, k.index, k.state.tip, i - 1);
  }

  lemma {:induction false} PathLinks(c: Crypto, p: NetworkParams, ix: Index, id: Digest, i: nat)
    requires Linked(c, p, ix) && Known(ix, id) && i < HeightOf(ix, id)
    ensures var path := Path(c, p, ix, id);
            && path[i] in ix.blocks
            && ix.blocks[path[i]].parent == ([ix.genesis] + path)[i]
    decreases HeightOf(ix, id)
  {
    hide Decode;
    var parent := ix.blocks[id].parent;
    if i < HeightOf(ix, id) - 1 {
      PathLinks(c, p, ix, parent, i);
    } else {
      PathEnds(c, p, ix, parent);
    }
  }

  lemma PathEnds(c: Crypto, p: NetworkParams, ix: Index, id: Digest)
    requires Linked(c, p, ix) && Known(ix, id)
    ensures ([ix.genesis] + Path(c, p, ix, id))[HeightOf(ix, id)] == id
  {
    hide Decode;
  }

  lemma ActiveDistinct(c: Crypto, p: NetworkParams, k: Core, i: nat)
    requires Sound(c, p, k) && i < |k.index.activeChain|
    ensures forall j :: 0 <= j < |k.index.activeChain| && j != i ==> k.index.activeChain[j] != k.index.activeChain[i]
    ensures k.index.activeChain[0] == k.index.genesis
    ensures k.index.activeChain[|k.index.activeChain| - 1] == k.state.tip
  {
    hide Decode, Run, EntrySound, Path;
    PathEnds(c, p, k.index, k.state.tip);
    forall j | 0 <= j < |k.index.activeChain| && j != i ensures k.index.activeChain[j] != k.index.activeChain[i] {
      if j > 0 { ActiveEntry(c, p, k, j); }
      if i > 0 { ActiveEntry(c, p, k, i); }
    }
  }

  // ----- one pulled block -------------------------------------------------------------------------------------

  /** The local tip is the i-th block of the peer's active chain. */
  ghost predicate Aligned(c: Crypto, p: NetworkParams, local: Core, peer: Core, i: nat) {
    && Sound(c, p, local) && Sound(c, p, peer) && Agree(c, p, local.index, peer.index)
    && i < |peer.index.activeChain| && local.state.tip == peer.index.activeChain[i]
  }

  ghost function PeerBlock(c: Crypto, p: NetworkParams, peer: Core, id: Digest): Block
    requires Sound(c, p, peer) && id in peer.index.blocks
  {
    Decode(c, p, peer.index.blocks[id]).value
  }

  /** The block after the local tip is new to the local node. */
  lemma NextIsNew(c: Crypto, p: NetworkParams, local: Core, peer: Core, i: nat)
    requires Aligned(c, p, local, peer, i) && i + 1 < |peer.index.activeChain|
    ensures !Known(local.index, peer.index.activeChain[i + 1])
  {
    hide Decode, Run, Path, Branch, BlockId, TargetWork;
    var id := peer.index.activeChain[i + 1];
    ActiveEntry(c, p, peer, i + 1);
    if Known(local.index, id) {
      assert EntrySound(c, p, local.index, id) && EntrySound(c, p, peer.index, id);
      TargetWorkBound(PeerBlock(c, p, peer, id).challenge.target);
    }
  }

  /** The peer's next block is valid on the local state at any timely clock. */
  lemma NextIsValid(c: Crypto, p: NetworkParams, local: Core, peer: Core, i: nat, at: u64)
    requires GoodParams(p) && Aligned(c, p, local, peer, i) && i + 1 < |peer.index.activeChain|
    requires peer.index.activeChain[i + 1] in peer.index.blocks
    requires TimelyAt(p, PeerBlock(c, p, peer, peer.index.activeChain[i + 1]).challenge.timestamp, at)
    ensures var b := PeerBlock(c, p, peer, peer.index.activeChain[i + 1]);
            && BlockId(c, b) == peer.index.activeChain[i + 1] && b.challenge.previousBlock == local.state.tip
            && local.state.rawTimestamps != [] && Step(c, local.state, b, at).Ok?
  {
    hide Decode, Run, Path, BlockId, TargetWork, Step, Successor, Timeline, E.Validate;
    var id := peer.index.activeChain[i + 1];
    var tip := local.state.tip;
    ActiveEntry(c, p, peer, i + 1);
    assert EntrySound(c, p, peer.index, id);
    SharedBranch(c, p, local.index, peer.index, tip);
    ReplayTip(c, p, local.index, tip);
    var x := ArrivalOf(c, p, peer.index, id);
    RunAppend(c, p, Branch(c, p, peer.index, tip), x);
    StepTimely(c, local.state, x.block, x.now, at);
  }

  /** Submitting the peer's next block succeeds and moves the local tip one step along the peer's chain. */
  lemma PullStep(c: Crypto, p: NetworkParams, local: Core, peer: Core, i: nat, at: u64)
    requires GoodParams(p) && Aligned(c, p, local, peer, i) && i + 1 < |peer.index.activeChain|
    requires peer.index.activeChain[i + 1] in peer.index.blocks
    requires TimelyAt(p, PeerBlock(c, p, peer, peer.index.activeChain[i + 1]).challenge.timestamp, at)
    ensures var b := PeerBlock(c, p, peer, peer.index.activeChain[i + 1]);
            && Accept(c, p, local, b, at).Ok?
            && Aligned(c, p, Accept(c, p, local, b, at).value, peer, i + 1)
  {
    hide Decode, Run, Path, Branch, BlockId, TargetWork, Step, Successor, Timeline, E.Validate, W.EncodeBlock,
         EntrySound, StateTarget;
    var id := peer.index.activeChain[i + 1];
    var b := PeerBlock(c, p, peer, id);
    NextIsNew(c, p, local, peer, i);
    NextIsValid(c, p, local, peer, i, at);
    StepHeader(c, local.state, b, at);
    StepHeight(c, local.state, b, at);
    T.ExtensionActivates(c, p, local, b, at);
    SuccessorTip(c, local.state, b, Step(c, local.state, b, at).value.view);
    AcceptKeepsSound(c, p, local, b, at);
    RL.AcceptFrames(c, p, local, b, at);
    StillAgree(c, p, local, peer, b, at, id);
  }

  lemma StillAgree(c: Crypto, p: NetworkParams, local: Core, peer: Core, b: Block, at: u64, id: Digest)
    requires Sound(c, p, local) && Sound(c, p, peer) && Agree(c, p, local.index, peer.index)
    requires Accept(c, p, local, b, at).Ok? && id == BlockId(c, b) && id in peer.index.blocks
    requires Decode(c, p, peer.index.blocks[id]) == Some(b)
    requires W.EncodeBlock(c.magic, b) == Some(RL.FrameOf(c, b))
    requires W.DecodeBlock(c.magic, RL.FrameOf(c, b), p.networkId) == Some(b)
    ensures Agree(c, p, Accept(c, p, local, b, at).value.index, peer.index)
  {
    hide W.DecodeBlock, Run, Path, Branch, BlockId, TargetWork, Step, Successor, W.EncodeBlock, EntrySound, RL.FrameOf;
    var after := Accept(c, p, local, b, at).value.index;
    assert after.blocks == local.index.blocks[id := after.blocks[id]];
    assert after.blocks[id].canonical == RL.FrameOf(c, b);
  }

  // ----- the pull ---------------------------------------------------------------------------------------------

  datatype SyncError = InventoryLimit | WrongBlock | NonContiguousInventory | NodeFailure(e: NodeError)

  /** Every block of the peer is timely at every reading of the clock. */
  ghost predicate Timely(c: Crypto, p: NetworkParams, peer: Core, clock: nat -> u64)
    requires Sound(c, p, peer)
  {
    forall id, n :: id in peer.index.blocks ==> TimelyAt(p, PeerBlock(c, p, peer, id).challenge.timestamp, clock(n))
  }

  /** On an aligned peer the inventory is the next stretch of its chain, sixteen blocks or up to the tip. */
  lemma FullInventory(c: Crypto, p: NetworkParams, peer: Core, i: nat, n: nat)
    requires Sound(c, p, peer) && i < |peer.index.activeChain| && i + 1 + n <= |peer.index.activeChain|
    requires n <= MAX_BLOCKS_PER_SYNC
    requires n < MAX_BLOCKS_PER_SYNC && i + 1 + n < |peer.index.activeChain| ==>
               n > 0 && peer.index.activeChain[i + n] == peer.state.tip
    ensures n == Min(MAX_BLOCKS_PER_SYNC, |peer.index.activeChain| - 1 - i)
  {
    hide Sound;
    ActiveDistinct(c, p, peer, |peer.index.activeChain| - 1);
  }

  lemma LocatorStarts(c: Crypto, p: NetworkParams, local: Core, peer: Core, i: nat, locator: seq<Digest>)
    requires Aligned(c, p, local, peer, i) && locator != [] && locator[0] == local.state.tip
    ensures StartOf(peer.index.activeChain, locator) == Some(i)
  {
    hide Sound, Agree;
    ActiveDistinct(c, p, peer, i);
    PositionFound(peer.index.activeChain, local.state.tip, 0, i);
  }

  /** What a static peer answers to the locator of the local chain. */
  method RequestInventory(c: Crypto, p: NetworkParams, local: Index, ghost live: State, peer: Core, ghost i: nat)
    returns (inventory: seq<Digest>)
    requires Sound(c, p, Core(local, live)) && Sound(c, p, peer)
    ensures |inventory| <= MAX_BLOCKS_PER_SYNC
    ensures forall k :: 0 <= k < |inventory| ==> inventory[k] in peer.index.blocks
    ensures Aligned(c, p, Core(local, live), peer, i) ==>
              var n := |inventory|;
              && i + 1 + n <= |peer.index.activeChain| && inventory == peer.index.activeChain[i + 1..i + 1 + n]
              && n == Min(MAX_BLOCKS_PER_SYNC, |peer.index.activeChain| - 1 - i)
  {
    hide Sound, Agree, Positions, StartOf, At;
    ActiveDistinct(c, p, Core(local, live), 0) by { SoundChain(c, p, Core(local, live)); }
    SoundChain(c, p, Core(local, live));
    var locator := BlockLocator(local.activeChain, MAX_BLOCKS_PER_SYNC);
    inventory := InventoryAfter(peer.index.activeChain, locator, peer.state.tip, MAX_BLOCKS_PER_SYNC);
    forall k | 0 <= k < |inventory| ensures inventory[k] in peer.index.blocks {
      ActiveEntry(c, p, peer, StartOf(peer.index.activeChain, locator).value + 1 + k);
    }
    if Aligned(c, p, Core(local, live), peer, i) {
      LocatorStarts(c, p, Core(local, live), peer, i, locator);
      FullInventory(c, p, peer, i, |inventory|);
    }
  }

  lemma SoundChain(c: Crypto, p: NetworkParams, k: Core)
    requires Sound(c, p, k)
    ensures k.index.activeChain != []
  {
    hide IndexSound, Run;
  }

  /** Asking the peer for one of its blocks. */
  method RequestBlock(c: Crypto, p: NetworkParams, peer: Core, id: Digest) returns (b: Block)
    requires Sound(c, p, peer) && id in peer.index.blocks
    ensures b == PeerBlock(c, p, peer, id) && W.EncodeBlock(c.magic, b).Some?
  {
    hide W.DecodeBlock, W.EncodeBlock, Run, EntrySound;
    var entry := peer.index.blocks[id];
    var decoded := Wire.DecodeBlockFrame(c.magic, entry.canonical, p.networkId);
    b := decoded.value;
  }

  /** The peer's next block, requested right after the local tip. */
  ghost predicate Due(c: Crypto, p: NetworkParams, local: Core, peer: Core, i: nat, requested: Digest,
                      previous: Option<Digest>, at: u64)
    requires Sound(c, p, peer) && requested in peer.index.blocks
  {
    && Aligned(c, p, local, peer, i) && i + 1 < |peer.index.activeChain| && requested == peer.index.activeChain[i + 1]
    && TimelyAt(p, PeerBlock(c, p, peer, requested).challenge.timestamp, at)
    && (previous.None? || previous.value == peer.index.activeChain[i])
  }

  /** One inventory item: skipped if known, otherwise fetched, checked and submitted. */
  method PullOne(node: N.Node, peer: Core, requested: Digest, previous: Option<Digest>, at: u64, ghost i: nat)
    returns (r: Result<bool, SyncError>)
    requires node.Valid() && !node.storageFaulted && Sound(node.crypto, node.params, peer)
            && requested in peer.index.blocks
    modifies node, node.state
    ensures node.Valid() && !node.storageFaulted && (node.state == old(node.state) || fresh(node.state))
    ensures Due(node.crypto, node.params, old(node.Core()), peer, i, requested, previous, at) ==>
              r == Ok(true) && Aligned(node.crypto, node.params, node.Core(), peer, i + 1)
  {
    hide Sound, Aligned, N.Node.Valid, Accept, W.EncodeBlock, GoodParams, BlockId, TimelyAt, PeerBlock;
    var c, p := node.crypto, node.params;
    NodeIsSound(node);
    ghost var before := node.Core();
    ghost var due := Due(c, p, before, peer, i, requested, previous, at);
    if due { PulledFacts(c, p, before, peer, i, at); }
    if Known(node.index, requested) { return Ok(false); }
    var block := RequestBlock(c, p, peer, requested);
    r := TakeReply(node, requested, block, previous, at);
  }

  /** What a reply must be: the block asked for, right after the one before it or after any known one. */
  ghost predicate InOrder(c: Crypto, ix: Index, requested: Digest, b: Block, previous: Option<Digest>) {
    && BlockId(c, b) == requested
    && if previous.Some? then b.challenge.previousBlock == previous.value else Known(ix, b.challenge.previousBlock)
  }

  /** Any reply at all to a request: what is out of order or invalid is refused without change. */
  method TakeReply(node: N.Node, requested: Digest, b: Block, previous: Option<Digest>, at: u64)
    returns (r: Result<bool, SyncError>)
    requires node.Valid() && !node.storageFaulted
    modifies node, node.state
    ensures node.Valid() && !node.storageFaulted && (node.state == old(node.state) || fresh(node.state))
    ensures Sound(node.crypto, node.params, old(node.Core()))
    ensures BlockId(node.crypto, b) != requested ==> r == Err(WrongBlock)
    ensures BlockId(node.crypto, b) == requested && !InOrder(node.crypto, old(node.index), requested, b, previous) ==>
              r == Err(NonContiguousInventory)
    ensures InOrder(node.crypto, old(node.index), requested, b, previous) ==>
              if W.EncodeBlock(node.crypto.magic, b).None? then r == Err(NodeFailure(WireFailure))
              else match Accept(node.crypto, node.params, old(node.Core()), b, at)
                   case Err(e) => r == Err(NodeFailure(e))
                   case Ok(k) =>
                     && r == Ok(true) && node.Core() == k
                     && node.accepted == old(node.accepted) + [Arrival(b, at)]
    ensures r.Err? ==> node.Core() == old(node.Core()) && node.accepted == old(node.accepted)
  {
    hide Sound, N.Node.Valid, Accept, W.EncodeBlock, GoodParams, BlockId;
    NodeIsSound(node);
    if BlockId(node.crypto, b) != requested { return Err(WrongBlock); }
    var parent := b.challenge.previousBlock;
    var ordered := if previous.Some? then parent == previous.value else Known(node.index, parent);
    if !ordered { return Err(NonContiguousInventory); }
    var submitted := node.SubmitBlock(b, at, Written);
    if submitted.Err? { return Err(NodeFailure(submitted.error)); }
    return Ok(true);
  }

  /** Acceptance only adds: known blocks stay known, and the active work never falls. */
  lemma AcceptAdds(c: Crypto, p: NetworkParams, k: Core, b: Block, at: u64)
    requires Sound(c, p, k) && Accept(c, p, k, b, at).Ok?
    ensures Grows(k.index, Accept(c, p, k, b, at).value.index)
            && Known(Accept(c, p, k, b, at).value.index, BlockId(c, b))
  {
    hide Step, Successor, BlockId, W.EncodeBlock, Run, Path, Branch, TargetWork;
  }

  ghost predicate Grows(before: Index, after: Index) {
    && before.activeWork <= after.activeWork && before.genesis == after.genesis
    && before.blocks.Keys <= after.blocks.Keys
  }

  /** The blocks were asked for. */
  ghost predicate AskedFor(c: Crypto, inventory: seq<Digest>, arrivals: seq<Arrival>) {
    forall j :: 0 <= j < |arrivals| ==> BlockId(c, arrivals[j].block) in inventory
  }

  /**
   * One bounded pull from any peer whatever. It is refused beyond sixteen items; otherwise at most one block is
   * accepted for each item, nothing known is lost, the active work never falls, and on success every item is known.
   */
  method PullFromAny(node: N.Node, inventory: seq<Digest>, reply: nat -> Block, clock: nat -> u64)
    returns (r: Result<nat, SyncError>, ghost arrivals: seq<Arrival>)
    requires node.Valid() && !node.storageFaulted
    modifies node, node.state
    ensures node.Valid() && !node.storageFaulted && (node.state == old(node.state) || fresh(node.state))
    ensures |inventory| > MAX_BLOCKS_PER_SYNC ==> r == Err(InventoryLimit) && arrivals == []
    ensures node.accepted == old(node.accepted) + arrivals && |arrivals| <= MAX_BLOCKS_PER_SYNC
    ensures AskedFor(node.crypto, inventory, arrivals) && Grows(old(node.index), node.index)
    ensures arrivals == [] ==> node.Core() == old(node.Core())
    ensures r.Ok? ==> r.value == |arrivals| && forall k :: 0 <= k < |inventory| ==> Known(node.index, inventory[k])
  {
    hide Sound, N.Node.Valid, Accept, W.EncodeBlock, BlockId;
    arrivals := [];
    if |inventory| > MAX_BLOCKS_PER_SYNC { return Err(InventoryLimit), arrivals; }
    var c, p := node.crypto, node.params;
    var accepted := 0;
    var previous: Option<Digest> := None;
    var k := 0;
    while k < |inventory|
      invariant 0 <= k <= |inventory| && accepted == |arrivals| <= k && node.crypto == c && node.params == p
      invariant node.Valid() && !node.storageFaulted && (node.state == old(node.state) || fresh(node.state))
      invariant node.accepted == old(node.accepted) + arrivals && AskedFor(c, inventory, arrivals)
      invariant Grows(old(node.index), node.index) && (arrivals == [] ==> node.Core() == old(node.Core()))
      invariant forall j :: 0 <= j < k ==> Known(node.index, inventory[j])
    {
      if !Known(node.index, inventory[k]) {
        ghost var before := node.Core();
        var taken := TakeReply(node, inventory[k], reply(k), previous, clock(k));
        if taken.Err? { return Err(taken.error), arrivals; }
        AcceptAdds(c, p, before, reply(k), clock(k));
        accepted := accepted + 1;
        arrivals := arrivals + [Arrival(reply(k), clock(k))];
      }
      previous := Some(inventory[k]);
      k := k + 1;
    }
    return Ok(accepted), arrivals;
  }

  /**
   * One bounded pull from a static valid peer. When the local tip lies on the peer's active chain, it
   * accepts the next sixteen blocks, or as many as there are, in parent order.
   */
  method PullBlocks(node: N.Node, peer: Core, clock: nat -> u64, ghost i: nat) returns (r: Result<nat, SyncError>)
    requires node.Valid() && !node.storageFaulted && Sound(node.crypto, node.params, peer)
    modifies node, node.state
    ensures node.Valid() && !node.storageFaulted && (node.state == old(node.state) || fresh(node.state))
    ensures Aligned(node.crypto, node.params, old(node.Core()), peer, i)
            && Timely(node.crypto, node.params, peer, clock) ==>
              var n := Min(MAX_BLOCKS_PER_SYNC, |peer.index.activeChain| - 1 - i);
              r == Ok(n) && Aligned(node.crypto, node.params, node.Core(), peer, i + n)
  {
    hide Sound, Aligned, N.Node.Valid, GoodParams, TimelyAt, PeerBlock;
    var c, p := node.crypto, node.params;
    NodeIsSound(node);
    ghost var ready := Aligned(c, p, node.Core(), peer, i) && Timely(c, p, peer, clock);
    var inventory := RequestInventory(c, p, node.index, node.state.View(), peer, i);
    var accepted := 0;
    var previous: Option<Digest> := None;
    var k := 0;
    while k < |inventory|
      invariant 0 <= k <= |inventory|
      invariant node.Valid() && !node.storageFaulted && (node.state == old(node.state) || fresh(node.state))
      invariant ready ==> Aligned(c, p, node.Core(), peer, i + k) && accepted == k
      invariant previous == if k == 0 then None else Some(inventory[k - 1])
    {
      var pulled := PullOne(node, peer, inventory[k], previous, clock(k), i + k);
      if pulled.Err? { return Err(pulled.error); }
      if pulled.value { accepted := accepted + 1; }
      previous := Some(inventory[k]);
      k := k + 1;
    }
    return Ok(accepted);
  }

  /** Pulls needed for a gap. */
  function PullsFor(gap: nat): nat { (gap + MAX_BLOCKS_PER_SYNC - 1) / MAX_BLOCKS_PER_SYNC }

  /** Repeated pulls reach the peer's tip in exactly one pull per started sixteen blocks of gap. */
  method SyncToTip(node: N.Node, peer: Core, clock: nat -> u64, ghost i: nat) returns (pulls: nat,
      failed: Option<SyncError>)
    requires node.Valid() && !node.storageFaulted && Sound(node.crypto, node.params, peer)
    requires Aligned(node.crypto, node.params, node.Core(), peer, i) && Timely(node.crypto, node.params, peer, clock)
    modifies node, node.state
    ensures node.Valid() && failed.None?
    ensures node.state.tip == peer.state.tip
    ensures pulls == PullsFor(|peer.index.activeChain| - 1 - i)
  {
    hide Sound, N.Node.Valid, GoodParams, Timely;
    var c, p := node.crypto, node.params;
    ghost var at := i;
    ActiveDistinct(c, p, peer, i);
    pulls := 0;
    failed := None;
    while node.state.tip != peer.state.tip
      invariant node.Valid() && !node.storageFaulted && (node.state == old(node.state) || fresh(node.state))
      invariant failed.None? && Aligned(c, p, node.Core(), peer, at)
      invariant pulls + PullsFor(|peer.index.activeChain| - 1 - at) == PullsFor(|peer.index.activeChain| - 1 - i)
      decreases |peer.index.activeChain| - at
    {
      var pulled := PullBlocks(node, peer, clock, at);
      at := at + Min(MAX_BLOCKS_PER_SYNC, |peer.index.activeChain| - 1 - at);
      pulls := pulls + 1;
    }
    ActiveDistinct(c, p, peer, |peer.index.activeChain| - 1);
  }

  lemma NodeIsSound(node: N.Node)
    requires node.Valid()
    ensures GoodParams(node.params) && Sound(node.crypto, node.params, node.Core())
  {
    hide Sound, GoodParams;
    RunIsSound(node.crypto, node.params, node.accepted);
  }

  /** Everything the pull loop uses about the next block. */
  lemma PulledFacts(c: Crypto, p: NetworkParams, local: Core, peer: Core, i: nat, at: u64)
    requires GoodParams(p) && Aligned(c, p, local, peer, i) && i + 1 < |peer.index.activeChain|
    requires peer.index.activeChain[i + 1] in peer.index.blocks
    requires Sound(c, p, local) && Sound(c, p, peer)
    requires TimelyAt(p, PeerBlock(c, p, peer, peer.index.activeChain[i + 1]).challenge.timestamp, at)
    ensures var id := peer.index.activeChain[i + 1];
            var b := PeerBlock(c, p, peer, id);
            && !Known(local.index, id) && BlockId(c, b) == id
            && b.challenge.previousBlock == peer.index.activeChain[i] && Known(local.index, b.challenge.previousBlock)
            && Accept(c, p, local, b, at).Ok?
            && Aligned(c, p, Accept(c, p, local, b, at).value, peer, i + 1)
  {
    hide IndexSound, Accept, Step, Run, BlockId, Decode, Path, Branch, Agree;
    NextIsNew(c, p, local, peer, i);
    NextIsValid(c, p, local, peer, i, at);
    PullStep(c, p, local, peer, i, at);
  }

  // ----- relaying from a known side tip -----------------------------------------------------------------------------

  /** The active-chain position of the nearest ancestor of a known block. */
  ghost function ForkPoint(c: Crypto, p: NetworkParams, k: Core, id: Digest): nat
    requires Sound(c, p, k) && Known(k.index, id)
    decreases HeightOf(k.index, id)
  {
    var at := PositionOf(k.index.activeChain, id, 0);
    if at.Some? then at.value
    else if id in k.index.blocks then ForkPoint(c, p, k, k.index.blocks[id].parent)
    else 0
  }

  lemma GenesisIsActive(c: Crypto, p: NetworkParams, k: Core)
    requires Sound(c, p, k)
    ensures PositionOf(k.index.activeChain, k.index.genesis, 0) == Some(0)
  {
    hide Sound;
    SoundChain(c, p, k);
    ActiveDistinct(c, p, k, 0);
    PositionFound(k.index.activeChain, k.index.genesis, 0, 0);
  }

  /** Up to the fork point the block's branch is the active chain; right after it they part. */
  lemma {:induction false} ForkPointParts(c: Crypto, p: NetworkParams, k: Core, id: Digest)
    requires Sound(c, p, k) && Known(k.index, id)
    ensures var f, path := ForkPoint(c, p, k, id), [k.index.genesis] + Path(c, p, k.index, id);
            && f < |path| && f < |k.index.activeChain|
            && path[..f + 1] == k.index.activeChain[..f + 1]
            && (f + 1 < |path| ==> PositionOf(k.index.activeChain, path[f + 1], 0).None?)
    decreases HeightOf(k.index, id)
  {
    hide Decode, Run, EntrySound;
    GenesisIsActive(c, p, k);
    var at := PositionOf(k.index.activeChain, id, 0);
    if at.Some? {
      PositionInRange(k.index.activeChain, id, 0);
      ActivePrefix(c, p, k, at.value);
    } else {
      var parent := k.index.blocks[id].parent;
      ForkPointParts(c, p, k, parent);
      var f := ForkPoint(c, p, k, parent);
      var above, path := [k.index.genesis] + Path(c, p, k.index, parent), [k.index.genesis] + Path(c, p, k.index, id);
      assert path == above + [id];
      assert path[..f + 1] == above[..f + 1];
    }
  }

  /** An active block's path is the active chain up to it. */
  lemma {:induction false} ActivePrefix(c: Crypto, p: NetworkParams, k: Core, i: nat)
    requires Sound(c, p, k) && i < |k.index.activeChain|
    ensures Known(k.index, k.index.activeChain[i])
    ensures [k.index.genesis] + Path(c, p, k.index, k.index.activeChain[i]) == k.index.activeChain[..i + 1]
  {
    hide Sound, Decode, Linked;
    SoundLinked(c, p, k);
    if i == 0 {
      ActiveDistinct(c, p, k, 0);
    } else {
      ActiveEntry(c, p, k, i);
      ActivePrefix(c, p, k, i - 1);
      var chain := k.index.activeChain;
      assert chain[..i + 1] == chain[..i] + [chain[i]];
      assert k.index.activeChain[i] != k.index.genesis by { ActiveDistinct(c, p, k, 0); }
    }
  }

  /** One step of the walk back. */
  lemma ForkStep(c: Crypto, p: NetworkParams, k: Core, id: Digest)
    requires Sound(c, p, k) && Known(k.index, id)
    ensures var at := PositionOf(k.index.activeChain, id, 0);
            if at.Some? then ForkPoint(c, p, k, id) == at.value
            else id in k.index.blocks && Known(k.index, k.index.blocks[id].parent)
                 && HeightOf(k.index, id) == HeightOf(k.index, k.index.blocks[id].parent) + 1
                 && ForkPoint(c, p, k, id) == ForkPoint(c, p, k, k.index.blocks[id].parent)
  {
    hide Sound, Decode;
    SoundLinked(c, p, k);
    GenesisIsActive(c, p, k);
  }

  /** The walk back from a known tip always finds the active chain within its bound. */
  method RelayInventoryAfter(c: Crypto, p: NetworkParams, k: Core, peerTip: Digest, max: nat) returns (r: seq<Digest>)
    requires Sound(c, p, k)
    ensures max == 0 || !Known(k.index, peerTip) ==> r == []
    ensures max > 0 && Known(k.index, peerTip) ==>
              var from := ForkPoint(c, p, k, peerTip) + 1;
              from <= |k.index.activeChain|
                  && r == k.index.activeChain[from..from + Min(max, |k.index.activeChain| - from)]
  {
    hide Sound, Path, Linked, ForkPoint;
    if max == 0 || !Known(k.index, peerTip) { return []; }
    ForkPointParts(c, p, k, peerTip);
    SoundLinked(c, p, k);
    PathFits(c, p, k.index, peerTip);
    var cursor := peerTip;
    var position: Option<nat> := None;
    var steps := 0;
    while steps <= |k.index.blocks| && position.None?
      invariant Known(k.index, cursor)
      invariant position.None? ==> ForkPoint(c, p, k, cursor) == ForkPoint(c, p, k, peerTip)
                                   && HeightOf(k.index, cursor) + steps == HeightOf(k.index, peerTip)
      invariant position.Some? ==> position.value == ForkPoint(c, p, k, peerTip)
      decreases |k.index.blocks| - steps, position.None?
    {
      ForkStep(c, p, k, cursor);
      position := PositionOf(k.index.activeChain, cursor, 0);
      if position.None? {
        if cursor !in k.index.blocks { return []; }
        cursor := k.index.blocks[cursor].parent;
        steps := steps + 1;
      }
    }
    if position.None? { return []; }
    var from := position.value + 1;
    r := k.index.activeChain[from..from + Min(max, |k.index.activeChain| - from)];
  }
}
