/** The linear chain state: validation to a token, commitment with a staleness check, and runs. */
module Chain {
  import opened Prelude
  import opened Ledger
  import opened Consensus
  import opened Utxo
  import opened Overlay
  import opened BlockRules
  import opened D = Difficulty
  import E = Economics
  import W = WireObjects
  import Wire

  /** The chain state as a value. */
  datatype State = State(
    params: NetworkParams,
    utxos: UtxoSet,
    history: seq<HeaderWork>,
    rawTimestamps: seq<u64>,
    tip: Digest,
    nextHeight: u64)

  datatype ValidatedBlock = ValidatedBlock(
    params: NetworkParams,
    baseTip: Digest,
    baseNextHeight: u64,
    baseExpectedTarget: u256,
    baseMedianTimePast: u64,
    baseHistoryLen: nat,
    baseTimestampLen: nat,
    delta: UtxoDelta,
    fees: u64,
    timestamp: u64,
    effectiveTimestamp: u64,
    target: u256,
    nextTip: Digest,
    nextHeight: u64)

  function Genesis(p: NetworkParams): State {
    State(p, EMPTY, [HeaderWork(p.genesisTimestamp, p.powLimit)], [p.genesisTimestamp], p.genesisHash, 1)
  }

  ghost function StateTarget(s: State): Result<int, DifficultyError> { ExpectedTarget(s.history, s.params.powLimit) }

  // ----- validation -----------------------------------------------------------------------------------

  /** Header checks against the chain, before the block body is looked at. */
  ghost function ContextRules(s: State, b: Block, now: u64): Result<(), ChainError>
    requires s.rawTimestamps != []
  {
    if b.version != BLOCK_VERSION then Err(UnsupportedBlockVersion)
    else if b.challenge.networkId != s.params.networkId then Err(WrongNetwork)
    else if b.challenge.height != s.nextHeight then Err(UnexpectedHeight(s.nextHeight, b.challenge.height))
    else if s.nextHeight + 1 > U64_MAX then Err(HeightExhausted)
    else if b.challenge.height + COINBASE_MATURITY > U64_MAX then Err(HeightExhausted)
    else if b.challenge.previousBlock != s.tip then Err(PreviousBlock)
    else if b.challenge.timestamp <= MedianTimestamp(s.rawTimestamps) then Err(TimestampNotAfterMedian)
    else if now + s.params.maxFutureOffset > U64_MAX then Err(InvalidValidationTime)
    else if b.challenge.timestamp > now + s.params.maxFutureOffset then Err(TimestampTooFarInFuture)
    else if StateTarget(s).Err? then Err(DifficultyFailure(StateTarget(s).error))
    else if b.challenge.target != StateTarget(s).value then Err(UnexpectedTarget)
    else Ok(())
  }

  predicate AllEncode(c: Crypto, ts: seq<Transaction>) {
    forall i :: 0 <= i < |ts| ==> W.EncodeTransaction(c.magic, ts[i]).Some?
  }

  /** A transaction set at the next height: its burned fees and resource use, without any block. */
  function ValidateSet(c: Crypto, s: State, ts: seq<Transaction>): Result<(u64, Resources), ChainError> {
    if |ts| > MAX_BLOCK_TRANSACTIONS then Err(BlockTransactionLimit)
    else
      var used :- TransactionResources(ts);
      if FirstHeaderError(ts, 0, s.params.networkId).Some? then Err(FirstHeaderError(ts, 0, s.params.networkId).value)
      else if !AllEncode(c, ts) then Err(BlockEncoding)
      else
        var applied :- ApplyTransactions(c, s.utxos, ts, |ts|, s.nextHeight, s.params.networkId);
        Ok((applied.fee, used))
  }

  /** The successor a block leads to, when it is valid. */
  ghost function Step(c: Crypto, s: State, b: Block, now: u64): Result<Outcome, ChainError>
    requires s.rawTimestamps != []
  {
    var _ :- ContextRules(s, b, now);
    ValidateUtxos(c, s.params, s.utxos, b)
  }

  ghost function Successor(c: Crypto, s: State, b: Block, view: UtxoSet): State
    requires s.nextHeight < U64_MAX
  {
    var raw := s.rawTimestamps + [b.challenge.timestamp];
    State(s.params, view, s.history + [HeaderWork(MedianTimestamp(raw), b.challenge.target)], raw,
          BlockId(c, b), s.nextHeight + 1)
  }

  /** The median of the last ten timestamps and the new one is the median of the extended chain. */
  lemma EffectiveTimestamp(raw: seq<u64>, t: u64)
    ensures var start := if |raw| > MEDIAN_TIME_WINDOW - 1 then |raw| - (MEDIAN_TIME_WINDOW - 1) else 0;
            MedianTimestamp(raw[start..] + [t]) == MedianTimestamp(raw + [t])
  {
    hide Sorted;
    var start := if |raw| > MEDIAN_TIME_WINDOW - 1 then |raw| - (MEDIAN_TIME_WINDOW - 1) else 0;
    assert TimeWindow(raw + [t]) == raw[start..] + [t] == TimeWindow(raw[start..] + [t]);
  }

  // ----- commitment -----------------------------------------------------------------------------------

  /** Everything the staleness check compares. */
  ghost predicate Fresh(s: State, v: ValidatedBlock)
    requires s.rawTimestamps != []
  {
    && s.params == v.params
    && s.tip == v.baseTip
    && s.nextHeight == v.baseNextHeight
    && |s.history| == v.baseHistoryLen
    && |s.rawTimestamps| == v.baseTimestampLen
    && MedianTimestamp(s.rawTimestamps) == v.baseMedianTimePast
    && StateTarget(s).Ok? && StateTarget(s).value == v.baseExpectedTarget
    && Matches(v.delta, s.utxos)
  }

  ghost function Committed(s: State, v: ValidatedBlock): State {
    State(s.params, Patch(s.utxos, v.delta), s.history + [HeaderWork(v.effectiveTimestamp, v.target)],
          s.rawTimestamps + [v.timestamp], v.nextTip, v.nextHeight)
  }

  /** The token validation hands out for a block with this outcome. */
  ghost predicate TokenFor(c: Crypto, s: State, b: Block, view: UtxoSet, fees: u64, v: ValidatedBlock)
    requires s.rawTimestamps != []
  {
    && v.params == s.params && v.baseTip == s.tip && v.baseNextHeight == s.nextHeight
    && v.baseHistoryLen == |s.history| && v.baseTimestampLen == |s.rawTimestamps|
    && v.baseMedianTimePast == MedianTimestamp(s.rawTimestamps)
    && StateTarget(s).Ok? && StateTarget(s).value == v.baseExpectedTarget
    && v.delta == Diff(s.utxos, view) && v.fees == fees
    && v.timestamp == b.challenge.timestamp && v.target == b.challenge.target
    && v.effectiveTimestamp == MedianTimestamp(s.rawTimestamps + [b.challenge.timestamp])
    && v.nextTip == BlockId(c, b) && v.nextHeight == s.nextHeight + 1
  }

  /** A token always commits on the state it came from, and gives exactly the successor. */
  lemma TokenCommits(c: Crypto, s: State, b: Block, view: UtxoSet, fees: u64, v: ValidatedBlock)
    requires s.rawTimestamps != [] && s.nextHeight < U64_MAX
    requires TokenFor(c, s, b, view, fees, v)
    ensures Fresh(s, v) && Committed(s, v) == Successor(c, s, b, view)
  {
    hide Diff, Matches, Patch, MedianTimestamp, ExpectedTarget;
    DiffPatches(s.utxos, view);
  }

  /** Chain state updated in place. */
  class ChainState {
    const crypto: Crypto
    const params: NetworkParams
    var utxos: UtxoSet
    var history: seq<HeaderWork>
    var rawTimestamps: seq<u64>
    var tip: Digest
    var nextHeight: u64

    ghost predicate Valid()
      reads this
    {
      rawTimestamps != []
    }

    ghost function View(): State
      reads this
    {
      State(params, utxos, history, rawTimestamps, tip, nextHeight)
    }

    constructor (c: Crypto, p: NetworkParams)
      ensures Valid() && View() == Genesis(p) && crypto == c
    {
      crypto, params := c, p;
      utxos := EMPTY;
      history := [HeaderWork(p.genesisTimestamp, p.powLimit)];
      rawTimestamps := [p.genesisTimestamp];
      tip, nextHeight := p.genesisHash, 1;
    }

    method CheckContext(b: Block, now: u64) returns (r: Result<u256, ChainError>)
      requires Valid()
      ensures match r
              case Ok(target) => ContextRules(View(), b, now) == Ok(()) && StateTarget(View()).value == target
              case Err(e) => ContextRules(View(), b, now) == Err(e)
    {
      hide MedianTimestamp, ExpectedTarget;
      if b.version != BLOCK_VERSION { return Err(UnsupportedBlockVersion); }
      if b.challenge.networkId != params.networkId { return Err(WrongNetwork); }
      if b.challenge.height != nextHeight { return Err(UnexpectedHeight(nextHeight, b.challenge.height)); }
      if nextHeight + 1 > U64_MAX { return Err(HeightExhausted); }
      if b.challenge.height + COINBASE_MATURITY > U64_MAX { return Err(HeightExhausted); }
      if b.challenge.previousBlock != tip { return Err(PreviousBlock); }
      if b.challenge.timestamp <= MedianTimestamp(rawTimestamps) { return Err(TimestampNotAfterMedian); }
      if now + params.maxFutureOffset > U64_MAX { return Err(InvalidValidationTime); }
      if b.challenge.timestamp > now + params.maxFutureOffset { return Err(TimestampTooFarInFuture); }
      var target := NextWorkTarget(history, params.powLimit);
      if target.Err? { return Err(DifficultyFailure(target.error)); }
      if b.challenge.target != target.value { return Err(UnexpectedTarget); }
      return Ok(target.value);
    }

    /** Validation changes nothing and returns a token describing the transition. */
    method ValidateBlock(b: Block, now: u64) returns (r: Result<ValidatedBlock, ChainError>)
      requires Valid()
      ensures match r
              case Err(e) => Step(crypto, View(), b, now) == Err(e)
              case Ok(v) =>
                var o := Step(crypto, View(), b, now);
                && o.Ok? && nextHeight < U64_MAX
                && TokenFor(crypto, View(), b, o.value.view, o.value.fees, v)
    {
      hide MedianTimestamp, ExpectedTarget, ValidateUtxos, Diff;
      var target := CheckContext(b, now);
      if target.Err? { return Err(target.error); }
      var checked := ValidateDelta(crypto, params, utxos, b);
      if checked.Err? { return Err(checked.error); }
      var start := if |rawTimestamps| > MEDIAN_TIME_WINDOW - 1 then |rawTimestamps| - (MEDIAN_TIME_WINDOW - 1) else 0;
      EffectiveTimestamp(rawTimestamps, b.challenge.timestamp);
      var effective := MedianTimestamp(rawTimestamps[start..] + [b.challenge.timestamp]);
      return Ok(ValidatedBlock(params, tip, nextHeight, target.value, MedianTimestamp(rawTimestamps), |history|,
                               |rawTimestamps|, checked.value.1, checked.value.0, b.challenge.timestamp, effective,
                               b.challenge.target, BlockId(crypto, b), nextHeight + 1));
    }

    method ValidateTransactionsForNextBlock(ts: seq<Transaction>) returns (r: Result<(u64, Resources), ChainError>)
      requires Valid()
      ensures r == ValidateSet(crypto, View(), ts)
    {
      hide TransactionResources, FirstHeaderError, W.EncodeTransaction, ApplyTransactions;
      if |ts| > MAX_BLOCK_TRANSACTIONS { return Err(BlockTransactionLimit); }
      var used := ValidateTransactionResources(ts);
      if used.Err? { return Err(used.error); }
      var header := CheckHeaders(ts, params.networkId);
      if header.Some? { return Err(header.value); }
      var i := 0;
      while i < |ts|
        invariant 0 <= i <= |ts|
        invariant forall k :: 0 <= k < i ==> W.EncodeTransaction(crypto.magic, ts[k]).Some?
      {
        var encoded := Wire.EncodeTransactionFrame(crypto.magic, ts[i]);
        if encoded.None? { return Err(BlockEncoding); }
        i := i + 1;
      }
      var overlay := new UtxoOverlay(utxos);
      var charge := overlay.ApplyAll(crypto, ts, nextHeight, params.networkId);
      if charge.Err? { return Err(charge.error); }
      return Ok((charge.value.fee, used.value));
    }

    /** A stale token is refused before anything changes. */
    method CommitValidated(v: ValidatedBlock) returns (r: Result<u64, ChainError>)
      requires Valid()
      modifies this
      ensures Valid()
      ensures r == if Fresh(old(View()), v) then Ok(v.fees) else Err(StaleValidatedBlock)
      ensures View() == if r.Ok? then Committed(old(View()), v) else old(View())
    {
      hide MedianTimestamp, ExpectedTarget, Matches, Patch;
      var target := NextWorkTarget(history, params.powLimit);
      if params != v.params || tip != v.baseTip || nextHeight != v.baseNextHeight || |history| != v.baseHistoryLen
         || |rawTimestamps| != v.baseTimestampLen || MedianTimestamp(rawTimestamps) != v.baseMedianTimePast
         || target.Err? || target.value != v.baseExpectedTarget || !Matches(v.delta, utxos)
      {
        return Err(StaleValidatedBlock);
      }
      utxos := ApplyDelta(v.delta, utxos);
      rawTimestamps := rawTimestamps + [v.timestamp];
      history := history + [HeaderWork(v.effectiveTimestamp, v.target)];
      tip := v.nextTip;
      nextHeight := v.nextHeight;
      return Ok(v.fees);
    }

    /** Validation followed by commitment never fails half way. */
    method ValidateAndApply(b: Block, now: u64) returns (r: Result<u64, ChainError>)
      requires Valid()
      modifies this
      ensures Valid()
      ensures var o := Step(crypto, old(View()), b, now);
              match r
              case Err(e) => o == Err(e) && View() == old(View())
              case Ok(fees) =>
                o.Ok? && fees == o.value.fees && old(nextHeight) < U64_MAX
                && View() == Successor(crypto, old(View()), b, o.value.view)
    {
      hide Step, Fresh, Committed, TokenFor, MedianTimestamp;
      var v := ValidateBlock(b, now);
      if v.Err? { return Err(v.error); }
      ghost var o := Step(crypto, View(), b, now).value;
      TokenCommits(crypto, View(), b, o.view, o.fees, v.value);
      assert v.value.fees == o.fees by { TokenFees(crypto, View(), b, o.view, o.fees, v.value); }
      r := CommitValidated(v.value);
    }
  }

  /** A chain starts only from valid parameters. */
  method NewChainState(c: Crypto, p: NetworkParams) returns (r: Result<ChainState, ChainError>)
    ensures r.Ok? <==> ValidParams(c, p)
    ensures r.Ok? ==> fresh(r.value) && r.value.Valid() && r.value.View() == Genesis(p) && r.value.crypto == c
    ensures r.Ok? ==> E.Validate(p.policy).Ok? && Timeline(Genesis(p))
  {
    hide E.Validate, Timeline;
    if !ValidParams(c, p) { return Err(InvalidNetworkParams); }
    GenesisTimeline(p);
    var state := new ChainState(c, p);
    return Ok(state);
  }

  lemma TokenFees(c: Crypto, s: State, b: Block, view: UtxoSet, fees: u64, v: ValidatedBlock)
    requires s.rawTimestamps != [] && TokenFor(c, s, b, view, fees, v)
    ensures v.fees == fees
  {
    hide MedianTimestamp, Diff, ExpectedTarget;
  }

  // ----- invariants of reachable states ---------------------------------------------------------------

  /**
   * One entry per height, effective timestamps that never fall and end at the median of the raw
   * timestamps, targets in 1..powLimit.
   */
  ghost predicate Timeline(s: State) {
    && |s.rawTimestamps| == |s.history| == s.nextHeight
    && s.history != []
    && Ordered(s.history)
    && TargetsInRange(s.history, s.params.powLimit)
    && s.history[|s.history| - 1].timestamp == MedianTimestamp(s.rawTimestamps)
  }

  ghost predicate TargetsInRange(h: seq<HeaderWork>, powLimit: int) {
    forall i :: 0 <= i < |h| ==> 1 <= h[i].target <= powLimit
  }

  lemma GenesisTimeline(p: NetworkParams)
    requires p.powLimit > 0
    ensures Timeline(Genesis(p))
  {
    var s := Genesis(p);
    assert TimeWindow(s.rawTimestamps) == [p.genesisTimestamp];
    assert Sorted([p.genesisTimestamp]) == [p.genesisTimestamp] by {
      var t := [p.genesisTimestamp];
      assert t[1..] == [];
    }
  }

  /** The difficulty rule never fails on such a state, and keeps within the limit. */
  lemma TargetAlwaysDefined(s: State)
    requires Timeline(s)
    ensures StateTarget(s).Ok? && 1 <= StateTarget(s).value <= s.params.powLimit
  {
    hide MedianTimestamp;
    assert 1 <= s.history[0].target <= s.params.powLimit;
    RetargetSucceeds(s.history, s.params.powLimit);
  }

  lemma StepKeepsTimeline(c: Crypto, s: State, b: Block, now: u64)
    requires Timeline(s) && Step(c, s, b, now).Ok?
    ensures s.nextHeight < U64_MAX
    ensures Timeline(Successor(c, s, b, Step(c, s, b, now).value.view))
  {
    hide MedianTimestamp, ExpectedTarget, ValidateUtxos;
    TargetAlwaysDefined(s);
    MedianNeverFalls(s.rawTimestamps, b.challenge.timestamp);
    var h := s.history + [HeaderWork(MedianTimestamp(s.rawTimestamps + [b.challenge.timestamp]), b.challenge.target)];
    assert forall i :: 0 <= i < |s.history| ==> h[i] == s.history[i];
  }

  // ----- runs -------------------------------------------------------------------------------------------

  datatype Arrival = Arrival(block: Block, now: u64)

  /** The state and the total of burned fees after a run of accepted blocks. */
  datatype Progress = Progress(state: State, burned: nat)

  ghost function Run(c: Crypto, p: NetworkParams, run: seq<Arrival>): Result<Progress, ChainError>
    ensures Run(c, p, run).Ok? ==> Run(c, p, run).value.state.rawTimestamps != []
  {
    if run == [] then Ok(Progress(Genesis(p), 0))
    else
      var prior :- Run(c, p, run[..|run| - 1]);
      var last := run[|run| - 1];
      var o :- Step(c, prior.state, last.block, last.now);
      StepHeight(c, prior.state, last.block, last.now);
      Ok(Progress(Successor(c, prior.state, last.block, o.view), prior.burned + o.fees))
  }

  lemma StepHeight(c: Crypto, s: State, b: Block, now: u64)
    requires s.rawTimestamps != [] && Step(c, s, b, now).Ok?
    ensures s.nextHeight < U64_MAX && b.challenge.height == s.nextHeight
    ensures ApplyBlock(c, s.params, s.utxos, b) == Ok(Step(c, s, b, now).value)
  {
    hide MedianTimestamp, ExpectedTarget, BlockHeaderRules, ApplyBlock;
  }

  /** One step of the supply and registry invariants. */
  lemma StepConserves(c: Crypto, s: State, b: Block, now: u64)
    requires s.rawTimestamps != [] && Step(c, s, b, now).Ok?
    ensures E.Validate(s.params.policy).Ok?
    ensures var o := Step(c, s, b, now).value;
            Total(o.view.outputs) + o.fees == Total(s.utxos.outputs) + E.Subsidy(s.params.policy, s.nextHeight)
    ensures Registry(s.utxos) ==>
              Registry(Step(c, s, b, now).value.view) && s.utxos.retired <= Step(c, s, b, now).value.view.retired
  {
    hide Step, ApplyBlock, Registry, E.Validate, E.Subsidy;
    StepHeight(c, s, b, now);
    BlockConserves(c, s.params, s.utxos, b);
    if Registry(s.utxos) { BlockKeepsRegistry(c, s.params, s.utxos, b); }
  }

  /** Supply is conserved, the registry is a bijection and the timeline is sound after n blocks. */
  ghost predicate Accounted(p: NetworkParams, g: Progress, n: nat)
    requires E.Validate(p.policy).Ok?
  {
    && g.state.params == p
    && g.state.nextHeight == n + 1 <= U64_MAX
    && Total(g.state.utxos.outputs) + g.burned == E.SubsidySum(p.policy, n)
    && Registry(g.state.utxos)
    && Timeline(g.state)
  }

  lemma StepAccounted(c: Crypto, p: NetworkParams, g: Progress, n: nat, b: Block, now: u64)
    requires E.Validate(p.policy).Ok? && g.state.rawTimestamps != []
    requires Accounted(p, g, n) && Step(c, g.state, b, now).Ok?
    ensures g.state.nextHeight < U64_MAX
    ensures var o := Step(c, g.state, b, now).value;
            Accounted(p, Progress(Successor(c, g.state, b, o.view), g.burned + o.fees), n + 1)
  {
    hide Step, Timeline, Registry, E.Validate, E.Subsidy, MedianTimestamp, Total;
    StepHeight(c, g.state, b, now);
    StepConserves(c, g.state, b, now);
    StepKeepsTimeline(c, g.state, b, now);
  }

  lemma GenesisAccounted(p: NetworkParams)
    requires E.Validate(p.policy).Ok? && p.powLimit > 0
    ensures Accounted(p, Progress(Genesis(p), 0), 0)
  {
    hide Timeline, E.Validate;
    GenesisTimeline(p);
    assert Total(EMPTY.outputs) == 0;
  }

  /** Every reachable state is accounted for. */
  lemma {:induction false} RunInvariant(c: Crypto, p: NetworkParams, run: seq<Arrival>)
    requires E.Validate(p.policy).Ok? && p.powLimit > 0 && Run(c, p, run).Ok?
    ensures Accounted(p, Run(c, p, run).value, |run|)
  {
    hide Step, Accounted, E.Validate, Successor;
    if run == [] {
      GenesisAccounted(p);
    } else {
      RunInvariant(c, p, run[..|run| - 1]);
      var prior := Run(c, p, run[..|run| - 1]).value;
      StepAccounted(c, p, prior, |run| - 1, run[|run| - 1].block, run[|run| - 1].now);
    }
  }

  /**
   * At the last pre-tail height the coins in circulation and the coins burned add up to the closed
   * form of the scheduled supply.
   */
  lemma SupplyAtTail(c: Crypto, p: NetworkParams, run: seq<Arrival>)
    requires E.Validate(p.policy).Ok? && p.powLimit > 0 && Run(c, p, run).Ok?
    requires |run| == p.policy.tailHeight - 1
    ensures var g := Run(c, p, run).value;
            var s, n := p.policy.initialSubsidy, p.policy.tailHeight - 1;
            (Total(g.state.utxos.outputs) + g.burned) * 2 == s * n + s - n + E.Gcd(s, n)
  {
    hide Run, E.Validate, E.SubsidySum;
    RunInvariant(c, p, run);
    E.ClosedFormEmission(p.policy);
  }

  /** A channel retired at some point of a run is never active again. */
  lemma {:induction false} RetiredForever(c: Crypto, p: NetworkParams, run: seq<Arrival>, k: nat, id: Digest)
    requires E.Validate(p.policy).Ok? && p.powLimit > 0 && k <= |run| && Run(c, p, run).Ok?
    ensures Run(c, p, run[..k]).Ok?
    ensures id in Run(c, p, run[..k]).value.state.utxos.retired ==>
              && id in Run(c, p, run).value.state.utxos.retired
              && id !in Run(c, p, run).value.state.utxos.active
  {
    hide Step, E.Validate, Timeline;
    RunInvariant(c, p, run);
    if k == |run| {
      assert run[..k] == run;
    } else {
      var shorter := run[..|run| - 1];
      assert shorter[..k] == run[..k];
      RetiredForever(c, p, shorter, k, id);
      var prior := Run(c, p, shorter).value;
      RunInvariant(c, p, shorter);
      StepConserves(c, prior.state, run[|run| - 1].block, run[|run| - 1].now);
    }
  }

  /** In every reachable state the next target exists and lies in 1..powLimit. */
  lemma TargetNeverFails(c: Crypto, p: NetworkParams, run: seq<Arrival>)
    requires E.Validate(p.policy).Ok? && p.powLimit > 0 && Run(c, p, run).Ok?
    ensures var s := Run(c, p, run).value.state;
            && StateTarget(s).Ok? && 1 <= StateTarget(s).value <= p.powLimit
            && Ordered(s.history)
  {
    hide Run, E.Validate, ExpectedTarget, MedianTimestamp;
    RunInvariant(c, p, run);
    TargetAlwaysDefined(Run(c, p, run).value.state);
  }

  // ----- facts the node relies on ---------------------------------------------------------------------

  lemma RunAppend(c: Crypto, p: NetworkParams, run: seq<Arrival>, a: Arrival)
    requires Run(c, p, run).Ok?
    ensures var g, o := Run(c, p, run).value, Step(c, Run(c, p, run).value.state, a.block, a.now);
            match o
            case Err(e) => Run(c, p, run + [a]) == Err(e)
            case Ok(v) =>
              && g.state.nextHeight < U64_MAX
              && Run(c, p, run + [a]) == Ok(Progress(Successor(c, g.state, a.block, v.view), g.burned + v.fees))
  {
    hide Step, Successor, Run;
    var whole := run + [a];
    assert whole[..|whole| - 1] == run && whole[|whole| - 1] == a;
    RunUnfolds(c, p, whole);
  }

  lemma RunUnfolds(c: Crypto, p: NetworkParams, run: seq<Arrival>)
    requires run != [] && Run(c, p, run[..|run| - 1]).Ok?
    ensures var g, last := Run(c, p, run[..|run| - 1]).value, run[|run| - 1];
            match Step(c, g.state, last.block, last.now)
            case Err(e) => Run(c, p, run) == Err(e)
            case Ok(v) =>
              && g.state.nextHeight < U64_MAX
              && Run(c, p, run) == Ok(Progress(Successor(c, g.state, last.block, v.view), g.burned + v.fees))
  {
    hide Step, Successor, ApplyBlock, Genesis, ContextRules, ValidateUtxos;
    var g, last := Run(c, p, run[..|run| - 1]).value, run[|run| - 1];
    if Step(c, g.state, last.block, last.now).Ok? { StepHeight(c, g.state, last.block, last.now); }
  }

  /** What acceptance says about the header and the frame of a block. */
  lemma StepHeader(c: Crypto, s: State, b: Block, now: u64)
    requires s.rawTimestamps != [] && Step(c, s, b, now).Ok?
    ensures b.challenge.previousBlock == s.tip && b.challenge.height == s.nextHeight
    ensures b.challenge.networkId == s.params.networkId
    ensures StateTarget(s).Ok? && b.challenge.target == StateTarget(s).value
    ensures W.EncodeBlock(c.magic, b).Some?
  {
    hide MedianTimestamp, ExpectedTarget, ApplyBlock, BlockResources, TransactionRoot, W.EncodeBlock, FirstHeaderError;
  }

  // ----- the clock matters only for the future limit --------------------------------------------------

  /** A clock under which a timestamp is not too far ahead. */
  predicate TimelyAt(p: NetworkParams, timestamp: u64, at: u64) { timestamp <= at + p.maxFutureOffset <= U64_MAX }

  lemma StepTimely(c: Crypto, s: State, b: Block, now: u64, at: u64)
    requires s.rawTimestamps != [] && Step(c, s, b, now).Ok? && TimelyAt(s.params, b.challenge.timestamp, at)
    ensures Step(c, s, b, at) == Step(c, s, b, now)
  {
    hide MedianTimestamp, ExpectedTarget, ValidateUtxos;
  }

  /** Two accepted steps of one block on one state agree, whatever their clocks. */
  lemma StepsAgree(c: Crypto, s: State, b: Block, now: u64, at: u64)
    requires s.rawTimestamps != [] && Step(c, s, b, now).Ok? && Step(c, s, b, at).Ok?
    ensures Step(c, s, b, at) == Step(c, s, b, now)
  {
    hide MedianTimestamp, ExpectedTarget, ValidateUtxos;
  }
}
