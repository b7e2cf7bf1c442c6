/** The append-only block log and its replay. */
module RecordLog {
  import opened Prelude
  import opened Bytes
  import opened Ledger
  import opened Consensus
  import opened Chain
  import opened Forks
  import opened ForkNode
  import W = WireObjects
  import Wire
  import F = WireFormat
  import L = WireLayout
  import E = Economics

  /** Magic, version one and two reserved zero bytes. */
  const RECORD_PREFIX: seq<byte> := [0x43, 0x4D, 0x46, 0x52, 1, 0, 0, 0]
  const RECORD_HEADER_BYTES: nat := 20
  const RECORD_CHECKSUM_BYTES: nat := 32

  // ----- one record -------------------------------------------------------------------------------------

  function RecordHeader(at: u64, length: u32): (h: seq<byte>)
    ensures |h| == RECORD_HEADER_BYTES
  {
    RECORD_PREFIX + U64Bytes(at) + U32Bytes(length)
  }

  function RecordBytes(c: Crypto, at: u64, block: seq<byte>): seq<byte>
    requires |block| <= F.MAX_BLOCK_BYTES
  {
    var body := RecordHeader(at, |block|) + block;
    body + c.recordChecksum(body)
  }

  function EncodeRecord(c: Crypto, at: u64, block: seq<byte>): Result<seq<byte>, NodeError> {
    if |block| > F.MAX_BLOCK_BYTES then Err(CorruptLog) else Ok(RecordBytes(c, at, block))
  }

  datatype Record = Torn | Damaged | Whole(at: u64, block: seq<byte>, rest: seq<byte>)

  /** One record off the front of a nonempty log. */
  function ReadRecord(c: Crypto, bs: seq<byte>): Record {
    if |bs| < RECORD_HEADER_BYTES then Torn
    else if bs[..8] != RECORD_PREFIX then Damaged
    else
      var n := U32Value(bs[16..20]);
      if n > F.MAX_BLOCK_BYTES then Damaged
      else if |bs| < RECORD_HEADER_BYTES + n + RECORD_CHECKSUM_BYTES then Torn
      else
        var body := RECORD_HEADER_BYTES + n;
        if bs[body..body + RECORD_CHECKSUM_BYTES] != c.recordChecksum(bs[..body]) then Damaged
        else Whole(U64Value(bs[8..16]), bs[RECORD_HEADER_BYTES..body], bs[body + RECORD_CHECKSUM_BYTES..])
  }

  lemma HeaderParts(at: u64, length: u32)
    ensures var h := RecordHeader(at, length);
            h[..8] == RECORD_PREFIX && h[8..16] == U64Bytes(at) && h[16..20] == U32Bytes(length)
  {
  }

  lemma RecordParts(c: Crypto, at: u64, block: seq<byte>, rest: seq<byte>)
    requires |block| <= F.MAX_BLOCK_BYTES
    ensures var bs, h, n := RecordBytes(c, at, block) + rest, RecordHeader(at, |block|), |block|;
            && |RecordBytes(c, at, block)| == 52 + n
            && bs[..20] == h && bs[..8] == h[..8] && bs[8..16] == h[8..16] && bs[16..20] == h[16..20]
            && bs[20..20 + n] == block && bs[..20 + n] == h + block
            && bs[20 + n..52 + n] == c.recordChecksum(h + block) && bs[52 + n..] == rest
  {
    var h := RecordHeader(at, |block|);
    var sum: seq<byte> := c.recordChecksum(h + block);
    var bs := RecordBytes(c, at, block) + rest;
    assert bs == h + (block + (sum + rest));
    assert bs == (h + block) + (sum + rest);
  }

  /** "CMFR", version one, three zeros; time and length, lowest byte first; the frame; the checksum of all that. */
  lemma RecordLayout(c: Crypto, at: u64, block: seq<byte>)
    requires |block| <= F.MAX_BLOCK_BYTES
    ensures var bs, n := RecordBytes(c, at, block), |block|;
            && |bs| == 52 + n
            && L.Field(bs, 0, [0x43, 0x4D, 0x46, 0x52, 1, 0, 0, 0]) && L.Little(bs, 8, 8, at) && L.Little(bs, 16, 4, n)
            && L.Field(bs, 20, block) && L.Field(bs, 20 + n, c.recordChecksum(bs[..20 + n]))
  {
    hide RecordHeader, RecordBytes, L.Little;
    var bs := RecordBytes(c, at, block);
    RecordParts(c, at, block, []);
    HeaderParts(at, |block|);
    assert bs + [] == bs;
    L.LittleField(bs, 8, 8, at);
    L.LittleField(bs, 16, 4, |block|);
  }

  /** Reading inverts writing. */
  lemma ReadsRecord(c: Crypto, at: u64, block: seq<byte>, rest: seq<byte>)
    requires |block| <= F.MAX_BLOCK_BYTES
    ensures ReadRecord(c, RecordBytes(c, at, block) + rest) == Whole(at, block, rest)
  {
    hide RecordHeader, RecordBytes;
    RecordParts(c, at, block, rest);
    HeaderParts(at, |block|);
    U64Inverse(at);
    U32Inverse(|block|);
  }

  /** Whatever reads as a record was written as one. */
  lemma RecordCanonical(c: Crypto, bs: seq<byte>)
    requires ReadRecord(c, bs).Whole?
    ensures var r := ReadRecord(c, bs);
            |r.block| <= F.MAX_BLOCK_BYTES && bs == RecordBytes(c, r.at, r.block) + r.rest
  {
    var r := ReadRecord(c, bs);
    var n := U32Value(bs[16..20]);
    U32BytesOfValue(bs[16..20]);
    U64BytesOfValue(bs[8..16]);
    assert bs[..20] == bs[..8] + bs[8..16] + bs[16..20];
    assert RecordHeader(r.at, n) == bs[..20];
    assert bs[..20 + n] == bs[..20] + r.block;
    assert bs == bs[..20 + n] + bs[20 + n..52 + n] + bs[52 + n..];
  }

  /** A record cut short anywhere is seen to be torn. */
  lemma CutRecordIsTorn(c: Crypto, at: u64, block: seq<byte>, cut: nat)
    requires |block| <= F.MAX_BLOCK_BYTES && cut < |RecordBytes(c, at, block)|
    ensures ReadRecord(c, RecordBytes(c, at, block)[..cut]) == Torn
  {
    hide RecordHeader, RecordBytes;
    var whole := RecordBytes(c, at, block);
    RecordParts(c, at, block, []);
    assert whole + [] == whole;
    HeaderParts(at, |block|);
    U32Inverse(|block|);
    var bs := whole[..cut];
    if cut >= RECORD_HEADER_BYTES {
      assert bs[..8] == whole[..8] && bs[16..20] == whole[16..20];
    }
  }

  // ----- replay -------------------------------------------------------------------------------------------

  /** Replays a log from a core; any defect refuses the whole log. */
  ghost function ReplayLog(c: Crypto, p: NetworkParams, k: Core, bs: seq<byte>): Result<Core, NodeError>
    requires GoodParams(p) && Sound(c, p, k)
    decreases |bs|
  {
    if bs == [] then Ok(k)
    else
      match ReadRecord(c, bs)
      case Torn => Err(CorruptLog)
      case Damaged => Err(CorruptLog)
      case Whole(at, frame, rest) =>
        var block := W.DecodeBlock(c.magic, frame, p.networkId);
        if block.None? || Accept(c, p, k, block.value, at).Err? then Err(CorruptLog)
        else
          AcceptKeepsSound(c, p, k, block.value, at);
          ReplayLog(c, p, Accept(c, p, k, block.value, at).value, rest)
  }

  /** The frame an accepted block is logged under. */
  ghost function FrameOf(c: Crypto, b: Block): seq<byte> {
    if W.EncodeBlock(c.magic, b).Some? then W.EncodeBlock(c.magic, b).value else []
  }

  lemma FrameFits(c: Crypto, b: Block)
    ensures |FrameOf(c, b)| <= F.MAX_BLOCK_BYTES
  {
  }

  ghost function RecordOf(c: Crypto, a: Arrival): seq<byte> {
    FrameFits(c, a.block);
    RecordBytes(c, a.now, FrameOf(c, a.block))
  }

  /** The log of a run of accepted blocks. */
  ghost function LogOf(c: Crypto, run: seq<Arrival>): seq<byte> {
    if run == [] then [] else LogOf(c, run[..|run| - 1]) + RecordOf(c, run[|run| - 1])
  }

  /** What acceptance says about the frame of a block. */
  lemma AcceptFrames(c: Crypto, p: NetworkParams, k: Core, b: Block, at: u64)
    requires GoodParams(p) && Sound(c, p, k) && Accept(c, p, k, b, at).Ok?
    ensures W.EncodeBlock(c.magic, b) == Some(FrameOf(c, b))
    ensures W.DecodeBlock(c.magic, FrameOf(c, b), p.networkId) == Some(b)
  {
    hide Step, Successor, Run, W.EncodeBlock, W.DecodeBlock, EntrySound, StateTarget, Timeline;
    var parent := b.challenge.previousBlock;
    KnownReplays(c, p, k.index, parent);
    var base := Replay(c, p, k.index, parent).value.state;
    StepHeader(c, base, b, at);
    ReplayTip(c, p, k.index, parent);
    W.BlockBijection(c.magic, FrameOf(c, b), p.networkId, b);
  }

  /** Replay of one well-formed record followed by anything. */
  lemma ReplayRecord(c: Crypto, p: NetworkParams, k: Core, a: Arrival, rest: seq<byte>)
    requires GoodParams(p) && Sound(c, p, k) && Accept(c, p, k, a.block, a.now).Ok?
    ensures var k' := Accept(c, p, k, a.block, a.now).value;
            Sound(c, p, k') && ReplayLog(c, p, k, RecordOf(c, a) + rest) == ReplayLog(c, p, k', rest)
  {
    hide Accept, Sound, W.DecodeBlock, RecordBytes, ReadRecord, FrameOf;
    AcceptKeepsSound(c, p, k, a.block, a.now);
    AcceptFrames(c, p, k, a.block, a.now);
    FrameFits(c, a.block);
    ReadsRecord(c, a.now, FrameOf(c, a.block), rest);
    RecordNonempty(c, a.now, FrameOf(c, a.block));
  }

  lemma RecordNonempty(c: Crypto, at: u64, block: seq<byte>)
    requires |block| <= F.MAX_BLOCK_BYTES
    ensures |RecordBytes(c, at, block)| == 52 + |block|
  {
  }

  /** Replaying the log of an accepted run and then anything else continues from the run's core. */
  lemma {:induction false} ReplayContinues(c: Crypto, p: NetworkParams, run: seq<Arrival>, rest: seq<byte>)
    requires GoodParams(p) && Accepted(c, p, run).Ok?
    ensures Sound(c, p, FreshCore(p))
    ensures ReplayLog(c, p, FreshCore(p), LogOf(c, run) + rest) == ReplayLog(c, p, Accepted(c, p, run).value, rest)
    decreases |run|
  {
    hide Accept, Sound, RecordOf, ReplayLog;
    FreshSound(c, p);
    if run == [] {
      assert LogOf(c, run) + rest == rest;
    } else {
      var earlier, last := run[..|run| - 1], run[|run| - 1];
      ReplayContinues(c, p, earlier, RecordOf(c, last) + rest);
      ReplayRecord(c, p, Accepted(c, p, earlier).value, last, rest);
      F.Regroup(LogOf(c, earlier), RecordOf(c, last), rest);
    }
  }

  /** Crash recovery: the log of any run of accepted blocks rebuilds index, chain, work and state. */
  lemma ReplayRecovers(c: Crypto, p: NetworkParams, run: seq<Arrival>)
    requires GoodParams(p) && Accepted(c, p, run).Ok?
    ensures Sound(c, p, FreshCore(p))
    ensures ReplayLog(c, p, FreshCore(p), LogOf(c, run)) == Accepted(c, p, run)
  {
    hide Accept, Sound, LogOf, Accepted;
    ReplayContinues(c, p, run, []);
    assert LogOf(c, run) + [] == LogOf(c, run);
  }

  /** A torn last write is always detected. */
  lemma TornTailDetected(c: Crypto, p: NetworkParams, run: seq<Arrival>, a: Arrival, cut: nat)
    requires GoodParams(p) && Accepted(c, p, run).Ok?
    requires 0 < cut < |RecordOf(c, a)|
    ensures Sound(c, p, FreshCore(p))
    ensures ReplayLog(c, p, FreshCore(p), LogOf(c, run) + RecordOf(c, a)[..cut]) == Err(CorruptLog)
  {
    hide Accept, Sound, LogOf, Accepted, RecordBytes, ReadRecord, FrameOf, W.DecodeBlock;
    ReplayContinues(c, p, run, RecordOf(c, a)[..cut]);
    FrameFits(c, a.block);
    CutRecordIsTorn(c, a.now, FrameOf(c, a.block), cut);
  }

  /** Only logs of accepted runs replay, and they replay to that run. */
  lemma {:induction false} ReplayIsCanonical(c: Crypto, p: NetworkParams, run: seq<Arrival>, bs: seq<byte>)
    returns (whole: seq<Arrival>)
    requires GoodParams(p) && Accepted(c, p, run).Ok? && ReplayLog(c, p, Accepted(c, p, run).value, bs).Ok?
    ensures Accepted(c, p, whole) == ReplayLog(c, p, Accepted(c, p, run).value, bs)
    ensures LogOf(c, whole) == LogOf(c, run) + bs
    decreases |bs|
  {
    hide Accept, Sound, W.DecodeBlock, W.EncodeBlock, ReadRecord, RecordBytes;
    if bs == [] {
      whole := run;
      assert LogOf(c, run) + bs == LogOf(c, run);
    } else {
      var r := ReadRecord(c, bs);
      RecordCanonical(c, bs);
      var block := W.DecodeBlock(c.magic, r.block, p.networkId).value;
      W.BlockBijection(c.magic, r.block, p.networkId, block);
      var a := Arrival(block, r.at);
      assert (run + [a])[..|run|] == run;
      RecordNonempty(c, r.at, r.block);
      assert LogOf(c, run + [a]) == LogOf(c, run) + RecordBytes(c, r.at, r.block);
      whole := ReplayIsCanonical(c, p, run + [a], r.rest);
      F.Regroup(LogOf(c, run), RecordBytes(c, r.at, r.block), r.rest);
    }
  }

  /** The replay loop. The re-encoding check never fires, because decoding accepts canonical frames only. */
  method Reopen(c: Crypto, p: NetworkParams, bytes: seq<byte>)
    returns (r: Result<ChainState, NodeError>, index: Index)
    requires GoodParams(p)
    ensures Sound(c, p, FreshCore(p))
    ensures var spec := ReplayLog(c, p, FreshCore(p), bytes);
            match r
            case Err(e) => spec == Err(e)
            case Ok(state) =>
              && fresh(state) && state.Valid() && state.crypto == c
              && spec == Ok(Core(index, state.View()))
  {
    hide Accept, Sound, W.DecodeBlock, W.EncodeBlock, ReadRecord, PreparedFor, E.Validate;
    FreshSound(c, p);
    var state := new ChainState(c, p);
    index := EmptyIndex(p.genesisHash);
    var rest := bytes;
    while rest != []
      invariant fresh(state) && state.Valid() && state.crypto == c && Sound(c, p, Core(index, state.View()))
      invariant ReplayLog(c, p, FreshCore(p), bytes) == ReplayLog(c, p, Core(index, state.View()), rest)
      decreases |rest|
    {
      var record := ReadRecord(c, rest);
      if !record.Whole? { return Err(CorruptLog), index; }
      var block := Wire.DecodeBlockFrame(c.magic, record.block, p.networkId);
      if block.None? { return Err(CorruptLog), index; }
      var again := Wire.EncodeBlockFrame(c.magic, block.value);
      if again.None? || again.value != record.block { return Err(CorruptLog), index; }
      var prepared := PrepareBlock(c, p, state, index, block.value, record.at, record.block);
      if prepared.Err? { return Err(CorruptLog), index; }
      AcceptKeepsSound(c, p, Core(index, state.View()), block.value, record.at);
      var fees;
      fees, state, index := CommitPrepared(c, p, state, index, prepared.value, block.value, record.at);
      if fees.Err? { return Err(CorruptLog), index; }
      RecordShrinks(c, rest);
      rest := record.rest;
    }
    return Ok(state), index;
  }

  lemma RecordShrinks(c: Crypto, bs: seq<byte>)
    requires ReadRecord(c, bs).Whole?
    ensures |ReadRecord(c, bs).rest| < |bs|
  {
  }
}
