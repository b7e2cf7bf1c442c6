/** A solved template is accepted: its identifier and its coinbase outputs are new unless hashes collide. */
module Mining {
  import opened Prelude
  import opened Ledger
  import opened Consensus
  import opened Utxo
  import opened BlockRules
  import opened Chain
  import opened Forks
  import opened Mempool
  import opened Template
  import opened Provenance
  import D = Difficulty
  import E = Economics
  import K = Merkle

  // ----- the hashes at hand -----------------------------------------------------------------------------

  /** The hashes that name a block, its coinbase outputs and its transactions. */
  ghost function BlockHashes(c: Crypto, b: Block): set<K.Query> {
    {K.BlockQuery(b.version, b.challenge, b.proof), K.PointQuery(b.challenge.networkId, BlockId(c, b))}
    + (set i | 0 <= i < |b.transactions| :: K.TxQuery(b.transactions[i]))
  }

  ghost function IndexHashes(c: Crypto, p: NetworkParams, ix: Index): set<K.Query>
    requires Linked(c, p, ix)
  {
    set id, q | id in ix.blocks && q in BlockHashes(c, Decode(c, p, ix.blocks[id]).value) :: q
  }

  /** None of the hashes naming indexed blocks and the new block collide, and the new block is not genesis. */
  ghost predicate NamesDistinct(c: Crypto, p: NetworkParams, k: Core, b: Block)
    requires Linked(c, p, k.index)
  {
    && K.CollisionFree(c, IndexHashes(c, p, k.index) + BlockHashes(c, b))
    && BlockId(c, b) != k.index.genesis
  }

  lemma HashMembers(c: Crypto, b: Block, qs: set<K.Query>)
    requires BlockHashes(c, b) <= qs
    ensures K.BlockQuery(b.version, b.challenge, b.proof) in qs
    ensures K.PointQuery(b.challenge.networkId, BlockId(c, b)) in qs
    ensures forall i :: 0 <= i < |b.transactions| ==> K.TxQuery(b.transactions[i]) in qs
  {
    forall i | 0 <= i < |b.transactions| ensures K.TxQuery(b.transactions[i]) in qs {
      assert K.TxQuery(b.transactions[i]) in BlockHashes(c, b);
    }
  }

  lemma IndexedHashes(c: Crypto, p: NetworkParams, ix: Index, id: Digest, qs: set<K.Query>)
    requires Linked(c, p, ix) && id in ix.blocks && IndexHashes(c, p, ix) <= qs
    ensures BlockHashes(c, Decode(c, p, ix.blocks[id]).value) <= qs
  {
    hide BlockHashes, Decode;
    forall q | q in BlockHashes(c, Decode(c, p, ix.blocks[id]).value) ensures q in qs {
      assert q in IndexHashes(c, p, ix);
    }
  }

  // ----- the identifier is new ----------------------------------------------------------------------------

  /** No indexed block extends the tip: it would have more work than the active chain. */
  lemma TipHasNoChild(c: Crypto, p: NetworkParams, k: Core, id: Digest)
    requires Sound(c, p, k) && id in k.index.blocks
    ensures k.index.blocks[id].parent != k.state.tip
  {
    hide Decode, Run, Path, Branch, BlockId, TargetWork;
    assert EntrySound(c, p, k.index, id);
    TargetWorkBound(Decode(c, p, k.index.blocks[id]).value.challenge.target);
    assert Known(k.index, id);
  }

  /** A block on the tip has a new identifier. */
  lemma ExtensionIsNew(c: Crypto, p: NetworkParams, k: Core, b: Block)
    requires Sound(c, p, k) && b.challenge.previousBlock == k.state.tip && NamesDistinct(c, p, k, b)
    ensures !Known(k.index, BlockId(c, b))
  {
    hide Decode, Run, Path, Branch, TargetWork, BlockHashes, IndexHashes;
    var id := BlockId(c, b);
    if id in k.index.blocks {
      var qs := IndexHashes(c, p, k.index) + BlockHashes(c, b);
      var other := Decode(c, p, k.index.blocks[id]).value;
      assert EntrySound(c, p, k.index, id);
      IndexedHashes(c, p, k.index, id, qs);
      HashMembers(c, other, qs);
      HashMembers(c, b, qs);
      SameChallenge(c, qs, b, other);
      TipHasNoChild(c, p, k, id);
    }
  }

  lemma SameChallenge(c: Crypto, qs: set<K.Query>, a: Block, b: Block)
    requires K.CollisionFree(c, qs) && BlockId(c, a) == BlockId(c, b)
    requires K.BlockQuery(a.version, a.challenge, a.proof) in qs && K.BlockQuery(b.version, b.challenge, b.proof) in qs
    ensures a.challenge == b.challenge
  {
    assert K.Hash(c, K.BlockQuery(a.version, a.challenge, a.proof))
        == K.Hash(c, K.BlockQuery(b.version, b.challenge, b.proof));
  }

  // ----- the coinbase outputs are new -----------------------------------------------------------------------

  /** A block's coinbase identifier is issued only by a block of the same identifier. */
  lemma CoinbaseNamesBlock(c: Crypto, qs: set<K.Query>, a: Block, b: Block)
    requires K.CollisionFree(c, qs) && BlockHashes(c, a) <= qs && BlockHashes(c, b) <= qs
    requires Issues(c, a, CoinbaseTxid(c, b))
    ensures BlockId(c, a) == BlockId(c, b)
  {
    hide BlockHashes, BlockId;
    HashMembers(c, a, qs);
    HashMembers(c, b, qs);
    assert K.Hash(c, K.PointQuery(b.challenge.networkId, BlockId(c, b))) == CoinbaseTxid(c, b);
    assert K.Hash(c, K.PointQuery(a.challenge.networkId, BlockId(c, a))) == CoinbaseTxid(c, a);
    NotIssued(c, qs, a, b);
  }

  lemma NotIssued(c: Crypto, qs: set<K.Query>, a: Block, b: Block)
    requires K.CollisionFree(c, qs) && BlockHashes(c, a) <= qs && BlockHashes(c, b) <= qs
    ensures !IssuedBy(c, a.transactions, |a.transactions|, CoinbaseTxid(c, b))
  {
    hide BlockHashes, BlockId;
    HashMembers(c, a, qs);
    HashMembers(c, b, qs);
    forall i | 0 <= i < |a.transactions| ensures c.txid(a.transactions[i]) != CoinbaseTxid(c, b) {
      assert K.Hash(c, K.TxQuery(a.transactions[i])) == c.txid(a.transactions[i]);
      assert K.Hash(c, K.PointQuery(b.challenge.networkId, BlockId(c, b))) == CoinbaseTxid(c, b);
    }
  }

  /** Nothing on the live chain was issued under the coinbase identifier of a new block. */
  lemma LiveOutputsDiffer(c: Crypto, p: NetworkParams, k: Core, b: Block, op: OutPoint)
    requires Sound(c, p, k) && NamesDistinct(c, p, k, b) && !Known(k.index, BlockId(c, b))
            && op in k.state.utxos.outputs
    ensures op.txid != CoinbaseTxid(c, b)
  {
    hide Run, Path, Branch, Decode, BlockHashes, IndexHashes, TargetWork, BlockId, CoinbaseTxid, Issues,
         K.CollisionFree;
    var run := Branch(c, p, k.index, k.state.tip);
    RunIssues(c, p, run);
    var j :| 0 <= j < |run| && Issues(c, run[j].block, op.txid);
    PathHeights(c, p, k.index, k.state.tip, j);
    var id := Path(c, p, k.index, k.state.tip)[j];
    assert EntrySound(c, p, k.index, id);
    var qs := IndexHashes(c, p, k.index) + BlockHashes(c, b);
    IndexedHashes(c, p, k.index, id, qs);
    if op.txid == CoinbaseTxid(c, b) {
      CoinbaseNamesBlock(c, qs, run[j].block, b);
    }
  }

  /** The points of a new block's coinbase are unused after its own transactions. */
  lemma CoinbasePointsFresh(c: Crypto, p: NetworkParams, k: Core, b: Block, n: nat)
    requires Sound(c, p, k) && NamesDistinct(c, p, k, b) && !Known(k.index, BlockId(c, b))
    requires ApplyTransactions(c, k.state.utxos, b.transactions, |b.transactions|, k.state.nextHeight,
                               k.state.params.networkId).Ok?
    ensures FreshPoints(BeforeCoinbase(c, k.state, b), CoinbaseTxid(c, b), n)
  {
    hide Sound, ApplyTransactions, IssuedBy, BlockHashes, IndexHashes, K.CollisionFree, CoinbaseTxid, BlockId;
    SoundLinked(c, p, k);
    var u := BeforeCoinbase(c, k.state, b);
    TransactionsIssue(c, k.state.utxos, b.transactions, |b.transactions|, k.state.nextHeight, k.state.params.networkId);
    NotIssued(c, IndexHashes(c, p, k.index) + BlockHashes(c, b), b, b);
    forall i | 0 <= i < n ensures OutputPoint(CoinbaseTxid(c, b), i) !in u.outputs {
      var op := OutputPoint(CoinbaseTxid(c, b), i);
      if op in k.state.utxos.outputs { LiveOutputsDiffer(c, p, k, b, op); }
    }
  }

  // ----- a solved template is accepted ----------------------------------------------------------------------

  /** What a miner controls or can look up: the clock, the height, the proof and the policy. */
  ghost predicate Solvable(c: Crypto, p: NetworkParams, s: State, b: Block, at: u64)
    requires E.Validate(p.policy).Ok?
  {
    && TimelyAt(p, b.challenge.timestamp, at)
    && s.nextHeight + COINBASE_MATURITY <= U64_MAX
    && c.powAccepts(b.challenge, b.proof)
    && PercentagesAllow(p.policy, s.nextHeight)
  }

  /**
   * Unless hashes of the indexed blocks and the new block collide, a template from a sound pool is accepted
   * and becomes the tip exactly when its clock is timely, heights remain, its proof is valid and the
   * percentages allow the height.
   */
  lemma SolvedTemplateAccepted(c: Crypto, p: NetworkParams, k: Core, pool: seq<MempoolEntry>, bytes: nat, miner: Digest,
                               now: u64, proof: BlockProof, at: u64)
    requires GoodParams(p) && Sound(c, p, k) && k.state.rawTimestamps != []
    requires PoolSound(c, k.state, pool, bytes) && TemplateOn(c, k.state, pool, miner, now).Ok?
    requires NamesDistinct(c, p, k, Solved(TemplateOn(c, k.state, pool, miner, now).value, proof))
    ensures var b := Solved(TemplateOn(c, k.state, pool, miner, now).value, proof);
            && (Accept(c, p, k, b, at).Ok? <==> Solvable(c, p, k.state, b, at))
            && (Accept(c, p, k, b, at).Ok? ==> Accept(c, p, k, b, at).value.state.tip == BlockId(c, b))
            && (now <= at && at + p.maxFutureOffset <= U64_MAX ==> TimelyAt(p, b.challenge.timestamp, at))
  {
    hide Accept, Run, E.Validate, PoolSound, TemplateOn, NamesDistinct, ApplyTransactions, Mintable, PercentagesAllow,
         TimelyAt, BlockId, Path, Branch, EntrySound, FreshPoints, Decode, Timeline;
    var b := Solved(TemplateOn(c, k.state, pool, miner, now).value, proof);
    ReplayTip(c, p, k.index, k.state.tip);
    TemplateAccepted(c, p, k, pool, bytes, miner, now, proof, at);
    TemplateParent(c, k.state, pool, miner, now);
    TemplateBody(c, k.state, pool, miner, now, proof);
    TemplateContext(c, k.state, pool, miner, now, proof, at);
    ExtensionIsNew(c, p, k, b);
    CoinbasePointsFresh(c, p, k, b, |b.coinbase.outputs|);
    MintableHeights(p.policy, k.state.nextHeight);
  }

  /**
   * A valid miner key, a usable clock, heights left, a policy that allows the height, and a proof valid for
   * the template, whose names collide with nothing indexed.
   */
  ghost predicate MiningSucceeds(c: Crypto, p: NetworkParams, k: Core, pool: seq<MempoolEntry>, miner: Digest, now: u64,
                                 proof: BlockProof)
  {
    && E.Validate(p.policy).Ok? && k.state.rawTimestamps != [] && Linked(c, p, k.index)
    && c.channel.validKey(miner)
    && D.MedianTimestamp(k.state.rawTimestamps) < now + p.maxFutureOffset <= U64_MAX
    && k.state.nextHeight + COINBASE_MATURITY <= U64_MAX
    && PercentagesAllow(p.policy, k.state.nextHeight)
    && var t := TemplateOn(c, k.state, pool, miner, now);
       t.Ok? ==> c.powAccepts(t.value.challenge, proof) && NamesDistinct(c, p, k, Solved(t.value, proof))
  }

  /** Such a template exists, and every check of its submission at its own time passes. */
  lemma MinedTemplateSubmits(c: Crypto, p: NetworkParams, k: Core, pool: seq<MempoolEntry>, bytes: nat, miner: Digest,
                             now: u64, proof: BlockProof)
    requires GoodParams(p) && Sound(c, p, k) && PoolSound(c, k.state, pool, bytes)
    requires MiningSucceeds(c, p, k, pool, miner, now, proof)
    ensures k.state.rawTimestamps != [] && TemplateOn(c, k.state, pool, miner, now).Ok?
    ensures Submittable(c, p, k, Solved(TemplateOn(c, k.state, pool, miner, now).value, proof), now)
  {
    hide Accept, Sound, Run, E.Validate, PoolSound, TemplateOn, NamesDistinct, PercentagesAllow, Linked, Submittable,
         D.MedianTimestamp, BlockId;
    TemplateAvailable(c, p, k, pool, bytes, miner, now);
    TemplateAccepted(c, p, k, pool, bytes, miner, now, proof, now);
    SolvedTemplateAccepted(c, p, k, pool, bytes, miner, now, proof, now);
  }
}
