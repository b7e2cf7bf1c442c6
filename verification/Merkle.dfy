/** The transaction Merkle tree: odd levels repeat their last node. */
module Merkle {
  import opened Prelude
  import opened Arith
  import opened Ledger
  import opened Consensus

  // ----- the tree ---------------------------------------------------------------------------------

  function Leaves(c: Crypto, ids: seq<Digest>): (r: seq<Digest>)
    ensures |r| == |ids|
    ensures forall i :: 0 <= i < |ids| ==> r[i] == c.merkleLeaf(ids[i])
  {
    if ids == [] then [] else Leaves(c, ids[..|ids| - 1]) + [c.merkleLeaf(ids[|ids| - 1])]
  }

  function Padded(level: seq<Digest>): (p: seq<Digest>)
    requires level != []
    ensures |p| % 2 == 0 && |level| <= |p| <= |level| + 1 && p[..|level|] == level
    ensures p[|p| - 1] == level[|level| - 1]
  {
    if |level| % 2 == 1 then level + [level[|level| - 1]] else level
  }

  /** The level above. */
  function Up(c: Crypto, level: seq<Digest>): (r: seq<Digest>)
    requires level != []
    ensures |r| == (|level| + 1) / 2
  {
    var p := Padded(level);
    seq(|p| / 2, i requires 0 <= i < |p| / 2 => c.merkleNode(p[2 * i], p[2 * i + 1]))
  }

  function Climb(c: Crypto, level: seq<Digest>): Digest
    requires level != []
    decreases |level|
  {
    if |level| == 1 then level[0] else Climb(c, Up(c, level))
  }

  function Root(c: Crypto, ids: seq<Digest>): Digest {
    if ids == [] then c.merkleEmpty else Climb(c, Leaves(c, ids))
  }

  method MerkleRoot(c: Crypto, ids: seq<Digest>) returns (root: Digest)
    ensures root == Root(c, ids)
  {
    if ids == [] { return c.merkleEmpty; }
    var level := Leaves(c, ids);
    while |level| > 1
      invariant level != []
      invariant Climb(c, level) == Root(c, ids)
      decreases |level|
    {
      if |level| % 2 == 1 { level := level + [level[|level| - 1]]; }
      level := Pairs(c, level);
    }
    root := level[0];
  }

  /** Hashes consecutive pairs; padding first is what makes this the level above. */
  method Pairs(c: Crypto, level: seq<Digest>) returns (r: seq<Digest>)
    requires level != [] && |level| % 2 == 0
    ensures r == Up(c, level)
    ensures forall l {:trigger Padded(l)} :: l != [] && Padded(l) == level ==> r == Up(c, l)
  {
    r := [];
    var i := 0;
    while i < |level| / 2
      invariant 0 <= i <= |level| / 2 && |r| == i
      invariant forall k :: 0 <= k < i ==> r[k] == c.merkleNode(level[2 * k], level[2 * k + 1])
    {
      r := r + [c.merkleNode(level[2 * i], level[2 * i + 1])];
      i := i + 1;
    }
  }

  /** Repeating the last identifier of an odd list does not change the root. */
  lemma RepeatedTailCollides(c: Crypto, ids: seq<Digest>)
    requires |ids| % 2 == 1 && |ids| > 1
    ensures Root(c, ids) == Root(c, ids + [ids[|ids| - 1]])
  {
    var longer := ids + [ids[|ids| - 1]];
    assert Padded(Leaves(c, ids)) == Leaves(c, longer) == Padded(Leaves(c, longer));
    assert Up(c, Leaves(c, ids)) == Up(c, Leaves(c, longer));
  }

  // ----- the tree from above ----------------------------------------------------------------------

  /** The node over 2^height identifiers from a position on; a right half past the end repeats the left one. */
  ghost function Subtree(c: Crypto, ids: seq<Digest>, from: nat, height: nat): Digest
    requires from < |ids|
    decreases height
  {
    if height == 0 then c.merkleLeaf(ids[from])
    else
      var left, middle := Subtree(c, ids, from, height - 1), from + Pow2(height - 1);
      c.merkleNode(left, if middle < |ids| then Subtree(c, ids, middle, height - 1) else left)
  }

  /** The level holds the nodes of one height, left to right, over all identifiers. */
  ghost predicate LevelOf(c: Crypto, ids: seq<Digest>, level: seq<Digest>, height: nat) {
    && level != [] && (|level| - 1) * Pow2(height) < |ids| <= |level| * Pow2(height)
    && forall i :: 0 <= i < |level| ==> NodeAt(c, ids, i, height, level[i])
  }

  ghost predicate NodeAt(c: Crypto, ids: seq<Digest>, i: nat, height: nat, node: Digest) {
    0 <= i * Pow2(height) < |ids| && node == Subtree(c, ids, i * Pow2(height), height)
  }

  lemma UpLevel(c: Crypto, ids: seq<Digest>, level: seq<Digest>, height: nat)
    requires LevelOf(c, ids, level, height)
    ensures LevelOf(c, ids, Up(c, level), height + 1)
  {
    hide Up, Padded, NodeAt, Subtree;
    var up, p, w := Up(c, level), Padded(level), Pow2(height);
    var n := |up|;
    MulAssoc(2, n, w);
    MulAssoc(2, n - 1, w);
    MulMono(2 * n - 2, |level| - 1, w);
    MulMono(|level|, 2 * n, w);
    forall i | 0 <= i < |up| ensures NodeAt(c, ids, i, height + 1, up[i]) { UpNode(c, ids, level, height, i); }
  }

  lemma UpNode(c: Crypto, ids: seq<Digest>, level: seq<Digest>, height: nat, i: nat)
    requires LevelOf(c, ids, level, height) && i < |Up(c, level)|
    ensures NodeAt(c, ids, i, height + 1, Up(c, level)[i])
  {
    hide Up, Padded, Subtree;
    var w, from := Pow2(height), 2 * i * Pow2(height);
    assert i * Pow2(height + 1) == from by { MulAssoc(i, 2, w); }
    MulDistrib(2 * i, 1, w);
    UpAt(c, level, i);
    assert NodeAt(c, ids, 2 * i, height, level[2 * i]);
    Above(c, ids, from, height);
    if 2 * i + 1 < |level| { assert NodeAt(c, ids, 2 * i + 1, height, level[2 * i + 1]); }
  }

  lemma UpAt(c: Crypto, level: seq<Digest>, i: nat)
    requires level != [] && i < |Up(c, level)|
    ensures 2 * i < |level|
    ensures Up(c, level)[i]
         == c.merkleNode(level[2 * i], if 2 * i + 1 < |level| then level[2 * i + 1] else level[2 * i])
  {
  }

  lemma Above(c: Crypto, ids: seq<Digest>, from: nat, height: nat)
    requires from < |ids|
    ensures var left, middle := Subtree(c, ids, from, height), from + Pow2(height);
            Subtree(c, ids, from, height + 1)
            == c.merkleNode(left, if middle < |ids| then Subtree(c, ids, middle, height) else left)
  {
  }

  lemma {:induction false} ClimbIsSubtree(c: Crypto, ids: seq<Digest>, level: seq<Digest>, height: nat)
    returns (top: nat)
    requires LevelOf(c, ids, level, height) && ids != [] && (height == 0 || Pow2(height - 1) < |ids|)
    ensures |ids| <= Pow2(top) && (top == 0 || Pow2(top - 1) < |ids|) && Climb(c, level) == Subtree(c, ids, 0, top)
    decreases |level|
  {
    hide Up, NodeAt, Subtree;
    if |level| == 1 {
      top := height;
      assert NodeAt(c, ids, 0, height, level[0]);
      FirstNode(c, ids, height, level[0]);
    } else {
      UpLevel(c, ids, level, height);
      MulMono(1, |level| - 1, Pow2(height));
      top := ClimbIsSubtree(c, ids, Up(c, level), height + 1);
    }
  }

  lemma FirstNode(c: Crypto, ids: seq<Digest>, height: nat, node: Digest)
    requires NodeAt(c, ids, 0, height, node)
    ensures ids != [] && node == Subtree(c, ids, 0, height)
  {
  }

  lemma LeafLevel(c: Crypto, ids: seq<Digest>)
    requires ids != []
    ensures LevelOf(c, ids, Leaves(c, ids), 0)
  {
    hide Leaves;
    assert Pow2(0) == 1;
    forall i | 0 <= i < |ids| ensures NodeAt(c, ids, i, 0, Leaves(c, ids)[i]) {
      assert i * Pow2(0) == i;
    }
  }

  /** The root is the node over the least power of two that covers the list. */
  lemma RootIsSubtree(c: Crypto, ids: seq<Digest>) returns (top: nat)
    requires ids != []
    ensures |ids| <= Pow2(top) && (top == 0 || Pow2(top - 1) < |ids|) && Root(c, ids) == Subtree(c, ids, 0, top)
  {
    hide Leaves, LevelOf, Climb, Subtree;
    LeafLevel(c, ids);
    top := ClimbIsSubtree(c, ids, Leaves(c, ids), 0);
  }

  // ----- collision freedom ------------------------------------------------------------------------

  /** One hash evaluation; each constructor is a separate hashing domain. */
  datatype Query =
    | EmptyQuery
    | LeafQuery(id: Digest)
    | NodeQuery(left: Digest, right: Digest)
    | TxQuery(transaction: Transaction)
    | CoinbaseQuery(coinbase: Coinbase, network: Digest)
    | BlockQuery(version: u32, challenge: BlockChallenge, proof: BlockProof)
    | PointQuery(network: Digest, blockId: Digest)

  ghost function Hash(c: Crypto, q: Query): Digest {
    match q
    case EmptyQuery => c.merkleEmpty
    case LeafQuery(id) => c.merkleLeaf(id)
    case NodeQuery(l, r) => c.merkleNode(l, r)
    case TxQuery(t) => c.txid(t)
    case CoinbaseQuery(cb, network) => c.coinbaseCommitment(cb, network)
    case BlockQuery(version, challenge, proof) => c.blockId(version, challenge, proof)
    case PointQuery(network, blockId) => c.coinbaseOutpoint(network, blockId)
  }

  /** No two of these finitely many evaluations collide. */
  ghost predicate CollisionFree(c: Crypto, qs: set<Query>) {
    forall q, q' :: q in qs && q' in qs && Hash(c, q) == Hash(c, q') ==> q == q'
  }

  ghost function PairQuery(p: seq<Digest>, i: int): Query
    requires 0 <= i < |p| / 2
  {
    NodeQuery(p[2 * i], p[2 * i + 1])
  }

  /** The node hashes evaluated while climbing from a level. */
  ghost function ClimbQueries(c: Crypto, level: seq<Digest>): set<Query>
    requires level != []
    decreases |level|
  {
    if |level| == 1 then {}
    else
      var p := Padded(level);
      (set i | 0 <= i < |p| / 2 :: PairQuery(p, i)) + ClimbQueries(c, Up(c, level))
  }

  ghost function RootQueries(c: Crypto, ids: seq<Digest>): set<Query> {
    if ids == [] then {EmptyQuery}
    else (set i | 0 <= i < |ids| :: LeafQuery(ids[i])) + ClimbQueries(c, Leaves(c, ids))
  }

  ghost predicate Distinct<T>(s: seq<T>) { forall i, j :: 0 <= i < j < |s| ==> s[i] != s[j] }

  // ----- heights of digests in the tree -----------------------------------------------------------

  /** x is the hash of a subtree of height k. */
  ghost predicate HasRank(c: Crypto, qs: set<Query>, x: Digest, k: nat)
    decreases k
  {
    if k == 0 then exists id :: LeafQuery(id) in qs && Hash(c, LeafQuery(id)) == x
    else exists l, r :: NodeQuery(l, r) in qs && Hash(c, NodeQuery(l, r)) == x && HasRank(c, qs, l, k - 1)
  }

  ghost predicate LevelRank(c: Crypto, qs: set<Query>, level: seq<Digest>, k: nat) {
    forall i :: 0 <= i < |level| ==> HasRank(c, qs, level[i], k)
  }

  lemma {:induction false} RankUnique(c: Crypto, qs: set<Query>, x: Digest, j: nat, k: nat)
    requires CollisionFree(c, qs) && HasRank(c, qs, x, j) && HasRank(c, qs, x, k)
    ensures j == k
    decreases j
  {
    if j > 0 && k > 0 {
      var l, r :| NodeQuery(l, r) in qs && Hash(c, NodeQuery(l, r)) == x && HasRank(c, qs, l, j - 1);
      var l', r' :| NodeQuery(l', r') in qs && Hash(c, NodeQuery(l', r')) == x && HasRank(c, qs, l', k - 1);
      assert NodeQuery(l, r) == NodeQuery(l', r');
      RankUnique(c, qs, l, j - 1, k - 1);
    }
  }

  // ----- one level up -------------------------------------------------------------------------------

  lemma UpQuery(c: Crypto, qs: set<Query>, level: seq<Digest>, i: nat)
    requires |level| > 1 && ClimbQueries(c, level) <= qs && i < |Up(c, level)|
    ensures PairQuery(Padded(level), i) in qs
    ensures Up(c, level)[i] == Hash(c, PairQuery(Padded(level), i))
  {
    hide ClimbQueries;
    ClimbHolds(c, level, i);
  }

  lemma ClimbHolds(c: Crypto, level: seq<Digest>, i: nat)
    requires |level| > 1 && i < |Up(c, level)|
    ensures PairQuery(Padded(level), i) in ClimbQueries(c, level)
  {
    hide Up, Padded, PairQuery;
  }

  lemma UpRank(c: Crypto, qs: set<Query>, level: seq<Digest>, k: nat)
    requires |level| > 1 && ClimbQueries(c, level) <= qs && LevelRank(c, qs, level, k)
    ensures LevelRank(c, qs, Up(c, level), k + 1)
  {
    var p := Padded(level);
    forall i | 0 <= i < |Up(c, level)| ensures HasRank(c, qs, Up(c, level)[i], k + 1) {
      UpQuery(c, qs, level, i);
      assert p[2 * i] == level[2 * i];
      assert NodeQuery(p[2 * i], p[2 * i + 1]) in qs;
    }
  }

  lemma UpDistinct(c: Crypto, qs: set<Query>, level: seq<Digest>)
    requires |level| > 1 && ClimbQueries(c, level) <= qs && CollisionFree(c, qs) && Distinct(level)
    ensures Distinct(Up(c, level))
  {
    var p := Padded(level);
    forall i, j | 0 <= i < j < |Up(c, level)| ensures Up(c, level)[i] != Up(c, level)[j] {
      UpQuery(c, qs, level, i);
      UpQuery(c, qs, level, j);
      assert p[2 * i] == level[2 * i] && p[2 * j] == level[2 * j];
    }
  }

  /** Padding is visible: only an odd duplicate-free level ends in a repeated node. */
  lemma PaddedParity(a: seq<Digest>)
    requires a != [] && Distinct(a)
    ensures var p := Padded(a); |p| >= 2 && (|a| % 2 == 1 <==> p[|p| - 2] == p[|p| - 1])
  {
  }

  lemma PaddedInjective(a: seq<Digest>, b: seq<Digest>)
    requires a != [] && b != [] && Distinct(a) && Distinct(b) && Padded(a) == Padded(b)
    ensures a == b
  {
    PaddedParity(a);
    PaddedParity(b);
    assert |a| == |b|;
    assert a == Padded(a)[..|a|] == Padded(b)[..|b|] == b;
  }

  lemma UpInjective(c: Crypto, qs: set<Query>, a: seq<Digest>, b: seq<Digest>)
    requires |a| > 1 && |b| > 1 && Distinct(a) && Distinct(b) && CollisionFree(c, qs)
    requires ClimbQueries(c, a) <= qs && ClimbQueries(c, b) <= qs
    requires Up(c, a) == Up(c, b)
    ensures a == b
  {
    hide ClimbQueries, Up, Padded, Distinct;
    var p, q := Padded(a), Padded(b);
    assert |p| == 2 * |Up(c, a)| == 2 * |Up(c, b)| == |q|;
    forall k | 0 <= k < |p| ensures p[k] == q[k] {
      var i := k / 2;
      UpQuery(c, qs, a, i);
      UpQuery(c, qs, b, i);
      assert PairQuery(p, i) == PairQuery(q, i);
    }
    assert p == q;
    PaddedInjective(a, b);
  }

  // ----- the whole tree -------------------------------------------------------------------------------

  lemma {:induction false} ClimbRank(c: Crypto, qs: set<Query>, level: seq<Digest>, k: nat) returns (d: nat)
    requires level != [] && ClimbQueries(c, level) <= qs && LevelRank(c, qs, level, k)
    ensures HasRank(c, qs, Climb(c, level), k + d) && (|level| > 1 ==> d > 0)
    decreases |level|
  {
    if |level| == 1 {
      d := 0;
    } else {
      UpRank(c, qs, level, k);
      d := ClimbRank(c, qs, Up(c, level), k + 1);
      d := d + 1;
    }
  }

  lemma {:induction false} ClimbInjective(c: Crypto, qs: set<Query>, a: seq<Digest>, b: seq<Digest>, k: nat)
    requires a != [] && b != [] && Distinct(a) && Distinct(b) && CollisionFree(c, qs)
    requires ClimbQueries(c, a) <= qs && ClimbQueries(c, b) <= qs
    requires LevelRank(c, qs, a, k) && LevelRank(c, qs, b, k)
    requires Climb(c, a) == Climb(c, b)
    ensures a == b
    decreases |a|
  {
    hide CollisionFree, LevelRank, HasRank, Up, Distinct;
    if |a| > 1 && |b| > 1 {
      UpRank(c, qs, a, k);
      UpRank(c, qs, b, k);
      UpDistinct(c, qs, a);
      UpDistinct(c, qs, b);
      ClimbInjective(c, qs, Up(c, a), Up(c, b), k + 1);
      UpInjective(c, qs, a, b);
    } else {
      var i := ClimbRank(c, qs, a, k);
      var j := ClimbRank(c, qs, b, k);
      RankUnique(c, qs, Climb(c, a), k + i, k + j);
      SameSingleton(c, qs, a, b, k, i, j);
    }
  }

  lemma SameSingleton(c: Crypto, qs: set<Query>, a: seq<Digest>, b: seq<Digest>, k: nat, i: nat, j: nat)
    requires a != [] && b != [] && i == j && (|a| == 1 || |b| == 1)
    requires LevelRank(c, qs, a, k) && LevelRank(c, qs, b, k) && CollisionFree(c, qs)
    requires HasRank(c, qs, Climb(c, a), k + i) && HasRank(c, qs, Climb(c, b), k + j)
    requires (|a| > 1 ==> i > 0) && (|b| > 1 ==> j > 0)
    requires Climb(c, a) == Climb(c, b)
    ensures a == b
  {
    hide HasRank, CollisionFree, Up;
    if |a| == 1 {
      assert HasRank(c, qs, a[0], k);
      RankUnique(c, qs, a[0], k, k + i);
    } else {
      assert HasRank(c, qs, b[0], k);
      RankUnique(c, qs, b[0], k, k + j);
    }
  }

  lemma LeavesFacts(c: Crypto, qs: set<Query>, ids: seq<Digest>)
    requires ids != [] && Distinct(ids) && CollisionFree(c, qs) && RootQueries(c, ids) <= qs
    ensures Distinct(Leaves(c, ids)) && LevelRank(c, qs, Leaves(c, ids), 0)
    ensures forall i :: 0 <= i < |ids| ==> LeafQuery(ids[i]) in qs
    ensures ClimbQueries(c, Leaves(c, ids)) <= qs
  {
    forall i | 0 <= i < |ids| ensures LeafQuery(ids[i]) in qs {
      assert LeafQuery(ids[i]) in RootQueries(c, ids);
    }
    forall i, j | 0 <= i < j < |ids| ensures Leaves(c, ids)[i] != Leaves(c, ids)[j] {
      assert LeafQuery(ids[i]) in qs && LeafQuery(ids[j]) in qs;
      assert LeafQuery(ids[i]) != LeafQuery(ids[j]);
      assert Hash(c, LeafQuery(ids[i])) != Hash(c, LeafQuery(ids[j]));
    }
    forall i | 0 <= i < |ids| ensures HasRank(c, qs, Leaves(c, ids)[i], 0) {
      assert Hash(c, LeafQuery(ids[i])) == Leaves(c, ids)[i];
    }
  }

  lemma EmptyRootDiffers(c: Crypto, qs: set<Query>, ids: seq<Digest>)
    requires ids != [] && Distinct(ids) && CollisionFree(c, qs) && RootQueries(c, ids) <= qs && EmptyQuery in qs
    ensures Root(c, ids) != c.merkleEmpty
  {
    hide ClimbQueries, Climb, RootQueries, Distinct, LevelRank;
    LeavesFacts(c, qs, ids);
    var d := ClimbRank(c, qs, Leaves(c, ids), 0);
    var x := Climb(c, Leaves(c, ids));
    assert exists q :: q in qs && q != EmptyQuery && Hash(c, q) == x;
  }

  /**
   * The root is injective on duplicate-free lists, of any two lengths, unless two of the hashes
   * evaluated for the two roots collide.
   */
  lemma RootInjective(c: Crypto, a: seq<Digest>, b: seq<Digest>)
    requires Distinct(a) && Distinct(b)
    requires CollisionFree(c, RootQueries(c, a) + RootQueries(c, b))
    requires Root(c, a) == Root(c, b)
    ensures a == b
  {
    hide CollisionFree, ClimbQueries, LevelRank, Climb, Distinct, RootQueries;
    var qs := RootQueries(c, a) + RootQueries(c, b);
    if a == [] || b == [] {
      assert {EmptyQuery} <= qs by { EmptyListQuery(c, a, b); }
      if a != [] { EmptyRootDiffers(c, qs, a); }
      if b != [] { EmptyRootDiffers(c, qs, b); }
    } else {
      LeavesFacts(c, qs, a);
      LeavesFacts(c, qs, b);
      ClimbInjective(c, qs, Leaves(c, a), Leaves(c, b), 0);
      LeavesInjective(c, qs, a, b);
    }
  }

  lemma EmptyListQuery(c: Crypto, a: seq<Digest>, b: seq<Digest>)
    requires a == [] || b == []
    ensures EmptyQuery in RootQueries(c, a) + RootQueries(c, b)
  {
  }

  lemma LeavesInjective(c: Crypto, qs: set<Query>, a: seq<Digest>, b: seq<Digest>)
    requires CollisionFree(c, qs) && Leaves(c, a) == Leaves(c, b)
    requires forall i :: 0 <= i < |a| ==> LeafQuery(a[i]) in qs
    requires forall i :: 0 <= i < |b| ==> LeafQuery(b[i]) in qs
    ensures a == b
  {
    hide CollisionFree;
    assert |a| == |Leaves(c, a)| == |b|;
    forall i | 0 <= i < |a| ensures a[i] == b[i] {
      assert LeafQuery(a[i]) in qs && LeafQuery(b[i]) in qs;
      assert c.merkleLeaf(a[i]) == Leaves(c, a)[i] == Leaves(c, b)[i] == c.merkleLeaf(b[i]);
      SameLeaf(c, qs, a[i], b[i]);
    }
  }

  lemma SameLeaf(c: Crypto, qs: set<Query>, x: Digest, y: Digest)
    requires CollisionFree(c, qs) && LeafQuery(x) in qs && LeafQuery(y) in qs && c.merkleLeaf(x) == c.merkleLeaf(y)
    ensures x == y
  {
    assert Hash(c, LeafQuery(x)) == Hash(c, LeafQuery(y));
  }
}
