/** The copy-on-write overlay a block is validated on, and the minimal delta it leaves behind. */
module Overlay {
  import opened Prelude
  import opened Ledger
  import opened Consensus
  import opened Utxo

  datatype OutputChange = OutputChange(previous: Option<TxOutput>, next: Option<TxOutput>)

  datatype MembershipChange = MembershipChange(previous: bool, next: bool)

  datatype UtxoDelta = UtxoDelta(
    outputs: map<OutPoint, OutputChange>,
    active: map<Digest, MembershipChange>,
    retired: map<Digest, MembershipChange>)

  // ----- what a minimal delta is ------------------------------------------------------------------

  function Lookup<K, V>(m: map<K, V>, k: K): Option<V> { if k in m then Some(m[k]) else None }

  /** Exactly the keys whose value differs, with the base value as previous. */
  function DiffOutputs(base: map<OutPoint, TxOutput>, view: map<OutPoint, TxOutput>): map<OutPoint, OutputChange> {
    map k | k in base.Keys + view.Keys && Lookup(base, k) != Lookup(view, k)
      :: OutputChange(Lookup(base, k), Lookup(view, k))
  }

  function DiffMembers(base: set<Digest>, view: set<Digest>): map<Digest, MembershipChange> {
    map k | k in base + view && (k in base) != (k in view) :: MembershipChange(k in base, k in view)
  }

  function Diff(base: UtxoSet, view: UtxoSet): UtxoDelta {
    UtxoDelta(DiffOutputs(base.outputs, view.outputs), DiffMembers(base.active, view.active),
              DiffMembers(base.retired, view.retired))
  }

  // ----- applying a delta -------------------------------------------------------------------------

  predicate Matches(d: UtxoDelta, u: UtxoSet) {
    && (forall k :: k in d.outputs ==> Lookup(u.outputs, k) == d.outputs[k].previous)
    && (forall k :: k in d.active ==> (k in u.active) == d.active[k].previous)
    && (forall k :: k in d.retired ==> (k in u.retired) == d.retired[k].previous)
  }

  function PatchOutputs(u: map<OutPoint, TxOutput>, d: map<OutPoint, OutputChange>): map<OutPoint, TxOutput> {
    map k | k in u.Keys + d.Keys && (if k in d then d[k].next.Some? else true)
      :: if k in d then d[k].next.value else u[k]
  }

  function PatchMembers(u: set<Digest>, d: map<Digest, MembershipChange>): set<Digest> {
    set k | k in u + d.Keys && (if k in d then d[k].next else true)
  }

  function Patch(u: UtxoSet, d: UtxoDelta): UtxoSet {
    UtxoSet(PatchOutputs(u.outputs, d.outputs), PatchMembers(u.active, d.active), PatchMembers(u.retired, d.retired))
  }

  /** Applying the delta to its base gives the view, and the base passes the staleness test. */
  lemma DiffPatches(base: UtxoSet, view: UtxoSet)
    ensures Patch(base, Diff(base, view)) == view
    ensures Matches(Diff(base, view), base)
  {
    var d := Diff(base, view);
    forall k ensures Lookup(PatchOutputs(base.outputs, d.outputs), k) == Lookup(view.outputs, k) {
      if k in base.outputs.Keys + view.outputs.Keys {
      }
    }
    SameLookup(PatchOutputs(base.outputs, d.outputs), view.outputs);
    assert PatchMembers(base.active, d.active) == view.active;
    assert PatchMembers(base.retired, d.retired) == view.retired;
  }

  lemma SameLookup(m: map<OutPoint, TxOutput>, n: map<OutPoint, TxOutput>)
    requires forall k :: Lookup(m, k) == Lookup(n, k)
    ensures m == n
  {
    forall k ensures k in m <==> k in n {
      assert Lookup(m, k) == Lookup(n, k);
    }
    forall k | k in m ensures m[k] == n[k] {
      assert Lookup(m, k) == Lookup(n, k);
    }
  }

  /** Exactly the outputs and memberships that changed, with base and new value. */
  lemma DeltaEntries(base: UtxoSet, view: UtxoSet, k: OutPoint, id: Digest)
    ensures var d := Diff(base, view);
            && (k in d.outputs <==> Lookup(base.outputs, k) != Lookup(view.outputs, k))
            && (k in d.outputs ==> d.outputs[k] == OutputChange(Lookup(base.outputs, k), Lookup(view.outputs, k)))
            && (id in d.active <==> (id in base.active) != (id in view.active))
            && (id in d.active ==> d.active[id] == MembershipChange(id in base.active, id in view.active))
            && (id in d.retired <==> (id in base.retired) != (id in view.retired))
            && (id in d.retired ==> d.retired[id] == MembershipChange(id in base.retired, id in view.retired))
  {
  }

  /**
   * The delta is the least one: any delta that passes the staleness test on the base and patches it to the
   * view holds every entry of this one, and only redundant entries besides.
   */
  lemma DeltaIsMinimal(base: UtxoSet, view: UtxoSet, d: UtxoDelta, k: OutPoint, id: Digest)
    requires Matches(d, base) && Patch(base, d) == view
    ensures var least := Diff(base, view);
            && (k in least.outputs ==> k in d.outputs && d.outputs[k] == least.outputs[k])
            && (k in d.outputs && k !in least.outputs ==> d.outputs[k].previous == d.outputs[k].next)
            && (id in least.active ==> id in d.active && d.active[id] == least.active[id])
            && (id in d.active && id !in least.active ==> d.active[id].previous == d.active[id].next)
            && (id in least.retired ==> id in d.retired && d.retired[id] == least.retired[id])
            && (id in d.retired && id !in least.retired ==> d.retired[id].previous == d.retired[id].next)
  {
    hide Diff;
    DeltaEntries(base, view, k, id);
    assert Lookup(view.outputs, k) == if k in d.outputs then d.outputs[k].next else Lookup(base.outputs, k);
    assert id in view.active <==> if id in d.active then d.active[id].next else id in base.active;
    assert id in view.retired <==> if id in d.retired then d.retired[id].next else id in base.retired;
  }

  /** The mutation loops over the three change maps. */
  method ApplyDelta(d: UtxoDelta, u: UtxoSet) returns (r: UtxoSet)
    ensures r == Patch(u, d)
  {
    var outputs := PatchOutputsLoop(u.outputs, d.outputs);
    var active := PatchMembersLoop(u.active, d.active);
    var retired := PatchMembersLoop(u.retired, d.retired);
    r := UtxoSet(outputs, active, retired);
  }

  lemma PatchedEverywhere(u: map<OutPoint, TxOutput>, d: map<OutPoint, OutputChange>, r: map<OutPoint, TxOutput>)
    requires forall k :: Lookup(r, k) == if k in d then d[k].next else Lookup(u, k)
    ensures r == PatchOutputs(u, d)
  {
    var p := PatchOutputs(u, d);
    forall k ensures Lookup(p, k) == Lookup(r, k) {
      assert Lookup(r, k) == if k in d then d[k].next else Lookup(u, k);
    }
    SameLookup(r, p);
  }

  method PatchOutputsLoop(u: map<OutPoint, TxOutput>, d: map<OutPoint, OutputChange>)
    returns (r: map<OutPoint, TxOutput>)
    ensures r == PatchOutputs(u, d)
  {
    hide PatchOutputs;
    r := u;
    var left := d.Keys;
    while left != {}
      invariant left <= d.Keys
      invariant forall k :: Lookup(r, k) == if k in d && k !in left then d[k].next else Lookup(u, k)
      decreases |left|
    {
      var k :| k in left;
      ghost var before := r;
      match d[k].next {
        case Some(output) => r := r[k := output];
        case None => r := r - {k};
      }
      assert forall q :: q != k ==> Lookup(r, q) == Lookup(before, q);
      left := left - {k};
    }
    PatchedEverywhere(u, d, r);
  }

  method PatchMembersLoop(u: set<Digest>, d: map<Digest, MembershipChange>) returns (r: set<Digest>)
    ensures r == PatchMembers(u, d)
  {
    r := u;
    var left := d.Keys;
    while left != {}
      invariant left <= d.Keys
      invariant forall k :: k in r <==> if k in d && k !in left then d[k].next else k in u
      decreases |left|
    {
      var k :| k in left;
      if d[k].next { r := r + {k}; } else { r := r - {k}; }
      left := left - {k};
    }
  }

  // ----- staging ----------------------------------------------------------------------------------

  /** The entry-or-insert step shared by both membership maps. */
  method StageMembership(changes: map<Digest, MembershipChange>, id: Digest, previous: bool, next: bool)
    returns (r: map<Digest, MembershipChange>)
    ensures var recorded := if id in changes then changes[id].previous else previous;
            r == if recorded == next then changes - {id} else changes[id := MembershipChange(recorded, next)]
  {
    var recorded := if id in changes then changes[id].previous else previous;
    r := changes[id := MembershipChange(recorded, next)];
    if recorded == next {
      r := r - {id};
      assert r == changes - {id};
    }
  }

  lemma StagedMembers(base: set<Digest>, view: set<Digest>, id: Digest, next: bool)
    ensures var view' := if next then view + {id} else view - {id};
            DiffMembers(base, view')
            == if (id in base) == next then DiffMembers(base, view) - {id}
               else DiffMembers(base, view)[id := MembershipChange(id in base, next)]
  {
  }

  function SetOutput(m: map<OutPoint, TxOutput>, op: OutPoint, next: Option<TxOutput>): map<OutPoint, TxOutput> {
    if next.Some? then m[op := next.value] else m - {op}
  }

  lemma StagedOutputs(base: map<OutPoint, TxOutput>, view: map<OutPoint, TxOutput>, op: OutPoint,
                      next: Option<TxOutput>)
    ensures DiffOutputs(base, SetOutput(view, op, next))
         == if Lookup(base, op) == next then DiffOutputs(base, view) - {op}
            else DiffOutputs(base, view)[op := OutputChange(Lookup(base, op), next)]
  {
    var d := DiffOutputs(base, view);
    var v := SetOutput(view, op, next);
    var d' := DiffOutputs(base, v);
    var e := if Lookup(base, op) == next then d - {op} else d[op := OutputChange(Lookup(base, op), next)];
    assert Lookup(v, op) == next;
    assert forall k :: k != op ==> Lookup(v, k) == Lookup(view, k);
    forall k ensures (k in d' <==> k in e) && (k in d' ==> d'[k] == e[k]) {
      assert k in d <==> Lookup(base, k) != Lookup(view, k);
      assert k in d' <==> Lookup(base, k) != Lookup(v, k);
    }
  }

  // ----- loops stop at the first error --------------------------------------------------------------

  lemma {:induction false} InsertErrs(u: UtxoSet, txid: Digest, outputs: seq<TxOutput>, i: nat, n: nat)
    requires i <= n <= |outputs| && InsertOutputs(u, txid, outputs, i).Err?
    ensures InsertOutputs(u, txid, outputs, n) == InsertOutputs(u, txid, outputs, i)
    decreases n
  {
    hide InsertOutput;
    if i < n { InsertErrs(u, txid, outputs, i, n - 1); }
  }

  lemma {:induction false} SpendErrs(c: Crypto, outputs: map<OutPoint, TxOutput>, digest: Digest, height: u64,
                                     inputs: seq<TxInput>, i: nat, n: nat, spent: set<OutPoint>)
    requires i <= n <= |inputs| && SpendKeyInputs(c, outputs, digest, height, inputs, i, spent).Err?
    ensures SpendKeyInputs(c, outputs, digest, height, inputs, n, spent)
         == SpendKeyInputs(c, outputs, digest, height, inputs, i, spent)
    decreases n
  {
    hide SpendKeyInput;
    if i < n { SpendErrs(c, outputs, digest, height, inputs, i, n - 1, spent); }
  }

  lemma {:induction false} SumErrs(outputs: seq<TxOutput>, i: nat, n: nat)
    requires i <= n <= |outputs| && OutputSum(outputs, i).Err?
    ensures OutputSum(outputs, n) == OutputSum(outputs, i)
    decreases n
  {
    if i < n { SumErrs(outputs, i, n - 1); }
  }

  lemma {:induction false} ApplyErrs(c: Crypto, u: UtxoSet, ts: seq<Transaction>, i: nat, n: nat, height: u64,
                                     network: Digest)
    requires i <= n <= |ts| && ApplyTransactions(c, u, ts, i, height, network).Err?
    ensures ApplyTransactions(c, u, ts, n, height, network) == ApplyTransactions(c, u, ts, i, height, network)
    decreases n
  {
    hide ApplyTransaction;
    if i < n { ApplyErrs(c, u, ts, i, n - 1, height, network); }
  }

  method SumOutputs(outputs: seq<TxOutput>) returns (r: Result<u64, ChainError>)
    ensures r == OutputSum(outputs, |outputs|)
  {
    var sum: u64 := 0;
    var i := 0;
    while i < |outputs|
      invariant 0 <= i <= |outputs|
      invariant OutputSum(outputs, i) == Ok(sum)
    {
      if sum + outputs[i].value > U64_MAX {
        SumErrs(outputs, i + 1, |outputs|);
        return Err(AmountOverflow);
      }
      sum := sum + outputs[i].value;
      i := i + 1;
    }
    return Ok(sum);
  }

  /** What a staged transaction reports: the inputs spent so far and the fee it burns. */
  datatype Charge = Charge(spent: set<OutPoint>, fee: u64)

  /** The staged outcome is the direct one: same verdict, same error, same charge. */
  ghost predicate Refines(r: Result<Charge, ChainError>, view: UtxoSet, direct: Result<Applied, ChainError>) {
    match r
    case Ok(charge) => direct == Ok(Applied(view, charge.spent, charge.fee))
    case Err(e) => direct == Err(e)
  }

  /**
   * Staged changes over an immutable base. The ghost view is the set that direct mutation of a copy of
   * the base would have reached.
   */
  class UtxoOverlay {
    const base: UtxoSet
    var outputs: map<OutPoint, OutputChange>
    var active: map<Digest, MembershipChange>
    var retired: map<Digest, MembershipChange>
    ghost var view: UtxoSet

    ghost predicate Valid()
      reads this
    {
      UtxoDelta(outputs, active, retired) == Diff(base, view)
    }

    constructor (base: UtxoSet)
      ensures Valid() && this.base == base && view == base
    {
      this.base := base;
      outputs, active, retired := map[], map[], map[];
      view := base;
    }

    function Get(op: OutPoint): Option<TxOutput>
      reads this
    {
      if op in outputs then outputs[op].next else Lookup(base.outputs, op)
    }

    function ContainsActive(id: Digest): bool
      reads this
    {
      if id in active then active[id].next else id in base.active
    }

    function ContainsRetired(id: Digest): bool
      reads this
    {
      if id in retired then retired[id].next else id in base.retired
    }

    /** Reads through the overlay are reads of the view. */
    lemma ReadsAgree(op: OutPoint, id: Digest)
      requires Valid()
      ensures Get(op) == Lookup(view.outputs, op)
      ensures ContainsActive(id) == (id in view.active)
      ensures ContainsRetired(id) == (id in view.retired)
    {
      DeltaEntries(base, view, op, id);
    }

    method StageOutput(op: OutPoint, next: Option<TxOutput>)
      requires Valid()
      modifies this
      ensures Valid()
      ensures view == old(view).(outputs := SetOutput(old(view).outputs, op, next))
    {
      StagedOutputs(base.outputs, view.outputs, op, next);
      DeltaEntries(base, view, op, ZERO_DIGEST);
      var recorded := if op in outputs then outputs[op].previous else Lookup(base.outputs, op);
      var staged := outputs[op := OutputChange(recorded, next)];
      if recorded == next {
        assert staged - {op} == outputs - {op};
        staged := staged - {op};
      }
      outputs := staged;
      view := view.(outputs := SetOutput(view.outputs, op, next));
    }

    method StageActive(id: Digest, next: bool)
      requires Valid()
      modifies this
      ensures Valid()
      ensures view == old(view).(active := if next then old(view).active + {id} else old(view).active - {id})
    {
      StagedMembers(base.active, view.active, id, next);
      active := StageMembership(active, id, id in base.active, next);
      view := view.(active := if next then view.active + {id} else view.active - {id});
    }

    method StageRetired(id: Digest, next: bool)
      requires Valid()
      modifies this
      ensures Valid()
      ensures view == old(view).(retired := if next then old(view).retired + {id} else old(view).retired - {id})
    {
      StagedMembers(base.retired, view.retired, id, next);
      retired := StageMembership(retired, id, id in base.retired, next);
      view := view.(retired := if next then view.retired + {id} else view.retired - {id});
    }

    method Insert(op: OutPoint, o: TxOutput) returns (r: Result<(), ChainError>)
      requires Valid()
      modifies this
      ensures Valid()
      ensures var direct := InsertOutput(old(view), op, o);
              && (r.Ok? <==> direct.Ok?)
              && (direct.Ok? ==> view == direct.value)
              && (direct.Err? ==> r.error == direct.error && view == old(view))
    {
      hide Diff;
      if o.value == 0 { return Err(ZeroValueOutput); }
      if o.lock.ChannelLock? {
        ReadsAgree(op, o.lock.channelId);
        if ContainsActive(o.lock.channelId) || ContainsRetired(o.lock.channelId) { return Err(DuplicateChannel); }
      }
      ReadsAgree(op, ZERO_DIGEST);
      if Get(op).Some? { return Err(TxidCollision); }
      if o.lock.ChannelLock? { StageActive(o.lock.channelId, true); }
      StageOutput(op, Some(o));
      return Ok(());
    }

    method InsertAll(txid: Digest, outs: seq<TxOutput>) returns (r: Result<(), ChainError>)
      requires Valid()
      modifies this
      ensures Valid()
      ensures var direct := InsertOutputs(old(view), txid, outs, |outs|);
              && (r.Ok? <==> direct.Ok?)
              && (direct.Ok? ==> view == direct.value)
              && (direct.Err? ==> r.error == direct.error)
    {
      hide Diff, InsertOutput;
      var i := 0;
      while i < |outs|
        invariant 0 <= i <= |outs| && Valid()
        invariant InsertOutputs(old(view), txid, outs, i) == Ok(view)
      {
        assert InsertOutputs(old(view), txid, outs, i + 1) == InsertOutput(view, OutputPoint(txid, i), outs[i]);
        var inserted := Insert(OutputPoint(txid, i), outs[i]);
        if inserted.Err? {
          InsertErrs(old(view), txid, outs, i + 1, |outs|);
          return inserted;
        }
        i := i + 1;
      }
      return Ok(());
    }

    /** One key input, read through the overlay. */
    method SpendOne(c: Crypto, digest: Digest, height: u64, input: TxInput, s: Spending)
      returns (r: Result<Spending, ChainError>)
      requires Valid()
      ensures r == SpendKeyInput(c, view.outputs, digest, height, input, s)
    {
      hide Diff;
      if input.previous in s.spent { return Err(DuplicateInput); }
      ReadsAgree(input.previous, ZERO_DIGEST);
      if Get(input.previous).None? { return Err(MissingInput); }
      var previous := Get(input.previous).value;
      if height < previous.spendableHeight { return Err(ImmatureInput(previous.spendableHeight)); }
      if !previous.lock.KeyLock? || !input.evidence.KeyWitness? { return Err(WrongWitness); }
      var key, signature := input.evidence.publicKey, input.evidence.signature;
      if key != previous.lock.owner { return Err(WrongOwner); }
      if !c.channel.validKey(key) || !c.channel.wellFormedSignature(signature) { return Err(MalformedSignature); }
      if !c.channel.verifies(key, digest, signature) { return Err(InvalidSignature); }
      if s.total + previous.value > U64_MAX { return Err(AmountOverflow); }
      return Ok(Spending(s.spent + {input.previous}, s.total + previous.value));
    }

    /** The key-input loop; nothing is staged until every input has passed. */
    method SpendInputs(c: Crypto, digest: Digest, height: u64, inputs: seq<TxInput>, spent: set<OutPoint>)
      returns (r: Result<Spending, ChainError>)
      requires Valid()
      ensures r == SpendKeyInputs(c, view.outputs, digest, height, inputs, |inputs|, spent)
    {
      hide Diff;
      var s := Spending(spent, 0);
      var i := 0;
      while i < |inputs|
        invariant 0 <= i <= |inputs|
        invariant SpendKeyInputs(c, view.outputs, digest, height, inputs, i, spent) == Ok(s)
      {
        var input := inputs[i];
        var next := SpendOne(c, digest, height, input, s);
        if next.Err? {
          SpendErrs(c, view.outputs, digest, height, inputs, i + 1, |inputs|, spent);
          return next;
        }
        s := next.value;
        i := i + 1;
      }
      return Ok(s);
    }

    method RemoveAll(inputs: seq<TxInput>)
      requires Valid()
      modifies this
      ensures Valid() && view == RemoveInputs(old(view), inputs, |inputs|)
    {
      hide Diff;
      var i := 0;
      while i < |inputs|
        invariant 0 <= i <= |inputs| && Valid()
        invariant view == RemoveInputs(old(view), inputs, i)
      {
        StageOutput(inputs[i].previous, None);
        i := i + 1;
      }
    }

    /** An error may leave changes staged; the caller then discards the overlay. */
    method ApplyKey(c: Crypto, t: Transaction, height: u64, spent: set<OutPoint>)
      returns (r: Result<Charge, ChainError>)
      requires Valid()
      modifies this
      ensures Valid() && Refines(r, view, ApplyKeyTransaction(c, old(view), spent, t, height))
    {
      hide Diff, SpendKeyInputs, InsertOutputs, RemoveInputs, OutputSum;
      var s := SpendInputs(c, c.signingDigest(t), height, t.inputs, spent);
      if s.Err? { return Err(s.error); }
      var total := SumOutputs(t.outputs);
      if total.Err? { return Err(total.error); }
      if total.value > s.value.total { return Err(CreatesValue); }
      RemoveAll(t.inputs);
      var inserted := InsertAll(c.txid(t), t.outputs);
      if inserted.Err? { return Err(inserted.error); }
      return Ok(Charge(s.value.spent, s.value.total - total.value));
    }

    method ApplyChannel(c: Crypto, t: Transaction, height: u64, network: Digest, spent: set<OutPoint>)
      returns (r: Result<Charge, ChainError>)
      requires Valid()
      modifies this
      ensures Valid() && Refines(r, view, ApplyChannelTransaction(c, old(view), spent, t, height, network))
    {
      hide Diff, InsertOutputs, OutputSum, CloseChannel;
      if |t.inputs| != 1 { return Err(ChannelCloseShape); }
      var op := t.inputs[0].previous;
      if op in spent { return Err(DuplicateInput); }
      ReadsAgree(op, ZERO_DIGEST);
      if Get(op).None? { return Err(MissingInput); }
      var previous := Get(op).value;
      if height < previous.spendableHeight { return Err(ImmatureInput(previous.spendableHeight)); }
      if !previous.lock.ChannelLock? { return Err(WrongWitness); }
      var id := previous.lock.channelId;
      var closing := CloseChannel(c, t.inputs[0].evidence, network, id, previous.value, height);
      if closing.Err? { return Err(closing.error); }
      if t.outputs != closing.value.outputs { return Err(ChannelCloseShape); }
      var total := SumOutputs(t.outputs);
      if total.Err? { return Err(total.error); }
      if total.value + closing.value.fee > U64_MAX { return Err(AmountOverflow); }
      if total.value + closing.value.fee != previous.value { return Err(ChannelCloseShape); }
      StageOutput(op, None);
      StageActive(id, false);
      StageRetired(id, true);
      assert view == Retire(old(view), op, id);
      var inserted := InsertAll(c.txid(t), t.outputs);
      if inserted.Err? { return Err(inserted.error); }
      return Ok(Charge(spent + {op}, closing.value.fee));
    }

    method Apply(c: Crypto, t: Transaction, height: u64, network: Digest, spent: set<OutPoint>)
      returns (r: Result<Charge, ChainError>)
      requires Valid()
      modifies this
      ensures Valid() && Refines(r, view, ApplyTransaction(c, old(view), spent, t, height, network))
    {
      hide Diff, ApplyKeyTransaction, ApplyChannelTransaction;
      if t.networkId != network { return Err(WrongNetwork); }
      if t.version != TRANSACTION_VERSION { return Err(UnsupportedTransactionVersion); }
      if t.inputs == [] { return Err(NoInputs); }
      if t.outputs == [] { return Err(NoOutputs); }
      if HasZeroOutput(t.outputs) { return Err(ZeroValueOutput); }
      if !AllKeys(t.inputs) {
        r := ApplyChannel(c, t, height, network, spent);
      } else {
        r := ApplyKey(c, t, height, spent);
      }
    }

    /** The block loop over transactions with the checked fee total. */
    method ApplyAll(c: Crypto, ts: seq<Transaction>, height: u64, network: Digest)
      returns (r: Result<Charge, ChainError>)
      requires Valid()
      modifies this
      ensures Valid() && Refines(r, view, ApplyTransactions(c, old(view), ts, |ts|, height, network))
    {
      hide Diff, ApplyTransaction;
      var spent: set<OutPoint>, fees: u64 := {}, 0;
      var i := 0;
      while i < |ts|
        invariant 0 <= i <= |ts| && Valid()
        invariant ApplyTransactions(c, old(view), ts, i, height, network) == Ok(Applied(view, spent, fees))
      {
        ghost var before := view;
        var applied := Apply(c, ts[i], height, network, spent);
        if applied.Err? || fees + applied.value.fee > U64_MAX {
          ApplyErrs(c, old(view), ts, i + 1, |ts|, height, network);
          return Err(if applied.Err? then applied.error else AmountOverflow);
        }
        spent, fees := applied.value.spent, fees + applied.value.fee;
        i := i + 1;
      }
      return Ok(Charge(spent, fees));
    }
  }
}
