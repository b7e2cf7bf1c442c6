/** The codec as the program runs it: a bounded Writer, an offset-advancing Reader, and loops. */
module Wire {
  import opened Prelude
  import opened Bytes
  import opened Ledger
  import opened WireFormat
  import opened WireObjects
  import M = Marketplace

  // ----- lists built front to back ------------------------------------------------------------

  lemma {:induction false} WriteManyAppend<T>(write: T -> seq<byte>, xs: seq<T>, x: T)
    ensures WriteMany(write, xs + [x]) == WriteMany(write, xs) + write(x)
  {
    if xs == [] {
      assert [x][1..] == [];
      assert write(x) + [] == write(x);
    } else {
      WriteManyAppend(write, xs[1..], x);
      assert (xs + [x])[1..] == xs[1..] + [x];
      Regroup(write(xs[0]), WriteMany(write, xs[1..]), write(x));
    }
  }

  lemma {:induction false} WriteManyGrows<T>(write: T -> seq<byte>, xs: seq<T>, i: nat)
    requires i <= |xs|
    ensures |WriteMany(write, xs[..i])| <= |WriteMany(write, xs)|
  {
    if i > 0 {
      WriteManyGrows(write, xs[1..], i - 1);
      assert xs[..i][1..] == xs[1..][..i - 1];
    }
  }

  /** One iteration of an encoding loop: element i extends what was written and stays below the whole. */
  lemma ListStep<T>(write: T -> seq<byte>, start: seq<byte>, xs: seq<T>, i: nat)
    requires i < |xs|
    ensures start + WriteMany(write, xs[..i + 1]) == (start + WriteMany(write, xs[..i])) + write(xs[i])
    ensures |start + WriteMany(write, xs[..i])| + |write(xs[i])| <= |start| + |WriteMany(write, xs)|
  {
    assert xs[..i + 1] == xs[..i] + [xs[i]];
    WriteManyAppend(write, xs[..i], xs[i]);
    WriteManyGrows(write, xs, i + 1);
    Regroup(start, WriteMany(write, xs[..i]), write(xs[i]));
  }

  lemma ListWhole<T>(write: T -> seq<byte>, xs: seq<T>)
    ensures WriteMany(write, xs[..|xs|]) == WriteMany(write, xs) && WriteMany(write, xs[..0]) == []
  {
    assert xs[..|xs|] == xs;
  }

  /** A decoding loop's trace: marks[i] is what was left before element i was read. */
  ghost predicate Chain<T>(read: seq<byte> -> Parsed<T>, marks: seq<seq<byte>>, done: seq<T>) {
    && |marks| == |done| + 1
    && forall i :: 0 <= i < |done| ==> read(marks[i]) == Done(done[i], marks[i + 1])
  }

  lemma {:induction false} ChainDone<T>(read: seq<byte> -> Parsed<T>, marks: seq<seq<byte>>, done: seq<T>)
    requires Chain(read, marks, done)
    ensures ReadMany(read, marks[0], |done|) == Done(done, marks[|done|])
    decreases |done|
  {
    if done != [] {
      ChainDone(read, marks[1..], done[1..]);
      assert [done[0]] + done[1..] == done;
    }
  }

  lemma {:induction false} ChainFails<T>(read: seq<byte> -> Parsed<T>, marks: seq<seq<byte>>, done: seq<T>, count: nat)
    requires Chain(read, marks, done) && |done| < count
    requires read(marks[|done|]).Fail?
    ensures ReadMany(read, marks[0], count).Fail?
    decreases |done|
  {
    if done != [] {
      ChainFails(read, marks[1..], done[1..], count - 1);
    }
  }

  lemma {:induction false} ChainPrefix<T>(read: seq<byte> -> Parsed<T>, marks: seq<seq<byte>>, done: seq<T>, count: nat)
    requires Chain(read, marks, done) && |done| <= count && ReadMany(read, marks[0], count).Done?
    ensures ReadMany(read, marks[0], count).value[..|done|] == done
    decreases |done|
  {
    if done != [] {
      ChainPrefix(read, marks[1..], done[1..], count - 1);
    }
  }

  /** Once a prefix of the transactions is over a limit, the whole list is. */
  lemma LimitPassed(read: seq<byte> -> Parsed<Transaction>, marks: seq<seq<byte>>, done: seq<Transaction>, count: nat)
    requires Chain(read, marks, done) && |done| <= count && !Usage(done).WithinBlockLimits()
    ensures var p := ReadMany(read, marks[0], count); p.Done? ==> !Usage(p.value).WithinBlockLimits()
  {
    var p := ReadMany(read, marks[0], count);
    if p.Done? {
      ChainPrefix(read, marks, done, count);
      UsageMonotone(p.value, |done|);
    }
  }

  // ----- Writer -------------------------------------------------------------------------------

  lemma DigestStep(start: seq<byte>, values: seq<Digest>, i: nat)
    requires i < |values|
    ensures start + DigestList(values[..i + 1]) == (start + DigestList(values[..i])) + values[i]
    ensures |start + DigestList(values[..i])| + |values[i]| <= |start| + |DigestList(values)|
  {
    hide WriteMany;
    ListStep((d: Digest) => d, start, values, i);
  }

  lemma DigestStart(values: seq<Digest>)
    ensures DigestList(values[..0]) == []
  {
  }

  class Writer {
    var bytes: seq<byte>
    const limit: nat

    constructor (limit: nat)
      ensures bytes == [] && this.limit == limit
    {
      this.bytes := [];
      this.limit := limit;
    }

    /** Appends when the bound allows it and otherwise refuses without writing. */
    method Put(value: seq<byte>) returns (ok: bool)
      modifies this
      ensures ok <==> |old(bytes)| + |value| <= limit
      ensures bytes == if ok then old(bytes) + value else old(bytes)
    {
      ok := |bytes| + |value| <= limit;
      if ok { bytes := bytes + value; }
    }

    method PutU64s(values: seq<u64>) returns (ok: bool)
      modifies this
      ensures ok <==> |old(bytes)| + |U64List(values)| <= limit
      ensures ok ==> bytes == old(bytes) + U64List(values)
    {
      var i := 0;
      while i < |values|
        invariant 0 <= i <= |values|
        invariant bytes == old(bytes) + U64List(values[..i])
        invariant |bytes| <= limit || i == 0
      {
        ListStep(U64Bytes, old(bytes), values, i);
        ok := Put(U64Bytes(values[i]));
        if !ok { return false; }
        i := i + 1;
      }
      assert values[..|values|] == values;
      ok := |values| > 0 || |bytes| <= limit;
    }

    method PutDigests(values: seq<Digest>) returns (ok: bool)
      modifies this
      ensures ok <==> |old(bytes)| + |DigestList(values)| <= limit
      ensures ok ==> bytes == old(bytes) + DigestList(values)
    {
      hide DigestList;
      DigestStart(values);
      var i := 0;
      while i < |values|
        invariant 0 <= i <= |values|
        invariant bytes == old(bytes) + DigestList(values[..i])
        invariant |bytes| <= limit || i == 0
      {
        DigestStep(old(bytes), values, i);
        ok := Put(values[i]);
        if !ok { return false; }
        i := i + 1;
      }
      assert values[..|values|] == values;
      ok := |values| > 0 || |bytes| <= limit;
    }

    method PutCount(count: nat, maximum: nat) returns (ok: bool)
      requires maximum <= U32_MAX
      modifies this
      ensures ok <==> count <= maximum && |old(bytes)| + 4 <= limit
      ensures ok ==> bytes == old(bytes) + CountBytes(count)
    {
      if count > maximum { return false; }
      ok := Put(CountBytes(count));
    }

    method PutSized(value: seq<byte>, maximumFrame: nat) returns (ok: bool)
      requires maximumFrame <= U32_MAX
      modifies this
      ensures ok <==> |value| + WIRE_HEADER_BYTES <= maximumFrame && |old(bytes)| + |SizedBytes(value)| <= limit
      ensures ok ==> bytes == old(bytes) + SizedBytes(value)
    {
      if |value| + WIRE_HEADER_BYTES > maximumFrame { return false; }
      Regroup(bytes, CountBytes(|value|), value);
      ok := Put(CountBytes(|value|));
      if !ok { return false; }
      ok := Put(value);
    }

    method PutSignature(signature: seq<byte>) returns (ok: bool)
      modifies this
      ensures ok <==> |signature| == CONSENSUS_SIGNATURE_BYTES && |old(bytes)| + |signature| <= limit
      ensures ok ==> bytes == old(bytes) + signature
    {
      if |signature| != CONSENSUS_SIGNATURE_BYTES { return false; }
      ok := Put(signature);
    }

    method PutOutput(o: TxOutput) returns (ok: bool)
      modifies this
      ensures ok <==> |old(bytes)| + |OutputBytes(o)| <= limit
      ensures ok ==> bytes == old(bytes) + OutputBytes(o)
    {
      ok := Put(U64Bytes(o.value));
      if !ok { return; }
      match o.lock {
        case KeyLock(owner) =>
          ok := Put([0]);
          if !ok { return; }
          ok := Put(owner);
        case ChannelLock(id) =>
          ok := Put([1]);
          if !ok { return; }
          ok := Put(id);
      }
      if !ok { return; }
      assert bytes == old(bytes) + (U64Bytes(o.value) + LockBytes(o.lock));
      ok := Put(U64Bytes(o.spendableHeight));
    }

    method PutOutputs(outputs: seq<TxOutput>, maximum: nat) returns (ok: bool)
      requires maximum <= U32_MAX
      modifies this
      ensures ok <==> |outputs| <= maximum && |old(bytes)| + |OutputSection(outputs)| <= limit
      ensures ok ==> bytes == old(bytes) + OutputSection(outputs)
    {
      ok := PutCount(|outputs|, maximum);
      if !ok { return; }
      ghost var start := bytes;
      var i := 0;
      while i < |outputs|
        invariant 0 <= i <= |outputs|
        invariant bytes == start + OutputList(outputs[..i]) && |bytes| <= limit
      {
        ListStep(OutputBytes, start, outputs, i);
        ok := PutOutput(outputs[i]);
        if !ok { return; }
        i := i + 1;
      }
      ListWhole(OutputBytes, outputs);
      Regroup(old(bytes), CountBytes(|outputs|), OutputList(outputs));
      ok := true;
    }

    method PutTerms(t: M.ChannelTerms) returns (ok: bool)
      modifies this
      ensures ok <==> |old(bytes)| + |TermsBytes(t)| <= limit
      ensures ok ==> bytes == old(bytes) + TermsBytes(t)
    {
      Regroup(bytes, DigestList(TermsDigests(t)), U64List(TermsAmounts(t)));
      ok := PutDigests(TermsDigests(t));
      if !ok { return; }
      ok := PutU64s(TermsAmounts(t));
    }

    method PutState(s: M.PaymentState) returns (ok: bool)
      modifies this
      ensures ok <==> |old(bytes)| + |StateBytes(s)| <= limit
      ensures ok ==> bytes == old(bytes) + StateBytes(s)
    {
      ok := Put(s.channelId);
      if !ok { return; }
      Regroup(old(bytes), s.channelId, U64List(StateAmounts(s)));
      ok := PutU64s(StateAmounts(s));
      if !ok { return; }
      Regroup(old(bytes), s.channelId + U64List(StateAmounts(s)), s.previousReceipt);
      ok := Put(s.previousReceipt);
    }

    method PutEvidence(w: InputWitness) returns (ok: bool)
      modifies this
      ensures ok <==> CanonicalSignatures(w) && |old(bytes)| + |EvidenceBytes(w)| <= limit
      ensures ok ==> bytes == old(bytes) + EvidenceBytes(w)
    {
      match w {
        case KeyWitness(key, signature) =>
          ok := Put([0]);
          if !ok { return; }
          ok := Put(key);
          if !ok { return; }
          Regroup(old(bytes), [0], key + signature);
          Regroup(old(bytes) + [0], key, signature);
          ok := PutSignature(signature);
        case SettlementWitness(terms, s) =>
          Regroup(bytes, [1], SettlementBytes(terms, s));
          ok := Put([1]);
          if !ok { return; }
          ok := PutSettlement(terms, s);
        case RefundWitness(terms) =>
          Regroup(bytes, [2], TermsBytes(terms));
          ok := Put([2]);
          if !ok { return; }
          ok := PutTerms(terms);
      }
    }

    method PutSettlement(terms: M.ChannelTerms, s: M.Settlement) returns (ok: bool)
      modifies this
      ensures ok <==> CanonicalSignatures(SettlementWitness(terms, s))
                      && |old(bytes)| + |SettlementBytes(terms, s)| <= limit
      ensures ok ==> bytes == old(bytes) + SettlementBytes(terms, s)
    {
      var customer, provider := s.state.customerSignature, s.providerSignature;
      ghost var state := StateBytes(s.state.state);
      Regroup(bytes, TermsBytes(terms), state + (customer + provider));
      Regroup(bytes + TermsBytes(terms), state, customer + provider);
      Regroup(bytes + TermsBytes(terms) + state, customer, provider);
      ok := PutTerms(terms);
      if !ok { return; }
      ok := PutState(s.state.state);
      if !ok { return; }
      ok := PutSignature(customer);
      if !ok { return; }
      ok := PutSignature(provider);
    }

    method PutInput(i: TxInput) returns (ok: bool)
      modifies this
      ensures ok <==> CanonicalSignatures(i.evidence) && |old(bytes)| + |InputBytes(i)| <= limit
      ensures ok ==> bytes == old(bytes) + InputBytes(i)
    {
      Regroup(bytes, i.previous.txid, U32Bytes(i.previous.index) + EvidenceBytes(i.evidence));
      Regroup(bytes + i.previous.txid, U32Bytes(i.previous.index), EvidenceBytes(i.evidence));
      ok := Put(i.previous.txid);
      if !ok { return; }
      ok := Put(U32Bytes(i.previous.index));
      if !ok { return; }
      ok := PutEvidence(i.evidence);
    }

    method PutInputs(inputs: seq<TxInput>) returns (ok: bool)
      requires forall i :: 0 <= i < |inputs| ==> CanonicalSignatures(inputs[i].evidence)
      modifies this
      ensures ok <==> |inputs| <= MAX_TRANSACTION_INPUTS && |old(bytes)| + |InputSection(inputs)| <= limit
      ensures ok ==> bytes == old(bytes) + InputSection(inputs)
    {
      ok := PutCount(|inputs|, MAX_TRANSACTION_INPUTS);
      if !ok { return; }
      ghost var start := bytes;
      var i := 0;
      while i < |inputs|
        invariant 0 <= i <= |inputs|
        invariant bytes == start + InputList(inputs[..i]) && |bytes| <= limit
      {
        ListStep(InputBytes, start, inputs, i);
        ok := PutInput(inputs[i]);
        if !ok { return; }
        i := i + 1;
      }
      ListWhole(InputBytes, inputs);
      Regroup(old(bytes), CountBytes(|inputs|), InputList(inputs));
      ok := true;
    }

    method PutChallenge(c: BlockChallenge) returns (ok: bool)
      modifies this
      ensures ok <==> |old(bytes)| + |ChallengeBytes(c)| <= limit
      ensures ok ==> bytes == old(bytes) + ChallengeBytes(c)
    {
      var d, n := [c.networkId, c.previousBlock, c.transactionRoot], [c.height, c.timestamp];
      Regroup(bytes, DigestList(d), U64List(n) + TargetBytes(c.target));
      Regroup(bytes + DigestList(d), U64List(n), TargetBytes(c.target));
      ok := PutDigests(d);
      if !ok { return; }
      ok := PutU64s(n);
      if !ok { return; }
      ok := Put(TargetBytes(c.target));
    }

    method PutCoinbase(c: Coinbase) returns (ok: bool)
      modifies this
      ensures ok <==> |c.outputs| <= MAX_COINBASE_OUTPUTS && |old(bytes)| + |CoinbaseBytes(c)| <= limit
      ensures ok ==> bytes == old(bytes) + CoinbaseBytes(c)
    {
      Regroup(bytes, U64Bytes(c.height), OutputSection(c.outputs));
      ok := Put(U64Bytes(c.height));
      if !ok { return; }
      ok := PutOutputs(c.outputs, MAX_COINBASE_OUTPUTS);
    }
  }

  // ----- encoders -----------------------------------------------------------------------------

  method EncodeTransactionPayload(t: Transaction) returns (r: Option<seq<byte>>)
    ensures r == if PayloadEncodable(t, t.networkId) then Some(TransactionPayload(t)) else None
  {
    if !TransactionShape(t, t.networkId) { return None; }
    var w := new Writer(MAX_TRANSACTION_BYTES - WIRE_HEADER_BYTES);
    var ok := w.Put(t.networkId);
    if !ok { return None; }
    ok := w.Put(U32Bytes(t.version));
    if !ok { return None; }
    assert forall i :: 0 <= i < |t.inputs| ==> EvidenceShape(t.inputs[i].evidence, t.networkId);
    ok := w.PutInputs(t.inputs);
    if !ok { return None; }
    ok := w.PutOutputs(t.outputs, MAX_TRANSACTION_OUTPUTS);
    if !ok { return None; }
    assert w.bytes == TransactionPayload(t) by {
      var i, o := InputSection(t.inputs), OutputSection(t.outputs);
      Regroup(t.networkId, U32Bytes(t.version), i);
      Regroup(t.networkId + U32Bytes(t.version), i, o);
      Regroup(t.networkId, U32Bytes(t.version), i + o);
      assert [] + t.networkId == t.networkId;
    }
    return Some(w.bytes);
  }

  method EncodeFrame(magic: NetworkMagic, kind: byte, network: Digest, payload: seq<byte>, maximum: nat)
    returns (r: Option<seq<byte>>)
    requires maximum <= U32_MAX
    ensures r == if |payload| + WIRE_HEADER_BYTES <= maximum
                 then Some(Frame(magic, kind, network, payload)) else None
  {
    if |payload| + WIRE_HEADER_BYTES > maximum { return None; }
    return Some(FrameHeader(magic, kind, network) + SizedBytes(payload));
  }

  method EncodeTransactionFrame(magic: NetworkMagic, t: Transaction) returns (r: Option<seq<byte>>)
    ensures r == EncodeTransaction(magic, t)
  {
    var payload := EncodeTransactionPayload(t);
    if payload.None? { return None; }
    r := EncodeFrame(magic, TRANSACTION_KIND, t.networkId, payload.value, MAX_TRANSACTION_BYTES);
  }

  /** The shape scan over all transactions with running resource totals. */
  method CheckBlockShape(b: Block) returns (ok: bool)
    ensures ok <==> && |b.coinbase.outputs| <= MAX_COINBASE_OUTPUTS
                    && |b.transactions| <= MAX_BLOCK_TRANSACTIONS
                    && (forall i :: 0 <= i < |b.transactions| ==>
                          TransactionShape(b.transactions[i], b.challenge.networkId))
                    && Usage(b.transactions).WithinBlockLimits()
  {
    if |b.coinbase.outputs| > MAX_COINBASE_OUTPUTS || |b.transactions| > MAX_BLOCK_TRANSACTIONS { return false; }
    var used := Resources(0, 0, 0);
    var i := 0;
    while i < |b.transactions|
      invariant 0 <= i <= |b.transactions|
      invariant used == Usage(b.transactions[..i]) && used.WithinBlockLimits()
      invariant forall k :: 0 <= k < i ==> TransactionShape(b.transactions[k], b.challenge.networkId)
    {
      if !TransactionShape(b.transactions[i], b.challenge.networkId) { return false; }
      assert b.transactions[..i + 1][..i] == b.transactions[..i];
      UsageMonotone(b.transactions, i + 1);
      used, ok := AddBlockResources(b.transactions[i], used);
      if !ok { return false; }
      i := i + 1;
    }
    assert b.transactions[..|b.transactions|] == b.transactions;
    ok := true;
  }

  lemma {:induction false} UsageMonotone(ts: seq<Transaction>, i: nat)
    requires i <= |ts|
    ensures var part, all := Usage(ts[..i]), Usage(ts);
            part.inputs <= all.inputs && part.outputs <= all.outputs && part.checks <= all.checks
    decreases |ts| - i
  {
    if i < |ts| {
      UsageMonotone(ts, i + 1);
      assert ts[..i + 1][..i] == ts[..i];
    } else {
      assert ts[..i] == ts;
    }
  }

  /** Adds one transaction to the running totals, refusing as soon as a limit is passed. */
  method AddBlockResources(t: Transaction, used: Resources) returns (next: Resources, ok: bool)
    requires used.WithinBlockLimits()
    ensures ok <==> used.Add(t).WithinBlockLimits()
    ensures ok ==> next == used.Add(t)
  {
    next := used;
    if used.inputs + |t.inputs| > MAX_BLOCK_AGGREGATE_INPUTS { return next, false; }
    if used.outputs + |t.outputs| > MAX_BLOCK_AGGREGATE_OUTPUTS { return next, false; }
    var checks := used.checks;
    var i := 0;
    while i < |t.inputs|
      invariant 0 <= i <= |t.inputs|
      invariant checks == used.checks + InputChecks(t.inputs[..i]) && checks <= MAX_BLOCK_SIGNATURE_CHECKS
    {
      assert t.inputs[..i + 1][..i] == t.inputs[..i];
      InputChecksMonotone(t.inputs, i + 1);
      checks := checks + SignatureChecks(t.inputs[i].evidence);
      if checks > MAX_BLOCK_SIGNATURE_CHECKS { return next, false; }
      i := i + 1;
    }
    assert t.inputs[..|t.inputs|] == t.inputs;
    next := Resources(used.inputs + |t.inputs|, used.outputs + |t.outputs|, checks);
    ok := true;
  }

  lemma {:induction false} InputChecksMonotone(inputs: seq<TxInput>, i: nat)
    requires i <= |inputs|
    ensures InputChecks(inputs[..i]) <= InputChecks(inputs)
    decreases |inputs| - i
  {
    if i < |inputs| {
      InputChecksMonotone(inputs, i + 1);
      assert inputs[..i + 1][..i] == inputs[..i];
    } else {
      assert inputs[..i] == inputs;
    }
  }

  method PutEmbedded(w: Writer, t: Transaction, network: Digest) returns (ok: bool)
    requires TransactionShape(t, network)
    modifies w
    ensures ok <==> PayloadEncodable(t, network) && |old(w.bytes)| + |EmbeddedTransaction(t)| <= w.limit
    ensures ok ==> w.bytes == old(w.bytes) + EmbeddedTransaction(t)
  {
    var payload := EncodeTransactionPayload(t);
    if payload.None? { return false; }
    ok := w.PutSized(payload.value, MAX_TRANSACTION_BYTES);
  }

  method PutTransactions(w: Writer, ts: seq<Transaction>, network: Digest) returns (ok: bool)
    requires forall i :: 0 <= i < |ts| ==> TransactionShape(ts[i], network)
    modifies w
    ensures ok <==> && |ts| <= MAX_BLOCK_TRANSACTIONS && AllEncodable(ts, network)
                    && |old(w.bytes)| + |TransactionSection(ts)| <= w.limit
    ensures ok ==> w.bytes == old(w.bytes) + TransactionSection(ts)
  {
    ok := w.PutCount(|ts|, MAX_BLOCK_TRANSACTIONS);
    if !ok { return; }
    Regroup(old(w.bytes), CountBytes(|ts|), WriteMany(EmbeddedTransaction, ts));
    HoldsUpToAll(t => PayloadEncodable(t, network), ts, |ts|);
    ok := PutTransactionList(w, ts, network);
  }

  ghost predicate HoldsUpTo<T>(ok: T -> bool, xs: seq<T>, i: nat)
    requires i <= |xs|
  {
    i == 0 || (HoldsUpTo(ok, xs, i - 1) && ok(xs[i - 1]))
  }

  lemma {:induction false} HoldsUpToAll<T>(ok: T -> bool, xs: seq<T>, i: nat)
    requires i <= |xs|
    ensures HoldsUpTo(ok, xs, i) <==> forall k :: 0 <= k < i ==> ok(xs[k])
  {
    if i > 0 { HoldsUpToAll(ok, xs, i - 1); }
  }

  lemma NothingWritten(ts: seq<Transaction>)
    ensures WriteMany(EmbeddedTransaction, ts[..0]) == []
  {
  }

  method PutTransactionList(w: Writer, ts: seq<Transaction>, network: Digest) returns (ok: bool)
    requires forall i :: 0 <= i < |ts| ==> TransactionShape(ts[i], network)
    requires |w.bytes| <= w.limit
    modifies w
    ensures ok <==> && HoldsUpTo(t => PayloadEncodable(t, network), ts, |ts|)
                    && |old(w.bytes)| + |WriteMany(EmbeddedTransaction, ts)| <= w.limit
    ensures ok ==> w.bytes == old(w.bytes) + WriteMany(EmbeddedTransaction, ts)
  {
    hide PayloadEncodable, TransactionShape, WriteMany, EmbeddedTransaction;
    ghost var encodable := t => PayloadEncodable(t, network);
    assert WriteMany(EmbeddedTransaction, ts[..0]) == [] by { NothingWritten(ts); }
    var i := 0;
    while i < |ts|
      invariant 0 <= i <= |ts|
      invariant w.bytes == old(w.bytes) + WriteMany(EmbeddedTransaction, ts[..i]) && |w.bytes| <= w.limit
      invariant HoldsUpTo(encodable, ts, i)
    {
      ListStep(EmbeddedTransaction, old(w.bytes), ts, i);
      ok := PutEmbedded(w, ts[i], network);
      if !ok {
        HoldsUpToAll(encodable, ts, |ts|);
        return;
      }
      i := i + 1;
    }
    ListWhole(EmbeddedTransaction, ts);
    ok := true;
  }

  lemma EncodableShapes(b: Block)
    ensures AllEncodable(b.transactions, b.challenge.networkId) ==>
              forall i :: 0 <= i < |b.transactions| ==> TransactionShape(b.transactions[i], b.challenge.networkId)
  {
    hide TransactionShape;
  }

  /** The fields written one after another are the payload. */
  lemma PayloadGroups(b: Block)
    ensures [] + U32Bytes(b.version) + ChallengeBytes(b.challenge)
            + SizedBytes(ProofPayload(b.proof, b.challenge.networkId)) + CoinbaseBytes(b.coinbase)
            + TransactionSection(b.transactions) == BlockPayload(b)
  {
    hide ChallengeBytes, ProofPayload, CoinbaseBytes, TransactionSection, SizedBytes;
    var v, c := U32Bytes(b.version), ChallengeBytes(b.challenge);
    var p := SizedBytes(ProofPayload(b.proof, b.challenge.networkId));
    var k, t := CoinbaseBytes(b.coinbase), TransactionSection(b.transactions);
    assert [] + v == v;
    Regroup(v + c + p, k, t);
    Regroup(v + c, p, k + t);
    Regroup(v, c, p + (k + t));
  }

  method EncodeBlockFrame(magic: NetworkMagic, b: Block) returns (r: Option<seq<byte>>)
    ensures r == EncodeBlock(magic, b)
  {
    hide AllEncodable, TransactionShape, Usage, ChallengeBytes, ProofPayload, CoinbaseBytes, TransactionSection,
         BlockPayload;
    var shaped := CheckBlockShape(b);
    EncodableShapes(b);
    PayloadGroups(b);
    if !shaped { return None; }
    var network := b.challenge.networkId;
    var w := new Writer(MAX_BLOCK_BYTES - WIRE_HEADER_BYTES);
    var ok := w.Put(U32Bytes(b.version));
    if !ok { return None; }
    ok := w.PutChallenge(b.challenge);
    if !ok { return None; }
    ProofPayloadLength(b.proof, network);
    ok := w.PutSized(ProofPayload(b.proof, network), MAX_PROOF_BYTES);
    if !ok { return None; }
    ok := w.PutCoinbase(b.coinbase);
    if !ok { return None; }
    ok := PutTransactions(w, b.transactions, network);
    if !ok { return None; }
    r := EncodeFrame(magic, BLOCK_KIND, network, w.bytes, MAX_BLOCK_BYTES);
  }

  // ----- Reader -------------------------------------------------------------------------------

  class Reader {
    const bytes: seq<byte>
    var offset: nat

    constructor (bytes: seq<byte>)
      ensures this.bytes == bytes && offset == 0
    {
      this.bytes := bytes;
      offset := 0;
    }

    ghost predicate Valid()
      reads this
    {
      offset <= |bytes|
    }

    ghost function Remaining(): seq<byte>
      requires Valid()
      reads this
    {
      bytes[offset..]
    }

    /** The reader produced what the pure read produces and stands where that read stops. */
    ghost predicate Outcome<T>(r: Option<T>, p: Parsed<T>)
      requires Valid()
      reads this
    {
      match p
      case Fail => r.None?
      case Done(value, rest) => r == Some(value) && Remaining() == rest
    }

    method Get(length: nat) returns (r: Option<seq<byte>>)
      requires Valid()
      modifies this`offset
      ensures Valid() && Outcome(r, Take(old(Remaining()), length))
      ensures r.None? ==> offset == old(offset)
    {
      if |bytes| - offset < length { return None; }
      assert bytes[offset..offset + length] == bytes[offset..][..length];
      assert bytes[offset + length..] == bytes[offset..][length..];
      r := Some(bytes[offset..offset + length]);
      offset := offset + length;
    }

    method GetU8() returns (r: Option<byte>)
      requires Valid()
      modifies this`offset
      ensures Valid() && Outcome(r, ReadU8(old(Remaining())))
    {
      var b := Get(1);
      r := if b.None? then None else Some(b.value[0]);
    }

    method GetU32() returns (r: Option<u32>)
      requires Valid()
      modifies this`offset
      ensures Valid() && Outcome(r, ReadU32(old(Remaining())))
    {
      var b := Get(4);
      r := if b.None? then None else Some(U32Value(b.value));
    }

    method GetU64() returns (r: Option<u64>)
      requires Valid()
      modifies this`offset
      ensures Valid() && Outcome(r, ReadU64(old(Remaining())))
    {
      var b := Get(8);
      r := if b.None? then None else Some(U64Value(b.value));
    }

    method GetDigest() returns (r: Option<Digest>)
      requires Valid()
      modifies this`offset
      ensures Valid() && Outcome(r, ReadDigest(old(Remaining())))
    {
      r := Get(32);
    }

    method GetCount(maximum: nat) returns (r: Option<nat>)
      requires Valid()
      modifies this`offset
      ensures Valid() && Outcome(r, ReadCount(old(Remaining()), maximum))
    {
      var n := GetU32();
      if n.None? || n.value > maximum { return None; }
      r := n;
    }

    method GetSized(maximumFrame: nat) returns (r: Option<seq<byte>>)
      requires Valid() && maximumFrame >= WIRE_HEADER_BYTES
      modifies this`offset
      ensures Valid() && Outcome(r, ReadSized(old(Remaining()), maximumFrame))
    {
      var n := GetCount(maximumFrame - WIRE_HEADER_BYTES);
      if n.None? { return None; }
      r := Get(n.value);
    }

    method GetDigests(count: nat) returns (r: Option<seq<Digest>>)
      requires Valid()
      modifies this`offset
      ensures Valid() && Outcome(r, ReadDigests(old(Remaining()), count))
    {
      var done: seq<Digest> := [];
      ghost var marks := [Remaining()];
      while |done| < count
        invariant Valid() && |done| <= count
        invariant Chain(ReadDigest, marks, done) && marks[0] == old(Remaining()) && marks[|done|] == Remaining()
      {
        var x := GetDigest();
        if x.None? {
          ChainFails(ReadDigest, marks, done, count);
          return None;
        }
        done, marks := done + [x.value], marks + [Remaining()];
      }
      ChainDone(ReadDigest, marks, done);
      r := Some(done);
    }

    method GetU64s(count: nat) returns (r: Option<seq<u64>>)
      requires Valid()
      modifies this`offset
      ensures Valid() && Outcome(r, ReadU64s(old(Remaining()), count))
    {
      var done: seq<u64> := [];
      ghost var marks := [Remaining()];
      while |done| < count
        invariant Valid() && |done| <= count
        invariant Chain(ReadU64, marks, done) && marks[0] == old(Remaining()) && marks[|done|] == Remaining()
      {
        var x := GetU64();
        if x.None? {
          ChainFails(ReadU64, marks, done, count);
          return None;
        }
        done, marks := done + [x.value], marks + [Remaining()];
      }
      ChainDone(ReadU64, marks, done);
      r := Some(done);
    }

    method GetOutput() returns (r: Option<TxOutput>)
      requires Valid()
      modifies this`offset
      ensures Valid() && Outcome(r, ReadOutput(old(Remaining())))
    {
      var value := GetU64();
      if value.None? { return None; }
      var tag := GetU8();
      if tag.None? { return None; }
      var owner := GetDigest();
      if owner.None? || tag.value > 1 { return None; }
      var height := GetU64();
      if height.None? { return None; }
      var lock := if tag.value == 0 then KeyLock(owner.value) else ChannelLock(owner.value);
      r := Some(TxOutput(value.value, lock, height.value));
    }

    method GetOutputList(count: nat) returns (r: Option<seq<TxOutput>>)
      requires Valid()
      modifies this`offset
      ensures Valid() && Outcome(r, ReadOutputs(old(Remaining()), count))
    {
      var done: seq<TxOutput> := [];
      ghost var marks := [Remaining()];
      while |done| < count
        invariant Valid() && |done| <= count
        invariant Chain(ReadOutput, marks, done) && marks[0] == old(Remaining()) && marks[|done|] == Remaining()
      {
        var x := GetOutput();
        if x.None? {
          ChainFails(ReadOutput, marks, done, count);
          return None;
        }
        done, marks := done + [x.value], marks + [Remaining()];
      }
      ChainDone(ReadOutput, marks, done);
      r := Some(done);
    }

    method GetOutputs(maximum: nat) returns (r: Option<seq<TxOutput>>)
      requires Valid()
      modifies this`offset
      ensures Valid() && Outcome(r, ReadOutputSection(old(Remaining()), maximum))
    {
      var count := GetCount(maximum);
      if count.None? { return None; }
      r := GetOutputList(count.value);
    }

    method GetTerms(network: Digest) returns (r: Option<M.ChannelTerms>)
      requires Valid()
      modifies this`offset
      ensures Valid() && Outcome(r, ReadTerms(old(Remaining()), network))
    {
      var d := GetDigests(7);
      if d.None? { return None; }
      var a := GetU64s(9);
      if a.None? || d.value[0] != network { return None; }
      r := Some(TermsFrom(d.value, a.value));
    }

    method GetState() returns (r: Option<M.PaymentState>)
      requires Valid()
      modifies this`offset
      ensures Valid() && Outcome(r, ReadState(old(Remaining())))
    {
      var id := GetDigest();
      if id.None? { return None; }
      var a := GetU64s(6);
      if a.None? { return None; }
      var receipt := GetDigest();
      if receipt.None? { return None; }
      var v := a.value;
      r := Some(M.PaymentState(id.value, v[0], v[1], v[2], v[3], v[4], v[5], receipt.value));
    }

    method GetSettlement(network: Digest) returns (r: Option<InputWitness>)
      requires Valid()
      modifies this`offset
      ensures Valid() && Outcome(r, ReadSettlementEvidence(old(Remaining()), network))
    {
      var terms := GetTerms(network);
      if terms.None? { return None; }
      var state := GetState();
      if state.None? { return None; }
      var customer := Get(CONSENSUS_SIGNATURE_BYTES);
      if customer.None? { return None; }
      var provider := Get(CONSENSUS_SIGNATURE_BYTES);
      if provider.None? { return None; }
      r := Some(SettlementWitness(terms.value,
                                  M.Settlement(M.SignedPaymentState(state.value, customer.value), provider.value)));
    }

    method GetEvidence(network: Digest) returns (r: Option<InputWitness>)
      requires Valid()
      modifies this`offset
      ensures Valid() && Outcome(r, ReadEvidence(old(Remaining()), network))
    {
      var tag := GetU8();
      if tag.None? { return None; }
      if tag.value == 0 {
        var key := GetDigest();
        if key.None? { return None; }
        var signature := Get(CONSENSUS_SIGNATURE_BYTES);
        if signature.None? { return None; }
        r := Some(KeyWitness(key.value, signature.value));
      } else if tag.value == 1 {
        r := GetSettlement(network);
      } else if tag.value == 2 {
        var terms := GetTerms(network);
        if terms.None? { return None; }
        r := Some(RefundWitness(terms.value));
      } else {
        r := None;
      }
    }

    method GetInput(network: Digest) returns (r: Option<TxInput>)
      requires Valid()
      modifies this`offset
      ensures Valid() && Outcome(r, ReadInput(old(Remaining()), network))
    {
      var txid := GetDigest();
      if txid.None? { return None; }
      var index := GetU32();
      if index.None? { return None; }
      var evidence := GetEvidence(network);
      if evidence.None? { return None; }
      r := Some(TxInput(OutPoint(txid.value, index.value), evidence.value));
    }

    method GetInputList(network: Digest, count: nat) returns (r: Option<seq<TxInput>>)
      requires Valid()
      modifies this`offset
      ensures Valid() && Outcome(r, ReadInputs(old(Remaining()), count, network))
    {
      hide ReadInput;
      ghost var read := b => ReadInput(b, network);
      var done: seq<TxInput> := [];
      ghost var marks := [Remaining()];
      while |done| < count
        invariant Valid() && |done| <= count
        invariant Chain(read, marks, done) && marks[0] == old(Remaining()) && marks[|done|] == Remaining()
      {
        var x := GetInput(network);
        if x.None? {
          ChainFails(read, marks, done, count);
          return None;
        }
        done, marks := done + [x.value], marks + [Remaining()];
      }
      ChainDone(read, marks, done);
      r := Some(done);
    }

    method GetInputs(network: Digest) returns (r: Option<seq<TxInput>>)
      requires Valid()
      modifies this`offset
      ensures Valid() && Outcome(r, ReadInputSection(old(Remaining()), network))
    {
      var count := GetCount(MAX_TRANSACTION_INPUTS);
      if count.None? { return None; }
      r := GetInputList(network, count.value);
    }

    method GetProofBody(tag: byte) returns (r: Option<BlockProof>)
      requires Valid()
      modifies this`offset
      ensures Valid() && Outcome(r, ReadProofBody(old(Remaining()), tag))
    {
      var a := GetU32();
      if a.None? { return None; }
      var v := GetU32();
      if v.None? { return None; }
      var nonce := GetU64();
      if nonce.None? { return None; }
      if tag == 1 {
        var d := GetDigests(3);
        if d.None? { return None; }
        r := Some(V1Legacy(a.value, v.value, nonce.value, d.value[0], d.value[1], d.value[2]));
      } else if tag == 2 {
        var d := GetDigests(4);
        if d.None? { return None; }
        r := Some(V2Reference(a.value, v.value, nonce.value, d.value[0], d.value[1], d.value[2], d.value[3]));
      } else {
        r := None;
      }
    }

    method GetChallenge(network: Digest) returns (r: Option<BlockChallenge>)
      requires Valid()
      modifies this`offset
      ensures Valid() && Outcome(r, ReadChallenge(old(Remaining()), network))
    {
      var d := GetDigests(3);
      if d.None? { return None; }
      var n := GetU64s(2);
      if n.None? { return None; }
      var target := Get(32);
      if target.None? || d.value[0] != network { return None; }
      r := Some(BlockChallenge(d.value[0], d.value[1], d.value[2], n.value[0], n.value[1], TargetValue(target.value)));
    }

    method GetCoinbase() returns (r: Option<Coinbase>)
      requires Valid()
      modifies this`offset
      ensures Valid() && Outcome(r, ReadCoinbase(old(Remaining())))
    {
      var height := GetU64();
      if height.None? { return None; }
      var outputs := GetOutputs(MAX_COINBASE_OUTPUTS);
      if outputs.None? { return None; }
      r := Some(Coinbase(height.value, outputs.value));
    }

    method GetEmbeddedTransaction(network: Digest) returns (r: Option<Transaction>)
      requires Valid()
      modifies this`offset
      ensures Valid() && Outcome(r, ReadEmbedded(old(Remaining()), network))
    {
      var payload := GetSized(MAX_TRANSACTION_BYTES);
      if payload.None? { return None; }
      r := DecodeTransactionBytes(payload.value, network);
    }

    /** Block transactions with the running resource check inside the loop. */
    method GetTransactionList(network: Digest, count: nat) returns (r: Option<seq<Transaction>>)
      requires Valid()
      modifies this`offset
      ensures Valid()
      ensures var p := ReadMany(b => ReadEmbedded(b, network), old(Remaining()), count);
              Outcome(r, if p.Done? && Usage(p.value).WithinBlockLimits() then p else Fail)
    {
      ghost var read := b => ReadEmbedded(b, network);
      var done: seq<Transaction> := [];
      var used := Resources(0, 0, 0);
      ghost var marks := [Remaining()];
      while |done| < count
        invariant Valid() && |done| <= count
        invariant used == Usage(done) && used.WithinBlockLimits()
        invariant Chain(read, marks, done) && marks[0] == old(Remaining()) && marks[|done|] == Remaining()
      {
        var t := GetEmbeddedTransaction(network);
        if t.None? {
          ChainFails(read, marks, done, count);
          return None;
        }
        assert (done + [t.value])[..|done|] == done;
        var ok;
        used, ok := AddBlockResources(t.value, used);
        done, marks := done + [t.value], marks + [Remaining()];
        if !ok {
          LimitPassed(read, marks, done, count);
          return None;
        }
      }
      ChainDone(read, marks, done);
      r := Some(done);
    }

    method GetTransactions(network: Digest) returns (r: Option<seq<Transaction>>)
      requires Valid()
      modifies this`offset
      ensures Valid() && Outcome(r, ReadTransactionSection(old(Remaining()), network))
    {
      var count := GetCount(MAX_BLOCK_TRANSACTIONS);
      if count.None? { return None; }
      r := GetTransactionList(network, count.value);
    }
  }

  // ----- decoders -----------------------------------------------------------------------------

  method DecodeTransactionBytes(payload: seq<byte>, network: Digest) returns (r: Option<Transaction>)
    ensures r == DecodeTransactionPayload(payload, network)
  {
    if |payload| + WIRE_HEADER_BYTES > MAX_TRANSACTION_BYTES { return None; }
    var reader := new Reader(payload);
    assert reader.Remaining() == payload;
    var id := reader.GetDigest();
    if id.None? || id.value != network { return None; }
    var version := reader.GetU32();
    if version.None? { return None; }
    var inputs := reader.GetInputs(network);
    if inputs.None? { return None; }
    var outputs := reader.GetOutputs(MAX_TRANSACTION_OUTPUTS);
    if outputs.None? { return None; }
    if reader.offset != |reader.bytes| { return None; }
    r := Some(Transaction(id.value, version.value, inputs.value, outputs.value));
  }

  method DecodeProofBytes(payload: seq<byte>, network: Digest) returns (r: Option<BlockProof>)
    ensures r == DecodeProofPayload(payload, network)
  {
    if |payload| + WIRE_HEADER_BYTES > MAX_PROOF_BYTES { return None; }
    var reader := new Reader(payload);
    assert reader.Remaining() == payload;
    var tag := reader.GetU8();
    if tag.None? { return None; }
    var id := reader.GetDigest();
    if id.None? || id.value != network { return None; }
    var proof := reader.GetProofBody(tag.value);
    if proof.None? || reader.offset != |reader.bytes| { return None; }
    r := proof;
  }

  method DecodeTransactionFrame(magic: NetworkMagic, bytes: seq<byte>, network: Digest) returns (r: Option<Transaction>)
    ensures r == DecodeTransaction(magic, bytes, network)
    ensures forall t :: r == Some(t) <==> t.networkId == network && EncodeTransaction(magic, t) == Some(bytes)
  {
    forall t {
      TransactionBijection(magic, bytes, network, t);
    }
    var payload := DecodeFrame(magic, bytes, network, TRANSACTION_KIND, MAX_TRANSACTION_BYTES);
    if payload.None? { return None; }
    r := DecodeTransactionBytes(payload.value, network);
  }

  method DecodeBlockPayload(payload: seq<byte>, network: Digest) returns (r: Option<Block>)
    ensures var p := ReadBlock(payload, network);
            r == if p.Done? && p.rest == [] then Some(p.value) else None
  {
    var reader := new Reader(payload);
    assert reader.Remaining() == payload;
    var version := reader.GetU32();
    if version.None? { return None; }
    var challenge := reader.GetChallenge(network);
    if challenge.None? { return None; }
    var sized := reader.GetSized(MAX_PROOF_BYTES);
    if sized.None? { return None; }
    var proof := DecodeProofBytes(sized.value, challenge.value.networkId);
    if proof.None? { return None; }
    var coinbase := reader.GetCoinbase();
    if coinbase.None? { return None; }
    var transactions := reader.GetTransactions(network);
    if transactions.None? { return None; }
    if reader.offset != |reader.bytes| { return None; }
    r := Some(Block(version.value, challenge.value, proof.value, coinbase.value, transactions.value));
  }

  method DecodeBlockFrame(magic: NetworkMagic, bytes: seq<byte>, network: Digest) returns (r: Option<Block>)
    ensures r == DecodeBlock(magic, bytes, network)
    ensures forall b :: r == Some(b) <==> b.challenge.networkId == network && EncodeBlock(magic, b) == Some(bytes)
  {
    forall b {
      BlockBijection(magic, bytes, network, b);
    }
    var payload := DecodeFrame(magic, bytes, network, BLOCK_KIND, MAX_BLOCK_BYTES);
    if payload.None? { return None; }
    r := DecodeBlockPayload(payload.value, network);
  }
}
