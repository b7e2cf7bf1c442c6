/**
 * The canonical byte grammar: what every object encodes to, and the reads a decoder performs. The
 * lemmas show the reads invert the grammar in both directions. Rejections are not told apart here.
 */
module WireFormat {
  import opened Prelude
  import opened Bytes
  import opened Ledger
  import M = Marketplace

  const WIRE_HEADER_BYTES: nat := 16
  const TRANSACTION_KIND: byte := 1
  const PROOF_KIND: byte := 2
  const BLOCK_KIND: byte := 3
  const MAX_TRANSACTION_BYTES: nat := 65536
  const MAX_PROOF_BYTES: nat := 262144
  const MAX_BLOCK_BYTES: nat := 1048576

  /** The outcome of one read: the value and the bytes left, or a rejection. */
  datatype Parsed<+T> = Fail | Done(value: T, rest: seq<byte>)
  {
    predicate IsFailure() { Fail? }
    function PropagateFailure<U>(): Parsed<U> requires Fail? { Fail }
    function Extract(): (T, seq<byte>) requires Done? { (value, rest) }
  }

  // ----- primitive reads --------------------------------------------------------------------

  function Take(bs: seq<byte>, n: nat): Parsed<seq<byte>> {
    if |bs| < n then Fail else Done(bs[..n], bs[n..])
  }

  function ReadU8(bs: seq<byte>): Parsed<byte> {
    if |bs| < 1 then Fail else Done(bs[0], bs[1..])
  }

  function ReadU32(bs: seq<byte>): Parsed<u32> {
    if |bs| < 4 then Fail else Done(U32Value(bs[..4]), bs[4..])
  }

  function ReadU64(bs: seq<byte>): Parsed<u64> {
    if |bs| < 8 then Fail else Done(U64Value(bs[..8]), bs[8..])
  }

  function ReadTarget(bs: seq<byte>): Parsed<u256> {
    if |bs| < 32 then Fail else Done(TargetValue(bs[..32]), bs[32..])
  }

  function ReadDigest(bs: seq<byte>): Parsed<Digest> {
    if |bs| < 32 then Fail else Done(bs[..32], bs[32..])
  }

  lemma U32Canonical(bs: seq<byte>)
    requires ReadU32(bs).Done?
    ensures bs == U32Bytes(ReadU32(bs).value) + ReadU32(bs).rest
  {
    U32BytesOfValue(bs[..4]);
  }

  lemma U64Canonical(bs: seq<byte>)
    requires ReadU64(bs).Done?
    ensures bs == U64Bytes(ReadU64(bs).value) + ReadU64(bs).rest
  {
    U64BytesOfValue(bs[..8]);
  }

  lemma TargetCanonical(bs: seq<byte>)
    requires ReadTarget(bs).Done?
    ensures bs == TargetBytes(ReadTarget(bs).value) + ReadTarget(bs).rest
  {
    TargetBytesOfValue(bs[..32]);
  }

  lemma DigestCanonical(bs: seq<byte>)
    requires ReadDigest(bs).Done?
    ensures bs == ReadDigest(bs).value + ReadDigest(bs).rest
  {
  }

  lemma PrefixTake(a: seq<byte>, rest: seq<byte>)
    ensures (a + rest)[..|a|] == a && (a + rest)[|a|..] == rest
  {
  }

  lemma TakeSplits(bs: seq<byte>, n: nat)
    requires Take(bs, n).Done?
    ensures bs == Take(bs, n).value + Take(bs, n).rest && |Take(bs, n).value| == n
  {
  }

  lemma Takes(a: seq<byte>, rest: seq<byte>)
    ensures Take(a + rest, |a|) == Done(a, rest)
  {
    PrefixTake(a, rest);
  }

  /** Regrouping concatenations, kept apart from the definitions being regrouped. */
  lemma Regroup(a: seq<byte>, b: seq<byte>, rest: seq<byte>)
    ensures (a + b) + rest == a + (b + rest)
  {
  }

  lemma ReadsU32(x: u32, rest: seq<byte>)
    ensures ReadU32(U32Bytes(x) + rest) == Done(x, rest)
  {
    PrefixTake(U32Bytes(x), rest);
    U32Inverse(x);
  }

  lemma ReadsU64(x: u64, rest: seq<byte>)
    ensures ReadU64(U64Bytes(x) + rest) == Done(x, rest)
  {
    PrefixTake(U64Bytes(x), rest);
    U64Inverse(x);
  }

  lemma ReadsTarget(x: u256, rest: seq<byte>)
    ensures ReadTarget(TargetBytes(x) + rest) == Done(x, rest)
  {
    PrefixTake(TargetBytes(x), rest);
    TargetInverse(x);
  }

  lemma ReadsDigest(d: Digest, rest: seq<byte>)
    ensures ReadDigest(d + rest) == Done(d, rest)
  {
    PrefixTake(d, rest);
  }

  // ----- repetition -------------------------------------------------------------------------

  function WriteMany<T>(write: T -> seq<byte>, xs: seq<T>): seq<byte> {
    if xs == [] then [] else write(xs[0]) + WriteMany(write, xs[1..])
  }

  function ReadMany<T>(read: seq<byte> -> Parsed<T>, bs: seq<byte>, count: nat): (p: Parsed<seq<T>>)
    ensures p.Done? ==> |p.value| == count
    decreases count
  {
    if count == 0 then Done([], bs)
    else
      var (x, r) :- read(bs);
      var (xs, rest) :- ReadMany(read, r, count - 1);
      Done([x] + xs, rest)
  }

  /** The reader returns what was written before any continuation. */
  ghost predicate Reads<T>(write: T -> seq<byte>, read: seq<byte> -> Parsed<T>, x: T) {
    forall rest {:trigger read(write(x) + rest)} :: read(write(x) + rest) == Done(x, rest)
  }

  /** The reader accepts nothing but what the writer produces. */
  ghost predicate Canonical<T>(write: T -> seq<byte>, read: seq<byte> -> Parsed<T>) {
    forall bs :: read(bs).Done? ==> bs == write(read(bs).value) + read(bs).rest
  }

  lemma {:induction false} ReadsMany<T>(write: T -> seq<byte>, read: seq<byte> -> Parsed<T>, xs: seq<T>,
                                        rest: seq<byte>)
    requires forall i :: 0 <= i < |xs| ==> Reads(write, read, xs[i])
    ensures ReadMany(read, WriteMany(write, xs) + rest, |xs|) == Done(xs, rest)
  {
    if xs == [] {
      assert [] + rest == rest;
    } else {
      var tail := WriteMany(write, xs[1..]) + rest;
      assert WriteMany(write, xs) + rest == write(xs[0]) + tail;
      assert Reads(write, read, xs[0]);
      assert read(write(xs[0]) + tail) == Done(xs[0], tail);
      ReadsMany(write, read, xs[1..], rest);
      assert [xs[0]] + xs[1..] == xs;
    }
  }

  lemma {:induction false} ManyCanonical<T>(write: T -> seq<byte>, read: seq<byte> -> Parsed<T>, bs: seq<byte>,
                                            count: nat)
    requires Canonical(write, read)
    requires ReadMany(read, bs, count).Done?
    ensures var p := ReadMany(read, bs, count); bs == WriteMany(write, p.value) + p.rest
    decreases count
  {
    var p := ReadMany(read, bs, count);
    if count == 0 {
      assert bs == [] + bs;
    } else {
      var first := read(bs);
      ManyCanonical(write, read, first.rest, count - 1);
      var tail := ReadMany(read, first.rest, count - 1);
      assert p.value[1..] == tail.value;
      assert bs == write(first.value) + (WriteMany(write, tail.value) + p.rest);
    }
  }

  lemma {:induction false} ManyHold<T>(hold: T -> bool, read: seq<byte> -> Parsed<T>, bs: seq<byte>, count: nat)
    requires forall b :: read(b).Done? ==> hold(read(b).value)
    requires ReadMany(read, bs, count).Done?
    ensures forall i :: 0 <= i < count ==> hold(ReadMany(read, bs, count).value[i])
    decreases count
  {
    if count > 0 {
      ManyHold(hold, read, read(bs).rest, count - 1);
    }
  }

  function DigestList(ds: seq<Digest>): seq<byte> { WriteMany((d: Digest) => d, ds) }
  function U64List(xs: seq<u64>): seq<byte> { WriteMany(U64Bytes, xs) }
  function ReadDigests(bs: seq<byte>, n: nat): Parsed<seq<Digest>> { ReadMany(ReadDigest, bs, n) }
  function ReadU64s(bs: seq<byte>, n: nat): Parsed<seq<u64>> { ReadMany(ReadU64, bs, n) }

  lemma DigestsRoundTrip(ds: seq<Digest>, rest: seq<byte>)
    ensures ReadDigests(DigestList(ds) + rest, |ds|) == Done(ds, rest)
  {
    var write := (d: Digest) => d;
    forall i | 0 <= i < |ds| ensures Reads(write, ReadDigest, ds[i]) {
      forall r ensures ReadDigest(write(ds[i]) + r) == Done(ds[i], r) { ReadsDigest(ds[i], r); }
    }
    ReadsMany(write, ReadDigest, ds, rest);
  }

  lemma DigestsCanonical(bs: seq<byte>, n: nat)
    requires ReadDigests(bs, n).Done?
    ensures var p := ReadDigests(bs, n); |p.value| == n && bs == DigestList(p.value) + p.rest
  {
    var write := (d: Digest) => d;
    forall b | ReadDigest(b).Done? ensures b == write(ReadDigest(b).value) + ReadDigest(b).rest {
      DigestCanonical(b);
    }
    ManyCanonical(write, ReadDigest, bs, n);
  }

  lemma U64sRoundTrip(xs: seq<u64>, rest: seq<byte>)
    ensures ReadU64s(U64List(xs) + rest, |xs|) == Done(xs, rest)
  {
    forall i | 0 <= i < |xs| ensures Reads(U64Bytes, ReadU64, xs[i]) {
      forall r ensures ReadU64(U64Bytes(xs[i]) + r) == Done(xs[i], r) { ReadsU64(xs[i], r); }
    }
    ReadsMany(U64Bytes, ReadU64, xs, rest);
  }

  lemma U64sCanonical(bs: seq<byte>, n: nat)
    requires ReadU64s(bs, n).Done?
    ensures var p := ReadU64s(bs, n); |p.value| == n && bs == U64List(p.value) + p.rest
  {
    forall b | ReadU64(b).Done? ensures b == U64Bytes(ReadU64(b).value) + ReadU64(b).rest {
      U64Canonical(b);
    }
    ManyCanonical(U64Bytes, ReadU64, bs, n);
  }

  // ----- outputs ----------------------------------------------------------------------------

  function LockBytes(lock: OutputLock): seq<byte> {
    match lock
    case KeyLock(owner) => [0] + owner
    case ChannelLock(id) => [1] + id
  }

  function ReadLock(bs: seq<byte>): Parsed<OutputLock> {
    var (tag, r) :- ReadU8(bs);
    var (d, rest) :- ReadDigest(r);
    if tag == 0 then Done(KeyLock(d), rest)
    else if tag == 1 then Done(ChannelLock(d), rest)
    else Fail
  }

  function OutputBytes(o: TxOutput): (s: seq<byte>)
    ensures |s| == 49
  {
    U64Bytes(o.value) + LockBytes(o.lock) + U64Bytes(o.spendableHeight)
  }

  function ReadOutput(bs: seq<byte>): Parsed<TxOutput> {
    var (value, r1) :- ReadU64(bs);
    var (lock, r2) :- ReadLock(r1);
    var (height, rest) :- ReadU64(r2);
    Done(TxOutput(value, lock, height), rest)
  }

  lemma ReadsLock(lock: OutputLock, rest: seq<byte>)
    ensures ReadLock(LockBytes(lock) + rest) == Done(lock, rest)
  {
    var d := if lock.KeyLock? then lock.owner else lock.channelId;
    assert (LockBytes(lock) + rest)[1..] == d + rest;
    ReadsDigest(d, rest);
  }

  lemma LockCanonical(bs: seq<byte>)
    requires ReadLock(bs).Done?
    ensures bs == LockBytes(ReadLock(bs).value) + ReadLock(bs).rest
  {
    DigestCanonical(bs[1..]);
    assert bs == [bs[0]] + bs[1..];
  }

  lemma ReadsOutput(o: TxOutput, rest: seq<byte>)
    ensures ReadOutput(OutputBytes(o) + rest) == Done(o, rest)
  {
    var tail := U64Bytes(o.spendableHeight) + rest;
    assert OutputBytes(o) + rest == U64Bytes(o.value) + (LockBytes(o.lock) + tail);
    ReadsU64(o.value, LockBytes(o.lock) + tail);
    ReadsLock(o.lock, tail);
    ReadsU64(o.spendableHeight, rest);
  }

  lemma OutputCanonical()
    ensures Canonical(OutputBytes, ReadOutput)
  {
    forall bs | ReadOutput(bs).Done?
      ensures bs == OutputBytes(ReadOutput(bs).value) + ReadOutput(bs).rest
    {
      var first := ReadU64(bs);
      LockCanonical(first.rest);
      var lock := ReadLock(first.rest);
      var last := ReadU64(lock.rest);
      U64Canonical(bs);
      U64Canonical(lock.rest);
      assert bs == U64Bytes(first.value) + (LockBytes(lock.value) + (U64Bytes(last.value) + last.rest));
    }
  }

  function OutputList(outputs: seq<TxOutput>): seq<byte> { WriteMany(OutputBytes, outputs) }

  function ReadOutputs(bs: seq<byte>, n: nat): Parsed<seq<TxOutput>> { ReadMany(ReadOutput, bs, n) }

  lemma OutputsRoundTrip(outputs: seq<TxOutput>, rest: seq<byte>)
    ensures ReadOutputs(OutputList(outputs) + rest, |outputs|) == Done(outputs, rest)
  {
    forall i | 0 <= i < |outputs| ensures Reads(OutputBytes, ReadOutput, outputs[i]) {
      forall r ensures ReadOutput(OutputBytes(outputs[i]) + r) == Done(outputs[i], r) {
        ReadsOutput(outputs[i], r);
      }
    }
    ReadsMany(OutputBytes, ReadOutput, outputs, rest);
  }

  lemma OutputsCanonical(bs: seq<byte>, n: nat)
    requires ReadOutputs(bs, n).Done?
    ensures var p := ReadOutputs(bs, n); |p.value| == n && bs == OutputList(p.value) + p.rest
  {
    OutputCanonical();
    ManyCanonical(OutputBytes, ReadOutput, bs, n);
  }

  // ----- channel terms and payment states -----------------------------------------------------

  function TermsDigests(t: M.ChannelTerms): seq<Digest> {
    [t.networkId, t.jobId, t.customerKey, t.providerKey, t.modelDigest, t.runtimeDigest, t.inputDigest]
  }

  function TermsAmounts(t: M.ChannelTerms): seq<u64> {
    [t.deposit, t.closeFeeBurn, t.basePrice, t.inputPricePer1000, t.outputPricePer1000,
     t.maxInputTokens, t.maxOutputTokens, t.outputChunkTokens, t.refundHeight]
  }

  function TermsFrom(d: seq<Digest>, a: seq<u64>): (t: M.ChannelTerms)
    requires |d| == 7 && |a| == 9
    ensures TermsDigests(t) == d && TermsAmounts(t) == a
  {
    M.ChannelTerms(d[0], d[1], d[2], d[3], d[4], d[5], d[6],
                   a[0], a[1], a[2], a[3], a[4], a[5], a[6], a[7], a[8])
  }

  function TermsBytes(t: M.ChannelTerms): seq<byte> {
    DigestList(TermsDigests(t)) + U64List(TermsAmounts(t))
  }

  function ReadTerms(bs: seq<byte>, network: Digest): Parsed<M.ChannelTerms> {
    var (d, r) :- ReadDigests(bs, 7);
    var (a, rest) :- ReadU64s(r, 9);
    if d[0] != network then Fail else Done(TermsFrom(d, a), rest)
  }

  lemma ReadsTerms(t: M.ChannelTerms, rest: seq<byte>)
    ensures ReadTerms(TermsBytes(t) + rest, t.networkId) == Done(t, rest)
  {
    var tail := U64List(TermsAmounts(t)) + rest;
    assert TermsBytes(t) + rest == DigestList(TermsDigests(t)) + tail;
    DigestsRoundTrip(TermsDigests(t), tail);
    U64sRoundTrip(TermsAmounts(t), rest);
  }

  lemma TermsCanonical(bs: seq<byte>, network: Digest)
    requires ReadTerms(bs, network).Done?
    ensures var p := ReadTerms(bs, network); p.value.networkId == network && bs == TermsBytes(p.value) + p.rest
  {
    var d := ReadDigests(bs, 7);
    DigestsCanonical(bs, 7);
    U64sCanonical(d.rest, 9);
    var p := ReadTerms(bs, network);
    assert p.value.networkId == TermsDigests(p.value)[0];
    assert bs == DigestList(d.value) + (U64List(TermsAmounts(p.value)) + p.rest);
  }

  function StateAmounts(s: M.PaymentState): seq<u64> {
    [s.sequence, s.inputTokens, s.authorizedOutputTokens, s.providerPayment, s.customerRefund, s.closeFeeBurn]
  }

  function StateBytes(s: M.PaymentState): seq<byte> {
    s.channelId + U64List(StateAmounts(s)) + s.previousReceipt
  }

  function ReadState(bs: seq<byte>): Parsed<M.PaymentState> {
    var (id, r1) :- ReadDigest(bs);
    var (a, r2) :- ReadU64s(r1, 6);
    var (receipt, rest) :- ReadDigest(r2);
    Done(M.PaymentState(id, a[0], a[1], a[2], a[3], a[4], a[5], receipt), rest)
  }

  lemma ReadsState(s: M.PaymentState, rest: seq<byte>)
    ensures ReadState(StateBytes(s) + rest) == Done(s, rest)
  {
    var tail := s.previousReceipt + rest;
    assert StateBytes(s) + rest == s.channelId + (U64List(StateAmounts(s)) + tail);
    ReadsDigest(s.channelId, U64List(StateAmounts(s)) + tail);
    U64sRoundTrip(StateAmounts(s), tail);
    ReadsDigest(s.previousReceipt, rest);
  }

  lemma StateCanonical(bs: seq<byte>)
    requires ReadState(bs).Done?
    ensures bs == StateBytes(ReadState(bs).value) + ReadState(bs).rest
  {
    var id := ReadDigest(bs);
    DigestCanonical(bs);
    var a := ReadU64s(id.rest, 6);
    DigestCanonical(a.rest);
    U64sCanonical(id.rest, 6);
    var p := ReadState(bs);
    assert StateAmounts(p.value) == a.value;
    assert bs == p.value.channelId + (U64List(a.value) + (p.value.previousReceipt + p.rest));
  }

  // ----- inputs -------------------------------------------------------------------------------

  function EvidenceBytes(w: InputWitness): seq<byte> {
    match w
    case KeyWitness(key, signature) => [0] + (key + signature)
    case SettlementWitness(terms, s) => [1] + SettlementBytes(terms, s)
    case RefundWitness(terms) => [2] + TermsBytes(terms)
  }

  /** What shape validation demands of one input. */
  predicate EvidenceShape(w: InputWitness, network: Digest) {
    CanonicalSignatures(w) && (w.KeyWitness? || w.terms.networkId == network)
  }

  function ReadKeyEvidence(bs: seq<byte>): Parsed<InputWitness> {
    var (key, r) :- ReadDigest(bs);
    var (signature, rest) :- Take(r, CONSENSUS_SIGNATURE_BYTES);
    Done(KeyWitness(key, signature), rest)
  }

  function ReadSettlementEvidence(bs: seq<byte>, network: Digest): Parsed<InputWitness> {
    var (terms, r1) :- ReadTerms(bs, network);
    var (state, r2) :- ReadState(r1);
    var (customer, r3) :- Take(r2, CONSENSUS_SIGNATURE_BYTES);
    var (provider, rest) :- Take(r3, CONSENSUS_SIGNATURE_BYTES);
    Done(SettlementWitness(terms, M.Settlement(M.SignedPaymentState(state, customer), provider)), rest)
  }

  function ReadRefundEvidence(bs: seq<byte>, network: Digest): Parsed<InputWitness> {
    var (terms, rest) :- ReadTerms(bs, network);
    Done(RefundWitness(terms), rest)
  }

  function ReadEvidence(bs: seq<byte>, network: Digest): Parsed<InputWitness> {
    var (tag, r) :- ReadU8(bs);
    if tag == 0 then ReadKeyEvidence(r)
    else if tag == 1 then ReadSettlementEvidence(r, network)
    else if tag == 2 then ReadRefundEvidence(r, network)
    else Fail
  }

  lemma ReadsKeyEvidence(key: Digest, signature: seq<byte>, rest: seq<byte>)
    requires |signature| == CONSENSUS_SIGNATURE_BYTES
    ensures ReadKeyEvidence(key + signature + rest) == Done(KeyWitness(key, signature), rest)
  {
    assert key + signature + rest == key + (signature + rest);
    ReadsDigest(key, signature + rest);
    PrefixTake(signature, rest);
  }

  function SettlementBytes(terms: M.ChannelTerms, s: M.Settlement): seq<byte> {
    TermsBytes(terms) + (StateBytes(s.state.state) + (s.state.customerSignature + s.providerSignature))
  }

  lemma ReadsSettlementEvidence(terms: M.ChannelTerms, s: M.Settlement, rest: seq<byte>)
    requires |s.state.customerSignature| == |s.providerSignature| == CONSENSUS_SIGNATURE_BYTES
    ensures ReadSettlementEvidence(SettlementBytes(terms, s) + rest, terms.networkId)
         == Done(SettlementWitness(terms, s), rest)
  {
    var customer, provider := s.state.customerSignature, s.providerSignature;
    var state := StateBytes(s.state.state);
    Regroup(TermsBytes(terms), state + (customer + provider), rest);
    Regroup(state, customer + provider, rest);
    Regroup(customer, provider, rest);
    ReadsTerms(terms, state + (customer + (provider + rest)));
    ReadsState(s.state.state, customer + (provider + rest));
    Takes(customer, provider + rest);
    Takes(provider, rest);
  }

  lemma SettlementEvidenceCanonical(bs: seq<byte>, network: Digest)
    requires ReadSettlementEvidence(bs, network).Done?
    ensures var p := ReadSettlementEvidence(bs, network);
            && EvidenceShape(p.value, network)
            && bs == SettlementBytes(p.value.terms, p.value.settlement) + p.rest
  {
    var terms := ReadTerms(bs, network);
    TermsCanonical(bs, network);
    var state := ReadState(terms.rest);
    StateCanonical(terms.rest);
    var customer := Take(state.rest, CONSENSUS_SIGNATURE_BYTES);
    TakeSplits(state.rest, CONSENSUS_SIGNATURE_BYTES);
    var provider := Take(customer.rest, CONSENSUS_SIGNATURE_BYTES);
    TakeSplits(customer.rest, CONSENSUS_SIGNATURE_BYTES);
    Regroup(customer.value, provider.value, provider.rest);
    Regroup(StateBytes(state.value), customer.value + provider.value, provider.rest);
    Regroup(TermsBytes(terms.value), StateBytes(state.value) + (customer.value + provider.value), provider.rest);
  }

  lemma TagSplit(tag: byte, body: seq<byte>, rest: seq<byte>)
    ensures ReadU8([tag] + body + rest) == Done(tag, body + rest)
  {
    assert ([tag] + body + rest)[1..] == body + rest;
  }

  lemma ReadsEvidence(w: InputWitness, network: Digest, rest: seq<byte>)
    requires EvidenceShape(w, network)
    ensures ReadEvidence(EvidenceBytes(w) + rest, network) == Done(w, rest)
  {
    match w
    case KeyWitness(key, signature) =>
      TagSplit(0, key + signature, rest);
      ReadsKeyEvidence(key, signature, rest);
    case SettlementWitness(terms, s) =>
      TagSplit(1, SettlementBytes(terms, s), rest);
      ReadsSettlementEvidence(terms, s, rest);
    case RefundWitness(terms) =>
      TagSplit(2, TermsBytes(terms), rest);
      ReadsTerms(terms, rest);
  }

  lemma KeyEvidenceCanonical(bs: seq<byte>, network: Digest)
    requires ReadKeyEvidence(bs).Done?
    ensures var p := ReadKeyEvidence(bs);
            && p.value.KeyWitness? && EvidenceShape(p.value, network)
            && bs == (p.value.publicKey + p.value.signature) + p.rest
  {
    var key := ReadDigest(bs);
    DigestCanonical(bs);
    var signature := Take(key.rest, CONSENSUS_SIGNATURE_BYTES);
    TakeSplits(key.rest, CONSENSUS_SIGNATURE_BYTES);
    Regroup(key.value, signature.value, signature.rest);
  }

  lemma TagCanonical(bs: seq<byte>, body: seq<byte>, rest: seq<byte>)
    requires ReadU8(bs).Done? && ReadU8(bs).rest == body + rest
    ensures bs == [ReadU8(bs).value] + body + rest
  {
    assert bs == [bs[0]] + bs[1..];
    Regroup([bs[0]], body, rest);
  }

  lemma EvidenceCanonical(bs: seq<byte>, network: Digest)
    requires ReadEvidence(bs, network).Done?
    ensures var p := ReadEvidence(bs, network);
            EvidenceShape(p.value, network) && bs == EvidenceBytes(p.value) + p.rest
  {
    var r := ReadU8(bs).rest;
    var p := ReadEvidence(bs, network);
    if ReadU8(bs).value == 0 {
      KeyEvidenceCanonical(r, network);
      TagCanonical(bs, p.value.publicKey + p.value.signature, p.rest);
    } else if ReadU8(bs).value == 1 {
      SettlementEvidenceCanonical(r, network);
      TagCanonical(bs, SettlementBytes(p.value.terms, p.value.settlement), p.rest);
    } else {
      TermsCanonical(r, network);
      TagCanonical(bs, TermsBytes(p.value.terms), p.rest);
    }
  }

  function InputBytes(i: TxInput): seq<byte> {
    i.previous.txid + (U32Bytes(i.previous.index) + EvidenceBytes(i.evidence))
  }

  function ReadInput(bs: seq<byte>, network: Digest): Parsed<TxInput> {
    var (txid, r1) :- ReadDigest(bs);
    var (index, r2) :- ReadU32(r1);
    var (evidence, rest) :- ReadEvidence(r2, network);
    Done(TxInput(OutPoint(txid, index), evidence), rest)
  }

  lemma ReadsInput(i: TxInput, network: Digest, rest: seq<byte>)
    requires EvidenceShape(i.evidence, network)
    ensures ReadInput(InputBytes(i) + rest, network) == Done(i, rest)
  {
    var r2 := EvidenceBytes(i.evidence) + rest;
    var r1 := U32Bytes(i.previous.index) + r2;
    assert InputBytes(i) + rest == i.previous.txid + r1;
    ReadsDigest(i.previous.txid, r1);
    ReadsU32(i.previous.index, r2);
    ReadsEvidence(i.evidence, network, rest);
  }

  lemma InputCanonical(bs: seq<byte>, network: Digest)
    requires ReadInput(bs, network).Done?
    ensures var p := ReadInput(bs, network);
            EvidenceShape(p.value.evidence, network) && bs == InputBytes(p.value) + p.rest
  {
    var txid := ReadDigest(bs);
    DigestCanonical(bs);
    var index := ReadU32(txid.rest);
    U32Canonical(txid.rest);
    EvidenceCanonical(index.rest, network);
    var evidence := ReadEvidence(index.rest, network);
    Regroup(U32Bytes(index.value), EvidenceBytes(evidence.value), evidence.rest);
    Regroup(txid.value, U32Bytes(index.value) + EvidenceBytes(evidence.value), evidence.rest);
  }

  predicate InputsShape(inputs: seq<TxInput>, network: Digest) {
    forall i :: 0 <= i < |inputs| ==> EvidenceShape(inputs[i].evidence, network)
  }

  function InputList(inputs: seq<TxInput>): seq<byte> { WriteMany(InputBytes, inputs) }

  function ReadInputs(bs: seq<byte>, n: nat, network: Digest): Parsed<seq<TxInput>> {
    ReadMany(b => ReadInput(b, network), bs, n)
  }

  lemma InputsRoundTrip(inputs: seq<TxInput>, network: Digest, rest: seq<byte>)
    requires InputsShape(inputs, network)
    ensures ReadInputs(InputList(inputs) + rest, |inputs|, network) == Done(inputs, rest)
  {
    var read := b => ReadInput(b, network);
    forall i | 0 <= i < |inputs| ensures Reads(InputBytes, read, inputs[i]) {
      forall r ensures read(InputBytes(inputs[i]) + r) == Done(inputs[i], r) {
        ReadsInput(inputs[i], network, r);
      }
    }
    ReadsMany(InputBytes, read, inputs, rest);
  }

  lemma {:induction false} InputsCanonical(bs: seq<byte>, n: nat, network: Digest)
    requires ReadInputs(bs, n, network).Done?
    ensures var p := ReadInputs(bs, n, network);
            |p.value| == n && InputsShape(p.value, network) && bs == InputList(p.value) + p.rest
  {
    var read := b => ReadInput(b, network);
    forall b | read(b).Done? ensures b == InputBytes(read(b).value) + read(b).rest {
      InputCanonical(b, network);
    }
    ManyCanonical(InputBytes, read, bs, n);
    var shaped := (i: TxInput) => EvidenceShape(i.evidence, network);
    forall b | read(b).Done? ensures shaped(read(b).value) {
      InputCanonical(b, network);
    }
    ManyHold(shaped, read, bs, n);
  }
}
