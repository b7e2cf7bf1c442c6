/** Where every field of the wire and log formats stands, byte by byte. */
module WireLayout {
  import opened Prelude
  import opened Arith
  import opened Bytes
  import opened Ledger
  import opened WireFormat
  import opened WireObjects
  import M = Marketplace

  // ----- fields ---------------------------------------------------------------------------------------------

  /** The bytes hold this field at this offset. */
  ghost predicate Field(bs: seq<byte>, at: int, field: seq<byte>) {
    0 <= at && at + |field| <= |bs| && bs[at..at + |field|] == field
  }

  /** Digit i of a number in base 256, the lowest first. */
  ghost function Digit(n: nat, i: nat): int {
    RadixPositive(i);
    n / Radix(i) % 256
  }

  lemma {:induction false} RadixPositive(i: nat)
    ensures Radix(i) > 0
  {
    if i > 0 { RadixPositive(i - 1); }
  }

  /** A number of the given width at this offset, lowest byte first. */
  ghost predicate Little(bs: seq<byte>, at: nat, width: nat, n: nat) {
    at + width <= |bs| && forall i :: 0 <= i < width ==> bs[at + i] as int == Digit(n, i)
  }

  /** A 32-byte number at this offset, highest byte first. */
  ghost predicate Big(bs: seq<byte>, at: nat, n: nat) {
    at + 32 <= |bs| && forall i :: 0 <= i < 32 ==> bs[at + 31 - i] as int == Digit(n, i)
  }

  lemma {:induction false} LittleDigit(x: nat, width: nat, i: nat)
    requires i < width
    ensures ToLittleEndian(x, width)[i] as int == Digit(x, i)
    decreases width
  {
    if i == 0 {
      assert Radix(0) == 1;
    } else {
      LittleDigit(x / 256, width - 1, i - 1);
      NextDigit(x, i - 1);
    }
  }

  lemma NextDigit(x: nat, i: nat)
    ensures Digit(x, i + 1) == Digit(x / 256, i)
  {
    var r, h := Radix(i), x / 256;
    RadixPositive(i);
    DivMod(h, r);
    DivNonneg(h, r);
    MulAssoc(h / r, 256, r);
    MulDistrib(h / r * r, h % r, 256);
    EuclidUnique(x, 256 * r, h / r, 256 * (h % r) + x % 256);
  }

  lemma LittleField(bs: seq<byte>, at: nat, width: nat, n: nat)
    requires Field(bs, at, ToLittleEndian(n, width))
    ensures Little(bs, at, width, n)
  {
    var d := ToLittleEndian(n, width);
    hide Digit, ToLittleEndian;
    forall i | 0 <= i < width ensures bs[at + i] as int == Digit(n, i) {
      assert bs[at..at + width][i] == d[i];
      LittleDigit(n, width, i);
    }
  }

  lemma BigField(bs: seq<byte>, at: nat, n: u256)
    requires Field(bs, at, TargetBytes(n))
    ensures Big(bs, at, n)
  {
    var d := TargetBytes(n);
    forall i | 0 <= i < 32 ensures bs[at + 31 - i] as int == Digit(n, i) {
      assert bs[at..at + 32][31 - i] == d[31 - i];
      LittleDigit(n, 32, i);
    }
  }

  lemma Whole(a: seq<byte>)
    ensures Field(a, 0, a)
  {
    assert a[0..|a|] == a;
  }

  /** Fields of a part are fields of the whole. */
  lemma InFirst(a: seq<byte>, b: seq<byte>, at: nat, field: seq<byte>)
    requires Field(a, at, field)
    ensures Field(a + b, at, field)
  {
    assert (a + b)[at..at + |field|] == a[at..at + |field|];
  }

  lemma InSecond(a: seq<byte>, b: seq<byte>, at: nat, field: seq<byte>)
    requires Field(b, at, field)
    ensures Field(a + b, |a| + at, field)
  {
    assert (a + b)[|a| + at..|a| + at + |field|] == b[at..at + |field|];
  }

  lemma First(a: seq<byte>, b: seq<byte>)
    ensures Field(a + b, 0, a) && Field(a + b, |a|, b)
  {
    Whole(a);
    Whole(b);
    InFirst(a, b, 0, a);
    InSecond(a, b, 0, b);
  }

  /** A field of a field. */
  lemma Within(bs: seq<byte>, at: nat, part: seq<byte>, inner: nat, field: seq<byte>)
    requires Field(bs, at, part) && Field(part, inner, field)
    ensures Field(bs, at + inner, field)
  {
    forall i | 0 <= i < |field| ensures bs[at + inner + i] == field[i] {
      assert bs[at..at + |part|][inner + i] == part[inner + i] == part[inner..inner + |field|][i];
    }
  }

  // ----- lists ------------------------------------------------------------------------------------------------

  /** Items stand one after the other: item i after all before it. */
  lemma {:induction false} ItemAt<T>(write: T -> seq<byte>, xs: seq<T>, i: nat)
    requires i < |xs|
    ensures Field(WriteMany(write, xs), |WriteMany(write, xs[..i])|, write(xs[i]))
  {
    if i == 0 {
      assert xs[..0] == [] && WriteMany(write, xs[..0]) == [];
      First(write(xs[0]), WriteMany(write, xs[1..]));
    } else {
      ItemAt(write, xs[1..], i - 1);
      assert xs[..i][1..] == xs[1..][..i - 1];
      InSecond(write(xs[0]), WriteMany(write, xs[1..]), |WriteMany(write, xs[1..][..i - 1])|, write(xs[i]));
    }
  }

  lemma {:induction false} FixedLength<T>(write: T -> seq<byte>, xs: seq<T>, width: nat)
    requires forall x :: |write(x)| == width
    ensures |WriteMany(write, xs)| == width * |xs|
  {
    if xs != [] {
      FixedLength(write, xs[1..], width);
      MulDistrib(|xs| - 1, 1, width);
    }
  }

  lemma FixedItem<T>(write: T -> seq<byte>, xs: seq<T>, i: nat, width: nat)
    requires i < |xs| && forall x :: |write(x)| == width
    ensures width * i >= 0 && Field(WriteMany(write, xs), width * i, write(xs[i]))
  {
    ItemAt(write, xs, i);
    FixedLength(write, xs[..i], width);
  }

  lemma DigestAt(ds: seq<Digest>, i: nat)
    requires i < |ds|
    ensures |DigestList(ds)| == 32 * |ds| && Field(DigestList(ds), 32 * i, ds[i])
  {
    DigestListLength(ds);
    FixedItem((d: Digest) => d, ds, i, 32);
  }

  lemma NumberAt(xs: seq<u64>, i: nat)
    requires i < |xs|
    ensures |U64List(xs)| == 8 * |xs| && Field(U64List(xs), 8 * i, U64Bytes(xs[i]))
  {
    FixedLength(U64Bytes, xs, 8);
    FixedItem(U64Bytes, xs, i, 8);
  }

  // ----- outputs and inputs ---------------------------------------------------------------------------------

  /** Value, lock kind, lock digest, height: 49 bytes. */
  lemma OutputLayout(o: TxOutput)
    ensures var b := OutputBytes(o);
            && |b| == 49 && Little(b, 0, 8, o.value)
            && Field(b, 8, if o.lock.KeyLock? then [0] + o.lock.owner else [1] + o.lock.channelId)
            && Little(b, 41, 8, o.spendableHeight)
  {
    var v, l, h := U64Bytes(o.value), LockBytes(o.lock), U64Bytes(o.spendableHeight);
    hide ToLittleEndian;
    First(v, l);
    First(v + l, h);
    InFirst(v + l, h, 0, v);
    InFirst(v + l, h, 8, l);
    LittleField(OutputBytes(o), 0, 8, o.value);
    LittleField(OutputBytes(o), 41, 8, o.spendableHeight);
  }

  /** Seven digests, then nine amounts. */
  lemma TermsLayout(t: M.ChannelTerms)
    ensures var b := TermsBytes(t);
            && |b| == 296
            && Field(b, 0, t.networkId) && Field(b, 32, t.jobId) && Field(b, 64, t.customerKey)
            && Field(b, 96, t.providerKey) && Field(b, 128, t.modelDigest) && Field(b, 160, t.runtimeDigest)
            && Field(b, 192, t.inputDigest)
            && Little(b, 224, 8, t.deposit) && Little(b, 232, 8, t.closeFeeBurn) && Little(b, 240, 8, t.basePrice)
            && Little(b, 248, 8, t.inputPricePer1000) && Little(b, 256, 8, t.outputPricePer1000)
            && Little(b, 264, 8, t.maxInputTokens) && Little(b, 272, 8, t.maxOutputTokens)
            && Little(b, 280, 8, t.outputChunkTokens) && Little(b, 288, 8, t.refundHeight)
  {
    hide DigestList, U64List, Little, Field;
    var ds, xs := TermsDigests(t), TermsAmounts(t);
    assert |TermsBytes(t)| == 296 by {
      DigestAt(ds, 0);
      NumberAt(xs, 0);
    }
    TermsDigest(t, 0); TermsDigest(t, 1); TermsDigest(t, 2); TermsDigest(t, 3);
    TermsDigest(t, 4); TermsDigest(t, 5); TermsDigest(t, 6);
    TermsAmount(t, 0); TermsAmount(t, 1); TermsAmount(t, 2); TermsAmount(t, 3); TermsAmount(t, 4);
    TermsAmount(t, 5); TermsAmount(t, 6); TermsAmount(t, 7); TermsAmount(t, 8);
  }

  lemma TermsDigest(t: M.ChannelTerms, i: nat)
    requires i < 7
    ensures Field(TermsBytes(t), 32 * i, TermsDigests(t)[i])
  {
    hide DigestList, U64List, Field;
    DigestAt(TermsDigests(t), i);
    InFirst(DigestList(TermsDigests(t)), U64List(TermsAmounts(t)), 32 * i, TermsDigests(t)[i]);
  }

  lemma TermsAmount(t: M.ChannelTerms, i: nat)
    requires i < 9
    ensures Little(TermsBytes(t), 224 + 8 * i, 8, TermsAmounts(t)[i])
  {
    hide DigestList, U64List, Field, Little;
    DigestAt(TermsDigests(t), 0);
    NumberAt(TermsAmounts(t), i);
    InSecond(DigestList(TermsDigests(t)), U64List(TermsAmounts(t)), 8 * i, U64Bytes(TermsAmounts(t)[i]));
    LittleField(TermsBytes(t), 224 + 8 * i, 8, TermsAmounts(t)[i]);
  }

  /** The channel, six amounts, and the receipt before. */
  lemma StateLayout(s: M.PaymentState)
    ensures var b := StateBytes(s);
            && |b| == 112 && Field(b, 0, s.channelId)
            && Little(b, 32, 8, s.sequence) && Little(b, 40, 8, s.inputTokens)
            && Little(b, 48, 8, s.authorizedOutputTokens) && Little(b, 56, 8, s.providerPayment)
            && Little(b, 64, 8, s.customerRefund) && Little(b, 72, 8, s.closeFeeBurn)
            && Field(b, 80, s.previousReceipt)
  {
    hide StateBytes, Little, Field;
    StateEnds(s);
    StateAmount(s, 0); StateAmount(s, 1); StateAmount(s, 2); StateAmount(s, 3); StateAmount(s, 4); StateAmount(s, 5);
  }

  lemma StateEnds(s: M.PaymentState)
    ensures |StateBytes(s)| == 112 && Field(StateBytes(s), 0, s.channelId)
            && Field(StateBytes(s), 80, s.previousReceipt)
  {
    hide U64List, Field;
    var x := U64List(StateAmounts(s));
    NumberAt(StateAmounts(s), 0);
    First(s.channelId, x);
    First(s.channelId + x, s.previousReceipt);
    InFirst(s.channelId + x, s.previousReceipt, 0, s.channelId);
  }

  lemma StateAmount(s: M.PaymentState, i: nat)
    requires i < 6
    ensures Little(StateBytes(s), 32 + 8 * i, 8, StateAmounts(s)[i])
  {
    hide U64List, Little, Field;
    var xs := StateAmounts(s);
    NumberAt(xs, i);
    InSecond(s.channelId, U64List(xs), 8 * i, U64Bytes(xs[i]));
    InFirst(s.channelId + U64List(xs), s.previousReceipt, 32 + 8 * i, U64Bytes(xs[i]));
    LittleField(StateBytes(s), 32 + 8 * i, 8, xs[i]);
  }

  /** The output named, the kind of witness, and its parts in order. */
  lemma InputLayout(i: TxInput)
    requires CanonicalSignatures(i.evidence)
    ensures var b := InputBytes(i);
            && Field(b, 0, i.previous.txid) && Little(b, 32, 4, i.previous.index)
            && match i.evidence
               case KeyWitness(key, signature) =>
                 |b| == 133 && Field(b, 36, [0]) && Field(b, 37, key) && Field(b, 69, signature)
               case SettlementWitness(terms, s) =>
                 && |b| == 573 && Field(b, 36, [1]) && Field(b, 37, TermsBytes(terms))
                 && Field(b, 333, StateBytes(s.state.state))
                 && Field(b, 445, s.state.customerSignature) && Field(b, 509, s.providerSignature)
               case RefundWitness(terms) =>
                 |b| == 333 && Field(b, 36, [2]) && Field(b, 37, TermsBytes(terms))
  {
    hide TermsBytes, StateBytes, Little, Field, ToLittleEndian;
    var n, e := U32Bytes(i.previous.index), EvidenceBytes(i.evidence);
    First(i.previous.txid, n + e);
    First(n, e);
    InSecond(i.previous.txid, n + e, 0, n);
    InSecond(i.previous.txid, n + e, 4, e);
    LittleField(InputBytes(i), 32, 4, i.previous.index);
    match i.evidence {
      case KeyWitness(key, signature) =>
        First([0], key + signature);
        First(key, signature);
        InSecond([0], key + signature, 0, key);
        InSecond([0], key + signature, 32, signature);
        Within(InputBytes(i), 36, e, 0, [0]);
        Within(InputBytes(i), 36, e, 1, key);
        Within(InputBytes(i), 36, e, 33, signature);
      case SettlementWitness(terms, s) =>
        TermsLayout(terms);
        StateLayout(s.state.state);
        First([1], SettlementBytes(terms, s));
        Within(InputBytes(i), 36, e, 0, [1]);
        Within(InputBytes(i), 36, e, 1, SettlementBytes(terms, s));
        SettlementLayout(terms, s);
        Within(InputBytes(i), 37, SettlementBytes(terms, s), 0, TermsBytes(terms));
        Within(InputBytes(i), 37, SettlementBytes(terms, s), 296, StateBytes(s.state.state));
        Within(InputBytes(i), 37, SettlementBytes(terms, s), 408, s.state.customerSignature);
        Within(InputBytes(i), 37, SettlementBytes(terms, s), 472, s.providerSignature);
      case RefundWitness(terms) =>
        TermsLayout(terms);
        First([2], TermsBytes(terms));
        Within(InputBytes(i), 36, e, 0, [2]);
        Within(InputBytes(i), 36, e, 1, TermsBytes(terms));
    }
  }

  lemma SettlementLayout(terms: M.ChannelTerms, s: M.Settlement)
    requires |s.state.customerSignature| == |s.providerSignature| == 64
    ensures var b := SettlementBytes(terms, s);
            && |b| == 536 && Field(b, 0, TermsBytes(terms)) && Field(b, 296, StateBytes(s.state.state))
            && Field(b, 408, s.state.customerSignature) && Field(b, 472, s.providerSignature)
  {
    hide TermsBytes, StateBytes, Little, Field;
    TermsLayout(terms);
    StateLayout(s.state.state);
    var t, p, x, y := TermsBytes(terms), StateBytes(s.state.state), s.state.customerSignature, s.providerSignature;
    First(t, p + (x + y));
    First(p, x + y);
    First(x, y);
    InSecond(t, p + (x + y), 0, p);
    InSecond(p, x + y, 0, x);
    InSecond(p, x + y, 64, y);
    InSecond(t, p + (x + y), 112, x);
    InSecond(t, p + (x + y), 176, y);
  }

  // ----- sections and objects -------------------------------------------------------------------------------

  /** A count, then the items. */
  lemma Counted(n: nat, items: seq<byte>)
    ensures var b := CountBytes(n) + items;
            |b| == 4 + |items| && Little(b, 0, 4, n) && Field(b, 4, items)
  {
    hide ToLittleEndian;
    First(CountBytes(n), items);
    LittleField(CountBytes(n) + items, 0, 4, n);
  }

  lemma LittleWithin(bs: seq<byte>, at: nat, part: seq<byte>, inner: nat, width: nat, n: nat)
    requires Field(bs, at, part) && Little(part, inner, width, n)
    ensures Little(bs, at + inner, width, n)
  {
    hide Digit;
    forall i | 0 <= i < width ensures bs[at + inner + i] as int == Digit(n, i) {
      assert bs[at..at + |part|][inner + i] == part[inner + i];
    }
  }

  /** Network, version, counted inputs, counted outputs. */
  lemma TransactionLayout(t: Transaction)
    ensures var b, ins, outs := TransactionPayload(t), InputList(t.inputs), OutputList(t.outputs);
            && |b| == 44 + |ins| + |outs|
            && Field(b, 0, t.networkId) && Little(b, 32, 4, t.version)
            && Little(b, 36, 4, |t.inputs|) && Field(b, 40, ins)
            && Little(b, 40 + |ins|, 4, |t.outputs|) && Field(b, 44 + |ins|, outs)
  {
    hide InputList, OutputList, Little, Field, ToLittleEndian;
    var ins, outs := InputList(t.inputs), OutputList(t.outputs);
    var v, i, o := U32Bytes(t.version), InputSection(t.inputs), OutputSection(t.outputs);
    var b := TransactionPayload(t);
    First(t.networkId, v + (i + o));
    First(v, i + o);
    First(i, o);
    Counted(|t.inputs|, ins);
    Counted(|t.outputs|, outs);
    Within(b, 32, v + (i + o), 0, v);
    Within(b, 32, v + (i + o), 4, i + o);
    Within(b, 36, i + o, 0, i);
    Within(b, 36, i + o, |i|, o);
    LittleField(b, 32, 4, t.version);
    LittleWithin(b, 36, i, 0, 4, |t.inputs|);
    Within(b, 36, i, 4, ins);
    LittleWithin(b, 36 + |i|, o, 0, 4, |t.outputs|);
    Within(b, 36 + |i|, o, 4, outs);
  }

  /** Outputs are 49 bytes apart; inputs follow one another. */
  lemma ItemsLayout(t: Transaction)
    ensures forall i :: 0 <= i < |t.outputs| ==> Field(OutputList(t.outputs), 49 * i, OutputBytes(t.outputs[i]))
    ensures forall i :: 0 <= i < |t.inputs| ==>
                          Field(InputList(t.inputs), |InputList(t.inputs[..i])|, InputBytes(t.inputs[i]))
  {
    hide OutputBytes, InputBytes, Field;
    forall i | 0 <= i < |t.outputs| ensures Field(OutputList(t.outputs), 49 * i, OutputBytes(t.outputs[i])) {
      FixedItem(OutputBytes, t.outputs, i, 49);
    }
    forall i | 0 <= i < |t.inputs|
      ensures Field(InputList(t.inputs), |InputList(t.inputs[..i])|, InputBytes(t.inputs[i]))
    {
      ItemAt(InputBytes, t.inputs, i);
    }
  }

  /** Three digests, height, time, and the target highest byte first: 144 bytes. */
  lemma ChallengeLayout(c: BlockChallenge)
    ensures var b := ChallengeBytes(c);
            && |b| == 144
            && Field(b, 0, c.networkId) && Field(b, 32, c.previousBlock) && Field(b, 64, c.transactionRoot)
            && Little(b, 96, 8, c.height) && Little(b, 104, 8, c.timestamp) && Big(b, 112, c.target)
  {
    hide DigestList, U64List, Little, Field, Big, TargetBytes;
    var ds, xs := [c.networkId, c.previousBlock, c.transactionRoot], [c.height, c.timestamp];
    var d, x, t := DigestList(ds), U64List(xs), TargetBytes(c.target);
    var b := ChallengeBytes(c);
    DigestAt(ds, 0); DigestAt(ds, 1); DigestAt(ds, 2);
    NumberAt(xs, 0); NumberAt(xs, 1);
    TargetLength(c.target);
    First(d, x + t);
    First(x, t);
    Within(b, 0, d, 0, c.networkId);
    Within(b, 0, d, 32, c.previousBlock);
    Within(b, 0, d, 64, c.transactionRoot);
    Within(b, 96, x + t, 0, x);
    Within(b, 96, x + t, 16, t);
    Within(b, 96, x, 0, U64Bytes(c.height));
    Within(b, 96, x, 8, U64Bytes(c.timestamp));
    LittleField(b, 96, 8, c.height);
    LittleField(b, 104, 8, c.timestamp);
    BigField(b, 112, c.target);
  }

  lemma TargetLength(x: u256)
    ensures |TargetBytes(x)| == 32
  {
  }

  /** Kind, network, two versions, the nonce, and the digests in order. */
  lemma ProofLayout(p: BlockProof, network: Digest)
    ensures var b := ProofPayload(p, network);
            && Field(b, 0, [if p.V1Legacy? then 1 else 2]) && Field(b, 1, network)
            && Little(b, 33, 4, p.algorithmVersion) && Little(b, 41, 8, p.nonce)
            && match p
               case V1Legacy(_, model, _, root, output, work) =>
                 && |b| == 145 && Little(b, 37, 4, model)
                 && Field(b, 49, root) && Field(b, 81, output) && Field(b, 113, work)
               case V2Reference(_, version, _, manifest, challenge, activation, work) =>
                 && |b| == 177 && Little(b, 37, 4, version)
                 && Field(b, 49, manifest) && Field(b, 81, challenge) && Field(b, 113, activation)
                 && Field(b, 145, work)
  {
    hide Little, Field, ProofPayload;
    ProofStart(p, network);
    ProofDigestAt(p, network, 0); ProofDigestAt(p, network, 1); ProofDigestAt(p, network, 2);
    if p.V2Reference? { ProofDigestAt(p, network, 3); }
  }

  lemma ProofStart(p: BlockProof, network: Digest)
    ensures var b := ProofPayload(p, network);
            && |b| == 49 + 32 * |ProofDigests(p)| && Field(b, 0, [ProofTag(p)]) && Field(b, 1, network)
            && Little(b, 33, 4, ProofVersions(p).0) && Little(b, 37, 4, ProofVersions(p).1)
            && Little(b, 41, 8, p.nonce) && Field(b, 49, DigestList(ProofDigests(p)))
  {
    hide DigestList, Little, Field, ToLittleEndian, ProofDigests, ProofVersions;
    var b, body := ProofPayload(p, network), ProofBody(p);
    var x, y, z := U32Bytes(ProofVersions(p).0), U32Bytes(ProofVersions(p).1), U64Bytes(p.nonce);
    var d := DigestList(ProofDigests(p));
    DigestListLength(ProofDigests(p));
    First([ProofTag(p)], network + body);
    First(network, body);
    Within(b, 1, network + body, 0, network);
    Within(b, 1, network + body, 32, body);
    First(x, y + (z + d));
    First(y, z + d);
    First(z, d);
    Within(b, 33, body, 0, x);
    Within(b, 33, body, 4, y + (z + d));
    Within(b, 37, y + (z + d), 0, y);
    Within(b, 37, y + (z + d), 4, z + d);
    Within(b, 41, z + d, 0, z);
    Within(b, 41, z + d, 8, d);
    LittleField(b, 33, 4, ProofVersions(p).0);
    LittleField(b, 37, 4, ProofVersions(p).1);
    LittleField(b, 41, 8, p.nonce);
  }

  lemma ProofDigestAt(p: BlockProof, network: Digest, i: nat)
    requires i < |ProofDigests(p)|
    ensures Field(ProofPayload(p, network), 49 + 32 * i, ProofDigests(p)[i])
  {
    hide Field, Little, ProofPayload, DigestList, ProofDigests;
    ProofStart(p, network);
    DigestAt(ProofDigests(p), i);
    Within(ProofPayload(p, network), 49, DigestList(ProofDigests(p)), 32 * i, ProofDigests(p)[i]);
  }

  /** Version, challenge, sized proof, coinbase height and counted outputs, counted sized transactions. */
  lemma BlockLayout(b: Block)
    ensures var bs, outs := BlockPayload(b), OutputList(b.coinbase.outputs);
            var proof := ProofPayload(b.proof, b.challenge.networkId);
            var k := 152 + |proof|;
            && Little(bs, 0, 4, b.version) && Field(bs, 4, ChallengeBytes(b.challenge))
            && Little(bs, 148, 4, |proof|) && Field(bs, 152, proof)
            && Little(bs, k, 8, b.coinbase.height) && Little(bs, k + 8, 4, |b.coinbase.outputs|)
            && Field(bs, k + 12, outs)
            && Little(bs, k + 12 + |outs|, 4, |b.transactions|)
            && Field(bs, k + 16 + |outs|, WriteMany(EmbeddedTransaction, b.transactions))
  {
    hide BlockPayload, ChallengeBytes, ProofPayload, OutputList, WriteMany, Little, Field, ToLittleEndian;
    var bs, outs, ts := BlockPayload(b), OutputList(b.coinbase.outputs), WriteMany(EmbeddedTransaction, b.transactions);
    var proof := ProofPayload(b.proof, b.challenge.networkId);
    var k := 152 + |proof|;
    BlockParts(b);
    Counted(|proof|, proof);
    Counted(|b.transactions|, ts);
    CoinbaseLayout(b.coinbase);
    LittleWithin(bs, 148, SizedBytes(proof), 0, 4, |proof|);
    Within(bs, 148, SizedBytes(proof), 4, proof);
    LittleWithin(bs, k, CoinbaseBytes(b.coinbase), 0, 8, b.coinbase.height);
    LittleWithin(bs, k, CoinbaseBytes(b.coinbase), 8, 4, |b.coinbase.outputs|);
    Within(bs, k, CoinbaseBytes(b.coinbase), 12, outs);
    LittleWithin(bs, k + 12 + |outs|, TransactionSection(b.transactions), 0, 4, |b.transactions|);
    Within(bs, k + 12 + |outs|, TransactionSection(b.transactions), 4, ts);
  }

  /** Height, then counted outputs. */
  lemma CoinbaseLayout(cb: Coinbase)
    ensures var b, outs := CoinbaseBytes(cb), OutputList(cb.outputs);
            && |b| == 12 + |outs| && Little(b, 0, 8, cb.height) && Little(b, 8, 4, |cb.outputs|) && Field(b, 12, outs)
  {
    hide OutputList, Little, Field, ToLittleEndian;
    var b, outs := CoinbaseBytes(cb), OutputList(cb.outputs);
    First(U64Bytes(cb.height), OutputSection(cb.outputs));
    Counted(|cb.outputs|, outs);
    LittleField(b, 0, 8, cb.height);
    LittleWithin(b, 8, OutputSection(cb.outputs), 0, 4, |cb.outputs|);
    Within(b, 8, OutputSection(cb.outputs), 4, outs);
  }

  lemma BlockParts(b: Block)
    ensures var bs, proof := BlockPayload(b), ProofPayload(b.proof, b.challenge.networkId);
            && Little(bs, 0, 4, b.version) && Field(bs, 4, ChallengeBytes(b.challenge))
            && Field(bs, 148, SizedBytes(proof)) && Field(bs, 152 + |proof|, CoinbaseBytes(b.coinbase))
            && Field(bs, 152 + |proof| + |CoinbaseBytes(b.coinbase)|, TransactionSection(b.transactions))
  {
    hide ChallengeBytes, ProofPayload, CoinbaseBytes, TransactionSection, Little, Field, ToLittleEndian;
    var bs, proof := BlockPayload(b), ProofPayload(b.proof, b.challenge.networkId);
    var v, c, p := U32Bytes(b.version), ChallengeBytes(b.challenge), SizedBytes(proof);
    var cb, t := CoinbaseBytes(b.coinbase), TransactionSection(b.transactions);
    ChallengeLayout(b.challenge);
    First(v, c + (p + (cb + t)));
    First(c, p + (cb + t));
    First(p, cb + t);
    First(cb, t);
    Within(bs, 4, c + (p + (cb + t)), 0, c);
    Within(bs, 4, c + (p + (cb + t)), 144, p + (cb + t));
    Within(bs, 148, p + (cb + t), 0, p);
    Within(bs, 148, p + (cb + t), |p|, cb + t);
    Within(bs, 148 + |p|, cb + t, 0, cb);
    Within(bs, 148 + |p|, cb + t, |cb|, t);
    LittleField(bs, 0, 4, b.version);
  }

  /** A block's transactions stand one after the other, each after its length. */
  lemma BlockItems(b: Block, i: nat)
    requires i < |b.transactions|
    ensures var ts, t := WriteMany(EmbeddedTransaction, b.transactions), TransactionPayload(b.transactions[i]);
            var at := |WriteMany(EmbeddedTransaction, b.transactions[..i])|;
            Little(ts, at, 4, |t|) && Field(ts, at + 4, t)
  {
    hide TransactionPayload, Little, Field, ToLittleEndian;
    var ts, t := WriteMany(EmbeddedTransaction, b.transactions), TransactionPayload(b.transactions[i]);
    var at := |WriteMany(EmbeddedTransaction, b.transactions[..i])|;
    ItemAt(EmbeddedTransaction, b.transactions, i);
    Counted(|t|, t);
    LittleWithin(ts, at, SizedBytes(t), 0, 4, |t|);
    Within(ts, at, SizedBytes(t), 4, t);
  }

  /** "CMFD", the network, version one, the kind, a zero, the length, and the payload. */
  lemma FrameLayout(magic: NetworkMagic, kind: byte, network: Digest, payload: seq<byte>)
    ensures var b := Frame(magic, kind, network, payload);
            && |b| == 16 + |payload|
            && Field(b, 0, [67, 77, 70, 68]) && Field(b, 4, magic(network)) && Field(b, 8, [1, 0, kind, 0])
            && Little(b, 12, 4, |payload|) && Field(b, 16, payload)
  {
    hide Little, ToLittleEndian;
    var b, h := Frame(magic, kind, network, payload), FrameHeader(magic, kind, network);
    First(h, SizedBytes(payload));
    Counted(|payload|, payload);
    assert Field(h, 0, FRAME_MAGIC) && Field(h, 4, magic(network)) && Field(h, 8, [1, 0, kind, 0]);
    Within(b, 0, h, 0, FRAME_MAGIC);
    Within(b, 0, h, 4, magic(network));
    Within(b, 0, h, 8, [1, 0, kind, 0]);
    LittleWithin(b, 12, SizedBytes(payload), 0, 4, |payload|);
    Within(b, 12, SizedBytes(payload), 4, payload);
  }
}
