/** Transactions, proofs and blocks on the wire, and the theorem that their codec is a bijection. */
module WireObjects {
  import opened Prelude
  import opened Bytes
  import opened Ledger
  import opened WireFormat

  /** The four-byte network discriminator, derived from a network id by an arbitrary hash. */
  type Magic = m: seq<byte> | |m| == 4 witness [0, 0, 0, 0]
  type NetworkMagic = Digest -> Magic

  const FRAME_MAGIC: seq<byte> := [67, 77, 70, 68]
  const WIRE_VERSION_BYTES: seq<byte> := [1, 0]

  // ----- counts and sized payloads ------------------------------------------------------------

  function CountBytes(n: nat): (s: seq<byte>)
    ensures |s| == 4
  {
    ToLittleEndian(n, 4)
  }

  function ReadCount(bs: seq<byte>, maximum: nat): Parsed<nat> {
    var (n, rest) :- ReadU32(bs);
    if n > maximum then Fail else Done(n, rest)
  }

  lemma ReadsCount(n: nat, maximum: nat, rest: seq<byte>)
    requires n <= maximum <= U32_MAX
    ensures ReadCount(CountBytes(n) + rest, maximum) == Done(n, rest)
  {
    ReadsU32(n, rest);
  }

  lemma CountCanonical(bs: seq<byte>, maximum: nat)
    requires ReadCount(bs, maximum).Done?
    ensures var p := ReadCount(bs, maximum);
            p.value <= maximum && bs == CountBytes(p.value) + p.rest
  {
    U32Canonical(bs);
  }

  function SizedBytes(payload: seq<byte>): seq<byte> { CountBytes(|payload|) + payload }

  function ReadSized(bs: seq<byte>, maximumFrame: nat): Parsed<seq<byte>>
    requires maximumFrame >= WIRE_HEADER_BYTES
  {
    var (n, r) :- ReadCount(bs, maximumFrame - WIRE_HEADER_BYTES);
    Take(r, n)
  }

  lemma ReadsSized(payload: seq<byte>, maximumFrame: nat, rest: seq<byte>)
    requires |payload| + WIRE_HEADER_BYTES <= maximumFrame <= U32_MAX
    ensures ReadSized(SizedBytes(payload) + rest, maximumFrame) == Done(payload, rest)
  {
    Regroup(CountBytes(|payload|), payload, rest);
    ReadsCount(|payload|, maximumFrame - WIRE_HEADER_BYTES, payload + rest);
    Takes(payload, rest);
  }

  lemma SizedCanonical(bs: seq<byte>, maximumFrame: nat)
    requires maximumFrame >= WIRE_HEADER_BYTES && ReadSized(bs, maximumFrame).Done?
    ensures var p := ReadSized(bs, maximumFrame);
            |p.value| + WIRE_HEADER_BYTES <= maximumFrame && bs == SizedBytes(p.value) + p.rest
  {
    var n := ReadCount(bs, maximumFrame - WIRE_HEADER_BYTES);
    CountCanonical(bs, maximumFrame - WIRE_HEADER_BYTES);
    TakeSplits(n.rest, n.value);
    var p := Take(n.rest, n.value);
    Regroup(CountBytes(n.value), p.value, p.rest);
  }

  // ----- transactions -------------------------------------------------------------------------

  /** Shape validation of a transaction for a network. */
  predicate TransactionShape(t: Transaction, network: Digest) {
    && t.networkId == network
    && |t.inputs| <= MAX_TRANSACTION_INPUTS
    && |t.outputs| <= MAX_TRANSACTION_OUTPUTS
    && InputsShape(t.inputs, network)
  }

  function InputSection(inputs: seq<TxInput>): seq<byte> { CountBytes(|inputs|) + InputList(inputs) }

  function OutputSection(outputs: seq<TxOutput>): seq<byte> { CountBytes(|outputs|) + OutputList(outputs) }

  function TransactionPayload(t: Transaction): seq<byte> {
    t.networkId + (U32Bytes(t.version) + (InputSection(t.inputs) + OutputSection(t.outputs)))
  }

  function ReadInputSection(bs: seq<byte>, network: Digest): Parsed<seq<TxInput>> {
    var (n, r) :- ReadCount(bs, MAX_TRANSACTION_INPUTS);
    ReadInputs(r, n, network)
  }

  function ReadOutputSection(bs: seq<byte>, maximum: nat): Parsed<seq<TxOutput>> {
    var (n, r) :- ReadCount(bs, maximum);
    ReadOutputs(r, n)
  }

  function ReadTransaction(bs: seq<byte>, network: Digest): Parsed<Transaction> {
    var (id, r1) :- ReadDigest(bs);
    if id != network then Fail
    else
      var (version, r2) :- ReadU32(r1);
      var (inputs, r3) :- ReadInputSection(r2, network);
      var (outputs, rest) :- ReadOutputSection(r3, MAX_TRANSACTION_OUTPUTS);
      Done(Transaction(id, version, inputs, outputs), rest)
  }

  lemma ReadsInputSection(inputs: seq<TxInput>, network: Digest, rest: seq<byte>)
    requires |inputs| <= MAX_TRANSACTION_INPUTS && InputsShape(inputs, network)
    ensures ReadInputSection(InputSection(inputs) + rest, network) == Done(inputs, rest)
  {
    Regroup(CountBytes(|inputs|), InputList(inputs), rest);
    ReadsCount(|inputs|, MAX_TRANSACTION_INPUTS, InputList(inputs) + rest);
    InputsRoundTrip(inputs, network, rest);
  }

  lemma InputSectionCanonical(bs: seq<byte>, network: Digest)
    requires ReadInputSection(bs, network).Done?
    ensures var p := ReadInputSection(bs, network);
            && |p.value| <= MAX_TRANSACTION_INPUTS && InputsShape(p.value, network)
            && bs == InputSection(p.value) + p.rest
  {
    var n := ReadCount(bs, MAX_TRANSACTION_INPUTS);
    CountCanonical(bs, MAX_TRANSACTION_INPUTS);
    InputsCanonical(n.rest, n.value, network);
    var p := ReadInputs(n.rest, n.value, network);
    Regroup(CountBytes(n.value), InputList(p.value), p.rest);
  }

  lemma ReadsOutputSection(outputs: seq<TxOutput>, maximum: nat, rest: seq<byte>)
    requires |outputs| <= maximum <= U32_MAX
    ensures ReadOutputSection(OutputSection(outputs) + rest, maximum) == Done(outputs, rest)
  {
    Regroup(CountBytes(|outputs|), OutputList(outputs), rest);
    ReadsCount(|outputs|, maximum, OutputList(outputs) + rest);
    OutputsRoundTrip(outputs, rest);
  }

  lemma OutputSectionCanonical(bs: seq<byte>, maximum: nat)
    requires ReadOutputSection(bs, maximum).Done?
    ensures var p := ReadOutputSection(bs, maximum);
            |p.value| <= maximum && bs == OutputSection(p.value) + p.rest
  {
    var n := ReadCount(bs, maximum);
    CountCanonical(bs, maximum);
    OutputsCanonical(n.rest, n.value);
    var p := ReadOutputs(n.rest, n.value);
    Regroup(CountBytes(n.value), OutputList(p.value), p.rest);
  }

  lemma ReadsTransaction(t: Transaction, network: Digest, rest: seq<byte>)
    requires TransactionShape(t, network)
    ensures ReadTransaction(TransactionPayload(t) + rest, network) == Done(t, rest)
  {
    var inputs, outputs := InputSection(t.inputs), OutputSection(t.outputs);
    Regroup(t.networkId, U32Bytes(t.version) + (inputs + outputs), rest);
    Regroup(U32Bytes(t.version), inputs + outputs, rest);
    Regroup(inputs, outputs, rest);
    ReadsDigest(t.networkId, U32Bytes(t.version) + (inputs + (outputs + rest)));
    ReadsU32(t.version, inputs + (outputs + rest));
    ReadsInputSection(t.inputs, network, outputs + rest);
    ReadsOutputSection(t.outputs, MAX_TRANSACTION_OUTPUTS, rest);
  }

  lemma TransactionCanonical(bs: seq<byte>, network: Digest)
    requires ReadTransaction(bs, network).Done?
    ensures var p := ReadTransaction(bs, network);
            TransactionShape(p.value, network) && bs == TransactionPayload(p.value) + p.rest
  {
    var id := ReadDigest(bs);
    DigestCanonical(bs);
    var version := ReadU32(id.rest);
    U32Canonical(id.rest);
    InputSectionCanonical(version.rest, network);
    var inputs := ReadInputSection(version.rest, network);
    OutputSectionCanonical(inputs.rest, MAX_TRANSACTION_OUTPUTS);
    var outputs := ReadOutputSection(inputs.rest, MAX_TRANSACTION_OUTPUTS);
    var i, o := InputSection(inputs.value), OutputSection(outputs.value);
    Regroup(i, o, outputs.rest);
    Regroup(U32Bytes(version.value), i + o, outputs.rest);
    Regroup(id.value, U32Bytes(version.value) + (i + o), outputs.rest);
  }

  /** A whole payload: the size bound first, and nothing may be left over. */
  function DecodeTransactionPayload(payload: seq<byte>, network: Digest): Option<Transaction> {
    if |payload| + WIRE_HEADER_BYTES > MAX_TRANSACTION_BYTES then None
    else
      var p := ReadTransaction(payload, network);
      if p.Done? && p.rest == [] then Some(p.value) else None
  }

  /** Exactly the transactions encode_transaction_payload accepts. */
  predicate PayloadEncodable(t: Transaction, network: Digest) {
    TransactionShape(t, network) && |TransactionPayload(t)| + WIRE_HEADER_BYTES <= MAX_TRANSACTION_BYTES
  }

  lemma TransactionPayloadBijection(payload: seq<byte>, network: Digest, t: Transaction)
    ensures DecodeTransactionPayload(payload, network) == Some(t)
       <==> PayloadEncodable(t, network) && payload == TransactionPayload(t)
  {
    if PayloadEncodable(t, network) && payload == TransactionPayload(t) {
      assert payload + [] == payload;
      ReadsTransaction(t, network, []);
    }
    if DecodeTransactionPayload(payload, network) == Some(t) {
      TransactionCanonical(payload, network);
      assert TransactionPayload(t) + [] == TransactionPayload(t);
    }
  }

  // ----- proofs -------------------------------------------------------------------------------

  function ProofVersions(p: BlockProof): (u32, u32) {
    match p
    case V1Legacy(a, m, _, _, _, _) => (a, m)
    case V2Reference(a, v, _, _, _, _, _) => (a, v)
  }

  function ProofDigests(p: BlockProof): seq<Digest> {
    match p
    case V1Legacy(_, _, _, root, output, work) => [root, output, work]
    case V2Reference(_, _, _, manifest, challenge, activation, work) => [manifest, challenge, activation, work]
  }

  function ProofTag(p: BlockProof): byte { if p.V1Legacy? then 1 else 2 }

  function ProofBody(p: BlockProof): seq<byte> {
    U32Bytes(ProofVersions(p).0) + (U32Bytes(ProofVersions(p).1) + (U64Bytes(p.nonce) + DigestList(ProofDigests(p))))
  }

  function ProofPayload(p: BlockProof, network: Digest): seq<byte> {
    [ProofTag(p)] + (network + ProofBody(p))
  }

  function ReadProofBody(bs: seq<byte>, tag: byte): Parsed<BlockProof> {
    var (a, r1) :- ReadU32(bs);
    var (v, r2) :- ReadU32(r1);
    var (nonce, r3) :- ReadU64(r2);
    if tag == 1 then
      var (d, rest) :- ReadDigests(r3, 3);
      Done(V1Legacy(a, v, nonce, d[0], d[1], d[2]), rest)
    else if tag == 2 then
      var (d, rest) :- ReadDigests(r3, 4);
      Done(V2Reference(a, v, nonce, d[0], d[1], d[2], d[3]), rest)
    else Fail
  }

  function ReadProof(bs: seq<byte>, network: Digest): Parsed<BlockProof> {
    var (tag, r1) :- ReadU8(bs);
    var (id, r2) :- ReadDigest(r1);
    if id != network then Fail else ReadProofBody(r2, tag)
  }

  lemma ReadsProof(p: BlockProof, network: Digest, rest: seq<byte>)
    ensures ReadProof(ProofPayload(p, network) + rest, network) == Done(p, rest)
  {
    TagSplit(ProofTag(p), network + ProofBody(p), rest);
    Regroup(network, ProofBody(p), rest);
    ReadsDigest(network, ProofBody(p) + rest);
    ReadsProofBody(p, rest);
  }

  lemma ReadsProofBody(p: BlockProof, rest: seq<byte>)
    ensures ReadProofBody(ProofBody(p) + rest, ProofTag(p)) == Done(p, rest)
  {
    var (a, v) := ProofVersions(p);
    var d := DigestList(ProofDigests(p));
    Regroup(U32Bytes(a), U32Bytes(v) + (U64Bytes(p.nonce) + d), rest);
    Regroup(U32Bytes(v), U64Bytes(p.nonce) + d, rest);
    Regroup(U64Bytes(p.nonce), d, rest);
    ReadsU32(a, U32Bytes(v) + (U64Bytes(p.nonce) + (d + rest)));
    ReadsU32(v, U64Bytes(p.nonce) + (d + rest));
    ReadsU64(p.nonce, d + rest);
    DigestsRoundTrip(ProofDigests(p), rest);
  }

  lemma ProofBodyCanonical(bs: seq<byte>, tag: byte)
    requires ReadProofBody(bs, tag).Done?
    ensures var p := ReadProofBody(bs, tag); ProofTag(p.value) == tag && bs == ProofBody(p.value) + p.rest
  {
    var a := ReadU32(bs);
    var v := ReadU32(a.rest);
    var nonce := ReadU64(v.rest);
    U32Canonical(bs);
    U32Canonical(a.rest);
    U64Canonical(v.rest);
    var n := if tag == 1 then 3 else 4;
    DigestsCanonical(nonce.rest, n);
    var d := ReadDigests(nonce.rest, n);
    var p := ReadProofBody(bs, tag);
    assert ProofDigests(p.value) == d.value;
    Regroup(U64Bytes(nonce.value), DigestList(d.value), d.rest);
    Regroup(U32Bytes(v.value), U64Bytes(nonce.value) + DigestList(d.value), d.rest);
    Regroup(U32Bytes(a.value), U32Bytes(v.value) + (U64Bytes(nonce.value) + DigestList(d.value)), d.rest);
  }

  lemma ProofCanonical(bs: seq<byte>, network: Digest)
    requires ReadProof(bs, network).Done?
    ensures var p := ReadProof(bs, network); bs == ProofPayload(p.value, network) + p.rest
  {
    var r1 := ReadU8(bs).rest;
    var id := ReadDigest(r1);
    DigestCanonical(r1);
    ProofBodyCanonical(id.rest, ReadU8(bs).value);
    var p := ReadProof(bs, network);
    Regroup(network, ProofBody(p.value), p.rest);
    TagCanonical(bs, network + ProofBody(p.value), p.rest);
  }

  lemma {:induction false} DigestListLength(ds: seq<Digest>)
    ensures |DigestList(ds)| == 32 * |ds|
  {
    if ds != [] { DigestListLength(ds[1..]); }
  }

  lemma ProofPayloadLength(p: BlockProof, network: Digest)
    ensures |ProofPayload(p, network)| <= 177
  {
    DigestListLength(ProofDigests(p));
  }

  function DecodeProofPayload(payload: seq<byte>, network: Digest): Option<BlockProof> {
    if |payload| + WIRE_HEADER_BYTES > MAX_PROOF_BYTES then None
    else
      var p := ReadProof(payload, network);
      if p.Done? && p.rest == [] then Some(p.value) else None
  }

  lemma ProofPayloadBijection(payload: seq<byte>, network: Digest, p: BlockProof)
    ensures DecodeProofPayload(payload, network) == Some(p) <==> payload == ProofPayload(p, network)
  {
    if payload == ProofPayload(p, network) {
      assert payload + [] == payload;
      ReadsProof(p, network, []);
      ProofPayloadLength(p, network);
    }
    if DecodeProofPayload(payload, network) == Some(p) {
      ProofCanonical(payload, network);
      assert ProofPayload(p, network) + [] == ProofPayload(p, network);
    }
  }

  // ----- blocks -------------------------------------------------------------------------------

  function ChallengeBytes(c: BlockChallenge): seq<byte> {
    DigestList([c.networkId, c.previousBlock, c.transactionRoot])
    + (U64List([c.height, c.timestamp]) + TargetBytes(c.target))
  }

  function ReadChallenge(bs: seq<byte>, network: Digest): Parsed<BlockChallenge> {
    var (d, r1) :- ReadDigests(bs, 3);
    var (n, r2) :- ReadU64s(r1, 2);
    var (target, rest) :- ReadTarget(r2);
    if d[0] != network then Fail
    else Done(BlockChallenge(d[0], d[1], d[2], n[0], n[1], target), rest)
  }

  lemma ReadsChallenge(c: BlockChallenge, rest: seq<byte>)
    ensures ReadChallenge(ChallengeBytes(c) + rest, c.networkId) == Done(c, rest)
  {
    var d, n := [c.networkId, c.previousBlock, c.transactionRoot], [c.height, c.timestamp];
    Regroup(DigestList(d), U64List(n) + TargetBytes(c.target), rest);
    Regroup(U64List(n), TargetBytes(c.target), rest);
    DigestsRoundTrip(d, U64List(n) + (TargetBytes(c.target) + rest));
    U64sRoundTrip(n, TargetBytes(c.target) + rest);
    ReadsTarget(c.target, rest);
  }

  lemma ChallengeCanonical(bs: seq<byte>, network: Digest)
    requires ReadChallenge(bs, network).Done?
    ensures var p := ReadChallenge(bs, network);
            p.value.networkId == network && bs == ChallengeBytes(p.value) + p.rest
  {
    var d := ReadDigests(bs, 3);
    DigestsCanonical(bs, 3);
    var n := ReadU64s(d.rest, 2);
    U64sCanonical(d.rest, 2);
    var t := ReadTarget(n.rest);
    TargetCanonical(n.rest);
    assert d.value == [d.value[0], d.value[1], d.value[2]];
    assert n.value == [n.value[0], n.value[1]];
    Regroup(U64List(n.value), TargetBytes(t.value), t.rest);
    Regroup(DigestList(d.value), U64List(n.value) + TargetBytes(t.value), t.rest);
  }

  function CoinbaseBytes(c: Coinbase): seq<byte> { U64Bytes(c.height) + OutputSection(c.outputs) }

  function ReadCoinbase(bs: seq<byte>): Parsed<Coinbase> {
    var (height, r) :- ReadU64(bs);
    var (outputs, rest) :- ReadOutputSection(r, MAX_COINBASE_OUTPUTS);
    Done(Coinbase(height, outputs), rest)
  }

  lemma ReadsCoinbase(c: Coinbase, rest: seq<byte>)
    requires |c.outputs| <= MAX_COINBASE_OUTPUTS
    ensures ReadCoinbase(CoinbaseBytes(c) + rest) == Done(c, rest)
  {
    Regroup(U64Bytes(c.height), OutputSection(c.outputs), rest);
    ReadsU64(c.height, OutputSection(c.outputs) + rest);
    ReadsOutputSection(c.outputs, MAX_COINBASE_OUTPUTS, rest);
  }

  lemma CoinbaseCanonical(bs: seq<byte>)
    requires ReadCoinbase(bs).Done?
    ensures var p := ReadCoinbase(bs);
            |p.value.outputs| <= MAX_COINBASE_OUTPUTS && bs == CoinbaseBytes(p.value) + p.rest
  {
    var height := ReadU64(bs);
    U64Canonical(bs);
    OutputSectionCanonical(height.rest, MAX_COINBASE_OUTPUTS);
    var outputs := ReadOutputSection(height.rest, MAX_COINBASE_OUTPUTS);
    Regroup(U64Bytes(height.value), OutputSection(outputs.value), outputs.rest);
  }

  function EmbeddedTransaction(t: Transaction): seq<byte> { SizedBytes(TransactionPayload(t)) }

  function ReadEmbedded(bs: seq<byte>, network: Digest): Parsed<Transaction> {
    var (payload, rest) :- ReadSized(bs, MAX_TRANSACTION_BYTES);
    var t := DecodeTransactionPayload(payload, network);
    if t.None? then Fail else Done(t.value, rest)
  }

  lemma ReadsEmbedded(t: Transaction, network: Digest, rest: seq<byte>)
    requires PayloadEncodable(t, network)
    ensures ReadEmbedded(EmbeddedTransaction(t) + rest, network) == Done(t, rest)
  {
    ReadsSized(TransactionPayload(t), MAX_TRANSACTION_BYTES, rest);
    TransactionPayloadBijection(TransactionPayload(t), network, t);
  }

  lemma EmbeddedCanonical(bs: seq<byte>, network: Digest)
    requires ReadEmbedded(bs, network).Done?
    ensures var p := ReadEmbedded(bs, network);
            PayloadEncodable(p.value, network) && bs == EmbeddedTransaction(p.value) + p.rest
  {
    SizedCanonical(bs, MAX_TRANSACTION_BYTES);
    TransactionPayloadBijection(ReadSized(bs, MAX_TRANSACTION_BYTES).value, network, ReadEmbedded(bs, network).value);
  }

  predicate AllEncodable(ts: seq<Transaction>, network: Digest) {
    forall i :: 0 <= i < |ts| ==> PayloadEncodable(ts[i], network)
  }

  function TransactionSection(ts: seq<Transaction>): seq<byte> {
    CountBytes(|ts|) + WriteMany(EmbeddedTransaction, ts)
  }

  function ReadTransactionSection(bs: seq<byte>, network: Digest): Parsed<seq<Transaction>> {
    var (n, r) :- ReadCount(bs, MAX_BLOCK_TRANSACTIONS);
    var (ts, rest) :- ReadMany(b => ReadEmbedded(b, network), r, n);
    if Usage(ts).WithinBlockLimits() then Done(ts, rest) else Fail
  }

  lemma ReadsTransactionSection(ts: seq<Transaction>, network: Digest, rest: seq<byte>)
    requires |ts| <= MAX_BLOCK_TRANSACTIONS && AllEncodable(ts, network) && Usage(ts).WithinBlockLimits()
    ensures ReadTransactionSection(TransactionSection(ts) + rest, network) == Done(ts, rest)
  {
    var read := b => ReadEmbedded(b, network);
    forall i | 0 <= i < |ts| ensures Reads(EmbeddedTransaction, read, ts[i]) {
      forall r ensures read(EmbeddedTransaction(ts[i]) + r) == Done(ts[i], r) {
        ReadsEmbedded(ts[i], network, r);
      }
    }
    var body := WriteMany(EmbeddedTransaction, ts);
    Regroup(CountBytes(|ts|), body, rest);
    ReadsCount(|ts|, MAX_BLOCK_TRANSACTIONS, body + rest);
    ReadsMany(EmbeddedTransaction, read, ts, rest);
  }

  lemma TransactionSectionCanonical(bs: seq<byte>, network: Digest)
    requires ReadTransactionSection(bs, network).Done?
    ensures var p := ReadTransactionSection(bs, network);
            && |p.value| <= MAX_BLOCK_TRANSACTIONS && AllEncodable(p.value, network)
            && Usage(p.value).WithinBlockLimits()
            && bs == TransactionSection(p.value) + p.rest
  {
    var n := ReadCount(bs, MAX_BLOCK_TRANSACTIONS);
    CountCanonical(bs, MAX_BLOCK_TRANSACTIONS);
    var read := b => ReadEmbedded(b, network);
    var encodable := (t: Transaction) => PayloadEncodable(t, network);
    forall b | read(b).Done?
      ensures b == EmbeddedTransaction(read(b).value) + read(b).rest && encodable(read(b).value)
    {
      EmbeddedCanonical(b, network);
    }
    ManyCanonical(EmbeddedTransaction, read, n.rest, n.value);
    ManyHold(encodable, read, n.rest, n.value);
    var ts := ReadMany(read, n.rest, n.value);
    Regroup(CountBytes(n.value), WriteMany(EmbeddedTransaction, ts.value), ts.rest);
  }

  /** Shape validation of a block, including the aggregate limits. */
  predicate BlockShape(b: Block) {
    && |b.coinbase.outputs| <= MAX_COINBASE_OUTPUTS
    && |b.transactions| <= MAX_BLOCK_TRANSACTIONS
    && AllEncodable(b.transactions, b.challenge.networkId)
    && Usage(b.transactions).WithinBlockLimits()
  }

  function BlockPayload(b: Block): seq<byte> {
    U32Bytes(b.version) + (ChallengeBytes(b.challenge)
    + (SizedBytes(ProofPayload(b.proof, b.challenge.networkId))
       + (CoinbaseBytes(b.coinbase) + TransactionSection(b.transactions))))
  }

  predicate BlockEncodable(b: Block) {
    BlockShape(b) && |BlockPayload(b)| + WIRE_HEADER_BYTES <= MAX_BLOCK_BYTES
  }

  function ReadEmbeddedProof(bs: seq<byte>, network: Digest): Parsed<BlockProof> {
    var (payload, rest) :- ReadSized(bs, MAX_PROOF_BYTES);
    var p := DecodeProofPayload(payload, network);
    if p.None? then Fail else Done(p.value, rest)
  }

  lemma ReadsEmbeddedProof(p: BlockProof, network: Digest, rest: seq<byte>)
    ensures ReadEmbeddedProof(SizedBytes(ProofPayload(p, network)) + rest, network) == Done(p, rest)
  {
    ProofPayloadLength(p, network);
    ReadsSized(ProofPayload(p, network), MAX_PROOF_BYTES, rest);
    ProofPayloadBijection(ProofPayload(p, network), network, p);
  }

  lemma EmbeddedProofCanonical(bs: seq<byte>, network: Digest)
    requires ReadEmbeddedProof(bs, network).Done?
    ensures var p := ReadEmbeddedProof(bs, network); bs == SizedBytes(ProofPayload(p.value, network)) + p.rest
  {
    SizedCanonical(bs, MAX_PROOF_BYTES);
    ProofPayloadBijection(ReadSized(bs, MAX_PROOF_BYTES).value, network, ReadEmbeddedProof(bs, network).value);
  }

  function ReadBlock(bs: seq<byte>, network: Digest): Parsed<Block> {
    var (version, r1) :- ReadU32(bs);
    var (challenge, r2) :- ReadChallenge(r1, network);
    var (proof, r3) :- ReadEmbeddedProof(r2, challenge.networkId);
    var (coinbase, r4) :- ReadCoinbase(r3);
    var (transactions, rest) :- ReadTransactionSection(r4, network);
    Done(Block(version, challenge, proof, coinbase, transactions), rest)
  }

  lemma ReadsBlock(b: Block, rest: seq<byte>)
    requires BlockShape(b)
    ensures ReadBlock(BlockPayload(b) + rest, b.challenge.networkId) == Done(b, rest)
  {
    var network := b.challenge.networkId;
    var v, c := U32Bytes(b.version), ChallengeBytes(b.challenge);
    var p := SizedBytes(ProofPayload(b.proof, network));
    var k, t := CoinbaseBytes(b.coinbase), TransactionSection(b.transactions);
    Regroup(v, c + (p + (k + t)), rest);
    Regroup(c, p + (k + t), rest);
    Regroup(p, k + t, rest);
    Regroup(k, t, rest);
    ReadsU32(b.version, c + (p + (k + (t + rest))));
    ReadsChallenge(b.challenge, p + (k + (t + rest)));
    ReadsEmbeddedProof(b.proof, network, k + (t + rest));
    ReadsCoinbase(b.coinbase, t + rest);
    ReadsTransactionSection(b.transactions, network, rest);
  }

  lemma BlockCanonical(bs: seq<byte>, network: Digest)
    requires ReadBlock(bs, network).Done?
    ensures var p := ReadBlock(bs, network);
            && p.value.challenge.networkId == network && BlockShape(p.value)
            && bs == BlockPayload(p.value) + p.rest
  {
    var version := ReadU32(bs);
    U32Canonical(bs);
    var challenge := ReadChallenge(version.rest, network);
    ChallengeCanonical(version.rest, network);
    var proof := ReadEmbeddedProof(challenge.rest, network);
    EmbeddedProofCanonical(challenge.rest, network);
    var coinbase := ReadCoinbase(proof.rest);
    CoinbaseCanonical(proof.rest);
    var ts := ReadTransactionSection(coinbase.rest, network);
    TransactionSectionCanonical(coinbase.rest, network);
    var v, c := U32Bytes(version.value), ChallengeBytes(challenge.value);
    var p := SizedBytes(ProofPayload(proof.value, network));
    var k, t := CoinbaseBytes(coinbase.value), TransactionSection(ts.value);
    Regroup(k, t, ts.rest);
    Regroup(p, k + t, ts.rest);
    Regroup(c, p + (k + t), ts.rest);
    Regroup(v, c + (p + (k + t)), ts.rest);
  }

  // ----- frames -------------------------------------------------------------------------------

  function FrameHeader(magic: NetworkMagic, kind: byte, network: Digest): (h: seq<byte>)
    ensures |h| == 12
  {
    FRAME_MAGIC + magic(network) + WIRE_VERSION_BYTES + [kind, 0]
  }

  function Frame(magic: NetworkMagic, kind: byte, network: Digest, payload: seq<byte>): seq<byte> {
    FrameHeader(magic, kind, network) + SizedBytes(payload)
  }

  /** Header checks in the decoder's order; the length field must match what follows exactly. */
  function DecodeFrame(magic: NetworkMagic, bytes: seq<byte>, network: Digest, kind: byte, maximum: nat)
    : Option<seq<byte>>
    requires maximum >= WIRE_HEADER_BYTES
  {
    if |bytes| < WIRE_HEADER_BYTES || |bytes| > maximum then None
    else if bytes[..4] != FRAME_MAGIC || bytes[4..8] != magic(network) then None
    else if bytes[8..10] != WIRE_VERSION_BYTES || bytes[10] != kind || bytes[11] != 0 then None
    else
      var length := U32Value(bytes[12..16]);
      if length + WIRE_HEADER_BYTES > maximum || |bytes| - WIRE_HEADER_BYTES != length then None
      else Some(bytes[16..])
  }

  lemma FrameBijection(magic: NetworkMagic, bytes: seq<byte>, network: Digest, kind: byte, maximum: nat,
                       payload: seq<byte>)
    requires WIRE_HEADER_BYTES <= maximum <= U32_MAX
    ensures DecodeFrame(magic, bytes, network, kind, maximum) == Some(payload)
       <==> |payload| + WIRE_HEADER_BYTES <= maximum && bytes == Frame(magic, kind, network, payload)
  {
    var header := FrameHeader(magic, kind, network);
    if |payload| + WIRE_HEADER_BYTES <= maximum && bytes == Frame(magic, kind, network, payload) {
      FrameParts(header, payload);
      U32Inverse(|payload|);
      assert header[..4] == FRAME_MAGIC && header[4..8] == magic(network) && header[8..10] == WIRE_VERSION_BYTES;
      assert bytes[..4] == header[..4] && bytes[4..8] == header[4..8] && bytes[8..10] == header[8..10];
    }
    if DecodeFrame(magic, bytes, network, kind, maximum) == Some(payload) {
      U32BytesOfValue(bytes[12..16]);
      assert bytes[10..12] == [kind, 0];
      assert bytes[..12] == bytes[..4] + bytes[4..8] + bytes[8..10] + bytes[10..12];
      assert bytes == bytes[..12] + (bytes[12..16] + bytes[16..]);
    }
  }

  lemma FrameParts(header: seq<byte>, payload: seq<byte>)
    requires |header| == 12
    ensures var f := header + SizedBytes(payload);
            f[..12] == header && f[12..16] == CountBytes(|payload|) && f[16..] == payload
  {
    var f := header + SizedBytes(payload);
    assert f == header + CountBytes(|payload|) + payload;
  }

  // ----- the codec ----------------------------------------------------------------------------

  function EncodeTransaction(magic: NetworkMagic, t: Transaction): Option<seq<byte>> {
    if PayloadEncodable(t, t.networkId)
    then Some(Frame(magic, TRANSACTION_KIND, t.networkId, TransactionPayload(t)))
    else None
  }

  function DecodeTransaction(magic: NetworkMagic, bytes: seq<byte>, network: Digest): Option<Transaction> {
    match DecodeFrame(magic, bytes, network, TRANSACTION_KIND, MAX_TRANSACTION_BYTES)
    case None => None
    case Some(payload) => DecodeTransactionPayload(payload, network)
  }

  function EncodeProof(magic: NetworkMagic, p: BlockProof, network: Digest): seq<byte> {
    Frame(magic, PROOF_KIND, network, ProofPayload(p, network))
  }

  function DecodeProof(magic: NetworkMagic, bytes: seq<byte>, network: Digest): Option<BlockProof> {
    match DecodeFrame(magic, bytes, network, PROOF_KIND, MAX_PROOF_BYTES)
    case None => None
    case Some(payload) => DecodeProofPayload(payload, network)
  }

  function EncodeBlock(magic: NetworkMagic, b: Block): Option<seq<byte>> {
    if BlockEncodable(b)
    then Some(Frame(magic, BLOCK_KIND, b.challenge.networkId, BlockPayload(b)))
    else None
  }

  function DecodeBlock(magic: NetworkMagic, bytes: seq<byte>, network: Digest): Option<Block> {
    match DecodeFrame(magic, bytes, network, BLOCK_KIND, MAX_BLOCK_BYTES)
    case None => None
    case Some(payload) =>
      var p := ReadBlock(payload, network);
      if p.Done? && p.rest == [] then Some(p.value) else None
  }

  /** Decoding accepts a byte string as t exactly when encoding t gives that byte string. */
  lemma TransactionBijection(magic: NetworkMagic, bytes: seq<byte>, network: Digest, t: Transaction)
    ensures DecodeTransaction(magic, bytes, network) == Some(t)
       <==> t.networkId == network && EncodeTransaction(magic, t) == Some(bytes)
  {
    var payload := TransactionPayload(t);
    FrameBijection(magic, bytes, network, TRANSACTION_KIND, MAX_TRANSACTION_BYTES, payload);
    TransactionPayloadBijection(payload, network, t);
    var frame := DecodeFrame(magic, bytes, network, TRANSACTION_KIND, MAX_TRANSACTION_BYTES);
    if frame.Some? {
      TransactionPayloadBijection(frame.value, network, t);
    }
  }

  lemma ProofBijection(magic: NetworkMagic, bytes: seq<byte>, network: Digest, p: BlockProof)
    ensures DecodeProof(magic, bytes, network) == Some(p) <==> EncodeProof(magic, p, network) == bytes
  {
    var payload := ProofPayload(p, network);
    ProofPayloadLength(p, network);
    FrameBijection(magic, bytes, network, PROOF_KIND, MAX_PROOF_BYTES, payload);
    ProofPayloadBijection(payload, network, p);
    var frame := DecodeFrame(magic, bytes, network, PROOF_KIND, MAX_PROOF_BYTES);
    if frame.Some? {
      ProofPayloadBijection(frame.value, network, p);
    }
  }

  lemma BlockBijection(magic: NetworkMagic, bytes: seq<byte>, network: Digest, b: Block)
    ensures DecodeBlock(magic, bytes, network) == Some(b)
       <==> b.challenge.networkId == network && EncodeBlock(magic, b) == Some(bytes)
  {
    var payload := BlockPayload(b);
    FrameBijection(magic, bytes, network, BLOCK_KIND, MAX_BLOCK_BYTES, payload);
    if b.challenge.networkId == network && EncodeBlock(magic, b) == Some(bytes) {
      ReadsBlock(b, []);
      assert payload + [] == payload;
    }
    if DecodeBlock(magic, bytes, network) == Some(b) {
      var framed := DecodeFrame(magic, bytes, network, BLOCK_KIND, MAX_BLOCK_BYTES).value;
      FrameBijection(magic, bytes, network, BLOCK_KIND, MAX_BLOCK_BYTES, framed);
      BlockCanonical(framed, network);
      assert payload + [] == payload;
    }
  }
}
