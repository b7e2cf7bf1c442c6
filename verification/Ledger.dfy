/** Transactions, blocks and the consensus limits on them. */
module Ledger {
  import opened Prelude
  import Marketplace

  const MAX_BLOCK_TRANSACTIONS: nat := 1024
  const MAX_TRANSACTION_INPUTS: nat := 128
  const MAX_TRANSACTION_OUTPUTS: nat := 128
  const MAX_BLOCK_AGGREGATE_INPUTS: nat := 4096
  const MAX_BLOCK_AGGREGATE_OUTPUTS: nat := 4096
  const MAX_BLOCK_SIGNATURE_CHECKS: nat := 2048
  const MAX_COINBASE_OUTPUTS: nat := 3
  const CONSENSUS_SIGNATURE_BYTES: nat := 64
  const COINBASE_MATURITY: nat := 100
  const BLOCK_VERSION: u32 := 1
  const TRANSACTION_VERSION: u32 := 1

  datatype OutPoint = OutPoint(txid: Digest, index: u32)

  datatype OutputLock = KeyLock(owner: Digest) | ChannelLock(channelId: Digest)

  datatype TxOutput = TxOutput(value: u64, lock: OutputLock, spendableHeight: u64)

  datatype InputWitness =
    | KeyWitness(publicKey: Digest, signature: seq<byte>)
    | SettlementWitness(terms: Marketplace.ChannelTerms, settlement: Marketplace.Settlement)
    | RefundWitness(terms: Marketplace.ChannelTerms)

  datatype TxInput = TxInput(previous: OutPoint, evidence: InputWitness)

  datatype Transaction = Transaction(
    networkId: Digest, version: u32, inputs: seq<TxInput>, outputs: seq<TxOutput>)

  datatype Coinbase = Coinbase(height: u64, outputs: seq<TxOutput>)

  /** The 32-byte target is kept as the number it encodes. */
  datatype BlockChallenge = BlockChallenge(
    networkId: Digest,
    previousBlock: Digest,
    transactionRoot: Digest,
    height: u64,
    timestamp: u64,
    target: u256)

  datatype BlockProof =
    | V1Legacy(algorithmVersion: u32, modelVersion: u32, nonce: u64,
               modelRoot: Digest, outputDigest: Digest, workDigest: Digest)
    | V2Reference(algorithmVersion: u32, proofVersion: u32, nonce: u64, modelManifestDigest: Digest,
                  challengeDigest: Digest, finalActivationDigest: Digest, workDigest: Digest)

  datatype Block = Block(
    version: u32,
    challenge: BlockChallenge,
    proof: BlockProof,
    coinbase: Coinbase,
    transactions: seq<Transaction>)

  /** Every signature of a witness has the canonical length. */
  predicate CanonicalSignatures(w: InputWitness) {
    match w
    case KeyWitness(_, signature) => |signature| == CONSENSUS_SIGNATURE_BYTES
    case SettlementWitness(_, s) =>
      && |s.state.customerSignature| == CONSENSUS_SIGNATURE_BYTES
      && |s.providerSignature| == CONSENSUS_SIGNATURE_BYTES
    case RefundWitness(_) => true
  }

  /** Signature verifications an input costs. */
  function SignatureChecks(w: InputWitness): nat {
    match w
    case KeyWitness(_, _) => 1
    case SettlementWitness(_, _) => 2
    case RefundWitness(_) => 0
  }

  function InputChecks(inputs: seq<TxInput>): nat {
    if inputs == [] then 0 else InputChecks(inputs[..|inputs| - 1]) + SignatureChecks(inputs[|inputs| - 1].evidence)
  }

  datatype Resources = Resources(inputs: nat, outputs: nat, checks: nat)
  {
    function Add(t: Transaction): Resources {
      Resources(inputs + |t.inputs|, outputs + |t.outputs|, checks + InputChecks(t.inputs))
    }

    predicate WithinBlockLimits() {
      && inputs <= MAX_BLOCK_AGGREGATE_INPUTS
      && outputs <= MAX_BLOCK_AGGREGATE_OUTPUTS
      && checks <= MAX_BLOCK_SIGNATURE_CHECKS
    }
  }

  /** Total resources of a transaction list. */
  function Usage(transactions: seq<Transaction>): Resources {
    if transactions == [] then Resources(0, 0, 0)
    else Usage(transactions[..|transactions| - 1]).Add(transactions[|transactions| - 1])
  }
}
