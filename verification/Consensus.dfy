/** The hash and signature primitives of consensus, and its error codes. */
module Consensus {
  import opened Prelude
  import opened Ledger
  import M = Marketplace
  import W = WireObjects
  import E = Economics
  import D = Difficulty

  /** Hashes and verifiers as arbitrary functions; nothing is assumed about them here. */
  datatype Crypto = Crypto(
    channel: M.ChannelCrypto,
    signingDigest: Transaction -> Digest,
    txid: Transaction -> Digest,
    coinbaseCommitment: (Coinbase, Digest) -> Digest,
    blockId: (u32, BlockChallenge, BlockProof) -> Digest,
    coinbaseOutpoint: (Digest, Digest) -> Digest,
    merkleEmpty: Digest,
    merkleLeaf: Digest -> Digest,
    merkleNode: (Digest, Digest) -> Digest,
    powAccepts: (BlockChallenge, BlockProof) -> bool,
    recordChecksum: seq<byte> -> Digest,
    magic: W.NetworkMagic)

  datatype FixedRewardDestinations = FixedRewardDestinations(steward: Digest, community: Digest)

  datatype NetworkParams = NetworkParams(
    networkId: Digest,
    genesisHash: Digest,
    genesisTimestamp: u64,
    powLimit: u256,
    policy: E.MonetaryPolicy,
    rewards: FixedRewardDestinations,
    maxFutureOffset: u64)

  const MAX_FUTURE_OFFSET_SECS: nat := 86400

  /** Parameter validation, without the proof-of-work profile and the protocol version constant. */
  predicate ValidParams(c: Crypto, p: NetworkParams) {
    && p.networkId != ZERO_DIGEST
    && p.genesisHash != ZERO_DIGEST
    && p.powLimit != 0
    && 0 < p.maxFutureOffset <= MAX_FUTURE_OFFSET_SECS
    && p.genesisTimestamp + p.maxFutureOffset <= U64_MAX
    && E.Validate(p.policy).Ok?
    && c.channel.validKey(p.rewards.steward)
    && c.channel.validKey(p.rewards.community)
  }

  datatype ChainError =
    | InvalidNetworkParams
    | InvalidProof
    | EconomicsFailure(e: E.EconomicsError)
    | ChannelFailure(ch: M.ChannelError)
    | DifficultyFailure(d: D.DifficultyError)
    | UnexpectedHeight(expected: u64, actual: u64)
    | WrongNetwork
    | UnsupportedBlockVersion
    | UnsupportedTransactionVersion
    | PreviousBlock
    | StaleValidatedBlock
    | UnexpectedTarget
    | TimestampNotAfterMedian
    | TimestampTooFarInFuture
    | InvalidValidationTime
    | HeightMismatch
    | MerkleRootMismatch
    | NoInputs
    | NoOutputs
    | ZeroValueOutput
    | MissingInput
    | DuplicateInput
    | ImmatureInput(height: u64)
    | WrongOwner
    | WrongWitness
    | MalformedSignature
    | InvalidSignature
    | CreatesValue
    | AmountOverflow
    | HeightExhausted
    | CoinbaseLayout
    | TxidCollision
    | DuplicateChannel
    | ChannelDeposit
    | ChannelCloseShape
    | BlockTransactionLimit
    | TransactionInputLimit
    | TransactionOutputLimit
    | BlockAggregateLimit
    | BlockSignatureLimit
    | CoinbaseOutputLimit
    | SignatureLength
    | BlockEncoding

  function LiftChannel<T>(r: Result<T, M.ChannelError>): Result<T, ChainError> {
    match r
    case Ok(v) => Ok(v)
    case Err(e) => Err(ChannelFailure(e))
  }
}
