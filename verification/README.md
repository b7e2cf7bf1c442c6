# CMFD: a model of its consensus, node, codec and protocols

This project models the core of a small UTXO blockchain and proves what it is meant to guarantee. The
model covers:

- the matrix-product sumcheck over the Goldilocks field (`Goldilocks`, `PrimeField`, `Tables`,
  `Multilinear`, `Sumcheck`, `SumcheckTranscript`, `SumcheckAcceptance`, `SumcheckTheorems`,
  `SumcheckSoundness`, `SumcheckProtocol`);
- the UTXO set, the copy-on-write overlay, block rules and the linear chain state (`Ledger`, `Consensus`,
  `Utxo`, `Overlay`, `Merkle`, `BlockRules`, `Chain`, `Identity`, `Provenance`), with emission and difficulty
  (`Economics`, `Difficulty`), and the exact conditions of spends, closes, rewards and whole blocks
  (`Spending`, `Rewards`, `Acceptance`, `Histories`);
- the fork-choosing node with its index, append-only log, mempool, templates and block pulls (`Forks`,
  `ForkNode`, `ForkOrder`, `RecordLog`, `Order`, `Mempool`, `PoolRules`, `Template`, `Mining`, `Node`, `Sync`);
- the canonical wire codec (`Bytes`, `WireFormat`, `WireObjects`, `WireLayout`, `Wire`);
- payment channels (`Marketplace`), the exact integer relation of the version-two proof of work
  (`ForgeMatrix`, `ForgeProofs`, `ForgeRelation`) and wallet coin selection (`CoinSelection`).

Code that updates state is modelled by classes and methods with loops (`UtxoOverlay`, `ChainState`, `Node`,
`Writer`, `Reader`, `HashTranscript`, and the loops of the prover, verifier, Merkle tree, mempool, log
replay, pull and coin selection). Each method is proved against a function of its inputs or of the old
state, and the theorems are about those functions. Pure code is modelled by functions and lemmas.

## How the outside is modelled

- BLAKE3 and the challenge functions are arbitrary functions of their structured inputs, one per domain.
  Where a result needs collision freedom it is assumed only of the finitely many hashes evaluated for the
  objects at hand (`Merkle.CollisionFree`), never of a whole function.
- Schnorr verification, key validity and the proof-of-work verdict of a block are arbitrary predicates. Results
  that build signed channel states assume that the holder of a key can sign (`Marketplace.CanSign`).
- Clocks are parameters. A log write either succeeds or leaves any prefix of its record in the file.
- Integers are unbounded, with every width, checked operation and truncation of the program written out.

## Where the program and its description part

- `MonetaryPolicy::validate` looks at the last pre-tail height only. With percentages summing to 100 the
  miner share can round to zero at another height (`Economics.MinerRewardCanVanish`), and then no block is
  valid there (`Template.UnmintableHeightStalls`).
- `validate_coinbase` compares the claim by position. A policy with no steward share and some community
  share passes validation, but no pre-tail block can be valid under it
  (`Template.CommunityOnlyPolicyStalls`). `Template.MintableHeights` gives the exact condition for both.
- `next_state` verifies its predecessor as a first state, so it can only build the second state of a
  channel (`Marketplace.NextStateStalls`). `Marketplace.NextStateBuilds` and
  `Marketplace.NextStateCondition` give the exact condition.
- The channel description promises at most one chunk beyond the provider's latest receipt. The program bounds
  a step by the previous authorization instead, so undelivered chunks add up (`Marketplace.UndeliveredRun`,
  `Marketplace.ExposureBoundFails`). `Marketplace.OneChunkAhead` and `Marketplace.ExposureBound` give the exact
  conditions, for one step and for a whole channel.
- The sumcheck works modulo the field. A C that is congruent to the product without being it is accepted with
  certainty (`SumcheckTheorems.CongruentProductAccepted`); `SumcheckTheorems.FieldProductIsInteger` gives the
  exact condition.
- `check_reduction` accepts the value minus the modulus, which `reduction_witness` refuses
  (`ForgeMatrix.ReductionExact`, `ForgeMatrix.ReductionWitnessFor`). No accumulator reaches it.

## Model

| member | source | states |
|---|---|---|
| `SumcheckTheorems.Completeness` | crates/cmfd-consensus/src/sumcheck.rs:193-343 | For every power-of-two shape, every i64 statement whose C is the product over the field (so every exact integer product), every binding and every challenge function, the prover succeeds and the verifier accepts its proof |
| `SumcheckTheorems.ProductImage` | crates/cmfd-consensus/src/sumcheck.rs:82-93 | An exact integer product is a product over the field |
| `SumcheckTheorems.FieldProductIsInteger` | crates/cmfd-consensus/src/sumcheck.rs:82-93 | C is the integer product exactly when it is the product over the field and no entry is as far as the modulus from the integer entry |
| `SumcheckTheorems.CongruentProductAccepted` | crates/cmfd-consensus/src/sumcheck.rs:265-343 | A statement that is congruent but not equal to its product, proved and accepted under every challenge function |
| `SumcheckTheorems.Soundness` | crates/cmfd-consensus/src/sumcheck.rs:311-341 | If the verifier accepts although C's opened value is not the inner product of the two partial tables, some round sent a quadratic other than the honest one that agrees with it at that round's challenge |
| `SumcheckSoundness.AtMostTwoMeetings` | crates/cmfd-consensus/src/sumcheck.rs:455-464 | Two different round messages agree at no more than two of the field's elements |
| `SumcheckSoundness.SoundnessBound` | crates/cmfd-consensus/src/sumcheck.rs:311-341 | The lucky challenge of the unsound round lies in a set of at most two elements fixed by the message and the challenges before it |
| `SumcheckSoundness.WrongProductNeedsLuck` | crates/cmfd-consensus/src/sumcheck.rs:265-343 | End to end: if C is not A times B over the field and the verifier still accepts, either one variable of the drawn row and column point took the one value, and no other would do, that merges the two tables, or one round challenge fell into a set of at most two |
| `SumcheckSoundness.OneLuckyValue` | crates/cmfd-consensus/src/sumcheck.rs:424-439 | The value of a variable that makes two different tables fold alike is unique, given the earlier variables |
| `SumcheckSoundness.TablesMeet` | crates/cmfd-consensus/src/sumcheck.rs:424-431 | Different tables with one multilinear value at a point were merged by one of the point's variables |
| `SumcheckTheorems.ProductOpening` | crates/cmfd-consensus/src/sumcheck.rs:214-238 | The sum the rounds are about equals the multilinear extension of the true product at the column point followed by the row point (exchange of the two summations) |
| `SumcheckTheorems.HonestClaim` | crates/cmfd-consensus/src/sumcheck.rs:214-238 | For a product over the field the value opened for C is the sum the rounds start from |
| `SumcheckTheorems.AOpening` | crates/cmfd-consensus/src/sumcheck.rs:334-341 | A's opening at the round challenges and the row point equals its row-weighted table folded by the rounds |
| `SumcheckTheorems.BOpening` | crates/cmfd-consensus/src/sumcheck.rs:334-341 | B's opening at the column point and the round challenges equals its column-weighted table folded by the rounds |
| `Sumcheck.RoundSplitsDot` | crates/cmfd-consensus/src/sumcheck.rs:441-453 | A round message's values at zero and one add up to the current sum of products |
| `Sumcheck.RoundFoldsDot` | crates/cmfd-consensus/src/sumcheck.rs:441-464 | A round message evaluated at the challenge is the sum of products of the folded tables |
| `Sumcheck.RoundsComplete` | crates/cmfd-consensus/src/sumcheck.rs:240-262 | Honest rounds over any two tables of size two to the n are accepted and end at the product of the folded tables |
| `Sumcheck.RoundsSound` | crates/cmfd-consensus/src/sumcheck.rs:311-341 | Accepted rounds that start from a false sum and end at a true product contain a round that was lucky |
| `Multilinear.MleIsWeightedSum` | crates/cmfd-consensus/src/sumcheck.rs:410-431 | Folding a table to a point equals its sum weighted by the equality weights |
| `Multilinear.Exchange` | crates/cmfd-consensus/src/sumcheck.rs:226-238 | Summing rows then columns equals summing columns then rows |
| `Goldilocks.ProductOfLines` | crates/cmfd-consensus/src/sumcheck.rs:433-464 | Interpolation through three samples recovers the product of two folded lines at every point |
| `Goldilocks.MulMod` | crates/cmfd-consensus/src/sumcheck.rs:107-109 | Field multiplication is the residue of integer multiplication |
| `PrimeField.ModulusIsPrime` | crates/cmfd-consensus/src/sumcheck.rs:14 | The modulus has no proper factorization (a root of unity of order 2^32 forces every divisor above 2^32) |
| `PrimeField.NullProduct` | crates/cmfd-consensus/src/sumcheck.rs:69-113 | A product is zero modulo the modulus only if a factor is |
| `PrimeField.QuadraticsAgree` | crates/cmfd-consensus/src/sumcheck.rs:455-464 | Quadratics that agree at three distinct points have the same three sample values |
| `SumcheckProtocol.ProveMatrixProduct` | crates/cmfd-consensus/src/sumcheck.rs:193-263 | The prover's loops compute the specified proof, and that proof of a product, exact or over the field, is accepted; the proof's checks and queries are those of `SumcheckAcceptance.VerifyExact` |
| `SumcheckProtocol.VerifyMatrixProduct` | crates/cmfd-consensus/src/sumcheck.rs:265-343 | The verifier's loops return exactly the specified verdict, with the same error at the same check; `SumcheckAcceptance.VerifyExact` gives its exact condition, every challenge answering a query that holds its message |
| `SumcheckProtocol.RunRounds` | crates/cmfd-consensus/src/sumcheck.rs:240-250 | The round loop over in-place tables and transcript produces the specified messages, challenges and final tables; `SumcheckAcceptance.RoundsExact` fixes what each challenge answers |
| `SumcheckProtocol.EqualityWeights` | crates/cmfd-consensus/src/sumcheck.rs:410-422 | The doubling loop computes the equality weights of a point |
| `SumcheckProtocol.EvaluateTable` | crates/cmfd-consensus/src/sumcheck.rs:424-431 | The folding loop evaluates the multilinear extension |
| `SumcheckProtocol.HashTranscript.Challenge` | crates/cmfd-consensus/src/sumcheck.rs:146-167 | A challenge is the oracle's answer to everything absorbed so far and is itself absorbed |
| `SumcheckTranscript.OpenAsks` | crates/cmfd-consensus/src/sumcheck.rs:193-220 | Every coordinate of the row and column points is the oracle's answer to a listed query: version, binding, shape, the three commitments, and all coordinates before it |
| `SumcheckTranscript.RoundAnswersQuery` | crates/cmfd-consensus/src/sumcheck.rs:311-323 | Every round challenge of the verifier is the oracle's answer to a query that lists the binding, shape, commitments, point, opened value, all earlier messages and challenges, and this round's own message |
| `SumcheckTranscript.QueryCommits` | crates/cmfd-consensus/src/sumcheck.rs:146-167 | Equal round queries force equal bindings, shapes, commitments, points, opened values, round numbers, messages up to and including the round, and earlier challenges |
| `SumcheckTranscript.PointQueryCommits` | crates/cmfd-consensus/src/sumcheck.rs:126-167 | Equal point queries force equal bindings, shapes and commitments |
| `SumcheckAcceptance.VerifyExact` | crates/cmfd-consensus/src/sumcheck.rs:265-343 | A proof is accepted exactly when the shape is valid and some challenges, each the oracle's answer to its listed query, make every check hold: version, round count, commitments, opened value, field ranges, the sum of each round, the final product and both final openings |
| `SumcheckAcceptance.RoundsExact` | crates/cmfd-consensus/src/sumcheck.rs:311-331 | The round loop accepts with given challenges exactly when every message is in the field and continues the claim and every challenge answers its query; it returns the last claim |
| `Economics.FloorSumClosedForm` | crates/cmfd-consensus/src/economics.rs:184-190 | For all positive S and N, S*N + S - N + gcd(S, N) is twice the sum of floor(S*k/N) for k from 1 to N |
| `Economics.ClosedFormEmission` | crates/cmfd-consensus/src/economics.rs:103-119 | The closed form equals the sum of the subsidies of every pre-tail height |
| `Economics.LinearSupply` | crates/cmfd-consensus/src/economics.rs:184-190 | The u128 computation neither overflows nor underflows and returns the floor sum |
| `Economics.GreatestCommonDivisor` | crates/cmfd-consensus/src/economics.rs:192-199 | The loop returns the greatest common divisor |
| `Economics.ScheduledSupplyBeforeTail` | crates/cmfd-consensus/src/economics.rs:175-182 | Succeeds exactly on valid policies, with the sum of all pre-tail subsidies |
| `Economics.Allocate` | crates/cmfd-consensus/src/economics.rs:121-145 | The three shares add up to the subsidy, fees are burned, and the tail pays the miner alone |
| `Economics.PreTailRewards` | crates/cmfd-consensus/src/economics.rs:80-94 | Checking the last pre-tail height protects the steward and community shares at every pre-tail height; the miner share is positive exactly when the percentages leave something over or the steward share is rounded down |
| `Economics.MinerRewardCanVanish` | crates/cmfd-consensus/src/economics.rs:80-94 | A policy the validation accepts whose first block would pay the miner nothing |
| `Economics.SharesExact` | crates/cmfd-consensus/src/economics.rs:103-145 | The subsidy is the initial one scaled by the share of the emission window left, rounded down, or the tail subsidy; before the tail each fund gets its own percentage of it, rounded down, and the miner the rest |
| `Rewards.CoinbaseExact` | crates/cmfd-consensus/src/chain.rs:1173-1207 | A coinbase passes exactly when it pays, position by position, the miner's share to a valid key a hundred blocks late, then the steward's share to the steward's key and the community's to the community's at once |
| `Rewards.BlockRewards` | crates/cmfd-consensus/src/chain.rs:318-345 | After an accepted block the set holds, under its coinbase, the scheduled subsidy of that height split by the policy's percentages among steward, community and miner key |
| `Difficulty.BlockWork` | crates/cmfd-consensus/src/difficulty.rs:27-33 | Work is the integer quotient of 2^256 by target plus one, between 1 and 2^255 |
| `Difficulty.AddChainWork` | crates/cmfd-consensus/src/difficulty.rs:35-41 | Adding work strictly increases it and stays below 2^512 |
| `Difficulty.NextWorkTarget` | crates/cmfd-consensus/src/difficulty.rs:47-95 | The window loops return the specified target or the specified error, in the program's order of checks; `Difficulty.RetargetArithmetic` and `Difficulty.RetargetErrors` say which they are |
| `Difficulty.AdjustedBounds` | crates/cmfd-consensus/src/difficulty.rs:81-87 | Before the cap a retarget is within a factor of three of the window average, never easier after a fast window and never harder after a slow one |
| `Difficulty.RetargetSucceeds` | crates/cmfd-consensus/src/difficulty.rs:47-95 | An ordered history with nonzero targets always yields a target in 1..limit |
| `Difficulty.MedianRank` | crates/cmfd-consensus/src/chain.rs:1089-1094 | The median is at least m exactly when at most half, rounded down, of the last eleven timestamps, or of all there are, lie below m |
| `Difficulty.MedianNeverFalls` | crates/cmfd-consensus/src/chain.rs:1089-1094 | A timestamp beyond the median never lowers the next median |
| `Difficulty.RetargetArithmetic` | crates/cmfd-consensus/src/difficulty.rs:47-95 | The target is the average of exactly the last min(180, n) targets times the held span over the scheduled one, both divisions rounded down as inequalities, then at most the limit and at least one; the span is last minus first timestamp held to a third and three times the schedule |
| `Difficulty.RetargetErrors` | crates/cmfd-consensus/src/difficulty.rs:47-70 | It succeeds exactly when the limit is positive and the last min(180, n) headers are ordered with nonzero targets; disorder is reported before zero targets |
| `Difficulty.RetargetMonotone` | crates/cmfd-consensus/src/difficulty.rs:71-87 | With the same targets a slower window never gets a harder target |
| `Marketplace.RunConservesDeposit` | crates/cmfd-marketplace/src/lib.rs:188-270 | Along every chain of accepted states payment, refund and close fee add up to the deposit, payment never falls, refund never rises, and state n authorizes at most n+1 chunks |
| `Marketplace.RunStateSettles` | crates/cmfd-marketplace/src/lib.rs:345-396 | Every state of such a chain passes settlement once the provider has signed it |
| `Marketplace.SettlementSplitsDeposit` | crates/cmfd-marketplace/src/lib.rs:345-396 | Every accepted settlement splits the deposit exactly, whichever branch accepted it |
| `Marketplace.RoundedTokenCharge` | crates/cmfd-marketplace/src/lib.rs:398-404 | The charge is the price rounded up to whole units, and fails exactly when that does not fit |
| `Marketplace.StateFor` | crates/cmfd-marketplace/src/lib.rs:188-213 | A built state splits the deposit exactly |
| `Marketplace.RefundAt` | crates/cmfd-marketplace/src/lib.rs:294-305 | A refund is available from its height on and splits the deposit between customer and burn |
| `Marketplace.InitialStateStartsRun` | crates/cmfd-marketplace/src/lib.rs:155-164 | A signed initial state is accepted as the start of a chain |
| `Marketplace.NextStateBuilds` | crates/cmfd-marketplace/src/lib.rs:166-186 | Of the accepted continuations of a run, next_state builds exactly those of its first state: it returns the accepted state if and only if the predecessor is the first |
| `Marketplace.NextStateCondition` | crates/cmfd-marketplace/src/lib.rs:166-186 | next_state succeeds on a state of a run exactly when that state is the first, the receipt verifies, and the authorization is affordable and within one chunk of the previous one |
| `Marketplace.NextStateStalls` | crates/cmfd-marketplace/src/lib.rs:166-186 | Whenever the terms allow three chunks there is an accepted three-state channel whose third state next_state refuses to build |
| `Marketplace.OneChunkAhead` | crates/cmfd-marketplace/src/lib.rs:232-253 | For every accepted state and verified receipt, all accepted continuations stay one chunk ahead of the tokens reported delivered exactly when the receipt reports full delivery, or the token limit or deposit rules out one token beyond that chunk, or no sequence number is left |
| `Marketplace.ExposureBound` | crates/cmfd-marketplace/src/lib.rs:215-270 | Along all runs on an input each step is at most one chunk ahead of its receipt exactly when the terms never allow more than one chunk |
| `Marketplace.ExposureBoundFails` | crates/cmfd-marketplace/src/lib.rs:215-270 | Concrete terms, for any two signing keys, under which that bound fails |
| `Marketplace.UndeliveredRun` | crates/cmfd-marketplace/src/lib.rs:215-292 | For every n, when limits and deposit allow n+1 chunks and both parties can sign, some run authorizes all n+1 chunks although every receipt reports nothing delivered, and settles for their full price: the per-state bound is reached |
| `Marketplace.TermsExactly` | crates/cmfd-marketplace/src/lib.rs:114-127 | Terms pass exactly when amounts are positive, the burn is below the deposit, and the two keys are different and valid |
| `Marketplace.PriceFormula` | crates/cmfd-marketplace/src/lib.rs:136-153 | The price is base plus input plus output charge, each rounded up to whole units, and fails exactly beyond the limits or 64 bits |
| `Marketplace.AllocationExactly` | crates/cmfd-marketplace/src/lib.rs:188-270 | A state passes exactly when it names the channel, prices its own counts, splits the deposit, and the customer signed it |
| `Marketplace.ReceiptExactly` | crates/cmfd-marketplace/src/lib.rs:272-292 | A receipt passes exactly when it is for this state, within its authorization, and the provider signed it |
| `Marketplace.StepExactly` | crates/cmfd-marketplace/src/lib.rs:215-253 | A step is accepted exactly when it follows its predecessor by one, keeps the input, authorizes at most one chunk more, and names a verified receipt |
| `Marketplace.FirstExactly` | crates/cmfd-marketplace/src/lib.rs:215-231 | A first state is accepted exactly when it is numbered zero, unlinked, and authorizes between one token and one chunk |
| `Marketplace.SettlementExactly` | crates/cmfd-marketplace/src/lib.rs:345-396 | A settlement passes exactly when its state prices its counts under the customer's signature, is a first state if numbered zero, and the provider signed it |
| `WireObjects.TransactionBijection` | crates/cmfd-consensus/src/wire.rs:76-99 | Bytes decode to a transaction exactly when that transaction is of the expected network and encodes to those bytes |
| `WireObjects.ProofBijection` | crates/cmfd-consensus/src/wire.rs:101-127 | Bytes decode to a proof exactly when it encodes to those bytes |
| `WireObjects.BlockBijection` | crates/cmfd-consensus/src/wire.rs:129-195 | Bytes decode to a block exactly when that block is of the expected network and encodes to those bytes |
| `WireObjects.FrameBijection` | crates/cmfd-consensus/src/wire.rs:724-804 | A frame decodes to a payload exactly when the payload fits and the frame is its encoding |
| `WireObjects.TransactionPayloadBijection` | crates/cmfd-consensus/src/wire.rs:197-251 | Payload bytes decode to a transaction exactly when they are its encoding and it is encodable |
| `WireObjects.ProofPayloadBijection` | crates/cmfd-consensus/src/wire.rs:253-324 | Payload bytes decode to a proof exactly when they are its encoding |
| `Wire.Writer.Put` | crates/cmfd-consensus/src/wire.rs:825-852 | Appending succeeds exactly within the limit and changes nothing otherwise |
| `Wire.Writer.PutSized` | crates/cmfd-consensus/src/wire.rs:877-887 | A length-prefixed field is written exactly when it and its prefix fit |
| `Wire.Reader.Get` | crates/cmfd-consensus/src/wire.rs:908-923 | Reading returns the next bytes and advances, or fails and stays |
| `Wire.Reader.GetTransactionList` | crates/cmfd-consensus/src/wire.rs:172-185 | The block decoder's transaction loop reads the list and stops at the aggregate limits |
| `Wire.CheckBlockShape` | crates/cmfd-consensus/src/wire.rs:608-632 | The shape scan accepts exactly the blocks within the count, signature and aggregate limits |
| `Wire.AddBlockResources` | crates/cmfd-consensus/src/wire.rs:634-672 | The counters grow by one transaction's use and stop at the first exceeded limit |
| `Wire.EncodeTransactionFrame` | crates/cmfd-consensus/src/wire.rs:76-85 | The writer produces the specified frame or refuses |
| `Wire.EncodeBlockFrame` | crates/cmfd-consensus/src/wire.rs:129-152 | The writer produces the specified block frame or refuses |
| `Wire.DecodeTransactionFrame` | crates/cmfd-consensus/src/wire.rs:87-99 | The reader accepts exactly the canonical frames |
| `Wire.DecodeBlockFrame` | crates/cmfd-consensus/src/wire.rs:154-195 | The reader accepts exactly the canonical block frames, so re-encoding gives back the bytes |
| `WireLayout.FrameLayout` | crates/cmfd-consensus/src/wire.rs:724-745 | Byte by byte: the four letters, the network discriminator, version, kind, a zero, the payload length lowest byte first, the payload |
| `WireLayout.TransactionLayout` | crates/cmfd-consensus/src/wire.rs:197-219 | Network, version, counted inputs and counted outputs stand at these offsets |
| `WireLayout.InputLayout` | crates/cmfd-consensus/src/wire.rs:378-403 | The output named, the witness kind, then key and signature, or terms, state and both signatures, or terms alone, at these offsets |
| `WireLayout.OutputLayout` | crates/cmfd-consensus/src/wire.rs:446-460 | Value, lock kind, lock digest and height at these offsets |
| `WireLayout.TermsLayout` | crates/cmfd-consensus/src/wire.rs:482-505 | Seven digests and nine amounts of channel terms at these offsets |
| `WireLayout.StateLayout` | crates/cmfd-consensus/src/wire.rs:536-545 | Channel, six amounts and receipt of a payment state at these offsets |
| `WireLayout.ChallengeLayout` | crates/cmfd-consensus/src/wire.rs:326-333 | Network, parent, root, height, time at these offsets, and the target highest byte first |
| `WireLayout.ProofLayout` | crates/cmfd-consensus/src/wire.rs:253-282 | Kind, network, two versions, nonce and the digests of either proof at these offsets |
| `WireLayout.BlockLayout` | crates/cmfd-consensus/src/wire.rs:129-152 | Version, challenge, sized proof, coinbase height, counted outputs and counted transactions at these offsets |
| `WireLayout.ItemsLayout` | crates/cmfd-consensus/src/wire.rs:197-219 | Outputs stand 49 bytes apart, and every input right after those before it |
| `Utxo.TransactionConserves` | crates/cmfd-consensus/src/chain.rs:533-747 | A transaction takes exactly its fee out of the total value of unspent outputs, key spend or channel close |
| `Utxo.TransactionsConserve` | crates/cmfd-consensus/src/chain.rs:426-438 | The transactions of a block take exactly the fee total out of the unspent value |
| `Utxo.TransactionKeepsRegistry` | crates/cmfd-consensus/src/chain.rs:620-747 | Active channel identifiers stay in bijection with channel-locked outputs and apart from retired ones, and retired ones stay retired |
| `Utxo.TransactionsKeepRegistry` | crates/cmfd-consensus/src/chain.rs:426-438 | The registry survives any transaction list, including opening and closing one channel in one block |
| `Overlay.DiffPatches` | crates/cmfd-consensus/src/chain.rs:769-807 | A delta against its base passes the staleness test and, applied, gives the staged view |
| `Overlay.DeltaIsMinimal` | crates/cmfd-consensus/src/chain.rs:504-531 | The delta is the least one: any delta that passes the staleness test and patches the base to the view holds every entry of its three maps, and only no-change entries besides |
| `Overlay.DeltaEntries` | crates/cmfd-consensus/src/chain.rs:504-531 | The delta holds exactly the outputs, active and retired channels that changed, with base and new value |
| `Overlay.ApplyDelta` | crates/cmfd-consensus/src/chain.rs:782-807 | The mutation loops over the three maps compute the patched set |
| `Overlay.UtxoOverlay.StageOutput` | crates/cmfd-consensus/src/chain.rs:504-521 | Staging an output keeps the delta minimal and updates the view at that point only |
| `Overlay.UtxoOverlay.Insert` | crates/cmfd-consensus/src/chain.rs:725-747 | Insertion through the overlay has the verdict, error and effect of insertion into a copy |
| `Overlay.UtxoOverlay.ApplyKey` | crates/cmfd-consensus/src/chain.rs:562-617 | A key spend through the overlay has the verdict, error, fee, spent set and view of direct application, which `Spending.KeySpendExact` characterizes |
| `Overlay.UtxoOverlay.ApplyChannel` | crates/cmfd-consensus/src/chain.rs:620-722 | So has a channel close, which `Spending.ChannelCloseExact` characterizes |
| `Overlay.UtxoOverlay.Apply` | crates/cmfd-consensus/src/chain.rs:533-618 | So has any transaction |
| `Overlay.UtxoOverlay.ApplyAll` | crates/cmfd-consensus/src/chain.rs:426-438 | After the whole transaction loop the overlay is the minimal delta of direct application, with the same verdict, error and checked fee total |
| `Spending.KeySpendExact` | crates/cmfd-consensus/src/chain.rs:562-617 | A key transaction is accepted exactly when every input names a different, unspent, matured key-locked output whose owner is the witness key and whose signature verifies over the transaction's digest, values fit, nothing is created, and its outputs can be added; the new set is exactly the old one without the inputs and with the outputs, and the fee is the difference |
| `Spending.TransactionExact` | crates/cmfd-consensus/src/chain.rs:533-560 | Beyond that a transaction must be of the network and version and have inputs and outputs, all with value |
| `Spending.OwnersDecide` | crates/cmfd-consensus/src/chain.rs:562-617 | Over any run, a key-locked output that is gone or changed was spent in some block after it was there, by a transaction its owner signed, at a height it had matured at |
| `Spending.ChannelCloseExact` | crates/cmfd-consensus/src/chain.rs:620-722 | A channel transaction is accepted exactly when its one input names an unspent, matured channel output, the witness entitles the parties, and the outputs are exactly their parts; the channel is retired and the close fee burned |
| `Spending.ClosePays` | crates/cmfd-consensus/src/chain.rs:655-690 | After an accepted settlement the new outputs pay the provider's key the provider's payment, the customer's key the refund, and nobody else; after a refund everything beyond the burn is the customer's |
| `Spending.InsertsExactly` | crates/cmfd-consensus/src/chain.rs:725-747 | Outputs are added exactly when they have value, their points are unused, and their channels are new and pairwise different; the new set holds exactly them besides the old one |
| `Merkle.RootInjective` | crates/cmfd-consensus/src/chain.rs:1209-1238 | The root is injective on duplicate-free lists of any two lengths, unless two of the hashes evaluated for the two roots collide |
| `Merkle.RepeatedTailCollides` | crates/cmfd-consensus/src/chain.rs:1223-1226 | Repeating the last identifier of an odd list leaves the root unchanged |
| `Merkle.MerkleRoot` | crates/cmfd-consensus/src/chain.rs:1209-1238 | The level loop computes the recursive root |
| `Identity.TransactionSpends` | crates/cmfd-consensus/src/chain.rs:567-569 | An accepted transaction spends only outputs nothing before it in the block has spent, and adds exactly its inputs to the spent set |
| `Identity.TransactionsConflictless` | crates/cmfd-consensus/src/chain.rs:426-438 | Over an accepted transaction list no output is spent twice and every transaction spends something |
| `Identity.ConflictlessDistinct` | crates/cmfd-consensus/src/chain.rs:631-633 | Such a list has no two equal transactions |
| `Identity.BlockIdCommits` | crates/cmfd-consensus/src/chain.rs:1050-1069 | Two blocks accepted anywhere under one block identifier are equal, unless two of the hashes evaluated for them collide |
| `Merkle.RootIsSubtree` | crates/cmfd-consensus/src/chain.rs:1209-1238 | The root is the top of the tree read from above: a node over 2^h identifiers joins its left half and its right half, or the left one twice when the right half is past the end, for the least h that covers the list |
| `Acceptance.StepExact` | crates/cmfd-consensus/src/chain.rs:938-981 | A block is accepted exactly when it extends the tip at its height, after most of the last eleven timestamps, for the target due; is well formed and within every limit; its transactions apply one after the other; and its coinbase is the one due |
| `Acceptance.HeaderExact` | crates/cmfd-consensus/src/chain.rs:395-421 | The stateless rules pass exactly when counts and sums of inputs, outputs and signatures are within the limits, versions and networks match, the frame encodes, heights and root agree, and the proof of work is accepted |
| `Acceptance.BodyExact` | crates/cmfd-consensus/src/chain.rs:423-460 | The body applies exactly when its transactions apply in order and its coinbase is due and can be added after them |
| `Acceptance.RootOrder` | crates/cmfd-consensus/src/chain.rs:1050-1069 | The transaction root is the tree over the coinbase commitment followed by the transactions in order |
| `Acceptance.ResourcesExact` | crates/cmfd-consensus/src/chain.rs:1115-1171 | A list is within its resources exactly when each transaction has at most 128 inputs and outputs with whole signatures and the sums are at most 4096, 4096 and 2048 |
| `Histories.RunRecords` | crates/cmfd-consensus/src/chain.rs:1012-1048 | After any run the state records genesis and then every block's own time and target with the median time up to it, in order, and stands on the last block |
| `Histories.FirstBlock` | crates/cmfd-consensus/src/chain.rs:938-981 | The first block stands on genesis at height one, later than it, at the proof-of-work limit, and holds no transaction but the coinbase |
| `BlockRules.ValidateTransactionResources` | crates/cmfd-consensus/src/chain.rs:1115-1171 | The scan reports the first malformed transaction, else the first exceeded aggregate limit, else the exact totals |
| `BlockRules.NoShapeError` | crates/cmfd-consensus/src/chain.rs:1121-1151 | There is no shape error exactly when every transaction is within its limits with canonical signatures |
| `BlockRules.BuiltCoinbaseAccepted` | crates/cmfd-consensus/src/chain.rs:1173-1207 | The program's own coinbase layout passes validation exactly when the miner key is valid and an empty steward share comes with an empty community share |
| `BlockRules.CoinbasePaysSubsidy` | crates/cmfd-consensus/src/chain.rs:1173-1207 | An accepted coinbase pays out the whole subsidy and none of the fees |
| `BlockRules.ValidateDelta` | crates/cmfd-consensus/src/chain.rs:394-454 | Validation on an overlay gives the verdict, error and fees of direct application, and the minimal delta |
| `BlockRules.BlockConserves` | crates/cmfd-consensus/src/chain.rs:394-454 | After a block the unspent value and its fees equal the value before plus the subsidy |
| `BlockRules.BlockKeepsRegistry` | crates/cmfd-consensus/src/chain.rs:394-454 | A block keeps the channel registry and never un-retires a channel |
| `Chain.EffectiveTimestamp` | crates/cmfd-consensus/src/chain.rs:985-992 | The median over the last ten timestamps and the new one is the median of the extended chain |
| `Chain.TokenCommits` | crates/cmfd-consensus/src/chain.rs:1015-1047 | A validation token always commits on the state it came from, and gives exactly the validated successor |
| `Provenance.FreshOnlyAtBase` | crates/cmfd-consensus/src/chain.rs:1012-1028 | A reachable state that passes the staleness check of a token has the height the token came from and, unless hashes of blocks at the same height collide, is that very state |
| `Provenance.TipDeterminesState` | crates/cmfd-consensus/src/chain.rs:1058-1069 | Two runs of one length with one tip have the same blocks and state, whatever their clocks, unless hashes of them collide |
| `Provenance.RunIssues` | crates/cmfd-consensus/src/chain.rs:394-454 | Every unspent output of a run carries the identifier of a transaction of the run or of the coinbase of one of its blocks |
| `Chain.ChainState.ValidateBlock` | crates/cmfd-consensus/src/chain.rs:938-1010 | Validation returns the specified verdict and token and changes nothing |
| `Chain.ChainState.CommitValidated` | crates/cmfd-consensus/src/chain.rs:1015-1047 | Commitment applies a fresh token whole and refuses a stale one before any change |
| `Chain.ChainState.ValidateAndApply` | crates/cmfd-consensus/src/chain.rs:928-935 | Validate-then-commit never fails half way: the state moves to the successor or stays |
| `Chain.ChainState.ValidateTransactionsForNextBlock` | crates/cmfd-consensus/src/chain.rs:893-926 | The overlay run over a transaction set returns the specified fees, resource use or error |
| `Chain.NewChainState` | crates/cmfd-consensus/src/chain.rs:845-865 | A chain starts exactly from valid parameters, in a state with a sound timeline |
| `Chain.TargetAlwaysDefined` | crates/cmfd-consensus/src/chain.rs:883-885 | On a sound timeline the next target exists and lies in 1..limit |
| `Chain.StepKeepsTimeline` | crates/cmfd-consensus/src/chain.rs:967-1010 | An accepted block keeps effective timestamps ordered, targets in range, and the last effective timestamp equal to the median |
| `Chain.RunInvariant` | crates/cmfd-consensus/src/chain.rs:938-1047 | After every run of accepted blocks: unspent value plus burned fees equals the sum of subsidies, the registry is a bijection, and the timeline is sound |
| `Chain.SupplyAtTail` | crates/cmfd-consensus/src/economics.rs:175-190 | At the last pre-tail height circulating plus burned coins equal the closed form of the scheduled supply |
| `Chain.RetiredForever` | crates/cmfd-consensus/src/chain.rs:725-747 | A channel retired anywhere in a run is retired and not active at its end |
| `Chain.TargetNeverFails` | crates/cmfd-consensus/src/chain.rs:977-980 | In every reachable state the difficulty rule succeeds within 1..limit |
| `Forks.AcceptKeepsSound` | crates/cmfd-node/src/lib.rs:2282-2419 | Every accepted block keeps the cached data equal to a recomputation: parents indexed one height below, work adding up, active chain the path to the tip, active work the maximum, live state the replay of its branch |
| `Forks.FirstSeenWins` | crates/cmfd-node/src/lib.rs:2371-2417 | After any run of accepted blocks the tip is the first accepted block that reached the largest work |
| `ForkOrder.OrderDecidesOnlyTies` | crates/cmfd-node/src/lib.rs:2366-2419 | Runs that accept the same blocks in any orders and at any times index the same identifiers with the same work and active work, and have the same tip, active chain and state when one block alone has the largest work |
| `Forks.WorkAdds` | crates/cmfd-node/src/lib.rs:2315-2316 | Adding a valid block's work to any indexed parent never overflows and strictly increases it |
| `Forks.PathFits` | crates/cmfd-node/src/lib.rs:985-1005 | No path is longer than the number of indexed blocks, so the cycle guard never fires |
| `Forks.ReplayTip` | crates/cmfd-node/src/lib.rs:2328-2364 | Replaying the branch of an indexed block succeeds and ends at that block, one height up per block |
| `Forks.LiveStateAccounted` | crates/cmfd-node/src/lib.rs:2282-2419 | On any fork history the live state conserves supply and keeps registry and timeline |
| `ForkNode.PathTo` | crates/cmfd-node/src/lib.rs:985-1005 | The parent walk returns the genesis-to-block path of every known block |
| `ForkNode.RebuildStateTo` | crates/cmfd-node/src/lib.rs:2328-2364 | Rebuilding never fails on a sound index and gives the replayed state |
| `ForkNode.PrepareBlock` | crates/cmfd-node/src/lib.rs:2282-2326 | Preparation fails exactly when acceptance does, with the same error, and changes nothing |
| `ForkNode.CommitPrepared` | crates/cmfd-node/src/lib.rs:2366-2419 | Committing a prepared block on the unchanged node always succeeds and reaches exactly the accepted index and state |
| `RecordLog.ReadsRecord` | crates/cmfd-node/src/lib.rs:3270-3286 | Reading a record gives back time and frame |
| `RecordLog.RecordCanonical` | crates/cmfd-node/src/lib.rs:3309-3366 | Bytes that read as a record are the encoding of what was read |
| `RecordLog.CutRecordIsTorn` | crates/cmfd-node/src/lib.rs:3316-3355 | A record cut short anywhere is seen to be torn |
| `RecordLog.ReplayRecovers` | crates/cmfd-node/src/lib.rs:3294-3394 | Replaying the log of any run of accepted blocks rebuilds the same index, active chain, work and chain state |
| `RecordLog.TornTailDetected` | crates/cmfd-node/src/lib.rs:3294-3394 | A log whose last record was only partly written is refused |
| `RecordLog.ReplayIsCanonical` | crates/cmfd-node/src/lib.rs:3294-3394 | A log that replays is byte for byte the log of a run of accepted blocks, and replays to that run's state |
| `RecordLog.Reopen` | crates/cmfd-node/src/lib.rs:3294-3394 | The replay loop computes the specified replay; its re-encoding and commit failures never occur |
| `RecordLog.RecordLayout` | crates/cmfd-node/src/lib.rs:3270-3286 | Letters, version, time, length, frame and checksum of all before it stand at these offsets |
| `Mempool.ValidateMempoolTransaction` | crates/cmfd-node/src/lib.rs:2183-2207 | The single-transaction check returns the first unconfirmed or conflicting input, else the chain error, else the fee shortfall, else the fee |
| `Mempool.AdmitKeepsPool` | crates/cmfd-node/src/lib.rs:1976-2024 | An admitted transaction keeps the pool sorted, measured exactly, within its limits, paying for relay, and valid in identifier order |
| `Mempool.AdmitTransaction` | crates/cmfd-node/src/lib.rs:1976-2024 | Admission returns the specified entry or the first failed check |
| `Mempool.PoolSpendsDistinct` | crates/cmfd-node/src/lib.rs:2176-2193 | Entries of a sound pool spend pairwise distinct confirmed outputs |
| `Mempool.RevalidationSound` | crates/cmfd-node/src/lib.rs:2132-2173 | Whatever the new state, what revalidation keeps is a sound pool for it |
| `Mempool.RevalidateMempool` | crates/cmfd-node/src/lib.rs:2132-2173 | The revalidation loop keeps exactly the specified entries, with their exact byte sum |
| `Mempool.OrderedWith` | crates/cmfd-node/src/lib.rs:2000-2011 | The ordered copy is the pool with the transaction in its sorted place |
| `PoolRules.AdmitExact` | crates/cmfd-node/src/lib.rs:1976-2024 | A transaction is admitted exactly when it encodes, is new, fits both limits, spends only confirmed outputs no entry spends, is valid alone with a fee of one unit per KiB begun, and is valid with the whole pool in identifier order; the entry records identifier, size and burn |
| `PoolRules.CheckExact` | crates/cmfd-node/src/lib.rs:2183-2207 | The single check passes exactly when all inputs are confirmed and free and the transaction is valid alone and pays for relay |
| `PoolRules.RetainedMaximal` | crates/cmfd-node/src/lib.rs:2132-2173 | Revalidation drops nothing it could keep: an entry not kept was confirmed, lost an input, no longer pays alone, or is not valid together with what was kept |
| `PoolRules.RetainedFromPool` | crates/cmfd-node/src/lib.rs:2132-2173 | Everything kept is an unconfirmed entry of the pool with only its fee renewed |
| `PoolRules.SetPrefix` | crates/cmfd-consensus/src/chain.rs:1106-1171 | Every beginning of a valid transaction set is a valid set |
| `Acceptance.TemplateHolds` | crates/cmfd-node/src/lib.rs:1901-1956 | A template holds the pool's transactions in order and the fees they burn, extends the tip for the target due at the least time not before now that most of the last eleven timestamps precede, and pays the height's allocation |
| `Template.BuildTemplate` | crates/cmfd-node/src/lib.rs:1901-1956 | The template, or the first failed check, as specified from state and pool |
| `Mining.SolvedTemplateAccepted` | crates/cmfd-node/src/lib.rs:1901-1956 | Unless hashes naming the indexed blocks and the new block collide, a template from a sound pool submitted at any clock before the tip moves is accepted, and becomes the tip, exactly when its timestamp is timely, heights remain, its proof is valid and the percentages allow the height; a clock not before the template's is timely |
| `Mining.ExtensionIsNew` | crates/cmfd-node/src/lib.rs:2291-2294 | A block on the tip has an identifier the index does not know, unless hashes collide: an indexed one would have the same parent and more work than the active chain |
| `Mining.CoinbasePointsFresh` | crates/cmfd-consensus/src/chain.rs:443-451 | The points of a new block's coinbase are unused after its own transactions, unless hashes collide |
| `Mining.MinedTemplateSubmits` | crates/cmfd-node/src/lib.rs:2065-2087 | With a valid miner key, a usable clock, heights left, an allowed height and a valid proof the template exists and passes every check of its submission |
| `Template.TemplateAvailable` | crates/cmfd-node/src/lib.rs:1901-1956 | On a sound node template construction is refused only for an invalid miner key or an unusable clock |
| `Template.PoolBlockFits` | crates/cmfd-consensus/src/wire.rs:129-152 | A block holding any sound pool fits the one-megabyte frame |
| `Template.MintableHeights` | crates/cmfd-consensus/src/chain.rs:1173-1207 | Exactly which heights of a valid policy can be mined: tail heights, and earlier ones by the percentages and rounding |
| `Template.UnmintableHeightStalls` | crates/cmfd-consensus/src/chain.rs:1173-1207 | At a height that is not mintable no block whatever is valid |
| `Template.CommunityOnlyPolicyStalls` | crates/cmfd-consensus/src/chain.rs:1196-1205 | A policy the validation accepts (no steward share, some community share) under which no pre-tail height is mintable |
| `Node.Node.SubmitBlock` | crates/cmfd-node/src/lib.rs:2089-2130 | Index, state, fees, log, fault flag and exact pool contents after a submission, for accepted and refused blocks and failed writes; the node invariant is kept |
| `Node.Node.SubmitTransaction` | crates/cmfd-node/src/lib.rs:1976-2024 | Admission changes only the pool and keeps the node invariant |
| `Node.Node.MineOnce` | crates/cmfd-node/src/lib.rs:2065-2087 | With a valid key, a usable clock, heights left, an allowed height, a valid proof and no colliding names, mining succeeds exactly when the node is healthy and the write durable, and the mined block is the tip |
| `Node.Open` | crates/cmfd-node/src/lib.rs:1080-1129 | Opening succeeds exactly on logs that replay, and yields a valid node with the replayed core |
| `Node.Restart` | crates/cmfd-node/src/lib.rs:1080-1129 | Reopening a healthy node from its own log gives back index, active chain, work and state |
| `Node.CrashOutcomes` | crates/cmfd-node/src/lib.rs:2107-2114 | After a write that failed at any byte a restart finds the node before the block, the node after it, or a log it refuses |
| `Node.TipMoves` | crates/cmfd-node/src/lib.rs:2115-2120 | Unless the tip changed the live state is untouched, so revalidation is needed only then |
| `Sync.BlockLocator` | crates/cmfd-node/src/lib.rs:1818-1838 | The locator lists the specified positions newest first, closed by genesis, within its bound, starting at the tip |
| `Sync.PositionsDescend` | crates/cmfd-node/src/lib.rs:1826-1836 | Locator positions strictly descend, stay on the chain and respect the bound |
| `Sync.InventoryAfter` | crates/cmfd-node/src/lib.rs:1843-1867 | The inventory is the stretch after the first common locator entry, ending at the bound, the stop or the tip |
| `Sync.RelayInventoryAfter` | crates/cmfd-node/src/lib.rs:1873-1899 | For a known peer tip the walk finds the fork point within its bound and returns the stretch after it |
| `Sync.ForkPointParts` | crates/cmfd-node/src/lib.rs:1873-1899 | Up to the fork point the peer's branch is the active chain; the next block of the branch is not on it |
| `Sync.PositionsSpaced` | crates/cmfd-node/src/lib.rs:1826-1836 | A locator starts at the tip, steps back one after each of its first ten entries and then two, four, eight and so on, and ends only when full or within one step of genesis |
| `Sync.StartExact` | crates/cmfd-node/src/lib.rs:1843-1853 | The start is where the first locator entry on the chain stands, and there is none exactly when no entry is on it |
| `Sync.TakeReply` | crates/cmfd-node/src/p2p.rs:331-366 | Any reply to a request is refused without change unless it is the block asked for, right after the one before it; then it has exactly the outcome of its submission |
| `Sync.PullFromAny` | crates/cmfd-node/src/p2p.rs:289-367 | From any peer whatever, more than sixteen items are refused, only requested blocks are accepted, at most one per item, nothing known is lost, the active work never falls, and success leaves every item known |
| `Sync.PullStep` | crates/cmfd-node/src/p2p.rs:322-366 | When the local tip lies on the peer's active chain, the peer's next block is new, valid at any timely clock, accepted, and becomes the tip |
| `Sync.PullBlocks` | crates/cmfd-node/src/p2p.rs:289-367 | One pull from a static valid peer accepts min(16, gap) blocks in parent order |
| `Sync.SyncToTip` | crates/cmfd-node/src/p2p.rs:289-367 | Repeated pulls reach the peer's tip in exactly ceil(gap/16) pulls |
| `ForkOrder.SharedBranch` | crates/cmfd-node/src/lib.rs:2328-2364 | Two nodes that agree on their common blocks replay a common block to the same state and work, whatever their acceptance times |
| `ForkOrder.AgreeUnlessCollision` | crates/cmfd-consensus/src/chain.rs:1050-1069 | Two sound indexes hold the same block under a common identifier unless hashes of it collide |
| `ForgeMatrix.ReductionExact` | crates/cmfd-consensus/src/forgematrix_v2.rs:919-957 | The checker accepts exactly one witness, for exactly the values from minus the modulus up to the modulus |
| `ForgeMatrix.HonestIsCube` | crates/cmfd-consensus/src/forgematrix_v2.rs:881-917 | The output is the cube of the input in the transition field, reduced to a byte |
| `ForgeMatrix.ReductionWitnessFor` | crates/cmfd-consensus/src/forgematrix_v2.rs:881-917 | Construction gives that witness for every value strictly within the modulus and refuses all others |
| `ForgeMatrix.MaskValue` | crates/cmfd-consensus/src/forgematrix_v2.rs:855-879 | The bit loops add the selected coefficients, at most 2000 in all |
| `ForgeMatrix.DotBound` | crates/cmfd-consensus/src/forgematrix_v2.rs:653-660 | An accumulator over n products stays within 15625 n |
| `ForgeProofs.ProveReference` | crates/cmfd-consensus/src/forgematrix_v2.rs:619-692 | On its own network proving never overflows and returns the honest proof, the only one in `ForgeRelation.Relation` |
| `ForgeProofs.VerifyReference` | crates/cmfd-consensus/src/forgematrix_v2.rs:694-779 | A proof is accepted exactly when it is the honest proof for its nonce, the only one in `ForgeRelation.Relation`, and its work meets the target |
| `ForgeProofs.VerifyLayer` | crates/cmfd-consensus/src/forgematrix_v2.rs:733-765 | A layer witness is accepted exactly when it is the honest one, whose accumulators are the matrix product of `ForgeRelation.AccumulatorsAreProduct` |
| `ForgeProofs.VerifyCompact` | crates/cmfd-consensus/src/forgematrix_v2.rs:555-599 | A compact claim is accepted exactly when it is the honest one and meets the target |
| `ForgeProofs.MineCompact` | crates/cmfd-consensus/src/forgematrix_v2.rs:604-617 | The search returns the first winning nonce of the wrapping interval, or there is none |
| `ForgeRelation.HonestExactly` | crates/cmfd-consensus/src/forgematrix_v2.rs:619-692 | The honest proof is the one and only proof whose initial cells are base plus initial mask, whose layers multiply the output before by the centred weights, add that layer's mask and reduce every cell, and whose digests are those of challenge and last output |
| `ForgeRelation.AccumulatorsAreProduct` | crates/cmfd-consensus/src/forgematrix_v2.rs:653-660 | A layer's accumulators, and no other values, make activation times centred weights an exact matrix product, as the sumcheck states it |
| `ForgeRelation.MaskIs` | crates/cmfd-consensus/src/forgematrix_v2.rs:855-879 | The mask of a cell is the constant plus one coefficient of that layer's stream for every set row bit and then every set column bit, lowest first |
| `ForgeRelation.ReducesExactly` | crates/cmfd-consensus/src/forgematrix_v2.rs:881-957 | A cell's witness holds exactly for the byte of the cube of its value, and the output is that byte less 125 |
| `ForgeRelation.CompactClaims` | crates/cmfd-consensus/src/forgematrix_v2.rs:536-553 | A compact proof claims exactly the digests of the one related proof, under versions two and one |
| `CoinSelection.SelectSendUtxos` | crates/cmfd-node/src/lib.rs:2230-2258 | The loop over sorted candidates returns the specified selection, and fails exactly when the total overflows |
| `CoinSelection.SelectionExact` | crates/cmfd-node/src/lib.rs:2230-2258 | Selection fails exactly when the total overflows; otherwise it names, by descending value, then identifier, then index, the least number of candidates that reaches the amount, at least one and at most 128, or as many as there are |
| `CoinSelection.SelectionOptimal` | crates/cmfd-node/src/lib.rs:2230-2258 | A positive amount is reached exactly when some choice of at most 128 candidates reaches it, and then with the fewest inputs possible |
| `CoinSelection.SelectionOrderFree` | crates/cmfd-node/src/lib.rs:2237-2243 | The selection is the same for every ordering of the candidates |
| `CoinSelection.PrefixIsBest` | crates/cmfd-node/src/lib.rs:2237-2251 | No choice of at most k candidates is worth more than the first k in order |

## Left out

- The rejection-sampling loops of `Transcript::challenge` and `mask_coefficients`: their outputs are
  arbitrary field elements and bytes up to 250.
- `reference_matrix_product`: the prover's input product is characterized by integer sums; the helper's own
  128-bit accumulator is not modelled.
- The kinds of `WireError`: a refused encoding or decoding is a refusal, whatever its kind.
- The kinds of `NetworkError` and of proof-of-work errors: parameters are valid or not, a block's proof is
  accepted or not. The protocol version and the proof-of-work profile inside the parameters are not modelled.
- The inputs that are fed to BLAKE3 (their byte layout): hashes take the structured values.
- `sequence + 1` at the largest 64-bit sequence, where a release build wraps: the model has no successor.
- ForgeMatrix v1, the model-bank file format, accelerator batches and GPU fixtures.
- File locking, syncing, metadata and wallet-key files, the peer transport and its message limits, the HTTP
  interface, statistics, the wallet history and the desktop application.
- The transaction part of a pull: it is a loop of mempool admissions, each covered by
  `Node.Node.SubmitTransaction`.
- The relay loop between two nodes beyond the inventory it offers.
- Convergence of pulls from forks deeper than the locator reaches: only the case of a local tip on the
  peer's active chain is claimed.
- `Sync.SyncToTip`: the caller's retry loop is modelled without pauses and with a peer that does not change.
- `Overlay.UtxoOverlay.ApplyAll`: after an error the staged changes are unspecified, since the overlay is
  then dropped.
- Sorting in `median_timestamp` and `select_send_utxos` is given by what a sort returns, not by the library's
  algorithm.
