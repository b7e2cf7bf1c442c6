/** Inference payment channels: terms, cumulative payment states, receipts and settlement. */
module Marketplace {
  import opened Prelude
  import opened Arith

  datatype ChannelTerms = ChannelTerms(
    networkId: Digest,
    jobId: Digest,
    customerKey: Digest,
    providerKey: Digest,
    modelDigest: Digest,
    runtimeDigest: Digest,
    inputDigest: Digest,
    deposit: u64,
    closeFeeBurn: u64,
    basePrice: u64,
    inputPricePer1000: u64,
    outputPricePer1000: u64,
    maxInputTokens: u64,
    maxOutputTokens: u64,
    outputChunkTokens: u64,
    refundHeight: u64)

  datatype PaymentState = PaymentState(
    channelId: Digest,
    sequence: u64,
    inputTokens: u64,
    authorizedOutputTokens: u64,
    providerPayment: u64,
    customerRefund: u64,
    closeFeeBurn: u64,
    previousReceipt: Digest)

  datatype SignedPaymentState = SignedPaymentState(state: PaymentState, customerSignature: seq<byte>)

  datatype InferenceReceipt = InferenceReceipt(
    channelId: Digest,
    stateSequence: u64,
    inputTokens: u64,
    deliveredOutputTokens: u64,
    rollingOutputDigest: Digest,
    completed: bool)

  datatype SignedInferenceReceipt = SignedInferenceReceipt(
    receipt: InferenceReceipt, providerSignature: seq<byte>)

  datatype Settlement = Settlement(state: SignedPaymentState, providerSignature: seq<byte>)

  datatype Refund = Refund(channelId: Digest, availableHeight: u64, customerAmount: u64, feeBurn: u64)

  datatype ChannelError =
    | Terms | AmountOverflow | DepositExceeded | ChannelIdMismatch | Sequence | InputTokens
    | OutputTokens | Payment | ReceiptLink | ReceiptDelivery | MalformedSignature
    | InvalidSignature | RefundLocked

  /** The hash and Schnorr primitives, as arbitrary functions. */
  datatype ChannelCrypto = ChannelCrypto(
    channelHash: ChannelTerms -> Digest,
    stateDigest: PaymentState -> Digest,
    receiptDigest: InferenceReceipt -> Digest,
    signedReceiptDigest: SignedInferenceReceipt -> Digest,
    settlementDigest: SignedPaymentState -> Digest,
    validKey: Digest -> bool,
    wellFormedSignature: seq<byte> -> bool,
    verifies: (Digest, Digest, seq<byte>) -> bool)

  type Check = Result<(), ChannelError>

  // ----- operations -------------------------------------------------------------------------

  function Validate(c: ChannelCrypto, t: ChannelTerms): Check {
    if t.deposit == 0 || t.outputChunkTokens == 0 || t.maxInputTokens == 0 || t.maxOutputTokens == 0
       || t.closeFeeBurn >= t.deposit || t.customerKey == t.providerKey
    then Err(Terms)
    else if !c.validKey(t.customerKey) || !c.validKey(t.providerKey) then Err(Terms)
    else Ok(())
  }

  function ChannelId(c: ChannelCrypto, t: ChannelTerms): Result<Digest, ChannelError> {
    var _ :- Validate(c, t);
    Ok(c.channelHash(t))
  }

  /** ceil(tokens * price / 1000), computed in u128 and narrowed. */
  function RoundedTokenCharge(tokens: u64, pricePer1000: u64): (r: Result<u64, ChannelError>)
    ensures r.Ok? ==> (r.value - 1) * 1000 < tokens * pricePer1000 <= r.value * 1000
    ensures r.Err? <==> tokens * pricePer1000 > U64_MAX * 1000
  {
    MulNonneg(tokens, pricePer1000);
    var numerator := tokens * pricePer1000 + 999;
    if numerator / 1000 > U64_MAX then Err(AmountOverflow) else Ok(numerator / 1000)
  }

  function CheckedAdd(a: u64, b: u64): Result<u64, ChannelError> {
    if a + b > U64_MAX then Err(AmountOverflow) else Ok(a + b)
  }

  function QuotedPayment(t: ChannelTerms, inputTokens: u64, outputTokens: u64): Result<u64, ChannelError> {
    if inputTokens > t.maxInputTokens then Err(InputTokens)
    else if outputTokens > t.maxOutputTokens then Err(OutputTokens)
    else
      var input :- RoundedTokenCharge(inputTokens, t.inputPricePer1000);
      var output :- RoundedTokenCharge(outputTokens, t.outputPricePer1000);
      var withInput :- CheckedAdd(t.basePrice, input);
      CheckedAdd(withInput, output)
  }

  function StateFor(c: ChannelCrypto, t: ChannelTerms, sequence: u64, inputTokens: u64, outputTokens: u64,
                    previousReceipt: Digest): (r: Result<PaymentState, ChannelError>)
    ensures r.Ok? ==>
              r.value.providerPayment + r.value.customerRefund + r.value.closeFeeBurn == t.deposit
  {
    var payment :- QuotedPayment(t, inputTokens, outputTokens);
    var used :- CheckedAdd(payment, t.closeFeeBurn);
    if used > t.deposit then Err(DepositExceeded)
    else
      var id :- ChannelId(c, t);
      Ok(PaymentState(id, sequence, inputTokens, outputTokens, payment, t.deposit - used,
                      t.closeFeeBurn, previousReceipt))
  }

  function InitialState(c: ChannelCrypto, t: ChannelTerms, inputTokens: u64, authorized: u64)
    : Result<PaymentState, ChannelError>
  {
    if authorized == 0 || authorized > t.outputChunkTokens then Err(OutputTokens)
    else StateFor(c, t, 0, inputTokens, authorized, ZERO_DIGEST)
  }

  function VerifySignature(c: ChannelCrypto, key: Digest, digest: Digest, signature: seq<byte>): Check {
    if !c.validKey(key) || !c.wellFormedSignature(signature) then Err(MalformedSignature)
    else if !c.verifies(key, digest, signature) then Err(InvalidSignature)
    else Ok(())
  }

  function VerifyReceipt(c: ChannelCrypto, t: ChannelTerms, prior: SignedPaymentState, signed: SignedInferenceReceipt)
    : Check
  {
    var id :- ChannelId(c, t);
    var receipt := signed.receipt;
    if receipt.channelId != id || receipt.stateSequence != prior.state.sequence then Err(ReceiptLink)
    else if receipt.inputTokens != prior.state.inputTokens
            || receipt.deliveredOutputTokens > prior.state.authorizedOutputTokens
    then Err(ReceiptDelivery)
    else VerifySignature(c, t.providerKey, c.receiptDigest(receipt), signed.providerSignature)
  }

  /** The part of verify_state that depends on whether there is a predecessor. */
  function VerifyLink(c: ChannelCrypto, t: ChannelTerms, previous: Option<SignedPaymentState>, state: PaymentState,
                      receipt: Option<SignedInferenceReceipt>): Check
  {
    match previous
    case None =>
      if state.sequence != 0 || state.previousReceipt != ZERO_DIGEST then Err(Sequence)
      else if state.authorizedOutputTokens == 0 || state.authorizedOutputTokens > t.outputChunkTokens
      then Err(OutputTokens)
      else Ok(())
    case Some(prior) =>
      if state.sequence != prior.state.sequence + 1 then Err(Sequence)
      else if state.inputTokens != prior.state.inputTokens then Err(InputTokens)
      else if state.authorizedOutputTokens < prior.state.authorizedOutputTokens
              || state.authorizedOutputTokens - prior.state.authorizedOutputTokens > t.outputChunkTokens
      then Err(OutputTokens)
      else if receipt.None? then Err(ReceiptLink)
      else
        var _ :- VerifyReceipt(c, t, prior, receipt.value);
        if state.previousReceipt != c.signedReceiptDigest(receipt.value) then Err(ReceiptLink)
        else Ok(())
  }

  /** The allocation and customer-signature check shared by verify_state and verify_close_state. */
  function VerifyAllocation(c: ChannelCrypto, t: ChannelTerms, signed: SignedPaymentState): Check {
    var s := signed.state;
    var expected :- StateFor(c, t, s.sequence, s.inputTokens, s.authorizedOutputTokens, s.previousReceipt);
    if s != expected then Err(Payment)
    else VerifySignature(c, t.customerKey, c.stateDigest(s), signed.customerSignature)
  }

  function VerifyState(c: ChannelCrypto, t: ChannelTerms, previous: Option<SignedPaymentState>,
                       signed: SignedPaymentState, receipt: Option<SignedInferenceReceipt>): Check
  {
    var id :- ChannelId(c, t);
    if signed.state.channelId != id then Err(ChannelIdMismatch)
    else
      var _ :- VerifyLink(c, t, previous, signed.state, receipt);
      VerifyAllocation(c, t, signed)
  }

  function NextState(c: ChannelCrypto, t: ChannelTerms, previous: SignedPaymentState, receipt: SignedInferenceReceipt,
                     authorized: u64): Result<PaymentState, ChannelError>
  {
    var _ :- VerifyState(c, t, None, previous, None);
    var _ :- VerifyReceipt(c, t, previous, receipt);
    if authorized < previous.state.authorizedOutputTokens
       || authorized - previous.state.authorizedOutputTokens > t.outputChunkTokens
       || previous.state.sequence == U64_MAX
    then Err(OutputTokens)
    else StateFor(c, t, previous.state.sequence + 1, previous.state.inputTokens, authorized,
                  c.signedReceiptDigest(receipt))
  }

  function RefundAt(c: ChannelCrypto, t: ChannelTerms, height: u64): (r: Result<Refund, ChannelError>)
    ensures r.Ok? ==> r.value.customerAmount + r.value.feeBurn == t.deposit && height >= t.refundHeight
  {
    if height < t.refundHeight then Err(RefundLocked)
    else
      var id :- ChannelId(c, t);
      Ok(Refund(id, t.refundHeight, t.deposit - t.closeFeeBurn, t.closeFeeBurn))
  }

  function VerifyCloseState(c: ChannelCrypto, t: ChannelTerms, signed: SignedPaymentState): Check {
    var id :- ChannelId(c, t);
    if signed.state.channelId != id then Err(ChannelIdMismatch) else VerifyAllocation(c, t, signed)
  }

  function VerifySettlement(c: ChannelCrypto, t: ChannelTerms, s: Settlement): Check {
    var first := VerifyState(c, t, None, s.state, None);
    var _ :- (if first.Ok? || s.state.state.sequence == 0 then first else VerifyCloseState(c, t, s.state));
    VerifySignature(c, t.providerKey, c.settlementDigest(s.state), s.providerSignature)
  }

  // ----- single-state facts -----------------------------------------------------------------

  lemma ChargeMonotone(x: u64, y: u64, price: u64)
    requires x <= y && RoundedTokenCharge(y, price).Ok?
    ensures RoundedTokenCharge(x, price).Ok?
    ensures RoundedTokenCharge(x, price).value <= RoundedTokenCharge(y, price).value
  {
    MulMono(x, y, price);
    DivMonotone(x * price + 999, y * price + 999, 1000);
  }

  lemma PaymentMonotone(t: ChannelTerms, input: u64, x: u64, y: u64)
    requires x <= y && QuotedPayment(t, input, y).Ok?
    ensures QuotedPayment(t, input, x).Ok?
    ensures QuotedPayment(t, input, x).value <= QuotedPayment(t, input, y).value
  {
    ChargeMonotone(x, y, t.outputPricePer1000);
  }

  /** An accepted state splits the deposit exactly and is priced by its own token counts. */
  lemma AllocationExact(c: ChannelCrypto, t: ChannelTerms, signed: SignedPaymentState)
    requires VerifyAllocation(c, t, signed).Ok?
    ensures signed.state.providerPayment + signed.state.customerRefund + signed.state.closeFeeBurn == t.deposit
    ensures signed.state.closeFeeBurn == t.closeFeeBurn
    ensures QuotedPayment(t, signed.state.inputTokens, signed.state.authorizedOutputTokens)
         == Ok(signed.state.providerPayment)
  {
  }

  /** A settlement consensus accepts splits the deposit exactly, whichever branch verified it. */
  lemma SettlementSplitsDeposit(c: ChannelCrypto, t: ChannelTerms, s: Settlement)
    requires VerifySettlement(c, t, s).Ok?
    ensures var st := s.state.state;
            st.providerPayment + st.customerRefund + st.closeFeeBurn == t.deposit
  {
    AllocationExact(c, t, s.state);
  }

  /** The documented price: base, input and output, each token charge rounded up to whole units. */
  lemma PriceFormula(t: ChannelTerms, input: u64, output: u64) returns (forInput: nat, forOutput: nat)
    ensures 1000 * (forInput - 1) < input * t.inputPricePer1000 <= 1000 * forInput
    ensures 1000 * (forOutput - 1) < output * t.outputPricePer1000 <= 1000 * forOutput
    ensures var price := QuotedPayment(t, input, output);
            && (price.Ok? <==> && input <= t.maxInputTokens && output <= t.maxOutputTokens
                               && t.basePrice + forInput + forOutput <= U64_MAX)
            && (price.Ok? ==> price.value == t.basePrice + forInput + forOutput)
  {
    MulNonneg(input, t.inputPricePer1000);
    MulNonneg(output, t.outputPricePer1000);
    forInput := (input * t.inputPricePer1000 + 999) / 1000;
    forOutput := (output * t.outputPricePer1000 + 999) / 1000;
  }

  ghost predicate Signed(c: ChannelCrypto, key: Digest, digest: Digest, signature: seq<byte>) {
    c.validKey(key) && c.wellFormedSignature(signature) && c.verifies(key, digest, signature)
  }

  /** Terms pass exactly when they hold positive amounts, a burn below the deposit, and two different usable keys. */
  lemma TermsExactly(c: ChannelCrypto, t: ChannelTerms)
    ensures Validate(c, t).Ok? <==>
            && 0 <= t.closeFeeBurn < t.deposit && t.outputChunkTokens > 0
            && t.maxInputTokens > 0 && t.maxOutputTokens > 0
            && t.customerKey != t.providerKey && c.validKey(t.customerKey) && c.validKey(t.providerKey)
  {
  }

  /** A state passes exactly when it prices its own counts, splits the deposit, and the customer signed it. */
  lemma AllocationExactly(c: ChannelCrypto, t: ChannelTerms, signed: SignedPaymentState)
    ensures var s := signed.state;
            VerifyAllocation(c, t, signed).Ok? <==>
            && Validate(c, t).Ok? && s.channelId == c.channelHash(t)
            && QuotedPayment(t, s.inputTokens, s.authorizedOutputTokens) == Ok(s.providerPayment)
            && s.closeFeeBurn == t.closeFeeBurn
            && s.providerPayment + s.customerRefund + s.closeFeeBurn == t.deposit
            && Signed(c, t.customerKey, c.stateDigest(s), signed.customerSignature)
  {
    hide QuotedPayment, Validate;
  }

  /** A receipt passes exactly when it is for this state, within its authorization, and the provider signed it. */
  lemma ReceiptExactly(c: ChannelCrypto, t: ChannelTerms, prior: SignedPaymentState, receipt: SignedInferenceReceipt)
    ensures var r := receipt.receipt;
            VerifyReceipt(c, t, prior, receipt).Ok? <==>
            && Validate(c, t).Ok? && r.channelId == c.channelHash(t)
            && r.stateSequence == prior.state.sequence && r.inputTokens == prior.state.inputTokens
            && r.deliveredOutputTokens <= prior.state.authorizedOutputTokens
            && Signed(c, t.providerKey, c.receiptDigest(r), receipt.providerSignature)
  {
    hide Validate;
  }

  /** A step is accepted exactly when it follows its predecessor within one chunk and names a verified receipt. */
  lemma StepExactly(c: ChannelCrypto, t: ChannelTerms, prior: SignedPaymentState, next: SignedPaymentState,
                    receipt: SignedInferenceReceipt)
    ensures VerifyState(c, t, Some(prior), next, Some(receipt)).Ok? <==>
            && next.state.sequence == prior.state.sequence + 1
            && next.state.inputTokens == prior.state.inputTokens
            && prior.state.authorizedOutputTokens <= next.state.authorizedOutputTokens
               <= prior.state.authorizedOutputTokens + t.outputChunkTokens
            && VerifyReceipt(c, t, prior, receipt).Ok?
            && next.state.previousReceipt == c.signedReceiptDigest(receipt)
            && VerifyAllocation(c, t, next).Ok?
    ensures VerifyState(c, t, Some(prior), next, None).Err?
  {
    hide VerifyReceipt, VerifyAllocation, Validate;
    AllocationExactly(c, t, next);
  }

  /** A first state is accepted exactly when it is numbered zero, unlinked, and authorizes up to one chunk. */
  lemma FirstExactly(c: ChannelCrypto, t: ChannelTerms, first: SignedPaymentState)
    ensures VerifyState(c, t, None, first, None).Ok? <==>
            && first.state.sequence == 0 && first.state.previousReceipt == ZERO_DIGEST
            && 0 < first.state.authorizedOutputTokens <= t.outputChunkTokens
            && VerifyAllocation(c, t, first).Ok?
  {
    hide VerifyAllocation, Validate;
    AllocationExactly(c, t, first);
  }

  /**
   * A settlement passes exactly when the state's allocation does and the provider signed it too; a state
   * numbered zero must also be a first state.
   */
  lemma SettlementExactly(c: ChannelCrypto, t: ChannelTerms, s: Settlement)
    ensures VerifySettlement(c, t, s).Ok? <==>
            && VerifyAllocation(c, t, s.state).Ok?
            && (s.state.state.sequence == 0 ==> VerifyState(c, t, None, s.state, None).Ok?)
            && Signed(c, t.providerKey, c.settlementDigest(s.state), s.providerSignature)
  {
    hide VerifyAllocation, VerifyLink;
    AllocationExactly(c, t, s.state);
    FirstExactly(c, t, s.state);
  }

  // ----- runs -------------------------------------------------------------------------------

  /** A chain of states, each accepted by verify_state from its predecessor and a receipt. */
  ghost predicate ValidRun(c: ChannelCrypto, t: ChannelTerms, run: seq<SignedPaymentState>,
                           receipts: seq<SignedInferenceReceipt>)
  {
    && |run| == |receipts| + 1
    && VerifyState(c, t, None, run[0], None).Ok?
    && forall i :: 0 < i < |run| ==> StepAccepted(c, t, run[i - 1], run[i], receipts[i - 1])
  }

  ghost predicate StepAccepted(c: ChannelCrypto, t: ChannelTerms, prior: SignedPaymentState, next: SignedPaymentState,
                               receipt: SignedInferenceReceipt)
  {
    VerifyState(c, t, Some(prior), next, Some(receipt)).Ok?
  }

  /** What one accepted step preserves and bounds. */
  lemma StepFacts(c: ChannelCrypto, t: ChannelTerms, prior: SignedPaymentState, next: SignedPaymentState,
                  receipt: SignedInferenceReceipt)
    requires StepAccepted(c, t, prior, next, receipt)
    ensures next.state.sequence == prior.state.sequence + 1
    ensures next.state.inputTokens == prior.state.inputTokens
    ensures prior.state.authorizedOutputTokens <= next.state.authorizedOutputTokens
            <= prior.state.authorizedOutputTokens + t.outputChunkTokens
    ensures VerifyAllocation(c, t, next).Ok?
  {
    hide VerifyAllocation, VerifyReceipt, ChannelId;
  }

  lemma FirstFacts(c: ChannelCrypto, t: ChannelTerms, first: SignedPaymentState)
    requires VerifyState(c, t, None, first, None).Ok?
    ensures first.state.sequence == 0 && 0 < first.state.authorizedOutputTokens <= t.outputChunkTokens
    ensures VerifyAllocation(c, t, first).Ok?
  {
    hide VerifyAllocation, ChannelId;
  }

  lemma {:induction false} RunState(c: ChannelCrypto, t: ChannelTerms, run: seq<SignedPaymentState>,
                                    receipts: seq<SignedInferenceReceipt>, i: nat)
    requires ValidRun(c, t, run, receipts) && i < |run|
    ensures run[i].state.sequence == i
    ensures run[i].state.inputTokens == run[0].state.inputTokens
    ensures 0 < run[i].state.authorizedOutputTokens <= (i + 1) * t.outputChunkTokens
    ensures VerifyAllocation(c, t, run[i]).Ok?
  {
    hide VerifyState, VerifyAllocation, StepAccepted;
    if i == 0 {
      FirstFacts(c, t, run[0]);
    } else {
      RunState(c, t, run, receipts, i - 1);
      assert StepAccepted(c, t, run[i - 1], run[i], receipts[i - 1]);
      StepFacts(c, t, run[i - 1], run[i], receipts[i - 1]);
      MulDistrib(i, 1, t.outputChunkTokens);
    }
  }

  /** Of two accepted states with the same input, the one authorizing more pays more and refunds less. */
  lemma AllocationMonotone(c: ChannelCrypto, t: ChannelTerms, x: SignedPaymentState, y: SignedPaymentState)
    requires VerifyAllocation(c, t, x).Ok? && VerifyAllocation(c, t, y).Ok?
    requires x.state.inputTokens == y.state.inputTokens
    requires x.state.authorizedOutputTokens <= y.state.authorizedOutputTokens
    ensures x.state.providerPayment <= y.state.providerPayment
    ensures x.state.customerRefund >= y.state.customerRefund
  {
    AllocationExact(c, t, x);
    AllocationExact(c, t, y);
    hide VerifyAllocation, QuotedPayment;
    PaymentMonotone(t, y.state.inputTokens, x.state.authorizedOutputTokens, y.state.authorizedOutputTokens);
  }

  lemma {:induction false} RunMonotone(c: ChannelCrypto, t: ChannelTerms, run: seq<SignedPaymentState>,
                                       receipts: seq<SignedInferenceReceipt>, i: nat, j: nat)
    requires ValidRun(c, t, run, receipts) && i <= j < |run|
    ensures run[i].state.authorizedOutputTokens <= run[j].state.authorizedOutputTokens
    ensures run[i].state.providerPayment <= run[j].state.providerPayment
    ensures run[i].state.customerRefund >= run[j].state.customerRefund
    decreases j - i
  {
    hide VerifyState, VerifyAllocation, StepAccepted;
    if i < j {
      RunMonotone(c, t, run, receipts, i, j - 1);
      RunState(c, t, run, receipts, j - 1);
      RunState(c, t, run, receipts, j);
      assert StepAccepted(c, t, run[j - 1], run[j], receipts[j - 1]);
      StepFacts(c, t, run[j - 1], run[j], receipts[j - 1]);
      AllocationMonotone(c, t, run[j - 1], run[j]);
    }
  }

  /**
   * Along every run the deposit is conserved, the provider's share never falls, the refund never
   * rises, and output authorization grows by at most one chunk per step.
   */
  lemma RunConservesDeposit(c: ChannelCrypto, t: ChannelTerms, run: seq<SignedPaymentState>,
                            receipts: seq<SignedInferenceReceipt>, i: nat, j: nat)
    requires ValidRun(c, t, run, receipts) && i <= j < |run|
    ensures var s := run[j].state;
            && s.providerPayment + s.customerRefund + s.closeFeeBurn == t.deposit
            && s.authorizedOutputTokens <= (j + 1) * t.outputChunkTokens
            && run[i].state.providerPayment <= s.providerPayment
            && run[i].state.customerRefund >= s.customerRefund
  {
    hide VerifyState, VerifyAllocation, StepAccepted;
    RunState(c, t, run, receipts, j);
    AllocationExact(c, t, run[j]);
    RunMonotone(c, t, run, receipts, i, j);
  }

  /** Every state of a run can be closed on chain once the provider signs it. */
  lemma RunStateSettles(c: ChannelCrypto, t: ChannelTerms, run: seq<SignedPaymentState>,
                        receipts: seq<SignedInferenceReceipt>, i: nat, providerSignature: seq<byte>)
    requires ValidRun(c, t, run, receipts) && i < |run|
    requires VerifySignature(c, t.providerKey, c.settlementDigest(run[i]), providerSignature).Ok?
    ensures VerifySettlement(c, t, Settlement(run[i], providerSignature)).Ok?
  {
    RunState(c, t, run, receipts, i);
    if i > 0 {
      assert StepAccepted(c, t, run[i - 1], run[i], receipts[i - 1]);
    }
  }

  // ----- what the constructors can build ----------------------------------------------------

  /** A signed initial state starts a run. */
  lemma InitialStateStartsRun(c: ChannelCrypto, t: ChannelTerms, input: u64, authorized: u64, signature: seq<byte>)
    requires InitialState(c, t, input, authorized).Ok?
    requires VerifySignature(c, t.customerKey,
                             c.stateDigest(InitialState(c, t, input, authorized).value), signature).Ok?
    ensures ValidRun(c, t, [SignedPaymentState(InitialState(c, t, input, authorized).value, signature)], [])
  {
  }

  /**
   * next_state re-checks its predecessor as a first state, so it succeeds only on the first state of
   * a run; there its signed result is an accepted second state.
   */
  lemma NextStateOnlyFromFirst(c: ChannelCrypto, t: ChannelTerms, run: seq<SignedPaymentState>,
                               receipts: seq<SignedInferenceReceipt>, i: nat, receipt: SignedInferenceReceipt,
                               authorized: u64)
    requires ValidRun(c, t, run, receipts) && i < |run|
    ensures i > 0 ==> NextState(c, t, run[i], receipt, authorized) == Err(Sequence)
    ensures i == 0 ==>
              forall signature ::
                var next := NextState(c, t, run[0], receipt, authorized);
                next.Ok? && VerifySignature(c, t.customerKey, c.stateDigest(next.value), signature).Ok?
                ==> StepAccepted(c, t, run[0], SignedPaymentState(next.value, signature), receipt)
  {
    RunState(c, t, run, receipts, i);
    if i > 0 {
      assert StepAccepted(c, t, run[i - 1], run[i], receipts[i - 1]);
    }
  }

  /**
   * Of the accepted continuations of a run, next_state builds exactly those of its first state, and builds
   * all of them.
   */
  lemma NextStateBuilds(c: ChannelCrypto, t: ChannelTerms, run: seq<SignedPaymentState>,
                        receipts: seq<SignedInferenceReceipt>, i: nat, next: SignedPaymentState,
                        receipt: SignedInferenceReceipt)
    requires ValidRun(c, t, run, receipts) && i < |run| && StepAccepted(c, t, run[i], next, receipt)
    ensures NextState(c, t, run[i], receipt, next.state.authorizedOutputTokens) == Ok(next.state) <==> i == 0
  {
    RunState(c, t, run, receipts, i);
    if i > 0 { NextStateOnlyFromFirst(c, t, run, receipts, i, receipt, next.state.authorizedOutputTokens); }
  }

  // ----- how far authorization can run ahead of delivery --------------------------------------

  /** An authorization within the token limit and the deposit. */
  predicate Affordable(t: ChannelTerms, inputTokens: u64, outputTokens: int) {
    && 0 <= outputTokens <= t.maxOutputTokens
    && QuotedPayment(t, inputTokens, outputTokens).Ok?
    && QuotedPayment(t, inputTokens, outputTokens).value + t.closeFeeBurn <= t.deposit
  }

  /** The holder of a key can sign anything. */
  ghost predicate CanSign(c: ChannelCrypto, key: Digest) { forall digest :: Signable(c, key, digest) }

  ghost predicate Signable(c: ChannelCrypto, key: Digest, digest: Digest) {
    exists signature :: VerifySignature(c, key, digest, signature).Ok?
  }

  /** The affordable authorizations are exactly those a state can be built for. */
  lemma AffordableBuilds(c: ChannelCrypto, t: ChannelTerms, sequence: u64, input: u64, output: u64, link: Digest)
    requires Validate(c, t).Ok?
    ensures StateFor(c, t, sequence, input, output, link).Ok? <==> Affordable(t, input, output)
  {
    hide RoundedTokenCharge, Validate;
  }

  lemma AffordableBelow(t: ChannelTerms, input: u64, x: nat, y: nat)
    requires x <= y && Affordable(t, input, y)
    ensures Affordable(t, input, x)
  {
    hide QuotedPayment;
    PaymentMonotone(t, input, x, y);
    assert x <= t.maxOutputTokens;
  }

  /** A signed state with an affordable authorization passes the allocation check. */
  lemma SignedAllocation(c: ChannelCrypto, t: ChannelTerms, sequence: u64, input: u64, output: u64, link: Digest)
    returns (signed: SignedPaymentState)
    requires Validate(c, t).Ok? && Affordable(t, input, output) && CanSign(c, t.customerKey)
    ensures VerifyAllocation(c, t, signed).Ok?
    ensures StateFor(c, t, sequence, input, output, link) == Ok(signed.state)
    ensures signed.state.channelId == c.channelHash(t) && signed.state.sequence == sequence
    ensures signed.state.inputTokens == input && signed.state.authorizedOutputTokens == output
    ensures signed.state.previousReceipt == link
  {
    hide QuotedPayment, Validate, Affordable, VerifySignature;
    AffordableBuilds(c, t, sequence, input, output, link);
    var state := StateFor(c, t, sequence, input, output, link).value;
    assert Signable(c, t.customerKey, c.stateDigest(state));
    var signature :| VerifySignature(c, t.customerKey, c.stateDigest(state), signature).Ok?;
    signed := SignedPaymentState(state, signature);
  }

  lemma AllocationAffordable(c: ChannelCrypto, t: ChannelTerms, signed: SignedPaymentState)
    requires VerifyAllocation(c, t, signed).Ok?
    ensures Validate(c, t).Ok? && signed.state.channelId == c.channelHash(t)
    ensures Affordable(t, signed.state.inputTokens, signed.state.authorizedOutputTokens)
  {
    hide QuotedPayment, VerifySignature, Validate;
    AllocationExact(c, t, signed);
    AffordableBuilds(c, t, signed.state.sequence, signed.state.inputTokens, signed.state.authorizedOutputTokens,
                     signed.state.previousReceipt);
  }

  /** A step to any affordable authorization within one chunk of the previous one can be signed and is accepted. */
  lemma StepExists(c: ChannelCrypto, t: ChannelTerms, prior: SignedPaymentState, receipt: SignedInferenceReceipt,
                   authorized: nat) returns (next: SignedPaymentState)
    requires VerifyAllocation(c, t, prior).Ok? && VerifyReceipt(c, t, prior, receipt).Ok?
    requires CanSign(c, t.customerKey) && prior.state.sequence < U64_MAX
    requires Affordable(t, prior.state.inputTokens, authorized)
    requires prior.state.authorizedOutputTokens <= authorized <= prior.state.authorizedOutputTokens
            + t.outputChunkTokens
    ensures StepAccepted(c, t, prior, next, receipt) && next.state.authorizedOutputTokens == authorized
    ensures next.state.inputTokens == prior.state.inputTokens && next.state.sequence == prior.state.sequence + 1
    ensures VerifyAllocation(c, t, next).Ok?
  {
    hide Affordable, VerifyAllocation, VerifyReceipt, CanSign, Validate;
    AllocationAffordable(c, t, prior);
    assert authorized <= t.maxOutputTokens by { AffordableLimit(t, prior.state.inputTokens, authorized); }
    next := SignedAllocation(c, t, prior.state.sequence + 1, prior.state.inputTokens, authorized,
                             c.signedReceiptDigest(receipt));
  }

  lemma AffordableLimit(t: ChannelTerms, input: u64, output: int)
    requires Affordable(t, input, output)
    ensures 0 <= output <= t.maxOutputTokens
  {
    hide QuotedPayment;
  }

  /** Every accepted continuation is at most one chunk ahead of what the receipt reports delivered. */
  ghost predicate ContinuationsWithinChunk(c: ChannelCrypto, t: ChannelTerms, prior: SignedPaymentState,
                                           receipt: SignedInferenceReceipt)
  {
    forall next :: StepAccepted(c, t, prior, next, receipt) ==>
      next.state.authorizedOutputTokens <= receipt.receipt.deliveredOutputTokens + t.outputChunkTokens
  }

  /**
   * The documented bound, one chunk ahead of the latest receipt, holds of every continuation exactly when
   * the receipt reports everything authorized as delivered, or the token limit or the deposit already rules
   * out one token more than that chunk, or there is no next sequence number.
   */
  lemma OneChunkAhead(c: ChannelCrypto, t: ChannelTerms, prior: SignedPaymentState, receipt: SignedInferenceReceipt)
    requires VerifyAllocation(c, t, prior).Ok? && VerifyReceipt(c, t, prior, receipt).Ok?
    requires CanSign(c, t.customerKey)
    ensures var delivered := receipt.receipt.deliveredOutputTokens;
            ContinuationsWithinChunk(c, t, prior, receipt) <==>
            || delivered == prior.state.authorizedOutputTokens
            || !Affordable(t, prior.state.inputTokens, delivered + t.outputChunkTokens + 1)
            || prior.state.sequence == U64_MAX
  {
    hide Affordable, VerifyAllocation, VerifyReceipt, CanSign, StepAccepted;
    var delivered, before := receipt.receipt.deliveredOutputTokens, prior.state.authorizedOutputTokens;
    var beyond := delivered + t.outputChunkTokens + 1;
    ReceiptBound(c, t, prior, receipt);
    AllocationAffordable(c, t, prior);
    forall next | StepAccepted(c, t, prior, next, receipt)
      ensures prior.state.sequence < U64_MAX
      ensures next.state.authorizedOutputTokens <= before + t.outputChunkTokens
      ensures next.state.authorizedOutputTokens >= beyond ==> Affordable(t, prior.state.inputTokens, beyond)
    {
      StepFacts(c, t, prior, next, receipt);
      AllocationAffordable(c, t, next);
      if next.state.authorizedOutputTokens >= beyond {
        AffordableBelow(t, prior.state.inputTokens, beyond, next.state.authorizedOutputTokens);
      }
    }
    if delivered < before && Affordable(t, prior.state.inputTokens, beyond) && prior.state.sequence < U64_MAX {
      var next := StepExists(c, t, prior, receipt, if beyond >= before then beyond else before);
    }
  }

  lemma ReceiptBound(c: ChannelCrypto, t: ChannelTerms, prior: SignedPaymentState, receipt: SignedInferenceReceipt)
    requires VerifyReceipt(c, t, prior, receipt).Ok?
    ensures receipt.receipt.deliveredOutputTokens <= prior.state.authorizedOutputTokens
  {
    hide ChannelId, VerifySignature;
  }

  /** A verified receipt for a state that reports nothing delivered. */
  lemma EmptyReceipt(c: ChannelCrypto, t: ChannelTerms, prior: SignedPaymentState)
    returns (receipt: SignedInferenceReceipt)
    requires Validate(c, t).Ok? && CanSign(c, t.providerKey)
    ensures VerifyReceipt(c, t, prior, receipt).Ok? && receipt.receipt.deliveredOutputTokens == 0
  {
    hide Validate, VerifySignature;
    var r := InferenceReceipt(c.channelHash(t), prior.state.sequence, prior.state.inputTokens, 0, ZERO_DIGEST, false);
    assert Signable(c, t.providerKey, c.receiptDigest(r));
    var signature :| VerifySignature(c, t.providerKey, c.receiptDigest(r), signature).Ok?;
    receipt := SignedInferenceReceipt(r, signature);
  }

  /** Runs grow by accepted steps. */
  lemma RunGrows(c: ChannelCrypto, t: ChannelTerms, run: seq<SignedPaymentState>, receipts: seq<SignedInferenceReceipt>,
                 next: SignedPaymentState, receipt: SignedInferenceReceipt)
    requires ValidRun(c, t, run, receipts) && StepAccepted(c, t, run[|run| - 1], next, receipt)
    ensures ValidRun(c, t, run + [next], receipts + [receipt])
  {
    hide VerifyState, StepAccepted;
    var run', receipts' := run + [next], receipts + [receipt];
    forall i | 0 < i < |run'| ensures StepAccepted(c, t, run'[i - 1], run'[i], receipts'[i - 1]) {
      if i < |run| { assert StepAccepted(c, t, run[i - 1], run[i], receipts[i - 1]); }
    }
  }

  /**
   * Whenever the limits and the deposit allow n + 1 chunks, some run authorizes all of them although every
   * receipt in it reports nothing delivered: the bound of one chunk per state is reached, and the exposure
   * to non-delivery is not one chunk but the whole run.
   */
  lemma {:induction false} UndeliveredRun(c: ChannelCrypto, t: ChannelTerms, input: u64, n: nat)
    returns (run: seq<SignedPaymentState>, receipts: seq<SignedInferenceReceipt>)
    requires Validate(c, t).Ok? && CanSign(c, t.customerKey) && CanSign(c, t.providerKey) && n <= U64_MAX
    requires Affordable(t, input, (n + 1) * t.outputChunkTokens)
    ensures ValidRun(c, t, run, receipts) && |run| == n + 1 && run[n].state.inputTokens == input
    ensures run[n].state.authorizedOutputTokens == (n + 1) * t.outputChunkTokens
    ensures forall i :: 0 <= i < n ==> receipts[i].receipt.deliveredOutputTokens == 0
    ensures exists signature :: VerifySettlement(c, t, Settlement(run[n], signature)).Ok?
    ensures QuotedPayment(t, input, (n + 1) * t.outputChunkTokens) == Ok(run[n].state.providerPayment)
  {
    hide Affordable, VerifyAllocation, VerifyReceipt, VerifyState, StepAccepted, Validate, VerifySettlement,
         QuotedPayment, VerifySignature;
    var chunk := t.outputChunkTokens;
    MulDistrib(n, 1, chunk);
    AffordableLimit(t, input, (n + 1) * chunk);
    if n == 0 {
      var first := FirstState(c, t, input);
      run, receipts := [first], [];
    } else {
      MulNonneg(n, chunk);
      AffordableBelow(t, input, n * chunk, (n + 1) * chunk);
      var earlier, earlierReceipts := UndeliveredRun(c, t, input, n - 1);
      var prior := earlier[n - 1];
      RunState(c, t, earlier, earlierReceipts, n - 1);
      var receipt := EmptyReceipt(c, t, prior);
      var next := StepExists(c, t, prior, receipt, (n + 1) * chunk);
      RunGrows(c, t, earlier, earlierReceipts, next, receipt);
      run, receipts := earlier + [next], earlierReceipts + [receipt];
    }
    RunState(c, t, run, receipts, n);
    AllocationExact(c, t, run[n]);
    assert Signable(c, t.providerKey, c.settlementDigest(run[n]));
    var signature :| VerifySignature(c, t.providerKey, c.settlementDigest(run[n]), signature).Ok?;
    RunStateSettles(c, t, run, receipts, n, signature);
  }

  lemma FirstState(c: ChannelCrypto, t: ChannelTerms, input: u64) returns (first: SignedPaymentState)
    requires Validate(c, t).Ok? && CanSign(c, t.customerKey) && Affordable(t, input, t.outputChunkTokens)
    ensures ValidRun(c, t, [first], [])
    ensures first.state.authorizedOutputTokens == t.outputChunkTokens && first.state.inputTokens == input
  {
    hide Affordable, VerifyAllocation, CanSign;
    first := SignedAllocation(c, t, 0, input, t.outputChunkTokens, ZERO_DIGEST);
  }

  /** Along every run on an input, each step is at most one chunk ahead of the receipt that links it. */
  ghost predicate RunsWithinChunk(c: ChannelCrypto, t: ChannelTerms, input: u64) {
    forall run: seq<SignedPaymentState>, receipts: seq<SignedInferenceReceipt>, i: int ::
      ValidRun(c, t, run, receipts) && run[0].state.inputTokens == input && 0 < i < |run| ==>
        StepWithinChunk(t, run[i], receipts[i - 1])
  }

  ghost predicate StepWithinChunk(t: ChannelTerms, next: SignedPaymentState, receipt: SignedInferenceReceipt) {
    next.state.authorizedOutputTokens <= receipt.receipt.deliveredOutputTokens + t.outputChunkTokens
  }

  /** The documented exposure bound holds of a channel exactly when its terms never allow more than one chunk. */
  lemma ExposureBound(c: ChannelCrypto, t: ChannelTerms, input: u64)
    requires Validate(c, t).Ok? && CanSign(c, t.customerKey) && CanSign(c, t.providerKey)
    ensures RunsWithinChunk(c, t, input) <==> !Affordable(t, input, t.outputChunkTokens + 1)
  {
    hide Affordable, VerifyAllocation, VerifyReceipt, VerifyState, StepAccepted, Validate, CanSign;
    var chunk: int := t.outputChunkTokens;
    if Affordable(t, input, chunk + 1) {
      AffordableBelow(t, input, chunk, chunk + 1);
      assert 1 * chunk == chunk;
      var first := FirstState(c, t, input);
      RunState(c, t, [first], [], 0);
      var receipt := EmptyReceipt(c, t, first);
      var next := StepExists(c, t, first, receipt, chunk + 1);
      RunGrows(c, t, [first], [], next, receipt);
      var run, receipts := [first] + [next], [] + [receipt];
      assert ValidRun(c, t, run, receipts) && run[1] == next && receipts[0] == receipt;
      assert !StepWithinChunk(t, run[1], receipts[1 - 1]);
    } else {
      forall run: seq<SignedPaymentState>, receipts: seq<SignedInferenceReceipt>, i: int
        | ValidRun(c, t, run, receipts) && run[0].state.inputTokens == input && 0 < i < |run|
        ensures StepWithinChunk(t, run[i], receipts[i - 1])
      {
        RunState(c, t, run, receipts, i);
        AllocationAffordable(c, t, run[i]);
        if run[i].state.authorizedOutputTokens > chunk {
          AffordableBelow(t, input, chunk + 1, run[i].state.authorizedOutputTokens);
        }
      }
    }
  }

  /** Terms under which the bound fails, for any two keys whose holders can sign. */
  lemma ExposureBoundFails(c: ChannelCrypto, customer: Digest, provider: Digest)
    requires customer != provider && c.validKey(customer) && c.validKey(provider)
    requires CanSign(c, customer) && CanSign(c, provider)
    ensures var z := ZERO_DIGEST;
            var t := ChannelTerms(z, z, customer, provider, z, z, z, 1000, 1, 0, 0, 1000, 10, 100, 32, 0);
            Validate(c, t).Ok? && !RunsWithinChunk(c, t, 10)
  {
    hide RunsWithinChunk, CanSign;
    var z := ZERO_DIGEST;
    var t := ChannelTerms(z, z, customer, provider, z, z, z, 1000, 1, 0, 0, 1000, 10, 100, 32, 0);
    assert RoundedTokenCharge(10, 0) == Ok(0) && RoundedTokenCharge(33, 1000) == Ok(33);
    ExposureBound(c, t, 10);
  }

  /**
   * When next_state succeeds on a state of a run: on the first state, with a verified receipt, for an
   * affordable authorization within one chunk of the previous one.
   */
  lemma NextStateCondition(c: ChannelCrypto, t: ChannelTerms, run: seq<SignedPaymentState>,
                           receipts: seq<SignedInferenceReceipt>, i: nat, receipt: SignedInferenceReceipt,
                           authorized: u64)
    requires ValidRun(c, t, run, receipts) && i < |run|
    ensures var before := run[i].state.authorizedOutputTokens;
            NextState(c, t, run[i], receipt, authorized).Ok? <==>
            && i == 0
            && VerifyReceipt(c, t, run[i], receipt).Ok?
            && before <= authorized <= before + t.outputChunkTokens
            && Affordable(t, run[i].state.inputTokens, authorized)
  {
    hide Affordable, VerifyAllocation, VerifyReceipt, Validate, StateFor;
    RunState(c, t, run, receipts, i);
    AllocationAffordable(c, t, run[i]);
    if i > 0 {
      NextStateOnlyFromFirst(c, t, run, receipts, i, receipt, authorized);
    } else {
      AffordableBuilds(c, t, 1, run[0].state.inputTokens, authorized, c.signedReceiptDigest(receipt));
    }
  }

  /**
   * A channel that next_state cannot continue: its third state is accepted by verify_state, but next_state
   * refuses to build it from the second state and its receipt.
   */
  lemma NextStateStalls(c: ChannelCrypto, t: ChannelTerms, input: u64)
    returns (run: seq<SignedPaymentState>, receipts: seq<SignedInferenceReceipt>)
    requires Validate(c, t).Ok? && CanSign(c, t.customerKey) && CanSign(c, t.providerKey)
    requires Affordable(t, input, 3 * t.outputChunkTokens)
    ensures ValidRun(c, t, run, receipts) && |run| == 3
    ensures NextState(c, t, run[1], receipts[1], run[2].state.authorizedOutputTokens) == Err(Sequence)
  {
    hide Affordable, VerifyState, NextState, StepAccepted, CanSign;
    run, receipts := UndeliveredRun(c, t, input, 2);
    NextStateOnlyFromFirst(c, t, run, receipts, 1, receipts[1], run[2].state.authorizedOutputTokens);
  }
}
