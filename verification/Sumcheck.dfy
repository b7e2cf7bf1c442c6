/** The matrix-product sumcheck: prover, verifier, completeness and round-by-round soundness. */
module Sumcheck {
  import opened Prelude
  import opened Arith
  import opened Goldilocks
  import opened Tables
  import opened Multilinear

  const MAX_TOY_MATRIX_ELEMENTS: nat := 4096
  const PROTOCOL_VERSION: u32 := 1

  datatype SumcheckError =
    | InvalidDimensions | InvalidLength | ProductionDisabled | CommitmentMismatch | VersionMismatch
    | NonCanonicalField | RoundCount | RoundClaim | TerminalClaim | Opening

  /** A quadratic, by its values at 0, 1 and 2. */
  datatype Round = Round(at0: Felt, at1: Felt, at2: Felt)

  datatype RawRound = RawRound(at0: u64, at1: u64, at2: u64)

  datatype Proof = Proof(
    protocolVersion: u32,
    aCommitment: Digest,
    bCommitment: Digest,
    cCommitment: Digest,
    cEvaluation: u64,
    rounds: seq<RawRound>,
    aFinal: u64,
    bFinal: u64)

  // ----- transcript -----------------------------------------------------------------------------

  datatype Absorbed =
    | Number(n: nat) | Binding(bytes: seq<byte>) | Commitment(d: Digest) | Element(x: Felt) | Message(m: Round)

  datatype Item = Item(name: string, value: Absorbed)

  /** Everything absorbed so far, with the number of challenges drawn. */
  datatype Transcript = Transcript(items: seq<Item>, counter: nat)
  {
    function Absorb(name: string, value: Absorbed): Transcript {
      Transcript(items + [Item(name, value)], counter)
    }
  }

  /** Hashing as arbitrary functions: challenges of a transcript, and matrix commitments. */
  datatype Hashing = Hashing(
    oracle: (Transcript, string) -> Felt,
    commit: (string, nat, nat, seq<Felt>) -> Digest)

  function AfterChallenge(t: Transcript, x: Felt): Transcript {
    Transcript(t.items + [Item("derived-challenge", Element(x))], t.counter + 1)
  }

  datatype Drawn = Drawn(point: seq<Felt>, transcript: Transcript)

  function ChallengeVector(h: Hashing, t: Transcript, name: string, index: nat, count: nat): (d: Drawn)
    requires index <= count
    ensures |d.point| == count - index
    decreases count - index
  {
    if index == count then Drawn([], t)
    else
      var absorbed := t.Absorb("point-index", Number(index));
      var x := h.oracle(absorbed, name);
      var rest := ChallengeVector(h, AfterChallenge(absorbed, x), name, index + 1, count);
      Drawn([x] + rest.point, rest.transcript)
  }

  // ----- shapes ---------------------------------------------------------------------------------

  datatype Statement = Statement(
    binding: seq<byte>, a: seq<i64>, b: seq<i64>, c: seq<i64>, rows: nat, inner: nat, cols: nat)

  function ValidateShape(s: Statement): Result<(), SumcheckError> {
    if !IsPowerOfTwo(s.rows) || !IsPowerOfTwo(s.inner) || !IsPowerOfTwo(s.cols) then Err(InvalidDimensions)
    else if |s.a| != s.rows * s.inner || |s.b| != s.inner * s.cols || |s.c| != s.rows * s.cols
    then Err(InvalidLength)
    else if |s.a| > MAX_TOY_MATRIX_ELEMENTS || |s.b| > MAX_TOY_MATRIX_ELEMENTS || |s.c| > MAX_TOY_MATRIX_ELEMENTS
    then Err(ProductionDisabled)
    else Ok(())
  }

  function FieldValues(values: seq<i64>): (f: seq<Felt>)
    ensures |f| == |values|
    ensures forall i :: 0 <= i < |f| ==> f[i] == FromSigned(values[i])
  {
    seq(|values|, i requires 0 <= i < |values| => FromSigned(values[i]))
  }

  // ----- round messages -------------------------------------------------------------------------

  /** The products of the first k neighbouring pairs, sampled at 0, 1 and 2. */
  function RoundSum(a: seq<Felt>, b: seq<Felt>, k: nat): Round {
    if k == 0 then Round(0, 0, 0)
    else
      var prior := RoundSum(a, b, k - 1);
      var a0, a1 := At(a, 2 * k - 2), At(a, 2 * k - 1);
      var b0, b1 := At(b, 2 * k - 2), At(b, 2 * k - 1);
      Round(Add(prior.at0, Mul(a0, b0)),
            Add(prior.at1, Mul(a1, b1)),
            Add(prior.at2, Mul(Sub(Double(a1), a0), Sub(Double(b1), b0))))
  }

  function QuadraticRound(a: seq<Felt>, b: seq<Felt>): Round { RoundSum(a, b, |a| / 2) }

  function EvaluateRound(m: Round, x: Felt): Felt { EvaluateQuadratic(m.at0, m.at1, m.at2, x) }

  function Canonical(m: RawRound): Result<Round, SumcheckError> {
    if m.at0 < P && m.at1 < P && m.at2 < P then Ok(Round(m.at0, m.at1, m.at2)) else Err(NonCanonicalField)
  }

  function Raw(m: Round): RawRound { RawRound(m.at0, m.at1, m.at2) }

  function AfterMessage(t: Transcript, index: nat, m: Round): Transcript {
    t.Absorb("round-index", Number(index)).Absorb("round-message", Message(m))
  }

  // ----- prover ---------------------------------------------------------------------------------

  datatype Proved = Proved(rounds: seq<RawRound>, point: seq<Felt>, a: seq<Felt>, b: seq<Felt>)

  /** The remaining n rounds over the current tables. */
  function ProveRounds(h: Hashing, t: Transcript, a: seq<Felt>, b: seq<Felt>, index: nat, n: nat): Proved
    decreases n
  {
    if n == 0 then Proved([], [], a, b)
    else
      var m := QuadraticRound(a, b);
      var sent := AfterMessage(t, index, m);
      var x := h.oracle(sent, "sumcheck-round");
      var rest := ProveRounds(h, AfterChallenge(sent, x), FoldField(a, x), FoldField(b, x), index + 1, n - 1);
      Proved([Raw(m)] + rest.rounds, [x] + rest.point, rest.a, rest.b)
  }

  /** The tables A-row-weighted and B-column-weighted at the random point, indexed by the inner dimension. */
  function APartial(a: seq<Felt>, rows: nat, inner: nat, rowWeights: seq<Felt>): (p: seq<Felt>)
    ensures |p| == inner
    ensures forall k :: 0 <= k < inner ==> p[k] == ColumnSum(a, inner, k, rowWeights, rows)
  {
    seq(inner, k requires 0 <= k < inner => ColumnSum(a, inner, k, rowWeights, rows))
  }

  function BPartial(b: seq<Felt>, inner: nat, cols: nat, colWeights: seq<Felt>): (p: seq<Felt>)
    ensures |p| == inner
    ensures forall k :: 0 <= k < inner ==> p[k] == RowSum(b, cols, k, colWeights, cols)
  {
    seq(inner, k requires 0 <= k < inner => RowSum(b, cols, k, colWeights, cols))
  }

  /** What prover and verifier derive alike before the first round. */
  datatype Opened = Opened(
    a: seq<Felt>, b: seq<Felt>, c: seq<Felt>,
    aCommitment: Digest, bCommitment: Digest, cCommitment: Digest,
    rowPoint: seq<Felt>, colPoint: seq<Felt>, transcript: Transcript)

  function Preamble(h: Hashing, s: Statement, aC: Digest, bC: Digest, cC: Digest): Transcript {
    Transcript([], 0).Absorb("protocol-version", Number(PROTOCOL_VERSION))
    .Absorb("public-binding", Binding(s.binding))
    .Absorb("rows", Number(s.rows)).Absorb("inner", Number(s.inner)).Absorb("cols", Number(s.cols))
    .Absorb("A-commitment", Commitment(aC)).Absorb("B-commitment", Commitment(bC))
    .Absorb("C-commitment", Commitment(cC))
  }

  function Open(h: Hashing, s: Statement): (o: Opened)
    requires ValidateShape(s).Ok?
    ensures Pow2(|o.rowPoint|) == s.rows && Pow2(|o.colPoint|) == s.cols
    ensures |o.a| == s.rows * s.inner && |o.b| == s.inner * s.cols && |o.c| == s.rows * s.cols
  {
    var a, b, c := FieldValues(s.a), FieldValues(s.b), FieldValues(s.c);
    var aC := h.commit("A", s.rows, s.inner, a);
    var bC := h.commit("B", s.inner, s.cols, b);
    var cC := h.commit("C", s.rows, s.cols, c);
    var row := ChallengeVector(h, Preamble(h, s, aC, bC, cC), "row-point", 0, Log2(s.rows));
    var col := ChallengeVector(h, row.transcript, "col-point", 0, Log2(s.cols));
    Opened(a, b, c, aC, bC, cC, row.point, col.point, col.transcript)
  }

  /** The claimed value: C's extension at the column variables followed by the row variables. */
  function COpening(s: Statement, o: Opened): Felt
    requires Pow2(|o.rowPoint|) == s.rows && Pow2(|o.colPoint|) == s.cols && |o.c| == s.rows * s.cols
  {
    SpanPow2(|o.rowPoint|, |o.colPoint|);
    SpanIsProduct(s.rows, s.cols);
    EvaluateMle(o.c, o.colPoint + o.rowPoint)
  }

  function HonestA(s: Statement, o: Opened): seq<Felt> { APartial(o.a, s.rows, s.inner, Weights(o.rowPoint)) }

  function HonestB(s: Statement, o: Opened): seq<Felt> { BPartial(o.b, s.inner, s.cols, Weights(o.colPoint)) }

  function Prove(h: Hashing, s: Statement): Result<Proof, SumcheckError> {
    var _ :- ValidateShape(s);
    var o := Open(h, s);
    var claim := COpening(s, o);
    var start := o.transcript.Absorb("C-evaluation", Element(claim));
    var p := ProveRounds(h, start, HonestA(s, o), HonestB(s, o), 0, Log2(s.inner));
    Ok(Proof(PROTOCOL_VERSION, o.aCommitment, o.bCommitment, o.cCommitment, claim, p.rounds, At(p.a, 0), At(p.b, 0)))
  }

  // ----- verifier -------------------------------------------------------------------------------

  datatype Checked = Checked(claim: Felt, point: seq<Felt>)

  function VerifyRounds(h: Hashing, t: Transcript, claim: Felt, rounds: seq<RawRound>, index: nat)
    : (r: Result<Checked, SumcheckError>)
    ensures r.Ok? ==> |r.value.point| == |rounds|
    decreases |rounds|
  {
    if rounds == [] then Ok(Checked(claim, []))
    else
      var m :- Canonical(rounds[0]);
      if Add(m.at0, m.at1) != claim then Err(RoundClaim)
      else
        var sent := AfterMessage(t, index, m);
        var x := h.oracle(sent, "sumcheck-round");
        var rest :- VerifyRounds(h, AfterChallenge(sent, x), EvaluateRound(m, x), rounds[1..], index + 1);
        Ok(Checked(rest.claim, [x] + rest.point))
  }

  /** The terminal checks: the product claim, then both openings against the verifier's own tables. */
  function VerifyTerminal(s: Statement, o: Opened, proof: Proof, done: Checked): Result<(), SumcheckError>
    requires ValidateShape(s).Ok? && |done.point| == Log2(s.inner)
    requires Pow2(|o.rowPoint|) == s.rows && Pow2(|o.colPoint|) == s.cols
    requires |o.a| == s.rows * s.inner && |o.b| == s.inner * s.cols
  {
    if proof.aFinal >= P || proof.bFinal >= P then Err(NonCanonicalField)
    else if done.claim != Mul(proof.aFinal, proof.bFinal) then Err(TerminalClaim)
    else
      MatrixPoints(s, o, done.point);
      if proof.aFinal != EvaluateMle(o.a, done.point + o.rowPoint)
         || proof.bFinal != EvaluateMle(o.b, o.colPoint + done.point)
      then Err(Opening)
      else Ok(())
  }

  lemma MatrixPoints(s: Statement, o: Opened, point: seq<Felt>)
    requires ValidateShape(s).Ok? && |point| == Log2(s.inner)
    requires Pow2(|o.rowPoint|) == s.rows && Pow2(|o.colPoint|) == s.cols
    requires |o.a| == s.rows * s.inner && |o.b| == s.inner * s.cols
    ensures |o.a| == Pow2(|point + o.rowPoint|) && |o.b| == Pow2(|o.colPoint + point|)
  {
    SpanPow2(|o.rowPoint|, |point|);
    SpanIsProduct(s.rows, s.inner);
    SpanPow2(|point|, |o.colPoint|);
    SpanIsProduct(s.inner, s.cols);
  }

  function Verify(h: Hashing, s: Statement, proof: Proof): Result<(), SumcheckError> {
    var _ :- ValidateShape(s);
    if proof.protocolVersion != PROTOCOL_VERSION then Err(VersionMismatch)
    else if |proof.rounds| != Log2(s.inner) then Err(RoundCount)
    else
      var o := Open(h, s);
      if proof.aCommitment != o.aCommitment || proof.bCommitment != o.bCommitment
         || proof.cCommitment != o.cCommitment
      then Err(CommitmentMismatch)
      else if proof.cEvaluation >= P then Err(NonCanonicalField)
      else if proof.cEvaluation != COpening(s, o) then Err(Opening)
      else
        var start := o.transcript.Absorb("C-evaluation", Element(proof.cEvaluation));
        var done :- VerifyRounds(h, start, proof.cEvaluation, proof.rounds, 0);
        VerifyTerminal(s, o, proof, done)
  }

  // ----- one round ------------------------------------------------------------------------------

  /** The values at 0 and 1 add up to the inner product. */
  lemma {:induction false} RoundSplitsDot(a: seq<Felt>, b: seq<Felt>, k: nat)
    ensures Dot(a, b, 2 * k) == Add(RoundSum(a, b, k).at0, RoundSum(a, b, k).at1)
  {
    hide Add, Mul, Sub, Line, Double, Mod;
    if k == 0 {
      AddZero(0);
    } else {
      RoundSplitsDot(a, b, k - 1);
      var prior := RoundSum(a, b, k - 1);
      var p0 := Mul(At(a, 2 * k - 2), At(b, 2 * k - 2));
      var p1 := Mul(At(a, 2 * k - 1), At(b, 2 * k - 1));
      assert Dot(a, b, 2 * k) == Add(Add(Dot(a, b, 2 * k - 2), p0), p1);
      AddAssoc(Dot(a, b, 2 * k - 2), p0, p1);
      AddSwap(prior.at0, prior.at1, p0, p1);
    }
  }

  /** The quadratic's value at x is the inner product of the tables folded at x. */
  lemma {:induction false} RoundFoldsDot(a: seq<Felt>, b: seq<Felt>, k: nat, x: Felt)
    requires 2 * k <= |a| && 2 * k <= |b|
    ensures EvaluateRound(RoundSum(a, b, k), x) == Dot(FoldField(a, x), FoldField(b, x), k)
  {
    hide Add, Mul, Sub, Line, Double, Mod;
    if k == 0 {
      ZeroQuadratic(x);
    } else {
      RoundFoldsDot(a, b, k - 1, x);
      var prior := RoundSum(a, b, k - 1);
      var a0, a1 := At(a, 2 * k - 2), At(a, 2 * k - 1);
      var b0, b1 := At(b, 2 * k - 2), At(b, 2 * k - 1);
      QuadraticAdds(prior.at0, prior.at1, prior.at2, Mul(a0, b0), Mul(a1, b1),
                    Mul(Sub(Double(a1), a0), Sub(Double(b1), b0)), x);
      ProductOfLines(a0, a1, b0, b1, x);
      FoldedEntry(a, k - 1, x);
      FoldedEntry(b, k - 1, x);
    }
  }

  lemma FoldedEntry(a: seq<Felt>, j: nat, x: Felt)
    requires 2 * j + 1 < |a|
    ensures At(FoldField(a, x), j) == Line(At(a, 2 * j), At(a, 2 * j + 1), x)
  {
    hide Add, Mul, Sub, Line, Double, Mod;
  }

  lemma ZeroQuadratic(x: Felt)
    ensures EvaluateQuadratic(0, 0, 0, x) == 0
  {
    QuadraticOfFelts(0, 0, 0, x);
  }

  // ----- all rounds -----------------------------------------------------------------------------

  /** One honest round: its message sums to the current inner product and evaluates to the next one. */
  lemma RoundStep(a: seq<Felt>, b: seq<Felt>, n: nat, x: Felt)
    requires n > 0 && |a| == |b| == Pow2(n)
    ensures |FoldField(a, x)| == |FoldField(b, x)| == Pow2(n - 1)
    ensures var m := QuadraticRound(a, b);
            && Add(m.at0, m.at1) == Dot(a, b, |a|)
            && EvaluateRound(m, x) == Dot(FoldField(a, x), FoldField(b, x), |FoldField(a, x)|)
  {
    hide Add, Mul, Sub, Line, Double, Mod;
    RoundSplitsDot(a, b, |a| / 2);
    RoundFoldsDot(a, b, |a| / 2, x);
  }

  lemma SingleDot(a: seq<Felt>, b: seq<Felt>)
    requires |a| == |b| == 1
    ensures Dot(a, b, 1) == Mul(a[0], b[0])
  {
    hide Add, Mul, Sub, Line, Double, Mod;
    assert Dot(a, b, 1) == Add(Dot(a, b, 0), Mul(a[0], b[0]));
    AddZero(Mul(a[0], b[0]));
  }

  /** What an honest run of n rounds establishes. */
  ghost predicate HonestRun(h: Hashing, t: Transcript, a: seq<Felt>, b: seq<Felt>, index: nat, n: nat) {
    var p := ProveRounds(h, t, a, b, index, n);
    && |p.rounds| == |p.point| == n
    && p.a == FoldAllField(a, p.point) && p.b == FoldAllField(b, p.point)
    && |p.a| == |p.b| == 1
    && VerifyRounds(h, t, Dot(a, b, |a|), p.rounds, index) == Ok(Checked(Mul(p.a[0], p.b[0]), p.point))
  }

  /** Honest rounds verify and end at the product of the fully folded tables. */
  lemma {:induction false} RoundsComplete(h: Hashing, t: Transcript, a: seq<Felt>, b: seq<Felt>, index: nat, n: nat)
    requires |a| == |b| == Pow2(n)
    ensures HonestRun(h, t, a, b, index, n)
    decreases n
  {
    hide Add, Mul, Sub, Line, Double, Mod, Dot, QuadraticRound;
    if n == 0 {
      SingleDot(a, b);
    } else {
      var m := QuadraticRound(a, b);
      var sent := AfterMessage(t, index, m);
      var x := h.oracle(sent, "sumcheck-round");
      RoundStep(a, b, n, x);
      RoundsComplete(h, AfterChallenge(sent, x), FoldField(a, x), FoldField(b, x), index + 1, n - 1);
      RunExtends(h, t, a, b, index, n);
    }
  }

  lemma RunExtends(h: Hashing, t: Transcript, a: seq<Felt>, b: seq<Felt>, index: nat, n: nat)
    requires n > 0
    requires var m := QuadraticRound(a, b);
             var sent := AfterMessage(t, index, m);
             var x := h.oracle(sent, "sumcheck-round");
             && Add(m.at0, m.at1) == Dot(a, b, |a|)
             && EvaluateRound(m, x) == Dot(FoldField(a, x), FoldField(b, x), |FoldField(a, x)|)
             && HonestRun(h, AfterChallenge(sent, x), FoldField(a, x), FoldField(b, x), index + 1, n - 1)
    ensures HonestRun(h, t, a, b, index, n)
  {
    hide Add, Mul, Sub, Line, Double, Mod;
    var m := QuadraticRound(a, b);
    var sent := AfterMessage(t, index, m);
    var x := h.oracle(sent, "sumcheck-round");
    var rest := ProveRounds(h, AfterChallenge(sent, x), FoldField(a, x), FoldField(b, x), index + 1, n - 1);
    var p := ProveRounds(h, t, a, b, index, n);
    assert p.rounds[1..] == rest.rounds && p.point[1..] == rest.point;
    assert Canonical(Raw(m)) == Ok(m);
  }

  /** The message an honest prover would send in round i under the verifier's challenges. */
  ghost function HonestRound(a: seq<Felt>, b: seq<Felt>, point: seq<Felt>, i: nat): Round
    requires i <= |point|
  {
    QuadraticRound(FoldAllField(a, point[..i]), FoldAllField(b, point[..i]))
  }

  /** Round i sent a different quadratic that happens to agree at that round's challenge. */
  ghost predicate LuckyRound(a: seq<Felt>, b: seq<Felt>, rounds: seq<RawRound>, point: seq<Felt>, i: nat)
    requires i < |point| == |rounds|
  {
    var honest := HonestRound(a, b, point, i);
    var sent := Canonical(rounds[i]);
    sent.Ok? && sent.value != honest && EvaluateRound(sent.value, point[i]) == EvaluateRound(honest, point[i])
  }

  /** The verifier's state after an accepted first round. */
  ghost function AfterFirst(t: Transcript, rounds: seq<RawRound>, index: nat, x: Felt): Transcript
    requires rounds != [] && Canonical(rounds[0]).Ok?
  {
    AfterChallenge(AfterMessage(t, index, Canonical(rounds[0]).value), x)
  }

  lemma AcceptedFirst(h: Hashing, t: Transcript, claim: Felt, rounds: seq<RawRound>, index: nat)
    requires rounds != [] && VerifyRounds(h, t, claim, rounds, index).Ok?
    ensures Canonical(rounds[0]).Ok?
    ensures var done := VerifyRounds(h, t, claim, rounds, index).value;
            var m, x := Canonical(rounds[0]).value, done.point[0];
            var rest := VerifyRounds(h, AfterFirst(t, rounds, index, x), EvaluateRound(m, x), rounds[1..], index + 1);
            Add(m.at0, m.at1) == claim && rest == Ok(Checked(done.claim, done.point[1..]))
  {
  }

  lemma NoRounds(h: Hashing, t: Transcript, claim: Felt, index: nat)
    ensures VerifyRounds(h, t, claim, [], index) == Ok(Checked(claim, []))
  {
  }

  /** The rounds end at the product of the fully folded tables. */
  ghost predicate EndsTrue(a: seq<Felt>, b: seq<Felt>, done: Checked) {
    done.claim == Mul(At(FoldAllField(a, done.point), 0), At(FoldAllField(b, done.point), 0))
  }

  lemma EndsTrueLater(a: seq<Felt>, b: seq<Felt>, done: Checked)
    requires done.point != [] && EndsTrue(a, b, done)
    ensures EndsTrue(FoldField(a, done.point[0]), FoldField(b, done.point[0]), Checked(done.claim, done.point[1..]))
  {
  }

  lemma EndsTrueAtOnce(a: seq<Felt>, b: seq<Felt>, done: Checked)
    requires done.point == [] && |a| == |b| == 1 && EndsTrue(a, b, done)
    ensures done.claim == Dot(a, b, 1)
  {
    hide Add, Mul, Sub, Line, Double, Mod;
    SingleDot(a, b);
  }

  /** Accepted rounds that start from a false claim and end at a true one contain a lucky round. */
  lemma {:induction false} RoundsSound(h: Hashing, t: Transcript, a: seq<Felt>, b: seq<Felt>, claim: Felt,
                                       rounds: seq<RawRound>, index: nat) returns (i: nat)
    requires |a| == |b| == Pow2(|rounds|)
    requires VerifyRounds(h, t, claim, rounds, index).Ok?
    requires claim != Dot(a, b, |a|)
    requires EndsTrue(a, b, VerifyRounds(h, t, claim, rounds, index).value)
    ensures i < |rounds|
    ensures LuckyRound(a, b, rounds, VerifyRounds(h, t, claim, rounds, index).value.point, i)
    decreases |rounds|
  {
    hide Add, Mul, Sub, Line, Double, Mod, Dot, VerifyRounds, LuckyRound, EndsTrue, QuadraticRound;
    var done := VerifyRounds(h, t, claim, rounds, index).value;
    if rounds == [] {
      NoRounds(h, t, claim, index);
      EndsTrueAtOnce(a, b, done);
      assert false;
    } else {
      AcceptedFirst(h, t, claim, rounds, index);
      EndsTrueLater(a, b, done);
      var m, x := Canonical(rounds[0]).value, done.point[0];
      RoundStep(a, b, |rounds|, x);
      var a', b' := FoldField(a, x), FoldField(b, x);
      if EvaluateRound(m, x) == Dot(a', b', |a'|) {
        i := 0;
        LuckyNow(a, b, rounds, done.point);
      } else {
        var j := RoundsSound(h, AfterFirst(t, rounds, index, x), a', b', EvaluateRound(m, x), rounds[1..], index + 1);
        i := j + 1;
        LuckyLater(a, b, rounds, done.point, j);
      }
    }
  }

  lemma LuckyNow(a: seq<Felt>, b: seq<Felt>, rounds: seq<RawRound>, point: seq<Felt>)
    requires 0 < |point| == |rounds| && Canonical(rounds[0]).Ok?
    requires var m := Canonical(rounds[0]).value;
             && m != QuadraticRound(a, b)
             && EvaluateRound(m, point[0]) == EvaluateRound(QuadraticRound(a, b), point[0])
    ensures LuckyRound(a, b, rounds, point, 0)
  {
    hide Add, Mul, Sub, Line, Double, Mod;
    assert point[..0] == [];
  }

  lemma LuckyLater(a: seq<Felt>, b: seq<Felt>, rounds: seq<RawRound>, point: seq<Felt>, j: nat)
    requires j + 1 < |point| == |rounds|
    requires LuckyRound(FoldField(a, point[0]), FoldField(b, point[0]), rounds[1..], point[1..], j)
    ensures LuckyRound(a, b, rounds, point, j + 1)
  {
    assert point[..j + 1][1..] == point[1..][..j];
  }
}
