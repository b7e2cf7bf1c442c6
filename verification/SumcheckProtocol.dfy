/** The sumcheck as the program runs it: a mutable transcript and loops over rounds and tables. */
module SumcheckProtocol {
  import opened Prelude
  import opened Arith
  import opened Goldilocks
  import opened Tables
  import opened Multilinear
  import opened Sumcheck
  import opened SumcheckTheorems

  class HashTranscript {
    const hashing: Hashing
    var items: seq<Item>
    var counter: nat

    ghost function View(): Transcript
      reads this
    {
      Transcript(items, counter)
    }

    constructor (hashing: Hashing)
      ensures View() == Transcript([], 0) && this.hashing == hashing
    {
      this.hashing := hashing;
      items, counter := [], 0;
    }

    method Absorb(name: string, value: Absorbed)
      modifies this
      ensures View() == old(View()).Absorb(name, value)
    {
      items := items + [Item(name, value)];
    }

    method Challenge(name: string) returns (x: Felt)
      modifies this
      ensures x == hashing.oracle(old(View()), name)
      ensures View() == AfterChallenge(old(View()), x)
    {
      x := hashing.oracle(Transcript(items, counter), name);
      counter := counter + 1;
      items := items + [Item("derived-challenge", Element(x))];
    }

    method ChallengePoint(name: string, count: nat) returns (point: seq<Felt>)
      modifies this
      ensures point == ChallengeVector(hashing, old(View()), name, 0, count).point
      ensures View() == ChallengeVector(hashing, old(View()), name, 0, count).transcript
    {
      point := [];
      var index := 0;
      while index < count
        invariant 0 <= index <= count
        invariant ChallengeVector(hashing, old(View()), name, 0, count).point
               == point + ChallengeVector(hashing, View(), name, index, count).point
        invariant ChallengeVector(hashing, old(View()), name, 0, count).transcript
               == ChallengeVector(hashing, View(), name, index, count).transcript
      {
        ghost var rest := ChallengeVector(hashing, View(), name, index, count);
        Absorb("point-index", Number(index));
        var x := Challenge(name);
        assert rest.point == [x] + ChallengeVector(hashing, View(), name, index + 1, count).point;
        point := point + [x];
        index := index + 1;
      }
      assert point + [] == point;
    }
  }

  method EqualityWeights(point: seq<Felt>) returns (weights: seq<Felt>)
    ensures weights == Weights(point)
  {
    hide Mul, Sub;
    weights := [1];
    var k := 0;
    while k < |point|
      invariant 0 <= k <= |point| && weights == Weights(point[..k])
    {
      assert point[..k + 1][..k] == point[..k];
      weights := WidenTable(weights, point[k]);
      k := k + 1;
    }
    assert point[..|point|] == point;
  }

  method WidenTable(previous: seq<Felt>, r: Felt) returns (weights: seq<Felt>)
    ensures weights == Widen(previous, r)
  {
    hide Mul, Sub;
    var half := |previous|;
    var next := new Felt[2 * half](_ => 0);
    var i := 0;
    while i < half
      invariant 0 <= i <= half
      invariant forall k :: 0 <= k < i ==>
                  next[k] == Mul(previous[k], Sub(1, r)) && next[half + k] == Mul(previous[k], r)
    {
      next[i] := Mul(previous[i], Sub(1, r));
      next[i + half] := Mul(previous[i], r);
      i := i + 1;
    }
    weights := next[..];
    ghost var expected := Widen(previous, r);
    forall k | 0 <= k < 2 * half ensures weights[k] == expected[k] {
      if k >= half {
        var j := k - half;
        assert weights[half + j] == Mul(previous[j], r) == expected[half + j];
      }
    }
  }

  method EvaluateTable(evaluations: seq<Felt>, point: seq<Felt>) returns (x: Felt)
    requires |evaluations| == Pow2(|point|)
    ensures x == EvaluateMle(evaluations, point)
  {
    hide Line;
    var table := evaluations;
    var k := 0;
    FoldAllLength(Line, evaluations, point, 1);
    while k < |point|
      invariant 0 <= k <= |point|
      invariant FoldAll(Line, table, point[k..]) == FoldAll(Line, evaluations, point)
    {
      assert point[k..][1..] == point[k + 1..];
      table := FoldField(table, point[k]);
      k := k + 1;
    }
    x := table[0];
  }

  method ComputeRound(a: seq<Felt>, b: seq<Felt>) returns (m: Round)
    requires |a| == |b|
    ensures m == QuadraticRound(a, b)
  {
    hide Add, Mul, Sub, Double;
    m := Round(0, 0, 0);
    var k := 0;
    while k < |a| / 2
      invariant 0 <= k <= |a| / 2 && m == RoundSum(a, b, k)
    {
      var a0, a1, b0, b1 := a[2 * k], a[2 * k + 1], b[2 * k], b[2 * k + 1];
      m := Round(Add(m.at0, Mul(a0, b0)), Add(m.at1, Mul(a1, b1)),
                 Add(m.at2, Mul(Sub(Double(a1), a0), Sub(Double(b1), b0))));
      k := k + 1;
    }
  }

  /** The weighted column sums of A, one per inner index. */
  method WeightColumns(a: seq<Felt>, rows: nat, inner: nat, weights: seq<Felt>) returns (p: seq<Felt>)
    requires |a| == rows * inner && |weights| == rows
    ensures p == APartial(a, rows, inner, weights)
  {
    hide Add, Mul;
    p := [];
    while |p| < inner
      invariant |p| <= inner
      invariant forall k :: 0 <= k < |p| ==> p[k] == ColumnSum(a, inner, k, weights, rows)
    {
      var value: Felt := 0;
      var row := 0;
      while row < rows
        invariant 0 <= row <= rows && value == ColumnSum(a, inner, |p|, weights, row)
      {
        EntryFits(row, rows, |p|, inner);
        value := Add(value, Mul(a[row * inner + |p|], weights[row]));
        row := row + 1;
      }
      p := p + [value];
    }
  }

  /** The weighted row sums of B, one per inner index. */
  method WeightRows(b: seq<Felt>, inner: nat, cols: nat, weights: seq<Felt>) returns (p: seq<Felt>)
    requires |b| == inner * cols && |weights| == cols
    ensures p == BPartial(b, inner, cols, weights)
  {
    hide Add, Mul;
    p := [];
    while |p| < inner
      invariant |p| <= inner
      invariant forall k :: 0 <= k < |p| ==> p[k] == RowSum(b, cols, k, weights, cols)
    {
      var value: Felt := 0;
      var col := 0;
      while col < cols
        invariant 0 <= col <= cols && value == RowSum(b, cols, |p|, weights, col)
      {
        EntryFits(|p|, inner, col, cols);
        value := Add(value, Mul(b[|p| * cols + col], weights[col]));
        col := col + 1;
      }
      p := p + [value];
    }
  }

  /** Draws the random point both sides evaluate C at. */
  method OpenStatement(h: Hashing, s: Statement) returns (o: Opened, t: HashTranscript)
    requires ValidateShape(s).Ok?
    ensures o == Open(h, s) && fresh(t) && t.hashing == h && t.View() == o.transcript
  {
    hide Log2;
    var a, b, c := FieldValues(s.a), FieldValues(s.b), FieldValues(s.c);
    var aC := h.commit("A", s.rows, s.inner, a);
    var bC := h.commit("B", s.inner, s.cols, b);
    var cC := h.commit("C", s.rows, s.cols, c);
    t := new HashTranscript(h);
    t.Absorb("protocol-version", Number(PROTOCOL_VERSION));
    t.Absorb("public-binding", Binding(s.binding));
    t.Absorb("rows", Number(s.rows));
    t.Absorb("inner", Number(s.inner));
    t.Absorb("cols", Number(s.cols));
    t.Absorb("A-commitment", Commitment(aC));
    t.Absorb("B-commitment", Commitment(bC));
    t.Absorb("C-commitment", Commitment(cC));
    assert t.View() == Preamble(h, s, aC, bC, cC);
    var rowPoint := t.ChallengePoint("row-point", Log2(s.rows));
    var colPoint := t.ChallengePoint("col-point", Log2(s.cols));
    o := Opened(a, b, c, aC, bC, cC, rowPoint, colPoint, Transcript(t.items, t.counter));
  }

  /** A run whose first rounds are already recorded. */
  ghost function Recorded(rounds: seq<RawRound>, point: seq<Felt>, rest: Proved): Proved {
    Proved(rounds + rest.rounds, point + rest.point, rest.a, rest.b)
  }

  lemma RecordStep(h: Hashing, t: Transcript, a: seq<Felt>, b: seq<Felt>, index: nat, n: nat, m: Round, x: Felt,
                   rounds: seq<RawRound>, point: seq<Felt>)
    requires n > 0 && m == QuadraticRound(a, b)
    requires x == h.oracle(AfterMessage(t, index, m), "sumcheck-round")
    ensures Recorded(rounds, point, ProveRounds(h, t, a, b, index, n))
         == Recorded(rounds + [Raw(m)], point + [x],
                     ProveRounds(h, AfterChallenge(AfterMessage(t, index, m), x), FoldField(a, x), FoldField(b, x),
                                 index + 1, n - 1))
  {
    hide QuadraticRound, FoldField;
    var rest := ProveRounds(h, AfterChallenge(AfterMessage(t, index, m), x), FoldField(a, x), FoldField(b, x),
                            index + 1, n - 1);
    assert rounds + ([Raw(m)] + rest.rounds) == (rounds + [Raw(m)]) + rest.rounds;
    assert point + ([x] + rest.point) == (point + [x]) + rest.point;
  }

  lemma RecordEnds(h: Hashing, t: Transcript, a: seq<Felt>, b: seq<Felt>, index: nat, rounds: seq<RawRound>,
                   point: seq<Felt>, p: Proved)
    ensures Recorded([], [], p) == p
    ensures Recorded(rounds, point, ProveRounds(h, t, a, b, index, 0)) == Proved(rounds, point, a, b)
  {
    assert [] + p.rounds == p.rounds && [] + p.point == p.point;
    assert rounds + [] == rounds && point + [] == point;
  }

  lemma FoldHalves(a: seq<Felt>, x: Felt, n: nat)
    requires |a| == Pow2(n) && n > 0
    ensures |FoldField(a, x)| == Pow2(n - 1) && |a| % 2 == 0
  {
    hide Line;
  }

  method RunRounds(h: Hashing, t: HashTranscript, aTable: seq<Felt>, bTable: seq<Felt>, n: nat) returns (p: Proved)
    requires t.hashing == h && |aTable| == |bTable| == Pow2(n)
    modifies t
    ensures p == ProveRounds(h, old(t.View()), aTable, bTable, 0, n)
  {
    hide Line, ProveRounds, Recorded, QuadraticRound, FoldField, Pow2;
    var a, b := aTable, bTable;
    var rounds: seq<RawRound>, point: seq<Felt> := [], [];
    ghost var total := ProveRounds(h, t.View(), aTable, bTable, 0, n);
    RecordEnds(h, t.View(), a, b, 0, rounds, point, total);
    var i := 0;
    while i < n
      invariant 0 <= i <= n && |a| == |b| == Pow2(n - i)
      invariant total == Recorded(rounds, point, ProveRounds(h, t.View(), a, b, i, n - i))
    {
      ghost var before := t.View();
      var m := ComputeRound(a, b);
      t.Absorb("round-index", Number(i));
      t.Absorb("round-message", Message(m));
      var x := t.Challenge("sumcheck-round");
      RecordStep(h, before, a, b, i, n - i, m, x, rounds, point);
      FoldHalves(a, x, n - i);
      FoldHalves(b, x, n - i);
      a, b := FoldField(a, x), FoldField(b, x);
      rounds, point := rounds + [Raw(m)], point + [x];
      i := i + 1;
    }
    RecordEnds(h, t.View(), a, b, i, rounds, point, total);
    p := Proved(rounds, point, a, b);
  }

  /** The prover; its proof of an exact product is accepted. */
  method ProveMatrixProduct(h: Hashing, s: Statement) returns (r: Result<Proof, SumcheckError>)
    ensures r == Prove(h, s)
    ensures ValidateShape(s).Ok? && (IsProduct(s) || HoldsProduct(s, FieldValues(s.c))) ==>
              r.Ok? && Verify(h, s, r.value) == Ok(())
  {
    hide IsProduct, HoldsProduct, Verify, ProveRounds, Weights, Log2;
    var valid := ValidateShape(s);
    if valid.Err? { return Err(valid.error); }
    var o, t := OpenStatement(h, s);
    SpanPow2(|o.rowPoint|, |o.colPoint|);
    SpanIsProduct(s.rows, s.cols);
    var claim := EvaluateTable(o.c, o.colPoint + o.rowPoint);
    t.Absorb("C-evaluation", Element(claim));
    var rowWeights := EqualityWeights(o.rowPoint);
    var colWeights := EqualityWeights(o.colPoint);
    var a := WeightColumns(o.a, s.rows, s.inner, rowWeights);
    var b := WeightRows(o.b, s.inner, s.cols, colWeights);
    FinalLengths(h, t.View(), a, b, 0, Log2(s.inner));
    var p := RunRounds(h, t, a, b, Log2(s.inner));
    r := Ok(Proof(PROTOCOL_VERSION, o.aCommitment, o.bCommitment, o.cCommitment, claim, p.rounds, p.a[0], p.b[0]));
    assert r == Prove(h, s);
    if IsProduct(s) { ProductImage(s); }
    if HoldsProduct(s, FieldValues(s.c)) { Completeness(h, s); }
  }

  lemma {:induction false} FinalLengths(h: Hashing, t: Transcript, a: seq<Felt>, b: seq<Felt>, index: nat, n: nat)
    requires |a| == |b| == Pow2(n)
    ensures var p := ProveRounds(h, t, a, b, index, n); |p.a| == |p.b| == 1
    decreases n
  {
    RoundsComplete(h, t, a, b, index, n);
  }

  /** What the remaining rounds contribute to the verifier's answer. */
  ghost function Extend(point: seq<Felt>, r: Result<Checked, SumcheckError>): Result<Checked, SumcheckError> {
    if r.Err? then r else Ok(Checked(r.value.claim, point + r.value.point))
  }

  method CheckRounds(h: Hashing, t: HashTranscript, start: Felt, rounds: seq<RawRound>)
    returns (r: Result<Checked, SumcheckError>)
    requires t.hashing == h
    modifies t
    ensures r == VerifyRounds(h, old(t.View()), start, rounds, 0)
  {
    hide Add, EvaluateRound;
    var claim, point := start, [];
    var i := 0;
    assert rounds[0..] == rounds;
    ExtendNothing(VerifyRounds(h, t.View(), start, rounds, 0));
    while i < |rounds|
      invariant 0 <= i <= |rounds|
      invariant VerifyRounds(h, old(t.View()), start, rounds, 0)
                == Extend(point, VerifyRounds(h, t.View(), claim, rounds[i..], i))
    {
      ghost var before := t.View();
      var m := Canonical(rounds[i]);
      if m.Err? { return Err(m.error); }
      if Add(m.value.at0, m.value.at1) != claim { return Err(RoundClaim); }
      t.Absorb("round-index", Number(i));
      t.Absorb("round-message", Message(m.value));
      var x := t.Challenge("sumcheck-round");
      assert rounds[i..][1..] == rounds[i + 1..];
      ExtendStep(h, before, claim, rounds[i..], i, m.value, x, point);
      claim, point := EvaluateRound(m.value, x), point + [x];
      i := i + 1;
    }
    r := Ok(Checked(claim, point));
    assert point + [] == point;
  }

  lemma ExtendNothing(r: Result<Checked, SumcheckError>)
    ensures Extend([], r) == r
  {
    if r.Ok? { assert [] + r.value.point == r.value.point; }
  }

  lemma ExtendStep(h: Hashing, t: Transcript, claim: Felt, rounds: seq<RawRound>, index: nat, m: Round, x: Felt,
                   point: seq<Felt>)
    requires rounds != [] && Canonical(rounds[0]) == Ok(m) && Add(m.at0, m.at1) == claim
    requires x == h.oracle(AfterMessage(t, index, m), "sumcheck-round")
    ensures Extend(point, VerifyRounds(h, t, claim, rounds, index))
         == Extend(point + [x], VerifyRounds(h, AfterChallenge(AfterMessage(t, index, m), x),
                                             EvaluateRound(m, x), rounds[1..], index + 1))
  {
    hide Add, EvaluateRound;
    var rest := VerifyRounds(h, AfterChallenge(AfterMessage(t, index, m), x), EvaluateRound(m, x), rounds[1..],
                             index + 1);
    if rest.Ok? {
      assert point + ([x] + rest.value.point) == (point + [x]) + rest.value.point;
    }
  }

  /** The verifier, checks in the program's order. */
  method VerifyMatrixProduct(h: Hashing, s: Statement, proof: Proof) returns (r: Result<(), SumcheckError>)
    ensures r == Verify(h, s, proof)
  {
    hide VerifyRounds, Log2, Mul;
    var valid := ValidateShape(s);
    if valid.Err? { return Err(valid.error); }
    if proof.protocolVersion != PROTOCOL_VERSION { return Err(VersionMismatch); }
    if |proof.rounds| != Log2(s.inner) { return Err(RoundCount); }
    var o, t := OpenStatement(h, s);
    if proof.aCommitment != o.aCommitment || proof.bCommitment != o.bCommitment
       || proof.cCommitment != o.cCommitment { return Err(CommitmentMismatch); }
    SpanPow2(|o.rowPoint|, |o.colPoint|);
    SpanIsProduct(s.rows, s.cols);
    var expected := EvaluateTable(o.c, o.colPoint + o.rowPoint);
    if proof.cEvaluation >= P { return Err(NonCanonicalField); }
    if proof.cEvaluation != expected { return Err(Opening); }
    t.Absorb("C-evaluation", Element(proof.cEvaluation));
    var done := CheckRounds(h, t, proof.cEvaluation, proof.rounds);
    if done.Err? { return Err(done.error); }
    if proof.aFinal >= P || proof.bFinal >= P { return Err(NonCanonicalField); }
    if done.value.claim != Mul(proof.aFinal, proof.bFinal) { return Err(TerminalClaim); }
    MatrixPoints(s, o, done.value.point);
    var aOpening := EvaluateTable(o.a, done.value.point + o.rowPoint);
    var bOpening := EvaluateTable(o.b, o.colPoint + done.value.point);
    if proof.aFinal != aOpening || proof.bFinal != bOpening { return Err(Opening); }
    return Ok(());
  }
}
