/** The exact condition the sumcheck verifier accepts a proof under. */
module SumcheckAcceptance {
  import opened Prelude
  import opened Arith
  import opened Goldilocks
  import opened Multilinear
  import opened Sumcheck
  import opened SumcheckTranscript

  /** What a round's two halves must add up to: the opened value, or the round before at its challenge. */
  ghost function ClaimAt(claim: Felt, ms: seq<Round>, point: seq<Felt>, i: nat): Felt
    requires i <= |ms| == |point|
  {
    if i == 0 then claim else EvaluateRound(ms[i - 1], point[i - 1])
  }

  ghost predicate InField(raw: RawRound) { raw.at0 < P && raw.at1 < P && raw.at2 < P }

  /** Every round is in the field and continues the claim. */
  ghost predicate Continues(claim: Felt, rounds: seq<RawRound>, point: seq<Felt>)
    requires |rounds| == |point|
  {
    && (forall i :: 0 <= i < |rounds| ==> InField(rounds[i]))
    && (forall i :: 0 <= i < |rounds| ==>
          var m := Messages(rounds)[i]; Add(m.at0, m.at1) == ClaimAt(claim, Messages(rounds), point, i))
  }

  /** Every challenge answers its own message and everything before it. */
  ghost predicate Answered(h: Hashing, t: Transcript, rounds: seq<RawRound>, point: seq<Felt>, index: nat)
    requires |rounds| == |point|
  {
    forall i :: 0 <= i < |rounds| ==> point[i] == h.oracle(AskedAt(t, rounds, point, index, i), "sumcheck-round")
  }

  ghost function AskedAt(t: Transcript, rounds: seq<RawRound>, point: seq<Felt>, index: nat, i: nat): Transcript
    requires i < |rounds| == |point|
  {
    var ms := Messages(rounds);
    Transcript(t.items + RoundItems(ms[..i], point[..i], index)
               + [Item("round-index", Number(index + i)), Item("round-message", Message(ms[i]))], t.counter + i)
  }

  lemma CanonicalIs(raw: RawRound)
    ensures Canonical(raw).Ok? <==> InField(raw)
    ensures InField(raw) ==> Canonical(raw).value == MessageOf(raw)
  {
  }

  lemma ContinuesShift(claim: Felt, rounds: seq<RawRound>, point: seq<Felt>)
    requires rounds != [] && |rounds| == |point|
    ensures var m := MessageOf(rounds[0]);
            Continues(claim, rounds, point) <==>
            && InField(rounds[0]) && Add(m.at0, m.at1) == claim
            && Continues(EvaluateRound(m, point[0]), rounds[1..], point[1..])
  {
    hide Add, EvaluateRound, InField, MessageOf, Messages;
    MessagesTail(rounds);
    var ms, next := Messages(rounds), EvaluateRound(MessageOf(rounds[0]), point[0]);
    forall i | 0 < i < |rounds|
      ensures ClaimAt(claim, ms, point, i) == ClaimAt(next, ms[1..], point[1..], i - 1)
              && rounds[i] == rounds[1..][i - 1]
    {
    }
    if Continues(claim, rounds, point) {
      forall i | 0 <= i < |rounds| - 1
        ensures var m := ms[1..][i]; Add(m.at0, m.at1) == ClaimAt(next, ms[1..], point[1..], i)
      {
        assert ms[1..][i] == ms[i + 1];
      }
    }
    if InField(rounds[0]) && Add(ms[0].at0, ms[0].at1) == claim && Continues(next, rounds[1..], point[1..]) {
      forall i | 0 <= i < |rounds|
        ensures InField(rounds[i]) && Add(ms[i].at0, ms[i].at1) == ClaimAt(claim, ms, point, i)
      {
        if i > 0 { assert ms[1..][i - 1] == ms[i] && rounds[1..][i - 1] == rounds[i]; }
      }
    }
  }

  lemma AskedFirst(t: Transcript, rounds: seq<RawRound>, point: seq<Felt>, index: nat)
    requires rounds != [] && |rounds| == |point| && InField(rounds[0])
    ensures AskedAt(t, rounds, point, index, 0) == AfterMessage(t, index, MessageOf(rounds[0]))
  {
    var m := MessageOf(rounds[0]);
    var one := [Item("round-index", Number(index)), Item("round-message", Message(m))];
    assert Messages(rounds)[..0] == [] && point[..0] == [] && t.items + [] == t.items;
    assert (t.items + [one[0]]) + [one[1]] == t.items + one;
  }

  lemma AskedLater(t: Transcript, rounds: seq<RawRound>, point: seq<Felt>, index: nat, i: nat)
    requires 0 < i < |rounds| == |point| && Canonical(rounds[0]).Ok?
    ensures AskedAt(t, rounds, point, index, i)
         == AskedAt(AfterFirst(t, rounds, index, point[0]), rounds[1..], point[1..], index + 1, i - 1)
  {
    hide Messages, RoundItems, Canonical, AfterFirst;
    MessagesTail(rounds);
    ItemsShift(t, rounds, point, index, i);
  }

  lemma AnsweredShift(h: Hashing, t: Transcript, rounds: seq<RawRound>, point: seq<Felt>, index: nat)
    requires rounds != [] && |rounds| == |point| && Canonical(rounds[0]).Ok?
    ensures Answered(h, t, rounds, point, index) <==>
            && point[0] == h.oracle(AskedAt(t, rounds, point, index, 0), "sumcheck-round")
            && Answered(h, AfterFirst(t, rounds, index, point[0]), rounds[1..], point[1..], index + 1)
  {
    hide AskedAt, AfterFirst, Canonical;
    var next := AfterFirst(t, rounds, index, point[0]);
    forall i | 0 < i < |rounds|
      ensures AskedAt(t, rounds, point, index, i) == AskedAt(next, rounds[1..], point[1..], index + 1, i - 1)
              && point[i] == point[1..][i - 1]
    {
      AskedLater(t, rounds, point, index, i);
    }
    if Answered(h, t, rounds, point, index) {
      forall i | 0 <= i < |rounds[1..]|
        ensures point[1..][i] == h.oracle(AskedAt(next, rounds[1..], point[1..], index + 1, i), "sumcheck-round")
      {
        assert point[i + 1] == h.oracle(AskedAt(t, rounds, point, index, i + 1), "sumcheck-round");
      }
    }
    if point[0] == h.oracle(AskedAt(t, rounds, point, index, 0), "sumcheck-round")
       && Answered(h, next, rounds[1..], point[1..], index + 1) {
      forall i | 0 <= i < |rounds| ensures point[i] == h.oracle(AskedAt(t, rounds, point, index, i), "sumcheck-round") {
        if i > 0 { assert point[1..][i - 1] == point[i]; }
      }
    }
  }

  /** Unfolding one round of the verifier for a given point. */
  lemma OneRound(h: Hashing, t: Transcript, claim: Felt, rounds: seq<RawRound>, index: nat, point: seq<Felt>)
    requires rounds != [] && |rounds| == |point|
    ensures var r := VerifyRounds(h, t, claim, rounds, index);
            var m, x := MessageOf(rounds[0]), point[0];
            (r.Ok? && r.value.point == point) <==>
            && InField(rounds[0]) && Add(m.at0, m.at1) == claim
            && x == h.oracle(AfterMessage(t, index, m), "sumcheck-round")
            && var next := AfterChallenge(AfterMessage(t, index, m), x);
               var rest := VerifyRounds(h, next, EvaluateRound(m, x), rounds[1..], index + 1);
               rest.Ok? && rest.value.point == point[1..]
    ensures var r := VerifyRounds(h, t, claim, rounds, index);
            r.Ok? ==>
              var m, x := MessageOf(rounds[0]), r.value.point[0];
              var next := AfterChallenge(AfterMessage(t, index, m), x);
              var rest := VerifyRounds(h, next, EvaluateRound(m, x), rounds[1..], index + 1);
              rest.Ok? && r.value.claim == rest.value.claim
  {
    hide Add, EvaluateRound, AfterMessage, AfterChallenge;
    assert point == [point[0]] + point[1..];
  }

  lemma {:induction false} RoundsExact(h: Hashing, t: Transcript, claim: Felt, rounds: seq<RawRound>, index: nat,
                                       point: seq<Felt>)
    requires |rounds| == |point|
    ensures var r := VerifyRounds(h, t, claim, rounds, index);
            && ((r.Ok? && r.value.point == point) <==>
                  Continues(claim, rounds, point) && Answered(h, t, rounds, point, index))
            && (r.Ok? && r.value.point == point ==> r.value.claim == ClaimAt(claim, Messages(rounds), point, |rounds|))
    decreases |rounds|
  {
    if rounds == [] {
      NoRounds(h, t, claim, index);
    } else {
      hide Add, EvaluateRound, AfterMessage, AfterChallenge, VerifyRounds, Continues, Answered, AskedAt, Canonical,
           InField, MessageOf, Messages;
      OneRound(h, t, claim, rounds, index, point);
      ContinuesShift(claim, rounds, point);
      CanonicalIs(rounds[0]);
      MessagesTail(rounds);
      if InField(rounds[0]) {
        var m, x := MessageOf(rounds[0]), point[0];
        var next := AfterChallenge(AfterMessage(t, index, m), x);
        RoundsExact(h, next, EvaluateRound(m, x), rounds[1..], index + 1, point[1..]);
        AnsweredShift(h, t, rounds, point, index);
        AskedFirst(t, rounds, point, index);
      }
    }
  }

  /** The challenges of a proof's rounds, and everything the verifier compares. */
  ghost predicate Accepts(h: Hashing, s: Statement, proof: Proof, point: seq<Felt>)
    requires ValidateShape(s).Ok?
  {
    var o := Open(h, s);
    && proof.protocolVersion == 1 && |proof.rounds| == |point| == Log2(s.inner)
    && proof.aCommitment == h.commit("A", s.rows, s.inner, FieldValues(s.a))
    && proof.bCommitment == h.commit("B", s.inner, s.cols, FieldValues(s.b))
    && proof.cCommitment == h.commit("C", s.rows, s.cols, FieldValues(s.c))
    && proof.cEvaluation == COpening(s, o) && proof.aFinal < P && proof.bFinal < P
    && Continues(proof.cEvaluation, proof.rounds, point)
    && (forall i :: 0 <= i < |point| ==>
          point[i] == h.oracle(RoundQuery(s, o, proof.cEvaluation, Messages(proof.rounds), point, i), "sumcheck-round"))
    && ClaimAt(proof.cEvaluation, Messages(proof.rounds), point, |point|) == Mul(proof.aFinal, proof.bFinal)
    && EndsAt(s, o, proof, point)
  }

  /** The final values are those of A and B at the rounds' point. */
  ghost predicate EndsAt(s: Statement, o: Opened, proof: Proof, point: seq<Felt>)
    requires ValidateShape(s).Ok? && |point| == Log2(s.inner)
    requires Pow2(|o.rowPoint|) == s.rows && Pow2(|o.colPoint|) == s.cols
    requires |o.a| == s.rows * s.inner && |o.b| == s.inner * s.cols
  {
    MatrixPoints(s, o, point);
    && proof.aFinal == EvaluateMle(o.a, point + o.rowPoint)
    && proof.bFinal == EvaluateMle(o.b, o.colPoint + point)
  }

  lemma QueriesAreAsked(h: Hashing, s: Statement, claim: Felt, rounds: seq<RawRound>, point: seq<Felt>)
    requires ValidateShape(s).Ok? && |rounds| == |point|
    ensures var o := Open(h, s);
            forall i :: 0 <= i < |point| ==>
              RoundQuery(s, o, claim, Messages(rounds), point, i)
              == AskedAt(o.transcript.Absorb("C-evaluation", Element(claim)), rounds, point, 0, i)
  {
    hide Open, Messages, RoundItems, PointItems, StatementItems, ValidateShape, Log2;
    OpenAsks(h, s);
  }

  lemma VerifyUnfolds(h: Hashing, s: Statement, proof: Proof)
    requires ValidateShape(s).Ok?
    ensures var o := Open(h, s);
            Verify(h, s, proof).Ok? <==>
            && proof.protocolVersion == 1 && |proof.rounds| == Log2(s.inner)
            && proof.aCommitment == o.aCommitment && proof.bCommitment == o.bCommitment
            && proof.cCommitment == o.cCommitment
            && proof.cEvaluation == COpening(s, o)
            && var r := VerifyRounds(h, o.transcript.Absorb("C-evaluation", Element(COpening(s, o))), COpening(s, o),
                                     proof.rounds, 0);
               && r.Ok? && proof.aFinal < P && proof.bFinal < P
               && r.value.claim == Mul(proof.aFinal, proof.bFinal)
               && EndsAt(s, o, proof, r.value.point)
  {
    hide Open, COpening, VerifyRounds, Log2, EvaluateMle, Mul, IsPowerOfTwo;
  }

  /** A proof is accepted exactly when some challenges, drawn as listed, make every comparison hold. */
  lemma VerifyExact(h: Hashing, s: Statement, proof: Proof)
    ensures Verify(h, s, proof).Ok? <==> ValidateShape(s).Ok? && exists point :: Accepts(h, s, proof, point)
  {
    hide Open, COpening, VerifyRounds, Log2, EvaluateMle, Mul, IsPowerOfTwo, Continues, Answered, EndsAt, RoundQuery,
         AskedAt, ClaimAt, Verify, ValidateShape, FieldValues;
    if ValidateShape(s).Ok? {
      var o := Open(h, s);
      OpenAsks(h, s);
      VerifyUnfolds(h, s, proof);
      var claim := COpening(s, o);
      var start := o.transcript.Absorb("C-evaluation", Element(claim));
      var r := VerifyRounds(h, start, claim, proof.rounds, 0);
      if Verify(h, s, proof).Ok? {
        var point := r.value.point;
        RoundsExact(h, start, claim, proof.rounds, 0, point);
        QueriesAreAsked(h, s, claim, proof.rounds, point);
        AnsweredIs(h, start, proof.rounds, point);
        assert Accepts(h, s, proof, point);
      }
      forall point | Accepts(h, s, proof, point) ensures Verify(h, s, proof).Ok? {
        QueriesAreAsked(h, s, claim, proof.rounds, point);
        AnsweredIs(h, start, proof.rounds, point);
        RoundsExact(h, start, claim, proof.rounds, 0, point);
      }
    } else {
      ShapeFirst(h, s, proof);
    }
  }

  lemma AnsweredIs(h: Hashing, t: Transcript, rounds: seq<RawRound>, point: seq<Felt>)
    requires |rounds| == |point|
    ensures Answered(h, t, rounds, point, 0) <==>
            forall i :: 0 <= i < |point| ==> point[i] == h.oracle(AskedAt(t, rounds, point, 0, i), "sumcheck-round")
  {
    hide AskedAt;
  }

  lemma ShapeFirst(h: Hashing, s: Statement, proof: Proof)
    requires ValidateShape(s).Err?
    ensures Verify(h, s, proof).Err?
  {
    hide ValidateShape;
  }
}
