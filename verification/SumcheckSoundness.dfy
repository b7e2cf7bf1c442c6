/** Why a false product is hardly ever accepted: the lucky challenges, by variable and by round. */
module SumcheckSoundness {
  import opened Prelude
  import opened Arith
  import opened Goldilocks
  import opened Tables
  import opened Multilinear
  import opened Sumcheck
  import opened SumcheckTheorems
  import opened SumcheckTranscript
  import Field = PrimeField

  // ----- how lucky a round can be ---------------------------------------------------------------------------------

  /** The challenges at which two round messages cannot be told apart. */
  ghost function Meeting(sent: Round, honest: Round): set<Felt> {
    set x: Felt | EvaluateRound(sent, x) == EvaluateRound(honest, x)
  }

  lemma ThirdMember(s: set<Felt>) returns (x: Felt, y: Felt, z: Felt)
    requires |s| > 2
    ensures x in s && y in s && z in s && x != y && y != z && x != z
  {
    x :| x in s;
    var t := s - {x};
    assert |t| == |s| - 1;
    y :| y in t;
    var u := t - {y};
    assert |u| == |s| - 2;
    z :| z in u;
  }

  /** Different messages meet in at most two of the 2^64 - 2^32 + 1 possible challenges. */
  lemma AtMostTwoMeetings(sent: Round, honest: Round)
    requires sent != honest
    ensures |Meeting(sent, honest)| <= 2
  {
    hide EvaluateQuadratic;
    if |Meeting(sent, honest)| > 2 {
      var x, y, z := ThirdMember(Meeting(sent, honest));
      Field.QuadraticsAgree(sent.at0, sent.at1, sent.at2, honest.at0, honest.at1, honest.at2, x, y, z);
    }
  }

  /**
   * Round i's challenge is one of the at most two that hide its false message, although it was drawn from
   * a query that already held that message and everything before it.
   */
  ghost predicate RoundLuck(h: Hashing, s: Statement, proof: Proof, i: nat, lucky: set<Felt>)
    requires ValidateShape(s).Ok?
  {
    var o := Open(h, s);
    var start := o.transcript.Absorb("C-evaluation", Element(COpening(s, o)));
    var done := VerifyRounds(h, start, COpening(s, o), proof.rounds, 0);
    && |lucky| <= 2
    && done.Ok? && i < |proof.rounds| && Canonical(proof.rounds[i]).Ok?
    && lucky == Meeting(Canonical(proof.rounds[i]).value,
                        HonestRound(HonestA(s, o), HonestB(s, o), done.value.point, i))
    && done.value.point[i] in lucky
    && done.value.point[i]
       == h.oracle(RoundQuery(s, o, COpening(s, o), Messages(proof.rounds), done.value.point, i), "sumcheck-round")
  }

  /**
   * A false opened value survives only if, in some round, the challenge falls into a set of at most two
   * field elements fixed by the message sent and the challenges before it.
   */
  lemma SoundnessBound(h: Hashing, s: Statement, proof: Proof) returns (i: nat, lucky: set<Felt>)
    requires Verify(h, s, proof).Ok? && ValidateShape(s).Ok?
    requires var o := Open(h, s); COpening(s, o) != Dot(HonestA(s, o), HonestB(s, o), s.inner)
    ensures RoundLuck(h, s, proof, i, lucky)
  {
    hide Add, Mul, Sub, Line, Double, Mod, IsPowerOfTwo, Dot, Verify, VerifyRounds, EvaluateRound, HonestRound, HonestA,
         HonestB, Open, COpening;
    i := Soundness(h, s, proof);
    var o := Open(h, s);
    var start := o.transcript.Absorb("C-evaluation", Element(COpening(s, o)));
    var point := VerifyRounds(h, start, COpening(s, o), proof.rounds, 0).value.point;
    var sent, honest := Canonical(proof.rounds[i]).value, HonestRound(HonestA(s, o), HonestB(s, o), point, i);
    lucky := Meeting(sent, honest);
    AtMostTwoMeetings(sent, honest);
    RoundAnswersQuery(h, s, proof.rounds, i);
  }

  // ----- the opened point --------------------------------------------------------------------------------------------

  /** Up to variable k the folded tables differ; the k-th challenge makes them equal. */
  ghost predicate LuckyVariable(t: seq<Felt>, u: seq<Felt>, point: seq<Felt>, k: nat) {
    && k < |point|
    && FoldAllField(t, point[..k]) != FoldAllField(u, point[..k])
    && MergesAt(t, u, point, k, point[k])
  }

  /** After the variables before k, this value of variable k makes the tables equal. */
  ghost predicate MergesAt(t: seq<Felt>, u: seq<Felt>, point: seq<Felt>, k: nat, r: Felt)
    requires k < |point|
  {
    FoldField(FoldAllField(t, point[..k]), r) == FoldField(FoldAllField(u, point[..k]), r)
  }

  /** Different tables with one value at a point were merged by one of its variables. */
  lemma {:induction false} TablesMeet(t: seq<Felt>, u: seq<Felt>, point: seq<Felt>) returns (k: nat)
    requires |t| == |u| == Pow2(|point|) && t != u && EvaluateMle(t, point) == EvaluateMle(u, point)
    ensures LuckyVariable(t, u, point, k)
    decreases |point|
  {
    hide Line;
    if point == [] {
      SingleValue(t);
      SingleValue(u);
      assert false;
    } else {
      var t', u' := FoldField(t, point[0]), FoldField(u, point[0]);
      assert point[..0] == [];
      if t' == u' {
        k := 0;
      } else {
        var j := TablesMeet(t', u', point[1..]);
        k := j + 1;
        assert point[..k][1..] == point[1..][..j];
      }
    }
  }

  lemma SingleValue(t: seq<Felt>)
    requires |t| == 1
    ensures t == [EvaluateMle(t, [])]
  {
  }

  /** Two lines that agree at two places are the same line. */
  lemma LinesAgree(u: Felt, v: Felt, u': Felt, v': Felt, r: Felt, s: Felt)
    requires r != s && Line(u, v, r) == Line(u', v', r) && Line(u, v, s) == Line(u', v', s)
    ensures u == u' && v == v'
  {
    hide Line;
    var d, a := u - u', (v - u) - (v' - u');
    LineVanishes(u, v, u', v', r);
    LineVanishes(u, v, u', v', s);
    Field.TwoZeros(d, a, 0, r, s);
    Field.NullTimes(a, r);
    Field.NullDifference(d + a * r, a * r);
    Field.NullDifference(d, a);
    Field.SmallNull(d);
    Field.SmallNull(d + a);
  }

  lemma LineVanishes(u: Felt, v: Felt, u': Felt, v': Felt, r: Felt)
    requires Line(u, v, r) == Line(u', v', r)
    ensures var d, a := u - u', (v - u) - (v' - u'); Field.Null(d + a * r) && Field.Null(d + a * r + 0 * (r * (r - 1)))
  {
    hide Line;
    LineMod(u, v, r);
    LineMod(u', v', r);
    Field.EqualResidues(u + (v - u) * r, u' + (v' - u') * r);
    MulDistrib(v - u, v' - u', r);
  }

  /** Two tables of even size that fold alike under two challenges are equal. */
  lemma FoldsAgree(t: seq<Felt>, u: seq<Felt>, r: Felt, s: Felt)
    requires |t| == |u| && |t| % 2 == 0 && r != s
    requires FoldField(t, r) == FoldField(u, r) && FoldField(t, s) == FoldField(u, s)
    ensures t == u
  {
    hide Line;
    forall i | 0 <= i < |t| ensures t[i] == u[i] {
      var j := i / 2;
      assert FoldField(t, r)[j] == FoldField(u, r)[j] && FoldField(t, s)[j] == FoldField(u, s)[j];
      LinesAgree(t[2 * j], t[2 * j + 1], u[2 * j], u[2 * j + 1], r, s);
    }
  }

  /** The value of variable k that merges the tables is unique, given the earlier ones. */
  lemma OneLuckyValue(t: seq<Felt>, u: seq<Felt>, point: seq<Felt>, k: nat, r: Felt)
    requires |t| == |u| == Pow2(|point|) && LuckyVariable(t, u, point, k) && MergesAt(t, u, point, k, r)
    ensures r == point[k]
  {
    hide Line, FoldAllField, FoldField;
    FoldedSize(t, point, k);
    FoldedSize(u, point, k);
    if r != point[k] {
      FoldsAgree(FoldAllField(t, point[..k]), FoldAllField(u, point[..k]), r, point[k]);
    }
  }

  lemma FoldedSize(t: seq<Felt>, point: seq<Felt>, k: nat)
    requires |t| == Pow2(|point|) && k < |point|
    ensures |FoldAllField(t, point[..k])| == Pow2(|point| - k) && Pow2(|point| - k) % 2 == 0
  {
    hide Line, Span, FoldAll, Pow2;
    SpanPow2(|point| - k, k);
    assert k + (|point| - k) == |point| && |point[..k]| == k;
    FoldAllLength(Line, t, point[..k], Pow2(|point| - k));
    EvenPow2(|point| - k);
  }

  lemma EvenPow2(n: nat)
    requires n > 0
    ensures Pow2(n) % 2 == 0
  {
  }

  /** Coordinate k of the point, columns first, was drawn from a query holding the statement and its commitments. */
  ghost predicate CoordinateDrawn(h: Hashing, s: Statement, k: nat)
    requires ValidateShape(s).Ok? && k < |Open(h, s).colPoint + Open(h, s).rowPoint|
  {
    var o := Open(h, s);
    var header := StatementItems(s, h.commit("A", s.rows, s.inner, FieldValues(s.a)),
                                 h.commit("B", s.inner, s.cols, FieldValues(s.b)),
                                 h.commit("C", s.rows, s.cols, FieldValues(s.c)));
    var n := |o.colPoint|;
    (o.colPoint + o.rowPoint)[k]
    == if k < n
       then h.oracle(PointQuery(header + PointItems(o.rowPoint, 0), |o.rowPoint|, o.colPoint, k), "col-point")
       else h.oracle(PointQuery(header, 0, o.rowPoint, k - n), "row-point")
  }

  /**
   * A wrong product, over the field, is accepted only by luck: some variable of the drawn point took
   * the single value that hides the difference, or some round's challenge fell into a set of at most
   * two that hide a false message.
   */
  lemma WrongProductNeedsLuck(h: Hashing, s: Statement, proof: Proof, product: seq<Felt>)
    returns (variable: Option<nat>, i: nat, lucky: set<Felt>)
    requires Verify(h, s, proof).Ok? && ValidateShape(s).Ok?
    requires HoldsProduct(s, product) && product != FieldValues(s.c)
    ensures match variable
            case Some(k) =>
              var point := Open(h, s).colPoint + Open(h, s).rowPoint;
              && LuckyVariable(FieldValues(s.c), product, point, k)
              && CoordinateDrawn(h, s, k)
              && forall r :: MergesAt(FieldValues(s.c), product, point, k, r) ==> r == point[k]
            case None => RoundLuck(h, s, proof, i, lucky)
  {
    hide Add, Mul, Sub, Line, Double, Mod, IsPowerOfTwo, Dot, Verify, VerifyRounds, HonestA, HonestB, Open, COpening,
         EvaluateMle, HoldsProduct, RoundLuck, MergesAt;
    var o := Open(h, s);
    ProductOpening(h, s, product);
    OpenedValue(h, s);
    i, lucky := 0, {};
    if COpening(s, o) == Dot(HonestA(s, o), HonestB(s, o), s.inner) {
      var k := TablesMeet(FieldValues(s.c), product, o.colPoint + o.rowPoint);
      variable := Some(k);
      OpenAsks(h, s);
      forall r | MergesAt(FieldValues(s.c), product, o.colPoint + o.rowPoint, k, r)
        ensures r == (o.colPoint + o.rowPoint)[k]
      {
        OneLuckyValue(FieldValues(s.c), product, o.colPoint + o.rowPoint, k, r);
      }
    } else {
      variable := None;
      i, lucky := SoundnessBound(h, s, proof);
    }
  }

  lemma OpenedValue(h: Hashing, s: Statement)
    requires ValidateShape(s).Ok?
    ensures var o := Open(h, s);
            && |FieldValues(s.c)| == Pow2(|o.colPoint + o.rowPoint|)
            && COpening(s, o) == EvaluateMle(FieldValues(s.c), o.colPoint + o.rowPoint)
  {
    hide Add, Mul, Sub, Line, Double, Mod, EvaluateMle, ChallengeVector;
    var o := Open(h, s);
    SpanPow2(|o.rowPoint|, |o.colPoint|);
    SpanIsProduct(s.rows, s.cols);
  }
}
