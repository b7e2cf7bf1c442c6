/** What every challenge of the sumcheck is an answer to, item by item. */
module SumcheckTranscript {
  import opened Prelude
  import opened Arith
  import opened Goldilocks
  import opened Sumcheck

  // ----- the items, listed ------------------------------------------------------------------------------

  /** Version, binding, shape and commitments. */
  function StatementItems(s: Statement, aC: Digest, bC: Digest, cC: Digest): (items: seq<Item>)
    ensures |items| == 8
  {
    [Item("protocol-version", Number(1)), Item("public-binding", Binding(s.binding)), Item("rows", Number(s.rows)),
     Item("inner", Number(s.inner)), Item("cols", Number(s.cols)), Item("A-commitment", Commitment(aC)),
     Item("B-commitment", Commitment(bC)), Item("C-commitment", Commitment(cC))]
  }

  /** Coordinates from a base index on: the index, then the challenge that answered it. */
  function PointItems(point: seq<Felt>, base: nat): (items: seq<Item>)
    ensures |items| == 2 * |point|
  {
    if point == [] then []
    else
      [Item("point-index", Number(base)), Item("derived-challenge", Element(point[0]))]
      + PointItems(point[1..], base + 1)
  }

  /** Rounds from a base index on: the index, the message, then the challenge that answered them. */
  function RoundItems(messages: seq<Round>, point: seq<Felt>, base: nat): (items: seq<Item>)
    requires |messages| == |point|
    ensures |items| == 3 * |messages|
  {
    if messages == [] then []
    else
      [Item("round-index", Number(base)), Item("round-message", Message(messages[0])),
       Item("derived-challenge", Element(point[0]))]
      + RoundItems(messages[1..], point[1..], base + 1)
  }

  /** The query that draws a coordinate. */
  function PointQuery(prefix: seq<Item>, drawn: nat, point: seq<Felt>, k: nat): Transcript
    requires k <= |point|
  {
    Transcript(prefix + PointItems(point[..k], 0) + [Item("point-index", Number(k))], drawn + k)
  }

  /** Everything before the first round. */
  function OpeningItems(s: Statement, o: Opened, claim: Felt): seq<Item> {
    StatementItems(s, o.aCommitment, o.bCommitment, o.cCommitment) + PointItems(o.rowPoint, 0)
    + PointItems(o.colPoint, 0) + [Item("C-evaluation", Element(claim))]
  }

  /** The query that draws the challenge of round i: all of the above, all earlier rounds, and this round's message. */
  function RoundQuery(s: Statement, o: Opened, claim: Felt, messages: seq<Round>, point: seq<Felt>, i: nat): Transcript
    requires i < |messages| == |point|
  {
    Transcript(OpeningItems(s, o, claim) + RoundItems(messages[..i], point[..i], 0)
               + [Item("round-index", Number(i)), Item("round-message", Message(messages[i]))],
               |o.rowPoint| + |o.colPoint| + i)
  }

  // ----- the drawn point -----------------------------------------------------------------------------------

  /** A challenge vector appends its coordinates, and each coordinate answers everything before it. */
  lemma {:induction false} VectorItems(h: Hashing, t: Transcript, name: string, index: nat, count: nat)
    requires index <= count
    ensures var d := ChallengeVector(h, t, name, index, count);
            && d.transcript.items == t.items + PointItems(d.point, index)
            && d.transcript.counter == t.counter + |d.point|
    decreases count - index
  {
    if index < count {
      var asked := t.Absorb("point-index", Number(index));
      var x := h.oracle(asked, name);
      VectorItems(h, AfterChallenge(asked, x), name, index + 1, count);
      var d := ChallengeVector(h, t, name, index, count);
      assert d.point[1..] == ChallengeVector(h, AfterChallenge(asked, x), name, index + 1, count).point;
    }
  }

  lemma {:induction false} VectorAsks(h: Hashing, t: Transcript, name: string, index: nat, count: nat, k: nat)
    requires index <= count && k < count - index
    ensures var d := ChallengeVector(h, t, name, index, count);
            d.point[k] == h.oracle(Transcript(t.items + PointItems(d.point[..k], index)
                                              + [Item("point-index", Number(index + k))], t.counter + k), name)
    decreases count - index
  {
    var asked := t.Absorb("point-index", Number(index));
    var x := h.oracle(asked, name);
    var d := ChallengeVector(h, t, name, index, count);
    if k == 0 {
      assert d.point[..0] == [] && t.items + [] == t.items;
    } else {
      var next := AfterChallenge(asked, x);
      VectorAsks(h, next, name, index + 1, count, k - 1);
      var rest := ChallengeVector(h, next, name, index + 1, count);
      assert d.point[..k][1..] == rest.point[..k - 1] && d.point[..k][0] == x;
      var two := [Item("point-index", Number(index)), Item("derived-challenge", Element(x))];
      assert next.items == t.items + two;
      assert PointItems(d.point[..k], index) == two + PointItems(rest.point[..k - 1], index + 1);
      Regroup(t.items, two, PointItems(rest.point[..k - 1], index + 1));
    }
  }

  lemma Regroup(a: seq<Item>, b: seq<Item>, c: seq<Item>)
    ensures (a + b) + c == a + (b + c)
  {
  }

  /** The row and column points answer the binding, the shape and the three commitments. */
  lemma OpenAsks(h: Hashing, s: Statement)
    requires ValidateShape(s).Ok?
    ensures var o := Open(h, s);
            var header := StatementItems(s, o.aCommitment, o.bCommitment, o.cCommitment);
            && o.transcript.items == header + PointItems(o.rowPoint, 0) + PointItems(o.colPoint, 0)
            && o.transcript.counter == |o.rowPoint| + |o.colPoint|
            && |o.rowPoint| == Log2(s.rows) && |o.colPoint| == Log2(s.cols)
            && o.aCommitment == h.commit("A", s.rows, s.inner, FieldValues(s.a))
            && o.bCommitment == h.commit("B", s.inner, s.cols, FieldValues(s.b))
            && o.cCommitment == h.commit("C", s.rows, s.cols, FieldValues(s.c))
            && (forall k :: 0 <= k < |o.rowPoint| ==>
                  o.rowPoint[k] == h.oracle(PointQuery(header, 0, o.rowPoint, k), "row-point"))
            && (forall k :: 0 <= k < |o.colPoint| ==>
                  o.colPoint[k] == h.oracle(PointQuery(header + PointItems(o.rowPoint, 0), |o.rowPoint|, o.colPoint, k),
                                            "col-point"))
  {
    hide ChallengeVector, Log2, IsPowerOfTwo;
    var o := Open(h, s);
    var header := StatementItems(s, o.aCommitment, o.bCommitment, o.cCommitment);
    var start := Preamble(h, s, o.aCommitment, o.bCommitment, o.cCommitment);
    assert start == Transcript(header, 0);
    VectorItems(h, start, "row-point", 0, Log2(s.rows));
    var row := ChallengeVector(h, start, "row-point", 0, Log2(s.rows));
    VectorItems(h, row.transcript, "col-point", 0, Log2(s.cols));
    forall k | 0 <= k < |o.rowPoint|
      ensures o.rowPoint[k] == h.oracle(PointQuery(header, 0, o.rowPoint, k), "row-point")
    {
      VectorAsks(h, start, "row-point", 0, Log2(s.rows), k);
    }
    forall k | 0 <= k < |o.colPoint|
      ensures o.colPoint[k]
           == h.oracle(PointQuery(header + PointItems(o.rowPoint, 0), |o.rowPoint|, o.colPoint, k), "col-point")
    {
      VectorAsks(h, row.transcript, "col-point", 0, Log2(s.cols), k);
    }
  }

  // ----- the rounds ------------------------------------------------------------------------------------------

  function MessageOf(raw: RawRound): Round {
    if Canonical(raw).Ok? then Canonical(raw).value else Round(0, 0, 0)
  }

  function Messages(rounds: seq<RawRound>): (ms: seq<Round>)
    ensures |ms| == |rounds| && forall i :: 0 <= i < |rounds| ==> ms[i] == MessageOf(rounds[i])
  {
    if rounds == [] then [] else [MessageOf(rounds[0])] + Messages(rounds[1..])
  }

  /** Each round challenge of an accepted sequence of rounds answers its own message and everything before it. */
  lemma {:induction false} RoundsAsk(h: Hashing, t: Transcript, claim: Felt, rounds: seq<RawRound>, index: nat, i: nat)
    requires VerifyRounds(h, t, claim, rounds, index).Ok? && i < |rounds|
    ensures var point, ms := VerifyRounds(h, t, claim, rounds, index).value.point, Messages(rounds);
            && Canonical(rounds[i]).Ok?
            && point[i] == h.oracle(Transcript(t.items + RoundItems(ms[..i], point[..i], index)
                                               + [Item("round-index", Number(index + i)),
                                                  Item("round-message", Message(ms[i]))], t.counter + i),
                                    "sumcheck-round")
    decreases |rounds|
  {
    hide Add, EvaluateRound, VerifyRounds, Messages, RoundItems, MessageOf;
    FirstAsks(h, t, claim, rounds, index);
    AcceptedFirst(h, t, claim, rounds, index);
    var done := VerifyRounds(h, t, claim, rounds, index).value;
    var m, x, ms := Canonical(rounds[0]).value, done.point[0], Messages(rounds);
    MessageValue(rounds[0]);
    if i == 0 {
      NoRoundItems(index);
      assert ms[..0] == [] && done.point[..0] == [] && t.items + [] == t.items;
    } else {
      var next := AfterFirst(t, rounds, index, x);
      RoundsAsk(h, next, EvaluateRound(m, x), rounds[1..], index + 1, i - 1);
      MessageValue(rounds[i]);
      MessagesTail(rounds);
      ItemsShift(t, rounds, done.point, index, i);
    }
  }

  lemma MessageValue(raw: RawRound)
    requires Canonical(raw).Ok?
    ensures MessageOf(raw) == Canonical(raw).value
  {
  }

  lemma MessagesTail(rounds: seq<RawRound>)
    requires rounds != []
    ensures Messages(rounds[1..]) == Messages(rounds)[1..]
  {
  }

  lemma NoRoundItems(index: nat)
    ensures RoundItems([], [], index) == []
  {
  }

  /** The challenge of the first round answers its message. */
  lemma FirstAsks(h: Hashing, t: Transcript, claim: Felt, rounds: seq<RawRound>, index: nat)
    requires rounds != [] && VerifyRounds(h, t, claim, rounds, index).Ok?
    ensures Canonical(rounds[0]).Ok?
    ensures VerifyRounds(h, t, claim, rounds, index).value.point[0]
         == h.oracle(Transcript(t.items + [Item("round-index", Number(index)),
                                           Item("round-message", Message(MessageOf(rounds[0])))], t.counter),
                     "sumcheck-round")
  {
    hide Add, EvaluateRound;
    var m := Canonical(rounds[0]).value;
    var one := [Item("round-index", Number(index)), Item("round-message", Message(m))];
    assert (t.items + [one[0]]) + [one[1]] == t.items + one;
    assert AfterMessage(t, index, m) == Transcript(t.items + one, t.counter);
  }

  /** Items after the first round, continued, are the items of all rounds. */
  lemma ItemsShift(t: Transcript, rounds: seq<RawRound>, point: seq<Felt>, index: nat, i: nat)
    requires 0 < i < |rounds| == |point| && Canonical(rounds[0]).Ok?
    ensures var ms, next := Messages(rounds), AfterFirst(t, rounds, index, point[0]);
            && next.counter == t.counter + 1
            && next.items + RoundItems(ms[1..][..i - 1], point[1..][..i - 1], index + 1)
               == t.items + RoundItems(ms[..i], point[..i], index)
  {
    hide Messages;
    var ms, next := Messages(rounds), AfterFirst(t, rounds, index, point[0]);
    MessageValue(rounds[0]);
    var three := [Item("round-index", Number(index)), Item("round-message", Message(ms[0])),
                  Item("derived-challenge", Element(point[0]))];
    assert next.items == t.items + three;
    assert ms[..i][1..] == ms[1..][..i - 1] && point[..i][1..] == point[1..][..i - 1];
    Regroup(t.items, three, RoundItems(ms[1..][..i - 1], point[1..][..i - 1], index + 1));
  }

  /** The challenge of round i of the verifier is the oracle's answer to the listed query. */
  lemma RoundAnswersQuery(h: Hashing, s: Statement, rounds: seq<RawRound>, i: nat)
    requires ValidateShape(s).Ok? && i < |rounds|
    requires var o := Open(h, s);
             var start := o.transcript.Absorb("C-evaluation", Element(COpening(s, o)));
             VerifyRounds(h, start, COpening(s, o), rounds, 0).Ok?
    ensures var o := Open(h, s);
            var start := o.transcript.Absorb("C-evaluation", Element(COpening(s, o)));
            var point := VerifyRounds(h, start, COpening(s, o), rounds, 0).value.point;
            && Canonical(rounds[i]).Ok?
            && point[i] == h.oracle(RoundQuery(s, o, COpening(s, o), Messages(rounds), point, i), "sumcheck-round")
  {
    hide Open, COpening, VerifyRounds, Messages, RoundItems, PointItems, StatementItems, ValidateShape, Log2;
    var o := Open(h, s);
    var start := o.transcript.Absorb("C-evaluation", Element(COpening(s, o)));
    OpenAsks(h, s);
    RoundsAsk(h, start, COpening(s, o), rounds, 0, i);
  }

  // ----- a query determines what it holds -----------------------------------------------------------------------

  lemma {:induction false} PointItemAt(point: seq<Felt>, base: nat, k: nat)
    requires k < |point|
    ensures PointItems(point, base)[2 * k + 1] == Item("derived-challenge", Element(point[k]))
  {
    if k > 0 { PointItemAt(point[1..], base + 1, k - 1); }
  }

  lemma {:induction false} RoundItemAt(messages: seq<Round>, point: seq<Felt>, base: nat, k: nat)
    requires |messages| == |point| && k < |messages|
    ensures RoundItems(messages, point, base)[3 * k + 1] == Item("round-message", Message(messages[k]))
    ensures RoundItems(messages, point, base)[3 * k + 2] == Item("derived-challenge", Element(point[k]))
  {
    if k > 0 { RoundItemAt(messages[1..], point[1..], base + 1, k - 1); }
  }

  lemma SamePoints(a: seq<Felt>, b: seq<Felt>)
    requires PointItems(a, 0) == PointItems(b, 0)
    ensures a == b
  {
    assert |a| == |b|;
    forall k | 0 <= k < |a| ensures a[k] == b[k] {
      PointItemAt(a, 0, k);
      PointItemAt(b, 0, k);
    }
  }

  lemma SameRounds(ms: seq<Round>, ps: seq<Felt>, ns: seq<Round>, qs: seq<Felt>)
    requires |ms| == |ps| && |ns| == |qs| && RoundItems(ms, ps, 0) == RoundItems(ns, qs, 0)
    ensures ms == ns && ps == qs
  {
    assert |ms| == |ns|;
    forall k | 0 <= k < |ms| ensures ms[k] == ns[k] && ps[k] == qs[k] {
      RoundItemAt(ms, ps, 0, k);
      RoundItemAt(ns, qs, 0, k);
    }
  }

  lemma SplitEqual(a: seq<Item>, b: seq<Item>, a': seq<Item>, b': seq<Item>)
    requires a + b == a' + b' && |a| == |a'|
    ensures a == a' && b == b'
  {
    assert a == (a + b)[..|a|] && a' == (a' + b')[..|a'|];
    assert b == (a + b)[|a|..] && b' == (a' + b')[|a'|..];
  }

  lemma SameStatement(s: Statement, aC: Digest, bC: Digest, cC: Digest, s': Statement, aC': Digest, bC': Digest,
                      cC': Digest)
    requires StatementItems(s, aC, bC, cC) == StatementItems(s', aC', bC', cC')
    ensures s.binding == s'.binding && s.rows == s'.rows && s.inner == s'.inner && s.cols == s'.cols
    ensures aC == aC' && bC == bC' && cC == cC'
  {
    var x, y := StatementItems(s, aC, bC, cC), StatementItems(s', aC', bC', cC');
    assert x[1] == y[1] && x[2] == y[2] && x[3] == y[3] && x[4] == y[4] && x[5] == y[5] && x[6] == y[6] && x[7] == y[7];
  }

  /** The fixed-length parts of an opening. */
  lemma SameOpening(s: Statement, o: Opened, claim: Felt, s': Statement, o': Opened, claim': Felt, rest: seq<Item>,
                    rest': seq<Item>)
    requires |o.rowPoint| == Log2(s.rows) && |o.colPoint| == Log2(s.cols)
    requires |o'.rowPoint| == Log2(s'.rows) && |o'.colPoint| == Log2(s'.cols)
    requires OpeningItems(s, o, claim) + rest == OpeningItems(s', o', claim') + rest'
    ensures s.binding == s'.binding && s.rows == s'.rows && s.inner == s'.inner && s.cols == s'.cols
    ensures o.aCommitment == o'.aCommitment && o.bCommitment == o'.bCommitment && o.cCommitment == o'.cCommitment
    ensures o.rowPoint == o'.rowPoint && o.colPoint == o'.colPoint && claim == claim' && rest == rest'
  {
    hide Log2, PointItems, StatementItems;
    var h, h' := StatementItems(s, o.aCommitment, o.bCommitment, o.cCommitment),
                 StatementItems(s', o'.aCommitment, o'.bCommitment, o'.cCommitment);
    var r, c, e := PointItems(o.rowPoint, 0), PointItems(o.colPoint, 0), [Item("C-evaluation", Element(claim))];
    var r', c', e' := PointItems(o'.rowPoint, 0), PointItems(o'.colPoint, 0), [Item("C-evaluation", Element(claim'))];
    Flatten(h, r, c, e, rest);
    Flatten(h', r', c', e', rest');
    SplitEqual(h, r + (c + (e + rest)), h', r' + (c' + (e' + rest')));
    SameStatement(s, o.aCommitment, o.bCommitment, o.cCommitment, s', o'.aCommitment, o'.bCommitment, o'.cCommitment);
    SplitEqual(r, c + (e + rest), r', c' + (e' + rest'));
    SplitEqual(c, e + rest, c', e' + rest');
    SplitEqual(e, rest, e', rest');
    SamePoints(o.rowPoint, o'.rowPoint);
    SamePoints(o.colPoint, o'.colPoint);
    assert e[0] == e'[0];
  }

  lemma Flatten(h: seq<Item>, r: seq<Item>, c: seq<Item>, e: seq<Item>, rest: seq<Item>)
    ensures (((h + r) + c) + e) + rest == h + (r + (c + (e + rest)))
  {
    Regroup(h + r + c, e, rest);
    Regroup(h + r, c, e + rest);
    Regroup(h, r, c + (e + rest));
  }

  /** Equal queries of two drawn coordinates force the same binding, shape and commitments. */
  lemma PointQueryCommits(s: Statement, aC: Digest, bC: Digest, cC: Digest, prefix: seq<Item>, drawn: nat,
                          point: seq<Felt>, k: nat, s': Statement, aC': Digest, bC': Digest, cC': Digest,
                          prefix': seq<Item>, drawn': nat, point': seq<Felt>, k': nat)
    requires k <= |point| && k' <= |point'|
    requires PointQuery(StatementItems(s, aC, bC, cC) + prefix, drawn, point, k)
          == PointQuery(StatementItems(s', aC', bC', cC') + prefix', drawn', point', k')
    ensures s.binding == s'.binding && s.rows == s'.rows && s.inner == s'.inner && s.cols == s'.cols
    ensures aC == aC' && bC == bC' && cC == cC'
  {
    hide StatementItems, PointItems;
    var h, h' := StatementItems(s, aC, bC, cC), StatementItems(s', aC', bC', cC');
    var r, r' := PointItems(point[..k], 0), PointItems(point'[..k'], 0);
    var e, e' := [Item("point-index", Number(k))], [Item("point-index", Number(k'))];
    Regroup(h + prefix, r, e);
    Regroup(h, prefix, r + e);
    Regroup(h' + prefix', r', e');
    Regroup(h', prefix', r' + e');
    SplitEqual(h, prefix + (r + e), h', prefix' + (r' + e'));
    SameStatement(s, aC, bC, cC, s', aC', bC', cC');
  }

  /**
   * Equal queries of two round challenges force the same binding, shape, commitments, drawn point, opened
   * value, round number, messages up to and including this round, and earlier challenges.
   */
  lemma QueryCommits(s: Statement, o: Opened, claim: Felt, ms: seq<Round>, ps: seq<Felt>, i: nat, s': Statement,
                     o': Opened, claim': Felt, ns: seq<Round>, qs: seq<Felt>, j: nat)
    requires i < |ms| == |ps| && j < |ns| == |qs|
    requires |o.rowPoint| == Log2(s.rows) && |o.colPoint| == Log2(s.cols)
    requires |o'.rowPoint| == Log2(s'.rows) && |o'.colPoint| == Log2(s'.cols)
    requires RoundQuery(s, o, claim, ms, ps, i) == RoundQuery(s', o', claim', ns, qs, j)
    ensures s.binding == s'.binding && s.rows == s'.rows && s.inner == s'.inner && s.cols == s'.cols
    ensures o.aCommitment == o'.aCommitment && o.bCommitment == o'.bCommitment && o.cCommitment == o'.cCommitment
    ensures o.rowPoint == o'.rowPoint && o.colPoint == o'.colPoint && claim == claim'
    ensures i == j && ms[..i + 1] == ns[..j + 1] && ps[..i] == qs[..j]
  {
    hide Log2, RoundItems, OpeningItems;
    var x, y := RoundItems(ms[..i], ps[..i], 0), RoundItems(ns[..j], qs[..j], 0);
    var u := [Item("round-index", Number(i)), Item("round-message", Message(ms[i]))];
    var v := [Item("round-index", Number(j)), Item("round-message", Message(ns[j]))];
    Regroup(OpeningItems(s, o, claim), x, u);
    Regroup(OpeningItems(s', o', claim'), y, v);
    SameOpening(s, o, claim, s', o', claim', x + u, y + v);
    assert |x + u| == 3 * i + 2 && |y + v| == 3 * j + 2;
    SplitEqual(x, u, y, v);
    SameRounds(ms[..i], ps[..i], ns[..j], qs[..j]);
    assert u[1] == v[1];
    assert ms[..i + 1] == ms[..i] + [ms[i]] && ns[..j + 1] == ns[..j] + [ns[j]];
  }
}
