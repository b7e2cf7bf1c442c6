/** What the sumcheck guarantees about matrix products. */
module SumcheckTheorems {
  import opened Prelude
  import opened Arith
  import opened Goldilocks
  import opened Tables
  import opened Multilinear
  import opened Sumcheck

  /** Entry (i, j) of a row-major matrix. */
  function Entry(values: seq<i64>, rows: nat, cols: nat, i: nat, j: nat): int
    requires |values| == rows * cols && i < rows && j < cols
  {
    EntryFits(i, rows, j, cols);
    values[i * cols + j]
  }

  /** The integer entry (i, j) of A times B, over the first k inner indices. */
  function ProductEntry(s: Statement, i: nat, j: nat, k: nat): int
    requires ValidateShape(s).Ok? && i < s.rows && j < s.cols && k <= s.inner
  {
    if k == 0 then 0
    else
      ProductEntry(s, i, j, k - 1)
      + Entry(s.a, s.rows, s.inner, i, k - 1) * Entry(s.b, s.inner, s.cols, k - 1, j)
  }

  lemma EntryFits(i: nat, rows: nat, j: nat, cols: nat)
    requires i < rows && j < cols
    ensures 0 <= i * cols + j < rows * cols
    ensures Span(i, cols) + j == i * cols + j && Span(rows, cols) == rows * cols
  {
    SpanFits(i, rows, cols);
    SpanIsProduct(i, cols);
    SpanIsProduct(rows, cols);
  }

  /** C is the exact integer product of A and B. */
  ghost predicate IsProduct(s: Statement)
    requires ValidateShape(s).Ok?
  {
    forall i, j :: 0 <= i < s.rows && 0 <= j < s.cols ==>
                     Entry(s.c, s.rows, s.cols, i, j) == ProductEntry(s, i, j, s.inner)
  }

  // ----- the field image of an integer product -----------------------------------------------------

  lemma FieldEntry(values: seq<i64>, rows: nat, cols: nat, i: nat, j: nat)
    requires |values| == rows * cols && i < rows && j < cols
    ensures At(FieldValues(values), Span(i, cols) + j) == Mod(Entry(values, rows, cols, i, j))
  {
    hide Add, Mul, Sub, Line, Double, Mod;
    EntryFits(i, rows, j, cols);
    SignedMod(values[i * cols + j]);
  }

  /** One column-sum term over residues is the residue of the integer term. */
  lemma ColumnStep(b: seq<Felt>, cols: nat, j: nat, row: seq<Felt>, k: nat, prior: int, x: int, y: int)
    requires k > 0 && ColumnSum(b, cols, j, row, k - 1) == Mod(prior)
    requires At(b, Span(k - 1, cols) + j) == Mod(y) && At(row, k - 1) == Mod(x)
    ensures ColumnSum(b, cols, j, row, k) == Mod(prior + x * y)
  {
    hide Add, Mul, Sub, Line, Double, Mod;
    calc {
      ColumnSum(b, cols, j, row, k);
      Add(Mod(prior), Mul(Mod(y), Mod(x)));
      { MulMod(y, x); }
      Add(Mod(prior), Mod(y * x));
      { AddMod(prior, y * x); }
      Mod(prior + x * y);
    }
  }

  lemma {:induction false} ColumnSumIsEntry(s: Statement, i: nat, j: nat, k: nat, row: seq<Felt>)
    requires ValidateShape(s).Ok? && i < s.rows && j < s.cols && k <= s.inner
    requires forall c :: 0 <= c < s.inner ==> At(row, c) == At(FieldValues(s.a), Span(i, s.inner) + c)
    ensures ColumnSum(FieldValues(s.b), s.cols, j, row, k) == Mod(ProductEntry(s, i, j, k))
  {
    hide Add, Mul, Sub, Line, Double, Mod, Entry, IsPowerOfTwo, Span, At;
    if k == 0 {
      ModOfFelt(0);
    } else {
      ColumnSumIsEntry(s, i, j, k - 1, row);
      FieldEntry(s.a, s.rows, s.inner, i, k - 1);
      FieldEntry(s.b, s.inner, s.cols, k - 1, j);
      ColumnStep(FieldValues(s.b), s.cols, j, row, k, ProductEntry(s, i, j, k - 1),
                 Entry(s.a, s.rows, s.inner, i, k - 1), Entry(s.b, s.inner, s.cols, k - 1, j));
    }
  }

  // ----- the claim -----------------------------------------------------------------------------------

  lemma {:induction false} RowSumOfColumns(c: seq<Felt>, i: nat, b: seq<Felt>, cols: nat, row: seq<Felt>, inner: nat,
                                           v: seq<Felt>, n: nat)
    requires forall j :: 0 <= j < n ==> At(c, Span(i, cols) + j) == ColumnSum(b, cols, j, row, inner)
    ensures RowSum(c, cols, i, v, n) == ColumnsThenRows(b, cols, row, inner, v, n)
  {
    hide Add, Mul, Sub, Line, Double, Mod;
    if n > 0 { RowSumOfColumns(c, i, b, cols, row, inner, v, n - 1); }
  }

  /** c holds the field image of the product of A and B. */
  ghost predicate HoldsProduct(s: Statement, c: seq<Felt>)
    requires ValidateShape(s).Ok?
  {
    && |c| == s.rows * s.cols
    && forall i, j :: 0 <= i < s.rows && 0 <= j < s.cols ==>
       At(c, Span(i, s.cols) + j) == Mod(ProductEntry(s, i, j, s.inner))
  }

  lemma ProductImage(s: Statement)
    requires ValidateShape(s).Ok? && IsProduct(s)
    ensures HoldsProduct(s, FieldValues(s.c))
  {
    hide Add, Mul, Sub, Line, Double, Mod, Entry, IsPowerOfTwo, Span, At, ProductEntry;
    forall i, j | 0 <= i < s.rows && 0 <= j < s.cols
      ensures At(FieldValues(s.c), Span(i, s.cols) + j) == Mod(ProductEntry(s, i, j, s.inner))
    {
      FieldEntry(s.c, s.rows, s.cols, i, j);
      assert Entry(s.c, s.rows, s.cols, i, j) == ProductEntry(s, i, j, s.inner);
    }
  }

  /** Row i of the product weighted by the column weights is row i of A weighted by B's partial table. */
  lemma ProductRow(s: Statement, c: seq<Felt>, i: nat, v: seq<Felt>)
    requires ValidateShape(s).Ok? && HoldsProduct(s, c) && i < s.rows
    ensures var a, b := FieldValues(s.a), FieldValues(s.b);
            RowSum(c, s.cols, i, v, s.cols) == RowSum(a, s.inner, i, BPartial(b, s.inner, s.cols, v), s.inner)
  {
    hide Add, Mul, Sub, Line, Double, Mod, Entry, IsPowerOfTwo, Span, Dot, RowSum, ColumnSum, RowsThenColumns,
         ColumnsThenRows, ProductEntry;
    var a, b := FieldValues(s.a), FieldValues(s.b);
    SpanIsProduct(s.rows, s.inner);
    SpanFits(i, s.rows, s.inner);
    var row := Row(a, s.inner, i);
    var partial := BPartial(b, s.inner, s.cols, v);
    forall j | 0 <= j < s.cols ensures At(c, Span(i, s.cols) + j) == ColumnSum(b, s.cols, j, row, s.inner) {
      ColumnSumIsEntry(s, i, j, s.inner, row);
    }
    calc {
      RowSum(c, s.cols, i, v, s.cols);
      { RowSumOfColumns(c, i, b, s.cols, row, s.inner, v, s.cols); }
      ColumnsThenRows(b, s.cols, row, s.inner, v, s.cols);
      { Exchange(b, s.cols, row, s.inner, v, s.cols); }
      RowsThenColumns(b, s.cols, v, s.cols, row, s.inner);
      { RowsThenColumnsIsDot(b, s.cols, v, s.cols, row, s.inner, partial); }
      Dot(partial, row, s.inner);
      { DotCommutes(partial, row, s.inner); }
      Dot(row, partial, s.inner);
      { RowSumIsDot(a, s.inner, i, partial, s.inner); }
      RowSum(a, s.inner, i, partial, s.inner);
    }
  }

  lemma {:induction false} SameRows(m: seq<Felt>, w: nat, y: seq<Felt>, n: nat, m': seq<Felt>, w': nat, y': seq<Felt>,
                                    n': nat, x: seq<Felt>, k: nat)
    requires forall i :: 0 <= i < k ==> RowSum(m, w, i, y, n) == RowSum(m', w', i, y', n')
    ensures RowsThenColumns(m, w, y, n, x, k) == RowsThenColumns(m', w', y', n', x, k)
  {
    hide Add, Mul, Sub, Line, Double, Mod;
    if k > 0 { SameRows(m, w, y, n, m', w', y', n', x, k - 1); }
  }

  /** The inner product of the partial tables is a bilinear sum over A. */
  lemma PartialDot(s: Statement, a: seq<Felt>, rowWeights: seq<Felt>, y: seq<Felt>)
    ensures Dot(APartial(a, s.rows, s.inner, rowWeights), y, s.inner)
         == RowsThenColumns(a, s.inner, y, s.inner, rowWeights, s.rows)
  {
    hide Add, Mul, Sub, Line, Double, Mod;
    var p := APartial(a, s.rows, s.inner, rowWeights);
    ColumnsThenRowsIsDot(a, s.inner, rowWeights, s.rows, y, s.inner, p);
    Exchange(a, s.inner, rowWeights, s.rows, y, s.inner);
  }

  /** The sum the rounds are about is the multilinear extension of the product at the drawn point. */
  lemma ProductOpening(h: Hashing, s: Statement, c: seq<Felt>)
    requires ValidateShape(s).Ok? && HoldsProduct(s, c)
    ensures var o := Open(h, s);
            && |c| == Pow2(|o.colPoint + o.rowPoint|)
            && EvaluateMle(c, o.colPoint + o.rowPoint) == Dot(HonestA(s, o), HonestB(s, o), s.inner)
  {
    hide Add, Mul, Sub, Line, Double, Mod, IsPowerOfTwo, Span, Dot, RowSum, RowsThenColumns, Weights, EvaluateMle,
         ProductEntry;
    var o := Open(h, s);
    var v, w := Weights(o.colPoint), Weights(o.rowPoint);
    SpanIsProduct(s.rows, s.cols);
    MleOfMatrix(c, s.rows, s.cols, o.colPoint, o.rowPoint);
    forall i | 0 <= i < s.rows
      ensures RowSum(c, s.cols, i, v, s.cols) == RowSum(o.a, s.inner, i, HonestB(s, o), s.inner)
    {
      ProductRow(s, c, i, v);
    }
    SameRows(c, s.cols, v, s.cols, o.a, s.inner, HonestB(s, o), s.inner, w, s.rows);
    PartialDot(s, o.a, w, HonestB(s, o));
  }

  /** For a product over the field the opened value of C is the sum the rounds are about. */
  lemma HonestClaim(h: Hashing, s: Statement)
    requires ValidateShape(s).Ok? && HoldsProduct(s, FieldValues(s.c))
    ensures var o := Open(h, s); COpening(s, o) == Dot(HonestA(s, o), HonestB(s, o), s.inner)
  {
    hide Add, Mul, Sub, Line, Double, Mod, IsPowerOfTwo, Dot, Weights, EvaluateMle, HonestA, HonestB, HoldsProduct;
    ProductOpening(h, s, FieldValues(s.c));
  }

  // ----- the openings --------------------------------------------------------------------------------

  /** A's opening at the round challenges and the row point is its partial table folded by the rounds. */
  lemma AOpening(s: Statement, o: Opened, point: seq<Felt>)
    requires ValidateShape(s).Ok? && |point| == Log2(s.inner)
    requires Pow2(|o.rowPoint|) == s.rows && Pow2(|o.colPoint|) == s.cols
    requires |o.a| == s.rows * s.inner && |o.b| == s.inner * s.cols
    ensures |o.a| == Pow2(|point + o.rowPoint|)
    ensures EvaluateMle(o.a, point + o.rowPoint) == At(FoldAllField(HonestA(s, o), point), 0)
  {
    hide Add, Mul, Sub, Line, Double, Mod;
    MatrixPoints(s, o, point);
    SpanIsProduct(s.rows, s.inner);
    MleOfMatrix(o.a, s.rows, s.inner, point, o.rowPoint);
    PartialDot(s, o.a, Weights(o.rowPoint), Weights(point));
    MleIsWeightedSum(HonestA(s, o), point);
    FoldAllLength(Line, HonestA(s, o), point, 1);
  }

  lemma BOpening(s: Statement, o: Opened, point: seq<Felt>)
    requires ValidateShape(s).Ok? && |point| == Log2(s.inner)
    requires Pow2(|o.rowPoint|) == s.rows && Pow2(|o.colPoint|) == s.cols
    requires |o.a| == s.rows * s.inner && |o.b| == s.inner * s.cols
    ensures |o.b| == Pow2(|o.colPoint + point|)
    ensures EvaluateMle(o.b, o.colPoint + point) == At(FoldAllField(HonestB(s, o), point), 0)
  {
    hide Add, Mul, Sub, Line, Double, Mod;
    MatrixPoints(s, o, point);
    SpanIsProduct(s.inner, s.cols);
    BTableIsFolded(s, o);
    FoldAllAppend(Line, o.b, o.colPoint, point);
    FoldAllLength(Line, HonestB(s, o), point, 1);
  }

  /** Folding B by the column point alone gives its partial table. */
  lemma BTableIsFolded(s: Statement, o: Opened)
    requires Pow2(|o.colPoint|) == s.cols && |o.b| == s.inner * s.cols
    ensures FoldAllField(o.b, o.colPoint) == HonestB(s, o)
  {
    hide Add, Mul, Sub, Line, Double, Mod;
    SpanIsProduct(s.inner, s.cols);
    FoldAllLength(Line, o.b, o.colPoint, s.inner);
    forall k | 0 <= k < s.inner ensures FoldAllField(o.b, o.colPoint)[k] == HonestB(s, o)[k] {
      FoldedRow(o.b, s.inner, s.cols, o.colPoint, k);
    }
  }

  // ----- main theorems -------------------------------------------------------------------------------

  lemma HonestTerminal(s: Statement, o: Opened, proof: Proof, a: Felt, b: Felt, point: seq<Felt>)
    requires ValidateShape(s).Ok? && |point| == Log2(s.inner)
    requires Pow2(|o.rowPoint|) == s.rows && Pow2(|o.colPoint|) == s.cols
    requires |o.a| == s.rows * s.inner && |o.b| == s.inner * s.cols
    requires proof.aFinal == a == At(FoldAllField(HonestA(s, o), point), 0)
    requires proof.bFinal == b == At(FoldAllField(HonestB(s, o), point), 0)
    ensures VerifyTerminal(s, o, proof, Checked(Mul(a, b), point)) == Ok(())
  {
    hide Add, Mul, Sub, Line, Double, Mod;
    AOpening(s, o, point);
    BOpening(s, o, point);
  }

  /** The honest rounds, started from the opened C value. */
  lemma HonestRounds(h: Hashing, s: Statement, o: Opened, start: Transcript)
    requires ValidateShape(s).Ok? && HoldsProduct(s, FieldValues(s.c))
    requires o == Open(h, s) && start == o.transcript.Absorb("C-evaluation", Element(COpening(s, o)))
    ensures var p := ProveRounds(h, start, HonestA(s, o), HonestB(s, o), 0, Log2(s.inner));
            && |p.rounds| == |p.point| == Log2(s.inner)
            && VerifyRounds(h, start, COpening(s, o), p.rounds, 0) == Ok(Checked(Mul(At(p.a, 0), At(p.b, 0)), p.point))
            && At(p.a, 0) == At(FoldAllField(HonestA(s, o), p.point), 0)
            && At(p.b, 0) == At(FoldAllField(HonestB(s, o), p.point), 0)
  {
    hide Add, Mul, Sub, Line, Double, Mod, IsPowerOfTwo, Dot, VerifyRounds, ProveRounds, Weights, ColumnSum, RowSum,
         HoldsProduct;
    HonestClaim(h, s);
    RoundsComplete(h, start, HonestA(s, o), HonestB(s, o), 0, Log2(s.inner));
  }

  /** Every product over the field has an accepted proof, whatever the challenges turn out to be. */
  lemma Completeness(h: Hashing, s: Statement)
    requires ValidateShape(s).Ok? && HoldsProduct(s, FieldValues(s.c))
    ensures Prove(h, s).Ok?
    ensures Verify(h, s, Prove(h, s).value) == Ok(())
  {
    hide Add, Mul, Sub, Line, Double, Mod, IsPowerOfTwo, Dot, VerifyTerminal, VerifyRounds, ProveRounds, HonestA,
         HonestB, HoldsProduct;
    var o := Open(h, s);
    var start := o.transcript.Absorb("C-evaluation", Element(COpening(s, o)));
    HonestRounds(h, s, o, start);
    var p := ProveRounds(h, start, HonestA(s, o), HonestB(s, o), 0, Log2(s.inner));
    HonestTerminal(s, o, Prove(h, s).value, At(p.a, 0), At(p.b, 0), p.point);
  }

  /** No entry of C is as far as the modulus from the entry of the integer product. */
  ghost predicate NearProduct(s: Statement)
    requires ValidateShape(s).Ok?
  {
    forall i, j :: 0 <= i < s.rows && 0 <= j < s.cols ==>
                     -P < Entry(s.c, s.rows, s.cols, i, j) - ProductEntry(s, i, j, s.inner) < P
  }

  /** A product over the field is the integer product exactly when it is near it. */
  lemma FieldProductIsInteger(s: Statement)
    requires ValidateShape(s).Ok?
    ensures IsProduct(s) <==> HoldsProduct(s, FieldValues(s.c)) && NearProduct(s)
  {
    hide IsPowerOfTwo, Span, At, ProductEntry, Entry, Mod;
    if IsProduct(s) { ProductImage(s); }
    if HoldsProduct(s, FieldValues(s.c)) && NearProduct(s) {
      forall i, j | 0 <= i < s.rows && 0 <= j < s.cols
        ensures Entry(s.c, s.rows, s.cols, i, j) == ProductEntry(s, i, j, s.inner)
      {
        FieldEntry(s.c, s.rows, s.cols, i, j);
        SameResidueNear(Entry(s.c, s.rows, s.cols, i, j), ProductEntry(s, i, j, s.inner));
      }
    }
  }

  lemma SameResidueNear(x: int, y: int)
    requires Mod(x) == Mod(y) && -P < x - y < P
    ensures x == y
  {
    DivMod(x, P);
    DivMod(y, P);
    MulDistrib(x / P, y / P, P);
    MulSign(x / P - y / P, P);
  }

  /** 2^32 times 2^32 is congruent to 2^32 - 1, and is accepted as a proof of it under every challenge function. */
  lemma CongruentProductAccepted(h: Hashing, binding: seq<byte>)
    ensures var s := Statement(binding, [0x1_0000_0000], [0x1_0000_0000], [0xFFFF_FFFF], 1, 1, 1);
            && ValidateShape(s).Ok? && !IsProduct(s) && HoldsProduct(s, FieldValues(s.c))
            && Prove(h, s).Ok? && Verify(h, s, Prove(h, s).value) == Ok(())
  {
    hide Prove, Verify;
    var s := Statement(binding, [0x1_0000_0000], [0x1_0000_0000], [0xFFFF_FFFF], 1, 1, 1);
    assert Entry(s.a, 1, 1, 0, 0) == Entry(s.b, 1, 1, 0, 0) == 0x1_0000_0000 && Entry(s.c, 1, 1, 0, 0) == 0xFFFF_FFFF;
    assert ProductEntry(s, 0, 0, 0) == 0;
    assert ProductEntry(s, 0, 0, 1) == 0x1_0000_0000 * 0x1_0000_0000;
    assert HoldsProduct(s, FieldValues(s.c)) by {
      FieldEntry(s.c, 1, 1, 0, 0);
    }
    Completeness(h, s);
  }

  /** An accepted proof's rounds end at the product of the honestly folded tables. */
  lemma AcceptedEndsTrue(s: Statement, o: Opened, proof: Proof, done: Checked)
    requires ValidateShape(s).Ok? && |done.point| == Log2(s.inner)
    requires Pow2(|o.rowPoint|) == s.rows && Pow2(|o.colPoint|) == s.cols
    requires |o.a| == s.rows * s.inner && |o.b| == s.inner * s.cols
    requires VerifyTerminal(s, o, proof, done).Ok?
    ensures EndsTrue(HonestA(s, o), HonestB(s, o), done)
  {
    hide Add, Mul, Sub, Line, Double, Mod;
    AOpening(s, o, done.point);
    BOpening(s, o, done.point);
  }

  /**
   * If the verifier accepts although the opened C value is not the sum of the partial products, some
   * round sent a quadratic other than the honest one that agrees with it at that round's challenge.
   */
  lemma Soundness(h: Hashing, s: Statement, proof: Proof) returns (i: nat)
    requires Verify(h, s, proof).Ok?
    requires ValidateShape(s).Ok?
    requires var o := Open(h, s); COpening(s, o) != Dot(HonestA(s, o), HonestB(s, o), s.inner)
    ensures var o := Open(h, s);
            var start := o.transcript.Absorb("C-evaluation", Element(COpening(s, o)));
            var done := VerifyRounds(h, start, COpening(s, o), proof.rounds, 0);
            && done.Ok? && i < |proof.rounds|
            && LuckyRound(HonestA(s, o), HonestB(s, o), proof.rounds, done.value.point, i)
  {
    hide Add, Mul, Sub, Line, Double, Mod, IsPowerOfTwo, Dot, VerifyTerminal, VerifyRounds, LuckyRound, EndsTrue, Open,
         COpening, ColumnSum, RowSum, Weights;
    var o := Open(h, s);
    var start := o.transcript.Absorb("C-evaluation", Element(COpening(s, o)));
    var done := VerifyRounds(h, start, COpening(s, o), proof.rounds, 0);
    AcceptedEndsTrue(s, o, proof, done.value);
    i := RoundsSound(h, start, HonestA(s, o), HonestB(s, o), COpening(s, o), proof.rounds, 0);
  }
}
