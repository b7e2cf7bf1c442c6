/** Evaluation tables: folding, multilinear evaluation, equality weights and bilinear sums. */
module Multilinear {
  import opened Arith
  import opened Goldilocks
  import opened Tables

  function FoldField(t: seq<Felt>, r: Felt): seq<Felt> { Fold(Line, t, r) }

  function FoldAllField(t: seq<Felt>, point: seq<Felt>): seq<Felt> { FoldAll(Line, t, point) }

  /** The multilinear extension of a table, evaluated by folding. */
  function EvaluateMle(t: seq<Felt>, point: seq<Felt>): Felt
    requires |t| == Pow2(|point|)
  {
    FoldAllLength(Line, t, point, 1);
    FoldAllField(t, point)[0]
  }

  /** Weights of the table entries at a point, built one challenge at a time. */
  function Weights(point: seq<Felt>): (w: seq<Felt>)
    ensures |w| == Pow2(|point|)
    decreases |point|
  {
    if point == [] then [1] else Widen(Weights(point[..|point| - 1]), point[|point| - 1])
  }

  function Widen(w: seq<Felt>, r: Felt): (v: seq<Felt>)
    ensures |v| == 2 * |w|
    ensures forall i :: 0 <= i < |w| ==> v[i] == Mul(w[i], Sub(1, r)) && v[|w| + i] == Mul(w[i], r)
  {
    seq(|w|, i requires 0 <= i < |w| => Mul(w[i], Sub(1, r))) + seq(|w|, i requires 0 <= i < |w| => Mul(w[i], r))
  }

  /** Entry of a table, zero outside it. */
  function At(t: seq<Felt>, i: int): Felt { if 0 <= i < |t| then t[i] else 0 }

  function Dot(x: seq<Felt>, y: seq<Felt>, n: nat): Felt {
    if n == 0 then 0 else Add(Dot(x, y, n - 1), Mul(At(x, n - 1), At(y, n - 1)))
  }

  // ----- sums ---------------------------------------------------------------------------------

  lemma {:induction false} DotEqual(x: seq<Felt>, y: seq<Felt>, x': seq<Felt>, y': seq<Felt>, n: nat)
    requires forall i :: 0 <= i < n ==> At(x, i) == At(x', i) && At(y, i) == At(y', i)
    ensures Dot(x, y, n) == Dot(x', y', n)
  {
    hide Add, Mul, Sub, Line, Double, Mod;
    if n > 0 { DotEqual(x, y, x', y', n - 1); }
  }

  lemma {:induction false} DotCommutes(x: seq<Felt>, y: seq<Felt>, n: nat)
    ensures Dot(x, y, n) == Dot(y, x, n)
  {
    hide Add, Mul, Sub, Line, Double, Mod;
    if n > 0 {
      DotCommutes(x, y, n - 1);
      MulCommutes(At(x, n - 1), At(y, n - 1));
    }
  }

  /** Scaling every weight scales the sum. */
  lemma {:induction false} DotScaled(x: seq<Felt>, w: seq<Felt>, v: seq<Felt>, c: Felt, n: nat)
    requires forall i :: 0 <= i < n ==> At(v, i) == Mul(At(w, i), c)
    ensures Dot(x, v, n) == Mul(Dot(x, w, n), c)
  {
    hide Add, Mul, Sub, Line, Double, Mod;
    if n == 0 {
      AddZero(c);
    } else {
      DotScaled(x, w, v, c, n - 1);
      MulAssociates(At(x, n - 1), At(w, n - 1), c);
      MulDistributes(c, Dot(x, w, n - 1), Mul(At(x, n - 1), At(w, n - 1)));
    }
  }

  /** A sum over n + k entries splits after n. */
  lemma {:induction false} DotSplit(x: seq<Felt>, y: seq<Felt>, n: nat, k: nat)
    requires n <= |x| && n <= |y|
    ensures Dot(x, y, n + k) == Add(Dot(x, y, n), Dot(x[n..], y[n..], k))
  {
    hide Add, Mul, Sub, Line, Double, Mod;
    if k == 0 {
      AddZero(Dot(x, y, n));
    } else {
      DotSplit(x, y, n, k - 1);
      assert At(x[n..], k - 1) == At(x, n + k - 1) && At(y[n..], k - 1) == At(y, n + k - 1);
      AddAssoc(Dot(x, y, n), Dot(x[n..], y[n..], k - 1), Mul(At(x, n + k - 1), At(y, n + k - 1)));
    }
  }

  /** Folding to a point is the weighted sum of the table. */
  lemma {:induction false} MleIsWeightedSum(t: seq<Felt>, point: seq<Felt>)
    requires |t| == Pow2(|point|)
    ensures EvaluateMle(t, point) == Dot(t, Weights(point), |t|)
    decreases |point|
  {
    hide Add, Mul, Sub, Line, Double, Mod, Widen;
    if point == [] {
      MulOne(t[0]);
      AddZero(t[0]);
      assert Dot(t, [1], 1) == Add(Dot(t, [1], 0), Mul(t[0], 1));
    } else {
      var pre, c := point[..|point| - 1], point[|point| - 1];
      var half := Pow2(|pre|);
      LastVariable(t, pre, c);
      MleIsWeightedSum(t[..half], pre);
      MleIsWeightedSum(t[half..], pre);
      WeightedHalves(t, Weights(pre), c);
      assert point == pre + [c];
    }
  }

  /** Binding the last variable interpolates between the two halves of the table. */
  lemma LastVariable(t: seq<Felt>, pre: seq<Felt>, c: Felt)
    requires |t| == 2 * Pow2(|pre|)
    ensures |t| == Pow2(|pre + [c]|)
    ensures var half := Pow2(|pre|);
            EvaluateMle(t, pre + [c])
            == Add(Mul(EvaluateMle(t[..half], pre), Sub(1, c)), Mul(EvaluateMle(t[half..], pre), c))
  {
    hide Add, Mul, Sub, Line, Double, Mod;
    var half := Pow2(|pre|);
    FoldAllAppend(Line, t, pre, [c]);
    var ends := FoldAllField(t, pre);
    HalvesAreRows(t, half);
    FoldRows(Line, t, pre, half, 2, 0);
    FoldRows(Line, t, pre, half, 2, 1);
    assert FoldAllField(ends, [c]) == FoldField(ends, c);
    LineWeighted(ends[0], ends[1], c);
  }

  lemma HalvesAreRows(t: seq<Felt>, half: nat)
    requires |t| == 2 * half
    ensures Span(2, half) == |t|
    ensures Row(t, half, 0) == t[..half] && Row(t, half, 1) == t[half..]
  {
  }

  lemma WidenedEntries(w: seq<Felt>, c: Felt, i: nat)
    requires i < |w|
    ensures At(Widen(w, c), i) == Mul(At(w, i), Sub(1, c)) && At(Widen(w, c)[|w|..], i) == Mul(At(w, i), c)
  {
    hide Add, Mul, Sub, Line, Double, Mod;
  }

  lemma WeightedHalves(t: seq<Felt>, w: seq<Felt>, c: Felt)
    requires |t| == 2 * |w|
    ensures Dot(t, Widen(w, c), |t|)
         == Add(Mul(Dot(t[..|w|], w, |w|), Sub(1, c)), Mul(Dot(t[|w|..], w, |w|), c))
  {
    hide Add, Mul, Sub, Line, Double, Mod;
    var n, v := |w|, Widen(w, c);
    forall i | 0 <= i < n
      ensures At(v, i) == Mul(At(w, i), Sub(1, c)) && At(v[n..], i) == Mul(At(w, i), c)
    {
      WidenedEntries(w, c, i);
    }
    calc {
      Dot(t, v, n + n);
      { DotSplit(t, v, n, n); }
      Add(Dot(t, v, n), Dot(t[n..], v[n..], n));
      { DotEqual(t, v, t[..n], v, n); }
      Add(Dot(t[..n], v, n), Dot(t[n..], v[n..], n));
      { DotScaled(t[..n], w, v, Sub(1, c), n); }
      Add(Mul(Dot(t[..n], w, n), Sub(1, c)), Dot(t[n..], v[n..], n));
      { DotScaled(t[n..], w, v[n..], c, n); }
      Add(Mul(Dot(t[..n], w, n), Sub(1, c)), Mul(Dot(t[n..], w, n), c));
    }
  }

  // ----- bilinear sums over a row-major matrix --------------------------------------------------

  /** Entries of row i weighted by y. */
  function RowSum(m: seq<Felt>, width: nat, i: nat, y: seq<Felt>, n: nat): Felt {
    if n == 0 then 0 else Add(RowSum(m, width, i, y, n - 1), Mul(At(m, Span(i, width) + n - 1), At(y, n - 1)))
  }

  /** Entries of column j weighted by x. */
  function ColumnSum(m: seq<Felt>, width: nat, j: nat, x: seq<Felt>, k: nat): Felt {
    if k == 0 then 0 else Add(ColumnSum(m, width, j, x, k - 1), Mul(At(m, Span(k - 1, width) + j), At(x, k - 1)))
  }

  function RowsThenColumns(m: seq<Felt>, width: nat, y: seq<Felt>, n: nat, x: seq<Felt>, k: nat): Felt {
    if k == 0 then 0
    else Add(RowsThenColumns(m, width, y, n, x, k - 1), Mul(RowSum(m, width, k - 1, y, n), At(x, k - 1)))
  }

  function ColumnsThenRows(m: seq<Felt>, width: nat, x: seq<Felt>, k: nat, y: seq<Felt>, n: nat): Felt {
    if n == 0 then 0
    else Add(ColumnsThenRows(m, width, x, k, y, n - 1), Mul(ColumnSum(m, width, n - 1, x, k), At(y, n - 1)))
  }

  /** One more row adds its weighted row sum. */
  lemma {:induction false} AddRow(m: seq<Felt>, width: nat, x: seq<Felt>, k: nat, y: seq<Felt>, n: nat)
    requires k > 0
    ensures ColumnsThenRows(m, width, x, k, y, n)
         == Add(ColumnsThenRows(m, width, x, k - 1, y, n), Mul(RowSum(m, width, k - 1, y, n), At(x, k - 1)))
  {
    hide Add, Mul, Sub, Line, Double, Mod;
    if n == 0 {
      AddZero(At(x, k - 1));
      AddZero(0);
    } else {
      AddRow(m, width, x, k, y, n - 1);
      var before, prior := ColumnsThenRows(m, width, x, k - 1, y, n - 1), RowSum(m, width, k - 1, y, n - 1);
      var e, xk, yn := At(m, Span(k - 1, width) + n - 1), At(x, k - 1), At(y, n - 1);
      var column := ColumnSum(m, width, n - 1, x, k - 1);
      calc {
        ColumnsThenRows(m, width, x, k, y, n);
        Add(Add(before, Mul(prior, xk)), Mul(Add(column, Mul(e, xk)), yn));
        { MulDistributes(yn, column, Mul(e, xk)); }
        Add(Add(before, Mul(prior, xk)), Add(Mul(column, yn), Mul(Mul(e, xk), yn)));
        { AddSwap(before, Mul(prior, xk), Mul(column, yn), Mul(Mul(e, xk), yn)); }
        Add(Add(before, Mul(column, yn)), Add(Mul(prior, xk), Mul(Mul(e, xk), yn)));
        { MulAssociates(e, xk, yn); MulCommutes(xk, yn); MulAssociates(e, yn, xk); }
        Add(Add(before, Mul(column, yn)), Add(Mul(prior, xk), Mul(Mul(e, yn), xk)));
        { MulDistributes(xk, prior, Mul(e, yn)); }
        Add(Add(before, Mul(column, yn)), Mul(Add(prior, Mul(e, yn)), xk));
      }
    }
  }

  /** Summation order does not matter. */
  lemma {:induction false} Exchange(m: seq<Felt>, width: nat, x: seq<Felt>, k: nat, y: seq<Felt>, n: nat)
    ensures ColumnsThenRows(m, width, x, k, y, n) == RowsThenColumns(m, width, y, n, x, k)
  {
    hide Add, Mul, Sub, Line, Double, Mod;
    if k == 0 {
      NoRows(m, width, x, y, n);
    } else {
      Exchange(m, width, x, k - 1, y, n);
      AddRow(m, width, x, k, y, n);
    }
  }

  lemma {:induction false} NoRows(m: seq<Felt>, width: nat, x: seq<Felt>, y: seq<Felt>, n: nat)
    ensures ColumnsThenRows(m, width, x, 0, y, n) == 0
  {
    hide Add, Mul, Sub, Line, Double, Mod;
    if n > 0 {
      NoRows(m, width, x, y, n - 1);
      AddZero(At(y, n - 1));
      AddZero(0);
    }
  }

  lemma {:induction false} RowSumIsDot(m: seq<Felt>, width: nat, i: nat, y: seq<Felt>, n: nat)
    requires n <= width && Span(i, width) + width <= |m|
    ensures RowSum(m, width, i, y, n) == Dot(Row(m, width, i), y, n)
  {
    hide Add, Mul, Sub, Line, Double, Mod;
    if n > 0 {
      RowSumIsDot(m, width, i, y, n - 1);
      assert At(Row(m, width, i), n - 1) == At(m, Span(i, width) + n - 1);
    }
  }

  lemma {:induction false} RowsThenColumnsIsDot(m: seq<Felt>, width: nat, y: seq<Felt>, n: nat, x: seq<Felt>, k: nat,
                                                z: seq<Felt>)
    requires forall i :: 0 <= i < k ==> At(z, i) == RowSum(m, width, i, y, n)
    ensures RowsThenColumns(m, width, y, n, x, k) == Dot(z, x, k)
  {
    hide Add, Mul, Sub, Line, Double, Mod;
    if k > 0 { RowsThenColumnsIsDot(m, width, y, n, x, k - 1, z); }
  }

  lemma {:induction false} ColumnsThenRowsIsDot(m: seq<Felt>, width: nat, x: seq<Felt>, k: nat, y: seq<Felt>, n: nat,
                                                z: seq<Felt>)
    requires forall j :: 0 <= j < n ==> At(z, j) == ColumnSum(m, width, j, x, k)
    ensures ColumnsThenRows(m, width, x, k, y, n) == Dot(z, y, n)
  {
    hide Add, Mul, Sub, Line, Double, Mod;
    if n > 0 { ColumnsThenRowsIsDot(m, width, x, k, y, n - 1, z); }
  }

  lemma FoldedRow(m: seq<Felt>, rows: nat, cols: nat, low: seq<Felt>, i: nat)
    requires cols == Pow2(|low|) && |m| == Span(rows, cols) && i < rows
    ensures |FoldAllField(m, low)| == rows
    ensures FoldAllField(m, low)[i] == RowSum(m, cols, i, Weights(low), cols)
  {
    hide Add, Mul, Sub, Line, Double, Mod;
    FoldRows(Line, m, low, cols, rows, i);
    MleIsWeightedSum(Row(m, cols, i), low);
    RowSumIsDot(m, cols, i, Weights(low), cols);
  }

  /** Evaluating a matrix at (row variables after column variables) is a bilinear sum. */
  lemma MleOfMatrix(m: seq<Felt>, rows: nat, cols: nat, low: seq<Felt>, high: seq<Felt>)
    requires cols == Pow2(|low|) && rows == Pow2(|high|) && |m| == Span(rows, cols)
    ensures |m| == Pow2(|low + high|)
    ensures EvaluateMle(m, low + high) == RowsThenColumns(m, cols, Weights(low), cols, Weights(high), rows)
  {
    hide Add, Mul, Sub, Line, Double, Mod;
    assert |m| == Pow2(|low + high|) by { SpanPow2(|high|, |low|); }
    FoldAllLength(Line, m, low, rows);
    var folded := FoldAllField(m, low);
    forall i | 0 <= i < rows ensures At(folded, i) == RowSum(m, cols, i, Weights(low), cols) {
      FoldedRow(m, rows, cols, low, i);
    }
    FoldAllAppend(Line, m, low, high);
    MleIsWeightedSum(folded, high);
    RowsThenColumnsIsDot(m, cols, Weights(low), cols, Weights(high), rows, folded);
  }
}
