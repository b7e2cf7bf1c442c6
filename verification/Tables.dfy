/** Folding evaluation tables by neighbouring pairs, for any way of combining a pair. */
module Tables {
  import opened Arith

  /** The entries in k rows of the given width; a product kept out of the solver's arithmetic. */
  function Span(k: nat, width: nat): nat { if k == 0 then 0 else Span(k - 1, width) + width }

  lemma {:induction false} SpanIsProduct(k: nat, width: nat)
    ensures Span(k, width) == k * width
  {
    if k > 0 {
      SpanIsProduct(k - 1, width);
      MulDistrib(k - 1, 1, width);
    }
  }

  lemma SpanPow2(a: nat, b: nat)
    ensures Span(Pow2(a), Pow2(b)) == Pow2(b + a)
  {
    Pow2Add(a, b);
    SpanIsProduct(Pow2(a), Pow2(b));
  }

  lemma SplitAround<T>(t: seq<T>, low: nat, width: nat)
    requires low + width <= |t|
    ensures t == t[..low] + (t[low..low + width] + t[low + width..])
  {
  }

  lemma {:induction false} SpanHalves(k: nat, width: nat)
    ensures Span(k, 2 * width) == 2 * Span(k, width)
  {
    if k > 0 { SpanHalves(k - 1, width); }
  }

  /** Row j of m rows lies inside them. */
  lemma {:induction false} SpanFits(j: nat, m: nat, width: nat)
    requires j < m
    ensures Span(j, width) + width <= Span(m, width)
  {
    if j < m - 1 { SpanFits(j, m - 1, width); }
  }

  /** Binds the lowest variable: each pair of neighbours becomes one entry. */
  function Fold<T, R>(line: (T, T, R) -> T, t: seq<T>, r: R): (f: seq<T>)
    ensures |f| == |t| / 2
    ensures forall j :: 0 <= j < |f| ==> f[j] == line(t[2 * j], t[2 * j + 1], r)
  {
    seq(|t| / 2, j requires 0 <= j < |t| / 2 => line(t[2 * j], t[2 * j + 1], r))
  }

  function FoldAll<T, R>(line: (T, T, R) -> T, t: seq<T>, point: seq<R>): seq<T>
    decreases |point|
  {
    if point == [] then t else FoldAll(line, Fold(line, t, point[0]), point[1..])
  }

  lemma {:induction false} FoldAllLength<T, R>(line: (T, T, R) -> T, t: seq<T>, point: seq<R>, m: nat)
    requires |t| == Span(m, Pow2(|point|))
    ensures |FoldAll(line, t, point)| == m
    decreases |point|
  {
    if point == [] {
      SpanIsProduct(m, 1);
    } else {
      SpanHalves(m, Pow2(|point| - 1));
      FoldAllLength(line, Fold(line, t, point[0]), point[1..], m);
    }
  }

  lemma {:induction false} FoldAllAppend<T, R>(line: (T, T, R) -> T, t: seq<T>, p: seq<R>, q: seq<R>)
    ensures FoldAll(line, t, p + q) == FoldAll(line, FoldAll(line, t, p), q)
    decreases |p|
  {
    if p == [] {
      assert p + q == q;
    } else {
      assert (p + q)[1..] == p[1..] + q;
      FoldAllAppend(line, Fold(line, t, p[0]), p[1..], q);
    }
  }

  lemma FoldConcat<T, R>(line: (T, T, R) -> T, x: seq<T>, y: seq<T>, r: R)
    requires |x| % 2 == 0
    ensures Fold(line, x + y, r) == Fold(line, x, r) + Fold(line, y, r)
  {
    var h := |x| / 2;
    forall i | 0 <= i < |y| / 2 ensures Fold(line, x + y, r)[h + i] == Fold(line, y, r)[i] {
      assert (x + y)[2 * (h + i)] == y[2 * i] && (x + y)[2 * (h + i) + 1] == y[2 * i + 1];
    }
  }

  /** Whole rows fold independently of what follows them. */
  lemma {:induction false} FoldAllConcat<T, R>(line: (T, T, R) -> T, x: seq<T>, y: seq<T>, point: seq<R>, m: nat)
    requires |x| == Span(m, Pow2(|point|))
    ensures FoldAll(line, x + y, point) == FoldAll(line, x, point) + FoldAll(line, y, point)
    decreases |point|
  {
    if point != [] {
      SpanHalves(m, Pow2(|point| - 1));
      FoldConcat(line, x, y, point[0]);
      FoldAllConcat(line, Fold(line, x, point[0]), Fold(line, y, point[0]), point[1..], m);
    }
  }

  /** A row between two other parts of a table is evaluated on its own. */
  lemma FoldRowBetween<T, R>(line: (T, T, R) -> T, pre: seq<T>, row: seq<T>, post: seq<T>, point: seq<R>, j: nat)
    requires |pre| == Span(j, Pow2(|point|)) && |row| == Pow2(|point|)
    ensures |FoldAll(line, row, point)| == 1
    ensures |FoldAll(line, pre + (row + post), point)| > j
    ensures FoldAll(line, pre + (row + post), point)[j] == FoldAll(line, row, point)[0]
  {
    FoldAllConcat(line, pre, row + post, point, j);
    FoldAllConcat(line, row, post, point, 1);
    FoldAllLength(line, pre, point, j);
    FoldAllLength(line, row, point, 1);
  }

  /** Row j of a table whose rows have the given width. */
  function Row<T>(t: seq<T>, width: nat, j: nat): seq<T>
    requires Span(j, width) + width <= |t|
  {
    t[Span(j, width)..Span(j, width) + width]
  }

  /** Folding by all variables of a row evaluates every row on its own. */
  lemma FoldRows<T, R>(line: (T, T, R) -> T, t: seq<T>, point: seq<R>, width: nat, m: nat, j: nat)
    requires width == Pow2(|point|) && |t| == Span(m, width) && j < m
    ensures |FoldAll(line, t, point)| == m
    ensures Span(j, width) + width <= |t|
    ensures |FoldAll(line, Row(t, width, j), point)| == 1
    ensures FoldAll(line, t, point)[j] == FoldAll(line, Row(t, width, j), point)[0]
  {
    hide FoldAll, Fold, Pow2, Span;
    RowParts(t, width, m, j);
    var low := Span(j, width);
    var pre, row, post := t[..low], Row(t, width, j), t[low + width..];
    FoldRowBetween(line, pre, row, post, point, j);
    FoldAllLength(line, t, point, m);
  }

  /** What surrounds row j of m rows. */
  lemma RowParts<T>(t: seq<T>, width: nat, m: nat, j: nat)
    requires |t| == Span(m, width) && j < m
    ensures Span(j, width) + width <= |t| && |Row(t, width, j)| == width
    ensures t == t[..Span(j, width)] + (Row(t, width, j) + t[Span(j, width) + width..])
  {
    hide Span;
    SpanFits(j, m, width);
    SplitAround(t, Span(j, width), width);
  }
}
