/** Cumulative work, the 180-block retarget rule and median-time-past. */
module Difficulty {
  import opened Prelude
  import opened Arith

  const TARGET_SPACING_SECONDS: nat := 60
  const DGW_WINDOW: nat := 180
  const MEDIAN_TIME_WINDOW: nat := 11
  /** 2^512, the first value a cumulative-work counter cannot hold. */
  const WORK_LIMIT: int := TWO_256 * TWO_256

  datatype HeaderWork = HeaderWork(timestamp: u64, target: u256)

  datatype DifficultyError = ZeroPowLimit | ZeroTarget | TimestampOrder | WorkOverflow

  // ----- cumulative work --------------------------------------------------------------------

  /** floor(2^256 / (target + 1)). */
  function BlockWork(target: u256): (r: Result<nat, DifficultyError>)
    ensures r.Ok? <==> target > 0
    ensures r.Ok? ==> 1 <= r.value <= TWO_256 / 2
    ensures r.Ok? ==> r.value * (target + 1) <= TWO_256 < (r.value + 1) * (target + 1)
  {
    if target == 0 then Err(ZeroTarget)
    else
      WorkBounds(target);
      Ok(TWO_256 / (target + 1))
  }

  lemma WorkBounds(target: u256)
    requires target > 0
    ensures var w := TWO_256 / (target + 1);
            1 <= w <= TWO_256 / 2 && w * (target + 1) <= TWO_256 < (w + 1) * (target + 1)
  {
    var n := target + 1;
    var w := TWO_256 / n;
    DivMod(TWO_256, n);
    MulDistrib(w, 1, n);
    DivMonotone(n, TWO_256, n);
    EuclidUnique(n, n, 1, 0);
    DivNonneg(TWO_256, n);
    MulMono(2, n, w);
  }

  function AddChainWork(current: nat, target: u256): (r: Result<nat, DifficultyError>)
    ensures r.Ok? ==> current < r.value < WORK_LIMIT
  {
    var work :- BlockWork(target);
    if current + work >= WORK_LIMIT then Err(WorkOverflow) else Ok(current + work)
  }

  // ----- retargeting ------------------------------------------------------------------------

  function Window(history: seq<HeaderWork>): (w: seq<HeaderWork>)
    ensures |w| <= DGW_WINDOW && (history != [] ==> w != [])
  {
    if |history| <= DGW_WINDOW then history else history[|history| - DGW_WINDOW..]
  }

  ghost predicate Ordered(w: seq<HeaderWork>) {
    forall i :: 0 < i < |w| ==> w[i - 1].timestamp <= w[i].timestamp
  }

  ghost predicate NonzeroTargets(w: seq<HeaderWork>) {
    forall i :: 0 <= i < |w| ==> w[i].target > 0
  }

  function TargetSum(w: seq<HeaderWork>, count: nat): (sum: nat)
    requires count <= |w|
  {
    if count == 0 then 0 else TargetSum(w, count - 1) + w[count - 1].target
  }

  function Average(w: seq<HeaderWork>): nat
    requires |w| > 0
  {
    TargetSum(w, |w|) / |w|
  }

  function ExpectedSpan(w: seq<HeaderWork>): nat
    requires |w| >= 2
  {
    (|w| - 1) * TARGET_SPACING_SECONDS
  }

  function MeasuredSpan(w: seq<HeaderWork>): int
    requires |w| >= 2
  {
    w[|w| - 1].timestamp - w[0].timestamp
  }

  function Clamp(x: int, low: int, high: int): int {
    if x < low then low else if x > high then high else x
  }

  /** The retargeted value before it is capped by the proof-of-work limit. */
  function Adjusted(w: seq<HeaderWork>): int
    requires |w| >= 2
  {
    var expected := ExpectedSpan(w);
    Average(w) * Clamp(MeasuredSpan(w), expected / 3, expected * 3) / expected
  }

  function CapTarget(adjusted: int, powLimit: u256): int {
    var capped := if adjusted <= powLimit then adjusted else powLimit;
    if capped == 0 then 1 else capped
  }

  /** The error the window scan stops at, if any: ordering is checked before targets. */
  ghost function WindowError(w: seq<HeaderWork>): Option<DifficultyError> {
    if !Ordered(w) then Some(TimestampOrder)
    else if !NonzeroTargets(w) then Some(ZeroTarget)
    else None
  }

  ghost function ExpectedTarget(history: seq<HeaderWork>, powLimit: u256): Result<int, DifficultyError> {
    var w := Window(history);
    if powLimit == 0 then Err(ZeroPowLimit)
    else if history == [] then Ok(powLimit)
    else if WindowError(w).Some? then Err(WindowError(w).value)
    else if |w| == 1 then Ok(if w[0].target <= powLimit then w[0].target else powLimit)
    else Ok(CapTarget(Adjusted(w), powLimit))
  }

  method NextWorkTarget(history: seq<HeaderWork>, powLimit: u256)
    returns (r: Result<u256, DifficultyError>)
    ensures r.Ok? == ExpectedTarget(history, powLimit).Ok?
    ensures r.Ok? ==> r.value == ExpectedTarget(history, powLimit).value
    ensures r.Err? ==> r.error == ExpectedTarget(history, powLimit).error
  {
    hide Adjusted, Average, ExpectedSpan, MeasuredSpan, Clamp;
    if powLimit == 0 { return Err(ZeroPowLimit); }
    if history == [] { return Ok(powLimit); }
    var w := Window(history);
    var i := 1;
    while i < |w|
      invariant 1 <= i <= |w|
      invariant forall k :: 0 < k < i ==> w[k - 1].timestamp <= w[k].timestamp
    {
      if w[i].timestamp < w[i - 1].timestamp { return Err(TimestampOrder); }
      i := i + 1;
    }
    assert Ordered(w);
    var targetSum := 0;
    var j := 0;
    while j < |w|
      invariant 0 <= j <= |w|
      invariant targetSum == TargetSum(w, j)
      invariant forall k :: 0 <= k < j ==> w[k].target > 0
    {
      if w[j].target == 0 { return Err(ZeroTarget); }
      targetSum := targetSum + w[j].target;
      j := j + 1;
    }
    if |w| == 1 {
      return Ok(if w[0].target <= powLimit then w[0].target else powLimit);
    }
    var adjusted := Rescale(w, targetSum);
    var capped := if adjusted <= powLimit then adjusted else powLimit;
    return Ok(if capped == 0 then 1 else capped);
  }

  /** The average target, scaled by the clamped measured span over the expected one. */
  method Rescale(w: seq<HeaderWork>, targetSum: nat) returns (adjusted: nat)
    requires |w| >= 2 && targetSum == TargetSum(w, |w|)
    ensures adjusted == Adjusted(w)
  {
    hide TargetSum;
    AdjustedBounds(w);
    var count := |w|;
    var average := targetSum / count;
    var expectedSpan := (count - 1) * TARGET_SPACING_SECONDS;
    var measuredSpan := w[|w| - 1].timestamp - w[0].timestamp;
    adjusted := average * Clamp(measuredSpan, expectedSpan / 3, expectedSpan * 3) / expectedSpan;
  }

  // ----- what the retarget rule guarantees --------------------------------------------------

  lemma ScaleBounds(average: nat, span: nat, expected: nat)
    requires expected > 0 && expected % 3 == 0 && expected / 3 <= span <= expected * 3
    ensures average / 3 <= average * span / expected <= average * 3
    ensures span <= expected ==> average * span / expected <= average
    ensures span >= expected ==> average * span / expected >= average
    ensures average * span <= average * 3 * expected
  {
    var third := expected / 3;
    MulMono(third, span, average);
    MulMono(span, expected * 3, average);
    MulAssoc(average, expected, 3);
    MulAssoc(average, 3, expected);
    DivOfMultiple(average, expected);
    DivOfMultiple(average * 3, expected);
    DivMonotone(average * span, (average * 3) * expected, expected);
    DivMonotone(average * third, average * span, expected);
    // average * third / expected == average / 3
    var q, r := average / 3, average % 3;
    MulDistrib(q * 3, r, third);
    MulAssoc(q, 3, third);
    MulMono(0, r, third);
    MulMono(r, 2, third);
    EuclidUnique(average * third, expected, q, r * third);
    if span <= expected {
      MulMono(span, expected, average);
      DivMonotone(average * span, average * expected, expected);
    }
    if span >= expected {
      MulMono(expected, span, average);
      DivMonotone(average * expected, average * span, expected);
    }
  }

  /**
   * Before the cap a retarget stays within a factor of three of the window average; it never eases
   * the target after a fast window and never hardens it after a slow one.
   */
  lemma AdjustedBounds(w: seq<HeaderWork>)
    requires |w| >= 2
    ensures Average(w) / 3 <= Adjusted(w) <= 3 * Average(w)
    ensures MeasuredSpan(w) <= ExpectedSpan(w) ==> Adjusted(w) <= Average(w)
    ensures MeasuredSpan(w) >= ExpectedSpan(w) ==> Adjusted(w) >= Average(w)
  {
    var expected := ExpectedSpan(w);
    DivNonneg(TargetSum(w, |w|), |w|);
    ScaleBounds(Average(w), Clamp(MeasuredSpan(w), expected / 3, expected * 3), expected);
  }

  /** An ordered history with nonzero targets always yields a target in 1..powLimit. */
  lemma RetargetSucceeds(history: seq<HeaderWork>, powLimit: u256)
    requires powLimit > 0
    requires Ordered(history) && NonzeroTargets(history)
    ensures ExpectedTarget(history, powLimit).Ok?
    ensures 1 <= ExpectedTarget(history, powLimit).value <= powLimit
  {
    hide Adjusted, Average, TargetSum, MeasuredSpan, ExpectedSpan;
    var w := Window(history);
    if history != [] {
      var start := |history| - |w|;
      assert forall k :: 0 <= k < |w| ==> w[k] == history[start + k];
      assert Ordered(w) by {
        forall i | 0 < i < |w| ensures w[i - 1].timestamp <= w[i].timestamp {
          assert history[start + i - 1].timestamp <= history[start + i].timestamp;
        }
      }
      if |w| >= 2 {
        AdjustedBounds(w);
        assert Adjusted(w) >= 0;
      }
    }
  }

  // ----- what the rule computes, header by header ---------------------------------------------

  /** Sum of the targets of headers from..to. */
  ghost function TargetTotal(history: seq<HeaderWork>, from: nat, to: nat): nat
    requires from <= to <= |history|
    decreases |history| - from
  {
    if from == to then 0 else history[from].target + TargetTotal(history, from + 1, to)
  }

  lemma {:induction false} TotalSnoc(history: seq<HeaderWork>, from: nat, to: nat)
    requires from < to <= |history|
    ensures TargetTotal(history, from, to) == TargetTotal(history, from, to - 1) + history[to - 1].target
    decreases |history| - from
  {
    if from < to - 1 { TotalSnoc(history, from + 1, to); }
  }

  lemma {:induction false} WindowTotal(history: seq<HeaderWork>, n: nat, count: nat)
    requires count <= n <= |history|
    ensures TargetSum(history[|history| - n..], count) == TargetTotal(history, |history| - n, |history| - n + count)
  {
    if count > 0 {
      WindowTotal(history, n, count - 1);
      TotalSnoc(history, |history| - n, |history| - n + count);
    }
  }

  /** The number of headers the rule looks back on. */
  function LookBack(history: seq<HeaderWork>): (n: nat)
    ensures n <= |history|
  {
    if |history| <= 180 then |history| else 180
  }

  /** The time between the first and the last header of the window, held to a factor of three of the schedule. */
  ghost function HeldSpan(history: seq<HeaderWork>): int
    requires |history| >= 2
  {
    var n := LookBack(history);
    var expected := 60 * (n - 1);
    var span := history[|history| - 1].timestamp - history[|history| - n].timestamp;
    if span * 3 < expected then expected / 3 else if span > 3 * expected then 3 * expected else span
  }

  /**
   * The target is the average of the last 180 targets, or of all there are, scaled by the held span over the
   * scheduled one, both divisions rounded down; then at most the limit and at least one.
   */
  lemma RetargetArithmetic(history: seq<HeaderWork>, powLimit: u256) returns (average: nat, adjusted: nat)
    requires |history| >= 2 && ExpectedTarget(history, powLimit).Ok?
    ensures IsFloor(average, TargetTotal(history, |history| - LookBack(history), |history|), LookBack(history))
    ensures average * HeldSpan(history) >= 0 && LookBack(history) >= 2
    ensures IsFloor(adjusted, average * HeldSpan(history), 60 * (LookBack(history) - 1))
    ensures ExpectedTarget(history, powLimit).value
         == if adjusted >= powLimit then powLimit else if adjusted == 0 then 1 else adjusted
  {
    hide *;
    TargetIsCapped(history, powLimit);
    AverageFloor(history);
    AdjustedFloor(history);
    average, adjusted := Average(Window(history)), Adjusted(Window(history));
    Capped(adjusted, powLimit);
  }

  lemma AverageFloor(history: seq<HeaderWork>)
    requires |history| >= 2
    ensures Window(history) != [] && LookBack(history) >= 2 && Average(Window(history)) >= 0
    ensures IsFloor(Average(Window(history)), TargetTotal(history, |history| - LookBack(history), |history|),
                    LookBack(history))
  {
    hide TargetSum, TargetTotal;
    var n := LookBack(history);
    HeldIsClamped(history);
    WindowTotal(history, n, n);
    AverageDefined(Window(history));
    FloorBounds(TargetSum(Window(history), n), n);
  }

  lemma AdjustedFloor(history: seq<HeaderWork>)
    requires |history| >= 2 && |Window(history)| >= 2 && Average(Window(history)) >= 0
    ensures Average(Window(history)) * HeldSpan(history) >= 0 && LookBack(history) >= 2
            && Adjusted(Window(history)) >= 0
    ensures IsFloor(Adjusted(Window(history)), Average(Window(history)) * HeldSpan(history),
                    60 * (LookBack(history) - 1))
  {
    hide Average, HeldSpan, Window, MeasuredSpan, Clamp, Adjusted, ExpectedSpan, IsFloor;
    var w := Window(history);
    HeldIsClamped(history);
    AdjustedDefined(w);
    var x, d := Average(w) * HeldSpan(history), ExpectedSpan(w);
    MulNonneg(Average(w), HeldSpan(history));
    FloorBounds(x, d);
  }

  lemma TargetIsCapped(history: seq<HeaderWork>, powLimit: u256)
    requires |history| >= 2 && ExpectedTarget(history, powLimit).Ok?
    ensures powLimit > 0 && |Window(history)| >= 2
    ensures ExpectedTarget(history, powLimit).value == CapTarget(Adjusted(Window(history)), powLimit)
  {
    hide Adjusted, CapTarget, WindowError;
  }

  lemma AverageDefined(w: seq<HeaderWork>)
    requires |w| > 0
    ensures Average(w) == TargetSum(w, |w|) / |w|
  {
  }

  lemma AdjustedDefined(w: seq<HeaderWork>)
    requires |w| >= 2
    ensures ExpectedSpan(w) > 0
    ensures Adjusted(w)
         == Average(w) * Clamp(MeasuredSpan(w), ExpectedSpan(w) / 3, ExpectedSpan(w) * 3) / ExpectedSpan(w)
  {
    hide Average, Clamp, MeasuredSpan;
  }

  lemma Capped(adjusted: nat, powLimit: u256)
    requires powLimit > 0
    ensures CapTarget(adjusted, powLimit)
         == if adjusted >= powLimit then powLimit else if adjusted == 0 then 1 else adjusted
  {
  }

  lemma HeldIsClamped(history: seq<HeaderWork>)
    requires |history| >= 2
    ensures var w := Window(history);
            var expected := ExpectedSpan(w);
            && |w| == LookBack(history) && w == history[|history| - |w|..]
            && expected == 60 * (|w| - 1) > 0
            && Clamp(MeasuredSpan(w), expected / 3, expected * 3) == HeldSpan(history) >= 0
  {
  }

  ghost predicate OrderedFrom(history: seq<HeaderWork>, from: nat) {
    forall i :: from < i < |history| ==> history[i - 1].timestamp <= history[i].timestamp
  }

  ghost predicate NonzeroFrom(history: seq<HeaderWork>, from: nat) {
    forall i :: from <= i < |history| ==> history[i].target > 0
  }

  lemma SuffixChecks(history: seq<HeaderWork>, from: nat)
    requires from <= |history|
    ensures Ordered(history[from..]) <==> OrderedFrom(history, from)
    ensures NonzeroTargets(history[from..]) <==> NonzeroFrom(history, from)
  {
    var w := history[from..];
    if Ordered(w) {
      forall i | from < i < |history| ensures history[i - 1].timestamp <= history[i].timestamp {
        assert w[i - from - 1].timestamp <= w[i - from].timestamp;
      }
    }
    if NonzeroTargets(w) {
      forall i | from <= i < |history| ensures history[i].target > 0 { assert w[i - from].target > 0; }
    }
  }

  /** The exact errors: no limit, a window out of order, or a zero target in an ordered window. */
  lemma RetargetErrors(history: seq<HeaderWork>, powLimit: u256)
    ensures var from := |history| - LookBack(history);
            && (ExpectedTarget(history, powLimit).Ok? <==>
                  powLimit > 0 && OrderedFrom(history, from) && NonzeroFrom(history, from))
            && (powLimit > 0 && |history| == 0 ==> ExpectedTarget(history, powLimit).value == powLimit)
            && (powLimit > 0 && |history| == 1 && NonzeroFrom(history, 0) ==>
                  ExpectedTarget(history, powLimit).value == Min(history[0].target, powLimit))
            && (powLimit > 0 && !OrderedFrom(history, from) ==>
                  ExpectedTarget(history, powLimit) == Err(TimestampOrder))
  {
    hide Adjusted, Ordered, NonzeroTargets;
    var from := |history| - LookBack(history);
    assert Window(history) == history[from..];
    SuffixChecks(history, from);
  }

  /** With the same targets, a slower window never gets a harder target. */
  lemma RetargetMonotone(fast: seq<HeaderWork>, slow: seq<HeaderWork>)
    requires |fast| == |slow| >= 2 && MeasuredSpan(fast) <= MeasuredSpan(slow)
    requires forall i :: 0 <= i < |fast| ==> fast[i].target == slow[i].target
    ensures Adjusted(fast) <= Adjusted(slow)
  {
    SameTargets(fast, slow, |fast|);
    var expected := ExpectedSpan(fast);
    var x := Clamp(MeasuredSpan(fast), expected / 3, expected * 3);
    var y := Clamp(MeasuredSpan(slow), expected / 3, expected * 3);
    DivNonneg(TargetSum(fast, |fast|), |fast|);
    MulMono(x, y, Average(fast));
    DivMonotone(Average(fast) * x, Average(fast) * y, expected);
  }

  lemma {:induction false} SameTargets(a: seq<HeaderWork>, b: seq<HeaderWork>, n: nat)
    requires n <= |a| == |b| && forall i :: 0 <= i < |a| ==> a[i].target == b[i].target
    ensures TargetSum(a, n) == TargetSum(b, n)
  {
    if n > 0 { SameTargets(a, b, n - 1); }
  }

  // ----- median time past -------------------------------------------------------------------

  ghost predicate Ascending(s: seq<int>) {
    forall i, j :: 0 <= i < j < |s| ==> s[i] <= s[j]
  }

  function InsertSorted(x: u64, s: seq<u64>): (r: seq<u64>)
    requires Ascending(s)
    ensures |r| == |s| + 1 && Ascending(r)
    ensures forall m :: CountBelow(r, m) == CountBelow(s, m) + if x < m then 1 else 0
    ensures forall y :: y in r ==> y == x || y in s
  {
    if s == [] then [x]
    else if x <= s[0] then
      PutFirst(x, s);
      [x] + s
    else
      var tail := InsertSorted(x, s[1..]);
      assert forall k :: 0 <= k < |tail| ==> tail[k] in tail;
      PutFirst(s[0], tail);
      [s[0]] + tail
  }

  lemma PutFirst(x: int, s: seq<int>)
    requires Ascending(s) && forall k :: 0 <= k < |s| ==> x <= s[k]
    ensures Ascending([x] + s)
    ensures forall m :: CountBelow([x] + s, m) == CountBelow(s, m) + if x < m then 1 else 0
  {
    assert ([x] + s)[1..] == s;
  }

  /** The library sort, given by what it returns. */
  function Sorted(s: seq<u64>): (r: seq<u64>)
    ensures |r| == |s| && Ascending(r)
    ensures forall m :: CountBelow(r, m) == CountBelow(s, m)
  {
    if s == [] then [] else InsertSorted(s[0], Sorted(s[1..]))
  }

  function CountBelow(s: seq<int>, m: int): nat {
    if s == [] then 0 else (if s[0] < m then 1 else 0) + CountBelow(s[1..], m)
  }

  function TimeWindow(timestamps: seq<u64>): seq<u64> {
    if |timestamps| <= MEDIAN_TIME_WINDOW then timestamps
    else timestamps[|timestamps| - MEDIAN_TIME_WINDOW..]
  }

  function MedianTimestamp(timestamps: seq<u64>): u64
    requires timestamps != []
  {
    var window := Sorted(TimeWindow(timestamps));
    window[|window| / 2]
  }

  /** In an ascending sequence the k-th element is at least m exactly when at most k are below m. */
  lemma {:induction false} OrderStatistic(s: seq<int>, k: nat, m: int)
    requires Ascending(s) && k < |s|
    ensures s[k] >= m <==> CountBelow(s, m) <= k
    decreases |s|
  {
    if s[0] >= m {
      NoneBelow(s, m);
    } else if k > 0 {
      OrderStatistic(s[1..], k - 1, m);
    }
  }

  lemma {:induction false} NoneBelow(s: seq<int>, m: int)
    requires forall i :: 0 <= i < |s| ==> s[i] >= m
    ensures CountBelow(s, m) == 0
  {
    if s != [] { NoneBelow(s[1..], m); }
  }

  lemma {:induction false} CountBelowAppend(s: seq<int>, t: seq<int>, m: int)
    ensures CountBelow(s + t, m) == CountBelow(s, m) + CountBelow(t, m)
  {
    if s == [] {
      assert s + t == t;
    } else {
      CountBelowAppend(s[1..], t, m);
      assert (s + t)[1..] == s[1..] + t;
    }
  }

  /**
   * What the median means: it is at least m exactly when at most half, rounded down, of the last eleven
   * timestamps, or of all there are, lie below m.
   */
  lemma MedianRank(timestamps: seq<u64>, m: int)
    requires timestamps != []
    ensures var n := if |timestamps| <= 11 then |timestamps| else 11;
            MedianTimestamp(timestamps) >= m <==> CountBelow(timestamps[|timestamps| - n..], m) <= n / 2
  {
    var window := TimeWindow(timestamps);
    OrderStatistic(Sorted(window), |window| / 2, m);
  }

  /** A timestamp beyond the median never lowers the next median. */
  lemma MedianNeverFalls(timestamps: seq<u64>, next: u64)
    requires timestamps != [] && next > MedianTimestamp(timestamps)
    ensures MedianTimestamp(timestamps + [next]) >= MedianTimestamp(timestamps)
  {
    var m := MedianTimestamp(timestamps);
    var before, after := TimeWindow(timestamps), TimeWindow(timestamps + [next]);
    MedianRank(timestamps, m);
    MedianRank(timestamps + [next], m);
    hide MedianTimestamp;
    var kept := if |timestamps| < MEDIAN_TIME_WINDOW then before else before[1..];
    assert after == kept + [next];
    CountBelowAppend(kept, [next], m);
    assert CountBelow([next], m) == 0;
    assert CountBelow(kept, m) <= CountBelow(before, m);
  }
}
