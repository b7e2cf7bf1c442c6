/** Wallet coin selection: the largest outputs first, at most one transaction's worth of them. */
module CoinSelection {
  import opened Prelude
  import opened Order
  import opened Ledger

  datatype Candidate = Candidate(outpoint: OutPoint, value: u64)

  datatype Selection = Selection(outpoints: seq<OutPoint>, selectedValue: u64, available: u64)

  datatype WalletError = WalletAmountOverflow

  // ----- the order ----------------------------------------------------------------------------------------

  /** Larger value first, then identifier, then index. */
  predicate Precedes(a: Candidate, b: Candidate) {
    || a.value > b.value
    || (a.value == b.value && (Less(a.outpoint.txid, b.outpoint.txid)
                               || (a.outpoint.txid == b.outpoint.txid && a.outpoint.index < b.outpoint.index)))
  }

  /** Not after. */
  predicate Upto(a: Candidate, b: Candidate) { !Precedes(b, a) }

  lemma UptoTransitive(a: Candidate, b: Candidate, c: Candidate)
    requires Upto(a, b) && Upto(b, c)
    ensures Upto(a, c)
  {
    hide Less;
    var x, y, z := a.outpoint.txid, b.outpoint.txid, c.outpoint.txid;
    LessTotal(x, y);
    LessTotal(y, z);
    LessIrreflexive(x);
    if Less(z, x) {
      if Less(x, y) { LessTransitive(z, x, y); if Less(y, z) { LessTransitive(y, z, y); LessIrreflexive(y); } }
    }
  }

  lemma UptoTotal(a: Candidate, b: Candidate)
    ensures Upto(a, b) || Upto(b, a)
    ensures Upto(a, b) && Upto(b, a) ==> a == b
  {
    hide Less;
    var x, y := a.outpoint.txid, b.outpoint.txid;
    LessTotal(x, y);
    if Less(x, y) && Less(y, x) { LessTransitive(x, y, x); LessIrreflexive(x); }
  }

  ghost predicate Sorted(s: seq<Candidate>) { forall i, j :: 0 <= i < j < |s| ==> Upto(s[i], s[j]) }

  /** The library sort, given by what it returns. */
  function Insert(x: Candidate, s: seq<Candidate>): (r: seq<Candidate>)
    ensures multiset(r) == multiset(s) + multiset{x}
  {
    if s == [] then [x]
    else if Upto(x, s[0]) then assert [x] + s == [x] + s; [x] + s
    else
      assert s == [s[0]] + s[1..];
      [s[0]] + Insert(x, s[1..])
  }

  function Sort(s: seq<Candidate>): (r: seq<Candidate>)
    ensures multiset(r) == multiset(s)
  {
    if s == [] then []
    else
      assert s == [s[0]] + s[1..];
      Insert(s[0], Sort(s[1..]))
  }

  lemma {:induction false} InsertSorted(x: Candidate, s: seq<Candidate>)
    requires Sorted(s)
    ensures Sorted(Insert(x, s))
  {
    hide Upto;
    if s != [] {
      UptoTotal(x, s[0]);
      var r := Insert(x, s);
      if Upto(x, s[0]) {
        forall j | 0 < j < |r| ensures Upto(r[0], r[j]) {
          if j > 1 { UptoTransitive(x, s[0], s[j - 1]); }
        }
      } else {
        InsertSorted(x, s[1..]);
        forall j | 0 < j < |r| ensures Upto(r[0], r[j]) {
          assert r[j] in multiset(Insert(x, s[1..]));
          assert r[j] in multiset(s[1..]) || r[j] == x;
        }
      }
    }
  }

  lemma {:induction false} SortSorted(s: seq<Candidate>)
    ensures Sorted(Sort(s))
  {
    if s != [] {
      SortSorted(s[1..]);
      InsertSorted(s[0], Sort(s[1..]));
    }
  }

  /** A sorted sequence is determined by its contents. */
  lemma {:induction false} SortedUnique(s: seq<Candidate>, t: seq<Candidate>)
    requires Sorted(s) && Sorted(t) && multiset(s) == multiset(t)
    ensures s == t
  {
    hide Upto;
    assert |s| == |multiset(s)| == |multiset(t)| == |t|;
    if s != [] {
      assert s[0] in multiset(t) && t[0] in multiset(s);
      UptoTotal(s[0], t[0]);
      assert s[0] == t[0];
      HeadTail(s);
      HeadTail(t);
      assert multiset(s[1..]) == multiset(s) - multiset{s[0]} == multiset(t[1..]);
      SortedUnique(s[1..], t[1..]);
    }
  }

  // ----- selection ------------------------------------------------------------------------------------------

  /** Unchecked sum of the first n values. */
  function TopSum(s: seq<Candidate>, n: nat): nat
    requires n <= |s|
  {
    if n == 0 then 0 else TopSum(s, n - 1) + s[n - 1].value
  }

  function CheckedSum(s: seq<Candidate>, n: nat): Result<u64, WalletError>
    requires n <= |s|
  {
    if TopSum(s, n) > U64_MAX then Err(WalletAmountOverflow) else Ok(TopSum(s, n))
  }

  function Limit(s: seq<Candidate>): nat { if |s| <= MAX_TRANSACTION_INPUTS then |s| else MAX_TRANSACTION_INPUTS }

  /** How many the loop takes, having taken n without reaching the amount. */
  function Taken(s: seq<Candidate>, required: u64, n: nat): (k: nat)
    requires n <= Limit(s)
    ensures n <= k <= Limit(s)
    decreases Limit(s) - n
  {
    if n == Limit(s) then n
    else if TopSum(s, n + 1) >= required then n + 1
    else Taken(s, required, n + 1)
  }

  function Outpoints(s: seq<Candidate>, n: nat): (r: seq<OutPoint>)
    requires n <= |s|
    ensures |r| == n && forall i :: 0 <= i < n ==> r[i] == s[i].outpoint
  {
    if n == 0 then [] else Outpoints(s, n - 1) + [s[n - 1].outpoint]
  }

  /** The selection over already sorted candidates. */
  ghost function SelectSorted(s: seq<Candidate>, required: u64): Result<Selection, WalletError> {
    if TopSum(s, |s|) > U64_MAX then Err(WalletAmountOverflow)
    else
      var k := Taken(s, required, 0);
      TopSumMonotone(s, k, |s|);
      Ok(Selection(Outpoints(s, k), TopSum(s, k), TopSum(s, |s|)))
  }

  lemma {:induction false} TopSumMonotone(s: seq<Candidate>, i: nat, j: nat)
    requires i <= j <= |s|
    ensures TopSum(s, i) <= TopSum(s, j)
  {
    if i < j { TopSumMonotone(s, i, j - 1); }
  }

  ghost function Select(candidates: seq<Candidate>, required: u64): Result<Selection, WalletError> {
    SelectSorted(Sort(candidates), required)
  }

  method SelectSendUtxos(candidates: seq<Candidate>, required: u64) returns (r: Result<Selection, WalletError>)
    ensures r == Select(candidates, required)
  {
    hide Sort;
    var sorted := Sort(candidates);
    var available := SumAll(candidates);
    SameContents(candidates, sorted);
    if available.Err? { return Err(available.error); }
    var outpoints: seq<OutPoint> := [];
    var selected: u64 := 0;
    var n := 0;
    while n < |sorted| && n < MAX_TRANSACTION_INPUTS
      invariant 0 <= n <= Limit(sorted)
      invariant outpoints == Outpoints(sorted, n) && selected == TopSum(sorted, n)
      invariant Taken(sorted, required, n) == Taken(sorted, required, 0)
    {
      TopSumMonotone(sorted, n + 1, |sorted|);
      outpoints := outpoints + [sorted[n].outpoint];
      if selected + sorted[n].value > U64_MAX { return Err(WalletAmountOverflow); }
      selected := selected + sorted[n].value;
      n := n + 1;
      if selected >= required { break; }
    }
    return Ok(Selection(outpoints, selected, available.value));
  }

  /** The checked fold over all candidates; it overflows exactly when the total does. */
  method SumAll(s: seq<Candidate>) returns (r: Result<u64, WalletError>)
    ensures r == CheckedSum(s, |s|)
  {
    var total: u64 := 0;
    var i := 0;
    while i < |s|
      invariant 0 <= i <= |s| && total == TopSum(s, i)
    {
      if total + s[i].value > U64_MAX {
        TopSumMonotone(s, i + 1, |s|);
        return Err(WalletAmountOverflow);
      }
      total := total + s[i].value;
      i := i + 1;
    }
    return Ok(total);
  }

  // ----- sums over choices ------------------------------------------------------------------------------------

  /** The value of a choice of candidates, repetitions included. */
  ghost function Worth(m: multiset<Candidate>): nat
    decreases |m|
  {
    if m == multiset{} then 0
    else
      var x :| x in m;
      x.value + Worth(m - multiset{x})
  }

  lemma {:induction false} WorthRemove(m: multiset<Candidate>, x: Candidate)
    requires x in m
    ensures Worth(m) == x.value + Worth(m - multiset{x})
    decreases |m|
  {
    var y :| y in m && Worth(m) == y.value + Worth(m - multiset{y});
    if y != x {
      WorthRemove(m - multiset{y}, x);
      WorthRemove(m - multiset{x}, y);
      RemoveTwice(m, x, y);
    }
  }

  lemma RemoveTwice(m: multiset<Candidate>, x: Candidate, y: Candidate)
    ensures m - multiset{y} - multiset{x} == m - multiset{x} - multiset{y}
  {
  }

  lemma {:induction false} TopSumIsWorth(s: seq<Candidate>, n: nat)
    requires n <= |s|
    ensures TopSum(s, n) == Worth(multiset(s[..n]))
  {
    hide Worth;
    if n == 0 {
      NothingWorth();
      assert s[..0] == [];
    } else {
      TopSumIsWorth(s, n - 1);
      SnocContents(s, n);
      WorthRemove(multiset(s[..n]), s[n - 1]);
    }
  }

  lemma SnocContents(s: seq<Candidate>, n: nat)
    requires 0 < n <= |s|
    ensures s[n - 1] in multiset(s[..n]) && multiset(s[..n]) - multiset{s[n - 1]} == multiset(s[..n - 1])
  {
    assert s[..n] == s[..n - 1] + [s[n - 1]];
    assert multiset(s[..n]) == multiset(s[..n - 1]) + multiset{s[n - 1]};
  }

  lemma SameContents(s: seq<Candidate>, t: seq<Candidate>)
    requires multiset(s) == multiset(t)
    ensures |s| == |t| && TopSum(s, |s|) == TopSum(t, |t|)
  {
    assert |s| == |multiset(s)| == |multiset(t)| == |t|;
    TopSumIsWorth(s, |s|);
    TopSumIsWorth(t, |t|);
    assert s[..|s|] == s && t[..|t|] == t;
  }

  /** No choice of at most k candidates is worth more than the first k of the sorted sequence. */
  lemma {:induction false} PrefixIsBest(s: seq<Candidate>, m: multiset<Candidate>, k: nat)
    requires Sorted(s) && m <= multiset(s) && |m| <= k <= |s|
    ensures Worth(m) <= TopSum(s, k)
    decreases k
  {
    hide Sorted, TopSum, Worth;
    if m == multiset{} {
      assert Worth(m) == 0 by { NothingWorth(); }
    } else {
      var x := s[0];
      if x !in m { x :| x in m; }
      HeadIsLargest(s, x);
      WorthRemove(m, x);
      TailHolds(s, m, x);
      PrefixIsBest(s[1..], m - multiset{x}, k - 1);
      TopSumShift(s, k);
    }
  }

  lemma NothingWorth()
    ensures Worth(multiset{}) == 0
  {
  }

  lemma HeadTail(s: seq<Candidate>)
    requires s != []
    ensures multiset(s) == multiset{s[0]} + multiset(s[1..])
  {
    assert s == [s[0]] + s[1..];
  }

  lemma HeadIsLargest(s: seq<Candidate>, x: Candidate)
    requires Sorted(s) && x in multiset(s)
    ensures x.value <= s[0].value && Sorted(s[1..])
  {
    hide Less;
    var i :| 0 <= i < |s| && s[i] == x;
    assert i > 0 ==> Upto(s[0], s[i]);
  }

  /** Taking out one member, the head if the choice has it, leaves a choice of the tail. */
  lemma TailHolds(s: seq<Candidate>, m: multiset<Candidate>, x: Candidate)
    requires s != [] && m <= multiset(s) && x in m && (x == s[0] || s[0] !in m)
    ensures m - multiset{x} <= multiset(s[1..]) && |m - multiset{x}| == |m| - 1
  {
    HeadTail(s);
  }

  lemma {:induction false} TopSumShift(s: seq<Candidate>, k: nat)
    requires 0 < k <= |s|
    ensures TopSum(s, k) == s[0].value + TopSum(s[1..], k - 1)
  {
    if k > 1 { TopSumShift(s, k - 1); }
  }

  // ----- what selection guarantees ----------------------------------------------------------------------------

  lemma {:induction false} TakenIsFirst(s: seq<Candidate>, required: u64, n: nat)
    requires n <= Limit(s) && forall i :: 0 < i <= n ==> TopSum(s, i) < required
    ensures var k := Taken(s, required, n);
            && (forall i :: 0 < i < k ==> TopSum(s, i) < required)
            && (k < Limit(s) ==> k > 0 && TopSum(s, k) >= required)
    decreases Limit(s) - n
  {
    if n < Limit(s) && TopSum(s, n + 1) < required { TakenIsFirst(s, required, n + 1); }
  }

  /** A choice one transaction could spend. */
  ghost predicate Spendable(candidates: seq<Candidate>, m: multiset<Candidate>) {
    m <= multiset(candidates) && |m| <= MAX_TRANSACTION_INPUTS
  }

  /** Any spendable choice that reaches the amount is matched by the selection with no more inputs. */
  lemma ChoiceMatched(candidates: seq<Candidate>, required: u64, m: multiset<Candidate>)
    requires required > 0 && Spendable(candidates, m) && Worth(m) >= required
    ensures var s := Sort(candidates);
            var k := Taken(s, required, 0);
            TopSum(s, k) >= required && k <= |m|
  {
    hide Sorted, Sort, Worth;
    var s := Sort(candidates);
    SortSorted(candidates);
    TakenIsFirst(s, required, 0);
    MultisetWithin(m, multiset(s));
    assert |s| == |multiset(s)|;
    PrefixIsBest(s, m, |m|);
    assert TopSum(s, 0) == 0;
    assert 0 < |m| <= Limit(s) && TopSum(s, |m|) >= required;
  }

  /** What the loop takes is itself a spendable choice. */
  lemma TakenIsChoice(candidates: seq<Candidate>, required: u64)
    ensures var s := Sort(candidates);
            var m := multiset(s[..Taken(s, required, 0)]);
            Spendable(candidates, m) && Worth(m) == TopSum(s, Taken(s, required, 0))
  {
    hide Sort, Worth;
    var s := Sort(candidates);
    var k := Taken(s, required, 0);
    assert s == s[..k] + s[k..];
    assert multiset(s) == multiset(s[..k]) + multiset(s[k..]);
    TopSumIsWorth(s, k);
  }

  /**
   * Selection reaches a positive amount exactly when some spendable choice does, and then no such
   * choice has fewer inputs.
   */
  lemma SelectionOptimal(candidates: seq<Candidate>, required: u64)
    requires required > 0 && Select(candidates, required).Ok?
    ensures var r := Select(candidates, required).value;
            && (r.selectedValue >= required <==> exists m :: Spendable(candidates, m) && Worth(m) >= required)
            && (r.selectedValue >= required ==>
                  forall m :: Spendable(candidates, m) && Worth(m) >= required ==> |r.outpoints| <= |m|)
  {
    hide Sort, Worth, Spendable, TopSum, Taken;
    TakenIsChoice(candidates, required);
    forall m | Spendable(candidates, m) && Worth(m) >= required
      ensures var r := Select(candidates, required).value; r.selectedValue >= required && |r.outpoints| <= |m|
    {
      ChoiceMatched(candidates, required, m);
    }
  }

  lemma MultisetWithin(m: multiset<Candidate>, n: multiset<Candidate>)
    requires m <= n
    ensures |m| <= |n|
  {
    assert n == m + (n - m);
  }

  /** Descending value; equal values by identifier, then by index. */
  ghost predicate Ranked(s: seq<Candidate>) {
    forall i, j :: 0 <= i < j < |s| ==>
      var a, b := s[i], s[j];
      && a.value >= b.value
      && (a.value == b.value ==> !Less(b.outpoint.txid, a.outpoint.txid))
      && (a.value == b.value && a.outpoint.txid == b.outpoint.txid ==> a.outpoint.index <= b.outpoint.index)
  }

  /**
   * Selection fails exactly when the total overflows; otherwise it names, in rank order, the least number of
   * candidates that reaches the amount, at least one and at most 128, or as many as there are.
   */
  lemma SelectionExact(candidates: seq<Candidate>, required: u64) returns (s: seq<Candidate>, k: nat)
    ensures multiset(s) == multiset(candidates) && Ranked(s)
    ensures Select(candidates, required).Ok? <==> Worth(multiset(candidates)) <= U64_MAX
    ensures k <= |s| && k <= 128 && (s != [] ==> k > 0)
    ensures forall i :: 0 < i < k ==> Worth(multiset(s[..i])) < required
    ensures k < |s| && k < 128 ==> Worth(multiset(s[..k])) >= required
    ensures Select(candidates, required).Ok? ==>
              var r := Select(candidates, required).value;
              && |r.outpoints| == k && (forall i :: 0 <= i < k ==> r.outpoints[i] == s[i].outpoint)
              && r.selectedValue == Worth(multiset(s[..k])) && r.available == Worth(multiset(candidates))
  {
    hide Sort, Worth;
    s := Sort(candidates);
    k := Taken(s, required, 0);
    SortSorted(candidates);
    TakenIsFirst(s, required, 0);
    TopSumIsWorth(s, |s|);
    assert s[..|s|] == s;
    forall i | 0 <= i <= |s| ensures Worth(multiset(s[..i])) == TopSum(s, i) { TopSumIsWorth(s, i); }
  }

  /** The result does not depend on the order of the candidates. */
  lemma SelectionOrderFree(a: seq<Candidate>, b: seq<Candidate>, required: u64)
    requires multiset(a) == multiset(b)
    ensures Select(a, required) == Select(b, required)
  {
    SortSorted(a);
    SortSorted(b);
    SortedUnique(Sort(a), Sort(b));
  }
}
