/**
 * The arithmetic behind the cumulative LaTeX tables: Python's `sum`, the
 * tables the cumulative dictionaries form, and their row, column and grand
 * totals.
 *
 * A table `t` is indexed first by percentage (a column of the printed table)
 * and then by key (a tie count, an action, or an outcome: a row of the
 * printed table), so `t[p][i]` is `cumulative_x[percentages[p]][key_i]`.
 */
module Tables {
  /** Python's `sum(xs)` over counters. */
  function Sum(xs: seq<nat>): nat
    decreases |xs|
  {
    if xs == [] then 0 else Sum(xs[..|xs| - 1]) + xs[|xs| - 1]
  }

  /** Sums split over concatenation. */
  lemma {:induction false} SumAppend(xs: seq<nat>, ys: seq<nat>)
    ensures Sum(xs + ys) == Sum(xs) + Sum(ys)
    decreases |ys|
  {
    if ys != [] {
      var ys' := ys[..|ys| - 1];
      assert (xs + ys)[..|xs + ys| - 1] == xs + ys';
      SumAppend(xs, ys');
    } else {
      assert xs + ys == xs;
    }
  }

  /** A sequence of zeros sums to zero, whatever its length. */
  lemma {:induction false} SumZeros(xs: seq<nat>)
    requires forall k :: 0 <= k < |xs| ==> xs[k] == 0
    ensures Sum(xs) == 0
    decreases |xs|
  {
    if xs != [] {
      SumZeros(xs[..|xs| - 1]);
    }
  }

  /** Element-wise sum of two counter vectors. */
  function AddSeq(a: seq<nat>, b: seq<nat>): (r: seq<nat>)
    requires |a| == |b|
    ensures |r| == |a| && forall k :: 0 <= k < |a| ==> r[k] == a[k] + b[k]
  {
    seq(|a|, k requires 0 <= k < |a| => a[k] + b[k])
  }

  /** Adding two vectors onto a third, one after the other, adds their sum. */
  lemma AddSeqAssociative(a: seq<nat>, b: seq<nat>, c: seq<nat>)
    requires |a| == |b| == |c|
    ensures AddSeq(AddSeq(a, b), c) == AddSeq(a, AddSeq(b, c))
  {
  }

  /** The sum of an element-wise sum is the sum of the sums. */
  lemma {:induction false} SumAddSeq(a: seq<nat>, b: seq<nat>)
    requires |a| == |b|
    ensures Sum(AddSeq(a, b)) == Sum(a) + Sum(b)
    decreases |a|
  {
    if a != [] {
      var n := |a| - 1;
      assert AddSeq(a, b)[..n] == AddSeq(a[..n], b[..n]);
      SumAddSeq(a[..n], b[..n]);
    }
  }

  type Table = seq<seq<nat>>

  /** Every column of `t` has exactly `n` keys. */
  predicate Rectangular(t: Table, n: nat)
  {
    forall p :: 0 <= p < |t| ==> |t[p]| == n
  }

  /** The values of key `i` across the percentages: one printed row. */
  function RowValues(t: Table, i: nat): (r: seq<nat>)
    requires forall p :: 0 <= p < |t| ==> i < |t[p]|
    ensures |r| == |t| && forall p :: 0 <= p < |t| ==> r[p] == t[p][i]
  {
    seq(|t|, p requires 0 <= p < |t| => t[p][i])
  }

  /** The last cell of a printed row: `sum(t[p][i] for p in percentages)`. */
  function RowTotal(t: Table, i: nat): nat
    requires forall p :: 0 <= p < |t| ==> i < |t[p]|
  {
    Sum(RowValues(t, i))
  }

  /** The "Total" row: `sum(t[p])` (or `sum(t[p].values())`) for each percentage. */
  function ColumnTotals(t: Table): (r: seq<nat>)
    ensures |r| == |t| && forall p :: 0 <= p < |t| ==> r[p] == Sum(t[p])
  {
    seq(|t|, p requires 0 <= p < |t| => Sum(t[p]))
  }

  /** The bottom-right cell: the sum of the column totals. */
  function GrandTotal(t: Table): nat
  {
    Sum(ColumnTotals(t))
  }

  /** The last column of the printed table, one entry per key. */
  function RowTotals(t: Table, n: nat): (r: seq<nat>)
    requires Rectangular(t, n)
    ensures |r| == n && forall i :: 0 <= i < n ==> r[i] == RowTotal(t, i)
  {
    seq(n, i requires 0 <= i < n => RowTotal(t, i))
  }

  /**
   * The grand total is also the sum of the row totals: adding the table up
   * by rows or by columns gives the same number.
   */
  lemma {:induction false} RowsAndColumnsAgree(t: Table, n: nat)
    requires Rectangular(t, n)
    ensures Sum(RowTotals(t, n)) == GrandTotal(t)
    decreases |t|
  {
    if t == [] {
      SumZeros(RowTotals(t, n));
    } else {
      var m := |t| - 1;
      var front := t[..m];
      RowsAndColumnsAgree(front, n);
      GrandTotalStep(t);
      RowTotalsStep(t, n);
      SumAddSeq(RowTotals(front, n), t[m]);
    }
  }

  /** Adding one more column to a table adds its entries to the row totals. */
  lemma RowTotalsStep(t: Table, n: nat)
    requires t != [] && Rectangular(t, n)
    ensures RowTotals(t, n) == AddSeq(RowTotals(t[..|t| - 1], n), t[|t| - 1])
  {
    var m := |t| - 1;
    forall i | 0 <= i < n ensures RowTotals(t, n)[i] == AddSeq(RowTotals(t[..m], n), t[m])[i] {
      RowTotalStep(t, i);
    }
  }

  /** The row totals of the first `m + 1` columns are those of the first `m` plus column `m`. */
  lemma RowTotalsPrefixStep(t: Table, m: nat, n: nat)
    requires m < |t| && Rectangular(t, n)
    ensures RowTotals(t[..m + 1], n) == AddSeq(RowTotals(t[..m], n), t[m])
  {
    var front := t[..m + 1];
    assert front[..m] == t[..m];
    RowTotalsStep(front, n);
  }

  lemma RowTotalStep(t: Table, i: nat)
    requires t != [] && forall p :: 0 <= p < |t| ==> i < |t[p]|
    ensures RowTotal(t, i) == RowTotal(t[..|t| - 1], i) + t[|t| - 1][i]
  {
    assert RowValues(t, i)[..|t| - 1] == RowValues(t[..|t| - 1], i);
  }

  lemma GrandTotalStep(t: Table)
    requires t != []
    ensures GrandTotal(t) == GrandTotal(t[..|t| - 1]) + Sum(t[|t| - 1])
  {
    assert ColumnTotals(t)[..|t| - 1] == ColumnTotals(t[..|t| - 1]);
  }

  /** Element-wise sum of two tables of the same shape. */
  function AddTables(a: Table, b: Table): (r: Table)
    requires |a| == |b| && forall p :: 0 <= p < |a| ==> |a[p]| == |b[p]|
    ensures |r| == |a| && forall p :: 0 <= p < |a| ==> r[p] == AddSeq(a[p], b[p])
  {
    seq(|a|, p requires 0 <= p < |a| => AddSeq(a[p], b[p]))
  }

  /** Adding two tables entry by entry adds their row totals. */
  lemma RowTotalAdd(a: Table, b: Table, i: nat)
    requires |a| == |b| && forall p :: 0 <= p < |a| ==> |a[p]| == |b[p]| && i < |a[p]|
    ensures RowTotal(AddTables(a, b), i) == RowTotal(a, i) + RowTotal(b, i)
  {
    assert RowValues(AddTables(a, b), i) == AddSeq(RowValues(a, i), RowValues(b, i));
    SumAddSeq(RowValues(a, i), RowValues(b, i));
  }

  /** Adding two tables entry by entry adds their grand totals. */
  lemma GrandTotalAdd(a: Table, b: Table)
    requires |a| == |b| && forall p :: 0 <= p < |a| ==> |a[p]| == |b[p]|
    ensures GrandTotal(AddTables(a, b)) == GrandTotal(a) + GrandTotal(b)
  {
    forall p | 0 <= p < |a|
      ensures ColumnTotals(AddTables(a, b))[p] == AddSeq(ColumnTotals(a), ColumnTotals(b))[p]
    {
      SumAddSeq(a[p], b[p]);
    }
    assert ColumnTotals(AddTables(a, b)) == AddSeq(ColumnTotals(a), ColumnTotals(b));
    SumAddSeq(ColumnTotals(a), ColumnTotals(b));
  }

  /**
   * `(safe / total * 100) if total > 0 else 0.0`: the guard means the
   * percentage is always defined, and it is the exact ratio otherwise.
   */
  function SafePercent(safe: nat, total: nat): (r: real)
    ensures total == 0 ==> r == 0.0
    ensures total > 0 ==> r * (total as real) == (safe as real) * 100.0
    ensures 0.0 <= r
    ensures safe <= total ==> r <= 100.0
  {
    if total > 0 then (safe as real) / (total as real) * 100.0 else 0.0
  }
}
