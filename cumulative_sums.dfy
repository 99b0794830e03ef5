/**
 * `calculate_cumulative` and the cumulative final summary of the three
 * cumulative table scripts: the per-repetition counter tables are added up
 * entry by entry.
 *
 * `data[r]` is the table of repetition `r` (`data_list[r]`), indexed by
 * percentage and then by key, as in module Tables.
 */
module CumulativeSums {
  import opened Tables

  /**
   * Every repetition's table has the keys and list lengths of the first one,
   * which is where `calculate_cumulative` reads them from.
   */
  predicate SameShape(data: seq<Table>)
  {
    data != [] &&
    (forall r :: 0 <= r < |data| ==> |data[r]| == |data[0]|) &&
    (forall r, p :: 0 <= r < |data| && 0 <= p < |data[0]| ==> |data[r][p]| == |data[0][p]|)
  }

  /** `[rep[p][key] for rep in data_list]`: one counter across the repetitions. */
  function Across(data: seq<Table>, p: nat, k: nat): (r: seq<nat>)
    requires forall x :: 0 <= x < |data| ==> p < |data[x]| && k < |data[x][p]|
    ensures |r| == |data| && forall x :: 0 <= x < |data| ==> r[x] == data[x][p][k]
  {
    seq(|data|, x requires 0 <= x < |data| => data[x][p][k])
  }

  /** What `calculate_cumulative(data)` returns: each counter summed over the repetitions. */
  function Cumulative(data: seq<Table>): (c: Table)
    requires SameShape(data)
    ensures |c| == |data[0]| && forall p :: 0 <= p < |c| ==> |c[p]| == |data[0][p]|
  {
    seq(|data[0]|, p requires 0 <= p < |data[0]| =>
      seq(|data[0][p]|, k requires 0 <= k < |data[0][p]| => Sum(Across(data, p, k))))
  }

  /** The sum of a one-element sequence is that element. */
  lemma SumOne(x: nat)
    ensures Sum([x]) == x
  {
    assert [x][..0] == [];
  }

  /** A sum grows by the element appended. */
  lemma SumSnoc(xs: seq<nat>, x: nat)
    ensures Sum(xs + [x]) == Sum(xs) + x
  {
    assert (xs + [x])[..|xs|] == xs;
  }

  /** With a single repetition, the cumulative table is that repetition's table. */
  lemma CumulativeOfOne(t: Table)
    ensures SameShape([t]) && Cumulative([t]) == t
  {
    forall p | 0 <= p < |t|
      ensures Cumulative([t])[p] == t[p]
    {
      forall k | 0 <= k < |t[p]|
        ensures Cumulative([t])[p][k] == t[p][k]
      {
        assert Across([t], p, k) == [t[p][k]];
        SumOne(t[p][k]);
      }
    }
  }

  /**
   * One more repetition adds its table to the cumulative one, entry by
   * entry: the cumulative counters are a running total.
   */
  lemma CumulativeAppend(data: seq<Table>, t: Table)
    requires SameShape(data)
    requires |t| == |data[0]| && forall p :: 0 <= p < |t| ==> |t[p]| == |data[0][p]|
    ensures SameShape(data + [t])
    ensures Cumulative(data + [t]) == AddTables(Cumulative(data), t)
  {
    var more := data + [t];
    assert more[0] == data[0];
    forall p | 0 <= p < |t|
      ensures Cumulative(more)[p] == AddSeq(Cumulative(data)[p], t[p])
    {
      forall k | 0 <= k < |t[p]|
        ensures Cumulative(more)[p][k] == AddSeq(Cumulative(data)[p], t[p])[k]
      {
        assert Across(more, p, k) == Across(data, p, k) + [t[p][k]];
        SumSnoc(Across(data, p, k), t[p][k]);
      }
    }
  }

  /** `[grand total of rep for rep in data]`. */
  function GrandTotals(data: seq<Table>): (r: seq<nat>)
    ensures |r| == |data| && forall x :: 0 <= x < |data| ==> r[x] == GrandTotal(data[x])
  {
    seq(|data|, x requires 0 <= x < |data| => GrandTotal(data[x]))
  }

  /**
   * The grand total of a cumulative table (the bottom-right cell of the
   * printed table) is the sum of the repetitions' own grand totals.
   */
  lemma {:induction false} CumulativeGrandTotal(data: seq<Table>)
    requires SameShape(data)
    ensures GrandTotal(Cumulative(data)) == Sum(GrandTotals(data))
    decreases |data|
  {
    var n := |data| - 1;
    if n == 0 {
      assert data == [data[0]];
      CumulativeOfOne(data[0]);
      SumOne(GrandTotal(data[0]));
    } else {
      var front := data[..n];
      SameShapeFront(data);
      CumulativeGrandTotal(front);
      CumulativeGrandTotalStep(front, data[n]);
      assert data == front + [data[n]];
      assert GrandTotals(data) == GrandTotals(front) + [GrandTotal(data[n])];
      SumSnoc(GrandTotals(front), GrandTotal(data[n]));
    }
  }

  /** Dropping the last of several repetitions keeps the shape. */
  lemma SameShapeFront(data: seq<Table>)
    requires SameShape(data) && |data| > 1
    ensures SameShape(data[..|data| - 1])
    ensures var t := data[|data| - 1];
      |t| == |data[0]| && forall p :: 0 <= p < |t| ==> |t[p]| == |data[0][p]|
  {
    assert data[..|data| - 1][0] == data[0];
  }

  /** One more repetition adds its grand total to the cumulative one. */
  lemma CumulativeGrandTotalStep(data: seq<Table>, t: Table)
    requires SameShape(data)
    requires |t| == |data[0]| && forall p :: 0 <= p < |t| ==> |t[p]| == |data[0][p]|
    ensures SameShape(data + [t])
    ensures GrandTotal(Cumulative(data + [t])) == GrandTotal(Cumulative(data)) + GrandTotal(t)
  {
    CumulativeAppend(data, t);
    GrandTotalAdd(Cumulative(data), t);
  }

  /** `calculate_cumulative(data_list)`, filled percentage by percentage and key by key. */
  method CalculateCumulative(data: seq<Table>) returns (c: Table)
    requires SameShape(data)
    ensures c == Cumulative(data)
  {
    c := [];
    var p := 0;
    while p < |data[0]|
      invariant 0 <= p <= |data[0]|
      invariant c == Cumulative(data)[..p]
    {
      var column := [];
      var k := 0;
      while k < |data[0][p]|
        invariant 0 <= k <= |data[0][p]|
        invariant column == Cumulative(data)[p][..k]
      {
        column := column + [Sum(Across(data, p, k))];
        k := k + 1;
      }
      assert column == Cumulative(data)[p];
      c := c + [column];
      p := p + 1;
    }
  }

  /**
   * `cumulative_final_summary`: for each transition key, the sum over the
   * repetitions' final summaries (`summaries[r]` is `all_final_summary[r]`).
   */
  method CumulativeFinalSummary(summaries: Table, n: nat) returns (s: seq<nat>)
    requires summaries != [] && Rectangular(summaries, n)
    ensures s == RowTotals(summaries, n)
  {
    s := [];
    var k := 0;
    while k < n
      invariant 0 <= k <= n
      invariant s == RowTotals(summaries, n)[..k]
    {
      s := s + [Sum(RowValues(summaries, k))];
      k := k + 1;
    }
  }
}
