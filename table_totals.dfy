/**
 * The numbers the cumulative scripts print in their LaTeX tables: the
 * Safe/Unsafe outcome tables, the ties tables and the actions tables, each
 * with its row totals, its "Total" row and its bottom-right cell, and the
 * crash + no-crash combinations of the journal variant. The LaTeX text
 * around the numbers is not modelled.
 *
 * The tables are read from the cumulative dictionaries (module Tables'
 * layout: `t[p][key]`). The crash outcome dictionary has keys
 * `['Safe', 'Unsafe']`; the no-crash transition dictionary has keys
 * `['False_True', 'False_False']`, so its safe count is key 1.
 */
module TableTotals {
  import opened Tables
  import opened ContingencyReport

  // -----------------------------------------------------------------------
  // Safe / Unsafe outcome tables.

  /** A Safe row, an Unsafe row and a Total row, each ending with its sum. */
  datatype OutcomeTable = OutcomeTable(safe: seq<nat>, safeTotal: nat, unsafe: seq<nat>, unsafeTotal: nat,
                                       totals: seq<nat>, grandTotal: nat)

  /**
   * The outcome table of two rows: the Total row is `safe[p] + unsafe[p]`
   * per percentage, and its last cell, the sum of that row, is also the sum
   * of the two row totals.
   */
  function Outcomes(safe: seq<nat>, unsafe: seq<nat>): (o: OutcomeTable)
    requires |safe| == |unsafe|
    ensures o.safe == safe && o.unsafe == unsafe && o.safeTotal == Sum(safe) && o.unsafeTotal == Sum(unsafe)
    ensures |o.totals| == |safe| && forall p :: 0 <= p < |safe| ==> o.totals[p] == safe[p] + unsafe[p]
    ensures o.grandTotal == Sum(o.totals) == o.safeTotal + o.unsafeTotal
  {
    SumAddSeq(safe, unsafe);
    OutcomeTable(safe, Sum(safe), unsafe, Sum(unsafe), AddSeq(safe, unsafe), Sum(AddSeq(safe, unsafe)))
  }

  /** The crash table: "Safe (True -> False)" and "Unsafe (True -> True)". */
  function CrashOutcomes(crashSafety: Table): (o: OutcomeTable)
    requires Rectangular(crashSafety, 2)
    ensures |o.totals| == |crashSafety|
    ensures forall p :: 0 <= p < |crashSafety| ==> o.totals[p] == crashSafety[p][0] + crashSafety[p][1]
    ensures o.grandTotal == RowTotal(crashSafety, 0) + RowTotal(crashSafety, 1)
  {
    Outcomes(RowValues(crashSafety, 0), RowValues(crashSafety, 1))
  }

  /** The no-crash table: "Safe (False -> False)" is key `False_False`, "Unsafe (False -> True)" key `False_True`. */
  function NoCrashOutcomes(transitions: Table): (o: OutcomeTable)
    requires Rectangular(transitions, 2)
    ensures |o.safe| == |o.unsafe| == |o.totals| == |transitions|
    ensures forall p :: 0 <= p < |transitions| ==> o.safe[p] == transitions[p][1] && o.unsafe[p] == transitions[p][0]
    ensures forall p :: 0 <= p < |transitions| ==> o.totals[p] == transitions[p][0] + transitions[p][1]
    ensures o.grandTotal == RowTotal(transitions, 0) + RowTotal(transitions, 1)
  {
    Outcomes(RowValues(transitions, 1), RowValues(transitions, 0))
  }

  /**
   * The journal's combined table: crash Safe plus no-crash `False_False`,
   * crash Unsafe plus no-crash `False_True`.
   */
  function CombinedOutcomes(crashSafety: Table, transitions: Table): (o: OutcomeTable)
    requires Rectangular(crashSafety, 2) && Rectangular(transitions, 2) && |crashSafety| == |transitions|
    ensures |o.safe| == |o.unsafe| == |crashSafety|
    ensures forall p :: 0 <= p < |crashSafety| ==>
      o.safe[p] == crashSafety[p][0] + transitions[p][1] && o.unsafe[p] == crashSafety[p][1] + transitions[p][0]
  {
    Outcomes(AddSeq(RowValues(crashSafety, 0), RowValues(transitions, 1)),
      AddSeq(RowValues(crashSafety, 1), RowValues(transitions, 0)))
  }

  /**
   * The combined table adds the crash and no-crash tables cell by cell, and
   * the summary file's `total_safe + total_unsafe` (sums of the crash and
   * no-crash rows taken separately) is the combined table's grand total.
   */
  lemma CombinedIsSum(crashSafety: Table, transitions: Table)
    requires Rectangular(crashSafety, 2) && Rectangular(transitions, 2) && |crashSafety| == |transitions|
    ensures var c := CombinedOutcomes(crashSafety, transitions);
      var a := CrashOutcomes(crashSafety);
      var b := NoCrashOutcomes(transitions);
      (forall p :: 0 <= p < |crashSafety| ==> c.totals[p] == a.totals[p] + b.totals[p]) &&
      c.safeTotal == a.safeTotal + b.safeTotal && c.unsafeTotal == a.unsafeTotal + b.unsafeTotal &&
      c.grandTotal == a.grandTotal + b.grandTotal
  {
    SumAddSeq(RowValues(crashSafety, 0), RowValues(transitions, 1));
    SumAddSeq(RowValues(crashSafety, 1), RowValues(transitions, 0));
  }

  /** `total_safe` and `total_unsafe` of the journal's summary file. */
  function OverallSafe(crashSafety: Table, transitions: Table): nat
    requires Rectangular(crashSafety, 2) && Rectangular(transitions, 2)
  {
    RowTotal(crashSafety, 0) + RowTotal(transitions, 1)
  }

  function OverallUnsafe(crashSafety: Table, transitions: Table): nat
    requires Rectangular(crashSafety, 2) && Rectangular(transitions, 2)
  {
    RowTotal(crashSafety, 1) + RowTotal(transitions, 0)
  }

  /** The summary file's Total, `total_safe + total_unsafe`, is the sum of the combined per-percentage totals. */
  lemma OverallTotal(crashSafety: Table, transitions: Table)
    requires Rectangular(crashSafety, 2) && Rectangular(transitions, 2) && |crashSafety| == |transitions|
    ensures var c := CombinedOutcomes(crashSafety, transitions);
      OverallSafe(crashSafety, transitions) == c.safeTotal &&
      OverallUnsafe(crashSafety, transitions) == c.unsafeTotal &&
      OverallSafe(crashSafety, transitions) + OverallUnsafe(crashSafety, transitions) == Sum(c.totals)
  {
    CombinedIsSum(crashSafety, transitions);
  }

  // -----------------------------------------------------------------------
  // Ties tables.

  /** Rows with their totals, the "Total" row and the bottom-right cell. */
  datatype CountTable = CountTable(rows: seq<seq<nat>>, rowTotals: seq<nat>, columnTotals: seq<nat>, grandTotal: nat)

  /**
   * The ties table: row `i` is the count of groups with `i + 1` best
   * interventions per percentage, the Total row is `sum(t[p])`, and the
   * grand total `sum(column_totals)` is also the sum of the six row totals.
   */
  function Ties(t: Table): (c: CountTable)
    requires Rectangular(t, TieKinds)
    ensures |c.rows| == |c.rowTotals| == TieKinds
    ensures forall i :: 0 <= i < TieKinds ==> c.rows[i] == RowValues(t, i) && c.rowTotals[i] == Sum(c.rows[i])
    ensures |c.columnTotals| == |t| && forall p :: 0 <= p < |t| ==> c.columnTotals[p] == Sum(t[p])
    ensures c.grandTotal == Sum(c.columnTotals) == Sum(c.rowTotals)
  {
    RowsAndColumnsAgree(t, TieKinds);
    CountTable(seq(TieKinds, i requires 0 <= i < TieKinds => RowValues(t, i)), RowTotals(t, TieKinds),
      ColumnTotals(t), GrandTotal(t))
  }

  /**
   * The journal's combined ties table is the ties table of the cell-by-cell
   * sum: its Total row is `sum(crash[p]) + sum(no_crash[p])`, its row totals
   * are the summary file's aggregated ties, and its grand total is the
   * summary file's `grand_total_ties`.
   */
  lemma CombinedTies(crash: Table, noCrash: Table)
    requires Rectangular(crash, TieKinds) && Rectangular(noCrash, TieKinds) && |crash| == |noCrash|
    ensures var c := Ties(AddTables(crash, noCrash));
      (forall i, p :: 0 <= i < TieKinds && 0 <= p < |crash| ==> c.rows[i][p] == crash[p][i] + noCrash[p][i]) &&
      (forall p :: 0 <= p < |crash| ==> c.columnTotals[p] == Sum(crash[p]) + Sum(noCrash[p])) &&
      (forall i :: 0 <= i < TieKinds ==> c.rowTotals[i] == RowTotal(crash, i) + RowTotal(noCrash, i)) &&
      c.grandTotal == GrandTotal(crash) + GrandTotal(noCrash)
  {
    var both := AddTables(crash, noCrash);
    forall p | 0 <= p < |crash| ensures Sum(both[p]) == Sum(crash[p]) + Sum(noCrash[p]) {
      SumAddSeq(crash[p], noCrash[p]);
    }
    forall i | 0 <= i < TieKinds ensures RowTotal(both, i) == RowTotal(crash, i) + RowTotal(noCrash, i) {
      RowTotalAdd(crash, noCrash, i);
    }
    GrandTotalAdd(crash, noCrash);
  }

  // -----------------------------------------------------------------------
  // Actions tables.

  /** One action's line: its counts per percentage, their total, the safe total and the safe percentage. */
  datatype ActionLine = ActionLine(counts: seq<nat>, total: nat, safeTotal: nat, safePercent: real)

  /** The action lines and the bold Total line. */
  datatype ActionTable = ActionTable(lines: seq<ActionLine>, totalCounts: seq<nat>, totalTotal: nat,
                                     safeTotalTotal: nat, safeTotalPercent: real)

  /** The line of action `a`: `total = sum(counts)`, `safe_pct` guarded against a zero total. */
  function ActionLineOf(selected: Table, safe: Table, a: nat): (l: ActionLine)
    requires Rectangular(selected, |ValidActions|) && Rectangular(safe, |ValidActions|) && a < |ValidActions|
    ensures l.counts == RowValues(selected, a) && l.total == Sum(l.counts) && l.safeTotal == RowTotal(safe, a)
    ensures l.safePercent == SafePercent(l.safeTotal, l.total)
  {
    ActionLine(RowValues(selected, a), RowTotal(selected, a), RowTotal(safe, a),
      SafePercent(RowTotal(safe, a), RowTotal(selected, a)))
  }

  /**
   * The actions table. The Total line's counts are `sum(actions[p].values())`
   * and its total `sum(total_counts)` is also the sum of the per-action
   * totals above it (likewise for the safe counts), so the bottom line
   * agrees with the lines it sums up.
   */
  function Actions(selected: Table, safe: Table): (t: ActionTable)
    requires Rectangular(selected, |ValidActions|) && Rectangular(safe, |ValidActions|)
    ensures |t.lines| == |ValidActions|
    ensures forall a :: 0 <= a < |ValidActions| ==> t.lines[a] == ActionLineOf(selected, safe, a)
    ensures |t.totalCounts| == |selected| && forall p :: 0 <= p < |selected| ==> t.totalCounts[p] == Sum(selected[p])
    ensures t.totalTotal == Sum(RowTotals(selected, |ValidActions|))
    ensures t.safeTotalTotal == Sum(RowTotals(safe, |ValidActions|))
    ensures t.safeTotalPercent == SafePercent(t.safeTotalTotal, t.totalTotal)
  {
    RowsAndColumnsAgree(selected, |ValidActions|);
    RowsAndColumnsAgree(safe, |ValidActions|);
    ActionTable(seq(|ValidActions|, a requires 0 <= a < |ValidActions| => ActionLineOf(selected, safe, a)),
      ColumnTotals(selected), GrandTotal(selected), GrandTotal(safe),
      SafePercent(GrandTotal(safe), GrandTotal(selected)))
  }

  /**
   * The journal's combined actions table is the actions table of the
   * cell-by-cell sums: each action's selected and safe totals add the crash
   * and no-crash totals.
   */
  lemma CombinedActionLines(selected: Table, safe: Table, selected': Table, safe': Table)
    requires Rectangular(selected, |ValidActions|) && Rectangular(safe, |ValidActions|)
    requires Rectangular(selected', |ValidActions|) && Rectangular(safe', |ValidActions|)
    requires |selected| == |safe| == |selected'| == |safe'|
    ensures var t := Actions(AddTables(selected, selected'), AddTables(safe, safe'));
      forall a :: 0 <= a < |ValidActions| ==>
        t.lines[a].total == RowTotal(selected, a) + RowTotal(selected', a) &&
        t.lines[a].safeTotal == RowTotal(safe, a) + RowTotal(safe', a)
  {
    forall a | 0 <= a < |ValidActions|
      ensures RowTotal(AddTables(selected, selected'), a) == RowTotal(selected, a) + RowTotal(selected', a)
      ensures RowTotal(AddTables(safe, safe'), a) == RowTotal(safe, a) + RowTotal(safe', a)
    {
      RowTotalAdd(selected, selected', a);
      RowTotalAdd(safe, safe', a);
    }
  }

  /** The combined Total line adds the crash and no-crash Total lines. */
  lemma CombinedActionTotals(selected: Table, safe: Table, selected': Table, safe': Table)
    requires Rectangular(selected, |ValidActions|) && Rectangular(safe, |ValidActions|)
    requires Rectangular(selected', |ValidActions|) && Rectangular(safe', |ValidActions|)
    requires |selected| == |safe| == |selected'| == |safe'|
    ensures var t := Actions(AddTables(selected, selected'), AddTables(safe, safe'));
      (forall p :: 0 <= p < |selected| ==> t.totalCounts[p] == Sum(selected[p]) + Sum(selected'[p])) &&
      t.totalTotal == GrandTotal(selected) + GrandTotal(selected') &&
      t.safeTotalTotal == GrandTotal(safe) + GrandTotal(safe')
  {
    var both := AddTables(selected, selected');
    var safeBoth := AddTables(safe, safe');
    forall p | 0 <= p < |selected| ensures Sum(both[p]) == Sum(selected[p]) + Sum(selected'[p]) {
      SumAddSeq(selected[p], selected'[p]);
    }
    RowsAndColumnsAgree(both, |ValidActions|);
    RowsAndColumnsAgree(safeBoth, |ValidActions|);
    GrandTotalAdd(selected, selected');
    GrandTotalAdd(safe, safe');
  }
}
