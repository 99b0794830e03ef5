/**
 * The counterfactual driver Test_1_LOOCV_final_no_structure/run_WhatIf_V4.py
 * (`run_whatif`).
 *
 * The actions are those of six fixed names that occur anywhere in the
 * program text. Every row of the test CSV yields one result tuple: a
 * placeholder with probability 1.0 when its intervention is not one of the
 * actions, the engine's answer otherwise. An engine exception is not
 * caught, so it ends the fold without results.
 */
module WhatIfV4 {
  import opened Wrappers
  import opened PyText
  import opened WhatIfQuery
  import WhatIfV3

  /** `actions_list`. */
  const ActionNames: seq<string> :=
    ["change_to_left", "change_to_right", "cruise", "keep", "swerve_left", "swerve_right"]

  /**
   * `[a for a in names if re.search(rf"{a}", content)]`. The names hold no
   * regular-expression metacharacters, so the search is a substring search.
   */
  function Occurring(names: seq<string>, content: string): (r: seq<string>)
    ensures forall a :: a in r <==> a in names && Contains(content, a)
    ensures NoDuplicates(names) ==> NoDuplicates(r)
    decreases |names|
  {
    if names == [] then []
    else
      var rest := Occurring(names[1..], content);
      assert NoDuplicates(names) ==> names[0] !in names[1..];
      (if Contains(content, names[0]) then [names[0]] else []) + rest
  }

  /**
   * `list(set(actions_found))`: the same names once each, in whatever
   * order CPython's set iteration yields. That order is not a function of
   * the names alone, so the model takes it as a parameter.
   */
  predicate SetOrder(order: seq<string>, found: seq<string>)
  {
    && NoDuplicates(order)
    && (forall a :: a in order ==> a in found)
    && (forall a :: a in found ==> a in order)
  }

  /** The actions of a fold: the set order when the program was read, none when it is missing. */
  function Discovered(content: Option<string>, order: seq<string>): seq<string>
  {
    if content.Some? then order else []
  }

  /**
   * The discovered actions are distinct and are exactly those of the six
   * names that occur in the program text; none when the file is missing.
   */
  lemma DiscoveredActions(content: Option<string>, order: seq<string>)
    requires content.Some? ==> SetOrder(order, Occurring(ActionNames, content.value))
    ensures NoDuplicates(Discovered(content, order))
    ensures forall a :: a in Discovered(content, order) <==>
      content.Some? && a in ActionNames && Contains(content.value, a)
  {
  }

  /** The evidence columns in the order of the loop of line 51. */
  const EvidenceColumns: seq<EvidenceColumn> :=
    [ActionCol, CurrLane, FreeE, FreeNE, FreeNW, FreeSE, FreeSW, FreeW, LatentCollision]

  /** The evidence atom a column's value is stored under: `action(<value>)` for `action`. */
  function EvidenceName(key: EvidenceColumn, value: string): string
  {
    if key == ActionCol then Atom(value) else Name(key)
  }

  /** The evidence after the loop of lines 51-57 has handled `keys`. */
  function Entered(row: TestRow, keys: seq<EvidenceColumn>): Assignment
    decreases |keys|
  {
    if keys == [] then map[]
    else
      var n := |keys| - 1;
      var value := Column(row, keys[n]);
      Entered(row, keys[..n])[EvidenceName(keys[n], value) := Phase(value)]
  }

  /** One more iteration of the loop enters the next column's atom. */
  lemma EnteredStep(row: TestRow, keys: seq<EvidenceColumn>, i: nat)
    requires i < |keys|
    ensures Entered(row, keys[..i + 1]) ==
      Entered(row, keys[..i])[EvidenceName(keys[i], Column(row, keys[i])) := Phase(Column(row, keys[i]))]
  {
    assert keys[..i + 1][..i] == keys[..i];
  }

  /** The loop's first five iterations: the observed action's atom and four state columns. */
  lemma EnteredFirstFive(row: TestRow)
    ensures Entered(row, EvidenceColumns[..5]) ==
      map[Atom(row.action) := Phase(row.action), "curr_lane" := Phase(row.currLane),
          "free_E" := Phase(row.freeE), "free_NE" := Phase(row.freeNE), "free_NW" := Phase(row.freeNW)]
  {
    var keys := EvidenceColumns;
    var none: Assignment := map[];
    assert keys[..1][..0] == [] && keys[..1][0] == ActionCol;
    assert Entered(row, keys[..1]) == none[Atom(row.action) := Phase(row.action)];
    assert keys[..2][..1] == keys[..1] && keys[..2][1] == CurrLane;
    assert Entered(row, keys[..2]) == Entered(row, keys[..1])["curr_lane" := Phase(row.currLane)];
    assert keys[..3][..2] == keys[..2] && keys[..3][2] == FreeE;
    assert Entered(row, keys[..3]) == Entered(row, keys[..2])["free_E" := Phase(row.freeE)];
    assert keys[..4][..3] == keys[..3] && keys[..4][3] == FreeNE;
    assert Entered(row, keys[..4]) == Entered(row, keys[..3])["free_NE" := Phase(row.freeNE)];
    assert keys[..5][..4] == keys[..4] && keys[..5][4] == FreeNW;
    assert Entered(row, keys[..5]) == Entered(row, keys[..4])["free_NW" := Phase(row.freeNW)];
  }

  /** The whole loop enters the nine atoms in the order V3 writes them out. */
  lemma EnteredAll(row: TestRow)
    ensures Entered(row, EvidenceColumns) == ObservedEvidence(row, Phase(row.action))
  {
    var keys := EvidenceColumns;
    EnteredFirstFive(row);
    assert keys[..6][..5] == keys[..5] && keys[..6][5] == FreeSE;
    assert Entered(row, keys[..6]) == Entered(row, keys[..5])["free_SE" := Phase(row.freeSE)];
    assert keys[..7][..6] == keys[..6] && keys[..7][6] == FreeSW;
    assert Entered(row, keys[..7]) == Entered(row, keys[..6])["free_SW" := Phase(row.freeSW)];
    assert keys[..8][..7] == keys[..7] && keys[..8][7] == FreeW;
    assert Entered(row, keys[..8]) == Entered(row, keys[..7])["free_W" := Phase(row.freeW)];
    assert keys[..9][..8] == keys[..8] && keys[..9][8] == LatentCollision;
    assert Entered(row, keys[..9]) == Entered(row, keys[..8])["latent_collision" := Phase(row.latentCollision)];
    assert keys[..9] == keys;
  }

  /**
   * The evidence of lines 50-57: nine atoms, the same as V3's except that
   * the observed action's atom holds the phase of the action's name.
   */
  function Evidence(row: TestRow): (e: Assignment)
    ensures e == ObservedEvidence(row, Phase(row.action))
  {
    EnteredAll(row);
    Entered(row, EvidenceColumns)
  }

  /** Lines 50-57: the evidence loop, from empty for each row. */
  method BuildEvidence(row: TestRow) returns (e: Assignment)
    ensures e == Evidence(row)
  {
    e := map[];
    var i := 0;
    while i < |EvidenceColumns|
      invariant 0 <= i <= |EvidenceColumns|
      invariant e == Entered(row, EvidenceColumns[..i])
    {
      var key := EvidenceColumns[i];
      EnteredStep(row, EvidenceColumns, i);
      var value := Column(row, key);
      var phase := Phase(value);
      if key == ActionCol {
        e := e[Atom(value) := phase];
      } else {
        e := e[Name(key) := phase];
      }
      i := i + 1;
    }
    assert EvidenceColumns[..|EvidenceColumns|] == EvidenceColumns;
  }

  /**
   * V4 and V3 build the same evidence except for the observed action's
   * atom: V3 gives it the phase of `'True'`, which is `False`; V4 gives it
   * the phase of the action's name, which is `True` for every name but
   * `"True"`.
   */
  lemma ObservedActionPolarity(row: TestRow)
    ensures WhatIfV3.Evidence(row) == ObservedEvidence(row, false)
    ensures Evidence(row) == ObservedEvidence(row, row.action != "True")
    ensures !WhatIfV3.Evidence(row)[Atom(row.action)]
    ensures Evidence(row)[Atom(row.action)] <==> row.action != "True"
  {
    EvidenceAtoms(row, false);
    EvidenceAtoms(row, row.action != "True");
  }

  /** `{f'action({a})': phase(v) for a, v in zip(actions, values)}`. */
  function Zipped(actions: seq<string>, values: seq<string>): Assignment
    requires |values| == |actions|
    decreases |actions|
  {
    if actions == [] then map[]
    else
      var n := |actions| - 1;
      Zipped(actions[..n], values[..n])[Atom(actions[n]) := Phase(values[n])]
  }

  /** Zipping with tuple `k` of `iaction_truth` gives the interventions for index `k`. */
  lemma {:induction false} ZippedTruth(actions: seq<string>, values: seq<string>, k: nat)
    requires |values| == |actions|
    requires forall i :: 0 <= i < |actions| ==> values[i] == Truth(k, i)
    ensures Zipped(actions, values) == Interventions(actions, k)
    decreases |actions|
  {
    if actions != [] {
      var n := |actions| - 1;
      ZippedTruth(actions[..n], values[..n], k);
    }
  }

  /** One result tuple: the eleven echoed texts, the probability, the elapsed time and the fold. */
  datatype Result = Result(fields: seq<string>, probability: real, elapsedTime: real, fold: int)

  /** What one row adds: its tuple to `results` and, for a query that was made, its time to `elapsed_times`. */
  datatype Outcome = Outcome(result: Result, timed: seq<real>)

  /** The engine raises on this row's query. */
  predicate Raises(actions: seq<string>, engine: Engine, row: TestRow)
  {
    row.iaction in actions && engine(Chosen(actions, row.iaction), Evidence(row), Query).Raised?
  }

  /** Lines 49-90 for one row: its outcome, or nothing when the query raises. */
  function RowOutcome(actions: seq<string>, engine: Engine, row: TestRow, fold: int): (r: Option<Outcome>)
    ensures r.None? <==> Raises(actions, engine, row)
    ensures r.Some? ==> r.value.result.fields == Echo(row) && r.value.result.fold == fold
    ensures r.Some? ==> |r.value.timed| == if row.iaction in actions then 1 else 0
    ensures r.Some? && row.iaction !in actions ==>
      r.value.result.probability == 1.0 && r.value.result.elapsedTime == 0.0
  {
    if row.iaction !in actions then Some(Outcome(Result(Echo(row), 1.0, 0.0, fold), []))
    else
      match engine(Chosen(actions, row.iaction), Evidence(row), Query)
      case Raised => None
      case Answer(p, t) => Some(Outcome(Result(Echo(row), p, t, fold), [t]))
  }

  /** The results and the times of the outcomes in order, or nothing when one of them raised. */
  function Gather(outs: seq<Option<Outcome>>): Option<(seq<Result>, seq<real>)>
    decreases |outs|
  {
    if outs == [] then Some(([], []))
    else
      var n := |outs| - 1;
      match Gather(outs[..n])
      case None => None
      case Some((results, times)) =>
        if outs[n].None? then None
        else Some((results + [outs[n].value.result], times + outs[n].value.timed))
  }

  /** The number of times the outcomes append. */
  function TimeCount(outs: seq<Option<Outcome>>): nat
    decreases |outs|
  {
    if outs == [] then 0
    else
      var n := |outs| - 1;
      TimeCount(outs[..n]) + (if outs[n].Some? then |outs[n].value.timed| else 0)
  }

  /** Gathering fails exactly when some outcome is missing. */
  lemma {:induction false} GatherFailsIffMissing(outs: seq<Option<Outcome>>)
    ensures Gather(outs).None? <==> exists i :: 0 <= i < |outs| && outs[i].None?
    decreases |outs|
  {
    if outs != [] {
      var n := |outs| - 1;
      GatherFailsIffMissing(outs[..n]);
      assert forall i :: 0 <= i < n ==> outs[..n][i] == outs[i];
    }
  }

  /** Gathered outcomes keep one tuple per outcome, in order, and all their times. */
  lemma {:induction false} GatherKeepsAll(outs: seq<Option<Outcome>>)
    requires Gather(outs).Some?
    ensures var (results, times) := Gather(outs).value;
      && |results| == |outs|
      && |times| == TimeCount(outs)
      && forall i :: 0 <= i < |outs| ==> outs[i].Some? && results[i] == outs[i].value.result
    decreases |outs|
  {
    if outs != [] {
      var n := |outs| - 1;
      GatherKeepsAll(outs[..n]);
      assert forall i :: 0 <= i < n ==> outs[..n][i] == outs[i];
    }
  }

  /** The outcome of every row. */
  function Outcomes(actions: seq<string>, engine: Engine, rows: seq<TestRow>, fold: int): (r: seq<Option<Outcome>>)
    ensures |r| == |rows|
  {
    seq(|rows|, i requires 0 <= i < |rows| => RowOutcome(actions, engine, rows[i], fold))
  }

  /** `run_whatif`'s `(results, elapsed_times)`, or nothing when some query raises. */
  function Run(actions: seq<string>, engine: Engine, rows: seq<TestRow>, fold: int): Option<(seq<Result>, seq<real>)>
  {
    Gather(Outcomes(actions, engine, rows, fold))
  }

  /** The number of rows whose intervention is one of the actions. */
  function Mapped(actions: seq<string>, rows: seq<TestRow>): (n: nat)
    ensures n <= |rows|
    decreases |rows|
  {
    if rows == [] then 0
    else Mapped(actions, rows[..|rows| - 1]) + (if rows[|rows| - 1].iaction in actions then 1 else 0)
  }

  /**
   * When no query raises, each row whose intervention is one of the
   * actions, and only such a row, appends one time.
   */
  lemma {:induction false} TimesOfMappedRows(actions: seq<string>, engine: Engine, rows: seq<TestRow>, fold: int)
    requires forall i :: 0 <= i < |rows| ==> !Raises(actions, engine, rows[i])
    ensures TimeCount(Outcomes(actions, engine, rows, fold)) == Mapped(actions, rows)
    decreases |rows|
  {
    if rows != [] {
      var n := |rows| - 1;
      assert forall i :: 0 <= i < n ==> rows[..n][i] == rows[i];
      TimesOfMappedRows(actions, engine, rows[..n], fold);
      assert Outcomes(actions, engine, rows, fold)[..n] == Outcomes(actions, engine, rows[..n], fold);
    }
  }

  /** The fold fails exactly when some row's query raises. */
  lemma RunFailsIffRaises(actions: seq<string>, engine: Engine, rows: seq<TestRow>, fold: int)
    ensures Run(actions, engine, rows, fold).None? <==>
      exists i :: 0 <= i < |rows| && Raises(actions, engine, rows[i])
  {
    var outs := Outcomes(actions, engine, rows, fold);
    GatherFailsIffMissing(outs);
    assert forall i :: 0 <= i < |rows| ==> (outs[i].None? <==> Raises(actions, engine, rows[i]));
  }

  /**
   * Absent exceptions, every row yields one tuple, in input order, echoing
   * the row and carrying the fold, unlike V3 which skips rows whose observed
   * action is unknown; an unmapped intervention's tuple is the placeholder;
   * and there is one elapsed time per row whose intervention is one of the
   * actions.
   */
  lemma RunShape(actions: seq<string>, engine: Engine, rows: seq<TestRow>, fold: int)
    requires Run(actions, engine, rows, fold).Some?
    ensures var (results, times) := Run(actions, engine, rows, fold).value;
      && |results| == |rows|
      && |times| == Mapped(actions, rows)
      && (forall i :: 0 <= i < |rows| ==> results[i].fields == Echo(rows[i]) && results[i].fold == fold)
      && (forall i :: 0 <= i < |rows| && rows[i].iaction !in actions ==>
            results[i].probability == 1.0 && results[i].elapsedTime == 0.0)
  {
    GatherKeepsAll(Outcomes(actions, engine, rows, fold));
    RunFailsIffRaises(actions, engine, rows, fold);
    TimesOfMappedRows(actions, engine, rows, fold);
  }

  /** Lines 49-90, the body of the row loop: the row's outcome, or `None` where the query raises. */
  method HandleRow(actions: seq<string>, truth: seq<seq<string>>, engine: Engine, row: TestRow, fold: int)
    returns (out: Option<Outcome>)
    requires |truth| == |actions|
    requires forall i :: 0 <= i < |actions| ==> |truth[i]| == |actions|
    requires forall i, j :: 0 <= i < |actions| && 0 <= j < |actions| ==> truth[i][j] == Truth(i, j)
    ensures out == RowOutcome(actions, engine, row, fold)
  {
    var evidence := BuildEvidence(row);
    var index := ListIndex(actions, row.iaction);
    if index.None? {
      return Some(Outcome(Result(Echo(row), 1.0, 0.0, fold), []));
    }
    var k := index.value;
    assert k == IndexIn(actions, row.iaction);
    ZippedTruth(actions, truth[k], k);
    var interventions := Zipped(actions, truth[k]);
    var answer := engine(interventions, evidence, Query);
    if answer.Raised? {
      return None;
    }
    return Some(Outcome(Result(Echo(row), answer.probability, answer.elapsed, fold), [answer.elapsed]));
  }

  /** One more row adds its outcome at the end. */
  lemma OutcomesStep(actions: seq<string>, engine: Engine, rows: seq<TestRow>, fold: int, i: nat)
    requires i < |rows|
    ensures Outcomes(actions, engine, rows[..i + 1], fold) ==
      Outcomes(actions, engine, rows[..i], fold) + [RowOutcome(actions, engine, rows[i], fold)]
  {
  }

  /** Gathering one more outcome extends the results, or fails. */
  lemma GatherStep(outs: seq<Option<Outcome>>, out: Option<Outcome>)
    ensures Gather(outs + [out]) ==
      if Gather(outs).None? || out.None? then None
      else Some((Gather(outs).value.0 + [out.value.result], Gather(outs).value.1 + out.value.timed))
  {
    assert (outs + [out])[..|outs|] == outs;
  }

  /** Lines 46-92: the row loop, stopping at the first query that raises. */
  method RunRows(actions: seq<string>, truth: seq<seq<string>>, engine: Engine, rows: seq<TestRow>, fold: int)
    returns (r: Option<(seq<Result>, seq<real>)>)
    requires |truth| == |actions|
    requires forall i :: 0 <= i < |actions| ==> |truth[i]| == |actions|
    requires forall i, j :: 0 <= i < |actions| && 0 <= j < |actions| ==> truth[i][j] == Truth(i, j)
    ensures r == Run(actions, engine, rows, fold)
  {
    var results, times := [], [];
    var i := 0;
    while i < |rows|
      invariant 0 <= i <= |rows|
      invariant Run(actions, engine, rows[..i], fold) == Some((results, times))
    {
      var out := HandleRow(actions, truth, engine, rows[i], fold);
      OutcomesStep(actions, engine, rows, fold, i);
      GatherStep(Outcomes(actions, engine, rows[..i], fold), out);
      if out.None? {
        RunFailsIffRaises(actions, engine, rows, fold);
        return None;
      }
      results := results + [out.value.result];
      times := times + out.value.timed;
      i := i + 1;
    }
    assert rows[..|rows|] == rows;
    r := Some((results, times));
  }

  /** Lines 10-92: the whole of `run_whatif`, with `order` standing for the set's iteration order. */
  method RunWhatIf(content: Option<string>, order: seq<string>, rows: seq<TestRow>, engine: Engine, fold: int)
    returns (r: Option<(seq<Result>, seq<real>)>)
    requires content.Some? ==> SetOrder(order, Occurring(ActionNames, content.value))
    ensures r == Run(Discovered(content, order), engine, rows, fold)
  {
    var actions := if content.Some? then order else [];
    var truth := TruthTuples(|actions|);
    r := RunRows(actions, truth, engine, rows, fold);
  }
}
