/**
 * The counterfactual driver Test_1_LOOCV_final/Test_1_LOOCV_rep_1/25/run_WhatIf_V3.py.
 *
 * It reads the action names from the program's `action(<name>) :-` rule
 * heads, and for every row of the test CSV asks the engine for
 * P(latent_collision) under the intervention that sets the row's `iaction`
 * and unsets every other action, given the row's state as evidence. It
 * writes one output line per answered row, a placeholder line with
 * probability 1.0 for a row whose intervention is not one of the actions,
 * and nothing for a row whose observed action is not one of them or whose
 * query raises.
 */
module WhatIfV3 {
  import opened Wrappers
  import opened PyText
  import opened Regex
  import opened WhatIfQuery

  /** `action\(([^)]+)\)\s*:-`. */
  function ActionClause(): (pat: Pattern)
    ensures CaptureTokens(pat) == [NotClose]
  {
    OneCapture([Lit("action(")], NotClose, [Lit(")"), Spaces(false), Lit(":-")]);
    [Lit("action(")] + [NotClose] + [Lit(")"), Spaces(false), Lit(":-")]
  }

  /** Groups of `([^)]+)` are non-empty and hold no `)`. */
  lemma NotCloseGroups(pat: Pattern, matches: seq<seq<string>>)
    requires CaptureTokens(pat) == [NotClose]
    requires forall k :: 0 <= k < |matches| ==> GroupsInClass(pat, matches[k])
    ensures forall k :: 0 <= k < |matches| ==> |matches[k]| == 1 && matches[k][0] != [] && ')' !in matches[k][0]
  {
    forall k | 0 <= k < |matches|
      ensures |matches[k]| == 1 && matches[k][0] != [] && ')' !in matches[k][0]
    {
      assert GroupsInClass(pat, matches[k]);
      var g := matches[k][0];
      forall c | 0 <= c < |g| ensures g[c] != ')' {
        assert InClass(NotClose, g[c]);
      }
    }
  }

  /** `found_actions = re.findall(...)`: every rule-head name, left to right. */
  function ClauseHeads(content: string): (r: seq<string>)
    ensures forall k :: 0 <= k < |r| ==> r[k] != [] && ')' !in r[k]
  {
    var pat := ActionClause();
    var matches := FindAll(pat, content);
    FoundInClass(pat, content, 0);
    NotCloseGroups(pat, matches);
    seq(|matches|, k requires 0 <= k < |matches| => matches[k][0])
  }

  /**
   * The clause heads are the names of every successive leftmost
   * non-overlapping `action(...) :-` match in the text, in order.
   */
  lemma ClauseHeadsAreAllMatches(content: string)
    ensures var ms := MatchesFrom(ActionClause(), content, 0);
      && SuccessiveMatches(ActionClause(), content, 0, ms)
      && |ClauseHeads(content)| == |ms|
      && forall k :: 0 <= k < |ms| ==> [ClauseHeads(content)[k]] == ms[k].groups
  {
    var pat := ActionClause();
    var ms := MatchesFrom(pat, content, 0);
    MatchesFromSuccessive(pat, content, 0);
    FindAllGroups(pat, content, 0);
    FoundInClass(pat, content, 0);
    forall k | 0 <= k < |ms|
      ensures [ClauseHeads(content)[k]] == ms[k].groups
    {
      assert FindAll(pat, content)[k] == ms[k].groups;
      assert GroupsInClass(pat, FindAll(pat, content)[k]);
    }
  }

  /** The names of `xs` without repeats, each where it first appears. */
  function Unique(xs: seq<string>): (r: seq<string>)
    ensures NoDuplicates(r)
    ensures forall x :: x in r <==> x in xs
    decreases |xs|
  {
    if xs == [] then []
    else
      var front := xs[..|xs| - 1];
      var x := xs[|xs| - 1];
      assert forall y :: y in xs <==> y in front || y == x;
      if x in Unique(front) then Unique(front) else Unique(front) + [x]
  }

  /** One more name is kept exactly when it has not been seen before. */
  lemma UniqueStep(xs: seq<string>, i: nat)
    requires i < |xs|
    ensures Unique(xs[..i + 1]) == if xs[i] in Unique(xs[..i]) then Unique(xs[..i]) else Unique(xs[..i]) + [xs[i]]
  {
    assert xs[..i + 1][..i] == xs[..i];
  }

  /** Adding a name at the end leaves every earlier name's first index alone. */
  lemma {:induction false} ListIndexExtend(front: seq<string>, x: string, y: string)
    requires y in front + [x]
    ensures ListIndex(front + [x], y) == if y in front then ListIndex(front, y) else Some(|front|)
    decreases |front|
  {
    if front != [] && front[0] != y {
      assert (front + [x])[1..] == front[1..] + [x];
      ListIndexExtend(front[1..], x, y);
    }
  }

  /** The unique names keep the order in which they first appear. */
  lemma {:induction false} UniqueFirstSeen(xs: seq<string>, i: nat, j: nat)
    requires i < j < |Unique(xs)|
    ensures ListIndex(xs, Unique(xs)[i]).Some? && ListIndex(xs, Unique(xs)[j]).Some?
    ensures ListIndex(xs, Unique(xs)[i]).value < ListIndex(xs, Unique(xs)[j]).value
    decreases |xs|
  {
    var n := |xs| - 1;
    var front, x := xs[..n], xs[n];
    assert xs == front + [x];
    var u, uf := Unique(xs), Unique(front);
    assert u[i] in xs && u[j] in xs;
    if x in uf || j < |uf| {
      assert u[i] == uf[i] && u[j] == uf[j];
      UniqueFirstSeen(front, i, j);
      ListIndexExtend(front, x, u[i]);
      ListIndexExtend(front, x, u[j]);
    } else {
      assert u[j] == x && x !in front;
      assert u[i] == uf[i] && uf[i] in front;
      ListIndexExtend(front, x, u[i]);
      ListIndexExtend(front, x, x);
    }
  }

  /** The actions the driver works with: none when the program file is missing. */
  function Discovered(content: Option<string>): (actions: seq<string>)
    ensures NoDuplicates(actions)
    ensures forall a :: a in actions ==> a != [] && ')' !in a
    ensures content.Some? ==> forall a :: a in actions <==> a in ClauseHeads(content.value)
  {
    if content.None? then [] else Unique(ClauseHeads(content.value))
  }

  /**
   * Lines 21-41: the de-duplicating loop over the rule heads, or no
   * actions when reading the program raises `FileNotFoundError`.
   */
  method DiscoverActions(content: Option<string>) returns (actions: seq<string>)
    ensures actions == Discovered(content)
  {
    actions := [];
    if content.Some? {
      var found := ClauseHeads(content.value);
      actions := UniqueNames(found);
    }
  }

  /** Lines 32-34: each rule head appended unless already listed. */
  method UniqueNames(found: seq<string>) returns (actions: seq<string>)
    ensures actions == Unique(found)
  {
    actions := [];
    var i := 0;
    while i < |found|
      invariant 0 <= i <= |found|
      invariant actions == Unique(found[..i])
    {
      UniqueStep(found, i);
      if found[i] !in actions {
        actions := actions + [found[i]];
      }
      i := i + 1;
    }
    assert found[..|found|] == found;
  }

  /** The header row of the output CSV. */
  const Header: seq<string> :=
    ["action", "curr_lane", "free_E", "free_NE", "free_NW", "free_SE", "free_SW", "free_W",
     "labeled_lc", "latent_collision", "iaction", "probability", "elapsed_time"]

  /** One output line: the echoed texts, the probability and the elapsed time. */
  datatype Line = Line(fields: seq<string>, probability: real, elapsedTime: real)

  /**
   * The evidence of lines 101-144: nine atoms, the observed action's set to
   * `False` (the phase of `'True'`) and the eight state columns' phases.
   */
  function Evidence(row: TestRow): (e: Assignment)
    ensures Atom(row.action) in e && !e[Atom(row.action)] && |e| == 9
  {
    EvidenceAtoms(row, Phase("True"));
    ObservedEvidence(row, Phase("True"))
  }

  /** Lines 89 and 101-144: the evidence, rebuilt from empty for each row. */
  method BuildEvidence(row: TestRow) returns (e: Assignment)
    ensures e == Evidence(row)
  {
    e := map[];
    e := e[Atom(row.action) := Phase("True")];
    e := e["curr_lane" := Phase(row.currLane)];
    e := e["free_E" := Phase(row.freeE)];
    e := e["free_NE" := Phase(row.freeNE)];
    e := e["free_NW" := Phase(row.freeNW)];
    e := e["free_SE" := Phase(row.freeSE)];
    e := e["free_SW" := Phase(row.freeSW)];
    e := e["free_W" := Phase(row.freeW)];
    e := e["latent_collision" := Phase(row.latentCollision)];
  }

  /** Lines 168-172: one intervention per action, from tuple `k` of `iaction_truth`. */
  method BuildInterventions(actions: seq<string>, truth: seq<seq<string>>, k: nat) returns (m: Assignment)
    requires k < |truth| && |truth[k]| == |actions|
    requires forall i :: 0 <= i < |actions| ==> truth[k][i] == Truth(k, i)
    ensures m == Interventions(actions, k)
  {
    m := map[];
    var i := 0;
    while i < |actions|
      invariant 0 <= i <= |actions|
      invariant m == Interventions(actions[..i], k)
    {
      assert actions[..i + 1][..i] == actions[..i];
      m := m[Atom(actions[i]) := Phase(truth[k][i])];
      i := i + 1;
    }
    assert actions[..|actions|] == actions;
  }

  /**
   * The query a row makes: the interventions for its `iaction` and its
   * evidence, or none when its observed action or its intervention is not
   * a known action.
   */
  function Asked(actions: seq<string>, row: TestRow): (q: Option<(Assignment, Assignment)>)
    ensures q.Some? <==> row.action in actions && row.iaction in actions
  {
    if row.action in actions && row.iaction in actions then
      Some((Chosen(actions, row.iaction), Evidence(row)))
    else None
  }

  /**
   * With the discovered (distinct) actions, a query intervenes on every
   * action, setting the row's `iaction` to `False` and every other action
   * to `True`, given nine atoms of evidence that set the observed action
   * to `False`.
   */
  lemma AskedIntervenesOnIaction(actions: seq<string>, row: TestRow)
    requires NoDuplicates(actions) && Asked(actions, row).Some?
    ensures Asked(actions, row).value.0.Keys == Atoms(actions)
    ensures forall i :: 0 <= i < |actions| ==>
      Asked(actions, row).value.0[Atom(actions[i])] == (actions[i] != row.iaction)
    ensures var evidence := Asked(actions, row).value.1;
      |evidence| == 9 && Atom(row.action) in evidence && !evidence[Atom(row.action)]
  {
    ChosenSetsIaction(actions, row.iaction);
  }

  /** What the driver does with one row. */
  datatype Step = Skipped | Placeholder(line: Line) | Queried(line: Line) | Failed

  /** Lines 94-217 for one row. */
  function RowStep(actions: seq<string>, engine: Engine, row: TestRow): (s: Step)
    ensures s.Skipped? <==> row.action !in actions
    ensures s.Placeholder? <==> row.action in actions && row.iaction !in actions
    ensures s.Placeholder? ==> s.line == Line(Echo(row), 1.0, 0.0)
    ensures s.Queried? ==> s.line.fields == Echo(row)
    ensures s.Queried? || s.Failed? ==> Asked(actions, row).Some?
  {
    match Asked(actions, row)
    case None => if row.action !in actions then Skipped else Placeholder(Line(Echo(row), 1.0, 0.0))
    case Some((interventions, evidence)) =>
      match engine(interventions, evidence, Query)
      case Raised => Failed
      case Answer(p, t) => Queried(Line(Echo(row), p, t))
  }

  /** A row that makes no query does not depend on the engine. */
  lemma UnaskedIgnoresEngine(actions: seq<string>, e1: Engine, e2: Engine, row: TestRow)
    requires Asked(actions, row).None?
    ensures RowStep(actions, e1, row) == RowStep(actions, e2, row)
    ensures !RowStep(actions, e1, row).Queried? && !RowStep(actions, e1, row).Failed?
  {
  }

  /** The lines a step writes to the output CSV. */
  function Written(s: Step): seq<Line>
  {
    if s.Placeholder? || s.Queried? then [s.line] else []
  }

  /** The times a step appends to `elapsed_time.csv`: only answered queries have one. */
  function Timed(s: Step): seq<real>
  {
    if s.Queried? then [s.line.elapsedTime] else []
  }

  /** The lines a sequence of steps writes, in order. */
  function Emitted(steps: seq<Step>): (r: seq<Line>)
    ensures |r| <= |steps|
    decreases |steps|
  {
    if steps == [] then [] else Emitted(steps[..|steps| - 1]) + Written(steps[|steps| - 1])
  }

  /** The elapsed times a sequence of steps appends, in order. */
  function Clocked(steps: seq<Step>): (r: seq<real>)
    ensures |r| <= |steps|
    decreases |steps|
  {
    if steps == [] then [] else Clocked(steps[..|steps| - 1]) + Timed(steps[|steps| - 1])
  }

  /** Steps are written independently: the lines of a concatenation are the concatenated lines. */
  lemma {:induction false} EmittedAppend(a: seq<Step>, b: seq<Step>)
    ensures Emitted(a + b) == Emitted(a) + Emitted(b)
    decreases |b|
  {
    if b == [] {
      assert a + b == a;
    } else {
      var n := |b| - 1;
      var front := b[..n];
      assert (a + b)[..|a + b| - 1] == a + front;
      assert (a + b)[|a + b| - 1] == b[n];
      EmittedAppend(a, front);
      assert Emitted(a + b) == Emitted(a) + Emitted(front) + Written(b[n]);
    }
  }

  /** The times of a concatenation are the concatenated times. */
  lemma {:induction false} ClockedAppend(a: seq<Step>, b: seq<Step>)
    ensures Clocked(a + b) == Clocked(a) + Clocked(b)
    decreases |b|
  {
    if b == [] {
      assert a + b == a;
    } else {
      var n := |b| - 1;
      var front := b[..n];
      assert (a + b)[..|a + b| - 1] == a + front;
      assert (a + b)[|a + b| - 1] == b[n];
      ClockedAppend(a, front);
      assert Clocked(a + b) == Clocked(a) + Clocked(front) + Timed(b[n]);
    }
  }

  /** The step of every row. */
  function Steps(actions: seq<string>, engine: Engine, rows: seq<TestRow>): (r: seq<Step>)
    ensures |r| == |rows|
  {
    seq(|rows|, i requires 0 <= i < |rows| => RowStep(actions, engine, rows[i]))
  }

  /** The output lines after the header, for the rows in order. */
  function Lines(actions: seq<string>, engine: Engine, rows: seq<TestRow>): (r: seq<Line>)
    ensures |r| <= |rows|
  {
    Emitted(Steps(actions, engine, rows))
  }

  /** The elapsed times after the first line of `elapsed_time.csv`, for the rows in order. */
  function Times(actions: seq<string>, engine: Engine, rows: seq<TestRow>): (r: seq<real>)
    ensures |r| <= |rows|
  {
    Clocked(Steps(actions, engine, rows))
  }

  /** The steps of a concatenation are the concatenated steps. */
  lemma StepsAppend(actions: seq<string>, engine: Engine, a: seq<TestRow>, b: seq<TestRow>)
    ensures Steps(actions, engine, a + b) == Steps(actions, engine, a) + Steps(actions, engine, b)
  {
    var whole, parts := Steps(actions, engine, a + b), Steps(actions, engine, a) + Steps(actions, engine, b);
    forall i | 0 <= i < |a + b| ensures whole[i] == parts[i] {
      if i < |a| {
        assert (a + b)[i] == a[i];
      } else {
        assert (a + b)[i] == b[i - |a|];
      }
    }
    assert whole == parts;
  }

  /** A skipped or failed step between others writes nothing. */
  lemma {:induction false} SilentStepWritesNothing(a: seq<Step>, s: Step, b: seq<Step>)
    requires s.Skipped? || s.Failed?
    ensures Emitted(a + [s] + b) == Emitted(a + b)
  {
    assert [s][..0] == [];
    assert Emitted([s]) == [];
    EmittedAppend(a, [s]);
    assert Emitted(a + [s]) == Emitted(a);
    EmittedAppend(a + [s], b);
    EmittedAppend(a, b);
  }

  /** A skipped or failed step between others appends no time. */
  lemma {:induction false} SilentStepTimesNothing(a: seq<Step>, s: Step, b: seq<Step>)
    requires s.Skipped? || s.Failed?
    ensures Clocked(a + [s] + b) == Clocked(a + b)
  {
    assert [s][..0] == [];
    assert Clocked([s]) == [];
    ClockedAppend(a, [s]);
    assert Clocked(a + [s]) == Clocked(a);
    ClockedAppend(a + [s], b);
    ClockedAppend(a, b);
  }

  /**
   * A row whose observed action is unknown is skipped, and a query that
   * raises is reported and the loop goes on: either way the row writes
   * nothing and the rows around it are written as if it were absent.
   */
  lemma SilentRowWritesNothing(actions: seq<string>, engine: Engine, a: seq<TestRow>, row: TestRow, b: seq<TestRow>)
    requires row.action !in actions || RowStep(actions, engine, row).Failed?
    ensures Lines(actions, engine, a + [row] + b) == Lines(actions, engine, a + b)
    ensures Times(actions, engine, a + [row] + b) == Times(actions, engine, a + b)
  {
    var sa, sb := Steps(actions, engine, a), Steps(actions, engine, b);
    var s := RowStep(actions, engine, row);
    StepsAppend(actions, engine, a, [row]);
    StepsAppend(actions, engine, a + [row], b);
    StepsAppend(actions, engine, a, b);
    assert Steps(actions, engine, [row]) == [s];
    SilentStepWritesNothing(sa, s, sb);
    SilentStepTimesNothing(sa, s, sb);
  }

  /** Without discovered actions every row is skipped and nothing is written. */
  lemma {:induction false} NoActionsNoLines(engine: Engine, rows: seq<TestRow>)
    ensures Lines([], engine, rows) == [] && Times([], engine, rows) == []
    decreases |rows|
  {
    if rows != [] {
      var n := |rows| - 1;
      NoActionsNoLines(engine, rows[..n]);
      assert Steps([], engine, rows)[..n] == Steps([], engine, rows[..n]);
    }
  }

  /** Steps that all answered write one line and one time each, in order. */
  lemma {:induction false} QueriedStepsEmitted(steps: seq<Step>)
    requires forall i :: 0 <= i < |steps| ==> steps[i].Queried?
    ensures |Emitted(steps)| == |Clocked(steps)| == |steps|
    ensures forall i :: 0 <= i < |steps| ==>
      Emitted(steps)[i] == steps[i].line && Clocked(steps)[i] == steps[i].line.elapsedTime
    decreases |steps|
  {
    if steps != [] {
      QueriedStepsEmitted(steps[..|steps| - 1]);
    }
  }

  /** Every row's observed action and intervention are known actions and the engine answers it. */
  predicate AllAnswered(actions: seq<string>, engine: Engine, rows: seq<TestRow>)
  {
    forall i :: 0 <= i < |rows| ==> RowStep(actions, engine, rows[i]).Queried?
  }

  /** When every row is answered, each row gets its own line and its own time, in order. */
  lemma AnsweredRowsAllWritten(actions: seq<string>, engine: Engine, rows: seq<TestRow>)
    requires AllAnswered(actions, engine, rows)
    ensures |Lines(actions, engine, rows)| == |Times(actions, engine, rows)| == |rows|
    ensures forall i :: 0 <= i < |rows| ==>
      && Lines(actions, engine, rows)[i].fields == Echo(rows[i])
      && Times(actions, engine, rows)[i] == Lines(actions, engine, rows)[i].elapsedTime
  {
    var steps := Steps(actions, engine, rows);
    QueriedStepsEmitted(steps);
    forall i | 0 <= i < |rows| ensures steps[i].line.fields == Echo(rows[i]) {
      assert steps[i] == RowStep(actions, engine, rows[i]);
    }
  }

  /**
   * Lines 94-217, the body of the row loop: what one row appends to the
   * output CSV and to `elapsed_time.csv`.
   */
  method HandleRow(actions: seq<string>, truth: seq<seq<string>>, engine: Engine, row: TestRow)
    returns (written: seq<Line>, timed: seq<real>)
    requires |truth| == |actions|
    requires forall i :: 0 <= i < |actions| ==> |truth[i]| == |actions|
    requires forall i, j :: 0 <= i < |actions| && 0 <= j < |actions| ==> truth[i][j] == Truth(i, j)
    ensures written == Written(RowStep(actions, engine, row))
    ensures timed == Timed(RowStep(actions, engine, row))
  {
    written, timed := [], [];
    var observed := ListIndex(actions, row.action);
    if observed.None? {
      return;
    }
    var evidence := BuildEvidence(row);
    var chosen := ListIndex(actions, row.iaction);
    if chosen.None? {
      written := [Line(Echo(row), 1.0, 0.0)];
      return;
    }
    assert chosen.value == IndexIn(actions, row.iaction);
    var interventions := BuildInterventions(actions, truth, chosen.value);
    var answer := engine(interventions, evidence, Query);
    if answer.Answer? {
      written := [Line(Echo(row), answer.probability, answer.elapsed)];
      timed := [answer.elapsed];
    }
  }

  /**
   * The whole driver: discover the actions, build the truth tuples, and
   * handle the rows in order, returning the output lines after the header
   * and the elapsed times after the first line of `elapsed_time.csv`.
   */
  method RunWhatIf(content: Option<string>, rows: seq<TestRow>, engine: Engine)
    returns (lines: seq<Line>, times: seq<real>)
    ensures lines == Lines(Discovered(content), engine, rows)
    ensures times == Times(Discovered(content), engine, rows)
  {
    var actions := DiscoverActions(content);
    var truth := TruthTuples(|actions|);
    lines, times := RunRows(actions, truth, engine, rows);
  }

  /** The row loop of lines 85-217: each row's line and time appended in turn. */
  method RunRows(actions: seq<string>, truth: seq<seq<string>>, engine: Engine, rows: seq<TestRow>)
    returns (lines: seq<Line>, times: seq<real>)
    requires |truth| == |actions|
    requires forall i :: 0 <= i < |actions| ==> |truth[i]| == |actions|
    requires forall i, j :: 0 <= i < |actions| && 0 <= j < |actions| ==> truth[i][j] == Truth(i, j)
    ensures lines == Lines(actions, engine, rows)
    ensures times == Times(actions, engine, rows)
  {
    lines, times := [], [];
    var r := 0;
    while r < |rows|
      invariant 0 <= r <= |rows|
      invariant lines == Lines(actions, engine, rows[..r])
      invariant times == Times(actions, engine, rows[..r])
    {
      var written, timed := HandleRow(actions, truth, engine, rows[r]);
      LinesStep(actions, engine, rows, r);
      lines := lines + written;
      times := times + timed;
      r := r + 1;
    }
    assert rows[..|rows|] == rows;
  }

  /** One more row appends what its own step writes and times. */
  lemma LinesStep(actions: seq<string>, engine: Engine, rows: seq<TestRow>, r: nat)
    requires r < |rows|
    ensures Lines(actions, engine, rows[..r + 1]) == Lines(actions, engine, rows[..r]) + Written(RowStep(actions, engine, rows[r]))
    ensures Times(actions, engine, rows[..r + 1]) == Times(actions, engine, rows[..r]) + Timed(RowStep(actions, engine, rows[r]))
  {
    var steps := Steps(actions, engine, rows[..r + 1]);
    assert steps[..r] == Steps(actions, engine, rows[..r]);
    assert steps[r] == RowStep(actions, engine, rows[r]);
  }
}
