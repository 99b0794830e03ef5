/**
 * The end of the Naive-Bayes evaluator
 * (Test_1_LOOCV_HC+BIC_constrained/best_interventions_NB.py): the fold
 * loop of `process_nb_rep_perc`, the frames `save_nb_results` writes
 * (all rows, the best rows, the rows sorted by group and ranking) and the
 * counts of `generate_contingency_tables`.
 */
module NbReport {
  import opened Wrappers
  import opened Frames
  import opened DenseRank
  import opened NbFold

  /** A row as every processed fold leaves it: numbered, ranked, marked and labelled. */
  predicate SavedRow(row: Row)
  {
    && "group_id" in row && row["group_id"].Int?
    && "ranking" in row && row["ranking"].Int?
    && "best_intervention" in row
    && (row["best_intervention"] == Text("*") <==> row["ranking"] == Int(1))
    && Before in row && (row[Before] == Text("True") || row[Before] == Text("False"))
    && After in row && (row[After] == Text("True") || row[After] == Text("False"))
  }

  /** Every row of every table is a saved row. */
  predicate AllSaved(results: seq<Table>)
  {
    forall j, i :: 0 <= j < |results| && 0 <= i < |results[j].rows| ==> SavedRow(results[j].rows[i])
  }

  /** Row `i` of a processed fold is a saved row. */
  lemma FoldRowSaved(f: Fold, num: nat, noCrash: Table, counts: Option<multiset<string>>, i: nat)
    requires FoldInputs(f) && IsCsv(noCrash) && FoldResult(f, num, noCrash, counts).Some?
    requires i < |FoldResult(f, num, noCrash, counts).value.rows|
    ensures SavedRow(FoldResult(f, num, noCrash, counts).value.rows[i])
  {
    FoldIsMarkedLabelled(f, num, noCrash, counts);
    var probs := Probabilities(f.model.value, Stripped(f.test.value)).value;
    FoldRowNumbers(f, num, noCrash, counts, i);
    FoldRowLabels(f, num, noCrash, counts, i);
    var k := Ranks(probs)[i];
    assert Marker(k) == "*" <==> k == 1;
  }

  /** Every row a fold produces is a saved row. */
  lemma FoldRowsSaved(f: Fold, num: nat, noCrash: Table, counts: Option<multiset<string>>)
    requires FoldInputs(f) && IsCsv(noCrash) && FoldResult(f, num, noCrash, counts).Some?
    ensures AllSaved([FoldResult(f, num, noCrash, counts).value])
  {
    var r := FoldResult(f, num, noCrash, counts).value;
    forall i | 0 <= i < |r.rows| ensures SavedRow(r.rows[i]) {
      FoldRowSaved(f, num, noCrash, counts, i);
    }
  }

  lemma AllSavedAppend(a: seq<Table>, b: seq<Table>)
    requires AllSaved(a) && AllSaved(b)
    ensures AllSaved(a + b)
  {
    forall j, i | 0 <= j < |a + b| && 0 <= i < |(a + b)[j].rows| ensures SavedRow((a + b)[j].rows[i]) {
      if j >= |a| {
        assert (a + b)[j] == b[j - |a|];
      }
    }
  }

  /**
   * `all_results` after the fold loop (lines 385-394): fold `k + 1` reads
   * `folds[k]`, and each fold that yields a frame appends it.
   */
  function Results(folds: seq<Fold>, noCrash: Table, counts: Option<multiset<string>>): (r: seq<Table>)
    requires forall k :: 0 <= k < |folds| ==> FoldInputs(folds[k])
    requires IsCsv(noCrash)
    ensures |r| <= |folds| && AllSaved(r)
    decreases |folds|
  {
    if folds == [] then []
    else
      var n := |folds| - 1;
      var prev := Results(folds[..n], noCrash, counts);
      var frames := FoldFrames(folds[n], n + 1, noCrash, counts);
      AllSavedAppend(prev, frames);
      prev + frames
  }

  /** What fold `num` appends to `all_results`: its frame, or nothing when it yields `None`. */
  function FoldFrames(f: Fold, num: nat, noCrash: Table, counts: Option<multiset<string>>): (r: seq<Table>)
    requires FoldInputs(f) && IsCsv(noCrash)
    ensures |r| <= 1 && AllSaved(r)
    ensures r == [] <==> FoldResult(f, num, noCrash, counts).None?
    ensures FoldResult(f, num, noCrash, counts).Some? ==> r == [FoldResult(f, num, noCrash, counts).value]
  {
    match FoldResult(f, num, noCrash, counts)
    case None => []
    case Some(t) =>
      FoldRowsSaved(f, num, noCrash, counts);
      [t]
  }

  /** Python's `sum(p(x) for x in rows)`: how many rows satisfy `p`. */
  function Count(rows: seq<Row>, p: Row -> bool): (n: nat)
    ensures n <= |rows|
    decreases |rows|
  {
    if rows == [] then 0 else Count(rows[..|rows| - 1], p) + (if p(rows[|rows| - 1]) then 1 else 0)
  }

  /** `df[mask]`: the rows satisfying `p`, in order. */
  function Filter(rows: seq<Row>, p: Row -> bool): (r: seq<Row>)
    ensures |r| == Count(rows, p)
    ensures forall row :: row in r <==> row in rows && p(row)
    decreases |rows|
  {
    if rows == [] then []
    else
      var last := rows[|rows| - 1];
      Filter(rows[..|rows| - 1], p) + (if p(last) then [last] else [])
  }

  /** `pd.concat(all_results, ignore_index=True)`'s rows: the folds' rows, fold after fold. */
  function AllRows(results: seq<Table>): (r: seq<Row>)
    ensures forall row :: row in r <==> exists j :: 0 <= j < |results| && row in results[j].rows
    ensures AllSaved(results) ==> forall k :: 0 <= k < |r| ==> SavedRow(r[k])
    decreases |results|
  {
    if results == [] then []
    else
      var n := |results| - 1;
      var prev := AllRows(results[..n]);
      assert forall j :: 0 <= j < n ==> results[..n][j] == results[j];
      prev + results[n].rows
  }

  /** `pd.concat`'s columns: every table's columns, in order of first appearance. */
  function AllColumns(results: seq<Table>): (r: seq<string>)
    ensures forall c :: c in r <==> exists j :: 0 <= j < |results| && c in results[j].columns
    decreases |results|
  {
    if results == [] then []
    else
      var n := |results| - 1;
      var prev := AllColumns(results[..n]);
      assert forall j :: 0 <= j < n ==> results[..n][j] == results[j];
      prev + Leave(results[n].columns, prev)
  }

  /** Line 291's mask `combined_results['best_intervention'] == '*'`. */
  predicate Starred(row: Row)
  {
    "best_intervention" in row && row["best_intervention"] == Text("*")
  }

  /** Line 330's mask `df['ranking'] == 1`. */
  predicate RankedFirst(row: Row)
  {
    "ranking" in row && row["ranking"] == Int(1)
  }

  /** The columns line 292 drops from the best rows. */
  const Hidden: seq<string> := ["group_id", "ranking", "elapsed_time", "best_intervention"]

  /** A row without the hidden columns. */
  function Shown(row: Row): (r: Row)
    ensures forall c :: c in r <==> c in row && c !in Hidden
  {
    row - set c | c in Hidden
  }

  /** `best_intervention == '*'` rows without the hidden columns (lines 291-293). */
  function BestRows(combined: Table): (r: Table)
    ensures forall c :: c in r.columns <==> c in combined.columns && c !in Hidden
    ensures |r.rows| == Count(combined.rows, Starred)
    ensures forall row :: row in r.rows <==> exists x :: x in combined.rows && Starred(x) && row == Shown(x)
  {
    var best := Filter(combined.rows, Starred);
    var rows := seq(|best|, i requires 0 <= i < |best| => Shown(best[i]));
    assert forall x :: x in best ==> Shown(x) in rows by {
      forall x | x in best ensures Shown(x) in rows {
        var i :| 0 <= i < |best| && best[i] == x;
        assert rows[i] == Shown(x);
      }
    }
    assert forall row :: row in rows ==> exists x :: x in best && row == Shown(x) by {
      forall row | row in rows ensures exists x :: x in best && row == Shown(x) {
        var i :| 0 <= i < |rows| && rows[i] == row;
        assert best[i] in best;
      }
    }
    Table(Leave(combined.columns, Hidden), rows)
  }

  /** A row that the sort of line 297 can place: both sort keys hold integers. */
  predicate Orderable(row: Row)
  {
    "group_id" in row && row["group_id"].Int? && "ranking" in row && row["ranking"].Int?
  }

  /** The integer in column `c` of an orderable row. */
  function IntAt(row: Row, c: string): int
  {
    if c in row && row[c].Int? then row[c].i else 0
  }

  /** `a` may come before `b` when sorting orderable rows by `(group_id, ranking)`. */
  predicate NotAfter(a: Row, b: Row)
  {
    IntAt(a, "group_id") < IntAt(b, "group_id")
    || (IntAt(a, "group_id") == IntAt(b, "group_id") && IntAt(a, "ranking") <= IntAt(b, "ranking"))
  }

  predicate AllOrderable(rows: seq<Row>)
  {
    forall i :: 0 <= i < |rows| ==> Orderable(rows[i])
  }

  /** Rows in ascending `(group_id, ranking)` order. */
  predicate SortedRows(rows: seq<Row>)
  {
    forall i, j :: 0 <= i < j < |rows| ==> NotAfter(rows[i], rows[j])
  }

  /** A row that may precede every row of a sorted sequence heads a sorted sequence. */
  lemma SortedCons(y: Row, rest: seq<Row>)
    requires SortedRows(rest) && forall k :: 0 <= k < |rest| ==> NotAfter(y, rest[k])
    ensures SortedRows([y] + rest)
  {
    forall i, j | 0 <= i < j < |[y] + rest| ensures NotAfter(([y] + rest)[i], ([y] + rest)[j]) {
      if i > 0 {
        assert ([y] + rest)[i] == rest[i - 1];
      }
      assert ([y] + rest)[j] == rest[j - 1];
    }
  }

  /** Puts `x` before the first row it may precede. */
  function Insert(x: Row, rows: seq<Row>): (r: seq<Row>)
    requires Orderable(x) && AllOrderable(rows) && SortedRows(rows)
    ensures |r| == |rows| + 1
    ensures forall k :: 0 <= k < |r| ==> r[k] == x || r[k] in rows
    ensures AllOrderable(r) && SortedRows(r)
    ensures multiset(r) == multiset(rows) + multiset{x}
    decreases |rows|
  {
    if rows == [] then [x]
    else if NotAfter(x, rows[0]) then
      SortedCons(x, rows);
      [x] + rows
    else
      var rest := Insert(x, rows[1..]);
      InsertBehind(x, rows, rest);
      [rows[0]] + rest
  }

  /** When `x` goes after the head, the head followed by `x` inserted into the tail is sorted. */
  lemma InsertBehind(x: Row, rows: seq<Row>, rest: seq<Row>)
    requires Orderable(x) && AllOrderable(rows) && SortedRows(rows) && rows != [] && !NotAfter(x, rows[0])
    requires AllOrderable(rest) && SortedRows(rest) && |rest| == |rows|
    requires forall k :: 0 <= k < |rest| ==> rest[k] == x || rest[k] in rows[1..]
    requires multiset(rest) == multiset(rows[1..]) + multiset{x}
    ensures AllOrderable([rows[0]] + rest) && SortedRows([rows[0]] + rest)
    ensures forall k :: 0 <= k < |rest| + 1 ==> ([rows[0]] + rest)[k] == x || ([rows[0]] + rest)[k] in rows
    ensures multiset([rows[0]] + rest) == multiset(rows) + multiset{x}
  {
    assert rows == [rows[0]] + rows[1..];
    assert forall k :: 0 <= k < |rest| ==> NotAfter(rows[0], rest[k]) by {
      forall k | 0 <= k < |rest| ensures NotAfter(rows[0], rest[k]) {
        if rest[k] != x {
          var m :| 0 <= m < |rows[1..]| && rows[1..][m] == rest[k];
          assert rows[m + 1] == rest[k];
        }
      }
    }
    SortedCons(rows[0], rest);
    forall k | 0 <= k < |rest| + 1 ensures ([rows[0]] + rest)[k] == x || ([rows[0]] + rest)[k] in rows {
      if k > 0 {
        assert ([rows[0]] + rest)[k] == rest[k - 1];
      }
    }
  }

  /** `sort_values(['group_id', 'ranking'])` (line 297), as an insertion sort. */
  function SortRows(rows: seq<Row>): (r: seq<Row>)
    requires AllOrderable(rows)
    ensures AllOrderable(r) && SortedRows(r)
    ensures multiset(r) == multiset(rows)
    decreases |rows|
  {
    if rows == [] then []
    else
      assert rows == [rows[0]] + rows[1..];
      Insert(rows[0], SortRows(rows[1..]))
  }

  /** The row's sort key is `(g, k)`. */
  predicate HasKey(row: Row, g: int, k: int)
  {
    IntAt(row, "group_id") == g && IntAt(row, "ranking") == k
  }

  /** The rows whose sort key is `(g, k)`, in their order. */
  function KeyRun(rows: seq<Row>, g: int, k: int): seq<Row>
    decreases |rows|
  {
    if rows == [] then []
    else (if HasKey(rows[0], g, k) then [rows[0]] else []) + KeyRun(rows[1..], g, k)
  }

  /** A row in front adds itself to its key's rows. */
  lemma KeyRunCons(y: Row, rest: seq<Row>, g: int, k: int)
    ensures KeyRun([y] + rest, g, k) == (if HasKey(y, g, k) then [y] else []) + KeyRun(rest, g, k)
  {
    assert ([y] + rest)[0] == y && ([y] + rest)[1..] == rest;
  }

  /** `Insert` puts the row in front of the rows that share its key, and moves no other row past another. */
  lemma {:induction false} InsertKeyRun(x: Row, rows: seq<Row>, g: int, k: int)
    requires Orderable(x) && AllOrderable(rows) && SortedRows(rows)
    ensures KeyRun(Insert(x, rows), g, k) == (if HasKey(x, g, k) then [x] else []) + KeyRun(rows, g, k)
    decreases |rows|
  {
    if rows == [] {
      assert Insert(x, rows) == [x] + rows;
      KeyRunCons(x, rows, g, k);
    } else if NotAfter(x, rows[0]) {
      assert Insert(x, rows) == [x] + rows;
      KeyRunCons(x, rows, g, k);
    } else {
      var head, tail := rows[0], rows[1..];
      assert rows == [head] + tail;
      assert Insert(x, rows) == [head] + Insert(x, tail);
      InsertKeyRun(x, tail, g, k);
      BehindKeyRun(x, head, tail, Insert(x, tail), g, k);
    }
  }

  /** A head that sorts strictly before `x` keeps its place in front of `x`'s key. */
  lemma BehindKeyRun(x: Row, head: Row, tail: seq<Row>, inserted: seq<Row>, g: int, k: int)
    requires !NotAfter(x, head)
    requires KeyRun(inserted, g, k) == (if HasKey(x, g, k) then [x] else []) + KeyRun(tail, g, k)
    ensures KeyRun([head] + inserted, g, k) == (if HasKey(x, g, k) then [x] else []) + KeyRun([head] + tail, g, k)
  {
    KeyRunCons(head, inserted, g, k);
    KeyRunCons(head, tail, g, k);
    if HasKey(x, g, k) {
      assert !HasKey(head, g, k);
    } else {
      var its := if HasKey(head, g, k) then [head] else [];
      assert KeyRun([head] + inserted, g, k) == its + KeyRun(tail, g, k);
    }
  }

  /**
   * The sort is stable: for every key, the rows holding it come out in
   * the order they went in.
   */
  lemma {:induction false} SortRowsStable(rows: seq<Row>, g: int, k: int)
    requires AllOrderable(rows)
    ensures KeyRun(SortRows(rows), g, k) == KeyRun(rows, g, k)
    decreases |rows|
  {
    if rows != [] {
      SortRowsStable(rows[1..], g, k);
      InsertKeyRun(rows[0], SortRows(rows[1..]), g, k);
    }
  }

  predicate BeforeTrue(row: Row) { Before in row && row[Before] == Text("True") }
  predicate BeforeFalse(row: Row) { Before in row && row[Before] == Text("False") }
  predicate AfterTrue(row: Row) { After in row && row[After] == Text("True") }
  predicate AfterFalse(row: Row) { After in row && row[After] == Text("False") }
  predicate TrueTrue(row: Row) { BeforeTrue(row) && AfterTrue(row) }
  predicate TrueFalse(row: Row) { BeforeTrue(row) && AfterFalse(row) }
  predicate FalseTrue(row: Row) { BeforeFalse(row) && AfterTrue(row) }
  predicate FalseFalse(row: Row) { BeforeFalse(row) && AfterFalse(row) }
  predicate AnyRow(row: Row) { true }

  /** The rows whose `iaction` is `a`. */
  function ActionIs(a: string): Row -> bool
  {
    row => "iaction" in row && row["iaction"] == Text(a)
  }

  /**
   * Lines 344-346: `crashes_prevented / total_crashes_before * 100`, written
   * only when the denominator is positive.
   */
  function PreventionRate(prevented: nat, crashes: nat): (r: Option<real>)
    ensures r.Some? <==> crashes > 0
    ensures r.Some? ==> r.value * (crashes as real) == (prevented as real) * 100.0
    ensures r.Some? ==> 0.0 <= r.value && (prevented <= crashes ==> r.value <= 100.0)
  {
    if crashes > 0 then Some((prevented as real) / (crashes as real) * 100.0) else None
  }

  /** Every row names its intervention: `iaction` is there, as text. */
  predicate AllNamed(rows: seq<Row>)
  {
    forall i :: 0 <= i < |rows| ==> "iaction" in rows[i] && rows[i]["iaction"].Text?
  }

  /** `value_counts()` of the `iaction` column (a row without one is skipped). */
  function Actions(rows: seq<Row>): (m: multiset<string>)
    ensures |m| <= |rows|
    ensures AllNamed(rows) ==> |m| == |rows|
    decreases |rows|
  {
    if rows == [] then multiset{}
    else
      var last := rows[|rows| - 1];
      assert AllNamed(rows) ==> AllNamed(rows[..|rows| - 1]);
      Actions(rows[..|rows| - 1]) + (if "iaction" in last && last["iaction"].Text? then multiset{last["iaction"].s} else multiset{})
  }

  /** The numbers the two contingency files print. */
  datatype Report = Report(
    total: nat, crashBefore: nat, noCrashBefore: nat,
    trueTrue: nat, trueFalse: nat, falseTrue: nat, falseFalse: nat,
    crashesBefore: nat, preventionRate: Option<real>, actions: multiset<string>)

  /** `generate_contingency_tables` (lines 307-362) without its text formatting. */
  function Contingency(rows: seq<Row>): (r: Report)
    ensures r.total == |rows|
    ensures r.preventionRate.Some? <==> r.crashesBefore > 0
  {
    var best: seq<Row> := Filter(rows, RankedFirst);
    var tf := Count(best, TrueFalse);
    var crashes := Count(best, BeforeTrue);
    Report(|rows|, Count(rows, BeforeTrue), Count(rows, BeforeFalse),
      Count(best, TrueTrue), tf, Count(best, FalseTrue), Count(best, FalseFalse),
      crashes, PreventionRate(tf, crashes), Actions(best))
  }

  /** Filtering keeps each satisfying row as often as it occurs, and drops the others. */
  lemma {:induction false} FilterMultiset(rows: seq<Row>, p: Row -> bool)
    ensures forall x :: multiset(Filter(rows, p))[x] == if p(x) then multiset(rows)[x] else 0
    decreases |rows|
  {
    if rows != [] {
      var n := |rows| - 1;
      var front := rows[..n];
      FilterMultiset(front, p);
      assert rows == front + [rows[n]];
      assert multiset(rows) == multiset(front) + multiset{rows[n]};
      assert Filter(rows, p) == Filter(front, p) + (if p(rows[n]) then [rows[n]] else []);
    }
  }

  /** Reordering rows changes no count and no filtered multiset. */
  lemma CountPermutation(a: seq<Row>, b: seq<Row>, p: Row -> bool)
    requires multiset(a) == multiset(b)
    ensures multiset(Filter(a, p)) == multiset(Filter(b, p))
    ensures Count(a, p) == Count(b, p)
  {
    var fa, fb := Filter(a, p), Filter(b, p);
    FilterMultiset(a, p);
    FilterMultiset(b, p);
    forall x ensures multiset(fa)[x] == multiset(fb)[x] {
    }
    assert multiset(fa) == multiset(fb);
    assert |multiset(fa)| == |fa| && |multiset(fb)| == |fb|;
  }

  /** An action occurs in the distribution once per row holding it. */
  lemma {:induction false} ActionsCount(rows: seq<Row>, a: string)
    ensures Actions(rows)[a] == Count(rows, ActionIs(a))
    decreases |rows|
  {
    if rows != [] {
      ActionsCount(rows[..|rows| - 1], a);
    }
  }

  /** Reordering rows does not change the action distribution. */
  lemma ActionsIgnoreOrder(a: seq<Row>, b: seq<Row>)
    requires multiset(a) == multiset(b)
    ensures Actions(a) == Actions(b)
  {
    forall s ensures Actions(a)[s] == Actions(b)[s] {
      ActionsCount(a, s);
      ActionsCount(b, s);
      CountPermutation(a, b, ActionIs(s));
    }
  }

  /** The contingency report does not depend on the order of the rows. */
  lemma ReportIgnoresOrder(a: seq<Row>, b: seq<Row>)
    requires multiset(a) == multiset(b)
    ensures Contingency(a) == Contingency(b)
  {
    assert |a| == |multiset(a)| == |multiset(b)| == |b|;
    CountPermutation(a, b, BeforeTrue);
    CountPermutation(a, b, BeforeFalse);
    CountPermutation(a, b, RankedFirst);
    var ba, bb := Filter(a, RankedFirst), Filter(b, RankedFirst);
    CountPermutation(ba, bb, TrueTrue);
    CountPermutation(ba, bb, TrueFalse);
    CountPermutation(ba, bb, FalseTrue);
    CountPermutation(ba, bb, FalseFalse);
    CountPermutation(ba, bb, BeforeTrue);
    ActionsIgnoreOrder(ba, bb);
  }

  /**
   * When every row satisfying `whole` satisfies exactly one of `left` and
   * `right`, and those satisfy `whole`, the two counts add up to its count.
   */
  lemma {:induction false} CountSplit(rows: seq<Row>, whole: Row -> bool, left: Row -> bool, right: Row -> bool)
    requires forall i :: 0 <= i < |rows| ==> (whole(rows[i]) <==> left(rows[i]) || right(rows[i]))
    requires forall i :: 0 <= i < |rows| ==> !(left(rows[i]) && right(rows[i]))
    ensures Count(rows, left) + Count(rows, right) == Count(rows, whole)
    decreases |rows|
  {
    if rows != [] {
      CountSplit(rows[..|rows| - 1], whole, left, right);
    }
  }

  /** Every row satisfies `AnyRow`. */
  lemma {:induction false} CountAll(rows: seq<Row>)
    ensures Count(rows, AnyRow) == |rows|
    decreases |rows|
  {
    if rows != [] {
      CountAll(rows[..|rows| - 1]);
    }
  }

  /** Predicates that agree on every row count the same rows. */
  lemma {:induction false} SameCount(rows: seq<Row>, p: Row -> bool, q: Row -> bool)
    requires forall i :: 0 <= i < |rows| ==> (p(rows[i]) <==> q(rows[i]))
    ensures Count(rows, p) == Count(rows, q)
    decreases |rows|
  {
    if rows != [] {
      SameCount(rows[..|rows| - 1], p, q);
    }
  }

  predicate AllSavedRows(rows: seq<Row>)
  {
    forall i :: 0 <= i < |rows| ==> SavedRow(rows[i])
  }

  /**
   * Lines 317-320 with the fold labels: every row counts as a crash or as
   * no crash before the intervention, so the two counts make the total.
   */
  lemma CrashCountsMakeTotal(rows: seq<Row>)
    requires AllSavedRows(rows)
    ensures Contingency(rows).crashBefore + Contingency(rows).noCrashBefore == Contingency(rows).total
  {
    CountSplit(rows, AnyRow, BeforeTrue, BeforeFalse);
    CountAll(rows);
  }

  /**
   * Lines 326-346: among the rank-1 rows the four transition counts add up
   * to their number, the crashes before the intervention are those that
   * stay crashes plus those prevented, and so the prevention rate, when
   * written, is a percentage.
   */
  lemma TransitionsCoverBestRows(rows: seq<Row>)
    requires AllSavedRows(rows)
    ensures var r := Contingency(rows);
      && r.trueTrue + r.trueFalse + r.falseTrue + r.falseFalse == Count(rows, RankedFirst)
      && r.trueTrue + r.trueFalse == r.crashesBefore
      && (r.preventionRate.Some? ==> 0.0 <= r.preventionRate.value <= 100.0)
  {
    var best: seq<Row> := Filter(rows, RankedFirst);
    assert AllSavedRows(best) by {
      forall i | 0 <= i < |best| ensures SavedRow(best[i]) {
        assert best[i] in rows;
      }
    }
    CountSplit(best, BeforeTrue, TrueTrue, TrueFalse);
    CountSplit(best, BeforeFalse, FalseTrue, FalseFalse);
    CountSplit(best, AnyRow, BeforeTrue, BeforeFalse);
    CountAll(best);
  }

  /** When every row names its `iaction`, the distribution counts every rank-1 row once. */
  lemma ActionsCoverBestRows(rows: seq<Row>)
    requires AllNamed(rows)
    ensures |Contingency(rows).actions| == Count(rows, RankedFirst)
  {
    var best: seq<Row> := Filter(rows, RankedFirst);
    forall i | 0 <= i < |best| ensures "iaction" in best[i] && best[i]["iaction"].Text? {
      assert best[i] in rows;
    }
    assert AllNamed(best);
    assert |Actions(best)| == |best|;
    assert Contingency(rows).actions == Actions(best);
  }

  /** What `save_nb_results` writes: the combined, best and sorted frames and the report. */
  datatype Saved = Saved(combined: Table, best: Table, sorted: seq<Row>, report: Report)

  /** `save_nb_results` (lines 268-305): nothing at all when no fold produced a frame. */
  function Save(results: seq<Table>): (r: Option<Saved>)
    requires AllSaved(results)
    ensures r.None? <==> results == []
  {
    if results == [] then None
    else
      var combined := Table(AllColumns(results), AllRows(results));
      var sorted := SortRows(combined.rows);
      Some(Saved(combined, BestRows(combined), sorted, Contingency(sorted)))
  }

  /**
   * The saved frames: the sorted rows are the combined rows in
   * `(group_id, ranking)` order, and the report, computed on the sorted
   * rows, is the report of the combined rows.
   */
  lemma SavedFrames(results: seq<Table>)
    requires AllSaved(results) && results != []
    ensures var s := Save(results).value;
      && AllSavedRows(s.combined.rows)
      && SortedRows(s.sorted) && multiset(s.sorted) == multiset(s.combined.rows)
      && s.report == Contingency(s.combined.rows)
  {
    var s := Save(results).value;
    ReportIgnoresOrder(s.sorted, s.combined.rows);
  }

  /**
   * The rows saved as best interventions are the rows the transition
   * matrix counts: every fold marks `'*'` exactly on its rank-1 rows.
   */
  lemma BestRowsAreTransitions(results: seq<Table>)
    requires AllSaved(results) && results != []
    ensures var s := Save(results).value;
      |s.best.rows| == s.report.trueTrue + s.report.trueFalse + s.report.falseTrue + s.report.falseFalse
  {
    var s := Save(results).value;
    SavedFrames(results);
    var rows := s.combined.rows;
    SameCount(rows, Starred, RankedFirst);
    TransitionsCoverBestRows(rows);
  }

  /** Fold `k + 1` appends what it yields to the frames of the folds before it. */
  lemma ResultsStep(folds: seq<Fold>, noCrash: Table, counts: Option<multiset<string>>, k: nat)
    requires forall k :: 0 <= k < |folds| ==> FoldInputs(folds[k])
    requires IsCsv(noCrash) && k < |folds|
    ensures Results(folds[..k + 1], noCrash, counts)
      == Results(folds[..k], noCrash, counts) + FoldFrames(folds[k], k + 1, noCrash, counts)
  {
    assert folds[..k + 1][..k] == folds[..k];
  }

  /**
   * `process_nb_rep_perc` (lines 364-403) for one repetition and
   * percentage: `folds[k]` holds the inputs of fold `k + 1`; the counts
   * come from `load_frequency_data`, and the combined results are saved
   * when any fold produced a frame.
   */
  method ProcessRepPerc(folds: seq<Fold>, noCrash: Table, db: Option<Table>) returns (saved: Option<Saved>)
    requires forall k :: 0 <= k < |folds| ==> FoldInputs(folds[k])
    requires IsCsv(noCrash) && (db.Some? ==> IsCsv(db.value))
    ensures saved == Save(Results(folds, noCrash, FrequencyCounts(db)))
  {
    var counts := FrequencyCounts(db);
    var all := CollectFrames(folds, noCrash, counts);
    saved := Save(all);
  }

  /** The fold loop of lines 387-396: each fold's frame, when it yields one, appended in turn. */
  method CollectFrames(folds: seq<Fold>, noCrash: Table, counts: Option<multiset<string>>) returns (all: seq<Table>)
    requires forall k :: 0 <= k < |folds| ==> FoldInputs(folds[k])
    requires IsCsv(noCrash)
    ensures all == Results(folds, noCrash, counts)
  {
    all := [];
    var k := 0;
    while k < |folds|
      invariant 0 <= k <= |folds|
      invariant all == Results(folds[..k], noCrash, counts)
    {
      var r := ProcessFold(folds[k], k + 1, noCrash, counts);
      ResultsStep(folds, noCrash, counts, k);
      if r.Some? {
        all := all + [r.value];
      }
      k := k + 1;
    }
    assert folds[..k] == folds;
  }
}
