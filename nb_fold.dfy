/**
 * One fold of the Naive-Bayes best-intervention evaluator
 * (Test_1_LOOCV_HC+BIC_constrained/best_interventions_NB.py): the
 * probability of each row's candidate intervention `iaction`, its dense
 * rank, the potential-crash labels before and after the intervention, the
 * frequency of the intervention in the complete database, and the
 * best-intervention marker.
 *
 * The trained model is not modelled: a fold's model is its encoder's class
 * labels and the matrix `predict_proba` returns for the fold's test rows.
 */
module NbFold {
  import opened Wrappers
  import opened PyText
  import opened PyInt
  import opened Frames
  import opened DenseRank

  /** The columns the model was trained on (line 46). */
  const FeatureColumns: seq<string> :=
    ["curr_lane", "free_E", "free_NE", "free_NW", "free_SE", "free_SW", "free_W", "latent_collision"]

  /** The state columns of the frequency key (lines 220 and 247). */
  const StateColumns: seq<string> :=
    ["curr_lane", "free_E", "free_NE", "free_NW", "free_SE", "free_SW", "free_W"]

  /** The columns the evaluator fills with numbers; every other cell is text. */
  const Numeric: seq<string> := ["probability", "group_id", "elapsed_time", "ranking"]

  /**
   * Columns never part of the crash-label key (lines 174-178); the last
   * three are excluded only when present, which makes no difference to the
   * key since only present columns can be part of it.
   */
  const Excluded: seq<string> :=
    Numeric + ["iaction", "best_intervention", "frequency", "latent_collision", "labeled_lc", "orig_label_lc"]

  /** The key columns the script reads as text are not numeric ones. */
  lemma KeyNamesAreText()
    ensures "iaction" !in Numeric && "action" !in Numeric
    ensures forall c :: c in StateColumns ==> c !in Numeric
  {
  }

  const Before: string := "potential_crash_before_intervention"
  const After: string := "potential_crash_after_intervention"

  /** A frame as `pd.read_csv(path, dtype=str)` gives it: text in every cell. */
  predicate IsCsv(t: Table)
  {
    t.WellFormed() && TextIn(t.rows, t.columns)
  }

  /** Every cell outside the numeric columns is text. */
  predicate TextOutside(t: Table)
  {
    t.WellFormed() &&
    forall i, c :: 0 <= i < |t.rows| && c in t.columns && c !in Numeric ==> c in t.rows[i] && t.rows[i][c].Text?
  }

  /** A column of texts keeps every column but the numeric ones textual. */
  lemma AssignedTextOutside(t: Table, name: string, values: seq<Cell>)
    requires TextOutside(t) && |values| == |t.rows|
    requires forall i :: 0 <= i < |values| ==> values[i].Text?
    ensures TextOutside(Assigned(t, name, values))
  {
    var r := Assigned(t, name, values);
    forall i, c | 0 <= i < |r.rows| && c in r.columns && c !in Numeric
      ensures c in r.rows[i] && r.rows[i][c].Text?
    {
      assert r.rows[i] == t.rows[i][name := values[i]];
    }
  }

  /** Dropping a column keeps the others textual. */
  lemma DroppedTextOutside(t: Table, name: string)
    requires TextOutside(t)
    ensures TextOutside(Dropped(t, name))
  {
    var r := Dropped(t, name);
    forall i, c | 0 <= i < |r.rows| && c in r.columns && c !in Numeric
      ensures c in r.rows[i] && r.rows[i][c].Text?
    {
      assert r.rows[i] == t.rows[i] - {name};
    }
  }

  lemma CsvTextOutside(t: Table)
    requires IsCsv(t)
    ensures TextOutside(t)
  {
  }

  // ---------------------------------------------------------------------
  // compute_probability_for_iaction (lines 36-91)
  // ---------------------------------------------------------------------

  /** What a fold's pickled model yields: the encoder's classes and `predict_proba`'s matrix, `None` when it raises. */
  datatype Model = Model(classes: seq<string>, proba: Option<seq<seq<real>>>)

  /** `k` is the first position of `x` among the classes (`np.where(classes == x)[0][0]`). */
  predicate FirstIndex(classes: seq<string>, x: string, k: nat)
  {
    k < |classes| && classes[k] == x && forall b :: 0 <= b < k ==> classes[b] != x
  }

  /** Entry `[i, k]` of the matrix, or 0.0 when indexing raises `IndexError`. */
  function Entry(proba: seq<seq<real>>, i: nat, k: nat): real
  {
    if i < |proba| && k < |proba[i]| then proba[i][k] else 0.0
  }

  /**
   * Lines 74-83: the probability of row `i`'s intervention is the matrix
   * entry of its class, and 0.0 when it is not among the trained classes
   * (the `IndexError` handler).
   */
  function RowProbability(classes: seq<string>, proba: seq<seq<real>>, i: nat, iaction: string): (p: real)
    ensures iaction !in classes ==> p == 0.0
    ensures forall k: nat :: FirstIndex(classes, iaction, k) ==> p == Entry(proba, i, k)
  {
    match ListIndex(classes, iaction)
    case None => 0.0
    case Some(k) => Entry(proba, i, k)
  }

  /**
   * Lines 46-91: no probabilities when none of the feature columns is
   * present, when `predict_proba` raises, or when a row has no `iaction`
   * (the `KeyError` reaches the handler at line 89); otherwise one per row.
   */
  function Probabilities(m: Model, t: Table): (r: Option<seq<real>>)
    requires IsCsv(t)
    ensures r.None? <==> Keep(FeatureColumns, t.columns) == [] || m.proba.None? || (t.rows != [] && "iaction" !in t.columns)
    ensures r.Some? ==> |r.value| == |t.rows|
    ensures r.Some? ==> forall i :: 0 <= i < |t.rows| ==>
      "iaction" in t.rows[i] && r.value[i] == RowProbability(m.classes, m.proba.value, i, t.rows[i]["iaction"].s)
  {
    if Keep(FeatureColumns, t.columns) == [] || m.proba.None? || (t.rows != [] && "iaction" !in t.columns) then None
    else Some(seq(|t.rows|, i requires 0 <= i < |t.rows| => RowProbability(m.classes, m.proba.value, i, t.rows[i]["iaction"].s)))
  }

  /** The `iterrows` loop of lines 72-83. */
  method ComputeProbabilities(m: Model, t: Table) returns (r: Option<seq<real>>)
    requires IsCsv(t)
    ensures r == Probabilities(m, t)
  {
    if Keep(FeatureColumns, t.columns) == [] {
      return None;
    }
    if m.proba.None? {
      return None;
    }
    var proba := m.proba.value;
    var probabilities: seq<real> := [];
    var i := 0;
    while i < |t.rows|
      invariant 0 <= i <= |t.rows| && |probabilities| == i
      invariant i > 0 ==> "iaction" in t.columns
      invariant forall j :: 0 <= j < i ==> probabilities[j] == RowProbability(m.classes, proba, j, t.rows[j]["iaction"].s)
    {
      if "iaction" !in t.columns {
        return None;
      }
      var iaction := t.rows[i]["iaction"].s;
      var p := 0.0;
      var k := ListIndex(m.classes, iaction);
      if k.Some? && i < |proba| && k.value < |proba[i]| {
        p := proba[i][k.value];
      }
      probabilities := probabilities + [p];
      i := i + 1;
    }
    assert probabilities == Probabilities(m, t).value;
    return Some(probabilities);
  }

  // ---------------------------------------------------------------------
  // calculate_crash_potential and make_key_from_df (lines 171-208)
  // ---------------------------------------------------------------------

  /** `no_crashes_cols`: the state columns of the frame that the no-crash table also has. */
  function KeyColumns(t: Table, noCrash: Table): (r: seq<string>)
    ensures forall c :: c in r <==> c in t.columns && c !in Excluded && c in noCrash.columns
    ensures TextOutside(t) ==> TextIn(t.rows, r)
    ensures IsCsv(noCrash) ==> TextIn(noCrash.rows, r)
  {
    Keep(Leave(t.columns, Excluded), noCrash.columns)
  }

  /** `no_crashes_set`: the keys of the no-crash table's rows. */
  function NoCrashKeys(noCrash: Table, cols: seq<string>): set<string>
    requires TextIn(noCrash.rows, cols)
  {
    set i | 0 <= i < |noCrash.rows| :: Key(noCrash.rows[i], cols)
  }

  /** `np.where(key in no_crashes_set, 'False', 'True')`. */
  function Label(key: string, known: set<string>): (l: string)
    ensures l == "False" <==> key in known
    ensures l == "True" <==> key !in known
  {
    if key in known then "False" else "True"
  }

  /** Whether the after key replaces `action` by `iaction` (line 198). */
  predicate Swaps(t: Table, cols: seq<string>)
  {
    "action" in cols && "iaction" in t.columns
  }

  /** Lines 197-200: row `i` as seen after the intervention, whose `action` is its `iaction`. */
  function AfterRow(t: Table, cols: seq<string>, i: nat): (r: Row)
    requires TextOutside(t) && i < |t.rows|
    ensures Swaps(t, cols) ==> "iaction" in t.rows[i] && r == t.rows[i]["action" := t.rows[i]["iaction"]]
    ensures !Swaps(t, cols) ==> r == t.rows[i]
    ensures TextIn(t.rows, cols) ==> forall c :: c in cols ==> c in r && r[c].Text?
  {
    KeyNamesAreText();
    if Swaps(t, cols) then t.rows[i]["action" := t.rows[i]["iaction"]] else t.rows[i]
  }

  /**
   * Lines 182-193: the before-intervention label of every row: `'True'`
   * when no state column is shared, otherwise `'False'` exactly when the
   * row's key over the shared columns is a no-crash key.
   */
  function BeforeColumn(t: Table, noCrash: Table): (r: seq<Cell>)
    requires TextOutside(t) && IsCsv(noCrash)
    ensures |r| == |t.rows|
    ensures KeyColumns(t, noCrash) == [] ==> forall i :: 0 <= i < |t.rows| ==> r[i] == Text("True")
    ensures KeyColumns(t, noCrash) != [] ==> forall i :: 0 <= i < |t.rows| ==>
      r[i] == Text(Label(Key(t.rows[i], KeyColumns(t, noCrash)), NoCrashKeys(noCrash, KeyColumns(t, noCrash))))
  {
    var cols := KeyColumns(t, noCrash);
    if cols == [] then Constant(Text("True"), |t.rows|)
    else
      var known := NoCrashKeys(noCrash, cols);
      seq(|t.rows|, i requires 0 <= i < |t.rows| => Text(Label(Key(t.rows[i], cols), known)))
  }

  /**
   * Lines 182-187 and 195-202: the after-intervention label, from the key
   * of the row with `action` replaced by `iaction`.
   */
  function AfterColumn(t: Table, noCrash: Table): (r: seq<Cell>)
    requires TextOutside(t) && IsCsv(noCrash)
    ensures |r| == |t.rows|
    ensures KeyColumns(t, noCrash) == [] ==> forall i :: 0 <= i < |t.rows| ==> r[i] == Text("True")
    ensures KeyColumns(t, noCrash) != [] ==> forall i :: 0 <= i < |t.rows| ==>
      r[i] == Text(Label(Key(AfterRow(t, KeyColumns(t, noCrash), i), KeyColumns(t, noCrash)), NoCrashKeys(noCrash, KeyColumns(t, noCrash))))
  {
    var cols := KeyColumns(t, noCrash);
    if cols == [] then Constant(Text("True"), |t.rows|)
    else
      var known := NoCrashKeys(noCrash, cols);
      seq(|t.rows|, i requires 0 <= i < |t.rows| => Text(Label(Key(AfterRow(t, cols, i), cols), known)))
  }

  /** The frame with its two crash-label columns (lines 171-204). */
  function WithCrashLabels(t: Table, noCrash: Table): (r: Table)
    requires TextOutside(t) && IsCsv(noCrash)
  {
    Assigned(Assigned(t, Before, BeforeColumn(t, noCrash)), After, AfterColumn(t, noCrash))
  }

  /** The labelled frame keeps every cell but the two labels, and its labels are text. */
  lemma CrashLabelsKeep(t: Table, noCrash: Table)
    requires TextOutside(t) && IsCsv(noCrash)
    ensures var r := WithCrashLabels(t, noCrash);
      && TextOutside(r) && |r.rows| == |t.rows|
      && (forall c :: c in r.columns <==> c in t.columns || c == Before || c == After)
      && (forall i :: 0 <= i < |t.rows| ==> r.rows[i] == t.rows[i][Before := BeforeColumn(t, noCrash)[i]][After := AfterColumn(t, noCrash)[i]])
  {
  }

  /** Both labels are always `'True'` or `'False'`. */
  lemma LabelsAreBooleans(t: Table, noCrash: Table, i: nat)
    requires TextOutside(t) && IsCsv(noCrash) && i < |t.rows|
    ensures BeforeColumn(t, noCrash)[i] == Text("True") || BeforeColumn(t, noCrash)[i] == Text("False")
    ensures AfterColumn(t, noCrash)[i] == Text("True") || AfterColumn(t, noCrash)[i] == Text("False")
  {
  }

  /**
   * Lines 196-201: the after key's fields are the before key's except the
   * `action` field, which holds `iaction`; so when `action` is not a
   * shared column the two labels agree.
   */
  lemma AfterKeyFields(t: Table, noCrash: Table, i: nat)
    requires TextOutside(t) && IsCsv(noCrash) && i < |t.rows|
    ensures var cols := KeyColumns(t, noCrash);
      var before, after := Fields(t.rows[i], cols), Fields(AfterRow(t, cols, i), cols);
      && (forall k :: 0 <= k < |cols| && cols[k] != "action" ==> after[k] == before[k])
      && (forall k :: 0 <= k < |cols| && cols[k] == "action" && "iaction" in t.columns ==> after[k] == t.rows[i]["iaction"].s)
      && ("action" !in cols ==> after == before && AfterColumn(t, noCrash)[i] == BeforeColumn(t, noCrash)[i])
  {
  }

  /** The crash-potential step as it mutates the frame. */
  method CalculateCrashPotential(df: Frame, noCrash: Table)
    requires df.Valid() && TextOutside(df.Contents()) && IsCsv(noCrash)
    modifies df
    ensures df.Valid() && df.Contents() == WithCrashLabels(old(df.Contents()), noCrash)
  {
    var t := df.Contents();
    df.Assign(Before, BeforeColumn(t, noCrash));
    df.Assign(After, AfterColumn(t, noCrash));
  }

  // ---------------------------------------------------------------------
  // load_frequency_data and add_frequency_column (lines 210-266)
  // ---------------------------------------------------------------------

  /** The keys of a table's rows over `cols`. */
  function RowKeys(t: Table, cols: seq<string>): (r: seq<string>)
    requires TextIn(t.rows, cols)
    ensures |r| == |t.rows| && forall i :: 0 <= i < |t.rows| ==> r[i] == Key(t.rows[i], cols)
  {
    seq(|t.rows|, i requires 0 <= i < |t.rows| => Key(t.rows[i], cols))
  }

  /** The columns of the database's frequency key: `action` and the state columns it has. */
  function DbKeyColumns(db: Table): (r: seq<string>)
    ensures IsCsv(db) && "action" in db.columns ==> TextIn(db.rows, r)
  {
    ["action"] + Keep(StateColumns, db.columns)
  }

  /**
   * Lines 210-239: how many database rows have each `action` + state key
   * (`groupby(...).size()`), or `None` when the database is missing or
   * lacks `action` or every state column.
   */
  function FrequencyCounts(db: Option<Table>): (r: Option<multiset<string>>)
    requires db.Some? ==> IsCsv(db.value)
    ensures r.None? <==> db.None? || "action" !in db.value.columns || Keep(StateColumns, db.value.columns) == []
    ensures r.Some? ==> |r.value| == |db.value.rows|
  {
    if db.None? || "action" !in db.value.columns || Keep(StateColumns, db.value.columns) == [] then None
    else Some(multiset(RowKeys(db.value, DbKeyColumns(db.value))))
  }

  /** A multiset built from a sequence counts the positions holding each value. */
  lemma {:induction false} MultisetCount(s: seq<string>, x: string)
    ensures multiset(s)[x] == |set i | 0 <= i < |s| && s[i] == x|
    decreases |s|
  {
    if s != [] {
      var n := |s| - 1;
      MultisetCount(s[..n], x);
      assert s == s[..n] + [s[n]];
      var front := set i | 0 <= i < n && s[..n][i] == x;
      var all := set i | 0 <= i < |s| && s[i] == x;
      if s[n] == x {
        assert all == front + {n};
      } else {
        assert all == front;
      }
    }
  }

  /** Each count is the number of database rows with that key, and a key with no row counts 0. */
  lemma CountsAreRowCounts(db: Table, key: string)
    requires IsCsv(db) && FrequencyCounts(Some(db)).Some?
    ensures FrequencyCounts(Some(db)).value[key] ==
      |set i | 0 <= i < |db.rows| && Key(db.rows[i], DbKeyColumns(db)) == key|
    ensures (forall i :: 0 <= i < |db.rows| ==> Key(db.rows[i], DbKeyColumns(db)) != key) ==>
      FrequencyCounts(Some(db)).value[key] == 0
  {
    var keys := RowKeys(db, DbKeyColumns(db));
    assert FrequencyCounts(Some(db)).value == multiset(keys);
    MultisetCount(keys, key);
    var byRow := set i | 0 <= i < |db.rows| && Key(db.rows[i], DbKeyColumns(db)) == key;
    var byKey := set i | 0 <= i < |keys| && keys[i] == key;
    assert forall i :: i in byRow <==> i in byKey;
    assert byRow == byKey;
  }

  /** The columns of a fold row's frequency key: `iaction` and the state columns the fold has. */
  function FoldKeyColumns(t: Table): (r: seq<string>)
    ensures TextOutside(t) && "iaction" in t.columns ==> TextIn(t.rows, r)
  {
    KeyNamesAreText();
    ["iaction"] + Keep(StateColumns, t.columns)
  }

  /** Lines 243-252: the cases where every row's frequency is `'NA'`. */
  predicate FrequencyMissing(t: Table, counts: Option<multiset<string>>)
  {
    counts.None? || "iaction" !in t.columns || Keep(StateColumns, t.columns) == []
  }

  /** Line 255: the `freq_key` column. */
  function FoldKeys(t: Table): (r: seq<string>)
    requires TextOutside(t) && "iaction" in t.columns
    ensures |r| == |t.rows| && TextIn(t.rows, FoldKeyColumns(t))
    ensures forall i :: 0 <= i < |t.rows| ==> r[i] == Key(t.rows[i], FoldKeyColumns(t))
  {
    KeyNamesAreText();
    RowKeys(t, FoldKeyColumns(t))
  }

  function Texts(xs: seq<string>): (r: seq<Cell>)
    ensures |r| == |xs| && forall i :: 0 <= i < |xs| ==> r[i] == Text(xs[i])
  {
    seq(|xs|, i requires 0 <= i < |xs| => Text(xs[i]))
  }

  /** Lines 258-260: `str(frequency_dict.get(key, 0))` for every key. */
  function Frequencies(keys: seq<string>, counts: multiset<string>): (r: seq<Cell>)
    ensures |r| == |keys|
    ensures forall i :: 0 <= i < |keys| ==> r[i] == Text(NatToDecimal(counts[keys[i]]))
    ensures forall i :: 0 <= i < |keys| && keys[i] !in counts ==> r[i] == Text("0")
  {
    seq(|keys|, i requires 0 <= i < |keys| => Text(NatToDecimal(counts[keys[i]])))
  }

  /** The frame after `add_frequency_column` (lines 241-266). */
  function WithFrequency(t: Table, counts: Option<multiset<string>>): (r: Table)
    requires TextOutside(t)
    ensures TextOutside(r) && |r.rows| == |t.rows| && "frequency" in r.columns
    ensures forall c :: c != "freq_key" ==> (c in r.columns <==> c == "frequency" || c in t.columns)
  {
    if FrequencyMissing(t, counts) then
      AssignedTextOutside(t, "frequency", Constant(Text("NA"), |t.rows|));
      Assigned(t, "frequency", Constant(Text("NA"), |t.rows|))
    else
      var keys := FoldKeys(t);
      var keyed := Assigned(t, "freq_key", Texts(keys));
      AssignedTextOutside(t, "freq_key", Texts(keys));
      var counted := Assigned(keyed, "frequency", Frequencies(keys, counts.value));
      AssignedTextOutside(keyed, "frequency", Frequencies(keys, counts.value));
      DroppedTextOutside(counted, "freq_key");
      Dropped(counted, "freq_key")
  }

  /**
   * A row's frequency is `'NA'` in the missing cases, and otherwise the
   * count of its `iaction` + state key, `"0"` when the key was never
   * counted.
   */
  lemma FrequencyValue(t: Table, counts: Option<multiset<string>>, i: nat)
    requires TextOutside(t) && i < |t.rows|
    ensures var row := WithFrequency(t, counts).rows[i];
      && (FrequencyMissing(t, counts) ==> row["frequency"] == Text("NA"))
      && (!FrequencyMissing(t, counts) ==> row["frequency"] == Text(NatToDecimal(counts.value[FoldKeys(t)[i]])))
      && (!FrequencyMissing(t, counts) && FoldKeys(t)[i] !in counts.value ==> row["frequency"] == Text("0"))
  {
  }

  /** Every cell but `frequency` and the temporary `freq_key` is kept. */
  lemma FrequencyKeeps(t: Table, counts: Option<multiset<string>>, i: nat)
    requires TextOutside(t) && i < |t.rows|
    ensures var row := WithFrequency(t, counts).rows[i];
      forall c :: c != "frequency" && c != "freq_key" ==> (c in row <==> c in t.rows[i]) && (c in row ==> row[c] == t.rows[i][c])
  {
    var row := WithFrequency(t, counts).rows[i];
    if FrequencyMissing(t, counts) {
      assert row == t.rows[i]["frequency" := Text("NA")];
    } else {
      var keys := FoldKeys(t);
      var freq := Frequencies(keys, counts.value);
      var keyed := t.rows[i]["freq_key" := Text(keys[i])]["frequency" := freq[i]];
      assert row == keyed - {"freq_key"};
      forall c | c != "frequency" && c != "freq_key"
        ensures (c in row <==> c in t.rows[i]) && (c in row ==> row[c] == t.rows[i][c])
      {
        assert c in row <==> c in keyed;
      }
    }
  }

  /** `add_frequency_column` as it mutates the frame. */
  method AddFrequencyColumn(df: Frame, counts: Option<multiset<string>>)
    requires df.Valid() && TextOutside(df.Contents())
    modifies df
    ensures df.Valid() && df.Contents() == WithFrequency(old(df.Contents()), counts)
  {
    var t := df.Contents();
    if FrequencyMissing(t, counts) {
      df.Assign("frequency", Constant(Text("NA"), |t.rows|));
      return;
    }
    var keys := FoldKeys(t);
    df.Assign("freq_key", Texts(keys));
    df.Assign("frequency", Frequencies(keys, counts.value));
    df.Drop("freq_key");
  }
  /** The database and the fold can be compared: both have their action column and the same state columns. */
  predicate Comparable(db: Table, t: Table)
  {
    IsCsv(db) && TextOutside(t) && "action" in db.columns && "iaction" in t.columns &&
    Keep(StateColumns, t.columns) == Keep(StateColumns, db.columns) != []
  }

  /** No state field of a database key, nor of fold row `i`'s key, contains `_`. */
  predicate PlainStates(db: Table, t: Table, i: nat)
    requires Comparable(db, t) && i < |t.rows|
  {
    (forall j, k :: 0 <= j < |db.rows| && 1 <= k < |DbKeyColumns(db)| ==> '_' !in Fields(db.rows[j], DbKeyColumns(db))[k]) &&
    (forall k :: 1 <= k < |FoldKeyColumns(t)| ==> '_' !in Fields(t.rows[i], FoldKeyColumns(t))[k])
  }

  /** The database rows of fold row `i`'s case: its `iaction` as their `action`, and its state. */
  function MatchingRows(db: Table, t: Table, i: nat): set<int>
    requires Comparable(db, t) && i < |t.rows|
  {
    set j | 0 <= j < |db.rows| && Fields(db.rows[j], DbKeyColumns(db)) == Fields(t.rows[i], FoldKeyColumns(t))
  }

  /** Keys of the database and of a fold row agree exactly when their fields do. */
  lemma KeysMatchIffFields(db: Table, t: Table, i: nat, j: nat)
    requires Comparable(db, t) && i < |t.rows| && j < |db.rows| && PlainStates(db, t, i)
    ensures Key(db.rows[j], DbKeyColumns(db)) == Key(t.rows[i], FoldKeyColumns(t)) <==>
      Fields(db.rows[j], DbKeyColumns(db)) == Fields(t.rows[i], FoldKeyColumns(t))
  {
    var theirs, mine := Fields(db.rows[j], DbKeyColumns(db)), Fields(t.rows[i], FoldKeyColumns(t));
    if JoinWith(theirs, "_") == JoinWith(mine, "_") {
      JoinInjective(theirs, mine);
    }
  }

  /** The rows of fold row `i`'s case are the rows whose key is the row's frequency key. */
  lemma MatchingRowsByKey(db: Table, t: Table, i: nat)
    requires Comparable(db, t) && i < |t.rows| && PlainStates(db, t, i)
    ensures MatchingRows(db, t, i) ==
      set j | 0 <= j < |db.rows| && Key(db.rows[j], DbKeyColumns(db)) == Key(t.rows[i], FoldKeyColumns(t))
  {
    forall j | 0 <= j < |db.rows| {
      KeysMatchIffFields(db, t, i, j);
    }
  }

  /**
   * Frequency end to end: with the same state columns on both sides and
   * state values free of `_`, a row's frequency is the number of database
   * rows whose `action` is the row's `iaction` and whose state is the
   * row's state.
   */
  lemma FrequencyCountsMatchingRows(db: Table, t: Table, i: nat)
    requires Comparable(db, t) && i < |t.rows| && PlainStates(db, t, i)
    ensures WithFrequency(t, FrequencyCounts(Some(db))).rows[i]["frequency"] == Text(NatToDecimal(|MatchingRows(db, t, i)|))
  {
    FrequencyValue(t, FrequencyCounts(Some(db)), i);
    CountsAreRowCounts(db, FoldKeys(t)[i]);
    MatchingRowsByKey(db, t, i);
  }

  // ---------------------------------------------------------------------
  // process_nb_fold (lines 93-169)
  // ---------------------------------------------------------------------

  function Reals(xs: seq<real>): (r: seq<Cell>)
    ensures |r| == |xs| && forall i :: 0 <= i < |xs| ==> r[i] == Real(xs[i])
  {
    seq(|xs|, i requires 0 <= i < |xs| => Real(xs[i]))
  }

  function Ints(xs: seq<nat>): (r: seq<Cell>)
    ensures |r| == |xs| && forall i :: 0 <= i < |xs| ==> r[i] == Int(xs[i])
  {
    seq(|xs|, i requires 0 <= i < |xs| => Int(xs[i]))
  }

  /** Lines 105-107: the test data without `orig_label_lc`. */
  function Stripped(t: Table): (r: Table)
    requires IsCsv(t)
    ensures IsCsv(r) && "orig_label_lc" !in r.columns && |r.rows| == |t.rows|
  {
    if "orig_label_lc" in t.columns then Dropped(t, "orig_label_lc") else t
  }

  /** Lines 120-140: the probability, group id, elapsed time and dense ranking columns. */
  function Scored(t: Table, probs: seq<real>, num: nat): (r: Table)
    requires TextOutside(t) && |probs| == |t.rows|
    ensures TextOutside(r) && |r.rows| == |t.rows|
    ensures forall c :: c in r.columns <==> c in t.columns || c in Numeric
    ensures forall i :: 0 <= i < |t.rows| ==>
      r.rows[i] == t.rows[i]["probability" := Real(probs[i])]["group_id" := Int(num)]["elapsed_time" := Real(0.0)]["ranking" := Int(Ranks(probs)[i])]
  {
    var n := |t.rows|;
    Assigned(Assigned(Assigned(Assigned(t, "probability", Reals(probs)), "group_id", Constant(Int(num), n)),
      "elapsed_time", Constant(Real(0.0), n)), "ranking", Ints(Ranks(probs)))
  }

  /** Line 161's mask `results['ranking'] == 1`. */
  function RankOne(t: Table): (m: seq<bool>)
    ensures |m| == |t.rows|
    ensures forall i :: 0 <= i < |t.rows| ==> m[i] == ("ranking" in t.rows[i] && t.rows[i]["ranking"] == Int(1))
  {
    seq(|t.rows|, i requires 0 <= i < |t.rows| => "ranking" in t.rows[i] && t.rows[i]["ranking"] == Int(1))
  }

  /** Line 155: the frame without `action`. */
  function WithoutAction(t: Table): (r: Table)
    requires t.WellFormed()
    ensures r.WellFormed() && |r.rows| == |t.rows|
    ensures forall c :: c in r.columns <==> c in t.columns && c != "action"
    ensures forall i :: 0 <= i < |t.rows| ==> r.rows[i] == t.rows[i] - {"action"}
  {
    if "action" in t.columns then Dropped(t, "action")
    else
      assert forall i :: 0 <= i < |t.rows| ==> t.rows[i] - {"action"} == t.rows[i];
      t
  }

  /** Lines 158-161: `best_intervention` is `''`, and `'*'` where the ranking is 1. */
  function WithBest(t: Table): (r: Table)
    requires t.WellFormed()
    ensures r.WellFormed() && |r.rows| == |t.rows|
    ensures forall c :: c in r.columns <==> c in t.columns || c == "best_intervention"
    ensures forall i :: 0 <= i < |t.rows| ==>
      r.rows[i] == t.rows[i]["best_intervention" := Text(if "ranking" in t.rows[i] && t.rows[i]["ranking"] == Int(1) then "*" else "")]
  {
    var blank := Assigned(t, "best_intervention", Constant(Text(""), |t.rows|));
    AssignedWhere(blank, "best_intervention", RankOne(blank), Text("*"))
  }

  /** Lines 154-161. */
  function Marked(t: Table): (r: Table)
    requires t.WellFormed()
  {
    WithBest(WithoutAction(t))
  }

  /** A fold's inputs: its test file, if it exists, and its model, if it loads. */
  datatype Fold = Fold(test: Option<Table>, model: Option<Model>)

  predicate FoldInputs(f: Fold)
  {
    f.test.Some? ==> IsCsv(f.test.value)
  }

  /** `process_nb_fold`: the fold's results frame, or `None` (lines 93-169). */
  function FoldResult(f: Fold, num: nat, noCrash: Table, counts: Option<multiset<string>>): (r: Option<Table>)
    requires FoldInputs(f) && IsCsv(noCrash)
    ensures r.Some? <==> f.test.Some? && f.model.Some? && Probabilities(f.model.value, Stripped(f.test.value)).Some?
  {
    if f.test.None? || f.model.None? then None
    else
      var t := Stripped(f.test.value);
      CsvTextOutside(t);
      match Probabilities(f.model.value, t)
      case None => None
      case Some(probs) => Some(Marked(WithCrashLabels(WithFrequency(Scored(t, probs, num), counts), noCrash)))
  }

  /** The labelled frame of a fold, before `action` is dropped and the best rows are marked. */
  function Labelled(t: Table, probs: seq<real>, num: nat, noCrash: Table, counts: Option<multiset<string>>): (r: Table)
    requires IsCsv(t) && IsCsv(noCrash) && |probs| == |t.rows|
    ensures r.WellFormed() && |r.rows| == |t.rows|
  {
    CsvTextOutside(t);
    WithCrashLabels(WithFrequency(Scored(t, probs, num), counts), noCrash)
  }

  /** A cell other than the frequency column and its key survives `add_frequency_column`. */
  lemma FrequencyKeepsCell(t: Table, counts: Option<multiset<string>>, i: nat, c: string)
    requires TextOutside(t) && i < |t.rows| && c in t.rows[i] && c != "frequency" && c != "freq_key"
    ensures c in WithFrequency(t, counts).rows[i] && WithFrequency(t, counts).rows[i][c] == t.rows[i][c]
  {
    FrequencyKeeps(t, counts, i);
  }

  /** A cell other than the two labels survives `calculate_crash_potential`. */
  lemma CrashLabelsKeepCell(t: Table, noCrash: Table, i: nat, c: string)
    requires TextOutside(t) && IsCsv(noCrash) && i < |t.rows| && c in t.rows[i] && c != Before && c != After
    ensures c in WithCrashLabels(t, noCrash).rows[i] && WithCrashLabels(t, noCrash).rows[i][c] == t.rows[i][c]
  {
    CrashLabelsKeep(t, noCrash);
  }

  /** The labelled frame keeps the four numbers the fold was scored with. */
  lemma LabelledNumbers(t: Table, probs: seq<real>, num: nat, noCrash: Table, counts: Option<multiset<string>>, i: nat)
    requires IsCsv(t) && IsCsv(noCrash) && |probs| == |t.rows| && i < |t.rows|
    ensures var row := Labelled(t, probs, num, noCrash, counts).rows[i];
      && "probability" in row && row["probability"] == Real(probs[i])
      && "group_id" in row && row["group_id"] == Int(num)
      && "elapsed_time" in row && row["elapsed_time"] == Real(0.0)
      && "ranking" in row && row["ranking"] == Int(Ranks(probs)[i])
  {
    CsvTextOutside(t);
    var scored := Scored(t, probs, num);
    var counted := WithFrequency(scored, counts);
    var row := scored.rows[i];
    assert row["probability"] == Real(probs[i]) && row["group_id"] == Int(num);
    assert row["elapsed_time"] == Real(0.0) && row["ranking"] == Int(Ranks(probs)[i]);
    FrequencyKeepsCell(scored, counts, i, "probability");
    FrequencyKeepsCell(scored, counts, i, "group_id");
    FrequencyKeepsCell(scored, counts, i, "elapsed_time");
    FrequencyKeepsCell(scored, counts, i, "ranking");
    CrashLabelsKeepCell(counted, noCrash, i, "probability");
    CrashLabelsKeepCell(counted, noCrash, i, "group_id");
    CrashLabelsKeepCell(counted, noCrash, i, "elapsed_time");
    CrashLabelsKeepCell(counted, noCrash, i, "ranking");
  }

  /** The two label cells of a row are the row's entries of the label columns. */
  lemma CrashLabelCells(t: Table, noCrash: Table, i: nat)
    requires TextOutside(t) && IsCsv(noCrash) && i < |t.rows|
    ensures var row := WithCrashLabels(t, noCrash).rows[i];
      && Before in row && row[Before] == BeforeColumn(t, noCrash)[i]
      && After in row && row[After] == AfterColumn(t, noCrash)[i]
  {
    CrashLabelsKeep(t, noCrash);
  }

  /** The labelled frame's crash labels are `'True'` or `'False'`. */
  lemma LabelledLabels(t: Table, probs: seq<real>, num: nat, noCrash: Table, counts: Option<multiset<string>>, i: nat)
    requires IsCsv(t) && IsCsv(noCrash) && |probs| == |t.rows| && i < |t.rows|
    ensures var row := Labelled(t, probs, num, noCrash, counts).rows[i];
      && Before in row && (row[Before] == Text("True") || row[Before] == Text("False"))
      && After in row && (row[After] == Text("True") || row[After] == Text("False"))
  {
    CsvTextOutside(t);
    var counted := WithFrequency(Scored(t, probs, num), counts);
    CrashLabelCells(counted, noCrash, i);
    LabelsAreBooleans(counted, noCrash, i);
  }

  /** `orig_label_lc`, dropped before scoring, does not come back. */
  lemma LabelledColumns(t: Table, probs: seq<real>, num: nat, noCrash: Table, counts: Option<multiset<string>>)
    requires IsCsv(t) && IsCsv(noCrash) && |probs| == |t.rows|
    requires "orig_label_lc" !in t.columns
    ensures "orig_label_lc" !in Labelled(t, probs, num, noCrash, counts).columns
  {
    CsvTextOutside(t);
    var scored := Scored(t, probs, num);
    var counted := WithFrequency(scored, counts);
    ScoredAddsNumeric(t, probs, num, "orig_label_lc");
    FrequencyAddsFrequency(scored, counts, "orig_label_lc");
    CrashLabelsAddLabels(counted, noCrash, "orig_label_lc");
  }

  /** Scoring adds only the four numeric columns. */
  lemma ScoredAddsNumeric(t: Table, probs: seq<real>, num: nat, c: string)
    requires TextOutside(t) && |probs| == |t.rows| && c !in t.columns && c !in Numeric
    ensures c !in Scored(t, probs, num).columns
  {
  }

  /** `add_frequency_column` adds only `frequency` (and its temporary key). */
  lemma FrequencyAddsFrequency(t: Table, counts: Option<multiset<string>>, c: string)
    requires TextOutside(t) && c !in t.columns && c != "frequency" && c != "freq_key"
    ensures c !in WithFrequency(t, counts).columns
  {
  }

  /** Labelling adds only the two crash-label columns. */
  lemma CrashLabelsAddLabels(t: Table, noCrash: Table, c: string)
    requires TextOutside(t) && IsCsv(noCrash) && c !in t.columns && c != Before && c != After
    ensures c !in WithCrashLabels(t, noCrash).columns
  {
    CrashLabelsKeep(t, noCrash);
  }

  /** Marking keeps every cell but `action` and `best_intervention`. */
  lemma MarkedKeepsCell(t: Table, i: nat, c: string)
    requires t.WellFormed() && i < |t.rows| && c in t.rows[i] && c != "action" && c != "best_intervention"
    ensures c in Marked(t).rows[i] && Marked(t).rows[i][c] == t.rows[i][c]
  {
  }

  /** A row ranked `k` is marked with `Marker(k)`. */
  lemma MarkedBest(t: Table, i: nat, k: nat)
    requires t.WellFormed() && i < |t.rows| && "ranking" in t.rows[i] && t.rows[i]["ranking"] == Int(k)
    ensures "best_intervention" in Marked(t).rows[i]
    ensures Marked(t).rows[i]["best_intervention"] == Text(Marker(k))
  {
    assert "ranking" != "action";
  }

  /** A processed fold is its labelled frame, marked. */
  lemma FoldIsMarkedLabelled(f: Fold, num: nat, noCrash: Table, counts: Option<multiset<string>>)
    requires FoldInputs(f) && IsCsv(noCrash) && FoldResult(f, num, noCrash, counts).Some?
    ensures var t := Stripped(f.test.value);
      && Probabilities(f.model.value, t).Some?
      && |Probabilities(f.model.value, t).value| == |t.rows| == |f.test.value.rows|
      && |FoldResult(f, num, noCrash, counts).value.rows| == |t.rows|
      && FoldResult(f, num, noCrash, counts).value
         == Marked(Labelled(t, Probabilities(f.model.value, t).value, num, noCrash, counts))
  {
  }

  /**
   * Lines 105-161, row by row: every row of a processed fold carries its
   * probability, the fold number as `group_id`, elapsed time 0.0, its
   * dense rank, and `'*'` as `best_intervention` exactly when that rank
   * is 1.
   */
  lemma FoldRowNumbers(f: Fold, num: nat, noCrash: Table, counts: Option<multiset<string>>, i: nat)
    requires FoldInputs(f) && IsCsv(noCrash) && FoldResult(f, num, noCrash, counts).Some?
    requires i < |f.test.value.rows|
    ensures var probs := Probabilities(f.model.value, Stripped(f.test.value)).value;
      var row := FoldResult(f, num, noCrash, counts).value.rows[i];
      && |probs| == |f.test.value.rows|
      && "probability" in row && row["probability"] == Real(probs[i])
      && "group_id" in row && row["group_id"] == Int(num)
      && "elapsed_time" in row && row["elapsed_time"] == Real(0.0)
      && "ranking" in row && row["ranking"] == Int(Ranks(probs)[i])
      && "best_intervention" in row && row["best_intervention"] == Text(Marker(Ranks(probs)[i]))
  {
    FoldIsMarkedLabelled(f, num, noCrash, counts);
    var t := Stripped(f.test.value);
    var probs := Probabilities(f.model.value, t).value;
    var l := Labelled(t, probs, num, noCrash, counts);
    LabelledNumbers(t, probs, num, noCrash, counts, i);
    MarkedKeepsCell(l, i, "probability");
    MarkedKeepsCell(l, i, "group_id");
    MarkedKeepsCell(l, i, "elapsed_time");
    MarkedKeepsCell(l, i, "ranking");
    MarkedBest(l, i, Ranks(probs)[i]);
  }

  /**
   * Lines 105-201, row by row: every row of a processed fold carries
   * `'True'`/`'False'` crash labels, and `orig_label_lc` and `action` are
   * gone from the frame.
   */
  lemma FoldRowLabels(f: Fold, num: nat, noCrash: Table, counts: Option<multiset<string>>, i: nat)
    requires FoldInputs(f) && IsCsv(noCrash) && FoldResult(f, num, noCrash, counts).Some?
    requires i < |f.test.value.rows|
    ensures var r := FoldResult(f, num, noCrash, counts).value;
      && "orig_label_lc" !in r.columns && "action" !in r.columns
      && Before in r.rows[i] && (r.rows[i][Before] == Text("True") || r.rows[i][Before] == Text("False"))
      && After in r.rows[i] && (r.rows[i][After] == Text("True") || r.rows[i][After] == Text("False"))
  {
    FoldIsMarkedLabelled(f, num, noCrash, counts);
    var t := Stripped(f.test.value);
    var probs := Probabilities(f.model.value, t).value;
    var l := Labelled(t, probs, num, noCrash, counts);
    LabelledLabels(t, probs, num, noCrash, counts, i);
    LabelledColumns(t, probs, num, noCrash, counts);
    MarkedKeepsCell(l, i, Before);
    MarkedKeepsCell(l, i, After);
  }

  /** Every row's `best_intervention` is the marker of its dense rank among `probs`. */
  predicate MarkedByRank(r: Table, probs: seq<real>)
  {
    && |r.rows| == |probs|
    && forall i :: 0 <= i < |r.rows| ==>
         "best_intervention" in r.rows[i] && r.rows[i]["best_intervention"] == Text(Marker(Ranks(probs)[i]))
  }

  /**
   * Some row is marked `'*'`, and the marked rows are exactly those
   * holding the largest of `probs`.
   */
  predicate MarksMaximum(r: Table, probs: seq<real>)
    requires |r.rows| == |probs| && forall i :: 0 <= i < |r.rows| ==> "best_intervention" in r.rows[i]
  {
    && (exists i :: 0 <= i < |r.rows| && r.rows[i]["best_intervention"] == Text("*"))
    && forall i :: 0 <= i < |r.rows| ==>
         (r.rows[i]["best_intervention"] == Text("*") <==> forall j :: 0 <= j < |probs| ==> probs[j] <= probs[i])
  }

  /** In a frame marked by rank, `'*'` sits exactly on the rows of largest probability. */
  lemma MarkedByRankHoldsMaximum(r: Table, probs: seq<real>)
    requires MarkedByRank(r, probs) && probs != []
    ensures MarksMaximum(r, probs)
  {
    MarkedRowsHoldMaximum(probs);
    var m :| 0 <= m < |probs| && Markers(Ranks(probs))[m] == "*";
    assert r.rows[m]["best_intervention"] == Text("*");
  }

  /**
   * Lines 158-161 with line 140: a non-empty fold marks at least one row,
   * and the marked rows are exactly those holding the fold's largest
   * probability.
   */
  lemma FoldMarksMaximum(f: Fold, num: nat, noCrash: Table, counts: Option<multiset<string>>)
    requires FoldInputs(f) && IsCsv(noCrash) && FoldResult(f, num, noCrash, counts).Some?
    requires f.test.value.rows != []
    ensures MarkedByRank(FoldResult(f, num, noCrash, counts).value, Probabilities(f.model.value, Stripped(f.test.value)).value)
    ensures MarksMaximum(FoldResult(f, num, noCrash, counts).value, Probabilities(f.model.value, Stripped(f.test.value)).value)
  {
    var probs := Probabilities(f.model.value, Stripped(f.test.value)).value;
    var r := FoldResult(f, num, noCrash, counts).value;
    FoldMarkedByRank(f, num, noCrash, counts);
    MarkedByRankHoldsMaximum(r, probs);
  }

  /** A processed fold is marked by the ranks of its probabilities. */
  lemma FoldMarkedByRank(f: Fold, num: nat, noCrash: Table, counts: Option<multiset<string>>)
    requires FoldInputs(f) && IsCsv(noCrash) && FoldResult(f, num, noCrash, counts).Some?
    ensures MarkedByRank(FoldResult(f, num, noCrash, counts).value, Probabilities(f.model.value, Stripped(f.test.value)).value)
  {
    FoldIsMarkedLabelled(f, num, noCrash, counts);
    var r := FoldResult(f, num, noCrash, counts).value;
    forall i | 0 <= i < |r.rows|
      ensures "best_intervention" in r.rows[i]
      ensures r.rows[i]["best_intervention"] == Text(Marker(Ranks(Probabilities(f.model.value, Stripped(f.test.value)).value)[i]))
    {
      FoldRowNumbers(f, num, noCrash, counts, i);
    }
  }

  /** Lines 120-140 as they mutate the results frame. */
  method Score(results: Frame, probs: seq<real>, num: nat)
    requires results.Valid() && TextOutside(results.Contents()) && |probs| == |results.rows|
    modifies results
    ensures results.Valid() && results.Contents() == Scored(old(results.Contents()), probs, num)
  {
    var n := |results.rows|;
    results.Assign("probability", Reals(probs));
    results.Assign("group_id", Constant(Int(num), n));
    results.Assign("elapsed_time", Constant(Real(0.0), n));
    results.Assign("ranking", Ints(Ranks(probs)));
  }

  /** Lines 154-161 as they mutate the results frame. */
  method Mark(results: Frame)
    requires results.Valid()
    modifies results
    ensures results.Valid() && results.Contents() == Marked(old(results.Contents()))
  {
    if "action" in results.columns {
      results.Drop("action");
    }
    assert results.Contents() == WithoutAction(old(results.Contents()));
    results.Assign("best_intervention", Constant(Text(""), |results.rows|));
    results.AssignWhere("best_intervention", RankOne(results.Contents()), Text("*"));
  }

  /** `process_nb_fold` as the script runs it, mutating one results frame. */
  method ProcessFold(f: Fold, num: nat, noCrash: Table, counts: Option<multiset<string>>) returns (r: Option<Table>)
    requires FoldInputs(f) && IsCsv(noCrash)
    ensures r == FoldResult(f, num, noCrash, counts)
  {
    if f.test.None? {
      return None;
    }
    var test := f.test.value;
    if "orig_label_lc" in test.columns {
      test := Dropped(test, "orig_label_lc");
    }
    assert test == Stripped(f.test.value);
    if f.model.None? {
      return None;
    }
    var probs := ComputeProbabilities(f.model.value, test);
    if probs.None? {
      return None;
    }
    CsvTextOutside(test);
    var results := new Frame(test);
    Score(results, probs.value, num);
    AddFrequencyColumn(results, counts);
    CalculateCrashPotential(results, noCrash);
    Mark(results);
    return Some(results.Contents());
  }
}
