/**
 * The small part of pandas the Naive-Bayes evaluator relies on: a frame
 * with named columns whose rows map column names to cells, column
 * assignment (`df[name] = values`), masked assignment
 * (`df.loc[mask, name] = value`), `drop`, and the `_`-joined row keys of
 * `make_key_from_df`.
 *
 * Frames read from a CSV with `dtype=str` hold text in every cell; the
 * evaluator adds numeric columns (probability, group id, elapsed time,
 * ranking) next to them.
 */
module Frames {
  import opened PyText

  /** One cell: a text read from a CSV or written by the script, or a computed number. */
  datatype Cell = Text(s: string) | Real(r: real) | Int(i: int)

  type Row = map<string, Cell>

  /** A frame's contents: its column names in order and its rows. */
  datatype Table = Table(columns: seq<string>, rows: seq<Row>)
  {
    /** Every row has a cell for every column and for nothing else. */
    predicate WellFormed()
    {
      && (forall i, c :: 0 <= i < |rows| && c in columns ==> c in rows[i])
      && (forall i, c :: 0 <= i < |rows| && c in rows[i] ==> c in columns)
    }
  }

  /** Every row holds text in each of `cols`. */
  predicate TextIn(rows: seq<Row>, cols: seq<string>)
  {
    forall i, c :: 0 <= i < |rows| && c in cols ==> c in rows[i] && rows[i][c].Text?
  }

  /** `[c for c in xs if c in keep]`: the members of `xs` that are in `keep`. */
  function Keep(xs: seq<string>, keep: seq<string>): (r: seq<string>)
    ensures forall c :: c in r <==> c in xs && c in keep
    ensures |r| <= |xs|
  {
    if xs == [] then []
    else (if xs[0] in keep then [xs[0]] else []) + Keep(xs[1..], keep)
  }

  /** `[c for c in xs if c not in leave]`. */
  function Leave(xs: seq<string>, leave: seq<string>): (r: seq<string>)
    ensures forall c :: c in r <==> c in xs && c !in leave
    ensures |r| <= |xs|
  {
    if xs == [] then []
    else (if xs[0] in leave then [] else [xs[0]]) + Leave(xs[1..], leave)
  }

  /** A column of one repeated cell: `df[name] = value`. */
  function Constant(v: Cell, n: nat): (r: seq<Cell>)
    ensures |r| == n && forall i :: 0 <= i < n ==> r[i] == v
  {
    seq(n, _ => v)
  }

  /** `df[name] = values`: a new column goes last, an existing one is overwritten in place. */
  function Assigned(t: Table, name: string, values: seq<Cell>): (r: Table)
    requires |values| == |t.rows|
    ensures name in r.columns && |r.rows| == |t.rows|
    ensures forall c :: c in r.columns <==> c in t.columns || c == name
    ensures forall i :: 0 <= i < |t.rows| ==> r.rows[i] == t.rows[i][name := values[i]]
    ensures t.WellFormed() ==> r.WellFormed()
  {
    Table(if name in t.columns then t.columns else t.columns + [name],
      seq(|t.rows|, i requires 0 <= i < |t.rows| => t.rows[i][name := values[i]]))
  }

  /** `df.drop(name, axis=1)` (ignoring a column that is not there). */
  function Dropped(t: Table, name: string): (r: Table)
    ensures name !in r.columns && |r.rows| == |t.rows|
    ensures forall c :: c in r.columns <==> c in t.columns && c != name
    ensures forall i :: 0 <= i < |t.rows| ==> r.rows[i] == t.rows[i] - {name}
    ensures t.WellFormed() ==> r.WellFormed()
  {
    Table(Leave(t.columns, [name]), seq(|t.rows|, i requires 0 <= i < |t.rows| => t.rows[i] - {name}))
  }

  /** `df.loc[mask, name] = v`: the masked rows of an existing column get `v`. */
  function AssignedWhere(t: Table, name: string, mask: seq<bool>, v: Cell): (r: Table)
    requires |mask| == |t.rows|
    ensures r.columns == t.columns && |r.rows| == |t.rows|
    ensures forall i :: 0 <= i < |t.rows| ==> r.rows[i] == if mask[i] then t.rows[i][name := v] else t.rows[i]
    ensures t.WellFormed() && name in t.columns ==> r.WellFormed()
  {
    Table(t.columns, seq(|t.rows|, i requires 0 <= i < |t.rows| => if mask[i] then t.rows[i][name := v] else t.rows[i]))
  }

  /** The texts of `cols` in one row. */
  function Fields(row: Row, cols: seq<string>): (r: seq<string>)
    requires forall c :: c in cols ==> c in row && row[c].Text?
    ensures |r| == |cols| && forall k :: 0 <= k < |cols| ==> r[k] == row[cols[k]].s
  {
    seq(|cols|, k requires 0 <= k < |cols| => row[cols[k]].s)
  }

  /** `make_key_from_df`: the row's texts in `cols`, joined with `_`. */
  function Key(row: Row, cols: seq<string>): string
    requires forall c :: c in cols ==> c in row && row[c].Text?
  {
    JoinWith(Fields(row, cols), "_")
  }

  /** `sep.join` of two or more parts ends with the separator and the last part. */
  lemma {:induction false} JoinWithLast(parts: seq<string>, sep: string)
    requires |parts| >= 2
    ensures JoinWith(parts, sep) == JoinWith(parts[..|parts| - 1], sep) + sep + parts[|parts| - 1]
    decreases |parts|
  {
    if |parts| > 2 {
      var rest := parts[1..];
      JoinWithLast(rest, sep);
      assert rest[..|rest| - 1] == parts[1..|parts| - 1];
      assert parts[..|parts| - 1][1..] == parts[1..|parts| - 1];
    } else {
      assert parts[..1] == [parts[0]];
    }
  }

  /** The text after the last `c` of `s` (all of `s` when it has none). */
  function AfterLast(s: string, c: char): (r: string)
    ensures c !in r
    decreases |s|
  {
    if s == [] || s[|s| - 1] == c then [] else AfterLast(s[..|s| - 1], c) + [s[|s| - 1]]
  }

  /** A field without the separator is exactly what follows the last separator. */
  lemma {:induction false} AfterLastField(p: string, c: char, x: string)
    requires c !in x
    ensures AfterLast(p + [c] + x, c) == x
    decreases |x|
  {
    if x != [] {
      var n := |x| - 1;
      assert (p + [c] + x)[..|p + [c] + x| - 1] == p + [c] + x[..n];
      AfterLastField(p, c, x[..n]);
      assert x == x[..n] + [x[n]];
    }
  }

  /**
   * `_`-joined keys with the same number of fields are equal only when the
   * fields are, provided every field but the first is free of `_` (the
   * first, an action name such as `change_to_left`, may contain it).
   */
  lemma {:induction false} JoinInjective(a: seq<string>, b: seq<string>)
    requires |a| == |b| >= 1
    requires forall k :: 1 <= k < |a| ==> '_' !in a[k] && '_' !in b[k]
    requires JoinWith(a, "_") == JoinWith(b, "_")
    ensures a == b
    decreases |a|
  {
    var n := |a|;
    if n >= 2 {
      JoinWithLast(a, "_");
      JoinWithLast(b, "_");
      var x, y := a[n - 1], b[n - 1];
      var s := JoinWith(a, "_");
      var pa, pb := JoinWith(a[..n - 1], "_"), JoinWith(b[..n - 1], "_");
      assert s == pa + "_" + x && s == pb + "_" + y;
      AfterLastField(pa, '_', x);
      AfterLastField(pb, '_', y);
      assert x == y;
      assert pa == s[..|s| - |x| - 1] == pb;
      JoinInjective(a[..n - 1], b[..n - 1]);
      assert a == a[..n - 1] + [x];
      assert b == b[..n - 1] + [y];
    }
  }

  /** The pandas frame the script mutates: `df[name] = ...`, `df.loc[...] = ...`, `df.drop(...)`. */
  class Frame {
    var columns: seq<string>
    var rows: seq<Row>

    ghost predicate Valid()
      reads this
    {
      Table(columns, rows).WellFormed()
    }

    /** The frame's current contents. */
    function Contents(): Table
      reads this
    {
      Table(columns, rows)
    }

    /** `results = test_data.copy()`. */
    constructor (t: Table)
      requires t.WellFormed()
      ensures Valid() && Contents() == t
    {
      columns := t.columns;
      rows := t.rows;
    }

    /** `df[name] = values`. */
    method Assign(name: string, values: seq<Cell>)
      requires Valid() && |values| == |rows|
      modifies this
      ensures Valid() && Contents() == Assigned(old(Contents()), name, values)
    {
      var old_rows := rows;
      if name !in columns {
        columns := columns + [name];
      }
      rows := seq(|old_rows|, i requires 0 <= i < |old_rows| => old_rows[i][name := values[i]]);
    }

    /** `df.loc[mask, name] = v` on an existing column. */
    method AssignWhere(name: string, mask: seq<bool>, v: Cell)
      requires Valid() && |mask| == |rows| && name in columns
      modifies this
      ensures Valid() && Contents() == AssignedWhere(old(Contents()), name, mask, v)
    {
      var i := 0;
      while i < |rows|
        invariant 0 <= i <= |rows| == |mask| && columns == old(columns)
        invariant |rows| == |old(rows)|
        invariant forall k :: 0 <= k < i ==> rows[k] == if mask[k] then old(rows)[k][name := v] else old(rows)[k]
        invariant forall k :: i <= k < |rows| ==> rows[k] == old(rows)[k]
      {
        if mask[i] {
          rows := rows[i := rows[i][name := v]];
        }
        i := i + 1;
      }
    }

    /** `df.drop(name, axis=1)`. */
    method Drop(name: string)
      requires Valid()
      modifies this
      ensures Valid() && Contents() == Dropped(old(Contents()), name)
    {
      var old_rows := rows;
      columns := Leave(columns, [name]);
      rows := seq(|old_rows|, i requires 0 <= i < |old_rows| => old_rows[i] - {name});
    }
  }
}
