/**
 * The trial-log segmentation of extract_all_sequences.py: the rows of a
 * driving log are cut into sequences, a new one starting at every row whose
 * `iteration` is 1, and each sequence is reported as a successful or a
 * failed trial by the `success` value of its last row.
 *
 * Whether the log has a `num_trial` or a `success` column is a property of
 * the whole table, so it is a parameter (`Columns`) rather than a field of
 * every row. The position columns, the kilometre total and the CSV output
 * are not part of this model.
 */
module TrialSequences {

  /** The columns of one log row that the segmentation and the report read. */
  datatype Row = Row(iteration: int, numTrial: int, success: bool)

  /** Which optional columns the log has. */
  datatype Columns = Columns(hasNumTrial: bool, hasSuccess: bool)

  /** The rows of all sequences, in order. */
  function Concat(seqs: seq<seq<Row>>): (r: seq<Row>)
    ensures seqs == [] ==> r == []
    ensures seqs != [] ==> |r| >= |seqs[0]|
  {
    if seqs == [] then [] else seqs[0] + Concat(seqs[1..])
  }

  /** Concatenation of one more sequence at the end. */
  lemma {:induction false} ConcatAppend(seqs: seq<seq<Row>>, s: seq<Row>)
    ensures Concat(seqs + [s]) == Concat(seqs) + s
    decreases |seqs|
  {
    if seqs == [] {
      assert [s][1..] == [];
    } else {
      assert (seqs + [s])[1..] == seqs[1..] + [s];
      ConcatAppend(seqs[1..], s);
    }
  }

  /**
   * The shape of the sequences, whatever rows they hold: none is empty, all
   * but the first begin with an `iteration == 1` row, and no row after the
   * first of a sequence has `iteration == 1`.
   */
  predicate Segmented(seqs: seq<seq<Row>>)
  {
    (forall k :: 0 <= k < |seqs| ==> |seqs[k]| > 0) &&
    (forall k :: 0 < k < |seqs| && |seqs[k]| > 0 ==> seqs[k][0].iteration == 1) &&
    (forall k, j :: 0 <= k < |seqs| && 0 < j < |seqs[k]| ==> seqs[k][j].iteration != 1)
  }

  /** `seqs` is a segmentation of `rows`: the sequences put together give back the rows. */
  predicate Segmentation(rows: seq<Row>, seqs: seq<seq<Row>>)
  {
    Concat(seqs) == rows && Segmented(seqs)
  }

  /** A segmentation of the empty log has no sequence, and a non-empty log has at least one. */
  lemma SegmentationOfEmpty(rows: seq<Row>, seqs: seq<seq<Row>>)
    requires Segmentation(rows, seqs)
    ensures rows == [] <==> seqs == []
  {
    if seqs != [] {
      assert |seqs[0]| > 0;
    }
  }

  /**
   * There is only one segmentation of a log: the sequences are determined by
   * the rows, so any procedure meeting `Segmentation` cuts where `Split` cuts.
   */
  lemma {:induction false} SegmentationUnique(rows: seq<Row>, a: seq<seq<Row>>, b: seq<seq<Row>>)
    requires Segmentation(rows, a) && Segmentation(rows, b)
    ensures a == b
    decreases |rows|
  {
    SegmentationOfEmpty(rows, a);
    SegmentationOfEmpty(rows, b);
    if rows != [] {
      var n, m := |a[0]|, |b[0]|;
      assert rows == a[0] + Concat(a[1..]) == b[0] + Concat(b[1..]);
      CutStartsSequence(rows, a);
      CutStartsSequence(rows, b);
      if n != m {
        assert false;
      }
      assert a[0] == rows[..n] == b[0];
      var rest := rows[n..];
      assert Concat(a[1..]) == rest == Concat(b[1..]);
      TailSegmented(a);
      TailSegmented(b);
      SegmentationUnique(rest, a[1..], b[1..]);
      assert a == [a[0]] + a[1..];
      assert b == [b[0]] + b[1..];
    }
  }

  /**
   * The first sequence ends where the rows first have `iteration == 1`
   * again: none of its rows after the first has it, and the row just after
   * it, if any, does.
   */
  lemma CutStartsSequence(rows: seq<Row>, seqs: seq<seq<Row>>)
    requires Segmentation(rows, seqs) && seqs != []
    ensures |seqs[0]| <= |rows|
    ensures forall j :: 0 < j < |seqs[0]| ==> rows[j].iteration != 1
    ensures |seqs[0]| < |rows| ==> rows[|seqs[0]|].iteration == 1
  {
    var n := |seqs[0]|;
    assert rows == seqs[0] + Concat(seqs[1..]);
    assert forall j :: 0 < j < n ==> rows[j] == seqs[0][j];
    if n < |rows| {
      assert rows == seqs[0] + Concat(seqs[1..]);
      if seqs[1..] == [] {
        assert false;
      }
      assert seqs[1..][0] == seqs[1];
      assert |seqs[1]| > 0;
      assert Concat(seqs[1..]) == seqs[1] + Concat(seqs[2..]);
      assert rows[n] == seqs[1][0];
    }
  }

  /** Dropping the first sequence keeps the shape. */
  lemma TailSegmented(seqs: seq<seq<Row>>)
    requires Segmented(seqs) && seqs != []
    ensures Segmented(seqs[1..])
  {
    forall k | 0 < k < |seqs[1..]|
      ensures seqs[1..][k][0].iteration == 1
    {
      assert seqs[1..][k] == seqs[k + 1];
    }
  }

  /** A row with `iteration == 1` may start a new sequence. */
  lemma SegmentedStart(seqs: seq<seq<Row>>, row: Row)
    requires Segmented(seqs) && row.iteration == 1
    ensures Segmented(seqs + [[row]])
  {
  }

  /** A row whose `iteration` is not 1 may extend the last sequence. */
  lemma SegmentedExtend(seqs: seq<seq<Row>>, current: seq<Row>, row: Row)
    requires Segmented(seqs + [current]) && row.iteration != 1
    ensures Segmented(seqs + [current + [row]])
  {
    var before: seq<seq<Row>> := seqs + [current];
    var after: seq<seq<Row>> := seqs + [current + [row]];
    forall k | 0 <= k < |after|
      ensures |after[k]| > 0
    {
      assert k < |seqs| ==> after[k] == before[k];
    }
    forall k, j | 0 <= k < |after| && 0 < j < |after[k]|
      ensures after[k][j].iteration != 1
    {
      if k < |seqs| {
        assert after[k] == before[k];
      } else if j < |current| {
        assert after[k][j] == before[k][j];
      }
    }
    forall k | 0 < k < |after| && |after[k]| > 0
      ensures after[k][0].iteration == 1
    {
      assert after[k][0] == before[k][0];
    }
  }

  /**
   * Lines 22-30: the row loop. A row with `iteration == 1` closes the
   * current sequence when it holds rows; every row joins the current
   * sequence; the last sequence is closed after the loop.
   */
  method Split(rows: seq<Row>) returns (sequences: seq<seq<Row>>)
    ensures Segmentation(rows, sequences)
    ensures rows == [] <==> sequences == []
  {
    sequences := [];
    var current: seq<Row> := [];
    var i := 0;
    while i < |rows|
      invariant 0 <= i <= |rows|
      invariant i == 0 ==> sequences == [] && current == []
      invariant i > 0 ==> current != [] && Segmentation(rows[..i], sequences + [current])
    {
      var row := rows[i];
      assert rows[..i + 1] == rows[..i] + [row];
      if row.iteration == 1 && current != [] {
        SegmentedStart(sequences + [current], row);
        ConcatAppend(sequences + [current], [row]);
        sequences := sequences + [current];
        current := [row];
      } else if current != [] {
        SegmentedExtend(sequences, current, row);
        ConcatAppend(sequences, current);
        ConcatAppend(sequences, current + [row]);
        current := current + [row];
      } else {
        assert Concat([[row]]) == [row] + Concat([]);
        current := [row];
      }
      i := i + 1;
    }
    if current != [] {
      sequences := sequences + [current];
    }
    assert rows[..i] == rows;
    SegmentationOfEmpty(rows, sequences);
  }

  /** Line 47: the first row's `num_trial` when the log has that column, else the 1-based position. */
  function TrialId(cols: Columns, s: seq<Row>, k: nat): (id: int)
    requires |s| > 0
    ensures cols.hasNumTrial ==> id == s[0].numTrial
    ensures !cols.hasNumTrial ==> id == k + 1
  {
    if cols.hasNumTrial then s[0].numTrial else k + 1
  }

  /** Line 44: the sequence's outcome is its last row's `success` value. */
  function Succeeded(s: seq<Row>): bool
    requires |s| > 0
  {
    s[|s| - 1].success
  }

  /** The trial ids of the sequences whose outcome is `wanted`, in sequence order. */
  function Ids(cols: Columns, seqs: seq<seq<Row>>, wanted: bool): (ids: seq<int>)
    requires forall k :: 0 <= k < |seqs| ==> |seqs[k]| > 0
    ensures |ids| <= |seqs|
    decreases |seqs|
  {
    if seqs == [] then []
    else
      var n := |seqs| - 1;
      Ids(cols, seqs[..n], wanted) + (if Succeeded(seqs[n]) == wanted then [TrialId(cols, seqs[n], n)] else [])
  }

  /** One more sequence adds its id to the list of its outcome. */
  lemma IdsStep(cols: Columns, seqs: seq<seq<Row>>, i: nat, wanted: bool)
    requires forall k :: 0 <= k < |seqs| ==> |seqs[k]| > 0
    requires i < |seqs|
    ensures Ids(cols, seqs[..i + 1], wanted) ==
      Ids(cols, seqs[..i], wanted) + (if Succeeded(seqs[i]) == wanted then [TrialId(cols, seqs[i], i)] else [])
  {
    assert seqs[..i + 1][..i] == seqs[..i];
  }

  /** Every sequence is counted once: the successful and the failed ids together are as many as the sequences. */
  lemma {:induction false} IdsPartition(cols: Columns, seqs: seq<seq<Row>>)
    requires forall k :: 0 <= k < |seqs| ==> |seqs[k]| > 0
    ensures |Ids(cols, seqs, true)| + |Ids(cols, seqs, false)| == |seqs|
    decreases |seqs|
  {
    if seqs != [] {
      IdsPartition(cols, seqs[..|seqs| - 1]);
    }
  }

  /** Every id listed for `wanted` is the id of a sequence with that outcome. */
  lemma {:induction false} IdsListed(cols: Columns, seqs: seq<seq<Row>>, wanted: bool, x: int)
    requires forall k :: 0 <= k < |seqs| ==> |seqs[k]| > 0
    requires x in Ids(cols, seqs, wanted)
    ensures exists k :: 0 <= k < |seqs| && Succeeded(seqs[k]) == wanted && TrialId(cols, seqs[k], k) == x
    decreases |seqs|
  {
    var n := |seqs| - 1;
    var front := seqs[..n];
    if x in Ids(cols, front, wanted) {
      IdsListed(cols, front, wanted, x);
      var k :| 0 <= k < |front| && Succeeded(front[k]) == wanted && TrialId(cols, front[k], k) == x;
      assert seqs[k] == front[k];
    } else {
      assert Succeeded(seqs[n]) == wanted && TrialId(cols, seqs[n], n) == x;
    }
  }

  /** The id of every sequence with outcome `wanted` is listed. */
  lemma {:induction false} IdsComplete(cols: Columns, seqs: seq<seq<Row>>, wanted: bool, k: nat)
    requires forall k :: 0 <= k < |seqs| ==> |seqs[k]| > 0
    requires k < |seqs| && Succeeded(seqs[k]) == wanted
    ensures TrialId(cols, seqs[k], k) in Ids(cols, seqs, wanted)
    decreases |seqs|
  {
    var n := |seqs| - 1;
    if k < n {
      var front := seqs[..n];
      assert front[k] == seqs[k];
      IdsComplete(cols, front, wanted, k);
    }
  }

  /** An id is listed for `wanted` exactly when some sequence with that outcome has that id. */
  lemma IdsMembers(cols: Columns, seqs: seq<seq<Row>>, wanted: bool, x: int)
    requires forall k :: 0 <= k < |seqs| ==> |seqs[k]| > 0
    ensures x in Ids(cols, seqs, wanted) <==>
      exists k :: 0 <= k < |seqs| && Succeeded(seqs[k]) == wanted && TrialId(cols, seqs[k], k) == x
  {
    if x in Ids(cols, seqs, wanted) {
      IdsListed(cols, seqs, wanted, x);
    }
    if exists k :: 0 <= k < |seqs| && Succeeded(seqs[k]) == wanted && TrialId(cols, seqs[k], k) == x {
      var k :| 0 <= k < |seqs| && Succeeded(seqs[k]) == wanted && TrialId(cols, seqs[k], k) == x;
      IdsComplete(cols, seqs, wanted, k);
    }
  }

  /** Without a `num_trial` column the ids are the positions 1, 2, ... of the sequences with that outcome. */
  lemma PositionIds(cols: Columns, seqs: seq<seq<Row>>, wanted: bool, k: nat)
    requires forall k :: 0 <= k < |seqs| ==> |seqs[k]| > 0
    requires !cols.hasNumTrial && k < |seqs|
    ensures k + 1 in Ids(cols, seqs, wanted) <==> Succeeded(seqs[k]) == wanted
  {
    IdsMembers(cols, seqs, wanted, k + 1);
  }

  /**
   * Lines 36-52: the classification loop. With a `success` column each
   * sequence's id goes to `successful` or `failed` by its last row; without
   * one both lists stay empty.
   */
  method Classify(cols: Columns, sequences: seq<seq<Row>>) returns (successful: seq<int>, failed: seq<int>)
    requires forall k :: 0 <= k < |sequences| ==> |sequences[k]| > 0
    ensures successful == (if cols.hasSuccess then Ids(cols, sequences, true) else [])
    ensures failed == (if cols.hasSuccess then Ids(cols, sequences, false) else [])
    ensures cols.hasSuccess ==> |successful| + |failed| == |sequences|
  {
    successful, failed := [], [];
    var i := 0;
    while i < |sequences|
      invariant 0 <= i <= |sequences|
      invariant successful == (if cols.hasSuccess then Ids(cols, sequences[..i], true) else [])
      invariant failed == (if cols.hasSuccess then Ids(cols, sequences[..i], false) else [])
    {
      var s := sequences[i];
      IdsStep(cols, sequences, i, true);
      IdsStep(cols, sequences, i, false);
      if cols.hasSuccess {
        var successValue := s[|s| - 1].success;
        var trialNum := if cols.hasNumTrial then s[0].numTrial else i + 1;
        if successValue {
          successful := successful + [trialNum];
        } else {
          failed := failed + [trialNum];
        }
      }
      i := i + 1;
    }
    assert sequences[..i] == sequences;
    IdsPartition(cols, sequences);
  }

  /** Lines 22-52 together: the sequences and the two id lists. */
  method ExtractAll(cols: Columns, rows: seq<Row>) returns (sequences: seq<seq<Row>>, successful: seq<int>, failed: seq<int>)
    ensures Segmentation(rows, sequences)
    ensures rows == [] <==> sequences == []
    ensures successful == (if cols.hasSuccess then Ids(cols, sequences, true) else [])
    ensures failed == (if cols.hasSuccess then Ids(cols, sequences, false) else [])
    ensures cols.hasSuccess ==> |successful| + |failed| == |sequences|
  {
    sequences := Split(rows);
    successful, failed := Classify(cols, sequences);
  }
}
