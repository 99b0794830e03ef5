/**
 * What the two counterfactual drivers (run_WhatIf_V3.py and
 * run_WhatIf_V4.py) hand to the counterfactual engine: evidence and
 * interventions as maps from atom names to truth values, and the single
 * query `latent_collision`.
 *
 * The engine itself (`CounterfactualProgram.single_query`) is not part of
 * this model: it is a function parameter that answers with a probability
 * and the seconds the query took, or raises; the clock is folded into it.
 */
module WhatIfQuery {
  import opened PyText

  /**
   * A row of the test CSV as `csv.DictReader` gives it: the columns the
   * drivers read. `labelLc` is `labeled_lc` for V3 and `orig_label_lc` for V4.
   */
  datatype TestRow = TestRow(
    action: string, currLane: string,
    freeE: string, freeNE: string, freeNW: string, freeSE: string, freeSW: string, freeW: string,
    labelLc: string, latentCollision: string, iaction: string)

  /** The columns the drivers take evidence from. */
  datatype EvidenceColumn =
    | ActionCol | CurrLane | FreeE | FreeNE | FreeNW | FreeSE | FreeSW | FreeW | LatentCollision

  /** The column's name in the CSV header, which is also its evidence atom. */
  function Name(c: EvidenceColumn): string
  {
    match c
    case ActionCol => "action"
    case CurrLane => "curr_lane"
    case FreeE => "free_E"
    case FreeNE => "free_NE"
    case FreeNW => "free_NW"
    case FreeSE => "free_SE"
    case FreeSW => "free_SW"
    case FreeW => "free_W"
    case LatentCollision => "latent_collision"
  }

  /** `row[Name(c)]`. */
  function Column(row: TestRow, c: EvidenceColumn): string
  {
    match c
    case ActionCol => row.action
    case CurrLane => row.currLane
    case FreeE => row.freeE
    case FreeNE => row.freeNE
    case FreeNW => row.freeNW
    case FreeSE => row.freeSE
    case FreeSW => row.freeSW
    case FreeW => row.freeW
    case LatentCollision => row.latentCollision
  }

  /** The texts echoed on every output line: the row's columns from `action` to `iaction`. */
  function Echo(row: TestRow): (r: seq<string>)
    ensures |r| == 11 && r[0] == row.action && r[8] == row.labelLc && r[10] == row.iaction
  {
    [row.action, row.currLane, row.freeE, row.freeNE, row.freeNW, row.freeSE, row.freeSW, row.freeW,
     row.labelLc, row.latentCollision, row.iaction]
  }

  /** Evidence or interventions: atom name to truth value. */
  type Assignment = map<string, bool>

  /** What `program.single_query` does: a probability and its elapsed time, or an exception. */
  datatype Answer = Answer(probability: real, elapsed: real) | Raised

  type Engine = (Assignment, Assignment, seq<string>) -> Answer

  /** `queries = ["latent_collision"]`. */
  const Query: seq<string> := ["latent_collision"]

  /** The eight evidence columns besides the observed action. */
  const StateKeys: seq<string> :=
    ["curr_lane", "free_E", "free_NE", "free_NW", "free_SE", "free_SW", "free_W", "latent_collision"]

  /** `phase = False if value == "True" else True`: the polarity inversion of the drivers. */
  function Phase(value: string): (b: bool)
    ensures !b <==> value == "True"
  {
    value != "True"
  }

  /** The atom `action(<a>)`. */
  function Atom(a: string): string
  {
    "action(" + a + ")"
  }

  /** Different actions have different atoms. */
  lemma AtomInjective(a: string, b: string)
    requires Atom(a) == Atom(b)
    ensures a == b
  {
    var s := Atom(a);
    assert a == s[7..|s| - 1];
    assert b == Atom(b)[7..|Atom(b)| - 1];
  }

  /** Different actions never share an atom. */
  lemma AtomsDiffer(a: string, b: string)
    requires a != b
    ensures Atom(a) != Atom(b)
  {
    if Atom(a) == Atom(b) {
      AtomInjective(a, b);
    }
  }

  /** The state columns as a set. */
  const StateKeySet: set<string> :=
    {"curr_lane", "free_E", "free_NE", "free_NW", "free_SE", "free_SW", "free_W", "latent_collision"}

  /** The eight state columns are distinct. */
  lemma StateKeyCount()
    ensures |StateKeySet| == 8
    ensures forall k :: k in StateKeys <==> k in StateKeySet
  {
    var s := {"curr_lane"};
    assert "free_E" !in s; s := s + {"free_E"};
    assert "free_NE" !in s; s := s + {"free_NE"};
    assert "free_NW" !in s; s := s + {"free_NW"};
    assert "free_SE" !in s; s := s + {"free_SE"};
    assert "free_SW" !in s; s := s + {"free_SW"};
    assert "free_W" !in s; s := s + {"free_W"};
    assert "latent_collision" !in s; s := s + {"latent_collision"};
    assert s == StateKeySet;
  }

  /** No action atom is one of the state columns: the atom starts with `a`, no state column does. */
  lemma AtomIsNoStateKey(a: string)
    ensures Atom(a) !in StateKeySet
  {
    assert Atom(a)[0] == 'a';
  }

  predicate NoDuplicates(xs: seq<string>)
  {
    forall i, j :: 0 <= i < j < |xs| ==> xs[i] != xs[j]
  }

  /** Entry `j` of `iaction_truth[i]`. */
  function Truth(i: nat, j: nat): string
  {
    if i == j then "True" else "False"
  }

  /**
   * The `iaction_truth` loop: tuple `i` has `n` entries, `'True'` at
   * position `i` and `'False'` everywhere else.
   */
  method TruthTuples(n: nat) returns (t: seq<seq<string>>)
    ensures |t| == n
    ensures forall i :: 0 <= i < n ==> |t[i]| == n
    ensures forall i, j :: 0 <= i < n && 0 <= j < n ==> (t[i][j] == "True" <==> i == j)
    ensures forall i, j :: 0 <= i < n && 0 <= j < n ==> t[i][j] == Truth(i, j)
  {
    t := [];
    var i := 0;
    while i < n
      invariant 0 <= i <= n && |t| == i
      invariant forall a :: 0 <= a < i ==> |t[a]| == n
      invariant forall a, j :: 0 <= a < i && 0 <= j < n ==> t[a][j] == Truth(a, j)
    {
      var values := seq(n, _ => "False");
      values := values[i := "True"];
      t := t + [values];
      i := i + 1;
    }
  }

  /**
   * The interventions for chosen index `k`: for each discovered action in
   * turn, `action(<a>)` gets the phase of `iaction_truth[k]`'s entry.
   */
  function Interventions(actions: seq<string>, k: nat): Assignment
    decreases |actions|
  {
    if actions == [] then map[]
    else
      var n := |actions| - 1;
      Interventions(actions[..n], k)[Atom(actions[n]) := Phase(Truth(k, n))]
  }

  /** The atoms of the actions. */
  function Atoms(actions: seq<string>): set<string>
  {
    set i | 0 <= i < |actions| :: Atom(actions[i])
  }

  /** The interventions name exactly the actions' atoms. */
  lemma {:induction false} InterventionsKeys(actions: seq<string>, k: nat)
    ensures Interventions(actions, k).Keys == Atoms(actions)
    decreases |actions|
  {
    if actions != [] {
      var n := |actions| - 1;
      var front := actions[..n];
      InterventionsKeys(front, k);
      assert forall i :: 0 <= i < n ==> front[i] == actions[i];
      assert Atoms(actions) == Atoms(front) + {Atom(actions[n])};
    }
  }

  /**
   * With distinct actions, the interventions set the chosen action to
   * `False` and every other to `True`.
   */
  lemma {:induction false} InterventionsChoose(actions: seq<string>, k: nat)
    requires NoDuplicates(actions)
    ensures forall i :: 0 <= i < |actions| ==>
      Atom(actions[i]) in Interventions(actions, k) && Interventions(actions, k)[Atom(actions[i])] == (i != k)
    decreases |actions|
  {
    if actions != [] {
      var n := |actions| - 1;
      var front := actions[..n];
      assert NoDuplicates(front);
      InterventionsChoose(front, k);
      forall i | 0 <= i < n
        ensures Atom(actions[i]) in Interventions(actions, k) && Interventions(actions, k)[Atom(actions[i])] == (i != k)
      {
        InterventionsEarlier(actions, k, i);
      }
      PhaseTruth(k, n);
    }
  }

  /** The last action's atom does not overwrite an earlier action's. */
  lemma InterventionsEarlier(actions: seq<string>, k: nat, i: nat)
    requires NoDuplicates(actions) && i < |actions| - 1
    requires var front := actions[..|actions| - 1];
      Atom(front[i]) in Interventions(front, k) && Interventions(front, k)[Atom(front[i])] == (i != k)
    ensures Atom(actions[i]) in Interventions(actions, k) && Interventions(actions, k)[Atom(actions[i])] == (i != k)
  {
    var n := |actions| - 1;
    assert actions[..n][i] == actions[i] && actions[i] != actions[n];
    AtomsDiffer(actions[i], actions[n]);
  }

  /** Entry `n` of tuple `k` becomes `False` exactly for the chosen index. */
  lemma PhaseTruth(k: nat, n: nat)
    ensures Phase(Truth(k, n)) == (n != k)
  {
    if k != n {
      assert "False"[0] != "True"[0];
    }
  }

  /**
   * The nine evidence atoms: the observed action's atom with the value the
   * driver gives it, then the eight state columns, each the phase of its text.
   */
  function ObservedEvidence(row: TestRow, observed: bool): Assignment
  {
    map[Atom(row.action) := observed,
        "curr_lane" := Phase(row.currLane),
        "free_E" := Phase(row.freeE),
        "free_NE" := Phase(row.freeNE),
        "free_NW" := Phase(row.freeNW),
        "free_SE" := Phase(row.freeSE),
        "free_SW" := Phase(row.freeSW),
        "free_W" := Phase(row.freeW),
        "latent_collision" := Phase(row.latentCollision)]
  }

  /**
   * The evidence has exactly nine atoms: the observed action's, with the
   * given value, and the eight state columns; the observed action's atom is
   * never overwritten by a state column.
   */
  lemma EvidenceAtoms(row: TestRow, observed: bool)
    ensures ObservedEvidence(row, observed).Keys == {Atom(row.action)} + StateKeySet
    ensures |ObservedEvidence(row, observed)| == 9
    ensures ObservedEvidence(row, observed)[Atom(row.action)] == observed
  {
    AtomIsNoStateKey(row.action);
    StateKeyCount();
  }

  /** Python's `list.index` on the discovered actions, when the action is there. */
  function IndexIn(actions: seq<string>, a: string): (k: nat)
    requires a in actions
    ensures k < |actions| && actions[k] == a
  {
    ListIndex(actions, a).value
  }

  /** The interventions for intervention `iaction`: those of its index among the actions. */
  function Chosen(actions: seq<string>, iaction: string): Assignment
    requires iaction in actions
  {
    Interventions(actions, IndexIn(actions, iaction))
  }

  /**
   * With distinct actions, the interventions for `iaction` name every
   * action's atom and nothing else, setting `iaction` to `False` and every
   * other action to `True`.
   */
  lemma ChosenSetsIaction(actions: seq<string>, iaction: string)
    requires iaction in actions && NoDuplicates(actions)
    ensures Chosen(actions, iaction).Keys == Atoms(actions)
    ensures forall i :: 0 <= i < |actions| ==>
      Chosen(actions, iaction)[Atom(actions[i])] == (actions[i] != iaction)
  {
    var k := IndexIn(actions, iaction);
    InterventionsKeys(actions, k);
    InterventionsChoose(actions, k);
    forall i | 0 <= i < |actions| ensures (i != k) == (actions[i] != iaction) {
      if i != k {
        assert actions[i] != actions[k];
      }
    }
  }
}
