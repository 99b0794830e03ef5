/**
 * `results['probability'].rank(method='dense', ascending=False)` and the
 * best-intervention marker of the Naive-Bayes evaluator
 * (Test_1_LOOCV_HC+BIC_constrained/best_interventions_NB.py).
 *
 * Probabilities are only compared, so they are reals here; the `EPS`
 * tolerance the script declares is never used, and ties are exact
 * equality. A dense descending rank is one more than the number of
 * distinct probabilities strictly above the row's own.
 */
module DenseRank {
  /** The distinct probabilities of a fold. */
  function Values(probs: seq<real>): set<real>
  {
    set j | 0 <= j < |probs| :: probs[j]
  }

  /** The distinct probabilities of a fold strictly above `x`. */
  function Above(probs: seq<real>, x: real): set<real>
  {
    set j | 0 <= j < |probs| && probs[j] > x :: probs[j]
  }

  /** The dense descending rank of probability `x` among `probs`. */
  function Rank(probs: seq<real>, x: real): (r: nat)
    ensures r >= 1
  {
    |Above(probs, x)| + 1
  }

  /** The `ranking` column: every row's dense descending rank. */
  function Ranks(probs: seq<real>): (r: seq<nat>)
    ensures |r| == |probs|
    ensures forall i :: 0 <= i < |probs| ==> r[i] >= 1
  {
    seq(|probs|, i requires 0 <= i < |probs| => Rank(probs, probs[i]))
  }

  /** Rows with equal probabilities share a rank. */
  lemma EqualProbabilitiesEqualRanks(probs: seq<real>, i: nat, j: nat)
    requires i < |probs| && j < |probs| && probs[i] == probs[j]
    ensures Ranks(probs)[i] == Ranks(probs)[j]
  {
  }

  /** A strictly larger probability has a strictly smaller (better) rank. */
  lemma LargerProbabilitySmallerRank(probs: seq<real>, i: nat, j: nat)
    requires i < |probs| && j < |probs| && probs[i] > probs[j]
    ensures Ranks(probs)[i] < Ranks(probs)[j]
  {
    var a, b := Above(probs, probs[i]), Above(probs, probs[j]);
    assert a <= b;
    assert probs[i] in b - a;
    assert b == a + (b - a);
  }

  /** Ranks order the rows exactly as their probabilities do, in reverse. */
  lemma RankOrder(probs: seq<real>, i: nat, j: nat)
    requires i < |probs| && j < |probs|
    ensures Ranks(probs)[i] < Ranks(probs)[j] <==> probs[i] > probs[j]
    ensures Ranks(probs)[i] == Ranks(probs)[j] <==> probs[i] == probs[j]
  {
    if probs[i] > probs[j] {
      LargerProbabilitySmallerRank(probs, i, j);
    } else if probs[j] > probs[i] {
      LargerProbabilitySmallerRank(probs, j, i);
    }
  }

  /** Rank 1 is exactly the rows holding the fold's largest probability. */
  lemma RankOneIsMaximum(probs: seq<real>, i: nat)
    requires i < |probs|
    ensures Ranks(probs)[i] == 1 <==> forall j :: 0 <= j < |probs| ==> probs[j] <= probs[i]
  {
    if exists j :: 0 <= j < |probs| && probs[j] > probs[i] {
      var j :| 0 <= j < |probs| && probs[j] > probs[i];
      assert probs[j] in Above(probs, probs[i]);
    }
  }

  /** The position of a largest probability. */
  function MaxIndex(probs: seq<real>): (m: nat)
    requires probs != []
    ensures m < |probs| && forall j :: 0 <= j < |probs| ==> probs[j] <= probs[m]
    decreases |probs|
  {
    if |probs| == 1 then 0
    else
      var m := MaxIndex(probs[..|probs| - 1]);
      assert forall j :: 0 <= j < |probs| - 1 ==> probs[..|probs| - 1][j] == probs[j];
      if probs[|probs| - 1] > probs[m] then |probs| - 1 else m
  }

  /** A non-empty fold has at least one rank-1 row. */
  lemma SomeRankOne(probs: seq<real>)
    requires probs != []
    ensures exists i :: 0 <= i < |probs| && Ranks(probs)[i] == 1
  {
    var m := MaxIndex(probs);
    RankOneIsMaximum(probs, m);
  }

  /** No rank exceeds the number of distinct probabilities. */
  lemma RankAtMostDistinct(probs: seq<real>, i: nat)
    requires i < |probs|
    ensures Ranks(probs)[i] <= |Values(probs)|
  {
    var x := probs[i];
    var rest := Values(probs) - {x};
    assert Above(probs, x) <= rest;
    assert rest == Above(probs, x) + (rest - Above(probs, x));
    assert Values(probs) == rest + {x};
  }

  /** The ranks, less one, that the values of `s` take. */
  function RankSet(probs: seq<real>, s: set<real>): set<nat>
  {
    set v | v in s :: |Above(probs, v)|
  }

  /** The distinct probabilities of the first `n` rows. */
  function ValuesUpTo(probs: seq<real>, n: nat): set<real>
    requires n <= |probs|
  {
    set j | 0 <= j < n :: probs[j]
  }

  /**
   * Distinct values have distinct ranks, so the values of the first `n`
   * rows take as many ranks as there are of them.
   */
  lemma {:induction false} RankSetSize(probs: seq<real>, n: nat)
    requires n <= |probs|
    ensures |RankSet(probs, ValuesUpTo(probs, n))| == |ValuesUpTo(probs, n)|
  {
    if n > 0 {
      var m := n - 1;
      var x := probs[m];
      var values := ValuesUpTo(probs, m);
      var ranks := RankSet(probs, values);
      RankSetSize(probs, m);
      ValuesUpToStep(probs, m);
      RankSetAdd(probs, values, x);
      if x !in values {
        NewValueNewRank(probs, m);
        assert |values + {x}| == |values| + 1;
        assert |ranks + {|Above(probs, x)|}| == |ranks| + 1;
      } else {
        assert values + {x} == values;
      }
    }
  }

  /** One more row adds its probability to the values seen. */
  lemma ValuesUpToStep(probs: seq<real>, m: nat)
    requires m < |probs|
    ensures ValuesUpTo(probs, m + 1) == ValuesUpTo(probs, m) + {probs[m]}
  {
  }

  /** One more value adds its rank to the ranks taken. */
  lemma RankSetAdd(probs: seq<real>, s: set<real>, x: real)
    ensures RankSet(probs, s + {x}) == RankSet(probs, s) + {|Above(probs, x)|}
  {
  }

  /** A probability not seen before takes a rank not taken before. */
  lemma NewValueNewRank(probs: seq<real>, m: nat)
    requires m < |probs| && probs[m] !in ValuesUpTo(probs, m)
    ensures |Above(probs, probs[m])| !in RankSet(probs, ValuesUpTo(probs, m))
  {
    if |Above(probs, probs[m])| in RankSet(probs, ValuesUpTo(probs, m)) {
      var w :| w in ValuesUpTo(probs, m) && |Above(probs, w)| == |Above(probs, probs[m])|;
      var j :| 0 <= j < m && probs[j] == w;
      RankOrder(probs, j, m);
      assert false;
    }
  }

  /** The numbers below `n`. */
  function Below(n: nat): (r: set<nat>)
    ensures |r| == n
    ensures forall k: nat :: k in r <==> k < n
  {
    if n == 0 then {} else Below(n - 1) + {n - 1}
  }

  /** Every rank, less one, is below the number of distinct probabilities. */
  lemma RanksBelowDistinct(probs: seq<real>)
    ensures RankSet(probs, Values(probs)) <= Below(|Values(probs)|)
  {
    forall n | n in RankSet(probs, Values(probs)) ensures n < |Values(probs)| {
      var v :| v in Values(probs) && n == |Above(probs, v)|;
      var i :| 0 <= i < |probs| && probs[i] == v;
      RankAtMostDistinct(probs, i);
    }
  }

  /** A subset as large as its superset is the whole of it. */
  lemma SameSizeSubset(a: set<nat>, b: set<nat>)
    requires a <= b && |a| == |b|
    ensures a == b
  {
    assert b == a + (b - a);
  }

  /**
   * The ranks cover exactly 1..k, where k is the number of distinct
   * probabilities: every rank in that range is some row's rank.
   */
  lemma RanksCoverDistinct(probs: seq<real>, r: nat)
    requires 1 <= r <= |Values(probs)|
    ensures exists i :: 0 <= i < |probs| && Ranks(probs)[i] == r
  {
    var ranks := RankSet(probs, Values(probs));
    RankSetSize(probs, |probs|);
    assert ValuesUpTo(probs, |probs|) == Values(probs);
    RanksBelowDistinct(probs);
    SameSizeSubset(ranks, Below(|Values(probs)|));
    assert r - 1 in ranks;
    var v :| v in Values(probs) && r - 1 == |Above(probs, v)|;
    var i :| 0 <= i < |probs| && probs[i] == v;
    assert Ranks(probs)[i] == r;
  }

  /** `'*'` on the rows ranked 1 and `''` elsewhere. */
  function Marker(rank: nat): (m: string)
    ensures m == "*" <==> rank == 1
    ensures m == "" <==> rank != 1
  {
    if rank == 1 then "*" else ""
  }

  /** The `best_intervention` column of lines 158-161. */
  function Markers(ranks: seq<nat>): (m: seq<string>)
    ensures |m| == |ranks| && forall i :: 0 <= i < |ranks| ==> m[i] == Marker(ranks[i])
  {
    seq(|ranks|, i requires 0 <= i < |ranks| => Marker(ranks[i]))
  }

  /**
   * In a non-empty fold some row is marked `'*'`, and the marked rows are
   * exactly those holding the largest probability.
   */
  lemma MarkedRowsHoldMaximum(probs: seq<real>)
    requires probs != []
    ensures exists i :: 0 <= i < |probs| && Markers(Ranks(probs))[i] == "*"
    ensures forall i :: 0 <= i < |probs| ==>
      (Markers(Ranks(probs))[i] == "*" <==> forall j :: 0 <= j < |probs| ==> probs[j] <= probs[i])
  {
    SomeRankOne(probs);
    forall i | 0 <= i < |probs|
      ensures Markers(Ranks(probs))[i] == "*" <==> forall j :: 0 <= j < |probs| ==> probs[j] <= probs[i]
    {
      RankOneIsMaximum(probs, i);
    }
  }
}
