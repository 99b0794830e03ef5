/**
 * The fragment of Python's `re` module that the scripts use.
 *
 * A pattern is a sequence of tokens: a literal, `\s*` / `\s+`, and the
 * capturing classes `(\d+)`, `(\w+)` and `([^)]+)`. Classes are matched
 * greedily without backtracking. For every pattern in this model the
 * character after a greedy run can never belong to the run's class (a
 * literal or class that follows starts with a character outside it), so
 * giving characters back could never produce a match, and the result is
 * the one Python's backtracking engine returns.
 */
module Regex {
  import opened Wrappers
  import opened PyText
  import opened PyInt

  datatype Token =
    | Lit(text: string)          // the characters themselves
    | Spaces(atLeastOne: bool)   // `\s+` when true, `\s*` when false
    | Digits                     // `(\d+)`
    | Word                       // `(\w+)`
    | NotClose                   // `([^)]+)`

  type Pattern = seq<Token>

  predicate IsWordChar(c: char)
  {
    ('a' <= c <= 'z') || ('A' <= c <= 'Z') || IsDigit(c) || c == '_'
  }

  /** Membership of `c` in the class a non-literal token stands for. */
  predicate InClass(t: Token, c: char)
    requires !t.Lit?
  {
    match t
    case Spaces(_) => IsSpace(c)
    case Digits => IsDigit(c)
    case Word => IsWordChar(c)
    case NotClose => c != ')'
  }

  /** End of the longest run of class characters starting at `i`. */
  function RunEnd(t: Token, s: string, i: nat): (j: nat)
    requires !t.Lit? && i <= |s|
    ensures i <= j <= |s|
    ensures forall k :: i <= k < j ==> InClass(t, s[k])
    ensures j < |s| ==> !InClass(t, s[j])
    decreases |s| - i
  {
    if i < |s| && InClass(t, s[i]) then RunEnd(t, s, i + 1) else i
  }

  /** Number of groups a pattern captures. */
  function CaptureCount(pat: Pattern): nat
  {
    if pat == [] then 0
    else (if pat[0].Digits? || pat[0].Word? || pat[0].NotClose? then 1 else 0) + CaptureCount(pat[1..])
  }

  /** Match `pat` anchored at position `i`: the end position and the captured groups. */
  function MatchAt(pat: Pattern, s: string, i: nat): (r: Option<(nat, seq<string>)>)
    requires i <= |s|
    ensures r.Some? ==> i <= r.value.0 <= |s| && |r.value.1| == CaptureCount(pat)
    decreases pat
  {
    if pat == [] then Some((i, []))
    else
      var t := pat[0];
      match t
      case Lit(l) =>
        if OccursAt(s, l, i) then MatchAt(pat[1..], s, i + |l|) else None
      case Spaces(plus) =>
        var j := RunEnd(t, s, i);
        if plus && j == i then None else MatchAt(pat[1..], s, j)
      case _ =>
        var j := RunEnd(t, s, i);
        if j == i then None
        else
          match MatchAt(pat[1..], s, j)
          case None => None
          case Some((e, groups)) => Some((e, [s[i..j]] + groups))
  }

  datatype Found = Found(start: nat, end: nat, groups: seq<string>)

  /** Leftmost match starting at or after `from` (Python's `pattern.search(s, from)`). */
  function SearchFrom(pat: Pattern, s: string, from: nat): (r: Option<Found>)
    ensures r.Some? ==> from <= r.value.start <= |s| && MatchAt(pat, s, r.value.start) == Some((r.value.end, r.value.groups))
    ensures r.Some? ==> forall k :: from <= k < r.value.start ==> MatchAt(pat, s, k).None?
    ensures r.None? ==> forall k :: from <= k <= |s| ==> MatchAt(pat, s, k).None?
    decreases |s| + 1 - from
  {
    if from > |s| then None
    else match MatchAt(pat, s, from)
      case Some((e, groups)) => Some(Found(from, e, groups))
      case None => SearchFrom(pat, s, from + 1)
  }

  /** Python's `re.search(pattern, s)`. */
  function Search(pat: Pattern, s: string): Option<Found>
  {
    SearchFrom(pat, s, 0)
  }

  /** The first captured group of a successful search (`match.group(1)`). */
  function FirstGroup(pat: Pattern, s: string): (r: Option<string>)
    requires CaptureCount(pat) >= 1
    ensures r.Some? <==> Search(pat, s).Some?
  {
    match Search(pat, s)
    case None => None
    case Some(m) => Some(m.groups[0])
  }

  /**
   * Python's `re.findall(pattern, s[from:])`: the groups of successive
   * non-overlapping leftmost matches (after an empty match the scan moves
   * one character on).
   */
  function FindAllFrom(pat: Pattern, s: string, from: nat): (r: seq<seq<string>>)
    ensures forall k :: 0 <= k < |r| ==> |r[k]| == CaptureCount(pat)
    decreases |s| + 1 - from
  {
    match SearchFrom(pat, s, from)
    case None => []
    case Some(m) =>
      [m.groups] + FindAllFrom(pat, s, if m.end > m.start then m.end else m.start + 1)
  }

  function FindAll(pat: Pattern, s: string): seq<seq<string>>
  {
    FindAllFrom(pat, s, 0)
  }

  /** Where the scan resumes after a match: its end, or one character on after an empty match. */
  function Resume(m: Found): nat
  {
    if m.end > m.start then m.end else m.start + 1
  }

  /** The matches `re.findall` reports from `from`, with their positions. */
  function MatchesFrom(pat: Pattern, s: string, from: nat): (r: seq<Found>)
    ensures forall k :: 0 <= k < |r| ==> from <= r[k].start <= r[k].end <= |s|
    decreases |s| + 1 - from
  {
    match SearchFrom(pat, s, from)
    case None => []
    case Some(m) => [m] + MatchesFrom(pat, s, Resume(m))
  }

  /** The groups of each match, in order. */
  function Groups(ms: seq<Found>): (r: seq<seq<string>>)
    ensures |r| == |ms| && forall k :: 0 <= k < |ms| ==> r[k] == ms[k].groups
  {
    seq(|ms|, k requires 0 <= k < |ms| => ms[k].groups)
  }

  /** Each of `ms` is a match of `pat` at its start, at or after `from`. */
  predicate MatchedAt(pat: Pattern, s: string, from: nat, ms: seq<Found>)
  {
    forall k :: 0 <= k < |ms| ==>
      from <= ms[k].start <= |s| && MatchAt(pat, s, ms[k].start) == Some((ms[k].end, ms[k].groups))
  }

  /** The matches come left to right and none overlaps the next. */
  predicate InScanOrder(ms: seq<Found>)
  {
    forall i, j :: 0 <= i < j < |ms| ==> Resume(ms[i]) <= ms[j].start
  }

  /** Every position from `from` on where `pat` matches lies inside one of `ms`. */
  predicate Covering(pat: Pattern, s: string, from: nat, ms: seq<Found>)
  {
    forall p {:trigger Covered(ms, p)} :: from <= p <= |s| && MatchAt(pat, s, p).Some? ==> Covered(ms, p)
  }

  /** Position `p` lies inside one of the matches. */
  predicate Covered(ms: seq<Found>, p: nat)
  {
    exists k :: 0 <= k < |ms| && ms[k].start <= p < Resume(ms[k])
  }

  /**
   * What `re.findall` promises about the matches it reports on `s` from
   * `from`: each is a match at its start, they come left to right without
   * overlapping, and every position where the pattern matches lies inside
   * one of them (a match that starts inside an earlier one is skipped).
   */
  predicate SuccessiveMatches(pat: Pattern, s: string, from: nat, ms: seq<Found>)
  {
    MatchedAt(pat, s, from, ms) && InScanOrder(ms) && Covering(pat, s, from, ms)
  }

  /** `re.findall` returns the groups of the positioned matches. */
  lemma {:induction false} FindAllGroups(pat: Pattern, s: string, from: nat)
    ensures FindAllFrom(pat, s, from) == Groups(MatchesFrom(pat, s, from))
    decreases |s| + 1 - from
  {
    match SearchFrom(pat, s, from)
    case None =>
    case Some(m) =>
      var tail := MatchesFrom(pat, s, Resume(m));
      assert FindAllFrom(pat, s, from) == [m.groups] + FindAllFrom(pat, s, Resume(m));
      assert MatchesFrom(pat, s, from) == [m] + tail;
      FindAllGroups(pat, s, Resume(m));
      GroupsOfCons(m, tail);
  }

  lemma GroupsOfCons(m: Found, tail: seq<Found>)
    ensures Groups([m] + tail) == [m.groups] + Groups(tail)
  {
    var ms := [m] + tail;
    forall k | 0 <= k < |ms|
      ensures Groups(ms)[k] == ([m.groups] + Groups(tail))[k]
    {
      if k > 0 {
        assert ms[k] == tail[k - 1];
      }
    }
  }

  /** The positioned matches are every successive leftmost non-overlapping match, in order. */
  lemma {:induction false} MatchesFromSuccessive(pat: Pattern, s: string, from: nat)
    ensures SuccessiveMatches(pat, s, from, MatchesFrom(pat, s, from))
    decreases |s| + 1 - from
  {
    match SearchFrom(pat, s, from)
    case None =>
      var ms := MatchesFrom(pat, s, from);
      assert ms == [];
      assert Covering(pat, s, from, ms);
    case Some(m) =>
      var next := Resume(m);
      var tail := MatchesFrom(pat, s, next);
      MatchesFromSuccessive(pat, s, next);
      var ms := [m] + tail;
      assert ms == MatchesFrom(pat, s, from);
      ConsSuccessive(pat, s, from, m, tail);
  }

  /**
   * The leftmost match from `from`, in front of the successive matches from
   * where the scan resumes after it, gives the successive matches from `from`.
   */
  lemma ConsSuccessive(pat: Pattern, s: string, from: nat, m: Found, tail: seq<Found>)
    requires SearchFrom(pat, s, from) == Some(m)
    requires SuccessiveMatches(pat, s, Resume(m), tail)
    ensures SuccessiveMatches(pat, s, from, [m] + tail)
  {
    var next := Resume(m);
    assert MatchedAt(pat, s, next, tail) && InScanOrder(tail) && Covering(pat, s, next, tail);
    ConsMatchedAt(pat, s, from, m, tail);
    ConsInScanOrder(m, tail);
    ConsCovering(pat, s, from, m, tail);
  }

  lemma ConsMatchedAt(pat: Pattern, s: string, from: nat, m: Found, tail: seq<Found>)
    requires SearchFrom(pat, s, from) == Some(m)
    requires MatchedAt(pat, s, Resume(m), tail)
    ensures MatchedAt(pat, s, from, [m] + tail)
  {
    var ms := [m] + tail;
    forall k | 0 <= k < |ms|
      ensures from <= ms[k].start <= |s| && MatchAt(pat, s, ms[k].start) == Some((ms[k].end, ms[k].groups))
    {
      if k > 0 {
        assert ms[k] == tail[k - 1];
      }
    }
  }

  lemma ConsInScanOrder(m: Found, tail: seq<Found>)
    requires forall k :: 0 <= k < |tail| ==> Resume(m) <= tail[k].start
    requires InScanOrder(tail)
    ensures InScanOrder([m] + tail)
  {
    var ms := [m] + tail;
    forall i, j | 0 <= i < j < |ms|
      ensures Resume(ms[i]) <= ms[j].start
    {
      assert ms[j] == tail[j - 1];
      if i > 0 {
        assert ms[i] == tail[i - 1];
      }
    }
  }

  lemma ConsCovering(pat: Pattern, s: string, from: nat, m: Found, tail: seq<Found>)
    requires SearchFrom(pat, s, from) == Some(m)
    requires Covering(pat, s, Resume(m), tail)
    ensures Covering(pat, s, from, [m] + tail)
  {
    var ms := [m] + tail;
    forall p | from <= p <= |s| && MatchAt(pat, s, p).Some?
      ensures Covered(ms, p)
    {
      if p < Resume(m) {
        assert ms[0].start <= p < Resume(ms[0]);
      } else {
        assert Covered(tail, p);
        var k :| 0 <= k < |tail| && tail[k].start <= p < Resume(tail[k]);
        assert ms[k + 1] == tail[k];
      }
    }
  }

  /** Two lists that both satisfy `SuccessiveMatches` from the same position are the same list. */
  lemma {:induction false} SuccessiveMatchesUnique(pat: Pattern, s: string, from: nat, a: seq<Found>, b: seq<Found>)
    requires SuccessiveMatches(pat, s, from, a) && SuccessiveMatches(pat, s, from, b)
    ensures a == b
    decreases |a| + |b|
  {
    assert MatchedAt(pat, s, from, a) && MatchedAt(pat, s, from, b);
    if a != [] && b != [] {
      SameFirst(pat, s, from, a, b);
      TailSuccessive(pat, s, from, a);
      TailSuccessive(pat, s, from, b);
      SuccessiveMatchesUnique(pat, s, Resume(a[0]), a[1..], b[1..]);
      assert a == [a[0]] + a[1..] && b == [b[0]] + b[1..];
    } else if a != [] {
      FirstCovered(pat, s, from, a, b);
      assert false;
    } else if b != [] {
      FirstCovered(pat, s, from, b, a);
      assert false;
    }
  }

  /** A position where the pattern matches lies inside the `k`-th match of a covering list, for some `k`. */
  lemma CoveringMatch(pat: Pattern, s: string, from: nat, ms: seq<Found>, p: nat) returns (k: nat)
    requires Covering(pat, s, from, ms) && from <= p <= |s| && MatchAt(pat, s, p).Some?
    ensures k < |ms| && ms[k].start <= p < Resume(ms[k])
  {
    assert Covered(ms, p);
    k :| 0 <= k < |ms| && ms[k].start <= p < Resume(ms[k]);
  }

  /** The first match of one list lies inside a match of any list that covers from the same position. */
  lemma FirstCovered(pat: Pattern, s: string, from: nat, a: seq<Found>, b: seq<Found>)
    requires a != [] && MatchedAt(pat, s, from, a) && Covering(pat, s, from, b)
    ensures Covered(b, a[0].start)
  {
    assert from <= a[0].start <= |s| && MatchAt(pat, s, a[0].start).Some?;
  }

  /** Both lists start with the leftmost match. */
  lemma SameFirst(pat: Pattern, s: string, from: nat, a: seq<Found>, b: seq<Found>)
    requires a != [] && b != []
    requires SuccessiveMatches(pat, s, from, a) && SuccessiveMatches(pat, s, from, b)
    ensures a[0] == b[0]
  {
    FirstCovered(pat, s, from, a, b);
    FirstCovered(pat, s, from, b, a);
    FirstIsLeftmost(b, a[0].start);
    FirstIsLeftmost(a, b[0].start);
    assert MatchedAt(pat, s, from, a) && MatchedAt(pat, s, from, b);
    assert MatchAt(pat, s, a[0].start) == Some((a[0].end, a[0].groups));
    assert MatchAt(pat, s, b[0].start) == Some((b[0].end, b[0].groups));
  }

  /** A position inside one of the matches is not left of the first. */
  lemma FirstIsLeftmost(ms: seq<Found>, p: nat)
    requires ms != [] && InScanOrder(ms) && Covered(ms, p)
    ensures ms[0].start <= p
  {
    var k :| 0 <= k < |ms| && ms[k].start <= p < Resume(ms[k]);
    if k > 0 {
      assert Resume(ms[0]) <= ms[k].start;
    }
  }

  /** After the first reported match, the rest are the successive matches from where the scan resumes. */
  lemma TailSuccessive(pat: Pattern, s: string, from: nat, ms: seq<Found>)
    requires ms != [] && SuccessiveMatches(pat, s, from, ms)
    ensures SuccessiveMatches(pat, s, Resume(ms[0]), ms[1..])
  {
    var next, tail := Resume(ms[0]), ms[1..];
    assert MatchedAt(pat, s, from, ms) && InScanOrder(ms) && Covering(pat, s, from, ms);
    forall k | 0 <= k < |tail|
      ensures next <= tail[k].start <= |s| && MatchAt(pat, s, tail[k].start) == Some((tail[k].end, tail[k].groups))
    {
      assert tail[k] == ms[k + 1];
    }
    forall i, j | 0 <= i < j < |tail|
      ensures Resume(tail[i]) <= tail[j].start
    {
      assert tail[i] == ms[i + 1] && tail[j] == ms[j + 1];
    }
    forall p | next <= p <= |s| && MatchAt(pat, s, p).Some?
      ensures Covered(tail, p)
    {
      assert Covered(ms, p);
      var k :| 0 <= k < |ms| && ms[k].start <= p < Resume(ms[k]);
      if k == 0 {
        assert false;
      }
      assert tail[k - 1] == ms[k];
    }
  }

  /** The capturing tokens of a pattern in order: the class each group is made of. */
  function CaptureTokens(pat: Pattern): (r: seq<Token>)
    ensures |r| == CaptureCount(pat)
    ensures forall k :: 0 <= k < |r| ==> r[k].Digits? || r[k].Word? || r[k].NotClose?
  {
    if pat == [] then []
    else (if pat[0].Digits? || pat[0].Word? || pat[0].NotClose? then [pat[0]] else []) + CaptureTokens(pat[1..])
  }

  lemma {:induction false} CaptureTokensAppend(a: Pattern, b: Pattern)
    ensures CaptureTokens(a + b) == CaptureTokens(a) + CaptureTokens(b)
    decreases |a|
  {
    if a != [] {
      assert (a + b)[1..] == a[1..] + b;
      CaptureTokensAppend(a[1..], b);
    } else {
      assert a + b == b;
    }
  }

  /** Literals and whitespace capture nothing. */
  lemma {:induction false} PlainCapturesNothing(pat: Pattern)
    requires forall k :: 0 <= k < |pat| ==> pat[k].Lit? || pat[k].Spaces?
    ensures CaptureTokens(pat) == []
    decreases |pat|
  {
    if pat != [] {
      assert pat[0].Lit? || pat[0].Spaces?;
      PlainCapturesNothing(pat[1..]);
    }
  }

  /** A pattern of plain tokens around one capturing token captures that token's group. */
  lemma {:induction false} OneCapture(before: Pattern, t: Token, after: Pattern)
    requires forall k :: 0 <= k < |before| ==> before[k].Lit? || before[k].Spaces?
    requires forall k :: 0 <= k < |after| ==> after[k].Lit? || after[k].Spaces?
    requires t.Digits? || t.Word? || t.NotClose?
    ensures CaptureTokens(before + [t] + after) == [t]
  {
    var tail := [t] + after;
    PlainCapturesNothing(after);
    assert tail[0] == t && tail[1..] == after;
    assert CaptureTokens(tail) == [t] + CaptureTokens(after);
    PlainCapturesNothing(before);
    CaptureTokensAppend(before, tail);
    assert before + [t] + after == before + tail;
  }

  /** Every group a match captures is a non-empty run of its token's class. */
  predicate GroupsInClass(pat: Pattern, groups: seq<string>)
  {
    |groups| == |CaptureTokens(pat)| &&
    forall k :: 0 <= k < |groups| ==>
      groups[k] != [] && forall c :: 0 <= c < |groups[k]| ==> InClass(CaptureTokens(pat)[k], groups[k][c])
  }

  lemma {:induction false} CapturedInClass(pat: Pattern, s: string, i: nat)
    requires i <= |s| && MatchAt(pat, s, i).Some?
    ensures GroupsInClass(pat, MatchAt(pat, s, i).value.1)
    decreases pat
  {
    if pat != [] {
      var t := pat[0];
      var rest := pat[1..];
      if t.Lit? {
        assert MatchAt(pat, s, i) == MatchAt(rest, s, i + |t.text|);
        CapturedInClass(rest, s, i + |t.text|);
      } else if t.Spaces? {
        CapturedInClass(rest, s, RunEnd(t, s, i));
      } else {
        var j := RunEnd(t, s, i);
        CapturedInClass(rest, s, j);
        var g := MatchAt(rest, s, j).value.1;
        assert MatchAt(pat, s, i).value.1 == [s[i..j]] + g;
        GroupsCons(pat, s[i..j], g);
      }
    }
  }

  /** A run of the first token's class in front of the rest's groups gives the whole pattern's groups. */
  lemma GroupsCons(pat: Pattern, first: string, g: seq<string>)
    requires pat != [] && (pat[0].Digits? || pat[0].Word? || pat[0].NotClose?)
    requires first != [] && forall c :: 0 <= c < |first| ==> InClass(pat[0], first[c])
    requires GroupsInClass(pat[1..], g)
    ensures GroupsInClass(pat, [first] + g)
  {
    var tokens := CaptureTokens(pat);
    assert tokens == [pat[0]] + CaptureTokens(pat[1..]);
    var gs := [first] + g;
    forall k | 0 <= k < |gs|
      ensures gs[k] != [] && forall c :: 0 <= c < |gs[k]| ==> InClass(tokens[k], gs[k][c])
    {
      if k > 0 {
        assert gs[k] == g[k - 1] && tokens[k] == CaptureTokens(pat[1..])[k - 1];
      }
    }
  }

  /** Every match `re.findall` returns has its groups in their classes. */
  lemma {:induction false} FoundInClass(pat: Pattern, s: string, from: nat)
    ensures forall k :: 0 <= k < |FindAllFrom(pat, s, from)| ==> GroupsInClass(pat, FindAllFrom(pat, s, from)[k])
    decreases |s| + 1 - from
  {
    match SearchFrom(pat, s, from)
    case None =>
    case Some(m) =>
      CapturedInClass(pat, s, m.start);
      FoundInClass(pat, s, if m.end > m.start then m.end else m.start + 1);
  }

  /** `\d+`, the pattern of `re.findall(r'\d+', line)`. */
  const DigitRun: Pattern := [Digits]

  /** The digit runs of `s`, left to right (`re.findall(r'\d+', s)`). */
  function DigitRuns(s: string): (r: seq<string>)
    ensures forall k :: 0 <= k < |r| ==> r[k] != [] && AllDigits(r[k])
  {
    var gs := FindAll(DigitRun, s);
    DigitRunsAreNumerals(s, 0);
    seq(|gs|, k requires 0 <= k < |gs| => gs[k][0])
  }

  /** The single-group pattern `\d+` matches exactly the maximal digit run it starts on. */
  lemma DigitRunMatch(s: string, i: nat)
    requires i <= |s| && MatchAt(DigitRun, s, i).Some?
    ensures var (e, g) := MatchAt(DigitRun, s, i).value;
      i < e && g == [s[i..e]] && AllDigits(s[i..e]) && (e < |s| ==> !IsDigit(s[e]))
  {
    var j := RunEnd(Digits, s, i);
    assert DigitRun[0] == Digits && DigitRun[1..] == [];
    assert j != i;
    assert MatchAt(DigitRun[1..], s, j) == Some((j, []));
    assert MatchAt(DigitRun, s, i).value.0 == j;
    assert MatchAt(DigitRun, s, i).value.1 == [s[i..j]] + [];
  }

  /** Every element `re.findall(r'\d+', s)` returns is a non-empty run of digits. */
  lemma {:induction false} DigitRunsAreNumerals(s: string, from: nat)
    ensures forall k :: 0 <= k < |FindAllFrom(DigitRun, s, from)| ==>
      var g := FindAllFrom(DigitRun, s, from)[k]; g[0] != [] && AllDigits(g[0])
    decreases |s| + 1 - from
  {
    match SearchFrom(DigitRun, s, from)
    case None =>
    case Some(m) =>
      DigitRunMatch(s, m.start);
      DigitRunsAreNumerals(s, if m.end > m.start then m.end else m.start + 1);
  }

  /** `s[i..j]` is a maximal run of digits: it cannot be extended on either side. */
  predicate MaximalDigitRun(s: string, i: nat, j: nat)
  {
    i < j <= |s| && AllDigits(s[i..j]) && (i == 0 || !IsDigit(s[i - 1])) && (j == |s| || !IsDigit(s[j]))
  }

  /** `\d+` matches at every digit. */
  lemma DigitStartsMatch(s: string, q: nat)
    requires q < |s| && IsDigit(s[q])
    ensures MatchAt(DigitRun, s, q).Some?
  {
    var j := RunEnd(Digits, s, q);
    assert DigitRun[0] == Digits && DigitRun[1..] == [];
    assert MatchAt(DigitRun[1..], s, j) == Some((j, []));
  }

  /** A reported `\d+` match is a maximal digit run: no digit precedes it. */
  lemma ReportedRunMaximal(s: string, ms: seq<Found>, k: nat)
    requires SuccessiveMatches(DigitRun, s, 0, ms) && k < |ms|
    ensures MaximalDigitRun(s, ms[k].start, ms[k].end)
  {
    assert MatchedAt(DigitRun, s, 0, ms) && InScanOrder(ms) && Covering(DigitRun, s, 0, ms);
    var i := ms[k].start;
    assert MatchAt(DigitRun, s, i) == Some((ms[k].end, ms[k].groups));
    DigitRunMatch(s, i);
    if i > 0 && IsDigit(s[i - 1]) {
      DigitStartsMatch(s, i - 1);
      var k' := CoveringMatch(DigitRun, s, 0, ms, i - 1);
      if k' < k {
        ReportedRunsApart(s, ms, k', k);
      }
      assert false;
    }
  }

  /** Two reported `\d+` matches have a non-digit between them. */
  lemma ReportedRunsApart(s: string, ms: seq<Found>, i: nat, j: nat)
    requires SuccessiveMatches(DigitRun, s, 0, ms) && i < j < |ms|
    ensures ms[i].end < ms[j].start
  {
    assert MatchedAt(DigitRun, s, 0, ms) && InScanOrder(ms);
    assert MatchAt(DigitRun, s, ms[i].start) == Some((ms[i].end, ms[i].groups));
    assert MatchAt(DigitRun, s, ms[j].start) == Some((ms[j].end, ms[j].groups));
    DigitRunMatch(s, ms[i].start);
    DigitRunMatch(s, ms[j].start);
    assert Resume(ms[i]) == ms[i].end <= ms[j].start;
    assert IsDigit(s[ms[j].start]) by {
      assert s[ms[j].start] == s[ms[j].start..ms[j].end][0];
    }
  }

  /** Every digit lies inside a reported `\d+` match. */
  lemma DigitInReportedRun(s: string, ms: seq<Found>, p: nat)
    requires SuccessiveMatches(DigitRun, s, 0, ms) && p < |s| && IsDigit(s[p])
    ensures exists k :: 0 <= k < |ms| && ms[k].start <= p < ms[k].end
  {
    assert Covering(DigitRun, s, 0, ms);
    DigitStartsMatch(s, p);
    assert Covered(ms, p);
    var k :| 0 <= k < |ms| && ms[k].start <= p < Resume(ms[k]);
    ReportedRunMaximal(s, ms, k);
  }

  /** The `k`-th digit run is the text of the `k`-th reported match. */
  lemma DigitRunIsMatchText(s: string, k: nat)
    requires k < |MatchesFrom(DigitRun, s, 0)|
    ensures var m := MatchesFrom(DigitRun, s, 0)[k]; k < |DigitRuns(s)| && DigitRuns(s)[k] == s[m.start..m.end]
  {
    var ms := MatchesFrom(DigitRun, s, 0);
    MatchesFromSuccessive(DigitRun, s, 0);
    FindAllGroups(DigitRun, s, 0);
    assert MatchedAt(DigitRun, s, 0, ms);
    assert MatchAt(DigitRun, s, ms[k].start) == Some((ms[k].end, ms[k].groups));
    DigitRunMatch(s, ms[k].start);
    assert FindAll(DigitRun, s)[k] == ms[k].groups;
  }

  /**
   * `re.findall(r'\d+', s)` is every maximal digit run of `s`, left to
   * right: the runs are separated by at least one non-digit, and every
   * digit of `s` lies in one of them.
   */
  lemma DigitRunsMaximal(s: string)
    ensures var ms := MatchesFrom(DigitRun, s, 0);
      && |DigitRuns(s)| == |ms|
      && (forall k :: 0 <= k < |ms| ==>
            MaximalDigitRun(s, ms[k].start, ms[k].end) && DigitRuns(s)[k] == s[ms[k].start..ms[k].end])
      && (forall i, j :: 0 <= i < j < |ms| ==> ms[i].end < ms[j].start)
      && (forall p :: 0 <= p < |s| && IsDigit(s[p]) ==> exists k :: 0 <= k < |ms| && ms[k].start <= p < ms[k].end)
  {
    var ms := MatchesFrom(DigitRun, s, 0);
    MatchesFromSuccessive(DigitRun, s, 0);
    FindAllGroups(DigitRun, s, 0);
    forall k | 0 <= k < |ms|
      ensures MaximalDigitRun(s, ms[k].start, ms[k].end) && DigitRuns(s)[k] == s[ms[k].start..ms[k].end]
    {
      ReportedRunMaximal(s, ms, k);
      DigitRunIsMatchText(s, k);
    }
    forall i, j | 0 <= i < j < |ms|
      ensures ms[i].end < ms[j].start
    {
      ReportedRunsApart(s, ms, i, j);
    }
    forall p | 0 <= p < |s| && IsDigit(s[p])
      ensures exists k :: 0 <= k < |ms| && ms[k].start <= p < ms[k].end
    {
      DigitInReportedRun(s, ms, p);
    }
  }

  /**
   * The group of `open(.*?)close` under `re.DOTALL`: the leftmost `open`
   * that some `close` follows, and the text up to the first such `close`.
   */
  function LazyGroup(s: string, open: string, close: string): (r: Option<string>)
    ensures r.Some? ==> IndexOf(s, open, 0).Some?
    ensures r.Some? ==>
      var a := IndexOf(s, open, 0).value + |open|;
      && OccursAt(s, r.value, a)
      && OccursAt(s, close, a + |r.value|)
      && forall k :: a <= k < a + |r.value| ==> !OccursAt(s, close, k)
    ensures r.None? <==>
      forall i: nat, j: nat :: OccursAt(s, open, i) && i + |open| <= j ==> !OccursAt(s, close, j)
  {
    match IndexOf(s, open, 0)
    case None => None
    case Some(i) =>
      match IndexOf(s, close, i + |open|)
      case None => None
      case Some(j) =>
        var g := s[i + |open|..j];
        assert OccursAt(s, g, i + |open|);
        Some(g)
  }

  /**
   * A counting pattern: literals and whitespace followed by one final
   * `(\d+)` group, like `True -> False:\s+(\d+)`.
   */
  predicate CountingPattern(pat: Pattern)
  {
    |pat| >= 1 && pat[|pat| - 1] == Digits
    && forall k :: 0 <= k < |pat| - 1 ==> pat[k].Lit? || pat[k].Spaces?
  }

  /** A counting pattern captures exactly one group, a non-empty run of digits. */
  lemma {:induction false} CountingCapture(pat: Pattern, s: string, i: nat)
    requires CountingPattern(pat) && i <= |s| && MatchAt(pat, s, i).Some?
    ensures var g := MatchAt(pat, s, i).value.1; |g| == 1 && g[0] != [] && AllDigits(g[0])
    decreases pat
  {
    if |pat| == 1 {
      assert pat == DigitRun;
      DigitRunMatch(s, i);
    } else {
      var t := pat[0];
      assert t.Lit? || t.Spaces?;
      var rest := pat[1..];
      assert CountingPattern(rest) by {
        assert rest[|rest| - 1] == pat[|pat| - 1];
        forall k | 0 <= k < |rest| - 1 ensures rest[k].Lit? || rest[k].Spaces? {
          assert rest[k] == pat[k + 1];
        }
      }
      match t
      case Lit(l) =>
        assert MatchAt(pat, s, i) == MatchAt(rest, s, i + |l|);
        CountingCapture(rest, s, i + |l|);
      case Spaces(plus) =>
        var j := RunEnd(t, s, i);
        assert MatchAt(pat, s, i) == MatchAt(rest, s, j);
        CountingCapture(rest, s, j);
    }
  }

  // ---------------------------------------------------------------------
  // re.split(r'=== (CRASH SECTION|NO CRASH SECTION|FINAL SUMMARY) ===', content)

  const HeaderNames: seq<string> := ["CRASH SECTION", "NO CRASH SECTION", "FINAL SUMMARY"]

  function Marker(h: nat): (m: string)
    requires h < |HeaderNames|
    ensures |m| > 0
  {
    "=== " + HeaderNames[h] + " ==="
  }

  /** The first of the alternatives `h`, `h + 1`, ... that matches at position `i`. */
  function HeaderFrom(s: string, i: nat, h: nat): (r: Option<nat>)
    requires h <= |HeaderNames|
    ensures r.Some? ==> h <= r.value < |HeaderNames| && OccursAt(s, Marker(r.value), i)
    ensures r.Some? ==> forall g :: h <= g < r.value ==> !OccursAt(s, Marker(g), i)
    ensures r.None? ==> forall g :: h <= g < |HeaderNames| ==> !OccursAt(s, Marker(g), i)
    decreases |HeaderNames| - h
  {
    if h == |HeaderNames| then None
    else if OccursAt(s, Marker(h), i) then Some(h)
    else HeaderFrom(s, i, h + 1)
  }

  /** The alternative that matches at position `i`, tried in the pattern's order. */
  function HeaderAt(s: string, i: nat): (r: Option<nat>)
    ensures r.Some? ==> r.value < |HeaderNames| && OccursAt(s, Marker(r.value), i)
    ensures r.None? ==> forall h :: 0 <= h < |HeaderNames| ==> !OccursAt(s, Marker(h), i)
  {
    HeaderFrom(s, i, 0)
  }

  /** No marker starts at or after the end of the text. */
  lemma NoHeaderPastEnd(s: string, from: nat)
    requires from >= |s|
    ensures forall k :: from <= k ==> HeaderAt(s, k).None?
  {
    forall k | from <= k ensures HeaderAt(s, k).None? {
      forall h | 0 <= h < |HeaderNames| ensures !OccursAt(s, Marker(h), k) {
        assert |Marker(h)| > 0;
      }
    }
  }

  /** Leftmost header marker at or after `from`: its position and which header it is. */
  function FirstHeader(s: string, from: nat): (r: Option<(nat, nat)>)
    ensures r.Some? ==> from <= r.value.0 && HeaderAt(s, r.value.0) == Some(r.value.1)
    ensures r.Some? ==> forall k :: from <= k < r.value.0 ==> HeaderAt(s, k).None?
    ensures r.None? ==> forall k :: from <= k ==> HeaderAt(s, k).None?
    decreases |s| - from
  {
    if from >= |s| then
      NoHeaderPastEnd(s, from);
      None
    else match HeaderAt(s, from)
      case Some(h) => Some((from, h))
      case None => FirstHeader(s, from + 1)
  }

  /**
   * The result of `re.split` with one capturing group, kept structured: the
   * text before the first marker, then for every marker the header it
   * captured (an index into `HeaderNames`) and the text up to the next one.
   */
  datatype SectionSplit = SectionSplit(lead: string, parts: seq<(nat, string)>)
  {
    ghost predicate Valid()
    {
      forall k :: 0 <= k < |parts| ==> parts[k].0 < |HeaderNames|
    }

    /** The flat list Python returns: `[lead, name1, text1, name2, text2, ...]`. */
    function Pieces(): (r: seq<string>)
      requires Valid()
      ensures |r| == 1 + 2 * |parts|
      decreases |parts|
    {
      if parts == [] then [lead]
      else
        var rest := SectionSplit(parts[0].1, parts[1..]).Pieces();
        [lead, HeaderNames[parts[0].0]] + rest
    }

    /** Put every captured marker back between its neighbours. */
    function Rejoin(): string
      requires Valid()
      decreases |parts|
    {
      if parts == [] then lead
      else lead + Marker(parts[0].0) + SectionSplit(parts[0].1, parts[1..]).Rejoin()
    }
  }

  function SplitAt(s: string): (r: SectionSplit)
    ensures r.Valid()
    decreases |s|
  {
    match FirstHeader(s, 0)
    case None => SectionSplit(s, [])
    case Some((i, h)) =>
      var rest := SplitAt(s[i + |Marker(h)|..]);
      SectionSplit(s[..i], [(h, rest.lead)] + rest.parts)
  }

  /** `re.split(r'=== (CRASH SECTION|NO CRASH SECTION|FINAL SUMMARY) ===', s)`. */
  function SplitSections(s: string): seq<string>
  {
    SplitAt(s).Pieces()
  }

  /** Splitting loses nothing: the pieces and the markers they captured make up the text. */
  lemma {:induction false} SplitRejoin(s: string)
    ensures SplitAt(s).Rejoin() == s
    decreases |s|
  {
    match FirstHeader(s, 0)
    case None =>
    case Some((i, h)) =>
      var m := Marker(h);
      var tail := s[i + |m|..];
      var rest := SplitAt(tail);
      var parts := [(h, rest.lead)] + rest.parts;
      assert SplitAt(s) == SectionSplit(s[..i], parts);
      assert parts[0] == (h, rest.lead) && parts[1..] == rest.parts;
      assert SplitAt(s).Rejoin() == s[..i] + m + rest.Rejoin();
      SplitRejoin(tail);
      Reassemble(s, m, i);
  }

  lemma Reassemble(s: string, m: string, i: nat)
    requires OccursAt(s, m, i)
    ensures s == s[..i] + m + s[i + |m|..]
  {
    assert s == s[..i] + s[i..i + |m|] + s[i + |m|..];
  }

  /** No header marker occurs anywhere in `s`. */
  predicate NoMarker(s: string)
  {
    FirstHeader(s, 0).None?
  }

  lemma NoMarkerIff(s: string)
    ensures NoMarker(s) <==> forall i: nat, h :: 0 <= h < |HeaderNames| ==> !OccursAt(s, Marker(h), i)
  {
    if NoMarker(s) {
      forall i: nat, h | 0 <= h < |HeaderNames| ensures !OccursAt(s, Marker(h), i) {
        assert HeaderAt(s, i).None?;
      }
    }
    if !NoMarker(s) {
      var (q, h) := FirstHeader(s, 0).value;
      assert OccursAt(s, Marker(h), q);
    }
  }

  /** The text before the first marker holds no marker. */
  lemma SplitLeadHasNoMarker(s: string)
    ensures NoMarker(SplitAt(s).lead)
  {
    match FirstHeader(s, 0)
    case None =>
      assert SplitAt(s).lead == s;
    case Some((p, h)) =>
      assert SplitAt(s).lead == s[..p];
      PrefixHasNoMarker(s, p);
  }

  /** None of the texts of `parts` holds a marker. */
  predicate TextsClean(parts: seq<(nat, string)>)
    decreases |parts|
  {
    parts != [] ==> NoMarker(parts[0].1) && TextsClean(parts[1..])
  }

  lemma {:induction false} TextsCleanAt(parts: seq<(nat, string)>, k: nat)
    requires TextsClean(parts) && k < |parts|
    ensures NoMarker(parts[k].1)
    decreases k
  {
    if k > 0 {
      TextsCleanAt(parts[1..], k - 1);
    }
  }

  lemma {:induction false} SplitTextsClean(s: string)
    ensures TextsClean(SplitAt(s).parts)
    decreases |s|
  {
    match FirstHeader(s, 0)
    case None =>
      assert SplitAt(s).parts == [];
    case Some((p, h)) =>
      var tail := SplitStep(s);
      SplitTextsClean(tail);
      SplitLeadHasNoMarker(tail);
      CleanCons(h, SplitAt(tail).lead, SplitAt(tail).parts);
  }

  /** One step of the split: the first marker, then the split of what follows it. */
  lemma SplitStep(s: string) returns (tail: string)
    requires FirstHeader(s, 0).Some?
    ensures |tail| < |s|
    ensures SplitAt(s).parts == [(FirstHeader(s, 0).value.1, SplitAt(tail).lead)] + SplitAt(tail).parts
  {
    var first := FirstHeader(s, 0).value;
    var p, h := first.0, first.1;
    assert HeaderAt(s, p) == Some(h);
    assert OccursAt(s, Marker(h), p);
    tail := s[p + |Marker(h)|..];
    var rest := SplitAt(tail);
    assert SplitAt(s).parts == [(h, rest.lead)] + rest.parts;
  }

  lemma CleanCons(h: nat, lead: string, parts: seq<(nat, string)>)
    requires NoMarker(lead) && TextsClean(parts)
    ensures TextsClean([(h, lead)] + parts)
  {
    assert ([(h, lead)] + parts)[1..] == parts;
  }

  /** The text pieces of a split hold no marker: every marker became a separator. */
  lemma SplitTextsHaveNoMarker(s: string)
    ensures forall k :: 0 <= k < |SplitAt(s).parts| ==> NoMarker(SplitAt(s).parts[k].1)
  {
    var parts := SplitAt(s).parts;
    SplitTextsClean(s);
    forall k | 0 <= k < |parts| ensures NoMarker(parts[k].1) {
      TextsCleanAt(parts, k);
    }
  }

  /** No marker starts in `s[..p]` when none starts in `s` before `p`. */
  lemma PrefixHasNoMarker(s: string, p: nat)
    requires p <= |s|
    requires forall k :: 0 <= k < p ==> HeaderAt(s, k).None?
    ensures NoMarker(s[..p])
  {
    var piece := s[..p];
    forall i: nat, h | 0 <= h < |HeaderNames| ensures !OccursAt(piece, Marker(h), i) {
      if i + |Marker(h)| <= p {
        assert piece[i..i + |Marker(h)|] == s[i..i + |Marker(h)|];
        assert HeaderAt(s, i).None?;
      }
    }
    NoMarkerIff(piece);
  }

  /** Strip each piece and keep the non-empty ones (`[s.strip() for s in pieces if s.strip()]`). */
  function StripNonEmpty(pieces: seq<string>): (r: seq<string>)
    ensures |r| <= |pieces|
    ensures forall x <- r :: x != [] && Strip(x) == x
  {
    if pieces == [] then []
    else
      var t := Strip(pieces[0]);
      assert t != [] ==> Strip(t) == t by {
        if t != [] { StripUnchanged(t); }
      }
      (if t != [] then [t] else []) + StripNonEmpty(pieces[1..])
  }

  /** The `sections` list the analysis scripts work from. */
  function Sections(content: string): seq<string>
  {
    StripNonEmpty(SplitSections(content))
  }
}
