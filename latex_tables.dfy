/**
 * The parsing half of
 * Test_1_LOOCV_HC+BIC_unconstrained/tables_Inteligencia_Artificial/latex_tables.py.
 *
 * Unlike the cumulative scripts, this one reads a single repetition
 * (`./<percentage>/cBNs/contingency_table.csv`), finds each section as the
 * piece that follows its header name, and ASSIGNS its counters: a later
 * match replaces an earlier value instead of adding to it. Only the final
 * summary is accumulated over the percentages.
 *
 * The counters of one run form a `Cumulative.Repetition`: per percentage, a
 * crash and a no-crash `SectionTally` (in the no-crash one `safe` is
 * `False_False` and `unsafe` is `False_True`), and the four summary counts.
 */
module LatexTables {
  import opened Wrappers
  import opened PyText
  import opened PyInt
  import opened Regex
  import opened Tables
  import opened ContingencyReport
  import opened TableTotals
  import Cumulative

  // -----------------------------------------------------------------------
  // The section locator

  /** No piece at positions `lo .. n - 1` that has a successor equals `name`. */
  predicate NoHeaderIn(sections: seq<string>, name: string, lo: nat, n: nat)
  {
    forall j :: lo <= j < n && j + 1 < |sections| ==> sections[j] != name
  }

  /**
   * The last of the first `n` pieces that equals `name` and has a piece
   * after it: the occurrence whose successor the locator loop keeps.
   */
  function LastHeader(sections: seq<string>, name: string, n: nat): (r: Option<nat>)
    requires n <= |sections|
    ensures r.Some? ==> r.value < n && r.value + 1 < |sections| && sections[r.value] == name
    ensures r.Some? ==> NoHeaderIn(sections, name, r.value + 1, n)
    ensures r.None? <==> NoHeaderIn(sections, name, 0, n)
    decreases n
  {
    if n == 0 then None
    else if sections[n - 1] == name && n < |sections| then Some(n - 1)
    else LastHeader(sections, name, n - 1)
  }

  /** `sections[i + 1]` for the header piece `i` the loop saw last, if any. */
  function ContentAfter(sections: seq<string>, name: string, n: nat): (r: Option<string>)
    requires n <= |sections|
  {
    match LastHeader(sections, name, n)
    case None => None
    case Some(i) => Some(sections[i + 1])
  }

  /** `crash_content`, `no_crash_content` and `summary_content` (`None` for Python's `None`). */
  datatype Located = Located(crash: Option<string>, noCrash: Option<string>, summary: Option<string>)

  /** What the locator loop holds after visiting the first `n` pieces. */
  function LocatedIn(sections: seq<string>, n: nat): Located
    requires n <= |sections|
  {
    Located(ContentAfter(sections, HeaderNames[0], n), ContentAfter(sections, HeaderNames[1], n),
      ContentAfter(sections, HeaderNames[2], n))
  }

  /**
   * A section's content is the piece right after a piece equal to its header
   * name, the last such piece; a header name that is the final piece, or that
   * never occurs, gives no content.
   */
  lemma ContentFollowsHeader(sections: seq<string>, name: string, i: nat)
    ensures ContentAfter(sections, name, |sections|).None? <==> NoHeaderIn(sections, name, 0, |sections|)
    ensures i + 1 < |sections| && sections[i] == name && NoHeaderIn(sections, name, i + 1, |sections|) ==>
      ContentAfter(sections, name, |sections|) == Some(sections[i + 1])
  {
    var r := LastHeader(sections, name, |sections|);
    if i + 1 < |sections| && sections[i] == name && NoHeaderIn(sections, name, i + 1, |sections|) {
      assert r.Some?;
    }
  }

  /** Visiting one more piece: it becomes the content when it follows the header. */
  lemma ContentAfterStep(sections: seq<string>, name: string, i: nat)
    requires i < |sections|
    ensures ContentAfter(sections, name, i + 1) ==
      if sections[i] == name && i + 1 < |sections| then Some(sections[i + 1]) else ContentAfter(sections, name, i)
  {
  }

  /** The locator loop's state after one more piece. */
  lemma LocatedStep(sections: seq<string>, i: nat)
    requires i < |sections|
    ensures var l := LocatedIn(sections, i);
      LocatedIn(sections, i + 1) ==
        if sections[i] == HeaderNames[0] && i + 1 < |sections| then l.(crash := Some(sections[i + 1]))
        else if sections[i] == HeaderNames[1] && i + 1 < |sections| then l.(noCrash := Some(sections[i + 1]))
        else if sections[i] == HeaderNames[2] && i + 1 < |sections| then l.(summary := Some(sections[i + 1]))
        else l
  {
    assert sections[i] == HeaderNames[0] ==> sections[i] != HeaderNames[1] && sections[i] != HeaderNames[2];
    assert sections[i] == HeaderNames[1] ==> sections[i] != HeaderNames[2];
    ContentAfterStep(sections, HeaderNames[0], i);
    ContentAfterStep(sections, HeaderNames[1], i);
    ContentAfterStep(sections, HeaderNames[2], i);
  }

  /** The loop of lines 61-67. */
  method LocateSections(sections: seq<string>) returns (l: Located)
    ensures l == LocatedIn(sections, |sections|)
  {
    l := Located(None, None, None);
    var i := 0;
    while i < |sections|
      invariant 0 <= i <= |sections|
      invariant l == LocatedIn(sections, i)
    {
      var section := sections[i];
      LocatedStep(sections, i);
      if section == HeaderNames[0] && i + 1 < |sections| {
        l := l.(crash := Some(sections[i + 1]));
      } else if section == HeaderNames[1] && i + 1 < |sections| {
        l := l.(noCrash := Some(sections[i + 1]));
      } else if section == HeaderNames[2] && i + 1 < |sections| {
        l := l.(summary := Some(sections[i + 1]));
      }
      i := i + 1;
    }
  }

  // -----------------------------------------------------------------------
  // Assigned counters

  /** `m = re.search(pat, s); if m: counter = safe_int_convert(m.group(1))`. */
  function Assigned(counter: nat, pat: Pattern, s: string): (r: nat)
    requires CountingPattern(pat)
  {
    match Captured(pat, s)
    case None => counter
    case Some(v) => v
  }

  /** Tie counter `j` after the tie loop: the count of "exactly j+1 best interventions:", when present. */
  function AssignedTie(counter: nat, content: string, j: nat): nat
    requires j < TieKinds
  {
    Assigned(counter, TiePattern(j + 1), content)
  }

  /** The tie loop of lines 74-78 (and 109-113) applied to `ties`. */
  function AssignedTies(ties: seq<nat>, content: string): (r: seq<nat>)
    requires |ties| == TieKinds
    ensures |r| == TieKinds
    ensures forall j :: 0 <= j < TieKinds ==> r[j] == AssignedTie(ties[j], content, j)
  {
    seq(TieKinds, j requires 0 <= j < TieKinds => AssignedTie(ties[j], content, j))
  }

  /** `(\w+(?:_\w+)*)\s*:\s*`: the action name and its colon. */
  function ActionName(): (pat: Pattern)
    ensures CaptureTokens(pat) == [Word]
  {
    OneCapture([], Word, [Spaces(false), Lit(":"), Spaces(false)]);
    [Word] + [Spaces(false), Lit(":"), Spaces(false)]
  }

  /** `<heading>\s+(\d+)\s*times` and the `,\s*` that may follow it. */
  function ActionField(heading: string, last: bool): (pat: Pattern)
    ensures CaptureTokens(pat) == [Digits]
  {
    var after := if last then [Spaces(false), Lit("times")] else [Spaces(false), Lit("times,"), Spaces(false)];
    OneCapture([Lit(heading), Spaces(true)], Digits, after);
    [Lit(heading), Spaces(true)] + [Digits] + after
  }

  lemma NameAndThreeFields(name: Pattern, f1: Pattern, f2: Pattern, f3: Pattern)
    requires CaptureTokens(name) == [Word]
    requires CaptureTokens(f1) == CaptureTokens(f2) == CaptureTokens(f3) == [Digits]
    ensures CaptureTokens(name + f1 + f2 + f3) == [Word, Digits, Digits, Digits]
  {
    CaptureTokensAppend(name, f1);
    CaptureTokensAppend(name + f1, f2);
    CaptureTokensAppend(name + f1 + f2, f3);
  }

  /**
   * `(\w+(?:_\w+)*)\s*:\s*Selected\s+(\d+)\s*times,\s*Safe\s+(\d+)\s*times,\s*Unsafe\s+(\d+)\s*times`.
   * `\w` already matches `_`, so `(?:_\w+)*` never extends the greedy `\w+`
   * in a successful match: the name is one word run.
   */
  function ActionLinePattern(): (pat: Pattern)
    ensures CaptureTokens(pat) == [Word, Digits, Digits, Digits]
  {
    var name := ActionName();
    var selected := ActionField("Selected", false);
    var safe := ActionField("Safe", false);
    var unsafe := ActionField("Unsafe", true);
    NameAndThreeFields(name, selected, safe, unsafe);
    name + selected + safe + unsafe
  }

  /** Every tuple of `re.findall` with the action-line pattern: a name and three digit runs. */
  predicate ActionMatches(matches: seq<seq<string>>)
  {
    forall k :: 0 <= k < |matches| ==>
      |matches[k]| == 4 && forall g :: 1 <= g < 4 ==> matches[k][g] != [] && AllDigits(matches[k][g])
  }

  /** Groups captured by a name and three `(\d+)` tokens are a name and three digit runs. */
  lemma FourGroups(pat: Pattern, matches: seq<seq<string>>)
    requires CaptureTokens(pat) == [Word, Digits, Digits, Digits]
    requires forall k :: 0 <= k < |matches| ==> GroupsInClass(pat, matches[k])
    ensures ActionMatches(matches)
  {
    forall k, g | 0 <= k < |matches| && 1 <= g < 4
      ensures |matches[k]| == 4 && matches[k][g] != [] && AllDigits(matches[k][g])
    {
      assert GroupsInClass(pat, matches[k]);
      assert CaptureTokens(pat)[g] == Digits;
    }
  }

  /** `action_lines` of a section. */
  function ActionLines(content: string): (r: seq<seq<string>>)
    ensures ActionMatches(r)
  {
    var pat := ActionLinePattern();
    FoundInClass(pat, content, 0);
    FourGroups(pat, FindAll(pat, content));
    FindAll(pat, content)
  }

  /**
   * `action_lines` holds the groups of every successive leftmost
   * non-overlapping match of the action-line pattern in the section, in order.
   */
  lemma ActionLinesAreAllMatches(content: string)
    ensures var ms := MatchesFrom(ActionLinePattern(), content, 0);
      SuccessiveMatches(ActionLinePattern(), content, 0, ms) && ActionLines(content) == Groups(ms)
  {
    MatchesFromSuccessive(ActionLinePattern(), content, 0);
    FindAllGroups(ActionLinePattern(), content, 0);
  }

  /** `action in valid_actions` picks a distinct counter for each name. */
  lemma ValidActionsDistinct()
    ensures forall a, b :: 0 <= a < b < |ValidActions| ==> ValidActions[a] != ValidActions[b]
  {
  }

  /** Match `k` is the last of `matches` that names action `a`. */
  predicate LastNaming(matches: seq<seq<string>>, a: nat, k: nat)
    requires a < |ValidActions|
    requires ActionMatches(matches)
  {
    k < |matches| && matches[k][0] == ValidActions[a] &&
    forall j :: k < j < |matches| ==> matches[j][0] != ValidActions[a]
  }

  /**
   * Field `g` (1 selected, 2 safe) of the last match that names action `a`,
   * or `None` when no match names it.
   */
  function LastField(matches: seq<seq<string>>, g: nat, a: nat): (r: Option<string>)
    requires 1 <= g < 4 && a < |ValidActions| && ActionMatches(matches)
    ensures r.Some? ==> r.value != [] && AllDigits(r.value)
    decreases |matches|
  {
    if matches == [] then None
    else if matches[|matches| - 1][0] == ValidActions[a] then Some(matches[|matches| - 1][g])
    else LastField(matches[..|matches| - 1], g, a)
  }

  /** An action that no match names keeps its counter. */
  lemma {:induction false} UnnamedKeeps(matches: seq<seq<string>>, g: nat, a: nat)
    requires 1 <= g < 4 && a < |ValidActions| && ActionMatches(matches)
    requires forall j :: 0 <= j < |matches| ==> matches[j][0] != ValidActions[a]
    ensures LastField(matches, g, a) == None
    decreases |matches|
  {
    if matches != [] {
      UnnamedKeeps(matches[..|matches| - 1], g, a);
    }
  }

  /**
   * Assigned, not accumulated: the last match naming an action decides its
   * counter and the earlier ones are overwritten.
   */
  lemma {:induction false} LastMatchWins(matches: seq<seq<string>>, g: nat, a: nat, k: nat)
    requires 1 <= g < 4 && a < |ValidActions| && ActionMatches(matches)
    requires LastNaming(matches, a, k)
    ensures LastField(matches, g, a) == Some(matches[k][g])
    decreases |matches|
  {
    var n := |matches| - 1;
    if k < n {
      var front := matches[..n];
      assert matches[n][0] != ValidActions[a];
      assert LastNaming(front, a, k);
      LastMatchWins(front, g, a, k);
    }
  }

  /** One more match: it decides the field when it names the action. */
  lemma LastFieldStep(matches: seq<seq<string>>, i: nat, g: nat, a: nat)
    requires 1 <= g < 4 && a < |ValidActions| && ActionMatches(matches) && i < |matches|
    ensures LastField(matches[..i + 1], g, a) ==
      if matches[i][0] == ValidActions[a] then Some(matches[i][g]) else LastField(matches[..i], g, a)
  {
    assert matches[..i + 1][..i] == matches[..i];
  }

  /** Counter `g` of action `a` after the loop of lines 85-90 has run on it. */
  function AssignedAction(counter: nat, matches: seq<seq<string>>, g: nat, a: nat): nat
    requires 1 <= g < 4 && a < |ValidActions| && ActionMatches(matches)
  {
    match LastField(matches, g, a)
    case None => counter
    case Some(ds) => Numeral(ds)
  }

  /** The per-action counters of one dictionary after the action loop. */
  function AssignedActions(counters: seq<nat>, matches: seq<seq<string>>, g: nat): (r: seq<nat>)
    requires |counters| == |ValidActions| && 1 <= g < 4
    requires ActionMatches(matches)
    ensures |r| == |ValidActions|
    ensures forall a :: 0 <= a < |ValidActions| ==> r[a] == AssignedAction(counters[a], matches, g, a)
  {
    seq(|ValidActions|, a requires 0 <= a < |ValidActions| => AssignedAction(counters[a], matches, g, a))
  }

  /** The update one match makes: the counter of the valid action it names, if any, takes its group `g`. */
  function AssignMatch(counters: seq<nat>, m: seq<string>, g: nat): seq<nat>
    requires |counters| == |ValidActions| && 1 <= g < 4 && |m| == 4 && m[g] != [] && AllDigits(m[g])
  {
    match ListIndex(ValidActions, m[0])
    case Some(a) => counters[a := Numeral(m[g])]
    case None => counters
  }

  /** One more match sets the counter of the valid action it names, if any, and no other. */
  lemma AssignedActionsStep(counters: seq<nat>, matches: seq<seq<string>>, i: nat, g: nat)
    requires |counters| == |ValidActions| && 1 <= g < 4 && ActionMatches(matches) && i < |matches|
    ensures AssignedActions(counters, matches[..i + 1], g)
      == AssignMatch(AssignedActions(counters, matches[..i], g), matches[i], g)
  {
    ValidActionsDistinct();
    var before := AssignedActions(counters, matches[..i], g);
    var after := AssignedActions(counters, matches[..i + 1], g);
    forall b | 0 <= b < |ValidActions|
      ensures after[b] == if matches[i][0] == ValidActions[b] then Numeral(matches[i][g]) else before[b]
    {
      LastFieldStep(matches, i, g, b);
    }
  }

  /** The loop of lines 85-90: selected and safe counts of every valid action named by a match. */
  method AssignActions(matches: seq<seq<string>>, selected: seq<nat>, safeSelected: seq<nat>)
    returns (selected': seq<nat>, safeSelected': seq<nat>)
    requires |selected| == |ValidActions| && |safeSelected| == |ValidActions|
    requires ActionMatches(matches)
    ensures selected' == AssignedActions(selected, matches, 1)
    ensures safeSelected' == AssignedActions(safeSelected, matches, 2)
  {
    selected', safeSelected' := selected, safeSelected;
    var i := 0;
    while i < |matches|
      invariant 0 <= i <= |matches|
      invariant selected' == AssignedActions(selected, matches[..i], 1)
      invariant safeSelected' == AssignedActions(safeSelected, matches[..i], 2)
    {
      AssignedActionsStep(selected, matches, i, 1);
      AssignedActionsStep(safeSelected, matches, i, 2);
      selected', safeSelected' := AssignOne(matches[i], selected', safeSelected');
      i := i + 1;
    }
    assert matches[..i] == matches;
  }

  /** The body of the loop of lines 85-90 for one match. */
  method AssignOne(m: seq<string>, selected: seq<nat>, safeSelected: seq<nat>)
    returns (selected': seq<nat>, safeSelected': seq<nat>)
    requires |selected| == |ValidActions| && |safeSelected| == |ValidActions|
    requires |m| == 4 && forall g :: 1 <= g < 4 ==> m[g] != [] && AllDigits(m[g])
    ensures selected' == AssignMatch(selected, m, 1) && safeSelected' == AssignMatch(safeSelected, m, 2)
  {
    selected', safeSelected' := selected, safeSelected;
    match ListIndex(ValidActions, m[0]) {
      case Some(a) =>
        selected' := selected'[a := Numeral(m[1])];
        safeSelected' := safeSelected'[a := Numeral(m[2])];
      case None =>
    }
  }

  /** The tie loop of lines 74-78: counter `j` set from "exactly j+1 best interventions:" when present. */
  method AssignTies(ties: seq<nat>, content: string) returns (ties': seq<nat>)
    requires |ties| == TieKinds
    ensures ties' == AssignedTies(ties, content)
  {
    ties' := ties;
    var j := 0;
    while j < TieKinds
      invariant 0 <= j <= TieKinds && |ties'| == TieKinds
      invariant forall k :: 0 <= k < j ==> ties'[k] == AssignedTie(ties[k], content, k)
      invariant forall k :: j <= k < TieKinds ==> ties'[k] == ties[k]
    {
      var m := Captured(TiePattern(j + 1), content);
      if m.Some? {
        ties' := ties'[j := m.value];
      }
      assert ties'[j] == AssignedTie(ties[j], content, j);
      j := j + 1;
    }
  }

  /**
   * One section's counters after the script has processed it, as the
   * section is evidently meant to be read: the two transition counters
   * come from their own lines.
   */
  function AssignedSection(prev: SectionTally, content: string, safeHeading: string, unsafeHeading: string)
    : (t: SectionTally)
    requires prev.WellShaped()
    ensures t.WellShaped()
  {
    var matches := ActionLines(content);
    SectionTally(AssignedTies(prev.ties, content),
      AssignedActions(prev.selected, matches, 1), AssignedActions(prev.safeSelected, matches, 2),
      Assigned(prev.safe, CountPattern(safeHeading), content),
      Assigned(prev.unsafe, CountPattern(unsafeHeading), content))
  }

  /**
   * Processing a section is idempotent: its counters are assigned, so
   * reading the same text again leaves them as they are (an accumulating
   * counter would double).
   */
  lemma AssignedSectionTwice(prev: SectionTally, content: string, safeHeading: string, unsafeHeading: string)
    requires prev.WellShaped()
    ensures var once := AssignedSection(prev, content, safeHeading, unsafeHeading);
      AssignedSection(once, content, safeHeading, unsafeHeading) == once
  {
    var matches := ActionLines(content);
    AssignedActionsTwice(prev.selected, matches, 1);
    AssignedActionsTwice(prev.safeSelected, matches, 2);
    AssignedTiesTwice(prev.ties, content);
  }

  /** The action loop run again over the same matches changes nothing. */
  lemma AssignedActionsTwice(counters: seq<nat>, matches: seq<seq<string>>, g: nat)
    requires |counters| == |ValidActions| && 1 <= g < 4 && ActionMatches(matches)
    ensures AssignedActions(AssignedActions(counters, matches, g), matches, g) == AssignedActions(counters, matches, g)
  {
    var once := AssignedActions(counters, matches, g);
    var twice := AssignedActions(once, matches, g);
    forall a | 0 <= a < |ValidActions| ensures twice[a] == once[a] {
      assert twice[a] == AssignedAction(once[a], matches, g, a);
    }
  }

  /** The tie loop run again over the same text changes nothing. */
  lemma AssignedTiesTwice(ties: seq<nat>, content: string)
    requires |ties| == TieKinds
    ensures AssignedTies(AssignedTies(ties, content), content) == AssignedTies(ties, content)
  {
    var once := AssignedTies(ties, content);
    var twice := AssignedTies(once, content);
    forall j | 0 <= j < TieKinds ensures twice[j] == once[j] {
      assert twice[j] == AssignedTie(once[j], content, j);
    }
  }

  /** Lines 74-101 of one section, statement by statement. */
  method AssignSection(prev: SectionTally, content: string, safeHeading: string, unsafeHeading: string)
    returns (t: SectionTally)
    requires prev.WellShaped()
    ensures t == AssignedSection(prev, content, safeHeading, unsafeHeading)
  {
    var ties := AssignTies(prev.ties, content);
    var selected, safeSelected := AssignActions(ActionLines(content), prev.selected, prev.safeSelected);
    var safe, unsafe := prev.safe, prev.unsafe;
    var safeMatch := Captured(CountPattern(safeHeading), content);
    if safeMatch.Some? {
      safe := safeMatch.value;
    }
    var unsafeMatch := Captured(CountPattern(unsafeHeading), content);
    if unsafeMatch.Some? {
      unsafe := unsafeMatch.value;
    }
    t := SectionTally(ties, selected, safeSelected, safe, unsafe);
  }

  // -----------------------------------------------------------------------
  // The two `print` calls of the transition lines, as written.

  /** The unsafe line of a section matched and the safe one did not, so `safe_match` is `None`. */
  predicate OnlyUnsafeLine(content: string, safeHeading: string, unsafeHeading: string)
  {
    Captured(CountPattern(unsafeHeading), content).Some? && Captured(CountPattern(safeHeading), content).None?
  }

  /** A section's counters after the script has run over it, and whether it raised on the way. */
  datatype Outcome = Outcome(tally: SectionTally, raised: bool)

  /**
   * Lines 70-102 as written: every counter is assigned, then the `print`
   * after the `True -> True` assignment reads `safe_match.group(1)` and
   * raises `AttributeError` when only that line is present.
   */
  function CrashAsWritten(prev: SectionTally, content: string): (o: Outcome)
    requires prev.WellShaped()
    ensures o.tally.WellShaped()
    ensures o.raised <==> OnlyUnsafeLine(content, CrashSafeLabel, CrashUnsafeLabel)
  {
    Outcome(AssignedSection(prev, content, CrashSafeLabel, CrashUnsafeLabel),
      OnlyUnsafeLine(content, CrashSafeLabel, CrashUnsafeLabel))
  }

  /**
   * Lines 105-135 as written: when the `False -> True` line is present,
   * `False_True` is filled from the `False -> False` match; with that match
   * absent the assignment raises before it happens.
   */
  function NoCrashAsWritten(prev: SectionTally, content: string): (o: Outcome)
    requires prev.WellShaped()
    ensures o.tally.WellShaped()
    ensures o.raised <==> OnlyUnsafeLine(content, NoCrashSafeLabel, NoCrashUnsafeLabel)
  {
    var t := AssignedSection(prev, content, NoCrashSafeLabel, NoCrashUnsafeLabel);
    var safeMatch := Captured(CountPattern(NoCrashSafeLabel), content);
    if Captured(CountPattern(NoCrashUnsafeLabel), content).None? then Outcome(t, false)
    else if safeMatch.None? then Outcome(t.(unsafe := prev.unsafe), true)
    else Outcome(t.(unsafe := safeMatch.value), false)
  }

  /**
   * Whenever both no-crash transition lines are present, the script as
   * written stores the `False -> False` count under `False_True`, where the
   * corrected reading stores the `False -> True` count; every other counter
   * agrees.
   */
  lemma FalseTrueCopiesFalseFalse(prev: SectionTally, content: string)
    requires prev.WellShaped()
    requires Captured(CountPattern(NoCrashSafeLabel), content).Some?
    requires Captured(CountPattern(NoCrashUnsafeLabel), content).Some?
    ensures var o := NoCrashAsWritten(prev, content);
      !o.raised && o.tally.unsafe == Captured(CountPattern(NoCrashSafeLabel), content).value
    ensures var t := AssignedSection(prev, content, NoCrashSafeLabel, NoCrashUnsafeLabel);
      t.unsafe == Captured(CountPattern(NoCrashUnsafeLabel), content).value
    ensures NoCrashAsWritten(prev, content).tally
      == AssignedSection(prev, content, NoCrashSafeLabel, NoCrashUnsafeLabel)
           .(unsafe := Captured(CountPattern(NoCrashSafeLabel), content).value)
  {
  }

  /** Without a `False -> True` line the no-crash section as written is the corrected one. */
  lemma NoCrashAsWrittenAgrees(prev: SectionTally, content: string)
    requires prev.WellShaped()
    requires Captured(CountPattern(NoCrashUnsafeLabel), content).None?
    ensures NoCrashAsWritten(prev, content) == Outcome(AssignedSection(prev, content, NoCrashSafeLabel, NoCrashUnsafeLabel), false)
    ensures AssignedSection(prev, content, NoCrashSafeLabel, NoCrashUnsafeLabel).unsafe == prev.unsafe
  {
  }

  // -----------------------------------------------------------------------
  // One report: the three located sections.

  /** The sections the locator finds in a report's text (lines 51-67). */
  function Locate(content: string): Located
  {
    var sections := Sections(content);
    LocatedIn(sections, |sections|)
  }

  /** `if crash_content:`: a section is processed only when found and non-empty. */
  predicate Processed(c: Option<string>)
  {
    c.Some? && c.value != []
  }

  /** The prefix of the final-summary lines this script reads. */
  const RandomSelection: string := "Random selection - "

  /** The count after the final-summary line of transition `k`, or 0 when the line is absent. */
  function PrefixedSummaryCount(prefix: string, content: string, k: nat): nat
    requires k < Transitions
  {
    CapturedOrZero(CountPattern(SummaryLabel(prefix, k)), content)
  }

  /** What the summary loop of lines 141-147 adds to `final_summary`, key by key. */
  function SummaryAdded(prefix: string, content: string): (r: seq<nat>)
    ensures |r| == Transitions
    ensures forall k :: 0 <= k < Transitions ==> r[k] == PrefixedSummaryCount(prefix, content, k)
  {
    seq(Transitions, k requires 0 <= k < Transitions => PrefixedSummaryCount(prefix, content, k))
  }

  /**
   * The effect of the three located sections on a percentage, as evidently
   * meant: its crash and no-crash counters (assigned from the sections
   * present) and what it adds to the final summary.
   */
  function SectionsUpdate(crash: SectionTally, noCrash: SectionTally, l: Located): (t: FileTally)
    requires crash.WellShaped() && noCrash.WellShaped()
    ensures t.WellShaped()
  {
    FileTally(
      if Processed(l.crash) then AssignedSection(crash, l.crash.value, CrashSafeLabel, CrashUnsafeLabel) else crash,
      if Processed(l.noCrash) then AssignedSection(noCrash, l.noCrash.value, NoCrashSafeLabel, NoCrashUnsafeLabel) else noCrash,
      if Processed(l.summary) then SummaryAdded(RandomSelection, l.summary.value) else Zeros(Transitions))
  }

  /** One report, as evidently meant: the located sections applied to the percentage's counters. */
  function ReportUpdate(crash: SectionTally, noCrash: SectionTally, content: string): (t: FileTally)
    requires crash.WellShaped() && noCrash.WellShaped()
    ensures t.WellShaped()
    ensures !Processed(Locate(content).crash) ==> t.crash == crash
    ensures !Processed(Locate(content).noCrash) ==> t.noCrash == noCrash
    ensures !Processed(Locate(content).summary) ==> t.summary == Zeros(Transitions)
  {
    SectionsUpdate(crash, noCrash, Locate(content))
  }

  /**
   * One report as the script is written: an `AttributeError` in a section
   * ends the `try` block, so the sections after it are not processed and
   * nothing is added to the final summary.
   */
  function ReportAsWritten(crash: SectionTally, noCrash: SectionTally, content: string): (t: FileTally)
    requires crash.WellShaped() && noCrash.WellShaped()
    ensures t.WellShaped()
  {
    var l := Locate(content);
    var c := if Processed(l.crash) then CrashAsWritten(crash, l.crash.value) else Outcome(crash, false);
    var n := if c.raised || !Processed(l.noCrash) then Outcome(noCrash, false) else NoCrashAsWritten(noCrash, l.noCrash.value);
    FileTally(c.tally, n.tally,
      if c.raised || n.raised || !Processed(l.summary) then Zeros(Transitions) else SummaryAdded(RandomSelection, l.summary.value))
  }

  /**
   * As written, a crash section with a `True -> True` line and no
   * `True -> False` line stops the report there: the no-crash counters stay
   * as they were and nothing is added to the final summary, where the
   * corrected reading adds the summary section's counts.
   */
  lemma UnsafeOnlyCrashSkipsRest(crash: SectionTally, noCrash: SectionTally, content: string)
    requires crash.WellShaped() && noCrash.WellShaped()
    requires Processed(Locate(content).crash)
    requires OnlyUnsafeLine(Locate(content).crash.value, CrashSafeLabel, CrashUnsafeLabel)
    ensures ReportAsWritten(crash, noCrash, content).crash == ReportUpdate(crash, noCrash, content).crash
    ensures ReportAsWritten(crash, noCrash, content).noCrash == noCrash
    ensures ReportAsWritten(crash, noCrash, content).summary == Zeros(Transitions)
    ensures Processed(Locate(content).summary) ==>
      ReportUpdate(crash, noCrash, content).summary == SummaryAdded(RandomSelection, Locate(content).summary.value)
  {
  }

  /**
   * Where neither defect is reached (the crash section is not cut short and
   * the no-crash section has no `False -> True` line) the script as written
   * and the corrected reading agree on the whole report.
   */
  lemma AsWrittenAgrees(crash: SectionTally, noCrash: SectionTally, content: string)
    requires crash.WellShaped() && noCrash.WellShaped()
    requires Processed(Locate(content).crash) ==> !OnlyUnsafeLine(Locate(content).crash.value, CrashSafeLabel, CrashUnsafeLabel)
    requires Processed(Locate(content).noCrash) ==>
      Captured(CountPattern(NoCrashUnsafeLabel), Locate(content).noCrash.value).None?
    ensures ReportAsWritten(crash, noCrash, content) == ReportUpdate(crash, noCrash, content)
  {
    var l := Locate(content);
    var written, meant := ReportAsWritten(crash, noCrash, content), ReportUpdate(crash, noCrash, content);
    assert meant == SectionsUpdate(crash, noCrash, l);
    assert Processed(l.crash) ==> !CrashAsWritten(crash, l.crash.value).raised;
    assert written.crash == meant.crash;
    if Processed(l.noCrash) {
      NoCrashAsWrittenAgrees(noCrash, l.noCrash.value);
    }
    assert written.noCrash == meant.noCrash;
    assert written.summary == meant.summary;
  }

  /**
   * Reading the same report twice leaves the percentage's counters as the
   * first reading set them, and adds the summary counts a second time.
   */
  lemma ReportUpdateTwice(crash: SectionTally, noCrash: SectionTally, content: string)
    requires crash.WellShaped() && noCrash.WellShaped()
    ensures var once := ReportUpdate(crash, noCrash, content);
      var twice := ReportUpdate(once.crash, once.noCrash, content);
      twice.crash == once.crash && twice.noCrash == once.noCrash && twice.summary == once.summary
  {
    var l := Locate(content);
    if Processed(l.crash) {
      AssignedSectionTwice(crash, l.crash.value, CrashSafeLabel, CrashUnsafeLabel);
    }
    if Processed(l.noCrash) {
      AssignedSectionTwice(noCrash, l.noCrash.value, NoCrashSafeLabel, NoCrashUnsafeLabel);
    }
  }

  /** The summary loop of lines 141-147: `final_summary[transition] += ...` for each key. */
  method AddSummary(summary: seq<nat>, prefix: string, content: string) returns (summary': seq<nat>)
    requires |summary| == Transitions
    ensures summary' == AddSeq(summary, SummaryAdded(prefix, content))
  {
    summary' := summary;
    var k := 0;
    while k < Transitions
      invariant 0 <= k <= Transitions && |summary'| == Transitions
      invariant forall i :: 0 <= i < k ==> summary'[i] == summary[i] + PrefixedSummaryCount(prefix, content, i)
      invariant forall i :: k <= i < Transitions ==> summary'[i] == summary[i]
    {
      var v := AddCaptured(summary'[k], CountPattern(SummaryLabel(prefix, k)), content);
      assert v == summary[k] + PrefixedSummaryCount(prefix, content, k);
      summary' := summary'[k := v];
      k := k + 1;
    }
    ghost var added := SummaryAdded(prefix, content);
    assert forall i :: 0 <= i < Transitions ==> summary'[i] == AddSeq(summary, added)[i];
  }

  /** Lines 70-147 once the sections are located, on one percentage's counters and the summary. */
  method UpdateSections(crash: SectionTally, noCrash: SectionTally, summary: seq<nat>, l: Located)
    returns (crash': SectionTally, noCrash': SectionTally, summary': seq<nat>)
    requires crash.WellShaped() && noCrash.WellShaped() && |summary| == Transitions
    ensures crash'.WellShaped() && noCrash'.WellShaped() && |summary'| == Transitions
    ensures var t := SectionsUpdate(crash, noCrash, l);
      crash' == t.crash && noCrash' == t.noCrash && summary' == AddSeq(summary, t.summary)
  {
    crash', noCrash', summary' := crash, noCrash, summary;
    if l.crash.Some? && l.crash.value != [] {
      crash' := AssignSection(crash, l.crash.value, CrashSafeLabel, CrashUnsafeLabel);
    }
    if l.noCrash.Some? && l.noCrash.value != [] {
      noCrash' := AssignSection(noCrash, l.noCrash.value, NoCrashSafeLabel, NoCrashUnsafeLabel);
    }
    if l.summary.Some? && l.summary.value != [] {
      summary' := AddSummary(summary, RandomSelection, l.summary.value);
    } else {
      Cumulative.AddNothing(summary);
    }
  }

  // -----------------------------------------------------------------------
  // The module-level dictionaries and the percentage loop of lines 28-154.

  /** `os.path.join(os.path.join(base_dir, p, 'cBNs'), "contingency_table.csv")`. */
  function LatexReportPath(p: nat): string
    requires p < |Percentages|
  {
    Cumulative.ReportPath(".", Percentages[p], "contingency_table.csv")
  }

  /**
   * What one path does to its percentage: a report that is missing
   * (`continue`) or cannot be read (the `except`) changes nothing.
   */
  function FileUpdate(crash: SectionTally, noCrash: SectionTally, f: Cumulative.FileState): (t: FileTally)
    requires crash.WellShaped() && noCrash.WellShaped()
    ensures t.WellShaped()
    ensures !f.Present? ==> t == FileTally(crash, noCrash, Zeros(Transitions))
  {
    match f
    case Present(content) => ReportUpdate(crash, noCrash, content)
    case _ => FileTally(crash, noCrash, Zeros(Transitions))
  }

  /** Every percentage's update, starting from the given counters. */
  function Updates(fs: Cumulative.FileSystem, crash: seq<SectionTally>, noCrash: seq<SectionTally>): (u: seq<FileTally>)
    requires |crash| == |Percentages| && |noCrash| == |Percentages|
    requires Cumulative.AllWellShaped(crash) && Cumulative.AllWellShaped(noCrash)
    ensures |u| == |Percentages|
    ensures forall p :: 0 <= p < |Percentages| ==> u[p] == FileUpdate(crash[p], noCrash[p], fs(LatexReportPath(p)))
  {
    seq(|Percentages|, p requires 0 <= p < |Percentages| => FileUpdate(crash[p], noCrash[p], fs(LatexReportPath(p))))
  }

  /** The amounts the reports add to the final summary, one row per percentage. */
  function SummaryRows(u: seq<FileTally>): (t: Table)
    requires forall p :: 0 <= p < |u| ==> u[p].WellShaped()
    ensures |t| == |u| && Rectangular(t, Transitions)
    ensures forall p :: 0 <= p < |u| ==> t[p] == u[p].summary
  {
    var t := seq(|u|, p requires 0 <= p < |u| => u[p].summary);
    assert forall p :: 0 <= p < |u| ==> |t[p]| == Transitions by {
      forall p | 0 <= p < |u| ensures |t[p]| == Transitions {
        assert u[p].WellShaped();
      }
    }
    t
  }

  /** Every percentage's counters at zero (lines 11-19). */
  function Untouched(): (r: seq<SectionTally>)
    ensures |r| == |Percentages| && Cumulative.AllWellShaped(r)
    ensures forall p :: 0 <= p < |r| ==> r[p] == NoSection
  {
    seq(|Percentages|, _ => NoSection)
  }

  /** The counters after the whole loop, starting from zero (lines 11-19). */
  function RunSpec(fs: Cumulative.FileSystem): (rep: Cumulative.Repetition)
    ensures rep.WellShaped()
  {
    var zero := Untouched();
    var u := Updates(fs, zero, zero);
    Cumulative.Repetition(Crashes(u), NoCrashes(u), RowTotals(SummaryRows(u), Transitions))
  }

  /** A report that is missing or unreadable leaves its percentage's counters at zero. */
  lemma MissingReportCountsNothing(fs: Cumulative.FileSystem, p: nat)
    requires p < |Percentages| && !fs(LatexReportPath(p)).Present?
    ensures RunSpec(fs).crash[p] == NoSection && RunSpec(fs).noCrash[p] == NoSection
  {
  }

  /**
   * `final_summary[transition]` is the sum over the percentages of what
   * each report's summary section adds.
   */
  lemma FinalSummaryOverPercentages(fs: Cumulative.FileSystem, k: nat)
    requires k < Transitions
    ensures var zero := Untouched();
      var u := Updates(fs, zero, zero);
      RunSpec(fs).finalSummary[k] == Sum(seq(|Percentages|, p requires 0 <= p < |Percentages| => u[p].summary[k]))
  {
    var zero := Untouched();
    var u := Updates(fs, zero, zero);
    assert RowValues(SummaryRows(u), k) == seq(|Percentages|, p requires 0 <= p < |Percentages| => u[p].summary[k]);
  }

  // -----------------------------------------------------------------------
  // The loop as the script is written, and where it agrees with the
  // corrected reading the model's run follows.

  /** Neither defect of lines 102 and 134 is reached on this report. */
  predicate ClearOfDefects(content: string)
  {
    (Processed(Locate(content).crash) ==> !OnlyUnsafeLine(Locate(content).crash.value, CrashSafeLabel, CrashUnsafeLabel)) &&
    (Processed(Locate(content).noCrash) ==> Captured(CountPattern(NoCrashUnsafeLabel), Locate(content).noCrash.value).None?)
  }

  /** What one path does to its percentage as the script is written. */
  function FileAsWritten(crash: SectionTally, noCrash: SectionTally, f: Cumulative.FileState): (t: FileTally)
    requires crash.WellShaped() && noCrash.WellShaped()
    ensures t.WellShaped()
    ensures !f.Present? ==> t == FileTally(crash, noCrash, Zeros(Transitions))
    ensures f.Present? && ClearOfDefects(f.content) ==> t == FileUpdate(crash, noCrash, f)
  {
    match f
    case Present(content) =>
      (if ClearOfDefects(content) then AsWrittenAgrees(crash, noCrash, content); ReportAsWritten(crash, noCrash, content)
       else ReportAsWritten(crash, noCrash, content))
    case _ => FileTally(crash, noCrash, Zeros(Transitions))
  }

  /** Every percentage's update as the script is written, starting from the given counters. */
  function UpdatesAsWritten(fs: Cumulative.FileSystem, crash: seq<SectionTally>, noCrash: seq<SectionTally>): (u: seq<FileTally>)
    requires |crash| == |Percentages| && |noCrash| == |Percentages|
    requires Cumulative.AllWellShaped(crash) && Cumulative.AllWellShaped(noCrash)
    ensures |u| == |Percentages|
    ensures forall p :: 0 <= p < |Percentages| ==> u[p] == FileAsWritten(crash[p], noCrash[p], fs(LatexReportPath(p)))
  {
    seq(|Percentages|, p requires 0 <= p < |Percentages| => FileAsWritten(crash[p], noCrash[p], fs(LatexReportPath(p))))
  }

  /** The counters after the whole loop as the script is written, starting from zero. */
  function RunAsWritten(fs: Cumulative.FileSystem): (rep: Cumulative.Repetition)
    ensures rep.WellShaped()
  {
    var zero := Untouched();
    var u := UpdatesAsWritten(fs, zero, zero);
    Cumulative.Repetition(Crashes(u), NoCrashes(u), RowTotals(SummaryRows(u), Transitions))
  }

  /** Every report that exists is clear of both defects. */
  predicate RunClearOfDefects(fs: Cumulative.FileSystem)
  {
    forall p :: 0 <= p < |Percentages| && fs(LatexReportPath(p)).Present? ==> ClearOfDefects(fs(LatexReportPath(p)).content)
  }

  /**
   * When no report reaches either defect, the script as written and the
   * corrected run leave the same counters and the same final summary.
   */
  lemma RunAsWrittenAgrees(fs: Cumulative.FileSystem)
    requires RunClearOfDefects(fs)
    ensures RunAsWritten(fs) == RunSpec(fs)
  {
    var zero := Untouched();
    var written, meant := UpdatesAsWritten(fs, zero, zero), Updates(fs, zero, zero);
    forall p | 0 <= p < |Percentages|
      ensures written[p] == meant[p]
    {
      var f := fs(LatexReportPath(p));
      assert f.Present? ==> ClearOfDefects(f.content);
    }
    assert written == meant;
  }

  /**
   * As written, a report whose crash section has only the `True -> True`
   * line sets that percentage's crash counters as the corrected run does,
   * leaves its no-crash counters at zero and adds nothing to the final
   * summary.
   */
  lemma RunAsWrittenSkipsRest(fs: Cumulative.FileSystem, p: nat)
    requires p < |Percentages| && fs(LatexReportPath(p)).Present?
    requires Processed(Locate(fs(LatexReportPath(p)).content).crash)
    requires OnlyUnsafeLine(Locate(fs(LatexReportPath(p)).content).crash.value, CrashSafeLabel, CrashUnsafeLabel)
    ensures RunAsWritten(fs).crash[p] == RunSpec(fs).crash[p]
    ensures RunAsWritten(fs).noCrash[p] == NoSection
    ensures UpdatesAsWritten(fs, Untouched(), Untouched())[p].summary == Zeros(Transitions)
  {
    var zero := Untouched();
    var content := fs(LatexReportPath(p)).content;
    var written, meant := UpdatesAsWritten(fs, zero, zero), Updates(fs, zero, zero);
    UnsafeOnlyCrashSkipsRest(NoSection, NoSection, content);
    assert written[p] == ReportAsWritten(NoSection, NoSection, content);
    assert meant[p] == ReportUpdate(NoSection, NoSection, content);
    assert RunAsWritten(fs).crash[p] == written[p].crash;
    assert RunSpec(fs).crash[p] == meant[p].crash;
    assert RunAsWritten(fs).noCrash[p] == written[p].noCrash;
  }

  /** One more report's summary row, added onto the running final summary. */
  lemma SummaryRowAdded(summary0: seq<nat>, rows: Table, p: nat, before: seq<nat>, after: seq<nat>)
    requires p < |rows| && Rectangular(rows, Transitions) && |summary0| == Transitions
    requires before == AddSeq(summary0, RowTotals(rows[..p], Transitions))
    requires after == AddSeq(before, rows[p])
    ensures after == AddSeq(summary0, RowTotals(rows[..p + 1], Transitions))
  {
    RowTotalsPrefixStep(rows, p, Transitions);
    AddSeqAssociative(summary0, RowTotals(rows[..p], Transitions), rows[p]);
  }

  /** Replacing one percentage's tally by a well-shaped one keeps every tally well-shaped. */
  lemma TallyReplaced(xs: seq<SectionTally>, p: nat, t: SectionTally)
    requires Cumulative.AllWellShaped(xs) && p < |xs| && t.WellShaped()
    ensures Cumulative.AllWellShaped(xs[p := t])
  {
  }

  /** The script's counters: the eight per-percentage dictionaries and `final_summary`. */
  class LatexCounters {
    var crash: seq<SectionTally>
    var noCrash: seq<SectionTally>
    var finalSummary: seq<nat>

    ghost predicate Valid()
      reads this
    {
      Cumulative.Repetition(crash, noCrash, finalSummary).WellShaped()
    }

    /** Lines 11-19: every counter of every percentage at zero. */
    constructor ()
      ensures Valid()
      ensures crash == Untouched() && noCrash == Untouched()
      ensures finalSummary == Zeros(Transitions)
    {
      crash := Untouched();
      noCrash := Untouched();
      finalSummary := Zeros(Transitions);
    }

    /** The body of the `try` block for percentage `p`, given the report's text. */
    method ProcessReport(p: nat, content: string)
      requires Valid() && p < |Percentages|
      modifies this
      ensures Valid()
      ensures var t := ReportUpdate(old(crash[p]), old(noCrash[p]), content);
        crash == old(crash)[p := t.crash] && noCrash == old(noCrash)[p := t.noCrash] &&
        finalSummary == AddSeq(old(finalSummary), t.summary)
    {
      var l := LocateSections(Sections(content));
      assert l == Locate(content);
      var c, n, summary := UpdateSections(crash[p], noCrash[p], finalSummary, l);
      ghost var t := ReportUpdate(crash[p], noCrash[p], content);
      assert c == t.crash && n == t.noCrash && summary == AddSeq(finalSummary, t.summary);
      TallyReplaced(crash, p, c);
      TallyReplaced(noCrash, p, n);
      crash, noCrash, finalSummary := crash[p := c], noCrash[p := n], summary;
    }

    /** One pass of the percentage loop: skip a missing or unreadable report, otherwise process it. */
    method ProcessFile(p: nat, f: Cumulative.FileState)
      requires Valid() && p < |Percentages|
      modifies this
      ensures Valid()
      ensures var t := FileUpdate(old(crash[p]), old(noCrash[p]), f);
        crash == old(crash)[p := t.crash] && noCrash == old(noCrash)[p := t.noCrash] &&
        finalSummary == AddSeq(old(finalSummary), t.summary)
    {
      if f.Present? {
        ProcessReport(p, f.content);
      } else {
        Cumulative.AddNothing(finalSummary);
        assert crash == crash[p := crash[p]] && noCrash == noCrash[p := noCrash[p]];
      }
    }

    /**
     * One pass of the loop of lines 28-154, for percentage `p` of a loop
     * that started from `crash0`, `noCrash0` and `summary0`.
     */
    method ProcessPercentage(fs: Cumulative.FileSystem, p: nat,
                             ghost crash0: seq<SectionTally>, ghost noCrash0: seq<SectionTally>, ghost summary0: seq<nat>)
      requires Valid() && p < |Percentages| && |crash0| == |noCrash0| == |Percentages|
      requires Cumulative.AllWellShaped(crash0) && Cumulative.AllWellShaped(noCrash0) && |summary0| == Transitions
      requires crash[p] == crash0[p] && noCrash[p] == noCrash0[p]
      requires finalSummary == AddSeq(summary0, RowTotals(SummaryRows(Updates(fs, crash0, noCrash0))[..p], Transitions))
      modifies this
      ensures Valid()
      ensures var u := Updates(fs, crash0, noCrash0);
        crash == old(crash)[p := u[p].crash] && noCrash == old(noCrash)[p := u[p].noCrash] &&
        finalSummary == AddSeq(summary0, RowTotals(SummaryRows(u)[..p + 1], Transitions))
    {
      ghost var u := Updates(fs, crash0, noCrash0);
      ghost var before := finalSummary;
      ProcessFile(p, fs(LatexReportPath(p)));
      SummaryRowAdded(summary0, SummaryRows(u), p, before, finalSummary);
    }

    /** The loop of lines 28-154 over the five percentages. */
    method ProcessAll(fs: Cumulative.FileSystem)
      requires Valid()
      modifies this
      ensures Valid()
      ensures var u := Updates(fs, old(crash), old(noCrash));
        crash == Crashes(u) && noCrash == NoCrashes(u) &&
        finalSummary == AddSeq(old(finalSummary), RowTotals(SummaryRows(u), Transitions))
    {
      ghost var u := Updates(fs, crash, noCrash);
      ghost var crash0, noCrash0, summary0 := crash, noCrash, finalSummary;
      ghost var rows := SummaryRows(u);
      ghost var crashes, noCrashes := Crashes(u), NoCrashes(u);
      assert RowTotals(rows[..0], Transitions) == Zeros(Transitions);
      PartlyUpdatedEnds(crashes, crash0);
      PartlyUpdatedEnds(noCrashes, noCrash0);
      var p := 0;
      while p < |Percentages|
        invariant 0 <= p <= |Percentages| && Valid()
        invariant crash == PartlyUpdated(crashes, crash0, p) && noCrash == PartlyUpdated(noCrashes, noCrash0, p)
        invariant finalSummary == AddSeq(summary0, RowTotals(rows[..p], Transitions))
      {
        ProcessPercentage(fs, p, crash0, noCrash0, summary0);
        PartlyUpdatedStep(crashes, crash0, p);
        PartlyUpdatedStep(noCrashes, noCrash0, p);
        p := p + 1;
      }
      assert rows[..p] == rows;
    }
  }

  /** The crash counters of every percentage's update. */
  function Crashes(u: seq<FileTally>): (r: seq<SectionTally>)
    ensures |r| == |u| && forall p :: 0 <= p < |u| ==> r[p] == u[p].crash
  {
    seq(|u|, p requires 0 <= p < |u| => u[p].crash)
  }

  /** The no-crash counters of every percentage's update. */
  function NoCrashes(u: seq<FileTally>): (r: seq<SectionTally>)
    ensures |r| == |u| && forall p :: 0 <= p < |u| ==> r[p] == u[p].noCrash
  {
    seq(|u|, p requires 0 <= p < |u| => u[p].noCrash)
  }

  /** The counters once the first `p` percentages hold their new tallies and the others their old ones. */
  function PartlyUpdated(updated: seq<SectionTally>, initial: seq<SectionTally>, p: nat): (r: seq<SectionTally>)
    requires |updated| == |initial| && p <= |initial|
    ensures |r| == |initial|
    ensures forall q :: 0 <= q < p ==> r[q] == updated[q]
    ensures forall q :: p <= q < |initial| ==> r[q] == initial[q]
  {
    seq(|initial|, q requires 0 <= q < |initial| => if q < p then updated[q] else initial[q])
  }

  /** Before the loop every percentage holds its old tallies, after it every one its new tallies. */
  lemma PartlyUpdatedEnds(updated: seq<SectionTally>, initial: seq<SectionTally>)
    requires |updated| == |initial|
    ensures PartlyUpdated(updated, initial, 0) == initial
    ensures PartlyUpdated(updated, initial, |initial|) == updated
  {
  }

  /** Updating percentage `p` moves the boundary by one. */
  lemma PartlyUpdatedStep(updated: seq<SectionTally>, initial: seq<SectionTally>, p: nat)
    requires |updated| == |initial| && p < |initial|
    ensures PartlyUpdated(updated, initial, p)[p := updated[p]] == PartlyUpdated(updated, initial, p + 1)
  {
  }

  /**
   * The two Safe/Unsafe tables of `detailed_results.tex` print, per
   * percentage, the two transition counts the parsing pass left for it:
   * the crash table `Safe` then `Unsafe`, the no-crash table `False_False`
   * then `False_True`, each column topped up by its total.
   */
  lemma PrintedOutcomeTables(rep: Cumulative.Repetition)
    requires rep.WellShaped()
    ensures var c := CrashOutcomes(Cumulative.CounterTable(rep, Cumulative.CrashSafety));
      forall p :: 0 <= p < |Percentages| ==>
        c.safe[p] == rep.crash[p].safe && c.unsafe[p] == rep.crash[p].unsafe &&
        c.totals[p] == rep.crash[p].safe + rep.crash[p].unsafe
    ensures var n := NoCrashOutcomes(Cumulative.CounterTable(rep, Cumulative.NoCrashTransitions));
      forall p :: 0 <= p < |Percentages| ==>
        n.safe[p] == rep.noCrash[p].safe && n.unsafe[p] == rep.noCrash[p].unsafe &&
        n.totals[p] == rep.noCrash[p].safe + rep.noCrash[p].unsafe
  {
  }

  /** The whole parsing pass of the script, from zeroed counters to the counters the tables print. */
  method Run(fs: Cumulative.FileSystem) returns (rep: Cumulative.Repetition)
    ensures rep == RunSpec(fs)
  {
    var counters := new LatexCounters();
    counters.ProcessAll(fs);
    rep := Cumulative.Repetition(counters.crash, counters.noCrash, counters.finalSummary);
    AddToZeros(RowTotals(SummaryRows(Updates(fs, Untouched(), Untouched())), Transitions));
  }

  /** Adding onto zeroed counters leaves what was added. */
  lemma AddToZeros(b: seq<nat>)
    ensures AddSeq(Zeros(|b|), b) == b
  {
  }
}
