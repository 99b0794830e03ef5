/**
 * Parsing of one `contingency_table` report, shared by the cumulative
 * table scripts (`create_tables_cumulative.py` in both experiment trees and
 * `create_tables_cumulative_for_journal.py`), whose parsing code is the
 * same line for line.
 *
 * A report is split at its `=== ... ===` headers. The crash section, the
 * no-crash section and the final summary each contribute integer counters:
 * tie counts for 1..6 best interventions, per-action selected and safe
 * counts read from an action block, two transition counts, and the four
 * summary transitions.
 */
module ContingencyReport {
  import opened Wrappers
  import opened PyText
  import opened PyInt
  import opened Regex

  /** Training-data percentages, one report per percentage and repetition. */
  const Percentages: seq<string> := ["01", "25", "50", "75", "90"]

  /** `valid_actions`, in the scripts' order; per-action counters are indexed by it. */
  const ValidActions: seq<string> :=
    ["cruise", "keep", "change_to_left", "change_to_right", "swerve_left", "swerve_right"]

  /** Tie counters: groups with exactly 1, 2, ..., 6 best interventions. */
  const TieKinds: nat := 6

  /** Final-summary transitions in key order: True_True, True_False, False_True, False_False. */
  const Transitions: nat := 4

  const BlockStart: string := "Number of actions selected for each intervention type:"
  const BlockEnd: string := "Total safe/unsafe actions:"

  /** `Number of groups with exactly\s+N\s+best interventions:\s+(\d+)`. */
  function TiePattern(n: nat): (pat: Pattern)
    requires 1 <= n <= TieKinds
    ensures CountingPattern(pat)
  {
    [Lit("Number of groups with exactly"), Spaces(true), Lit([DigitChar(n)]), Spaces(true),
     Lit("best interventions:"), Spaces(true), Digits]
  }

  /** `<heading>\s+(\d+)`, as in `True -> False:\s+(\d+)`. */
  function CountPattern(heading: string): (pat: Pattern)
    ensures CountingPattern(pat)
  {
    [Lit(heading), Spaces(true), Digits]
  }

  /** Whether the crash flag of summary transition `k` is `True` before / after the intervention. */
  function BeforeName(k: nat): string requires k < Transitions { if k < 2 then "True" else "False" }
  function AfterName(k: nat): string requires k < Transitions { if k % 2 == 0 then "True" else "False" }

  /** `<prefix>Crash before \(B\) and after intervention \(A\):` for transition `k`. */
  function SummaryLabel(prefix: string, k: nat): string
    requires k < Transitions
  {
    prefix + "Crash before (" + BeforeName(k) + ") and after intervention (" + AfterName(k) + "):"
  }

  /**
   * `safe_int_convert(re.search(pat, s).group(1))` when the pattern matches.
   * The captured text is a run of digits, so the value is never negative.
   */
  function Captured(pat: Pattern, s: string): (r: Option<int>)
    requires CountingPattern(pat)
    ensures r.Some? <==> Search(pat, s).Some?
    ensures r.Some? ==> r.value >= 0
  {
    match Search(pat, s)
    case None => None
    case Some(m) =>
      CountingCapture(pat, s, m.start);
      DigitRunConverts(m.groups[0]);
      Some(SafeIntConvert(m.groups[0]))
  }

  /** What `counter += ...` adds: the captured value, or nothing when the pattern is absent. */
  function CapturedOrZero(pat: Pattern, s: string): (r: nat)
    requires CountingPattern(pat)
    ensures Captured(pat, s).Some? ==> r == Captured(pat, s).value
    ensures Captured(pat, s).None? ==> r == 0
  {
    match Captured(pat, s)
    case None => 0
    case Some(v) => v
  }

  /** The action block of a section: the group of `BlockStart(.*?)BlockEnd`. */
  function ActionBlock(s: string): Option<string>
  {
    LazyGroup(s, BlockStart, BlockEnd)
  }

  /** The line holds a `:`, mentions action `a`'s name and carries at least three integers. */
  predicate CountingLine(line: string, a: nat)
    requires a < |ValidActions|
  {
    Contains(line, ":") && Contains(line, ValidActions[a]) && |DigitRuns(line)| >= 3
  }

  /**
   * What one line of the action block adds to the counters of action `a`:
   * the first two integers of the line when it holds a `:`, mentions the
   * action's name and carries at least three integers.
   */
  function LineCounts(line: string, a: nat): (r: (nat, nat))
    requires a < |ValidActions|
    ensures !Contains(line, ":") || !Contains(line, ValidActions[a]) ==> r == (0, 0)
    ensures |DigitRuns(line)| < 3 ==> r == (0, 0)
    ensures CountingLine(line, a) ==> r == (DecimalValue(DigitRuns(line)[0]), DecimalValue(DigitRuns(line)[1]))
  {
    if Contains(line, ":") && Contains(line, ValidActions[a]) then
      var nums := DigitRuns(line);
      if |nums| >= 3 then (Numeral(nums[0]), Numeral(nums[1])) else (0, 0)
    else (0, 0)
  }

  /** `safe_int_convert` of a run of digits: its decimal value. */
  function Numeral(ds: string): (r: nat)
    requires ds != [] && AllDigits(ds)
    ensures r == SafeIntConvert(ds) == DecimalValue(ds)
  {
    DigitRunConverts(ds);
    SafeIntConvert(ds)
  }

  /** Sum of `LineCounts` over the lines of a block. */
  function BlockCounts(lines: seq<string>, a: nat): (r: (nat, nat))
    requires a < |ValidActions|
    decreases |lines|
  {
    if lines == [] then (0, 0)
    else
      var prev := BlockCounts(lines[..|lines| - 1], a);
      var last := LineCounts(lines[|lines| - 1], a);
      (prev.0 + last.0, prev.1 + last.1)
  }

  /** The action block's counts add up line by line: splitting the lines splits the counts. */
  lemma {:induction false} BlockCountsAppend(xs: seq<string>, ys: seq<string>, a: nat)
    requires a < |ValidActions|
    ensures BlockCounts(xs + ys, a).0 == BlockCounts(xs, a).0 + BlockCounts(ys, a).0
    ensures BlockCounts(xs + ys, a).1 == BlockCounts(xs, a).1 + BlockCounts(ys, a).1
    decreases |ys|
  {
    if ys == [] {
      assert xs + ys == xs;
    } else {
      var ys' := ys[..|ys| - 1];
      assert (xs + ys)[..|xs + ys| - 1] == xs + ys';
      assert (xs + ys)[|xs + ys| - 1] == ys[|ys| - 1];
      BlockCountsAppend(xs, ys', a);
    }
  }

  /** The lines the action loop visits: those of the action block, or none. */
  function BlockLines(content: string): seq<string>
  {
    match ActionBlock(content)
    case None => []
    case Some(b) => SplitOn(b, '\n')
  }

  /**
   * The counters one section of a report contributes. `safe` and `unsafe`
   * are the two transition counts (`True -> False` / `True -> True` in the
   * crash section, `False -> False` / `False -> True` in the no-crash one).
   */
  datatype SectionTally = SectionTally(ties: seq<nat>, selected: seq<nat>, safeSelected: seq<nat>, safe: nat, unsafe: nat)
  {
    predicate WellShaped()
    {
      |ties| == TieKinds && |selected| == |ValidActions| && |safeSelected| == |ValidActions|
    }
  }

  function Zeros(n: nat): (r: seq<nat>)
    ensures |r| == n && forall k :: 0 <= k < n ==> r[k] == 0
  {
    seq(n, _ => 0)
  }

  const NoSection: SectionTally := SectionTally(Zeros(TieKinds), Zeros(|ValidActions|), Zeros(|ValidActions|), 0, 0)

  /** Tie counter `j` of a section: the value after "exactly j+1 best interventions:", or 0. */
  function TieCount(content: string, j: nat): nat
    requires j < TieKinds
  {
    CapturedOrZero(TiePattern(j + 1), content)
  }

  function TieCounts(content: string): (r: seq<nat>)
    ensures |r| == TieKinds
    ensures forall j :: 0 <= j < TieKinds ==> r[j] == TieCount(content, j)
  {
    seq(TieKinds, j requires 0 <= j < TieKinds => TieCount(content, j))
  }

  /** Selected (`which == 0`) or safe (`which == 1`) count of action `a` over a block. */
  function ActionCount(lines: seq<string>, which: nat, a: nat): nat
    requires which < 2 && a < |ValidActions|
  {
    if which == 0 then BlockCounts(lines, a).0 else BlockCounts(lines, a).1
  }

  function ActionCounts(lines: seq<string>, which: nat): (r: seq<nat>)
    requires which < 2
    ensures |r| == |ValidActions|
    ensures forall a :: 0 <= a < |ValidActions| ==> r[a] == ActionCount(lines, which, a)
  {
    seq(|ValidActions|, a requires 0 <= a < |ValidActions| => ActionCount(lines, which, a))
  }

  /** What the scripts add to the counters of one section whose text is `content`. */
  function SectionSpec(content: string, safeLabel: string, unsafeLabel: string): (t: SectionTally)
    ensures t.WellShaped()
  {
    var lines := BlockLines(content);
    SectionTally(TieCounts(content), ActionCounts(lines, 0), ActionCounts(lines, 1),
      CapturedOrZero(CountPattern(safeLabel), content),
      CapturedOrZero(CountPattern(unsafeLabel), content))
  }

  /** The labels of the two transition lines of each section. */
  const CrashSafeLabel: string := "True -> False:"
  const CrashUnsafeLabel: string := "True -> True:"
  const NoCrashSafeLabel: string := "False -> False:"
  const NoCrashUnsafeLabel: string := "False -> True:"

  /** Everything one report contributes to a repetition's counters. */
  datatype FileTally = FileTally(crash: SectionTally, noCrash: SectionTally, summary: seq<nat>)
  {
    predicate WellShaped()
    {
      crash.WellShaped() && noCrash.WellShaped() && |summary| == Transitions
    }
  }

  /** Crash section: present when a second piece exists and the first one mentions it. */
  predicate HasCrashSection(sections: seq<string>)
  {
    |sections| > 1 && Contains(sections[0], "CRASH SECTION")
  }

  predicate HasNoCrashSection(sections: seq<string>)
  {
    |sections| > 3 && Contains(sections[2], "NO CRASH SECTION")
  }

  predicate HasSummary(sections: seq<string>)
  {
    |sections| > 5 && Contains(sections[4], "FINAL SUMMARY")
  }

  /** The four final-summary counts of a summary section. */
  function SummaryCount(content: string, k: nat): nat
    requires k < Transitions
  {
    CapturedOrZero(CountPattern(SummaryLabel("", k)), content)
  }

  function SummarySpec(content: string): (r: seq<nat>)
    ensures |r| == Transitions
    ensures forall k :: 0 <= k < Transitions ==> r[k] == SummaryCount(content, k)
  {
    seq(Transitions, k requires 0 <= k < Transitions => SummaryCount(content, k))
  }

  /** What one report adds to its percentage's counters and to the repetition's summary. */
  function FileSpec(content: string): (t: FileTally)
    ensures t.WellShaped()
  {
    var sections := Sections(content);
    FileTally(
      if HasCrashSection(sections) then SectionSpec(sections[1], CrashSafeLabel, CrashUnsafeLabel) else NoSection,
      if HasNoCrashSection(sections) then SectionSpec(sections[3], NoCrashSafeLabel, NoCrashUnsafeLabel) else NoSection,
      if HasSummary(sections) then SummarySpec(sections[5]) else Zeros(Transitions))
  }

  /** A report without any section header contributes nothing. */
  lemma NoHeadersNoCounts(content: string)
    requires NoMarker(content)
    ensures FileSpec(content) == FileTally(NoSection, NoSection, Zeros(Transitions))
  {
    assert SplitAt(content) == SectionSplit(content, []);
    assert |SplitSections(content)| == 1;
  }

  // -----------------------------------------------------------------------
  // The parsing code, statement by statement.

  /** `m = re.search(pat, s); if m: counter += safe_int_convert(m.group(1))`. */
  method AddCaptured(counter: nat, pat: Pattern, s: string) returns (r: nat)
    requires CountingPattern(pat)
    ensures r == counter + CapturedOrZero(pat, s)
  {
    r := counter;
    var m := Captured(pat, s);
    if m.Some? {
      r := r + m.value;
    }
  }

  /** The inner loop for one line: every valid action the line mentions gets the line's counts. */
  method AddLine(line: string, selected: seq<nat>, safeSelected: seq<nat>)
    returns (selected': seq<nat>, safeSelected': seq<nat>)
    requires |selected| == |ValidActions| && |safeSelected| == |ValidActions|
    ensures |selected'| == |ValidActions| && |safeSelected'| == |ValidActions|
    ensures forall a :: 0 <= a < |ValidActions| ==>
      selected'[a] == selected[a] + LineCounts(line, a).0 && safeSelected'[a] == safeSelected[a] + LineCounts(line, a).1
  {
    selected', safeSelected' := selected, safeSelected;
    if !Contains(line, ":") {
      return;
    }
    ghost var counts := seq(|ValidActions|, b requires 0 <= b < |ValidActions| => LineCounts(line, b));
    var a := 0;
    while a < |ValidActions|
      invariant 0 <= a <= |ValidActions|
      invariant |selected'| == |ValidActions| && |safeSelected'| == |ValidActions|
      invariant forall b :: 0 <= b < a ==>
        selected'[b] == selected[b] + counts[b].0 && safeSelected'[b] == safeSelected[b] + counts[b].1
      invariant forall b :: a <= b < |ValidActions| ==>
        selected'[b] == selected[b] && safeSelected'[b] == safeSelected[b]
    {
      selected', safeSelected' := AddForAction(line, a, selected', safeSelected');
      a := a + 1;
    }
  }

  /** One pass of the inner loop: action `a` gets the line's counts when the line mentions it. */
  method AddForAction(line: string, a: nat, selected: seq<nat>, safeSelected: seq<nat>)
    returns (selected': seq<nat>, safeSelected': seq<nat>)
    requires Contains(line, ":") && a < |ValidActions| == |selected| == |safeSelected|
    ensures |selected'| == |selected| && |safeSelected'| == |safeSelected|
    ensures selected'[a] == selected[a] + LineCounts(line, a).0
    ensures safeSelected'[a] == safeSelected[a] + LineCounts(line, a).1
    ensures forall b :: 0 <= b < |selected| && b != a ==> selected'[b] == selected[b] && safeSelected'[b] == safeSelected[b]
  {
    selected', safeSelected' := selected, safeSelected;
    if Contains(line, ValidActions[a]) {
      var nums := DigitRuns(line);
      if |nums| >= 3 {
        selected' := selected[a := selected[a] + Numeral(nums[0])];
        safeSelected' := safeSelected[a := safeSelected[a] + Numeral(nums[1])];
      }
    }
  }

  /**
   * The action-line loop over the lines of a block. With `anyGuard` (the
   * variant in Test_1_LOOCV_final) a line is first required to mention some
   * valid action; the counts are the same either way.
   */
  method AddActionLines(lines: seq<string>, anyGuard: bool, selected: seq<nat>, safeSelected: seq<nat>)
    returns (selected': seq<nat>, safeSelected': seq<nat>)
    requires |selected| == |ValidActions| && |safeSelected| == |ValidActions|
    ensures |selected'| == |ValidActions| && |safeSelected'| == |ValidActions|
    ensures forall a :: 0 <= a < |ValidActions| ==>
      selected'[a] == selected[a] + BlockCounts(lines, a).0 && safeSelected'[a] == safeSelected[a] + BlockCounts(lines, a).1
  {
    selected', safeSelected' := selected, safeSelected;
    var i := 0;
    while i < |lines|
      invariant 0 <= i <= |lines|
      invariant |selected'| == |ValidActions| && |safeSelected'| == |ValidActions|
      invariant forall a :: 0 <= a < |ValidActions| ==>
        selected'[a] == selected[a] + BlockCounts(lines[..i], a).0 && safeSelected'[a] == safeSelected[a] + BlockCounts(lines[..i], a).1
    {
      BlockCountsStep(lines, i);
      selected', safeSelected' := AddGuardedLine(lines[i], anyGuard, selected', safeSelected');
      i := i + 1;
    }
    assert lines[..|lines|] == lines;
  }

  /** One more line adds its own counts to the block's. */
  lemma BlockCountsStep(lines: seq<string>, i: nat)
    requires i < |lines|
    ensures forall a :: 0 <= a < |ValidActions| ==>
      && BlockCounts(lines[..i + 1], a).0 == BlockCounts(lines[..i], a).0 + LineCounts(lines[i], a).0
      && BlockCounts(lines[..i + 1], a).1 == BlockCounts(lines[..i], a).1 + LineCounts(lines[i], a).1
  {
    assert lines[..i + 1][..i] == lines[..i];
  }

  /**
   * One pass of the action-line loop: with `anyGuard`, a line that mentions
   * no valid action is passed over, which changes no count.
   */
  method AddGuardedLine(line: string, anyGuard: bool, selected: seq<nat>, safeSelected: seq<nat>)
    returns (selected': seq<nat>, safeSelected': seq<nat>)
    requires |selected| == |ValidActions| && |safeSelected| == |ValidActions|
    ensures |selected'| == |ValidActions| && |safeSelected'| == |ValidActions|
    ensures forall a :: 0 <= a < |ValidActions| ==>
      selected'[a] == selected[a] + LineCounts(line, a).0 && safeSelected'[a] == safeSelected[a] + LineCounts(line, a).1
  {
    var mentionsAction := exists b :: 0 <= b < |ValidActions| && Contains(line, ValidActions[b]);
    if !anyGuard || mentionsAction {
      selected', safeSelected' := AddLine(line, selected, safeSelected);
    } else {
      selected', safeSelected' := selected, safeSelected;
      assert forall b :: 0 <= b < |ValidActions| ==> LineCounts(line, b) == (0, 0);
    }
  }

  /** The tie loop: counter `j` gets the number after "exactly j+1 best interventions:". */
  method TallyTies(content: string) returns (ties: seq<nat>)
    ensures ties == TieCounts(content)
  {
    ties := Zeros(TieKinds);
    var j := 0;
    while j < TieKinds
      invariant 0 <= j <= TieKinds && |ties| == TieKinds
      invariant forall k :: 0 <= k < j ==> ties[k] == TieCount(content, k)
      invariant forall k :: j <= k < TieKinds ==> ties[k] == 0
    {
      var v := AddCaptured(ties[j], TiePattern(j + 1), content);
      assert v == TieCount(content, j);
      ties := ties[j := v];
      j := j + 1;
    }
  }

  /** The action counters of a section, from zero. */
  method TallyActions(lines: seq<string>, anyGuard: bool) returns (selected: seq<nat>, safeSelected: seq<nat>)
    ensures selected == ActionCounts(lines, 0) && safeSelected == ActionCounts(lines, 1)
  {
    var zeros := Zeros(|ValidActions|);
    selected, safeSelected := AddActionLines(lines, anyGuard, zeros, zeros);
    var counts, safeCounts := ActionCounts(lines, 0), ActionCounts(lines, 1);
    forall a | 0 <= a < |ValidActions| ensures selected[a] == counts[a] && safeSelected[a] == safeCounts[a] {
      assert zeros[a] == 0;
    }
    assert selected == counts && safeSelected == safeCounts;
  }

  /** The parsing of one section: ties, action block, then the two transition lines. */
  method TallySection(content: string, safeLabel: string, unsafeLabel: string, anyGuard: bool)
    returns (t: SectionTally)
    ensures t == SectionSpec(content, safeLabel, unsafeLabel)
  {
    var ties := TallyTies(content);
    var selected, safeSelected := TallyActions(BlockLines(content), anyGuard);
    var safe := AddCaptured(0, CountPattern(safeLabel), content);
    var unsafe := AddCaptured(0, CountPattern(unsafeLabel), content);
    t := SectionTally(ties, selected, safeSelected, safe, unsafe);
  }

  /** The final-summary loop over the four transitions. */
  method TallySummary(content: string) returns (summary: seq<nat>)
    ensures summary == SummarySpec(content)
  {
    summary := Zeros(Transitions);
    var k := 0;
    while k < Transitions
      invariant 0 <= k <= Transitions && |summary| == Transitions
      invariant forall i :: 0 <= i < k ==> summary[i] == SummaryCount(content, i)
      invariant forall i :: k <= i < Transitions ==> summary[i] == 0
    {
      var v := AddCaptured(summary[k], CountPattern(SummaryLabel("", k)), content);
      assert v == SummaryCount(content, k);
      summary := summary[k := v];
      k := k + 1;
    }
  }

  /** The parsing of one report, given its content. */
  method TallyFile(content: string, anyGuard: bool) returns (t: FileTally)
    ensures t == FileSpec(content)
  {
    var sections := Sections(content);
    var crash := NoSection;
    if HasCrashSection(sections) {
      crash := TallySection(sections[1], CrashSafeLabel, CrashUnsafeLabel, anyGuard);
    }
    var noCrash := NoSection;
    if HasNoCrashSection(sections) {
      noCrash := TallySection(sections[3], NoCrashSafeLabel, NoCrashUnsafeLabel, anyGuard);
    }
    var summary := Zeros(Transitions);
    if HasSummary(sections) {
      summary := TallySummary(sections[5]);
    }
    t := FileTally(crash, noCrash, summary);
  }
}
