/**
 * The repetition loop and `calculate_cumulative` of the cumulative table
 * scripts. The three scripts differ only in their configuration:
 *   - Test_1_LOOCV_final_with_structure/tables_CaDis2025/create_tables_cumulative.py
 *     and the journal variant read `contingency_table.txt` under `../rep_N`
 *     and record every missing report;
 *   - Test_1_LOOCV_final/create_tables_cumulative.py reads
 *     `contingency_table.csv` under `./Test_1_LOOCV_rep_N`, skips missing
 *     reports silently and guards action lines with `any(...)`.
 *
 * The file system is a parameter: a function from a path to what the script
 * finds there (nothing, a file it cannot read, or a text).
 */
module Cumulative {
  import opened ContingencyReport
  import opened Tables
  import opened CumulativeSums

  /** What `os.path.exists` and `open(...).read()` give for one path. */
  datatype FileState = Missing | Unreadable | Present(content: string)

  type FileSystem = string -> FileState

  /** `os.path.join(a, b)`: `b` replaces `a` when absolute, otherwise one `/` separates them. */
  function PathJoin(a: string, b: string): (r: string)
    ensures b != [] && b[0] == '/' ==> r == b
    ensures (b == [] || b[0] != '/') ==> |a| + |b| <= |r| <= |a| + |b| + 1
    ensures (b == [] || b[0] != '/') ==> r[..|a|] == a && r[|r| - |b|..] == b
  {
    if b != [] && b[0] == '/' then b
    else if a == [] || a[|a| - 1] == '/' then a + b
    else a + "/" + b
  }

  /** `os.path.join(os.path.join(base_dir, p, 'cBNs'), file_name)`. */
  function ReportPath(baseDir: string, percentage: string, fileName: string): string
  {
    PathJoin(PathJoin(PathJoin(baseDir, percentage), "cBNs"), fileName)
  }

  /** The configuration that tells the three scripts apart. */
  datatype Variant = Variant(baseDirs: seq<string>, fileName: string, recordMissing: bool, anyGuard: bool)

  const WithStructure: Variant :=
    Variant(["../rep_1", "../rep_2", "../rep_3", "../rep_4", "../rep_5"], "contingency_table.txt", true, false)
  const Journal: Variant := WithStructure
  const Final: Variant :=
    Variant(["./Test_1_LOOCV_rep_1", "./Test_1_LOOCV_rep_2", "./Test_1_LOOCV_rep_3", "./Test_1_LOOCV_rep_4", "./Test_1_LOOCV_rep_5"],
      "contingency_table.csv", false, true)

  const NoFile: FileTally := FileTally(NoSection, NoSection, Zeros(Transitions))

  /**
   * What one path adds to its percentage's counters: the parsed report, or
   * nothing when it is missing or cannot be read (the `except` branch is
   * reached before any counter is touched).
   */
  function Contribution(f: FileState): (t: FileTally)
    ensures t.WellShaped()
    ensures !f.Present? ==> t == NoFile
  {
    match f
    case Present(content) => FileSpec(content)
    case _ => NoFile
  }

  /** Element-wise sum of two section tallies: what `+=` on every counter does. */
  function AddTally(a: SectionTally, b: SectionTally): (r: SectionTally)
    requires a.WellShaped() && b.WellShaped()
    ensures r.WellShaped()
  {
    SectionTally(AddSeq(a.ties, b.ties), AddSeq(a.selected, b.selected), AddSeq(a.safeSelected, b.safeSelected),
      a.safe + b.safe, a.unsafe + b.unsafe)
  }

  /** Counters that start at zero end up holding exactly what was added. */
  lemma AddToNothing(b: SectionTally)
    requires b.WellShaped()
    ensures AddTally(NoSection, b) == b
  {
    var r := AddTally(NoSection, b);
    assert r.ties == b.ties;
    assert r.selected == b.selected;
    assert r.safeSelected == b.safeSelected;
  }

  /** Adding a report that contributes nothing leaves the summary as it was. */
  lemma AddNothing(a: seq<nat>)
    requires |a| == Transitions
    ensures AddSeq(a, NoFile.summary) == a
  {
  }

  /**
   * The counters of one repetition: per percentage, what its crash and
   * no-crash sections added, and the final summary summed over all five
   * reports.
   */
  datatype Repetition = Repetition(crash: seq<SectionTally>, noCrash: seq<SectionTally>, finalSummary: seq<nat>)
  {
    predicate WellShaped()
    {
      |crash| == |Percentages| && |noCrash| == |Percentages| && |finalSummary| == Transitions &&
      AllWellShaped(crash) && AllWellShaped(noCrash)
    }
  }

  /** The report paths of a repetition directory, in percentage order. */
  function ReportPaths(baseDir: string, fileName: string): (r: seq<string>)
    ensures |r| == |Percentages|
    ensures forall i :: 0 <= i < |Percentages| ==> r[i] == ReportPath(baseDir, Percentages[i], fileName)
  {
    seq(|Percentages|, i requires 0 <= i < |Percentages| => ReportPath(baseDir, Percentages[i], fileName))
  }

  /** What the file system holds at each path. */
  function Lookup(fs: FileSystem, paths: seq<string>): (r: seq<FileState>)
    ensures |r| == |paths| && forall i :: 0 <= i < |paths| ==> r[i] == fs(paths[i])
  {
    seq(|paths|, i requires 0 <= i < |paths| => fs(paths[i]))
  }

  /** Every section tally has the shape of the script's dictionaries. */
  predicate AllWellShaped(xs: seq<SectionTally>)
  {
    forall p :: 0 <= p < |xs| ==> xs[p].WellShaped()
  }

  /** The crash-section tallies of the reports found at `files`, one per percentage. */
  function Crashes(files: seq<FileState>): (r: seq<SectionTally>)
    ensures |r| == |files| && AllWellShaped(r)
  {
    seq(|files|, p requires 0 <= p < |files| => Contribution(files[p]).crash)
  }

  function NoCrashes(files: seq<FileState>): (r: seq<SectionTally>)
    ensures |r| == |files| && AllWellShaped(r)
  {
    seq(|files|, p requires 0 <= p < |files| => Contribution(files[p]).noCrash)
  }

  /** The final-summary counts of each report: a table with one column per report. */
  function Summaries(files: seq<FileState>): (r: Table)
    ensures |r| == |files| && Rectangular(r, Transitions)
  {
    seq(|files|, p requires 0 <= p < |files| => Contribution(files[p]).summary)
  }

  /** Per-percentage counters once the first `n` reports are in: the others are still zero. */
  function Prefix(xs: seq<SectionTally>, n: nat): (r: seq<SectionTally>)
    ensures |r| == |xs|
    ensures AllWellShaped(xs) ==> AllWellShaped(r)
  {
    assert NoSection.WellShaped();
    seq(|xs|, p requires 0 <= p < |xs| => if p < n then xs[p] else NoSection)
  }

  lemma PrefixAt(xs: seq<SectionTally>, n: nat, p: nat)
    requires p < n <= |xs|
    ensures Prefix(xs, n)[p] == xs[p]
  {
  }

  /** Reading report `n` fills in the counters of percentage `n`, which were still zero. */
  lemma PrefixStep(xs: seq<SectionTally>, n: nat)
    requires n < |xs|
    ensures Prefix(xs, n)[n] == NoSection && Prefix(xs, n + 1) == Prefix(xs, n)[n := xs[n]]
  {
  }

  /** The section counters of each percentage once the first `n` reports are in. */
  function CrashUpTo(files: seq<FileState>, n: nat): (r: seq<SectionTally>)
    ensures |r| == |files| && AllWellShaped(r)
  {
    Prefix(Crashes(files), n)
  }

  function NoCrashUpTo(files: seq<FileState>, n: nat): (r: seq<SectionTally>)
    ensures |r| == |files| && AllWellShaped(r)
  {
    Prefix(NoCrashes(files), n)
  }

  /** The repetition's `final_summary` after the first `n` reports: per transition, the sum over them. */
  function SummaryUpTo(files: seq<FileState>, n: nat): (r: seq<nat>)
    requires n <= |files|
    ensures |r| == Transitions
  {
    RowTotals(Summaries(files)[..n], Transitions)
  }

  /** The counters of a repetition after its first `n` reports. */
  function PartialRepetition(files: seq<FileState>, n: nat): (r: Repetition)
    requires n <= |files| == |Percentages|
    ensures r.WellShaped()
  {
    Repetition(CrashUpTo(files, n), NoCrashUpTo(files, n), SummaryUpTo(files, n))
  }

  /** The counters a repetition yields from what is found at its five report paths. */
  function RepetitionOf(files: seq<FileState>): (r: Repetition)
    requires |files| == |Percentages|
    ensures r.WellShaped()
  {
    PartialRepetition(files, |Percentages|)
  }

  /** The counters one repetition directory yields. */
  function RepetitionSpec(fs: FileSystem, baseDir: string, fileName: string): (r: Repetition)
    ensures r.WellShaped()
  {
    RepetitionOf(Lookup(fs, ReportPaths(baseDir, fileName)))
  }

  /** The paths the first `n` reports of a repetition add to `missing_files`. */
  function MissingUpTo(files: seq<FileState>, paths: seq<string>, n: nat): seq<string>
    requires n <= |files| == |paths|
  {
    if n == 0 then []
    else MissingUpTo(files, paths, n - 1) + (if files[n - 1].Missing? then [paths[n - 1]] else [])
  }

  /** What a variant appends to `missing_files` after the first `n` reports. */
  function RecordedUpTo(recordMissing: bool, files: seq<FileState>, paths: seq<string>, n: nat): seq<string>
    requires n <= |files| == |paths|
  {
    if recordMissing then MissingUpTo(files, paths, n) else []
  }

  /** Each percentage's counters hold exactly what its own report contributed. */
  lemma EachPercentageItsReport(files: seq<FileState>, p: nat)
    requires |files| == |Percentages| && p < |Percentages|
    ensures RepetitionOf(files).crash[p] == Contribution(files[p]).crash
    ensures RepetitionOf(files).noCrash[p] == Contribution(files[p]).noCrash
  {
    PrefixAt(Crashes(files), |Percentages|, p);
    PrefixAt(NoCrashes(files), |Percentages|, p);
  }

  /** The repetition's final summary is, per transition, the sum over its five reports. */
  lemma FinalSummaryIsSumOverReports(files: seq<FileState>, k: nat)
    requires |files| == |Percentages| && k < Transitions
    ensures RepetitionOf(files).finalSummary[k] == Sum(seq(|files|, p requires 0 <= p < |files| => Contribution(files[p]).summary[k]))
  {
    assert Summaries(files)[..|files|] == Summaries(files);
    assert RowValues(Summaries(files), k) == seq(|files|, p requires 0 <= p < |files| => Contribution(files[p]).summary[k]);
  }

  /**
   * The running total kept by `final_summary[key] += ...` is the sum over
   * the reports read so far: one more report adds its own summary.
   */
  lemma SummaryStep(files: seq<FileState>, n: nat)
    requires n < |files|
    ensures SummaryUpTo(files, n + 1) == AddSeq(SummaryUpTo(files, n), Contribution(files[n]).summary)
  {
    RowTotalsPrefixStep(Summaries(files), n, Transitions);
  }

  /** `missing_files` gets exactly the paths of the missing reports, in order. */
  lemma {:induction false} MissingListed(files: seq<FileState>, paths: seq<string>, n: nat)
    requires n <= |files| == |paths|
    ensures forall i :: 0 <= i < n && files[i].Missing? ==> paths[i] in MissingUpTo(files, paths, n)
    ensures forall path :: path in MissingUpTo(files, paths, n) ==>
      exists i :: 0 <= i < n && files[i].Missing? && path == paths[i]
    decreases n
  {
    if n > 0 {
      MissingListed(files, paths, n - 1);
    }
  }

  /** Reports that were all missing or unreadable leave every counter of the repetition at zero. */
  lemma NothingReadNothingCounted(files: seq<FileState>)
    requires |files| == |Percentages|
    requires forall i :: 0 <= i < |files| ==> !files[i].Present?
    ensures RepetitionOf(files) == Repetition(seq(|Percentages|, _ => NoSection), seq(|Percentages|, _ => NoSection), Zeros(Transitions))
  {
    var t := Summaries(files);
    assert t[..|files|] == t;
    forall k | 0 <= k < Transitions ensures RowTotal(t, k) == 0 {
      SumZeros(RowValues(t, k));
    }
  }

  /** Before any report is read, every counter of the repetition is zero. */
  lemma NothingReadYet(files: seq<FileState>)
    requires |files| == |Percentages|
    ensures PartialRepetition(files, 0) == Repetition(seq(|Percentages|, _ => NoSection), seq(|Percentages|, _ => NoSection), Zeros(Transitions))
  {
    forall k | 0 <= k < Transitions ensures SummaryUpTo(files, 0)[k] == 0 {
      assert RowValues(Summaries(files)[..0], k) == [];
    }
  }

  /** A report that contributes nothing leaves every counter of the repetition as it was. */
  lemma NothingAdded(files: seq<FileState>, i: nat)
    requires i < |files| == |Percentages| && !files[i].Present?
    ensures PartialRepetition(files, i + 1) == PartialRepetition(files, i)
  {
    SummaryStep(files, i);
    AddNothing(SummaryUpTo(files, i));
    PrefixStep(Crashes(files), i);
    PrefixStep(NoCrashes(files), i);
  }

  /** A parsed report is added onto its percentage's still-zero counters and onto the summary. */
  lemma ReportAdded(files: seq<FileState>, i: nat, t: FileTally)
    requires i < |files| == |Percentages| && t == Contribution(files[i])
    ensures var r := PartialRepetition(files, i);
      r.crash[i] == NoSection && r.noCrash[i] == NoSection &&
      PartialRepetition(files, i + 1) == Repetition(r.crash[i := AddTally(NoSection, t.crash)],
        r.noCrash[i := AddTally(NoSection, t.noCrash)], AddSeq(r.finalSummary, t.summary))
  {
    SummaryStep(files, i);
    PrefixStep(Crashes(files), i);
    PrefixStep(NoCrashes(files), i);
    AddToNothing(t.crash);
    AddToNothing(t.noCrash);
  }

  /** The missing list grows by the path of a missing report and by nothing otherwise. */
  lemma RecordedStep(before: seq<string>, recordMissing: bool, files: seq<FileState>, paths: seq<string>, i: nat)
    requires i < |files| == |paths|
    ensures before + RecordedUpTo(recordMissing, files, paths, i + 1)
      == (before + RecordedUpTo(recordMissing, files, paths, i)) + (if recordMissing && files[i].Missing? then [paths[i]] else [])
  {
    if !recordMissing {
      assert RecordedUpTo(recordMissing, files, paths, i) == [];
    } else if !files[i].Missing? {
      assert MissingUpTo(files, paths, i + 1) == MissingUpTo(files, paths, i) + [];
    }
  }

  /**
   * What one report contributes to the counters: a readable one is parsed
   * and added; a missing or unreadable one leaves them as they are.
   */
  method ReadReport(file: FileState, anyGuard: bool, ghost files: seq<FileState>, i: nat,
                    crash: seq<SectionTally>, noCrash: seq<SectionTally>, summary: seq<nat>)
    returns (crash': seq<SectionTally>, noCrash': seq<SectionTally>, summary': seq<nat>)
    requires i < |files| == |Percentages| && files[i] == file
    requires Repetition(crash, noCrash, summary) == PartialRepetition(files, i)
    ensures Repetition(crash', noCrash', summary') == PartialRepetition(files, i + 1)
  {
    if file.Present? {
      crash', noCrash', summary' := AddReport(file.content, anyGuard, files, i, crash, noCrash, summary);
    } else {
      NothingAdded(files, i);
      crash', noCrash', summary' := crash, noCrash, summary;
    }
  }

  /**
   * The body of the `try` for a readable report: parse it and add what it
   * holds to the counters of percentage `i` and to the repetition's summary.
   */
  method AddReport(content: string, anyGuard: bool, ghost files: seq<FileState>, i: nat,
                   crash: seq<SectionTally>, noCrash: seq<SectionTally>, summary: seq<nat>)
    returns (crash': seq<SectionTally>, noCrash': seq<SectionTally>, summary': seq<nat>)
    requires i < |files| == |Percentages| && files[i] == Present(content)
    requires Repetition(crash, noCrash, summary) == PartialRepetition(files, i)
    ensures Repetition(crash', noCrash', summary') == PartialRepetition(files, i + 1)
  {
    var t := TallyFile(content, anyGuard);
    ReportAdded(files, i, t);
    crash' := crash[i := AddTally(crash[i], t.crash)];
    noCrash' := noCrash[i := AddTally(noCrash[i], t.noCrash)];
    summary' := AddSeq(summary, t.summary);
  }

  // -----------------------------------------------------------------------
  // The eight counter dictionaries and `calculate_cumulative`.

  /** The per-repetition counter dictionaries the script hands to `calculate_cumulative`. */
  datatype Counter = CrashTies | NoCrashTies | CrashSafety | NoCrashTransitions
                   | CrashActions | NoCrashActions | CrashActionSafety | NoCrashActionSafety

  /** How many keys one percentage's entry of a counter has. */
  function Keys(kind: Counter): nat
  {
    match kind
    case CrashTies | NoCrashTies => TieKinds
    case CrashSafety | NoCrashTransitions => 2
    case _ => |ValidActions|
  }

  /**
   * One percentage's entry of a counter, keys in the order the script
   * creates them: `['Safe', 'Unsafe']` for the crash outcomes and
   * `['False_True', 'False_False']` for the no-crash transitions.
   */
  function Entry(crash: SectionTally, noCrash: SectionTally, kind: Counter): (e: seq<nat>)
    requires crash.WellShaped() && noCrash.WellShaped()
    ensures |e| == Keys(kind)
  {
    match kind
    case CrashTies => crash.ties
    case NoCrashTies => noCrash.ties
    case CrashSafety => [crash.safe, crash.unsafe]
    case NoCrashTransitions => [noCrash.unsafe, noCrash.safe]
    case CrashActions => crash.selected
    case NoCrashActions => noCrash.selected
    case CrashActionSafety => crash.safeSelected
    case NoCrashActionSafety => noCrash.safeSelected
  }

  /** A repetition's dictionary for one counter, as a table over the percentages. */
  function CounterTable(rep: Repetition, kind: Counter): (t: Table)
    requires rep.WellShaped()
    ensures |t| == |Percentages| && Rectangular(t, Keys(kind))
    ensures forall p :: 0 <= p < |Percentages| ==> t[p] == Entry(rep.crash[p], rep.noCrash[p], kind)
  {
    seq(|Percentages|, p requires 0 <= p < |Percentages| => Entry(rep.crash[p], rep.noCrash[p], kind))
  }

  predicate AllRepetitionsWellShaped(reps: seq<Repetition>)
  {
    forall r :: 0 <= r < |reps| ==> reps[r].WellShaped()
  }

  /** `all_<counter>`: the list of that counter's dictionaries, one per repetition. */
  function History(reps: seq<Repetition>, kind: Counter): (data: seq<Table>)
    requires reps != [] && AllRepetitionsWellShaped(reps)
    ensures |data| == |reps| && SameShape(data)
    ensures forall r :: 0 <= r < |reps| ==> data[r] == CounterTable(reps[r], kind)
  {
    var data := seq(|reps|, r requires 0 <= r < |reps| => CounterTable(reps[r], kind));
    assert |data[0]| == |Percentages|;
    data
  }

  /** `all_final_summary`, one row per repetition. */
  function FinalSummaries(reps: seq<Repetition>): (t: Table)
    requires AllRepetitionsWellShaped(reps)
    ensures |t| == |reps| && Rectangular(t, Transitions)
    ensures forall r :: 0 <= r < |reps| ==> t[r] == reps[r].finalSummary
  {
    seq(|reps|, r requires 0 <= r < |reps| => reps[r].finalSummary)
  }

  /** The eight `cumulative_*` dictionaries and `cumulative_final_summary`. */
  datatype Cumulated = Cumulated(crashTies: Table, noCrashTies: Table, crashSafety: Table, noCrashTransitions: Table,
                                 crashActions: Table, noCrashActions: Table, crashActionSafety: Table,
                                 noCrashActionSafety: Table, finalSummary: seq<nat>)
  {
    /** The cumulative dictionary of one counter. */
    function Of(kind: Counter): Table
    {
      match kind
      case CrashTies => crashTies
      case NoCrashTies => noCrashTies
      case CrashSafety => crashSafety
      case NoCrashTransitions => noCrashTransitions
      case CrashActions => crashActions
      case NoCrashActions => noCrashActions
      case CrashActionSafety => crashActionSafety
      case NoCrashActionSafety => noCrashActionSafety
    }
  }

  /** What the script computes after the repetition loop. */
  function CumulatedSpec(reps: seq<Repetition>): (c: Cumulated)
    requires reps != [] && AllRepetitionsWellShaped(reps)
    ensures forall kind :: c.Of(kind) == CounterSums(reps, kind)
  {
    Cumulated(CounterSums(reps, CrashTies), CounterSums(reps, NoCrashTies),
      CounterSums(reps, CrashSafety), CounterSums(reps, NoCrashTransitions),
      CounterSums(reps, CrashActions), CounterSums(reps, NoCrashActions),
      CounterSums(reps, CrashActionSafety), CounterSums(reps, NoCrashActionSafety),
      RowTotals(FinalSummaries(reps), Transitions))
  }

  /** One cumulative dictionary: the running sums of one counter over the repetitions. */
  function CounterSums(reps: seq<Repetition>, kind: Counter): Table
    requires reps != [] && AllRepetitionsWellShaped(reps)
  {
    Cumulative(History(reps, kind))
  }

  /**
   * Every cumulative counter, for every percentage and key, is the sum over
   * the repetitions of that counter in each repetition, and each cumulative
   * dictionary has the percentages and keys of the per-repetition ones.
   */
  lemma CumulatedIsSumOverRepetitions(reps: seq<Repetition>, kind: Counter, p: nat, k: nat)
    requires reps != [] && AllRepetitionsWellShaped(reps)
    requires p < |Percentages| && k < Keys(kind)
    ensures var c := Cumulative(History(reps, kind));
      |c| == |Percentages| && Rectangular(c, Keys(kind)) &&
      c[p][k] == Sum(seq(|reps|, r requires 0 <= r < |reps| => Entry(reps[r].crash[p], reps[r].noCrash[p], kind)[k]))
  {
    var data := History(reps, kind);
    assert Across(data, p, k) == seq(|reps|, r requires 0 <= r < |reps| => Entry(reps[r].crash[p], reps[r].noCrash[p], kind)[k]);
  }

  /** The cumulative final summary is, per transition, the sum over the repetitions. */
  lemma CumulatedFinalSummary(reps: seq<Repetition>, k: nat)
    requires reps != [] && AllRepetitionsWellShaped(reps) && k < Transitions
    ensures CumulatedSpec(reps).finalSummary[k] == Sum(seq(|reps|, r requires 0 <= r < |reps| => reps[r].finalSummary[k]))
  {
    assert RowValues(FinalSummaries(reps), k) == seq(|reps|, r requires 0 <= r < |reps| => reps[r].finalSummary[k]);
  }

  /** The repetitions the loop appends, one per directory, in order. */
  function Repetitions(fs: FileSystem, dirs: seq<string>, fileName: string): (reps: seq<Repetition>)
    ensures |reps| == |dirs| && AllRepetitionsWellShaped(reps)
    ensures forall r :: 0 <= r < |dirs| ==> reps[r] == RepetitionSpec(fs, dirs[r], fileName)
  {
    seq(|dirs|, r requires 0 <= r < |dirs| => RepetitionSpec(fs, dirs[r], fileName))
  }

  /** What the report found at one path adds to one counter of its percentage. */
  function ReportEntry(f: FileState, kind: Counter): (e: seq<nat>)
    ensures |e| == Keys(kind)
  {
    Entry(Contribution(f).crash, Contribution(f).noCrash, kind)
  }

  /** Each repetition's counter for percentage `p` is what its report for `p` contributed. */
  lemma RepetitionEntry(fs: FileSystem, dir: string, fileName: string, kind: Counter, p: nat)
    requires p < |Percentages|
    ensures var rep := RepetitionSpec(fs, dir, fileName);
      Entry(rep.crash[p], rep.noCrash[p], kind) == ReportEntry(fs(ReportPath(dir, Percentages[p], fileName)), kind)
  {
    var files := Lookup(fs, ReportPaths(dir, fileName));
    EachPercentageItsReport(files, p);
  }

  /** What a variant appends to `missing_files` for one repetition directory. */
  function MissingIn(fs: FileSystem, dir: string, v: Variant): seq<string>
  {
    RecordedUpTo(v.recordMissing, Lookup(fs, ReportPaths(dir, v.fileName)), ReportPaths(dir, v.fileName), |Percentages|)
  }

  /** `missing_files` after the repetitions of `dirs`. */
  function MissingFiles(fs: FileSystem, dirs: seq<string>, v: Variant): seq<string>
  {
    Flatten(MissingParts(fs, dirs, v))
  }

  /** Each directory's share of `missing_files`, in directory order. */
  function MissingParts(fs: FileSystem, dirs: seq<string>, v: Variant): (parts: seq<seq<string>>)
    ensures |parts| == |dirs| && forall r :: 0 <= r < |dirs| ==> parts[r] == MissingIn(fs, dirs[r], v)
  {
    seq(|dirs|, r requires 0 <= r < |dirs| => MissingIn(fs, dirs[r], v))
  }

  /** The lists of `parts`, one after the other. */
  function Flatten<T>(parts: seq<seq<T>>): seq<T>
    decreases |parts|
  {
    if parts == [] then [] else Flatten(parts[..|parts| - 1]) + parts[|parts| - 1]
  }

  /** An element is in the flattened list exactly when it is in one of the parts. */
  lemma {:induction false} InFlatten<T>(parts: seq<seq<T>>, x: T)
    ensures x in Flatten(parts) <==> exists r :: 0 <= r < |parts| && x in parts[r]
    decreases |parts|
  {
    if parts != [] {
      var n := |parts| - 1;
      var front := parts[..n];
      InFlatten(front, x);
      assert Flatten(parts) == Flatten(front) + parts[n];
      if x in Flatten(front) {
        var r :| 0 <= r < |front| && x in front[r];
        assert front[r] == parts[r];
        assert x in parts[r];
      } else if x in parts[n] {
        assert 0 <= n < |parts| && x in parts[n];
      } else {
        forall r | 0 <= r < |parts| ensures x !in parts[r] {
          if r < n {
            assert front[r] == parts[r];
          }
        }
      }
    }
  }

  /** `path` is the report path of a missing report of repetition directory `dir`. */
  predicate MissingReportOf(fs: FileSystem, dir: string, fileName: string, path: string)
  {
    exists p :: 0 <= p < |Percentages| && path == ReportPath(dir, Percentages[p], fileName) && fs(path).Missing?
  }

  /** One directory's share of `missing_files`: its missing reports, when the variant records them. */
  lemma MissingInListed(fs: FileSystem, dir: string, v: Variant, path: string)
    ensures path in MissingIn(fs, dir, v) <==> v.recordMissing && MissingReportOf(fs, dir, v.fileName, path)
  {
    var paths := ReportPaths(dir, v.fileName);
    var files := Lookup(fs, paths);
    MissingListed(files, paths, |Percentages|);
    if v.recordMissing && MissingReportOf(fs, dir, v.fileName, path) {
      var p :| 0 <= p < |Percentages| && path == ReportPath(dir, Percentages[p], v.fileName) && fs(path).Missing?;
      assert files[p].Missing? && path == paths[p];
    }
  }

  /**
   * A path is in `missing_files` exactly when the variant records missing
   * files and it is the path of a missing report of one of the repetitions.
   */
  lemma MissingReportsListed(fs: FileSystem, dirs: seq<string>, v: Variant, path: string)
    ensures path in MissingFiles(fs, dirs, v) <==>
      v.recordMissing && exists r :: 0 <= r < |dirs| && MissingReportOf(fs, dirs[r], v.fileName, path)
  {
    InFlatten(MissingParts(fs, dirs, v), path);
    forall r | 0 <= r < |dirs|
      ensures path in MissingIn(fs, dirs[r], v) <==> v.recordMissing && MissingReportOf(fs, dirs[r], v.fileName, path)
    {
      MissingInListed(fs, dirs[r], v, path);
    }
  }

  /** The repetitions of one more directory are those before it and its own. */
  lemma RepetitionsStep(fs: FileSystem, dirs: seq<string>, n: nat, fileName: string)
    requires n < |dirs|
    ensures Repetitions(fs, dirs[..n + 1], fileName) == Repetitions(fs, dirs[..n], fileName) + [RepetitionSpec(fs, dirs[n], fileName)]
  {
  }

  /** `missing_files` after one more directory gains exactly that directory's share. */
  lemma MissingFilesStep(before: seq<string>, fs: FileSystem, dirs: seq<string>, n: nat, v: Variant)
    requires n < |dirs|
    ensures before + MissingFiles(fs, dirs[..n + 1], v) == (before + MissingFiles(fs, dirs[..n], v)) + MissingIn(fs, dirs[n], v)
  {
    var parts := MissingParts(fs, dirs[..n + 1], v);
    assert parts[..n] == MissingParts(fs, dirs[..n], v);
  }

  // -----------------------------------------------------------------------
  // The module-level loop over repetitions.

  /** The script's global state: the nine `all_*` lists (one entry per repetition) and `missing_files`. */
  class Aggregator {
    const variant: Variant
    var reps: seq<Repetition>
    var missingFiles: seq<string>

    ghost predicate Valid()
      reads this
    {
      forall r :: 0 <= r < |reps| ==> reps[r].WellShaped()
    }

    constructor (v: Variant)
      ensures variant == v && reps == [] && missingFiles == []
      ensures Valid()
    {
      variant := v;
      reps := [];
      missingFiles := [];
    }

    /**
     * One pass of the percentage loop: look for the report of percentage `i`
     * and, when there is one to read, add what it holds to the counters.
     */
    method ProcessReport(fs: FileSystem, baseDir: string, i: nat, ghost paths: seq<string>, ghost files: seq<FileState>,
                         crash: seq<SectionTally>, noCrash: seq<SectionTally>, summary: seq<nat>)
      returns (crash': seq<SectionTally>, noCrash': seq<SectionTally>, summary': seq<nat>)
      requires i < |Percentages| == |paths| == |files|
      requires paths[i] == ReportPath(baseDir, Percentages[i], variant.fileName) && files[i] == fs(paths[i])
      requires Repetition(crash, noCrash, summary) == PartialRepetition(files, i)
      modifies this
      ensures Repetition(crash', noCrash', summary') == PartialRepetition(files, i + 1)
      ensures reps == old(reps)
      ensures missingFiles == old(missingFiles) + (if variant.recordMissing && files[i].Missing? then [paths[i]] else [])
    {
      var path := ReportPath(baseDir, Percentages[i], variant.fileName);
      assert paths[i] == path && files[i] == fs(path);
      crash', noCrash', summary' := ReadReport(fs(path), variant.anyGuard, files, i, crash, noCrash, summary);
      if fs(path).Missing? && variant.recordMissing {
        missingFiles := missingFiles + [path];
      }
    }

    /** One pass of the repetition loop: the percentage loop over the reports of `baseDir`. */
    method ProcessRepetition(fs: FileSystem, baseDir: string)
      requires Valid()
      modifies this
      ensures Valid()
      ensures reps == old(reps) + [RepetitionSpec(fs, baseDir, variant.fileName)]
      ensures missingFiles == old(missingFiles) + RecordedUpTo(variant.recordMissing,
        Lookup(fs, ReportPaths(baseDir, variant.fileName)), ReportPaths(baseDir, variant.fileName), |Percentages|)
    {
      ghost var paths := ReportPaths(baseDir, variant.fileName);
      ghost var files := Lookup(fs, paths);
      var crash := seq(|Percentages|, _ => NoSection);
      var noCrash := seq(|Percentages|, _ => NoSection);
      var summary := Zeros(Transitions);
      NothingReadYet(files);
      var i := 0;
      while i < |Percentages|
        invariant 0 <= i <= |Percentages|
        invariant Repetition(crash, noCrash, summary) == PartialRepetition(files, i)
        invariant missingFiles == old(missingFiles) + RecordedUpTo(variant.recordMissing, files, paths, i)
        invariant reps == old(reps)
      {
        RecordedStep(old(missingFiles), variant.recordMissing, files, paths, i);
        crash, noCrash, summary := ProcessReport(fs, baseDir, i, paths, files, crash, noCrash, summary);
        i := i + 1;
      }
      reps := reps + [Repetition(crash, noCrash, summary)];
    }

    /** The repetition loop: one repetition per directory of the variant. */
    method ProcessAll(fs: FileSystem)
      requires Valid()
      modifies this
      ensures Valid()
      ensures reps == old(reps) + Repetitions(fs, variant.baseDirs, variant.fileName)
      ensures missingFiles == old(missingFiles) + MissingFiles(fs, variant.baseDirs, variant)
    {
      var dirs := variant.baseDirs;
      var r := 0;
      while r < |dirs|
        invariant 0 <= r <= |dirs| && Valid()
        invariant reps == old(reps) + Repetitions(fs, dirs[..r], variant.fileName)
        invariant missingFiles == old(missingFiles) + MissingFiles(fs, dirs[..r], variant)
      {
        RepetitionsStep(fs, dirs, r, variant.fileName);
        MissingFilesStep(old(missingFiles), fs, dirs, r, variant);
        ProcessRepetition(fs, dirs[r]);
        r := r + 1;
      }
      assert dirs[..r] == dirs;
    }

    /** The `cumulative_*` dictionaries and `cumulative_final_summary`, from the `all_*` lists. */
    method Cumulate() returns (c: Cumulated)
      requires Valid() && reps != []
      ensures c == CumulatedSpec(reps)
    {
      var crashTies := CalculateCumulative(History(reps, CrashTies));
      var noCrashTies := CalculateCumulative(History(reps, NoCrashTies));
      var crashSafety := CalculateCumulative(History(reps, CrashSafety));
      var noCrashTransitions := CalculateCumulative(History(reps, NoCrashTransitions));
      var crashActions := CalculateCumulative(History(reps, CrashActions));
      var noCrashActions := CalculateCumulative(History(reps, NoCrashActions));
      var crashActionSafety := CalculateCumulative(History(reps, CrashActionSafety));
      var noCrashActionSafety := CalculateCumulative(History(reps, NoCrashActionSafety));
      var finalSummary := CumulativeFinalSummary(FinalSummaries(reps), Transitions);
      c := Cumulated(crashTies, noCrashTies, crashSafety, noCrashTransitions, crashActions, noCrashActions,
        crashActionSafety, noCrashActionSafety, finalSummary);
    }
  }
}
