# Counterfactual evaluation pipeline: a verified Dafny model

This project models the deterministic core of the Counterfactuals_evaluation_2025 experiment scripts. Those scripts evaluate interventions on a lane-change driving scenario with causal models. The model covers five pieces of logic:

- **The Naive-Bayes best-intervention evaluator** (`best_interventions_NB.py`). For each fold it:
  - looks up each row's probability for its intervention `iaction`;
  - dense-ranks the rows in descending order and marks rank 1 with `*`;
  - labels each row "potential crash" before and after the intervention, by testing its `_`-joined state key against the no-crash table;
  - attaches a frequency from a keyed count of the database.

  It then saves the best rows sorted by `(group_id, ranking)` and reduces them to a 2×2 transition matrix and a prevention rate.
  Modules: `DenseRank`, `Frames` (a small column-oriented stand-in for a pandas DataFrame, with a `Frame` class whose methods update it in place), `NbFold` and `NbReport`.
- **The counterfactual query drivers** `run_WhatIf_V3.py` and `run_WhatIf_V4.py`. They:
  - discover the action names in the program text;
  - build the one-hot `iaction_truth` tuples;
  - build the evidence with its polarity inversion (the text `"True"` becomes `False`);
  - build the interventions;
  - skip rows, write placeholder rows, or recover from engine exceptions.

  The engine `single_query` is a function parameter. Modules: `WhatIfQuery`, `WhatIfV3` and `WhatIfV4`.
- **The cumulative table scripts** `create_tables_cumulative.py`, in three variants:
  - with structure: a `.txt` report, with a missing-file log;
  - final: a `.csv`-named report, no missing-file log, and an `any()` guard on action lines;
  - journal: adds the combined crash + no-crash totals.

  These scripts split each contingency report into sections, convert the numbers with `safe_int_convert`, add the counters per percentage and per action, sum them over repetitions with `calculate_cumulative`, and derive the row, column and grand totals of the printed tables. Modules: `PyText`, `PyInt` and `Regex` (the pieces of Python's `str` and `re` the scripts use), `ContingencyReport`, `Cumulative` (an `Aggregator` class holding the repetition history and `missing_files`), `CumulativeSums`, `Tables` and `TableTotals`.
- **`latex_tables.py`**: its header-to-content section locator, its action-line parsing and its counters, which overwrite rather than add. Module `LatexTables`, with a `LatexCounters` class.
- **The trial-log segmentation** of `extract_all_sequences.py`. It splits the rows into sequences at each `iteration == 1` and classifies each sequence by the `success` value of its last row. Module `TrialSequences`.

`Wrappers` holds the `Option` type.

Files are read through a `FileSystem` map from path to `Missing`, `Unreadable` or `Present(text)`. A CSV file is a table of text cells.

Where the code and its documentation disagree, the model follows the code:
- `run_WhatIf_V3.py` says it falls back to default actions when the program file is missing, but `actions` stays empty (lines 40-41).
- The V4 driver gives the observed action's atom the phase of the action's own name. That is `True` for every real action name, while V3 sets it to `False` (`WhatIfV4.ObservedActionPolarity`).
- The counters of `latex_tables.py` are assigned, not accumulated: each counter takes the value of the last line matching it, and a counter with no matching line keeps its value. Only the final summary accumulates.

One exception: the run of `latex_tables.py` (`LatexTables.RunSpec` and the `LatexCounters` methods) follows the corrected reading of the two defects listed under Findings. The script as written is `LatexTables.RunAsWritten`, and `LatexTables.RunAsWrittenAgrees` states when the two agree.

## Model

| member | source | states |
|---|---|---|
| DenseRank.Rank | Test_1_LOOCV_HC+BIC_constrained/best_interventions_NB.py:140 | a rank is at least 1 |
| DenseRank.Ranks | Test_1_LOOCV_HC+BIC_constrained/best_interventions_NB.py:140 | one rank per probability, each at least 1 |
| DenseRank.EqualProbabilitiesEqualRanks | Test_1_LOOCV_HC+BIC_constrained/best_interventions_NB.py:140 | equal probabilities get equal ranks |
| DenseRank.LargerProbabilitySmallerRank | Test_1_LOOCV_HC+BIC_constrained/best_interventions_NB.py:140 | a strictly larger probability gets a strictly smaller rank |
| DenseRank.RankOrder | Test_1_LOOCV_HC+BIC_constrained/best_interventions_NB.py:140 | ranks order rows exactly as the probabilities do, reversed, in both directions, and ties exactly on equal probabilities |
| DenseRank.RankOneIsMaximum | Test_1_LOOCV_HC+BIC_constrained/best_interventions_NB.py:140 | rank 1 if and only if the row holds the largest probability |
| DenseRank.SomeRankOne | Test_1_LOOCV_HC+BIC_constrained/best_interventions_NB.py:140 | a non-empty fold has a rank-1 row |
| DenseRank.RankAtMostDistinct | Test_1_LOOCV_HC+BIC_constrained/best_interventions_NB.py:140 | no rank exceeds the number of distinct probabilities |
| DenseRank.RanksCoverDistinct | Test_1_LOOCV_HC+BIC_constrained/best_interventions_NB.py:140 | every rank 1..k, k the number of distinct probabilities, is taken by some row |
| DenseRank.Marker | Test_1_LOOCV_HC+BIC_constrained/best_interventions_NB.py:158-161 | `'*'` exactly for rank 1 and `''` otherwise |
| DenseRank.Markers | Test_1_LOOCV_HC+BIC_constrained/best_interventions_NB.py:158-161 | the `best_intervention` column holds each row's marker |
| DenseRank.MarkedRowsHoldMaximum | Test_1_LOOCV_HC+BIC_constrained/best_interventions_NB.py:158-161 | a non-empty fold has a `'*'` row, and `'*'` sits exactly on the rows holding the largest probability |
| Frames.Keep | Test_1_LOOCV_HC+BIC_constrained/best_interventions_NB.py:47 | the kept columns are exactly those of the list that are also wanted |
| Frames.Leave | Test_1_LOOCV_HC+BIC_constrained/best_interventions_NB.py:179 | the kept columns are exactly those of the list that are not excluded |
| Frames.Assigned | Test_1_LOOCV_HC+BIC_constrained/best_interventions_NB.py:133 | `df[name] = values`: the column exists afterwards, no other column changes, and each row gets its value |
| Frames.Dropped | Test_1_LOOCV_HC+BIC_constrained/best_interventions_NB.py:106-107 | `df.drop(name, axis=1)`: the column is gone from the header and from every row, and nothing else changes |
| Frames.AssignedWhere | Test_1_LOOCV_HC+BIC_constrained/best_interventions_NB.py:161 | `df.loc[mask, name] = v`: masked rows get `v`, the others are unchanged |
| Frames.Fields | Test_1_LOOCV_HC+BIC_constrained/best_interventions_NB.py:206-208 | the key fields are the rows' texts of the key columns, in order |
| Frames.JoinInjective | Test_1_LOOCV_HC+BIC_constrained/best_interventions_NB.py:206-208 | `_`-joined keys are equal only when their fields are, given fields after the first are free of `_` |
| Frames.Frame.constructor | Test_1_LOOCV_HC+BIC_constrained/best_interventions_NB.py:120 | the results frame starts as a copy of the test data |
| Frames.Frame.Assign | Test_1_LOOCV_HC+BIC_constrained/best_interventions_NB.py:133-140 | the frame afterwards is `Assigned` of the frame before |
| Frames.Frame.AssignWhere | Test_1_LOOCV_HC+BIC_constrained/best_interventions_NB.py:161 | the frame afterwards is `AssignedWhere` of the frame before |
| Frames.Frame.Drop | Test_1_LOOCV_HC+BIC_constrained/best_interventions_NB.py:155 | the frame afterwards is `Dropped` of the frame before |
| NbFold.KeyNamesAreText | Test_1_LOOCV_HC+BIC_constrained/best_interventions_NB.py:174-179 | `iaction`, `action` and the state columns are not among the numeric result columns |
| NbFold.CsvTextOutside | Test_1_LOOCV_HC+BIC_constrained/best_interventions_NB.py:97-103 | a frame read from CSV holds text in every non-numeric column |
| NbFold.RowProbability | Test_1_LOOCV_HC+BIC_constrained/best_interventions_NB.py:74-83 | the class's entry of the probability matrix, and 0.0 when `iaction` is not a trained class |
| NbFold.Probabilities | Test_1_LOOCV_HC+BIC_constrained/best_interventions_NB.py:36-91 | None exactly when no feature column exists, the model has no probabilities, or `iaction` is missing; otherwise one probability per row, that of its `iaction` |
| NbFold.ComputeProbabilities | Test_1_LOOCV_HC+BIC_constrained/best_interventions_NB.py:72-83 | the `iterrows` loop returns `Probabilities` |
| NbFold.KeyColumns | Test_1_LOOCV_HC+BIC_constrained/best_interventions_NB.py:173-182 | the key columns are exactly the non-excluded columns shared with the no-crash table |
| NbFold.Label | Test_1_LOOCV_HC+BIC_constrained/best_interventions_NB.py:194 | `'False'` exactly when the key is a no-crash key, otherwise `'True'` |
| NbFold.AfterRow | Test_1_LOOCV_HC+BIC_constrained/best_interventions_NB.py:196-200 | the after-intervention row has `action` replaced by `iaction` when both exist, otherwise it is the row itself |
| NbFold.BeforeColumn | Test_1_LOOCV_HC+BIC_constrained/best_interventions_NB.py:182-194 | every row `'True'` when no column is shared, otherwise each row's label of its own key |
| NbFold.AfterColumn | Test_1_LOOCV_HC+BIC_constrained/best_interventions_NB.py:182-202 | every row `'True'` when no column is shared, otherwise the label of the key with `iaction` in place of `action` |
| NbFold.CrashLabelsKeep | Test_1_LOOCV_HC+BIC_constrained/best_interventions_NB.py:171-204 | labelling keeps every row and every other cell |
| NbFold.LabelsAreBooleans | Test_1_LOOCV_HC+BIC_constrained/best_interventions_NB.py:194-202 | both crash labels are `'True'` or `'False'` |
| NbFold.AfterKeyFields | Test_1_LOOCV_HC+BIC_constrained/best_interventions_NB.py:196-201 | the after key's fields equal the before key's except that `action` holds `iaction` |
| NbFold.CalculateCrashPotential | Test_1_LOOCV_HC+BIC_constrained/best_interventions_NB.py:171-204 | the frame afterwards is the labelled frame |
| NbFold.RowKeys | Test_1_LOOCV_HC+BIC_constrained/best_interventions_NB.py:206-208 | one key per row, each the `_`-join of its fields |
| NbFold.DbKeyColumns | Test_1_LOOCV_HC+BIC_constrained/best_interventions_NB.py:220-221 | the database key columns hold text in every row |
| NbFold.FrequencyCounts | Test_1_LOOCV_HC+BIC_constrained/best_interventions_NB.py:210-239 | None exactly when the database is missing or lacks `action` or every state column; otherwise one count per database row |
| NbFold.CountsAreRowCounts | Test_1_LOOCV_HC+BIC_constrained/best_interventions_NB.py:234-239 | each key's count is the number of database rows with that key, and 0 for an unseen key |
| NbFold.FoldKeyColumns | Test_1_LOOCV_HC+BIC_constrained/best_interventions_NB.py:247-256 | the fold's key columns hold text in every row |
| NbFold.FoldKeys | Test_1_LOOCV_HC+BIC_constrained/best_interventions_NB.py:255-256 | one key per fold row, from `iaction` and the state columns |
| NbFold.Frequencies | Test_1_LOOCV_HC+BIC_constrained/best_interventions_NB.py:258-260 | `str(frequency_dict.get(key, 0))` for each key, `"0"` for an unseen key |
| NbFold.WithFrequency | Test_1_LOOCV_HC+BIC_constrained/best_interventions_NB.py:241-266 | the frame keeps its rows, gains `frequency`, and loses no column but the temporary key |
| NbFold.FrequencyValue | Test_1_LOOCV_HC+BIC_constrained/best_interventions_NB.py:243-260 | a row's frequency is `'NA'` in the missing cases, otherwise the count of its key |
| NbFold.FrequencyKeeps | Test_1_LOOCV_HC+BIC_constrained/best_interventions_NB.py:241-266 | every cell but `frequency` and `freq_key` is kept |
| NbFold.AddFrequencyColumn | Test_1_LOOCV_HC+BIC_constrained/best_interventions_NB.py:241-266 | the frame afterwards is `WithFrequency` of the frame before |
| NbFold.KeysMatchIffFields | Test_1_LOOCV_HC+BIC_constrained/best_interventions_NB.py:234-256 | database and fold keys agree exactly when their fields do, for plain state values |
| NbFold.MatchingRowsByKey | Test_1_LOOCV_HC+BIC_constrained/best_interventions_NB.py:234-256 | the rows of a fold row's case are those whose key is its key |
| NbFold.FrequencyCountsMatchingRows | Test_1_LOOCV_HC+BIC_constrained/best_interventions_NB.py:210-266 | end to end, a row's frequency is the number of database rows with its `iaction` and state values |
| NbFold.Stripped | Test_1_LOOCV_HC+BIC_constrained/best_interventions_NB.py:105-107 | the test data without `orig_label_lc`, rows kept |
| NbFold.Scored | Test_1_LOOCV_HC+BIC_constrained/best_interventions_NB.py:120-140 | each row gets its probability, `group_id` = fold number, `elapsed_time` = 0.0 and its dense rank |
| NbFold.RankOne | Test_1_LOOCV_HC+BIC_constrained/best_interventions_NB.py:161 | the mask is true exactly on rows ranked 1 |
| NbFold.WithoutAction | Test_1_LOOCV_HC+BIC_constrained/best_interventions_NB.py:154-155 | the frame without `action`, rows kept |
| NbFold.WithBest | Test_1_LOOCV_HC+BIC_constrained/best_interventions_NB.py:158-161 | `best_intervention` is `'*'` on rank-1 rows and `''` elsewhere, other cells kept |
| NbFold.FoldResult | Test_1_LOOCV_HC+BIC_constrained/best_interventions_NB.py:93-169 | a frame exactly when the test file and the model exist and probabilities are computed |
| NbFold.Labelled | Test_1_LOOCV_HC+BIC_constrained/best_interventions_NB.py:120-152 | the labelled frame keeps every row |
| NbFold.FrequencyKeepsCell | Test_1_LOOCV_HC+BIC_constrained/best_interventions_NB.py:241-266 | a cell other than `frequency` and `freq_key` survives |
| NbFold.CrashLabelsKeepCell | Test_1_LOOCV_HC+BIC_constrained/best_interventions_NB.py:171-204 | a cell other than the two labels survives |
| NbFold.LabelledNumbers | Test_1_LOOCV_HC+BIC_constrained/best_interventions_NB.py:120-152 | the labelled frame keeps each row's probability, group id, elapsed time and rank |
| NbFold.CrashLabelCells | Test_1_LOOCV_HC+BIC_constrained/best_interventions_NB.py:194-202 | a row's two label cells are its entries of the label columns |
| NbFold.LabelledLabels | Test_1_LOOCV_HC+BIC_constrained/best_interventions_NB.py:194-202 | the labelled frame's crash labels are `'True'` or `'False'` |
| NbFold.LabelledColumns | Test_1_LOOCV_HC+BIC_constrained/best_interventions_NB.py:105-107 | `orig_label_lc` does not come back |
| NbFold.MarkedKeepsCell | Test_1_LOOCV_HC+BIC_constrained/best_interventions_NB.py:154-161 | marking keeps every cell but `action` and `best_intervention` |
| NbFold.MarkedBest | Test_1_LOOCV_HC+BIC_constrained/best_interventions_NB.py:158-161 | a row ranked `k` is marked `Marker(k)` |
| NbFold.FoldIsMarkedLabelled | Test_1_LOOCV_HC+BIC_constrained/best_interventions_NB.py:93-169 | a processed fold is its labelled frame, marked |
| NbFold.FoldRowNumbers | Test_1_LOOCV_HC+BIC_constrained/best_interventions_NB.py:105-161 | every fold row carries its probability, the fold number as `group_id`, 0.0 elapsed time and its dense rank |
| NbFold.FoldRowLabels | Test_1_LOOCV_HC+BIC_constrained/best_interventions_NB.py:105-201 | every fold row has `'True'`/`'False'` crash labels, and `orig_label_lc` and `action` are gone |
| NbFold.MarkedByRankHoldsMaximum | Test_1_LOOCV_HC+BIC_constrained/best_interventions_NB.py:158-161 | in a frame marked by rank, `'*'` is exactly on the rows of largest probability |
| NbFold.FoldMarksMaximum | Test_1_LOOCV_HC+BIC_constrained/best_interventions_NB.py:140-161 | a non-empty fold marks at least one row, and exactly the rows holding the largest probability |
| NbFold.FoldMarkedByRank | Test_1_LOOCV_HC+BIC_constrained/best_interventions_NB.py:140-161 | a processed fold is marked by the ranks of its probabilities |
| NbFold.Score | Test_1_LOOCV_HC+BIC_constrained/best_interventions_NB.py:120-140 | the frame afterwards is `Scored` of the frame before |
| NbFold.Mark | Test_1_LOOCV_HC+BIC_constrained/best_interventions_NB.py:154-161 | the frame afterwards is the marked frame before |
| NbFold.ProcessFold | Test_1_LOOCV_HC+BIC_constrained/best_interventions_NB.py:93-169 | returns `FoldResult` |
| NbReport.FoldRowSaved | Test_1_LOOCV_HC+BIC_constrained/best_interventions_NB.py:93-169 | every processed-fold row has the saved columns and labels |
| NbReport.FoldRowsSaved | Test_1_LOOCV_HC+BIC_constrained/best_interventions_NB.py:93-169 | a processed fold holds only saved rows |
| NbReport.Results | Test_1_LOOCV_HC+BIC_constrained/best_interventions_NB.py:385-394 | `all_results` has at most one frame per fold, all of saved rows |
| NbReport.Count | Test_1_LOOCV_HC+BIC_constrained/best_interventions_NB.py:318-335 | a count is at most the number of rows |
| NbReport.Filter | Test_1_LOOCV_HC+BIC_constrained/best_interventions_NB.py:293 | `df[mask]` keeps exactly the satisfying rows, as many as the count |
| NbReport.AllRows | Test_1_LOOCV_HC+BIC_constrained/best_interventions_NB.py:275 | the combined rows are exactly the folds' rows, all saved rows |
| NbReport.AllColumns | Test_1_LOOCV_HC+BIC_constrained/best_interventions_NB.py:275 | the combined columns are exactly the tables' columns |
| NbReport.Shown | Test_1_LOOCV_HC+BIC_constrained/best_interventions_NB.py:294-295 | a row without the hidden columns |
| NbReport.BestRows | Test_1_LOOCV_HC+BIC_constrained/best_interventions_NB.py:292-296 | the `best_interventions.csv` rows are exactly the `'*'` rows without hidden columns, as many as there are `'*'` rows |
| NbReport.Insert | Test_1_LOOCV_HC+BIC_constrained/best_interventions_NB.py:299 | inserting keeps the rows sorted and adds exactly the one row |
| NbReport.SortRows | Test_1_LOOCV_HC+BIC_constrained/best_interventions_NB.py:299 | the sorted rows are in `(group_id, ranking)` order and a permutation of the input |
| NbReport.SortRowsStable | Test_1_LOOCV_HC+BIC_constrained/best_interventions_NB.py:299 | the sort is stable: for every key, the rows holding it come out in their input order |
| NbReport.InsertKeyRun | Test_1_LOOCV_HC+BIC_constrained/best_interventions_NB.py:299 | inserting a row puts it in front of the rows sharing its key and leaves every key's other rows in order |
| NbReport.PreventionRate | Test_1_LOOCV_HC+BIC_constrained/best_interventions_NB.py:344-348 | defined exactly when there are crashes before; then it is prevented / crashes * 100, between 0 and 100 |
| NbReport.Actions | Test_1_LOOCV_HC+BIC_constrained/best_interventions_NB.py:355-359 | the distribution counts at most one action per row, exactly one when every row names its `iaction` |
| NbReport.Contingency | Test_1_LOOCV_HC+BIC_constrained/best_interventions_NB.py:307-362 | the total is the row count, and the prevention rate exists exactly when there are crashes before |
| NbReport.FilterMultiset | Test_1_LOOCV_HC+BIC_constrained/best_interventions_NB.py:293 | filtering keeps each satisfying row as often as it occurs |
| NbReport.CountPermutation | Test_1_LOOCV_HC+BIC_constrained/best_interventions_NB.py:299-300 | reordering rows changes no count and no filtered multiset |
| NbReport.ActionsCount | Test_1_LOOCV_HC+BIC_constrained/best_interventions_NB.py:357 | an action's count is the number of rows naming it |
| NbReport.ActionsIgnoreOrder | Test_1_LOOCV_HC+BIC_constrained/best_interventions_NB.py:357 | reordering rows leaves the action distribution unchanged |
| NbReport.ReportIgnoresOrder | Test_1_LOOCV_HC+BIC_constrained/best_interventions_NB.py:299-362 | the contingency report is the same for any order of the rows |
| NbReport.CountSplit | Test_1_LOOCV_HC+BIC_constrained/best_interventions_NB.py:318-335 | two disjoint predicates covering a third count as much as it |
| NbReport.CrashCountsMakeTotal | Test_1_LOOCV_HC+BIC_constrained/best_interventions_NB.py:317-320 | crash-before and no-crash-before counts add up to the total |
| NbReport.TransitionsCoverBestRows | Test_1_LOOCV_HC+BIC_constrained/best_interventions_NB.py:326-346 | the four transition counts add up to the rank-1 rows, and crashes before are the true-to-true plus true-to-false rows |
| NbReport.ActionsCoverBestRows | Test_1_LOOCV_HC+BIC_constrained/best_interventions_NB.py:355-359 | when every row names its `iaction`, the distribution counts each rank-1 row once |
| NbReport.Save | Test_1_LOOCV_HC+BIC_constrained/best_interventions_NB.py:268-305 | nothing exactly when no fold produced a frame |
| NbReport.SavedFrames | Test_1_LOOCV_HC+BIC_constrained/best_interventions_NB.py:268-305 | the sorted frame is the combined rows in `(group_id, ranking)` order, and its report equals that of the combined rows |
| NbReport.BestRowsAreTransitions | Test_1_LOOCV_HC+BIC_constrained/best_interventions_NB.py:292-335 | the saved best rows are as many as the four transition counts together |
| NbReport.ProcessRepPerc | Test_1_LOOCV_HC+BIC_constrained/best_interventions_NB.py:364-403 | returns `Save` of the fold results |
| NbReport.FoldFrames | Test_1_LOOCV_HC+BIC_constrained/best_interventions_NB.py:388-395 | a fold adds its frame exactly when processing it yields one, and never more than one frame, all of saved rows |
| NbReport.CollectFrames | Test_1_LOOCV_HC+BIC_constrained/best_interventions_NB.py:387-396 | the fold loop builds `all_results` as `Results` of the folds |
| PyText.Strip | Test_1_LOOCV_final_with_structure/tables_CaDis2025/create_tables_cumulative.py:70 | strip drops exactly the leading and trailing whitespace |
| PyText.SplitOn | Test_1_LOOCV_final_with_structure/tables_CaDis2025/create_tables_cumulative.py:85 | `s.split(c)`, whose join gives `s` back |
| PyText.SplitJoin | Test_1_LOOCV_final_with_structure/tables_CaDis2025/create_tables_cumulative.py:85 | splitting a join of parts free of the separator gives the parts back |
| PyText.IndexOf | Test_1_LOOCV_final_with_structure/tables_CaDis2025/create_tables_cumulative.py:80-84 | `str.find`: the first occurrence at or after a position, none exactly when there is none |
| PyText.ContainsIff | Test_1_LOOCV_final_no_structure/run_WhatIf_V4.py:24 | the `in` test on text holds exactly when the text occurs somewhere |
| PyText.ListIndex | Test_1_LOOCV_final/Test_1_LOOCV_rep_1/25/run_WhatIf_V3.py:149-150 | `list.index`: the first position holding the value, none exactly when the value is absent |
| PyInt.SafeIntConvert | Test_1_LOOCV_final_with_structure/tables_CaDis2025/create_tables_cumulative.py:30-34 | `int(s.strip())`, or 0 when that raises |
| PyInt.IntRoundTrip | Test_1_LOOCV_final_with_structure/tables_CaDis2025/create_tables_cumulative.py:30-34 | `safe_int_convert(str(n)) == n` |
| PyInt.DigitRunConverts | Test_1_LOOCV_final_with_structure/tables_CaDis2025/create_tables_cumulative.py:30-92 | a non-empty digit run converts to its decimal value |
| PyInt.NoDigitConvertsToZero | Test_1_LOOCV_final_with_structure/tables_CaDis2025/create_tables_cumulative.py:30-34 | text without a digit converts to 0 |
| PyInt.IntToString | Test_1_LOOCV_final_with_structure/tables_CaDis2025/create_tables_cumulative.py:30-34 | `str(n)`: a digit run, with a leading `-` for negatives |
| PyInt.DecimalRoundTrip | Test_1_LOOCV_final_with_structure/tables_CaDis2025/create_tables_cumulative.py:30-34 | reading back the decimal text of `n` gives `n` |
| Regex.SplitRejoin | Test_1_LOOCV_final_with_structure/tables_CaDis2025/create_tables_cumulative.py:69 | `re.split` with a capturing group loses nothing: pieces and markers rebuild the text |
| Regex.SplitTextsHaveNoMarker | Test_1_LOOCV_final_with_structure/tables_CaDis2025/create_tables_cumulative.py:69 | no text piece of the split holds a section marker |
| Regex.StripNonEmpty | Test_1_LOOCV_final_with_structure/tables_CaDis2025/create_tables_cumulative.py:70 | the kept pieces are the stripped non-empty ones, in order |
| Regex.LazyGroup | Test_1_LOOCV_final_with_structure/tables_CaDis2025/create_tables_cumulative.py:80-84 | the group of `open(.*?)close`: text after the leftmost `open` up to the first `close` |
| Regex.DigitRunsAreNumerals | Test_1_LOOCV_final_with_structure/tables_CaDis2025/create_tables_cumulative.py:89 | every `\d+` match is a non-empty digit run |
| Regex.CountingCapture | Test_1_LOOCV_final_with_structure/tables_CaDis2025/create_tables_cumulative.py:76-99 | a counting pattern captures one non-empty digit run |
| Regex.MatchAt | Test_1_LOOCV_final_with_structure/tables_CaDis2025/create_tables_cumulative.py:76-78 | an anchored match ends within the text and yields one group per capture |
| Regex.SearchFrom | Test_1_LOOCV_final_with_structure/tables_CaDis2025/create_tables_cumulative.py:76-78 | `re.search`: the leftmost position where the pattern matches, none exactly when it matches nowhere |
| Regex.FirstGroup | Test_1_LOOCV_final_with_structure/tables_CaDis2025/create_tables_cumulative.py:94-99 | `match.group(1)` is present exactly when `re.search` matches |
| Regex.FindAllFrom | Test_1_LOOCV_HC+BIC_unconstrained/tables_Inteligencia_Artificial/latex_tables.py:84 | `re.findall`: every match yields one group per capture |
| Regex.DigitRuns | Test_1_LOOCV_final_with_structure/tables_CaDis2025/create_tables_cumulative.py:89 | `re.findall(r'\d+', line)`: every item is a non-empty digit run |
| Regex.MatchesFrom | Test_1_LOOCV_HC+BIC_unconstrained/tables_Inteligencia_Artificial/latex_tables.py:84 | the matches `re.findall` reports, with their positions, each at or after the scan start and inside the text |
| Regex.FindAllGroups | Test_1_LOOCV_HC+BIC_unconstrained/tables_Inteligencia_Artificial/latex_tables.py:84 | `re.findall` returns the groups of those positioned matches, in order |
| Regex.MatchesFromSuccessive | Test_1_LOOCV_HC+BIC_unconstrained/tables_Inteligencia_Artificial/latex_tables.py:84 | the reported matches are each a match at its start, come left to right without overlapping, and every position where the pattern matches lies inside one of them |
| Regex.SuccessiveMatchesUnique | Test_1_LOOCV_HC+BIC_unconstrained/tables_Inteligencia_Artificial/latex_tables.py:84 | only one list of matches has those three properties, so they determine what `re.findall` returns |
| Regex.DigitRunsMaximal | Test_1_LOOCV_final_with_structure/tables_CaDis2025/create_tables_cumulative.py:89 | `re.findall(r'\d+', line)` is every maximal digit run of the line, left to right: each is a run no digit extends, runs are separated by a non-digit, and every digit lies in one |
| Regex.FirstHeader | Test_1_LOOCV_final_with_structure/tables_CaDis2025/create_tables_cumulative.py:69 | the leftmost position where a section header starts, none exactly when none does |
| Regex.SplitAt | Test_1_LOOCV_final_with_structure/tables_CaDis2025/create_tables_cumulative.py:69 | `re.split` with the header group: a well-formed alternation of texts and headers |
| ContingencyReport.Captured | Test_1_LOOCV_final_with_structure/tables_CaDis2025/create_tables_cumulative.py:94-99 | present exactly when the pattern matches, and never negative |
| ContingencyReport.CapturedOrZero | Test_1_LOOCV_final_with_structure/tables_CaDis2025/create_tables_cumulative.py:94-99 | what `+=` adds: the captured value, or 0 when absent |
| ContingencyReport.LineCounts | Test_1_LOOCV_final_with_structure/tables_CaDis2025/create_tables_cumulative.py:85-92 | nothing unless the line has a `:`, names the action and holds three numbers; then the decimal values of its first two numbers |
| ContingencyReport.Numeral | Test_1_LOOCV_final_with_structure/tables_CaDis2025/create_tables_cumulative.py:91-92 | `safe_int_convert` of a digit run is its decimal value |
| ContingencyReport.BlockCountsAppend | Test_1_LOOCV_final_with_structure/tables_CaDis2025/create_tables_cumulative.py:85-92 | block counts add up line by line |
| ContingencyReport.TieCounts | Test_1_LOOCV_final_with_structure/tables_CaDis2025/create_tables_cumulative.py:75-78 | six tie counters, each the value after its heading or 0 |
| ContingencyReport.ActionCounts | Test_1_LOOCV_final_with_structure/tables_CaDis2025/create_tables_cumulative.py:85-92 | one selected or safe count per valid action |
| ContingencyReport.SectionSpec | Test_1_LOOCV_final_with_structure/tables_CaDis2025/create_tables_cumulative.py:73-128 | a section contributes ties, action counts and the two transition counts in the dictionaries' shape |
| ContingencyReport.SummarySpec | Test_1_LOOCV_final_with_structure/tables_CaDis2025/create_tables_cumulative.py:131-142 | four summary counts, one per transition |
| ContingencyReport.FileSpec | Test_1_LOOCV_final_with_structure/tables_CaDis2025/create_tables_cumulative.py:66-142 | one report's contribution, in the dictionaries' shape |
| ContingencyReport.NoHeadersNoCounts | Test_1_LOOCV_final_with_structure/tables_CaDis2025/create_tables_cumulative.py:69-73 | a report without section headers contributes nothing |
| ContingencyReport.AddCaptured | Test_1_LOOCV_final_with_structure/tables_CaDis2025/create_tables_cumulative.py:94-99 | the counter grows by `CapturedOrZero` |
| ContingencyReport.AddLine | Test_1_LOOCV_final_with_structure/tables_CaDis2025/create_tables_cumulative.py:86-92 | each valid action's counters grow by the line's counts for it, and the others keep theirs |
| ContingencyReport.AddActionLines | Test_1_LOOCV_final_with_structure/tables_CaDis2025/create_tables_cumulative.py:85-92 | each action's counters grow by the block's counts; the `any` guard of the final variant changes nothing |
| ContingencyReport.TallyTies | Test_1_LOOCV_final_with_structure/tables_CaDis2025/create_tables_cumulative.py:75-78 | returns `TieCounts` |
| ContingencyReport.TallyActions | Test_1_LOOCV_final_with_structure/tables_CaDis2025/create_tables_cumulative.py:80-92 | returns `ActionCounts` |
| ContingencyReport.TallySection | Test_1_LOOCV_final_with_structure/tables_CaDis2025/create_tables_cumulative.py:73-99 | returns `SectionSpec` |
| ContingencyReport.TallySummary | Test_1_LOOCV_final_with_structure/tables_CaDis2025/create_tables_cumulative.py:131-142 | returns `SummarySpec` |
| ContingencyReport.TallyFile | Test_1_LOOCV_final_with_structure/tables_CaDis2025/create_tables_cumulative.py:66-142 | returns `FileSpec` |
| ContingencyReport.TiePattern | Test_1_LOOCV_final_with_structure/tables_CaDis2025/create_tables_cumulative.py:76-78 | each tie heading pattern captures one digit run |
| ContingencyReport.CountPattern | Test_1_LOOCV_final_with_structure/tables_CaDis2025/create_tables_cumulative.py:94-99 | each transition pattern captures one digit run |
| ContingencyReport.AddForAction | Test_1_LOOCV_final_with_structure/tables_CaDis2025/create_tables_cumulative.py:88-92 | action `a` grows by the line's counts for it and every other action keeps its counters |
| ContingencyReport.AddGuardedLine | Test_1_LOOCV_final/create_tables_cumulative.py:86-92 | with or without the `any` guard, each valid action grows by the line's counts for it |
| Cumulative.PathJoin | Test_1_LOOCV_final_with_structure/tables_CaDis2025/create_tables_cumulative.py:57-58 | `os.path.join`: an absolute second part replaces the first, otherwise both are kept around one `/` |
| Cumulative.Contribution | Test_1_LOOCV_final_with_structure/tables_CaDis2025/create_tables_cumulative.py:61-144 | a missing or unreadable report contributes nothing |
| Cumulative.AddTally | Test_1_LOOCV_final_with_structure/tables_CaDis2025/create_tables_cumulative.py:78-128 | adding two tallies keeps the dictionaries' shape |
| Cumulative.AddToNothing | Test_1_LOOCV_final_with_structure/tables_CaDis2025/create_tables_cumulative.py:44-51 | counters that start at zero hold exactly what was added |
| Cumulative.AddNothing | Test_1_LOOCV_final_with_structure/tables_CaDis2025/create_tables_cumulative.py:131-142 | a report with no summary leaves the summary as it was |
| Cumulative.ReportPaths | Test_1_LOOCV_final_with_structure/tables_CaDis2025/create_tables_cumulative.py:55-58 | one path per percentage, `base_dir/p/cBNs/file_name` |
| Cumulative.Lookup | Test_1_LOOCV_final_with_structure/tables_CaDis2025/create_tables_cumulative.py:61 | the file state of every path |
| Cumulative.PrefixStep | Test_1_LOOCV_final_with_structure/tables_CaDis2025/create_tables_cumulative.py:55-142 | reading report `n` fills the still-zero counters of percentage `n` |
| Cumulative.RepetitionOf | Test_1_LOOCV_final_with_structure/tables_CaDis2025/create_tables_cumulative.py:43-146 | a repetition's counters, in the dictionaries' shape |
| Cumulative.RepetitionSpec | Test_1_LOOCV_final_with_structure/tables_CaDis2025/create_tables_cumulative.py:43-146 | the counters one repetition directory yields |
| Cumulative.EachPercentageItsReport | Test_1_LOOCV_final_with_structure/tables_CaDis2025/create_tables_cumulative.py:55-142 | each percentage holds exactly its own report's contribution |
| Cumulative.FinalSummaryIsSumOverReports | Test_1_LOOCV_final_with_structure/tables_CaDis2025/create_tables_cumulative.py:131-142 | the repetition's final summary is, per transition, the sum over its reports |
| Cumulative.SummaryStep | Test_1_LOOCV_final_with_structure/tables_CaDis2025/create_tables_cumulative.py:142 | one more report adds its summary |
| Cumulative.MissingListed | Test_1_LOOCV_final_with_structure/tables_CaDis2025/create_tables_cumulative.py:61-64 | `missing_files` holds exactly the paths of the missing reports |
| Cumulative.NothingReadNothingCounted | Test_1_LOOCV_final_with_structure/tables_CaDis2025/create_tables_cumulative.py:61-146 | when no report is read every counter stays zero |
| Cumulative.NothingAdded | Test_1_LOOCV_final_with_structure/tables_CaDis2025/create_tables_cumulative.py:61-146 | a report that contributes nothing changes no counter |
| Cumulative.ReportAdded | Test_1_LOOCV_final_with_structure/tables_CaDis2025/create_tables_cumulative.py:66-142 | a parsed report is added onto its percentage's zero counters and onto the summary |
| Cumulative.AddReport | Test_1_LOOCV_final_with_structure/tables_CaDis2025/create_tables_cumulative.py:66-142 | the counters afterwards are those after one more report |
| Cumulative.Entry | Test_1_LOOCV_final_with_structure/tables_CaDis2025/create_tables_cumulative.py:44-51 | one percentage's entry of a counter has that counter's keys |
| Cumulative.CounterTable | Test_1_LOOCV_final_with_structure/tables_CaDis2025/create_tables_cumulative.py:149-157 | a repetition's dictionary for a counter, one entry per percentage |
| Cumulative.History | Test_1_LOOCV_final_with_structure/tables_CaDis2025/create_tables_cumulative.py:149-157 | `all_<counter>` has one same-shaped table per repetition |
| Cumulative.FinalSummaries | Test_1_LOOCV_final_with_structure/tables_CaDis2025/create_tables_cumulative.py:157 | `all_final_summary`, one row per repetition |
| Cumulative.CumulatedSpec | Test_1_LOOCV_final_with_structure/tables_CaDis2025/create_tables_cumulative.py:183-194 | every cumulative dictionary is `calculate_cumulative` of its history |
| Cumulative.CumulatedIsSumOverRepetitions | Test_1_LOOCV_final_with_structure/tables_CaDis2025/create_tables_cumulative.py:169-190 | every cumulative counter is the sum over the repetitions of that counter |
| Cumulative.CumulatedFinalSummary | Test_1_LOOCV_final_with_structure/tables_CaDis2025/create_tables_cumulative.py:192-194 | the cumulative final summary is, per transition, the sum over the repetitions |
| Cumulative.Repetitions | Test_1_LOOCV_final_with_structure/tables_CaDis2025/create_tables_cumulative.py:40-157 | one repetition per directory, in order |
| Cumulative.RepetitionEntry | Test_1_LOOCV_final_with_structure/tables_CaDis2025/create_tables_cumulative.py:55-142 | a repetition's counter for percentage `p` is what its report for `p` contributed |
| Cumulative.MissingParts | Test_1_LOOCV_final_with_structure/tables_CaDis2025/create_tables_cumulative.py:63 | each directory's share of `missing_files` |
| Cumulative.InFlatten | Test_1_LOOCV_final_with_structure/tables_CaDis2025/create_tables_cumulative.py:63 | an element is in the joined list exactly when it is in one of the parts |
| Cumulative.MissingInListed | Test_1_LOOCV_final_with_structure/tables_CaDis2025/create_tables_cumulative.py:61-64 | one directory's share is exactly its missing reports, when the variant records them |
| Cumulative.MissingReportsListed | Test_1_LOOCV_final_with_structure/tables_CaDis2025/create_tables_cumulative.py:37-64 | a path is in `missing_files` exactly when the variant records missing files and it is a missing report of some repetition |
| Cumulative.Aggregator.constructor | Test_1_LOOCV_final_with_structure/tables_CaDis2025/create_tables_cumulative.py:19-37 | no repetitions and no missing files yet |
| Cumulative.Aggregator.ProcessReport | Test_1_LOOCV_final_with_structure/tables_CaDis2025/create_tables_cumulative.py:55-146 | one percentage step: counters as after one more report; `missing_files` grows by that path exactly when it is missing and recorded |
| Cumulative.Aggregator.ProcessRepetition | Test_1_LOOCV_final_with_structure/tables_CaDis2025/create_tables_cumulative.py:40-157 | appends `RepetitionSpec` of the directory and its missing paths |
| Cumulative.Aggregator.ProcessAll | Test_1_LOOCV_final_with_structure/tables_CaDis2025/create_tables_cumulative.py:40-157 | appends the repetitions of every directory and their missing paths |
| Cumulative.Aggregator.Cumulate | Test_1_LOOCV_final_with_structure/tables_CaDis2025/create_tables_cumulative.py:169-194 | returns `CumulatedSpec` of the repetitions |
| Cumulative.PartialRepetition | Test_1_LOOCV_final_with_structure/tables_CaDis2025/create_tables_cumulative.py:44-142 | the counters after the first `n` percentages keep the dictionaries' shape |
| Cumulative.ReportEntry | Test_1_LOOCV_final_with_structure/tables_CaDis2025/create_tables_cumulative.py:80-128 | a report's entry for a counter has that counter's keys |
| Cumulative.RecordedStep | Test_1_LOOCV_final_with_structure/tables_CaDis2025/create_tables_cumulative.py:61-64 | one more percentage appends its path to `missing_files` exactly when the report is missing and recorded |
| Cumulative.ReadReport | Test_1_LOOCV_final_with_structure/tables_CaDis2025/create_tables_cumulative.py:61-146 | a missing or unreadable report adds nothing; a readable one brings the counters to those after one more report |
| CumulativeSums.Across | Test_1_LOOCV_final_with_structure/tables_CaDis2025/create_tables_cumulative.py:175-179 | one counter across the repetitions |
| CumulativeSums.Cumulative | Test_1_LOOCV_final_with_structure/tables_CaDis2025/create_tables_cumulative.py:169-181 | the cumulative table has the first repetition's shape |
| CumulativeSums.CumulativeOfOne | Test_1_LOOCV_final_with_structure/tables_CaDis2025/create_tables_cumulative.py:169-181 | with one repetition the cumulative table is that repetition's |
| CumulativeSums.CumulativeAppend | Test_1_LOOCV_final_with_structure/tables_CaDis2025/create_tables_cumulative.py:169-181 | one more repetition adds its table entry by entry |
| CumulativeSums.CumulativeGrandTotal | Test_1_LOOCV_final_with_structure/tables_CaDis2025/create_tables_cumulative.py:169-181 | the cumulative grand total is the sum of the repetitions' grand totals |
| CumulativeSums.CalculateCumulative | Test_1_LOOCV_final_with_structure/tables_CaDis2025/create_tables_cumulative.py:169-181 | returns `Cumulative` |
| CumulativeSums.CumulativeFinalSummary | Test_1_LOOCV_final_with_structure/tables_CaDis2025/create_tables_cumulative.py:192-194 | per transition, the sum over the repetitions' final summaries |
| Tables.SumAppend | Test_1_LOOCV_final_with_structure/tables_CaDis2025/create_tables_cumulative.py:232 | sums split over concatenation |
| Tables.AddSeq | Test_1_LOOCV_final_with_structure/tables_CaDis2025/create_tables_cumulative.py:175 | element-wise sum of counter vectors |
| Tables.SumAddSeq | Test_1_LOOCV_final_with_structure/tables_CaDis2025/create_tables_cumulative.py:232 | the sum of an element-wise sum is the sum of the sums |
| Tables.RowValues | Test_1_LOOCV_final_with_structure/tables_CaDis2025/create_tables_cumulative.py:255-257 | one printed row: a key's values across the percentages |
| Tables.ColumnTotals | Test_1_LOOCV_final_with_structure/tables_CaDis2025/create_tables_cumulative.py:260 | the Total row: `sum(t[p])` per percentage |
| Tables.RowTotals | Test_1_LOOCV_final_with_structure/tables_CaDis2025/create_tables_cumulative.py:257 | the last column: one total per key |
| Tables.RowsAndColumnsAgree | Test_1_LOOCV_final_with_structure/tables_CaDis2025/create_tables_cumulative.py:255-263 | adding a table up by rows or by columns gives the same grand total |
| Tables.AddTables | Test_1_LOOCV_MMPC+HC_constrained/tables_CaDis2025/create_tables_cumulative_for_journal.py:260 | cell-by-cell sum of two tables |
| Tables.RowTotalAdd | Test_1_LOOCV_MMPC+HC_constrained/tables_CaDis2025/create_tables_cumulative_for_journal.py:337 | adding tables adds their row totals |
| Tables.GrandTotalAdd | Test_1_LOOCV_MMPC+HC_constrained/tables_CaDis2025/create_tables_cumulative_for_journal.py:339 | adding tables adds their grand totals |
| Tables.SafePercent | Test_1_LOOCV_final_with_structure/tables_CaDis2025/create_tables_cumulative.py:283 | 0 when the total is 0, otherwise the exact percentage |
| TableTotals.Outcomes | Test_1_LOOCV_final_with_structure/tables_CaDis2025/create_tables_cumulative.py:227-241 | the Total row is safe + unsafe per percentage, and its sum is the safe total plus the unsafe total |
| TableTotals.CrashOutcomes | Test_1_LOOCV_final_with_structure/tables_CaDis2025/create_tables_cumulative.py:227-241 | the crash table's totals are `Safe + Unsafe` per percentage |
| TableTotals.NoCrashOutcomes | Test_1_LOOCV_final_with_structure/tables_CaDis2025/create_tables_cumulative.py:305-316 | Safe is `False_False`, Unsafe is `False_True`, and the totals are their sum |
| TableTotals.CombinedOutcomes | Test_1_LOOCV_MMPC+HC_constrained/tables_CaDis2025/create_tables_cumulative_for_journal.py:229-241 | the journal's combined table adds crash Safe to `False_False` and crash Unsafe to `False_True` |
| TableTotals.CombinedIsSum | Test_1_LOOCV_MMPC+HC_constrained/tables_CaDis2025/create_tables_cumulative_for_journal.py:229-241 | the combined table is the crash and no-crash tables added cell by cell |
| TableTotals.OverallTotal | Test_1_LOOCV_MMPC+HC_constrained/tables_CaDis2025/create_tables_cumulative_for_journal.py:319-324 | `total_safe + total_unsafe` is the combined grand total |
| TableTotals.Ties | Test_1_LOOCV_final_with_structure/tables_CaDis2025/create_tables_cumulative.py:255-263 | rows, row totals and column totals of the ties table, with one grand total both ways |
| TableTotals.CombinedTies | Test_1_LOOCV_MMPC+HC_constrained/tables_CaDis2025/create_tables_cumulative_for_journal.py:255-339 | the combined ties table is the ties table of the cell-by-cell sum |
| TableTotals.ActionLineOf | Test_1_LOOCV_final_with_structure/tables_CaDis2025/create_tables_cumulative.py:277-284 | an action's line: its counts, their total, its safe total and the guarded percentage |
| TableTotals.Actions | Test_1_LOOCV_final_with_structure/tables_CaDis2025/create_tables_cumulative.py:277-293 | one line per valid action, and the Total line sums them |
| TableTotals.CombinedActionLines | Test_1_LOOCV_MMPC+HC_constrained/tables_CaDis2025/create_tables_cumulative_for_journal.py:277-357 | each combined action line adds the crash and no-crash lines |
| TableTotals.CombinedActionTotals | Test_1_LOOCV_MMPC+HC_constrained/tables_CaDis2025/create_tables_cumulative_for_journal.py:286-365 | the combined Total line adds the crash and no-crash Total lines |
| LatexTables.LastHeader | Test_1_LOOCV_HC+BIC_unconstrained/tables_Inteligencia_Artificial/latex_tables.py:61-67 | the last piece equal to the header that has a successor, or none when there is no such piece |
| LatexTables.ContentFollowsHeader | Test_1_LOOCV_HC+BIC_unconstrained/tables_Inteligencia_Artificial/latex_tables.py:61-67 | a section's content is the piece after the last matching header, none exactly when there is no such header |
| LatexTables.LocatedStep | Test_1_LOOCV_HC+BIC_unconstrained/tables_Inteligencia_Artificial/latex_tables.py:61-67 | the locator's state after one more piece |
| LatexTables.LocateSections | Test_1_LOOCV_HC+BIC_unconstrained/tables_Inteligencia_Artificial/latex_tables.py:61-67 | returns the located sections |
| LatexTables.AssignedTies | Test_1_LOOCV_HC+BIC_unconstrained/tables_Inteligencia_Artificial/latex_tables.py:74-78 | each tie counter is set from its heading, or kept |
| LatexTables.ActionLinePattern | Test_1_LOOCV_HC+BIC_unconstrained/tables_Inteligencia_Artificial/latex_tables.py:84 | four groups: a word and three digit runs |
| LatexTables.ActionLines | Test_1_LOOCV_HC+BIC_unconstrained/tables_Inteligencia_Artificial/latex_tables.py:84 | every match has a name and three digit runs |
| LatexTables.LastField | Test_1_LOOCV_HC+BIC_unconstrained/tables_Inteligencia_Artificial/latex_tables.py:85-90 | a field of the last match naming the action is a digit run |
| LatexTables.UnnamedKeeps | Test_1_LOOCV_HC+BIC_unconstrained/tables_Inteligencia_Artificial/latex_tables.py:85-90 | an action no match names keeps its counter |
| LatexTables.LastMatchWins | Test_1_LOOCV_HC+BIC_unconstrained/tables_Inteligencia_Artificial/latex_tables.py:85-90 | counters are assigned: the last match naming an action decides it |
| LatexTables.AssignedActions | Test_1_LOOCV_HC+BIC_unconstrained/tables_Inteligencia_Artificial/latex_tables.py:85-90 | each action's counter after the loop |
| LatexTables.AssignActions | Test_1_LOOCV_HC+BIC_unconstrained/tables_Inteligencia_Artificial/latex_tables.py:85-90 | selected and safe counters afterwards are `AssignedActions` |
| LatexTables.AssignTies | Test_1_LOOCV_HC+BIC_unconstrained/tables_Inteligencia_Artificial/latex_tables.py:74-78 | returns `AssignedTies` |
| LatexTables.AssignedSection | Test_1_LOOCV_HC+BIC_unconstrained/tables_Inteligencia_Artificial/latex_tables.py:70-101 | a section's counters as evidently meant, in the dictionaries' shape |
| LatexTables.AssignedSectionTwice | Test_1_LOOCV_HC+BIC_unconstrained/tables_Inteligencia_Artificial/latex_tables.py:70-135 | processing a section twice is the same as once |
| LatexTables.AssignSection | Test_1_LOOCV_HC+BIC_unconstrained/tables_Inteligencia_Artificial/latex_tables.py:74-101 | returns `AssignedSection` |
| LatexTables.CrashAsWritten | Test_1_LOOCV_HC+BIC_unconstrained/tables_Inteligencia_Artificial/latex_tables.py:70-102 | as written, the section raises exactly when only the `True -> True` line is present |
| LatexTables.NoCrashAsWritten | Test_1_LOOCV_HC+BIC_unconstrained/tables_Inteligencia_Artificial/latex_tables.py:105-135 | as written, the section raises exactly when only the `False -> True` line is present |
| LatexTables.FalseTrueCopiesFalseFalse | Test_1_LOOCV_HC+BIC_unconstrained/tables_Inteligencia_Artificial/latex_tables.py:127-135 | with both no-crash lines present, the script stores the `False -> False` count under `False_True` |
| LatexTables.NoCrashAsWrittenAgrees | Test_1_LOOCV_HC+BIC_unconstrained/tables_Inteligencia_Artificial/latex_tables.py:105-135 | without a `False -> True` line, the as-written no-crash section equals the corrected one |
| LatexTables.SummaryAdded | Test_1_LOOCV_HC+BIC_unconstrained/tables_Inteligencia_Artificial/latex_tables.py:141-147 | per transition, what the prefixed summary line adds |
| LatexTables.SectionsUpdate | Test_1_LOOCV_HC+BIC_unconstrained/tables_Inteligencia_Artificial/latex_tables.py:70-147 | the three located sections' effect, in the dictionaries' shape (corrected reading of lines 102 and 134) |
| LatexTables.ReportUpdate | Test_1_LOOCV_HC+BIC_unconstrained/tables_Inteligencia_Artificial/latex_tables.py:51-147 | a section that is absent changes nothing of its counters (corrected reading of lines 102 and 134) |
| LatexTables.ReportAsWritten | Test_1_LOOCV_HC+BIC_unconstrained/tables_Inteligencia_Artificial/latex_tables.py:51-151 | one report as written, in the dictionaries' shape |
| LatexTables.UnsafeOnlyCrashSkipsRest | Test_1_LOOCV_HC+BIC_unconstrained/tables_Inteligencia_Artificial/latex_tables.py:99-150 | as written, a crash section with only `True -> True` keeps the crash counters but skips no-crash and summary |
| LatexTables.AsWrittenAgrees | Test_1_LOOCV_HC+BIC_unconstrained/tables_Inteligencia_Artificial/latex_tables.py:51-151 | where neither defect is reached, as written equals as meant |
| LatexTables.ReportUpdateTwice | Test_1_LOOCV_HC+BIC_unconstrained/tables_Inteligencia_Artificial/latex_tables.py:51-147 | reading a report twice keeps its section counters and adds the summary twice |
| LatexTables.AddSummary | Test_1_LOOCV_HC+BIC_unconstrained/tables_Inteligencia_Artificial/latex_tables.py:141-147 | the summary grows by `SummaryAdded` |
| LatexTables.UpdateSections | Test_1_LOOCV_HC+BIC_unconstrained/tables_Inteligencia_Artificial/latex_tables.py:70-147 | the counters afterwards are `SectionsUpdate`, and the summary grows by its summary (corrected reading) |
| LatexTables.FileUpdate | Test_1_LOOCV_HC+BIC_unconstrained/tables_Inteligencia_Artificial/latex_tables.py:36-151 | a missing or unreadable report changes nothing; a present one is `ReportUpdate` (corrected reading) |
| LatexTables.Updates | Test_1_LOOCV_HC+BIC_unconstrained/tables_Inteligencia_Artificial/latex_tables.py:28-154 | every percentage's update is `FileUpdate` of its report (corrected reading) |
| LatexTables.SummaryRows | Test_1_LOOCV_HC+BIC_unconstrained/tables_Inteligencia_Artificial/latex_tables.py:141-147 | one summary row per percentage |
| LatexTables.RunSpec | Test_1_LOOCV_HC+BIC_unconstrained/tables_Inteligencia_Artificial/latex_tables.py:11-154 | the counters after the loop, from zero, in the corrected reading |
| LatexTables.MissingReportCountsNothing | Test_1_LOOCV_HC+BIC_unconstrained/tables_Inteligencia_Artificial/latex_tables.py:36-45 | a missing or unreadable report leaves its percentage at zero |
| LatexTables.FinalSummaryOverPercentages | Test_1_LOOCV_HC+BIC_unconstrained/tables_Inteligencia_Artificial/latex_tables.py:141-147 | `final_summary` is the sum over the percentages of what each report adds |
| LatexTables.LatexCounters.constructor | Test_1_LOOCV_HC+BIC_unconstrained/tables_Inteligencia_Artificial/latex_tables.py:11-19 | every counter at zero |
| LatexTables.LatexCounters.ProcessReport | Test_1_LOOCV_HC+BIC_unconstrained/tables_Inteligencia_Artificial/latex_tables.py:46-147 | the percentage's counters become `ReportUpdate` (corrected reading), the others stay |
| LatexTables.LatexCounters.ProcessFile | Test_1_LOOCV_HC+BIC_unconstrained/tables_Inteligencia_Artificial/latex_tables.py:28-151 | a missing or unreadable report changes nothing, otherwise as `ProcessReport` (corrected reading) |
| LatexTables.LatexCounters.ProcessAll | Test_1_LOOCV_HC+BIC_unconstrained/tables_Inteligencia_Artificial/latex_tables.py:28-154 | every percentage updated, the summary summed over the percentages (corrected reading) |
| LatexTables.FileAsWritten | Test_1_LOOCV_HC+BIC_unconstrained/tables_Inteligencia_Artificial/latex_tables.py:36-151 | one path as written: a missing report changes nothing, and a report clear of both defects gives `FileUpdate` |
| LatexTables.UpdatesAsWritten | Test_1_LOOCV_HC+BIC_unconstrained/tables_Inteligencia_Artificial/latex_tables.py:28-154 | every percentage's update as written is `FileAsWritten` of its report |
| LatexTables.RunAsWritten | Test_1_LOOCV_HC+BIC_unconstrained/tables_Inteligencia_Artificial/latex_tables.py:11-154 | the counters after the loop as the script is written, from zero |
| LatexTables.RunAsWrittenAgrees | Test_1_LOOCV_HC+BIC_unconstrained/tables_Inteligencia_Artificial/latex_tables.py:28-154 | when no present report reaches either defect, the run as written equals the corrected run |
| LatexTables.RunAsWrittenSkipsRest | Test_1_LOOCV_HC+BIC_unconstrained/tables_Inteligencia_Artificial/latex_tables.py:99-154 | as written, a report whose crash section has only `True -> True` sets the crash counters as the corrected run does, leaves its no-crash counters at zero and adds nothing to the summary |
| LatexTables.PrintedOutcomeTables | Test_1_LOOCV_HC+BIC_unconstrained/tables_Inteligencia_Artificial/latex_tables.py:235-322 | the printed Safe/Unsafe tables show the transition counts the parsing left |
| LatexTables.Run | Test_1_LOOCV_HC+BIC_unconstrained/tables_Inteligencia_Artificial/latex_tables.py:11-154 | returns `RunSpec`, the corrected reading |
| LatexTables.ActionLinesAreAllMatches | Test_1_LOOCV_HC+BIC_unconstrained/tables_Inteligencia_Artificial/latex_tables.py:84 | `action_lines` holds the groups of every successive leftmost non-overlapping action-line match of the section, in order |
| LatexTables.AssignOne | Test_1_LOOCV_HC+BIC_unconstrained/tables_Inteligencia_Artificial/latex_tables.py:85-90 | one match sets its action's selected and safe counters, and changes nothing for an unknown action |
| LatexTables.LatexCounters.ProcessPercentage | Test_1_LOOCV_HC+BIC_unconstrained/tables_Inteligencia_Artificial/latex_tables.py:28-154 | percentage `p`'s counters become their update from its report, and the summary gains that report's row (corrected reading) |
| WhatIfQuery.Echo | Test_1_LOOCV_final/Test_1_LOOCV_rep_1/25/run_WhatIf_V3.py:199-209 | each output line starts with the eleven row texts, `labeled_lc` ninth and `iaction` last |
| WhatIfQuery.Phase | Test_1_LOOCV_final/Test_1_LOOCV_rep_1/25/run_WhatIf_V3.py:101-144 | the phase is false exactly for the text `True` |
| WhatIfQuery.AtomInjective | Test_1_LOOCV_final/Test_1_LOOCV_rep_1/25/run_WhatIf_V3.py:168-172 | different actions have different `action(...)` atoms |
| WhatIfQuery.StateKeyCount | Test_1_LOOCV_final/Test_1_LOOCV_rep_1/25/run_WhatIf_V3.py:101-144 | the eight state columns are distinct |
| WhatIfQuery.AtomIsNoStateKey | Test_1_LOOCV_final/Test_1_LOOCV_rep_1/25/run_WhatIf_V3.py:101-144 | no action atom is a state column |
| WhatIfQuery.TruthTuples | Test_1_LOOCV_final/Test_1_LOOCV_rep_1/25/run_WhatIf_V3.py:45-49 | tuple `i` has `n` entries, `'True'` exactly at position `i` |
| WhatIfQuery.InterventionsKeys | Test_1_LOOCV_final/Test_1_LOOCV_rep_1/25/run_WhatIf_V3.py:168-172 | the interventions name exactly the actions' atoms |
| WhatIfQuery.InterventionsChoose | Test_1_LOOCV_final/Test_1_LOOCV_rep_1/25/run_WhatIf_V3.py:168-172 | with distinct actions, the chosen action is false and every other true |
| WhatIfQuery.EvidenceAtoms | Test_1_LOOCV_final/Test_1_LOOCV_rep_1/25/run_WhatIf_V3.py:101-144 | the evidence has exactly nine atoms, and the observed atom holds the given value |
| WhatIfQuery.IndexIn | Test_1_LOOCV_final/Test_1_LOOCV_rep_1/25/run_WhatIf_V3.py:149-150 | `actions.index(a)` is a position holding `a` |
| WhatIfQuery.ChosenSetsIaction | Test_1_LOOCV_final/Test_1_LOOCV_rep_1/25/run_WhatIf_V3.py:149-172 | the interventions for `iaction` name every action and only them, `iaction` false and every other true |
| WhatIfV3.ActionClause | Test_1_LOOCV_final/Test_1_LOOCV_rep_1/25/run_WhatIf_V3.py:30 | `action\(([^)]+)\)\s*:-` captures one `[^)]+` group |
| WhatIfV3.NotCloseGroups | Test_1_LOOCV_final/Test_1_LOOCV_rep_1/25/run_WhatIf_V3.py:30 | every captured name is non-empty and has no `)` |
| WhatIfV3.ClauseHeads | Test_1_LOOCV_final/Test_1_LOOCV_rep_1/25/run_WhatIf_V3.py:30 | every rule-head name is non-empty and has no `)` |
| WhatIfV3.Unique | Test_1_LOOCV_final/Test_1_LOOCV_rep_1/25/run_WhatIf_V3.py:32-34 | no repeats and the same names |
| WhatIfV3.UniqueFirstSeen | Test_1_LOOCV_final/Test_1_LOOCV_rep_1/25/run_WhatIf_V3.py:32-34 | the unique names keep their first-seen order |
| WhatIfV3.Discovered | Test_1_LOOCV_final/Test_1_LOOCV_rep_1/25/run_WhatIf_V3.py:22-41 | distinct names with no `)`, exactly the rule heads; none when the file is missing |
| WhatIfV3.DiscoverActions | Test_1_LOOCV_final/Test_1_LOOCV_rep_1/25/run_WhatIf_V3.py:22-41 | returns `Discovered` |
| WhatIfV3.Evidence | Test_1_LOOCV_final/Test_1_LOOCV_rep_1/25/run_WhatIf_V3.py:89-144 | nine atoms, the observed action's atom false |
| WhatIfV3.BuildEvidence | Test_1_LOOCV_final/Test_1_LOOCV_rep_1/25/run_WhatIf_V3.py:89-144 | returns `Evidence` |
| WhatIfV3.BuildInterventions | Test_1_LOOCV_final/Test_1_LOOCV_rep_1/25/run_WhatIf_V3.py:168-172 | returns the interventions for index `k` |
| WhatIfV3.Asked | Test_1_LOOCV_final/Test_1_LOOCV_rep_1/25/run_WhatIf_V3.py:94-166 | a query exactly when both the observed action and `iaction` are known |
| WhatIfV3.AskedIntervenesOnIaction | Test_1_LOOCV_final/Test_1_LOOCV_rep_1/25/run_WhatIf_V3.py:101-172 | a query intervenes on every action, `iaction` false, with nine evidence atoms and the observed atom false |
| WhatIfV3.RowStep | Test_1_LOOCV_final/Test_1_LOOCV_rep_1/25/run_WhatIf_V3.py:94-217 | skipped exactly for an unknown observed action, a 1.0/0.0 placeholder exactly for an unknown `iaction`, echoed fields on a queried line |
| WhatIfV3.UnaskedIgnoresEngine | Test_1_LOOCV_final/Test_1_LOOCV_rep_1/25/run_WhatIf_V3.py:94-166 | a row that makes no query does not depend on the engine |
| WhatIfV3.EmittedAppend | Test_1_LOOCV_final/Test_1_LOOCV_rep_1/25/run_WhatIf_V3.py:84-217 | the lines of a concatenation are the concatenated lines |
| WhatIfV3.ClockedAppend | Test_1_LOOCV_final/Test_1_LOOCV_rep_1/25/run_WhatIf_V3.py:84-217 | the times of a concatenation are the concatenated times |
| WhatIfV3.Steps | Test_1_LOOCV_final/Test_1_LOOCV_rep_1/25/run_WhatIf_V3.py:84-217 | one step per row |
| WhatIfV3.Lines | Test_1_LOOCV_final/Test_1_LOOCV_rep_1/25/run_WhatIf_V3.py:84-217 | at most one line per row |
| WhatIfV3.Times | Test_1_LOOCV_final/Test_1_LOOCV_rep_1/25/run_WhatIf_V3.py:205-209 | at most one time per row |
| WhatIfV3.StepsAppend | Test_1_LOOCV_final/Test_1_LOOCV_rep_1/25/run_WhatIf_V3.py:84-217 | rows are handled independently |
| WhatIfV3.SilentStepWritesNothing | Test_1_LOOCV_final/Test_1_LOOCV_rep_1/25/run_WhatIf_V3.py:94-217 | a skipped or failed step writes nothing |
| WhatIfV3.SilentStepTimesNothing | Test_1_LOOCV_final/Test_1_LOOCV_rep_1/25/run_WhatIf_V3.py:94-217 | a skipped or failed step appends no time |
| WhatIfV3.SilentRowWritesNothing | Test_1_LOOCV_final/Test_1_LOOCV_rep_1/25/run_WhatIf_V3.py:94-217 | a row with an unknown observed action, or whose query raises, changes neither output |
| WhatIfV3.NoActionsNoLines | Test_1_LOOCV_final/Test_1_LOOCV_rep_1/25/run_WhatIf_V3.py:40-99 | without actions nothing is written |
| WhatIfV3.QueriedStepsEmitted | Test_1_LOOCV_final/Test_1_LOOCV_rep_1/25/run_WhatIf_V3.py:199-209 | answered steps write one line and one time each, in order |
| WhatIfV3.AnsweredRowsAllWritten | Test_1_LOOCV_final/Test_1_LOOCV_rep_1/25/run_WhatIf_V3.py:199-209 | when every row is answered, each row gets its own line and time, in order |
| WhatIfV3.HandleRow | Test_1_LOOCV_final/Test_1_LOOCV_rep_1/25/run_WhatIf_V3.py:84-217 | returns what `RowStep` writes and times |
| WhatIfV3.RunWhatIf | Test_1_LOOCV_final/Test_1_LOOCV_rep_1/25/run_WhatIf_V3.py:14-217 | returns `Lines` and `Times` for the discovered actions |
| WhatIfV3.ClauseHeadsAreAllMatches | Test_1_LOOCV_final/Test_1_LOOCV_rep_1/25/run_WhatIf_V3.py:30 | the names are the groups of every successive leftmost non-overlapping `action(...) :-` match of the text, in order |
| WhatIfV3.UniqueNames | Test_1_LOOCV_final/Test_1_LOOCV_rep_1/25/run_WhatIf_V3.py:32-34 | the loop keeps each found name once, in first-seen order, as `Unique` does |
| WhatIfV3.RunRows | Test_1_LOOCV_final/Test_1_LOOCV_rep_1/25/run_WhatIf_V3.py:85-217 | the row loop writes `Lines` and records `Times` of the rows |
| WhatIfV4.Occurring | Test_1_LOOCV_final_no_structure/run_WhatIf_V4.py:24 | exactly the names that occur in the text, without repeats |
| WhatIfV4.DiscoveredActions | Test_1_LOOCV_final_no_structure/run_WhatIf_V4.py:18-29 | distinct, exactly the six names that occur in the file; none when it is missing |
| WhatIfV4.EnteredFirstFive | Test_1_LOOCV_final_no_structure/run_WhatIf_V4.py:50-57 | the first five loop steps enter the observed atom and four state columns |
| WhatIfV4.EnteredAll | Test_1_LOOCV_final_no_structure/run_WhatIf_V4.py:50-57 | the loop enters the nine atoms, the observed one with the phase of the action's name |
| WhatIfV4.Evidence | Test_1_LOOCV_final_no_structure/run_WhatIf_V4.py:50-57 | nine atoms, the observed atom holding the phase of the action's name |
| WhatIfV4.BuildEvidence | Test_1_LOOCV_final_no_structure/run_WhatIf_V4.py:50-57 | returns `Evidence` |
| WhatIfV4.ObservedActionPolarity | Test_1_LOOCV_final_no_structure/run_WhatIf_V4.py:53-55 | V3 and V4 evidence differ only in the observed atom: false in V3, true in V4 unless the action is named `True` |
| WhatIfV4.ZippedTruth | Test_1_LOOCV_final_no_structure/run_WhatIf_V4.py:73-74 | the zipped interventions are those for index `k` |
| WhatIfV4.RowOutcome | Test_1_LOOCV_final_no_structure/run_WhatIf_V4.py:49-90 | none exactly when the query raises; otherwise the echoed fields and fold, one time exactly for a known `iaction`, 1.0/0.0 for the placeholder |
| WhatIfV4.GatherFailsIffMissing | Test_1_LOOCV_final_no_structure/run_WhatIf_V4.py:46-92 | gathering fails exactly when some outcome is missing |
| WhatIfV4.GatherKeepsAll | Test_1_LOOCV_final_no_structure/run_WhatIf_V4.py:46-92 | one tuple per outcome, in order, and all their times |
| WhatIfV4.Outcomes | Test_1_LOOCV_final_no_structure/run_WhatIf_V4.py:46-92 | one outcome per row |
| WhatIfV4.Mapped | Test_1_LOOCV_final_no_structure/run_WhatIf_V4.py:60-71 | the rows whose `iaction` is an action are at most all rows |
| WhatIfV4.TimesOfMappedRows | Test_1_LOOCV_final_no_structure/run_WhatIf_V4.py:84 | when no query raises, exactly the rows with a known `iaction` append a time |
| WhatIfV4.RunFailsIffRaises | Test_1_LOOCV_final_no_structure/run_WhatIf_V4.py:79-82 | the fold fails exactly when some row's query raises |
| WhatIfV4.RunShape | Test_1_LOOCV_final_no_structure/run_WhatIf_V4.py:46-92 | without exceptions, one tuple per row, in order, echoing the row with the fold |
| WhatIfV4.HandleRow | Test_1_LOOCV_final_no_structure/run_WhatIf_V4.py:49-90 | returns `RowOutcome` |
| WhatIfV4.OutcomesStep | Test_1_LOOCV_final_no_structure/run_WhatIf_V4.py:46-92 | one more row appends its outcome |
| WhatIfV4.GatherStep | Test_1_LOOCV_final_no_structure/run_WhatIf_V4.py:46-92 | one more outcome extends the results, or fails |
| WhatIfV4.RunRows | Test_1_LOOCV_final_no_structure/run_WhatIf_V4.py:46-92 | returns `Run` |
| WhatIfV4.RunWhatIf | Test_1_LOOCV_final_no_structure/run_WhatIf_V4.py:10-92 | returns `Run` of the discovered actions |
| TrialSequences.Concat | Test_2/Myriam_mundos_1_4_5/Experiments/Myriam-straight_road_left-MLP_world_1/extract_all_sequences.py:22-30 | the sequences put together |
| TrialSequences.ConcatAppend | Test_2/Myriam_mundos_1_4_5/Experiments/Myriam-straight_road_left-MLP_world_1/extract_all_sequences.py:26-30 | one more sequence appends its rows |
| TrialSequences.SegmentationOfEmpty | Test_2/Myriam_mundos_1_4_5/Experiments/Myriam-straight_road_left-MLP_world_1/extract_all_sequences.py:29-30 | no sequence exactly when there is no row |
| TrialSequences.SegmentationUnique | Test_2/Myriam_mundos_1_4_5/Experiments/Myriam-straight_road_left-MLP_world_1/extract_all_sequences.py:22-30 | a log has only one segmentation |
| TrialSequences.CutStartsSequence | Test_2/Myriam_mundos_1_4_5/Experiments/Myriam-straight_road_left-MLP_world_1/extract_all_sequences.py:25-28 | the first sequence ends just before the next `iteration == 1` row |
| TrialSequences.TailSegmented | Test_2/Myriam_mundos_1_4_5/Experiments/Myriam-straight_road_left-MLP_world_1/extract_all_sequences.py:22-30 | dropping the first sequence keeps the shape |
| TrialSequences.SegmentedStart | Test_2/Myriam_mundos_1_4_5/Experiments/Myriam-straight_road_left-MLP_world_1/extract_all_sequences.py:25-28 | an `iteration == 1` row may start a sequence |
| TrialSequences.SegmentedExtend | Test_2/Myriam_mundos_1_4_5/Experiments/Myriam-straight_road_left-MLP_world_1/extract_all_sequences.py:25-28 | another row may extend the current sequence |
| TrialSequences.Split | Test_2/Myriam_mundos_1_4_5/Experiments/Myriam-straight_road_left-MLP_world_1/extract_all_sequences.py:22-30 | the sequences give back the rows, none is empty, each after the first starts with `iteration == 1`, no later row has it; none exactly for no rows |
| TrialSequences.TrialId | Test_2/Myriam_mundos_1_4_5/Experiments/Myriam-straight_road_left-MLP_world_1/extract_all_sequences.py:47 | `num_trial` of the first row when the column exists, else the 1-based position |
| TrialSequences.Ids | Test_2/Myriam_mundos_1_4_5/Experiments/Myriam-straight_road_left-MLP_world_1/extract_all_sequences.py:40-52 | at most one id per sequence |
| TrialSequences.IdsPartition | Test_2/Myriam_mundos_1_4_5/Experiments/Myriam-straight_road_left-MLP_world_1/extract_all_sequences.py:49-52 | successful and failed ids together are as many as the sequences |
| TrialSequences.IdsListed | Test_2/Myriam_mundos_1_4_5/Experiments/Myriam-straight_road_left-MLP_world_1/extract_all_sequences.py:44-52 | every listed id is the id of a sequence with that outcome |
| TrialSequences.IdsComplete | Test_2/Myriam_mundos_1_4_5/Experiments/Myriam-straight_road_left-MLP_world_1/extract_all_sequences.py:44-52 | every sequence with that outcome has its id listed |
| TrialSequences.IdsMembers | Test_2/Myriam_mundos_1_4_5/Experiments/Myriam-straight_road_left-MLP_world_1/extract_all_sequences.py:44-52 | an id is listed exactly when some sequence with that outcome has it |
| TrialSequences.PositionIds | Test_2/Myriam_mundos_1_4_5/Experiments/Myriam-straight_road_left-MLP_world_1/extract_all_sequences.py:47-52 | without `num_trial`, position `k + 1` is listed exactly when sequence `k` has that outcome |
| TrialSequences.Classify | Test_2/Myriam_mundos_1_4_5/Experiments/Myriam-straight_road_left-MLP_world_1/extract_all_sequences.py:36-52 | with a `success` column the lists are the ids by outcome and add up to the sequences; without one both are empty |
| TrialSequences.ExtractAll | Test_2/Myriam_mundos_1_4_5/Experiments/Myriam-straight_road_left-MLP_world_1/extract_all_sequences.py:22-52 | the segmentation and both id lists |

## Left out

- scikit-learn training and `predict_proba`: the class list of the encoder and the probability matrix are inputs of `NbFold.Probabilities`. Pickle loading is reduced to "model present or not".
- All CSV and TXT reading and writing. A file is modelled as its parsed rows or its text, and the values written are modelled as sequences.
- Floating point arithmetic. Probabilities and elapsed times are `real`. The `.1f`/`.2f` formatting of percentages, `str(float)`, and the LaTeX and console text are left out. `NbReport.PreventionRate` and `Tables.SafePercent` are exact rationals.
- The `NaN` fill that `pd.concat` applies to columns missing from some folds: every fold of one run has the same columns in the model.
- `sort_values` is modelled as a stable insertion sort on `(group_id, ranking)`. Pandas sorts on several columns with a stable lexicographic sort, so rows with equal keys keep their input order in both (`NbReport.SortRowsStable`).
- The order of `value_counts`: the action distribution is modelled as a multiset.
- The `KeyError` that pandas raises when no result has an `iaction` column is left out.
- The twin-network ranking and contingency generation live in an R script (`best_interventions.R`). That script is not part of this model.
- The other exceptions `process_nb_fold` may raise, other than the three `None` paths, are left out.
- `NbFold.Probabilities`: the `map`/`to_numeric` cleaning of feature columns feeds only scikit-learn, so it is left out together with it.
- `WhatIfV4.DiscoveredActions`: Python's set iteration order is unspecified. The order of the discovered actions is a parameter (`order`), constrained to list exactly the occurring names once each.
- The engine (`CounterfactualProgram.single_query`), its configuration and its logger are one function parameter (`Engine`). The wall clock is folded into its answer. The `whatif_call` messages, the header line and the `%%%%` first line of `elapsed_time.csv`, and the `output_found_actions` file are left out.
- Only `FileNotFoundError` is modelled for the program file (content `None`). A row from `csv.DictReader` is a complete `TestRow`: short rows and missing columns are left out.
- A failure of `float(output_query[0])` is folded into the engine raising (`Raised`).
- `WhatIfQuery.EvidenceAtoms`: states the keys, their number and the observed atom, not the value of each state atom. `WhatIfV3.Evidence` and `WhatIfV4.EnteredAll` state each value as the phase of its text.
- `PyInt.SafeIntConvert`: `int()` is modelled on ASCII digits only, while Python also reads every Unicode decimal digit (`int("٣")` is 3). Every `int()` call in the scripts takes a `\d+` capture, which is ASCII in the model.
- `\w` and `\d` match ASCII characters only; whitespace (`PyText.IsSpace`) is Python's full `str.isspace` set. `re.search` on a plain name is a substring search (`PyText.Contains`).
- `Frames.JoinInjective`: keys are compared field by field only when the state values contain no `_` (the real state values are `True`/`False` and lane numbers).
- `TrialSequences`: the kilometre total (lines 66-76), the CSV output (lines 78-87) and the printed report are left out. `success` is modelled as its truth value, and `iteration`/`num_trial` as integers. Pandas' float upcasting and `NaN` are left out.
- `LatexTables.SectionsUpdate`: computes the corrected reading of lines 102 and 134 of `latex_tables.py` (see Findings), not the script as written. The script as written is `LatexTables.ReportAsWritten`, and `LatexTables.AsWrittenAgrees` states when the two agree.
- `LatexTables.ReportUpdate`: the corrected reading of one report, like `SectionsUpdate`. As written is `LatexTables.ReportAsWritten`.
- `LatexTables.UpdateSections`: returns the corrected reading (`SectionsUpdate`). It does not model the `AttributeError` of line 102 or the `False_True` copy of line 134.
- `LatexTables.FileUpdate`: applies the corrected reading to a present report. As written is `LatexTables.FileAsWritten`.
- `LatexTables.Updates`: the corrected reading for every percentage. As written is `LatexTables.UpdatesAsWritten`.
- `LatexTables.RunSpec`: the run in the corrected reading. The script as written is `LatexTables.RunAsWritten`. `LatexTables.RunAsWrittenAgrees` proves the two equal when no present report reaches either defect, and `LatexTables.RunAsWrittenSkipsRest` states what differs when the crash section has only the `True -> True` line.
- `LatexTables.LatexCounters.ProcessReport`: updates the counters in the corrected reading, not as written.
- `LatexTables.LatexCounters.ProcessFile`: the corrected reading, like `ProcessReport`.
- `LatexTables.LatexCounters.ProcessPercentage`: the corrected reading, like `ProcessReport`.
- `LatexTables.LatexCounters.ProcessAll`: the corrected reading. It ends with the counters of `RunSpec`, which equal those of `RunAsWritten` only under `RunAsWrittenAgrees`' condition.
- `LatexTables.Run`: returns `RunSpec`, the corrected reading. The script as written is `RunAsWritten`.
- `Cumulative`: a parse error inside one report is modelled as an `Unreadable` file, which contributes nothing. A text that was read cannot raise in the modelled parsing steps.

## Findings

| source | as written | input that shows it | evidently intended | confidence | as-written member | corrected member |
|---|---|---|---|---|---|---|
| Test_1_LOOCV_HC+BIC_unconstrained/tables_Inteligencia_Artificial/latex_tables.py:134 | `False_True` is assigned from the `False -> False` match | a no-crash section holding "False -> False: 3" and "False -> True: 5" stores 3 under `False_True` | `False_True` takes the `False -> True` count (5) | medium, not executed | LatexTables.FalseTrueCopiesFalseFalse | LatexTables.AssignedSection |
| Test_1_LOOCV_HC+BIC_unconstrained/tables_Inteligencia_Artificial/latex_tables.py:102 | the message prints `safe_match.group(1)` when only the unsafe line matched | a crash section with "True -> True: 2" and no "True -> False" line raises `AttributeError`, so the no-crash section and the summary of that report are skipped | the message uses the match that exists and parsing continues | medium, not executed | LatexTables.UnsafeOnlyCrashSkipsRest | LatexTables.ReportUpdate |
