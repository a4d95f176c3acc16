# npoed grading features: a verified model of unit-level ("vertical") grading

This project models the grading core of `npoed_grading_features` and of its older sibling package `vertical_grading` in Dafny. Both are add-ons for the Open edX course grader.

**Vertical grading.** It scores a course by *units* instead of by individual problems:
- each unit (`vertical`) with a weight collapses the scores of its children into one pseudo problem score;
- the "drop the `drop_count` worst assignments" rule drops the worst units instead of whole subsections.

**Passing-grade overlay.** It adds three things:
- a passing threshold per assignment type;
- a "passed" verdict that combines the course cutoff with those per-category thresholds;
- letter-grade resolution and failure marks in the grade summary.

**Small tables.** The project also models:
- the per-course feature-flag table and the per-(course, user) passing-status store;
- the "best score only" rule for stored problem grades;
- the reference course-score computation that the package's tests compare the real grader against.

**Modelling conventions**
- Scores are exact `real`s.
- A Python `dict` is an `OrderedDicts.Dict`, a key order (`seq`, no repeats) together with a `map`. Every scan visits keys in that order, because the tie-breaks depend on it.
- Python exceptions raised on the code's own paths become `Wrappers.Result.Crash(e)` values, never preconditions. Examples are a division by zero, unpacking `zip(*[])`, a missing key, a misspelt attribute, and a `TypeError` from comparing or converting `None`.
- Code that loops or mutates is modelled as a `method` or a `class`. Each is proved equal to a specification function, and the lemmas beside that function state what the source promises.

Where the system's design description and its code differ, the model follows the code:
- zero total possible points in a category make `_find_worst_score` raise `ZeroDivisionError` (npoed_grading_features/utils.py:143); they do not score as 0;
- a category passes its threshold only when its percent is strictly above it, and this holds for every category, including those with a 0 threshold (npoed_grading_features/enable_passing_grade.py:56);
- a key-set mismatch between the breakdown and the graders counts as a pass (line 55);
- the failure mark names `100 * threshold` unrounded and does not name the student's percent (lines 89-91);
- a breakdown category without a grader raises `KeyError` in `summary` (line 87) and in the test oracle's course sum (npoed_grading_features/tests/test_utils.py:227); it does not contribute 0;
- the drop loop of `AssignmentFormatGrader.grade` applies exactly `drop_count` passes, with no `min_count` floor (npoed_grading_features/enable_vertical_grading.py:145-147).

Modules, one per source concern:

| module | source |
|---|---|
| `Wrappers`, `Keys`, `OrderedDicts`, `Repeat` | Option/Result, edX keys, ordered dicts, "apply a step `n` times" |
| `UnitChildren` | the child-collection loop shared by every `get_vertical_score` copy |
| `NpoedModels` | npoed_grading_features/models.py |
| `NpoedUtils` | npoed_grading_features/utils.py |
| `NpoedVerticalGrading` | npoed_grading_features/enable_vertical_grading.py |
| `PassingGrade` | npoed_grading_features/enable_passing_grade.py (its `parse_grader`, `jsonize_grader` and category check are identical in vertical_grading/enable_passing_grade.py) |
| `VgPassingGrade` | vertical_grading/enable_passing_grade.py |
| `VerticalGradingUtils` | vertical_grading/utils.py |
| `VerticalGradingMixins` | vertical_grading/mixins.py and vertical_grading/subsection_mixins.py |
| `ProblemBestScore` | npoed_grading_features/enable_problem_best_score.py |
| `TestOracle` | npoed_grading_features/tests/test_utils.py `_grade_tree`, with test_vertical_grading.py `test_percent` as a worked example |

The pseudo-score code exists in four copies:
- vertical_grading/utils.py, vertical_grading/mixins.py and vertical_grading/subsection_mixins.py hold the same `get_vertical_score`. It is modelled once, as `VerticalGradingUtils.GetVerticalScore`, which the mixin class calls.
- The npoed copy differs: its raw fields are the weighted values, its weight is 1, and it carries `first_attempted`, the `max` of the children's attempt times. It is modelled as `NpoedUtils.GetVerticalScore`.

## Model

| member | source | states |
|---|---|---|
| UnitChildren.CollectChildScores | npoed_grading_features/utils.py:37-54 | the loop keeps, in order, exactly the scores of accessible children with `has_score` and a truthy score; inaccessible (`KeyError`) and unscored children are skipped |
| UnitChildren.CollectedMembers | vertical_grading/utils.py:29-46 | a score is collected iff some child contributes it |
| UnitChildren.CollectedEmpty | vertical_grading/utils.py:47-48 | nothing is collected iff no child contributes a score |
| UnitChildren.SumsBounded | vertical_grading/utils.py:49-52 | sums of scores with `0 <= earned <= possible` keep `0 <= Σearned <= Σpossible` |
| UnitChildren.MaxFirstAttempted | npoed_grading_features/utils.py:61-62 | the intended unit attempt time: `None` iff no child was attempted, otherwise the latest attempt time among the attempted children |
| UnitChildren.MaxFirstAttemptedAsWritten | npoed_grading_features/utils.py:61-62 | Python 2 `max` over the attempt times as written: `TypeError` iff some children were attempted and some were not; otherwise the same time as `MaxFirstAttempted` |
| UnitChildren.PartlyAttemptedUnitRaises | npoed_grading_features/utils.py:61-62 | one attempted and one unattempted child: the code raises `TypeError` where the attempt time 5 was meant |
| NpoedUtils.VerticalGradingEnabled | npoed_grading_features/utils.py:7-8 | on iff the settings switch is on and the course's row exists with the vertical flag set |
| NpoedUtils.PseudoScore | npoed_grading_features/utils.py:57-72 | possible and raw possible are the unit weight; earned/possible equals Σearned/Σpossible; raw earned equals weighted earned; weight 1; `graded` is the OR of the children's flags; `first_attempted` is `None` iff no child was attempted, else one of the children's attempt times and at least every other; for a positive weight and well-formed children, `0 <= earned <= possible` |
| NpoedUtils.ScaledShare | npoed_grading_features/utils.py:57-60 | `w·e/p` keeps the share `e/p` of `w` and lies in `[0, w]` |
| NpoedUtils.GetVerticalScore | npoed_grading_features/utils.py:13-73 | `None` iff not a vertical, the weight is absent or zero, or no child scored; a crash iff the collected possible points sum to 0 (`ZeroDivisionError`) or the scored children are partly attempted (`TypeError`); otherwise the pseudo-score |
| NpoedUtils.UnitTree | npoed_grading_features/utils.py:168-173 | same unit keys in the same order, each mapped to `(earned, possible)` |
| NpoedUtils.TreeOf | npoed_grading_features/utils.py:154-174 | same subsection keys in the same order, each mapped to its unit tree |
| NpoedUtils.BuildUnitGrades | npoed_grading_features/utils.py:170-173 | the inner loop builds exactly the subsection's unit tree |
| NpoedUtils.BuildTreeFromGrades | npoed_grading_features/utils.py:154-174 | `_build_tree_from_grades` builds exactly `TreeOf` of the category |
| NpoedUtils.SubsectionScores | npoed_grading_features/utils.py:111-115 | one `(Σearned, Σpossible)` per subsection, in the tree's order |
| NpoedUtils.RestPercents | npoed_grading_features/utils.py:120-139 | the subsection percents after the removal: one per subsection, or one fewer when the owning subsection is left with no possible points |
| NpoedUtils.GradeWithout | npoed_grading_features/utils.py:117-141 | `ZeroDivisionError` iff another subsection has no possible points; 1.0 when the last unit of the only subsection goes |
| NpoedUtils.GradeWithoutPredictsDrop | npoed_grading_features/utils.py:117-141 | for consistent subsection grades, `grade_without(s, u)` is exactly the mean subsection percent of the category after dropping unit `u` of subsection `s` |
| NpoedUtils.AcceptKeepsInvariant | npoed_grading_features/utils.py:148-151 | a candidate scoring `>=` the best so far becomes the best, and the scan invariant holds one step on |
| NpoedUtils.RejectKeepsInvariant | npoed_grading_features/utils.py:146-149 | a candidate scoring below the best leaves the state unchanged, and the invariant holds one step on |
| NpoedUtils.ScanFacts | npoed_grading_features/utils.py:145-151 | at every position of the nested scan, the state is the last maximum of the candidates seen so far, at least the threshold |
| NpoedUtils.WorstIndexIsCandidate | npoed_grading_features/utils.py:145-151 | a chosen position names an existing unit of an existing subsection |
| NpoedUtils.WorstScoreRaisesExactly | npoed_grading_features/utils.py:111-143 | `_find_worst_score` raises iff a subsection has no unit (`ValueError`), the total possible points are 0, or a candidate meets a subsection with no possible points (`ZeroDivisionError`) |
| NpoedUtils.WorstScoreNone | npoed_grading_features/utils.py:143-151 | without an exception, the result is `None` iff every candidate's `grade_without` is strictly below the category's flat `Σearned/Σpossible` |
| NpoedUtils.WorstScoreIsLastMaximum | npoed_grading_features/utils.py:145-151 | the chosen unit's `grade_without` is at least the flat percent and at least every candidate's; every candidate after it scores strictly less (last maximum wins on `>=`) |
| NpoedUtils.WorstScoreOfScan | npoed_grading_features/utils.py:143-151 | how the result is read off the final scan state |
| NpoedUtils.CandidateCrashStopsScan | npoed_grading_features/utils.py:146-147 | one candidate whose `grade_without` raises makes the whole scan raise |
| NpoedUtils.ComputeSubsectionScores | npoed_grading_features/utils.py:111-115 | the first loop yields the subsection scores, or `ValueError` iff a subsection has no unit |
| NpoedUtils.ScanUnits | npoed_grading_features/utils.py:145-151 | the inner loop over one subsection's units advances the scan state by exactly that subsection |
| NpoedUtils.FindWorstScore | npoed_grading_features/utils.py:98-151 | the method computes exactly `WorstScore` |
| NpoedUtils.ScoreSumOmits | npoed_grading_features/utils.py:86-92 | removing an unlisted key does not change the score sums |
| NpoedUtils.ScoreSumWithout | npoed_grading_features/utils.py:86-92 | popping one score takes exactly its earned and possible out of the sums |
| NpoedUtils.DropUnit | npoed_grading_features/utils.py:86-92 | the unit's score is popped; `graded_total` and `all_total` each lose its earned and possible |
| NpoedUtils.DropUnitSums | npoed_grading_features/utils.py:86-92 | the subsection's score sums lose exactly the dropped unit's points |
| NpoedUtils.DropUnitPair | npoed_grading_features/utils.py:86-92 | the same, as the `(earned, possible)` pair of the subsection scores |
| NpoedUtils.DropAt | npoed_grading_features/utils.py:86-94 | the subsection is deleted iff its graded possible points reach 0, otherwise replaced by the dropped version; no other subsection changes; consistency of the totals is kept |
| NpoedUtils.WorstScoreInCategory | npoed_grading_features/utils.py:82-86 | the returned keys name a subsection of the category and a unit in it |
| NpoedUtils.DropOutcome | npoed_grading_features/utils.py:76-95 | raises iff `_find_worst_score` raises; with nothing to drop the category is returned as it was |
| NpoedUtils.DropOutcomeAt | npoed_grading_features/utils.py:82-95 | when `(s, u)` is chosen, the result is the category with `u` dropped from `s` |
| NpoedUtils.DropKeepsConsistent | npoed_grading_features/utils.py:86-94 | a drop keeps every subsection's totals equal to the sums of its scores |
| NpoedUtils.DropAtConsistent | npoed_grading_features/utils.py:86-94 | the same, for `DropAt` at given keys |
| NpoedUtils.DropOutcomeNoDrop | npoed_grading_features/utils.py:84-85 | without a unit to drop, the input is returned unchanged or the exception propagates |
| NpoedUtils.DropMinimalVerticalFromSubsectionGrades | npoed_grading_features/utils.py:76-95 | the method computes exactly `DropOutcome` |
| NpoedUtils.Percents | npoed_grading_features/utils.py:120-139 | one percent per subsection |
| NpoedUtils.TreeScores | npoed_grading_features/utils.py:111-115 | each tree subsection score is the score sum of its subsection grade |
| NpoedUtils.WithoutAt | npoed_grading_features/utils.py:93-94 | deleting a key that occurs once closes the gap in the key order |
| NpoedUtils.RestPercentsKept | npoed_grading_features/utils.py:120-139 | when the owning subsection keeps points, the percents after the drop are `rest_percents` |
| NpoedUtils.RestPercentsRemoved | npoed_grading_features/utils.py:120-139 | when it has none left, it leaves the list and the rest are `rest_percents` |
| NpoedUtils.KeptScores | npoed_grading_features/utils.py:86-92 | replacing one subsection grade changes only its entry of the subsection scores |
| NpoedUtils.RemovedScores | npoed_grading_features/utils.py:93-94 | deleting a subsection closes the gap in the subsection scores |
| NpoedUtils.KeptMean | npoed_grading_features/utils.py:117-141 | the percents after a drop that keeps the subsection are `rest_percents` |
| NpoedUtils.RemovedMean | npoed_grading_features/utils.py:117-141 | the percents after a drop that deletes the subsection are `rest_percents` |
| NpoedModels.GetId | npoed_grading_features/models.py:49-53 | a `CourseKey` maps to its string, a string to itself, `None` to `None` |
| NpoedModels.SetFlag | npoed_grading_features/models.py:64-69 | `setattr` sets the named flag and leaves the other |
| NpoedModels.FeatureEnabled | npoed_grading_features/models.py:55-62 | `False` when the course has no row, otherwise the row's flag |
| NpoedModels.SwitchedRows | npoed_grading_features/models.py:64-69 | get-or-create the row, set one flag: that flag now has the new state, the other flag and every other course are unchanged |
| NpoedModels.CourseKeyAndStringAgree | npoed_grading_features/models.py:49-53 | a `CourseKey` and its string address the same row |
| NpoedModels.NpoedGradingFeatures.constructor | npoed_grading_features/models.py:7-15 | an empty table |
| NpoedModels.NpoedGradingFeatures.Get | npoed_grading_features/models.py:41-47 | the row iff it exists, else `None` |
| NpoedModels.NpoedGradingFeatures.SwitchFeature | npoed_grading_features/models.py:64-69 | the table becomes `SwitchedRows` of the old table |
| NpoedModels.NpoedGradingFeatures.EnableVerticalGrading | npoed_grading_features/models.py:25-27 | afterwards vertical grading is enabled, passing grade is as before, and only that course's row changes |
| NpoedModels.NpoedGradingFeatures.DisableVerticalGrading | npoed_grading_features/models.py:33-35 | afterwards vertical grading is disabled, the rest as above |
| NpoedModels.NpoedGradingFeatures.EnablePassingGrade | npoed_grading_features/models.py:29-31 | afterwards passing grade is enabled, vertical grading is as before |
| NpoedModels.NpoedGradingFeatures.DisablePassingGrade | npoed_grading_features/models.py:37-39 | afterwards passing grade is disabled, vertical grading is as before |
| NpoedModels.CharStrings | npoed_grading_features/models.py:98-99 | `tuple(s)`: one one-character string per character, in order |
| NpoedModels.NotProcessedIsCharacters | npoed_grading_features/models.py:98-99 | the default status is 33 one-character strings, not one message |
| NpoedModels.StoredStatus | npoed_grading_features/models.py:95-100 | the stored list when the row exists, otherwise the default tuple |
| NpoedModels.CoursePassingGradeUserStatus.constructor | npoed_grading_features/models.py:72-86 | an empty table |
| NpoedModels.CoursePassingGradeUserStatus.GetPassingGradeStatus | npoed_grading_features/models.py:88-100 | `ValueError` iff passing grade is off for the course, otherwise the stored status |
| NpoedModels.CoursePassingGradeUserStatus.SetPassingGradeStatus | npoed_grading_features/models.py:102-111 | `ValueError` with no change iff passing grade is off; otherwise the (course, user) row holds exactly the new list and nothing else changes |
| NpoedModels.SetThenGet | npoed_grading_features/models.py:102-111 | reading back after writing gives the list written (a full overwrite) or `ValueError` |
| NpoedVerticalGrading.FirstNonEmpty | npoed_grading_features/enable_vertical_grading.py:133-137 | the index of the first category with a subsection key; all before it are empty |
| NpoedVerticalGrading.FirstCourseKey | npoed_grading_features/enable_vertical_grading.py:133-137 | `None` iff every category is empty, otherwise the course of the first key of the first non-empty category |
| NpoedVerticalGrading.GetCourseIdFromGradeSheet | npoed_grading_features/enable_vertical_grading.py:133-137 | the early-return scan computes exactly `FirstCourseKey` |
| NpoedVerticalGrading.DropTimesKeepsConsistent | npoed_grading_features/enable_vertical_grading.py:145-147 | any number of drops keeps every subsection's totals equal to its score sums |
| NpoedVerticalGrading.DropTimesSettles | npoed_grading_features/enable_vertical_grading.py:145-147 | once no unit is worth dropping, further passes change nothing |
| NpoedVerticalGrading.DropInSheet | npoed_grading_features/enable_vertical_grading.py:143-147 | the loop applies the drop pass exactly `drop_count` times, stopping at the first exception; when the sheet holds the type, the sheet's own dict holds the result of the last pass that did not raise |
| NpoedVerticalGrading.AssignmentFormatGrader.constructor | npoed_grading_features/enable_vertical_grading.py:130-132 | an assignment grader with its type and drop count |
| NpoedVerticalGrading.AssignmentFormatGrader.Grade | npoed_grading_features/enable_vertical_grading.py:139-152 | disabled: the original grade with nothing changed; enabled: `grade_sheet[type]` (default `{}`) dropped `drop_count` times and written back, the original grade run with `drop_count == 0`, and `drop_count` restored; a drop exception propagates with `drop_count` left 0 and, when the sheet held the type, the drops of the passes before it kept in the sheet |
| NpoedVerticalGrading.GradeSheet.constructor | npoed_grading_features/enable_vertical_grading.py:139 | the sheet's categories |
| NpoedVerticalGrading.WrappedInfo | npoed_grading_features/enable_vertical_grading.py:111-125 | disabled or another category: unchanged; `vertical`: weight (default 0), `vertical_grading` set, and `format` from the parent when given; `sequential`: only `vertical_grading` set |
| NpoedVerticalGrading.WrapXBlockInfo | npoed_grading_features/enable_vertical_grading.py:111-125 | the in-place updates give exactly `WrappedInfo` |
| PassingGrade.ParseGrader | npoed_grading_features/enable_passing_grade.py:8-19 | `KeyError` iff `type` is missing, else `TypeError` iff a numeric field is `null`; counts are `int(...)` of the JSON value (a float truncated toward zero, default 0), label defaults to `None`; weight and passing grade are `float(...)` of the JSON values divided by 100 (default 0) |
| PassingGrade.Trunc | npoed_grading_features/enable_passing_grade.py:11-12 | `int(x)` on a float rounds toward zero: within 1 below a non-negative `x`, within 1 above a negative one |
| PassingGrade.ToInt | npoed_grading_features/enable_passing_grade.py:11-12 | `int(v)` raises `TypeError` iff `v` is `null` |
| PassingGrade.ToFloat | npoed_grading_features/enable_passing_grade.py:15-17 | `float(v)` raises `TypeError` iff `v` is `null` |
| PassingGrade.FloatCountTruncates | npoed_grading_features/enable_passing_grade.py:11-12 | `min_count` 2.7 is stored as 2 and `drop_count` -1.5 as -1 |
| PassingGrade.JsonizeGrader | npoed_grading_features/enable_passing_grade.py:20-33 | `KeyError` iff the stored entry has no `type`; otherwise id and type kept, missing counts, weight and passing grade default to 0 and a missing `short_label` to `""`, weight and passing grade multiplied by 100 |
| PassingGrade.ParseJsonizeRoundTrip | npoed_grading_features/enable_passing_grade.py:8-33 | jsonizing a parsed grader never raises, and parsing its JSON gives the same grader record back, over exact arithmetic |
| PassingGrade.JsonizeParseRoundTrip | npoed_grading_features/enable_passing_grade.py:8-33 | for JSON with a type and no `null`, jsonize after parse gives back the converted values: `int(...)` of the counts and `float(...)` of weight and passing grade, absent numbers as 0, an absent `short_label` as `None` |
| PassingGrade.DefaultPolicyGrader | npoed_grading_features/tests/test_utils.py:150-158 | the tests' default `Homework` entry, which has no `passing_grade`, jsonizes with passing grade 0 while `_passing_grades` raises `KeyError` on it |
| PassingGrade.DictOf | npoed_grading_features/enable_passing_grade.py:43 | `dict(pairs)` holds every key of the pairs |
| PassingGrade.DictOfLastWins | npoed_grading_features/enable_passing_grade.py:43 | a key's value is that of its last pair |
| PassingGrade.TypePassingGrades | npoed_grading_features/enable_passing_grade.py:43 | the `(type, passing_grade)` pairs, in grader order |
| PassingGrade.PassingGrades | npoed_grading_features/enable_passing_grade.py:41-44 | `KeyError` iff some grader lacks `type` or `passing_grade`; otherwise every grader type is a key |
| PassingGrade.ParsedGradersHavePassingGrades | npoed_grading_features/enable_passing_grade.py:41-44 | a policy of graders saved through `parse_grader` never makes `_passing_grades` raise, and every type is a key |
| PassingGrade.MissingPassingGradeRaises | npoed_grading_features/enable_passing_grade.py:43 | one grader without `passing_grade` makes `_passing_grades` raise `KeyError` |
| PassingGrade.PassingGradeOfLast | npoed_grading_features/enable_passing_grade.py:41-44 | a type's threshold is that of its last grader |
| PassingGrade.CategoryPercents | npoed_grading_features/enable_passing_grade.py:50 | the `(category, percent)` pairs, in breakdown order |
| PassingGrade.Results | npoed_grading_features/enable_passing_grade.py:50 | every breakdown category is a key |
| PassingGrade.ResultOfLast | npoed_grading_features/enable_passing_grade.py:50 | a category's percent is that of its last section |
| PassingGrade.PassedByCategory | npoed_grading_features/enable_passing_grade.py:46-57 | `KeyError` iff a grader lacks `type` or `passing_grade`; otherwise `True` when the category and grader-type key sets differ, and else pass iff every category's percent is strictly above its threshold |
| PassingGrade.AtThresholdFails | npoed_grading_features/enable_passing_grade.py:56 | a category exactly at its threshold fails, also 0 against 0 |
| PassingGrade.MinPositive | npoed_grading_features/enable_passing_grade.py:67-68 | `None` iff no cutoff is positive, otherwise the least positive cutoff |
| PassingGrade.PercentPassed | npoed_grading_features/enable_passing_grade.py:67-69 | absent iff no cutoff is positive; otherwise true iff some positive cutoff is at most the percent |
| PassingGrade.ComputePassedAsWritten | npoed_grading_features/enable_passing_grade.py:64-71 | as written: `AttributeError` whenever passing grade is off; on, the same answer or `KeyError` as `ComputePassed` |
| PassingGrade.ComputePassed | npoed_grading_features/enable_passing_grade.py:64-71 | off: the original verdict, `None` included; on: `KeyError` iff a grader lacks `type` or `passing_grade` (the category check always runs), else absent iff no cutoff is positive, else true iff the percent reaches some positive cutoff and the category check passes |
| PassingGrade.ComputePassedDefaultCrashes | npoed_grading_features/enable_passing_grade.py:66 | every course without passing grade crashes as written, where the original verdict (`True`, `False` or `None`) was meant |
| PassingGrade.Entries | npoed_grading_features/enable_passing_grade.py:102 | the `(letter, cutoff)` entries in dict order |
| PassingGrade.Insert | npoed_grading_features/enable_passing_grade.py:102 | insertion adds exactly the one entry |
| PassingGrade.InsertDescending | npoed_grading_features/enable_passing_grade.py:102 | inserting into a descending list keeps it descending |
| PassingGrade.SortedDescending | npoed_grading_features/enable_passing_grade.py:102 | `sorted(..., reverse=True)`: a descending permutation of the entries that keeps the order of entries with equal cutoffs (stable) |
| PassingGrade.WithCutoff | npoed_grading_features/enable_passing_grade.py:102 | the entries with one cutoff, in order, no more than the input |
| PassingGrade.WithCutoffConcat | npoed_grading_features/enable_passing_grade.py:102 | the entries with one cutoff of a concatenation are those of each part, in order |
| PassingGrade.InsertStable | npoed_grading_features/enable_passing_grade.py:102 | inserting an entry puts it after every entry with the same cutoff |
| PassingGrade.BestReached | npoed_grading_features/enable_passing_grade.py:98-108 | the intended letter: none iff every cutoff is above the percent, else the first entry, in dict order, among those with the largest reached cutoff |
| PassingGrade.InsertReached | npoed_grading_features/enable_passing_grade.py:102-106 | inserting an entry changes the first reached entry only when the new entry is reached and has a higher cutoff |
| PassingGrade.SortedReached | npoed_grading_features/enable_passing_grade.py:102-106 | the scan of the stable sort reaches exactly the entry `BestReached` names |
| PassingGrade.FirstReached | npoed_grading_features/enable_passing_grade.py:103-106 | the `for ... break` finds a reached entry, or none iff every cutoff is above the percent |
| PassingGrade.FirstReachedIsLargest | npoed_grading_features/enable_passing_grade.py:103-106 | in descending order the first reached cutoff is the largest reached |
| PassingGrade.ReachedNone | npoed_grading_features/enable_passing_grade.py:103-108 | no entry is reached iff every cutoff is above the percent |
| PassingGrade.ReachedLargest | npoed_grading_features/enable_passing_grade.py:103-106 | the entry reached first has the largest cutoff reached |
| PassingGrade.SortedEntries | npoed_grading_features/enable_passing_grade.py:102 | the sorted entries are exactly the dict's pairs |
| PassingGrade.LetterGradeIsLargestReached | npoed_grading_features/enable_passing_grade.py:98-108 | with percent forced to 0 unless passed: `None` iff percent is below every cutoff, otherwise the letter with the largest cutoff at most the percent, and among letters with that cutoff the first in the dict's order |
| PassingGrade.FirstOfTies | npoed_grading_features/enable_passing_grade.py:102-106 | no key earlier in the dict shares the reached letter's cutoff |
| PassingGrade.LetterGradeMonotone | npoed_grading_features/enable_passing_grade.py:102-106 | a higher percent never resolves to a letter with a lower cutoff |
| PassingGrade.ResolveLetterGrade | npoed_grading_features/enable_passing_grade.py:98-108 | the scan computes exactly `LetterGrade` |
| PassingGrade.ComputeLetterGradeAsWritten | npoed_grading_features/enable_passing_grade.py:95-108 | as written: `AttributeError` whenever passing grade is off |
| PassingGrade.ComputeLetterGrade | npoed_grading_features/enable_passing_grade.py:95-108 | off: the original letter; on and not passed: the letter of 0; on and passed: the letter of the percent |
| PassingGrade.LetterGradeDefaultCrashes | npoed_grading_features/enable_passing_grade.py:97 | every course without passing grade crashes as written, where the original letter was meant |
| PassingGrade.MarkSection | npoed_grading_features/enable_passing_grade.py:84-92 | a prominent section below its threshold gets the mark naming 100·threshold; every other section is unchanged |
| PassingGrade.FirstMissing | npoed_grading_features/enable_passing_grade.py:84-87 | the first section whose category has no grader; all before it have one |
| PassingGrade.MarkedUpTo | npoed_grading_features/enable_passing_grade.py:84-92 | the first `n` sections marked, the rest untouched |
| PassingGrade.MarkedBreakdown | npoed_grading_features/enable_passing_grade.py:84-92 | the breakdown keeps its length |
| PassingGrade.MarksExactlyFailedProminent | npoed_grading_features/enable_passing_grade.py:84-92 | with every category graded, a section is marked iff it is prominent and strictly below its threshold; the others are untouched |
| PassingGrade.MarkedAt | npoed_grading_features/enable_passing_grade.py:83-92 | with every category graded, each section has been through `MarkSection` |
| PassingGrade.CourseGrade.constructor | npoed_grading_features/enable_passing_grade.py:73-75 | the grade's verdict and breakdown |
| PassingGrade.CourseGrade.Summary | npoed_grading_features/enable_passing_grade.py:73-93 | unchanged when passed or the feature is off; otherwise `KeyError` with nothing changed iff a grader lacks `type` or `passing_grade`, and else the failed prominent sections are marked in place, and `KeyError` iff a category has no grader, at the first such section |
| VgPassingGrade.ComputePassed | vertical_grading/enable_passing_grade.py:38-41 | `KeyError` iff a grader lacks `type` or `passing_grade` (both operands are computed first); otherwise the percent check and the category check, with Python's `and` on a `None` percent check |
| VgPassingGrade.AgreesWithNpoed | vertical_grading/enable_passing_grade.py:38-55 | with passing grade on, both packages give the same verdict |
| VerticalGradingUtils.PseudoScore | vertical_grading/utils.py:49-63 | possible and weight are the unit weight; earned/possible equals Σearned/Σpossible; raw fields are the plain sums; `graded`/`attempted` are ORs; for a positive weight and well-formed children, `0 <= earned <= possible` |
| VerticalGradingUtils.GetVerticalScore | vertical_grading/utils.py:13-64 | `None` iff not a vertical, the weight is falsy, or no child scored; `ZeroDivisionError` iff the collected possible points sum to 0; otherwise the pseudo-score |
| VerticalGradingUtils.Entries | vertical_grading/utils.py:71-73 | one candidate per score of a subsection, in dict order, with its lost points `possible - earned` |
| VerticalGradingUtils.Flat | vertical_grading/utils.py:68-76 | every candidate names an existing score and its lost points |
| VerticalGradingUtils.FlatVisits | vertical_grading/utils.py:68-76 | every score of every subsection is visited |
| VerticalGradingUtils.Scan | vertical_grading/utils.py:68-76 | a chosen candidate was visited and carries the maximum; none means the maximum is still the sentinel -1 |
| VerticalGradingUtils.ScanSnoc | vertical_grading/utils.py:74-76 | one more candidate replaces the maximum only with strictly more lost points |
| VerticalGradingUtils.ScanNone | vertical_grading/utils.py:77-78 | nothing is chosen iff no score lost more than -1 points |
| VerticalGradingUtils.ScanBounds | vertical_grading/utils.py:68-76 | the maximum is at least -1 and at least every visited score's lost points |
| VerticalGradingUtils.ScanFirstMaximum | vertical_grading/utils.py:74-76 | the chosen score is the first maximal one: every earlier score lost strictly less |
| VerticalGradingUtils.DropScore | vertical_grading/utils.py:79-89 | exactly the chosen entry is popped; both totals lose its points; graded possible 0 becomes 0.000001 |
| VerticalGradingUtils.DropOutcome | vertical_grading/utils.py:67-90 | the list keeps its length; nothing chosen: unchanged; otherwise only the chosen subsection changes, by `DropScore` |
| VerticalGradingUtils.DropChoosesFirstMaximum | vertical_grading/utils.py:68-78 | the chosen score has the largest lost points, more than -1, and is the first such in scan order; with no score above -1 the list is unchanged |
| VerticalGradingUtils.ScanSubsection | vertical_grading/utils.py:70-76 | the inner loop advances the scan by one subsection |
| VerticalGradingUtils.ScanGrades | vertical_grading/utils.py:68-76 | the nested loops compute exactly `Scan` of every score |
| VerticalGradingUtils.DropMinimalVerticalFromSubsectionGrades | vertical_grading/utils.py:67-90 | the method computes exactly `DropOutcome` |
| VerticalGradingMixins.VerticalGradingSubsectionMixin.constructor | vertical_grading/mixins.py:93-96 | the grade's scores |
| VerticalGradingMixins.VerticalGradingSubsectionMixin.VerticalComputeBlockScore | vertical_grading/mixins.py:98-114 | a produced pseudo-score is stored under exactly the unit's key; otherwise the scores are unchanged; a `ZeroDivisionError` propagates before any write |
| VerticalGradingMixins.PutOnlyTouchesUnit | vertical_grading/subsection_mixins.py:100-108 | storing touches only the unit's entry, which holds the unit weight as possible and the raw sum as raw possible |
| ProblemBestScore.UpdatedRow | npoed_grading_features/enable_problem_best_score.py:13-27 | a missing row is created with the new score and maximum; an existing row is rewritten iff the maximum changed or the score is higher, else untouched |
| ProblemBestScore.BestScoreKept | npoed_grading_features/enable_problem_best_score.py:23-26 | with the maximum unchanged the stored grade becomes `max(old, score)` and never decreases |
| ProblemBestScore.MaxChangeOverwrites | npoed_grading_features/enable_problem_best_score.py:23-27 | a changed maximum overwrites both fields, even with a lower score |
| ProblemBestScore.UntouchedIffNotHigher | npoed_grading_features/enable_problem_best_score.py:22-27 | the row is left as it was iff the maximum is unchanged and the score is not higher |
| ProblemBestScore.StudentModules.constructor | npoed_grading_features/enable_problem_best_score.py:13-21 | the table's rows |
| ProblemBestScore.StudentModules.SetScore | npoed_grading_features/enable_problem_best_score.py:8-28 | only the (user, block, course) row changes, to `UpdatedRow`; the row's save time is returned |
| Repeat.IterateCrashPersists | npoed_grading_features/enable_vertical_grading.py:145-147 | once a pass raises, every longer run raises the same |
| Repeat.IterateSettles | npoed_grading_features/enable_vertical_grading.py:145-147 | once a pass leaves its input unchanged, further passes change nothing |
| Repeat.IteratePreserves | npoed_grading_features/enable_vertical_grading.py:145-147 | a property every pass keeps holds after any number of passes |
| Repeat.IterateNext | npoed_grading_features/enable_vertical_grading.py:145-147 | after `n` good passes, pass `n + 1` is one more step |
| Repeat.Reached | npoed_grading_features/enable_vertical_grading.py:145-147 | the value after the last pass that did not raise; the result itself when none raised |
| Repeat.ReachedBeforeCrash | npoed_grading_features/enable_vertical_grading.py:145-147 | when pass `n + 1` raises, every longer run raises the same and leaves the value of the first `n` passes |
| Repeat.RunSteps | npoed_grading_features/tests/test_utils.py:230-231 | the loop equals the step applied `count` times, stopping at the first exception |
| OrderedDicts.Get | npoed_grading_features/enable_vertical_grading.py:145 | `d.get(k)`: the value iff the key is present |
| OrderedDicts.Put | npoed_grading_features/utils.py:171 | `d[k] = v`: a new key goes last, an existing key keeps its place; other entries unchanged |
| OrderedDicts.PutPut | npoed_grading_features/enable_vertical_grading.py:145-148 | writing a key twice equals writing it once with the second value |
| OrderedDicts.Remove | npoed_grading_features/utils.py:93-94 | `del`/`pop`: the key leaves the order and the map, nothing else changes |
| TestOracle.Kept | npoed_grading_features/tests/test_utils.py:172-179 | the kept pairs are exactly the pairs with neither half `None`, in order |
| TestOracle.GetUnitProblemPairs | npoed_grading_features/tests/test_utils.py:172-179 | the two lists are the earned and max values of the kept pairs, side by side |
| TestOracle.SumConcat | npoed_grading_features/tests/test_utils.py:189 | `sum` over a concatenation is the sum of the sums |
| TestOracle.UnitGradeSpec | npoed_grading_features/tests/test_utils.py:184-189 | a unit yields a grade iff it has a complete pair and, in vertical mode, a nonzero weight; the grade is `(Σearn, Σmax, weight)`, with weight 1 in classic mode |
| TestOracle.GradeSubsection | npoed_grading_features/tests/test_utils.py:181-194 | the loop computes exactly `SubsectionGrades` |
| TestOracle.PairsGrade | npoed_grading_features/tests/test_utils.py:185-189 | the grade built from the returned pairs is the unit's grade |
| TestOracle.UnitGradesNext | npoed_grading_features/tests/test_utils.py:183-189 | one more unit appends its grade, if any |
| TestOracle.ClassicIsFlatSum | npoed_grading_features/tests/test_utils.py:186-194 | in classic mode a subsection is one grade `(Σearn, Σmax, 1)` over all complete pairs of its units |
| TestOracle.ClassicSums | npoed_grading_features/tests/test_utils.py:193 | the classic totals are the sums over all complete pairs |
| TestOracle.ClassicStep | npoed_grading_features/tests/test_utils.py:186-193 | a unit adds the sums of its complete pairs to the classic totals |
| TestOracle.VerticalGradesAreUnitGrades | npoed_grading_features/tests/test_utils.py:186-192 | in vertical mode the subsection's grades are exactly those of its weighted units that have a complete pair |
| TestOracle.WeightedScore | npoed_grading_features/tests/test_utils.py:202-208 | 0 when the weights sum to 0 |
| TestOracle.PercentBounds | npoed_grading_features/tests/test_utils.py:203-204 | a sane grade's percent is in `[0, 1]`, its weighted percent in `[0, weight]` |
| TestOracle.TopWithinWeight | npoed_grading_features/tests/test_utils.py:204-205 | over sane grades `0 <= top <= bottom`, and `bottom > 0` for a non-empty list |
| TestOracle.WeightedScoreIsFraction | npoed_grading_features/tests/test_utils.py:202-208 | over sane grades the weighted score is in `[0, 1]` |
| TestOracle.UnitWeightsGiveMean | npoed_grading_features/tests/test_utils.py:202-208 | with every weight 1 the score is the plain mean of the percents |
| TestOracle.ByCategoryIsGradesOf | npoed_grading_features/tests/test_utils.py:210-219 | the categories are exactly those of the subsections with a truthy category, each holding its subsections' grades in scan order |
| TestOracle.ByCategoryKeys | npoed_grading_features/tests/test_utils.py:213-217 | a category is a key iff a subsection of it has been scanned; no-category subsections are skipped |
| TestOracle.ByCategoryGet | npoed_grading_features/tests/test_utils.py:216-219 | a category's list is the concatenated grades of its subsections |
| TestOracle.ByCategorySnoc | npoed_grading_features/tests/test_utils.py:213-219 | one more subsection extends its category's list, or nothing without a category |
| TestOracle.ExtendCategory | npoed_grading_features/tests/test_utils.py:216-219 | `if c not in d: d[c] = []` then `extend` equals extending the default `[]` |
| TestOracle.ScoreByAssignmentCategory | npoed_grading_features/tests/test_utils.py:210-219 | the nested loops compute exactly `ByCategory` |
| TestOracle.DropMinimal | npoed_grading_features/tests/test_utils.py:196-200 | `ZeroDivisionError` iff some grade has max 0; the only other error is `IndexError` from `pop` |
| TestOracle.DropRemovesOne | npoed_grading_features/tests/test_utils.py:196-200 | a drop removes exactly one grade |
| TestOracle.CategoryScoreOk | npoed_grading_features/tests/test_utils.py:230-233 | a category whose drops succeed adds its weighted score times its weight in the grading policy |
| TestOracle.NoDropsSum | npoed_grading_features/tests/test_utils.py:226-233 | without drops: raises iff a category has no grader (`KeyError`), otherwise Σ weight·weighted score |
| TestOracle.CourseSumNext | npoed_grading_features/tests/test_utils.py:226-233 | one more category: the sum grows by its score, or the first exception is kept |
| TestOracle.CourseSumOk | npoed_grading_features/tests/test_utils.py:233 | a category that adds a score extends a successful sum by it |
| TestOracle.CourseSumAdds | npoed_grading_features/tests/test_utils.py:227-233 | a category whose drops succeed adds weighted score × weight |
| TestOracle.CourseSumRaises | npoed_grading_features/tests/test_utils.py:227-231 | a category without a grader, or whose drops raise, ends the sum with that exception |
| TestOracle.SumCourseScore | npoed_grading_features/tests/test_utils.py:221-233 | the loop computes exactly `CourseScore` |
| TestOracle.CourseSumCrashPersists | npoed_grading_features/tests/test_utils.py:226-233 | once a category raises, the whole sum raises the same |
| TestOracle.GradeTree | npoed_grading_features/tests/test_utils.py:169-234 | the method computes exactly `GradeTreeScore` |
| TestOracle.HomeworkOnly | npoed_grading_features/tests/test_utils.py:221-233 | with the default one-`Homework` policy the course score is the weighted score of the `Homework` grades |
| TestOracle.ByCategoryOfTwo | npoed_grading_features/tests/test_utils.py:210-219 | two subsections of one category give one list, the first one's grades first |
| TestOracle.PercentTreeUnitGrade | npoed_grading_features/tests/test_vertical_grading.py:155-166 | the units of `test_percent` by mode: only `e` carries a weight; `f` has no complete pair |
| TestOracle.PercentShapeGrades | npoed_grading_features/tests/test_vertical_grading.py:155-166 | the tree's one category holds the grades of subsection `b` then `c` |
| TestOracle.PercentShapeScore | npoed_grading_features/tests/test_vertical_grading.py:155-182 | the course score is the weighted score of those grades |
| TestOracle.PercentTreeVertical | npoed_grading_features/tests/test_vertical_grading.py:178-182 | in vertical mode the tree scores 0.25 |
| TestOracle.PercentTreeClassic | npoed_grading_features/tests/test_vertical_grading.py:173-177 | in classic mode the tree scores `(6/14 + 6/10) / 2` |
| TestOracle.PercentShapeVertical | npoed_grading_features/tests/test_vertical_grading.py:178-179 | any tree of that shape whose units grade so in vertical mode scores 0.25 |
| TestOracle.PercentShapeClassic | npoed_grading_features/tests/test_vertical_grading.py:173-177 | any tree of that shape whose units grade so in classic mode scores `(6/14 + 6/10) / 2` |
| TestOracle.ClassicShapeGrades | npoed_grading_features/tests/test_vertical_grading.py:173-176 | in classic mode the subsections grade `(6, 14, 1)` and `(6, 10, 1)` |

## Left out

- Patching machinery: `patch_function`, `patch_method` (npoed_grading_features/utils.py:177-207), the `enable_*` dispatchers, the `replaced` tables and vertical_grading/decorator.py are not modelled. The model calls the patched functions directly, and the `ENABLE_GRADING_FEATURES` setting and the table flags are explicit parameters.
- npoed `build_subsection_grade._vertical_compute_block_score` (npoed_grading_features/enable_vertical_grading.py:15-31) is not modelled. Its patch targets the misspelt `compute_block_scire` (line 34), and `patch_method` reads the old method with `getattr(cls, name)` and no default (npoed_grading_features/utils.py:195), so applying `build_subsection_grade` raises `AttributeError` when the class is decorated and the store never runs. The mixin version of the same store is modelled.
- The zero-subsection properties `_vertical_problem_scores` and `_vertical_locations_to_scores`, and the vertical block's `student_view`, are not modelled. They traverse the foreign course structure or render UI.
- `is_problem_best_score_enabled` (npoed_grading_features/enable_problem_best_score.py:32) is not modelled: it does not exist in models.py, so the patch cannot be switched. `set_score` itself is modelled.
- `switch_to_default` is a boolean parameter. It is the negation of the passing-grade flag read from the feature table.
- Foreign edX collaborators become inputs. `get_score` and the course structure become a sequence of child records (`UnitChildren.Child`). The original `problem_grade` becomes an uninterpreted function parameter. The original `_compute_passed`, `_compute_letter_grade` and `summary` become parameters holding their answers.
- `find_drop_index`, which the test oracle's `drop_minimal` calls, is a function parameter. Its definition is not part of this model.
- Floating point is not modelled; all scores are exact reals. This leaves out float error in the `/100` and `*100` conversions, the final `round(x*100 + 0.05)/100` of the test oracle (npoed_grading_features/tests/test_utils.py:235), and the float identity of `1e-6`, which is modelled as the real 0.000001.
- Python 2 dict iteration order is taken as given, as each dict's key sequence.
- NpoedUtils.TreeOf, NpoedUtils.UnitTree, NpoedUtils.BuildTreeFromGrades, NpoedUtils.BuildUnitGrades and TestOracle.ByCategory give a fresh `{}` the insertion order of its keys. Python 2 iterates a plain dict in hash order, which decides the `>=` tie of `_find_worst_score` and the order of the oracle's category lists. The maximality lemmas (`NpoedUtils.WorstScoreIsLastMaximum`, `NpoedUtils.WorstScoreNone`, `NpoedUtils.GradeWithoutPredictsDrop`) hold for whatever key order the tree has; only which of several tied units is dropped depends on it.
- PassingGrade.ParseGrader: JSON strings and booleans in numeric fields (`int("3")`, `float("1.5")`, `int(True)`) and the `ValueError` of a malformed string are not modelled; a numeric field is an integer, a float or `null`.
- Nested grade objects are modelled as values. Mutating a `SubsectionGrade` inside the sheet becomes replacing its entry, so aliasing of those objects between callers is not captured.
- Storage details are not modelled: the JSON text column of the status table is the list it encodes, the migrations (including the later rename of the status field) are left out, and so is the static-file management command.
- NpoedModels.NpoedGradingFeatures.SwitchFeature and the four enable/disable methods require a course id other than `None`; what the ORM does with `course_id=None` is not modelled.
- TestOracle.WeightedScore: its own contract states only the zero-weight case. The general bound lives in `TestOracle.WeightedScoreIsFraction` and the unit-weight mean in `TestOracle.UnitWeightsGiveMean`.

## Findings

| source | as written | input that shows it | evidently intended | confidence | as-written member | corrected member |
|---|---|---|---|---|---|---|
| npoed_grading_features/enable_passing_grade.py:66 | with passing grade off, `_compute_passed` calls `self._default_compute_passed`, but the original was saved as `_default__compute_passed` (line 110), so the call raises `AttributeError` | any course whose passing-grade flag is off | fall back to the original `_compute_passed` | not executed | PassingGrade.ComputePassedAsWritten | PassingGrade.ComputePassed |
| npoed_grading_features/utils.py:62 | `max(inner_first_attempted)` compares attempt times (`datetime`) with `None`, which Python 2 refuses with `TypeError` | a unit with one attempted and one unattempted scored child | the latest attempt time among the attempted children | not executed | UnitChildren.MaxFirstAttemptedAsWritten | UnitChildren.MaxFirstAttempted |
| npoed_grading_features/enable_passing_grade.py:97 | with passing grade off, `_compute_letter_grade` calls `self._default__compute_letter_rade`, but the original was saved as `_default__compute_letter_grade` (line 113), so the call raises `AttributeError` | any course whose passing-grade flag is off | fall back to the original `_compute_letter_grade` | not executed | PassingGrade.ComputeLetterGradeAsWritten | PassingGrade.ComputeLetterGrade |

The lemmas `PassingGrade.ComputePassedDefaultCrashes` and `PassingGrade.LetterGradeDefaultCrashes` exhibit the two `AttributeError`s, and `UnitChildren.PartlyAttemptedUnitRaises` the `TypeError`. `NpoedUtils.GetVerticalScore` keeps the code's `TypeError`; the pseudo-score it builds otherwise uses the corrected `MaxFirstAttempted`, which agrees with the code on every input the code accepts.
