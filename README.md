# Advent of Code 2024, days 1 and 2: a Dafny model

This project models the computational core of the Python scripts for days 1 and 2 of the
`aoc-24` repository.

- **Day 2, `python/day2/reactor_safety.py`.** A *report* is a line of integer *levels*. A report
  is *safe* when it rises by 1 to 3 at every step, or falls by 1 to 3 at every step. The
  *Problem Dampener* accepts an unsafe report when dropping one level makes it safe. It tries
  the indices in ascending order and reports the first one that works. `process_reactor_file`
  counts the reports that pass the dampener.
- **Day 2, `python/day2/solve_assist.py`.** This file has its own copy of the safety check, with
  no dampener. `analyze_reactor_safety_from_file` returns `(safe reports, non-blank lines)`.
  A line that does not parse is counted in the total, is never counted as safe, and is skipped.
- **Day 1, `python/day1/solve.py`.** Each line gives one value of a left and of a right column.
  Part 1 sorts both columns and sums the distances between them, pair by pair. Part 2 weights
  every left value by how many times it occurs in the right column.

Modules, one per source file, plus three shared ones:

- `Arith` (`arith.dfy`): `Abs`.
- `Input` (`input.dfy`): a line of a day 2 file as `Blank | Malformed | Report(levels)`, and a
  file read as `NotFound | ReadFailed | Read(lines)`. Also the blank-line filter that both
  day 2 scripts apply.
- `Safety` (`safety.dfy`): the reference definition `Safe`, which is "all steps in [1,3] or all
  steps in [-3,-1]", and its properties. The two day 2 scripts each have their own copy of the
  check, and each copy is proved equal to `Safe`.
- `ReactorSafety` (`reactor_safety.dfy`), `SolveAssist` (`solve_assist.dfy`), `Day1`
  (`day1.dfy`): the three scripts.

The source loops are kept as loops. This covers the append loop that collects the
differences, the dampener's ascending search with early return, the two report tallies, and
day 1's read loop and two summing loops. Each loop is a method whose `ensures` ties its result
to a specification function, or states the promised property directly.

Only `solve_assist.py` recovers from a malformed line and goes on with the next one.
`reactor_safety.py` has no per-line handler for the parse error, so the error leaves the loop.
The top-level `except Exception` then catches it, and the run ends without a summary. The model follows the code: `ReactorSafety.ProcessReactorFile` returns
`UnexpectedError` when any non-blank line is malformed.

## Model

| member | source | states |
|---|---|---|
| `Arith.Abs` | python/day2/reactor_safety.py:26 | the absolute value is the argument or its negation, and is the argument when that is non-negative |
| `Input.NonBlank` | python/day2/reactor_safety.py:63 | no kept line is blank, and the result is never longer than the file |
| `Input.NonBlankKeepsExactlyReports` | python/day2/reactor_safety.py:63 | every non-blank line is kept exactly as many times as it occurs in the file, and no blank line is kept |
| `Input.NonBlankAppend` | python/day2/solve_assist.py:51 | the filter treats each line on its own: filtering a concatenation is the concatenation of the filtered parts |
| `Input.NonBlankKeepsReports` | python/day2/solve_assist.py:51 | a file with no blank line is kept whole, in order |
| `Safety.ShortIsSafe` | python/day2/reactor_safety.py:9-10 | every report of fewer than two levels is safe |
| `Safety.SafeIsMonotonic` | python/day2/reactor_safety.py:18-23 | a safe report is strictly increasing or strictly decreasing over all pairs of positions, not only adjacent ones |
| `Safety.MonotonicBoundedIsSafe` | python/day2/reactor_safety.py:18-26 | a strictly monotonic report whose adjacent differences all have absolute value in [1,3] is safe |
| `Safety.SafeIffMonotonicWithBoundedSteps` | python/day2/reactor_safety.py:1-26 | safe holds if and only if the report is strictly increasing or strictly decreasing and every adjacent difference has absolute value in [1,3] |
| `Safety.SafeExamples` | python/day2/reactor_safety.py:13-26 | [1,2,3] and [3,2,1] are safe; [1,1,2] (a zero step) and [1,2,6] (a step of 4) are not |
| `ReactorSafety.RemoveAtElements` | python/day2/reactor_safety.py:44 | the shortened report is the original before index i, and the original shifted down by one from index i on |
| `Safety.DifferencesDecideSafety` | python/day2/reactor_safety.py:12-26 | for a report of at least two levels, with d its list of adjacent differences: the report is safe if and only if (all of d are positive or all are negative) and every element of d has absolute value in [1,3] |
| `ReactorSafety.IsMonotonicWithConstraints` | python/day2/reactor_safety.py:1-26 | the differences loop followed by the sign and size checks returns true exactly when the report is safe (all steps in [1,3] or all in [-3,-1]) |
| `ReactorSafety.CheckSafetyWithDampener` | python/day2/reactor_safety.py:29-49 | the flag is true exactly when the report is safe or some single removal makes it safe; (true, -1, levels) exactly when already safe; otherwise the index is the lowest whose removal gives a safe report, it is within bounds, and the returned report is the original without that level; (false, -1, levels) when nothing works |
| `ReactorSafety.FirstRepairExistsUnique` | python/day2/reactor_safety.py:42-46 | when some removal repairs a report, there is a lowest repairing index, and only one, so the dampener's result is determined |
| `ReactorSafety.ShortIsDampenerSafe` | python/day2/reactor_safety.py:42-46 | every report of at most two levels passes the dampener |
| `ReactorSafety.DampenerExampleSecondLevel` | python/day2/reactor_safety.py:38-46 | [1,3,2,4,5] is unsafe; removing index 0 leaves it unsafe and removing index 1 makes it safe, so index 1 is the answer |
| `ReactorSafety.DampenerExampleFirstLevel` | python/day2/reactor_safety.py:38-46 | [9,1,2,3] is unsafe and removing index 0 repairs it |
| `ReactorSafety.DampenerExampleUnfixable` | python/day2/reactor_safety.py:42-49 | [1,1,1,1] is unsafe and no single removal repairs it |
| `ReactorSafety.CountDampenerSafe` | python/day2/reactor_safety.py:65-78 | the number of reports that pass the dampener never exceeds the number of reports |
| `ReactorSafety.ProcessReactorFile` | python/day2/reactor_safety.py:52-110 | a missing file ends with the not-found message; a read error or any malformed report ends with the generic error; otherwise the summary has total = number of non-blank lines and safe = number of them that pass the dampener, with safe <= total |
| `SolveAssist.IsMonotonicWithConstraints` | python/day2/solve_assist.py:1-31 | this file's copy of the check also returns true exactly when the report is safe |
| `SolveAssist.ChecksAgree` | python/day2/solve_assist.py:1-31 | the copies of the check in solve_assist.py and in reactor_safety.py give the same answer on every report |
| `SolveAssist.CountSafe` | python/day2/solve_assist.py:60-70 | the number of parsed, safe reports never exceeds the number of lines |
| `SolveAssist.CountSafeAppend` | python/day2/solve_assist.py:60-76 | the tally is additive over consecutive stretches of lines |
| `SolveAssist.MalformedLineSkipped` | python/day2/solve_assist.py:60-76 | a malformed line adds one to the total and nothing to the safe count, and the lines after it are tallied as if it were absent |
| `SolveAssist.AnalyzeReactorSafetyFromFile` | python/day2/solve_assist.py:34-91 | a missing file or a read error returns (0, 0); otherwise the total is the number of non-blank lines and the safe count is the number of parsed, safe reports among them, with safe <= total |
| `Day1.ReadColumns` | python/day1/solve.py:6-10 | both columns have one entry per line, so they have equal length; entry i of each is the matching value of line i |
| `Day1.Insert` | python/day1/solve.py:11-12 | inserting into an ascending sequence keeps it ascending, adds exactly one occurrence of the value, and puts the smaller of the value and the old first element in front |
| `Day1.Sort` | python/day1/solve.py:11-12 | the sorted column is ascending, has the same length, and holds the same values with the same multiplicities |
| `Day1.SortedUnique` | python/day1/solve.py:11-12 | two ascending sequences with the same values and multiplicities are equal, so sorting a permuted column gives the same result |
| `Day1.SumDistances` | python/day1/solve.py:13-15 | the loop's sum equals the sum of abs(lhs[i] - rhs[i]) over the left column's indices |
| `Day1.DistanceSumZeroIff` | python/day1/solve.py:13-15 | the distance sum is 0 if and only if the columns agree position by position |
| `Day1.TotalDistanceIgnoresOrder` | python/day1/solve.py:11-15 | part 1 is the same for any order of either column |
| `Day1.TotalDistanceZeroIff` | python/day1/solve.py:11-15 | part 1 is 0 if and only if the two columns hold the same values with the same multiplicities |
| `Day1.Similarity` | python/day1/solve.py:18-21 | the loop's score equals the sum, over the left column, of each value times its number of occurrences in the right column |
| `Day1.SimilarityIgnoresOrder` | python/day1/solve.py:18-21 | the similarity score is the same for any order of the left column (the right column enters only as a multiset) |
| `Day1.SimilarityZeroWithoutMatches` | python/day1/solve.py:18-21 | when no left value occurs in the right column, the similarity score is 0 |
| `Day1.Solve` | python/day1/solve.py:1-22 | part 1 is the distance sum of the two sorted columns; part 2, although computed over the sorted left column, equals the similarity of the columns as read |

## Left out

- File handling. Opening `input.txt`, `line.strip()`, `line.split()` and the `int` parse are not modelled. A day 2 line arrives already classified as blank, malformed or parsed, and a day 1 line arrives as a pair of integers.
- Console output. Every `print` is left out: the per-report lines, the 1-based position, and the error messages, which become result values.
- The safety-rate percentages (`reactor_safety.py:105`, `solve_assist.py:103`). They are floating point.
- Day 1 columns are sorted as strings in the source, while the model sorts integers. The two orders agree only for unsigned, equal-width, unpadded tokens.
- Day 1 field positions. Taking the first and the fourth space-separated field relies on a fixed spacing. The model does not cover that quirk, nor the `Counter` lookup by `str(num)`, which finds only canonical decimal tokens.
- Day 1 failures. A line with fewer than four fields, or with a non-integer token, makes `solve.py` stop with an exception. That path is not modelled.
- Day1.Sort: models `list.sort()` by its result only: an ascending permutation. It does not model Timsort or sorting in place.
- Day1.SumDistances: requires that `rhs` is at least as long as `lhs`. Otherwise Python's `rhs[i]` would raise `IndexError`. The read loop always makes the columns equally long, so the script never reaches that error.
- ReactorSafety.ProcessReactorFile: it does not say which reports were printed before a malformed line aborted the run. The report lines are console output only.
