/**
 * python/day2/solve_assist.py: its own copy of the safety check, without the dampener, and
 * the tally of `analyze_reactor_safety_from_file`, which skips lines that do not parse.
 */
module SolveAssist {
  import opened Arith
  import opened Input
  import opened Safety
  import ReactorSafety

  /** `is_monotonic_with_constraints` of this file: the same differences-then-checks structure. */
  method IsMonotonicWithConstraints(levels: seq<int>) returns (safe: bool)
    ensures safe == Safe(levels)
  {
    if |levels| < 2 {
      return true;
    }
    var differences: seq<int> := [];
    for i := 1 to |levels|
      invariant |differences| == i - 1
      invariant forall k :: 0 <= k < i - 1 ==> differences[k] == levels[k + 1] - levels[k]
    {
      differences := differences + [levels[i] - levels[i - 1]];
    }
    DifferencesDecideSafety(levels, differences);
    var allIncreasing := forall k :: 0 <= k < |differences| ==> differences[k] > 0;
    var allDecreasing := forall k :: 0 <= k < |differences| ==> differences[k] < 0;
    if !(allIncreasing || allDecreasing) {
      return false;
    }
    return forall k :: 0 <= k < |differences| ==> 1 <= Abs(differences[k]) <= 3;
  }

  /** The two scripts' copies of the check give the same answer on every report. */
  method ChecksAgree(levels: seq<int>) returns (here: bool, there: bool)
    ensures here == there
  {
    here := IsMonotonicWithConstraints(levels);
    there := ReactorSafety.IsMonotonicWithConstraints(levels);
  }

  /** A line counted as safe here: it parsed and the report is safe. */
  predicate PassesCheck(line: Line) {
    line.Report? && Safe(line.levels)
  }

  /** Number of parsed reports that are safe; malformed lines contribute nothing. */
  function CountSafe(reports: seq<Line>): (n: nat)
    ensures n <= |reports|
  {
    if reports == [] then 0
    else CountSafe(reports[..|reports| - 1]) + (if PassesCheck(reports[|reports| - 1]) then 1 else 0)
  }

  lemma {:induction false} CountSafeAppend(a: seq<Line>, b: seq<Line>)
    ensures CountSafe(a + b) == CountSafe(a) + CountSafe(b)
  {
    if b == [] {
      assert a + b == a;
    } else {
      var n := |b| - 1;
      assert (a + b)[..|a + b| - 1] == a + b[..n];
      assert (a + b)[|a + b| - 1] == b[n];
      CountSafeAppend(a, b[..n]);
    }
  }

  /**
   * A malformed line between two stretches of the file counts toward the total, never toward
   * the safe reports, and the lines after it are still tallied.
   */
  lemma MalformedLineSkipped(a: seq<Line>, b: seq<Line>)
    ensures |NonBlank(a + [Malformed] + b)| == |NonBlank(a)| + 1 + |NonBlank(b)|
    ensures CountSafe(NonBlank(a + [Malformed] + b)) == CountSafe(NonBlank(a)) + CountSafe(NonBlank(b))
  {
    var bad: seq<Line> := [Malformed];
    var na, nb := NonBlank(a), NonBlank(b);
    assert NonBlank(bad) == bad by {
      assert bad[1..] == [];
    }
    assert CountSafe(bad) == 0 by {
      assert bad[..0] == [];
    }
    NonBlankAppend(a + bad, b);
    NonBlankAppend(a, bad);
    assert NonBlank(a + bad + b) == na + bad + nb;
    CountSafeAppend(na + bad, nb);
    CountSafeAppend(na, bad);
  }

  /**
   * `analyze_reactor_safety_from_file`: returns (safe reports, non-blank lines). A line whose
   * tokens are not all integers is reported and skipped; a missing file or any other error
   * returns (0, 0).
   */
  method AnalyzeReactorSafetyFromFile(file: FileRead) returns (safeCount: nat, totalReports: nat)
    ensures !file.Read? ==> safeCount == 0 && totalReports == 0
    ensures file.Read? ==>
      && totalReports == |NonBlank(file.lines)|
      && safeCount == CountSafe(NonBlank(file.lines))
    ensures safeCount <= totalReports
  {
    if !file.Read? {
      return 0, 0;
    }
    var reports := NonBlank(file.lines);
    safeCount := 0;
    totalReports := |reports|;
    for i := 0 to |reports|
      invariant safeCount == CountSafe(reports[..i])
    {
      assert reports[..i + 1][..i] == reports[..i];
      if !reports[i].Report? {
        // a malformed report fails to parse; it is reported and skipped
        continue;
      }
      var isSafe := IsMonotonicWithConstraints(reports[i].levels);
      if isSafe {
        safeCount := safeCount + 1;
      }
    }
    assert reports[..|reports|] == reports;
  }
}
