/**
 * python/day2/reactor_safety.py: the safety check, the Problem Dampener that may drop one level
 * of an unsafe report, and the safe-report tally of `process_reactor_file`.
 */
module ReactorSafety {
  import opened Arith
  import opened Input
  import opened Safety

  /** The report without its level at index i. */
  function RemoveAt(levels: seq<int>, i: int): (r: seq<int>)
    requires 0 <= i < |levels|
    ensures |r| == |levels| - 1
  {
    levels[..i] + levels[i + 1..]
  }

  /** The shortened report keeps the levels before index i and shifts the rest down by one. */
  lemma RemoveAtElements(levels: seq<int>, i: int)
    requires 0 <= i < |levels|
    ensures forall k :: 0 <= k < i ==> RemoveAt(levels, i)[k] == levels[k]
    ensures forall k :: i <= k < |levels| - 1 ==> RemoveAt(levels, i)[k] == levels[k + 1]
  {
  }

  /** Dropping some single level makes the report safe. */
  predicate Repairable(levels: seq<int>) {
    exists i :: 0 <= i < |levels| && Safe(RemoveAt(levels, i))
  }

  /** The verdict of the Problem Dampener: safe as it is, or safe after dropping one level. */
  predicate DampenerSafe(levels: seq<int>) {
    Safe(levels) || Repairable(levels)
  }

  /** i is the lowest index whose removal makes the report safe. */
  predicate FirstRepair(levels: seq<int>, i: int) {
    && 0 <= i < |levels|
    && Safe(RemoveAt(levels, i))
    && forall j :: 0 <= j < i ==> !Safe(RemoveAt(levels, j))
  }

  /** `is_monotonic_with_constraints`: collect the adjacent differences, then check their signs and sizes. */
  method IsMonotonicWithConstraints(levels: seq<int>) returns (safe: bool)
    ensures safe == Safe(levels)
  {
    if |levels| < 2 {
      return true;
    }
    var differences: seq<int> := [];
    for i := 1 to |levels|
      invariant |differences| == i - 1
      invariant forall k :: 0 <= k < i - 1 ==> differences[k] == levels[k + 1] - levels[k]
    {
      differences := differences + [levels[i] - levels[i - 1]];
    }
    DifferencesDecideSafety(levels, differences);
    var allIncreasing := forall k :: 0 <= k < |differences| ==> differences[k] > 0;
    var allDecreasing := forall k :: 0 <= k < |differences| ==> differences[k] < 0;
    if !(allIncreasing || allDecreasing) {
      return false;
    }
    return forall k :: 0 <= k < |differences| ==> 1 <= Abs(differences[k]) <= 3;
  }

  /**
   * `check_safety_with_dampener`: a safe report comes back unchanged with index -1; otherwise
   * the removals are tried in ascending order and the first that yields a safe report wins.
   */
  method CheckSafetyWithDampener(levels: seq<int>)
      returns (isSafe: bool, removedIndex: int, safeSequence: seq<int>)
    ensures isSafe == DampenerSafe(levels)
    ensures (isSafe && removedIndex == -1) <==> Safe(levels)
    ensures removedIndex == -1 ==> safeSequence == levels
    ensures removedIndex != -1 ==>
      && isSafe
      && !Safe(levels)
      && FirstRepair(levels, removedIndex)
      && safeSequence == RemoveAt(levels, removedIndex)
    ensures !isSafe ==> removedIndex == -1
  {
    var safe := IsMonotonicWithConstraints(levels);
    if safe {
      return true, -1, levels;
    }
    for i := 0 to |levels|
      invariant forall j :: 0 <= j < i ==> !Safe(RemoveAt(levels, j))
    {
      var modifiedLevels := levels[..i] + levels[i + 1..];
      var modifiedSafe := IsMonotonicWithConstraints(modifiedLevels);
      assert modifiedLevels == RemoveAt(levels, i);
      if modifiedSafe {
        return true, i, modifiedLevels;
      }
    }
    return false, -1, levels;
  }

  lemma {:induction false} FirstRepairBelow(levels: seq<int>, n: int)
    requires 0 <= n <= |levels|
    requires exists i :: 0 <= i < n && Safe(RemoveAt(levels, i))
    ensures exists i :: FirstRepair(levels, i)
  {
    if exists i :: 0 <= i < n - 1 && Safe(RemoveAt(levels, i)) {
      FirstRepairBelow(levels, n - 1);
    } else {
      assert FirstRepair(levels, n - 1);
    }
  }

  /** A repairable report has a lowest repairing index, and only one. */
  lemma FirstRepairExistsUnique(levels: seq<int>)
    requires Repairable(levels)
    ensures exists i :: FirstRepair(levels, i)
    ensures forall i, j :: FirstRepair(levels, i) && FirstRepair(levels, j) ==> i == j
  {
    FirstRepairBelow(levels, |levels|);
  }

  /**
   * Reports of at most two levels always pass the dampener: dropping the first level leaves at
   * most one. So an index reported with a dampened result is always a valid index of the report.
   */
  lemma ShortIsDampenerSafe(levels: seq<int>)
    requires |levels| <= 2
    ensures DampenerSafe(levels)
  {
    if |levels| == 2 {
      ShortIsSafe(RemoveAt(levels, 0));
    }
  }

  /** A report with a rising step and a non-rising step, or the reverse, is unsafe. */
  lemma MixedStepsUnsafe(levels: seq<int>, i: int, j: int)
    requires 0 < i < |levels| && 0 < j < |levels|
    requires levels[i] - levels[i - 1] > 0 && levels[j] - levels[j - 1] <= 0
    ensures !Safe(levels)
  {
  }

  /** Worked example: in [1, 3, 2, 4, 5] dropping index 0 does not help, dropping index 1 does. */
  lemma DampenerExampleSecondLevel()
    ensures !Safe([1, 3, 2, 4, 5]) && FirstRepair([1, 3, 2, 4, 5], 1)
  {
    MixedStepsUnsafe([1, 3, 2, 4, 5], 1, 2);
    ExampleWithoutFirstLevel();
    ExampleWithoutSecondLevel();
  }

  lemma ExampleWithoutFirstLevel()
    ensures !Safe(RemoveAt([1, 3, 2, 4, 5], 0))
  {
    assert RemoveAt([1, 3, 2, 4, 5], 0) == [3, 2, 4, 5];
    MixedStepsUnsafe([3, 2, 4, 5], 2, 1);
  }

  lemma ExampleWithoutSecondLevel()
    ensures Safe(RemoveAt([1, 3, 2, 4, 5], 1))
  {
    var a := [1, 3, 2, 4, 5];
    assert a[..1] == [1] && a[2..] == [2, 4, 5];
    assert RemoveAt(a, 1) == [1, 2, 4, 5];
    assert StepsWithin([1, 2, 4, 5], 1, 3);
  }

  /** Worked example: in [9, 1, 2, 3] dropping the first level repairs the report. */
  lemma DampenerExampleFirstLevel()
    ensures !Safe([9, 1, 2, 3]) && FirstRepair([9, 1, 2, 3], 0)
  {
    assert !Safe([9, 1, 2, 3]) by {
      assert [9, 1, 2, 3][1] - [9, 1, 2, 3][0] == -8;
    }
    assert Safe(RemoveAt([9, 1, 2, 3], 0)) by {
      assert RemoveAt([9, 1, 2, 3], 0) == [1, 2, 3];
      assert StepsWithin([1, 2, 3], 1, 3);
    }
  }

  /** Worked example: [1, 1, 1, 1] keeps a zero step whichever level is dropped. */
  lemma DampenerExampleUnfixable()
    ensures !DampenerSafe([1, 1, 1, 1])
  {
    var c := [1, 1, 1, 1];
    assert c[1] - c[0] == 0;
    forall i | 0 <= i < 4 ensures !Safe(RemoveAt(c, i)) {
      var r := RemoveAt(c, i);
      assert r[1] == 1 && r[0] == 1;
    }
  }

  /** A report line counted as safe by `process_reactor_file`. */
  predicate PassesDampener(line: Line) {
    line.Report? && DampenerSafe(line.levels)
  }

  /** Number of reports that pass the dampener. */
  function CountDampenerSafe(reports: seq<Line>): (n: nat)
    ensures n <= |reports|
  {
    if reports == [] then 0
    else CountDampenerSafe(reports[..|reports| - 1]) + (if PassesDampener(reports[|reports| - 1]) then 1 else 0)
  }

  predicate WellFormed(reports: seq<Line>) {
    forall k :: 0 <= k < |reports| ==> !reports[k].Malformed?
  }

  /**
   * What a run of `process_reactor_file` ends with: one of the two error messages, or the final
   * summary (the unsafe count it prints is totalReports - safeCount).
   */
  datatype RunResult = FileNotFound | UnexpectedError | Completed(safeCount: nat, totalReports: nat)

  /**
   * `process_reactor_file`: every non-blank line is a report; the dampener result of each is
   * tallied. A line that does not parse raises out of the loop into the generic handler, so the
   * run ends with no summary.
   */
  method ProcessReactorFile(file: FileRead) returns (result: RunResult)
    ensures file.NotFound? ==> result == FileNotFound
    ensures file.ReadFailed? ==> result == UnexpectedError
    ensures file.Read? && !WellFormed(NonBlank(file.lines)) ==> result == UnexpectedError
    ensures file.Read? && WellFormed(NonBlank(file.lines)) ==>
      result == Completed(CountDampenerSafe(NonBlank(file.lines)), |NonBlank(file.lines)|)
    ensures result.Completed? ==> result.safeCount <= result.totalReports
  {
    match file
    case NotFound =>
      return FileNotFound;
    case ReadFailed =>
      return UnexpectedError;
    case Read(lines) =>
      var reports := NonBlank(lines);
      var safeCount := 0;
      var totalReports := |reports|;
      for k := 0 to |reports|
        invariant safeCount == CountDampenerSafe(reports[..k])
        invariant WellFormed(reports[..k])
      {
        var report := reports[k];
        if !report.Report? {
          // a malformed report fails to parse; only the top-level handler catches the error
          assert report.Malformed?;
          return UnexpectedError;
        }
        var isSafe, removedIndex, safeSequence := CheckSafetyWithDampener(report.levels);
        assert reports[..k + 1][..k] == reports[..k];
        assert CountDampenerSafe(reports[..k + 1]) ==
          CountDampenerSafe(reports[..k]) + (if isSafe then 1 else 0);
        if isSafe {
          safeCount := safeCount + 1;
        }
      }
      assert reports[..|reports|] == reports;
      return Completed(safeCount, totalReports);
  }
}
