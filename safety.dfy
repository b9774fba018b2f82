/**
 * The safety rule for a report of reactor levels. python/day2/reactor_safety.py and
 * python/day2/solve_assist.py each carry their own copy of the check; both are proved
 * against the reference definition `Safe` below.
 */
module Safety {
  import opened Arith

  /** Every step `levels[i] - levels[i-1]` lies in the inclusive range [lo, hi]. */
  predicate StepsWithin(levels: seq<int>, lo: int, hi: int) {
    forall i :: 0 < i < |levels| ==> lo <= levels[i] - levels[i - 1] <= hi
  }

  /** A safe report rises by 1 to 3 at every step, or falls by 1 to 3 at every step. */
  predicate Safe(levels: seq<int>) {
    StepsWithin(levels, 1, 3) || StepsWithin(levels, -3, -1)
  }

  predicate StrictlyIncreasing(s: seq<int>) {
    forall i, j :: 0 <= i < j < |s| ==> s[i] < s[j]
  }

  predicate StrictlyDecreasing(s: seq<int>) {
    forall i, j :: 0 <= i < j < |s| ==> s[i] > s[j]
  }

  /** d lists the adjacent differences of levels, `d[k] == levels[k + 1] - levels[k]`. */
  predicate IsDifferences(levels: seq<int>, d: seq<int>) {
    |d| + 1 == |levels| && forall k :: 0 <= k < |d| ==> d[k] == levels[k + 1] - levels[k]
  }

  /**
   * The checks both scripts run on the list of differences: all positive or all negative, and
   * all of absolute value 1 to 3. For a report of at least two levels they decide `Safe`.
   */
  lemma DifferencesDecideSafety(levels: seq<int>, d: seq<int>)
    requires |levels| >= 2 && IsDifferences(levels, d)
    ensures Safe(levels) <==>
      && ((forall k :: 0 <= k < |d| ==> d[k] > 0) || (forall k :: 0 <= k < |d| ==> d[k] < 0))
      && (forall k :: 0 <= k < |d| ==> 1 <= Abs(d[k]) <= 3)
  {
    var allPositive := forall k :: 0 <= k < |d| ==> d[k] > 0;
    var allNegative := forall k :: 0 <= k < |d| ==> d[k] < 0;
    var allBounded := forall k :: 0 <= k < |d| ==> 1 <= Abs(d[k]) <= 3;
    if !(allPositive || allNegative) {
      var up :| 0 <= up < |d| && d[up] <= 0;
      var down :| 0 <= down < |d| && d[down] >= 0;
      assert levels[up + 1] - levels[up] <= 0 <= levels[down + 1] - levels[down];
    } else if allBounded {
      forall i | 0 < i < |levels|
        ensures 1 <= Abs(levels[i] - levels[i - 1]) <= 3
        ensures allPositive ==> levels[i] - levels[i - 1] > 0
        ensures allNegative ==> levels[i] - levels[i - 1] < 0
      {
        assert d[i - 1] == levels[i] - levels[i - 1];
      }
    } else {
      var k :| 0 <= k < |d| && !(1 <= Abs(d[k]) <= 3);
      assert d[k] == levels[k + 1] - levels[k];
    }
  }

  /** Reports with fewer than two levels have no step and are safe. */
  lemma ShortIsSafe(levels: seq<int>)
    requires |levels| < 2
    ensures Safe(levels)
  {
  }

  lemma {:induction false} RisingStepsIncrease(levels: seq<int>, i: int, j: int)
    requires StepsWithin(levels, 1, 3)
    requires 0 <= i < j < |levels|
    ensures levels[i] < levels[j]
  {
    if i < j - 1 {
      RisingStepsIncrease(levels, i, j - 1);
    }
  }

  lemma {:induction false} FallingStepsDecrease(levels: seq<int>, i: int, j: int)
    requires StepsWithin(levels, -3, -1)
    requires 0 <= i < j < |levels|
    ensures levels[i] > levels[j]
  {
    if i < j - 1 {
      FallingStepsDecrease(levels, i, j - 1);
    }
  }

  /** Every adjacent difference has absolute value between 1 and 3. */
  predicate BoundedSteps(levels: seq<int>) {
    forall i :: 0 < i < |levels| ==> 1 <= Abs(levels[i] - levels[i - 1]) <= 3
  }

  lemma SafeIsMonotonic(levels: seq<int>)
    requires Safe(levels)
    ensures StrictlyIncreasing(levels) || StrictlyDecreasing(levels)
  {
    if StepsWithin(levels, 1, 3) {
      forall i, j | 0 <= i < j < |levels| ensures levels[i] < levels[j] {
        RisingStepsIncrease(levels, i, j);
      }
    } else {
      forall i, j | 0 <= i < j < |levels| ensures levels[i] > levels[j] {
        FallingStepsDecrease(levels, i, j);
      }
    }
  }

  lemma MonotonicBoundedIsSafe(levels: seq<int>)
    requires StrictlyIncreasing(levels) || StrictlyDecreasing(levels)
    requires BoundedSteps(levels)
    ensures Safe(levels)
  {
    if StrictlyIncreasing(levels) {
      forall i | 0 < i < |levels| ensures 1 <= levels[i] - levels[i - 1] <= 3 {
        assert levels[i - 1] < levels[i];
      }
    } else {
      forall i | 0 < i < |levels| ensures -3 <= levels[i] - levels[i - 1] <= -1 {
        assert levels[i - 1] > levels[i];
      }
    }
  }

  /**
   * The rule as the docstrings of both scripts phrase it: a report is safe exactly when it is
   * strictly increasing or strictly decreasing and every adjacent difference has absolute
   * value between 1 and 3.
   */
  lemma SafeIffMonotonicWithBoundedSteps(levels: seq<int>)
    ensures Safe(levels) <==>
      (StrictlyIncreasing(levels) || StrictlyDecreasing(levels)) && BoundedSteps(levels)
  {
    if Safe(levels) {
      SafeIsMonotonic(levels);
    }
    if (StrictlyIncreasing(levels) || StrictlyDecreasing(levels)) && BoundedSteps(levels) {
      MonotonicBoundedIsSafe(levels);
    }
  }

  /** Examples: rising and falling by one are safe; a zero step or a step of 4 is not. */
  lemma SafeExamples()
    ensures Safe([1, 2, 3]) && Safe([3, 2, 1])
    ensures !Safe([1, 1, 2]) && !Safe([1, 2, 6])
  {
    assert [1, 1, 2][1] - [1, 1, 2][0] == 0;
    assert [1, 2, 6][2] - [1, 2, 6][1] == 4;
    assert [1, 2, 6][1] - [1, 2, 6][0] == 1;
  }
}
