/**
 * python/day1/solve.py: each input line gives one value of a left and of a right column;
 * part 1 sums the distances between the two columns after sorting both, part 2 weights every
 * left value by how often it occurs in the right column. Both columns are taken as integers.
 */
module Day1 {
  import opened Arith

  /** One parsed input line: (first token, fourth token). */
  type Line = (int, int)

  function Lefts(lines: seq<Line>): seq<int> {
    seq(|lines|, i requires 0 <= i < |lines| => lines[i].0)
  }

  function Rights(lines: seq<Line>): seq<int> {
    seq(|lines|, i requires 0 <= i < |lines| => lines[i].1)
  }

  /** The read loop: every line appends its right value to `rhs` and its left value to `lhs`. */
  method ReadColumns(lines: seq<Line>) returns (lhs: seq<int>, rhs: seq<int>)
    ensures |lhs| == |rhs| == |lines|
    ensures forall i :: 0 <= i < |lines| ==> lhs[i] == lines[i].0 && rhs[i] == lines[i].1
  {
    rhs, lhs := [], [];
    for k := 0 to |lines|
      invariant |lhs| == |rhs| == k
      invariant forall i :: 0 <= i < k ==> lhs[i] == lines[i].0 && rhs[i] == lines[i].1
    {
      rhs := rhs + [lines[k].1];
      lhs := lhs + [lines[k].0];
    }
  }

  predicate Sorted(s: seq<int>) {
    forall i, j :: 0 <= i < j < |s| ==> s[i] <= s[j]
  }

  /** Places x in front of the first element of s not smaller than it. */
  function Insert(x: int, s: seq<int>): (r: seq<int>)
    requires Sorted(s)
    ensures |r| == |s| + 1
    ensures Sorted(r)
    ensures multiset(r) == multiset(s) + multiset{x}
    ensures r[0] == if s != [] && s[0] < x then s[0] else x
  {
    if s == [] then [x]
    else if x <= s[0] then [x] + s
    else
      assert s == [s[0]] + s[1..];
      [s[0]] + Insert(x, s[1..])
  }

  /** Sorting a column, described by its result: an ascending permutation of it. */
  function Sort(s: seq<int>): (r: seq<int>)
    ensures |r| == |s|
    ensures Sorted(r)
    ensures multiset(r) == multiset(s)
  {
    if s == [] then []
    else
      assert s == [s[0]] + s[1..];
      Insert(s[0], Sort(s[1..]))
  }

  /** There is only one ascending arrangement of a multiset of values. */
  lemma {:induction false} SortedUnique(a: seq<int>, b: seq<int>)
    requires Sorted(a) && Sorted(b)
    requires multiset(a) == multiset(b)
    ensures a == b
  {
    assert |a| == |multiset(a)| == |multiset(b)| == |b|;
    if a != [] {
      assert a[0] in multiset(b);
      var j :| 0 <= j < |b| && b[j] == a[0];
      assert b[0] in multiset(a);
      var k :| 0 <= k < |a| && a[k] == b[0];
      assert a[0] == b[0];
      assert a == [a[0]] + a[1..];
      assert b == [b[0]] + b[1..];
      assert multiset(a) == multiset{a[0]} + multiset(a[1..]);
      assert multiset(b) == multiset{b[0]} + multiset(b[1..]);
      assert multiset(a[1..]) == multiset(a) - multiset{a[0]};
      assert multiset(b[1..]) == multiset(b) - multiset{b[0]};
      SortedUnique(a[1..], b[1..]);
    }
  }

  /** Sum of |l[i] - r[i]| over the indices of l; the loop in the script runs over the left column. */
  function DistanceSum(l: seq<int>, r: seq<int>): nat
    requires |l| <= |r|
  {
    if l == [] then 0
    else DistanceSum(l[..|l| - 1], r) + Abs(l[|l| - 1] - r[|l| - 1])
  }

  /** The distance sum vanishes exactly when the two columns agree position by position. */
  lemma {:induction false} DistanceSumZeroIff(l: seq<int>, r: seq<int>)
    requires |l| <= |r|
    ensures DistanceSum(l, r) == 0 <==> forall i :: 0 <= i < |l| ==> l[i] == r[i]
  {
    if l != [] {
      var n := |l| - 1;
      DistanceSumZeroIff(l[..n], r);
      assert forall i :: 0 <= i < n ==> l[..n][i] == l[i];
    }
  }

  /** Part 1: the distance sum of the two columns, each sorted first. */
  function TotalDistance(lefts: seq<int>, rights: seq<int>): nat
    requires |lefts| == |rights|
  {
    DistanceSum(Sort(lefts), Sort(rights))
  }

  /** Part 1 does not depend on the order in which either column was read. */
  lemma TotalDistanceIgnoresOrder(l: seq<int>, r: seq<int>, l': seq<int>, r': seq<int>)
    requires |l| == |r|
    requires multiset(l) == multiset(l') && multiset(r) == multiset(r')
    ensures |l'| == |r'|
    ensures TotalDistance(l, r) == TotalDistance(l', r')
  {
    assert |l| == |multiset(l)| && |l'| == |multiset(l')|;
    assert |r| == |multiset(r)| && |r'| == |multiset(r')|;
    SortedUnique(Sort(l), Sort(l'));
    SortedUnique(Sort(r), Sort(r'));
  }

  /** Part 1 is 0 exactly when the two columns hold the same values the same number of times. */
  lemma TotalDistanceZeroIff(l: seq<int>, r: seq<int>)
    requires |l| == |r|
    ensures TotalDistance(l, r) == 0 <==> multiset(l) == multiset(r)
  {
    DistanceSumZeroIff(Sort(l), Sort(r));
    if multiset(l) == multiset(r) {
      SortedUnique(Sort(l), Sort(r));
    }
    if TotalDistance(l, r) == 0 {
      assert Sort(l) == Sort(r);
    }
  }

  /** The loop of part 1: add the distance of each pair of entries at the same index. */
  method SumDistances(lhs: seq<int>, rhs: seq<int>) returns (sum: int)
    requires |lhs| <= |rhs|
    ensures sum == DistanceSum(lhs, rhs)
  {
    sum := 0;
    for i := 0 to |lhs|
      invariant sum == DistanceSum(lhs[..i], rhs)
    {
      assert lhs[..i + 1][..i] == lhs[..i];
      sum := sum + Abs(lhs[i] - rhs[i]);
    }
    assert lhs[..|lhs|] == lhs;
  }

  /** Sum over l of x * counts[x], where counts holds how often each value occurs in the right column. */
  function SimilaritySum(l: seq<int>, counts: multiset<int>): int {
    if l == [] then 0
    else SimilaritySum(l[..|l| - 1], counts) + l[|l| - 1] * counts[l[|l| - 1]]
  }

  lemma {:induction false} SimilarityAppend(a: seq<int>, b: seq<int>, counts: multiset<int>)
    ensures SimilaritySum(a + b, counts) == SimilaritySum(a, counts) + SimilaritySum(b, counts)
  {
    if b == [] {
      assert a + b == a;
    } else {
      var n := |b| - 1;
      assert (a + b)[..|a + b| - 1] == a + b[..n];
      assert (a + b)[|a + b| - 1] == b[n];
      SimilarityAppend(a, b[..n], counts);
    }
  }

  /** The similarity score does not depend on the order of the left column. */
  lemma {:induction false} SimilarityIgnoresOrder(l: seq<int>, l': seq<int>, counts: multiset<int>)
    requires multiset(l) == multiset(l')
    ensures SimilaritySum(l, counts) == SimilaritySum(l', counts)
  {
    if l == [] {
      assert |l'| == |multiset(l')|;
    } else {
      var n := |l| - 1;
      var x := l[n];
      assert l == l[..n] + [x];
      assert x in multiset(l');
      var k :| 0 <= k < |l'| && l'[k] == x;
      var rest := l'[..k] + l'[k + 1..];
      assert l' == l'[..k] + [x] + l'[k + 1..];
      assert multiset(l') == multiset(l'[..k]) + multiset{x} + multiset(l'[k + 1..]);
      assert multiset(rest) == multiset(l'[..k]) + multiset(l'[k + 1..]);
      assert multiset(l) == multiset(l[..n]) + multiset{x};
      assert multiset(l[..n]) == multiset(l) - multiset{x};
      assert multiset(rest) == multiset(l') - multiset{x};
      SimilarityIgnoresOrder(l[..n], rest, counts);
      SimilarityAppend(l'[..k] + [x], l'[k + 1..], counts);
      SimilarityAppend(l'[..k], [x], counts);
      SimilarityAppend(l'[..k], l'[k + 1..], counts);
      assert [x][..0] == [];
    }
  }

  /** No left value occurs in the right column: the similarity score is 0. */
  lemma {:induction false} SimilarityZeroWithoutMatches(l: seq<int>, r: seq<int>)
    requires forall i :: 0 <= i < |l| ==> l[i] !in r
    ensures SimilaritySum(l, multiset(r)) == 0
  {
    if l != [] {
      var n := |l| - 1;
      assert forall i :: 0 <= i < n ==> l[..n][i] == l[i];
      SimilarityZeroWithoutMatches(l[..n], r);
    }
  }

  /** The loop of part 2: add each left value times its count in the right column. */
  method Similarity(lhs: seq<int>, rhs: seq<int>) returns (similarity: int)
    ensures similarity == SimilaritySum(lhs, multiset(rhs))
  {
    var counts := multiset(rhs);
    similarity := 0;
    for i := 0 to |lhs|
      invariant similarity == SimilaritySum(lhs[..i], counts)
    {
      assert lhs[..i + 1][..i] == lhs[..i];
      var num := lhs[i];
      similarity := similarity + num * counts[num];
    }
    assert lhs[..|lhs|] == lhs;
  }

  /**
   * The whole script: read both columns, sort them in place, then print part 1 and part 2.
   * Part 2 runs over the sorted columns, which gives the same score as the columns as read.
   */
  method Solve(lines: seq<Line>) returns (part1: int, part2: int)
    ensures part1 == TotalDistance(Lefts(lines), Rights(lines))
    ensures part2 == SimilaritySum(Lefts(lines), multiset(Rights(lines)))
  {
    var lhs, rhs := ReadColumns(lines);
    assert lhs == Lefts(lines) && rhs == Rights(lines);
    var sortedLhs := Sort(lhs);
    var sortedRhs := Sort(rhs);
    part1 := SumDistances(sortedLhs, sortedRhs);
    part2 := Similarity(sortedLhs, sortedRhs);
    SimilarityIgnoresOrder(sortedLhs, lhs, multiset(rhs));
  }
}
