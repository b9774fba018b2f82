/**
 * Input files of the day 2 scripts, after reading. Opening the file, `line.strip()`,
 * `line.split()` and the `int` conversion are not modelled; each line arrives already
 * classified as blank, malformed (some token is not an integer) or a parsed report.
 */
module Input {

  /** One line of a report file. */
  datatype Line = Blank | Malformed | Report(levels: seq<int>)

  /** The result of opening and reading the whole file. `ReadFailed` stands for any other
      exception raised while reading, which the scripts catch generically. */
  datatype FileRead = NotFound | ReadFailed | Read(lines: seq<Line>)

  /** The list comprehension that keeps only the lines that are non-empty after stripping. */
  function NonBlank(lines: seq<Line>): (reports: seq<Line>)
    ensures |reports| <= |lines|
    ensures forall k :: 0 <= k < |reports| ==> !reports[k].Blank?
  {
    if lines == [] then []
    else (if lines[0].Blank? then [] else [lines[0]]) + NonBlank(lines[1..])
  }

  /** Filtering distributes over concatenation: each line is kept or dropped on its own. */
  lemma {:induction false} NonBlankAppend(a: seq<Line>, b: seq<Line>)
    ensures NonBlank(a + b) == NonBlank(a) + NonBlank(b)
  {
    if a == [] {
      assert a + b == b;
    } else {
      var head := if a[0].Blank? then [] else [a[0]];
      assert (a + b)[0] == a[0];
      assert (a + b)[1..] == a[1..] + b;
      NonBlankAppend(a[1..], b);
      assert NonBlank(a + b) == head + (NonBlank(a[1..]) + NonBlank(b));
      assert head + (NonBlank(a[1..]) + NonBlank(b)) == (head + NonBlank(a[1..])) + NonBlank(b);
    }
  }

  /** The filter keeps every non-blank line as often as it occurs, and nothing else. */
  lemma {:induction false} NonBlankKeepsExactlyReports(lines: seq<Line>)
    ensures forall x :: x != Blank ==> multiset(NonBlank(lines))[x] == multiset(lines)[x]
    ensures multiset(NonBlank(lines))[Blank] == 0
  {
    if lines != [] {
      NonBlankKeepsExactlyReports(lines[1..]);
      assert lines == [lines[0]] + lines[1..];
      assert multiset(lines) == multiset{lines[0]} + multiset(lines[1..]);
    }
  }

  /** A file without blank lines is kept whole. */
  lemma {:induction false} NonBlankKeepsReports(lines: seq<Line>)
    requires forall k :: 0 <= k < |lines| ==> !lines[k].Blank?
    ensures NonBlank(lines) == lines
  {
    if lines != [] {
      NonBlankKeepsReports(lines[1..]);
    }
  }
}
