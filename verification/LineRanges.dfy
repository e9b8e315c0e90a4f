/** Compression of line numbers to maximal ranges, and the text joined from added rows. */
module LineRanges {

  datatype Range = Range(start: int, end: int)

  datatype Row = Row(line: int, text: string)

  ghost predicate Covers(ranges: seq<Range>, x: int) {
    exists r :: r in ranges && r.start <= x <= r.end
  }

  /** Ranges in order, none of them empty, with at least one uncovered line between neighbours. */
  predicate Separated(ranges: seq<Range>) {
    if ranges == [] then true
    else
      && ranges[0].start <= ranges[0].end
      && (|ranges| > 1 ==> ranges[0].end + 1 < ranges[1].start)
      && Separated(ranges[1..])
  }

  predicate Increasing(s: seq<int>) {
    forall i, j :: 0 <= i < j < |s| ==> s[i] < s[j]
  }

  lemma IncreasingFrom(x: int, s: seq<int>)
    requires Increasing(s)
    ensures (forall y :: y in s ==> x < y) ==> Increasing([x] + s)
  {
    forall i, j | (forall y :: y in s ==> x < y) && 0 <= i < j < |s| + 1 ensures ([x] + s)[i] < ([x] + s)[j] {
      assert s[j - 1] in s;
    }
  }

  /** Adds a number to a strictly increasing sequence unless it is there. */
  function InsertUnique(x: int, s: seq<int>): (r: seq<int>)
    requires Increasing(s)
    ensures Increasing(r) && forall y :: y in r <==> y == x || y in s
  {
    if s == [] then [x]
    else if x < s[0] then [x] + s
    else if x == s[0] then s
    else
      var rest := InsertUnique(x, s[1..]);
      assert s == [s[0]] + s[1..];
      IncreasingFrom(s[0], rest);
      [s[0]] + rest
  }

  /** The positive numbers of `lines`, once each and in order. */
  function SortedUnique(lines: seq<int>): (r: seq<int>)
    ensures Increasing(r) && forall y :: y in r <==> y in lines && y > 0
  {
    if lines == [] then []
    else
      var front := SortedUnique(lines[..|lines| - 1]);
      assert lines == lines[..|lines| - 1] + [lines[|lines| - 1]];
      if lines[|lines| - 1] > 0 then InsertUnique(lines[|lines| - 1], front) else front
  }

  /** One turn of the range loop: extends the last range in place or starts a new one. */
  function AddLine(ranges: seq<Range>, line: int): seq<Range> {
    if ranges != [] && line == ranges[|ranges| - 1].end + 1
    then ranges[|ranges| - 1 := ranges[|ranges| - 1].(end := line)]
    else ranges + [Range(line, line)]
  }

  lemma {:induction false} SeparatedExtends(ranges: seq<Range>, r: Range)
    requires Separated(ranges) && r.start <= r.end && (ranges != [] ==> ranges[|ranges| - 1].end + 1 < r.start)
    ensures Separated(ranges + [r])
  {
    if ranges != [] {
      assert (ranges + [r])[1..] == ranges[1..] + [r];
      SeparatedExtends(ranges[1..], r);
    }
  }

  lemma {:induction false} SeparatedPrefix(ranges: seq<Range>)
    requires Separated(ranges) && ranges != []
    ensures Separated(ranges[..|ranges| - 1]) && ranges[|ranges| - 1].start <= ranges[|ranges| - 1].end
    ensures |ranges| > 1 ==> ranges[|ranges| - 2].end + 1 < ranges[|ranges| - 1].start
  {
    if |ranges| > 1 {
      SeparatedPrefix(ranges[1..]);
      assert ranges[..|ranges| - 1][1..] == ranges[1..][..|ranges| - 2];
    }
  }

  lemma AddLineKeeps(ranges: seq<Range>, line: int)
    requires Separated(ranges) && (ranges != [] ==> ranges[|ranges| - 1].end < line)
    ensures Separated(AddLine(ranges, line)) && AddLine(ranges, line) != []
    ensures AddLine(ranges, line)[|AddLine(ranges, line)| - 1].end == line
    ensures forall x :: Covers(AddLine(ranges, line), x) <==> Covers(ranges, x) || x == line
  {
    var out := AddLine(ranges, line);
    if ranges != [] && line == ranges[|ranges| - 1].end + 1 {
      var front, last := ranges[..|ranges| - 1], ranges[|ranges| - 1];
      SeparatedPrefix(ranges);
      assert out == front + [last.(end := line)];
      SeparatedExtends(front, last.(end := line));
      assert ranges == front + [last];
    } else {
      SeparatedExtends(ranges, Range(line, line));
    }
    forall x ensures Covers(out, x) <==> Covers(ranges, x) || x == line {
      CoversExtends(ranges[..|out| - 1], out[|out| - 1], x);
      assert out == out[..|out| - 1] + [out[|out| - 1]] && out[..|out| - 1] == ranges[..|out| - 1];
      if |out| == |ranges| {
        CoversExtends(ranges[..|out| - 1], ranges[|out| - 1], x);
        assert ranges == ranges[..|out| - 1] + [ranges[|out| - 1]];
      } else {
        assert ranges[..|out| - 1] == ranges;
      }
    }
  }

  lemma CoversExtends(ranges: seq<Range>, r: Range, x: int)
    ensures Covers(ranges + [r], x) <==> Covers(ranges, x) || r.start <= x <= r.end
  {
    assert r in ranges + [r];
    if s :| s in ranges && s.start <= x <= s.end { assert s in ranges + [r]; }
  }

  /** The ranges are separated and cover exactly the positive lines: they are the maximal runs. */
  method ContiguousLineRanges(lines: seq<int>) returns (ranges: seq<Range>)
    ensures Separated(ranges)
    ensures forall x :: Covers(ranges, x) <==> x in lines && x > 0
  {
    var sorted := SortedUnique(lines);
    ranges := [];
    for i := 0 to |sorted|
      invariant Separated(ranges)
      invariant ranges != [] <==> i > 0
      invariant i > 0 ==> ranges[|ranges| - 1].end == sorted[i - 1]
      invariant forall x :: Covers(ranges, x) <==> x in sorted[..i]
    {
      var line := sorted[i];
      AddLineKeeps(ranges, line);
      assert sorted[..i + 1] == sorted[..i] + [line];
      if ranges != [] && line == ranges[|ranges| - 1].end + 1 {
        ranges := ranges[|ranges| - 1 := ranges[|ranges| - 1].(end := line)];
      } else {
        ranges := ranges + [Range(line, line)];
      }
    }
    assert sorted[..|sorted|] == sorted;
  }

  lemma {:induction false} FirstIsLeast(ranges: seq<Range>, x: int)
    requires Separated(ranges) && ranges != []
    ensures Covers(ranges, x) ==> ranges[0].start <= x
    ensures Covers(ranges, x) <==> ranges[0].start <= x <= ranges[0].end || Covers(ranges[1..], x)
    ensures Covers(ranges[1..], x) ==> ranges[0].end + 1 < x
  {
    assert ranges == [ranges[0]] + ranges[1..];
    if |ranges| > 1 { FirstIsLeast(ranges[1..], x); }
  }

  /** Separated ranges are determined by what they cover. */
  lemma {:induction false} RangesAreUnique(a: seq<Range>, b: seq<Range>)
    requires Separated(a) && Separated(b) && forall x :: Covers(a, x) <==> Covers(b, x)
    ensures a == b
  {
    forall x ensures a != [] ==> (Covers(a, x) ==> a[0].start <= x) {
      if a != [] { FirstIsLeast(a, x); }
    }
    forall x ensures b != [] ==> (Covers(b, x) ==> b[0].start <= x) {
      if b != [] { FirstIsLeast(b, x); }
    }
    assert a != [] ==> Covers(a, a[0].start);
    assert b != [] ==> Covers(b, b[0].start);
    if a != [] && b != [] {
      assert a[0].start == b[0].start;
      var afterA, afterB := a[0].end + 1, b[0].end + 1;
      FirstIsLeast(a, afterA);
      FirstIsLeast(b, afterA);
      FirstIsLeast(a, afterB);
      FirstIsLeast(b, afterB);
      forall x ensures Covers(a[1..], x) <==> Covers(b[1..], x) {
        FirstIsLeast(a, x);
        FirstIsLeast(b, x);
      }
      RangesAreUnique(a[1..], b[1..]);
      assert a == [a[0]] + a[1..] && b == [b[0]] + b[1..];
    }
  }

  // ----- joined text -----

  /** `' '.repeat(1301)` */
  function Separator(): string {
    seq(1301, i => ' ')
  }

  /** The lines `joinAddedHunkRows` joins: the rows, with a separator wherever the numbers jump. */
  function Joined(rows: seq<Row>): seq<string> {
    if rows == [] then []
    else
      var front, last := rows[..|rows| - 1], rows[|rows| - 1];
      Joined(front)
      + (if front != [] && front[|front| - 1].line > 0 && last.line > front[|front| - 1].line + 1 then [Separator()] else [])
      + [last.text]
  }

  method JoinAddedHunkRows(rows: seq<Row>) returns (out: seq<string>)
    ensures out == Joined(rows)
  {
    out := [];
    var previousLine := 0;
    for i := 0 to |rows|
      invariant out == Joined(rows[..i])
      invariant previousLine == if i == 0 then 0 else rows[i - 1].line
    {
      assert rows[..i + 1][..i] == rows[..i];
      var row := rows[i];
      if previousLine > 0 && row.line > previousLine + 1 {
        out := out + [Separator()];
      }
      out := out + [row.text];
      previousLine := row.line;
    }
    assert rows[..|rows|] == rows;
  }

  function LinesOf(rows: seq<Row>): seq<int> {
    seq(|rows|, i requires 0 <= i < |rows| => rows[i].line)
  }

  /** The range list of a strictly increasing sequence of lines, built line by line. */
  function RangesOf(lines: seq<int>): seq<Range> {
    if lines == [] then [] else AddLine(RangesOf(lines[..|lines| - 1]), lines[|lines| - 1])
  }

  lemma {:induction false} RangesOfIncreasing(lines: seq<int>)
    requires Increasing(lines)
    ensures Separated(RangesOf(lines)) && (lines != [] <==> RangesOf(lines) != [])
    ensures lines != [] ==> RangesOf(lines)[|RangesOf(lines)| - 1].end == lines[|lines| - 1]
    ensures forall x :: Covers(RangesOf(lines), x) <==> x in lines
  {
    if lines != [] {
      var front, last := lines[..|lines| - 1], lines[|lines| - 1];
      RangesOfIncreasing(front);
      AddLineKeeps(RangesOf(front), last);
      assert lines == front + [last];
    }
  }

  /**
   * For rows with positive, strictly increasing line numbers, the joined text has exactly
   * one separator between neighbouring ranges, whichever separated ranges cover the lines.
   */
  lemma {:induction false} SeparatorsBetweenRanges(rows: seq<Row>, ranges: seq<Range>)
    requires rows != [] && Increasing(LinesOf(rows)) && rows[0].line > 0
    requires Separated(ranges) && forall x :: Covers(ranges, x) <==> x in LinesOf(rows)
    ensures |Joined(rows)| == |rows| + |ranges| - 1
  {
    RangesOfIncreasing(LinesOf(rows));
    RangesAreUnique(ranges, RangesOf(LinesOf(rows)));
    CountSeparators(rows);
  }

  lemma {:induction false} CountSeparators(rows: seq<Row>)
    requires rows != [] && Increasing(LinesOf(rows)) && rows[0].line > 0
    ensures |Joined(rows)| == |rows| + |RangesOf(LinesOf(rows))| - 1
  {
    var front, last := rows[..|rows| - 1], rows[|rows| - 1];
    assert LinesOf(rows)[..|rows| - 1] == LinesOf(front);
    if front != [] {
      CountSeparators(front);
      RangesOfIncreasing(LinesOf(front));
      assert LinesOf(rows)[|front| - 1] < LinesOf(rows)[|front|];
      assert LinesOf(rows)[0] <= LinesOf(rows)[|front| - 1];
    }
  }
}
