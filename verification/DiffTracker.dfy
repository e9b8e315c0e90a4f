/**
 * The tracker that recovers new-file line numbers from a zero-context unified diff, the
 * printer of such diffs (POSIX.1-2017, `diff`, "Diff -u or -U Output Format"), and what
 * the first reads of the lines of the second.
 */
module DiffTracker {
  import opened DiffText
  import opened LineRanges
  import opened Sequences
  import opened Text
  import opened Wrappers

  // ----- reading lines -----

  predicate IsDigit(c: char) { '0' <= c <= '9' }

  function DigitCount(s: string): (n: nat)
    ensures n <= |s| && forall i :: 0 <= i < n ==> IsDigit(s[i])
  {
    if s != [] && IsDigit(s[0]) then 1 + DigitCount(s[1..]) else 0
  }

  function Value(digits: string): nat {
    if digits == [] then 0
    else 10 * Value(digits[..|digits| - 1]) + if IsDigit(digits[|digits| - 1]) then digits[|digits| - 1] as int - '0' as int else 0
  }

  /** `(?:,\d+)?` */
  function SkipCount(s: string): string {
    if s != [] && s[0] == ',' && DigitCount(s[1..]) > 0 then s[1..][DigitCount(s[1..])..] else s
  }

  /** The new-file start in `@@ -\d+(?:,\d+)? \+(\d+)(?:,\d+)? @@`, anchored at the start of the line. */
  function ParseHunk(line: string): Option<nat> {
    if !StartsWith(line, "@@ -") || DigitCount(line[4..]) == 0 then None
    else
      var afterOld := SkipCount(line[4..][DigitCount(line[4..])..]);
      if !StartsWith(afterOld, " +") || DigitCount(afterOld[2..]) == 0 then None
      else
        var n := DigitCount(afterOld[2..]);
        if StartsWith(SkipCount(afterOld[2..][n..]), " @@") then Some(Value(afterOld[2..][..n])) else None
  }

  function NormalizeSlashes(file: string): string {
    seq(|file|, i requires 0 <= i < |file| => if file[i] == '\\' then '/' else file[i])
  }

  /** What the loop makes of one line. */
  datatype Token = FileHeader(name: string) | HunkStart(line: nat) | Added(text: string) | Deleted | OtherLine

  function Read(line: string): Token {
    if StartsWith(line, "+++ b/") then FileHeader(NormalizeSlashes(line[6..]))
    else if ParseHunk(line).Some? then HunkStart(ParseHunk(line).value)
    else if StartsWith(line, "+") && !StartsWith(line, "+++") then Added(line[1..])
    else if !StartsWith(line, "-") then OtherLine
    else Deleted
  }

  /** The tokens of a diff: of its lines, split at line ends. */
  function Tokens(diff: string): seq<Token> {
    Mapped(Read, SplitLines(diff))
  }

  /** The loop's variables: current file, current new-file line, rows collected by file. */
  datatype Tracker = Tracker(file: string, line: nat, rows: map<string, seq<Row>>)

  const START := Tracker("", 0, map[])

  function RowsOf(rows: map<string, seq<Row>>, file: string): seq<Row> {
    if file in rows then rows[file] else []
  }

  function Step(t: Tracker, token: Token): Tracker {
    match token
    case FileHeader(name) => t.(file := name)
    case HunkStart(line) => t.(line := line)
    case Added(text) =>
      if t.file != "" then
        t.(line := t.line + 1, rows := t.rows[t.file := RowsOf(t.rows, t.file) + [Row(t.line, text)]])
      else t.(line := t.line + 1)
    case Deleted => t
    case OtherLine => t.(line := t.line + 1)
  }

  function Track(t: Tracker, tokens: seq<Token>): Tracker
    decreases |tokens|
  {
    if tokens == [] then t else Track(Step(t, tokens[0]), tokens[1..])
  }

  /** What the loop collects from a diff. */
  function Recovered(diff: string): map<string, seq<Row>> {
    Track(START, Tokens(diff)).rows
  }

  lemma TokensFrom(lines: seq<string>, i: nat)
    requires i < |lines|
    ensures Mapped(Read, lines)[i..] != [] && Mapped(Read, lines)[i..][0] == Read(lines[i])
    ensures Mapped(Read, lines)[i..][1..] == Mapped(Read, lines)[i + 1..]
  {}

  method CollectAddedRows(diff: string) returns (linesByFile: map<string, seq<Row>>)
    ensures linesByFile == Recovered(diff)
  {
    var currentFile, currentLine := "", 0;
    linesByFile := map[];
    var lines := SplitLines(diff);
    for i := 0 to |lines|
      invariant Track(Tracker(currentFile, currentLine, linesByFile), Mapped(Read, lines)[i..]) == Track(START, Tokens(diff))
    {
      TokensFrom(lines, i);
      var line := lines[i];
      if StartsWith(line, "+++ b/") {
        currentFile := NormalizeSlashes(line[6..]);
        continue;
      }
      var hunk := ParseHunk(line);
      if hunk.Some? {
        currentLine := hunk.value;
        continue;
      }
      if StartsWith(line, "+") && !StartsWith(line, "+++") {
        if currentFile != "" {
          var rows := RowsOf(linesByFile, currentFile);
          rows := rows + [Row(currentLine, line[1..])];
          linesByFile := linesByFile[currentFile := rows];
        }
        currentLine := currentLine + 1;
        continue;
      }
      if !StartsWith(line, "-") {
        currentLine := currentLine + 1;
      }
    }
  }

  // ----- printing edit scripts -----

  /** A maximal group of deleted and added lines, after `skip` unchanged ones. */
  datatype Hunk = Hunk(skip: nat, deleted: seq<string>, added: seq<string>,
                       oldUnterminated: bool, newUnterminated: bool, heading: string)

  datatype FileDiff = FileDiff(preamble: seq<string>, name: string, hunks: seq<Hunk>)

  function Decimal(n: nat): string {
    if n < 10 then [('0' as int + n) as char] else Decimal(n / 10) + [('0' as int + n % 10) as char]
  }

  /** `start,count`: a single line omits its count, an empty range starts at the line before it. */
  function RangeText(before: nat, count: nat): string {
    if count == 1 then Decimal(before + 1)
    else if count == 0 then Decimal(before) + "," + Decimal(count)
    else Decimal(before + 1) + "," + Decimal(count)
  }

  function HunkHeader(h: Hunk, oldBefore: nat, newBefore: nat): string {
    "@@ -" + RangeText(oldBefore, |h.deleted|) + " +" + RangeText(newBefore, |h.added|) + " @@" + h.heading
  }

  function Prefixed(mark: char, lines: seq<string>): seq<string> {
    seq(|lines|, i requires 0 <= i < |lines| => [mark] + lines[i])
  }

  const NO_NEWLINE := "\\ No newline at end of file"

  function Marker(unterminated: bool): seq<string> {
    if unterminated then [NO_NEWLINE] else []
  }

  function HunkBody(h: Hunk): seq<string> {
    Prefixed('-', h.deleted) + Marker(h.oldUnterminated) + Prefixed('+', h.added) + Marker(h.newUnterminated)
  }

  /** A hunk with the number of old-file and new-file lines before its changes. */
  datatype Spot = Spot(h: Hunk, oldBefore: nat, newBefore: nat)

  function Spots(hunks: seq<Hunk>, oldBefore: nat, newBefore: nat): seq<Spot> {
    if hunks == [] then []
    else
      var h := hunks[0];
      [Spot(h, oldBefore + h.skip, newBefore + h.skip)]
      + Spots(hunks[1..], oldBefore + h.skip + |h.deleted|, newBefore + h.skip + |h.added|)
  }

  function HunkLines(p: Spot): seq<string> {
    [HunkHeader(p.h, p.oldBefore, p.newBefore)] + HunkBody(p.h)
  }

  /** One block per hunk, one after the other. */
  function Layout<T>(block: Spot -> seq<T>, spots: seq<Spot>): seq<T> {
    if spots == [] then [] else block(spots[0]) + Layout(block, spots[1..])
  }

  /** A tab marks the end of a name that holds a space. */
  function NameText(name: string): string {
    if ' ' in name then name + "\t" else name
  }

  function PrintFile(d: FileDiff): seq<string> {
    d.preamble + ["--- a/" + NameText(d.name), "+++ b/" + NameText(d.name)] + Layout(HunkLines, Spots(d.hunks, 0, 0))
  }

  function PrintAll(ds: seq<FileDiff>): seq<string> {
    if ds == [] then [] else PrintAll(ds[..|ds| - 1]) + PrintFile(ds[|ds| - 1])
  }

  // ----- what the tracker should find -----

  function Numbered(from: nat, lines: seq<string>): seq<Row> {
    seq(|lines|, i requires 0 <= i < |lines| => Row(from + i, lines[i]))
  }

  function HunkRows(p: Spot): seq<Row> {
    Numbered(p.newBefore + 1, p.h.added)
  }

  /** The added lines with their positions in the new file. */
  function AddedRows(hunks: seq<Hunk>): seq<Row> {
    Layout(HunkRows, Spots(hunks, 0, 0))
  }

  /** The new file that an edit script makes of an old one. */
  function Patched(original: seq<string>, hunks: seq<Hunk>): seq<string> {
    if hunks == [] then original
    else
      var h := hunks[0];
      if h.skip + |h.deleted| > |original| then original
      else original[..h.skip] + h.added + Patched(original[h.skip + |h.deleted|..], hunks[1..])
  }

  predicate ScriptFits(original: seq<string>, hunks: seq<Hunk>) {
    hunks == []
    || (hunks[0].skip + |hunks[0].deleted| <= |original|
        && original[hunks[0].skip..hunks[0].skip + |hunks[0].deleted|] == hunks[0].deleted
        && ScriptFits(original[hunks[0].skip + |hunks[0].deleted|..], hunks[1..]))
  }

  /** The rows are lines of the file whose lines follow the first `base` ones. */
  predicate AreLinesOf(rows: seq<Row>, lines: seq<string>, base: nat) {
    forall i :: 0 <= i < |rows| ==> base < rows[i].line <= base + |lines| && lines[rows[i].line - base - 1] == rows[i].text
  }

  lemma NumberedAreLines(front: seq<string>, added: seq<string>, tail: seq<string>, base: nat)
    ensures AreLinesOf(Numbered(base + |front| + 1, added), front + added + tail, base)
  {}

  lemma LaterAreLines(rows: seq<Row>, front: seq<string>, tail: seq<string>, base: nat)
    requires AreLinesOf(rows, tail, base + |front|)
    ensures AreLinesOf(rows, front + tail, base)
  {}

  lemma BothAreLines(a: seq<Row>, b: seq<Row>, lines: seq<string>, base: nat)
    requires AreLinesOf(a, lines, base) && AreLinesOf(b, lines, base)
    ensures AreLinesOf(a + b, lines, base)
  {}

  lemma LayoutHead<T>(block: Spot -> seq<T>, h: Hunk, rest: seq<Hunk>, oldBefore: nat, base: nat)
    ensures Layout(block, Spots([h] + rest, oldBefore, base))
         == block(Spot(h, oldBefore + h.skip, base + h.skip))
            + Layout(block, Spots(rest, oldBefore + h.skip + |h.deleted|, base + h.skip + |h.added|))
  {
    assert ([h] + rest)[1..] == rest;
    var later := Spots(rest, oldBefore + h.skip + |h.deleted|, base + h.skip + |h.added|);
    assert ([Spot(h, oldBefore + h.skip, base + h.skip)] + later)[1..] == later;
  }

  lemma PatchedHead(original: seq<string>, h: Hunk, rest: seq<Hunk>)
    requires ScriptFits(original, [h] + rest)
    ensures h.skip + |h.deleted| <= |original|
    ensures var later := original[h.skip + |h.deleted|..];
            ScriptFits(later, rest) && Patched(original, [h] + rest) == original[..h.skip] + h.added + Patched(later, rest)
  {
    assert ([h] + rest)[1..] == rest;
  }

  /** The rows laid out from these hunks are lines of `lines`. */
  predicate LaidOut(hunks: seq<Hunk>, oldBefore: nat, base: nat, lines: seq<string>) {
    AreLinesOf(Layout(HunkRows, Spots(hunks, oldBefore, base)), lines, base)
  }

  lemma LaidOutHead(h: Hunk, rest: seq<Hunk>, oldBefore: nat, base: nat, front: seq<string>, tail: seq<string>)
    requires |front| == h.skip && LaidOut(rest, oldBefore + h.skip + |h.deleted|, base + h.skip + |h.added|, tail)
    ensures LaidOut([h] + rest, oldBefore, base, front + h.added + tail)
  {
    LayoutHead(HunkRows, h, rest, oldBefore, base);
    RowsOfHunk(front, Spot(h, oldBefore + h.skip, base + h.skip), tail, base,
               Layout(HunkRows, Spots(rest, oldBefore + h.skip + |h.deleted|, base + h.skip + |h.added|)));
  }

  lemma {:induction false} LaidOutRowsAreLines(original: seq<string>, hunks: seq<Hunk>, oldBefore: nat, base: nat)
    requires ScriptFits(original, hunks)
    ensures LaidOut(hunks, oldBefore, base, Patched(original, hunks))
    decreases |hunks|
  {
    if hunks != [] {
      var h, rest := hunks[0], hunks[1..];
      assert hunks == [h] + rest;
      PatchedHead(original, h, rest);
      var later := original[h.skip + |h.deleted|..];
      LaidOutRowsAreLines(later, rest, oldBefore + h.skip + |h.deleted|, base + h.skip + |h.added|);
      LaidOutHead(h, rest, oldBefore, base, original[..h.skip], Patched(later, rest));
    }
  }

  lemma RowsOfHunk(front: seq<string>, p: Spot, tail: seq<string>, base: nat, later: seq<Row>)
    requires p.newBefore == base + |front| && AreLinesOf(later, tail, p.newBefore + |p.h.added|)
    ensures AreLinesOf(HunkRows(p) + later, front + p.h.added + tail, base)
  {
    NumberedAreLines(front, p.h.added, tail, base);
    LaterAreLines(later, front + p.h.added, tail, base);
    BothAreLines(HunkRows(p), later, front + p.h.added + tail, base);
  }

  /** The rows are lines of the patched file, at the numbers they carry. */
  lemma AddedRowsAreNewLines(original: seq<string>, hunks: seq<Hunk>)
    requires ScriptFits(original, hunks)
    ensures var patched := Patched(original, hunks);
            forall r :: r in AddedRows(hunks) ==> 1 <= r.line <= |patched| && patched[r.line - 1] == r.text
  {
    LaidOutRowsAreLines(original, hunks, 0, 0);
  }

  lemma IncreasingRows(a: seq<Row>, b: seq<Row>, mid: int)
    requires Increasing(LinesOf(a)) && Increasing(LinesOf(b))
    requires (forall r :: r in a ==> r.line <= mid) && (forall r :: r in b ==> mid < r.line)
    ensures Increasing(LinesOf(a + b))
  {
    forall i, j | 0 <= i < j < |a + b| ensures (a + b)[i].line < (a + b)[j].line {
      if j < |a| {
        assert LinesOf(a)[i] < LinesOf(a)[j];
      } else if i >= |a| {
        assert LinesOf(b)[i - |a|] < LinesOf(b)[j - |a|];
      } else {
        assert a[i] in a && b[j - |a|] in b;
      }
    }
  }

  /** The rows increase, and lie behind the first `base` lines. */
  predicate IncreaseFrom(rows: seq<Row>, base: int) {
    Increasing(LinesOf(rows)) && forall r :: r in rows ==> r.line > base
  }

  lemma NumberedIncrease(from: nat, lines: seq<string>)
    ensures IncreaseFrom(Numbered(from, lines), from - 1)
    ensures forall r :: r in Numbered(from, lines) ==> r.line < from + |lines|
  {}

  lemma BothIncrease(a: seq<Row>, b: seq<Row>, base: int, mid: int)
    requires IncreaseFrom(a, base) && IncreaseFrom(b, mid) && base <= mid && forall r :: r in a ==> r.line <= mid
    ensures IncreaseFrom(a + b, base)
  {
    IncreasingRows(a, b, mid);
  }

  predicate LaidOutIncrease(hunks: seq<Hunk>, oldBefore: nat, base: nat) {
    IncreaseFrom(Layout(HunkRows, Spots(hunks, oldBefore, base)), base)
  }

  lemma IncreaseHead(h: Hunk, rest: seq<Hunk>, oldBefore: nat, base: nat)
    requires LaidOutIncrease(rest, oldBefore + h.skip + |h.deleted|, base + h.skip + |h.added|)
    ensures LaidOutIncrease([h] + rest, oldBefore, base)
  {
    LayoutHead(HunkRows, h, rest, oldBefore, base);
    NumberedIncrease(base + h.skip + 1, h.added);
    BothIncrease(HunkRows(Spot(h, oldBefore + h.skip, base + h.skip)),
                 Layout(HunkRows, Spots(rest, oldBefore + h.skip + |h.deleted|, base + h.skip + |h.added|)),
                 base, base + h.skip + |h.added|);
  }

  lemma {:induction false} LaidOutRowsIncrease(hunks: seq<Hunk>, oldBefore: nat, base: nat)
    ensures LaidOutIncrease(hunks, oldBefore, base)
  {
    if hunks != [] {
      var h, rest := hunks[0], hunks[1..];
      LaidOutRowsIncrease(rest, oldBefore + h.skip + |h.deleted|, base + h.skip + |h.added|);
      IncreaseHead(h, rest, oldBefore, base);
      assert hunks == [h] + rest;
    }
  }

  /** The rows of an edit script are positive and strictly increasing, as the range builder and the joiner expect. */
  lemma AddedRowsIncrease(hunks: seq<Hunk>)
    ensures Increasing(LinesOf(AddedRows(hunks)))
    ensures AddedRows(hunks) != [] ==> AddedRows(hunks)[0].line > 0
  {
    LaidOutRowsIncrease(hunks, 0, 0);
    if AddedRows(hunks) != [] { assert AddedRows(hunks)[0] in AddedRows(hunks); }
  }

  // ----- numbers round trip -----

  predicate AreDigits(s: string) {
    forall i :: 0 <= i < |s| ==> IsDigit(s[i])
  }

  lemma {:induction false} DecimalIsRead(n: nat)
    ensures Decimal(n) != [] && Value(Decimal(n)) == n
    ensures AreDigits(Decimal(n))
  {
    if n < 10 {
      assert Decimal(n)[..0] == [];
    } else {
      DecimalIsRead(n / 10);
      assert Decimal(n)[..|Decimal(n)| - 1] == Decimal(n / 10);
    }
  }

  lemma {:induction false} DigitsAreCounted(digits: string, rest: string)
    requires AreDigits(digits)
    requires rest != [] ==> !IsDigit(rest[0])
    ensures DigitCount(digits + rest) == |digits|
    ensures (digits + rest)[|digits|..] == rest && (digits + rest)[..|digits|] == digits
  {
    if digits == [] {
      assert digits + rest == rest;
    } else {
      assert (digits + rest)[1..] == digits[1..] + rest;
      DigitsAreCounted(digits[1..], rest);
    }
  }

  function RangeStart(before: nat, count: nat): nat {
    if count == 0 then before else before + 1
  }

  lemma CountIsSkipped(digits: string, rest: string)
    requires digits != [] && AreDigits(digits) && rest != [] && rest[0] == ' '
    ensures SkipCount("," + digits + rest) == rest
  {
    DigitsAreCounted(digits, rest);
    assert ("," + digits + rest)[1..] == digits + rest;
  }

  lemma StartIsRead(digits: string, tail: string, rest: string)
    requires digits != [] && AreDigits(digits) && tail != [] && !IsDigit(tail[0]) && SkipCount(tail) == rest
    ensures var s := digits + tail;
            DigitCount(s) > 0 && SkipCount(s[DigitCount(s)..]) == rest && Value(s[..DigitCount(s)]) == Value(digits)
  {
    DigitsAreCounted(digits, tail);
  }

  /** A printed range is read as its start, and its count is skipped. */
  lemma RangeIsRead(before: nat, count: nat, rest: string)
    requires rest != [] && rest[0] == ' '
    ensures var s := RangeText(before, count) + rest;
            && DigitCount(s) > 0 && SkipCount(s[DigitCount(s)..]) == rest
            && Value(s[..DigitCount(s)]) == RangeStart(before, count)
  {
    DecimalIsRead(RangeStart(before, count));
    DecimalIsRead(count);
    if count == 1 {
      StartIsRead(Decimal(RangeStart(before, count)), rest, rest);
    } else {
      CountedRangeIsRead(Decimal(RangeStart(before, count)), Decimal(count), rest);
    }
  }

  lemma CountedRangeIsRead(start: string, count: string, rest: string)
    requires start != [] && AreDigits(start) && count != [] && AreDigits(count) && rest != [] && rest[0] == ' '
    ensures var s := start + "," + count + rest;
            DigitCount(s) > 0 && SkipCount(s[DigitCount(s)..]) == rest && Value(s[..DigitCount(s)]) == Value(start)
  {
    var tail := "," + count + rest;
    assert start + "," + count + rest == start + tail;
    CountIsSkipped(count, rest);
    StartIsRead(start, tail, rest);
  }

  lemma AfterMark(mark: string, rest: string)
    ensures StartsWith(mark + rest, mark) && (mark + rest)[|mark|..] == rest
  {}

  /** A header whose two ranges read as digits, a skipped count and the next part. */
  lemma HeaderParses(oldPart: string, newPart: string, heading: string, afterOld: string, line: string)
    requires afterOld == " +" + newPart && line == "@@ -" + oldPart
    requires DigitCount(oldPart) > 0 && SkipCount(oldPart[DigitCount(oldPart)..]) == afterOld
    requires DigitCount(newPart) > 0 && SkipCount(newPart[DigitCount(newPart)..]) == " @@" + heading
    ensures ParseHunk(line) == Some(Value(newPart[..DigitCount(newPart)]))
  {
    AfterMark("@@ -", oldPart);
    AfterMark(" +", newPart);
    AfterMark(" @@", heading);
  }

  lemma HeaderIsRead(h: Hunk, oldBefore: nat, newBefore: nat)
    ensures ParseHunk(HunkHeader(h, oldBefore, newBefore)) == Some(RangeStart(newBefore, |h.added|))
    ensures HunkHeader(h, oldBefore, newBefore)[0] == '@'
  {
    var tail := " @@" + h.heading;
    var newPart := RangeText(newBefore, |h.added|) + tail;
    var afterOld := " +" + newPart;
    var oldPart := RangeText(oldBefore, |h.deleted|) + afterOld;
    assert HunkHeader(h, oldBefore, newBefore) == "@@ -" + oldPart;
    RangeIsRead(oldBefore, |h.deleted|, afterOld);
    RangeIsRead(newBefore, |h.added|, tail);
    HeaderParses(oldPart, newPart, h.heading, afterOld, HunkHeader(h, oldBefore, newBefore));
  }

  // ----- what a printed diff reads as -----

  /** Reading a printed line: splitting the text has dropped a carriage return at its end. */
  function ReadPrinted(line: string): Token {
    Read(DropCr(line))
  }

  function ReadAll(lines: seq<string>): seq<Token> {
    Mapped(ReadPrinted, lines)
  }

  lemma TokensOfText(lines: seq<string>)
    requires AreLines(lines)
    ensures Tokens(TextOf(lines)) == ReadAll(lines) + [OtherLine]
  {
    SplitOfText(lines);
    MappedConcat(Read, Mapped(DropCr, lines), [""]);
    MappedOne(Read, "");
    MappedEqual(Read, Mapped(DropCr, lines), ReadPrinted, lines);
  }

  /** The longer addition prefixes contain the shorter ones. */
  lemma PlusPrefixes(line: string)
    ensures StartsWith(line, "+++ b/") ==> StartsWith(line, "+++")
    ensures StartsWith(line, "+++") ==> StartsWith(line, "+")
    ensures StartsWith(line, "+") <==> line != [] && line[0] == '+'
    ensures StartsWith(line, "-") <==> line != [] && line[0] == '-'
    ensures line != [] && line[0] != '@' ==> ParseHunk(line).None?
  {
    assert "+++ b/"[..3] == "+++" && "+++"[..1] == "+";
    if |line| >= 6 { assert line[..6][..3] == line[..3]; }
    if |line| >= 3 { assert line[..3][..1] == line[..1]; }
    if |line| >= 1 { assert line[..1] == [line[0]]; }
    assert "@@ -"[0] == '@';
    if |line| >= 4 { assert line[..4][0] == line[0]; }
  }

  /** An added line that the tracker takes for one. */
  predicate IsPlain(added: string) {
    !StartsWith(added, "++")
  }

  /** A line that is neither a header nor an addition nor a deletion reads as such. */
  predicate IsQuiet(line: string) {
    ReadPrinted(line) == OtherLine || ReadPrinted(line) == Deleted
  }

  lemma DeletedReads(text: string)
    ensures ReadPrinted(['-'] + text) == Deleted
  {
    DropCrHead('-', text);
    PlusPrefixes(['-'] + DropCr(text));
  }

  lemma PlainReads(text: string)
    ensures IsPlain(text) ==> Read(['+'] + text) == Added(text)
    ensures !IsPlain(text) ==> !Read(['+'] + text).Added?
  {
    var line := ['+'] + text;
    PlusPrefixes(line);
    if |text| >= 2 { assert line[..3] == ['+'] + text[..2]; }
    assert "+++" == ['+'] + "++";
    assert line[1..] == text;
    assert StartsWith(line, "+++") <==> !IsPlain(text);
    assert StartsWith(line, "+") && ParseHunk(line).None?;
  }

  lemma DropCrKeepsPlain(text: string)
    ensures IsPlain(DropCr(text)) <==> IsPlain(text)
  {
    if |text| >= 2 && text[|text| - 1] == '\r' {
      if |text| == 2 {
        assert text[..2] == text && "++"[1] == '+';
      } else {
        assert text[..|text| - 1][..2] == text[..2];
      }
    }
  }

  lemma AddedReads(text: string)
    ensures IsPlain(text) ==> ReadPrinted(['+'] + text) == Added(DropCr(text))
    ensures !IsPlain(text) ==> !ReadPrinted(['+'] + text).Added?
  {
    DropCrHead('+', text);
    DropCrKeepsPlain(text);
    PlainReads(DropCr(text));
  }

  lemma MarkerReads()
    ensures ReadPrinted(NO_NEWLINE) == OtherLine
  {
    PlusPrefixes(NO_NEWLINE);
    assert NO_NEWLINE[0] == '\\';
  }

  lemma HeaderReads(h: Hunk, oldBefore: nat, newBefore: nat)
    ensures ReadPrinted(HunkHeader(h, oldBefore, newBefore)) == HunkStart(RangeStart(newBefore, |h.added|))
  {
    var h' := h.(heading := DropCr(h.heading));
    DropCrAfter("@@ -" + RangeText(oldBefore, |h.deleted|) + " +" + RangeText(newBefore, |h.added|) + " @@", h.heading);
    HeaderIsRead(h', oldBefore, newBefore);
    PlusPrefixes(HunkHeader(h', oldBefore, newBefore));
  }

  /** A hunk's deleted and added lines and its two markers, as tokens. */
  function Deletions(n: nat): seq<Token> {
    seq(n, i => Deleted)
  }

  function MarkerTokens(unterminated: bool): seq<Token> {
    if unterminated then [OtherLine] else []
  }

  /** How an added line is read. */
  function Addition(text: string): Token {
    ReadPrinted(['+'] + text)
  }

  function Additions(added: seq<string>): seq<Token> {
    Mapped(Addition, added)
  }

  function BodyTokens(h: Hunk): seq<Token> {
    Deletions(|h.deleted|) + MarkerTokens(h.oldUnterminated) + Additions(h.added) + MarkerTokens(h.newUnterminated)
  }

  function HunkTokens(p: Spot): seq<Token> {
    [HunkStart(RangeStart(p.newBefore, |p.h.added|))] + BodyTokens(p.h)
  }

  lemma DeletedBlockReads(deleted: seq<string>)
    ensures ReadAll(Prefixed('-', deleted)) == Deletions(|deleted|)
  {
    forall i | 0 <= i < |deleted| ensures ReadPrinted(Prefixed('-', deleted)[i]) == Deleted { DeletedReads(deleted[i]); }
  }

  lemma AddedBlockReads(added: seq<string>)
    ensures ReadAll(Prefixed('+', added)) == Additions(added)
  {
    MappedEqual(ReadPrinted, Prefixed('+', added), Addition, added);
  }

  lemma MarkerBlockReads(unterminated: bool)
    ensures ReadAll(Marker(unterminated)) == MarkerTokens(unterminated)
  {
    MarkerReads();
    MappedOne(ReadPrinted, NO_NEWLINE);
  }

  lemma MappedParts<A, B>(f: A -> B, a: seq<A>, b: seq<A>, c: seq<A>, d: seq<A>, e: seq<A>)
    ensures Mapped(f, a + (b + c + d + e)) == Mapped(f, a) + (Mapped(f, b) + Mapped(f, c) + Mapped(f, d) + Mapped(f, e))
  {
    MappedConcat(f, a, b + c + d + e);
    MappedConcat(f, b + c + d, e);
    MappedConcat(f, b + c, d);
    MappedConcat(f, b, c);
  }

  lemma HunkReads(p: Spot)
    ensures ReadAll(HunkLines(p)) == HunkTokens(p)
  {
    var h, header := p.h, HunkHeader(p.h, p.oldBefore, p.newBefore);
    HeaderReads(h, p.oldBefore, p.newBefore);
    MappedOne(ReadPrinted, header);
    DeletedBlockReads(h.deleted);
    MarkerBlockReads(h.oldUnterminated);
    AddedBlockReads(h.added);
    MarkerBlockReads(h.newUnterminated);
    MappedParts(ReadPrinted, [header], Prefixed('-', h.deleted), Marker(h.oldUnterminated), Prefixed('+', h.added), Marker(h.newUnterminated));
  }

  lemma {:induction false} LayoutMaps<A, B>(f: A -> B, lines: Spot -> seq<A>, tokens: Spot -> seq<B>, spots: seq<Spot>)
    requires forall p :: Mapped(f, lines(p)) == tokens(p)
    ensures Mapped(f, Layout(lines, spots)) == Layout(tokens, spots)
  {
    if spots != [] {
      LayoutMaps(f, lines, tokens, spots[1..]);
      MappedConcat(f, lines(spots[0]), Layout(lines, spots[1..]));
    }
  }

  /** A name that a header line can hold: one with a tab or a line end in it is printed in quotes. */
  predicate IsName(name: string) {
    name != "" && '\t' !in name && '\n' !in name && '\r' !in name
  }

  /** What a printed file section must look like apart from its hunks: its preamble reads as no change. */
  predicate ValidFile(d: FileDiff) {
    && IsName(d.name) && AreLines(d.preamble)
    && (forall i :: 0 <= i < |d.preamble| ==> IsQuiet(d.preamble[i]))
    && forall h :: h in d.hunks ==> AreLines(h.deleted) && AreLines(h.added) && IsLine(h.heading)
  }

  /** The name under which the tracker files the section's rows. */
  function Filed(d: FileDiff): string {
    NormalizeSlashes(NameText(d.name))
  }

  function FileTokens(d: FileDiff): seq<Token> {
    ReadAll(d.preamble) + [Deleted, FileHeader(Filed(d))] + Layout(HunkTokens, Spots(d.hunks, 0, 0))
  }

  lemma NamesRead(name: string)
    requires IsName(name)
    ensures ReadAll(["--- a/" + NameText(name), "+++ b/" + NameText(name)]) == [Deleted, FileHeader(NormalizeSlashes(NameText(name)))]
  {
    var printed := NameText(name);
    var oldLine, newLine := "--- a/" + printed, "+++ b/" + printed;
    assert printed != "" && printed[|printed| - 1] != '\r';
    assert DropCr(oldLine) == oldLine && DropCr(newLine) == newLine;
    PlusPrefixes(oldLine);
    assert newLine[..6] == "+++ b/" && newLine[6..] == printed;
    assert ReadPrinted(oldLine) == Deleted && ReadPrinted(newLine) == FileHeader(NormalizeSlashes(printed));
  }

  lemma FileReads(d: FileDiff)
    requires ValidFile(d)
    ensures ReadAll(PrintFile(d)) == FileTokens(d)
  {
    var head := ["--- a/" + NameText(d.name), "+++ b/" + NameText(d.name)];
    NamesRead(d.name);
    MappedConcat(ReadPrinted, d.preamble, head);
    MappedConcat(ReadPrinted, d.preamble + head, Layout(HunkLines, Spots(d.hunks, 0, 0)));
    forall p ensures ReadAll(HunkLines(p)) == HunkTokens(p) { HunkReads(p); }
    LayoutMaps(ReadPrinted, HunkLines, HunkTokens, Spots(d.hunks, 0, 0));
  }
}
