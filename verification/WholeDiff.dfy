/** The tracker over diffs of many files: when every file gets exactly its own rows. */
module WholeDiff {
  import opened DiffRecovery
  import opened DiffText
  import opened DiffTracker
  import opened LineRanges
  import opened Sequences
  import opened Text

  /** The rows a whole diff should yield for one file. */
  function RowsFor(ds: seq<FileDiff>, file: string): seq<Row> {
    if ds == [] then []
    else
      var front, d := RowsFor(ds[..|ds| - 1], file), ds[|ds| - 1];
      if NormalizeSlashes(d.name) == file then front + AddedRows(d.hunks) else front
  }

  predicate AreValid(ds: seq<FileDiff>) {
    forall i :: 0 <= i < |ds| ==> ValidFile(ds[i])
  }

  predicate AreClean(ds: seq<FileDiff>) {
    forall i :: 0 <= i < |ds| ==> CleanFile(ds[i])
  }

  predicate ArePlain(ds: seq<FileDiff>) {
    forall i :: 0 <= i < |ds| ==> AllPlain(ds[i].hunks)
  }

  function Tracked(ds: seq<FileDiff>): map<string, seq<Row>> {
    Recovered(TextOf(PrintAll(ds)))
  }

  // ----- the log of everything recorded -----

  datatype Entry = Entry(file: string, row: Row)

  function EntryOf(t: Tracker, token: Token): seq<Entry> {
    match token
    case Added(text) => if t.file != "" then [Entry(t.file, Row(t.line, text))] else []
    case _ => []
  }

  function Log(t: Tracker, tokens: seq<Token>): seq<Entry>
    decreases |tokens|
  {
    if tokens == [] then [] else EntryOf(t, tokens[0]) + Log(Step(t, tokens[0]), tokens[1..])
  }

  /** The rows logged for one file, and the entries of the other files. */
  function Of(log: seq<Entry>, file: string): seq<Row> {
    if log == [] then [] else (if log[0].file == file then [log[0].row] else []) + Of(log[1..], file)
  }

  function Others(log: seq<Entry>, file: string): seq<Entry> {
    if log == [] then [] else (if log[0].file == file then [] else [log[0]]) + Others(log[1..], file)
  }

  lemma OfHead(e: Entry, rest: seq<Entry>, file: string)
    ensures Of([e] + rest, file) == (if e.file == file then [e.row] else []) + Of(rest, file)
  {
    assert ([e] + rest)[1..] == rest;
  }

  lemma {:induction false} OfConcat(a: seq<Entry>, b: seq<Entry>, file: string)
    ensures Of(a + b, file) == Of(a, file) + Of(b, file)
  {
    if a == [] {
      assert a + b == b && [] + Of(b, file) == Of(b, file);
    } else {
      OfConcat(a[1..], b, file);
      OfHead(a[0], a[1..] + b, file);
      Associates([a[0]], a[1..], b);
      assert [a[0]] + a[1..] == a;
      Associates(if a[0].file == file then [a[0].row] else [], Of(a[1..], file), Of(b, file));
    }
  }

  lemma OfOne(e: Entry, file: string)
    ensures Of([e], file) == if e.file == file then [e.row] else []
  {
    assert [e][1..] == [];
  }

  lemma StepLogs(t: Tracker, token: Token, file: string)
    ensures RowsOf(Step(t, token).rows, file) == RowsOf(t.rows, file) + Of(EntryOf(t, token), file)
  {
    if token.Added? && t.file != "" {
      OfOne(Entry(t.file, Row(t.line, token.text)), file);
    }
  }

  /** What the tracker holds for a file is what it has logged for it. */
  lemma {:induction false} LogIsRows(t: Tracker, tokens: seq<Token>, file: string)
    ensures RowsOf(Track(t, tokens).rows, file) == RowsOf(t.rows, file) + Of(Log(t, tokens), file)
    decreases |tokens|
  {
    if tokens != [] {
      StepLogs(t, tokens[0], file);
      LogIsRows(Step(t, tokens[0]), tokens[1..], file);
      OfConcat(EntryOf(t, tokens[0]), Log(Step(t, tokens[0]), tokens[1..]), file);
    }
  }

  lemma {:induction false} LogIsShort(t: Tracker, tokens: seq<Token>)
    ensures |Log(t, tokens)| <= RecordCount(tokens)
    decreases |tokens|
  {
    if tokens != [] {
      LogIsShort(Step(t, tokens[0]), tokens[1..]);
      assert tokens == [tokens[0]] + tokens[1..];
      RecordCountConcat([tokens[0]], tokens[1..]);
      assert [tokens[0]][..0] == [];
    }
  }

  // ----- logs that agree file by file are equally long -----

  lemma {:induction false} LogParts(log: seq<Entry>, file: string)
    ensures |log| == |Of(log, file)| + |Others(log, file)|
  {
    if log != [] { LogParts(log[1..], file); }
  }

  lemma {:induction false} OthersOf(log: seq<Entry>, file: string, other: string)
    ensures Of(Others(log, file), other) == if other == file then [] else Of(log, other)
  {
    if log != [] {
      OthersOf(log[1..], file, other);
      OfHead(log[0], Others(log[1..], file), other);
      assert [] + Others(log[1..], file) == Others(log[1..], file);
    }
  }

  lemma {:induction false} EmptyLog(log: seq<Entry>)
    requires forall file :: Of(log, file) == []
    ensures log == []
  {
    assert log != [] ==> Of(log, log[0].file) != [];
  }

  lemma {:induction false} SameLength(a: seq<Entry>, b: seq<Entry>)
    requires forall file :: Of(a, file) == Of(b, file)
    ensures |a| == |b|
    decreases |a|
  {
    if a == [] {
      forall file ensures Of(b, file) == [] { assert Of(a, file) == Of(b, file); }
      EmptyLog(b);
    } else {
      var f := a[0].file;
      LogParts(a, f);
      LogParts(b, f);
      forall file ensures Of(Others(a, f), file) == Of(Others(b, f), file) {
        OthersOf(a, f, file);
        OthersOf(b, f, file);
      }
      assert |Of(a, f)| > 0;
      SameLength(Others(a, f), Others(b, f));
    }
  }

  // ----- the log that there should be -----

  function Entries(file: string, rows: seq<Row>): seq<Entry> {
    if rows == [] then [] else [Entry(file, rows[0])] + Entries(file, rows[1..])
  }

  function Expected(ds: seq<FileDiff>): seq<Entry> {
    if ds == [] then []
    else
      var d := ds[|ds| - 1];
      Expected(ds[..|ds| - 1]) + Entries(NormalizeSlashes(d.name), AddedRows(d.hunks))
  }

  lemma {:induction false} OfEntries(name: string, rows: seq<Row>, file: string)
    ensures Of(Entries(name, rows), file) == if name == file then rows else []
    ensures |Entries(name, rows)| == |rows|
  {
    if rows != [] {
      OfEntries(name, rows[1..], file);
      OfHead(Entry(name, rows[0]), Entries(name, rows[1..]), file);
      assert rows == [rows[0]] + rows[1..];
    }
  }

  lemma {:induction false} ExpectedRows(ds: seq<FileDiff>, file: string)
    ensures Of(Expected(ds), file) == RowsFor(ds, file)
  {
    if ds != [] {
      var front, d := ds[..|ds| - 1], ds[|ds| - 1];
      ExpectedRows(front, file);
      OfConcat(Expected(front), Entries(NormalizeSlashes(d.name), AddedRows(d.hunks)), file);
      OfEntries(NormalizeSlashes(d.name), AddedRows(d.hunks), file);
    }
  }

  lemma SectionCount(d: FileDiff)
    requires ValidFile(d)
    ensures RecordCount(ReadAll(PrintFile(d))) <= |AddedRows(d.hunks)|
    ensures RecordCount(ReadAll(PrintFile(d))) == |AddedRows(d.hunks)| ==> AllPlain(d.hunks)
  {
    FileReads(d);
    FileCount(d);
    HunksCount(d.hunks);
  }

  lemma PrintAllSplits(ds: seq<FileDiff>)
    requires ds != []
    ensures ReadAll(PrintAll(ds)) == ReadAll(PrintAll(ds[..|ds| - 1])) + ReadAll(PrintFile(ds[|ds| - 1]))
  {
    MappedConcat(ReadPrinted, PrintAll(ds[..|ds| - 1]), PrintFile(ds[|ds| - 1]));
  }

  lemma {:induction false} PrintAllAreLines(ds: seq<FileDiff>)
    requires AreValid(ds)
    ensures AreLines(PrintAll(ds))
  {
    if ds != [] {
      var front, d := ds[..|ds| - 1], ds[|ds| - 1];
      ValidSplits(ds);
      PrintAllAreLines(front);
      PrintedAreLines(d);
      AreLinesConcat(PrintAll(front), PrintFile(d));
    }
  }

  lemma TrackedIsTrack(ds: seq<FileDiff>)
    requires AreValid(ds)
    ensures Tracked(ds) == Track(START, ReadAll(PrintAll(ds))).rows
  {
    PrintAllAreLines(ds);
    RecoveredIsTracked(PrintAll(ds));
  }

  /** No diff has more recordable lines than added ones, and as many only if all are plain. */
  lemma {:induction false} DiffCount(ds: seq<FileDiff>)
    requires AreValid(ds)
    ensures RecordCount(ReadAll(PrintAll(ds))) <= |Expected(ds)|
    ensures RecordCount(ReadAll(PrintAll(ds))) == |Expected(ds)| ==> ArePlain(ds)
  {
    if ds != [] {
      var front, d := ds[..|ds| - 1], ds[|ds| - 1];
      ValidSplits(ds);
      DiffCount(front);
      PlainSplits(ds);
      SectionCount(d);
      PrintAllSplits(ds);
      RecordCountConcat(ReadAll(PrintAll(front)), ReadAll(PrintFile(d)));
      OfEntries(NormalizeSlashes(d.name), AddedRows(d.hunks), "");
    }
  }

  predicate AreAll(ds: seq<FileDiff>, q: FileDiff -> bool) {
    forall i :: 0 <= i < |ds| ==> q(ds[i])
  }

  lemma AllSplits(ds: seq<FileDiff>, q: FileDiff -> bool)
    requires ds != []
    ensures AreAll(ds, q) <==> AreAll(ds[..|ds| - 1], q) && q(ds[|ds| - 1])
  {
    var front := ds[..|ds| - 1];
    assert forall i :: 0 <= i < |front| ==> ds[i] == front[i];
  }

  function HasPlainLines(): FileDiff -> bool { (d: FileDiff) => AllPlain(d.hunks) }

  lemma PlainSplits(ds: seq<FileDiff>)
    requires ds != []
    ensures ArePlain(ds) <==> ArePlain(ds[..|ds| - 1]) && AllPlain(ds[|ds| - 1].hunks)
  {
    AllSplits(ds, HasPlainLines());
  }

  lemma ValidSplits(ds: seq<FileDiff>)
    requires ds != [] && AreValid(ds)
    ensures AreValid(ds[..|ds| - 1]) && ValidFile(ds[|ds| - 1])
  {
    AllSplits(ds, ValidFile);
  }

  // ----- plain diffs, possibly misnumbered, cut or misfiled -----

  function ShiftedIn(d: FileDiff): seq<Row> {
    Layout(ShiftedRows, Spots(d.hunks, 0, 0))
  }

  /** What the tracker finds for a file in a diff of plain lines. */
  function ShiftedFor(ds: seq<FileDiff>, file: string): seq<Row> {
    if ds == [] then []
    else
      var front, d := ShiftedFor(ds[..|ds| - 1], file), ds[|ds| - 1];
      if Filed(d) == file then front + ShiftedIn(d) else front
  }

  lemma {:induction false} PlainDiffIsTracked(ds: seq<FileDiff>, file: string)
    requires AreValid(ds) && ArePlain(ds)
    ensures RowsOf(Track(START, ReadAll(PrintAll(ds))).rows, file) == ShiftedFor(ds, file)
  {
    if ds != [] {
      var front, d := ds[..|ds| - 1], ds[|ds| - 1];
      ValidSplits(ds);
      PlainSplits(ds);
      PlainDiffIsTracked(front, file);
      PrintAllSplits(ds);
      TrackConcat(START, ReadAll(PrintAll(front)), ReadAll(PrintFile(d)));
      FileIsTracked(Track(START, ReadAll(PrintAll(front))), d);
    }
  }

  lemma ShiftedLength(d: FileDiff)
    ensures |ShiftedIn(d)| == |AddedRows(d.hunks)|
    ensures ShiftedIn(d) == AddedRows(d.hunks) <==> AllExact(d.hunks)
  {
    forall p ensures |ShiftedRows(p)| == |HunkRows(p)| { HunkRowsShift(p); }
    SameLayoutLength(ShiftedRows, HunkRows, Spots(d.hunks, 0, 0));
    ShiftedIffExact(d.hunks);
  }

  // ----- names with a space -----

  predicate AreFound(ds: seq<FileDiff>) {
    forall i :: 0 <= i < |ds| ==> IsFound(ds[i])
  }

  function FoundTest(): FileDiff -> bool { (d: FileDiff) => IsFound(d) }

  lemma FoundSplits(ds: seq<FileDiff>)
    requires ds != []
    ensures AreFound(ds) <==> AreFound(ds[..|ds| - 1]) && IsFound(ds[|ds| - 1])
  {
    AllSplits(ds, FoundTest());
  }

  /** Nothing is filed under a name with a space in it, as such names are filed with a tab. */
  lemma {:induction false} NothingUnderSpacedName(ds: seq<FileDiff>, name: string)
    requires ' ' in name && '\t' !in name
    ensures ShiftedFor(ds, NormalizeSlashes(name)) == []
  {
    if ds != [] {
      NothingUnderSpacedName(ds[..|ds| - 1], name);
      FiledElsewhere(ds[|ds| - 1], name);
    }
  }

  lemma {:induction false} SectionIsExpected(ds: seq<FileDiff>, i: nat)
    requires i < |ds|
    ensures |RowsFor(ds, NormalizeSlashes(ds[i].name))| >= |AddedRows(ds[i].hunks)|
  {
    if i < |ds| - 1 {
      SectionIsExpected(ds[..|ds| - 1], i);
      assert ds[..|ds| - 1][i] == ds[i];
    }
  }

  lemma RightMeansFound(ds: seq<FileDiff>)
    requires AreValid(ds) && IsShiftedRight(ds)
    ensures AreFound(ds)
  {
    forall i | 0 <= i < |ds| ensures IsFound(ds[i]) {
      if ' ' in ds[i].name {
        NothingUnderSpacedName(ds, ds[i].name);
        SectionIsExpected(ds, i);
        assert ShiftedFor(ds, NormalizeSlashes(ds[i].name)) == RowsFor(ds, NormalizeSlashes(ds[i].name));
      }
    }
  }

  /** The sections looked up under this name are exact. */
  predicate ExactFor(ds: seq<FileDiff>, file: string) {
    forall i :: 0 <= i < |ds| && NormalizeSlashes(ds[i].name) == file ==> AllExact(ds[i].hunks)
  }

  /** What one found section gives a file, and what it should. */
  lemma FoundSection(d: FileDiff, file: string)
    requires IsFound(d)
    ensures var given, due := if Filed(d) == file then ShiftedIn(d) else [], if NormalizeSlashes(d.name) == file then AddedRows(d.hunks) else [];
            |given| == |due| && (given == due <==> NormalizeSlashes(d.name) == file ==> AllExact(d.hunks))
  {
    ShiftedLength(d);
  }

  lemma {:induction false} ShiftedIffExactFor(ds: seq<FileDiff>, file: string)
    requires AreFound(ds)
    ensures |ShiftedFor(ds, file)| == |RowsFor(ds, file)|
    ensures ShiftedFor(ds, file) == RowsFor(ds, file) <==> ExactFor(ds, file)
  {
    if ds != [] {
      var front, d := ds[..|ds| - 1], ds[|ds| - 1];
      FoundSplits(ds);
      ShiftedIffExactFor(front, file);
      FoundSection(d, file);
      SameSplit(ShiftedFor(front, file), RowsFor(front, file),
                if Filed(d) == file then ShiftedIn(d) else [], if NormalizeSlashes(d.name) == file then AddedRows(d.hunks) else []);
      ConcatEmpty(ShiftedFor(front, file));
      ConcatEmpty(RowsFor(front, file));
      ExactForSplits(ds, file);
    }
  }

  lemma ExactForSplits(ds: seq<FileDiff>, file: string)
    requires ds != []
    ensures var front, d := ds[..|ds| - 1], ds[|ds| - 1];
            ExactFor(ds, file) <==> ExactFor(front, file) && (NormalizeSlashes(d.name) == file ==> AllExact(d.hunks))
  {
    var front := ds[..|ds| - 1];
    assert forall i :: 0 <= i < |front| ==> ds[i] == front[i];
  }

  // ----- both directions -----

  /** Every file gets exactly its own rows. */
  ghost predicate IsRight(rows: map<string, seq<Row>>, ds: seq<FileDiff>) {
    forall file :: RowsOf(rows, file) == RowsFor(ds, file)
  }

  lemma RightMeansPlain(ds: seq<FileDiff>)
    requires AreValid(ds) && IsRight(Track(START, ReadAll(PrintAll(ds))).rows, ds)
    ensures ArePlain(ds)
  {
    RightLog(ds, ReadAll(PrintAll(ds)));
    SameLength(Log(START, ReadAll(PrintAll(ds))), Expected(ds));
    LogIsShort(START, ReadAll(PrintAll(ds)));
    DiffCount(ds);
  }

  lemma RightLogOf(ds: seq<FileDiff>, tokens: seq<Token>, file: string)
    requires RowsOf(Track(START, tokens).rows, file) == RowsFor(ds, file)
    ensures Of(Log(START, tokens), file) == Of(Expected(ds), file)
  {
    LogIsRows(START, tokens, file);
    ExpectedRows(ds, file);
  }

  lemma RightLog(ds: seq<FileDiff>, tokens: seq<Token>)
    requires IsRight(Track(START, tokens).rows, ds)
    ensures forall file :: Of(Log(START, tokens), file) == Of(Expected(ds), file)
  {
    forall file ensures Of(Log(START, tokens), file) == Of(Expected(ds), file) {
      assert RowsOf(Track(START, tokens).rows, file) == RowsFor(ds, file);
      RightLogOf(ds, tokens, file);
    }
  }

  predicate AreExact(ds: seq<FileDiff>) {
    forall i :: 0 <= i < |ds| ==> AllExact(ds[i].hunks)
  }

  lemma CleanMeans(ds: seq<FileDiff>)
    requires AreValid(ds)
    ensures AreClean(ds) <==> ArePlain(ds) && AreFound(ds) && AreExact(ds)
  {}

  ghost predicate IsShiftedRight(ds: seq<FileDiff>) {
    forall file :: ShiftedFor(ds, file) == RowsFor(ds, file)
  }

  lemma PlainDiffIsRight(ds: seq<FileDiff>)
    requires AreValid(ds) && ArePlain(ds)
    ensures IsRight(Track(START, ReadAll(PrintAll(ds))).rows, ds) <==> IsShiftedRight(ds)
  {
    forall file ensures RowsOf(Track(START, ReadAll(PrintAll(ds))).rows, file) == ShiftedFor(ds, file) { PlainDiffIsTracked(ds, file); }
    SameForAll(Track(START, ReadAll(PrintAll(ds))).rows, ds);
  }

  lemma SameForAll(rows: map<string, seq<Row>>, ds: seq<FileDiff>)
    requires forall file :: RowsOf(rows, file) == ShiftedFor(ds, file)
    ensures IsRight(rows, ds) <==> IsShiftedRight(ds)
  {
    if IsRight(rows, ds) {
      forall file ensures ShiftedFor(ds, file) == RowsFor(ds, file) { assert RowsOf(rows, file) == ShiftedFor(ds, file); }
    }
    if IsShiftedRight(ds) {
      forall file ensures RowsOf(rows, file) == RowsFor(ds, file) { assert ShiftedFor(ds, file) == RowsFor(ds, file); }
    }
  }

  lemma RightMeansExact(ds: seq<FileDiff>)
    requires AreFound(ds) && IsShiftedRight(ds)
    ensures AreExact(ds)
  {
    forall i | 0 <= i < |ds| ensures AllExact(ds[i].hunks) {
      ShiftedIffExactFor(ds, NormalizeSlashes(ds[i].name));
      assert ShiftedFor(ds, NormalizeSlashes(ds[i].name)) == RowsFor(ds, NormalizeSlashes(ds[i].name));
    }
  }

  lemma ExactMeansRight(ds: seq<FileDiff>)
    requires AreFound(ds) && AreExact(ds)
    ensures IsShiftedRight(ds)
  {
    forall file ensures ShiftedFor(ds, file) == RowsFor(ds, file) { ShiftedIffExactFor(ds, file); }
  }

  /** From the text of a whole diff, every file gets exactly its own rows if and only if every section is clean. */
  lemma WholeDiffIsTracked(ds: seq<FileDiff>)
    requires AreValid(ds)
    ensures IsRight(Tracked(ds), ds) <==> AreClean(ds)
  {
    TrackedIsTrack(ds);
    CleanMeans(ds);
    if IsRight(Tracked(ds), ds) {
      RightMeansPlain(ds);
      PlainDiffIsRight(ds);
      RightMeansFound(ds);
      RightMeansExact(ds);
    }
    if AreClean(ds) {
      PlainDiffIsRight(ds);
      ExactMeansRight(ds);
    }
  }
}
