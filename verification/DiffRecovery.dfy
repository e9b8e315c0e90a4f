/** Exactly when the tracker recovers the added lines of a printed file section. */
module DiffRecovery {
  import opened DiffText
  import opened DiffTracker
  import opened LineRanges
  import opened Sequences
  import opened Text

  // ----- tracking a printed diff -----

  lemma {:induction false} TrackConcat(t: Tracker, a: seq<Token>, b: seq<Token>)
    ensures Track(t, a + b) == Track(Track(t, a), b)
    decreases |a|
  {
    if a == [] {
      assert a + b == b;
    } else {
      assert (a + b)[1..] == a[1..] + b;
      TrackConcat(Step(t, a[0]), a[1..], b);
    }
  }

  lemma TrackOne(t: Tracker, token: Token)
    ensures Track(t, [token]) == Step(t, token)
  {
    assert [token][1..] == [];
  }

  lemma {:induction false} QuietTokensKeepRows(t: Tracker, tokens: seq<Token>)
    requires forall i :: 0 <= i < |tokens| ==> tokens[i] == OtherLine || tokens[i] == Deleted
    ensures Track(t, tokens).file == t.file && Track(t, tokens).rows == t.rows
    decreases |tokens|
  {
    if tokens != [] { QuietTokensKeepRows(Step(t, tokens[0]), tokens[1..]); }
  }

  lemma {:induction false} DeletionsAreSkipped(t: Tracker, n: nat)
    ensures Track(t, Deletions(n)) == t
  {
    if n > 0 {
      assert Deletions(n)[1..] == Deletions(n - 1);
      DeletionsAreSkipped(t, n - 1);
    }
  }

  /** `after` has the given rows appended for `file`, and nothing else has changed. */
  ghost predicate Appends(before: map<string, seq<Row>>, after: map<string, seq<Row>>, file: string, rows: seq<Row>) {
    forall g :: RowsOf(after, g) == RowsOf(before, g) + if g == file then rows else []
  }

  lemma RowsTwice(r0: seq<Row>, r1: seq<Row>, r2: seq<Row>, a: seq<Row>, b: seq<Row>)
    requires r1 == r0 + a && r2 == r1 + b
    ensures r2 == r0 + (a + b)
  {}

  lemma AppendsTwice(m0: map<string, seq<Row>>, m1: map<string, seq<Row>>, m2: map<string, seq<Row>>, file: string,
                     a: seq<Row>, b: seq<Row>)
    requires Appends(m0, m1, file, a) && Appends(m1, m2, file, b)
    ensures Appends(m0, m2, file, a + b)
  {
    forall g ensures RowsOf(m2, g) == RowsOf(m0, g) + if g == file then a + b else [] {
      if g == file {
        RowsTwice(RowsOf(m0, g), RowsOf(m1, g), RowsOf(m2, g), a, b);
      } else {
        RowsTwice(RowsOf(m0, g), RowsOf(m1, g), RowsOf(m2, g), [], []);
      }
    }
  }

  predicate PlainLines(added: seq<string>) {
    forall a :: a in added ==> IsPlain(a)
  }

  /** Tracking the tokens stays in the same file and collects exactly these rows. */
  ghost predicate Collects(t: Tracker, tokens: seq<Token>, rows: seq<Row>) {
    Track(t, tokens).file == t.file && Appends(t.rows, Track(t, tokens).rows, t.file, rows)
  }

  lemma CollectsTwice(t: Tracker, a: seq<Token>, b: seq<Token>, rowsA: seq<Row>, rowsB: seq<Row>)
    requires Collects(t, a, rowsA) && Collects(Track(t, a), b, rowsB)
    ensures Collects(t, a + b, rowsA + rowsB)
  {
    TrackConcat(t, a, b);
    AppendsTwice(t.rows, Track(t, a).rows, Track(t, a + b).rows, t.file, rowsA, rowsB);
  }

  lemma AdditionCollects(t: Tracker, text: string)
    requires t.file != ""
    ensures Collects(t, [Added(text)], [Row(t.line, text)])
    ensures Track(t, [Added(text)]).line == t.line + 1
  {
    TrackOne(t, Added(text));
  }

  /** The tokens add the texts of the rows, which are numbered from `from`. */
  predicate AreAdditions(tokens: seq<Token>, rows: seq<Row>, from: nat) {
    |tokens| == |rows| && forall i :: 0 <= i < |rows| ==> tokens[i] == Added(rows[i].text) && rows[i].line == from + i
  }

  lemma NothingCollects(t: Tracker)
    ensures Collects(t, [], [])
  {}

  lemma FirstAddition(tokens: seq<Token>, rows: seq<Row>, from: nat)
    requires rows != [] && AreAdditions(tokens, rows, from)
    ensures tokens == [tokens[0]] + tokens[1..] && rows == [rows[0]] + rows[1..] && AreAdditions(tokens[1..], rows[1..], from + 1)
    ensures tokens[0] == Added(rows[0].text) && rows[0] == Row(from, rows[0].text)
  {}

  lemma {:induction false} AdditionsCollect(t: Tracker, tokens: seq<Token>, rows: seq<Row>)
    requires t.file != "" && AreAdditions(tokens, rows, t.line)
    ensures Collects(t, tokens, rows)
    decreases |rows|
  {
    if rows == [] {
      NothingCollects(t);
    } else {
      FirstAddition(tokens, rows, t.line);
      AdditionCollects(t, rows[0].text);
      AdditionsCollect(Track(t, [tokens[0]]), tokens[1..], rows[1..]);
      CollectsTwice(t, [tokens[0]], tokens[1..], [rows[0]], rows[1..]);
    }
  }

  /** Added lines as the split text holds them. */
  function Cut(added: seq<string>): seq<string> {
    Mapped(DropCr, added)
  }

  lemma AdditionsAreRecorded(t: Tracker, added: seq<string>)
    requires t.file != "" && PlainLines(added)
    ensures Collects(t, Additions(added), Numbered(t.line, Cut(added)))
  {
    AdditionsArePlain(added, t.line);
    AdditionsCollect(t, Additions(added), Numbered(t.line, Cut(added)));
  }

  lemma AdditionsArePlain(added: seq<string>, from: nat)
    requires PlainLines(added)
    ensures AreAdditions(Additions(added), Numbered(from, Cut(added)), from)
  {
    forall a | a in added ensures Addition(a) == Added(DropCr(a)) { AddedReads(a); }
  }

  /** By how much the tracker misnumbers the added lines of a hunk. */
  function Shift(h: Hunk): nat {
    if h.oldUnterminated then 1 else 0
  }

  /** The rows the tracker collects from a hunk of plain lines. */
  function ShiftedRows(p: Spot): seq<Row> {
    Numbered(p.newBefore + 1 + Shift(p.h), Cut(p.h.added))
  }

  predicate AllPlain(hunks: seq<Hunk>) {
    forall h :: h in hunks ==> PlainLines(h.added)
  }

  lemma MarkerMovesLine(t: Tracker, unterminated: bool)
    ensures Track(t, MarkerTokens(unterminated)) == if unterminated then t.(line := t.line + 1) else t
  {
    TrackOne(t, OtherLine);
  }

  lemma PartsCollect(t: Tracker, start: seq<Token>, deletions: seq<Token>, marker: seq<Token>, additions: seq<Token>,
                     last: seq<Token>, t': Tracker, rows: seq<Row>)
    requires Track(Track(Track(t, start), deletions), marker) == t' && t'.file == t.file && t'.rows == t.rows
    requires Collects(t', additions, rows)
    requires Track(Track(t', additions), last).file == t.file
    requires Track(Track(t', additions), last).rows == Track(t', additions).rows
    ensures Collects(t, start + (deletions + marker + additions + last), rows)
  {
    TrackConcat(t, start, deletions + marker + additions + last);
    TrackConcat(Track(t, start), deletions + marker + additions, last);
    TrackConcat(Track(t, start), deletions + marker, additions);
    TrackConcat(Track(t, start), deletions, marker);
  }

  lemma HunkIsTracked(t: Tracker, p: Spot)
    requires t.file != "" && PlainLines(p.h.added)
    ensures Collects(t, HunkTokens(p), ShiftedRows(p))
  {
    var h, start := p.h, HunkStart(RangeStart(p.newBefore, |p.h.added|));
    var t1 := Step(t, start);
    var t2 := t1.(line := t1.line + Shift(h));
    TrackOne(t, start);
    DeletionsAreSkipped(t1, |h.deleted|);
    MarkerMovesLine(t1, h.oldUnterminated);
    AdditionsAreRecorded(t2, h.added);
    MarkerMovesLine(Track(t2, Additions(h.added)), h.newUnterminated);
    assert Numbered(t2.line, Cut(h.added)) == ShiftedRows(p);
    PartsCollect(t, [start], Deletions(|h.deleted|), MarkerTokens(h.oldUnterminated), Additions(h.added),
                 MarkerTokens(h.newUnterminated), t2, ShiftedRows(p));
  }

  lemma {:induction false} LayoutCollects(t: Tracker, tokens: Spot -> seq<Token>, rows: Spot -> seq<Row>, spots: seq<Spot>)
    requires t.file != ""
    requires forall u: Tracker, p {:trigger Collects(u, tokens(p), rows(p))} ::
               u.file != "" && p in spots ==> Collects(u, tokens(p), rows(p))
    ensures Collects(t, Layout(tokens, spots), Layout(rows, spots))
    decreases |spots|
  {
    if spots != [] {
      var p := spots[0];
      assert Collects(t, tokens(p), rows(p));
      LayoutCollects(Track(t, tokens(p)), tokens, rows, spots[1..]);
      CollectsTwice(t, tokens(p), Layout(tokens, spots[1..]), rows(p), Layout(rows, spots[1..]));
    }
  }

  predicate PlainSpots(spots: seq<Spot>) {
    forall p :: p in spots ==> PlainLines(p.h.added)
  }

  predicate ExactSpots(spots: seq<Spot>) {
    forall p :: p in spots ==> IsExact(p.h)
  }

  /** The spots are the hunks, in order. */
  lemma {:induction false} SpotsMatch(hunks: seq<Hunk>, oldBefore: nat, newBefore: nat)
    ensures |Spots(hunks, oldBefore, newBefore)| == |hunks|
    ensures forall i :: 0 <= i < |hunks| ==> Spots(hunks, oldBefore, newBefore)[i].h == hunks[i]
  {
    if hunks != [] {
      var h := hunks[0];
      SpotsMatch(hunks[1..], oldBefore + h.skip + |h.deleted|, newBefore + h.skip + |h.added|);
    }
  }

  lemma SpotsAreHunks(hunks: seq<Hunk>)
    ensures PlainSpots(Spots(hunks, 0, 0)) <==> AllPlain(hunks)
    ensures ExactSpots(Spots(hunks, 0, 0)) <==> AllExact(hunks)
  {
    SpotsMatch(hunks, 0, 0);
  }

  lemma HunksAreTracked(t: Tracker, hunks: seq<Hunk>)
    requires t.file != "" && AllPlain(hunks)
    ensures Collects(t, Layout(HunkTokens, Spots(hunks, 0, 0)), Layout(ShiftedRows, Spots(hunks, 0, 0)))
  {
    var spots := Spots(hunks, 0, 0);
    SpotsAreHunks(hunks);
    forall u: Tracker, p | u.file != "" && p in spots ensures Collects(u, HunkTokens(p), ShiftedRows(p)) {
      HunkIsTracked(u, p);
    }
    LayoutCollects(t, HunkTokens, ShiftedRows, spots);
  }

  lemma FileIsTracked(t: Tracker, d: FileDiff)
    requires ValidFile(d) && AllPlain(d.hunks)
    ensures Appends(t.rows, Track(t, ReadAll(PrintFile(d))).rows, Filed(d), Layout(ShiftedRows, Spots(d.hunks, 0, 0)))
  {
    FileReads(d);
    var head := [Deleted, FileHeader(Filed(d))];
    TrackConcat(t, ReadAll(d.preamble) + head, Layout(HunkTokens, Spots(d.hunks, 0, 0)));
    TrackConcat(t, ReadAll(d.preamble), head);
    QuietTokensKeepRows(t, ReadAll(d.preamble));
    var t1 := Track(t, ReadAll(d.preamble));
    assert head[1..] == [FileHeader(Filed(d))];
    TrackOne(t1, FileHeader(Filed(d)));
    HunksAreTracked(t1.(file := Filed(d)), d.hunks);
  }

  // ----- when the numbers and the texts are right -----

  predicate EndsInCr(line: string) {
    line != "" && line[|line| - 1] == '\r'
  }

  /** No "No newline" marker comes before an added line of the hunk, and no added line ends in a carriage return. */
  predicate IsExact(h: Hunk) {
    (h.oldUnterminated ==> h.added == []) && forall a :: a in h.added ==> !EndsInCr(a)
  }

  predicate AllExact(hunks: seq<Hunk>) {
    forall h :: h in hunks ==> IsExact(h)
  }

  lemma {:induction false} LayoutsEqual(a: Spot -> seq<Row>, b: Spot -> seq<Row>, spots: seq<Spot>)
    requires forall p :: |a(p)| == |b(p)| && (a(p) == b(p) <==> IsExact(p.h))
    ensures Layout(a, spots) == Layout(b, spots) <==> ExactSpots(spots)
  {
    if spots != [] {
      LayoutsEqual(a, b, spots[1..]);
      SameSplit(a(spots[0]), b(spots[0]), Layout(a, spots[1..]), Layout(b, spots[1..]));
      assert spots == [spots[0]] + spots[1..];
    }
  }

  lemma SameRowsAreExact(p: Spot)
    requires ShiftedRows(p) == HunkRows(p)
    ensures IsExact(p.h)
  {
    var added := p.h.added;
    forall i | 0 <= i < |added| ensures DropCr(added[i]) == added[i] && Shift(p.h) == 0 {
      assert ShiftedRows(p)[i] == Row(p.newBefore + 1 + Shift(p.h) + i, Cut(added)[i]);
      assert HunkRows(p)[i] == Row(p.newBefore + 1 + i, added[i]);
    }
    if added != [] { assert DropCr(added[0]) == added[0]; }
  }

  lemma ExactRowsAreSame(p: Spot)
    requires IsExact(p.h)
    ensures ShiftedRows(p) == HunkRows(p)
  {
    var added := p.h.added;
    forall i | 0 <= i < |added| ensures DropCr(added[i]) == added[i] {
      assert added[i] in added && !EndsInCr(added[i]);
    }
    assert Cut(added) == added;
  }

  lemma HunkRowsShift(p: Spot)
    ensures |ShiftedRows(p)| == |HunkRows(p)| && (ShiftedRows(p) == HunkRows(p) <==> IsExact(p.h))
  {
    if ShiftedRows(p) == HunkRows(p) { SameRowsAreExact(p); }
    if IsExact(p.h) { ExactRowsAreSame(p); }
  }

  lemma ShiftedIffExact(hunks: seq<Hunk>)
    ensures Layout(ShiftedRows, Spots(hunks, 0, 0)) == AddedRows(hunks) <==> AllExact(hunks)
  {
    forall p ensures |ShiftedRows(p)| == |HunkRows(p)| && (ShiftedRows(p) == HunkRows(p) <==> IsExact(p.h)) {
      HunkRowsShift(p);
    }
    LayoutsEqual(ShiftedRows, HunkRows, Spots(hunks, 0, 0));
    SpotsAreHunks(hunks);
  }

  lemma SameSplit<T>(a: seq<T>, b: seq<T>, c: seq<T>, d: seq<T>)
    requires |a| == |b|
    ensures a + c == b + d <==> a == b && c == d
  {
    if a + c == b + d {
      assert a == (a + c)[..|a|] == (b + d)[..|b|] == b;
      assert c == (a + c)[|a|..] == (b + d)[|b|..] == d;
    }
  }

  // ----- lines that are not plain are never recorded -----

  function RecordCount(tokens: seq<Token>): nat {
    if tokens == [] then 0 else RecordCount(tokens[..|tokens| - 1]) + if tokens[|tokens| - 1].Added? then 1 else 0
  }

  lemma {:induction false} RecordCountConcat(a: seq<Token>, b: seq<Token>)
    ensures RecordCount(a + b) == RecordCount(a) + RecordCount(b)
  {
    if b == [] {
      assert a + b == a;
    } else {
      assert (a + b)[..|a + b| - 1] == a + b[..|b| - 1];
      RecordCountConcat(a, b[..|b| - 1]);
    }
  }

  lemma {:induction false} AtMostRecorded(t: Tracker, tokens: seq<Token>, file: string)
    ensures |RowsOf(Track(t, tokens).rows, file)| <= |RowsOf(t.rows, file)| + RecordCount(tokens)
    decreases |tokens|
  {
    if tokens != [] {
      var first, rest := tokens[0], tokens[1..];
      assert tokens == [first] + rest;
      RecordCountConcat([first], rest);
      assert [first][..0] == [];
      AtMostRecorded(Step(t, first), rest, file);
    }
  }

  lemma {:induction false} QuietCount(tokens: seq<Token>)
    requires forall i :: 0 <= i < |tokens| ==> !tokens[i].Added?
    ensures RecordCount(tokens) == 0
  {
    if tokens != [] { QuietCount(tokens[..|tokens| - 1]); }
  }

  lemma LastAddition(front: seq<string>, last: string)
    ensures Additions(front + [last]) == Additions(front) + [Addition(last)]
    ensures PlainLines(front + [last]) <==> PlainLines(front) && IsPlain(last)
  {}

  lemma RecordCountOne(token: Token)
    ensures RecordCount([token]) == if token.Added? then 1 else 0
  {
    assert [token][..0] == [];
  }

  lemma {:induction false} AddedCount(added: seq<string>)
    ensures RecordCount(Additions(added)) <= |added|
    ensures RecordCount(Additions(added)) == |added| ==> PlainLines(added)
  {
    if added != [] {
      var front, last := added[..|added| - 1], added[|added| - 1];
      assert added == front + [last];
      AddedCount(front);
      AddedReads(last);
      LastAddition(front, last);
      RecordCountConcat(Additions(front), [Addition(last)]);
      RecordCountOne(Addition(last));
    }
  }

  lemma HunkCount(p: Spot)
    ensures RecordCount(HunkTokens(p)) <= |p.h.added|
    ensures RecordCount(HunkTokens(p)) == |p.h.added| ==> PlainLines(p.h.added)
  {
    var h, start := p.h, [HunkStart(RangeStart(p.newBefore, |p.h.added|))];
    var a, b, c, d := Deletions(|h.deleted|), MarkerTokens(h.oldUnterminated), Additions(h.added), MarkerTokens(h.newUnterminated);
    CountParts(start, a, b, c, d);
    QuietCount(start);
    QuietCount(a);
    QuietCount(b);
    QuietCount(d);
    AddedCount(h.added);
  }

  lemma CountParts(start: seq<Token>, a: seq<Token>, b: seq<Token>, c: seq<Token>, d: seq<Token>)
    ensures RecordCount(start + (a + b + c + d))
         == RecordCount(start) + RecordCount(a) + RecordCount(b) + RecordCount(c) + RecordCount(d)
  {
    RecordCountConcat(start, a + b + c + d);
    RecordCountConcat(a + b + c, d);
    RecordCountConcat(a + b, c);
    RecordCountConcat(a, b);
  }

  lemma {:induction false} LayoutCount(tokens: Spot -> seq<Token>, rows: Spot -> seq<Row>, spots: seq<Spot>)
    requires forall p :: RecordCount(tokens(p)) <= |rows(p)| && (RecordCount(tokens(p)) == |rows(p)| ==> PlainLines(p.h.added))
    ensures RecordCount(Layout(tokens, spots)) <= |Layout(rows, spots)|
    ensures RecordCount(Layout(tokens, spots)) == |Layout(rows, spots)| ==> PlainSpots(spots)
  {
    if spots != [] {
      RecordCountConcat(tokens(spots[0]), Layout(tokens, spots[1..]));
      LayoutCount(tokens, rows, spots[1..]);
      assert spots == [spots[0]] + spots[1..];
    }
  }

  lemma HunksCount(hunks: seq<Hunk>)
    ensures RecordCount(Layout(HunkTokens, Spots(hunks, 0, 0))) <= |AddedRows(hunks)|
    ensures RecordCount(Layout(HunkTokens, Spots(hunks, 0, 0))) == |AddedRows(hunks)| ==> AllPlain(hunks)
  {
    forall p ensures RecordCount(HunkTokens(p)) <= |HunkRows(p)|
      && (RecordCount(HunkTokens(p)) == |HunkRows(p)| ==> PlainLines(p.h.added))
    {
      HunkCount(p);
    }
    LayoutCount(HunkTokens, HunkRows, Spots(hunks, 0, 0));
    SpotsAreHunks(hunks);
  }

  lemma FileCount(d: FileDiff)
    requires ValidFile(d)
    ensures RecordCount(FileTokens(d)) == RecordCount(Layout(HunkTokens, Spots(d.hunks, 0, 0)))
  {
    var head := [Deleted, FileHeader(Filed(d))];
    QuietCount(ReadAll(d.preamble));
    QuietCount(head);
    RecordCountConcat(ReadAll(d.preamble), head);
    RecordCountConcat(ReadAll(d.preamble) + head, Layout(HunkTokens, Spots(d.hunks, 0, 0)));
  }

  lemma {:induction false} LayoutAreLines(block: Spot -> seq<string>, spots: seq<Spot>)
    requires forall p :: p in spots ==> AreLines(block(p))
    ensures AreLines(Layout(block, spots))
  {
    if spots != [] {
      LayoutAreLines(block, spots[1..]);
      AreLinesConcat(block(spots[0]), Layout(block, spots[1..]));
    }
  }

  lemma {:induction false} DecimalIsLine(n: nat)
    ensures IsLine(Decimal(n))
  {
    DecimalIsRead(n);
  }

  lemma RangeIsLine(before: nat, count: nat)
    ensures IsLine(RangeText(before, count))
  {
    DecimalIsLine(before);
    DecimalIsLine(before + 1);
    DecimalIsLine(count);
  }

  lemma PrefixedAreLines(mark: char, lines: seq<string>)
    requires mark != '\n' && AreLines(lines)
    ensures AreLines(Prefixed(mark, lines))
  {}

  lemma HunkLinesAreLines(p: Spot)
    requires AreLines(p.h.deleted) && AreLines(p.h.added) && IsLine(p.h.heading)
    ensures AreLines(HunkLines(p))
  {
    var h := p.h;
    RangeIsLine(p.oldBefore, |h.deleted|);
    RangeIsLine(p.newBefore, |h.added|);
    PrefixedAreLines('-', h.deleted);
    PrefixedAreLines('+', h.added);
    assert IsLine(HunkHeader(h, p.oldBefore, p.newBefore));
    assert AreLines(Marker(h.oldUnterminated)) && AreLines(Marker(h.newUnterminated));
  }

  lemma PrintedAreLines(d: FileDiff)
    requires ValidFile(d)
    ensures AreLines(PrintFile(d))
  {
    var head, spots := ["--- a/" + NameText(d.name), "+++ b/" + NameText(d.name)], Spots(d.hunks, 0, 0);
    SpotsMatch(d.hunks, 0, 0);
    forall p | p in spots ensures AreLines(HunkLines(p)) {
      var i :| 0 <= i < |spots| && spots[i] == p;
      assert p.h == d.hunks[i];
      HunkLinesAreLines(p);
    }
    LayoutAreLines(HunkLines, spots);
    AreLinesConcat(d.preamble, head);
    AreLinesConcat(d.preamble + head, Layout(HunkLines, spots));
  }

  /** Recovering from a printed text is tracking its lines. */
  lemma RecoveredIsTracked(lines: seq<string>)
    requires AreLines(lines)
    ensures Recovered(TextOf(lines)) == Track(START, ReadAll(lines)).rows
  {
    TokensOfText(lines);
    TrackConcat(START, ReadAll(lines), [OtherLine]);
    TrackOne(Track(START, ReadAll(lines)), OtherLine);
  }

  /** The section's rows can be found under its own name: it has none, or the name holds no space. */
  predicate IsFound(d: FileDiff) {
    ' ' in d.name ==> AddedRows(d.hunks) == []
  }

  lemma SlashesKeep(name: string, c: char)
    requires c != '/' && c != '\\'
    ensures c in NormalizeSlashes(name) <==> c in name
  {
    var r := NormalizeSlashes(name);
    if c in name {
      var i :| 0 <= i < |name| && name[i] == c;
      assert r[i] == c;
    }
    if c in r {
      var i :| 0 <= i < |r| && r[i] == c;
      assert name[i] == c;
    }
  }

  /** A name with a space is looked up without the tab under which every such name is filed. */
  lemma FiledElsewhere(d: FileDiff, name: string)
    requires ' ' in name && '\t' !in name
    ensures Filed(d) != NormalizeSlashes(name)
  {
    SlashesKeep(name, ' ');
    SlashesKeep(name, '\t');
    SlashesKeep(NameText(d.name), ' ');
    SlashesKeep(NameText(d.name), '\t');
    if ' ' in d.name { assert NameText(d.name)[|d.name|] == '\t'; }
  }

  lemma PlainFileRows(d: FileDiff)
    requires ValidFile(d) && AllPlain(d.hunks)
    ensures RowsOf(Track(START, ReadAll(PrintFile(d))).rows, NormalizeSlashes(d.name))
         == if ' ' in d.name then [] else Layout(ShiftedRows, Spots(d.hunks, 0, 0))
  {
    FileIsTracked(START, d);
    assert RowsOf(START.rows, NormalizeSlashes(d.name)) == [];
    if ' ' in d.name { FiledElsewhere(d, d.name); }
  }

  lemma NoRowsAreExact(hunks: seq<Hunk>)
    requires AddedRows(hunks) == []
    ensures AllExact(hunks)
  {
    ShiftedIffExact(hunks);
    SameLayoutLength(ShiftedRows, HunkRows, Spots(hunks, 0, 0));
  }

  lemma {:induction false} SameLayoutLength(a: Spot -> seq<Row>, b: Spot -> seq<Row>, spots: seq<Spot>)
    requires forall p :: |a(p)| == |b(p)|
    ensures |Layout(a, spots)| == |Layout(b, spots)|
  {
    if spots != [] { SameLayoutLength(a, b, spots[1..]); }
  }

  lemma MissedIfNotPlain(d: FileDiff)
    requires ValidFile(d) && !AllPlain(d.hunks)
    ensures RowsOf(Track(START, ReadAll(PrintFile(d))).rows, NormalizeSlashes(d.name)) != AddedRows(d.hunks)
  {
    FileReads(d);
    AtMostRecorded(START, FileTokens(d), NormalizeSlashes(d.name));
    FileCount(d);
    HunksCount(d.hunks);
  }

  predicate CleanFile(d: FileDiff) {
    ValidFile(d) && AllPlain(d.hunks) && AllExact(d.hunks) && IsFound(d)
  }

  /**
   * For every edit script: from the printed text, the tracker recovers exactly the added
   * lines with their true new-file numbers, under the file's name, if and only if no added
   * line starts with `++` or ends in a carriage return, no "No newline" marker stands
   * before an added line of its hunk, and the name holds no space if there are any rows.
   */
  lemma TrackerInvertsPrinter(d: FileDiff)
    requires ValidFile(d)
    ensures RowsOf(Recovered(TextOf(PrintFile(d))), NormalizeSlashes(d.name)) == AddedRows(d.hunks)
            <==> AllPlain(d.hunks) && AllExact(d.hunks) && IsFound(d)
  {
    PrintedAreLines(d);
    RecoveredIsTracked(PrintFile(d));
    if !AllPlain(d.hunks) {
      MissedIfNotPlain(d);
    } else {
      PlainFileRows(d);
      ShiftedIffExact(d.hunks);
      if AddedRows(d.hunks) == [] { NoRowsAreExact(d.hunks); }
    }
  }

  function OneHunk(name: string, h: Hunk): FileDiff {
    FileDiff([], name, [h])
  }

  /** The rows found for a file with this one hunk are not its added lines. */
  predicate IsMissed(name: string, h: Hunk) {
    RowsOf(Recovered(TextOf(PrintFile(OneHunk(name, h)))), NormalizeSlashes(name)) != AddedRows([h])
  }

  lemma MissedHunk(name: string, h: Hunk)
    requires ValidFile(OneHunk(name, h)) && !(PlainLines(h.added) && IsExact(h))
    ensures IsMissed(name, h)
  {
    assert h in [h];
    TrackerInvertsPrinter(OneHunk(name, h));
  }

  /**
   * In every file an added line `++` is lost, a line added after an unterminated one is
   * misnumbered, and a carriage return at the end of an added line is dropped.
   */
  lemma TrackerCanMiss(name: string)
    requires IsName(name)
    ensures IsMissed(name, Hunk(0, [], ["++"], false, false, ""))
    ensures IsMissed(name, Hunk(0, ["a"], ["b"], true, false, ""))
    ensures IsMissed(name, Hunk(0, [], ["y\r"], false, false, ""))
  {
    OneLineIsMissed(name, "++");
    OneLineIsMissed(name, "y\r");
    MissedHunk(name, Hunk(0, ["a"], ["b"], true, false, ""));
  }

  lemma OneLineIsMissed(name: string, line: string)
    requires IsName(name) && IsLine(line) && (!IsPlain(line) || EndsInCr(line))
    ensures IsMissed(name, Hunk(0, [], [line], false, false, ""))
  {
    assert line in [line];
    MissedHunk(name, Hunk(0, [], [line], false, false, ""));
  }

  /** Whatever plain lines a section adds to a file whose name holds a space, nothing is found under that name. */
  lemma SpacedNameIsMissed(d: FileDiff)
    requires ValidFile(d) && AllPlain(d.hunks) && ' ' in d.name
    ensures RowsOf(Recovered(TextOf(PrintFile(d))), NormalizeSlashes(d.name)) == []
  {
    PrintedAreLines(d);
    RecoveredIsTracked(PrintFile(d));
    PlainFileRows(d);
  }

  lemma SpacedFileIsMissed()
    ensures var h := Hunk(0, [], ["x"], false, false, "");
            AddedRows([h]) == [Row(1, "x")] && RowsOf(Recovered(TextOf(PrintFile(OneHunk("a b.ts", h)))), "a b.ts") == []
  {
    assert "a b.ts"[1] == ' ' && NormalizeSlashes("a b.ts") == "a b.ts";
    SpacedLineIsMissed("a b.ts", "x");
  }

  lemma SpacedLineIsMissed(name: string, line: string)
    requires IsName(name) && ' ' in name && IsLine(line) && IsPlain(line)
    ensures var h := Hunk(0, [], [line], false, false, "");
            AddedRows([h]) == [Row(1, line)] && RowsOf(Recovered(TextOf(PrintFile(OneHunk(name, h)))), NormalizeSlashes(name)) == []
  {
    var h := Hunk(0, [], [line], false, false, "");
    RowsOfOne(h);
    assert Numbered(1, [line]) == [Row(1, line)];
    SpacedNameIsMissed(OneHunk(name, h));
  }

  lemma RowsOfOne(h: Hunk)
    ensures AddedRows([h]) == Numbered(h.skip + 1, h.added)
  {
    LayoutHead(HunkRows, h, [], 0, 0);
    assert [h] + [] == [h];
  }

  /**
   * What the structure scan is given for a clean file section: its rows lie on the
   * patched file's added lines, and the joined text separates exactly its ranges.
   */
  lemma {:induction false} CleanFileScope(d: FileDiff, ranges: seq<Range>)
    requires CleanFile(d) && AddedRows(d.hunks) != []
    requires Separated(ranges) && forall x :: Covers(ranges, x) <==> x in LinesOf(AddedRows(d.hunks))
    ensures var rows := RowsOf(Recovered(TextOf(PrintFile(d))), NormalizeSlashes(d.name));
            rows == AddedRows(d.hunks) && |Joined(rows)| == |rows| + |ranges| - 1
  {
    TrackerInvertsPrinter(d);
    AddedRowsIncrease(d.hunks);
    SeparatorsBetweenRanges(AddedRows(d.hunks), ranges);
  }
}
