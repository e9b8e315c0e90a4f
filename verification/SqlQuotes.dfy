/**
 * Comment stripping against a stripper that respects quotations. The scanner's own
 * stripping does not: it is the same exactly on texts where no comment begins inside a
 * quotation.
 */
module SqlQuotes {
  import opened Sequences
  import opened Text
  import opened SqlScanner
  import opened SqlStatements
  import opened SqlClassifier

  /** The quotation after one more character. */
  function Next(q: Quote, escaped: bool, ch: char): Quote {
    if (ch == '\'' || ch == '"') && !escaped then Flip(q, ch) else q
  }

  /** The length of the closed block comment at the start of `s`, or zero. */
  function BlockLength(s: string): (n: nat)
    ensures n <= |s|
  {
    if |s| >= 2 && s[0] == '/' && s[1] == '*' && FindClose(s[2..]) < |s| - 2 then FindClose(s[2..]) + 4 else 0
  }

  /** `StripBlocks`, leaving quotations alone. */
  function AwareBlocks(s: string, escaped: bool, q: Quote): string {
    if s == [] then []
    else if q.Outside? && BlockLength(s) > 0 then [' '] + AwareBlocks(s[BlockLength(s)..], false, q)
    else [s[0]] + AwareBlocks(s[1..], s[0] == '\\', Next(q, escaped, s[0]))
  }

  /** A closed block comment begins inside a quotation. */
  predicate QuotedBlock(s: string, escaped: bool, q: Quote) {
    if s == [] then false
    else if BlockLength(s) > 0 then q.Inside? || QuotedBlock(s[BlockLength(s)..], false, q)
    else QuotedBlock(s[1..], s[0] == '\\', Next(q, escaped, s[0]))
  }

  /** `StripLines`, leaving quotations alone. */
  function AwareLines(s: string, escaped: bool, q: Quote): string
    decreases |s|
  {
    if s == [] then []
    else if q.Outside? && StartsLine(s) then [' '] + AwareLines(DropLine(s[2..]), false, q)
    else [s[0]] + AwareLines(s[1..], s[0] == '\\', Next(q, escaped, s[0]))
  }

  /** A line comment begins inside a quotation. */
  predicate QuotedLine(s: string, escaped: bool, q: Quote)
    decreases |s|
  {
    if s == [] then false
    else if StartsLine(s) then q.Inside? || QuotedLine(DropLine(s[2..]), false, q)
    else QuotedLine(s[1..], s[0] == '\\', Next(q, escaped, s[0]))
  }

  lemma SameTail(x: char, y: char, a: string, b: string)
    ensures [x] + a == [y] + b <==> x == y && a == b
  {
    if [x] + a == [y] + b {
      assert ([x] + a)[0] == ([y] + b)[0] && ([x] + a)[1..] == ([y] + b)[1..];
    }
  }

  /** Block stripping respects quotations exactly when no block comment begins inside one. */
  lemma {:induction false} BlocksRespectQuotes(s: string, escaped: bool, q: Quote)
    ensures StripBlocks(s) == AwareBlocks(s, escaped, q) <==> !QuotedBlock(s, escaped, q)
    decreases |s|
  {
    if s != [] {
      var n := BlockLength(s);
      if n == 0 {
        BlocksRespectQuotes(s[1..], s[0] == '\\', Next(q, escaped, s[0]));
        SameTail(s[0], s[0], StripBlocks(s[1..]), AwareBlocks(s[1..], s[0] == '\\', Next(q, escaped, s[0])));
      } else {
        BlocksRespectQuotes(s[n..], false, q);
        SameTail(' ', ' ', StripBlocks(s[n..]), AwareBlocks(s[n..], false, q));
        SameTail(' ', s[0], StripBlocks(s[n..]), AwareBlocks(s[1..], s[0] == '\\', Next(q, escaped, s[0])));
      }
    }
  }

  /** And so does line stripping. */
  lemma {:induction false} LinesRespectQuotes(s: string, escaped: bool, q: Quote)
    ensures StripLines(s) == AwareLines(s, escaped, q) <==> !QuotedLine(s, escaped, q)
    decreases |s|
  {
    if s != [] {
      if !StartsLine(s) {
        LinesRespectQuotes(s[1..], s[0] == '\\', Next(q, escaped, s[0]));
        SameTail(s[0], s[0], StripLines(s[1..]), AwareLines(s[1..], s[0] == '\\', Next(q, escaped, s[0])));
      } else {
        var rest := DropLine(s[2..]);
        LinesRespectQuotes(rest, false, q);
        SameTail(' ', ' ', StripLines(rest), AwareLines(rest, false, q));
        SameTail(' ', s[0], StripLines(rest), AwareLines(s[1..], s[0] == '\\', Next(q, escaped, s[0])));
      }
    }
  }

  function AwareStrip(sql: string): string {
    Trim(Squeeze(AwareLines(AwareBlocks(sql, false, Outside), false, Outside)))
  }

  /** Some comment begins inside a quotation. */
  predicate HasQuotedComment(sql: string) {
    QuotedBlock(sql, false, Outside) || QuotedLine(AwareBlocks(sql, false, Outside), false, Outside)
  }

  // ----- the converse, by counting what is kept -----

  /** The number of characters that are no space. */
  function Marks(s: string): nat {
    if s == [] then 0 else (if IsSpace(s[0]) then 0 else 1) + Marks(s[1..])
  }

  lemma MarksHead(c: char, s: string)
    ensures Marks([c] + s) == (if IsSpace(c) then 0 else 1) + Marks(s)
  {
    assert ([c] + s)[1..] == s;
  }

  lemma {:induction false} MarksConcat(a: string, b: string)
    ensures Marks(a + b) == Marks(a) + Marks(b)
  {
    if a == [] {
      assert a + b == b;
    } else {
      MarksConcat(a[1..], b);
      assert (a + b)[1..] == a[1..] + b;
    }
  }

  lemma {:induction false} MarksOfBlank(s: string)
    requires IsBlank(s)
    ensures Marks(s) == 0
  {
    if s != [] { MarksOfBlank(s[1..]); }
  }

  lemma {:induction false} MarksOfDropSpaces(s: string)
    ensures Marks(DropSpaces(s)) == Marks(s)
  {
    if s != [] && IsSpace(s[0]) { MarksOfDropSpaces(s[1..]); }
  }

  lemma {:induction false} MarksOfSqueeze(s: string)
    ensures Marks(Squeeze(s)) == Marks(s)
    decreases |s|
  {
    if s != [] {
      if IsSpace(s[0]) {
        MarksOfSqueeze(DropSpaces(s[1..]));
        MarksOfDropSpaces(s[1..]);
        MarksHead(' ', Squeeze(DropSpaces(s[1..])));
      } else {
        MarksOfSqueeze(s[1..]);
        MarksHead(s[0], Squeeze(s[1..]));
      }
    }
  }

  lemma MarksOfTrim(s: string)
    ensures Marks(Trim(s)) == Marks(s)
  {
    var a, b := TrimIsSlice(s);
    MarksOfBlank(s[..a]);
    MarksOfBlank(s[b..]);
    MarksConcat(s[..a], s[a..b]);
    MarksConcat(s[..a] + s[a..b], s[b..]);
    assert s == s[..a] + s[a..b] + s[b..];
  }

  predicate StartsAtLineEnd(s: string) {
    s == "" || s[0] == '\n' || s[0] == '\r'
  }

  lemma DashesAreDropped(u: string)
    requires StartsLine(u)
    ensures DropLine(u) == DropLine(u[1..]) == DropLine(u[2..])
  {
    DashIsDropped(u);
    DashIsDropped(u[1..]);
    TailOfTail(u);
  }

  lemma DashIsDropped(u: string)
    requires u != "" && u[0] == '-'
    ensures DropLine(u) == DropLine(u[1..])
  {}

  lemma TailOfTail(u: string)
    requires |u| >= 2
    ensures u[1..][1..] == u[2..]
  {}

  lemma KeptStep(u: string)
    requires u != "" && !StartsLine(u)
    ensures Marks(StripLines(u)) == (if IsSpace(u[0]) then 0 else 1) + Marks(StripLines(u[1..]))
  {
    MarksHead(u[0], StripLines(u[1..]));
  }

  lemma DroppedStep(u: string)
    requires StartsLine(u)
    ensures Marks(StripLines(u)) == Marks(StripLines(DropLine(u)))
  {
    DashesAreDropped(u);
    MarksHead(' ', StripLines(DropLine(u[2..])));
  }

  /** Dropping the rest of a line before stripping keeps no more of it. */
  lemma {:induction false} DroppingKeepsLess(u: string)
    ensures Marks(StripLines(DropLine(u))) <= Marks(StripLines(u))
    decreases |u|
  {
    if StartsLine(u) {
      DroppedStep(u);
    } else if !StartsAtLineEnd(u) {
      KeptStep(u);
      DroppingKeepsLess(u[1..]);
    }
  }

  /** A quote-aware line pass keeps more, and strictly more if a line comment begins inside a quotation. */
  lemma {:induction false} AwareKeepsMore(s: string, escaped: bool, q: Quote)
    ensures Marks(StripLines(s)) <= Marks(AwareLines(s, escaped, q))
    ensures QuotedLine(s, escaped, q) ==> Marks(StripLines(s)) < Marks(AwareLines(s, escaped, q))
    decreases |s|
  {
    if s != [] {
      var tail := AwareLines(s[1..], s[0] == '\\', Next(q, escaped, s[0]));
      if !StartsLine(s) {
        AwareKeepsMore(s[1..], s[0] == '\\', Next(q, escaped, s[0]));
        MarksHead(s[0], StripLines(s[1..]));
        MarksHead(s[0], tail);
      } else if q.Outside? {
        AwareKeepsMore(DropLine(s[2..]), false, q);
        MarksHead(' ', StripLines(DropLine(s[2..])));
        MarksHead(' ', AwareLines(DropLine(s[2..]), false, q));
      } else {
        AwareKeepsMore(s[1..], s[0] == '\\', Next(q, escaped, s[0]));
        DroppingKeepsLess(s[1..]);
        DashesAreDropped(s);
        MarksHead(' ', StripLines(DropLine(s[2..])));
        MarksHead(s[0], tail);
      }
    }
  }

  lemma SameStripsSameMarks(a: string, b: string)
    requires Trim(Squeeze(a)) == Trim(Squeeze(b))
    ensures Marks(a) == Marks(b)
  {
    MarksOfTrim(Squeeze(a));
    MarksOfTrim(Squeeze(b));
    MarksOfSqueeze(a);
    MarksOfSqueeze(b);
  }

  /**
   * The whole stripping respects quotations exactly when no comment begins inside one,
   * for every script without a quoted block comment; with one it may still do so, when a
   * line comment hides it.
   */
  lemma StripRespectsQuotes(sql: string)
    requires !QuotedBlock(sql, false, Outside)
    ensures StripSqlComments(sql) == AwareStrip(sql) <==> !HasQuotedComment(sql)
  {
    var b := AwareBlocks(sql, false, Outside);
    BlocksRespectQuotes(sql, false, Outside);
    LinesRespectQuotes(b, false, Outside);
    AwareKeepsMore(b, false, Outside);
    if StripSqlComments(sql) == AwareStrip(sql) { SameStripsSameMarks(StripLines(b), AwareLines(b, false, Outside)); }
  }

  // ----- what stands behind dashes -----

  predicate IsOneLine(s: string) {
    '\n' !in s && '\r' !in s
  }

  lemma {:induction false} DropsOneLine(rest: string, tail: string)
    requires IsOneLine(rest) && StartsAtLineEnd(tail)
    ensures DropLine(rest + tail) == tail
  {
    if rest == [] {
      assert rest + tail == tail;
    } else {
      assert rest[0] in rest && (rest + tail)[1..] == rest[1..] + tail;
      DropsOneLine(rest[1..], tail);
    }
  }

  lemma StripHead(c: char, u: string)
    requires !StartsLine([c] + u)
    ensures StripLines([c] + u) == [c] + StripLines(u)
  {
    assert ([c] + u)[1..] == u;
  }

  lemma StripDashes(u: string)
    ensures StripLines("--" + u) == " " + StripLines(DropLine(u))
  {
    assert ("--" + u)[2..] == u;
  }

  /** The text with `--`, the rest of that line, and what follows. */
  function Dashed(front: string, rest: string, tail: string): string {
    front + ("--" + (rest + tail))
  }

  lemma DashedHead(front: string, rest: string, tail: string)
    requires front != ""
    ensures Dashed(front, rest, tail) == [front[0]] + Dashed(front[1..], rest, tail)
    ensures StartsLine(Dashed(front, rest, tail)) <==> front[0] == '-' && (|front| == 1 || front[1] == '-')
  {}

  /** Wherever two dashes stand, what follows them on their line makes no difference. */
  lemma {:induction false} LineRestIsStripped(front: string, rest: string, tail: string)
    requires IsOneLine(rest) && StartsAtLineEnd(tail)
    ensures StripLines(Dashed(front, rest, tail)) == StripLines(Dashed(front, "", tail))
    decreases |front|
  {
    if front == "" {
      assert Dashed("", rest, tail) == "--" + (rest + tail) && Dashed("", "", tail) == "--" + ("" + tail);
      StripDashes(rest + tail);
      StripDashes("" + tail);
      DropsOneLine(rest, tail);
      DropsOneLine("", tail);
    } else {
      DashedHead(front, rest, tail);
      DashedHead(front, "", tail);
      if !StartsLine(Dashed(front, rest, tail)) {
        StripHead(front[0], Dashed(front[1..], rest, tail));
        StripHead(front[0], Dashed(front[1..], "", tail));
        LineRestIsStripped(front[1..], rest, tail);
      } else if |front| == 1 {
        assert front == "-";
        DashThenDashes(rest, tail);
        DashThenDashes("", tail);
      } else {
        assert front == "--" + front[2..];
        LineInFront(front[2..], rest, tail);
        LineInFront(front[2..], "", tail);
        if DropLine(front[2..]) != "" { LineRestIsStripped(DropLine(front[2..]), rest, tail); }
      }
    }
  }

  lemma OneLineConcat(a: string, b: string)
    requires IsOneLine(a) && IsOneLine(b)
    ensures IsOneLine(a + b)
  {}

  lemma DashMoves(u: string)
    ensures "-" + ("--" + u) == "--" + ("-" + u)
  {}

  lemma DashThenDashes(rest: string, tail: string)
    requires IsOneLine(rest) && StartsAtLineEnd(tail)
    ensures StripLines(Dashed("-", rest, tail)) == " " + StripLines(tail)
  {
    DashMoves(rest + tail);
    StripDashes("-" + (rest + tail));
    Associates("-", rest, tail);
    OneLineConcat("-", rest);
    DropsOneLine("-" + rest, tail);
  }

  lemma DashedParts(front: string, rest: string, tail: string)
    ensures Dashed(front, rest, tail) == front + Dashed("", rest, tail)
    ensures Dashed("--" + front, rest, tail) == "--" + (front + Dashed("", rest, tail))
  {
    Associates("--", front, Dashed("", rest, tail));
  }

  lemma DropsDashed(rest: string, tail: string)
    requires IsOneLine(rest) && StartsAtLineEnd(tail)
    ensures DropLine(Dashed("", rest, tail)) == tail
  {
    ConcatEmpty("--" + (rest + tail));
    Associates("--", rest, tail);
    OneLineConcat("--", rest);
    DropsOneLine("--" + rest, tail);
  }

  /** Dashes in front drop their own line, which ends in front or with the rest. */
  lemma LineInFront(f: string, rest: string, tail: string)
    requires IsOneLine(rest) && StartsAtLineEnd(tail)
    ensures StripLines(Dashed("--" + f, rest, tail))
         == " " + StripLines(if DropLine(f) == "" then tail else Dashed(DropLine(f), rest, tail))
  {
    var u := Dashed("", rest, tail);
    DashedParts(f, rest, tail);
    DashedParts(DropLine(f), rest, tail);
    StripDashes(f + u);
    DropLineSplits(f, u);
    DropsDashed(rest, tail);
  }

  /** Where a character of the text without the rest of the line stands in the text with it. */
  function Place(front: string, rest: string, i: int): int {
    if i < |front| + 2 then i else i + |rest|
  }

  lemma PlaceOf(front: string, rest: string, tail: string, i: nat)
    requires i < |Dashed(front, "", tail)|
    ensures 0 <= Place(front, rest, i) < |Dashed(front, rest, tail)|
    ensures Dashed(front, rest, tail)[Place(front, rest, i)] == Dashed(front, "", tail)[i]
    ensures i == |front| + 1 ==> Dashed(front, "", tail)[i] == '-'
  {}

  lemma BlockMoves(front: string, rest: string, tail: string, i: int, j: int)
    requires IsBlockAt(Dashed(front, "", tail), i, j)
    ensures IsBlockAt(Dashed(front, rest, tail), Place(front, rest, i), Place(front, rest, j))
  {
    PlaceOf(front, rest, tail, i);
    PlaceOf(front, rest, tail, i + 1);
    PlaceOf(front, rest, tail, j);
    PlaceOf(front, rest, tail, j + 1);
  }

  /** Taking the rest of the line away makes no block comment. */
  lemma BlockWithoutRest(front: string, rest: string, tail: string)
    ensures HasBlock(Dashed(front, "", tail)) ==> HasBlock(Dashed(front, rest, tail))
  {
    var t := Dashed(front, "", tail);
    if i, j :| 0 <= i < |t| && 0 <= j < |t| && IsBlockAt(t, i, j) { BlockMoves(front, rest, tail, i, j); }
  }

  /**
   * Dashes take the rest of their line with them, quoted or not: in a text without block
   * comments nothing of it reaches the classifier.
   */
  lemma DashesTakeTheRest(front: string, rest: string, tail: string)
    requires !HasBlock(Dashed(front, rest, tail)) && IsOneLine(rest) && StartsAtLineEnd(tail)
    ensures StripSqlComments(Dashed(front, rest, tail)) == StripSqlComments(Dashed(front, "", tail))
    ensures ScriptFeatures(Dashed(front, rest, tail)) == ScriptFeatures(Dashed(front, "", tail))
  {
    BlockWithoutRest(front, rest, tail);
    BlocksOrFixed(Dashed(front, rest, tail));
    BlocksOrFixed(Dashed(front, "", tail));
    LineRestIsStripped(front, rest, tail);
  }

  const BLOCK := "/**/"

  lemma BlockFacts()
    ensures BlockLength(BLOCK) == 4 && StripBlocks(BLOCK) == " " && AwareBlocks(BLOCK, false, Inside('\'')) == BLOCK
  {
    assert BLOCK[2..] == "*/" && FindClose("*/") == 0;
    assert BLOCK[4..] == "" && StripBlocks(BLOCK) == [' '] + StripBlocks("");
    assert BLOCK[1..] == "**/" && BLOCK[1..][1..] == "*/" && BLOCK[1..][1..][1..] == "/" && BLOCK[1..][1..][1..][1..] == "";
  }

  lemma NoSlashStep(c: char, u: string, escaped: bool, q: Quote)
    requires c != '/'
    ensures StripBlocks([c] + u) == [c] + StripBlocks(u)
    ensures AwareBlocks([c] + u, escaped, q) == [c] + AwareBlocks(u, c == '\\', Next(q, escaped, c))
    ensures QuotedBlock([c] + u, escaped, q) == QuotedBlock(u, c == '\\', Next(q, escaped, c))
  {
    assert ([c] + u)[1..] == u;
  }

  lemma AwareDashes(u: string)
    ensures AwareLines("--" + u, false, Outside) == " " + AwareLines(DropLine(u), false, Outside)
  {
    assert ("--" + u)[2..] == u;
  }

  lemma DashesAreAware(u: string, v: string)
    requires IsOneLine(u) && IsOneLine(v)
    ensures StripLines("--" + u) == AwareLines("--" + v, false, Outside)
  {
    StripDashes(u);
    AwareDashes(v);
    ConcatEmpty(u);
    ConcatEmpty(v);
    DropsOneLine(u, "");
    DropsOneLine(v, "");
  }

  /** Two dashes and an opening quote in front. */
  function DashedQuote(u: string): string {
    ['-'] + (['-'] + (['\''] + u))
  }

  lemma BlocksBehindDashes(u: string)
    ensures StripBlocks(DashedQuote(u)) == DashedQuote(StripBlocks(u))
    ensures AwareBlocks(DashedQuote(u), false, Outside) == DashedQuote(AwareBlocks(u, false, Inside('\'')))
    ensures QuotedBlock(DashedQuote(u), false, Outside) == QuotedBlock(u, false, Inside('\''))
  {
    NoSlashStep('\'', u, false, Outside);
    NoSlashStep('-', ['\''] + u, false, Outside);
    NoSlashStep('-', ['-'] + (['\''] + u), false, Outside);
  }

  lemma DashedQuotesAreAware(u: string, v: string)
    requires IsOneLine(u) && IsOneLine(v)
    ensures StripLines(DashedQuote(u)) == AwareLines(DashedQuote(v), false, Outside)
  {
    assert DashedQuote(u) == "--" + (['\''] + u) && DashedQuote(v) == "--" + (['\''] + v);
    OneLineConcat(['\''], u);
    OneLineConcat(['\''], v);
    DashesAreAware(['\''] + u, ['\''] + v);
  }

  /** A quoted block comment behind a line comment: stripping is quote-aware all the same. */
  lemma HiddenBlockIsStripped()
    ensures var s := DashedQuote("/**/"); QuotedBlock(s, false, Outside) && StripSqlComments(s) == AwareStrip(s)
  {
    BlockFacts();
    BlocksBehindDashes(BLOCK);
    DashedQuotesAreAware(" ", BLOCK);
  }

  // ----- a statement behind quoted dashes -----

  lemma StripLinesHead(c: char, rest: string)
    requires c != '-'
    ensures StripLines([c] + rest) == [c] + StripLines(rest)
  {
    assert ([c] + rest)[1..] == rest;
  }

  lemma {:induction false} StripsDashesAtEnd(front: string)
    requires '-' !in front
    ensures StripLines(front + "--") == front + " "
  {
    if front == [] {
      StripDashes("");
      assert [] + "--" == "--" + "" && [] + " " == " ";
    } else {
      assert front[0] in front && front == [front[0]] + front[1..];
      StripsDashesAtEnd(front[1..]);
      StripLinesHead(front[0], front[1..] + "--");
      assert front + "--" == [front[0]] + (front[1..] + "--");
    }
  }

  lemma NoSlashNoBlock(s: string)
    requires '/' !in s
    ensures StripBlocks(s) == s
  {
    BlocksOrFixed(s);
  }

  lemma SqueezesTo(front: string)
    requires Clean(front) && front != ""
    ensures Trim(Squeeze(front + " ")) == front
  {
    var s := front + " ";
    assert forall i :: 0 <= i < |front| ==> s[i] == front[i];
    SqueezedFixed(s);
    assert s[..|front|] == front;
    assert TrimEnd(s) == TrimEnd(front) == front;
  }

  lemma DashesAtEnd(front: string)
    requires front != "" && Clean(front) && '-' !in front && '/' !in front
    ensures StripSqlComments(front + "--") == front
  {
    NoSlashNoBlock(front + "--");
    StripsDashesAtEnd(front);
    SqueezesTo(front);
  }

  lemma {:induction false} NoCuts(text: string, cuts: seq<bool>, n: nat)
    requires n <= |text| == |cuts| && forall i :: 0 <= i < n ==> !cuts[i]
    ensures SplitTo(text, cuts, n) == Splitting([], text[..n])
  {
    if n > 0 { NoCuts(text, cuts, n - 1); }
  }

  lemma OneStatement(text: string)
    requires ';' !in text && text != "" && Trim(text) == text
    ensures Statements(text) == [text]
  {
    NoCuts(text, Cuts(text), |text|);
    assert text[..|text|] == text;
  }

  lemma {:induction false} NoQuoteBefore(s: string, i: nat)
    requires i <= |s| && forall j :: 0 <= j < i ==> s[j] != '\'' && s[j] != '"'
    ensures QuoteAt(s, i) == Outside
  {
    if i > 0 { NoQuoteBefore(s, i - 1); }
  }

  predicate IsLowerText(s: string) {
    forall i :: 0 <= i < |s| ==> !('A' <= s[i] <= 'Z') && s[i] != '\'' && s[i] != '"' && s[i] != '\\'
  }

  lemma LowerTextStays(a: string)
    requires IsLowerText(a)
    ensures Lower(a + "'") == a + "'"
  {}

  lemma BlankOfOpenQuote(a: string)
    requires IsLowerText(a)
    ensures Blank(a + "'") == a + " "
  {
    var s := a + "'";
    forall i | 0 <= i < |s| ensures Blank(s)[i] == (a + " ")[i] { NoQuoteBefore(s, i); }
  }

  lemma ScannedOpenQuote(a: string)
    requires IsLowerText(a) && Clean(a + "'")
    ensures Scanned(a + "'") == a + " "
  {
    StripFixesClean(a + "'");
    LowerTextStays(a);
    BlankOfOpenQuote(a);
  }

  /** A word whose first two letters nowhere follow each other does not occur. */
  lemma NoWord(s: string, w: string)
    requires |w| >= 2 && forall i :: 0 <= i < |s| - 1 ==> !(s[i] == w[0] && s[i + 1] == w[1])
    ensures !HasWord(s, w)
  {
    if i :| 0 <= i < |s| && WordAt(s, i, w) {
      assert s[i] == s[i..i + |w|][0] == w[0] && s[i + 1] == s[i..i + |w|][1] == w[1];
    }
  }

  /** The word `select` and two spaces. */
  predicate IsSelect(s: string) {
    |s| == 8 && s[0] == 's' && s[1] == 'e' && s[2] == 'l' && s[3] == 'e' && s[4] == 'c' && s[5] == 't' && s[6] == ' ' && s[7] == ' '
  }

  predicate IsOtherStart(x: char, y: char) {
    x == 'i' || x == 'u' || x == 'd' || x == 'a' || x == 'g' || x == 'r' || ((x == 't' || x == 'c') && (y == 'r' || y == 'o'))
  }

  lemma SelectHasNot(s: string, w: string)
    requires IsSelect(s) && |w| >= 2 && IsOtherStart(w[0], w[1])
    ensures !HasWord(s, w)
  {
    NoWord(s, w);
  }

  lemma SelectIsReading(s: string)
    requires IsSelect(s)
    ensures WordAt(s, 0, "select")
  {
    assert s[0..6] == "select";
  }

  lemma SelectOnlyReads(s: string)
    requires IsSelect(s)
    ensures (exists v | v in READ_VERBS :: WordAt(s, 0, v)) && (forall w | w in MUTATING_WORDS :: !HasWord(s, w))
  {
    SelectIsReading(s);
    assert READ_VERBS[0] == "select";
    forall w | w in MUTATING_WORDS ensures !HasWord(s, w) { SelectHasNot(s, w); }
  }

  lemma SelectIsHarmless(s: string)
    requires IsSelect(s)
    ensures !DisablesRls(s) && !HasWord(s, "upsert") && !CopiesFrom(s)
  {
    SelectHasNot(s, "upsert");
    SelectHasNot(s, "disable");
    SelectHasNot(s, "copy");
    PhraseHasItsFirstWord(s, ["disable", "row", "level", "security"]);
    PhraseHasItsFirstWord(s, ["disable", "rls"]);
    ThenHasItsFirstWord(s, ["copy"], "from");
  }

  lemma OpenSelectIsSafe(a: string)
    requires IsLowerText(a) && Clean(a + "'") && IsSelect(a + " ")
    ensures Risk(FeaturesOf(a + "'")) == Safe
  {
    ScannedOpenQuote(a);
    SelectOnlyReads(a + " ");
    SelectIsHarmless(a + " ");
    SafeStatements(a + "'");
  }

  const SELECT := "select "

  lemma SelectFacts()
    ensures IsLowerText(SELECT) && IsSelect(SELECT + " ")
    ensures SELECT + "'" != "" && Trim(SELECT + "'") == SELECT + "'" && '-' !in SELECT + "'" && ';' !in SELECT + "'" && '/' !in SELECT + "'"
  {
    var s := SELECT + "'";
    assert TrimEnd(s) == s && TrimStart(s) == s;
  }

  lemma SelectIsClean(s: string)
    requires |s| == 8 && s[..7] == SELECT && s[7] == '\''
    ensures Clean(s)
  {
    assert forall i :: 0 <= i < 7 ==> s[i] == SELECT[i];
  }

  lemma BlockMovesBack(front: string, rest: string, i: int, j: int)
    requires '/' !in front && IsBlockAt(Dashed(front, rest, ""), i, j)
    ensures IsBlockAt(rest, i - |front| - 2, j - |front| - 2)
  {
    var s, n := Dashed(front, rest, ""), |front| + 2;
    forall k | 0 <= k < |front| ensures s[k] in front {}
    assert forall k :: n <= k < |s| ==> s[k] == rest[k - n];
  }

  lemma BlockBehindDashes(front: string, rest: string)
    requires '/' !in front
    ensures HasBlock(Dashed(front, rest, "")) ==> HasBlock(rest)
  {
    var s := Dashed(front, rest, "");
    if i, j :| 0 <= i < |s| && 0 <= j < |s| && IsBlockAt(s, i, j) { BlockMovesBack(front, rest, i, j); }
  }

  lemma OnlyFrontIsRead(front: string, rest: string)
    requires front != "" && Clean(front) && '-' !in front && '/' !in front && !HasBlock(rest) && IsOneLine(rest)
    ensures StripSqlComments(front + "--" + rest) == front
  {
    BlockBehindDashes(front, rest);
    DashesTakeTheRest(front, rest, "");
    ConcatEmpty(rest);
    Associates(front, "--", rest);
    assert Dashed(front, "", "") == front + "--";
    DashesAtEnd(front);
  }

  /** What follows quoted dashes on their line is never classified: every contract and policy allows such a script. */
  lemma QuotedDashesHideTheRest(rest: string, contract: Contract, blockDirectWrites: bool, databaseTool: bool)
    requires !HasBlock(rest) && IsOneLine(rest)
    ensures EvaluateDbSafety(Classification(ScriptFeatures(SELECT + "'" + "--" + rest)), contract, blockDirectWrites, databaseTool).allowed
  {
    var left := SELECT + "'";
    SelectFacts();
    SelectIsClean(left);
    OnlyFrontIsRead(left, rest);
    OneStatement(left);
    OpenSelectIsSafe(SELECT);
    FeaturesOfOne(left);
    OnlySafeScriptsAreAllowed(left + "--" + rest, contract, blockDirectWrites, databaseTool);
  }

  lemma FeaturesOfOne(stmt: string)
    ensures AllFeatures([stmt]) == [FeaturesOf(stmt)]
  {}

  const DROP := "'; drop table t"

  lemma DropFacts()
    ensures !HasBlock(DROP) && IsOneLine(DROP)
  {
    assert '/' !in DROP;
  }

  lemma DropScript()
    ensures SELECT + "'" + "--" + DROP == "select '--'; drop table t"
  {}

  /** For instance, a dropped table. */
  lemma DropIsHidden(contract: Contract, blockDirectWrites: bool, databaseTool: bool)
    ensures EvaluateDbSafety(Classification(ScriptFeatures("select '--'; drop table t")), contract, blockDirectWrites, databaseTool).allowed
  {
    DropScript();
    DropFacts();
    QuotedDashesHideTheRest(DROP, contract, blockDirectWrites, databaseTool);
  }
}
