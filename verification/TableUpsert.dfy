/** Writing a table and reading it back; the other tables; writing it again. */
module TableUpsert {
  import opened Sequences
  import opened Text
  import opened TomlText
  import opened NeatText
  import opened ProfileTables

  predicate NoHeader(lines: seq<string>) {
    forall j :: 0 <= j < |lines| ==> !IsBareHeader(lines[j])
  }

  /** A header line, then lines that are no headers; no run of newlines, and no space at either end. */
  predicate IsBlock(table: string, block: string) {
    && EndsInk(block) && NoRun(block)
    && Trim(Split(block)[0]) == HeaderText(table)
    && NoHeader(Split(block)[1..])
  }

  // ----- parts -----

  /** The line list falls into these parts around the first line passing `h`. */
  ghost predicate AreParts(before: seq<string>, header: string, body: seq<string>, after: seq<string>, h: string -> bool) {
    && h(header)
    && (forall j :: 0 <= j < |before| ==> !h(before[j]))
    && NoHeader(body)
    && (after == [] || IsBareHeader(after[0]))
  }

  lemma CutParts(before: seq<string>, header: string, body: seq<string>, after: seq<string>)
    ensures var lines, s, e := before + ([header] + (body + after)), |before|, |before| + 1 + |body|;
            && lines[..s] == before && lines[s] == header && lines[s + 1..] == body + after
            && lines[s + 1..e] == body && lines[e..] == after
            && forall j :: 0 <= j < s ==> lines[j] == before[j]
  {}

  lemma FirstIndexOfConcat(a: seq<string>, b: seq<string>, p: string -> bool)
    requires (forall j :: 0 <= j < |a| ==> !p(a[j])) && (b == [] || p(b[0]))
    ensures FirstIndex(a + b, p) == |a|
  {
    FirstIndexIs(a + b, p, |a|);
  }

  lemma EndOfBody(body: seq<string>, after: seq<string>)
    requires NoHeader(body) && (after == [] || IsBareHeader(after[0]))
    ensures FirstIndex(body + after, IsBareHeader) == |body|
  {
    FirstIndexOfConcat(body, after, IsBareHeader);
  }

  lemma PartsAre(before: seq<string>, header: string, body: seq<string>, after: seq<string>, h: string -> bool)
    requires AreParts(before, header, body, after, h)
    ensures PartsOf(before + ([header] + (body + after)), h) == Present(before, header, body, after)
  {
    CutParts(before, header, body, after);
    FirstIndexIs(before + ([header] + (body + after)), h, |before|);
    EndOfBody(body, after);
  }

  lemma PartsJoin(lines: seq<string>, h: string -> bool)
    ensures var p := PartsOf(lines, h);
            p.Present? ==> AreParts(p.before, p.header, p.body, p.after, h) && lines == p.before + ([p.header] + (p.body + p.after))
    ensures PartsOf(lines, h).Absent? <==> forall l :: l in lines ==> !h(l)
  {
    var s := FirstIndex(lines, h);
    if s < |lines| {
      var e := TableEnd(lines, s);
      CutTwice(lines, s, e);
      BodyOf(lines, s);
    }
  }

  /** A table ends before the next header, or with the file. */
  lemma BodyOf(lines: seq<string>, s: nat)
    requires s < |lines|
    ensures var e := TableEnd(lines, s); NoHeader(lines[s + 1..e]) && (lines[e..] == [] || IsBareHeader(lines[e..][0]))
  {}

  lemma {:induction false} InkHeader(l: string)
    requires IsBareHeader(l)
    ensures TrimEnd(l) != "" && l != "" && IsBareHeader(TrimEnd(l))
  {
    TrimIgnoresTail(l);
    assert Trim("") == "";
  }

  lemma NonBlankHead(lines: seq<string>)
    requires lines != [] && IsBareHeader(lines[0])
    ensures NonBlank(lines) != [] && IsBareHeader(NonBlank(lines)[0])
  {
    InkHeader(lines[0]);
  }

  /** Taking the content of each part gives the parts of the content. */
  lemma PartsOfContent(lines: seq<string>, table: string)
    requires IsTable(table)
    ensures PartsOf(NonBlank(lines), HeaderTest(table)) == match PartsOf(lines, HeaderTest(table))
              case Absent => Absent
              case Present(b, x, m, a) => Present(NonBlank(b), TrimEnd(x), NonBlank(m), NonBlank(a))
  {
    var h := HeaderTest(table);
    HeaderIsBare(table);
    BracketTests();
    PartsJoin(lines, h);
    PartsJoin(NonBlank(lines), h);
    match PartsOf(lines, h)
    case Absent =>
      NonBlankMembers(lines, h);
    case Present(b, x, m, a) =>
      ContentParts(b, x, m, a, h);
  }

  lemma ContentParts(b: seq<string>, x: string, m: seq<string>, a: seq<string>, h: string -> bool)
    requires IsLineTest(h) && IsLineTest(IsBareHeader) && (forall l :: h(l) ==> IsBareHeader(l)) && AreParts(b, x, m, a, h)
    ensures PartsOf(NonBlank(b + ([x] + (m + a))), h) == Present(NonBlank(b), TrimEnd(x), NonBlank(m), NonBlank(a))
  {
    NonBlankConcat(b, [x] + (m + a));
    NonBlankConcat([x], m + a);
    NonBlankConcat(m, a);
    NonBlankOne(x);
    InkHeader(x);
    NonBlankMembers(b, h);
    NonBlankMembers(m, IsBareHeader);
    if a != [] { NonBlankHead(a); }
    assert h(TrimEnd(x)) == h(x);
    assert forall j :: 0 <= j < |NonBlank(b)| ==> NonBlank(b)[j] in NonBlank(b);
    assert forall j :: 0 <= j < |NonBlank(m)| ==> NonBlank(m)[j] in NonBlank(m);
    PartsAre(NonBlank(b), TrimEnd(x), NonBlank(m), NonBlank(a), h);
  }

  // ----- joining -----

  lemma {:induction false} JoinConcat(a: seq<string>, b: seq<string>)
    requires a != [] && b != []
    ensures Join(a + b) == Join(a) + "\n" + Join(b)
  {
    if |a| == 1 {
      assert (a + b)[1..] == b;
    } else {
      assert (a + b)[1..] == a[1..] + b;
      JoinConcat(a[1..], b);
    }
  }

  function LinesThen(a: seq<string>): string {
    if a == [] then "" else Join(a) + "\n"
  }

  function ThenLines(a: seq<string>): string {
    if a == [] then "" else "\n" + Join(a)
  }

  lemma EmptyConcat<T>(b: seq<T>)
    ensures [] + b == b && b + [] == b
  {}

  lemma JoinTwo(a: seq<string>, b: seq<string>)
    requires b != []
    ensures Join(a + b) == LinesThen(a) + Join(b)
    ensures Join(b + a) == Join(b) + ThenLines(a)
  {
    if a == [] {
      EmptyConcat(b);
      EmptyConcat(Join(b));
    } else {
      JoinConcat(a, b);
      JoinConcat(b, a);
      Associates(Join(b), "\n", Join(a));
    }
  }

  /** Joining three stretches of lines. */
  lemma JoinThree(a: seq<string>, b: seq<string>, c: seq<string>)
    requires b != []
    ensures Join(a + b + c) == LinesThen(a) + (Join(b) + ThenLines(c))
  {
    assert a + b + c == a + (b + c);
    JoinTwo(a, b + c);
    JoinTwo(c, b);
  }

  // ----- collapsing around the block -----

  lemma {:induction false} CollapseKeepsLast(x: string, run: nat)
    requires x != [] && x[|x| - 1] != '\n'
    ensures var c := CollapseFrom(x, run); c != [] && c[|c| - 1] == x[|x| - 1]
    decreases |x|
  {
    var next := if x[0] != '\n' then 0 else if run >= 2 then run else run + 1;
    if |x| > 1 { CollapseKeepsLast(x[1..], next); }
  }

  /** The collapsed lines before the block: lines with the same content. */
  lemma CollapsedBefore(b: seq<string>) returns (pre: seq<string>)
    requires AreLines(b)
    ensures AreLines(pre) && Collapse(LinesThen(b)) == LinesThen(pre) && NonBlank(pre) == NonBlank(b)
  {
    if b == [] {
      pre := [];
    } else {
      var x := Join(b) + "\n";
      var c := Collapse(x);
      CollapseKeepsNewline(Join(b), 0);
      pre := Split(c[..|c| - 1]);
      SplitLines(c[..|c| - 1]);
      JoinOfSplit(c[..|c| - 1]);
      assert c == c[..|c| - 1] + "\n" == c[..|c| - 1] + ['\n'] && x == Join(b) + ['\n'];
      ContentOfSpace(c[..|c| - 1], '\n');
      ContentOfSpace(Join(b), '\n');
      ContentOfCollapse(x);
      ContentOfJoin(b);
    }
  }

  lemma {:induction false} CollapseKeepsNewline(y: string, run: nat)
    requires run <= 2
    ensures var c := CollapseFrom(y + "\n", run);
            (c == [] ==> run == 2) && (c != [] ==> c[|c| - 1] == '\n')
    decreases |y|
  {
    if y == [] {
      assert y + "\n" == "\n";
    } else {
      assert (y + "\n")[1..] == y[1..] + "\n";
      CollapseKeepsNewline(y[1..], if y[0] != '\n' then 0 else if run >= 2 then run else run + 1);
    }
  }

  /** The collapsed lines after the block: their first line is kept, and their content is. */
  lemma CollapsedAfter(a: seq<string>) returns (post: seq<string>)
    requires AreLines(a) && (a == [] || (IsBareHeader(a[0]) && EndsInk(Join(a))))
    ensures AreLines(post) && Collapse(ThenLines(a)) == ThenLines(post) && NonBlank(post) == NonBlank(a)
    ensures a == [] <==> post == []
    ensures post != [] ==> IsBareHeader(post[0]) && EndsInk(Join(post))
  {
    if a == [] {
      post := [];
    } else {
      var q := Join(a);
      InkHeader(a[0]);
      assert a[0][0] in a[0] && q[0] == a[0][0] by { if |a| > 1 { assert q == a[0] + "\n" + Join(a[1..]); } }
      CollapseConcat("\n", q, 0);
      assert Collapse("\n") == "\n";
      post := Split(Collapse(q));
      SplitLines(Collapse(q));
      JoinOfSplit(Collapse(q));
      CollapseSplits(q, 0);
      SplitOfJoin(a);
      ContentOfCollapse(q);
      CollapseKeepsLast(q, 0);
    }
  }

  lemma CollapseAround(p: string, block: string, z: string)
    requires block != [] && block[0] != '\n' && block[|block| - 1] != '\n' && Collapse(block) == block
    ensures Collapse(p + (block + z)) == Collapse(p) + (block + Collapse(z))
  {
    assert (block + z)[0] == block[0];
    CollapseConcat(p, block + z, 0);
    CollapseConcat(block, z, 0);
  }

  // ----- the shape of the result -----

  /** The text is the block between lines with no such table and lines starting with another header. */
  ghost predicate IsShaped(u: string, h: string -> bool, pre: seq<string>, block: string, post: seq<string>) {
    && u == Join(pre + Split(block) + post) + "\n" && EndsInk(Join(pre + Split(block) + post))
    && AreLines(pre) && AreLines(post)
    && (forall j :: 0 <= j < |pre| ==> !h(pre[j]))
    && (post == [] || IsBareHeader(post[0]))
  }

  lemma BlockFacts(table: string, block: string)
    requires IsTable(table) && IsBlock(table, block)
    ensures block != [] && block[0] != '\n' && block[|block| - 1] != '\n' && Collapse(block) == block
    ensures var b := Split(block);
            Join(b) == block && AreLines(b) && IsBareHeader(b[0]) && HeaderTest(table)(b[0]) && b == [b[0]] + b[1..]
  {
    JoinOfSplit(block);
    SplitLines(block);
    CollapseIsIdempotent(block);
    HeaderIsBare(table);
    InkHeader(Split(block)[0]);
  }

  lemma EndsWithInk(x: string, y: string)
    requires EndsInk(y)
    ensures EndsInk(x + y)
  {}

  lemma EndsInkAround(pre: seq<string>, block: string, post: seq<string>)
    requires EndsInk(block) && (post == [] || EndsInk(Join(post)))
    ensures EndsInk(Join(pre + Split(block) + post))
  {
    JoinThree(pre, Split(block), post);
    JoinOfSplit(block);
    if post == [] {
      assert block + ThenLines(post) == block;
    } else {
      EndsWithInk("\n", Join(post));
      EndsWithInk(block, ThenLines(post));
    }
    EndsWithInk(LinesThen(pre), block + ThenLines(post));
  }

  lemma SuffixEndsInk(front: seq<string>, a: seq<string>)
    requires a != [] && IsBareHeader(a[0]) && EndsInk(Join(front + a)) && front != []
    ensures EndsInk(Join(a))
  {
    JoinConcat(front, a);
    InkHeader(a[0]);
    assert Join(a) != "" by { if |a| > 1 { assert Join(a) == a[0] + "\n" + Join(a[1..]); } }
    var s := Join(front) + "\n" + Join(a);
    assert s[|s| - 1] == Join(a)[|Join(a)| - 1];
  }

  /** Replacing the body of a table that is there. */
  lemma ShapeOfReplacing(b: seq<string>, a: seq<string>, table: string, block: string) returns (pre: seq<string>, post: seq<string>)
    requires IsTable(table) && IsBlock(table, block) && AreLines(b) && AreLines(a)
    requires (forall j :: 0 <= j < |b| ==> !HeaderTest(table)(b[j])) && (a == [] || (IsBareHeader(a[0]) && EndsInk(Join(a))))
    ensures IsShaped(Collapse(Join(b + Split(block) + a)) + "\n", HeaderTest(table), pre, block, post)
    ensures NonBlank(pre) == NonBlank(b) && NonBlank(post) == NonBlank(a)
  {
    BlockFacts(table, block);
    HeaderIsBare(table);
    pre := CollapsedBefore(b);
    post := CollapsedAfter(a);
    JoinThree(b, Split(block), a);
    JoinThree(pre, Split(block), post);
    CollapseAround(LinesThen(b), block, ThenLines(a));
    EndsInkAround(pre, block, post);
    NonBlankMembers(b, HeaderTest(table));
    AbsentInLines(pre, HeaderTest(table));
  }

  lemma {:induction false} NoBlankLines(lines: seq<string>)
    requires NonBlank(lines) == []
    ensures forall i :: 0 <= i < |lines| ==> TrimEnd(lines[i]) == ""
  {
    if lines != [] { NoBlankLines(lines[1..]); }
  }

  lemma AllBlankIsEmpty(t: string)
    requires t == "" || EndsInk(t)
    ensures NonBlank(Split(t)) == [] <==> t == ""
  {
    if t == "" {
      NonBlankOne("");
    } else {
      var n := |t| - 1;
      SplitSnoc(t[..n], t[n]);
      assert t == t[..n] + [t[n]];
      var lines := Split(t);
      var last := lines[|lines| - 1];
      assert TrimEnd(last) == last != "";
      if NonBlank(lines) == [] { NoBlankLines(lines); }
    }
  }

  /** The lines in front of an appended block. */
  lemma LinesBeforeAppended(lines: seq<string>) returns (pre: seq<string>)
    requires lines != [] && AreLines(lines) && (NonBlank(lines) != [] || lines == [""])
    ensures Join(DropBlankHead(lines)) + (if NonBlank(lines) != [] then "\n\n" else "") == LinesThen(pre)
    ensures AreLines(pre) && NonBlank(pre) == NonBlank(lines)
  {
    var d := DropBlankHead(lines);
    TrimOfBlank(lines[0]);
    NonBlankOfDrop(lines);
    if NonBlank(lines) == [] {
      pre := [];
      assert d == [] && Join(d) == "";
    } else {
      pre := d + [""];
      BlankLineAfter(d);
    }
  }

  lemma TwoNewlines(x: string)
    ensures x + "\n" + "" + "\n" == x + "\n\n"
  {}

  lemma BlankLineJoined(d: seq<string>)
    requires d != []
    ensures Join(d) + "\n\n" == LinesThen(d + [""])
  {
    JoinConcat(d, [""]);
    TwoNewlines(Join(d));
  }

  lemma BlankLineAfter(d: seq<string>)
    requires d != []
    ensures Join(d) + "\n\n" == LinesThen(d + [""]) && NonBlank(d + [""]) == NonBlank(d)
  {
    BlankLineJoined(d);
    NonBlankConcat(d, [""]);
    NonBlankOne("");
    EmptyConcat(NonBlank(d));
  }

  /** Appending the block after the lines, a blank line in between. */
  lemma ShapeOfAppending(lines: seq<string>, table: string, block: string) returns (pre: seq<string>)
    requires IsTable(table) && IsBlock(table, block) && lines != [] && AreLines(lines)
    requires (forall j :: 0 <= j < |lines| ==> !HeaderTest(table)(lines[j]))
    requires NonBlank(lines) != [] || lines == [""]
    ensures IsShaped(Join(DropBlankHead(lines)) + (if NonBlank(lines) != [] then "\n\n" else "") + block + "\n",
                     HeaderTest(table), pre, block, [])
    ensures NonBlank(pre) == NonBlank(lines)
  {
    BlockFacts(table, block);
    HeaderIsBare(table);
    pre := LinesBeforeAppended(lines);
    NonBlankMembers(lines, HeaderTest(table));
    AbsentInLines(pre, HeaderTest(table));
    JoinThree(pre, Split(block), []);
    assert block + ThenLines([]) == block;
    EndsInkAround(pre, block, []);
  }

  lemma TrimOfBlank(l: string)
    ensures Trim(l) == "" <==> TrimEnd(l) == ""
  {
    TrimEndInk(l);
    if TrimEnd(l) != "" { TrimStartOfInk(TrimEnd(l)); }
  }

  lemma {:induction false} TrimStartOfInk(s: string)
    requires EndsInk(s)
    ensures TrimStart(s) != ""
  {
    if |s| > 1 { TrimStartOfInk(s[1..]); }
  }

  lemma NonBlankOfDrop(lines: seq<string>)
    requires lines != []
    ensures NonBlank(DropBlankHead(lines)) == NonBlank(lines)
  {
    TrimOfBlank(lines[0]);
  }

  /** Whatever the file, the written table sits between the other lines, whose content is unchanged. */
  lemma UpsertShape(t: string, table: string, block: string) returns (pre: seq<string>, post: seq<string>)
    requires IsTable(table) && IsBlock(table, block)
    ensures IsShaped(UpsertTable(t, table, block), HeaderTest(table), pre, block, post)
    ensures match PartsOf(Content(t), HeaderTest(table))
            case Absent => NonBlank(pre) == Content(t) && post == []
            case Present(b, _, _, a) => NonBlank(pre) == b && NonBlank(post) == a
  {
    var text, h := TrimEnd(t), HeaderTest(table);
    var lines := Split(text);
    SplitLines(text);
    JoinOfSplit(text);
    ContentOfTrimEnd(t);
    TrimEndInk(t);
    PartsOfContent(lines, table);
    PartsJoin(lines, h);
    match PartsOf(lines, h)
    case Absent =>
      AllBlankIsEmpty(text);
      pre := ShapeOfAppending(lines, table, block);
      post := [];
    case Present(b, x, m, a) =>
      PartsAreLines(lines, b, x, m, a);
      AfterEndsInk(text, b, x, m, a);
      pre, post := ShapeOfReplacing(b, a, table, block);
  }

  lemma AfterEndsInk(text: string, b: seq<string>, x: string, m: seq<string>, a: seq<string>)
    requires text == "" || EndsInk(text)
    requires Split(text) == b + ([x] + (m + a)) && (a == [] || IsBareHeader(a[0]))
    ensures a == [] || EndsInk(Join(a))
  {
    if a != [] {
      var front := b + ([x] + m);
      assert front + a == b + ([x] + (m + a));
      JoinOfSplit(text);
      assert |front + a| > 1;
      assert text != "";
      SuffixEndsInk(front, a);
    }
  }

  lemma PartsAreLines(lines: seq<string>, b: seq<string>, x: string, m: seq<string>, a: seq<string>)
    requires AreLines(lines) && lines == b + ([x] + (m + a))
    ensures AreLines(b) && AreLines(a)
  {
    assert forall i :: 0 <= i < |b| ==> b[i] == lines[i];
    assert forall i :: 0 <= i < |a| ==> a[i] == lines[|b| + 1 + |m| + i];
  }

  // ----- what the shape gives -----

  lemma HeadAndTail(a: seq<string>, b: seq<string>, c: seq<string>)
    requires b != []
    ensures a + b + c == a + ([b[0]] + (b[1..] + c))
  {
    assert b == [b[0]] + b[1..];
  }

  lemma SplitEnded(lines: seq<string>)
    requires AreLines(lines) && EndsInk(Join(lines))
    ensures Split(TrimEnd(Join(lines) + "\n")) == lines && Split(Join(lines) + "\n") == lines + [""]
  {
    EndsInkIsTrimmed(Join(lines));
    SplitOfJoin(lines);
    SplitAtNewline(Join(lines), "");
    assert Join(lines) + "\n" + "" == Join(lines) + "\n";
  }

  lemma ShapedLines(u: string, table: string, pre: seq<string>, block: string, post: seq<string>)
    requires IsTable(table) && IsBlock(table, block) && IsShaped(u, HeaderTest(table), pre, block, post)
    ensures var lines := pre + Split(block) + post;
            Split(TrimEnd(u)) == lines && Split(u) == lines + [""] && u == Join(lines) + "\n"
  {
    BlockFacts(table, block);
    SplitEnded(pre + Split(block) + post);
  }

  lemma ShapedParts(u: string, table: string, pre: seq<string>, block: string, post: seq<string>)
    requires IsTable(table) && IsBlock(table, block) && IsShaped(u, HeaderTest(table), pre, block, post)
    ensures PartsOf(pre + Split(block) + post, HeaderTest(table)) == Present(pre, Split(block)[0], Split(block)[1..], post)
  {
    BlockFacts(table, block);
    HeadAndTail(pre, Split(block), post);
    PartsAre(pre, Split(block)[0], Split(block)[1..], post, HeaderTest(table));
  }

  lemma ShapedAgain(u: string, table: string, pre: seq<string>, block: string, post: seq<string>)
    requires IsTable(table) && IsBlock(table, block) && IsShaped(u, HeaderTest(table), pre, block, post)
    ensures UpsertTable(u, table, block) == Collapse(u)
  {
    var lines := pre + Split(block) + post;
    ShapedLines(u, table, pre, block, post);
    ShapedParts(u, table, pre, block, post);
    CollapseConcat(Join(lines), "\n", 0);
    assert Collapse("\n") == "\n";
  }

  /** Upserting once more only collapses newlines; so nothing changes from the second time on. */
  lemma UpsertIsStable(t: string, table: string, block: string)
    requires IsTable(table) && IsBlock(table, block)
    ensures var once := UpsertTable(t, table, block);
            var twice := UpsertTable(once, table, block);
            && twice == Collapse(once) && UpsertTable(twice, table, block) == twice
            && (twice == once <==> NoRun(once))
  {
    var once := UpsertTable(t, table, block);
    var pre, post := UpsertShape(t, table, block);
    ShapedAgain(once, table, pre, block, post);
    CollapseIsIdempotent(once);
    var twice := UpsertTable(once, table, block);
    var pre', post' := UpsertShape(once, table, block);
    ShapedAgain(twice, table, pre', block, post');
  }

  lemma NoRunOfDrop(t: string)
    requires NoRun(t)
    ensures NoRun(Join(DropBlankHead(Split(t))))
  {
    var lines := Split(t);
    JoinOfSplit(t);
    if Trim(lines[0]) == "" && |lines| > 1 {
      var n := |lines[0]| + 1;
      assert t == lines[0] + "\n" + Join(lines[1..]);
      assert t[n..] == Join(lines[1..]);
    } else if |lines| == 1 {
      assert lines[1..] == [];
    }
  }

  /** Texts that meet at something that is no newline have no run between them. */
  lemma NoRunJoins(x: string, y: string)
    requires NoRun(x) && NoRun(y)
    requires (x == "" || x[|x| - 1] != '\n') || (y == "" || y[0] != '\n')
    ensures NoRun(x + y)
  {
    var s, m := x + y, |x|;
    forall i | 0 <= i < |s| - 2 ensures !(s[i] == '\n' && s[i + 1] == '\n' && s[i + 2] == '\n') {
      if i >= m {
        assert s[i] == y[i - m] && s[i + 1] == y[i + 1 - m] && s[i + 2] == y[i + 2 - m];
      } else if i + 2 >= m {
        assert s[m - 1] == x[m - 1] && s[m] == y[0];
      }
    }
  }

  lemma NoRunMeets(x: string, gap: string, y: string)
    requires NoRun(x) && NoRun(y) && gap <= "\n\n" && (x == "" || x[|x| - 1] != '\n') && (y == "" || y[0] != '\n')
    ensures NoRun(x + gap + y)
  {
    NoRunJoins(x, gap);
    NoRunJoins(x + gap, y);
  }

  lemma DroppedEndsInk(t: string)
    requires t == "" || EndsInk(t)
    ensures var d := Join(DropBlankHead(Split(t))); d == "" || EndsInk(d)
  {
    var lines := Split(t);
    JoinOfSplit(t);
    if Trim(lines[0]) == "" && |lines| > 1 {
      var s := Join(lines[1..]);
      assert t == lines[0] + "\n" + s;
      assert s != "" ==> t[|t| - 1] == s[|s| - 1];
    } else if |lines| == 1 {
      assert lines[1..] == [];
    }
  }

  /** What the upsert keeps of a file it appends to: no trailing whitespace, no blank first line. */
  function Kept(t: string): string {
    Join(DropBlankHead(Split(TrimEnd(t))))
  }

  function Gap(t: string): string {
    if NonBlank(Split(TrimEnd(t))) != [] then "\n\n" else ""
  }

  predicate HasTable(t: string, table: string) {
    exists l :: l in Content(t) && HeaderTest(table)(l)
  }

  /**
   * Stable at once, exactly when the file has the table already (then newlines are
   * collapsed) or what is kept of it has no run of three newlines.
   */
  lemma UpsertIsStableAtOnce(t: string, table: string, block: string)
    requires IsTable(table) && IsBlock(table, block)
    ensures var once := UpsertTable(t, table, block);
            UpsertTable(once, table, block) == once <==> HasTable(t, table) || NoRun(Kept(t))
    ensures NoRun(t) ==> NoRun(Kept(t))
  {
    var once, lines := UpsertTable(t, table, block), Split(TrimEnd(t));
    UpsertIsStable(t, table, block);
    ContentOfTrimEnd(t);
    PartsOfContent(lines, table);
    PartsJoin(Content(t), HeaderTest(table));
    KeptHasNoRun(t);
    match PartsOf(lines, HeaderTest(table))
    case Present(b, _, _, a) =>
      var x := Collapse(Join(b + Split(block) + a));
      var pre, post := UpsertShape(t, table, block);
      assert x == once[..|x|] && Join(pre + Split(block) + post) == once[..|x|];
      CollapseIsIdempotent(Join(b + Split(block) + a));
      NoRunExtends(x);
    case Absent =>
      BlockFacts(table, block);
      NoRunOfAppended(t, block);
  }

  lemma KeptHasNoRun(t: string)
    ensures NoRun(t) ==> NoRun(Kept(t))
  {
    TrimEndIsPrefix(t);
    if NoRun(t) {
      NoRunPrefix(t, |TrimEnd(t)|);
      NoRunOfDrop(TrimEnd(t));
    }
  }

  lemma NoRunOfAppended(t: string, block: string)
    requires NoRun(block) && EndsInk(block) && block[0] != '\n'
    ensures NoRun(Kept(t) + Gap(t) + block + "\n") <==> NoRun(Kept(t))
  {
    var d, gap := Kept(t), Gap(t);
    TrimEndInk(t);
    DroppedEndsInk(TrimEnd(t));
    EndsWithInk(d + gap, block);
    if NoRun(d) {
      NoRunMeets(d, gap, block);
      NoRunExtends(d + gap + block);
    }
    var all := d + gap + block + "\n";
    assert all[..|d|] == d;
  }

  lemma RunLines()
    ensures Split("x\n\n\ny") == ["x", "", "", "y"]
  {
    SplitAtNewline("x", "\n\ny");
    SplitAtNewline("", "\ny");
    SplitAtNewline("", "y");
    SplitOfLine("x");
    SplitOfLine("y");
    assert "x" + "\n" + "\n\ny" == "x\n\n\ny" && "" + "\n" + "\ny" == "\n\ny" && "" + "\n" + "y" == "\ny";
  }

  lemma RunIsKept(t: string)
    requires t == "x\n\n\ny"
    ensures Kept(t) == t && !NoRun(t) && TrimEnd(t) == t
  {
    RunLines();
    JoinOfSplit(t);
    assert TrimEnd(t) == t && Trim("x") == "x";
    assert t[1] == '\n' && t[2] == '\n' && t[3] == '\n';
  }

  lemma NoTableInRun(t: string, table: string)
    requires t == "x\n\n\ny" && IsTable(table)
    ensures !HasTable(t, table)
  {
    RunLines();
    HeaderIsBare(table);
    assert Trim("x") == "x" && Trim("y") == "y" && Trim("") == "";
    forall l | l in Split(t) ensures !HeaderTest(table)(l) { assert l == "x" || l == "" || l == "y"; }
    NonBlankMembers(Split(t), HeaderTest(table));
  }

  /** A file with a run of newlines and without the table: the second upsert still changes it. */
  lemma RunNeedsSecondUpsert(table: string, block: string)
    requires IsTable(table) && IsBlock(table, block)
    ensures var once := UpsertTable("x\n\n\ny", table, block); UpsertTable(once, table, block) != once
  {
    RunIsKept("x\n\n\ny");
    NoTableInRun("x\n\n\ny", table);
    UpsertIsStableAtOnce("x\n\n\ny", table, block);
  }

  // ----- reading back -----

  lemma {:induction false} ReadBlankTail(lines: seq<string>, key: string)
    requires key != ""
    ensures ReadString(lines + [""], key) == ReadString(lines, key)
  {
    if lines == [] {
      assert lines + [""] == [""] && [""][1..] == [];
    } else {
      assert (lines + [""])[1..] == lines[1..] + [""];
      ReadBlankTail(lines[1..], key);
    }
  }

  /** Reading a table past a final blank line. */
  lemma ReadBetween(pre: seq<string>, b: seq<string>, post: seq<string>, table: string, key: string)
    requires IsTable(table) && b != [] && key != "" && AreParts(pre, b[0], b[1..], post, HeaderTest(table))
    ensures ReadString(TableLines(pre + b + post + [""], table), key) == ReadString(b[1..], key)
  {
    var h, body := HeaderTest(table), b[1..];
    HeadAndTail(pre, b, post);
    if post == [] {
      BlankIsNoHeader();
      ReadBlankTail(body, key);
      assert pre + ([b[0]] + (body + post)) + [""] == pre + ([b[0]] + ((body + [""]) + []));
      PartsAre(pre, b[0], body + [""], [], h);
    } else {
      assert pre + ([b[0]] + (body + post)) + [""] == pre + ([b[0]] + (body + (post + [""])));
      PartsAre(pre, b[0], body, post + [""], h);
    }
  }

  /** Whatever the file, reading a key of the written table reads it off the block's own lines. */
  lemma ReadAfterWrite(t: string, table: string, block: string, key: string)
    requires IsTable(table) && IsBlock(table, block) && key != ""
    ensures ReadTableString(UpsertTable(t, table, block), table, key) == ReadString(Split(block)[1..], key)
  {
    var pre, post := UpsertShape(t, table, block);
    ShapedLines(UpsertTable(t, table, block), table, pre, block, post);
    BlockFacts(table, block);
    ReadBetween(pre, Split(block), post, table, key);
  }

  lemma BlankIsNoHeader()
    ensures !IsBareHeader("")
  {
    assert Trim("") == "";
  }

  // ----- the other tables -----

  lemma PartsConcat(a: seq<string>, r: seq<string>, h: string -> bool)
    requires PartsOf(a, h).Present? && (r == [] || IsBareHeader(r[0]))
    ensures var p := PartsOf(a, h); PartsOf(a + r, h) == Present(p.before, p.header, p.body, p.after + r)
  {
    var p := PartsOf(a, h);
    PartsJoin(a, h);
    ExtendParts(p.before, [p.header], p.body, p.after, r);
    PartsAre(p.before, p.header, p.body, p.after + r, h);
  }

  lemma ExtendParts(b: seq<string>, x: seq<string>, m: seq<string>, a: seq<string>, r: seq<string>)
    ensures (b + (x + (m + a))) + r == b + (x + (m + (a + r)))
  {}

  lemma PartsAfter(a: seq<string>, r: seq<string>, h: string -> bool)
    requires PartsOf(a, h).Absent? && PartsOf(r, h).Present?
    ensures var p := PartsOf(r, h); PartsOf(a + r, h) == Present(a + p.before, p.header, p.body, p.after)
  {
    var p := PartsOf(r, h);
    PartsJoin(a, h);
    PartsJoin(r, h);
    Associates(a, p.before, [p.header] + (p.body + p.after));
    PartsAre(a + p.before, p.header, p.body, p.after, h);
  }

  lemma TableLinesConcat(a: seq<string>, r: seq<string>, table: string)
    requires r == [] || IsBareHeader(r[0])
    ensures TableLines(a + r, table) == if PartsOf(a, HeaderTest(table)).Absent? then TableLines(r, table) else TableLines(a, table)
  {
    var h := HeaderTest(table);
    if PartsOf(a, h).Present? {
      PartsConcat(a, r, h);
    } else if PartsOf(r, h).Present? {
      PartsAfter(a, r, h);
    }
  }

  lemma OtherHeader(l: string, table: string, other: string)
    requires table != other
    ensures HeaderTest(table)(l) ==> !HeaderTest(other)(l)
  {
    assert HeaderText(table)[1..|HeaderText(table)| - 1] == table;
    assert HeaderText(other)[1..|HeaderText(other)| - 1] == other;
  }

  /** A stretch that is one table has no other table. */
  lemma OneTableOnly(x: string, m: seq<string>, table: string, other: string)
    requires IsTable(other) && table != other && HeaderTest(table)(x) && NoHeader(m)
    ensures PartsOf([x] + m, HeaderTest(other)).Absent?
  {
    OtherHeader(x, table, other);
    HeaderIsBare(other);
    PartsJoin([x] + m, HeaderTest(other));
  }

  /** Other tables do not see which body a table has. */
  lemma OtherTableKept(a: seq<string>, x: string, m: seq<string>, x': string, m': seq<string>, r: seq<string>, table: string, other: string)
    requires IsTable(other) && table != other && IsTable(table)
    requires HeaderTest(table)(x) && HeaderTest(table)(x') && (r == [] || IsBareHeader(r[0]))
    requires NoHeader(m) && NoHeader(m')
    ensures TableLines(a + (([x] + m) + r), other) == TableLines(a + (([x'] + m') + r), other)
    ensures TableLines(a + ([x] + m), other) == TableLines(a, other)
  {
    HeaderIsBare(table);
    OneTableOnly(x, m, table, other);
    OneTableOnly(x', m', table, other);
    TableLinesConcat([x] + m, r, other);
    TableLinesConcat([x'] + m', r, other);
    TableLinesConcat(a, ([x] + m) + r, other);
    TableLinesConcat(a, ([x'] + m') + r, other);
    TableLinesConcat(a, [x] + m, other);
  }

  lemma TopOfConcat(a: seq<string>, r: seq<string>)
    requires r == [] || IsBareHeader(r[0])
    ensures Top(a + r) == Top(a)
  {
    var n := FirstIndex(a, IsBareHeader);
    assert forall j :: 0 <= j < |a| ==> (a + r)[j] == a[j];
    FirstIndexIs(a + r, IsBareHeader, n);
    assert (a + r)[..n] == a[..n];
  }

  /** The content after the upsert: the table's old lines replaced by the block's, or the block's at the end. */
  lemma ContentOfUpsert(t: string, table: string, block: string)
    requires IsTable(table) && IsBlock(table, block)
    ensures Content(UpsertTable(t, table, block)) == match PartsOf(Content(t), HeaderTest(table))
              case Absent => Content(t) + NonBlank(Split(block))
              case Present(b, _, _, a) => b + NonBlank(Split(block)) + a
  {
    var pre, post := UpsertShape(t, table, block);
    ShapedLines(UpsertTable(t, table, block), table, pre, block, post);
    NonBlankThree(pre, Split(block), post);
    EmptyConcat(Content(t) + NonBlank(Split(block)));
  }

  lemma NonBlankThree(a: seq<string>, b: seq<string>, c: seq<string>)
    ensures NonBlank(a + b + c + [""]) == NonBlank(a) + NonBlank(b) + NonBlank(c)
  {
    NonBlankConcat(a + b + c, [""]);
    NonBlankConcat(a + b, c);
    NonBlankConcat(a, b);
    NonBlankOne("");
    EmptyConcat(NonBlank(a + b + c));
  }

  lemma ContentOfBlock(table: string, block: string)
    requires IsTable(table) && IsBlock(table, block)
    ensures var c := NonBlank(Split(block));
            && c != [] && HeaderTest(table)(c[0]) && c == [c[0]] + c[1..] && NoHeader(c[1..])
  {
    var b := Split(block);
    BlockFacts(table, block);
    HeaderIsBare(table);
    BracketTests();
    InkHeader(b[0]);
    NonBlankConcat([b[0]], b[1..]);
    NonBlankOne(b[0]);
    NonBlankMembers(b[1..], IsBareHeader);
    assert forall j :: 0 <= j < |NonBlank(b[1..])| ==> NonBlank(b[1..])[j] in NonBlank(b[1..]);
    assert HeaderTest(table)(TrimEnd(b[0])) == HeaderTest(table)(b[0]);
    assert ([TrimEnd(b[0])] + NonBlank(b[1..]))[1..] == NonBlank(b[1..]);
  }

  lemma AppendedKeepsOthers(c: seq<string>, d: seq<string>, table: string, other: string)
    requires IsTable(table) && IsTable(other) && other != table
    requires d != [] && HeaderTest(table)(d[0]) && NoHeader(d[1..])
    ensures TableLines(c + d, other) == TableLines(c, other) && Top(c + d) == Top(c)
  {
    HeaderIsBare(table);
    assert d == [d[0]] + d[1..];
    OtherTableKept(c, d[0], d[1..], d[0], d[1..], [], table, other);
    TopOfConcat(c, d);
  }

  lemma ReplacedKeepsOthers(b: seq<string>, x: string, m: seq<string>, a: seq<string>, d: seq<string>, table: string, other: string)
    requires IsTable(table) && IsTable(other) && other != table && AreParts(b, x, m, a, HeaderTest(table))
    requires d != [] && HeaderTest(table)(d[0]) && NoHeader(d[1..])
    ensures TableLines(b + d + a, other) == TableLines(b + ([x] + (m + a)), other) && Top(b + d + a) == Top(b + ([x] + (m + a)))
  {
    HeaderIsBare(table);
    assert d == [d[0]] + d[1..];
    OtherTableKept(b, x, m, d[0], d[1..], a, table, other);
    Associates([x], m, a);
    Associates(b, d, a);
    TopOfConcat(b, ([x] + m) + a);
    TopOfConcat(b, d + a);
  }

  /** Writing a table changes no other table and nothing at top level. */
  lemma OthersKept(t: string, table: string, block: string, other: string)
    requires IsTable(table) && IsBlock(table, block) && IsTable(other) && other != table
    ensures TableLines(Content(UpsertTable(t, table, block)), other) == TableLines(Content(t), other)
    ensures Top(Content(UpsertTable(t, table, block))) == Top(Content(t))
  {
    var c, d, h := Content(t), NonBlank(Split(block)), HeaderTest(table);
    ContentOfUpsert(t, table, block);
    ContentOfBlock(table, block);
    PartsJoin(c, h);
    match PartsOf(c, h)
    case Absent => AppendedKeepsOthers(c, d, table, other);
    case Present(b, x, m, a) => ReplacedKeepsOthers(b, x, m, a, d, table, other);
  }
}
