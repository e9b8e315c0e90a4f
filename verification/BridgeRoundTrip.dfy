/** Managing and then unmanaging a configuration file gives its own lines back. */
module BridgeRoundTrip {
  import opened Sequences
  import opened Text
  import opened TomlText
  import opened BridgeConfig

  // ----- where top level ends -----

  /** The content lines before the first one that opens a bracket, and the others. */
  function Zone(c: seq<string>): seq<string> {
    c[..FirstIndex(c, StartsBracket)]
  }

  function Tail(c: seq<string>): seq<string> {
    c[FirstIndex(c, StartsBracket)..]
  }

  /** The first line that opens a bracket, if any, is a bare table header: all three end-of-top-level tests agree. */
  predicate Agree(c: seq<string>) {
    Tail(c) == [] || IsBareHeader(Tail(c)[0])
  }

  /** One of the tests for the end of top level. */
  ghost predicate IsCut(h: string -> bool) {
    IsLineTest(h) && forall l :: (IsBareHeader(l) ==> h(l)) && (h(l) ==> StartsBracket(l))
  }

  lemma CutTests()
    ensures IsCut(StartsBracket) && IsCut(IsBareHeader)
  {
    BracketTests();
  }

  predicate NoBracket(a: seq<string>) {
    forall i :: 0 <= i < |a| ==> !StartsBracket(a[i])
  }

  lemma ZoneOf(a: seq<string>, t: seq<string>)
    requires NoBracket(a) && (t != [] ==> StartsBracket(t[0]))
    ensures Zone(a + t) == a && Tail(a + t) == t
  {
    FirstIndexIs(a + t, StartsBracket, |a|);
  }

  lemma ZoneSplits(c: seq<string>)
    ensures c == Zone(c) + Tail(c) && NoBracket(Zone(c)) && (Tail(c) != [] ==> StartsBracket(Tail(c)[0]))
  {}

  // ----- removing lines -----

  lemma {:induction false} WithoutKeepsNoBracket(a: seq<string>, p: string -> bool)
    requires NoBracket(a)
    ensures NoBracket(Without(a, p))
  {
    WithoutKeepsLines(a, p);
    var r := Without(a, p);
    forall i | 0 <= i < |r| ensures !StartsBracket(r[i]) { assert r[i] in r; }
  }

  lemma ContentOfRemoveTop(t: string, h: string -> bool, p: string -> bool)
    requires IsLineTest(h) && IgnoresTail(p)
    ensures var c := Content(t);
            Content(RemoveTop(t, h, p)) == Without(c[..FirstIndex(c, h)], p) + c[FirstIndex(c, h)..]
  {
    var lines := Split(t);
    var end := FirstIndex(lines, h);
    SplitLines(t);
    var kept := Without(lines[..end], p);
    WithoutKeepsLines(lines[..end], p);
    assert AreLines(lines[..end]) && AreLines(lines[end..]);
    AreLinesConcat(kept, lines[end..]);
    ContentOfJoin(kept + lines[end..]);
    ContentOfStripLeading(Join(kept + lines[end..]));
    ContentOfCollapse(StripLeadingNewlines(Join(kept + lines[end..])));
    NonBlankConcat(kept, lines[end..]);
    NonBlankOfWithout(lines[..end], p);
    CutOfContent(lines, h);
  }

  lemma WithoutZoneParts(z: seq<string>, m: seq<string>, r: seq<string>, p: string -> bool)
    requires NoBracket(z) && (m != [] ==> StartsBracket(m[0]) && !p(m[0]) && !IsBareHeader(m[0]))
    requires m == [] && r != [] ==> StartsBracket(r[0])
    ensures var c, c' := z + (m + r), Without(z + m, p) + r;
            && Zone(c) == z && Tail(c) == m + r
            && Zone(c') == Without(z, p)
            && (Agree(c') <==> Agree(c))
            && (Agree(c) ==> Tail(c') == Tail(c))
  {
    ZoneOf(z, m + r);
    WithoutConcat(z, m, p);
    WithoutKeepsNoBracket(z, p);
    ZoneOf(Without(z, p), Without(m, p) + r);
    Associates(Without(z, p), Without(m, p), r);
  }

  lemma ThreeParts(c: seq<string>, i: nat, j: nat)
    requires i <= j <= |c|
    ensures c[..j] == c[..i] + c[i..j] && c == c[..i] + (c[i..j] + c[j..])
    ensures i < j ==> c[i..j] != [] && c[i..j][0] == c[i]
    ensures i == j ==> c[i..j] == []
    ensures j < |c| ==> c[j..] != [] && c[j..][0] == c[j]
  {}

  lemma CutIsLater(c: seq<string>, h: string -> bool)
    requires IsCut(h)
    ensures var i, j := FirstIndex(c, StartsBracket), FirstIndex(c, h);
            && i <= j && (i < j ==> !h(c[i]) && StartsBracket(c[i]))
            && (j < |c| ==> h(c[j]) && StartsBracket(c[j]))
  {
    var i, j := FirstIndex(c, StartsBracket), FirstIndex(c, h);
    assert j < |c| ==> h(c[j]) && StartsBracket(c[j]);
  }

  /** On content: removing in front of a later cut leaves the bracket line that ends the zone in place. */
  lemma WithoutZone(c: seq<string>, h: string -> bool, p: string -> bool)
    requires IsCut(h) && forall l :: StartsBracket(l) ==> !p(l)
    ensures var c' := Without(c[..FirstIndex(c, h)], p) + c[FirstIndex(c, h)..];
            && Zone(c') == Without(Zone(c), p)
            && (Agree(c') <==> Agree(c))
            && (Agree(c) ==> Tail(c') == Tail(c))
  {
    var i, j := FirstIndex(c, StartsBracket), FirstIndex(c, h);
    CutIsLater(c, h);
    var z, m, r := c[..i], c[i..j], c[j..];
    ThreeParts(c, i, j);
    WithoutZoneParts(z, m, r, p);
  }

  lemma RemoveTopZone(t: string, h: string -> bool, p: string -> bool)
    requires IsCut(h) && IgnoresTail(p) && forall l :: StartsBracket(l) ==> !p(l)
    ensures var c, c' := Content(t), Content(RemoveTop(t, h, p));
            && Zone(c') == Without(Zone(c), p)
            && (Agree(c') <==> Agree(c))
            && (Agree(c) ==> Tail(c') == Tail(c))
  {
    ContentOfRemoveTop(t, h, p);
    WithoutZone(Content(t), h, p);
  }

  // ----- inserting lines -----

  /** A line that is its own content and opens no bracket. */
  predicate IsPlainLine(line: string) {
    IsLine(line) && line != "" && TrimEnd(line) == line && !StartsBracket(line)
  }

  lemma ContentOfInsert(lines: seq<string>, n: nat, line: string)
    requires AreLines(lines) && n <= |lines| && IsPlainLine(line)
    ensures Content(Join(lines[..n] + [line] + lines[n..])) == NonBlank(lines[..n]) + [line] + NonBlank(lines[n..])
  {
    AreLinesConcat(lines[..n], [line]);
    AreLinesConcat(lines[..n] + [line], lines[n..]);
    ContentOfJoin(lines[..n] + [line] + lines[n..]);
    NonBlankConcat(lines[..n] + [line], lines[n..]);
    NonBlankConcat(lines[..n], [line]);
    NonBlankOne(line);
  }

  /** Lists of lines that agree up to the line that ends the zone have the same zone. */
  lemma SharedPrefix(lines: seq<string>, lines': seq<string>, n: nat)
    requires n < |lines| && n < |lines'| && lines'[..n + 1] == lines[..n + 1]
    requires StartsBracket(lines[n]) && FirstIndex(lines, StartsBracket) == n
    ensures Zone(NonBlank(lines')) == Zone(NonBlank(lines)) && (Agree(NonBlank(lines')) <==> IsBareHeader(lines[n]))
    ensures Agree(NonBlank(lines)) <==> IsBareHeader(lines[n])
  {
    BracketTests();
    assert forall j :: 0 <= j <= n ==> lines'[j] == lines'[..n + 1][j] == lines[..n + 1][j] == lines[j];
    FirstIndexIs(lines', StartsBracket, n);
    assert lines'[..n] == lines[..n];
    ZoneOfLines(lines, n);
    ZoneOfLines(lines', n);
  }

  lemma {:induction false} BracketLine(l: string)
    requires StartsBracket(l)
    ensures TrimEnd(l) != "" && StartsBracket(TrimEnd(l)) && IsBareHeader(TrimEnd(l)) == IsBareHeader(l)
  {
    TrimIgnoresTail(l);
    assert Trim("") == "";
  }

  lemma HeadOfContent(l: string, rest: seq<string>)
    requires TrimEnd(l) != ""
    ensures NonBlank([l] + rest) == [TrimEnd(l)] + NonBlank(rest)
  {
    NonBlankOne(l);
    NonBlankConcat([l], rest);
  }

  lemma TailOfLines(lines: seq<string>, n: nat)
    requires n < |lines| && StartsBracket(lines[n])
    ensures NonBlank(lines[n..]) != [] && NonBlank(lines[n..])[0] == TrimEnd(lines[n])
  {
    BracketLine(lines[n]);
    HeadOfContent(lines[n], lines[n + 1..]);
    assert lines[n..] == [lines[n]] + lines[n + 1..];
  }

  lemma ZoneCut(lines: seq<string>)
    ensures var n := FirstIndex(lines, StartsBracket);
            NonBlank(lines[..n]) == Zone(NonBlank(lines)) && NonBlank(lines[n..]) == Tail(NonBlank(lines))
  {
    CutTests();
    CutOfContent(lines, StartsBracket);
  }

  lemma ZoneOfLines(lines: seq<string>, n: nat)
    requires FirstIndex(lines, StartsBracket) == n
    ensures NonBlank(lines[..n]) == Zone(NonBlank(lines)) && NonBlank(lines[n..]) == Tail(NonBlank(lines))
    ensures n < |lines| ==> Tail(NonBlank(lines)) != [] && Tail(NonBlank(lines))[0] == TrimEnd(lines[n])
    ensures n == |lines| ==> Tail(NonBlank(lines)) == []
    ensures Agree(NonBlank(lines)) <==> n == |lines| || IsBareHeader(lines[n])
  {
    ZoneCut(lines);
    if n < |lines| {
      TailOfLines(lines, n);
      BracketLine(lines[n]);
    } else {
      assert lines[n..] == [] && NonBlank([]) == [];
    }
  }

  /** What inserting a line before the first bare header does to the content. */
  lemma ContentOfInserted(lines: seq<string>, n: nat, line: string)
    requires AreLines(lines) && n <= |lines| && IsPlainLine(line)
    ensures AreLines(lines[..n] + [line] + lines[n..])
    ensures Content(Collapse(StripLeadingNewlines(Join(lines[..n] + [line] + lines[n..]))))
         == NonBlank(lines[..n] + [line] + lines[n..]) == NonBlank(lines[..n]) + [line] + NonBlank(lines[n..])
  {
    var inserted := lines[..n] + [line] + lines[n..];
    AreLinesConcat(lines[..n], [line]);
    AreLinesConcat(lines[..n] + [line], lines[n..]);
    ContentOfJoin(inserted);
    ContentOfInsert(lines, n, line);
    ContentOfStripLeading(Join(inserted));
    ContentOfCollapse(StripLeadingNewlines(Join(inserted)));
  }

  lemma InsertedZone(c: seq<string>, line: string)
    requires !StartsBracket(line)
    ensures var c' := Zone(c) + [line] + Tail(c);
            Zone(c') == Zone(c) + [line] && Tail(c') == Tail(c) && (Agree(c') <==> Agree(c))
  {
    ZoneSplits(c);
    ZoneOf(Zone(c) + [line], Tail(c));
  }

  /** When the cuts differ, the upsert leaves every line up to the first bracket line alone. */
  lemma UpsertBeyondZone(lines: seq<string>, n: nat, end: nat, line: string, i: nat) returns (lines': seq<string>)
    requires AreLines(lines) && IsPlainLine(line) && n < i <= end <= |lines|
    ensures |lines'| > n && lines'[..n + 1] == lines[..n + 1]
    ensures NonBlank(lines') == Content(if i < end then Collapse(Join(lines[i := line]))
                                        else Collapse(StripLeadingNewlines(Join(lines[..end] + [line] + lines[end..]))))
  {
    if i < end {
      lines' := lines[i := line];
      ContentOfJoin(lines');
      ContentOfCollapse(Join(lines'));
    } else {
      lines' := lines[..end] + [line] + lines[end..];
      ContentOfInserted(lines, end, line);
    }
  }

  /** Where the upsert of a key that no zone line binds takes place. */
  lemma UpsertPosition(lines: seq<string>, key: string) returns (n: nat, end: nat, i: nat)
    requires key != "" && key[0] != '['
    requires forall l :: l in Zone(NonBlank(lines)) ==> !KeyTest(key)(l)
    ensures n == FirstIndex(lines, StartsBracket) && end == FirstIndex(lines, IsBareHeader)
    ensures i == FirstIndex(lines[..end], KeyTest(key))
    ensures n <= end <= |lines| && (n == end ==> i == end) && (n < end ==> n < i <= end && StartsBracket(lines[n]) && !IsBareHeader(lines[n]))
    ensures Agree(NonBlank(lines)) <==> n == end
  {
    n, end := FirstIndex(lines, StartsBracket), FirstIndex(lines, IsBareHeader);
    i := FirstIndex(lines[..end], KeyTest(key));
    CutTests();
    CutIsLater(lines, IsBareHeader);
    ZoneOfLines(lines, n);
    LineTests(key, "x");
    AbsentInLines(lines[..n], KeyTest(key));
    if n == end {
      FirstIndexIs(lines[..end], KeyTest(key), end);
    } else {
      BracketBindsNothing(lines[n], key);
      KeyComesLater(lines, n, end, key);
    }
  }

  /** Binding a key that no zone line binds appends a line to the zone when the tests agree, and misses the zone otherwise. */
  lemma UpsertZone(t: string, key: string, value: string)
    requires key != "" && key[0] != '[' && IsPlainLine(KeyText(key, value))
    requires forall l :: l in Zone(Content(t)) ==> !KeyTest(key)(l)
    ensures var c, c' := Content(t), Content(UpsertTop(t, key, value));
            && (Agree(c') <==> Agree(c))
            && Zone(c') == Zone(c) + (if Agree(c) then [KeyText(key, value)] else [])
            && (Agree(c) ==> Tail(c') == Tail(c))
  {
    var line, lines := KeyText(key, value), Split(t);
    SplitLines(t);
    var n, end, i := UpsertPosition(lines, key);
    if n == end {
      ContentOfInserted(lines, n, line);
      ZoneOfLines(lines, n);
      InsertedZone(Content(t), line);
    } else {
      var lines' := UpsertBeyondZone(lines, n, end, line, i);
      SharedPrefix(lines, lines', n);
    }
  }

  lemma BracketBindsNothing(l: string, key: string)
    requires key != "" && key[0] != '['
    ensures StartsBracket(l) ==> !KeyTest(key)(l)
  {
    var t := Trim(l);
    if StartsWith(t, key) { assert t[0] == t[..|key|][0] == key[0]; }
  }

  lemma KeyComesLater(lines: seq<string>, n: nat, end: nat, key: string)
    requires n < end <= |lines| && !KeyTest(key)(lines[n])
    requires forall i :: 0 <= i < n ==> !KeyTest(key)(lines[..n][i])
    ensures FirstIndex(lines[..end], KeyTest(key)) > n
  {
    assert forall j :: 0 <= j < n ==> lines[..n][j] == lines[j];
    assert forall j :: 0 <= j < end ==> lines[..end][j] == lines[j];
  }

  lemma MarkedContent(t: string, key: string, marker: string, a: seq<string>, k: string)
    requires key != "" && marker != "" && IsPlainLine(marker)
    requires Zone(Content(t)) == a + [k] && KeyTest(key)(k)
    requires forall l :: l in a ==> !KeyTest(key)(l)
    requires forall l :: l in a + [k] ==> !TargetTest(marker)(l)
    ensures Content(AddMarker(t, key, marker)) == a + [marker] + ([k] + Tail(Content(t)))
  {
    var lines := Split(t);
    var end := FirstIndex(lines, StartsBracket);
    var top := lines[..end];
    SplitLines(t);
    ZoneOfLines(lines, end);
    LineTests(key, marker);
    AbsentInLines(top, TargetTest(marker));
    FirstIndexIs(top, TargetTest(marker), end);
    MarkerPosition(top, key, a, k);
    var i := FirstIndex(top, KeyTest(key));
    TwoCuts(lines, i, end);
    ContentOfInsert(lines, i, marker);
    NonBlankConcat(top[i..], lines[end..]);
  }

  lemma TwoCuts(lines: seq<string>, i: nat, end: nat)
    requires i <= end <= |lines|
    ensures lines[..i] == lines[..end][..i] && lines[i..] == lines[..end][i..] + lines[end..]
  {}

  /** Marking a key bound by the last zone line puts the marker in front of that line. */
  lemma MarkerZone(t: string, key: string, marker: string, a: seq<string>, k: string)
    requires key != "" && marker != "" && IsPlainLine(marker)
    requires Zone(Content(t)) == a + [k] && KeyTest(key)(k)
    requires forall l :: l in a ==> !KeyTest(key)(l)
    requires forall l :: l in a + [k] ==> !TargetTest(marker)(l)
    ensures var c, c' := Content(t), Content(AddMarker(t, key, marker));
            Zone(c') == a + [marker, k] && Tail(c') == Tail(c) && (Agree(c') <==> Agree(c))
  {
    MarkedContent(t, key, marker, a, k);
    MarkedZone(a, marker, k, Content(t));
  }

  lemma MarkerPosition(top: seq<string>, key: string, a: seq<string>, k: string)
    requires key != "" && NonBlank(top) == a + [k] && KeyTest(key)(k) && forall l :: l in a ==> !KeyTest(key)(l)
    ensures var i := FirstIndex(top, KeyTest(key));
            i < |top| && NonBlank(top[..i]) == a && NonBlank(top[i..]) == [k]
  {
    LineTests(key, "x");
    CutOfContent(top, KeyTest(key));
    FirstIndexIs(a + [k], KeyTest(key), |a|);
    assert (a + [k])[..|a|] == a && (a + [k])[|a|..] == [k];
    var i := FirstIndex(top, KeyTest(key));
    assert NonBlank(top[i..]) == [k];
  }

  lemma MarkedNoBracket(a: seq<string>, marker: string, k: string)
    requires NoBracket(a + [k]) && !StartsBracket(marker)
    ensures NoBracket(a + [marker, k])
  {
    assert (a + [k])[|a|] == k;
    assert forall i :: 0 <= i < |a| ==> (a + [k])[i] == a[i];
  }

  lemma MarkedZone(a: seq<string>, marker: string, k: string, c: seq<string>)
    requires Zone(c) == a + [k] && !StartsBracket(marker)
    ensures var c' := a + [marker] + ([k] + Tail(c));
            Zone(c') == a + [marker, k] && Tail(c') == Tail(c)
  {
    ZoneSplits(c);
    MarkedNoBracket(a, marker, k);
    ZoneOf(a + [marker, k], Tail(c));
    assert a + [marker] + ([k] + Tail(c)) == a + [marker, k] + Tail(c);
  }

  /** Marking a key that no zone line binds changes nothing. */
  lemma MarkerMisses(t: string, key: string, marker: string)
    requires key != "" && forall l :: l in Zone(Content(t)) ==> !KeyTest(key)(l)
    ensures AddMarker(t, key, marker) == t
  {
    var lines := Split(t);
    var end := FirstIndex(lines, StartsBracket);
    ZoneOfLines(lines, end);
    LineTests(key, "x");
    AbsentInLines(lines[..end], KeyTest(key));
    FirstIndexIs(lines[..end], KeyTest(key), end);
    JoinOfSplit(t);
  }

  /**
   * The code ends top level in three ways: at the first line opening a bracket, at the
   * first bare header, and, for reading, at the first such line after line one. The first
   * two agree exactly when the first bracket line is a bare header, the first and the
   * third exactly when line one opens no bracket.
   */
  lemma EndsOfTopLevelAgree(t: string)
    ensures var lines := Split(t);
            var n := FirstIndex(lines, StartsBracket);
            && (n == FirstIndex(lines, IsBareHeader) <==> Agree(Content(t)))
            && (ReadableTop(t) == lines[..n] <==> !StartsBracket(lines[0]))
  {
    var lines := Split(t);
    CutTests();
    CutIsLater(lines, IsBareHeader);
    ZoneOfLines(lines, FirstIndex(lines, StartsBracket));
    assert |ReadableTop(t)| > 0;
  }
}
