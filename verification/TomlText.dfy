/**
 * Configuration files as text: splitting into lines, the newline-collapsing rewrites, and
 * the content of a file, its non-blank lines without trailing whitespace.
 */
module TomlText {
  import opened Text

  /** `split('\n')` */
  function Split(t: string): (r: seq<string>)
    ensures |r| >= 1
  {
    if t == [] then [""]
    else if t[0] == '\n' then [""] + Split(t[1..])
    else
      var r := Split(t[1..]);
      [[t[0]] + r[0]] + r[1..]
  }

  /** `join('\n')` */
  function Join(lines: seq<string>): string {
    if lines == [] then ""
    else if |lines| == 1 then lines[0]
    else lines[0] + "\n" + Join(lines[1..])
  }

  /** `replace(/\n{3,}/g, '\n\n')`, with `run` newlines just emitted. */
  function CollapseFrom(t: string, run: nat): string {
    if t == [] then []
    else if t[0] == '\n' then
      if run >= 2 then CollapseFrom(t[1..], run) else ['\n'] + CollapseFrom(t[1..], run + 1)
    else [t[0]] + CollapseFrom(t[1..], 0)
  }

  function Collapse(t: string): string {
    CollapseFrom(t, 0)
  }

  /** `replace(/^\n+/, '')` */
  function StripLeadingNewlines(t: string): string {
    if t != [] && t[0] == '\n' then StripLeadingNewlines(t[1..]) else t
  }

  /** `ensureTrailingNewline` */
  function EnsureTrailingNewline(t: string): string {
    var value := TrimEnd(t);
    if value != "" then value + "\n" else ""
  }

  // ----- content -----

  /** The non-blank lines, without trailing whitespace. */
  function NonBlank(lines: seq<string>): seq<string> {
    if lines == [] then []
    else (if TrimEnd(lines[0]) == "" then [] else [TrimEnd(lines[0])]) + NonBlank(lines[1..])
  }

  function Content(t: string): seq<string> {
    NonBlank(Split(t))
  }

  lemma {:induction false} NonBlankConcat(a: seq<string>, b: seq<string>)
    ensures NonBlank(a + b) == NonBlank(a) + NonBlank(b)
  {
    if a == [] {
      assert a + b == b;
    } else {
      assert (a + b)[1..] == a[1..] + b;
      NonBlankConcat(a[1..], b);
    }
  }

  lemma NonBlankOne(l: string)
    ensures NonBlank([l]) == if TrimEnd(l) == "" then [] else [TrimEnd(l)]
  {
    assert [l][1..] == [];
  }

  lemma {:induction false} SplitLines(t: string)
    ensures AreLines(Split(t))
  {
    if t != [] { SplitLines(t[1..]); }
  }

  lemma {:induction false} SplitOfLine(l: string)
    requires IsLine(l)
    ensures Split(l) == [l]
  {
    if l != [] {
      assert l[0] in l && IsLine(l[1..]);
      SplitOfLine(l[1..]);
      assert [l[0]] + l[1..] == l;
    }
  }

  lemma {:induction false} SplitAtNewline(a: string, b: string)
    ensures Split(a + "\n" + b) == Split(a) + Split(b)
  {
    if a == [] {
      assert ("" + "\n" + b)[1..] == b;
    } else {
      assert (a + "\n" + b)[1..] == a[1..] + "\n" + b;
      SplitAtNewline(a[1..], b);
    }
  }

  lemma {:induction false} SplitOfJoin(lines: seq<string>)
    requires lines != [] && AreLines(lines)
    ensures Split(Join(lines)) == lines
  {
    SplitOfLine(lines[0]);
    if |lines| == 1 {
      assert lines == [lines[0]];
    } else {
      SplitAtNewline(lines[0], Join(lines[1..]));
      SplitOfJoin(lines[1..]);
      assert lines == [lines[0]] + lines[1..];
    }
  }

  lemma {:induction false} JoinOfSplit(t: string)
    ensures Join(Split(t)) == t
  {
    if t != [] {
      JoinOfSplit(t[1..]);
      var r := Split(t[1..]);
      if t[0] == '\n' {
        assert ([""] + r)[1..] == r;
      } else if |r| == 1 {
        assert Split(t) == [[t[0]] + r[0]];
      } else {
        assert Split(t)[1..] == r[1..];
      }
    }
  }

  lemma ContentOfJoin(lines: seq<string>)
    requires AreLines(lines)
    ensures Content(Join(lines)) == NonBlank(lines)
  {
    if lines == [] {
      assert Split("") == [""];
      NonBlankOne("");
    } else {
      SplitOfJoin(lines);
    }
  }

  /** Collapsing newlines keeps the content. */
  lemma {:induction false} CollapseSplits(t: string, run: nat)
    ensures var s, c := Split(t), Split(CollapseFrom(t, run));
            && NonBlank(c) == NonBlank(s)
            && (run == 0 ==> c[0] == s[0] && NonBlank(c[1..]) == NonBlank(s[1..]))
    decreases |t|
  {
    if t != [] && t[0] == '\n' {
      var next := if run >= 2 then run else run + 1;
      CollapseSplits(t[1..], next);
      assert Split(t)[1..] == Split(t[1..]);
      if run < 2 {
        var c := CollapseFrom(t, run);
        assert c[1..] == CollapseFrom(t[1..], run + 1);
        assert Split(c)[1..] == Split(c[1..]);
      }
    } else if t != [] {
      CollapseSplits(t[1..], 0);
      var c := CollapseFrom(t, run);
      assert c[1..] == CollapseFrom(t[1..], 0);
      var r, s := Split(c[1..]), Split(t[1..]);
      assert Split(c) == [[t[0]] + r[0]] + r[1..] && Split(t) == [[t[0]] + s[0]] + s[1..];
      assert Split(c)[1..] == r[1..] && Split(t)[1..] == s[1..];
    }
  }

  lemma ContentOfCollapse(t: string)
    ensures Content(Collapse(t)) == Content(t)
  {
    CollapseSplits(t, 0);
  }

  lemma {:induction false} ContentOfStripLeading(t: string)
    ensures Content(StripLeadingNewlines(t)) == Content(t)
  {
    if t != [] && t[0] == '\n' {
      ContentOfStripLeading(t[1..]);
      assert Split(t)[1..] == Split(t[1..]);
    }
  }

  lemma {:induction false} SplitSnoc(u: string, c: char)
    requires c != '\n'
    ensures var s := Split(u); Split(u + [c]) == s[..|s| - 1] + [s[|s| - 1] + [c]]
  {
    if u == [] {
      SplitOfLine([c]);
      assert [] + [c] == [c];
    } else {
      assert (u + [c])[1..] == u[1..] + [c];
      SplitSnoc(u[1..], c);
      SnocHead(u[0], Split(u[1..]), c);
    }
  }

  /** Extending the last line and extending the first one do not interfere. */
  lemma SnocHead(h: char, r: seq<string>, c: char)
    requires r != []
    ensures var r' := r[..|r| - 1] + [r[|r| - 1] + [c]];
            var nl, s := [""] + r, [[h] + r[0]] + r[1..];
            && [""] + r' == nl[..|nl| - 1] + [nl[|nl| - 1] + [c]]
            && [[h] + r'[0]] + r'[1..] == s[..|s| - 1] + [s[|s| - 1] + [c]]
  {
    var r' := r[..|r| - 1] + [r[|r| - 1] + [c]];
    if |r| == 1 {
      assert [h] + (r[0] + [c]) == [h] + r[0] + [c];
    } else {
      assert r'[0] == r[0] && r'[1..] == r[1..][..|r| - 2] + [r[|r| - 1] + [c]];
    }
  }

  lemma ContentOfSpace(u: string, c: char)
    requires IsSpace(c)
    ensures Content(u + [c]) == Content(u)
  {
    var s := Split(u);
    var front, last := s[..|s| - 1], s[|s| - 1];
    assert s == front + [last];
    if c == '\n' {
      SplitAtNewline(u, "");
      assert u + "\n" + "" == u + [c];
      NonBlankConcat(s, [""]);
      NonBlankOne("");
    } else {
      SplitSnoc(u, c);
      NonBlankConcat(front, [last]);
      NonBlankConcat(front, [last + [c]]);
      NonBlankOne(last);
      NonBlankOne(last + [c]);
    }
  }

  lemma {:induction false} ContentOfTrimEnd(t: string)
    ensures Content(TrimEnd(t)) == Content(t)
  {
    if t != [] && IsSpace(t[|t| - 1]) {
      ContentOfTrimEnd(t[..|t| - 1]);
      ContentOfSpace(t[..|t| - 1], t[|t| - 1]);
      assert t == t[..|t| - 1] + [t[|t| - 1]];
    }
  }

  lemma ContentOfEnsured(t: string)
    ensures Content(EnsureTrailingNewline(t)) == Content(t)
  {
    ContentOfTrimEnd(t);
    if TrimEnd(t) != "" {
      ContentOfSpace(TrimEnd(t), '\n');
      assert TrimEnd(t) + "\n" == TrimEnd(t) + ['\n'];
    }
  }

  lemma TrimEndIsFixed(l: string)
    ensures TrimEnd(TrimEnd(l)) == TrimEnd(l)
  {
    TrimEndIsPrefix(l);
  }

  lemma {:induction false} ContentHasNoBlank(lines: seq<string>)
    ensures forall l :: l in NonBlank(lines) ==> l != "" && TrimEnd(l) == l
  {
    if lines != [] {
      ContentHasNoBlank(lines[1..]);
      TrimEndIsFixed(lines[0]);
    }
  }

  // ----- line tests, the same on a line and on its content -----

  /** `/^\s*\[/` */
  predicate StartsBracket(l: string) {
    OpensBracket(Trim(l))
  }

  predicate OpensBracket(t: string) {
    t != "" && t[0] == '['
  }

  predicate IsTerminator(c: char) {
    c == '\n' || c == '\r' || c as int == 0x2028 || c as int == 0x2029
  }

  /** `/^\s*\[.+\]\s*$/` */
  predicate IsBareHeader(l: string) {
    IsHeaderText(Trim(l))
  }

  predicate IsHeaderText(t: string) {
    |t| >= 3 && t[0] == '[' && t[|t| - 1] == ']' && forall i :: 1 <= i < |t| - 1 ==> !IsTerminator(t[i])
  }

  /** `/^\s*key\s*=/`, on the trimmed line */
  predicate BindsKey(t: string, key: string) {
    StartsWith(t, key) && (var r := TrimStart(t[|key|..]); r != "" && r[0] == '=')
  }

  /** A test that only looks at the line without its trailing whitespace. */
  ghost predicate IgnoresTail(p: string -> bool) {
    forall l {:trigger p(TrimEnd(l))} :: p(TrimEnd(l)) == p(l)
  }

  lemma TrimIgnoresTail(l: string)
    ensures Trim(TrimEnd(l)) == Trim(l)
  {
    TrimEndIsFixed(l);
  }

  function FirstQuote(s: string): (i: nat)
    ensures i <= |s| && (i < |s| ==> s[i] == '"') && forall j :: 0 <= j < i ==> s[j] != '"'
  {
    if s == [] || s[0] == '"' then 0 else 1 + FirstQuote(s[1..])
  }

  // ----- filtering and cutting line lists -----

  function Without(lines: seq<string>, p: string -> bool): seq<string> {
    if lines == [] then []
    else if p(lines[0]) then Without(lines[1..], p)
    else [lines[0]] + Without(lines[1..], p)
  }

  /** `findIndex`, with the length for "not found". */
  function FirstIndex(lines: seq<string>, p: string -> bool): (i: nat)
    ensures i <= |lines| && (i < |lines| ==> p(lines[i]))
    ensures forall j :: 0 <= j < i ==> !p(lines[j])
  {
    if lines == [] || p(lines[0]) then 0 else 1 + FirstIndex(lines[1..], p)
  }

  lemma WithoutOne(l: string, p: string -> bool)
    ensures Without([l], p) == if p(l) then [] else [l]
  {
    assert [l][1..] == [];
  }

  lemma {:induction false} WithoutConcat(a: seq<string>, b: seq<string>, p: string -> bool)
    ensures Without(a + b, p) == Without(a, p) + Without(b, p)
  {
    if a == [] {
      assert a + b == b;
    } else {
      assert (a + b)[1..] == a[1..] + b;
      WithoutConcat(a[1..], b, p);
    }
  }

  lemma {:induction false} NonBlankOfWithout(lines: seq<string>, p: string -> bool)
    requires IgnoresTail(p)
    ensures NonBlank(Without(lines, p)) == Without(NonBlank(lines), p)
  {
    if lines != [] {
      var l, rest := lines[0], lines[1..];
      NonBlankOfWithout(rest, p);
      assert p(TrimEnd(l)) == p(l);
      NonBlankConcat([l], Without(rest, p));
      NonBlankOne(l);
      WithoutConcat(NonBlank([l]), NonBlank(rest), p);
      WithoutOne(TrimEnd(l), p);
    }
  }

  lemma {:induction false} WithoutKeepsLines(lines: seq<string>, p: string -> bool)
    ensures forall l :: l in Without(lines, p) <==> l in lines && !p(l)
    ensures AreLines(lines) ==> AreLines(Without(lines, p))
  {
    if lines != [] {
      WithoutKeepsLines(lines[1..], p);
      assert lines == [lines[0]] + lines[1..];
      if AreLines(lines) {
        assert forall i :: 0 <= i < |lines[1..]| ==> lines[1..][i] == lines[i + 1];
        assert AreLines(lines[1..]) && IsLine(lines[0]);
      }
    }
  }

  lemma {:induction false} WithoutNothing(lines: seq<string>, p: string -> bool)
    requires forall l :: l in lines ==> !p(l)
    ensures Without(lines, p) == lines
  {
    if lines != [] {
      assert lines[0] in lines;
      WithoutNothing(lines[1..], p);
    }
  }

  lemma {:induction false} NonBlankMembers(lines: seq<string>, p: string -> bool)
    requires IgnoresTail(p) && forall i :: 0 <= i < |lines| ==> !p(lines[i])
    ensures forall l :: l in NonBlank(lines) ==> !p(l)
  {
    if lines != [] { NonBlankMembers(lines[1..], p); }
  }

  /** A test that never holds of blank lines and ignores trailing whitespace. */
  ghost predicate IsLineTest(p: string -> bool) {
    IgnoresTail(p) && !p("")
  }

  lemma FirstIndexSkips(l: string, rest: seq<string>, h: string -> bool)
    requires !h(l)
    ensures var n := FirstIndex(rest, h);
            && FirstIndex([l] + rest, h) == n + 1
            && ([l] + rest)[..n + 1] == [l] + rest[..n] && ([l] + rest)[n + 1..] == rest[n..]
  {
    assert ([l] + rest)[1..] == rest;
  }

  ghost predicate CutsAlike(lines: seq<string>, c: seq<string>, h: string -> bool) {
    var i, j := FirstIndex(lines, h), FirstIndex(c, h);
    NonBlank(lines[..i]) == c[..j] && NonBlank(lines[i..]) == c[j..]
  }

  lemma CutsAfterHead(l: string, rest: seq<string>, c: seq<string>, h: string -> bool)
    requires !h(l) && !h(TrimEnd(l)) && CutsAlike(rest, c, h)
    ensures CutsAlike([l] + rest, NonBlank([l]) + c, h)
  {
    var i := FirstIndex(rest, h);
    FirstIndexSkips(l, rest, h);
    NonBlankConcat([l], rest[..i]);
    NonBlankOne(l);
    if TrimEnd(l) != "" {
      FirstIndexSkips(TrimEnd(l), c, h);
    } else {
      assert NonBlank([l]) + c == c;
    }
  }

  /** Cutting at the first line that passes a test commutes with taking the content. */
  lemma {:induction false} CutOfContent(lines: seq<string>, h: string -> bool)
    requires IsLineTest(h)
    ensures CutsAlike(lines, NonBlank(lines), h)
  {
    if lines != [] {
      var l, rest := lines[0], lines[1..];
      assert h(TrimEnd(l)) == h(l);
      assert lines == [l] + rest;
      NonBlankConcat([l], rest);
      NonBlankOne(l);
      if !h(l) {
        CutOfContent(rest, h);
        CutsAfterHead(l, rest, NonBlank(rest), h);
      }
    }
  }

  /** A test on the trimmed line. */
  function OnTrim(q: string -> bool): string -> bool {
    (l: string) => q(Trim(l))
  }

  lemma OnTrimIsLineTest(q: string -> bool)
    requires !q("")
    ensures IsLineTest(OnTrim(q))
  {
    var p := OnTrim(q);
    forall l: string ensures p(TrimEnd(l)) == p(l) { TrimIgnoresTail(l); }
    assert Trim("") == "";
  }

  function Binds(key: string): string -> bool {
    (t: string) => BindsKey(t, key)
  }

  function Equals(target: string): string -> bool {
    (t: string) => t == target
  }

  /** The test for a line that binds `key`, and for a line that is `target`. */
  function KeyTest(key: string): string -> bool {
    OnTrim(Binds(key))
  }

  function TargetTest(target: string): string -> bool {
    OnTrim(Equals(target))
  }

  lemma LineTests(key: string, target: string)
    requires target != "" && key != ""
    ensures IsLineTest(KeyTest(key)) && IsLineTest(TargetTest(target))
  {
    assert !Binds(key)("") && !Equals(target)("");
    OnTrimIsLineTest(Binds(key));
    OnTrimIsLineTest(Equals(target));
  }

  lemma BracketTests()
    ensures IsLineTest(StartsBracket) && IsLineTest(IsBareHeader)
  {
    forall l: string ensures Trim(TrimEnd(l)) == Trim(l) { TrimIgnoresTail(l); }
  }

  lemma {:induction false} FirstIndexIs(lines: seq<string>, h: string -> bool, n: nat)
    requires n <= |lines| && (forall j :: 0 <= j < n ==> !h(lines[j])) && (n < |lines| ==> h(lines[n]))
    ensures FirstIndex(lines, h) == n
  {
    if n > 0 {
      assert !h(lines[0]);
      FirstIndexIs(lines[1..], h, n - 1);
    }
  }

  lemma {:induction false} AbsentInLines(lines: seq<string>, p: string -> bool)
    requires IsLineTest(p) && forall l :: l in NonBlank(lines) ==> !p(l)
    ensures forall i :: 0 <= i < |lines| ==> !p(lines[i])
  {
    if lines != [] {
      var l, rest := lines[0], lines[1..];
      NonBlankOne(l);
      NonBlankConcat([l], rest);
      assert lines == [l] + rest;
      assert p(TrimEnd(l)) == p(l);
      AbsentInLines(rest, p);
    }
  }
}
