/** Scripts put together from complete ones: their features follow one another, and their level ignores the order. */
module SqlScripts {
  import opened Sequences
  import opened Text
  import opened SqlScanner
  import opened SqlStatements
  import opened SqlClassifier

  predicate EndsInSemicolon(s: string) {
    s != "" && s[|s| - 1] == ';'
  }

  /** Text that ends with a cut. */
  predicate EndsInCut(t: string) {
    EndsInSemicolon(t) && QuoteAt(t, |t|).Outside?
  }

  /** A script that opens no block comment it does not close, and ends with a semicolon outside comments and quotations. */
  predicate IsClosed(x: string) {
    && EndsInSemicolon(x)
    && !HasPair(StripBlocks(x), '/', '*')
    && EndsInSemicolon(StripLines(StripBlocks(x)))
    && EndsInCut(StripSqlComments(x))
  }

  /** Clean text is closed when it ends with a cut and opens no block comment. */
  lemma CleanIsClosed(x: string)
    requires Clean(x) && !HasPair(x, '/', '*') && EndsInCut(x)
    ensures IsClosed(x)
  {
    BlocksOrFixed(x);
    PairOrFixed(x);
    StripFixesClean(x);
  }

  // ----- stripping behind a closed script -----

  lemma HeadOfConcat(x: string, y: string)
    requires x != ""
    ensures (x + y)[0] == x[0] && (x + y)[1..] == x[1..] + y && [x[0]] + x[1..] == x
  {}

  lemma TailOfConcat(x: string, y: string, k: nat)
    requires k <= |x|
    ensures (x + y)[k..] == x[k..] + y
    ensures k < |x| ==> x[k..] != "" && x[k..][|x[k..]| - 1] == x[|x| - 1]
  {}

  lemma PairInTail(c: char, t: string, a: char, b: char)
    ensures HasPair(t, a, b) ==> HasPair([c] + t, a, b)
    ensures t != "" && c == a && t[0] == b ==> HasPair([c] + t, a, b)
  {
    var s := [c] + t;
    if i :| 0 <= i < |t| - 1 && t[i] == a && t[i + 1] == b {
      assert s[i + 1] == a && s[i + 2] == b;
    }
    if t != "" && c == a && t[0] == b {
      assert s[0] == a && s[1] == b;
    }
  }

  lemma {:induction false} FindCloseBehind(s: string, u: string)
    requires FindClose(s) < |s|
    ensures FindClose(s + u) == FindClose(s)
  {
    HeadOfConcat(s, u);
    if !(s[0] == '*' && s[1] == '/') { FindCloseBehind(s[1..], u); }
  }

  /** A closed block comment starts the text. */
  predicate StartsBlock(s: string) {
    |s| >= 2 && s[0] == '/' && s[1] == '*' && FindClose(s[2..]) < |s| - 2
  }

  lemma KeptSlash(x: string)
    requires |x| >= 2 && x[0] == '/' && x[1] == '*' && !StartsBlock(x)
    ensures HasPair(StripBlocks(x), '/', '*')
  {
    assert StripBlocks(x)[0] == '/' && StripBlocks(x)[1] == StripBlocks(x[1..])[0] == '*';
  }

  /** A block that starts a text with a semicolon at its end closes before that. */
  lemma FirstBlock(x: string, y: string)
    requires EndsInSemicolon(x) && StartsBlock(x)
    ensures StartsBlock(x + y) && FindClose((x + y)[2..]) == FindClose(x[2..]) && FindClose(x[2..]) + 4 < |x|
  {
    TailOfConcat(x, y, 2);
    FindCloseBehind(x[2..], y);
    var n := FindClose(x[2..]);
    assert x[n + 3] == x[2..][n + 1] == '/';
  }

  lemma NoFirstBlock(x: string, y: string)
    requires EndsInSemicolon(x) && !HasPair(StripBlocks(x), '/', '*') && !StartsBlock(x)
    ensures !StartsBlock(x + y)
  {
    if |x| >= 2 && x[0] == '/' && x[1] == '*' { KeptSlash(x); }
  }

  lemma {:induction false} BlocksBehind(x: string, y: string)
    requires x == "" || EndsInSemicolon(x)
    requires !HasPair(StripBlocks(x), '/', '*')
    ensures StripBlocks(x + y) == StripBlocks(x) + StripBlocks(y)
    decreases |x|
  {
    if x == "" {
      ConcatEmpty(y);
      ConcatEmpty(StripBlocks(y));
    } else {
      if StartsBlock(x) { FirstBlock(x, y); } else { NoFirstBlock(x, y); }
      var k, c := if StartsBlock(x) then FindClose(x[2..]) + 4 else 1, if StartsBlock(x) then ' ' else x[0];
      TailOfConcat(x, y, k);
      PairInTail(c, StripBlocks(x[k..]), '/', '*');
      BlocksBehind(x[k..], y);
      Associates([c], StripBlocks(x[k..]), StripBlocks(y));
    }
  }

  lemma DropLineBehind(d: string, y: string)
    requires DropLine(d) != ""
    ensures DropLine(d + y) == DropLine(d) + y
  {
    DropLineSplits(d, y);
  }

  lemma LastOfTail(c: char, s: string)
    ensures s != "" ==> ([c] + s)[|[c] + s| - 1] == s[|s| - 1]
  {}

  lemma SuffixEnds(b: string, d: string)
    requires EndsInSemicolon(b) && d != "" && |d| <= |b| && d == b[|b| - |d|..]
    ensures EndsInSemicolon(d)
  {}

  lemma StripsLine(s: string, d: string)
    requires StartsLine(s) && DropLine(s[2..]) == d
    ensures StripLines(s) == [' '] + StripLines(d)
  {}

  lemma KeepsHead(c: char, t: string)
    requires !StartsLine([c] + t)
    ensures StripLines([c] + t) == [c] + StripLines(t)
  {
    assert ([c] + t)[1..] == t;
  }

  lemma LineIsFirst(b: string, y: string)
    requires EndsInSemicolon(b)
    ensures StartsLine(b + y) <==> StartsLine(b)
  {}

  /** A comment that starts the text ends before the semicolon that is left at the end. */
  lemma FirstLine(b: string, y: string) returns (d: string)
    requires EndsInSemicolon(b) && EndsInSemicolon(StripLines(b)) && StartsLine(b)
    ensures EndsInSemicolon(d) && EndsInSemicolon(StripLines(d)) && |d| < |b|
    ensures StripLines(b) == [' '] + StripLines(d) && StripLines(b + y) == [' '] + StripLines(d + y)
  {
    d := DropLine(b[2..]);
    StripsLine(b, d);
    LastOfTail(' ', StripLines(d));
    TailOfConcat(b, y, 2);
    DropLineBehind(b[2..], y);
    DropLineIsSuffix(b[2..]);
    SuffixEnds(b[2..], d);
    LineIsFirst(b, y);
    StripsLine(b + y, d + y);
  }

  lemma {:induction false} LinesBehind(b: string, y: string)
    requires b == "" || (EndsInSemicolon(b) && EndsInSemicolon(StripLines(b)))
    ensures StripLines(b + y) == StripLines(b) + StripLines(y)
    decreases |b|
  {
    if b == "" {
      ConcatEmpty(y);
      ConcatEmpty(StripLines(y));
    } else if StartsLine(b) {
      var d := FirstLine(b, y);
      LinesBehind(d, y);
      Associates([' '], StripLines(d), StripLines(y));
    } else {
      HeadOfConcat(b, y);
      LineIsFirst(b, y);
      KeepsHead(b[0], b[1..]);
      KeepsHead(b[0], b[1..] + y);
      LastOfTail(b[0], StripLines(b[1..]));
      LinesBehind(b[1..], y);
      Associates([b[0]], StripLines(b[1..]), StripLines(y));
    }
  }

  lemma {:induction false} DropSpacesBehind(d: string, z: string)
    requires d != "" && !IsSpace(d[|d| - 1])
    ensures DropSpaces(d) != "" && DropSpaces(d + z) == DropSpaces(d) + z
  {
    HeadOfConcat(d, z);
    if IsSpace(d[0]) { DropSpacesBehind(d[1..], z); }
  }

  lemma {:induction false} SqueezeBehind(l: string, z: string)
    requires l != "" ==> !IsSpace(l[|l| - 1])
    ensures Squeeze(l + z) == Squeeze(l) + Squeeze(z)
    decreases |l|
  {
    if l == "" {
      ConcatEmpty(z);
      ConcatEmpty(Squeeze(z));
    } else {
      HeadOfConcat(l, z);
      if IsSpace(l[0]) {
        DropSpacesBehind(l[1..], z);
        SqueezeBehind(DropSpaces(l[1..]), z);
        Associates([' '], Squeeze(DropSpaces(l[1..])), Squeeze(z));
      } else {
        SqueezeBehind(l[1..], z);
        Associates([l[0]], Squeeze(l[1..]), Squeeze(z));
      }
    }
  }

  lemma {:induction false} SqueezeKeepsEnd(l: string)
    requires EndsInSemicolon(l)
    ensures EndsInSemicolon(Squeeze(l))
    decreases |l|
  {
    if IsSpace(l[0]) {
      var d := DropSpaces(l[1..]);
      DropSpacesBehind(l[1..], "");
      SuffixEnds(l[1..], d);
      SqueezeKeepsEnd(d);
      LastOfTail(' ', Squeeze(d));
    } else if |l| > 1 {
      SqueezeKeepsEnd(l[1..]);
      LastOfTail(l[0], Squeeze(l[1..]));
    }
  }

  lemma {:induction false} TrimEndBehind(x: string, z: string)
    ensures TrimEnd(x + z) == if TrimEnd(z) == "" then TrimEnd(x) else x + TrimEnd(z)
    decreases |z|
  {
    if z == "" {
      ConcatEmpty(x);
    } else if IsSpace(z[|z| - 1]) {
      assert (x + z)[..|x + z| - 1] == x + z[..|z| - 1];
      TrimEndBehind(x, z[..|z| - 1]);
    }
  }

  lemma {:induction false} TrimStartBehind(a: string, b: string)
    requires a != "" && !IsSpace(a[|a| - 1])
    ensures TrimStart(a) != "" && TrimStart(a + b) == TrimStart(a) + b
  {
    HeadOfConcat(a, b);
    if IsSpace(a[0]) { TrimStartBehind(a[1..], b); }
  }

  lemma TrimBehind(a: string, z: string)
    requires EndsInSemicolon(a)
    ensures Trim(a + z) == Trim(a) + TrimEnd(z)
  {
    TrimEndBehind(a, z);
    TrimStartBehind(a, TrimEnd(z));
    ConcatEmpty(a);
    ConcatEmpty(Trim(a));
  }

  /** What stripping leaves of a text, but for one space that trimming its start may take. */
  function Kept(sql: string): string {
    TrimEnd(Squeeze(StripLines(StripBlocks(sql))))
  }

  lemma StripBehind(x: string, y: string)
    requires IsClosed(x)
    ensures StripSqlComments(x + y) == StripSqlComments(x) + Kept(y)
  {
    var b, l := StripBlocks(x), StripLines(StripBlocks(x));
    BlocksBehind(x, y);
    BlocksKeepEnd(x);
    LinesBehind(b, StripBlocks(y));
    SqueezeBehind(l, StripLines(StripBlocks(y)));
    SqueezeKeepsEnd(l);
    TrimBehind(Squeeze(l), Squeeze(StripLines(StripBlocks(y))));
  }

  lemma {:induction false} BlocksKeepEnd(x: string)
    requires EndsInSemicolon(x)
    ensures EndsInSemicolon(StripBlocks(x))
    decreases |x|
  {
    if StartsBlock(x) {
      var k := FindClose(x[2..]) + 4;
      FirstBlock(x, "");
      TailOfConcat(x, "", k);
      BlocksKeepEnd(x[k..]);
      LastOfTail(' ', StripBlocks(x[k..]));
    } else if |x| > 1 {
      BlocksKeepEnd(x[1..]);
      LastOfTail(x[0], StripBlocks(x[1..]));
    }
  }

  lemma KeptIsStripped(y: string)
    ensures Kept(y) == StripSqlComments(y) || Kept(y) == " " + StripSqlComments(y)
  {
    var z := Squeeze(StripLines(StripBlocks(y)));
    SqueezeSqueezes(StripLines(StripBlocks(y)));
    TrimEndIsPrefix(z);
    PrefixIsSqueezed(z, |Kept(y)|);
    OneSpaceIsTrimmed(Kept(y));
  }

  lemma PrefixIsSqueezed(z: string, n: nat)
    requires Squeezed(z) && n <= |z|
    ensures Squeezed(z[..n])
  {}

  lemma OneSpaceIsTrimmed(k: string)
    requires Squeezed(k)
    ensures k == TrimStart(k) || k == " " + TrimStart(k)
  {
    if k != "" && IsSpace(k[0]) {
      SqueezedRest(k);
      assert k == [k[0]] + k[1..];
    }
  }

  // ----- splitting behind a closed script -----

  lemma {:induction false} QuotesOfPrefix(x: string, u: string, i: nat)
    requires i <= |x|
    ensures QuoteAt(x + u, i) == QuoteAt(x, i)
    ensures i < |x| ==> Toggles(x + u, i) == Toggles(x, i)
  {
    if i > 0 { QuotesOfPrefix(x, u, i - 1); }
  }

  lemma CutsOfPrefix(x: string, u: string, i: nat)
    requires i < |x|
    ensures Cuts(x + u)[i] == Cuts(x)[i]
  {
    QuotesOfPrefix(x, u, i + 1);
  }

  lemma {:induction false} SplitToPrefix(x: string, u: string, n: nat)
    requires n <= |x|
    ensures SplitTo(x + u, Cuts(x + u), n) == SplitTo(x, Cuts(x), n)
  {
    if n > 0 {
      SplitToPrefix(x, u, n - 1);
      CutsOfPrefix(x, u, n - 1);
    }
  }

  /** The automaton is outside quotations at the end of `x`, and not after a backslash. */
  predicate EndsOutside(x: string) {
    QuoteAt(x, |x|).Outside? && (x != "" ==> x[|x| - 1] != '\\')
  }

  lemma CutsBehind(x: string, u: string, i: nat)
    requires EndsOutside(x) && i < |u|
    ensures Cuts(x + u)[|x| + i] == Cuts(u)[i]
  {
    QuotesOfPrefix(x, u, |x|);
    assert (x + u)[|x|..|x + u|] == u;
    AutomatonRestarts(x + u, |x|, |x + u|, i + 1);
  }

  function Onto(out: seq<string>, s: Splitting): Splitting {
    Splitting(out + s.out, s.current)
  }

  lemma NothingOnto(x: string, u: string)
    requires EndsInCut(x)
    ensures SplitTo(x + u, Cuts(x + u), |x|) == Onto(SplitTo(x, Cuts(x), |x|).out, SplitTo(u, Cuts(u), 0))
  {
    SplitToPrefix(x, u, |x|);
    assert CutsAt(x, |x| - 1);
    ConcatEmpty(SplitTo(x, Cuts(x), |x|).out);
  }

  lemma SplitStepOnto(t: string, u: string, out: seq<string>, i: nat, n: nat)
    requires 0 < n <= |u| && 0 < i <= |t| && t[i - 1] == u[n - 1] && Cuts(t)[i - 1] == Cuts(u)[n - 1]
    requires SplitTo(t, Cuts(t), i - 1) == Onto(out, SplitTo(u, Cuts(u), n - 1))
    ensures SplitTo(t, Cuts(t), i) == Onto(out, SplitTo(u, Cuts(u), n))
  {
    var s := SplitTo(u, Cuts(u), n - 1);
    Associates(out, s.out, [Trim(s.current + [u[n - 1]])]);
  }

  lemma NextBehind(x: string, u: string, n: nat)
    requires EndsInCut(x) && 0 < n <= |u|
    ensures (x + u)[|x| + n - 1] == u[n - 1] && Cuts(x + u)[|x| + n - 1] == Cuts(u)[n - 1]
  {
    CutsBehind(x, u, n - 1);
  }

  lemma {:induction false} SplitToBehind(x: string, u: string, n: nat)
    requires EndsInCut(x) && n <= |u|
    ensures SplitTo(x + u, Cuts(x + u), |x| + n) == Onto(SplitTo(x, Cuts(x), |x|).out, SplitTo(u, Cuts(u), n))
  {
    if n == 0 {
      NothingOnto(x, u);
    } else {
      SplitToBehind(x, u, n - 1);
      NextBehind(x, u, n);
      SplitStepOnto(x + u, u, SplitTo(x, Cuts(x), |x|).out, |x| + n, n);
    }
  }

  lemma StatementsBehind(x: string, u: string)
    requires EndsInCut(x)
    ensures Statements(x + u) == Statements(x) + Statements(u)
  {
    SplitToBehind(x, u, |u|);
    CutHasNoRest(x);
    var s := SplitTo(u, Cuts(u), |u|);
    Associates(Statements(x), s.out, [Trim(s.current)]);
  }

  lemma CutHasNoRest(x: string)
    requires EndsInCut(x)
    ensures Statements(x) == SplitTo(x, Cuts(x), |x|).out
  {
    assert CutsAt(x, |x| - 1);
    assert Trim("") == "";
  }

  lemma TrimBehindSpace(u: string)
    ensures Trim(" " + u) == Trim(u)
  {
    TrimEndBehind(" ", u);
    if TrimEnd(u) == "" {
      assert TrimEnd(" ") == TrimEnd(" "[..0]) == "";
    } else {
      assert (" " + TrimEnd(u))[1..] == TrimEnd(u);
    }
  }

  lemma SpaceEndsOutside()
    ensures EndsOutside(" ") && Cuts(" ") == [false]
  {
    assert QuoteAt(" ", 0) == Outside && !Toggles(" ", 0) && QuoteAt(" ", 1) == Outside;
  }

  /** Splitting behind a space: the same but for that space in the first statement. */
  lemma {:induction false} SplitToSpaced(u: string, n: nat)
    requires n <= |u|
    ensures var r, s := SplitTo(" " + u, Cuts(" " + u), 1 + n), SplitTo(u, Cuts(u), n);
            r.out == s.out && (r.current == s.current || r.current == " " + s.current)
  {
    if n == 0 {
      SpaceEndsOutside();
      SplitToPrefix(" ", u, 1);
      assert SplitTo(" ", Cuts(" "), 1) == Splitting([], "" + " ");
    } else {
      SplitToSpaced(u, n - 1);
      SpaceEndsOutside();
      CutsBehind(" ", u, n - 1);
      var s := SplitTo(u, Cuts(u), n - 1);
      Associates(" ", s.current, [u[n - 1]]);
      TrimBehindSpace(s.current + [u[n - 1]]);
    }
  }

  lemma SpaceIsIgnored(u: string)
    ensures Statements(" " + u) == Statements(u)
  {
    SplitToSpaced(u, |u|);
    TrimBehindSpace(SplitTo(u, Cuts(u), |u|).current);
  }

  // ----- features and level -----

  /** The statements of a closed script and of what follows it are classified one after the other. */
  lemma FeaturesBehind(x: string, y: string)
    requires IsClosed(x)
    ensures ScriptFeatures(x + y) == ScriptFeatures(x) + ScriptFeatures(y)
  {
    StripBehind(x, y);
    KeptIsStripped(y);
    StatementsBehind(StripSqlComments(x), Kept(y));
    SpaceIsIgnored(StripSqlComments(y));
    MappedConcat(FeaturesOf, Statements(StripSqlComments(x)), Statements(StripSqlComments(y)));
  }

  function Script(parts: seq<string>, last: string): string {
    if parts == [] then last else parts[0] + Script(parts[1..], last)
  }

  predicate AreClosed(parts: seq<string>) {
    forall x :: x in parts ==> IsClosed(x)
  }

  predicate InSome(f: Features, parts: seq<string>) {
    exists x | x in parts :: f in ScriptFeatures(x)
  }

  lemma InFirstOrRest(f: Features, parts: seq<string>)
    requires parts != []
    ensures InSome(f, parts) <==> f in ScriptFeatures(parts[0]) || InSome(f, parts[1..])
  {
    assert parts == [parts[0]] + parts[1..];
  }

  lemma FeatureBehind(x: string, y: string, f: Features)
    requires IsClosed(x)
    ensures f in ScriptFeatures(x + y) <==> f in ScriptFeatures(x) || f in ScriptFeatures(y)
  {
    FeaturesBehind(x, y);
  }

  /** The features of a script are those of its parts. */
  lemma {:induction false} FeaturesOfScript(parts: seq<string>, last: string, f: Features)
    requires AreClosed(parts)
    ensures f in ScriptFeatures(Script(parts, last)) <==> f in ScriptFeatures(last) || InSome(f, parts)
  {
    if parts != [] {
      FeatureBehind(parts[0], Script(parts[1..], last), f);
      FeaturesOfScript(parts[1..], last, f);
      InFirstOrRest(f, parts);
    }
  }

  lemma SameParts(f: Features, parts: seq<string>, parts': seq<string>)
    requires forall x :: x in parts <==> x in parts'
    ensures InSome(f, parts) <==> InSome(f, parts')
  {}

  lemma SameFeaturesSameLevel(a: string, b: string)
    requires forall f :: f in ScriptFeatures(a) <==> f in ScriptFeatures(b)
    ensures Classification(ScriptFeatures(a)).level == Classification(ScriptFeatures(b)).level
  {
    var fs, gs := ScriptFeatures(a), ScriptFeatures(b);
    LevelIsJoin(a);
    LevelIsJoin(b);
    SameRisks(fs, gs, Destructive);
    SameRisks(fs, gs, Write);
    if fs != [] { assert fs[0] in gs; }
    if gs != [] { assert gs[0] in fs; }
    StatementsAreScannable(a);
    StatementsAreScannable(b);
  }

  lemma SameRisks(fs: seq<Features>, gs: seq<Features>, level: Level)
    requires forall f :: f in fs <==> f in gs
    ensures SomeRisk(fs, level) <==> SomeRisk(gs, level)
  {}

  /** A script's level depends only on which closed parts it has: not on their order, nor on how often they come. */
  lemma LevelIgnoresPartOrder(parts: seq<string>, parts': seq<string>, last: string)
    requires AreClosed(parts) && AreClosed(parts') && forall x :: x in parts <==> x in parts'
    ensures Classification(ScriptFeatures(Script(parts, last))).level == Classification(ScriptFeatures(Script(parts', last))).level
  {
    forall f ensures f in ScriptFeatures(Script(parts, last)) <==> f in ScriptFeatures(Script(parts', last)) {
      FeaturesOfScript(parts, last, f);
      FeaturesOfScript(parts', last, f);
      SameParts(f, parts, parts');
    }
    SameFeaturesSameLevel(Script(parts, last), Script(parts', last));
  }
}
