/** Exactly when managing and unmanaging a file gives it back, and what becomes of the user's own bindings. */
module BridgeRestore {
  import opened BridgeConfig
  import opened BridgeOwnership
  import opened BridgeRoundTrip
  import opened Sequences
  import opened Text
  import opened TomlText

  // ----- where managing writes -----

  /** The content lines before the first bare header: where managing writes. */
  function Above(c: seq<string>): seq<string> {
    c[..FirstIndex(c, IsBareHeader)]
  }

  predicate NoBareHeader(a: seq<string>) {
    forall i :: 0 <= i < |a| ==> !IsBareHeader(a[i])
  }

  lemma AboveConcat(a: seq<string>, r: seq<string>)
    requires NoBareHeader(a)
    ensures Above(a + r) == a + Above(r)
  {
    var n := FirstIndex(r, IsBareHeader);
    assert forall j :: 0 <= j < |a| + n ==> !IsBareHeader((a + r)[j]) by {
      assert forall j :: |a| <= j < |a| + n ==> (a + r)[j] == r[j - |a|];
    }
    FirstIndexIs(a + r, IsBareHeader, |a| + n);
    assert (a + r)[..|a| + n] == a + r[..n];
  }

  /** The content lines from the first one that opens a bracket to the first bare header: none when the cuts agree. */
  function Beyond(c: seq<string>): seq<string> {
    Above(Tail(c))
  }

  lemma AboveParts(c: seq<string>)
    ensures Above(c) == Zone(c) + Beyond(c)
  {
    CutTests();
    ZoneSplits(c);
    AboveConcat(Zone(c), Tail(c));
  }

  lemma NoBareInContent(lines: seq<string>)
    requires NoBareHeader(lines)
    ensures NoBareHeader(NonBlank(lines))
  {
    BracketTests();
    NonBlankMembers(lines, IsBareHeader);
    assert forall i :: 0 <= i < |NonBlank(lines)| ==> NonBlank(lines)[i] in NonBlank(lines);
  }

  lemma NoBareJoins(a: seq<string>, b: seq<string>)
    requires NoBareHeader(a) && NoBareHeader(b)
    ensures NoBareHeader(a + b)
  {}

  /** No marker of SKS is among these lines. */
  predicate Unmarked(c: seq<string>) {
    forall l :: l in c ==> !TargetTest(PROVIDER_MARKER)(l) && !TargetTest(BASE_URL_MARKER)(l) && !TargetTest(CATALOG_MARKER)(l)
  }

  lemma {:induction false} NoBareWithout(a: seq<string>, p: string -> bool)
    requires NoBareHeader(a)
    ensures NoBareHeader(Without(a, p)) && forall l :: l in Without(a, p) ==> l in a
  {
    WithoutKeepsLines(a, p);
    var r := Without(a, p);
    forall i | 0 <= i < |r| ensures !IsBareHeader(r[i]) { assert r[i] in r; }
  }

  lemma BeyondParts(z: seq<string>, m: seq<string>, r: seq<string>, p: string -> bool)
    requires NoBracket(z) && NoBareHeader(m) && (m != [] ==> StartsBracket(m[0]) && !p(m[0]))
    requires m == [] && r != [] ==> StartsBracket(r[0])
    ensures Beyond(z + (m + r)) == m + Above(r) && Beyond(Without(z + m, p) + r) == Without(m, p) + Above(r)
  {
    NoBareWithout(m, p);
    ZoneOf(z, m + r);
    AboveConcat(m, r);
    WithoutConcat(z, m, p);
    WithoutKeepsNoBracket(z, p);
    Associates(Without(z, p), Without(m, p), r);
    ZoneOf(Without(z, p), Without(m, p) + r);
    AboveConcat(Without(m, p), r);
  }

  lemma NoBareBetween(c: seq<string>, h: string -> bool, i: nat)
    requires IsCut(h) && i <= FirstIndex(c, h)
    ensures NoBareHeader(c[i..FirstIndex(c, h)])
  {}

  /** Removing lines up to either cut brings nothing in beyond the zone. */
  lemma DroppingBeyond(c: seq<string>, h: string -> bool, p: string -> bool)
    requires IsCut(h) && forall l :: StartsBracket(l) ==> !p(l)
    ensures var n := FirstIndex(c, h);
            forall l :: l in Beyond(Without(c[..n], p) + c[n..]) ==> l in Beyond(c)
  {
    var i, j := FirstIndex(c, StartsBracket), FirstIndex(c, h);
    CutIsLater(c, h);
    NoBareBetween(c, h, i);
    var z, m, r := c[..i], c[i..j], c[j..];
    ThreeParts(c, i, j);
    BeyondParts(z, m, r, p);
    WithoutKeepsLines(m, p);
  }

  lemma RemoveTopBeyond(t: string, h: string -> bool, p: string -> bool)
    requires IsCut(h) && IgnoresTail(p) && (forall l :: StartsBracket(l) ==> !p(l)) && Unmarked(Beyond(Content(t)))
    ensures Unmarked(Beyond(Content(RemoveTop(t, h, p))))
  {
    ContentOfRemoveTop(t, h, p);
    DroppingBeyond(Content(t), h, p);
  }

  lemma RemovalsKeepUnmarked(t: string, key: string, orphan: bool, marker: string)
    requires IsName(key) && IsMarker(marker) && Unmarked(Beyond(Content(t)))
    ensures Unmarked(Beyond(Content(RemoveTopKey(t, key)))) && Unmarked(Beyond(Content(RemoveLineIf(t, orphan, marker))))
    ensures Unmarked(Beyond(Content(RemoveTopLine(t, marker))))
  {
    LineTests(key, marker);
    CutTests();
    assert IsNameChar(key[0]);
    forall l ensures StartsBracket(l) ==> !KeyTest(key)(l) { BracketBindsNothing(l, key); }
    RemoveTopBeyond(t, IsBareHeader, KeyTest(key));
    RemoveTopBeyond(t, StartsBracket, TargetTest(marker));
  }

  lemma NonBlankOfUpdate(lines: seq<string>, i: nat, line: string)
    requires i < |lines|
    ensures lines == lines[..i] + [lines[i]] + lines[i + 1..] && lines[i := line] == lines[..i] + [line] + lines[i + 1..]
    ensures NonBlank(lines) == NonBlank(lines[..i]) + NonBlank([lines[i]]) + NonBlank(lines[i + 1..])
    ensures NonBlank(lines[i := line]) == NonBlank(lines[..i]) + NonBlank([line]) + NonBlank(lines[i + 1..])
  {
    assert lines == lines[..i] + [lines[i]] + lines[i + 1..] && lines[i := line] == lines[..i] + [line] + lines[i + 1..];
    NonBlankConcat(lines[..i] + [lines[i]], lines[i + 1..]);
    NonBlankConcat(lines[..i], [lines[i]]);
    NonBlankConcat(lines[..i] + [line], lines[i + 1..]);
    NonBlankConcat(lines[..i], [line]);
  }

  /** `c'` holds the line, and no other line that `c` does not hold. */
  predicate Adds(c: seq<string>, c': seq<string>, line: string) {
    line in c' && forall l :: l in c' ==> l in c || l == line
  }

  lemma AddsBetween(a: seq<string>, m: seq<string>, line: string, b: seq<string>)
    ensures Adds(a + m + b, a + [line] + b, line)
  {}

  lemma ReplacingAdds(lines: seq<string>, i: nat, line: string)
    requires i < FirstIndex(lines, IsBareHeader) && AreLines(lines) && IsPlainLine(line)
    ensures Adds(Above(NonBlank(lines)), Above(Content(Collapse(Join(lines[i := line])))), line)
  {
    ContentOfReplaced(lines, i, line);
    NonBlankOfUpdate(lines, i, line);
    NoBareInContent(lines[..i]);
    NoBareInContent([lines[i]]);
    ReplacedAbove(NonBlank(lines[..i]), NonBlank([lines[i]]), line, NonBlank(lines[i + 1..]));
  }

  lemma ContentOfReplaced(lines: seq<string>, i: nat, line: string)
    requires i < |lines| && AreLines(lines) && IsPlainLine(line)
    ensures Content(Collapse(Join(lines[i := line]))) == NonBlank(lines[..i]) + [line] + NonBlank(lines[i + 1..])
  {
    NonBlankOne(line);
    NonBlankOfUpdate(lines, i, line);
    ContentOfJoin(lines[i := line]);
    ContentOfCollapse(Join(lines[i := line]));
  }

  lemma ReplacedAbove(a: seq<string>, m: seq<string>, line: string, r: seq<string>)
    requires NoBareHeader(a) && NoBareHeader(m) && !IsBareHeader(line)
    ensures Adds(Above(a + m + r), Above(a + [line] + r), line)
  {
    AboveOfThree(a, m, r);
    AboveOfThree(a, [line], r);
    AddsBetween(a, m, line, Above(r));
  }

  lemma AboveOfThree(a: seq<string>, m: seq<string>, r: seq<string>)
    requires NoBareHeader(a) && NoBareHeader(m)
    ensures Above(a + m + r) == a + m + Above(r)
  {
    NoBareJoins(a, m);
    AboveConcat(a + m, r);
  }

  lemma InsertingAdds(lines: seq<string>, n: nat, line: string)
    requires n <= FirstIndex(lines, IsBareHeader) && AreLines(lines) && IsPlainLine(line)
    ensures Adds(Above(NonBlank(lines)), Above(Content(Collapse(StripLeadingNewlines(Join(lines[..n] + [line] + lines[n..]))))), line)
  {
    ContentOfInserted(lines, n, line);
    NonBlankCut(lines, n);
    NoBareInContent(lines[..n]);
    AboveConcat(NonBlank(lines[..n]), NonBlank(lines[n..]));
    AboveOfThree(NonBlank(lines[..n]), [line], NonBlank(lines[n..]));
    AddsBetween(NonBlank(lines[..n]), [], line, Above(NonBlank(lines[n..])));
    ConcatEmpty(NonBlank(lines[..n]));
  }

  lemma NonBlankCut(lines: seq<string>, n: nat)
    requires n <= |lines|
    ensures NonBlank(lines) == NonBlank(lines[..n]) + NonBlank(lines[n..])
  {
    assert lines == lines[..n] + lines[n..];
    NonBlankConcat(lines[..n], lines[n..]);
  }

  /** The upsert writes its line and brings in no other. */
  lemma UpsertWritesOneLine(t: string, key: string, value: string)
    requires IsName(key) && IsLine(value)
    ensures Adds(Above(Content(t)), Above(Content(UpsertTop(t, key, value))), KeyText(key, value))
  {
    var line, lines := KeyText(key, value), Split(t);
    var end := FirstIndex(lines, IsBareHeader);
    var i := FirstIndex(lines[..end], KeyTest(key));
    KeyTextFacts(key, value);
    SplitLines(t);
    if i < end {
      ReplacingAdds(lines, i, line);
    } else {
      InsertingAdds(lines, end, line);
    }
  }

  /** When the cuts differ, binding a key leaves the file unmarked. */
  lemma BindMisses(t: string, key: string, value: string, marker: string, zone: seq<string>, tail: seq<string>)
    requires State(t, zone, false, tail) && IsName(key) && IsMarker(marker) && IsLine(value) && Free(zone, key, marker)
    requires Unmarked(Above(Content(t)))
    ensures var t' := Bind(t, key, value, marker);
            State(t', zone, false, tail) && Unmarked(Above(Content(t'))) && KeyText(key, value) in Above(Content(t'))
  {
    Markers();
    BindState(t, key, value, marker, zone, false, tail);
    assert zone + [] == zone;
    assert IsNameChar(key[0]);
    KeyTextFacts(key, value);
    UpsertZone(t, key, value);
    MarkerMisses(UpsertTop(t, key, value), key, marker);
    UpsertWritesOneLine(t, key, value);
    assert !TargetTest(PROVIDER_MARKER)(KeyText(key, value));
    assert !TargetTest(BASE_URL_MARKER)(KeyText(key, value));
    assert !TargetTest(CATALOG_MARKER)(KeyText(key, value));
  }

  lemma RemoveBindingsKeepsUnmarked(t: string)
    requires Unmarked(Beyond(Content(t)))
    ensures Unmarked(Beyond(Content(RemoveBindings(t))))
  {
    Names();
    Markers();
    var t1 := RemoveTopKey(t, PROVIDER);
    var t2 := RemoveTopKey(t1, BASE_URL);
    var t3 := RemoveTopKey(t2, CATALOG);
    var t4 := RemoveTopLine(t3, PROVIDER_MARKER);
    var t5 := RemoveTopLine(t4, BASE_URL_MARKER);
    RemovalsKeepUnmarked(t, PROVIDER, true, PROVIDER_MARKER);
    RemovalsKeepUnmarked(t1, BASE_URL, true, PROVIDER_MARKER);
    RemovalsKeepUnmarked(t2, CATALOG, true, PROVIDER_MARKER);
    RemovalsKeepUnmarked(t3, CATALOG, true, PROVIDER_MARKER);
    RemovalsKeepUnmarked(t4, CATALOG, true, BASE_URL_MARKER);
    RemovalsKeepUnmarked(t5, CATALOG, true, CATALOG_MARKER);
  }

  lemma RemoveOrphansKeepsUnmarked(t: string)
    requires Unmarked(Beyond(Content(t)))
    ensures Unmarked(Beyond(Content(RemoveOrphans(t))))
  {
    Names();
    Markers();
    var o1 := HasTopLine(t, PROVIDER_MARKER) && TopValue(t, PROVIDER) != "openai";
    var o2 := HasTopLine(t, BASE_URL_MARKER) && TopValue(t, BASE_URL) == "";
    var o3 := HasTopLine(t, CATALOG_MARKER) && TopValue(t, CATALOG) == "";
    var t1 := RemoveLineIf(t, o1, PROVIDER_MARKER);
    RemovalsKeepUnmarked(t, CATALOG, o1, PROVIDER_MARKER);
    RemovalsKeepUnmarked(t1, CATALOG, o2, BASE_URL_MARKER);
    RemovalsKeepUnmarked(RemoveLineIf(t1, o2, BASE_URL_MARKER), CATALOG, o3, CATALOG_MARKER);
  }

  /** When the cuts differ, what is read as top level ends before the first bare header. */
  lemma ReadableIsAbove(t: string)
    requires !Agree(Content(t))
    ensures |ReadableTop(t)| <= FirstIndex(Split(t), IsBareHeader)
    ensures ReadableTop(t) == Split(t)[..|ReadableTop(t)|]
  {
    var lines := Split(t);
    var n, r := FirstIndex(lines, StartsBracket), |ReadableTop(t)|;
    ZoneOfLines(lines, n);
    assert r == 1 + FirstIndex(lines[1..], StartsBracket);
    forall j | 0 <= j < r ensures !IsBareHeader(lines[j]) {
      if j > 0 { assert lines[j] == lines[1..][j - 1]; }
    }
  }

  /** The content of leading lines that hold no bare header is above the first one. */
  lemma LeadingIsAbove(lines: seq<string>, r: nat)
    requires r <= FirstIndex(lines, IsBareHeader)
    ensures forall l :: l in NonBlank(lines[..r]) ==> l in Above(NonBlank(lines))
  {
    NoBareInContent(lines[..r]);
    NonBlankCut(lines, r);
    AboveConcat(NonBlank(lines[..r]), NonBlank(lines[r..]));
  }

  lemma NoMarkerAbove(t: string, marker: string)
    requires marker != "" && !Agree(Content(t)) && forall l :: l in Above(Content(t)) ==> !TargetTest(marker)(l)
    ensures !HasTopLine(t, marker)
  {
    ReadableIsAbove(t);
    LeadingIsAbove(Split(t), |ReadableTop(t)|);
    MarkerInContent(ReadableTop(t), marker);
  }

  lemma ClearedState(text: string)
    requires Unmarked(Beyond(Content(text)))
    ensures var c, t := Content(text), RemoveBindings(RemoveOrphans(text));
            State(t, Without(Zone(c), ManagedTest()), Agree(c), Tail(c)) && Unmarked(Above(Content(t)))
  {
    var zone, agree, tail := Zone(Content(text)), Agree(Content(text)), Tail(Content(text));
    var zone' := RemoveOrphansState(text, zone, agree, tail);
    RemoveOrphansKeepsUnmarked(text);
    RemoveBindingsState(RemoveOrphans(text), zone', agree, tail);
    RemoveBindingsKeepsUnmarked(RemoveOrphans(text));
    UserLinesAreFree(zone);
    AboveParts(Content(RemoveBindings(RemoveOrphans(text))));
  }

  lemma BoundAfterClearing(text: string, baseUrl: string, catalog: string)
    requires IsLine(baseUrl) && IsLine(catalog) && !Agree(Content(text)) && Unmarked(Beyond(Content(text)))
    ensures var c := Above(Content(Bound(RemoveOrphans(text), baseUrl, catalog)));
            Unmarked(c) && KeyText(CATALOG, catalog) in c
  {
    ClearedState(text);
    UserLinesAreFree(Zone(Content(text)));
    BoundMisses(RemoveBindings(RemoveOrphans(text)), baseUrl, catalog, Without(Zone(Content(text)), ManagedTest()), Tail(Content(text)));
  }

  lemma ContentOfManaged(text: string, input: Input)
    requires Managed(text, input).Ok?
    ensures Content(Managed(text, input).text) == Content(Bound(RemoveOrphans(text), input.baseUrl.value, Trim(input.catalogPath)))
  {
    ContentOfEnsured(Bound(RemoveOrphans(text), input.baseUrl.value, Trim(input.catalogPath)));
  }

  lemma ManageMisses(text: string, input: Input)
    requires Managed(text, input).Ok? && IsLine(input.baseUrl.value) && IsLine(Trim(input.catalogPath))
    requires !Agree(Content(text)) && Unmarked(Beyond(Content(text)))
    ensures var c := Above(Content(Managed(text, input).text));
            Unmarked(c) && KeyText(CATALOG, Trim(input.catalogPath)) in c
  {
    ContentOfManaged(text, input);
    BoundAfterClearing(text, input.baseUrl.value, Trim(input.catalogPath));
  }

  /** Managing a file whose first bracket line is no bare header writes a binding that unmanaging cannot remove. */
  lemma UnmanageMisses(text: string, input: Input)
    requires Managed(text, input).Ok? && IsLine(input.baseUrl.value) && IsLine(Trim(input.catalogPath))
    requires !Agree(Content(text)) && Unmarked(Beyond(Content(text)))
    ensures var r := Unmanaged(Managed(text, input).text);
            r.Ok? ==> KeyText(CATALOG, Trim(input.catalogPath)) in Beyond(Content(r.text))
  {
    var m, key := Managed(text, input).text, KeyText(CATALOG, Trim(input.catalogPath));
    Names();
    ManagedState(text, input);
    ManageMisses(text, input);
    UnmarkedIsNotReleased(m);
    UserLinesAreFree(Zone(Content(text)));
    KeyTextFacts(CATALOG, Trim(input.catalogPath));
    AboveParts(Content(m));
  }

  lemma BoundMisses(t: string, baseUrl: string, catalog: string, user: seq<string>, tail: seq<string>)
    requires State(t, user, false, tail) && IsLine(baseUrl) && IsLine(catalog) && Unmarked(Above(Content(t)))
    requires Free(user, PROVIDER, PROVIDER_MARKER) && Free(user, BASE_URL, BASE_URL_MARKER) && Free(user, CATALOG, CATALOG_MARKER)
    ensures var t' := Bind(Bind(Bind(t, PROVIDER, "openai", PROVIDER_MARKER), BASE_URL, baseUrl, BASE_URL_MARKER), CATALOG, catalog, CATALOG_MARKER);
            Unmarked(Above(Content(t'))) && KeyText(CATALOG, catalog) in Above(Content(t'))
  {
    Names();
    Markers();
    assert IsLine("openai");
    BindMisses(t, PROVIDER, "openai", PROVIDER_MARKER, user, tail);
    var t1 := Bind(t, PROVIDER, "openai", PROVIDER_MARKER);
    BindMisses(t1, BASE_URL, baseUrl, BASE_URL_MARKER, user, tail);
    BindMisses(Bind(t1, BASE_URL, baseUrl, BASE_URL_MARKER), CATALOG, catalog, CATALOG_MARKER, user, tail);
  }

  lemma UnmarkedIsNotReleased(m: string)
    requires !Agree(Content(m)) && Unmarked(Above(Content(m)))
    ensures Unmanaged(m).Ok? ==> Content(Unmanaged(m).text) == Content(m)
  {
    Markers();
    NoMarkerAbove(m, PROVIDER_MARKER);
    NoMarkerAbove(m, BASE_URL_MARKER);
    NoMarkerAbove(m, CATALOG_MARKER);
    ContentOfEnsured(m);
  }

  // ----- exactly when the content comes back -----

  /** None of these lines is managed: they bind none of the three keys and none is a marker. */
  predicate IsFresh(c: seq<string>) {
    forall l :: l in c ==> !ManagedTest()(l)
  }

  /** An input that passes the checks on the URL and the path, with single-line values that read back. */
  predicate IsUsable(input: Input) {
    && input.baseUrl.Some? && IsCatalogPath(Trim(input.catalogPath))
    && IsLine(input.baseUrl.value) && IsLine(Trim(input.catalogPath))
    && ReadableValues(input.baseUrl.value, Trim(input.catalogPath))
  }

  lemma SameFront(a: seq<string>, b: seq<string>, t: seq<string>)
    ensures a + t == b + t <==> a == b
  {
    if a + t == b + t {
      assert |a| == |b|;
      assert a == (a + t)[..|a|] == (b + t)[..|b|] == b;
    }
  }

  /** All of a file's content is the user's exactly when no line of its zone is managed. */
  lemma AllIsUsersIffFresh(text: string)
    ensures UserContent(text) == Content(text) <==> IsFresh(Zone(Content(text)))
  {
    var c := Content(text);
    ZoneSplits(c);
    SameFront(Without(Zone(c), ManagedTest()), Zone(c), Tail(c));
    if IsFresh(Zone(c)) { WithoutNothing(Zone(c), ManagedTest()); }
    UserHasNoManagedLine(Zone(c));
  }

  /**
   * For every accepted file whose cuts agree, unmanaging succeeds; the content comes back
   * exactly when no top-level line was managed, whoever wrote it.
   */
  lemma RestoredIffFresh(text: string, input: Input)
    requires Managed(text, input).Ok? && IsUsable(input) && Agree(Content(text))
    ensures var r := Unmanaged(Managed(text, input).text);
            r.Ok? && (Content(r.text) == Content(text) <==> IsFresh(Zone(Content(text))))
  {
    UnmanageInvertsManage(text, input);
    AllIsUsersIffFresh(text);
  }

  /** The line that managing writes for the catalog. */
  function Written(input: Input): string {
    KeyText(CATALOG, Trim(input.catalogPath))
  }

  lemma WrittenIsManaged(input: Input)
    requires IsLine(Trim(input.catalogPath))
    ensures ManagedTest()(Written(input))
  {
    Names();
    KeyTextFacts(CATALOG, Trim(input.catalogPath));
    TestMeanings(Written(input), CATALOG, CATALOG_MARKER);
  }

  /**
   * Both conditions together: the content comes back exactly when the first bracket line
   * is a bare header and no line before it is managed. Lines between a first bracket line
   * that is no bare header and the first bare header must hold no marker, nor the very
   * line that managing writes; there are no such lines when the cuts agree.
   */
  lemma RestoredIff(text: string, input: Input)
    requires Managed(text, input).Ok? && IsUsable(input)
    requires Unmarked(Beyond(Content(text))) && Written(input) !in Beyond(Content(text))
    ensures var r := Unmanaged(Managed(text, input).text);
            (r.Ok? && Content(r.text) == Content(text)) <==> Agree(Content(text)) && IsFresh(Zone(Content(text)))
  {
    if Agree(Content(text)) {
      RestoredIffFresh(text, input);
    } else {
      UnmanageMisses(text, input);
    }
  }

  lemma FreshParts(c: seq<string>, input: Input)
    requires IsFresh(Above(c)) && IsLine(Trim(input.catalogPath))
    ensures IsFresh(Zone(c)) && Unmarked(Beyond(c)) && Written(input) !in Beyond(c)
  {
    AboveParts(c);
    WrittenIsManaged(input);
    forall l | l in Beyond(c)
      ensures !TargetTest(PROVIDER_MARKER)(l) && !TargetTest(BASE_URL_MARKER)(l) && !TargetTest(CATALOG_MARKER)(l)
    {
      assert l in Above(c);
      TestMeanings(l, PROVIDER, PROVIDER_MARKER);
      TestMeanings(l, BASE_URL, BASE_URL_MARKER);
      TestMeanings(l, CATALOG, CATALOG_MARKER);
    }
  }

  /** A file that is fresh above its first bare header comes back exactly when its first bracket line is a bare header. */
  lemma RoundTripIffCutsAgree(text: string, input: Input)
    requires Managed(text, input).Ok? && IsUsable(input) && IsFresh(Above(Content(text)))
    ensures var r := Unmanaged(Managed(text, input).text);
            (r.Ok? && Content(r.text) == Content(text)) <==> Agree(Content(text))
  {
    FreshParts(Content(text), input);
    RestoredIff(text, input);
  }

  // ----- what is accepted, and what becomes of the user's own bindings -----

  /** No line read as top level is a marker. */
  predicate ReadsNoMarker(text: string) {
    !HasTopLine(text, PROVIDER_MARKER) && !HasTopLine(text, BASE_URL_MARKER) && !HasTopLine(text, CATALOG_MARKER)
  }

  /** The line binds none of the keys to a value that the code can read. */
  predicate IsUnreadable(l: string) {
    LineValue(Trim(l), PROVIDER) == "" && LineValue(Trim(l), BASE_URL) == "" && LineValue(Trim(l), CATALOG) == ""
  }

  predicate AreUnreadable(lines: seq<string>) {
    forall l :: l in lines ==> IsUnreadable(l)
  }

  predicate BindsManagedKey(t: string) {
    BindsKey(t, PROVIDER) || BindsKey(t, BASE_URL) || BindsKey(t, CATALOG)
  }

  lemma {:induction false} NoFirstValue(lines: seq<string>, key: string)
    ensures FirstValue(lines, key) == "" <==> forall l :: l in lines ==> LineValue(Trim(l), key) == ""
  {
    if lines != [] {
      NoFirstValue(lines[1..], key);
      assert lines == [lines[0]] + lines[1..];
    }
  }

  lemma NoFirstValues(lines: seq<string>)
    ensures AreUnreadable(lines) <==> FirstValue(lines, PROVIDER) == "" && FirstValue(lines, BASE_URL) == "" && FirstValue(lines, CATALOG) == ""
  {
    NoFirstValue(lines, PROVIDER);
    NoFirstValue(lines, BASE_URL);
    NoFirstValue(lines, CATALOG);
  }

  lemma NothingIsOrphaned(text: string)
    requires ReadsNoMarker(text)
    ensures RemoveOrphans(text) == text
  {}

  lemma UnmarkedConflict(text: string)
    requires ReadsNoMarker(text)
    ensures Conflict(text).None? <==> AreUnreadable(ReadableTop(text))
  {
    NoFirstValues(ReadableTop(text));
  }

  /** A file in which no marker is read is accepted exactly when no line read as top level binds a key to a readable value. */
  lemma AcceptedIffUnreadable(text: string, input: Input)
    requires ReadsNoMarker(text)
    ensures Managed(text, input).Ok?
            <==> input.baseUrl.Some? && IsCatalogPath(Trim(input.catalogPath)) && AreUnreadable(ReadableTop(text))
  {
    NothingIsOrphaned(text);
    UnmarkedConflict(text);
  }

  lemma FreshIsUnreadable(lines: seq<string>)
    requires forall l :: l in lines ==> !IsManagedText(Trim(l))
    ensures AreUnreadable(lines)
  {}

  /** A file none of whose lines read as top level is managed is never refused. */
  lemma FreshIsAccepted(text: string, input: Input)
    requires forall l :: l in ReadableTop(text) ==> !IsManagedText(Trim(l))
    requires input.baseUrl.Some? && IsCatalogPath(Trim(input.catalogPath))
    ensures Managed(text, input).Ok?
  {
    FreshIsUnreadable(ReadableTop(text));
    AcceptedIffUnreadable(text, input);
  }

  lemma ZoneHasNoMarker(text: string, key: string, marker: string)
    requires Zone(Content(text)) != [] && key != "" && marker != "" && !HasTopLine(text, marker)
    ensures TopValue(text, key) == FirstValue(Zone(Content(text)), key)
    ensures forall l :: l in Zone(Content(text)) ==> Trim(l) != marker
  {
    ReadsZone(text, key, marker);
    forall l | l in Zone(Content(text)) ensures Trim(l) != marker { TestMeanings(l, key, marker); }
  }

  lemma ManagedByKey(l: string)
    requires Trim(l) != PROVIDER_MARKER && Trim(l) != BASE_URL_MARKER && Trim(l) != CATALOG_MARKER
    ensures ManagedTest()(l) <==> OnTrim(BindsManagedKey)(l)
  {
    TestMeanings(l, PROVIDER, PROVIDER_MARKER);
    assert OnTrim(BindsManagedKey)(l) == BindsManagedKey(Trim(l));
  }

  lemma UnreadableZone(text: string)
    requires ReadsNoMarker(text) && AreUnreadable(ReadableTop(text))
    ensures AreUnreadable(Zone(Content(text)))
  {
    if Zone(Content(text)) != [] {
      Markers();
      Names();
      NoFirstValues(ReadableTop(text));
      ZoneHasNoMarker(text, PROVIDER, PROVIDER_MARKER);
      ZoneHasNoMarker(text, BASE_URL, BASE_URL_MARKER);
      ZoneHasNoMarker(text, CATALOG, CATALOG_MARKER);
      NoFirstValues(Zone(Content(text)));
    }
  }

  lemma UnmarkedZone(text: string)
    requires ReadsNoMarker(text)
    ensures Without(Zone(Content(text)), ManagedTest()) == Without(Zone(Content(text)), OnTrim(BindsManagedKey))
  {
    var z := Zone(Content(text));
    if z != [] {
      Markers();
      Names();
      ZoneHasNoMarker(text, PROVIDER, PROVIDER_MARKER);
      ZoneHasNoMarker(text, BASE_URL, BASE_URL_MARKER);
      ZoneHasNoMarker(text, CATALOG, CATALOG_MARKER);
      forall l | l in z ensures ManagedTest()(l) == OnTrim(BindsManagedKey)(l) { ManagedByKey(l); }
      WithoutSame(z, ManagedTest(), OnTrim(BindsManagedKey));
    }
  }

  /**
   * A user's own bindings: when no marker is read, every file that is accepted binds the
   * keys to unreadable values only, and managing and unmanaging it loses exactly the
   * top-level lines that do.
   */
  lemma UnreadableBindingsAreLost(text: string, input: Input)
    requires Managed(text, input).Ok? && IsUsable(input) && Agree(Content(text)) && ReadsNoMarker(text)
    ensures var z, r := Zone(Content(text)), Unmanaged(Managed(text, input).text);
            && AreUnreadable(z)
            && r.Ok? && Content(r.text) == Without(z, OnTrim(BindsManagedKey)) + Tail(Content(text))
  {
    AcceptedIffUnreadable(text, input);
    UnreadableZone(text);
    UnmarkedZone(text);
    UnmanageInvertsManage(text, input);
  }

  lemma OneLine(l: string)
    requires IsLine(l) && l != "" && Trim(l) == l && TrimEnd(l) == l
    ensures Content(l) == [l] && ReadableTop(l) == [l]
    ensures !StartsBracket(l) ==> Zone([l]) == [l] && Tail([l]) == [] && Agree([l])
  {
    SplitOfLine(l);
    NonBlankOne(l);
    assert [l] + [] == [l];
    if !StartsBracket(l) { ZoneOf([l], []); }
  }

  lemma BindingIsNoMarker(l: string)
    requires BindsManagedKey(l)
    ensures l != "" && l[0] != '[' && l != PROVIDER_MARKER && l != BASE_URL_MARKER && l != CATALOG_MARKER
  {
    Names();
    Markers();
    StartsWithChars(l, PROVIDER);
    StartsWithChars(l, BASE_URL);
    StartsWithChars(l, CATALOG);
    assert IsNameChar(PROVIDER[0]) && IsNameChar(BASE_URL[0]) && IsNameChar(CATALOG[0]);
  }

  /** Whatever its value, a file that holds one unreadable binding and nothing else is emptied. */
  lemma UnreadableLineIsLost(l: string, input: Input)
    requires IsUsable(input)
    requires IsLine(l) && Trim(l) == l && TrimEnd(l) == l && BindsManagedKey(l) && IsUnreadable(l)
    ensures var m := Managed(l, input);
            m.Ok? && Unmanaged(m.text).Ok? && Content(l) == [l] && Content(Unmanaged(m.text).text) == []
  {
    BindingIsNoMarker(l);
    OneLine(l);
    AcceptedIffUnreadable(l, input);
    UnreadableBindingsAreLost(l, input);
    WithoutOne(l, OnTrim(BindsManagedKey));
  }

  lemma BindingLine(key: string, value: string, l: string)
    requires l == key + " = " + value && value != "" && !IsSpace(value[0])
    ensures BindsKey(l, key) && LineValue(l, key) == QuotedValue(value)
  {
    var r := l[|key|..];
    assert l[..|key|] == key && r == " = " + value;
    assert r[1..] == "= " + value && r[1..][1..] == " " + value && r[1..][1..][1..] == value;
    assert TrimStart(r) == r[1..] && TrimStart(r[1..][1..]) == TrimStart(value) == value;
  }

  /** The line binds the one key, to whatever the code reads of `value`. */
  lemma BindingValue(key: string, value: string, other: string, another: string)
    requires IsName(key) && IsName(other) && IsName(another) && other != key && another != key
    requires value != "" && !IsSpace(value[0])
    ensures var l := key + " = " + value;
            && BindsKey(l, key) && LineValue(l, key) == QuotedValue(value)
            && LineValue(l, other) == "" && LineValue(l, another) == ""
  {
    var l := key + " = " + value;
    BindingLine(key, value, l);
    assert l == key + (" = " + value);
    SpaceEndsName(key, " = " + value, other);
    SpaceEndsName(key, " = " + value, another);
  }

  /** TOML's other string syntax is not read: the user's own provider is overwritten and not given back. */
  lemma LiteralStringIsLost(input: Input)
    requires IsUsable(input)
    ensures var l := "model_provider = 'azure'";
            var m := Managed(l, input);
            m.Ok? && Unmanaged(m.text).Ok? && Content(l) == [l] && Content(Unmanaged(m.text).text) == []
  {
    Names();
    ProviderLineIsLost("model_provider = 'azure'", "'azure'", input);
  }

  lemma ProviderLineIsLost(l: string, value: string, input: Input)
    requires IsUsable(input) && IsLine(value) && l == PROVIDER + " = " + value
    requires value != "" && !IsSpace(value[0]) && !IsSpace(value[|value| - 1]) && QuotedValue(value) == ""
    ensures var m := Managed(l, input);
            m.Ok? && Unmanaged(m.text).Ok? && Content(l) == [l] && Content(Unmanaged(m.text).text) == []
  {
    Names();
    BindingValue(PROVIDER, value, BASE_URL, CATALOG);
    assert IsNameChar(l[0]) && l[|l| - 1] == value[|value| - 1];
    TrimFixed(l);
    UnreadableLineIsLost(l, input);
  }

  /** A header with a comment behind it is no bare header: the round trip fails. */
  lemma CommentedHeaderBreaksRoundTrip(input: Input)
    requires IsUsable(input)
    ensures var m := Managed("[a] # b", input);
            m.Ok? && !(Unmanaged(m.text).Ok? && Content(Unmanaged(m.text).text) == ["[a] # b"])
  {
    var l := "[a] # b";
    TrimFixed(l);
    OneLine(l);
    assert StartsBracket(l) && !IsBareHeader(l);
    ZoneOf([], [l]);
    assert [] + [l] == [l];
    OtherTextIsFresh(l);
    FreshIsAccepted(l, input);
    RoundTripIffCutsAgree(l, input);
  }

  lemma OtherTextIsFresh(l: string)
    requires Trim(l) == l && l != "" && l[0] == '['
    ensures IsFresh([l]) && !IsManagedText(l)
  {
    Names();
    Markers();
    BracketBindsNothing(l, PROVIDER);
    BracketBindsNothing(l, BASE_URL);
    BracketBindsNothing(l, CATALOG);
    TestMeanings(l, PROVIDER, PROVIDER_MARKER);
    TestMeanings(l, BASE_URL, BASE_URL_MARKER);
    TestMeanings(l, CATALOG, CATALOG_MARKER);
  }
}
