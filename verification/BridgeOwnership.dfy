/** Managing puts its marked bindings in place of all managed lines, and unmanaging removes them. */
module BridgeOwnership {
  import opened Sequences
  import opened Text
  import opened TomlText
  import opened BridgeConfig
  import opened BridgeRoundTrip

  // ----- keys and markers -----

  predicate IsNameChar(c: char) {
    'a' <= c <= 'z' || c == '_'
  }

  predicate IsName(key: string) {
    key != "" && forall i :: 0 <= i < |key| ==> IsNameChar(key[i])
  }

  predicate IsMarker(m: string) {
    m != "" && m[0] == '#' && !IsSpace(m[|m| - 1]) && IsLine(m)
  }

  lemma Names()
    ensures IsName(PROVIDER) && IsName(BASE_URL) && IsName(CATALOG)
    ensures PROVIDER != BASE_URL && PROVIDER != CATALOG && BASE_URL != CATALOG
  {}

  lemma Markers()
    ensures IsMarker(PROVIDER_MARKER) && IsMarker(BASE_URL_MARKER) && IsMarker(CATALOG_MARKER)
    ensures PROVIDER_MARKER != BASE_URL_MARKER && PROVIDER_MARKER != CATALOG_MARKER && BASE_URL_MARKER != CATALOG_MARKER
  {}

  lemma TrimFixed(s: string)
    requires s != "" && !IsSpace(s[0]) && !IsSpace(s[|s| - 1])
    ensures TrimEnd(s) == s && Trim(s) == s
  {}

  lemma StartsWithChars(s: string, prefix: string)
    ensures StartsWith(s, prefix) ==> forall i :: 0 <= i < |prefix| ==> s[i] == prefix[i]
    ensures StartsWith(s, prefix) <==> prefix <= s
  {
    if StartsWith(s, prefix) {
      assert forall i :: 0 <= i < |prefix| ==> s[i] == s[..|prefix|][i];
    }
  }

  lemma MarkerFacts(m: string, key: string)
    requires IsMarker(m) && IsName(key)
    ensures Trim(m) == m && IsPlainLine(m) && !KeyTest(key)(m)
  {
    TrimFixed(m);
    assert IsNameChar(key[0]);
    StartsWithChars(m, key);
  }

  lemma KeyTextFacts(key: string, value: string)
    requires IsName(key) && IsLine(value)
    ensures Trim(KeyText(key, value)) == KeyText(key, value) && IsPlainLine(KeyText(key, value))
    ensures KeyTest(key)(KeyText(key, value))
    ensures forall m :: IsMarker(m) ==> !TargetTest(m)(KeyText(key, value))
  {
    var t := KeyText(key, value);
    assert IsNameChar(key[0]) && t[0] == key[0] && t[|t| - 1] == '"';
    TrimFixed(t);
    assert t[..|key|] == key;
    var r := t[|key|..];
    assert r[0] == ' ' && r[1] == '=';
    assert TrimStart(r) == TrimStart(r[1..]) == r[1..];
    assert IsLine(t) by { assert forall i :: 0 <= i < |key| ==> IsNameChar(key[i]); }
  }

  /** A line that starts with a name and a space binds no other name. */
  lemma SpaceEndsName(key: string, rest: string, other: string)
    requires IsName(key) && IsName(other) && other != key && rest != "" && rest[0] == ' '
    ensures !BindsKey(key + rest, other)
  {
    var t := key + rest;
    StartsWithChars(t, other);
    assert t[..|key|] == key && t[|key|] == ' ';
    assert |key| < |other| ==> IsNameChar(other[|key|]);
    if |other| < |key| {
      var r := t[|other|..];
      assert r[0] == key[|other|] && IsNameChar(r[0]) && TrimStart(r) == r;
    }
  }

  lemma KeyTextBindsOne(key: string, value: string, other: string)
    requires IsName(key) && IsName(other) && IsLine(value) && other != key
    ensures !KeyTest(other)(KeyText(key, value))
  {
    KeyTextFacts(key, value);
    assert KeyText(key, value) == key + (" = \"" + value + "\"");
    SpaceEndsName(key, " = \"" + value + "\"", other);
  }

  // ----- merging removals -----

  function Or(p: string -> bool, q: string -> bool): string -> bool {
    (l: string) => p(l) || q(l)
  }

  lemma {:induction false} WithoutTwice(a: seq<string>, p: string -> bool, q: string -> bool)
    ensures Without(Without(a, p), q) == Without(a, Or(p, q))
  {
    if a != [] {
      WithoutTwice(a[1..], p, q);
      if !p(a[0]) {
        assert ([a[0]] + Without(a[1..], p))[1..] == Without(a[1..], p);
      }
    }
  }

  lemma {:induction false} WithoutSame(a: seq<string>, p: string -> bool, q: string -> bool)
    requires forall l :: l in a ==> p(l) == q(l)
    ensures Without(a, p) == Without(a, q)
  {
    if a != [] {
      assert a[0] in a;
      WithoutSame(a[1..], p, q);
    }
  }

  /** The lines SKS takes for its own: those that bind one of the three keys, whoever wrote them, and the markers. */
  predicate IsManagedText(t: string) {
    || BindsKey(t, PROVIDER) || BindsKey(t, BASE_URL) || BindsKey(t, CATALOG)
    || t == PROVIDER_MARKER || t == BASE_URL_MARKER || t == CATALOG_MARKER
  }

  function ManagedTest(): string -> bool {
    OnTrim(IsManagedText)
  }

  /** What SKS takes for the user's: the lines of the zone that are not managed, and everything after the zone. */
  function UserContent(text: string): seq<string> {
    Without(Zone(Content(text)), ManagedTest()) + Tail(Content(text))
  }

  // ----- what each step does to the zone -----

  /** The text's zone, whether its cuts agree, and what follows the zone if they do. */
  ghost predicate State(t: string, zone: seq<string>, agree: bool, tail: seq<string>) {
    Zone(Content(t)) == zone && Agree(Content(t)) == agree && (agree ==> Tail(Content(t)) == tail)
  }

  lemma RemoveKeyState(t: string, key: string, zone: seq<string>, agree: bool, tail: seq<string>)
    requires State(t, zone, agree, tail) && IsName(key)
    ensures State(RemoveTopKey(t, key), Without(zone, KeyTest(key)), agree, tail)
  {
    assert IsNameChar(key[0]);
    LineTests(key, "x");
    CutTests();
    forall l ensures StartsBracket(l) ==> !KeyTest(key)(l) { BracketBindsNothing(l, key); }
    RemoveTopZone(t, IsBareHeader, KeyTest(key));
  }

  lemma RemoveLineState(t: string, marker: string, zone: seq<string>, agree: bool, tail: seq<string>)
    requires State(t, zone, agree, tail) && IsMarker(marker)
    ensures State(RemoveTopLine(t, marker), Without(zone, TargetTest(marker)), agree, tail)
  {
    LineTests("x", marker);
    CutTests();
    RemoveTopZone(t, StartsBracket, TargetTest(marker));
  }

  /** Removing all managed bindings filters the zone by one test. */
  lemma RemoveBindingsState(t: string, zone: seq<string>, agree: bool, tail: seq<string>)
    requires State(t, zone, agree, tail)
    ensures State(RemoveBindings(t), Without(zone, ManagedTest()), agree, tail)
  {
    Names();
    Markers();
    var k1, k2, k3 := KeyTest(PROVIDER), KeyTest(BASE_URL), KeyTest(CATALOG);
    var m1, m2, m3 := TargetTest(PROVIDER_MARKER), TargetTest(BASE_URL_MARKER), TargetTest(CATALOG_MARKER);
    var t1 := RemoveTopKey(t, PROVIDER);
    var t2 := RemoveTopKey(t1, BASE_URL);
    var t3 := RemoveTopKey(t2, CATALOG);
    var t4 := RemoveTopLine(t3, PROVIDER_MARKER);
    var t5 := RemoveTopLine(t4, BASE_URL_MARKER);
    RemoveKeyState(t, PROVIDER, zone, agree, tail);
    RemoveKeyState(t1, BASE_URL, Without(zone, k1), agree, tail);
    WithoutTwice(zone, k1, k2);
    RemoveKeyState(t2, CATALOG, Without(zone, Or(k1, k2)), agree, tail);
    WithoutTwice(zone, Or(k1, k2), k3);
    var k := Or(Or(k1, k2), k3);
    RemoveLineState(t3, PROVIDER_MARKER, Without(zone, k), agree, tail);
    WithoutTwice(zone, k, m1);
    RemoveLineState(t4, BASE_URL_MARKER, Without(zone, Or(k, m1)), agree, tail);
    WithoutTwice(zone, Or(k, m1), m2);
    RemoveLineState(t5, CATALOG_MARKER, Without(zone, Or(Or(k, m1), m2)), agree, tail);
    WithoutTwice(zone, Or(Or(k, m1), m2), m3);
    AllManaged();
    WithoutSame(zone, Or(Or(Or(k, m1), m2), m3), ManagedTest());
  }

  lemma AllManaged()
    ensures var k := Or(Or(KeyTest(PROVIDER), KeyTest(BASE_URL)), KeyTest(CATALOG));
            var all := Or(Or(Or(k, TargetTest(PROVIDER_MARKER)), TargetTest(BASE_URL_MARKER)), TargetTest(CATALOG_MARKER));
            forall l :: all(l) <==> ManagedTest()(l)
  {
    var k := Or(Or(KeyTest(PROVIDER), KeyTest(BASE_URL)), KeyTest(CATALOG));
    var all := Or(Or(Or(k, TargetTest(PROVIDER_MARKER)), TargetTest(BASE_URL_MARKER)), TargetTest(CATALOG_MARKER));
    forall l ensures all(l) <==> ManagedTest()(l) {
      TestMeanings(l, PROVIDER, PROVIDER_MARKER);
      TestMeanings(l, BASE_URL, BASE_URL_MARKER);
      TestMeanings(l, CATALOG, CATALOG_MARKER);
    }
  }

  lemma TestMeanings(l: string, key: string, marker: string)
    ensures KeyTest(key)(l) <==> BindsKey(Trim(l), key)
    ensures TargetTest(marker)(l) <==> Trim(l) == marker
    ensures ManagedTest()(l) <==> IsManagedText(Trim(l))
  {}

  /** Dropping an orphan marker first makes no difference to what removing all managed lines leaves. */
  lemma OrphanState(t: string, orphan: bool, marker: string, zone: seq<string>, agree: bool, tail: seq<string>)
    returns (zone': seq<string>)
    requires State(t, zone, agree, tail) && IsMarker(marker)
    requires marker == PROVIDER_MARKER || marker == BASE_URL_MARKER || marker == CATALOG_MARKER
    ensures State(RemoveLineIf(t, orphan, marker), zone', agree, tail)
    ensures Without(zone', ManagedTest()) == Without(zone, ManagedTest())
  {
    zone' := zone;
    if orphan {
      zone' := Without(zone, TargetTest(marker));
      RemoveLineState(t, marker, zone, agree, tail);
      WithoutTwice(zone, TargetTest(marker), ManagedTest());
      forall l ensures Or(TargetTest(marker), ManagedTest())(l) == ManagedTest()(l) { TestMeanings(l, PROVIDER, marker); }
      WithoutSame(zone, Or(TargetTest(marker), ManagedTest()), ManagedTest());
    }
  }

  lemma RemoveOrphansState(t: string, zone: seq<string>, agree: bool, tail: seq<string>) returns (zone': seq<string>)
    requires State(t, zone, agree, tail)
    ensures State(RemoveOrphans(t), zone', agree, tail)
    ensures Without(zone', ManagedTest()) == Without(zone, ManagedTest())
  {
    Markers();
    var o1 := HasTopLine(t, PROVIDER_MARKER) && TopValue(t, PROVIDER) != "openai";
    var o2 := HasTopLine(t, BASE_URL_MARKER) && TopValue(t, BASE_URL) == "";
    var o3 := HasTopLine(t, CATALOG_MARKER) && TopValue(t, CATALOG) == "";
    var t1 := RemoveLineIf(t, o1, PROVIDER_MARKER);
    var z1 := OrphanState(t, o1, PROVIDER_MARKER, zone, agree, tail);
    var z2 := OrphanState(t1, o2, BASE_URL_MARKER, z1, agree, tail);
    zone' := OrphanState(RemoveLineIf(t1, o2, BASE_URL_MARKER), o3, CATALOG_MARKER, z2, agree, tail);
  }

  /** Binding a key adds its marker and its line at the end of the zone, if the cuts agree. */
  lemma BindState(t: string, key: string, value: string, marker: string, zone: seq<string>, agree: bool, tail: seq<string>)
    requires State(t, zone, agree, tail) && IsName(key) && IsMarker(marker) && IsLine(value)
    requires forall l :: l in zone ==> !KeyTest(key)(l) && !TargetTest(marker)(l)
    ensures State(Bind(t, key, value, marker), zone + if agree then [marker, KeyText(key, value)] else [], agree, tail)
  {
    var line := KeyText(key, value);
    assert IsNameChar(key[0]);
    KeyTextFacts(key, value);
    MarkerFacts(marker, key);
    UpsertZone(t, key, value);
    var u := UpsertTop(t, key, value);
    if agree {
      MarkerZone(u, key, marker, zone, line);
    } else {
      MarkerMisses(u, key, marker);
      assert zone + [] == zone;
    }
  }

  // ----- the managed file -----

  /** No line binds the key and none is the marker. */
  predicate Free(lines: seq<string>, key: string, marker: string) {
    forall l :: l in lines ==> !KeyTest(key)(l) && !TargetTest(marker)(l)
  }

  function Block(marker: string, key: string, value: string): seq<string> {
    [marker, KeyText(key, value)]
  }

  lemma FreeConcat(a: seq<string>, b: seq<string>, key: string, marker: string)
    requires Free(a, key, marker) && Free(b, key, marker)
    ensures Free(a + b, key, marker)
  {}

  /** The block of one binding is free of the others. */
  lemma BlockIsFree(marker: string, key: string, value: string, key': string, marker': string)
    requires IsName(key) && IsName(key') && key != key' && IsMarker(marker) && IsMarker(marker') && marker != marker' && IsLine(value)
    ensures Free(Block(marker, key, value), key', marker')
  {
    KeyTextFacts(key, value);
    KeyTextBindsOne(key, value, key');
    MarkerFacts(marker, key');
    assert !TargetTest(marker')(KeyText(key, value));
  }

  lemma UserLinesAreFree(zone: seq<string>)
    ensures var user := Without(zone, ManagedTest());
            Free(user, PROVIDER, PROVIDER_MARKER) && Free(user, BASE_URL, BASE_URL_MARKER) && Free(user, CATALOG, CATALOG_MARKER)
  {
    WithoutKeepsLines(zone, ManagedTest());
    forall l | l in Without(zone, ManagedTest())
      ensures !KeyTest(PROVIDER)(l) && !TargetTest(PROVIDER_MARKER)(l) && !KeyTest(BASE_URL)(l)
              && !TargetTest(BASE_URL_MARKER)(l) && !KeyTest(CATALOG)(l) && !TargetTest(CATALOG_MARKER)(l)
    {
      TestMeanings(l, PROVIDER, PROVIDER_MARKER);
      TestMeanings(l, BASE_URL, BASE_URL_MARKER);
      TestMeanings(l, CATALOG, CATALOG_MARKER);
    }
  }

  function ProviderBlock(): seq<string> { Block(PROVIDER_MARKER, PROVIDER, "openai") }
  function BaseUrlBlock(baseUrl: string): seq<string> { Block(BASE_URL_MARKER, BASE_URL, baseUrl) }
  function CatalogBlock(catalog: string): seq<string> { Block(CATALOG_MARKER, CATALOG, catalog) }

  /** The blocks are free of one another's keys and markers. */
  lemma BlocksAreFree(baseUrl: string, catalog: string)
    requires IsLine(baseUrl) && IsLine(catalog)
    ensures Free(ProviderBlock(), BASE_URL, BASE_URL_MARKER) && Free(ProviderBlock(), CATALOG, CATALOG_MARKER)
    ensures Free(BaseUrlBlock(baseUrl), PROVIDER, PROVIDER_MARKER) && Free(BaseUrlBlock(baseUrl), CATALOG, CATALOG_MARKER)
    ensures Free(CatalogBlock(catalog), PROVIDER, PROVIDER_MARKER) && Free(CatalogBlock(catalog), BASE_URL, BASE_URL_MARKER)
  {
    Names();
    Markers();
    assert IsLine("openai");
    BlockIsFree(PROVIDER_MARKER, PROVIDER, "openai", BASE_URL, BASE_URL_MARKER);
    BlockIsFree(PROVIDER_MARKER, PROVIDER, "openai", CATALOG, CATALOG_MARKER);
    BlockIsFree(BASE_URL_MARKER, BASE_URL, baseUrl, PROVIDER, PROVIDER_MARKER);
    BlockIsFree(BASE_URL_MARKER, BASE_URL, baseUrl, CATALOG, CATALOG_MARKER);
    BlockIsFree(CATALOG_MARKER, CATALOG, catalog, PROVIDER, PROVIDER_MARKER);
    BlockIsFree(CATALOG_MARKER, CATALOG, catalog, BASE_URL, BASE_URL_MARKER);
  }

  /** When the cuts agree, the managed file's zone is the user's lines and then the three marked bindings. */
  lemma ManagedState(text: string, input: Input)
    requires Managed(text, input).Ok? && IsLine(input.baseUrl.value) && IsLine(Trim(input.catalogPath))
    ensures var user := Without(Zone(Content(text)), ManagedTest());
            var agree, tail := Agree(Content(text)), Tail(Content(text));
            State(Managed(text, input).text,
                  if agree then user + ProviderBlock() + BaseUrlBlock(input.baseUrl.value) + CatalogBlock(Trim(input.catalogPath))
                  else user,
                  agree, tail)
  {
    var baseUrl, catalog := input.baseUrl.value, Trim(input.catalogPath);
    var zone, agree, tail := Zone(Content(text)), Agree(Content(text)), Tail(Content(text));
    var user := Without(zone, ManagedTest());
    var t0 := RemoveOrphans(text);
    var zone' := RemoveOrphansState(text, zone, agree, tail);
    RemoveBindingsState(t0, zone', agree, tail);
    UserLinesAreFree(zone);
    BoundState(RemoveBindings(t0), baseUrl, catalog, user, agree, tail);
    ContentOfEnsured(Bound(t0, baseUrl, catalog));
  }

  lemma BoundState(t: string, baseUrl: string, catalog: string, user: seq<string>, agree: bool, tail: seq<string>)
    requires State(t, user, agree, tail) && IsLine(baseUrl) && IsLine(catalog)
    requires Free(user, PROVIDER, PROVIDER_MARKER) && Free(user, BASE_URL, BASE_URL_MARKER) && Free(user, CATALOG, CATALOG_MARKER)
    ensures State(Bind(Bind(Bind(t, PROVIDER, "openai", PROVIDER_MARKER), BASE_URL, baseUrl, BASE_URL_MARKER), CATALOG, catalog, CATALOG_MARKER),
                  if agree then user + ProviderBlock() + BaseUrlBlock(baseUrl) + CatalogBlock(catalog) else user, agree, tail)
  {
    Names();
    Markers();
    BlocksAreFree(baseUrl, catalog);
    var t1 := Bind(t, PROVIDER, "openai", PROVIDER_MARKER);
    var t2 := Bind(t1, BASE_URL, baseUrl, BASE_URL_MARKER);
    BindState(t, PROVIDER, "openai", PROVIDER_MARKER, user, agree, tail);
    if agree {
      FreeConcat(user, ProviderBlock(), BASE_URL, BASE_URL_MARKER);
      FreeConcat(user, ProviderBlock(), CATALOG, CATALOG_MARKER);
      BindState(t1, BASE_URL, baseUrl, BASE_URL_MARKER, user + ProviderBlock(), agree, tail);
      FreeConcat(user + ProviderBlock(), BaseUrlBlock(baseUrl), CATALOG, CATALOG_MARKER);
      BindState(t2, CATALOG, catalog, CATALOG_MARKER, user + ProviderBlock() + BaseUrlBlock(baseUrl), agree, tail);
    } else {
      assert user + [] == user;
      BindState(t1, BASE_URL, baseUrl, BASE_URL_MARKER, user, agree, tail);
      BindState(t2, CATALOG, catalog, CATALOG_MARKER, user, agree, tail);
    }
  }

  // ----- reading the managed file -----

  lemma FirstValueHead(l: string, rest: seq<string>, key: string)
    ensures FirstValue([l] + rest, key) == if LineValue(Trim(l), key) != "" then LineValue(Trim(l), key) else FirstValue(rest, key)
  {
    assert ([l] + rest)[1..] == rest;
  }

  lemma {:induction false} FirstValueOfContent(lines: seq<string>, key: string)
    requires key != ""
    ensures FirstValue(lines, key) == FirstValue(NonBlank(lines), key)
  {
    if lines != [] {
      var l, rest := lines[0], lines[1..];
      FirstValueOfContent(rest, key);
      TrimIgnoresTail(l);
      NonBlankOne(l);
      NonBlankConcat([l], rest);
      assert lines == [l] + rest;
      FirstValueHead(l, rest, key);
      FirstValueHead(TrimEnd(l), NonBlank(rest), key);
      assert [] + NonBlank(rest) == NonBlank(rest);
    }
  }

  lemma {:induction false} FirstValueSkips(a: seq<string>, b: seq<string>, key: string)
    requires forall l :: l in a ==> !KeyTest(key)(l)
    ensures FirstValue(a + b, key) == FirstValue(b, key)
  {
    if a == [] {
      assert a + b == b;
    } else {
      assert a[0] in a && (a + b)[1..] == a[1..] + b;
      FirstValueSkips(a[1..], b, key);
    }
  }

  /** Reading a text whose zone is not empty reads its zone. */
  lemma ReadsZone(t: string, key: string, marker: string)
    requires Zone(Content(t)) != [] && key != "" && marker != ""
    ensures TopValue(t, key) == FirstValue(Zone(Content(t)), key)
    ensures HasTopLine(t, marker) <==> exists l :: l in Zone(Content(t)) && TargetTest(marker)(l)
  {
    var lines := Split(t);
    var n := FirstIndex(lines, StartsBracket);
    ZoneOfLines(lines, n);
    assert n > 0 by { assert NonBlank(lines[..0]) == []; }
    assert ReadableTop(t) == lines[..n];
    FirstValueOfContent(lines[..n], key);
    MarkerInContent(lines[..n], marker);
  }

  lemma {:induction false} MarkerInContent(lines: seq<string>, marker: string)
    requires marker != ""
    ensures (exists l :: l in lines && Trim(l) == marker) <==> (exists l :: l in NonBlank(lines) && TargetTest(marker)(l))
  {
    if lines != [] {
      var l, rest := lines[0], lines[1..];
      MarkerInContent(rest, marker);
      NonBlankOne(l);
      NonBlankConcat([l], rest);
      assert lines == [l] + rest;
      TrimIgnoresTail(l);
      assert TrimStart("") == "";
      TestMeanings(TrimEnd(l), PROVIDER, marker);
      assert l in lines;
      if TrimEnd(l) != "" { assert TrimEnd(l) in NonBlank(lines); }
    }
  }

  /** What reading back a written value yields; the value itself unless it holds a quote. */
  function ReadBack(value: string): string {
    QuotedValue("\"" + value + "\"")
  }

  lemma PlainValueReadsBack(value: string)
    requires '"' !in value
    ensures ReadBack(value) == value
  {
    var r := "\"" + value + "\"";
    assert r[1..] == value + "\"";
    var n := FirstQuote(r[1..]);
    assert forall j :: 0 <= j < |value| ==> r[1..][j] == value[j] && value[j] in value;
    assert r[1..][|value|] == '"';
    assert n == |value|;
    assert r[1..][n + 1..] == "" && TrimStart("") == "";
    assert r[1..][..n] == value;
  }

  lemma KeyTextValue(key: string, value: string)
    requires IsName(key) && IsLine(value)
    ensures LineValue(Trim(KeyText(key, value)), key) == ReadBack(value)
  {
    KeyTextFacts(key, value);
    var t := KeyText(key, value);
    var quoted := "\"" + value + "\"";
    var r := t[|key|..];
    assert r == " = " + quoted;
    assert r[1..] == "= " + quoted && r[1..][1..] == " " + quoted && r[1..][1..][1..] == quoted;
    assert TrimStart(r) == r[1..];
    assert TrimStart(r[1..][1..]) == TrimStart(quoted) == quoted;
  }

  lemma BlockValue(a: seq<string>, marker: string, key: string, value: string, b: seq<string>)
    requires IsName(key) && IsMarker(marker) && IsLine(value) && Free(a, key, marker) && Free(b, key, marker)
    ensures FirstValue(a + Block(marker, key, value) + b, key) == ReadBack(value)
    ensures exists l :: l in a + Block(marker, key, value) + b && TargetTest(marker)(l)
  {
    MarkerFacts(marker, key);
    assert TargetTest(marker)(marker);
    KeyTextValue(key, value);
    PairValue(a, marker, KeyText(key, value), b, key);
  }

  lemma PairValue(a: seq<string>, m: string, k: string, b: seq<string>, key: string)
    requires forall l :: l in a + [m] + b ==> !KeyTest(key)(l)
    ensures FirstValue(a + [m, k] + b, key) == LineValue(Trim(k), key)
    ensures m in a + [m, k] + b
  {
    assert a + [m, k] + b == (a + [m]) + ([k] + b);
    FirstValueSkips(a + [m], [k] + b, key);
    FirstValueHead(k, b, key);
    FirstValueSkips(b, [], key);
    assert b + [] == b;
  }

  lemma DropBlock(a: seq<string>, marker: string, key: string, value: string, b: seq<string>)
    requires IsName(key) && IsMarker(marker) && IsLine(value) && Free(a, key, marker) && Free(b, key, marker)
    ensures Without(Without(a + Block(marker, key, value) + b, KeyTest(key)), TargetTest(marker)) == a + b
  {
    var k := KeyText(key, value);
    MarkerFacts(marker, key);
    KeyTextFacts(key, value);
    DropPair(a, marker, k, b, KeyTest(key), TargetTest(marker));
  }

  lemma DropOne(a: seq<string>, x: string, b: seq<string>, p: string -> bool)
    requires p(x) && (forall l :: l in a ==> !p(l)) && (forall l :: l in b ==> !p(l))
    ensures Without(a + [x] + b, p) == a + b
  {
    WithoutConcat(a + [x], b, p);
    WithoutConcat(a, [x], p);
    WithoutOne(x, p);
    WithoutNothing(a, p);
    WithoutNothing(b, p);
  }

  lemma DropPair(a: seq<string>, m: string, k: string, b: seq<string>, p: string -> bool, q: string -> bool)
    requires q(m) && p(k) && !p(m) && (forall l :: l in a ==> !p(l) && !q(l)) && (forall l :: l in b ==> !p(l) && !q(l))
    ensures Without(Without(a + [m, k] + b, p), q) == a + b
  {
    assert a + [m, k] + b == (a + [m]) + [k] + b;
    DropOne(a + [m], k, b, p);
    DropOne(a, m, b, q);
  }

  /** Releasing a binding whose block is in the zone: fails if the value was unreadable, and drops the block otherwise. */
  lemma ReleaseBlock(t: string, a: seq<string>, marker: string, key: string, value: string, b: seq<string>, tail: seq<string>,
                     read: string, valid: bool)
    requires State(t, a + Block(marker, key, value) + b, true, tail)
    requires IsName(key) && IsMarker(marker) && IsLine(value) && Free(a, key, marker) && Free(b, key, marker)
    ensures var r := Release(Ok(t), marker, key, read, valid);
            (r.Ok? <==> valid) && (r.Ok? ==> State(r.text, a + b, true, tail))
  {
    BlockValue(a, marker, key, value, b);
    ReadsZone(t, key, marker);
    DropBlock(a, marker, key, value, b);
    RemoveKeyState(t, key, a + Block(marker, key, value) + b, true, tail);
    RemoveLineState(RemoveTopKey(t, key), marker, Without(a + Block(marker, key, value) + b, KeyTest(key)), true, tail);
  }

  /** Reading a binding's value off a zone that holds its block. */
  lemma BlockIsRead(t: string, a: seq<string>, marker: string, key: string, value: string, b: seq<string>)
    requires Zone(Content(t)) == a + Block(marker, key, value) + b
    requires IsName(key) && IsMarker(marker) && IsLine(value) && Free(a, key, marker) && Free(b, key, marker)
    ensures TopValue(t, key) == ReadBack(value) && HasTopLine(t, marker)
  {
    BlockValue(a, marker, key, value, b);
    ReadsZone(t, key, marker);
  }

  /** Both values that managing writes read back. */
  predicate ReadableValues(baseUrl: string, catalog: string) {
    ReadBack(baseUrl) != "" && ReadBack(catalog) != ""
  }

  /** A zone of user lines followed by the three blocks. */
  ghost predicate IsManagedZone(zone: seq<string>, user: seq<string>, baseUrl: string, catalog: string) {
    && zone == user + ProviderBlock() + BaseUrlBlock(baseUrl) + CatalogBlock(catalog)
    && IsLine(baseUrl) && IsLine(catalog)
    && Free(user, PROVIDER, PROVIDER_MARKER) && Free(user, BASE_URL, BASE_URL_MARKER) && Free(user, CATALOG, CATALOG_MARKER)
  }

  lemma ManagedZoneIsRead(u: string, zone: seq<string>, user: seq<string>, baseUrl: string, catalog: string)
    requires IsManagedZone(zone, user, baseUrl, catalog) && Zone(Content(u)) == zone
    ensures TopValue(u, PROVIDER) == "openai" && TopValue(u, BASE_URL) == ReadBack(baseUrl) && TopValue(u, CATALOG) == ReadBack(catalog)
    ensures HasTopLine(u, PROVIDER_MARKER) && HasTopLine(u, BASE_URL_MARKER) && HasTopLine(u, CATALOG_MARKER)
  {
    var p, b, c := ProviderBlock(), BaseUrlBlock(baseUrl), CatalogBlock(catalog);
    Names();
    Markers();
    BlocksAreFree(baseUrl, catalog);
    assert IsLine("openai");
    PlainValueReadsBack("openai");
    FreeConcat(b, c, PROVIDER, PROVIDER_MARKER);
    FreeConcat(user, p, BASE_URL, BASE_URL_MARKER);
    FreeConcat(user, p, CATALOG, CATALOG_MARKER);
    FreeConcat(user + p, b, CATALOG, CATALOG_MARKER);
    Associates(user + p, b, c);
    ConcatEmpty(user + p + b + c);
    BlockIsRead(u, user, PROVIDER_MARKER, PROVIDER, "openai", b + c);
    BlockIsRead(u, user + p, BASE_URL_MARKER, BASE_URL, baseUrl, c);
    BlockIsRead(u, user + p + b, CATALOG_MARKER, CATALOG, catalog, []);
  }

  /** The three turns of the unmanage loop on a managed zone. */
  lemma ReleaseAll(u: string, zone: seq<string>, user: seq<string>, baseUrl: string, catalog: string, tail: seq<string>)
    requires IsManagedZone(zone, user, baseUrl, catalog) && State(u, zone, true, tail)
    ensures var url, file := ReadBack(baseUrl), ReadBack(catalog);
            var r1 := Release(Ok(u), PROVIDER_MARKER, PROVIDER, "openai", true);
            var r2 := Release(r1, BASE_URL_MARKER, BASE_URL, url, url != "");
            var r3 := Release(r2, CATALOG_MARKER, CATALOG, file, file != "");
            (r3.Ok? <==> url != "" && file != "") && (r3.Ok? ==> State(r3.text, user, true, tail))
  {
    var url, file := ReadBack(baseUrl), ReadBack(catalog);
    var p, b, c := ProviderBlock(), BaseUrlBlock(baseUrl), CatalogBlock(catalog);
    Names();
    Markers();
    BlocksAreFree(baseUrl, catalog);
    assert IsLine("openai");
    FreeConcat(b, c, PROVIDER, PROVIDER_MARKER);
    Associates(user + p, b, c);
    ReleaseBlock(u, user, PROVIDER_MARKER, PROVIDER, "openai", b + c, tail, "openai", true);
    var r1 := Release(Ok(u), PROVIDER_MARKER, PROVIDER, "openai", true);
    Associates(user, b, c);
    ReleaseBlock(r1.text, user, BASE_URL_MARKER, BASE_URL, baseUrl, c, tail, url, url != "");
    var r2 := Release(r1, BASE_URL_MARKER, BASE_URL, url, url != "");
    if r2.Ok? {
      ConcatEmpty(user + c);
      ConcatEmpty(user);
      ReleaseBlock(r2.text, user, CATALOG_MARKER, CATALOG, catalog, [], tail, file, file != "");
    }
  }

  /**
   * For every file whose first bracket line is a bare table header, and every input the
   * manager accepts with single-line values: unmanaging the managed file succeeds exactly
   * when the written values read back, and then the file's content is its lines that were
   * not managed, in order.
   */
  lemma UnmanageInvertsManage(text: string, input: Input)
    requires Managed(text, input).Ok? && IsLine(input.baseUrl.value) && IsLine(Trim(input.catalogPath))
    requires Agree(Content(text))
    ensures var r := Unmanaged(Managed(text, input).text);
            && (r.Ok? <==> ReadableValues(input.baseUrl.value, Trim(input.catalogPath)))
            && (r.Ok? ==> Content(r.text) == UserContent(text))
  {
    var u, baseUrl, catalog := Managed(text, input).text, input.baseUrl.value, Trim(input.catalogPath);
    var user, tail := Without(Zone(Content(text)), ManagedTest()), Tail(Content(text));
    var zone := user + ProviderBlock() + BaseUrlBlock(baseUrl) + CatalogBlock(catalog);
    ManagedState(text, input);
    UserLinesAreFree(Zone(Content(text)));
    ManagedZoneIsRead(u, zone, user, baseUrl, catalog);
    ReleaseAll(u, zone, user, baseUrl, catalog, tail);
    UnmanagedText(u, baseUrl, catalog);
  }

  lemma UnmanagedText(u: string, baseUrl: string, catalog: string)
    requires TopValue(u, PROVIDER) == "openai" && TopValue(u, BASE_URL) == ReadBack(baseUrl) && TopValue(u, CATALOG) == ReadBack(catalog)
    ensures var url, file := ReadBack(baseUrl), ReadBack(catalog);
            var r1 := Release(Ok(u), PROVIDER_MARKER, PROVIDER, "openai", true);
            var r2 := Release(r1, BASE_URL_MARKER, BASE_URL, url, url != "");
            var r3 := Release(r2, CATALOG_MARKER, CATALOG, file, file != "");
            && Unmanaged(u).Ok? == r3.Ok?
            && (r3.Ok? ==> Content(Unmanaged(u).text) == Content(r3.text) == Zone(Content(r3.text)) + Tail(Content(r3.text)))
  {
    var url, file := ReadBack(baseUrl), ReadBack(catalog);
    var r1 := Release(Ok(u), PROVIDER_MARKER, PROVIDER, "openai", true);
    var r2 := Release(r1, BASE_URL_MARKER, BASE_URL, url, url != "");
    var r3 := Release(r2, CATALOG_MARKER, CATALOG, file, file != "");
    if r3.Ok? {
      ContentOfEnsured(r3.text);
      ZoneSplits(Content(r3.text));
    }
  }

  lemma {:induction false} UserHasNoManagedLine(zone: seq<string>)
    ensures forall l :: l in Without(zone, ManagedTest()) ==> !ManagedTest()(l)
  {
    WithoutKeepsLines(zone, ManagedTest());
  }

  lemma BlocksAreManaged(user: seq<string>, b: seq<string>, c: seq<string>)
    ensures exists l :: l in user + ProviderBlock() + b + c && ManagedTest()(l)
  {
    Markers();
    Names();
    MarkerFacts(PROVIDER_MARKER, PROVIDER);
    TestMeanings(PROVIDER_MARKER, PROVIDER, PROVIDER_MARKER);
    assert ProviderBlock()[0] == PROVIDER_MARKER;
    assert PROVIDER_MARKER in user + ProviderBlock() + b + c;
  }

  /**
   * Exactly when managing puts its markers where unmanaging looks for them: when the
   * first bracket line is a bare header, the managed file's top level holds the user's
   * lines and each marked binding once; otherwise it holds no managed line at all.
   */
  lemma ManagedIffCutsAgree(text: string, input: Input)
    requires Managed(text, input).Ok? && IsLine(input.baseUrl.value) && IsLine(Trim(input.catalogPath))
    ensures var zone, user := Zone(Content(Managed(text, input).text)), Without(Zone(Content(text)), ManagedTest());
            && (Agree(Content(text)) <==> exists l :: l in zone && ManagedTest()(l))
            && zone == if Agree(Content(text))
                       then user + ProviderBlock() + BaseUrlBlock(input.baseUrl.value) + CatalogBlock(Trim(input.catalogPath))
                       else user
  {
    ManagedState(text, input);
    UserHasNoManagedLine(Zone(Content(text)));
    BlocksAreManaged(Without(Zone(Content(text)), ManagedTest()), BaseUrlBlock(input.baseUrl.value), CatalogBlock(Trim(input.catalogPath)));
  }

  // ----- managing again -----

  lemma BlockIsManaged(marker: string, key: string, value: string)
    requires IsMarker(marker) && IsName(key) && IsLine(value)
    requires (marker == PROVIDER_MARKER && key == PROVIDER) || (marker == BASE_URL_MARKER && key == BASE_URL) || (marker == CATALOG_MARKER && key == CATALOG)
    ensures Without(Block(marker, key, value), ManagedTest()) == []
  {
    KeyTextFacts(key, value);
    MarkerFacts(marker, key);
    TestMeanings(marker, key, marker);
    TestMeanings(KeyText(key, value), key, marker);
    WithoutOne(marker, ManagedTest());
    WithoutOne(KeyText(key, value), ManagedTest());
    WithoutConcat([marker], [KeyText(key, value)], ManagedTest());
    assert Block(marker, key, value) == [marker] + [KeyText(key, value)];
  }

  lemma UserOfManagedZone(zone: seq<string>, baseUrl: string, catalog: string)
    requires IsLine(baseUrl) && IsLine(catalog)
    ensures var user := Without(zone, ManagedTest());
            Without(user + ProviderBlock() + BaseUrlBlock(baseUrl) + CatalogBlock(catalog), ManagedTest()) == user
  {
    var user, t := Without(zone, ManagedTest()), ManagedTest();
    var p, b, c := ProviderBlock(), BaseUrlBlock(baseUrl), CatalogBlock(catalog);
    Names();
    Markers();
    assert IsLine("openai");
    BlockIsManaged(PROVIDER_MARKER, PROVIDER, "openai");
    BlockIsManaged(BASE_URL_MARKER, BASE_URL, baseUrl);
    BlockIsManaged(CATALOG_MARKER, CATALOG, catalog);
    WithoutConcat(user + p + b, c, t);
    WithoutConcat(user + p, b, t);
    WithoutConcat(user, p, t);
    UserHasNoManagedLine(zone);
    WithoutNothing(user, t);
    ConcatEmpty(user);
  }

  lemma NothingToClear(m: string)
    requires TopValue(m, PROVIDER) == "openai" && TopValue(m, BASE_URL) != "" && TopValue(m, CATALOG) != ""
    requires HasTopLine(m, PROVIDER_MARKER) && HasTopLine(m, BASE_URL_MARKER) && HasTopLine(m, CATALOG_MARKER)
    ensures RemoveOrphans(m) == m && Conflict(m).None?
  {}

  /** Managing a managed file is accepted, and is as if the first managing had not happened. */
  lemma ManagingAgainReplaces(text: string, input: Input, input': Input)
    requires Managed(text, input).Ok? && IsLine(input.baseUrl.value) && IsLine(Trim(input.catalogPath))
    requires Managed(text, input').Ok? && IsLine(input'.baseUrl.value) && IsLine(Trim(input'.catalogPath))
    requires Agree(Content(text)) && ReadableValues(input.baseUrl.value, Trim(input.catalogPath))
    ensures var m := Managed(text, input).text;
            Managed(m, input').Ok? && Content(Managed(m, input').text) == Content(Managed(text, input').text)
  {
    var m, c := Managed(text, input).text, Content(text);
    ManagedIsAccepted(text, input, input');
    SameContent(text, m, input');
  }

  lemma ManagedIsAccepted(text: string, input: Input, input': Input)
    requires Managed(text, input).Ok? && IsLine(input.baseUrl.value) && IsLine(Trim(input.catalogPath))
    requires Managed(text, input').Ok?
    requires Agree(Content(text)) && ReadableValues(input.baseUrl.value, Trim(input.catalogPath))
    ensures var m := Managed(text, input).text;
            && Managed(m, input').Ok? && Agree(Content(m)) && Tail(Content(m)) == Tail(Content(text))
            && Without(Zone(Content(m)), ManagedTest()) == Without(Zone(Content(text)), ManagedTest())
  {
    var m, baseUrl, catalog := Managed(text, input).text, input.baseUrl.value, Trim(input.catalogPath);
    var user := Without(Zone(Content(text)), ManagedTest());
    ManagedState(text, input);
    UserLinesAreFree(Zone(Content(text)));
    ManagedZoneIsRead(m, Zone(Content(m)), user, baseUrl, catalog);
    NothingToClear(m);
    UserOfManagedZone(Zone(Content(text)), baseUrl, catalog);
  }

  /** The managed content depends only on the user's lines. */
  lemma SameContent(a: string, b: string, input: Input)
    requires Managed(a, input).Ok? && Managed(b, input).Ok? && IsLine(input.baseUrl.value) && IsLine(Trim(input.catalogPath))
    requires Agree(Content(a)) && Agree(Content(b)) && Tail(Content(a)) == Tail(Content(b))
    requires Without(Zone(Content(a)), ManagedTest()) == Without(Zone(Content(b)), ManagedTest())
    ensures Content(Managed(a, input).text) == Content(Managed(b, input).text)
  {
    ManagedState(a, input);
    ManagedState(b, input);
    ZoneSplits(Content(Managed(a, input).text));
    ZoneSplits(Content(Managed(b, input).text));
  }
}
