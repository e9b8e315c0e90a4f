/** Stripping the listed profiles: what goes, what stays, and when a second run changes nothing. */
module ProfileStrip {
  import opened Sequences
  import opened Text
  import opened TomlText
  import opened NeatText
  import opened ProfileTables
  import opened TableUpsert

  function HeaderOf(profile: string): string -> bool {
    HeaderTest(TableOf(profile))
  }

  function SelectorOf(profile: string): string -> bool {
    SelectorTest(SELECTOR_KEY, profile)
  }

  predicate IsProfile(profile: string) {
    IsTable(TableOf(profile))
  }

  predicate AreProfiles(names: seq<string>) {
    forall i :: 0 <= i < |names| ==> IsProfile(names[i])
  }

  // ----- the removals on content -----

  function DropTable(c: seq<string>, profile: string): seq<string> {
    match PartsOf(c, HeaderOf(profile))
    case Absent => c
    case Present(before, _, _, after) => before + after
  }

  function DropSelector(c: seq<string>, profile: string): seq<string> {
    DropFirst(Top(c), SelectorOf(profile)) + Rest(c)
  }

  function Drop(c: seq<string>, profile: string): seq<string> {
    DropSelector(DropTable(c, profile), profile)
  }

  function DropAll(c: seq<string>, names: seq<string>): seq<string>
    decreases |names|
  {
    if names == [] then c else DropAll(Drop(c, names[0]), names[1..])
  }

  lemma SelectorIsLineTest(profile: string)
    ensures IsLineTest(SelectorOf(profile))
  {
    assert !SelectsTest(SELECTOR_KEY, profile)("");
    OnTrimIsLineTest(SelectsTest(SELECTOR_KEY, profile));
  }

  lemma ContentOfNeatJoin(lines: seq<string>)
    requires AreLines(lines)
    ensures Content(Neat(Join(lines))) == NonBlank(lines)
  {
    ContentOfNeat(Join(lines));
    ContentOfJoin(lines);
  }

  lemma ContentOfRemoveTable(t: string, profile: string)
    requires IsProfile(profile)
    ensures Content(RemoveTable(t, TableOf(profile))) == DropTable(Content(t), profile)
  {
    var lines, h := Split(TrimEnd(t)), HeaderOf(profile);
    ContentOfTrimEnd(t);
    SplitLines(TrimEnd(t));
    PartsOfContent(lines, TableOf(profile));
    PartsJoin(lines, h);
    match PartsOf(lines, h)
    case Absent =>
    case Present(b, x, m, a) =>
      PartsAreLines(lines, b, x, m, a);
      AreLinesConcat(b, a);
      ContentOfNeatJoin(b + a);
      NonBlankConcat(b, a);
  }

  lemma DropFirstHead(x: string, rest: seq<string>, p: string -> bool)
    ensures DropFirst([x] + rest, p) == if p(x) then rest else [x] + DropFirst(rest, p)
  {
    assert ([x] + rest)[1..] == rest;
  }

  lemma {:induction false} NonBlankOfDropFirst(lines: seq<string>, p: string -> bool)
    requires IsLineTest(p)
    ensures NonBlank(DropFirst(lines, p)) == DropFirst(NonBlank(lines), p)
  {
    if lines != [] {
      var l, rest := lines[0], lines[1..];
      assert p(TrimEnd(l)) == p(l);
      NonBlankOfDropFirst(rest, p);
      NonBlankConcat([l], rest);
      NonBlankConcat([l], DropFirst(rest, p));
      NonBlankOne(l);
      assert lines == [l] + rest;
      EmptyConcat(NonBlank(rest));
      EmptyConcat(NonBlank(DropFirst(rest, p)));
      if TrimEnd(l) != "" { DropFirstHead(TrimEnd(l), NonBlank(rest), p); }
    }
  }

  lemma {:induction false} DropFirstLines(lines: seq<string>, p: string -> bool)
    ensures forall l :: l in DropFirst(lines, p) ==> l in lines
  {
    if lines != [] { DropFirstLines(lines[1..], p); }
  }

  lemma PartsOfCut(lines: seq<string>, n: nat)
    requires AreLines(lines) && n <= |lines|
    ensures AreLines(lines[..n]) && AreLines(lines[n..])
  {}

  lemma ContentOfRemoveSelector(t: string, profile: string)
    ensures Content(RemoveSelector(t, SELECTOR_KEY, profile)) == DropSelector(Content(t), profile)
  {
    var lines, p := Split(t), SelectorOf(profile);
    var top := DropFirst(Top(lines), p);
    SplitLines(t);
    SelectorIsLineTest(profile);
    BracketTests();
    CutOfContent(lines, IsBareHeader);
    PartsOfCut(lines, FirstIndex(lines, IsBareHeader));
    DropFirstLines(Top(lines), p);
    assert AreLines(top) by { assert forall i :: 0 <= i < |top| ==> top[i] in top; }
    AreLinesConcat(top, Rest(lines));
    ContentOfNeatJoin(top + Rest(lines));
    NonBlankConcat(top, Rest(lines));
    NonBlankOfDropFirst(Top(lines), p);
  }

  lemma ContentOfRemoveLegacy(t: string, profile: string)
    requires IsProfile(profile)
    ensures Content(RemoveLegacy(t, profile)) == Drop(Content(t), profile)
  {
    ContentOfRemoveTable(t, profile);
    ContentOfRemoveSelector(RemoveTable(t, TableOf(profile)), profile);
  }

  lemma {:induction false} ContentOfStrip(t: string, names: seq<string>)
    requires AreProfiles(names)
    ensures Content(StripAll(t, names)) == DropAll(Content(t), names)
    decreases |names|
  {
    if names != [] {
      ContentOfRemoveLegacy(t, names[0]);
      ContentOfStrip(RemoveLegacy(t, names[0]), names[1..]);
    }
  }

  // ----- what should stay -----

  predicate IsListed(section: string, names: seq<string>) {
    exists i :: 0 <= i < |names| && section == HeaderText(TableOf(names[i]))
  }

  function SectionAfter(line: string, section: string): string {
    if IsBareHeader(line) then Trim(line) else section
  }

  /** Lines of listed tables go, and listed selectors at top level (the section with no header). */
  predicate Goes(line: string, section: string, names: seq<string>) {
    IsListed(section, names) || (section == "" && exists i :: 0 <= i < |names| && SelectorOf(names[i])(line))
  }

  /** The content that is neither in a listed table nor a listed selector, in order. */
  function Keep(c: seq<string>, section: string, names: seq<string>): seq<string> {
    if c == [] then []
    else
      var s := SectionAfter(c[0], section);
      (if Goes(c[0], s, names) then [] else [c[0]]) + Keep(c[1..], s, names)
  }

  function SectionsAfter(c: seq<string>, section: string): string {
    if c == [] then section else SectionsAfter(c[1..], SectionAfter(c[0], section))
  }

  lemma KeepHead(l: string, rest: seq<string>, section: string, names: seq<string>)
    ensures var s := SectionAfter(l, section);
            && Keep([l] + rest, section, names) == (if Goes(l, s, names) then [] else [l]) + Keep(rest, s, names)
            && SectionsAfter([l] + rest, section) == SectionsAfter(rest, s)
  {
    assert ([l] + rest)[1..] == rest;
  }

  lemma {:induction false} KeepConcat(a: seq<string>, b: seq<string>, section: string, names: seq<string>)
    ensures Keep(a + b, section, names) == Keep(a, section, names) + Keep(b, SectionsAfter(a, section), names)
  {
    if a == [] {
      EmptyConcat(b);
      EmptyConcat(Keep(b, section, names));
    } else {
      var l, rest, s := a[0], a[1..], SectionAfter(a[0], section);
      KeepConcat(rest, b, s, names);
      KeepHead(l, rest + b, section, names);
      KeepHead(l, rest, section, names);
      assert a == [l] + rest;
      Associates([l], rest, b);
      Associates(if Goes(l, s, names) then [] else [l], Keep(rest, s, names), Keep(b, SectionsAfter(rest, s), names));
    }
  }

  /** A listed table goes entirely. */
  lemma {:induction false} KeepListed(body: seq<string>, section: string, names: seq<string>)
    requires NoHeader(body) && IsListed(section, names)
    ensures Keep(body, section, names) == [] && SectionsAfter(body, section) == section
  {
    if body != [] { KeepListed(body[1..], section, names); }
  }

  lemma KeepFromHeader(c: seq<string>, section: string, section': string, names: seq<string>)
    requires c == [] || IsBareHeader(c[0])
    ensures Keep(c, section, names) == Keep(c, section', names)
  {}

  lemma KeepOne(l: string, section: string, names: seq<string>)
    ensures Keep([l], section, names) == if Goes(l, SectionAfter(l, section), names) then [] else [l]
    ensures SectionsAfter([l], section) == SectionAfter(l, section)
  {
    assert [l][1..] == [];
  }

  lemma KeepWithoutTable(c: seq<string>, profile: string, section: string, names: seq<string>)
    requires IsProfile(profile) && profile in names
    ensures Keep(DropTable(c, profile), section, names) == Keep(c, section, names)
  {
    var h := HeaderOf(profile);
    PartsJoin(c, h);
    match PartsOf(c, h)
    case Absent =>
    case Present(b, x, m, a) => KeepSkipsTable(b, x, m, a, profile, section, names);
  }

  /** A listed table followed by another header goes. */
  lemma KeepFromTable(x: string, m: seq<string>, a: seq<string>, section: string, names: seq<string>)
    requires IsBareHeader(x) && IsListed(Trim(x), names) && NoHeader(m) && (a == [] || IsBareHeader(a[0]))
    ensures Keep([x] + (m + a), section, names) == Keep(a, section, names)
  {
    KeepConcat([x], m + a, section, names);
    KeepConcat(m, a, Trim(x), names);
    KeepOne(x, section, names);
    KeepListed(m, Trim(x), names);
    KeepFromHeader(a, Trim(x), section, names);
    EmptyConcat(Keep(a, section, names));
  }

  lemma KeepSkipsTable(b: seq<string>, x: string, m: seq<string>, a: seq<string>, profile: string, section: string, names: seq<string>)
    requires IsProfile(profile) && profile in names && AreParts(b, x, m, a, HeaderOf(profile))
    ensures Keep(b + ([x] + (m + a)), section, names) == Keep(b + a, section, names)
  {
    HeaderIsBare(TableOf(profile));
    TestIsHeader(x, profile);
    ListedProfile(profile, names);
    KeepConcat(b, [x] + (m + a), section, names);
    KeepConcat(b, a, section, names);
    KeepFromTable(x, m, a, SectionsAfter(b, section), names);
  }

  lemma TestIsHeader(x: string, profile: string)
    ensures HeaderOf(profile)(x) <==> Trim(x) == HeaderText(TableOf(profile))
  {}

  lemma ListedProfile(profile: string, names: seq<string>)
    requires profile in names
    ensures IsListed(HeaderText(TableOf(profile)), names)
  {
    var i :| 0 <= i < |names| && names[i] == profile;
    assert HeaderText(TableOf(names[i])) == HeaderText(TableOf(profile));
  }

  function ListedSelector(names: seq<string>): string -> bool {
    (l: string) => exists i :: 0 <= i < |names| && SelectorOf(names[i])(l)
  }

  lemma TopIsListed(names: seq<string>)
    ensures !IsListed("", names)
  {
    assert forall n: string :: HeaderText(n)[0] == '[';
  }

  /** At top level, exactly the listed selectors go. */
  lemma {:induction false} KeepTop(top: seq<string>, names: seq<string>)
    requires NoHeader(top)
    ensures Keep(top, "", names) == Without(top, ListedSelector(names)) && SectionsAfter(top, "") == ""
  {
    TopIsListed(names);
    if top != [] { KeepTop(top[1..], names); }
  }

  lemma TopHasNoHeader(c: seq<string>)
    ensures NoHeader(Top(c)) && c == Top(c) + Rest(c) && (Rest(c) == [] || IsBareHeader(Rest(c)[0]))
  {}

  lemma KeepTopRest(top: seq<string>, rest: seq<string>, names: seq<string>)
    requires NoHeader(top)
    ensures Keep(top + rest, "", names) == Without(top, ListedSelector(names)) + Keep(rest, "", names)
  {
    KeepConcat(top, rest, "", names);
    KeepTop(top, names);
  }

  lemma {:induction false} WithoutDropped(a: seq<string>, p: string -> bool, q: string -> bool)
    requires forall l :: p(l) ==> q(l)
    ensures Without(DropFirst(a, p), q) == Without(a, q)
  {
    if a != [] && !p(a[0]) {
      WithoutDropped(a[1..], p, q);
      assert ([a[0]] + DropFirst(a[1..], p))[1..] == DropFirst(a[1..], p);
    }
  }

  lemma {:induction false} DropFirstNoHeader(a: seq<string>, p: string -> bool)
    requires NoHeader(a)
    ensures NoHeader(DropFirst(a, p))
  {
    var r := DropFirst(a, p);
    DropFirstLines(a, p);
    assert forall i :: 0 <= i < |r| ==> r[i] in r;
  }

  lemma KeepWithoutSelector(c: seq<string>, profile: string, names: seq<string>)
    requires profile in names
    ensures Keep(DropSelector(c, profile), "", names) == Keep(c, "", names)
  {
    var p := SelectorOf(profile);
    TopHasNoHeader(c);
    DropFirstNoHeader(Top(c), p);
    KeepTopRest(Top(c), Rest(c), names);
    KeepTopRest(DropFirst(Top(c), p), Rest(c), names);
    SelectorIsListed(profile, names);
    WithoutDropped(Top(c), p, ListedSelector(names));
  }

  lemma SelectorIsListed(profile: string, names: seq<string>)
    requires profile in names
    ensures forall l :: SelectorOf(profile)(l) ==> ListedSelector(names)(l)
  {
    var i :| 0 <= i < |names| && names[i] == profile;
    forall l | SelectorOf(profile)(l) ensures ListedSelector(names)(l) { assert SelectorOf(names[i])(l); }
  }

  /** Stripping loses nothing it should keep. */
  lemma {:induction false} KeepAfterDropping(c: seq<string>, rest: seq<string>, names: seq<string>)
    requires AreProfiles(names) && (forall i :: 0 <= i < |rest| ==> rest[i] in names)
    ensures Keep(DropAll(c, rest), "", names) == Keep(c, "", names)
    decreases |rest|
  {
    if rest != [] {
      assert rest[0] in names;
      KeepWithoutTable(c, rest[0], "", names);
      KeepWithoutSelector(DropTable(c, rest[0]), rest[0], names);
      KeepAfterDropping(Drop(c, rest[0]), rest[1..], names);
    }
  }

  // ----- nothing left to strip -----

  /** No listed table and no listed selector at top level. */
  predicate IsStripped(c: seq<string>, names: seq<string>) {
    forall i :: 0 <= i < |names| ==> IsStrippedOf(c, names[i])
  }

  predicate IsStrippedOf(c: seq<string>, profile: string) {
    (forall l :: l in c ==> !HeaderOf(profile)(l)) && (forall l :: l in Top(c) ==> !SelectorOf(profile)(l))
  }

  lemma {:induction false} DropFirstLength(a: seq<string>, p: string -> bool)
    ensures if exists l :: l in a && p(l) then |DropFirst(a, p)| == |a| - 1 else DropFirst(a, p) == a
  {
    if a != [] {
      DropFirstLength(a[1..], p);
      assert a == [a[0]] + a[1..];
    }
  }

  lemma DropTableLength(c: seq<string>, profile: string)
    ensures if exists l :: l in c && HeaderOf(profile)(l) then |DropTable(c, profile)| < |c| else DropTable(c, profile) == c
  {
    PartsJoin(c, HeaderOf(profile));
  }

  lemma DropSelectorLength(c: seq<string>, profile: string)
    ensures if exists l :: l in Top(c) && SelectorOf(profile)(l) then |DropSelector(c, profile)| < |c| else DropSelector(c, profile) == c
  {
    DropFirstLength(Top(c), SelectorOf(profile));
    TopHasNoHeader(c);
  }

  lemma DropLength(c: seq<string>, profile: string)
    ensures if IsStrippedOf(c, profile) then Drop(c, profile) == c else |Drop(c, profile)| < |c|
  {
    DropTableLength(c, profile);
    DropSelectorLength(c, profile);
    DropSelectorLength(DropTable(c, profile), profile);
  }

  /** Dropping changes nothing exactly when nothing is left to drop. */
  lemma {:induction false} DropAllLength(c: seq<string>, names: seq<string>)
    ensures if IsStripped(c, names) then DropAll(c, names) == c else |DropAll(c, names)| < |c|
    decreases |names|
  {
    if names != [] {
      DropLength(c, names[0]);
      DropAllLength(Drop(c, names[0]), names[1..]);
      StrippedHead(c, names);
    }
  }

  lemma StrippedHead(c: seq<string>, names: seq<string>)
    requires names != []
    ensures IsStripped(c, names) <==> IsStrippedOf(c, names[0]) && IsStripped(c, names[1..])
  {
    if IsStrippedOf(c, names[0]) && IsStripped(c, names[1..]) {
      forall i | 0 <= i < |names| ensures IsStrippedOf(c, names[i]) {
        if i > 0 { assert names[i] == names[1..][i - 1]; }
      }
    }
  }

  lemma ListedHeader(l: string, names: seq<string>)
    ensures IsListed(Trim(l), names) <==> exists i :: 0 <= i < |names| && HeaderOf(names[i])(l)
  {
    forall i | 0 <= i < |names| ensures HeaderOf(names[i])(l) <==> Trim(l) == HeaderText(TableOf(names[i])) { TestIsHeader(l, names[i]); }
  }

  predicate NoListedTable(c: seq<string>, names: seq<string>) {
    forall l :: l in c ==> !(IsBareHeader(l) && IsListed(Trim(l), names))
  }

  lemma {:induction false} KeepUnlisted(c: seq<string>, section: string, names: seq<string>)
    requires NoListedTable(c, names)
    requires c == [] || IsBareHeader(c[0]) || (section != "" && !IsListed(section, names))
    ensures Keep(c, section, names) == c
  {
    if c != [] {
      BlankIsNoHeader();
      assert c[0] in c && (IsBareHeader(c[0]) ==> Trim(c[0]) != "");
      KeepUnlisted(c[1..], SectionAfter(c[0], section), names);
    }
  }

  lemma {:induction false} KeepDropsListed(c: seq<string>, section: string, names: seq<string>)
    ensures |Keep(c, section, names)| <= |c|
    ensures !NoListedTable(c, names) ==> |Keep(c, section, names)| < |c|
  {
    if c != [] {
      KeepDropsListed(c[1..], SectionAfter(c[0], section), names);
      assert c == [c[0]] + c[1..];
    }
  }

  lemma {:induction false} WithoutLength(a: seq<string>, p: string -> bool)
    ensures |Without(a, p)| <= |a|
    ensures (exists l :: l in a && p(l)) ==> |Without(a, p)| < |a|
  {
    if a != [] {
      WithoutLength(a[1..], p);
      assert a == [a[0]] + a[1..];
    }
  }

  predicate NoListedSelector(top: seq<string>, names: seq<string>) {
    forall l :: l in top ==> !ListedSelector(names)(l)
  }

  lemma StrippedMeans(c: seq<string>, names: seq<string>)
    requires AreProfiles(names)
    ensures IsStripped(c, names) <==> NoListedTable(c, names) && NoListedSelector(Top(c), names)
  {
    forall l ensures IsBareHeader(l) && IsListed(Trim(l), names) <==> exists i :: 0 <= i < |names| && HeaderOf(names[i])(l) {
      ListedHeader(l, names);
      forall i | 0 <= i < |names| ensures HeaderOf(names[i])(l) ==> IsBareHeader(l) { HeaderIsBare(TableOf(names[i])); }
    }
    if IsStripped(c, names) {
      forall l | l in Top(c) ensures !ListedSelector(names)(l) {
        assert forall i :: 0 <= i < |names| ==> IsStrippedOf(c, names[i]);
      }
    }
    if NoListedTable(c, names) && NoListedSelector(Top(c), names) {
      forall i | 0 <= i < |names| ensures IsStrippedOf(c, names[i]) {}
    }
  }

  /** Everything stays exactly when nothing is left to strip. */
  lemma KeepIffStripped(c: seq<string>, names: seq<string>)
    requires AreProfiles(names)
    ensures Keep(c, "", names) == c <==> IsStripped(c, names)
  {
    var q := ListedSelector(names);
    StrippedMeans(c, names);
    TopHasNoHeader(c);
    KeepTopRest(Top(c), Rest(c), names);
    WithoutLength(Top(c), q);
    KeepDropsListed(Rest(c), "", names);
    if NoListedSelector(Top(c), names) { WithoutNothing(Top(c), q); }
    if NoListedTable(c, names) {
      KeepUnlisted(Rest(c), "", names);
    } else {
      KeepDropsListed(c, "", names);
    }
  }

  // ----- counting -----

  function Count(c: seq<string>, p: string -> bool): nat {
    if c == [] then 0 else (if p(c[0]) then 1 else 0) + Count(c[1..], p)
  }

  lemma {:induction false} CountConcat(a: seq<string>, b: seq<string>, p: string -> bool)
    ensures Count(a + b, p) == Count(a, p) + Count(b, p)
  {
    if a == [] {
      assert a + b == b;
    } else {
      assert (a + b)[1..] == a[1..] + b;
      CountConcat(a[1..], b, p);
    }
  }

  lemma {:induction false} CountNone(c: seq<string>, p: string -> bool)
    ensures Count(c, p) == 0 <==> forall l :: l in c ==> !p(l)
  {
    if c != [] {
      CountNone(c[1..], p);
      assert c == [c[0]] + c[1..];
    }
  }

  lemma CountOne(l: string, p: string -> bool)
    ensures Count([l], p) == if p(l) then 1 else 0
  {
    assert [l][1..] == [];
  }

  function Less(n: nat, k: nat): nat {
    if n > k then n - k else 0
  }

  lemma {:induction false} CountDropFirst(a: seq<string>, p: string -> bool)
    ensures Count(DropFirst(a, p), p) == Less(Count(a, p), 1)
  {
    if a != [] && !p(a[0]) {
      CountDropFirst(a[1..], p);
      assert ([a[0]] + DropFirst(a[1..], p))[1..] == DropFirst(a[1..], p);
    }
  }

  /** How often the profile's table is in the content. */
  function Tables(c: seq<string>, profile: string): nat {
    Count(c, HeaderOf(profile))
  }

  /** How often the profile is selected at top level. */
  function Selectors(c: seq<string>, profile: string): nat {
    Count(Top(c), SelectorOf(profile))
  }

  lemma SelectsOne(t: string, key: string, value: string, other: string)
    requires Selects(t, key, value) && Selects(t, key, other)
    ensures value == other
  {
    assert ("\"" + value + "\"")[1..|value| + 1] == value;
    assert ("\"" + other + "\"")[1..|other| + 1] == other;
  }

  lemma OtherTest(l: string, profile: string, other: string)
    requires profile != other
    ensures HeaderOf(profile)(l) ==> !HeaderOf(other)(l)
    ensures SelectorOf(profile)(l) ==> !SelectorOf(other)(l)
  {
    assert TableOf(profile)[|"profiles."|..] == profile && TableOf(other)[|"profiles."|..] == other;
    OtherHeader(l, TableOf(profile), TableOf(other));
    if Selects(Trim(l), SELECTOR_KEY, profile) && Selects(Trim(l), SELECTOR_KEY, other) {
      SelectsOne(Trim(l), SELECTOR_KEY, profile, other);
      assert false;
    }
  }

  lemma CountNoHeader(m: seq<string>, profile: string)
    requires IsProfile(profile) && NoHeader(m)
    ensures Tables(m, profile) == 0
  {
    HeaderIsBare(TableOf(profile));
    CountNone(m, HeaderOf(profile));
  }

  lemma CountParts(b: seq<string>, x: string, m: seq<string>, a: seq<string>, p: string -> bool)
    ensures Count(b + ([x] + (m + a)), p) == Count(b, p) + (if p(x) then 1 else 0) + Count(m, p) + Count(a, p)
  {
    CountConcat(b, [x] + (m + a), p);
    CountConcat([x], m + a, p);
    CountConcat(m, a, p);
    CountOne(x, p);
  }

  lemma CountsWithoutTable(b: seq<string>, x: string, m: seq<string>, a: seq<string>, profile: string, other: string)
    requires IsProfile(profile) && IsProfile(other) && AreParts(b, x, m, a, HeaderOf(profile))
    ensures Tables(b + a, other) == Less(Tables(b + ([x] + (m + a)), other), if other == profile then 1 else 0)
  {
    if other != profile { OtherTest(x, profile, other); }
    CountNoHeader(m, other);
    CountParts(b, x, m, a, HeaderOf(other));
    CountConcat(b, a, HeaderOf(other));
  }

  lemma TopWithoutTable(b: seq<string>, x: string, m: seq<string>, a: seq<string>)
    requires IsBareHeader(x) && (a == [] || IsBareHeader(a[0]))
    ensures Top(b + a) == Top(b + ([x] + (m + a)))
  {
    TopOfConcat(b, a);
    TopOfConcat(b, [x] + (m + a));
  }

  lemma CountsAfterDropTable(c: seq<string>, profile: string, other: string)
    requires IsProfile(profile) && IsProfile(other)
    ensures var d := DropTable(c, profile);
            Tables(d, other) == Less(Tables(c, other), if other == profile then 1 else 0) && Top(d) == Top(c)
  {
    var h := HeaderOf(profile);
    PartsJoin(c, h);
    match PartsOf(c, h)
    case Absent =>
      CountNone(c, h);
    case Present(b, x, m, a) =>
      HeaderIsBare(TableOf(profile));
      CountsWithoutTable(b, x, m, a, profile, other);
      TopWithoutTable(b, x, m, a);
  }

  lemma CountsAfterDropSelector(c: seq<string>, profile: string, other: string)
    requires IsProfile(other)
    ensures var d := DropSelector(c, profile);
            Selectors(d, other) == Less(Selectors(c, other), if other == profile then 1 else 0) && Tables(d, other) == Tables(c, other)
  {
    var p, top := SelectorOf(profile), Top(c);
    TopHasNoHeader(c);
    DropFirstNoHeader(top, p);
    TopOfConcat(DropFirst(top, p), Rest(c));
    TopOfNoHeader(DropFirst(top, p));
    CountConcat(DropFirst(top, p), Rest(c), HeaderOf(other));
    CountConcat(top, Rest(c), HeaderOf(other));
    CountNoHeader(top, other);
    CountNoHeader(DropFirst(top, p), other);
    CountSelectors(top, profile, other);
  }

  lemma TopOfNoHeader(a: seq<string>)
    requires NoHeader(a)
    ensures Top(a) == a
  {
    FirstIndexIs(a, IsBareHeader, |a|);
  }

  lemma CountSelectors(top: seq<string>, profile: string, other: string)
    ensures Count(DropFirst(top, SelectorOf(profile)), SelectorOf(other)) == Less(Count(top, SelectorOf(other)), if other == profile then 1 else 0)
  {
    var p, q := SelectorOf(profile), SelectorOf(other);
    if other != profile {
      forall l ensures p(l) ==> !q(l) { OtherTest(l, profile, other); }
      CountDisjoint(top, p, q);
    } else {
      CountDropFirst(top, p);
    }
  }

  lemma {:induction false} CountDisjoint(a: seq<string>, p: string -> bool, q: string -> bool)
    requires forall l :: p(l) ==> !q(l)
    ensures Count(DropFirst(a, p), q) == Count(a, q)
  {
    if a != [] && !p(a[0]) {
      CountDisjoint(a[1..], p, q);
      assert ([a[0]] + DropFirst(a[1..], p))[1..] == DropFirst(a[1..], p);
    }
  }

  lemma ListingsHead(names: seq<string>, other: string)
    requires names != []
    ensures multiset(names)[other] == (if other == names[0] then 1 else 0) + multiset(names[1..])[other]
  {
    assert names == [names[0]] + names[1..];
  }

  lemma CountsAfterDrop(c: seq<string>, profile: string, other: string)
    requires IsProfile(profile) && IsProfile(other)
    ensures var k, d := if other == profile then 1 else 0, Drop(c, profile);
            Tables(d, other) == Less(Tables(c, other), k) && Selectors(d, other) == Less(Selectors(c, other), k)
  {
    CountsAfterDropTable(c, profile, other);
    CountsAfterDropSelector(DropTable(c, profile), profile, other);
  }

  /** Each listing of a name uses up one of its tables and one of its selectors. */
  lemma {:induction false} CountsAfterDropping(c: seq<string>, names: seq<string>, other: string)
    requires AreProfiles(names) && IsProfile(other)
    ensures Tables(DropAll(c, names), other) == Less(Tables(c, other), multiset(names)[other])
    ensures Selectors(DropAll(c, names), other) == Less(Selectors(c, other), multiset(names)[other])
    decreases |names|
  {
    if names != [] {
      CountsAfterDrop(c, names[0], other);
      CountsAfterDropping(Drop(c, names[0]), names[1..], other);
      ListingsHead(names, other);
    }
  }

  /** No listed name has more tables, or more selectors, than it has listings. */
  predicate WithinListings(c: seq<string>, names: seq<string>) {
    forall i :: 0 <= i < |names| ==> Tables(c, names[i]) <= multiset(names)[names[i]] && Selectors(c, names[i]) <= multiset(names)[names[i]]
  }

  lemma StrippedIsZero(c: seq<string>, profile: string)
    ensures IsStrippedOf(c, profile) <==> Tables(c, profile) == 0 && Selectors(c, profile) == 0
  {
    CountNone(c, HeaderOf(profile));
    CountNone(Top(c), SelectorOf(profile));
  }

  lemma StrippedIffWithin(c: seq<string>, names: seq<string>)
    requires AreProfiles(names)
    ensures IsStripped(DropAll(c, names), names) <==> WithinListings(c, names)
  {
    var d := DropAll(c, names);
    forall i | 0 <= i < |names|
      ensures IsStrippedOf(d, names[i]) <==> Tables(c, names[i]) <= multiset(names)[names[i]] && Selectors(c, names[i]) <= multiset(names)[names[i]]
    {
      CountsAfterDropping(c, names, names[i]);
      StrippedIsZero(d, names[i]);
    }
  }

  // ----- the whole run, on text -----

  predicate IsNeat(t: string) {
    Neat(t) == t
  }

  lemma {:induction false} StripIsNeat(t: string, names: seq<string>)
    requires names != []
    ensures IsNeat(StripAll(t, names))
    decreases |names|
  {
    var lines := Split(RemoveTable(t, TableOf(names[0])));
    var next := RemoveLegacy(t, names[0]);
    if |names| > 1 {
      StripIsNeat(next, names[1..]);
    } else {
      assert StripAll(next, names[1..]) == next;
      NeatIsIdempotent(Join(DropFirst(Top(lines), SelectorOf(names[0])) + Rest(lines)));
    }
  }

  lemma {:induction false} DropFirstNone(a: seq<string>, p: string -> bool)
    requires forall i :: 0 <= i < |a| ==> !p(a[i])
    ensures DropFirst(a, p) == a
  {
    if a != [] { DropFirstNone(a[1..], p); }
  }

  lemma RemoveTableMisses(t: string, profile: string)
    requires IsProfile(profile) && IsStrippedOf(Content(t), profile)
    ensures RemoveTable(t, TableOf(profile)) == t
  {
    ContentOfTrimEnd(t);
    PartsOfContent(Split(TrimEnd(t)), TableOf(profile));
    PartsJoin(Content(t), HeaderOf(profile));
  }

  lemma RemoveSelectorMisses(t: string, profile: string)
    requires IsStrippedOf(Content(t), profile) && IsNeat(t)
    ensures RemoveSelector(t, SELECTOR_KEY, profile) == t
  {
    var lines := Split(t);
    SelectorIsLineTest(profile);
    BracketTests();
    CutOfContent(lines, IsBareHeader);
    AbsentInLines(Top(lines), SelectorOf(profile));
    DropFirstNone(Top(lines), SelectorOf(profile));
    TopHasNoHeader(lines);
    JoinOfSplit(t);
  }

  lemma {:induction false} StripMisses(t: string, names: seq<string>)
    requires AreProfiles(names) && IsNeat(t) && IsStripped(Content(t), names)
    ensures StripAll(t, names) == t
    decreases |names|
  {
    if names != [] {
      RemoveTableMisses(t, names[0]);
      RemoveSelectorMisses(t, names[0]);
      StrippedHead(Content(t), names);
      StripMisses(t, names[1..]);
    }
  }

  /**
   * Stripping the list loses no line but those of listed tables and listed selectors. It
   * removes all of those exactly when the file holds no more of them than there are
   * listings, and exactly then a second run changes nothing.
   */
  lemma SecondRunIsNoOp(t: string, names: seq<string>)
    requires AreProfiles(names) && names != []
    ensures var once := StripAll(t, names);
            && Keep(Content(once), "", names) == Keep(Content(t), "", names)
            && (Content(once) == Keep(Content(t), "", names) <==> WithinListings(Content(t), names))
            && (StripAll(once, names) == once <==> WithinListings(Content(t), names))
  {
    var once, c := StripAll(t, names), Content(t);
    ContentOfStrip(t, names);
    ContentOfStrip(once, names);
    KeepAfterDropping(c, names, names);
    StrippedIffWithin(c, names);
    DropAllLength(Content(once), names);
    StripIsNeat(t, names);
    KeepIffStripped(Content(once), names);
    if IsStripped(Content(once), names) { StripMisses(once, names); }
  }

  /** A file that repeats a listed header: the second run still changes it. */
  lemma RepeatedTableNeedsSecondRun(profile: string)
    requires IsProfile(profile)
    ensures var header := HeaderText(TableOf(profile));
            var once := StripAll(header + "\n" + header, [profile]);
            StripAll(once, [profile]) != once
  {
    var h := HeaderText(TableOf(profile));
    var t := h + "\n" + h;
    assert h[0] == '[' && h[|h| - 1] == ']';
    assert TrimEnd(h) == h && Trim(h) == h;
    assert IsLine(h);
    SplitOfLine(h);
    SplitAtNewline(h, h);
    assert Split(t) == [h, h];
    NonBlankOne(h);
    NonBlankConcat([h], [h]);
    assert [h] + [h] == [h, h];
    CountConcat([h], [h], HeaderOf(profile));
    CountOne(h, HeaderOf(profile));
    assert Tables(Content(t), profile) == 2;
    assert multiset([profile])[profile] == 1;
    SecondRunIsNoOp(t, [profile]);
    assert [profile][0] == profile;
  }
}
