/** Tables and selectors of a configuration file: finding, reading, replacing and removing them. */
module ProfileTables {
  import opened Text
  import opened TomlText
  import opened Wrappers
  import opened NeatText

  // ----- one table of a line list -----

  /** A line list around the first line passing a header test: what precedes it, it, its body, and what follows. */
  datatype Parts =
    | Absent
    | Present(before: seq<string>, header: string, body: seq<string>, after: seq<string>)

  /** The index of the first header after line `start`. */
  function TableEnd(lines: seq<string>, start: nat): (end: nat)
    requires start < |lines|
    ensures start < end <= |lines|
  {
    start + 1 + FirstIndex(lines[start + 1..], IsBareHeader)
  }

  function PartsOf(lines: seq<string>, h: string -> bool): Parts {
    var s := FirstIndex(lines, h);
    if s == |lines| then Absent
    else
      var e := TableEnd(lines, s);
      Present(lines[..s], lines[s], lines[s + 1..e], lines[e..])
  }

  function HeaderText(table: string): string {
    "[" + table + "]"
  }

  function HeaderTest(table: string): string -> bool {
    TargetTest(HeaderText(table))
  }

  // ----- removing and replacing -----

  /** `removeTable` */
  function RemoveTable(text: string, table: string): string {
    match PartsOf(Split(TrimEnd(text)), HeaderTest(table))
    case Absent => text
    case Present(before, _, _, after) => Neat(Join(before + after))
  }

  /** Where the loop over the lines after `start` stops. */
  method FindTableEnd(lines: seq<string>, start: nat) returns (end: nat)
    requires start < |lines|
    ensures end == TableEnd(lines, start)
  {
    ghost var rest := lines[start + 1..];
    end := |lines|;
    for i := start + 1 to |lines|
      invariant end == |lines| && i <= start + 1 + FirstIndex(rest, IsBareHeader)
    {
      assert lines[i] == rest[i - start - 1];
      if IsBareHeader(lines[i]) {
        return i;
      }
    }
  }

  lemma CutTwice(lines: seq<string>, s: nat, e: nat)
    requires s < e <= |lines|
    ensures lines == lines[..s] + ([lines[s]] + (lines[s + 1..e] + lines[e..]))
  {}

  method RemoveTableLines(text: string, table: string) returns (r: string)
    ensures r == RemoveTable(text, table)
  {
    var lines := Split(TrimEnd(text));
    var start := FirstIndex(lines, HeaderTest(table));
    if start == |lines| { return text; }
    var end := FindTableEnd(lines, start);
    lines := lines[..start] + lines[end..];
    r := Neat(Join(lines));
  }

  /** `upsertTable` */
  function UpsertTable(text: string, table: string, block: string): string {
    var lines := Split(TrimEnd(text));
    match PartsOf(lines, HeaderTest(table))
    case Absent => Join(DropBlankHead(lines)) + (if NonBlank(lines) != [] then "\n\n" else "") + block + "\n"
    case Present(before, _, _, after) => Collapse(Join(before + Split(block) + after)) + "\n"
  }

  /** `lines.filter((x, i) => i > 0 || x.trim())` */
  function DropBlankHead(lines: seq<string>): seq<string> {
    if lines != [] && Trim(lines[0]) == "" then lines[1..] else lines
  }

  method UpsertTableLines(text: string, table: string, block: string) returns (r: string)
    ensures r == UpsertTable(text, table, block)
  {
    var lines := Split(TrimEnd(text));
    var start := FirstIndex(lines, HeaderTest(table));
    if start == |lines| {
      return Join(DropBlankHead(lines)) + (if NonBlank(lines) != [] then "\n\n" else "") + block + "\n";
    }
    var end := FindTableEnd(lines, start);
    lines := lines[..start] + Split(block) + lines[end..];
    r := Collapse(Join(lines)) + "\n";
  }

  // ----- selectors -----

  /** `/^\s*key\s*=\s*"([^"]*)"\s*$/` matches with the given value, on the trimmed line. */
  predicate Selects(t: string, key: string, value: string) {
    BindsKey(t, key) && '"' !in value && TrimStart(TrimStart(t[|key|..])[1..]) == "\"" + value + "\""
  }

  function SelectsTest(key: string, value: string): string -> bool {
    (t: string) => Selects(t, key, value)
  }

  function SelectorTest(key: string, value: string): string -> bool {
    OnTrim(SelectsTest(key, value))
  }

  function DropFirst(lines: seq<string>, p: string -> bool): seq<string> {
    if lines == [] then []
    else if p(lines[0]) then lines[1..]
    else [lines[0]] + DropFirst(lines[1..], p)
  }

  function Top(c: seq<string>): seq<string> {
    c[..FirstIndex(c, IsBareHeader)]
  }

  function Rest(c: seq<string>): seq<string> {
    c[FirstIndex(c, IsBareHeader)..]
  }

  /** `removeTopLevelStringIfValue` */
  function RemoveSelector(text: string, key: string, value: string): string {
    var lines := Split(text);
    Neat(Join(DropFirst(Top(lines), SelectorTest(key, value)) + Rest(lines)))
  }

  lemma {:induction false} DropFirstAt(lines: seq<string>, p: string -> bool)
    ensures var i := FirstIndex(lines, p);
            DropFirst(lines, p) == if i < |lines| then lines[..i] + lines[i + 1..] else lines
  {
    if lines != [] && !p(lines[0]) {
      DropFirstAt(lines[1..], p);
      var i := FirstIndex(lines[1..], p);
      if i < |lines[1..]| {
        assert lines[..i + 1] == [lines[0]] + lines[1..][..i] && lines[i + 2..] == lines[1..][i + 1..];
      }
    }
  }

  lemma DropAtIndex(lines: seq<string>, end: nat, i: nat)
    requires i < end <= |lines|
    ensures lines[..i] + lines[i + 1..] == lines[..end][..i] + lines[..end][i + 1..] + lines[end..]
    ensures lines[..end][i] == lines[i]
  {}

  lemma SelectorStep(lines: seq<string>, end: nat, p: string -> bool, i: nat)
    requires i < end <= |lines| && i <= FirstIndex(lines[..end], p)
    ensures p(lines[i]) ==> lines[..i] + lines[i + 1..] == DropFirst(lines[..end], p) + lines[end..]
    ensures !p(lines[i]) ==> i < FirstIndex(lines[..end], p)
  {
    DropAtIndex(lines, end, i);
    DropFirstAt(lines[..end], p);
  }

  lemma NoSelector(lines: seq<string>, end: nat, p: string -> bool)
    requires end <= |lines| && FirstIndex(lines[..end], p) == end
    ensures DropFirst(lines[..end], p) + lines[end..] == lines
  {
    DropFirstAt(lines[..end], p);
  }

  method RemoveTopLevelStringIfValue(text: string, key: string, value: string) returns (r: string)
    ensures r == RemoveSelector(text, key, value)
  {
    var lines, p := Split(text), SelectorTest(key, value);
    var end := FirstIndex(lines, IsBareHeader);
    for i := 0 to end
      invariant i <= FirstIndex(lines[..end], p)
    {
      SelectorStep(lines, end, p, i);
      if p(lines[i]) {
        lines := lines[..i] + lines[i + 1..];
        return Neat(Join(lines));
      }
    }
    NoSelector(lines, end, p);
    r := Neat(Join(lines));
  }

  // ----- reading -----

  /** A name that makes a header line. */
  predicate IsTable(table: string) {
    IsHeaderText(HeaderText(table))
  }

  lemma HeaderIsBare(table: string)
    requires IsTable(table)
    ensures IsLineTest(HeaderTest(table)) && forall l :: HeaderTest(table)(l) ==> IsBareHeader(l)
  {
    LineTests("x", HeaderText(table));
  }

  /** The lines between a table's header and the next header. */
  function TableLines(lines: seq<string>, table: string): seq<string> {
    if !IsTable(table) then []
    else
      match PartsOf(lines, HeaderTest(table))
      case Absent => []
      case Present(_, _, body, _) => body
  }

  predicate NoHeaderBetween(lines: seq<string>, from: nat, to: nat) {
    forall j :: from <= j < to <= |lines| ==> !IsBareHeader(lines[j])
  }

  lemma FirstIndexFrom(lines: seq<string>, n: nat, p: string -> bool, e: nat)
    requires n <= e <= |lines| && (forall j :: n <= j < e ==> !p(lines[j])) && (e < |lines| ==> p(lines[e]))
    ensures FirstIndex(lines[n..], p) == e - n
  {
    FirstIndexIs(lines[n..], p, e - n);
  }

  lemma BodyOfParts(lines: seq<string>, h: string -> bool, s: nat, e: nat)
    requires s == FirstIndex(lines, h) < e <= |lines| && TableEnd(lines, s) == e
    ensures var parts := PartsOf(lines, h); parts.Present? && parts.body == lines[s + 1..e]
  {}

  lemma BodyTo(lines: seq<string>, table: string, s: nat, e: nat)
    requires IsTable(table) && s == FirstIndex(lines, HeaderTest(table)) < e <= |lines| && TableEnd(lines, s) == e
    ensures TableLines(lines, table) == lines[s + 1..e]
  {
    BodyOfParts(lines, HeaderTest(table), s, e);
  }

  /** What `tableBody` has read before line `i`. */
  predicate HasRead(lines: seq<string>, table: string, i: nat, inTable: bool, out: seq<string>) {
    var s := FirstIndex(lines, HeaderTest(table));
    && i <= |lines|
    && if inTable then IsTable(table) && s < i && out == lines[s + 1..i] && NoHeaderBetween(lines, s + 1, i)
       else out == [] && (IsTable(table) ==> i <= s)
  }

  /** A header outside the table: the table starts, or does not. */
  lemma ReadsHeader(lines: seq<string>, table: string, i: nat)
    requires HasRead(lines, table, i, false, []) && i < |lines| && IsBareHeader(lines[i])
    ensures HasRead(lines, table, i + 1, HeaderTest(table)(lines[i]), [])
  {
    var s := FirstIndex(lines, HeaderTest(table));
    if HeaderTest(table)(lines[i]) {
      assert IsTable(table) && s == i;
    }
  }

  lemma OneMoreLine(lines: seq<string>, from: nat, i: nat)
    requires from <= i < |lines| && NoHeaderBetween(lines, from, i) && !IsBareHeader(lines[i])
    ensures lines[from..i + 1] == lines[from..i] + [lines[i]] && NoHeaderBetween(lines, from, i + 1)
  {}

  lemma StillBefore(lines: seq<string>, h: string -> bool, i: nat)
    requires i < |lines| && i <= FirstIndex(lines, h) && !h(lines[i])
    ensures i + 1 <= FirstIndex(lines, h)
  {}

  lemma NoHeaderHere(table: string, l: string)
    requires IsTable(table) && !IsBareHeader(l)
    ensures !HeaderTest(table)(l)
  {
    HeaderIsBare(table);
  }

  lemma ReadsLine(lines: seq<string>, table: string, i: nat, inTable: bool, out: seq<string>)
    requires HasRead(lines, table, i, inTable, out) && i < |lines| && !IsBareHeader(lines[i])
    ensures HasRead(lines, table, i + 1, inTable, if inTable then out + [lines[i]] else out)
  {
    if inTable {
      OneMoreLine(lines, FirstIndex(lines, HeaderTest(table)) + 1, i);
    } else if IsTable(table) {
      NoHeaderHere(table, lines[i]);
      StillBefore(lines, HeaderTest(table), i);
    }
  }

  lemma HasReadAll(lines: seq<string>, table: string, i: nat, inTable: bool, out: seq<string>)
    requires HasRead(lines, table, i, inTable, out) && (i == |lines| || (inTable && IsBareHeader(lines[i])))
    ensures TableLines(lines, table) == out
  {
    if inTable {
      var s := FirstIndex(lines, HeaderTest(table));
      FirstIndexFrom(lines, s + 1, IsBareHeader, i);
      BodyTo(lines, table, s, i);
    }
  }

  /** `tableBody` */
  method TableBody(text: string, table: string) returns (r: string)
    ensures r == Join(TableLines(Split(text), table))
  {
    var lines := Split(text);
    var out, inTable := [], false;
    for i := 0 to |lines|
      invariant HasRead(lines, table, i, inTable, out)
    {
      if IsBareHeader(lines[i]) {
        if inTable {
          HasReadAll(lines, table, i, inTable, out);
          return Join(out);
        }
        ReadsHeader(lines, table, i);
        inTable := HeaderTest(table)(lines[i]);
      } else {
        ReadsLine(lines, table, i, inTable, out);
        if inTable {
          out := out + [lines[i]];
        }
      }
    }
    HasReadAll(lines, table, |lines|, inTable, out);
    r := Join(out);
  }

  /** The string a line binds to `key`, the key being its very start: `/^key\s*=\s*"([^"]*)"\s*$/`. */
  function LineString(l: string, key: string): Option<string> {
    if !BindsKey(l, key) then None
    else
      var r := TrimStart(TrimStart(l[|key|..])[1..]);
      if r == "" || r[0] != '"' then None
      else
        var n := FirstQuote(r[1..]);
        if n < |r[1..]| && TrimStart(r[1..][n + 1..]) == "" then Some(r[1..][..n]) else None
  }

  /** `readTomlString`: the first line that binds the key to a string; an empty string counts as nothing. */
  function ReadString(lines: seq<string>, key: string): Option<string> {
    if lines == [] then None
    else
      var v := LineString(lines[0], key);
      if v.None? then ReadString(lines[1..], key)
      else if v.value == "" then None
      else v
  }

  /** `readTableString` */
  function ReadTableString(text: string, table: string, key: string): Option<string> {
    ReadString(TableLines(Split(text), table), key)
  }

  // ----- stripping profiles -----

  const SELECTOR_KEY := "profile"

  function TableOf(profile: string): string {
    "profiles." + profile
  }

  /** `removeLegacyProfileConfig` */
  function RemoveLegacy(text: string, profile: string): string {
    RemoveSelector(RemoveTable(text, TableOf(profile)), SELECTOR_KEY, profile)
  }

  /** One removal for each listed profile, in order. */
  function StripAll(text: string, names: seq<string>): string
    decreases |names|
  {
    if names == [] then text else StripAll(RemoveLegacy(text, names[0]), names[1..])
  }

  /** The text part of the migration: all listed profiles removed, and a newline at the end. */
  method StripLegacyProfiles(current: string, names: seq<string>) returns (next: string)
    ensures next == StripAll(current, names) || (names == [] && current != "" && next == current + "\n")
    ensures names != [] ==> next == StripAll(current, names)
  {
    next := current;
    for i := 0 to |names|
      invariant StripAll(next, names[i..]) == StripAll(current, names)
      invariant i > 0 ==> next != "" && next[|next| - 1] == '\n'
    {
      assert names[i..][0] == names[i] && names[i..][1..] == names[i + 1..];
      next := RemoveTableLines(next, TableOf(names[i]));
      next := RemoveTopLevelStringIfValue(next, SELECTOR_KEY, names[i]);
    }
    if next != "" && next[|next| - 1] != '\n' { next := next + "\n"; }
  }
}
