/** The managed desktop-bridge bindings at the top level of a configuration file. */
module BridgeConfig {
  import opened Text
  import opened TomlText
  import opened Wrappers

  datatype Error =
    | LoopbackBaseUrlRequired
    | CatalogPathInvalid
    | UserOwnedConflict(key: string)
    | OwnershipMissing(key: string)
    | OwnedValueInvalid(key: string)

  datatype Result = Ok(text: string) | Err(error: Error)

  const PROVIDER := "model_provider"
  const BASE_URL := "openai_base_url"
  const CATALOG := "model_catalog_json"

  const PROVIDER_MARKER := "# sks-desktop-bridge-managed"
  const BASE_URL_MARKER := "# sks-desktop-bridge-managed-base-url"
  const CATALOG_MARKER := "# sks-desktop-bridge-managed-model-catalog"

  const CATALOG_FILE := "sks-bridge-catalog.json"

  // ----- reading -----

  /** What may follow a string value on its line: nothing, or a comment. */
  predicate EndsValue(rest: string) {
    var tail := TrimStart(rest);
    tail == "" || (tail[0] == '#' && forall i :: 0 <= i < |tail| ==> !IsTerminator(tail[i]))
  }

  /** The string at the start of `r`, or nothing. */
  function QuotedValue(r: string): string {
    if r == "" || r[0] != '"' then ""
    else
      var n := FirstQuote(r[1..]);
      if n < |r[1..]| && EndsValue(r[1..][n + 1..]) then r[1..][..n] else ""
  }

  /** The string a trimmed line binds to `key`; empty when it binds none. */
  function LineValue(t: string, key: string): string {
    if !BindsKey(t, key) then ""
    else QuotedValue(TrimStart(TrimStart(t[|key|..])[1..]))
  }

  function FirstValue(lines: seq<string>, key: string): string {
    if lines == [] then ""
    else if LineValue(Trim(lines[0]), key) != "" then LineValue(Trim(lines[0]), key)
    else FirstValue(lines[1..], key)
  }

  /** The lines before the first one that opens a bracket, the file's first line not counting. */
  function ReadableTop(text: string): seq<string> {
    var lines := Split(text);
    lines[..1 + FirstIndex(lines[1..], StartsBracket)]
  }

  function TopValue(text: string, key: string): string {
    FirstValue(ReadableTop(text), key)
  }

  predicate HasTopLine(text: string, line: string) {
    exists l | l in ReadableTop(text) :: Trim(l) == line
  }

  // ----- rewriting -----

  /** Drops the lines passing `p` before the first line passing `h`. */
  function RemoveTop(text: string, h: string -> bool, p: string -> bool): string {
    var lines := Split(text);
    var end := FirstIndex(lines, h);
    Collapse(StripLeadingNewlines(Join(Without(lines[..end], p) + lines[end..])))
  }

  function RemoveTopLine(text: string, target: string): string {
    RemoveTop(text, StartsBracket, TargetTest(target))
  }

  function RemoveTopKey(text: string, key: string): string {
    RemoveTop(text, IsBareHeader, KeyTest(key))
  }

  /** The backward splicing loop of `removeTopLevelLine`. */
  method DropLines(original: seq<string>, end: nat, target: string) returns (lines: seq<string>)
    requires end <= |original|
    ensures lines == Without(original[..end], TargetTest(target)) + original[end..]
  {
    lines := original;
    var index := end;
    assert original == original[..end] + original[end..];
    while index > 0
      invariant 0 <= index <= end
      invariant lines == original[..index] + Without(original[index..end], TargetTest(target)) + original[end..]
    {
      index := index - 1;
      if Trim(lines[index]) == target {
        lines := lines[..index] + lines[index + 1..];
      }
    }
    assert original[0..end] == original[..end];
  }

  method RemoveTopLevelLine(text: string, target: string) returns (r: string)
    ensures r == RemoveTopLine(text, target)
  {
    var lines := Split(text);
    lines := DropLines(lines, FirstIndex(lines, StartsBracket), target);
    r := Collapse(StripLeadingNewlines(Join(lines)));
  }

  function KeyText(key: string, value: string): string {
    key + " = \"" + value + "\""
  }

  /** `upsertTopLevelTomlString` */
  function UpsertTop(text: string, key: string, value: string): string {
    var line, lines := KeyText(key, value), Split(text);
    var end := FirstIndex(lines, IsBareHeader);
    var i := FirstIndex(lines[..end], KeyTest(key));
    if i < end then Collapse(Join(lines[i := line]))
    else Collapse(StripLeadingNewlines(Join(lines[..end] + [line] + lines[end..])))
  }

  lemma FoundStep(lines: seq<string>, end: nat, key: string, i: nat)
    requires i < end <= |lines| && i <= FirstIndex(lines[..end], KeyTest(key))
    ensures i == FirstIndex(lines[..end], KeyTest(key)) <==> BindsKey(Trim(lines[i]), key)
  {
    assert lines[..end][i] == lines[i];
    assert KeyTest(key)(lines[i]) == BindsKey(Trim(lines[i]), key);
  }

  method UpsertTopLevelTomlString(text: string, key: string, value: string) returns (r: string)
    ensures r == UpsertTop(text, key, value)
  {
    var line, lines := KeyText(key, value), Split(text);
    var end := FirstIndex(lines, IsBareHeader);
    ghost var found := FirstIndex(lines[..end], KeyTest(key));
    for i := 0 to end
      invariant i <= found
    {
      FoundStep(lines, end, key, i);
      if BindsKey(Trim(lines[i]), key) {
        lines := lines[i := line];
        return Collapse(Join(lines));
      }
    }
    r := Collapse(StripLeadingNewlines(Join(lines[..end] + [line] + lines[end..])));
  }

  /** `addTopLevelMarkerBeforeKey` */
  function AddMarker(text: string, key: string, marker: string): string {
    var lines := Split(text);
    var end := FirstIndex(lines, StartsBracket);
    var i := FirstIndex(lines[..end], KeyTest(key));
    if i < end && FirstIndex(lines[..end], TargetTest(marker)) == end
    then Join(lines[..i] + [marker] + lines[i..])
    else Join(lines)
  }

  // ----- managing -----

  function Basename(p: string): string
    decreases |p|
  {
    if p != "" && p[|p| - 1] == '/' then Basename(p[..|p| - 1])
    else AfterLastSlash(p)
  }

  function AfterLastSlash(p: string): string {
    if p == "" || p[|p| - 1] == '/' then "" else AfterLastSlash(p[..|p| - 1]) + [p[|p| - 1]]
  }

  /** The base URL as normalised, or nothing when the loopback check rejects it; and the catalog path. */
  datatype Input = Input(baseUrl: Option<string>, catalogPath: string)

  predicate IsCatalogPath(p: string) {
    p != "" && p[0] == '/' && Basename(p) == CATALOG_FILE
  }

  function RemoveLineIf(text: string, orphan: bool, marker: string): string {
    if orphan then RemoveTopLine(text, marker) else text
  }

  /** `removeDesktopBridgeOrphanManagedMarkers`: markers whose key holds no managed value are dropped. */
  function RemoveOrphans(source: string): string {
    var a := RemoveLineIf(source, HasTopLine(source, PROVIDER_MARKER) && TopValue(source, PROVIDER) != "openai", PROVIDER_MARKER);
    var b := RemoveLineIf(a, HasTopLine(source, BASE_URL_MARKER) && TopValue(source, BASE_URL) == "", BASE_URL_MARKER);
    RemoveLineIf(b, HasTopLine(source, CATALOG_MARKER) && TopValue(source, CATALOG) == "", CATALOG_MARKER)
  }

  function RemoveBindings(text: string): string {
    var a := RemoveTopKey(RemoveTopKey(RemoveTopKey(text, PROVIDER), BASE_URL), CATALOG);
    RemoveTopLine(RemoveTopLine(RemoveTopLine(a, PROVIDER_MARKER), BASE_URL_MARKER), CATALOG_MARKER)
  }

  function Bind(text: string, key: string, value: string, marker: string): string {
    AddMarker(UpsertTop(text, key, value), key, marker)
  }

  function Bound(text: string, baseUrl: string, catalog: string): string {
    Bind(Bind(Bind(RemoveBindings(text), PROVIDER, "openai", PROVIDER_MARKER), BASE_URL, baseUrl, BASE_URL_MARKER),
         CATALOG, catalog, CATALOG_MARKER)
  }

  /** Why a file cannot be managed: it binds one of the keys and the binding is not marked as managed. */
  function Conflict(text: string): Option<Error> {
    var provider := TopValue(text, PROVIDER);
    if provider != "" && (provider != "openai" || !HasTopLine(text, PROVIDER_MARKER)) then Some(UserOwnedConflict(PROVIDER))
    else if TopValue(text, BASE_URL) != "" && !HasTopLine(text, BASE_URL_MARKER) then Some(UserOwnedConflict(BASE_URL))
    else if TopValue(text, CATALOG) != "" && !HasTopLine(text, CATALOG_MARKER) then Some(UserOwnedConflict(CATALOG))
    else None
  }

  /** Why managing is refused, if it is. */
  function Refusal(text: string, input: Input): Option<Error> {
    if input.baseUrl.None? then Some(LoopbackBaseUrlRequired)
    else if !IsCatalogPath(Trim(input.catalogPath)) then Some(CatalogPathInvalid)
    else Conflict(RemoveOrphans(text))
  }

  /** The managed file, when managing is not refused. */
  function Rewritten(text: string, baseUrl: string, catalog: string): string {
    EnsureTrailingNewline(Bound(RemoveOrphans(text), baseUrl, catalog))
  }

  /** `upsertDesktopBridgeManagedConfig` */
  function Managed(text: string, input: Input): (r: Result)
    ensures r.Ok? ==> input.baseUrl.Some? && r.text == Rewritten(text, input.baseUrl.value, Trim(input.catalogPath))
  {
    var refusal := Refusal(text, input);
    if refusal.Some? then Err(refusal.value)
    else Ok(Rewritten(text, input.baseUrl.value, Trim(input.catalogPath)))
  }

  method AddTopLevelMarkerBeforeKey(text: string, key: string, marker: string) returns (r: string)
    ensures r == AddMarker(text, key, marker)
  {
    var lines := Split(text);
    var end := FirstIndex(lines, StartsBracket);
    var keyIndex := FirstIndex(lines[..end], KeyTest(key));
    if keyIndex < end && FirstIndex(lines[..end], TargetTest(marker)) == end {
      lines := lines[..keyIndex] + [marker] + lines[keyIndex..];
    }
    r := Join(lines);
  }

  method UpsertDesktopBridgeManagedConfig(text: string, input: Input) returns (r: Result)
    ensures r == Managed(text, input)
  {
    if input.baseUrl.None? { return Err(LoopbackBaseUrlRequired); }
    var catalog := Trim(input.catalogPath);
    if !IsCatalogPath(catalog) { return Err(CatalogPathInvalid); }
    var next := RemoveOrphans(text);
    var conflict := Conflict(next);
    if conflict.Some? { return Err(conflict.value); }
    next := RemoveTopKey(next, PROVIDER);
    next := RemoveTopKey(next, BASE_URL);
    next := RemoveTopKey(next, CATALOG);
    next := RemoveTopLevelLine(next, PROVIDER_MARKER);
    next := RemoveTopLevelLine(next, BASE_URL_MARKER);
    next := RemoveTopLevelLine(next, CATALOG_MARKER);
    next := UpsertTopLevelTomlString(next, PROVIDER, "openai");
    next := AddTopLevelMarkerBeforeKey(next, PROVIDER, PROVIDER_MARKER);
    next := UpsertTopLevelTomlString(next, BASE_URL, input.baseUrl.value);
    next := AddTopLevelMarkerBeforeKey(next, BASE_URL, BASE_URL_MARKER);
    next := UpsertTopLevelTomlString(next, CATALOG, catalog);
    next := AddTopLevelMarkerBeforeKey(next, CATALOG, CATALOG_MARKER);
    r := Ok(EnsureTrailingNewline(next));
  }

  /** One turn of the unmanage loop: `value` was read from the file before the loop. */
  function Release(r: Result, marker: string, key: string, value: string, valid: bool): Result {
    if r.Err? then r
    else if !HasTopLine(r.text, marker) then
      if value != "" then Err(OwnershipMissing(key)) else r
    else if !valid then Err(OwnedValueInvalid(key))
    else Ok(RemoveTopLine(RemoveTopKey(r.text, key), marker))
  }

  /** `removeDesktopBridgeManagedConfig` */
  function Unmanaged(text: string): Result {
    var provider, baseUrl, catalog := TopValue(text, PROVIDER), TopValue(text, BASE_URL), TopValue(text, CATALOG);
    var a := Release(Ok(text), PROVIDER_MARKER, PROVIDER, provider, provider == "openai");
    var b := Release(a, BASE_URL_MARKER, BASE_URL, baseUrl, baseUrl != "");
    var c := Release(b, CATALOG_MARKER, CATALOG, catalog, catalog != "");
    if c.Ok? then Ok(EnsureTrailingNewline(c.text)) else c
  }

  /** The body of the unmanage loop. */
  method ReleaseBinding(text: string, marker: string, key: string, value: string, valid: bool) returns (r: Result)
    ensures r == Release(Ok(text), marker, key, value, valid)
  {
    var next := text;
    if !HasTopLine(next, marker) {
      if value != "" { return Err(OwnershipMissing(key)); }
      return Ok(next);
    }
    if !valid { return Err(OwnedValueInvalid(key)); }
    next := RemoveTopKey(next, key);
    next := RemoveTopLevelLine(next, marker);
    r := Ok(next);
  }

  method RemoveDesktopBridgeManagedConfig(text: string) returns (r: Result)
    ensures r == Unmanaged(text)
  {
    var provider, baseUrl, catalog := TopValue(text, PROVIDER), TopValue(text, BASE_URL), TopValue(text, CATALOG);
    r := ReleaseBinding(text, PROVIDER_MARKER, PROVIDER, provider, provider == "openai");
    if r.Ok? { r := ReleaseBinding(r.text, BASE_URL_MARKER, BASE_URL, baseUrl, baseUrl != ""); }
    if r.Ok? { r := ReleaseBinding(r.text, CATALOG_MARKER, CATALOG, catalog, catalog != ""); }
    if r.Ok? { r := Ok(EnsureTrailingNewline(r.text)); }
  }
}
