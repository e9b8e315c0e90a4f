/** From parsed bridge arguments to requests, and back. */
module BridgeInvocation {
  import opened Text
  import opened Wrappers
  import BridgeConfig
  import opened BridgeArgv

  datatype Provider = CodexLb | OpenRouter

  datatype Level = Shallow | Transport | Deep

  datatype Mode = Passthrough | Gateway | Auto

  datatype Request =
    | Status
    | AuthPriorityStatus
    | AuthPrioritySet(enabled: bool)
    | Serve(settingsPath: string)
    | Ensure
    | Repair
    | Verify(level: Level)
    | ProviderList
    | ProviderConfigure(provider: Provider, apiKey: string, host: Option<string>)
    | ProviderValidate(provider: Provider)
    | ProviderEnable(provider: Provider)
    | ProviderDisable(provider: Provider)
    | ProviderRemoveCredential(provider: Provider)
    | CatalogSync
    | CatalogStatus
    | ModelsList
    | ModelsSelect(publicIds: seq<string>)
    | RouteList
    | RouteSetDefault(provider: Provider)
    | RouteOfficialModels(mode: Mode)
    | RouteExplain(model: string)
    | Unmanage
    | Rollback(receiptId: string)

  datatype Invocation = Invocation(request: Request, json: bool, strict: bool)

  const MAX_SECRET_BYTES := 65536

  // ----- small parsers -----

  function ProviderText(p: Provider): string {
    match p
    case CodexLb => "codex-lb"
    case OpenRouter => "openrouter"
  }

  function ParseProvider(s: string): Result<Provider> {
    if s == "codex-lb" then Ok(CodexLb) else if s == "openrouter" then Ok(OpenRouter) else Err(ProviderInvalid)
  }

  function LevelText(l: Level): string {
    match l
    case Shallow => "shallow"
    case Transport => "transport"
    case Deep => "deep"
  }

  function ParseLevel(s: string): Result<Level> {
    if s == "shallow" then Ok(Shallow) else if s == "transport" then Ok(Transport) else if s == "deep" then Ok(Deep) else Err(LevelInvalid)
  }

  function ModeText(m: Mode): string {
    match m
    case Passthrough => "passthrough"
    case Gateway => "gateway"
    case Auto => "auto"
  }

  function ParseMode(s: string): Result<Mode> {
    if s == "passthrough" then Ok(Passthrough) else if s == "gateway" then Ok(Gateway) else if s == "auto" then Ok(Auto) else Err(ModeInvalid)
  }

  /** `value.split(',')` */
  function Pieces(raw: string): (r: seq<string>)
    ensures |r| >= 1
  {
    if raw == "" then [""]
    else if raw[0] == ',' then [""] + Pieces(raw[1..])
    else
      var r := Pieces(raw[1..]);
      [[raw[0]] + r[0]] + r[1..]
  }

  /** `.map((id) => id.trim()).filter(Boolean)` */
  function Trimmed(pieces: seq<string>): seq<string> {
    if pieces == [] then []
    else (if Trim(pieces[0]) == "" then [] else [Trim(pieces[0])]) + Trimmed(pieces[1..])
  }

  /** `Buffer.byteLength(s, 'utf8')` */
  function ByteLength(s: string): nat {
    if s == "" then 0
    else
      var c := s[0] as int;
      (if c < 0x80 then 1 else if c < 0x800 then 2 else if c < 0x1_0000 then 3 else 4) + ByteLength(s[1..])
  }

  // ----- the decision -----

  function Given(p: Parsed, key: string): string {
    if key in p.values then p.values[key] else ""
  }

  function Allow(p: Parsed, flags: set<string>, options: set<string>, r: Result<Request>): Result<Request> {
    if p.flags <= flags && p.values.Keys <= options then r else Err(OptionNotAllowed)
  }

  function Plain(p: Parsed, request: Request): Result<Request> {
    Allow(p, {JSON}, {}, Ok(request))
  }

  function Confirmed(p: Parsed, r: Result<Request>): Result<Request> {
    Allow(p, {JSON, CONFIRM}, {}, if CONFIRM in p.flags then r else Err(ConfirmationRequired))
  }

  predicate IsSettingsPath(path: string) {
    path != "" && path[0] == '/' && BridgeConfig.Basename(path) == "desktop-bridge-settings.json"
  }

  function DecideServe(path: string): Result<Request> {
    if path == "" || path[0] != '/' then Err(SettingsPathNotAbsolute)
    else if BridgeConfig.Basename(path) != "desktop-bridge-settings.json" then Err(SettingsPathInvalid)
    else Ok(Serve(path))
  }

  function DecideLevel(level: string): Result<Request> {
    match ParseLevel(if level == "" then "shallow" else level)
    case Ok(l) => Ok(Verify(l))
    case Err(e) => Err(e)
  }

  function DecideConfigure(p: Parsed, provider: Provider, stdin: string): Result<Request> {
    var host, key := Given(p, HOST), Trim(stdin);
    if API_KEY_STDIN !in p.flags then Err(ApiKeyStdinRequired)
    else if provider.CodexLb? && host == "" then Err(HostRequired)
    else if key == "" then Err(ApiKeyEmpty)
    else if ByteLength(key) > MAX_SECRET_BYTES then Err(ApiKeyTooLarge)
    else Ok(ProviderConfigure(provider, key, if host == "" then None else Some(host)))
  }

  datatype ProviderAction = Configure | Validate | Enable | Disable | RemoveCredential

  function ForProvider(p: Parsed, action: ProviderAction, target: string, stdin: string): Result<Request> {
    match ParseProvider(target)
    case Err(e) => Err(e)
    case Ok(provider) =>
      match action
      case Configure => DecideConfigure(p, provider, stdin)
      case Validate => Ok(ProviderValidate(provider))
      case Enable => Ok(ProviderEnable(provider))
      case Disable => Ok(ProviderDisable(provider))
      case RemoveCredential => Ok(ProviderRemoveCredential(provider))
  }

  function DecideProvider(p: Parsed, stdin: string): Result<Request> {
    var ps := p.positionals;
    if |ps| == 2 && ps[1] == "list" then Plain(p, ProviderList)
    else if |ps| == 3 && ps[1] == "configure" then Allow(p, {JSON, API_KEY_STDIN}, {HOST}, ForProvider(p, Configure, ps[2], stdin))
    else if |ps| == 3 && ps[1] == "validate" then Allow(p, {JSON}, {}, ForProvider(p, Validate, ps[2], stdin))
    else if |ps| == 3 && ps[1] == "enable" then Allow(p, {JSON}, {}, ForProvider(p, Enable, ps[2], stdin))
    else if |ps| == 3 && ps[1] == "disable" then Allow(p, {JSON}, {}, ForProvider(p, Disable, ps[2], stdin))
    else if |ps| == 3 && ps[1] == "remove-credential" then Confirmed(p, ForProvider(p, RemoveCredential, ps[2], stdin))
    else Err(CommandInvalid)
  }

  function DecideModels(p: Parsed): Result<Request> {
    var ps := p.positionals;
    if |ps| == 2 && ps[1] == "list" then Plain(p, ModelsList)
    else if |ps| >= 2 && ps[1] == "select" then Allow(p, {JSON}, {SET}, Ok(ModelsSelect(Trimmed(Pieces(Given(p, SET))))))
    else Err(CommandInvalid)
  }

  function DecideRoute(p: Parsed): Result<Request> {
    var ps := p.positionals;
    if |ps| == 2 && ps[1] == "list" then Plain(p, RouteList)
    else if |ps| == 3 && ps[1] == "set-default" then
      Allow(p, {JSON}, {}, match ParseProvider(ps[2]) case Ok(provider) => Ok(RouteSetDefault(provider)) case Err(e) => Err(e))
    else if |ps| == 3 && ps[1] == "official-models" then
      Allow(p, {JSON}, {}, match ParseMode(ps[2]) case Ok(mode) => Ok(RouteOfficialModels(mode)) case Err(e) => Err(e))
    else if |ps| == 3 && ps[1] == "explain" then Plain(p, RouteExplain(ps[2]))
    else Err(CommandInvalid)
  }

  function Decide(p: Parsed, stdin: string): Result<Request> {
    var ps := p.positionals;
    var area, n := if |ps| == 0 then "status" else ps[0], |ps|;
    if area == "auth-priority" && n == 2 && ps[1] == "status" then Plain(p, AuthPriorityStatus)
    else if area == "auth-priority" && n == 2 && (ps[1] == "on" || ps[1] == "off") then Plain(p, AuthPrioritySet(ps[1] == "on"))
    else if area == "status" && n <= 1 then Plain(p, Status)
    else if area == "serve" && n == 1 then Allow(p, {JSON, SUPERVISED}, {SETTINGS}, DecideServe(Given(p, SETTINGS)))
    else if area == "ensure" && n == 1 then Plain(p, Ensure)
    else if area == "repair" && n == 1 then Plain(p, Repair)
    else if area == "verify" && n == 1 then Allow(p, {JSON, STRICT, REQUIRE_READY}, {LEVEL}, DecideLevel(Given(p, LEVEL)))
    else if area == "provider" then DecideProvider(p, stdin)
    else if area == "catalog" && n == 2 && ps[1] == "sync" then Plain(p, CatalogSync)
    else if area == "catalog" && n == 2 && ps[1] == "status" then Plain(p, CatalogStatus)
    else if area == "models" then DecideModels(p)
    else if area == "route" then DecideRoute(p)
    else if area == "unmanage" && n == 1 then Confirmed(p, Ok(Unmanage))
    else if area == "rollback" && n == 2 then Confirmed(p, Ok(Rollback(ps[1])))
    else Err(CommandInvalid)
  }

  function Invoke(args: seq<string>, stdin: string): Result<Invocation> {
    if HasSecret(args) then Err(SecretForbidden)
    else
      match Scan(args, EMPTY)
      case Err(e) => Err(e)
      case Ok(p) =>
        match Decide(p, stdin)
        case Err(e) => Err(e)
        case Ok(request) => Ok(Invocation(request, JSON in p.flags, STRICT in p.flags || REQUIRE_READY in p.flags))
  }

  method ParseInvocation(args: seq<string>, stdin: string) returns (r: Result<Invocation>)
    ensures r == Invoke(args, stdin)
  {
    var rejected := RejectSecretArgv(args);
    if rejected { return Err(SecretForbidden); }
    var parsed := ParseArgs(args);
    if parsed.Err? { return Err(parsed.error); }
    var p := parsed.value;
    var json, strict := JSON in p.flags, STRICT in p.flags || REQUIRE_READY in p.flags;
    var request := Decide(p, stdin);
    if request.Err? { return Err(request.error); }
    r := Ok(Invocation(request.value, json, strict));
  }

  // ----- what a request looks like on the command line -----

  function Optional(r: Request): set<string> {
    match r
    case Serve(_) => {JSON, SUPERVISED}
    case Verify(_) => {JSON, STRICT, REQUIRE_READY}
    case _ => {JSON}
  }

  function Required(r: Request): set<string> {
    match r
    case ProviderConfigure(_, _, _) => {API_KEY_STDIN}
    case ProviderRemoveCredential(_) => {CONFIRM}
    case Unmanage => {CONFIRM}
    case Rollback(_) => {CONFIRM}
    case _ => {}
  }

  /** The words of a request; `status` may be left out. */
  function WordsOf(r: Request): seq<string> {
    match r
    case Status => ["status"]
    case AuthPriorityStatus => ["auth-priority", "status"]
    case AuthPrioritySet(enabled) => ["auth-priority", if enabled then "on" else "off"]
    case Serve(_) => ["serve"]
    case Ensure => ["ensure"]
    case Repair => ["repair"]
    case Verify(_) => ["verify"]
    case ProviderList => ["provider", "list"]
    case ProviderConfigure(p, _, _) => ["provider", "configure", ProviderText(p)]
    case ProviderValidate(p) => ["provider", "validate", ProviderText(p)]
    case ProviderEnable(p) => ["provider", "enable", ProviderText(p)]
    case ProviderDisable(p) => ["provider", "disable", ProviderText(p)]
    case ProviderRemoveCredential(p) => ["provider", "remove-credential", ProviderText(p)]
    case CatalogSync => ["catalog", "sync"]
    case CatalogStatus => ["catalog", "status"]
    case ModelsList => ["models", "list"]
    case ModelsSelect(_) => ["models", "select"]
    case RouteList => ["route", "list"]
    case RouteSetDefault(p) => ["route", "set-default", ProviderText(p)]
    case RouteOfficialModels(m) => ["route", "official-models", ModeText(m)]
    case RouteExplain(model) => ["route", "explain", model]
    case Unmanage => ["unmanage"]
    case Rollback(id) => ["rollback", id]
  }

  function OptionsOf(r: Request): set<string> {
    match r
    case Serve(_) => {SETTINGS}
    case Verify(_) => {LEVEL}
    case ProviderConfigure(_, _, _) => {HOST}
    case ModelsSelect(_) => {SET}
    case _ => {}
  }

  /** The values given are the request's. */
  predicate ValuesFit(p: Parsed, stdin: string, r: Request) {
    match r
    case Serve(path) => path == Given(p, SETTINGS) && IsSettingsPath(path)
    case Verify(level) => Given(p, LEVEL) == LevelText(level) || (level.Shallow? && Given(p, LEVEL) == "")
    case ProviderConfigure(provider, key, host) =>
      && key == Trim(stdin) && key != "" && ByteLength(key) <= MAX_SECRET_BYTES
      && (if host.Some? then host.value != "" && Given(p, HOST) == host.value else Given(p, HOST) == "")
      && (provider.CodexLb? ==> host.Some?)
    case ModelsSelect(ids) => ids == Trimmed(Pieces(Given(p, SET)))
    case _ => true
  }

  /** Only `models select` tolerates further positionals. */
  predicate WordsFit(positionals: seq<string>, r: Request) {
    || positionals == WordsOf(r)
    || (r.Status? && positionals == [])
    || (r.ModelsSelect? && |positionals| >= 2 && positionals[..2] == WordsOf(r))
  }

  predicate Denotes(p: Parsed, stdin: string, r: Request) {
    && WordsFit(p.positionals, r)
    && Required(r) <= p.flags <= Required(r) + Optional(r)
    && p.values.Keys <= OptionsOf(r)
    && ValuesFit(p, stdin, r)
  }

  lemma ProviderTexts(s: string)
    ensures ParseProvider(s).Ok? ==> ProviderText(ParseProvider(s).value) == s
    ensures ParseMode(s).Ok? ==> ModeText(ParseMode(s).value) == s
  {}

  lemma DecidedConfigure(p: Parsed, stdin: string)
    requires |p.positionals| == 3 && p.positionals[0] == "provider" && p.positionals[1] == "configure"
    ensures var d := DecideProvider(p, stdin); d.Ok? ==> Denotes(p, stdin, d.value)
  {
    ProviderTexts(p.positionals[2]);
  }

  lemma DecidedThreeWords(p: Parsed, stdin: string)
    requires |p.positionals| == 3 && p.positionals[0] == "provider" && p.positionals[1] != "configure"
    ensures var d := DecideProvider(p, stdin); d.Ok? ==> Denotes(p, stdin, d.value)
  {
    ProviderTexts(p.positionals[2]);
  }

  lemma DecidedProvider(p: Parsed, stdin: string)
    requires |p.positionals| > 0 && p.positionals[0] == "provider"
    ensures var d := DecideProvider(p, stdin); d.Ok? ==> Denotes(p, stdin, d.value)
  {
    if |p.positionals| == 3 {
      if p.positionals[1] == "configure" { DecidedConfigure(p, stdin); } else { DecidedThreeWords(p, stdin); }
    }
  }

  lemma DecidedModels(p: Parsed, stdin: string)
    requires |p.positionals| > 0 && p.positionals[0] == "models"
    ensures DecideModels(p).Ok? ==> Denotes(p, stdin, DecideModels(p).value)
  {}

  lemma DecidedRoute(p: Parsed, stdin: string)
    requires |p.positionals| > 0 && p.positionals[0] == "route"
    ensures DecideRoute(p).Ok? ==> Denotes(p, stdin, DecideRoute(p).value)
  {
    if |p.positionals| == 3 { ProviderTexts(p.positionals[2]); }
  }

  lemma DecidedWithValue(p: Parsed, stdin: string)
    requires p.positionals == ["serve"] || p.positionals == ["verify"]
    ensures Decide(p, stdin).Ok? ==> Denotes(p, stdin, Decide(p, stdin).value)
  {}

  lemma DecidedOneWord(p: Parsed, stdin: string)
    requires |p.positionals| <= 1
    ensures Decide(p, stdin).Ok? ==> Denotes(p, stdin, Decide(p, stdin).value)
  {
    if p.positionals == ["serve"] || p.positionals == ["verify"] { DecidedWithValue(p, stdin); }
  }

  /** What is decided is denoted. */
  lemma DecidedIsDenoted(p: Parsed, stdin: string)
    ensures Decide(p, stdin).Ok? ==> Denotes(p, stdin, Decide(p, stdin).value)
  {
    if |p.positionals| <= 1 {
      DecidedOneWord(p, stdin);
    } else if p.positionals[0] == "provider" {
      DecidedProvider(p, stdin);
    } else if p.positionals[0] == "models" {
      DecidedModels(p, stdin);
    } else if p.positionals[0] == "route" {
      DecidedRoute(p, stdin);
    }
  }

  lemma DenotedProvider(p: Parsed, stdin: string, r: Request)
    requires Denotes(p, stdin, r) && WordsOf(r)[0] == "provider"
    ensures DecideProvider(p, stdin) == Ok(r)
  {}

  lemma DenotedRoute(p: Parsed, stdin: string, r: Request)
    requires Denotes(p, stdin, r) && WordsOf(r)[0] == "route"
    ensures DecideRoute(p) == Ok(r)
  {}

  lemma DenotedModels(p: Parsed, stdin: string, r: Request)
    requires Denotes(p, stdin, r) && WordsOf(r)[0] == "models"
    ensures DecideModels(p) == Ok(r) && |p.positionals| > 0 && p.positionals[0] == "models"
  {}

  /** What is denoted is decided. */
  lemma DenotedIsDecided(p: Parsed, stdin: string, r: Request)
    requires Denotes(p, stdin, r)
    ensures Decide(p, stdin) == Ok(r)
  {
    if WordsOf(r)[0] == "provider" {
      DenotedProvider(p, stdin, r);
    } else if WordsOf(r)[0] == "route" {
      DenotedRoute(p, stdin, r);
    } else if WordsOf(r)[0] == "models" {
      DenotedModels(p, stdin, r);
    }
  }

  // ----- the whole command line -----

  /** The argument vector is a rendering of items that denote the invocation. */
  ghost predicate Spells(args: seq<string>, stdin: string, inv: Invocation) {
    exists items :: Renders(items, args) && DenotesAll(Collect(items, EMPTY), stdin, inv)
  }

  predicate DenotesAll(p: Parsed, stdin: string, inv: Invocation) {
    Denotes(p, stdin, inv.request) && inv.json == (JSON in p.flags) && inv.strict == (STRICT in p.flags || REQUIRE_READY in p.flags)
  }

  /** An argument vector is accepted as an invocation exactly when it spells it: options anywhere, each value after its option. */
  lemma InvokedIffSpelled(args: seq<string>, stdin: string, inv: Invocation)
    ensures Invoke(args, stdin) == Ok(inv) <==> Spells(args, stdin, inv)
  {
    ParsedIffRendered(args);
    if Invoke(args, stdin) == Ok(inv) {
      var items :| Renders(items, args);
      DecidedIsDenoted(Collect(items, EMPTY), stdin);
    }
    if Spells(args, stdin, inv) {
      var items :| Renders(items, args) && DenotesAll(Collect(items, EMPTY), stdin, inv);
      ParsedHasNoSecret(args, EMPTY);
      DenotedIsDecided(Collect(items, EMPTY), stdin, inv.request);
    }
  }

  // ----- printing a request -----

  predicate IsId(id: string) {
    id != "" && Trim(id) == id && ',' !in id
  }

  predicate AreIds(ids: seq<string>) {
    forall i :: 0 <= i < |ids| ==> IsId(ids[i])
  }

  /** The identifiers, each after a comma. */
  function RawOf(ids: seq<string>): string {
    if ids == [] then "" else "," + ids[0] + RawOf(ids[1..])
  }

  /** The identifiers with commas between them. */
  function Commas(ids: seq<string>): string {
    if ids == [] then "" else ids[0] + RawOf(ids[1..])
  }

  /** A value that starts with two dashes would be taken for an option; a comma in front prevents that. */
  function Printed(ids: seq<string>): string {
    if IsDashed(Commas(ids)) then "," + Commas(ids) else Commas(ids)
  }

  lemma PiecesStep(c: char, rest: string)
    ensures var r := Pieces(rest);
            Pieces([c] + rest) == if c == ',' then [""] + r else [[c] + r[0]] + r[1..]
  {
    assert ([c] + rest)[1..] == rest;
  }

  /** A text without commas and then identifiers, each after a comma. */
  lemma {:induction false} PiecesOfText(x: string, rest: string, ids: seq<string>)
    requires ',' !in x && Pieces(rest) == [""] + ids
    ensures Pieces(x + rest) == [x] + ids
  {
    if x == "" {
      assert x + rest == rest;
    } else {
      assert x[0] in x && x == [x[0]] + x[1..];
      PiecesOfText(x[1..], rest, ids);
      PiecesStep(x[0], x[1..] + rest);
      assert x + rest == [x[0]] + (x[1..] + rest);
      assert ([x[1..]] + ids)[1..] == ids;
    }
  }

  lemma {:induction false} PiecesOfRaw(ids: seq<string>)
    requires AreIds(ids)
    ensures Pieces(RawOf(ids)) == [""] + ids
  {
    if ids != [] {
      PiecesOfRaw(ids[1..]);
      PiecesOfText(ids[0], RawOf(ids[1..]), ids[1..]);
      PiecesStep(',', ids[0] + RawOf(ids[1..]));
      assert RawOf(ids) == [','] + (ids[0] + RawOf(ids[1..]));
      assert ids == [ids[0]] + ids[1..];
    }
  }

  lemma {:induction false} TrimmedIds(ids: seq<string>)
    requires AreIds(ids)
    ensures Trimmed(ids) == ids
  {
    if ids != [] {
      TrimmedIds(ids[1..]);
      assert ids == [ids[0]] + ids[1..];
    }
  }

  lemma RawReadsBack(ids: seq<string>)
    requires AreIds(ids)
    ensures Trimmed(Pieces(RawOf(ids))) == ids
  {
    PiecesOfRaw(ids);
    TrimmedIds(ids);
    assert Trim("") == "" && ([""] + ids)[1..] == ids;
  }

  /** A comma-joined selection reads back as its identifiers. */
  lemma CommasReadBack(ids: seq<string>)
    requires AreIds(ids)
    ensures Trimmed(Pieces(Commas(ids))) == ids
  {
    if ids == [] {
      assert Trim("") == "" && [""][1..] == [];
    } else {
      PiecesOfRaw(ids[1..]);
      PiecesOfText(ids[0], RawOf(ids[1..]), ids[1..]);
      TrimmedIds(ids);
      assert ids == [ids[0]] + ids[1..];
    }
  }

  lemma IdsReadBack(ids: seq<string>)
    requires AreIds(ids)
    ensures Trimmed(Pieces(Printed(ids))) == ids
  {
    CommasReadBack(ids);
    if ids != [] {
      RawReadsBack(ids);
      assert "," + Commas(ids) == RawOf(ids);
    }
  }

  lemma TrimIsTrimmed(s: string)
    ensures Trim(Trim(s)) == Trim(s) && (',' !in s ==> ',' !in Trim(s))
  {
    var e := TrimEnd(s);
    TrimEndIsPrefix(s);
    TrimStartIsSuffix(e);
    var t := TrimStart(e);
    if t != "" { assert t[|t| - 1] == e[|e| - 1]; }
    assert t == e[|e| - |t|..] && e == s[..|e|];
    assert forall i :: 0 <= i < |t| ==> t[i] == s[|e| - |t| + i];
  }

  lemma {:induction false} PiecesHaveNoComma(raw: string)
    ensures forall i :: 0 <= i < |Pieces(raw)| ==> ',' !in Pieces(raw)[i]
  {
    if raw != "" { PiecesHaveNoComma(raw[1..]); }
  }

  lemma {:induction false} TrimmedAreIds(pieces: seq<string>)
    requires forall i :: 0 <= i < |pieces| ==> ',' !in pieces[i]
    ensures AreIds(Trimmed(pieces))
  {
    if pieces != [] {
      TrimIsTrimmed(pieces[0]);
      TrimmedAreIds(pieces[1..]);
    }
  }

  /** The requests that some command line makes, given what is on standard input. */
  predicate IsRequest(r: Request, stdin: string) {
    match r
    case Serve(path) => IsSettingsPath(path)
    case ProviderConfigure(provider, key, host) =>
      && key == Trim(stdin) && key != "" && ByteLength(key) <= MAX_SECRET_BYTES
      && (host.Some? ==> host.value != "" && !IsDashed(host.value)) && (provider.CodexLb? ==> host.Some?)
    case ModelsSelect(ids) => AreIds(ids)
    case RouteExplain(model) => !IsDashed(model)
    case Rollback(id) => !IsDashed(id)
    case _ => true
  }

  function WordItems(words: seq<string>): seq<Item> {
    if words == [] then [] else [Positional(words[0])] + WordItems(words[1..])
  }

  function ExtraItems(r: Request): seq<Item> {
    match r
    case Serve(path) => [Value(SETTINGS, path)]
    case Verify(level) => [Value(LEVEL, LevelText(level))]
    case ProviderConfigure(_, _, host) => [Flag(API_KEY_STDIN)] + if host.Some? then [Value(HOST, host.value)] else []
    case ProviderRemoveCredential(_) => [Flag(CONFIRM)]
    case ModelsSelect(ids) => if ids == [] then [] else [Value(SET, Printed(ids))]
    case Unmanage => [Flag(CONFIRM)]
    case Rollback(_) => [Flag(CONFIRM)]
    case _ => []
  }

  function Print(r: Request): seq<Item> {
    WordItems(WordsOf(r)) + ExtraItems(r)
  }

  predicate NoneDashed(words: seq<string>) {
    forall i :: 0 <= i < |words| ==> !IsDashed(words[i])
  }

  lemma {:induction false} CollectWords(words: seq<string>, rest: seq<Item>, done: Parsed)
    requires NoneDashed(words)
    ensures var d := done.(positionals := done.positionals + words);
            (AreItems(WordItems(words) + rest, done) <==> AreItems(rest, d)) && Collect(WordItems(words) + rest, done) == Collect(rest, d)
    decreases |words|
  {
    if words == [] {
      assert [] + rest == rest && done.positionals + words == done.positionals;
    } else {
      var items := WordItems(words) + rest;
      assert items[0] == Positional(words[0]) && items[1..] == WordItems(words[1..]) + rest;
      assert done.positionals + [words[0]] + words[1..] == done.positionals + words;
      CollectWords(words[1..], rest, Add(items[0], done));
    }
  }

  lemma WordsAreNotDashed(r: Request, stdin: string)
    requires IsRequest(r, stdin)
    ensures NoneDashed(WordsOf(r))
  {}

  /** At most one flag and one value, in that order. */
  function ExtraParsed(r: Request): Parsed {
    match r
    case Serve(path) => Parsed(WordsOf(r), {}, map[SETTINGS := path])
    case Verify(level) => Parsed(WordsOf(r), {}, map[LEVEL := LevelText(level)])
    case ProviderConfigure(_, _, host) => Parsed(WordsOf(r), {API_KEY_STDIN}, if host.Some? then map[HOST := host.value] else map[])
    case ModelsSelect(ids) => Parsed(WordsOf(r), {}, if ids == [] then map[] else map[SET := Printed(ids)])
    case _ => Parsed(WordsOf(r), Required(r), map[])
  }

  lemma CollectOne(item: Item, done: Parsed)
    ensures AreItems([item], done) <==> IsItem(item) && IsNew(item, done)
    ensures Collect([item], done) == Add(item, done)
  {
    assert [item][1..] == [];
  }

  lemma CollectTwo(item: Item, next: Item, done: Parsed)
    ensures AreItems([item] + [next], done) <==> IsItem(item) && IsNew(item, done) && IsItem(next) && IsNew(next, Add(item, done))
    ensures Collect([item] + [next], done) == Add(next, Add(item, done))
  {
    assert ([item] + [next])[1..] == [next];
    CollectOne(next, Add(item, done));
  }

  lemma CollectExtra(r: Request, stdin: string)
    requires IsRequest(r, stdin)
    ensures var d := Parsed(WordsOf(r), {}, map[]);
            AreItems(ExtraItems(r), d) && Collect(ExtraItems(r), d) == ExtraParsed(r)
  {
    var d := Parsed(WordsOf(r), {}, map[]);
    match r
    case ProviderConfigure(_, _, host) =>
      if host.Some? {
        CollectTwo(Flag(API_KEY_STDIN), Value(HOST, host.value), d);
      } else {
        CollectOne(Flag(API_KEY_STDIN), d);
      }
    case ModelsSelect(ids) =>
      if ids != [] {
        CollectOne(Value(SET, Printed(ids)), d);
      }
    case Serve(path) =>
      CollectOne(Value(SETTINGS, path), d);
    case Verify(level) =>
      CollectOne(Value(LEVEL, LevelText(level)), d);
    case _ =>
      CollectOne(Flag(CONFIRM), d);
  }

  lemma ExtraDenotes(r: Request, stdin: string)
    requires IsRequest(r, stdin)
    ensures Denotes(ExtraParsed(r), stdin, r)
  {
    if r.ModelsSelect? { IdsReadBack(r.publicIds); }
  }

  lemma PrintIsParsed(r: Request, stdin: string)
    requires IsRequest(r, stdin)
    ensures AreItems(Print(r), EMPTY) && Collect(Print(r), EMPTY) == ExtraParsed(r) && Denotes(ExtraParsed(r), stdin, r)
  {
    WordsAreNotDashed(r, stdin);
    CollectWords(WordsOf(r), ExtraItems(r), EMPTY);
    assert [] + WordsOf(r) == WordsOf(r);
    CollectExtra(r, stdin);
    ExtraDenotes(r, stdin);
  }

  /**
   * Every rendering of a request is parsed to that request: its words in order, its flags
   * and any of its optional flags, and values that denote it, each after its option, all
   * placed anywhere.
   */
  lemma RequestRoundTrip(r: Request, stdin: string, items: seq<Item>)
    requires AreItems(items, EMPTY)
    requires var p := Collect(items, EMPTY);
             && WordsFit(p.positionals, r) && Required(r) <= p.flags <= Required(r) + Optional(r)
             && p.values.Keys <= OptionsOf(r) && ValuesFit(p, stdin, r)
    ensures var flags := Collect(items, EMPTY).flags;
            Invoke(Render(items), stdin) == Ok(Invocation(r, JSON in flags, STRICT in flags || REQUIRE_READY in flags))
  {
    var p := Collect(items, EMPTY);
    var inv := Invocation(r, JSON in p.flags, STRICT in p.flags || REQUIRE_READY in p.flags);
    assert Renders(items, Render(items)) && DenotesAll(p, stdin, inv);
    InvokedIffSpelled(Render(items), stdin, inv);
  }

  /** In particular `models select --set a,b`, as the usage text has it. */
  lemma SelectionRoundTrip(ids: seq<string>, stdin: string)
    requires AreIds(ids) && ids != [] && !IsDashed(Commas(ids))
    ensures Invoke(["models", "select", SET, Commas(ids)], stdin) == Ok(Invocation(ModelsSelect(ids), false, false))
  {
    var items := [Positional("models"), Positional("select"), Value(SET, Commas(ids))];
    assert IsId(ids[0]);
    CommasReadBack(ids);
    CollectSelection(Commas(ids));
    RequestRoundTrip(ModelsSelect(ids), stdin, items);
  }

  lemma CollectSelection(value: string)
    requires value != "" && !IsDashed(value)
    ensures var items := [Positional("models"), Positional("select"), Value(SET, value)];
            && AreItems(items, EMPTY) && Collect(items, EMPTY) == Parsed(["models", "select"], {}, map[SET := value])
            && Render(items) == ["models", "select", SET, value]
  {
    var a, b, c := Positional("models"), Positional("select"), Value(SET, value);
    assert [a, b, c][1..] == [b, c];
    assert EMPTY.positionals + ["models"] == ["models"] && ["models"] + ["select"] == ["models", "select"];
    CollectTwo(b, c, Add(a, EMPTY));
    RenderMore(c, []);
    RenderMore(b, [c]);
    RenderMore(a, [b, c]);
    assert [c] + [] == [c] && [b] + [c] == [b, c] && [a] + [b, c] == [a, b, c];
  }

  lemma FlagsOfPrint(r: Request)
    ensures ExtraParsed(r).flags == Required(r)
  {}

  /** The arguments launchd passes after the command name. */
  function ServeArguments(settingsPath: string): seq<string> {
    ["serve", SETTINGS, settingsPath, JSON, SUPERVISED]
  }

  /** They reach `serve` for every valid settings path. */
  lemma ServeArgumentsReachServe(path: string, stdin: string)
    requires IsSettingsPath(path)
    ensures Invoke(ServeArguments(path), stdin) == Ok(Invocation(Serve(path), true, false))
  {
    var r := Serve(path);
    var tail := [Flag(JSON)] + [Flag(SUPERVISED)];
    var items := [Positional("serve"), Value(SETTINGS, path), Flag(JSON), Flag(SUPERVISED)];
    var d := Parsed(["serve"], {}, map[SETTINGS := path]);
    assert items[1..][1..] == tail;
    assert EMPTY.positionals + ["serve"] == ["serve"];
    CollectTwo(Flag(JSON), Flag(SUPERVISED), d);
    RequestRoundTrip(r, stdin, items);
    RenderServe(path);
  }

  lemma RenderMore(item: Item, rest: seq<Item>)
    ensures Render([item] + rest) == Words(item) + Render(rest)
  {
    assert ([item] + rest)[1..] == rest;
  }

  lemma RenderServe(path: string)
    ensures Render([Positional("serve"), Value(SETTINGS, path), Flag(JSON), Flag(SUPERVISED)]) == ServeArguments(path)
  {
    var json, supervised, settings := Flag(JSON), Flag(SUPERVISED), Value(SETTINGS, path);
    RenderMore(supervised, []);
    RenderMore(json, [supervised]);
    RenderMore(settings, [json, supervised]);
    RenderMore(Positional("serve"), [settings, json, supervised]);
    assert [supervised] + [] == [supervised] && [json] + [supervised] == [json, supervised];
    assert [settings] + [json, supervised] == [settings, json, supervised];
    assert [Positional("serve")] + [settings, json, supervised] == [Positional("serve"), settings, json, supervised];
  }

  // ----- which requests can be made -----

  predicate IsCollected(p: Parsed) {
    NoneDashed(p.positionals) && forall k :: k in p.values ==> p.values[k] != "" && !IsDashed(p.values[k])
  }

  lemma {:induction false} CollectedAreItems(items: seq<Item>, done: Parsed)
    requires AreItems(items, done) && IsCollected(done)
    ensures IsCollected(Collect(items, done))
    decreases |items|
  {
    if items != [] { CollectedAreItems(items[1..], Add(items[0], done)); }
  }

  lemma GivenIsValue(p: Parsed, key: string)
    requires IsCollected(p)
    ensures !IsDashed(Given(p, key))
  {}

  lemma DenotedIsRequest(p: Parsed, stdin: string, r: Request)
    requires IsCollected(p) && Denotes(p, stdin, r)
    ensures IsRequest(r, stdin)
  {
    match r
    case ProviderConfigure(_, _, _) => GivenIsValue(p, HOST);
    case ModelsSelect(_) =>
      PiecesHaveNoComma(Given(p, SET));
      TrimmedAreIds(Pieces(Given(p, SET)));
    case RouteExplain(model) => assert p.positionals[2] == model;
    case Rollback(id) => assert p.positionals[1] == id;
    case _ =>
  }

  /** The requests some command line makes are exactly those that `IsRequest` describes. */
  lemma RequestsMade(r: Request, stdin: string)
    ensures IsRequest(r, stdin) <==> exists args :: Invoke(args, stdin).Ok? && Invoke(args, stdin).value.request == r
  {
    if IsRequest(r, stdin) {
      PrintIsParsed(r, stdin);
      FlagsOfPrint(r);
      RequestRoundTrip(r, stdin, Print(r));
      assert Invoke(Render(Print(r)), stdin).Ok?;
    }
    if args :| Invoke(args, stdin).Ok? && Invoke(args, stdin).value.request == r {
      InvokedIffSpelled(args, stdin, Invoke(args, stdin).value);
      var items :| Renders(items, args) && DenotesAll(Collect(items, EMPTY), stdin, Invoke(args, stdin).value);
      CollectedAreItems(items, EMPTY);
      DenotedIsRequest(Collect(items, EMPTY), stdin, r);
    }
  }
}
