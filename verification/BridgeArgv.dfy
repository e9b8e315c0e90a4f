/** The argument vector of the bridge command: options, their values, and the grammar they form. */
module BridgeArgv {
  import opened Text

  datatype Error =
    | SecretForbidden
    | EqualsSyntax
    | DuplicateOption
    | ValueMissing
    | UnknownOption
    | OptionNotAllowed
    | ConfirmationRequired
    | LevelInvalid
    | ProviderInvalid
    | SettingsPathNotAbsolute
    | SettingsPathInvalid
    | ApiKeyStdinRequired
    | HostRequired
    | ApiKeyEmpty
    | ApiKeyTooLarge
    | ModeInvalid
    | CommandInvalid

  datatype Result<T> = Ok(value: T) | Err(error: Error)

  datatype Parsed = Parsed(positionals: seq<string>, flags: set<string>, values: map<string, string>)

  const EMPTY := Parsed([], {}, map[])

  const JSON := "--json"
  const STRICT := "--strict"
  const REQUIRE_READY := "--require-ready"
  const API_KEY_STDIN := "--api-key-stdin"
  const CONFIRM := "--confirm"
  const SUPERVISED := "--supervised"

  const LEVEL := "--level"
  const HOST := "--host"
  const SETTINGS := "--settings"
  const SET := "--set"

  predicate IsBoolean(s: string) {
    s == JSON || s == STRICT || s == REQUIRE_READY || s == API_KEY_STDIN || s == CONFIRM || s == SUPERVISED
  }

  predicate TakesValue(s: string) {
    s == LEVEL || s == HOST || s == SETTINGS || s == SET
  }

  predicate IsDashed(s: string) {
    |s| >= 2 && s[0] == '-' && s[1] == '-'
  }

  // ----- parsing -----

  /** Parsing the remaining arguments, `done` being what has been read. */
  function Scan(args: seq<string>, done: Parsed): Result<Parsed>
    decreases |args|
  {
    if args == [] then Ok(done)
    else if !IsDashed(args[0]) then Scan(args[1..], done.(positionals := done.positionals + [args[0]]))
    else if '=' in args[0] then Err(EqualsSyntax)
    else if IsBoolean(args[0]) then
      if args[0] in done.flags then Err(DuplicateOption)
      else Scan(args[1..], done.(flags := done.flags + {args[0]}))
    else if TakesValue(args[0]) then
      if args[0] in done.values then Err(DuplicateOption)
      else if |args| < 2 || args[1] == "" || IsDashed(args[1]) then Err(ValueMissing)
      else Scan(args[2..], done.(values := done.values[args[0] := args[1]]))
    else Err(UnknownOption)
  }

  method ParseArgs(args: seq<string>) returns (r: Result<Parsed>)
    ensures r == Scan(args, EMPTY)
  {
    var positionals: seq<string>, flags: set<string>, values: map<string, string> := [], {}, map[];
    var index := 0;
    while index < |args|
      invariant 0 <= index <= |args|
      invariant Scan(args[index..], Parsed(positionals, flags, values)) == Scan(args, EMPTY)
    {
      var value := args[index];
      ghost var rest := args[index..];
      assert rest[0] == value && rest[1..] == args[index + 1..];
      if !IsDashed(value) {
        positionals := positionals + [value];
        index := index + 1;
        continue;
      }
      if '=' in value { return Err(EqualsSyntax); }
      if IsBoolean(value) {
        if value in flags { return Err(DuplicateOption); }
        flags := flags + {value};
        index := index + 1;
        continue;
      }
      if TakesValue(value) {
        if value in values { return Err(DuplicateOption); }
        if index + 1 >= |args| || args[index + 1] == "" || IsDashed(args[index + 1]) { return Err(ValueMissing); }
        assert rest[1] == args[index + 1] && rest[2..] == args[index + 2..];
        values := values[value := args[index + 1]];
        index := index + 2;
        continue;
      }
      return Err(UnknownOption);
    }
    r := Ok(Parsed(positionals, flags, values));
  }

  // ----- the grammar -----

  datatype Item =
    | Positional(text: string)
    | Flag(name: string)
    | Value(key: string, value: string)

  function Words(item: Item): seq<string> {
    match item
    case Positional(text) => [text]
    case Flag(name) => [name]
    case Value(key, value) => [key, value]
  }

  function Render(items: seq<Item>): seq<string> {
    if items == [] then [] else Words(items[0]) + Render(items[1..])
  }

  predicate IsItem(item: Item) {
    match item
    case Positional(text) => !IsDashed(text)
    case Flag(name) => IsBoolean(name)
    case Value(key, value) => TakesValue(key) && value != "" && !IsDashed(value)
  }

  /** The item gives no option that has been given. */
  predicate IsNew(item: Item, done: Parsed) {
    match item
    case Positional(_) => true
    case Flag(name) => name !in done.flags
    case Value(key, _) => key !in done.values
  }

  function Add(item: Item, done: Parsed): Parsed {
    match item
    case Positional(text) => done.(positionals := done.positionals + [text])
    case Flag(name) => done.(flags := done.flags + {name})
    case Value(key, value) => done.(values := done.values[key := value])
  }

  /** Well-formed items, no option given twice. */
  predicate AreItems(items: seq<Item>, done: Parsed)
    decreases |items|
  {
    items == [] || (IsItem(items[0]) && IsNew(items[0], done) && AreItems(items[1..], Add(items[0], done)))
  }

  function Collect(items: seq<Item>, done: Parsed): Parsed
    decreases |items|
  {
    if items == [] then done else Collect(items[1..], Add(items[0], done))
  }

  lemma OptionFacts(s: string)
    ensures IsBoolean(s) || TakesValue(s) ==> IsDashed(s) && '=' !in s
    ensures IsBoolean(s) ==> !TakesValue(s)
  {}

  lemma ScanItem(item: Item, rest: seq<string>, done: Parsed)
    requires IsItem(item) && IsNew(item, done)
    ensures Scan(Words(item) + rest, done) == Scan(rest, Add(item, done))
  {
    var args := Words(item) + rest;
    OptionFacts(args[0]);
    match item
    case Positional(_) => assert args[1..] == rest;
    case Flag(_) => assert args[1..] == rest;
    case Value(_, _) => assert args[2..] == rest;
  }

  /** Every rendering of well-formed items is parsed to what they hold, wherever the options stand. */
  lemma {:induction false} ScanOfRender(items: seq<Item>, done: Parsed)
    requires AreItems(items, done)
    ensures Scan(Render(items), done) == Ok(Collect(items, done))
    decreases |items|
  {
    if items != [] {
      ScanItem(items[0], Render(items[1..]), done);
      ScanOfRender(items[1..], Add(items[0], done));
    }
  }

  function FirstItem(args: seq<string>): Item
    requires args != []
  {
    if !IsDashed(args[0]) then Positional(args[0])
    else if IsBoolean(args[0]) || |args| < 2 then Flag(args[0])
    else Value(args[0], args[1])
  }

  lemma FirstItemOf(args: seq<string>, done: Parsed)
    requires args != [] && Scan(args, done).Ok?
    ensures var item := FirstItem(args);
            IsItem(item) && IsNew(item, done) && |Words(item)| <= |args| && args == Words(item) + args[|Words(item)|..]
  {
    OptionFacts(args[0]);
  }

  /** And whatever is parsed is such a rendering. */
  lemma {:induction false} RenderOfScan(args: seq<string>, done: Parsed) returns (items: seq<Item>)
    requires Scan(args, done).Ok?
    ensures Render(items) == args && AreItems(items, done) && Scan(args, done).value == Collect(items, done)
    decreases |args|
  {
    if args == [] {
      items := [];
    } else {
      var item := FirstItem(args);
      FirstItemOf(args, done);
      var rest := args[|Words(item)|..];
      ScanItem(item, rest, done);
      var others := RenderOfScan(rest, Add(item, done));
      items := [item] + others;
      assert items[1..] == others;
    }
  }

  predicate Renders(items: seq<Item>, args: seq<string>) {
    AreItems(items, EMPTY) && Render(items) == args
  }

  /** The arguments the parser accepts are exactly the renderings of well-formed items. */
  lemma ParsedIffRendered(args: seq<string>)
    ensures Scan(args, EMPTY).Ok? <==> exists items :: Renders(items, args)
    ensures forall items :: Renders(items, args) ==> Scan(args, EMPTY) == Ok(Collect(items, EMPTY))
  {
    if Scan(args, EMPTY).Ok? {
      var items := RenderOfScan(args, EMPTY);
      assert Renders(items, args);
    }
    forall items | Renders(items, args) ensures Scan(args, EMPTY) == Ok(Collect(items, EMPTY)) {
      ScanOfRender(items, EMPTY);
    }
  }

  /** The items that are positionals, in order. */
  function Positionals(args: seq<string>): seq<string>
    decreases |args|
  {
    if args == [] then []
    else if !IsDashed(args[0]) then [args[0]] + Positionals(args[1..])
    else if TakesValue(args[0]) && |args| >= 2 then Positionals(args[2..])
    else Positionals(args[1..])
  }

  /** Every argument is accounted for once, and the positionals keep their order. */
  lemma {:induction false} ParseConserves(args: seq<string>, done: Parsed)
    requires Scan(args, done).Ok?
    ensures var p := Scan(args, done).value;
            && p.positionals == done.positionals + Positionals(args)
            && |args| == (|p.positionals| - |done.positionals|) + (|p.flags| - |done.flags|) + 2 * (|p.values| - |done.values|)
    decreases |args|
  {
    if args != [] {
      var item := FirstItem(args);
      FirstItemOf(args, done);
      OptionFacts(args[0]);
      var rest := args[|Words(item)|..];
      ScanItem(item, rest, done);
      ParseConserves(rest, Add(item, done));
      AddGrows(item, done);
    }
  }

  lemma AddGrows(item: Item, done: Parsed)
    requires IsNew(item, done)
    ensures var d := Add(item, done);
            (|d.positionals| - |done.positionals|) + (|d.flags| - |done.flags|) + 2 * (|d.values| - |done.values|) == |Words(item)|
  {
    match item
    case Positional(_) =>
    case Flag(_) =>
    case Value(key, value) =>
      var d := done.values[key := value];
      assert d.Keys == done.values.Keys + {key};
      assert |d.Keys| == |d| && |done.values.Keys| == |done.values|;
  }

  // ----- secrets -----

  function BeforeEquals(s: string): string {
    if s == "" || s[0] == '=' then "" else [s[0]] + BeforeEquals(s[1..])
  }

  predicate Names(option: string, word: string) {
    |word| <= |option| && option[..|word|] == word && (|option| == |word| || option[|word|] == '-')
  }

  /** `/^--(?:api[-_]?key|secret|token|authorization|bearer|password)(?:$|-)/` */
  predicate NamesSecret(option: string) {
    || Names(option, "--apikey") || Names(option, "--api-key") || Names(option, "--api_key")
    || Names(option, "--secret") || Names(option, "--token") || Names(option, "--authorization")
    || Names(option, "--bearer") || Names(option, "--password")
  }

  predicate IsSecret(arg: string) {
    var option := Lower(BeforeEquals(arg));
    option != API_KEY_STDIN && NamesSecret(option)
  }

  predicate HasSecret(args: seq<string>) {
    exists arg | arg in args :: IsSecret(arg)
  }

  method RejectSecretArgv(args: seq<string>) returns (rejected: bool)
    ensures rejected == HasSecret(args)
  {
    for i := 0 to |args|
      invariant forall j :: 0 <= j < i ==> !IsSecret(args[j])
    {
      if IsSecret(args[i]) { return true; }
    }
    rejected := false;
  }

  lemma {:induction false} BeforeEqualsIsPrefix(s: string)
    ensures var b := BeforeEquals(s); b <= s && ('=' !in s ==> b == s)
  {
    if s != "" && s[0] != '=' {
      BeforeEqualsIsPrefix(s[1..]);
      assert s == [s[0]] + s[1..];
    }
  }

  predicate StartsLikeSecret(option: string) {
    && |option| >= 5 && option[0] == '-' && option[1] == '-'
    && (option[2] == 'a' || option[2] == 't' || option[2] == 'b' || option[2] == 'p' || (option[2] == 's' && option[3] == 'e' && option[4] == 'c'))
  }

  /** A secret option starts with two dashes and one of five letters, and with more of the word when the letter is `s`. */
  lemma SecretStart(option: string)
    requires NamesSecret(option)
    ensures StartsLikeSecret(option)
  {
    var word :| Names(option, word) && StartsLikeSecret(word);
  }

  lemma PlainIsNoSecret(arg: string)
    requires !IsDashed(arg)
    ensures !IsSecret(arg)
  {
    BeforeEqualsIsPrefix(arg);
    if NamesSecret(Lower(BeforeEquals(arg))) {
      SecretStart(Lower(BeforeEquals(arg)));
      assert false;
    }
  }

  lemma LowerApiKeyStdin()
    ensures Lower(API_KEY_STDIN) == API_KEY_STDIN
  {}

  predicate IsLetter(c: char) {
    'a' <= c <= 'z'
  }

  lemma OptionStart(s: string)
    requires (IsBoolean(s) || TakesValue(s)) && s != API_KEY_STDIN
    ensures |s| >= 5 && IsLetter(s[2]) && IsLetter(s[3]) && IsLetter(s[4]) && !StartsLikeSecret(s)
  {}

  lemma LowerStart(s: string)
    requires |s| >= 5 && IsLetter(s[2]) && IsLetter(s[3]) && IsLetter(s[4]) && !StartsLikeSecret(s)
    ensures !NamesSecret(Lower(s))
  {
    if NamesSecret(Lower(s)) {
      SecretStart(Lower(s));
      assert false;
    }
  }

  lemma OptionIsNoSecret(s: string)
    requires IsBoolean(s) || TakesValue(s)
    ensures !IsSecret(s)
  {
    OptionFacts(s);
    BeforeEqualsIsPrefix(s);
    LowerApiKeyStdin();
    if s != API_KEY_STDIN {
      OptionStart(s);
      LowerStart(s);
    }
  }

  /** The secret check only chooses the error: an argument vector it rejects would not have been parsed. */
  lemma {:induction false} ParsedHasNoSecret(args: seq<string>, done: Parsed)
    requires Scan(args, done).Ok?
    ensures !HasSecret(args)
    decreases |args|
  {
    if args != [] {
      var item := FirstItem(args);
      FirstItemOf(args, done);
      var rest := args[|Words(item)|..];
      ScanItem(item, rest, done);
      ParsedHasNoSecret(rest, Add(item, done));
      forall word | word in Words(item) ensures !IsSecret(word) {
        if IsDashed(word) { OptionIsNoSecret(word); } else { PlainIsNoSecret(word); }
      }
      assert forall arg :: arg in args ==> arg in Words(item) || arg in rest;
    }
  }
}
