/** Risk classification of SQL scripts and the decision taken on it. */
module SqlClassifier {
  import opened Sequences
  import opened Text
  import opened SqlScanner
  import opened SqlStatements

  // ----- keyword patterns on scanned statements -----

  /** What the patterns are tested on: comments stripped, letters lowered, literals blanked. */
  function Scanned(stmt: string): string {
    Blank(Lower(StripSqlComments(stmt)))
  }

  predicate IsWordChar(c: char) {
    'a' <= c <= 'z' || 'A' <= c <= 'Z' || '0' <= c <= '9' || c == '_'
  }

  /** `\bw\b` matches at `i`; all words used consist of word characters. */
  predicate WordAt(s: string, i: int, w: string) {
    && 0 <= i && i + |w| <= |s| && s[i..i + |w|] == w
    && (i == 0 || !IsWordChar(s[i - 1]))
    && (i + |w| == |s| || !IsWordChar(s[i + |w|]))
  }

  /** The words match from `i` to `e` with only whitespace, and some of it, between them. */
  predicate PhraseAt(s: string, words: seq<string>, i: int, e: int) {
    if words == [] then i == e
    else
      && WordAt(s, i, words[0])
      && if |words| == 1 then e == i + |words[0]|
         else exists j | 0 <= j <= |s| :: i + |words[0]| < j && IsBlank(s[i + |words[0]|..j]) && PhraseAt(s, words[1..], j, e)
  }

  predicate HasWord(s: string, w: string) {
    exists i | 0 <= i < |s| :: WordAt(s, i, w)
  }

  predicate HasPhrase(s: string, words: seq<string>) {
    exists i, e | 0 <= i <= |s| && 0 <= e <= |s| :: PhraseAt(s, words, i, e)
  }

  /** A match of `first`, then anything, then a match of `second`. */
  predicate HasThen(s: string, first: seq<string>, second: string) {
    exists i, e, j | 0 <= i <= |s| && 0 <= e <= |s| && 0 <= j <= |s| ::
      PhraseAt(s, first, i, e) && e <= j && WordAt(s, j, second)
  }

  predicate WordFrom(s: string, from: int, w: string) {
    exists j | 0 <= j <= |s| :: from <= j && WordAt(s, j, w)
  }

  /** `delete from` not followed by `where`. */
  predicate DeletesAll(s: string) {
    exists i, e | 0 <= i <= |s| && 0 <= e <= |s| :: PhraseAt(s, ["delete", "from"], i, e) && !WordFrom(s, e, "where")
  }

  /** `update`, later `set`, and no `where` after that. */
  predicate UpdatesAll(s: string) {
    exists i, j | 0 <= i <= |s| && 0 <= j <= |s| ::
      WordAt(s, i, "update") && i + 6 <= j && WordAt(s, j, "set") && !WordFrom(s, j + 3, "where")
  }

  function Check<T>(hit: bool, reason: T): seq<T> {
    if hit then [reason] else []
  }

  function DropReasons(s: string): seq<string> {
    Check(HasPhrase(s, ["drop", "database"]), "drop_database")
    + Check(HasPhrase(s, ["drop", "schema"]), "drop_schema")
    + Check(HasPhrase(s, ["drop", "table"]), "drop_table")
    + Check(HasPhrase(s, ["drop", "view"]), "drop_view")
    + Check(HasPhrase(s, ["drop", "materialized", "view"]), "drop_materialized_view")
    + Check(HasPhrase(s, ["drop", "extension"]), "drop_extension")
    + Check(HasPhrase(s, ["drop", "policy"]), "drop_policy")
    + Check(HasWord(s, "drop"), "drop_statement")
  }

  function RewriteReasons(s: string): seq<string> {
    Check(HasWord(s, "truncate"), "truncate")
    + Check(HasThen(s, ["alter", "table"], "drop"), "alter_table_drop")
    + Check(HasThen(s, ["alter", "table"], "rename"), "alter_table_rename")
    + Check(DeletesAll(s), "delete_without_where")
    + Check(UpdatesAll(s), "update_without_where")
    + Check(HasPhrase(s, ["create", "or", "replace"]), "create_or_replace")
  }

  function AccessReasons(s: string): seq<string> {
    Check(DisablesRls(s), "disable_rls") + Check(HasWord(s, "grant"), "grant") + Check(HasWord(s, "revoke"), "revoke")
  }

  /** The table of destructive checks, in its order. */
  function DestructiveReasons(s: string): seq<string> {
    DropReasons(s) + RewriteReasons(s) + AccessReasons(s)
  }

  predicate DisablesRls(s: string) {
    HasPhrase(s, ["disable", "row", "level", "security"]) || HasPhrase(s, ["disable", "rls"])
  }

  predicate DeletesSome(s: string) { HasPhrase(s, ["delete", "from"]) && HasWord(s, "where") }
  predicate UpdatesSome(s: string) { HasThen(s, ["update"], "set") && HasWord(s, "where") }
  predicate Inserts(s: string) { HasPhrase(s, ["insert", "into"]) || HasWord(s, "upsert") }
  predicate ChangesSchema(s: string) {
    || HasPhrase(s, ["create", "table"]) || HasPhrase(s, ["create", "index"]) || HasPhrase(s, ["create", "schema"])
    || HasPhrase(s, ["create", "view"]) || HasPhrase(s, ["create", "function"]) || HasPhrase(s, ["create", "policy"])
    || HasPhrase(s, ["create", "extension"]) || HasPhrase(s, ["alter", "table"])
  }
  predicate CopiesFrom(s: string) { HasThen(s, ["copy"], "from") }

  const READ_VERBS := ["select", "with", "show", "explain", "describe"]
  const MUTATING_WORDS := ["insert", "update", "delete", "drop", "truncate", "alter", "create", "grant", "revoke"]

  predicate IsReadOnly(stmt: string) {
    var s := Scanned(stmt);
    (exists v | v in READ_VERBS :: WordAt(s, 0, v)) && (forall w | w in MUTATING_WORDS :: !HasWord(s, w))
  }

  // ----- the classification loop -----

  /** All that the classification of a statement depends on. */
  datatype Features = Features(empty: bool, destructive: seq<string>, deletesSome: bool, updatesSome: bool,
                               inserts: bool, changesSchema: bool, copiesFrom: bool, readOnly: bool)

  function FeaturesOf(stmt: string): Features {
    var s := Scanned(stmt);
    Features(s == "", DestructiveReasons(s), DeletesSome(s), UpdatesSome(s), Inserts(s), ChangesSchema(s), CopiesFrom(s),
             IsReadOnly(stmt))
  }

  function AllFeatures(stmts: seq<string>): seq<Features> {
    Mapped(FeaturesOf, stmts)
  }

  datatype Level = NoSql | Safe | Write | Destructive

  datatype Verdict = Verdict(level: Level, kind: string, reasons: seq<string>)

  const FIRST_VERDICT := Verdict(Safe, "read", [])

  function Raise(v: Verdict, hit: bool, reason: string, kind: string): Verdict {
    if hit && v.level != Destructive then Verdict(Write, kind, v.reasons + [reason]) else v
  }

  /** One turn of the loop over the statements. */
  function Classified(v: Verdict, f: Features): Verdict {
    if f.empty then v
    else
      var v0 := if f.destructive != [] then Verdict(Destructive, "destructive", v.reasons + f.destructive) else v;
      var v1 := Raise(v0, f.deletesSome, "delete_with_where", "dml");
      var v2 := Raise(v1, f.updatesSome, "update_with_where", "dml");
      var v3 := Raise(v2, f.inserts, "insert_or_upsert", "dml");
      var v4 := Raise(v3, f.changesSchema, "schema_change", "ddl");
      var v5 := Raise(v4, f.copiesFrom, "bulk_copy_from", "bulk");
      if !f.readOnly && v5.level == Safe then Verdict(Write, "unknown_write", v5.reasons + ["non_readonly_or_unknown_sql"])
      else v5
  }

  function ClassifiedAll(fs: seq<Features>): Verdict {
    if fs == [] then FIRST_VERDICT
    else Classified(ClassifiedAll(fs[..|fs| - 1]), fs[|fs| - 1])
  }

  function Classification(fs: seq<Features>): Verdict {
    if fs == [] then Verdict(NoSql, "none", []) else ClassifiedAll(fs)
  }

  /** The features of a script's statements. */
  function ScriptFeatures(sql: string): seq<Features> {
    AllFeatures(Statements(StripSqlComments(sql)))
  }

  method ClassifyStatement(v: Verdict, raw: string) returns (r: Verdict)
    ensures r == Classified(v, FeaturesOf(raw))
  {
    var stmt := StripSqlStringLiterals(Lower(StripSqlComments(raw)));
    if stmt == "" { return v; }
    var hits := DestructiveReasons(stmt);
    r := if hits != [] then Verdict(Destructive, "destructive", v.reasons + hits) else v;
    r := Raise(r, DeletesSome(stmt), "delete_with_where", "dml");
    r := Raise(r, UpdatesSome(stmt), "update_with_where", "dml");
    r := Raise(r, Inserts(stmt), "insert_or_upsert", "dml");
    r := Raise(r, ChangesSchema(stmt), "schema_change", "ddl");
    r := Raise(r, CopiesFrom(stmt), "bulk_copy_from", "bulk");
    if !IsReadOnly(raw) && r.level == Safe {
      r := Verdict(Write, "unknown_write", r.reasons + ["non_readonly_or_unknown_sql"]);
    }
  }

  lemma FeaturesExtend(stmts: seq<string>, i: nat)
    requires i < |stmts|
    ensures AllFeatures(stmts[..i + 1]) == AllFeatures(stmts[..i]) + [FeaturesOf(stmts[i])]
  {
    MappedExtends(FeaturesOf, stmts, i);
  }

  lemma ClassifiedExtends(fs: seq<Features>, f: Features)
    ensures ClassifiedAll(fs + [f]) == Classified(ClassifiedAll(fs), f)
  {
    assert (fs + [f])[..|fs + [f]| - 1] == fs;
  }

  method ClassifySql(sql: string) returns (v: Verdict)
    ensures v == Classification(ScriptFeatures(sql))
  {
    var statements := SplitSqlStatements(sql);
    if statements == [] { return Verdict(NoSql, "none", []); }
    v := FIRST_VERDICT;
    for i := 0 to |statements|
      invariant v == ClassifiedAll(AllFeatures(statements[..i]))
    {
      FeaturesExtend(statements, i);
      ClassifiedExtends(AllFeatures(statements[..i]), FeaturesOf(statements[i]));
      v := ClassifyStatement(v, statements[i]);
    }
    assert statements[..|statements|] == statements;
  }

  // ----- what the level means -----

  /** The risk of one statement on its own. */
  function Risk(f: Features): Level {
    if f.destructive != [] then Destructive
    else if f.deletesSome || f.updatesSome || f.inserts || f.changesSchema || f.copiesFrom || !f.readOnly then Write
    else Safe
  }

  function Join(a: Level, b: Level): Level {
    if a == Destructive || b == Destructive then Destructive
    else if a == Write || b == Write then Write
    else Safe
  }

  lemma StepJoins(v: Verdict, f: Features)
    requires v.level != NoSql && !f.empty
    ensures Classified(v, f).level == Join(v.level, Risk(f))
  {}

  predicate SomeRisk(fs: seq<Features>, level: Level) {
    exists f | f in fs :: Risk(f) == level
  }

  lemma {:induction false} LevelIsJoinOf(fs: seq<Features>)
    requires forall f :: f in fs ==> !f.empty
    ensures ClassifiedAll(fs).level
         == if SomeRisk(fs, Destructive) then Destructive else if SomeRisk(fs, Write) then Write else Safe
  {
    if fs != [] {
      var front, last := fs[..|fs| - 1], fs[|fs| - 1];
      LevelIsJoinOf(front);
      StepJoins(ClassifiedAll(front), last);
      assert fs == front + [last] && last in fs;
      assert forall l :: SomeRisk(fs, l) <==> SomeRisk(front, l) || Risk(last) == l;
    }
  }

  lemma StrippedIsScannable(stmt: string)
    requires StripSqlComments(stmt) == stmt && stmt != ""
    ensures !FeaturesOf(stmt).empty
  {
    assert |Scanned(stmt)| == |stmt|;
  }

  /** Whatever the splitter emits still has characters once scanned, so no statement is skipped. */
  lemma StatementsAreScannable(sql: string)
    ensures forall f :: f in ScriptFeatures(sql) ==> !f.empty
    ensures ScriptFeatures(sql) == [] <==> StripSqlComments(sql) == ""
  {
    var stmts := Statements(StripSqlComments(sql));
    StatementsCoverScript(sql);
    forall k | 0 <= k < |stmts| ensures !FeaturesOf(stmts[k]).empty {
      var a := StatementMatchesScript(sql, k);
      StrippedIsScannable(stmts[k]);
    }
    MappedMembers(FeaturesOf, stmts);
  }

  /**
   * A script's level is the join of its statements' risks: it is never downgraded by a
   * later statement, and it is safe exactly when every statement is.
   */
  lemma LevelIsJoin(sql: string)
    ensures var fs := ScriptFeatures(sql);
            var level := Classification(fs).level;
            && (level == NoSql <==> StripSqlComments(sql) == "")
            && (level == Destructive <==> SomeRisk(fs, Destructive))
            && (level == Write <==> SomeRisk(fs, Write) && !SomeRisk(fs, Destructive))
            && (level == Safe <==> fs != [] && forall f :: f in fs ==> Risk(f) == Safe)
  {
    StatementsAreScannable(sql);
    LevelIsJoinOf(ScriptFeatures(sql));
    AllSafeOrNot(ScriptFeatures(sql));
  }

  lemma AllSafeOrNot(fs: seq<Features>)
    ensures (forall f :: f in fs ==> Risk(f) == Safe) <==> !SomeRisk(fs, Write) && !SomeRisk(fs, Destructive)
  {
    if !SomeRisk(fs, Write) && !SomeRisk(fs, Destructive) {
      forall f | f in fs ensures Risk(f) == Safe {
        assert Risk(f) != Write && Risk(f) != Destructive;
      }
    }
  }

  /** Reordering the statements of a script does not change its level. */
  lemma LevelIgnoresOrder(sql: string, sql': string)
    requires multiset(ScriptFeatures(sql)) == multiset(ScriptFeatures(sql'))
    ensures Classification(ScriptFeatures(sql)).level == Classification(ScriptFeatures(sql')).level
  {
    StatementsAreScannable(sql);
    StatementsAreScannable(sql');
    SameLevel(ScriptFeatures(sql), ScriptFeatures(sql'));
  }

  lemma SameLevel(a: seq<Features>, b: seq<Features>)
    requires multiset(a) == multiset(b)
    requires (forall f :: f in a ==> !f.empty) && (forall f :: f in b ==> !f.empty)
    ensures Classification(a).level == Classification(b).level
  {
    forall f ensures f in a <==> f in b { assert f in multiset(a) <==> f in multiset(b); }
    assert |a| == |multiset(a)| == |multiset(b)| == |b|;
    LevelIsJoinOf(a);
    LevelIsJoinOf(b);
  }

  lemma PhraseHasItsFirstWord(s: string, words: seq<string>)
    requires words != [] && words[0] != ""
    ensures HasPhrase(s, words) ==> HasWord(s, words[0])
  {
    if i, e :| 0 <= i <= |s| && 0 <= e <= |s| && PhraseAt(s, words, i, e) {
      assert WordAt(s, i, words[0]);
    }
  }

  lemma ThenHasItsFirstWord(s: string, first: seq<string>, second: string)
    requires first != [] && first[0] != ""
    ensures HasThen(s, first, second) ==> HasWord(s, first[0])
  {
    if i, e, j :| 0 <= i <= |s| && 0 <= e <= |s| && 0 <= j <= |s| && PhraseAt(s, first, i, e) && e <= j && WordAt(s, j, second) {
      assert WordAt(s, i, first[0]);
    }
  }

  lemma UnboundedHasItsFirstWord(s: string)
    ensures DeletesAll(s) ==> HasWord(s, "delete")
    ensures UpdatesAll(s) ==> HasWord(s, "update")
  {
    if i, e :| 0 <= i <= |s| && 0 <= e <= |s| && PhraseAt(s, ["delete", "from"], i, e) && !WordFrom(s, e, "where") {
      assert WordAt(s, i, "delete");
    }
    if i, j :| 0 <= i <= |s| && 0 <= j <= |s| && WordAt(s, i, "update") && i + 6 <= j && WordAt(s, j, "set") {
      assert WordAt(s, i, "update");
    }
  }

  lemma DropsNeedDrop(s: string)
    requires !HasWord(s, "drop")
    ensures DropReasons(s) == []
  {
    PhraseHasItsFirstWord(s, ["drop", "database"]);
    PhraseHasItsFirstWord(s, ["drop", "schema"]);
    PhraseHasItsFirstWord(s, ["drop", "table"]);
    PhraseHasItsFirstWord(s, ["drop", "view"]);
    PhraseHasItsFirstWord(s, ["drop", "materialized", "view"]);
    PhraseHasItsFirstWord(s, ["drop", "extension"]);
    PhraseHasItsFirstWord(s, ["drop", "policy"]);
  }

  lemma RewritesNeedTheirWords(s: string)
    requires !HasWord(s, "truncate") && !HasWord(s, "alter") && !HasWord(s, "delete") && !HasWord(s, "update") && !HasWord(s, "create")
    ensures RewriteReasons(s) == []
  {
    ThenHasItsFirstWord(s, ["alter", "table"], "drop");
    ThenHasItsFirstWord(s, ["alter", "table"], "rename");
    UnboundedHasItsFirstWord(s);
    PhraseHasItsFirstWord(s, ["create", "or", "replace"]);
  }

  lemma ChangesNeedTheirWords(s: string)
    requires !HasWord(s, "create") && !HasWord(s, "alter")
    ensures !ChangesSchema(s)
  {
    PhraseHasItsFirstWord(s, ["create", "table"]);
    PhraseHasItsFirstWord(s, ["create", "index"]);
    PhraseHasItsFirstWord(s, ["create", "schema"]);
    PhraseHasItsFirstWord(s, ["create", "view"]);
    PhraseHasItsFirstWord(s, ["create", "function"]);
    PhraseHasItsFirstWord(s, ["create", "policy"]);
    PhraseHasItsFirstWord(s, ["create", "extension"]);
    PhraseHasItsFirstWord(s, ["alter", "table"]);
  }

  lemma DmlNeedsItsWords(s: string)
    requires !HasWord(s, "delete") && !HasWord(s, "update") && !HasWord(s, "insert")
    ensures !DeletesSome(s) && !UpdatesSome(s) && (Inserts(s) <==> HasWord(s, "upsert"))
  {
    PhraseHasItsFirstWord(s, ["delete", "from"]);
    ThenHasItsFirstWord(s, ["update"], "set");
    PhraseHasItsFirstWord(s, ["insert", "into"]);
  }

  lemma ReadOnlyLacks(stmt: string, w: string)
    requires IsReadOnly(stmt) && w in MUTATING_WORDS
    ensures !HasWord(Scanned(stmt), w)
  {}

  /**
   * Exactly which statements are safe: the read-only ones, except those that disable row
   * level security, upsert, or copy from.
   */
  lemma SafeStatements(stmt: string)
    ensures var s := Scanned(stmt);
            Risk(FeaturesOf(stmt)) == Safe
            <==> IsReadOnly(stmt) && !DisablesRls(s) && !HasWord(s, "upsert") && !CopiesFrom(s)
  {
    if IsReadOnly(stmt) {
      ReadOnlyLacks(stmt, "insert"); ReadOnlyLacks(stmt, "update"); ReadOnlyLacks(stmt, "delete");
      ReadOnlyLacks(stmt, "drop"); ReadOnlyLacks(stmt, "truncate"); ReadOnlyLacks(stmt, "alter");
      ReadOnlyLacks(stmt, "create"); ReadOnlyLacks(stmt, "grant"); ReadOnlyLacks(stmt, "revoke");
      var s := Scanned(stmt);
      DropsNeedDrop(s);
      RewritesNeedTheirWords(s);
      ChangesNeedTheirWords(s);
      DmlNeedsItsWords(s);
    }
  }

  // ----- scanning a statement is scanning the script -----

  lemma LowerKeepsMarks(c: char, m: char)
    requires m == '\'' || m == '"' || m == '\\'
    ensures LowerChar(c) == m <==> c == m
  {}

  lemma {:induction false} LowerKeepsQuotes(s: string, i: nat)
    requires i <= |s|
    ensures QuoteAt(Lower(s), i) == QuoteAt(s, i)
    ensures i < |s| ==> Toggles(Lower(s), i) == Toggles(s, i)
  {
    if i < |s| {
      LowerKeepsMarks(s[i], '\'');
      LowerKeepsMarks(s[i], '"');
    }
    if i > 0 {
      LowerKeepsMarks(s[i - 1], '\\');
      LowerKeepsQuotes(s, i - 1);
    }
  }

  lemma BlankCommutesWithLower(s: string)
    ensures Blank(Lower(s)) == Lower(Blank(s))
  {
    forall i | 0 <= i < |s| ensures Blank(Lower(s))[i] == Lower(Blank(s))[i] {
      LowerKeepsQuotes(s, i);
    }
  }

  /**
   * The classifier strips, lowers and blanks each statement again; what it then tests is
   * the matching slice of the script stripped, blanked and lowered once.
   */
  lemma StatementIsScannedOnce(sql: string, k: nat) returns (a: nat)
    requires k < |Statements(StripSqlComments(sql))|
    ensures k < |AllSpans(StripSqlComments(sql))|
    ensures var text := StripSqlComments(sql);
            var to := AllSpans(text)[k].to;
            a < to <= |text| && Scanned(Statements(text)[k]) == Lower(Blank(text))[a..to]
  {
    var text := StripSqlComments(sql);
    a := StatementMatchesScript(sql, k);
    BlankCommutesWithLower(Statements(text)[k]);
    LowerOfSlice(Blank(text), a, AllSpans(text)[k].to);
  }

  lemma LowerOfSlice(s: string, a: nat, b: nat)
    requires a <= b <= |s|
    ensures Lower(s[a..b]) == Lower(s)[a..b]
  {}

  // ----- the decision -----

  datatype Contract = Contract(mode: string, env: string, destructive: bool)

  /** The reasons a decision can carry. */
  datatype Reason =
    | ReadOnlyOperation | WriteAllowedByContract
    | DestructiveBlockedAlways | PushRequiresMadSks | WriteModeIsReadOnly | ProductionWritesForbidden
    | TargetNotLocalOrBranch | DirectWritesBlocked | MutationRequiresMadSksSqlPlane | PolicyDeniesDestructive

  datatype Decision = Decision(allowed: bool, reasons: seq<Reason>)

  function WriteReasons(v: Verdict, contract: Contract, blockDirectWrites: bool, databaseTool: bool): (r: seq<Reason>)
    ensures r != []
  {
    Check("supabase_db_push" in v.reasons, PushRequiresMadSks)
    + Check(contract.mode == "read_only_only", WriteModeIsReadOnly)
    + Check(contract.env == "production" || contract.env == "production_read_only", ProductionWritesForbidden)
    + Check(contract.env !in ["local_dev", "preview_branch", "supabase_branch"], TargetNotLocalOrBranch)
    + Check(blockDirectWrites && databaseTool, DirectWritesBlocked)
    + [MutationRequiresMadSksSqlPlane]
  }

  function BlockReasons(v: Verdict, contract: Contract, blockDirectWrites: bool, databaseTool: bool): (r: seq<Reason>)
    ensures v.level == Destructive || v.level == Write ==> r != []
  {
    Check(v.level == Destructive, DestructiveBlockedAlways)
    + (if v.level == Write then WriteReasons(v, contract, blockDirectWrites, databaseTool) else [])
    + Check(contract.destructive, PolicyDeniesDestructive)
  }

  /** `evaluateDbSafety` for a script's classification, with no MAD-SKS mode active. */
  function EvaluateDbSafety(v: Verdict, contract: Contract, blockDirectWrites: bool, databaseTool: bool): (r: Decision)
    ensures r.allowed <==> v.level == NoSql || v.level == Safe
  {
    match v.level
    case NoSql => Decision(true, [])
    case Safe => Decision(true, [ReadOnlyOperation])
    case _ =>
      var reasons := BlockReasons(v, contract, blockDirectWrites, databaseTool);
      if reasons != [] then Decision(false, reasons) else Decision(true, [WriteAllowedByContract])
  }

  /**
   * Without MAD-SKS mode no contract and no policy lets a script through unless it is
   * empty or every one of its statements is safe.
   */
  lemma OnlySafeScriptsAreAllowed(sql: string, contract: Contract, blockDirectWrites: bool, databaseTool: bool)
    ensures EvaluateDbSafety(Classification(ScriptFeatures(sql)), contract, blockDirectWrites, databaseTool).allowed
            <==> forall f :: f in ScriptFeatures(sql) ==> Risk(f) == Safe
  {
    LevelIsJoin(sql);
  }
}
