/**
 * Literal blanking and statement splitting, the two loops that each track quotation, and
 * the theorem that they agree.
 */
module SqlStatements {
  import opened Text
  import opened SqlScanner

  datatype Quote = Outside | Inside(mark: char)

  /** A quote character not directly preceded by a backslash. */
  predicate Toggles(s: string, i: int)
    requires 0 <= i < |s|
  {
    (s[i] == '\'' || s[i] == '"') && (i == 0 || s[i - 1] != '\\')
  }

  /** `quote === ch ? null : (quote || ch)` */
  function Flip(q: Quote, ch: char): Quote {
    if q == Inside(ch) then Outside else if q.Inside? then q else Inside(ch)
  }

  /** The quotation the automaton is in after the first `i` characters. */
  function QuoteAt(s: string, i: nat): Quote
    requires i <= |s|
  {
    if i == 0 then Outside
    else if Toggles(s, i - 1) then Flip(QuoteAt(s, i - 1), s[i - 1])
    else QuoteAt(s, i - 1)
  }

  /** Quotation marks and everything quoted become spaces. */
  function Blank(s: string): string {
    seq(|s|, i requires 0 <= i < |s| => if Toggles(s, i) || QuoteAt(s, i).Inside? then ' ' else s[i])
  }

  method StripSqlStringLiterals(sql: string) returns (out: string)
    ensures out == Blank(sql)
  {
    out := "";
    var quote := Outside;
    for i := 0 to |sql|
      invariant quote == QuoteAt(sql, i) && out == Blank(sql)[..i]
    {
      var ch := sql[i];
      if (ch == '\'' || ch == '"') && (i == 0 || sql[i - 1] != '\\') {
        quote := Flip(quote, ch);
        out := out + " ";
        continue;
      }
      out := out + [if quote.Inside? then ' ' else ch];
    }
  }

  /** The splitter ends a statement after position `i`. */
  predicate CutsAt(text: string, i: int)
    requires 0 <= i < |text|
  {
    text[i] == ';' && QuoteAt(text, i + 1).Outside?
  }

  function Cuts(text: string): seq<bool> {
    seq(|text|, i requires 0 <= i < |text| => CutsAt(text, i))
  }

  // ----- splitting at given cuts -----

  /** The splitter's variables after `n` characters. */
  datatype Splitting = Splitting(out: seq<string>, current: string)

  function SplitTo(text: string, cuts: seq<bool>, n: nat): Splitting
    requires n <= |text| == |cuts|
  {
    if n == 0 then Splitting([], "")
    else
      var before := SplitTo(text, cuts, n - 1);
      var current := before.current + [text[n - 1]];
      if cuts[n - 1] then Splitting(before.out + [Trim(current)], "") else before.(current := current)
  }

  function SplitAt(text: string, cuts: seq<bool>): seq<string>
    requires |text| == |cuts|
  {
    var s := SplitTo(text, cuts, |text|);
    if Trim(s.current) != "" then s.out + [Trim(s.current)] else s.out
  }

  /** The statements of comment-free text. */
  function Statements(text: string): seq<string> {
    SplitAt(text, Cuts(text))
  }

  method SplitSqlStatements(sql: string) returns (out: seq<string>)
    ensures out == Statements(StripSqlComments(sql))
  {
    var text := StripSqlComments(sql);
    out := [];
    var current, quote := "", Outside;
    for i := 0 to |text|
      invariant quote == QuoteAt(text, i)
      invariant Splitting(out, current) == SplitTo(text, Cuts(text), i)
    {
      var ch := text[i];
      current := current + [ch];
      if (ch == '\'' || ch == '"') && (i == 0 || text[i - 1] != '\\') {
        quote := Flip(quote, ch);
      }
      if ch == ';' && quote.Outside? {
        out := out + [Trim(current)];
        current := "";
      }
    }
    if Trim(current) != "" {
      out := out + [Trim(current)];
    }
  }

  /** A stretch of the text. */
  datatype Span = Span(from: nat, to: nat)

  /** Where the statement under construction after `n` characters started. */
  function LastCut(cuts: seq<bool>, n: nat): (c: nat)
    requires n <= |cuts|
    ensures c <= n
  {
    if n == 0 then 0 else if cuts[n - 1] then n else LastCut(cuts, n - 1)
  }

  /** The stretches completed within the first `n` characters. */
  function Spans(cuts: seq<bool>, n: nat): seq<Span>
    requires n <= |cuts|
  {
    if n == 0 then []
    else if cuts[n - 1] then Spans(cuts, n - 1) + [Span(LastCut(cuts, n - 1), n)]
    else Spans(cuts, n - 1)
  }

  /** The stretch starts the text or follows a cut. */
  predicate StartsClean(cuts: seq<bool>, s: Span) {
    s.from < s.to <= |cuts| && (s.from == 0 || cuts[s.from - 1])
  }

  predicate Fits(cuts: seq<bool>, spans: seq<Span>) {
    forall s :: s in spans ==> StartsClean(cuts, s)
  }

  /** `spans` cover the text from its start to `end` without gap or overlap. */
  predicate Tiles(spans: seq<Span>, end: nat) {
    if spans == [] then end == 0
    else var s := spans[|spans| - 1]; s.from < s.to == end && Tiles(spans[..|spans| - 1], s.from)
  }

  /** A stretch, trimmed. */
  function Piece(text: string, s: Span): string {
    if s.from <= s.to <= |text| then Trim(text[s.from..s.to]) else ""
  }

  function Slices(text: string, spans: seq<Span>): seq<string> {
    seq(|spans|, k requires 0 <= k < |spans| => Piece(text, spans[k]))
  }

  lemma TilesExtend(spans: seq<Span>, s: Span)
    requires Tiles(spans, s.from) && s.from < s.to
    ensures Tiles(spans + [s], s.to)
  {
    assert (spans + [s])[..|spans + [s]| - 1] == spans;
  }

  lemma SlicesExtend(text: string, spans: seq<Span>, s: Span)
    ensures Slices(text, spans + [s]) == Slices(text, spans) + [Piece(text, s)]
  {}

  lemma {:induction false} LastCutIsCut(cuts: seq<bool>, n: nat)
    requires n <= |cuts|
    ensures LastCut(cuts, n) > 0 ==> cuts[LastCut(cuts, n) - 1]
  {
    if n > 0 { LastCutIsCut(cuts, n - 1); }
  }

  lemma {:induction false} SpansFit(cuts: seq<bool>, n: nat)
    requires n <= |cuts|
    ensures Fits(cuts, Spans(cuts, n))
  {
    if n > 0 {
      SpansFit(cuts, n - 1);
      LastCutIsCut(cuts, n - 1);
    }
  }

  lemma {:induction false} SpansTile(cuts: seq<bool>, n: nat)
    requires n <= |cuts|
    ensures Tiles(Spans(cuts, n), LastCut(cuts, n))
  {
    if n > 0 {
      SpansTile(cuts, n - 1);
      if cuts[n - 1] {
        TilesExtend(Spans(cuts, n - 1), Span(LastCut(cuts, n - 1), n));
      }
    }
  }

  lemma {:induction false} SpansEndInCuts(cuts: seq<bool>, n: nat)
    requires n <= |cuts|
    ensures forall s :: s in Spans(cuts, n) ==> 0 < s.to <= n && cuts[s.to - 1]
  {
    if n > 0 { SpansEndInCuts(cuts, n - 1); }
  }

  lemma {:induction false} EveryCutEndsASpan(cuts: seq<bool>, n: nat, i: nat)
    requires i < n <= |cuts| && cuts[i]
    ensures exists s :: s in Spans(cuts, n) && s.to == i + 1
  {
    if i == n - 1 {
      assert Spans(cuts, n)[|Spans(cuts, n)| - 1] == Span(LastCut(cuts, n - 1), n);
    } else {
      EveryCutEndsASpan(cuts, n - 1, i);
      var s :| s in Spans(cuts, n - 1) && s.to == i + 1;
      assert s in Spans(cuts, n);
    }
  }

  lemma SliceExtends(text: string, from: nat, i: nat)
    requires from <= i < |text|
    ensures text[from..i] + [text[i]] == text[from..i + 1]
  {}

  /** What the splitter has emitted are the trimmed stretches, and what it is building is the last one. */
  lemma {:induction false} SplitToSlices(text: string, cuts: seq<bool>, n: nat)
    requires n <= |text| == |cuts|
    ensures Fits(cuts, Spans(cuts, n))
    ensures SplitTo(text, cuts, n) == Splitting(Slices(text, Spans(cuts, n)), text[LastCut(cuts, n)..n])
  {
    SpansFit(cuts, n);
    if n > 0 {
      SplitToSlices(text, cuts, n - 1);
      SliceExtends(text, LastCut(cuts, n - 1), n - 1);
      if cuts[n - 1] {
        SlicesExtend(text, Spans(cuts, n - 1), Span(LastCut(cuts, n - 1), n));
      }
    }
  }

  /** Adds what follows the last cut, unless it is blank. */
  function WithRest(text: string, spans: seq<Span>, rest: nat): seq<Span>
    requires rest <= |text|
  {
    if Trim(text[rest..]) != "" then spans + [Span(rest, |text|)] else spans
  }

  function SpansAt(text: string, cuts: seq<bool>): seq<Span>
    requires |text| == |cuts|
  {
    WithRest(text, Spans(cuts, |text|), LastCut(cuts, |text|))
  }

  /** All statements, as stretches of the text. */
  function AllSpans(text: string): seq<Span> {
    SpansAt(text, Cuts(text))
  }

  lemma RestFits(text: string, cuts: seq<bool>, spans: seq<Span>, rest: nat)
    requires |cuts| == |text| && Fits(cuts, spans) && rest <= |text| && (rest > 0 ==> cuts[rest - 1])
    ensures Fits(cuts, WithRest(text, spans, rest))
    ensures var last := Trim(text[rest..]);
            Slices(text, WithRest(text, spans, rest)) == Slices(text, spans) + if last != "" then [last] else []
  {
    if Trim(text[rest..]) != "" {
      DropIsSlice(text, rest);
      SlicesExtend(text, spans, Span(rest, |text|));
    }
  }

  lemma DropIsSlice(text: string, from: nat)
    requires from <= |text|
    ensures text[from..|text|] == text[from..]
  {}

  /** Splitting yields the trimmed stretches between the cuts. */
  lemma SplitIsSlices(text: string, cuts: seq<bool>)
    requires |text| == |cuts|
    ensures Fits(cuts, SpansAt(text, cuts)) && SplitAt(text, cuts) == Slices(text, SpansAt(text, cuts))
  {
    var n := |text|;
    SplitToSlices(text, cuts, n);
    SpansTile(cuts, n);
    SpansFit(cuts, n);
    LastCutIsCut(cuts, n);
    var rest, spans := LastCut(cuts, n), Spans(cuts, n);
    RestFits(text, cuts, spans, rest);
    DropIsSlice(text, rest);
  }

  // ----- the two automata agree -----

  /** The splitter cuts exactly at the semicolons that survive blanking. */
  lemma CutsAreUnquotedSemicolons(text: string, i: nat)
    requires i < |text|
    ensures CutsAt(text, i) <==> Blank(text)[i] == ';'
  {}

  /** From a position outside quotes, and not after a backslash, the automaton restarts. */
  lemma {:induction false} AutomatonRestarts(text: string, a: nat, b: nat, i: nat)
    requires a + i <= b <= |text| && QuoteAt(text, a).Outside? && (a > 0 ==> text[a - 1] != '\\')
    ensures QuoteAt(text[a..b], i) == QuoteAt(text, a + i)
    ensures i < b - a ==> Toggles(text[a..b], i) == Toggles(text, a + i)
  {
    if i > 0 { AutomatonRestarts(text, a, b, i - 1); }
  }

  lemma BlankingIsLocal(text: string, a: nat, b: nat)
    requires a <= b <= |text| && QuoteAt(text, a).Outside? && (a > 0 ==> text[a - 1] != '\\')
    ensures Blank(text[a..b]) == Blank(text)[a..b]
  {
    forall i | 0 <= i < b - a ensures Blank(text[a..b])[i] == Blank(text)[a + i] {
      AutomatonRestarts(text, a, b, i);
    }
  }

  /** In clean text, trimming a stretch that ends in a non-space drops at most one leading space. */
  lemma TrimDropsOneSpace(text: string, from: nat, to: nat)
    requires from < to <= |text| && Squeezed(text) && !IsSpace(text[to - 1])
    ensures var a := if IsSpace(text[from]) then from + 1 else from;
            a < to && Trim(text[from..to]) == text[a..to] && Trimmed(text[a..to])
  {
    var piece := text[from..to];
    assert TrimEnd(piece) == piece;
    if IsSpace(piece[0]) {
      assert piece[1..] == text[from + 1..to] && !IsSpace(text[from + 1]);
      assert TrimStart(piece) == TrimStart(piece[1..]) == piece[1..];
    }
  }

  /** Every stretch ends in a non-space. */
  ghost predicate EndsWell(text: string, spans: seq<Span>) {
    forall s :: s in spans ==> 0 < s.to <= |text| && !IsSpace(text[s.to - 1])
  }

  lemma RestEndsWell(text: string, spans: seq<Span>, rest: nat)
    requires Clean(text) && rest <= |text| && EndsWell(text, spans) && Tiles(spans, rest)
    ensures EndsWell(text, WithRest(text, spans, rest)) && Tiles(WithRest(text, spans, rest), |text|)
  {
    if rest < |text| {
      TrimDropsOneSpace(text, rest, |text|);
      DropIsSlice(text, rest);
      TilesExtend(spans, Span(rest, |text|));
    } else {
      assert text[rest..] == "" && Trim("") == "";
    }
  }

  lemma SpansEndWell(text: string, n: nat)
    requires n <= |text|
    ensures EndsWell(text, Spans(Cuts(text), n))
  {
    var cuts := Cuts(text);
    SpansEndInCuts(cuts, n);
    forall s | s in Spans(cuts, n) ensures 0 < s.to <= |text| && !IsSpace(text[s.to - 1]) {
      assert cuts[s.to - 1];
    }
  }

  lemma CleanSpans(text: string)
    requires Clean(text)
    ensures Tiles(AllSpans(text), |text|) && EndsWell(text, AllSpans(text))
  {
    var cuts := Cuts(text);
    SpansTile(cuts, |text|);
    SpansEndWell(text, |text|);
    RestEndsWell(text, Spans(cuts, |text|), LastCut(cuts, |text|));
  }

  /** A stretch of clean text, trimmed: clean again, and blanked as within the text. */
  lemma TrimmedStretch(text: string, s: Span) returns (a: nat)
    requires Clean(text) && StartsClean(Cuts(text), s) && !IsSpace(text[s.to - 1])
    ensures s.from <= a < s.to && Trim(text[s.from..s.to]) == text[a..s.to]
    ensures text[s.from..a] == "" || text[s.from..a] == " "
    ensures Clean(text[a..s.to]) && Blank(text[a..s.to]) == Blank(text)[a..s.to]
  {
    TrimDropsOneSpace(text, s.from, s.to);
    a := if IsSpace(text[s.from]) then s.from + 1 else s.from;
    SliceAddsNothing(text, a, s.to);
    BlankingIsLocal(text, a, s.to);
  }

  /**
   * One statement of a script, for every script: it is the script's stripped text from
   * `a` to the end of its stretch, only one space may separate it from the stretch's
   * start, it has nothing left to strip, and blanking it alone gives the same characters
   * as blanking the whole script.
   */
  lemma StatementMatchesScript(sql: string, k: nat) returns (a: nat)
    requires k < |Statements(StripSqlComments(sql))|
    ensures k < |AllSpans(StripSqlComments(sql))|
    ensures var text := StripSqlComments(sql);
            var span, stmt := AllSpans(text)[k], Statements(text)[k];
            && span.from <= a < span.to <= |text|
            && stmt == text[a..span.to]
            && (text[span.from..a] == "" || text[span.from..a] == " ")
            && StripSqlComments(stmt) == stmt
            && Blank(stmt) == Blank(text)[a..span.to]
  {
    var text := StripSqlComments(sql);
    StripLeavesClean(sql);
    CleanSpans(text);
    SplitIsSlices(text, Cuts(text));
    var spans := AllSpans(text);
    assert Slices(text, spans)[k] == Piece(text, spans[k]);
    var span := spans[k];
    assert StartsClean(Cuts(text), span);
    a := TrimmedStretch(text, span);
    StripFixesClean(text[a..span.to]);
  }

  /**
   * The stretches of a script tile its stripped text, every cut ends one of them, and
   * only an empty script has no statement.
   */
  lemma StatementsCoverScript(sql: string)
    ensures var text := StripSqlComments(sql);
            && Tiles(AllSpans(text), |text|)
            && (Statements(text) == [] <==> text == "")
            && (forall i :: 0 <= i < |text| && CutsAt(text, i) ==> exists s :: s in AllSpans(text) && s.to == i + 1)
  {
    var text := StripSqlComments(sql);
    StripLeavesClean(sql);
    CleanSpans(text);
    SplitIsSlices(text, Cuts(text));
    forall i | 0 <= i < |text| && CutsAt(text, i) ensures exists s :: s in AllSpans(text) && s.to == i + 1 {
      EveryCutEndsASpan(Cuts(text), |text|, i);
      var s :| s in Spans(Cuts(text), |text|) && s.to == i + 1;
      assert s in AllSpans(text);
    }
  }
}
