/** The quote-aware command tokenizer of the feature-fixture executor. */
module Tokenizer {
  import opened Text

  datatype Quote = Outside | Inside(mark: char)

  /** The tokenizer's variables between two characters. */
  datatype Scan = Scan(tokens: seq<string>, current: string, quote: Quote, hasToken: bool)

  const START := Scan([], "", Outside, false)

  function Advance(s: Scan, ch: char): Scan {
    if s.quote.Inside? then
      if ch == s.quote.mark then s.(quote := Outside) else s.(current := s.current + [ch])
    else if ch == '"' || ch == '\'' then s.(quote := Inside(ch), hasToken := true)
    else if IsSpace(ch) then
      if s.hasToken then Scan(s.tokens + [s.current], "", Outside, false) else s
    else s.(current := s.current + [ch], hasToken := true)
  }

  function ScanFrom(s: Scan, text: string): Scan
    decreases |text|
  {
    if text == [] then s else ScanFrom(Advance(s, text[0]), text[1..])
  }

  function Finish(s: Scan): seq<string> {
    if s.hasToken then s.tokens + [s.current] else s.tokens
  }

  function Tokens(command: string): seq<string> {
    Finish(ScanFrom(START, command))
  }

  /** A command ends outside quotes when no quotation is left open at its end. */
  predicate EndsOutside(command: string) {
    ScanFrom(START, command).quote.Outside?
  }

  method TokenizeCommand(command: string) returns (tokens: seq<string>)
    ensures tokens == Tokens(command)
  {
    tokens := [];
    var current, quote, hasToken := "", Outside, false;
    for i := 0 to |command|
      invariant ScanFrom(Scan(tokens, current, quote, hasToken), command[i..]) == ScanFrom(START, command)
    {
      var ch := command[i];
      assert command[i..][1..] == command[i + 1..];
      if quote.Inside? {
        if ch == quote.mark {
          quote := Outside;
        } else {
          current := current + [ch];
        }
      } else if ch == '"' || ch == '\'' {
        quote := Inside(ch);
        hasToken := true;
      } else if IsSpace(ch) {
        if hasToken {
          tokens := tokens + [current];
          current := "";
          hasToken := false;
        }
      } else {
        current := current + [ch];
        hasToken := true;
      }
    }
    if hasToken {
      tokens := tokens + [current];
    }
  }

  lemma {:induction false} ScanConcat(s: Scan, a: string, b: string)
    ensures ScanFrom(s, a + b) == ScanFrom(ScanFrom(s, a), b)
    decreases |a|
  {
    if a == [] {
      assert a + b == b;
    } else {
      assert (a + b)[1..] == a[1..] + b;
      ScanConcat(Advance(s, a[0]), a[1..], b);
    }
  }

  /** Tokens already emitted are never looked at again. */
  lemma {:induction false} EmittedIsPrefix(s: Scan, earlier: seq<string>, text: string)
    ensures var r := ScanFrom(s, text);
            ScanFrom(s.(tokens := earlier + s.tokens), text) == r.(tokens := earlier + r.tokens)
    decreases |text|
  {
    if text != [] {
      var next := Advance(s, text[0]);
      EmittedIsPrefix(next, earlier, text[1..]);
      assert Advance(s.(tokens := earlier + s.tokens), text[0]) == next.(tokens := earlier + next.tokens) by {
        assert earlier + (s.tokens + [s.current]) == earlier + s.tokens + [s.current];
      }
    }
  }

  /** Outside a token nothing is pending, and a quotation is always inside a token. */
  predicate Consistent(s: Scan) {
    (!s.hasToken ==> s.current == "") && (s.quote.Inside? ==> s.hasToken && (s.quote.mark == '"' || s.quote.mark == '\''))
  }

  lemma {:induction false} ScanIsConsistent(s: Scan, text: string)
    requires Consistent(s)
    ensures Consistent(ScanFrom(s, text))
    decreases |text|
  {
    if text != [] {
      ScanIsConsistent(Advance(s, text[0]), text[1..]);
    }
  }

  /** A token that has been started is emitted, and only ever grows. */
  lemma {:induction false} StartedTokenGrows(s: Scan, text: string)
    requires s.hasToken
    ensures |Finish(ScanFrom(s, text))| > |s.tokens|
    ensures s.current <= Finish(ScanFrom(s, text))[|s.tokens|]
    decreases |text|
  {
    if text != [] {
      var next := Advance(s, text[0]);
      if next.hasToken {
        StartedTokenGrows(next, text[1..]);
      } else {
        var later := ScanFrom(next.(tokens := []), text[1..]);
        EmittedIsPrefix(next.(tokens := []), next.tokens, text[1..]);
        assert next.tokens + [] == next.tokens;
        assert Finish(ScanFrom(next, text[1..])) == next.tokens + Finish(later);
      }
    }
  }

  /**
   * Tokenizing two commands joined by a space gives the two token lists one after the
   * other exactly when the first command ends outside quotes.
   */
  lemma JoinedBySpace(a: string, space: char, b: string)
    requires IsSpace(space)
    ensures Tokens(a + [space] + b) == Tokens(a) + Tokens(b) <==> EndsOutside(a)
  {
    var s := ScanFrom(START, a);
    ScanIsConsistent(START, a);
    ScanConcat(START, a, [space] + b);
    assert a + [space] + b == a + ([space] + b);
    assert ([space] + b)[1..] == b;
    var next := Advance(s, space);
    assert ScanFrom(START, a + [space] + b) == ScanFrom(next, b);
    if s.quote.Outside? {
      assert next == START.(tokens := Tokens(a) + START.tokens);
      EmittedIsPrefix(START, Tokens(a), b);
      assert Tokens(a) + (ScanFrom(START, b).tokens + [ScanFrom(START, b).current])
          == Tokens(a) + ScanFrom(START, b).tokens + [ScanFrom(START, b).current];
    } else {
      StartedTokenGrows(next, b);
      assert next.current == s.current + [space];
      assert |(Tokens(a) + Tokens(b))[|s.tokens|]| == |s.current|;
    }
  }

  // ----- a printer the tokenizer inverts -----

  /** Prints one character inside double quotes; a double quote is printed between single quotes. */
  function PrintChar(c: char): string {
    if c == '"' then "\"'\"'\"" else [c]
  }

  function PrintBody(token: string): string {
    if token == [] then [] else PrintChar(token[0]) + PrintBody(token[1..])
  }

  function PrintToken(token: string): string {
    "\"" + PrintBody(token) + "\""
  }

  function Print(tokens: seq<string>): string {
    if tokens == [] then "" else Print(tokens[..|tokens| - 1]) + " " + PrintToken(tokens[|tokens| - 1])
  }

  lemma ScanMore(s: Scan, ch: char, text: string)
    ensures ScanFrom(s, [ch] + text) == ScanFrom(Advance(s, ch), text)
  {
    assert ([ch] + text)[1..] == text;
  }

  /** A double quote is printed by closing the quotation and quoting it the other way. */
  lemma QuoteIsRead(s: Scan)
    requires s.quote == Inside('"') && s.hasToken
    ensures ScanFrom(s, PrintChar('"')) == s.(current := s.current + ['"'])
  {
    var s1 := Advance(s, '"');
    var s2 := Advance(s1, '\'');
    var s3 := Advance(s2, '"');
    var s4 := Advance(s3, '\'');
    ScanMore(s4, '"', "");
    ScanMore(s3, '\'', "\"");
    ScanMore(s2, '"', "'\"");
    ScanMore(s1, '\'', "\"'\"");
    ScanMore(s, '"', "'\"'\"");
    assert ['"'] + "" == "\"" && ['\''] + "\"" == "'\"" && ['"'] + "'\"" == "\"'\"";
    assert ['\''] + "\"'\"" == "'\"'\"" && ['"'] + "'\"'\"" == PrintChar('"');
  }

  lemma CharIsRead(s: Scan, c: char)
    requires s.quote == Inside('"') && s.hasToken
    ensures ScanFrom(s, PrintChar(c)) == s.(current := s.current + [c])
  {
    if c == '"' {
      QuoteIsRead(s);
    } else {
      ScanMore(s, c, "");
      assert [c] + "" == [c];
    }
  }

  lemma {:induction false} BodyIsRead(s: Scan, token: string)
    requires s.quote == Inside('"') && s.hasToken
    ensures ScanFrom(s, PrintBody(token)) == s.(current := s.current + token)
    decreases |token|
  {
    if token == [] {
      assert s.current + token == s.current;
    } else {
      var after := s.(current := s.current + [token[0]]);
      ScanConcat(s, PrintChar(token[0]), PrintBody(token[1..]));
      CharIsRead(s, token[0]);
      BodyIsRead(after, token[1..]);
      assert after.current + token[1..] == s.current + token;
    }
  }

  lemma TokenIsRead(token: string)
    ensures ScanFrom(START, PrintToken(token)) == Scan([], token, Outside, true)
  {
    var begun := Scan([], "", Inside('"'), true);
    ScanConcat(START, "\"", PrintBody(token) + "\"");
    assert PrintToken(token) == "\"" + (PrintBody(token) + "\"");
    assert "\""[1..] == [];
    assert ScanFrom(START, "\"") == ScanFrom(begun, []);
    ScanConcat(begun, PrintBody(token), "\"");
    BodyIsRead(begun, token);
    var body := Scan([], "" + token, Inside('"'), true);
    assert ScanFrom(body, "\"") == ScanFrom(Advance(body, '"'), []);
  }

  /** Every list of strings, whatever quotes and spaces they hold, has a printing that tokenizes back to it. */
  lemma {:induction false} PrintRoundTrip(tokens: seq<string>)
    ensures Tokens(Print(tokens)) == tokens && EndsOutside(Print(tokens))
  {
    if tokens != [] {
      var front, last := tokens[..|tokens| - 1], tokens[|tokens| - 1];
      PrintRoundTrip(front);
      TokenIsRead(last);
      JoinedBySpace(Print(front), ' ', PrintToken(last));
      assert tokens == front + [last];
      var spaced := Print(front) + " ";
      ScanConcat(START, spaced, PrintToken(last));
      ScanConcat(START, Print(front), " ");
      var s := ScanFrom(START, Print(front));
      ScanIsConsistent(START, Print(front));
      assert " "[1..] == [];
      assert ScanFrom(s, " ") == ScanFrom(Advance(s, ' '), []);
      EmittedIsPrefix(START, Tokens(Print(front)), PrintToken(last));
      assert ScanFrom(START, spaced) == START.(tokens := Tokens(Print(front)) + []);
    }
  }
}
