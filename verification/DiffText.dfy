/** The text of a diff and its lines: what splitting at line ends gives back of what was printed. */
module DiffText {
  import opened Sequences
  import opened Text

  /** `split(/\r?\n/)` */
  function SplitLines(t: string): (r: seq<string>)
    ensures r != []
  {
    if t == "" then [""]
    else if t[0] == '\n' then [""] + SplitLines(t[1..])
    else if t[0] == '\r' && |t| > 1 && t[1] == '\n' then [""] + SplitLines(t[2..])
    else
      var r := SplitLines(t[1..]);
      [[t[0]] + r[0]] + r[1..]
  }

  /** The printed text: every line ends with a newline. */
  function TextOf(lines: seq<string>): string {
    if lines == [] then "" else lines[0] + "\n" + TextOf(lines[1..])
  }

  function DropCr(line: string): string {
    if line != "" && line[|line| - 1] == '\r' then line[..|line| - 1] else line
  }

  /** Text in front keeps its place. */
  lemma DropCrAfter(front: string, line: string)
    requires front != "" && front[|front| - 1] != '\r'
    ensures DropCr(front + line) == front + DropCr(line)
  {}

  lemma DropCrHead(c: char, line: string)
    requires line != "" || c != '\r'
    ensures DropCr([c] + line) == [c] + DropCr(line)
  {}

  lemma LineHead(c: char, tail: string, rest: string)
    ensures [c] + tail + "\n" + rest == [c] + (tail + "\n" + rest)
    ensures (tail + "\n" + rest)[0] == if tail == "" then '\n' else tail[0]
  {
    Associates([c], tail, "\n");
    Associates([c], tail + "\n", rest);
  }

  lemma {:induction false} SplitFirstLine(line: string, rest: string)
    requires IsLine(line)
    ensures SplitLines(line + "\n" + rest) == [DropCr(line)] + SplitLines(rest)
  {
    if line == "" {
      assert ("" + "\n" + rest)[1..] == rest;
    } else if line == "\r" {
      assert ("\r" + "\n" + rest)[2..] == rest;
    } else {
      var c, tail := line[0], line[1..];
      SplitFirstLine(tail, rest);
      DropCrHead(c, tail);
      LineHead(c, tail, rest);
      assert line == [c] + tail;
      SplitHead(c, tail + "\n" + rest, DropCr(tail), SplitLines(rest));
    }
  }

  lemma SplitHead(c: char, t: string, first: string, more: seq<string>)
    requires c != '\n' && t != "" && !(c == '\r' && t[0] == '\n') && SplitLines(t) == [first] + more
    ensures SplitLines([c] + t) == [[c] + first] + more
  {
    assert ([c] + t)[1..] == t;
  }

  /** Splitting a printed text gives its lines back, each without one carriage return at its end, and an empty line. */
  lemma {:induction false} SplitOfText(lines: seq<string>)
    requires AreLines(lines)
    ensures SplitLines(TextOf(lines)) == Mapped(DropCr, lines) + [""]
  {
    if lines != [] {
      SplitFirstLine(lines[0], TextOf(lines[1..]));
      SplitOfText(lines[1..]);
      MappedHead(DropCr, lines);
      Associates([DropCr(lines[0])], Mapped(DropCr, lines[1..]), [""]);
    }
  }
}
