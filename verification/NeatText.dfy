/** Collapsing runs of newlines, and the trailing-newline normal form of rewritten files. */
module NeatText {
  import opened Text
  import opened TomlText

  /** No three newlines in a row. */
  predicate NoRun(t: string) {
    forall i :: 0 <= i < |t| - 2 ==> !(t[i] == '\n' && t[i + 1] == '\n' && t[i + 2] == '\n')
  }

  /** No three newlines in a row, with `run` of them in front. */
  predicate NoRunAfter(t: string, run: nat) {
    && NoRun(t)
    && (run >= 1 && |t| >= 2 ==> !(t[0] == '\n' && t[1] == '\n'))
    && (run >= 2 && |t| >= 1 ==> t[0] != '\n')
  }

  lemma NoRunCons(c: char, t: string, run: nat)
    requires c != '\n' && NoRun(t)
    ensures NoRunAfter([c] + t, run)
  {
    var s := [c] + t;
    assert forall i :: 1 <= i < |s| ==> s[i] == t[i - 1];
  }

  lemma NoRunNewline(t: string, run: nat)
    requires run < 2 && NoRunAfter(t, run + 1)
    ensures NoRunAfter(['\n'] + t, run)
  {
    var s := ['\n'] + t;
    assert forall i :: 1 <= i < |s| ==> s[i] == t[i - 1];
  }

  lemma NoRunRest(t: string, run: nat)
    requires t != [] && NoRunAfter(t, run)
    ensures NoRunAfter(t[1..], if t[0] == '\n' then run + 1 else 0)
  {
    var s := t[1..];
    assert forall i :: 0 <= i < |s| ==> s[i] == t[i + 1];
  }

  /** Collapsing removes every run of three, and changes nothing when there is none. */
  lemma {:induction false} CollapsesRuns(t: string, run: nat)
    requires run <= 2
    ensures NoRunAfter(CollapseFrom(t, run), run)
    ensures NoRunAfter(t, run) ==> CollapseFrom(t, run) == t
    decreases |t|
  {
    if t != [] {
      var next := if t[0] != '\n' then 0 else if run >= 2 then run else run + 1;
      CollapsesRuns(t[1..], next);
      if NoRunAfter(t, run) { NoRunRest(t, run); }
      if t[0] != '\n' {
        NoRunCons(t[0], CollapseFrom(t[1..], 0), run);
      } else if run < 2 {
        NoRunNewline(CollapseFrom(t[1..], run + 1), run);
      }
    }
  }

  lemma CollapseIsIdempotent(t: string)
    ensures NoRun(Collapse(t)) && Collapse(Collapse(t)) == Collapse(t)
    ensures NoRun(t) <==> Collapse(t) == t
  {
    CollapsesRuns(t, 0);
    CollapsesRuns(Collapse(t), 0);
  }

  /** Collapsing a text in two parts that do not share a run of newlines. */
  lemma {:induction false} CollapseConcat(x: string, y: string, run: nat)
    requires y == [] || y[0] != '\n' || (x == [] && run == 0) || (x != [] && x[|x| - 1] != '\n')
    ensures CollapseFrom(x + y, run) == CollapseFrom(x, run) + Collapse(y)
    decreases |x|
  {
    if x == [] {
      assert x + y == y;
    } else {
      assert (x + y)[1..] == x[1..] + y;
      CollapseConcat(x[1..], y, if x[0] != '\n' then 0 else if run >= 2 then run else run + 1);
    }
  }

  predicate EndsInk(t: string) {
    t != [] && !IsSpace(t[|t| - 1])
  }

  lemma EndsInkIsTrimmed(t: string)
    requires t == [] || EndsInk(t)
    ensures TrimEnd(t + "\n") == t && TrimEnd(t) == t
  {
    assert (t + "\n")[..|t|] == t;
  }

  lemma {:induction false} TrimEndInk(t: string)
    ensures TrimEnd(t) == [] || EndsInk(TrimEnd(t))
  {
    TrimEndIsPrefix(t);
  }

  /** `replace(/\n{3,}/g, '\n\n').replace(/\s+$/, '')`, and a newline. */
  function Neat(t: string): string {
    TrimEnd(Collapse(t)) + "\n"
  }

  lemma NoRunExtends(x: string)
    requires NoRun(x) && (x == [] || EndsInk(x))
    ensures NoRun(x + "\n")
  {
    var s := x + "\n";
    assert forall i :: 0 <= i < |x| ==> s[i] == x[i];
  }

  lemma NoRunPrefix(t: string, n: nat)
    requires n <= |t| && NoRun(t)
    ensures NoRun(t[..n])
  {}

  lemma NeatIsIdempotent(t: string)
    ensures Neat(Neat(t)) == Neat(t)
  {
    var x := TrimEnd(Collapse(t));
    CollapseIsIdempotent(t);
    TrimEndIsPrefix(Collapse(t));
    NoRunPrefix(Collapse(t), |x|);
    TrimEndInk(Collapse(t));
    NoRunExtends(x);
    CollapseIsIdempotent(x + "\n");
    EndsInkIsTrimmed(x);
  }

  lemma ContentOfNeat(t: string)
    ensures Content(Neat(t)) == Content(t)
  {
    ContentOfCollapse(t);
    ContentOfTrimEnd(Collapse(t));
    ContentOfSpace(TrimEnd(Collapse(t)), '\n');
    assert TrimEnd(Collapse(t)) + "\n" == TrimEnd(Collapse(t)) + ['\n'];
  }
}
