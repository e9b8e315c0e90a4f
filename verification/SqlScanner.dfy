/**
 * The SQL text scanner of the database guard: comment stripping, literal blanking and
 * statement splitting. The last two carry separately written quote automata.
 */
module SqlScanner {
  import opened Text

  // ----- comment stripping, one replacement at a time -----

  /** Position of the first `*` directly followed by `/`, or the length when there is none. */
  function FindClose(s: string): (i: nat)
    ensures i <= |s| && (i < |s| ==> i + 1 < |s| && s[i] == '*' && s[i + 1] == '/')
    ensures forall j :: 0 <= j < i && j + 1 < |s| ==> !(s[j] == '*' && s[j + 1] == '/')
  {
    if s == [] then 0
    else if |s| >= 2 && s[0] == '*' && s[1] == '/' then 0
    else 1 + FindClose(s[1..])
  }

  /** Every closed block comment becomes a space. */
  function StripBlocks(s: string): string {
    if s == [] then []
    else if |s| >= 2 && s[0] == '/' && s[1] == '*' && FindClose(s[2..]) < |s| - 2 then
      [' '] + StripBlocks(s[2 + FindClose(s[2..]) + 2..])
    else [s[0]] + StripBlocks(s[1..])
  }

  function DropLine(s: string): (r: string)
    ensures |r| <= |s|
  {
    if s == [] || s[0] == '\n' || s[0] == '\r' then s else DropLine(s[1..])
  }

  lemma {:induction false} DropLineIsSuffix(s: string)
    ensures DropLine(s) == s[|s| - |DropLine(s)|..]
  {
    if s != [] && s[0] != '\n' && s[0] != '\r' { DropLineIsSuffix(s[1..]); }
  }

  /** A dropped line ends inside `front`, or `front` holds no line end. */
  lemma {:induction false} DropLineSplits(front: string, u: string)
    ensures DropLine(front + u) == if DropLine(front) == "" then DropLine(u) else DropLine(front) + u
  {
    if front == [] {
      assert front + u == u;
    } else if front[0] != '\n' && front[0] != '\r' {
      assert (front + u)[1..] == front[1..] + u;
      DropLineSplits(front[1..], u);
    }
  }

  predicate StartsLine(s: string) {
    |s| >= 2 && s[0] == '-' && s[1] == '-'
  }

  /** Every `--` comment, up to its line end, becomes a space. */
  function StripLines(s: string): string
    decreases |s|
  {
    if s == [] then []
    else if StartsLine(s) then [' '] + StripLines(DropLine(s[2..]))
    else [s[0]] + StripLines(s[1..])
  }

  function DropSpaces(s: string): (r: string)
    ensures |r| <= |s| && r == s[|s| - |r|..]
    ensures r != [] ==> !IsSpace(r[0])
  {
    if s != [] && IsSpace(s[0]) then DropSpaces(s[1..]) else s
  }

  /** Every run of whitespace becomes one space. */
  function Squeeze(s: string): string
    decreases |s|
  {
    if s == [] then []
    else if IsSpace(s[0]) then [' '] + Squeeze(DropSpaces(s[1..]))
    else [s[0]] + Squeeze(s[1..])
  }

  function StripSqlComments(sql: string): string {
    Trim(Squeeze(StripLines(StripBlocks(sql))))
  }

  // ----- what stripping leaves -----

  predicate HasPair(s: string, x: char, y: char) {
    exists i :: 0 <= i < |s| - 1 && s[i] == x && s[i + 1] == y
  }

  /** An opening `/` `*` with a closing `*` `/` somewhere after it. */
  predicate IsBlockAt(s: string, i: int, j: int) {
    0 <= i && i + 2 <= j < |s| - 1 && s[i] == '/' && s[i + 1] == '*' && s[j] == '*' && s[j + 1] == '/'
  }

  predicate HasBlock(s: string) {
    exists i, j | 0 <= i < |s| && 0 <= j < |s| :: IsBlockAt(s, i, j)
  }

  predicate Squeezed(s: string) {
    && (forall i :: 0 <= i < |s| && IsSpace(s[i]) ==> s[i] == ' ')
    && (forall i :: 0 <= i < |s| - 1 && IsSpace(s[i]) ==> !IsSpace(s[i + 1]))
  }

  predicate Trimmed(s: string) {
    s != [] ==> !IsSpace(s[0]) && !IsSpace(s[|s| - 1])
  }

  /** Text with nothing left to strip. */
  predicate Clean(s: string) {
    !HasBlock(s) && !HasPair(s, '-', '-') && Squeezed(s) && Trimmed(s)
  }

  /** `t` is `s` with some non-empty stretches replaced by single spaces. */
  ghost predicate Erases(s: string, t: string)
    decreases |s|
  {
    if s == [] then t == []
    else t != [] && (|| (t[0] == s[0] && Erases(s[1..], t[1..]))
                     || (t[0] == ' ' && exists k :: 1 <= k <= |s| && Erases(s[k..], t[1..])))
  }

  lemma {:induction false} BlocksErase(s: string)
    ensures Erases(s, StripBlocks(s))
    decreases |s|
  {
    if s != [] {
      var t := StripBlocks(s);
      if |s| >= 2 && s[0] == '/' && s[1] == '*' && FindClose(s[2..]) < |s| - 2 {
        var k := 2 + FindClose(s[2..]) + 2;
        BlocksErase(s[k..]);
        assert t[1..] == StripBlocks(s[k..]);
        assert Erases(s[k..], t[1..]);
      } else {
        BlocksErase(s[1..]);
        assert t[1..] == StripBlocks(s[1..]);
      }
    }
  }

  lemma {:induction false} LinesErase(s: string)
    ensures Erases(s, StripLines(s))
    decreases |s|
  {
    if s != [] {
      var t := StripLines(s);
      if |s| >= 2 && s[0] == '-' && s[1] == '-' {
        var k := |s| - |DropLine(s[2..])|;
      DropLineIsSuffix(s[2..]);
        assert s[k..] == DropLine(s[2..]);
        LinesErase(s[k..]);
        assert t[1..] == StripLines(s[k..]);
        assert Erases(s[k..], t[1..]);
      } else {
        LinesErase(s[1..]);
        assert t[1..] == StripLines(s[1..]);
      }
    }
  }

  lemma {:induction false} SqueezeErases(s: string)
    ensures Erases(s, Squeeze(s))
    decreases |s|
  {
    if s != [] {
      var t := Squeeze(s);
      if IsSpace(s[0]) {
        var k := |s| - |DropSpaces(s[1..])|;
        assert s[k..] == DropSpaces(s[1..]);
        SqueezeErases(s[k..]);
        assert t[1..] == Squeeze(s[k..]);
        assert Erases(s[k..], t[1..]);
      } else {
        SqueezeErases(s[1..]);
        assert t[1..] == Squeeze(s[1..]);
      }
    }
  }

  lemma KeptHead(s: string, t: string)
    requires Erases(s, t) && t != [] && t[0] != ' '
    ensures s != [] && s[0] == t[0] && Erases(s[1..], t[1..])
  {}

  /** The rest of the erased text comes from a later part of the source. */
  lemma ErasedRest(s: string, t: string) returns (k: nat)
    requires Erases(s, t) && t != []
    ensures 1 <= k <= |s| && Erases(s[k..], t[1..])
  {
    if t[0] == s[0] && Erases(s[1..], t[1..]) {
      k := 1;
    } else {
      k :| 1 <= k <= |s| && Erases(s[k..], t[1..]);
    }
  }

  /** Erasing cannot bring two non-space characters together. */
  lemma {:induction false} PairComesFrom(s: string, t: string, i: nat) returns (i': nat)
    requires Erases(s, t) && i + 1 < |t| && t[i] != ' ' && t[i + 1] != ' '
    ensures i' + 1 < |s| && s[i'] == t[i] && s[i' + 1] == t[i + 1]
    decreases i
  {
    if i == 0 {
      KeptHead(s, t);
      KeptHead(s[1..], t[1..]);
      i' := 0;
    } else {
      var k := ErasedRest(s, t);
      i' := PairComesFrom(s[k..], t[1..], i - 1);
      i' := i' + k;
    }
  }

  lemma BlockShifts(s: string, k: nat, i: int, j: int)
    requires k <= |s|
    ensures IsBlockAt(s[k..], i, j) ==> IsBlockAt(s, i + k, j + k)
    ensures IsBlockAt(s, i + k, j + k) && 0 <= i ==> IsBlockAt(s[k..], i, j)
  {}

  lemma BlockAtHead(s: string, t: string, j: nat) returns (j': nat)
    requires Erases(s, t) && IsBlockAt(t, 0, j)
    ensures IsBlockAt(s, 0, j')
  {
    KeptHead(s, t);
    KeptHead(s[1..], t[1..]);
    var s2, t2 := s[1..][1..], t[1..][1..];
    assert t2[j - 2] == t[j] && t2[j - 1] == t[j + 1];
    var k := PairComesFrom(s2, t2, j - 2);
    assert s2[k] == s[k + 2] && s2[k + 1] == s[k + 3];
    j' := k + 2;
  }

  lemma {:induction false} BlockComesFrom(s: string, t: string, i: nat, j: nat) returns (i': nat, j': nat)
    requires Erases(s, t) && IsBlockAt(t, i, j)
    ensures IsBlockAt(s, i', j')
    decreases i
  {
    if i == 0 {
      i' := 0;
      j' := BlockAtHead(s, t, j);
    } else {
      var k := ErasedRest(s, t);
      BlockShifts(t, 1, i - 1, j - 1);
      i', j' := BlockComesFrom(s[k..], t[1..], i - 1, j - 1);
      BlockShifts(s, k, i', j');
      i', j' := i' + k, j' + k;
    }
  }

  lemma ErasingAddsNothing(s: string, t: string)
    requires Erases(s, t)
    ensures HasPair(t, '-', '-') ==> HasPair(s, '-', '-')
    ensures HasBlock(t) ==> HasBlock(s)
  {
    if HasPair(t, '-', '-') {
      var i :| 0 <= i < |t| - 1 && t[i] == '-' && t[i + 1] == '-';
      var i' := PairComesFrom(s, t, i);
    }
    if HasBlock(t) {
      var i, j :| 0 <= i < |t| && 0 <= j < |t| && IsBlockAt(t, i, j);
      var i', j' := BlockComesFrom(s, t, i, j);
    }
  }

  /** A block or pair of a text starts at its first character or lies in the rest. */
  lemma FirstOrRest(t: string)
    requires t != []
    ensures HasBlock(t) ==> (exists j :: IsBlockAt(t, 0, j)) || HasBlock(t[1..])
    ensures HasPair(t, '-', '-') ==> (|t| >= 2 && t[0] == '-' && t[1] == '-') || HasPair(t[1..], '-', '-')
  {
    if i, j :| 0 <= i < |t| && 0 <= j < |t| && IsBlockAt(t, i, j) && i > 0 {
      assert IsBlockAt(t[1..], i - 1, j - 1);
    }
    if i :| 0 < i < |t| - 1 && t[i] == '-' && t[i + 1] == '-' {
      assert t[1..][i - 1] == '-' && t[1..][i] == '-';
    }
  }

  /** A block opened by a kept first character would have been closed in the source. */
  lemma OpenedIsClosed(s: string, j: nat)
    requires s != [] && IsBlockAt([s[0]] + StripBlocks(s[1..]), 0, j)
    ensures |s| >= 2 && s[0] == '/' && s[1] == '*' && FindClose(s[2..]) < |s| - 2
  {
    var t := StripBlocks(s[1..]);
    BlocksErase(s[1..]);
    assert Erases(s[1..][1..], t[1..]);
    var k := PairComesFrom(s[1..][1..], t[1..], j - 2);
    assert s[1..][1..] == s[2..];
  }

  lemma {:induction false} NoBlockSurvives(s: string)
    ensures !HasBlock(StripBlocks(s))
    decreases |s|
  {
    if s != [] {
      FirstOrRest(StripBlocks(s));
      if |s| >= 2 && s[0] == '/' && s[1] == '*' && FindClose(s[2..]) < |s| - 2 {
        NoBlockSurvives(s[2 + FindClose(s[2..]) + 2..]);
      } else {
        NoBlockSurvives(s[1..]);
        forall j | IsBlockAt(StripBlocks(s), 0, j) ensures FindClose(s[2..]) < |s| - 2 {
          OpenedIsClosed(s, j);
        }
      }
    }
  }

  lemma {:induction false} NoLineSurvives(s: string)
    ensures !HasPair(StripLines(s), '-', '-')
    decreases |s|
  {
    if s != [] {
      FirstOrRest(StripLines(s));
      if |s| >= 2 && s[0] == '-' && s[1] == '-' {
        NoLineSurvives(DropLine(s[2..]));
      } else {
        NoLineSurvives(s[1..]);
        LinesErase(s[1..]);
      }
    }
  }

  lemma {:induction false} SqueezeSqueezes(s: string)
    ensures Squeezed(Squeeze(s))
    ensures Squeeze(s) != [] ==> (IsSpace(Squeeze(s)[0]) <==> s != [] && IsSpace(s[0]))
    decreases |s|
  {
    if s != [] {
      var rest := if IsSpace(s[0]) then DropSpaces(s[1..]) else s[1..];
      SqueezeSqueezes(rest);
      var t := Squeeze(s);
      assert t[1..] == Squeeze(rest);
      forall i | 0 <= i < |t| && IsSpace(t[i]) ensures t[i] == ' ' && (i < |t| - 1 ==> !IsSpace(t[i + 1])) {
        if i > 0 {
          assert t[1..][i - 1] == t[i];
          if i < |t| - 1 { assert t[1..][i] == t[i + 1]; }
        } else if |t| > 1 {
          assert t[1] == Squeeze(rest)[0];
        }
      }
    }
  }

  /** Trimming takes a slice, and drops only whitespace. */
  lemma TrimIsSlice(s: string) returns (a: nat, b: nat)
    ensures a <= b <= |s| && Trim(s) == s[a..b] && Trimmed(Trim(s))
    ensures IsBlank(s[..a]) && IsBlank(s[b..])
  {
    var e := TrimEnd(s);
    TrimEndIsPrefix(s);
    TrimStartIsSuffix(e);
    a, b := |e| - |TrimStart(e)|, |e|;
    assert s[..|e|][a..] == s[a..b] && e[..a] == s[..a];
    if Trim(s) != [] {
      assert Trim(s)[|Trim(s)| - 1] == e[|e| - 1];
    }
  }

  /** A slice of a text holds no comment, and no irregular space, that the text does not hold. */
  lemma SliceAddsNothing(s: string, a: nat, b: nat)
    requires a <= b <= |s|
    ensures HasBlock(s[a..b]) ==> HasBlock(s)
    ensures HasPair(s[a..b], '-', '-') ==> HasPair(s, '-', '-')
    ensures Squeezed(s) ==> Squeezed(s[a..b])
  {
    var t := s[a..b];
    if i, j :| 0 <= i < |t| && 0 <= j < |t| && IsBlockAt(t, i, j) {
      assert IsBlockAt(s, a + i, a + j);
    }
    if i :| 0 <= i < |t| - 1 && t[i] == '-' && t[i + 1] == '-' {
      assert s[a + i] == '-' && s[a + i + 1] == '-';
    }
  }

  lemma StripLeavesClean(sql: string)
    ensures Clean(StripSqlComments(sql))
  {
    var s1 := StripBlocks(sql);
    var s2 := StripLines(s1);
    var s3 := Squeeze(s2);
    NoBlockSurvives(sql);
    LinesErase(s1);
    NoLineSurvives(s1);
    ErasingAddsNothing(s1, s2);
    SqueezeErases(s2);
    ErasingAddsNothing(s2, s3);
    SqueezeSqueezes(s2);
    var a, b := TrimIsSlice(s3);
    SliceAddsNothing(s3, a, b);
  }

  lemma {:induction false} BlocksOrFixed(s: string)
    ensures HasBlock(s) || StripBlocks(s) == s
  {
    if s != [] {
      SliceAddsNothing(s, 1, |s|);
      assert s[1..|s|] == s[1..];
      BlocksOrFixed(s[1..]);
      if |s| >= 2 && s[0] == '/' && s[1] == '*' && FindClose(s[2..]) < |s| - 2 {
        var j := FindClose(s[2..]);
        assert s[2..][j] == s[j + 2] && s[2..][j + 1] == s[j + 3];
        assert IsBlockAt(s, 0, j + 2);
      }
    }
  }

  lemma {:induction false} PairOrFixed(s: string)
    ensures HasPair(s, '-', '-') || StripLines(s) == s
    decreases |s|
  {
    if s != [] {
      SliceAddsNothing(s, 1, |s|);
      PairOrFixed(s[1..]);
    }
  }

  lemma SqueezedRest(s: string)
    requires Squeezed(s) && s != []
    ensures Squeezed(s[1..]) && (IsSpace(s[0]) ==> s[0] == ' ' && DropSpaces(s[1..]) == s[1..])
  {
    assert forall i :: 0 <= i < |s| - 1 ==> s[1..][i] == s[i + 1];
  }

  lemma {:induction false} SqueezedFixed(s: string)
    requires Squeezed(s)
    ensures Squeeze(s) == s
    decreases |s|
  {
    if s != [] {
      SqueezedRest(s);
      SqueezedFixed(s[1..]);
    }
  }

  /** Stripping changes exactly the texts that are not clean; in particular it is idempotent. */
  lemma StripFixesClean(s: string)
    ensures StripSqlComments(s) == s <==> Clean(s)
  {
    StripLeavesClean(s);
    if Clean(s) {
      BlocksOrFixed(s);
      PairOrFixed(s);
      SqueezedFixed(s);
      assert TrimEnd(s) == s && TrimStart(s) == s;
    }
  }

  lemma StripIsIdempotent(sql: string)
    ensures StripSqlComments(StripSqlComments(sql)) == StripSqlComments(sql)
  {
    StripLeavesClean(sql);
    StripFixesClean(StripSqlComments(sql));
  }
}
