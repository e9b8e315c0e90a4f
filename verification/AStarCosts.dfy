/**
 * The costs the search records: when nothing is open any more, every reachable state has
 * been expanded at the least cost of reaching it; and the budget can run out before a
 * reachable goal is found.
 */
module AStarCosts {
  import opened AStar
  import opened Lattice
  import opened Sequences

  ghost predicate Holds(nodes: seq<Node>, s: State, g: int) {
    exists n :: n in nodes && n.state == s && n.costs.g == g
  }

  /** Every recorded cost is that of an open or a closed node. */
  ghost predicate Backed(rs: RunState) {
    forall s :: s in rs.fr.best ==> Holds(rs.fr.open, s, rs.fr.best[s]) || Holds(rs.closed, s, rs.fr.best[s])
  }

  /** The successor of a state reached at cost `g` is recorded at no more than one step's charge above it. */
  ghost predicate Follows(p: Problem, best: map<State, int>, s: State, g: int, a: Action) {
    var next := Apply(s, a, p.goal);
    next in best && best[next] <= g + Round(p.w.step)
  }

  ghost predicate Relaxed(p: Problem, rs: RunState) {
    forall n, a {:trigger Follows(p, rs.fr.best, n.state, n.costs.g, a)} ::
      n in rs.closed && a in p.actions ==> Follows(p, rs.fr.best, n.state, n.costs.g, a)
  }

  /** Recorded costs only fall, and each new one is that of an open node. */
  ghost predicate Improves(fr: Frontier, fr': Frontier) {
    && fr.open <= fr'.open
    && (forall s :: s in fr.best ==> s in fr'.best && fr'.best[s] <= fr.best[s])
    && forall s :: s in fr'.best ==> (s in fr.best && fr'.best[s] == fr.best[s]) || Holds(fr'.open, s, fr'.best[s])
  }

  lemma HoldsInMore(nodes: seq<Node>, more: seq<Node>, s: State, g: int)
    requires nodes <= more && Holds(nodes, s, g)
    ensures Holds(more, s, g)
  {
    var n :| n in nodes && n.state == s && n.costs.g == g;
    assert n in more;
  }

  lemma ImprovesTwice(a: Frontier, b: Frontier, c: Frontier)
    requires Improves(a, b) && Improves(b, c)
    ensures Improves(a, c)
  {
    forall s | s in c.best ensures (s in a.best && c.best[s] == a.best[s]) || Holds(c.open, s, c.best[s]) {
      if s in b.best && c.best[s] == b.best[s] && !(s in a.best && b.best[s] == a.best[s]) {
        HoldsInMore(b.open, c.open, s, b.best[s]);
      }
    }
  }

  lemma RelaxImproves(p: Problem, fr: Frontier, current: Node, a: Action)
    ensures var fr' := Relax(fr, current, a, p.goal, p.w);
            Improves(fr, fr') && Follows(p, fr'.best, current.state, current.costs.g, a)
  {
    var next, costs := Apply(current.state, a, p.goal), Charge(current.costs, a, p.w);
    var fr' := Relax(fr, current, a, p.goal, p.w);
    RoundShifts(current.costs.g, p.w.step);
    if fr' != fr {
      var child := MakeNode(next, p.goal, p.w, costs, current.steps + [Step(a, next)]);
      assert child in fr'.open && child.state == next && child.costs.g == costs.g;
    }
  }

  lemma {:induction false} RelaxAllImproves(p: Problem, fr: Frontier, current: Node, acts: seq<Action>)
    ensures var fr' := RelaxAll(fr, current, acts, p.goal, p.w);
            Improves(fr, fr') && forall a :: a in acts ==> Follows(p, fr'.best, current.state, current.costs.g, a)
  {
    if acts != [] {
      var front, last := acts[..|acts| - 1], acts[|acts| - 1];
      assert acts == front + [last];
      RelaxAllImproves(p, fr, current, front);
      var mid := RelaxAll(fr, current, front, p.goal, p.w);
      RelaxImproves(p, mid, current, last);
      ImprovesTwice(fr, mid, Relax(mid, current, last, p.goal, p.w));
    }
  }

  ghost predicate CostInvariant(p: Problem, rs: RunState) {
    Backed(rs) && Relaxed(p, rs) && p.start in rs.fr.best && rs.fr.best[p.start] <= 0
  }

  lemma SortHolds(nodes: seq<Node>, s: State, g: int)
    requires Holds(nodes, s, g)
    ensures Holds(Sort(CompareNodes, nodes), s, g)
  {
    var n :| n in nodes && n.state == s && n.costs.g == g;
    SortPermutes(CompareNodes, nodes);
    assert n in multiset(nodes) && n in multiset(Sort(CompareNodes, nodes));
  }

  /** An open node stays open or is the one that is popped. */
  lemma PoppedOrOpen(sorted: seq<Node>, open: seq<Node>, closed: seq<Node>, s: State, g: int)
    requires sorted != [] && Holds(sorted, s, g) && sorted[1..] <= open
    ensures Holds(open, s, g) || Holds(closed + [sorted[0]], s, g)
  {
    var n :| n in sorted && n.state == s && n.costs.g == g;
    assert sorted == [sorted[0]] + sorted[1..];
    if n == sorted[0] {
      assert n in closed + [sorted[0]];
    } else {
      assert n in sorted[1..] && n in open;
    }
  }

  lemma ExpansionStaysBacked(p: Problem, rs: RunState, sorted: seq<Node>, fr': Frontier)
    requires Backed(rs) && sorted == Sort(CompareNodes, rs.fr.open) && sorted != []
    requires Improves(Frontier(sorted[1..], rs.fr.best), fr')
    ensures Backed(RunState(fr', rs.closed + [sorted[0]]))
  {
    forall s | s in fr'.best
      ensures Holds(fr'.open, s, fr'.best[s]) || Holds(rs.closed + [sorted[0]], s, fr'.best[s])
    {
      if !Holds(fr'.open, s, fr'.best[s]) {
        if Holds(rs.closed, s, rs.fr.best[s]) {
          HoldsInMore(rs.closed, rs.closed + [sorted[0]], s, rs.fr.best[s]);
        } else {
          SortHolds(rs.fr.open, s, rs.fr.best[s]);
          PoppedOrOpen(sorted, fr'.open, rs.closed, s, rs.fr.best[s]);
        }
      }
    }
  }

  lemma ExpansionStaysRelaxed(p: Problem, rs: RunState, current: Node, popped: Frontier, fr': Frontier)
    requires Relaxed(p, rs) && popped.best == rs.fr.best && Improves(popped, fr')
    requires forall a :: a in p.actions ==> Follows(p, fr'.best, current.state, current.costs.g, a)
    ensures Relaxed(p, RunState(fr', rs.closed + [current]))
  {
    forall n, a | n in rs.closed + [current] && a in p.actions ensures Follows(p, fr'.best, n.state, n.costs.g, a) {
      if n in rs.closed { assert Follows(p, rs.fr.best, n.state, n.costs.g, a); }
    }
  }

  /** One expansion keeps all of it. */
  lemma ExpansionKeepsCosts(p: Problem, rs: RunState)
    requires CostInvariant(p, rs)
    ensures CostInvariant(p, ExpandNext(p, rs))
  {
    var sorted := Sort(CompareNodes, rs.fr.open);
    if sorted != [] {
      var popped := Frontier(sorted[1..], rs.fr.best);
      var fr' := RelaxAll(popped, sorted[0], p.actions, p.goal, p.w);
      RelaxAllImproves(p, popped, sorted[0], p.actions);
      ExpansionStaysBacked(p, rs, sorted, fr');
      ExpansionStaysRelaxed(p, rs, sorted[0], popped, fr');
    }
  }

  lemma {:induction false} RunKeepsCosts(p: Problem, k: nat)
    ensures CostInvariant(p, Run(p, k))
  {
    if k == 0 {
      assert Root(p.start, p.goal, p.w) in Run(p, 0).fr.open;
    } else {
      RunKeepsCosts(p, k - 1);
      ExpansionKeepsCosts(p, Run(p, k - 1));
    }
  }

  lemma ChargedStep(acts: seq<Action>, w: Weights)
    requires acts != []
    ensures Tally(acts, w).g == Tally(acts[..|acts| - 1], w).g + Round(w.step)
  {
    RoundShifts(Tally(acts[..|acts| - 1], w).g, w.step);
  }

  /** With nothing open, every reachable state is recorded at no more than any route to it costs. */
  lemma {:induction false} RecordedIsLow(p: Problem, rs: RunState, acts: seq<Action>)
    requires CostInvariant(p, rs) && rs.fr.open == [] && UsesOnly(acts, p.actions)
    ensures var s := Replay(p.start, p.goal, acts); s in rs.fr.best && rs.fr.best[s] <= Tally(acts, p.w).g
  {
    if acts != [] {
      var front, last := acts[..|acts| - 1], acts[|acts| - 1];
      RecordedIsLow(p, rs, front);
      var s := Replay(p.start, p.goal, front);
      assert Holds(rs.closed, s, rs.fr.best[s]);
      var n :| n in rs.closed && n.state == s && n.costs.g == rs.fr.best[s];
      assert last in p.actions;
      assert Follows(p, rs.fr.best, n.state, n.costs.g, last);
      ChargedStep(acts, p.w);
    }
  }

  /** No route to the node's state costs less than the node. */
  ghost predicate IsLeast(p: Problem, n: Node) {
    forall acts :: UsesOnly(acts, p.actions) && Replay(p.start, p.goal, acts) == n.state ==> n.costs.g <= Tally(acts, p.w).g
  }

  lemma RecordedIsLeast(p: Problem, rs: RunState, n: Node)
    requires CostInvariant(p, rs) && rs.fr.open == [] && n.state in rs.fr.best && n.costs.g == rs.fr.best[n.state]
    ensures IsLeast(p, n)
  {
    forall acts | UsesOnly(acts, p.actions) && Replay(p.start, p.goal, acts) == n.state ensures n.costs.g <= Tally(acts, p.w).g {
      RecordedIsLow(p, rs, acts);
    }
  }

  /**
   * When the search ends with nothing open, each state that any action sequence reaches
   * has been closed by a node that replays its own steps to it, and no sequence of
   * actions reaches that state at a lower cost.
   */
  lemma ExhaustionFindsLeastCosts(p: Problem, r: Search, acts: seq<Action>)
    requires ValidProblem(p) && IsSearchOf(p, r) && r.open == [] && !IsGoal(r.selected.state, p.goal)
    requires UsesOnly(acts, p.actions)
    ensures exists n :: n in r.closed && n.state == Replay(p.start, p.goal, acts) && Faithful(p, n) && IsLeast(p, n)
  {
    SearchIsSound(p, r);
    var k: nat :| EndsAt(p, k, r);
    RunKeepsCosts(p, k);
    RecordedIsLow(p, Run(p, k), acts);
    var s := Replay(p.start, p.goal, acts);
    assert Holds(r.closed, s, Run(p, k).fr.best[s]);
    var n :| n in r.closed && n.state == s && n.costs.g == Run(p, k).fr.best[s];
    RecordedIsLeast(p, Run(p, k), n);
  }
}
