/** A problem whose goal is reachable and is missed: sixty-four cheaper states use up the budget. */
module AStarBudget {
  import opened AStar
  import opened AStarCosts
  import opened Lattice
  import opened Sequences

  function Push(id: string, delta: State): Action {
    Action(id, delta, 0.0, 0.0, 0.0)
  }

  /** Four axes to raise from 0 to 3, one action for each, a step as dear as a thousand debts. */
  function Cube(): Problem {
    Problem(State(0, 0, 0, 0, 0), State(3, 3, 3, 3, 0),
            [Push("contract", State(1, 0, 0, 0, 0)), Push("context", State(0, 1, 0, 0, 0)),
             Push("implementation", State(0, 0, 1, 0, 0)), Push("verification", State(0, 0, 0, 1, 0))],
            Weights(1.0, 0.001, 1.0, 1.0, 1.0))
  }

  /** What the proof uses of that problem. */
  ghost predicate IsCube(p: Problem) {
    && ValidProblem(p)
    && p.start == State(0, 0, 0, 0, 0) && p.goal == State(3, 3, 3, 3, 0)
    && |p.actions| == 4
    && p.actions[0].delta == State(1, 0, 0, 0, 0) && p.actions[1].delta == State(0, 1, 0, 0, 0)
    && p.actions[2].delta == State(0, 0, 1, 0, 0) && p.actions[3].delta == State(0, 0, 0, 1, 0)
    && (forall a :: a in p.actions ==> a.risk == 0.0 && a.friction == 0.0 && a.infoGain == 0.0)
    && p.w.step == 1.0 && p.w.proofDebt == 0.001
  }

  lemma CubeIsCube()
    ensures IsCube(Cube())
  {
    var p := Cube();
    assert Clamped(p.start) && Clamped(p.goal) && ValidWeights(p.w);
    forall a | a in p.actions ensures ValidAction(a) && a.risk == 0.0 && a.friction == 0.0 && a.infoGain == 0.0 {
      var i :| 0 <= i < 4 && p.actions[i] == a;
      assert Clamped(a.delta);
    }
  }

  function Sum(s: State): int {
    s.contract + s.context + s.implementation + s.verification
  }

  lemma RoundOfNothing(n: int, weight: real)
    ensures Round(Value(n) + 0.0 * weight) == n
  {
    RoundShifts(n, 0.0 * weight);
    assert 0.0 * weight == 0.0;
  }

  /** Routes cost a thousand thousandths a step and nothing else. */
  lemma {:induction false} PlainTally(p: Problem, acts: seq<Action>)
    requires IsCube(p) && UsesOnly(acts, p.actions)
    ensures Tally(acts, p.w) == Costs(1000 * |acts|, 0, 0, 0)
  {
    if acts != [] {
      var front, last := acts[..|acts| - 1], acts[|acts| - 1];
      PlainTally(p, front);
      assert last in p.actions;
      RoundShifts(1000 * |front|, 1.0);
      RoundOfNothing(0, p.w.risk);
      RoundOfNothing(0, p.w.friction);
      RoundOfNothing(0, p.w.infoGain);
    }
  }

  lemma StepAddsOne(p: Problem, s: State, a: Action)
    requires IsCube(p) && a in p.actions
    ensures Sum(Apply(s, a, p.goal)) <= Sum(s) + 1
  {
    var i :| 0 <= i < 4 && p.actions[i] == a;
  }

  lemma {:induction false} StepsAddUp(p: Problem, acts: seq<Action>)
    requires IsCube(p) && UsesOnly(acts, p.actions)
    ensures Sum(Replay(p.start, p.goal, acts)) <= |acts|
  {
    if acts != [] {
      var front, last := acts[..|acts| - 1], acts[|acts| - 1];
      StepsAddUp(p, front);
      assert last in p.actions;
      StepAddsOne(p, Replay(p.start, p.goal, front), last);
    }
  }

  lemma DebtIsSmall(p: Problem, s: State)
    requires IsCube(p) && Clamped(s)
    ensures 0 <= ProofDebt(s, p.goal, p.w) <= 12
  {
    assert 0 <= s.At(Contract) && 0 <= s.At(Context) && 0 <= s.At(Implementation) && 0 <= s.At(Verification) && 0 <= s.At(Review);
    assert 0 <= Debt(s, p.goal) <= 12;
    RoundIsMonotone(0.0, Debt(s, p.goal) as real * 0.001);
    RoundIsMonotone(Debt(s, p.goal) as real * 0.001, 0.012);
  }

  /** A node's score is its cost and a small debt. */
  lemma ScoreIsNearCost(p: Problem, n: Node)
    requires IsCube(p) && Faithful(p, n)
    ensures n.costs.g <= n.f <= n.costs.g + 12 && n.costs.g == 1000 * |n.steps|
  {
    FaithfulIsMade(p, n);
    PlainTally(p, ActionsOf(n.steps));
    ScoreIsExact(n.costs, n.h);
    DebtIsSmall(p, n.state);
  }

  lemma GoalIsDear(p: Problem, n: Node)
    requires IsCube(p) && Faithful(p, n) && IsGoal(n.state, p.goal)
    ensures n.f >= 12000
  {
    FaithfulIsMade(p, n);
    ScoreIsNearCost(p, n);
    StepsAddUp(p, ActionsOf(n.steps));
    assert n.state.At(Contract) >= 3 && n.state.At(Context) >= 3 && n.state.At(Implementation) >= 3 && n.state.At(Verification) >= 3;
  }

  /** All open nodes are dear. */
  ghost predicate OnlyDearOpen(p: Problem, rs: RunState) {
    AllFaithful(p, rs.fr.open) && forall m :: m in rs.fr.open ==> m.f >= 12000
  }

  /** A state recorded at a low cost has been closed. */
  lemma CheapIsClosed(p: Problem, rs: RunState, s: State)
    requires IsCube(p) && CostInvariant(p, rs) && OnlyDearOpen(p, rs)
    requires s in rs.fr.best && rs.fr.best[s] <= 9000
    ensures Holds(rs.closed, s, rs.fr.best[s])
  {
    forall m | m in rs.fr.open ensures m.costs.g > 9000 { ScoreIsNearCost(p, m); }
  }

  function Corner(a: int, b: int, c: int, d: int): State {
    State(a, b, c, d, 0)
  }

  /** Each such state but the first is one step behind another. */
  lemma CornerFollows(p: Problem, a: nat, b: nat, c: nat, d: nat) returns (i: nat, a': nat, b': nat, c': nat, d': nat)
    requires IsCube(p) && a <= 3 && b <= 3 && c <= 3 && d <= 3 && a + b + c + d > 0
    ensures i < 4 && a' <= 3 && b' <= 3 && c' <= 3 && d' <= d && a' + b' + c' + d' == a + b + c + d - 1
    ensures Apply(Corner(a', b', c', d'), p.actions[i], p.goal) == Corner(a, b, c, d)
  {
    i, a', b', c', d' := 0, a, b, c, d;
    if a > 0 {
      a' := a - 1;
    } else if b > 0 {
      i, b' := 1, b - 1;
    } else if c > 0 {
      i, c' := 2, c - 1;
    } else {
      i, d' := 3, d - 1;
    }
  }

  /** The state has been closed at its recorded cost, which is at most `g`. */
  ghost predicate ClosedWithin(rs: RunState, s: State, g: int) {
    s in rs.fr.best && rs.fr.best[s] <= g && Holds(rs.closed, s, rs.fr.best[s])
  }

  lemma NextIsClosed(p: Problem, rs: RunState, s: State, a: Action, g: int)
    requires IsCube(p) && CostInvariant(p, rs) && OnlyDearOpen(p, rs)
    requires ClosedWithin(rs, s, g) && g + 1000 <= 9000 && a in p.actions
    ensures ClosedWithin(rs, Apply(s, a, p.goal), g + 1000)
  {
    var n :| n in rs.closed && n.state == s && n.costs.g == rs.fr.best[s];
    assert Follows(p, rs.fr.best, n.state, n.costs.g, a);
    assert Round(1.0) == 1000;
    CheapIsClosed(p, rs, Apply(s, a, p.goal));
  }

  lemma StartIsClosed(p: Problem, rs: RunState)
    requires IsCube(p) && CostInvariant(p, rs) && OnlyDearOpen(p, rs)
    ensures ClosedWithin(rs, Corner(0, 0, 0, 0), 0)
  {
    CheapIsClosed(p, rs, p.start);
  }

  lemma CornerAfter(p: Problem, rs: RunState, s: State, i: nat, n: nat, next: State)
    requires IsCube(p) && CostInvariant(p, rs) && OnlyDearOpen(p, rs)
    requires ClosedWithin(rs, s, 1000 * (n - 1)) && n <= 9 && i < 4 && Apply(s, p.actions[i], p.goal) == next
    ensures ClosedWithin(rs, next, 1000 * n)
  {
    NextIsClosed(p, rs, s, p.actions[i], 1000 * (n - 1));
  }

  /** Every state that raises only the first three axes is closed before anything dear is popped. */
  lemma {:induction false} CornerIsClosed(p: Problem, rs: RunState, a: nat, b: nat, c: nat, n: nat)
    requires IsCube(p) && CostInvariant(p, rs) && OnlyDearOpen(p, rs) && a <= 3 && b <= 3 && c <= 3 && n == a + b + c
    ensures ClosedWithin(rs, Corner(a, b, c, 0), 1000 * n)
    decreases n
  {
    if n == 0 {
      StartIsClosed(p, rs);
    } else {
      var i, a', b', c', d' := CornerFollows(p, a, b, c, 0);
      CornerIsClosed(p, rs, a', b', c', n - 1);
      CornerAfter(p, rs, Corner(a', b', c', 0), i, n, Corner(a, b, c, 0));
    }
  }

  // ----- counting them -----

  function CornerAt(i: nat): State {
    Corner(i / 16, i / 4 % 4, i % 4, 0)
  }

  function StatesOf(nodes: seq<Node>): seq<State> {
    seq(|nodes|, i requires 0 <= i < |nodes| => nodes[i].state)
  }

  predicate AreDistinct(s: seq<State>) {
    forall i, j :: 0 <= i < j < |s| ==> s[i] != s[j]
  }

  /** Distinct members of a list are no more than its elements. */
  lemma {:induction false} DistinctFit(s: seq<State>, list: seq<State>)
    requires AreDistinct(s) && forall x :: x in s ==> x in list
    ensures |s| <= |list|
    decreases |s|
  {
    if s != [] {
      var front, last := s[..|s| - 1], s[|s| - 1];
      assert last in list;
      var i :| 0 <= i < |list| && list[i] == last;
      forall x | x in front ensures x in OneOut(list, i) {
        var j :| 0 <= j < |front| && front[j] == x;
        assert x == s[j] && s[j] != s[|s| - 1] && x in s;
        var k :| 0 <= k < |list| && list[k] == x;
        assert x == OneOut(list, i)[if k < i then k else k - 1];
      }
      DistinctFit(front, OneOut(list, i));
    }
  }

  lemma CornerCode(i: nat)
    requires i < 64
    ensures var s := CornerAt(i); i == 16 * s.contract + 4 * s.context + s.implementation
  {}

  function Corners(): seq<State> {
    seq(64, i requires 0 <= i < 64 => CornerAt(i))
  }

  lemma {:induction false} CornersAreDistinct()
    ensures AreDistinct(Corners())
  {
    forall i, j | 0 <= i < j < 64 ensures Corners()[i] != Corners()[j] {
      CornerCode(i);
      CornerCode(j);
    }
  }

  lemma HeldIsListed(nodes: seq<Node>, s: State, g: int)
    requires Holds(nodes, s, g)
    ensures s in StatesOf(nodes)
  {
    var n :| n in nodes && n.state == s && n.costs.g == g;
    var k :| 0 <= k < |nodes| && nodes[k] == n;
    assert StatesOf(nodes)[k] == s;
  }

  lemma CornerIsListed(p: Problem, rs: RunState, i: nat)
    requires IsCube(p) && CostInvariant(p, rs) && OnlyDearOpen(p, rs) && i < 64
    ensures CornerAt(i) in StatesOf(rs.closed)
  {
    CornerIsClosed(p, rs, i / 16, i / 4 % 4, i % 4, i / 16 + i / 4 % 4 + i % 4);
    HeldIsListed(rs.closed, CornerAt(i), rs.fr.best[CornerAt(i)]);
  }

  /** Before anything dear is popped, sixty-four nodes have been. */
  lemma BudgetIsSpent(p: Problem, rs: RunState)
    requires IsCube(p) && CostInvariant(p, rs) && OnlyDearOpen(p, rs)
    ensures |rs.closed| >= EXPANSION_BUDGET
  {
    forall x | x in Corners() ensures x in StatesOf(rs.closed) {
      var i :| 0 <= i < 64 && Corners()[i] == x;
      CornerIsListed(p, rs, i);
    }
    CornersAreDistinct();
    DistinctFit(Corners(), StatesOf(rs.closed));
  }

  // ----- the search misses the goal -----

  lemma HeadIsLeast(open: seq<Node>, m: Node)
    requires m in open
    ensures Sort(CompareNodes, open) != [] && Sort(CompareNodes, open)[0] in open && Sort(CompareNodes, open)[0].f <= m.f
  {
    assert Leads(NodeScore, CompareNodes);
    SortHeadIsLeast(NodeScore, CompareNodes, open);
    assert NodeScore(Sort(CompareNodes, open)[0]) <= NodeScore(m);
  }

  /** A goal is at the head of the open list only after as many expansions as the budget allows. */
  lemma GoalComesLate(p: Problem, k: nat)
    requires IsCube(p) && NoGoalIn(p, Run(p, k).closed)
    requires var sorted := Sort(CompareNodes, Run(p, k).fr.open); sorted != [] && IsGoal(sorted[0].state, p.goal)
    ensures |Run(p, k).closed| >= EXPANSION_BUDGET
  {
    var rs := Run(p, k);
    var expanded := RunKeepsInvariant(p, k);
    RunKeepsCosts(p, k);
    forall m | m in rs.fr.open ensures m.f >= 12000 {
      HeadIsLeast(rs.fr.open, m);
      GoalIsDear(p, Sort(CompareNodes, rs.fr.open)[0]);
    }
    BudgetIsSpent(p, rs);
  }

  lemma GoalIsNotPopped(p: Problem, k: nat, r: Search)
    requires IsCube(p) && EndsAt(p, k, r)
    ensures !IsGoal(r.closed[k - 1].state, p.goal)
  {
    RunGrows(p, k);
    if IsGoal(r.closed[k - 1].state, p.goal) { GoalComesLate(p, k - 1); }
  }

  ghost predicate Reached(p: Problem, s: State) {
    exists acts :: UsesOnly(acts, p.actions) && Replay(p.start, p.goal, acts) == s
  }

  lemma ReachedNext(p: Problem, s: State, a: Action)
    requires Reached(p, s) && a in p.actions
    ensures Reached(p, Apply(s, a, p.goal))
  {
    var acts :| UsesOnly(acts, p.actions) && Replay(p.start, p.goal, acts) == s;
    assert (acts + [a])[..|acts + [a]| - 1] == acts;
    assert UsesOnly(acts + [a], p.actions) && Replay(p.start, p.goal, acts + [a]) == Apply(s, a, p.goal);
  }

  lemma {:induction false} CornerIsReached(p: Problem, a: nat, b: nat, c: nat, d: nat)
    requires IsCube(p) && a <= 3 && b <= 3 && c <= 3 && d <= 3
    ensures Reached(p, Corner(a, b, c, d))
    decreases a + b + c + d
  {
    if a + b + c + d == 0 {
      assert UsesOnly([], p.actions) && Replay(p.start, p.goal, []) == p.start;
    } else {
      var i, a', b', c', d' := CornerFollows(p, a, b, c, d);
      CornerIsReached(p, a', b', c', d');
      ReachedNext(p, Corner(a', b', c', d'), p.actions[i]);
    }
  }

  lemma GoalIsReachable(p: Problem)
    requires IsCube(p)
    ensures Reachable(p)
  {
    CornerIsReached(p, 3, 3, 3, 3);
    var acts :| UsesOnly(acts, p.actions) && Replay(p.start, p.goal, acts) == p.goal;
    assert IsGoal(p.goal, p.goal);
  }

  lemma CubeIsMissed(p: Problem, r: Search)
    requires IsCube(p) && IsSearchOf(p, r)
    ensures Reachable(p) && !IsGoal(r.selected.state, p.goal) && r.expansions == EXPANSION_BUDGET && r.open != []
  {
    var k: nat :| EndsAt(p, k, r);
    GoalIsNotPopped(p, k, r);
    GoalIsReachable(p);
    SearchIsComplete(p, r);
    assert p.start.At(Contract) < p.goal.At(Contract);
  }

  /** The budget does cost completeness: here the goal is reachable, and every search spends its budget and misses it. */
  lemma BudgetMissesGoal(r: Search)
    requires IsSearchOf(Cube(), r)
    ensures ValidProblem(Cube()) && Reachable(Cube()) && !IsGoal(r.selected.state, Cube().goal)
    ensures r.expansions == EXPANSION_BUDGET && r.open != []
  {
    CubeIsCube();
    CubeIsMissed(Cube(), r);
  }
}
