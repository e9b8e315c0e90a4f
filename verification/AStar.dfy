/**
 * The planner's best-first search (`runAStar`) and the independent route evaluator
 * (`evaluateRoutePath`) over the lattice.
 */
module AStar {
  import opened Sequences
  import opened Lattice
  import opened Wrappers

  /** A step keeps the action it came from and the state it led to. */
  datatype Step = Step(action: Action, after: State)

  datatype Node = Node(state: State, costs: Costs, h: int, f: int, steps: seq<Step>)

  /** A scored path, as the report lists it. */
  datatype Candidate = Candidate(id: string, steps: seq<Step>, finalState: State, complete: bool,
                                 costs: Costs, h: int, f: int)

  const EXPANSION_BUDGET: nat := 64

  const ASTAR_ID := "astar_frontier_path"

  function ActionsOf(steps: seq<Step>): seq<Action> {
    seq(|steps|, i requires 0 <= i < |steps| => steps[i].action)
  }

  /** The steps a route records while it is performed. */
  function StepsOf(start: State, goal: State, acts: seq<Action>): seq<Step> {
    if acts == [] then []
    else StepsOf(start, goal, acts[..|acts| - 1]) + [Step(acts[|acts| - 1], Replay(start, goal, acts))]
  }

  lemma {:induction false} StepsOfActions(start: State, goal: State, acts: seq<Action>)
    ensures ActionsOf(StepsOf(start, goal, acts)) == acts
  {
    if acts != [] {
      StepsOfActions(start, goal, acts[..|acts| - 1]);
      assert acts == acts[..|acts| - 1] + [acts[|acts| - 1]];
      assert ActionsOf(StepsOf(start, goal, acts))
          == ActionsOf(StepsOf(start, goal, acts[..|acts| - 1])) + [acts[|acts| - 1]];
    }
  }

  // ----- state keys -----

  function Digit(n: int): char
    requires 0 <= n <= 3
  {
    "0123"[n]
  }

  function StateKey(s: State): string
    requires Clamped(s)
  {
    assert 0 <= s.At(Contract) <= 3 && 0 <= s.At(Context) <= 3 && 0 <= s.At(Implementation) <= 3
        && 0 <= s.At(Verification) <= 3 && 0 <= s.At(Review) <= 3;
    "contract:" + [Digit(s.contract)] + "|context:" + [Digit(s.context)]
    + "|implementation:" + [Digit(s.implementation)] + "|verification:" + [Digit(s.verification)]
    + "|review:" + [Digit(s.review)]
  }

  lemma KeyDigits(s: State)
    requires Clamped(s)
    ensures |StateKey(s)| == 61
    ensures var k := StateKey(s);
            [k[9], k[19], k[36], k[51], k[60]]
            == [Digit(s.At(Contract)), Digit(s.At(Context)), Digit(s.At(Implementation)), Digit(s.At(Verification)), Digit(s.At(Review))]
  {}

  lemma DigitIsInjective(m: int, n: int)
    requires 0 <= m <= 3 && 0 <= n <= 3 && Digit(m) == Digit(n)
    ensures m == n
  {}

  /** Keys identify states, so a map from keys is a map from states. */
  lemma StateKeyIsInjective(s: State, t: State)
    requires Clamped(s) && Clamped(t) && StateKey(s) == StateKey(t)
    ensures s == t
  {
    KeyDigits(s);
    KeyDigits(t);
    var k := StateKey(s);
    DigitIsInjective(s.At(Contract), t.At(Contract));
    DigitIsInjective(s.At(Context), t.At(Context));
    DigitIsInjective(s.At(Implementation), t.At(Implementation));
    DigitIsInjective(s.At(Verification), t.At(Verification));
    DigitIsInjective(s.At(Review), t.At(Review));
  }

  /** Keys differ only in their digits, so collating them compares the axes in order. */
  function CompareKeys(s: State, t: State): int {
    if s.contract != t.contract then s.contract - t.contract
    else if s.context != t.context then s.context - t.context
    else if s.implementation != t.implementation then s.implementation - t.implementation
    else if s.verification != t.verification then s.verification - t.verification
    else s.review - t.review
  }

  function CompareNodes(a: Node, b: Node): int {
    if a.f != b.f then a.f - b.f
    else if a.h != b.h then a.h - b.h
    else if a.costs.risk != b.costs.risk then a.costs.risk - b.costs.risk
    else if a.costs.friction != b.costs.friction then a.costs.friction - b.costs.friction
    else if b.costs.infoGain != a.costs.infoGain then b.costs.infoGain - a.costs.infoGain
    else CompareKeys(a.state, b.state)
  }

  function NodeScore(n: Node): int { n.f }

  // ----- one expansion -----

  function MakeNode(s: State, goal: State, w: Weights, costs: Costs, steps: seq<Step>): Node {
    var h := ProofDebt(s, goal, w);
    Node(s, costs, h, Score(costs, h), steps)
  }

  function Root(start: State, goal: State, w: Weights): Node {
    MakeNode(start, goal, w, NO_COSTS, [])
  }

  /** What the search remembers between pops: the open list and the cheapest known g of each state. */
  datatype Frontier = Frontier(open: seq<Node>, best: map<State, int>)

  /** One turn of the loop over the actions. */
  function Relax(fr: Frontier, current: Node, a: Action, goal: State, w: Weights): Frontier {
    var next := Apply(current.state, a, goal);
    var costs := Charge(current.costs, a, w);
    if next in fr.best && fr.best[next] <= costs.g then fr
    else Frontier(fr.open + [MakeNode(next, goal, w, costs, current.steps + [Step(a, next)])],
                  fr.best[next := costs.g])
  }

  function RelaxAll(fr: Frontier, current: Node, acts: seq<Action>, goal: State, w: Weights): Frontier {
    if acts == [] then fr
    else Relax(RelaxAll(fr, current, acts[..|acts| - 1], goal, w), current, acts[|acts| - 1], goal, w)
  }

  /** A search problem as `buildDecisionLatticeReport` normalises it. */
  datatype Problem = Problem(start: State, goal: State, actions: seq<Action>, w: Weights)

  predicate ValidProblem(p: Problem) {
    Clamped(p.start) && Clamped(p.goal) && ValidActions(p.actions) && ValidWeights(p.w)
  }

  /** A run so far: the frontier and the nodes popped, in order. */
  datatype RunState = RunState(fr: Frontier, closed: seq<Node>)

  /** Sorts the open list, pops its head and relaxes every action from it. */
  function ExpandNext(p: Problem, rs: RunState): RunState {
    var sorted := Sort(CompareNodes, rs.fr.open);
    if sorted == [] then rs
    else RunState(RelaxAll(Frontier(sorted[1..], rs.fr.best), sorted[0], p.actions, p.goal, p.w), rs.closed + [sorted[0]])
  }

  /** The run after `k` expansions. */
  function Run(p: Problem, k: nat): RunState {
    if k == 0 then RunState(Frontier([Root(p.start, p.goal, p.w)], map[p.start := 0]), [])
    else ExpandNext(p, Run(p, k - 1))
  }

  // ----- what the search keeps true -----

  /** The node's state, costs and scores are those of performing its steps from the start. */
  predicate Faithful(p: Problem, n: Node) {
    var acts := ActionsOf(n.steps);
    && (forall a :: a in acts ==> a in p.actions)
    && n.steps == StepsOf(p.start, p.goal, acts)
    && n == MakeNode(Replay(p.start, p.goal, acts), p.goal, p.w, Tally(acts, p.w), n.steps)
    && Clamped(n.state)
    && n.costs.g >= 0
  }

  predicate AllFaithful(p: Problem, nodes: seq<Node>) {
    forall n :: n in nodes ==> Faithful(p, n)
  }

  ghost predicate ValidBest(best: map<State, int>) {
    forall s :: s in best ==> Clamped(s) && best[s] >= 0
  }

  ghost function States(nodes: seq<Node>): set<State> {
    set n | n in nodes :: n.state
  }

  ghost predicate ValidFrontier(p: Problem, fr: Frontier) {
    AllFaithful(p, fr.open) && ValidBest(fr.best) && p.start in fr.best
  }

  /** The expanded states are known non-goals, and every action leads from them into `best`. */
  ghost predicate ClosedUnder(p: Problem, expanded: set<State>, acts: seq<Action>, best: map<State, int>) {
    forall s, a :: s in expanded && a in acts ==> Apply(s, a, p.goal) in best
  }

  ghost predicate NoneIsGoal(p: Problem, states: set<State>) {
    forall s :: s in states ==> !IsGoal(s, p.goal)
  }

  /** Every recorded state is still open or already expanded. */
  ghost predicate Covered(fr: Frontier, expanded: set<State>) {
    forall s :: s in fr.best ==> s in expanded || s in States(fr.open)
  }

  ghost predicate Invariant(p: Problem, fr: Frontier, expanded: set<State>) {
    && ValidFrontier(p, fr)
    && ClosedUnder(p, expanded, p.actions, fr.best)
    && NoneIsGoal(p, expanded)
    && Covered(fr, expanded)
  }

  lemma ChildIsFaithful(p: Problem, current: Node, a: Action)
    requires ValidProblem(p) && Faithful(p, current) && a in p.actions
    ensures var next := Apply(current.state, a, p.goal);
            Faithful(p, MakeNode(next, p.goal, p.w, Charge(current.costs, a, p.w), current.steps + [Step(a, next)]))
  {
    var acts := ActionsOf(current.steps);
    var next := Apply(current.state, a, p.goal);
    var steps := current.steps + [Step(a, next)];
    assert ActionsOf(steps) == acts + [a];
    assert (acts + [a])[..|acts + [a]| - 1] == acts;
    assert ValidAction(a);
    ApplyStaysClamped(current.state, a, p.goal);
    RoundShifts(current.costs.g, p.w.step);
  }

  ghost predicate UsesOnly(acts: seq<Action>, actions: seq<Action>) {
    forall a :: a in acts ==> a in actions
  }

  /** Nothing recorded or open is dropped, and every newly recorded state is open. */
  ghost predicate Extends(fr: Frontier, fr': Frontier) {
    && fr.best.Keys <= fr'.best.Keys
    && fr.open <= fr'.open
    && forall s :: s in fr'.best ==> s in fr.best || s in States(fr'.open)
  }

  lemma ExtendsTwice(a: Frontier, b: Frontier, c: Frontier)
    requires Extends(a, b) && Extends(b, c)
    ensures Extends(a, c)
  {
    assert States(b.open) <= States(c.open);
  }

  /** Relaxing one action keeps the frontier valid and records the successor. */
  lemma RelaxKeeps(p: Problem, fr: Frontier, current: Node, a: Action)
    requires ValidProblem(p) && ValidFrontier(p, fr) && Faithful(p, current) && a in p.actions
    ensures var fr' := Relax(fr, current, a, p.goal, p.w);
            ValidFrontier(p, fr') && Extends(fr, fr') && Apply(current.state, a, p.goal) in fr'.best
  {
    ChildIsFaithful(p, current, a);
    var next := Apply(current.state, a, p.goal);
    var fr' := Relax(fr, current, a, p.goal, p.w);
    if fr' != fr {
      var child := fr'.open[|fr'.open| - 1];
      assert child in fr'.open && child.state == next;
    }
  }

  lemma {:induction false} RelaxAllKeeps(p: Problem, fr: Frontier, current: Node, acts: seq<Action>)
    requires ValidProblem(p) && ValidFrontier(p, fr) && Faithful(p, current)
    requires UsesOnly(acts, p.actions)
    ensures var fr' := RelaxAll(fr, current, acts, p.goal, p.w);
            ValidFrontier(p, fr') && Extends(fr, fr') && forall a :: a in acts ==> Apply(current.state, a, p.goal) in fr'.best
  {
    if acts != [] {
      var front, last := acts[..|acts| - 1], acts[|acts| - 1];
      assert acts == front + [last];
      RelaxAllKeeps(p, fr, current, front);
      var mid := RelaxAll(fr, current, front, p.goal, p.w);
      RelaxKeeps(p, mid, current, last);
      ExtendsTwice(fr, mid, Relax(mid, current, last, p.goal, p.w));
    }
  }

  /** Popping a non-goal and relaxing all its actions keeps the search invariant. */
  lemma ExpansionKeepsInvariant(p: Problem, fr: Frontier, expanded: set<State>)
    requires ValidProblem(p) && Invariant(p, fr, expanded) && fr.open != [] && !IsGoal(fr.open[0].state, p.goal)
    ensures var current := fr.open[0];
            Invariant(p, RelaxAll(Frontier(fr.open[1..], fr.best), current, p.actions, p.goal, p.w), expanded + {current.state})
  {
    var current, popped := fr.open[0], Frontier(fr.open[1..], fr.best);
    assert fr.open == [current] + popped.open;
    RelaxAllKeeps(p, popped, current, p.actions);
    var fr' := RelaxAll(popped, current, p.actions, p.goal, p.w);
    assert States(fr.open) == {current.state} + States(popped.open);
    assert States(popped.open) <= States(fr'.open);
  }

  /** When nothing is open any more, no finite sequence of actions reaches the goal. */
  lemma {:induction false} ExhaustionIsComplete(p: Problem, fr: Frontier, expanded: set<State>, acts: seq<Action>)
    requires Invariant(p, fr, expanded) && fr.open == []
    requires UsesOnly(acts, p.actions)
    ensures Replay(p.start, p.goal, acts) in expanded
    ensures !IsGoal(Replay(p.start, p.goal, acts), p.goal)
  {
    if acts == [] {
      assert p.start in fr.best;
    } else {
      ExhaustionIsComplete(p, fr, expanded, acts[..|acts| - 1]);
      assert acts[|acts| - 1] in p.actions;
    }
  }

  /** Some finite sequence of the actions leads from the start to a goal state. */
  ghost predicate Reachable(p: Problem) {
    exists acts :: UsesOnly(acts, p.actions) && IsGoal(Replay(p.start, p.goal, acts), p.goal)
  }

  lemma FaithfulGoalIsReachable(p: Problem, n: Node)
    requires Faithful(p, n) && IsGoal(n.state, p.goal)
    ensures Reachable(p)
  {
    assert UsesOnly(ActionsOf(n.steps), p.actions);
  }

  lemma ExhaustedMeansUnreachable(p: Problem, fr: Frontier, expanded: set<State>)
    requires Invariant(p, fr, expanded) && fr.open == []
    ensures !Reachable(p)
  {
    forall acts | UsesOnly(acts, p.actions) ensures !IsGoal(Replay(p.start, p.goal, acts), p.goal) {
      ExhaustionIsComplete(p, fr, expanded, acts);
    }
  }

  // ----- why the search ends without its budget -----

  /** Every state the search can record. */
  ghost function Universe(): set<State> {
    set a, b, c, d, e | 0 <= a <= 3 && 0 <= b <= 3 && 0 <= c <= 3 && 0 <= d <= 3 && 0 <= e <= 3 :: State(a, b, c, d, e)
  }

  lemma ClampedIsInUniverse(s: State)
    requires Clamped(s)
    ensures s in Universe()
  {
    assert 0 <= s.At(Contract) <= 3 && 0 <= s.At(Context) <= 3 && 0 <= s.At(Implementation) <= 3
        && 0 <= s.At(Verification) <= 3 && 0 <= s.At(Review) <= 3;
    assert s == State(s.contract, s.context, s.implementation, s.verification, s.review);
  }

  /** The sum of all recorded costs. */
  ghost function Recorded(best: map<State, int>): nat
    requires ValidBest(best)
    decreases |best|
  {
    if best == map[] then 0
    else
      var s :| s in best;
      best[s] + Recorded(best - {s})
  }

  lemma {:induction false} RecordedSplits(best: map<State, int>, s: State)
    requires ValidBest(best) && s in best
    ensures Recorded(best) == best[s] + Recorded(best - {s})
    decreases |best|
  {
    var t :| t in best && Recorded(best) == best[t] + Recorded(best - {t});
    if s != t {
      RecordedSplits(best - {t}, s);
      RecordedSplits(best - {s}, t);
      assert best - {t} - {s} == best - {s} - {t};
    }
  }

  /** `later` is the same frontier, or has recorded a new state, or has lowered a recorded cost. */
  ghost predicate Progress(before: Frontier, later: Frontier)
    requires ValidBest(before.best) && ValidBest(later.best)
  {
    || later == before
    || before.best.Keys < later.best.Keys
    || (before.best.Keys == later.best.Keys && Recorded(later.best) < Recorded(before.best))
  }

  lemma RelaxProgresses(p: Problem, fr: Frontier, current: Node, a: Action)
    requires ValidProblem(p) && ValidFrontier(p, fr) && Faithful(p, current) && a in p.actions
    ensures ValidBest(Relax(fr, current, a, p.goal, p.w).best)
    ensures Progress(fr, Relax(fr, current, a, p.goal, p.w))
  {
    RelaxKeeps(p, fr, current, a);
    var next := Apply(current.state, a, p.goal);
    var fr' := Relax(fr, current, a, p.goal, p.w);
    if fr' != fr && next in fr.best {
      RecordedSplits(fr.best, next);
      RecordedSplits(fr'.best, next);
      assert fr.best - {next} == fr'.best - {next};
    }
  }

  lemma {:induction false} RelaxAllProgresses(p: Problem, fr: Frontier, current: Node, acts: seq<Action>)
    requires ValidProblem(p) && ValidFrontier(p, fr) && Faithful(p, current)
    requires UsesOnly(acts, p.actions)
    ensures ValidBest(RelaxAll(fr, current, acts, p.goal, p.w).best)
    ensures Progress(fr, RelaxAll(fr, current, acts, p.goal, p.w))
  {
    if acts != [] {
      RelaxAllProgresses(p, fr, current, acts[..|acts| - 1]);
      RelaxAllKeeps(p, fr, current, acts[..|acts| - 1]);
      RelaxProgresses(p, RelaxAll(fr, current, acts[..|acts| - 1], p.goal, p.w), current, acts[|acts| - 1]);
    }
  }

  lemma BestStaysInUniverse(best: map<State, int>)
    requires ValidBest(best)
    ensures best.Keys <= Universe()
  {
    forall s | s in best ensures s in Universe() { ClampedIsInUniverse(s); }
  }

  /** Lower in (states not recorded yet, sum of recorded costs, open nodes), lexicographically. */
  ghost predicate Lower(fr': Frontier, fr: Frontier) {
    && ValidBest(fr.best) && ValidBest(fr'.best)
    && (|| |Universe() - fr'.best.Keys| < |Universe() - fr.best.Keys|
        || (fr'.best.Keys == fr.best.Keys && Recorded(fr'.best) < Recorded(fr.best))
        || (fr'.best == fr.best && |fr'.open| < |fr.open|))
  }

  lemma ProgressIsLower(fr: Frontier, popped: Frontier, fr': Frontier)
    requires ValidBest(fr.best) && ValidBest(fr'.best) && popped.best == fr.best && |popped.open| < |fr.open| && Progress(popped, fr')
    ensures Lower(fr', fr)
  {
    if fr.best.Keys < fr'.best.Keys {
      BestStaysInUniverse(fr'.best);
      assert Universe() - fr.best.Keys == (Universe() - fr'.best.Keys) + (fr'.best.Keys - fr.best.Keys);
      assert fr'.best.Keys - fr.best.Keys != {};
    }
  }

  /** An expansion lowers the measure. */
  lemma ExpansionDropsMeasure(p: Problem, fr: Frontier)
    requires ValidProblem(p) && ValidFrontier(p, fr) && fr.open != []
    ensures Lower(RelaxAll(Frontier(fr.open[1..], fr.best), fr.open[0], p.actions, p.goal, p.w), fr)
  {
    var popped := Frontier(fr.open[1..], fr.best);
    assert AllFaithful(p, popped.open);
    RelaxAllProgresses(p, popped, fr.open[0], p.actions);
    ProgressIsLower(fr, popped, RelaxAll(popped, fr.open[0], p.actions, p.goal, p.w));
  }

  // ----- whole runs -----

  ghost predicate NoGoalIn(p: Problem, closed: seq<Node>) {
    forall n :: n in closed ==> !IsGoal(n.state, p.goal)
  }

  lemma RootIsFaithful(p: Problem)
    requires ValidProblem(p)
    ensures Faithful(p, Root(p.start, p.goal, p.w))
  {}

  /** The last of `k` pops came after the first `k - 1`. */
  lemma RunGrows(p: Problem, k: nat)
    requires k >= 1 && |Run(p, k).closed| == k
    ensures Run(p, k - 1).closed == Run(p, k).closed[..k - 1]
  {
    RunIsShort(p, k - 1);
  }

  lemma {:induction false} RunIsShort(p: Problem, k: nat)
    ensures |Run(p, k).closed| <= k
  {
    if k > 0 {
      RunIsShort(p, k - 1);
    }
  }

  lemma SortKeepsInvariant(p: Problem, fr: Frontier, expanded: set<State>)
    requires Invariant(p, fr, expanded)
    ensures Invariant(p, fr.(open := Sort(CompareNodes, fr.open)), expanded)
    ensures |Sort(CompareNodes, fr.open)| == |fr.open|
  {
    var sorted := Sort(CompareNodes, fr.open);
    SortPermutes(CompareNodes, fr.open);
    forall n ensures n in sorted <==> n in fr.open {
      assert n in multiset(sorted) <==> n in multiset(fr.open);
    }
    assert States(sorted) == States(fr.open);
  }

  lemma ExpandNextKeepsInvariant(p: Problem, rs: RunState, expanded: set<State>) returns (expanded': set<State>)
    requires ValidProblem(p) && Invariant(p, rs.fr, expanded) && AllFaithful(p, rs.closed)
    requires NoGoalIn(p, ExpandNext(p, rs).closed)
    ensures Invariant(p, ExpandNext(p, rs).fr, expanded')
    ensures AllFaithful(p, ExpandNext(p, rs).closed)
  {
    SortKeepsInvariant(p, rs.fr, expanded);
    var sorted := Sort(CompareNodes, rs.fr.open);
    if sorted == [] {
      expanded' := expanded;
    } else {
      assert sorted[0] in ExpandNext(p, rs).closed;
      ExpansionKeepsInvariant(p, rs.fr.(open := sorted), expanded);
      expanded' := expanded + {sorted[0].state};
    }
  }

  /** Every run that has not popped a goal satisfies the invariant; its expanded states are the witness. */
  lemma {:induction false} RunKeepsInvariant(p: Problem, k: nat) returns (expanded: set<State>)
    requires ValidProblem(p) && NoGoalIn(p, Run(p, k).closed)
    ensures Invariant(p, Run(p, k).fr, expanded)
    ensures AllFaithful(p, Run(p, k).closed)
  {
    if k == 0 {
      expanded := {};
      RootIsFaithful(p);
      assert p.start in States(Run(p, 0).fr.open) by {
        assert Root(p.start, p.goal, p.w) in Run(p, 0).fr.open;
      }
    } else {
      assert Run(p, k - 1).closed <= Run(p, k).closed;
      var before := RunKeepsInvariant(p, k - 1);
      expanded := ExpandNextKeepsInvariant(p, Run(p, k - 1), before);
    }
  }

  lemma RunUnfolds(p: Problem, k: nat, fr: Frontier, closed: seq<Node>, sorted: seq<Node>)
    requires Run(p, k) == RunState(fr, closed) && sorted == Sort(CompareNodes, fr.open) && sorted != []
    ensures Run(p, k + 1).closed == closed + [sorted[0]]
    ensures Run(p, k + 1).fr == RelaxAll(Frontier(sorted[1..], fr.best), sorted[0], p.actions, p.goal, p.w)
  {}

  lemma MeasureDrops(p: Problem, fr: Frontier, expanded: set<State>)
    requires ValidProblem(p) && Invariant(p, fr, expanded) && fr.open != []
    ensures var sorted := Sort(CompareNodes, fr.open);
            sorted != [] && Lower(RelaxAll(Frontier(sorted[1..], fr.best), sorted[0], p.actions, p.goal, p.w), fr)
  {
    var sorted := Sort(CompareNodes, fr.open);
    SortKeepsInvariant(p, fr, expanded);
    ExpansionDropsMeasure(p, fr.(open := sorted));
    LowerThanSorted(RelaxAll(Frontier(sorted[1..], fr.best), sorted[0], p.actions, p.goal, p.w), fr, sorted);
  }

  lemma LowerThanSorted(fr': Frontier, fr: Frontier, sorted: seq<Node>)
    requires |sorted| == |fr.open| && Lower(fr', fr.(open := sorted))
    ensures Lower(fr', fr)
  {}

  // ----- the search itself -----

  /** Result of the search: the selected node, the open and closed lists, and the number of the last snapshot. */
  datatype Search = Search(selected: Node, open: seq<Node>, closed: seq<Node>, expansions: nat)

  /** The loop over the actions: pushes every successor that is new or cheaper than recorded. */
  method ExpandNode(p: Problem, current: Node, open0: seq<Node>, best0: map<State, int>)
    returns (open: seq<Node>, best: map<State, int>)
    ensures Frontier(open, best) == RelaxAll(Frontier(open0, best0), current, p.actions, p.goal, p.w)
  {
    open, best := open0, best0;
    for i := 0 to |p.actions|
      invariant Frontier(open, best) == RelaxAll(Frontier(open0, best0), current, p.actions[..i], p.goal, p.w)
    {
      var action := p.actions[i];
      assert p.actions[..i + 1][..i] == p.actions[..i];
      var next := Apply(current.state, action, p.goal);
      var costs := Charge(current.costs, action, p.w);
      if next in best && best[next] <= costs.g { continue; }
      best := best[next := costs.g];
      open := open + [MakeNode(next, p.goal, p.w, costs, current.steps + [Step(action, next)])];
    }
    assert p.actions[..|p.actions|] == p.actions;
  }

  /**
   * What the search returns. It expands until it pops a goal, nothing is open or the
   * budget is spent, and selects the goal it popped or else the start.
   */
  ghost predicate IsSearchOf(p: Problem, r: Search) {
    exists k: nat :: EndsAt(p, k, r)
  }

  ghost predicate EndsAt(p: Problem, k: nat, r: Search) {
    && 1 <= k == |r.closed| == r.expansions <= EXPANSION_BUDGET
    && r.closed == Run(p, k).closed
    && NoGoalIn(p, r.closed[..k - 1])
    && var last := r.closed[k - 1];
       if IsGoal(last.state, p.goal) then
         [last] + r.open == Sort(CompareNodes, Run(p, k - 1).fr.open) && r.selected == last
       else
         && r.open == Run(p, k).fr.open && r.selected == Root(p.start, p.goal, p.w)
         && (r.open == [] || k == EXPANSION_BUDGET)
  }

  /** What the search loop keeps: the lists are those of some run that has popped no goal. */
  ghost predicate AtLoop(p: Problem, fr: Frontier, closed: seq<Node>) {
    ValidBest(fr.best) && exists k: nat :: IsRunning(p, k, fr, closed)
  }

  ghost predicate IsRunning(p: Problem, k: nat, fr: Frontier, closed: seq<Node>) {
    && k == |closed| <= EXPANSION_BUDGET && Run(p, k) == RunState(fr, closed) && NoGoalIn(p, closed)
    && (closed == [] ==> fr.open != [])
  }

  lemma RunningStops(p: Problem, k: nat, fr: Frontier, closed: seq<Node>, sorted: seq<Node>)
    requires IsRunning(p, k, fr, closed) && k < EXPANSION_BUDGET
    requires sorted == Sort(CompareNodes, fr.open) && sorted != [] && IsGoal(sorted[0].state, p.goal)
    ensures EndsAt(p, k + 1, Search(sorted[0], sorted[1..], closed + [sorted[0]], k + 1))
  {
    RunUnfolds(p, k, fr, closed, sorted);
    assert (closed + [sorted[0]])[..k] == closed && [sorted[0]] + sorted[1..] == sorted && k + 1 - 1 == k;
  }

  /** Popping a goal ends the search. */
  lemma StopsAtGoal(p: Problem, fr: Frontier, closed: seq<Node>, sorted: seq<Node>)
    requires AtLoop(p, fr, closed) && |closed| < EXPANSION_BUDGET
    requires sorted == Sort(CompareNodes, fr.open) && sorted != [] && IsGoal(sorted[0].state, p.goal)
    ensures IsSearchOf(p, Search(sorted[0], sorted[1..], closed + [sorted[0]], |closed| + 1))
  {
    var k: nat :| IsRunning(p, k, fr, closed);
    RunningStops(p, k, fr, closed, sorted);
  }

  lemma StopsElsewhere(p: Problem, k: nat, fr: Frontier, closed: seq<Node>)
    requires IsRunning(p, k, fr, closed) && (fr.open == [] || k == EXPANSION_BUDGET)
    ensures IsSearchOf(p, Search(Root(p.start, p.goal, p.w), fr.open, closed, k))
  {
    assert closed[k - 1] in closed;
    assert EndsAt(p, k, Search(Root(p.start, p.goal, p.w), fr.open, closed, k));
  }

  lemma LoopStarts(p: Problem)
    requires ValidProblem(p)
    ensures AtLoop(p, Frontier([Root(p.start, p.goal, p.w)], map[p.start := 0]), [])
  {
    assert IsRunning(p, 0, Frontier([Root(p.start, p.goal, p.w)], map[p.start := 0]), []);
  }

  lemma RunningGoesOn(p: Problem, k: nat, fr: Frontier, closed: seq<Node>, sorted: seq<Node>, fr': Frontier)
    requires IsRunning(p, k, fr, closed) && k < EXPANSION_BUDGET
    requires sorted == Sort(CompareNodes, fr.open) && sorted != [] && !IsGoal(sorted[0].state, p.goal)
    requires fr' == RelaxAll(Frontier(sorted[1..], fr.best), sorted[0], p.actions, p.goal, p.w)
    ensures IsRunning(p, k + 1, fr', closed + [sorted[0]])
  {
    RunUnfolds(p, k, fr, closed, sorted);
  }

  /** Unless the popped node is a goal the loop goes on. */
  lemma GoesOn(p: Problem, fr: Frontier, closed: seq<Node>, sorted: seq<Node>, fr': Frontier)
    requires AtLoop(p, fr, closed) && |closed| < EXPANSION_BUDGET
    requires sorted == Sort(CompareNodes, fr.open) && sorted != [] && !IsGoal(sorted[0].state, p.goal)
    requires fr' == RelaxAll(Frontier(sorted[1..], fr.best), sorted[0], p.actions, p.goal, p.w) && ValidBest(fr'.best)
    ensures AtLoop(p, fr', closed + [sorted[0]])
  {
    var k: nat :| IsRunning(p, k, fr, closed);
    RunningGoesOn(p, k, fr, closed, sorted, fr');
  }

  /** There is a node to pop, and relaxing its actions lowers the measure. */
  lemma TurnLowers(p: Problem, fr: Frontier, closed: seq<Node>, sorted: seq<Node>)
    requires ValidProblem(p) && AtLoop(p, fr, closed) && fr.open != [] && sorted == Sort(CompareNodes, fr.open)
    ensures sorted != [] && Lower(RelaxAll(Frontier(sorted[1..], fr.best), sorted[0], p.actions, p.goal, p.w), fr)
  {
    var k: nat :| IsRunning(p, k, fr, closed);
    var expanded := RunKeepsInvariant(p, k);
    MeasureDrops(p, fr, expanded);
  }

  lemma LoopEnds(p: Problem, fr: Frontier, closed: seq<Node>)
    requires AtLoop(p, fr, closed) && (fr.open == [] || |closed| == EXPANSION_BUDGET)
    ensures IsSearchOf(p, Search(Root(p.start, p.goal, p.w), fr.open, closed, |closed|))
  {
    var k: nat :| IsRunning(p, k, fr, closed);
    StopsElsewhere(p, k, fr, closed);
  }

  /**
   * The loop's termination measure does not mention the budget: an expansion that does
   * not merely shrink the open list records a new state or lowers a recorded cost.
   */
  method RunAStar(p: Problem) returns (r: Search)
    requires ValidProblem(p)
    ensures IsSearchOf(p, r)
  {
    var root := Root(p.start, p.goal, p.w);
    var open, best: map<State, int>, closed: seq<Node> := [root], map[p.start := 0], [];
    LoopStarts(p);
    while open != [] && |closed| < EXPANSION_BUDGET
      invariant AtLoop(p, Frontier(open, best), closed) && |closed| <= EXPANSION_BUDGET
      decreases |Universe() - best.Keys|, Recorded(best), |open|
    {
      ghost var fr, before := Frontier(open, best), closed;
      open := Sort(CompareNodes, open);
      TurnLowers(p, fr, closed, open);
      ghost var sorted := open;
      var current := open[0];
      if IsGoal(current.state, p.goal) { StopsAtGoal(p, fr, closed, sorted); }
      open := open[1..];
      closed := closed + [current];
      if IsGoal(current.state, p.goal) {
        return Search(current, open, closed, |closed|);
      }
      open, best := ExpandNode(p, current, open, best);
      GoesOn(p, fr, before, sorted, Frontier(open, best));
    }
    LoopEnds(p, Frontier(open, best), closed);
    r := Search(root, open, closed, |closed|);
  }

  /** Every node the search ever opened or closed is the replay of its own steps. */
  lemma SearchIsSound(p: Problem, r: Search)
    requires ValidProblem(p) && IsSearchOf(p, r)
    ensures AllFaithful(p, r.open) && AllFaithful(p, r.closed) && Faithful(p, r.selected)
    ensures IsGoal(r.selected.state, p.goal) ==> Reachable(p)
    ensures IsGoal(r.selected.state, p.goal) || r.selected.steps == []
  {
    var k := r.expansions;
    var last := r.closed[k - 1];
    RunGrows(p, k);
    RootIsFaithful(p);
    var expanded := RunKeepsInvariant(p, k - 1);
    SortKeepsInvariant(p, Run(p, k - 1).fr, expanded);
    assert r.closed == r.closed[..k - 1] + [last];
    if IsGoal(last.state, p.goal) {
      assert last in Sort(CompareNodes, Run(p, k - 1).fr.open);
      forall n | n in r.open ensures Faithful(p, n) {
        assert n in Sort(CompareNodes, Run(p, k - 1).fr.open);
      }
      FaithfulGoalIsReachable(p, last);
    } else {
      var all := RunKeepsInvariant(p, k);
    }
  }

  lemma NotAtGoal(p: Problem, k: nat, r: Search)
    requires ValidProblem(p) && EndsAt(p, k, r) && r.open == [] && !IsGoal(r.closed[k - 1].state, p.goal)
    ensures !Reachable(p)
  {
    assert r.closed == r.closed[..k - 1] + [r.closed[k - 1]];
    var expanded := RunKeepsInvariant(p, k);
    ExhaustedMeansUnreachable(p, Run(p, k).fr, expanded);
  }

  /** A goal is only ever missed by spending the whole budget with nodes still open; no other run leaves reachability undecided. */
  lemma SearchIsComplete(p: Problem, r: Search)
    requires ValidProblem(p) && IsSearchOf(p, r)
    ensures IsGoal(r.selected.state, p.goal) ==> Reachable(p)
    ensures Reachable(p) && !IsGoal(r.selected.state, p.goal) ==> r.expansions == EXPANSION_BUDGET && r.open != []
  {
    SearchIsSound(p, r);
    var k: nat :| EndsAt(p, k, r);
    if !IsGoal(r.closed[k - 1].state, p.goal) && r.open == [] { NotAtGoal(p, k, r); }
  }

  /** Each expansion appends to the closed list an open node of least score. */
  lemma PopTakesLeastScore(p: Problem, rs: RunState)
    requires rs.fr.open != []
    ensures exists n :: n in rs.fr.open && ExpandNext(p, rs).closed == rs.closed + [n]
                        && forall m :: m in rs.fr.open ==> n.f <= m.f
  {
    var open := rs.fr.open;
    SortPermutes(CompareNodes, open);
    assert Leads(NodeScore, CompareNodes);
    SortHeadIsLeast(NodeScore, CompareNodes, open);
    var n := Sort(CompareNodes, open)[0];
    forall m | m in open ensures n.f <= m.f {
      assert NodeScore(n) <= NodeScore(m);
    }
    assert ExpandNext(p, rs).closed == rs.closed + [n];
  }

  // ----- the route evaluator -----

  /** `actionById.get(id)`: a later action with the same id replaces an earlier one. */
  function Lookup(actions: seq<Action>, id: string): Option<Action> {
    if actions == [] then None
    else if actions[|actions| - 1].id == id then Some(actions[|actions| - 1])
    else Lookup(actions[..|actions| - 1], id)
  }

  /** The actions a list of ids stands for; unknown ids are skipped. */
  function Resolve(actions: seq<Action>, ids: seq<string>): seq<Action> {
    if ids == [] then []
    else
      var front := Resolve(actions, ids[..|ids| - 1]);
      match Lookup(actions, ids[|ids| - 1])
      case None => front
      case Some(a) => front + [a]
  }

  function Evaluated(id: string, acts: seq<Action>, p: Problem): Candidate {
    var state := Replay(p.start, p.goal, acts);
    var h := ProofDebt(state, p.goal, p.w);
    Candidate(id, StepsOf(p.start, p.goal, acts), state, IsGoal(state, p.goal),
              Tally(acts, p.w), h, Score(Tally(acts, p.w), h))
  }

  /** The evaluator's accumulators after performing `acts`. */
  predicate Accumulates(p: Problem, acts: seq<Action>, state: State, costs: Costs, steps: seq<Step>) {
    costs == Tally(acts, p.w) && state == Replay(p.start, p.goal, acts) && steps == StepsOf(p.start, p.goal, acts)
  }

  lemma AccumulatesMore(p: Problem, acts: seq<Action>, state: State, costs: Costs, steps: seq<Step>, a: Action)
    requires Accumulates(p, acts, state, costs, steps)
    ensures var next := Apply(state, a, p.goal); Accumulates(p, acts + [a], next, Charge(costs, a, p.w), steps + [Step(a, next)])
  {
    assert (acts + [a])[..|acts + [a]| - 1] == acts;
  }

  lemma ResolveStep(actions: seq<Action>, ids: seq<string>, i: nat)
    requires i < |ids|
    ensures var found, done := Lookup(actions, ids[i]), Resolve(actions, ids[..i]);
            Resolve(actions, ids[..i + 1]) == if found.None? then done else done + [found.value]
  {
    assert ids[..i + 1][..i] == ids[..i];
  }

  method EvaluateRoutePath(id: string, ids: seq<string>, p: Problem) returns (c: Candidate)
    ensures c == Evaluated(id, Resolve(p.actions, ids), p)
  {
    var state := p.start;
    var g, risk, friction, infoGain := 0, 0, 0, 0;
    var steps: seq<Step> := [];
    for i := 0 to |ids|
      invariant Accumulates(p, Resolve(p.actions, ids[..i]), state, Costs(g, risk, friction, infoGain), steps)
    {
      ResolveStep(p.actions, ids, i);
      var found := Lookup(p.actions, ids[i]);
      if found.None? { continue; }
      var a := found.value;
      AccumulatesMore(p, Resolve(p.actions, ids[..i]), state, Costs(g, risk, friction, infoGain), steps, a);
      g := Round(Value(g) + p.w.step);
      risk := Round(Value(risk) + a.risk * p.w.risk);
      friction := Round(Value(friction) + a.friction * p.w.friction);
      infoGain := Round(Value(infoGain) + a.infoGain * p.w.infoGain);
      state := Apply(state, a, p.goal);
      steps := steps + [Step(a, state)];
    }
    assert ids[..|ids|] == ids;
    var h := ProofDebt(state, p.goal, p.w);
    var costs := Costs(g, risk, friction, infoGain);
    c := Candidate(id, steps, state, IsGoal(state, p.goal), costs, h, Score(costs, h));
  }

  function PathFromNode(n: Node): Candidate {
    Candidate(ASTAR_ID, n.steps, n.state, n.h == 0, n.costs, n.h, n.f)
  }

  predicate DistinctIds(actions: seq<Action>) {
    forall i, j :: 0 <= i < j < |actions| ==> actions[i].id != actions[j].id
  }

  function IdsOf(acts: seq<Action>): seq<string> {
    seq(|acts|, i requires 0 <= i < |acts| => acts[i].id)
  }

  lemma {:induction false} LookupFinds(actions: seq<Action>, a: Action)
    requires DistinctIds(actions) && a in actions
    ensures Lookup(actions, a.id) == Some(a)
  {
    var last := actions[|actions| - 1];
    if last != a {
      var i :| 0 <= i < |actions| && actions[i] == a;
      assert actions[..|actions| - 1][i] == a;
      LookupFinds(actions[..|actions| - 1], a);
    }
  }

  /** Every action is the one its id is looked up as. */
  predicate AreLookedUp(actions: seq<Action>, acts: seq<Action>) {
    forall a :: a in acts ==> Lookup(actions, a.id) == Some(a)
  }

  lemma DistinctAreLookedUp(actions: seq<Action>, acts: seq<Action>)
    requires DistinctIds(actions) && UsesOnly(acts, actions)
    ensures AreLookedUp(actions, acts)
  {
    forall a | a in acts ensures Lookup(actions, a.id) == Some(a) { LookupFinds(actions, a); }
  }

  lemma IdsOfMore(front: seq<Action>, last: Action)
    ensures IdsOf(front + [last]) == IdsOf(front) + [last.id]
  {}

  lemma ResolveMore(actions: seq<Action>, ids: seq<string>, id: string)
    ensures var found, done := Lookup(actions, id), Resolve(actions, ids);
            Resolve(actions, ids + [id]) == if found.None? then done else done + [found.value]
  {
    assert (ids + [id])[..|ids + [id]| - 1] == ids;
  }

  lemma LookedUpMore(actions: seq<Action>, front: seq<Action>, last: Action)
    ensures AreLookedUp(actions, front + [last]) <==> AreLookedUp(actions, front) && Lookup(actions, last.id) == Some(last)
  {
    assert forall a :: a in front + [last] <==> a in front || a == last;
  }

  lemma SameMore<T>(a: seq<T>, x: T, b: seq<T>, y: T)
    ensures a + [x] == b + [y] <==> a == b && x == y
  {
    if a + [x] == b + [y] {
      assert a == (a + [x])[..|a|] == (b + [y])[..|b|] == b;
      assert x == (a + [x])[|a|] == (b + [y])[|b|] == y;
    }
  }

  /** Resolving ids is no longer than the list, and gives the actions back exactly when each is looked up by its id. */
  lemma {:induction false} ResolveInvertsIds(actions: seq<Action>, acts: seq<Action>)
    ensures |Resolve(actions, IdsOf(acts))| <= |acts|
    ensures Resolve(actions, IdsOf(acts)) == acts <==> AreLookedUp(actions, acts)
  {
    if acts != [] {
      var front, last := acts[..|acts| - 1], acts[|acts| - 1];
      assert acts == front + [last];
      ResolveInvertsIds(actions, front);
      IdsOfMore(front, last);
      ResolveMore(actions, IdsOf(front), last.id);
      LookedUpMore(actions, front, last);
      var found := Lookup(actions, last.id);
      if found.Some? { SameMore(Resolve(actions, IdsOf(front)), found.value, front, last); }
    }
  }

  lemma FaithfulIsMade(p: Problem, n: Node)
    requires Faithful(p, n)
    ensures var acts := ActionsOf(n.steps);
            && (forall a :: a in acts ==> a in p.actions)
            && n.steps == StepsOf(p.start, p.goal, acts) && n.state == Replay(p.start, p.goal, acts) && n.costs == Tally(acts, p.w)
            && n.h == ProofDebt(n.state, p.goal, p.w) && n.f == Score(n.costs, n.h)
  {}

  lemma EvaluatedIsPath(p: Problem, n: Node)
    requires Faithful(p, n)
    ensures Evaluated(ASTAR_ID, ActionsOf(n.steps), p) == PathFromNode(n).(complete := IsGoal(n.state, p.goal))
  {
    FaithfulIsMade(p, n);
  }

  lemma PathFlagsAgree(p: Problem, n: Node)
    requires ValidWeights(p.w) && n.h == ProofDebt(n.state, p.goal, p.w)
    ensures IsGoal(n.state, p.goal) == PathFromNode(n).complete
            <==> Debt(n.state, p.goal) == 0 || Debt(n.state, p.goal) as real * p.w.proofDebt >= 0.0005
  {
    CompleteFlagsAgree(n.state, p.goal, p.w);
  }

  lemma SameStepsSameActions(p: Problem, acts: seq<Action>, n: Node)
    requires Faithful(p, n) && Evaluated(ASTAR_ID, acts, p).steps == n.steps
    ensures acts == ActionsOf(n.steps)
  {
    StepsOfActions(p.start, p.goal, acts);
  }

  /**
   * The two accumulators agree: evaluating the ids of any node the search has opened or
   * closed gives back that node's path, up to its name and the completeness flag, exactly
   * when each of its actions is the one its id is looked up as, as when ids are distinct.
   * The flags then differ exactly when a positive debt rounds to a zero heuristic.
   */
  lemma SearchAgreesWithEvaluator(p: Problem, n: Node)
    requires ValidProblem(p) && Faithful(p, n)
    ensures var e, path := Evaluated(ASTAR_ID, Resolve(p.actions, IdsOf(ActionsOf(n.steps))), p), PathFromNode(n);
            && (e.(complete := path.complete) == path <==> AreLookedUp(p.actions, ActionsOf(n.steps)))
            && (DistinctIds(p.actions) ==> AreLookedUp(p.actions, ActionsOf(n.steps)))
            && (AreLookedUp(p.actions, ActionsOf(n.steps)) ==>
                  (e.complete == path.complete
                   <==> Debt(n.state, p.goal) == 0 || Debt(n.state, p.goal) as real * p.w.proofDebt >= 0.0005))
  {
    var acts := ActionsOf(n.steps);
    var found := Resolve(p.actions, IdsOf(acts));
    FaithfulIsMade(p, n);
    ResolveInvertsIds(p.actions, acts);
    EvaluatedIsPath(p, n);
    PathFlagsAgree(p, n);
    if Evaluated(ASTAR_ID, found, p).steps == n.steps { SameStepsSameActions(p, found, n); }
    if DistinctIds(p.actions) { DistinctAreLookedUp(p.actions, acts); }
  }
}
