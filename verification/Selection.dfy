/** How the report picks a path among the candidates, and what its validator makes of the pick. */
module Selection {
  import opened Sequences
  import opened AStar
  import opened Lattice

  /** Collation of path ids; nothing below depends on which collation it is. */
  type IdOrder = (string, string) -> int

  function Compare(order: IdOrder): (Candidate, Candidate) -> int {
    (a: Candidate, b: Candidate) =>
      if a.f != b.f then a.f - b.f
      else if a.h != b.h then a.h - b.h
      else if a.costs.risk != b.costs.risk then a.costs.risk - b.costs.risk
      else if a.costs.friction != b.costs.friction then a.costs.friction - b.costs.friction
      else if b.costs.infoGain != a.costs.infoGain then b.costs.infoGain - a.costs.infoGain
      else order(a.id, b.id)
  }

  function ScoreOf(c: Candidate): int { c.f }

  function Completed(cs: seq<Candidate>): seq<Candidate> {
    if cs == [] then []
    else if cs[0].complete then [cs[0]] + Completed(cs[1..])
    else Completed(cs[1..])
  }

  /** The candidates of a report: the evaluated routes and the planner's own path, sorted. */
  function Candidates(order: IdOrder, routes: seq<Candidate>, astar: Candidate): seq<Candidate> {
    Sort(Compare(order), routes + [astar])
  }

  function SelectPath(order: IdOrder, candidates: seq<Candidate>, astar: Candidate): Candidate {
    var complete := Completed(candidates);
    var pool := if complete != [] then complete else candidates;
    var sorted := Sort(Compare(order), pool);
    var selected := if sorted != [] then sorted[0] else astar;
    if selected.f <= astar.f then selected else astar
  }

  function Rejected(candidates: seq<Candidate>, selected: Candidate): seq<Candidate> {
    if candidates == [] then []
    else if candidates[0].id != selected.id then [candidates[0]] + Rejected(candidates[1..], selected)
    else Rejected(candidates[1..], selected)
  }

  function LeastScore(cs: seq<Candidate>): int
    requires cs != []
  {
    if |cs| == 1 then cs[0].f
    else Min(LeastScore(cs[..|cs| - 1]), cs[|cs| - 1].f)
  }

  /** The validator's `selected_path_not_min_f`. */
  predicate FlagsSelection(candidates: seq<Candidate>, selected: Candidate)
    requires candidates != []
  {
    selected.f != LeastScore(candidates)
  }

  lemma {:induction false} CompletedMembers(cs: seq<Candidate>, c: Candidate)
    ensures c in Completed(cs) <==> c in cs && c.complete
  {
    if cs != [] {
      CompletedMembers(cs[1..], c);
      assert cs == [cs[0]] + cs[1..];
    }
  }

  lemma {:induction false} LeastScoreIsLeast(cs: seq<Candidate>)
    requires cs != []
    ensures exists c :: c in cs && c.f == LeastScore(cs)
    ensures forall c :: c in cs ==> LeastScore(cs) <= c.f
  {
    if |cs| == 1 {
      assert cs[0] in cs;
    } else {
      var front, last := cs[..|cs| - 1], cs[|cs| - 1];
      LeastScoreIsLeast(front);
      assert cs == front + [last] && last in cs;
      var c :| c in front && c.f == LeastScore(front);
      assert c in cs;
    }
  }

  lemma CandidatesMembers(order: IdOrder, routes: seq<Candidate>, astar: Candidate)
    ensures forall c :: c in Candidates(order, routes, astar) <==> c in routes || c == astar
  {
    SortPermutes(Compare(order), routes + [astar]);
    forall c ensures c in Candidates(order, routes, astar) <==> c in routes || c == astar {
      assert c in multiset(Candidates(order, routes, astar)) <==> c in multiset(routes + [astar]);
    }
  }

  /** The head of a sorted pool is a member of it with the least score. */
  lemma {:induction false} PoolHead(order: IdOrder, pool: seq<Candidate>)
    requires pool != []
    ensures Sort(Compare(order), pool) != [] && Sort(Compare(order), pool)[0] in pool
    ensures forall c :: c in pool ==> Sort(Compare(order), pool)[0].f <= c.f
  {
    assert Leads(ScoreOf, Compare(order));
    SortHeadIsLeast(ScoreOf, Compare(order), pool);
    forall c | c in pool ensures Sort(Compare(order), pool)[0].f <= c.f {
      assert ScoreOf(Sort(Compare(order), pool)[0]) <= ScoreOf(c);
    }
  }

  /**
   * What the report selects. It is one of the candidates and never dearer than the
   * planner's path; it is complete exactly when some complete candidate is no dearer
   * than the planner's path (or there is no incomplete choice at all), and then it is
   * the cheapest complete one.
   */
  lemma SelectionMeaning(order: IdOrder, routes: seq<Candidate>, astar: Candidate)
    ensures var cs := Candidates(order, routes, astar);
            var s := SelectPath(order, cs, astar);
            && s in cs && s.f <= astar.f
            && (s.complete <==> exists c :: c in cs && c.complete && c.f <= astar.f)
            && (s.complete ==> forall c :: c in cs && c.complete ==> s.f <= c.f)
            && (!s.complete && s != astar ==> forall c :: c in cs ==> !c.complete)
            && ((forall c :: c in cs ==> !c.complete) ==> forall c :: c in cs ==> s.f <= c.f)
  {
    CandidatesMembers(order, routes, astar);
    var cs := Candidates(order, routes, astar);
    forall c ensures c in Completed(cs) <==> c in cs && c.complete { CompletedMembers(cs, c); }
    assert astar in cs;
    var pool := if Completed(cs) != [] then Completed(cs) else cs;
    PoolHead(order, pool);
    var head := Sort(Compare(order), pool)[0];
    if Completed(cs) != [] {
      assert head.complete;
    } else {
      forall c | c in cs ensures !c.complete { assert c !in Completed(cs); }
    }
  }

  /** When the planner reached the goal, the selection is complete and cheapest among the complete. */
  lemma GoalMakesSelectionOptimal(order: IdOrder, routes: seq<Candidate>, astar: Candidate)
    requires astar.complete
    ensures var cs := Candidates(order, routes, astar);
            var s := SelectPath(order, cs, astar);
            s in cs && s.complete && forall c :: c in cs && c.complete ==> s.f <= c.f
  {
    CandidatesMembers(order, routes, astar);
    SelectionMeaning(order, routes, astar);
    assert astar in Candidates(order, routes, astar);
  }

  /**
   * The validator's complaint, for every report: it is raised exactly when some
   * candidate passed over is strictly cheaper, and when the planner reached the goal
   * that candidate is necessarily incomplete.
   */
  lemma FlagMeansCheaperIncomplete(order: IdOrder, routes: seq<Candidate>, astar: Candidate)
    ensures Candidates(order, routes, astar) != []
    ensures var cs := Candidates(order, routes, astar);
            var s := SelectPath(order, cs, astar);
            && (FlagsSelection(cs, s) <==> exists c :: c in cs && c.f < s.f)
            && (astar.complete ==> (FlagsSelection(cs, s) <==> exists c :: c in cs && !c.complete && c.f < s.f))
  {
    CandidatesMembers(order, routes, astar);
    SelectionMeaning(order, routes, astar);
    var cs := Candidates(order, routes, astar);
    var s := SelectPath(order, cs, astar);
    assert astar in cs;
    LeastScoreIsLeast(cs);
    var least :| least in cs && least.f == LeastScore(cs);
    assert FlagsSelection(cs, s) <==> least.f < s.f;
    if astar.complete && least.f < s.f {
      GoalMakesSelectionOptimal(order, routes, astar);
      assert !least.complete;
    }
  }

  /** Some candidate is complete, and some incomplete route is strictly cheaper than the planner's path and than every complete candidate. */
  predicate CheaperIncomplete(routes: seq<Candidate>, astar: Candidate) {
    && (astar.complete || exists c :: c in routes && c.complete)
    && exists r :: r in routes && !r.complete && r.f < astar.f && forall c :: c in routes && c.complete ==> r.f < c.f
  }

  /** The validator's complaint in terms of the report's inputs. */
  lemma FlagIffCheaperIncomplete(order: IdOrder, routes: seq<Candidate>, astar: Candidate)
    ensures Candidates(order, routes, astar) != []
    ensures var cs := Candidates(order, routes, astar);
            FlagsSelection(cs, SelectPath(order, cs, astar)) <==> CheaperIncomplete(routes, astar)
  {
    CandidatesMembers(order, routes, astar);
    SelectionMeaning(order, routes, astar);
    FlagMeansCheaperIncomplete(order, routes, astar);
    var cs := Candidates(order, routes, astar);
    CheaperIsIncomplete(cs, SelectPath(order, cs, astar), routes, astar);
  }

  /** From what a selection means alone. */
  lemma CheaperIsIncomplete(cs: seq<Candidate>, s: Candidate, routes: seq<Candidate>, astar: Candidate)
    requires forall c :: c in cs <==> c in routes || c == astar
    requires s in cs && s.f <= astar.f && (s.complete <==> exists c :: c in cs && c.complete && c.f <= astar.f)
    requires s.complete ==> forall c :: c in cs && c.complete ==> s.f <= c.f
    requires !s.complete && s != astar ==> forall c :: c in cs ==> !c.complete
    requires (forall c :: c in cs ==> !c.complete) ==> forall c :: c in cs ==> s.f <= c.f
    ensures (exists c :: c in cs && c.f < s.f) <==> CheaperIncomplete(routes, astar)
  {
    assert astar in cs;
    if c :| c in cs && c.f < s.f {
      assert c in routes && !c.complete && c.f < astar.f;
    }
    if r :| r in routes && !r.complete && r.f < astar.f && forall c :: c in routes && c.complete ==> r.f < c.f {
      assert r in cs;
    }
  }

  // ----- a correct selection that the validator complains about -----

  function Contract(n: int): State { State(n, 0, 0, 0, 0) }

  /** One action reaches the goal; the other leaves the state alone and removes much uncertainty. */
  const GO := Action("go", State(1, 0, 0, 0, 0), 0.0, 0.0, 0.0)
  const LOOK := Action("look", State(0, 0, 0, 0, 1), 0.0, 0.0, 9.0)
  const UNIT := Weights(1.0, 1.0, 1.0, 1.0, 1.0)
  const EXAMPLE := Problem(Contract(0), Contract(1), [GO, LOOK], UNIT)

  function Arrived(): Node {
    MakeNode(Contract(1), EXAMPLE.goal, EXAMPLE.w, Charge(NO_COSTS, GO, EXAMPLE.w), [Step(GO, Contract(1))])
  }

  lemma ExampleRounds()
    ensures Round(0.0) == 0 && Round(1.0) == 1000 && Round(9.0) == 9000 && Value(0) == 0.0
  {}

  lemma ChargeAtUnit(a: Action, w: Weights)
    requires w == UNIT && a.risk == 0.0 && a.friction == 0.0
    ensures Charge(NO_COSTS, a, w) == Costs(1000, 0, 0, Round(a.infoGain))
  {
    ExampleRounds();
    assert a.risk * w.risk == 0.0 && a.friction * w.friction == 0.0 && a.infoGain * w.infoGain == a.infoGain;
  }

  lemma ExampleCharges()
    ensures Charge(NO_COSTS, GO, UNIT) == Costs(1000, 0, 0, 0)
    ensures Charge(NO_COSTS, LOOK, UNIT) == Costs(1000, 0, 0, 9000)
  {
    ExampleRounds();
    ChargeAtUnit(GO, UNIT);
    ChargeAtUnit(LOOK, UNIT);
  }

  lemma DebtOfContract(m: nat, n: nat)
    requires m <= n
    ensures Debt(Contract(m), Contract(n)) == n - m
  {}

  lemma UnitWeight(d: int, weight: real)
    requires weight == 1.0
    ensures Weighted(d as real, weight) == 1000 * d
  {
    assert d as real * weight == d as real;
  }

  lemma UnitDebt(s: State, goal: State, w: Weights)
    requires w.proofDebt == 1.0
    ensures ProofDebt(s, goal, w) == 1000 * Debt(s, goal)
  {
    UnitWeight(Debt(s, goal), w.proofDebt);
  }

  lemma DebtOfWeights(m: nat, n: nat, w: Weights)
    requires m <= n && w.proofDebt == 1.0
    ensures ProofDebt(Contract(m), Contract(n), w) == 1000 * (n - m)
  {
    DebtOfContract(m, n);
    UnitDebt(Contract(m), Contract(n), w);
  }

  lemma ExampleGoals()
    ensures !IsGoal(Contract(0), Contract(1)) && IsGoal(Contract(1), Contract(1))
  {
    DebtOfContract(0, 1);
    DebtOfContract(1, 1);
    NoDebtIsGoal(Contract(0), Contract(1));
    NoDebtIsGoal(Contract(1), Contract(1));
  }

  lemma ExampleRelaxes()
    ensures var root := Root(EXAMPLE.start, EXAMPLE.goal, EXAMPLE.w);
            RelaxAll(Frontier([], map[EXAMPLE.start := 0]), root, EXAMPLE.actions, EXAMPLE.goal, EXAMPLE.w).open == [Arrived()]
  {
    var root, fr := Root(EXAMPLE.start, EXAMPLE.goal, EXAMPLE.w), Frontier([], map[EXAMPLE.start := 0]);
    ExampleCharges();
    RelaxNew(fr, root, GO);
    var fr1 := Relax(fr, root, GO, EXAMPLE.goal, EXAMPLE.w);
    RelaxOld(fr1, root, LOOK);
    TwoRelaxes(fr, root, GO, LOOK, EXAMPLE.goal, EXAMPLE.w);
  }

  lemma TwoRelaxes(fr: Frontier, n: Node, a: Action, b: Action, goal: State, w: Weights)
    ensures RelaxAll(fr, n, [a, b], goal, w) == Relax(Relax(fr, n, a, goal, w), n, b, goal, w)
  {
    assert [a, b][..1] == [a] && [a][..0] == [];
    assert RelaxAll(fr, n, [a], goal, w) == Relax(fr, n, a, goal, w);
  }

  lemma RelaxNew(fr: Frontier, root: Node, a: Action)
    requires root == Root(EXAMPLE.start, EXAMPLE.goal, EXAMPLE.w) && fr == Frontier([], map[EXAMPLE.start := 0]) && a == GO
    ensures Relax(fr, root, a, EXAMPLE.goal, EXAMPLE.w) == Frontier([Arrived()], map[EXAMPLE.start := 0][Contract(1) := Arrived().costs.g])
  {
    assert Apply(Contract(0), GO, Contract(1)) == Contract(1);
    assert [] + [Step(GO, Contract(1))] == [Step(GO, Contract(1))];
  }

  lemma RelaxOld(fr: Frontier, root: Node, a: Action)
    requires root == Root(EXAMPLE.start, EXAMPLE.goal, EXAMPLE.w) && a == LOOK
    requires EXAMPLE.start in fr.best && fr.best[EXAMPLE.start] == 0
    ensures Relax(fr, root, a, EXAMPLE.goal, EXAMPLE.w) == fr
  {
    ExampleCharges();
    assert Apply(Contract(0), LOOK, Contract(1)) == Contract(0);
  }

  lemma SortOfOne<T>(compare: (T, T) -> int, x: T)
    ensures Sort(compare, [x]) == [x]
  {
    assert [x][..0] == [];
  }

  lemma ExampleRuns()
    ensures var root := Root(EXAMPLE.start, EXAMPLE.goal, EXAMPLE.w);
            Run(EXAMPLE, 1).closed == [root] && Run(EXAMPLE, 1).fr.open == [Arrived()]
  {
    var root := Root(EXAMPLE.start, EXAMPLE.goal, EXAMPLE.w);
    var fr := Frontier([root], map[EXAMPLE.start := 0]);
    ExampleRelaxes();
    SortOfOne(CompareNodes, root);
    assert [root][1..] == [] && [] + [root] == [root];
    assert Run(EXAMPLE, 0) == RunState(fr, []);
    RunUnfolds(EXAMPLE, 0, fr, [], [root]);
  }

  lemma ExampleIsValid()
    ensures ValidProblem(EXAMPLE)
  {}

  lemma ExampleIsSearched()
    ensures IsSearchOf(EXAMPLE, Search(Arrived(), [], [Root(EXAMPLE.start, EXAMPLE.goal, EXAMPLE.w), Arrived()], 2))
  {
    var root, fr := Root(EXAMPLE.start, EXAMPLE.goal, EXAMPLE.w), Run(EXAMPLE, 1).fr;
    ExampleRuns();
    ExampleGoals();
    SortOfOne(CompareNodes, Arrived());
    assert [Arrived()] + [] == [Arrived()] && [root] + [Arrived()] == [root, Arrived()];
    assert fr.open == [Arrived()] && Run(EXAMPLE, 1) == RunState(fr, [root]);
    RunningStops(EXAMPLE, 1, fr, [root], [Arrived()]);
    assert [Arrived()][1..] == [];
  }

  lemma ExampleScores()
    ensures var astar := PathFromNode(Arrived()); astar.complete && astar.f == 1000
    ensures var look := Evaluated("look_only", [LOOK], EXAMPLE); !look.complete && look.f == -7000
  {
    ExampleCharges();
    DebtOfWeights(0, 1, UNIT);
    DebtOfWeights(1, 1, UNIT);
    ExampleGoals();
    ScoreIsExact(Costs(1000, 0, 0, 0), 0);
    ScoreIsExact(Costs(1000, 0, 0, 9000), 1000);
    assert [LOOK][..0] == [];
    assert Apply(Contract(0), LOOK, Contract(1)) == Contract(0);
    assert Replay(EXAMPLE.start, EXAMPLE.goal, [LOOK]) == Contract(0);
    assert Tally([LOOK], EXAMPLE.w) == Costs(1000, 0, 0, 9000);
  }

  lemma LookResolves()
    ensures Resolve(EXAMPLE.actions, ["look"]) == [LOOK]
  {
    assert ["look"][..0] == [] && [] + [LOOK] == [LOOK];
  }

  /**
   * The validator complains about a correct report: the search reaches the goal, its path
   * is selected and is cheapest among the complete candidates, yet the flag is raised.
   */
  lemma FlagIsRaisedForCorrectSelection(order: IdOrder)
    ensures var r := Search(Arrived(), [], [Root(EXAMPLE.start, EXAMPLE.goal, EXAMPLE.w), Arrived()], 2);
            var astar, look := PathFromNode(r.selected), Evaluated("look_only", Resolve(EXAMPLE.actions, ["look"]), EXAMPLE);
            var cs := Candidates(order, [look], astar);
            && ValidProblem(EXAMPLE) && IsSearchOf(EXAMPLE, r) && astar.complete && cs != []
            && SelectPath(order, cs, astar) == astar && (forall c :: c in cs && c.complete ==> astar.f <= c.f)
            && FlagsSelection(cs, astar)
  {
    ExampleIsValid();
    ExampleIsSearched();
    ExampleScores();
    LookResolves();
    TwoCandidates(order, Evaluated("look_only", [LOOK], EXAMPLE), PathFromNode(Arrived()));
  }

  lemma TwoCandidates(order: IdOrder, look: Candidate, astar: Candidate)
    requires !look.complete && astar.complete && look.f < astar.f
    ensures var cs := Candidates(order, [look], astar);
            && cs != [] && SelectPath(order, cs, astar) == astar && FlagsSelection(cs, astar)
            && forall c :: c in cs && c.complete ==> astar.f <= c.f
  {
    FlagIffCheaperIncomplete(order, [look], astar);
    CandidatesMembers(order, [look], astar);
    GoalMakesSelectionOptimal(order, [look], astar);
    assert look in [look];
  }

  // ----- the rejected paths -----

  function BearsId(id: string): Candidate -> int {
    (c: Candidate) => if c.id == id then 1 else 0
  }

  /** How many candidates bear the id. */
  function Bearing(cs: seq<Candidate>, id: string): int {
    Total(BearsId(id), cs)
  }

  function WithId(cs: seq<Candidate>, id: string): seq<Candidate> {
    if cs == [] then [] else (if cs[0].id == id then [cs[0]] else []) + WithId(cs[1..], id)
  }

  lemma HeadAndRest(cs: seq<Candidate>)
    requires cs != []
    ensures cs == [cs[0]] + cs[1..] && multiset(cs) == multiset{cs[0]} + multiset(cs[1..])
  {
    assert cs == [cs[0]] + cs[1..];
  }

  /** Rejecting leaves out exactly the candidates bearing the selected id. */
  lemma {:induction false} RejectedAndRest(cs: seq<Candidate>, selected: Candidate)
    ensures multiset(Rejected(cs, selected)) + multiset(WithId(cs, selected.id)) == multiset(cs)
  {
    if cs != [] {
      RejectedAndRest(cs[1..], selected);
      HeadAndRest(cs);
    }
  }

  lemma {:induction false} BearingCounts(cs: seq<Candidate>, id: string)
    ensures Bearing(cs, id) == |WithId(cs, id)|
    ensures forall c :: c in cs && c.id == id ==> c in WithId(cs, id)
  {
    if cs != [] {
      BearingCounts(cs[1..], id);
      HeadAndRest(cs);
      TotalOfConcat(BearsId(id), [cs[0]], cs[1..]);
      TotalOfOne(BearsId(id), cs[0]);
    }
  }

  lemma OneElement<T>(s: seq<T>, x: T)
    requires x in s
    ensures multiset(s) == multiset{x} <==> |s| == 1
  {
    if |s| == 1 { assert s == [x]; }
    assert |multiset(s)| == |s|;
  }

  lemma Cancel<T>(a: multiset<T>, b: multiset<T>, c: multiset<T>, all: multiset<T>)
    requires a + b == all
    ensures a + c == all <==> b == c
  {
    if a + c == all {
      assert b == all - a && c == all - a;
    }
  }

  /** The rejected paths and the selected one are exactly the candidates if and only if no other candidate bears the selected id. */
  lemma RejectedIsTheRest(cs: seq<Candidate>, selected: Candidate)
    requires selected in cs
    ensures multiset(Rejected(cs, selected)) + multiset{selected} == multiset(cs) <==> Bearing(cs, selected.id) == 1
  {
    var own := WithId(cs, selected.id);
    RejectedAndRest(cs, selected);
    BearingCounts(cs, selected.id);
    Cancel(multiset(Rejected(cs, selected)), multiset(own), multiset{selected}, multiset(cs));
    OneElement(own, selected);
  }

  predicate DistinctPathIds(cs: seq<Candidate>) {
    forall i, j :: 0 <= i < j < |cs| ==> cs[i].id != cs[j].id
  }

  lemma {:induction false} AbsentId(cs: seq<Candidate>, id: string)
    requires forall i :: 0 <= i < |cs| ==> cs[i].id != id
    ensures Bearing(cs, id) == 0
  {
    if cs != [] { AbsentId(cs[..|cs| - 1], id); }
  }

  /** With distinct ids no two candidates bear the same one. */
  lemma {:induction false} DistinctBearOnce(cs: seq<Candidate>, c: Candidate)
    requires DistinctPathIds(cs) && c in cs
    ensures Bearing(cs, c.id) == 1
  {
    var front, last := cs[..|cs| - 1], cs[|cs| - 1];
    if last.id == c.id {
      AbsentId(front, c.id);
    } else {
      assert cs == front + [last];
      DistinctBearOnce(front, c);
    }
  }

  /**
   * For every report: the rejected paths and the selected one are exactly the candidates
   * if and only if the selected id occurs once among them, as when ids are distinct.
   */
  lemma RejectionPartitions(order: IdOrder, routes: seq<Candidate>, astar: Candidate)
    ensures var cs := Candidates(order, routes, astar);
            var s := SelectPath(order, cs, astar);
            && (multiset(Rejected(cs, s)) + multiset{s} == multiset(routes + [astar]) <==> Bearing(routes + [astar], s.id) == 1)
            && (DistinctPathIds(routes + [astar]) ==> Bearing(routes + [astar], s.id) == 1)
  {
    var all := routes + [astar];
    var cs := Candidates(order, routes, astar);
    var s := SelectPath(order, cs, astar);
    SelectionMeaning(order, routes, astar);
    CandidatesMembers(order, routes, astar);
    SortPermutes(Compare(order), all);
    TotalIgnoresOrder(BearsId(s.id), cs, all);
    RejectedIsTheRest(cs, s);
    assert s in all;
    if DistinctPathIds(all) { DistinctBearOnce(all, s); }
  }
}
