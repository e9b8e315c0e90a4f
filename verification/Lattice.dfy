/**
 * The conceptual lattice of the decision planner: a five-axis state, actions that
 * push it towards a goal, and the costs a route accumulates.
 *
 * Every cost the planner stores has been through `round`, so it is a whole number of
 * thousandths; it is modelled as that integer.
 */
module Lattice {
  import opened Sequences

  datatype Axis = Contract | Context | Implementation | Verification | Review

  datatype State = State(contract: int, context: int, implementation: int, verification: int, review: int) {
    function At(axis: Axis): int {
      match axis
      case Contract => contract
      case Context => context
      case Implementation => implementation
      case Verification => verification
      case Review => review
    }
  }

  /** What `normalizeState` and `normalizeDelta` leave on every axis. */
  predicate Clamped(s: State) {
    forall axis: Axis :: 0 <= s.At(axis) <= 3
  }

  datatype Weights = Weights(step: real, proofDebt: real, risk: real, friction: real, infoGain: real)

  predicate ValidWeights(w: Weights) {
    w.step > 0.0 && w.proofDebt > 0.0 && w.risk > 0.0 && w.friction > 0.0 && w.infoGain > 0.0
  }

  datatype Action = Action(id: string, delta: State, risk: real, friction: real, infoGain: real)

  predicate ValidAction(a: Action) {
    Clamped(a.delta) && a.risk >= 0.0 && a.friction >= 0.0 && a.infoGain >= 0.0
  }

  predicate ValidActions(actions: seq<Action>) {
    forall a :: a in actions ==> ValidAction(a)
  }

  // ----- thousandths -----

  /** `Math.round(x * 1000)`: ties go up. */
  function Round(x: real): int {
    (x * 1000.0 + 0.5).Floor
  }

  /** The value of a stored cost. */
  function Value(thousandths: int): real {
    thousandths as real / 1000.0
  }

  /** A weighted amount, rounded on its own. */
  function Weighted(amount: real, weight: real): int {
    Round(amount * weight)
  }

  /** Rounding after adding to a stored cost rounds the addend alone. */
  lemma RoundShifts(n: int, x: real)
    ensures Round(Value(n) + x) == n + Round(x)
  {
    assert (Value(n) + x) * 1000.0 + 0.5 == n as real + (x * 1000.0 + 0.5);
    var y := x * 1000.0 + 0.5;
    assert y.Floor as real <= y < y.Floor as real + 1.0;
  }

  lemma ChargeShifts(n: int, amount: real, weight: real)
    ensures Round(Value(n) + amount * weight) == n + Weighted(amount, weight)
  {
    RoundShifts(n, amount * weight);
  }

  lemma RoundIsMonotone(x: real, y: real)
    requires x <= y
    ensures Round(x) <= Round(y)
  {}

  // ----- states -----

  function Min(a: int, b: int): int { if a <= b then a else b }

  function Max(a: int, b: int): int { if a <= b then b else a }

  function Apply(s: State, a: Action, goal: State): State {
    State(Min(goal.contract, s.contract + a.delta.contract),
          Min(goal.context, s.context + a.delta.context),
          Min(goal.implementation, s.implementation + a.delta.implementation),
          Min(goal.verification, s.verification + a.delta.verification),
          Min(goal.review, s.review + a.delta.review))
  }

  lemma ApplyOnAxis(s: State, a: Action, goal: State, axis: Axis)
    ensures Apply(s, a, goal).At(axis) == Min(goal.At(axis), s.At(axis) + a.delta.At(axis))
  {}

  lemma ApplyStaysClamped(s: State, a: Action, goal: State)
    requires Clamped(s) && Clamped(goal) && ValidAction(a)
    ensures Clamped(Apply(s, a, goal))
  {
    forall axis: Axis ensures 0 <= Apply(s, a, goal).At(axis) <= 3 {
      assert 0 <= s.At(axis) && 0 <= a.delta.At(axis) && 0 <= goal.At(axis) <= 3;
      ApplyOnAxis(s, a, goal, axis);
    }
  }

  predicate IsGoal(s: State, goal: State) {
    forall axis: Axis :: s.At(axis) >= goal.At(axis)
  }

  function AxisDebt(s: State, goal: State, axis: Axis): nat {
    Max(0, goal.At(axis) - s.At(axis))
  }

  function Debt(s: State, goal: State): nat {
    AxisDebt(s, goal, Contract) + AxisDebt(s, goal, Context) + AxisDebt(s, goal, Implementation)
    + AxisDebt(s, goal, Verification) + AxisDebt(s, goal, Review)
  }

  /** The heuristic `proofDebt`, in thousandths. */
  function ProofDebt(s: State, goal: State, w: Weights): int {
    Weighted(Debt(s, goal) as real, w.proofDebt)
  }

  lemma NoDebtIsGoal(s: State, goal: State)
    ensures IsGoal(s, goal) <==> Debt(s, goal) == 0
  {
    if Debt(s, goal) == 0 {
      forall axis: Axis ensures s.At(axis) >= goal.At(axis) {
        assert AxisDebt(s, goal, axis) == 0;
      }
    }
    if IsGoal(s, goal) {
      forall axis: Axis ensures AxisDebt(s, goal, axis) == 0 {
        assert s.At(axis) >= goal.At(axis);
      }
    }
  }

  /**
   * The planner marks a path complete when its heuristic is zero, the route evaluator
   * when the goal test holds. The two flags agree unless a positive debt rounds away.
   */
  lemma CompleteFlagsAgree(s: State, goal: State, w: Weights)
    requires ValidWeights(w)
    ensures (ProofDebt(s, goal, w) == 0) == IsGoal(s, goal)
            <==> Debt(s, goal) == 0 || Debt(s, goal) as real * w.proofDebt >= 0.0005
  {
    NoDebtIsGoal(s, goal);
    HeuristicVanishes(Debt(s, goal), w.proofDebt);
  }

  /** A debt's heuristic is zero exactly below half a thousandth. */
  lemma HeuristicVanishes(debt: nat, weight: real)
    requires weight > 0.0
    ensures Weighted(debt as real, weight) == 0 <==> debt as real * weight < 0.0005
    ensures debt == 0 ==> Weighted(debt as real, weight) == 0
  {
    ProductIsNonNegative(debt as real, weight);
    RoundsToZero(debt as real * weight);
    assert debt == 0 ==> debt as real * weight == 0.0;
  }

  lemma ProductIsNonNegative(x: real, y: real)
    requires x >= 0.0 && y >= 0.0
    ensures x * y >= 0.0
  {}

  lemma RoundsToZero(x: real)
    requires x >= 0.0
    ensures Round(x) == 0 <==> x < 0.0005
  {}

  lemma ScaleUp(n: nat, x: real)
    requires x >= 0.0
    ensures n >= 1 ==> n as real * x >= x
  {
    if n >= 1 {
      assert (n as real - 1.0) * x >= 0.0;
    }
  }

  /** From a proof-debt weight of 0.0005 on, the flags agree on every state, and below it they do not. */
  lemma CompleteFlagsAgreeEverywhere(w: Weights)
    requires ValidWeights(w)
    ensures w.proofDebt >= 0.0005 <==>
            forall s: State, goal: State :: (ProofDebt(s, goal, w) == 0) == IsGoal(s, goal)
  {
    if w.proofDebt >= 0.0005 {
      forall s: State, goal: State ensures (ProofDebt(s, goal, w) == 0) == IsGoal(s, goal) {
        CompleteFlagsAgree(s, goal, w);
        ScaleUp(Debt(s, goal), w.proofDebt);
      }
    } else {
      var s, goal := State(0, 0, 0, 0, 0), State(1, 0, 0, 0, 0);
      CompleteFlagsAgree(s, goal, w);
      assert Debt(s, goal) == 1 && 1 as real * w.proofDebt == w.proofDebt;
      assert (ProofDebt(s, goal, w) == 0) != IsGoal(s, goal);
    }
  }

  // ----- routes -----

  datatype Costs = Costs(g: int, risk: int, friction: int, infoGain: int)

  const NO_COSTS := Costs(0, 0, 0, 0)

  /** One step's charge, as both accumulators write it. */
  function Charge(c: Costs, a: Action, w: Weights): Costs {
    Costs(Round(Value(c.g) + w.step),
          Round(Value(c.risk) + a.risk * w.risk),
          Round(Value(c.friction) + a.friction * w.friction),
          Round(Value(c.infoGain) + a.infoGain * w.infoGain))
  }

  /** `f = g + h + risk + friction - info_gain`, rounded as the source rounds it. */
  function Score(c: Costs, h: int): int {
    Round(Value(c.g) + Value(h) + Value(c.risk) + Value(c.friction) - Value(c.infoGain))
  }

  /** The state after performing `acts` in order. */
  function Replay(start: State, goal: State, acts: seq<Action>): State {
    if acts == [] then start
    else Apply(Replay(start, goal, acts[..|acts| - 1]), acts[|acts| - 1], goal)
  }

  /** The costs after performing `acts` in order. */
  function Tally(acts: seq<Action>, w: Weights): Costs {
    if acts == [] then NO_COSTS else Charge(Tally(acts[..|acts| - 1], w), acts[|acts| - 1], w)
  }

  function PushOn(axis: Axis): Action -> int { (a: Action) => a.delta.At(axis) }
  function StepCharge(w: Weights): Action -> int { (a: Action) => Round(w.step) }
  function RiskCharge(w: Weights): Action -> int { (a: Action) => Weighted(a.risk, w.risk) }
  function FrictionCharge(w: Weights): Action -> int { (a: Action) => Weighted(a.friction, w.friction) }
  function InfoCharge(w: Weights): Action -> int { (a: Action) => Weighted(a.infoGain, w.infoGain) }

  /** The score needs no rounding of its own: its summands are whole thousandths. */
  lemma ScoreIsExact(c: Costs, h: int)
    ensures Score(c, h) == c.g + h + c.risk + c.friction - c.infoGain
  {
    var n := c.g + h + c.risk + c.friction - c.infoGain;
    assert Value(c.g) + Value(h) + Value(c.risk) + Value(c.friction) - Value(c.infoGain) == Value(n) + 0.0;
    RoundShifts(n, 0.0);
  }

  /** Closed form of a non-empty route's final state: clamping commutes with adding up. */
  lemma {:induction false} ReplayClosedForm(start: State, goal: State, acts: seq<Action>, axis: Axis)
    requires acts != [] && ValidActions(acts)
    ensures Replay(start, goal, acts).At(axis) == Min(goal.At(axis), start.At(axis) + Total(PushOn(axis), acts))
  {
    var front, last := acts[..|acts| - 1], acts[|acts| - 1];
    ApplyOnAxis(Replay(start, goal, front), last, goal, axis);
    assert ValidAction(last) && last.delta.At(axis) >= 0;
    assert PushOn(axis)(last) == last.delta.At(axis);
    if front != [] {
      ReplayClosedForm(start, goal, front, axis);
    }
  }

  /** Closed form of a route's costs: the step-by-step rounding adds up exactly. */
  lemma {:induction false} TallyClosedForm(acts: seq<Action>, w: Weights)
    ensures Tally(acts, w) == Costs(Total(StepCharge(w), acts), Total(RiskCharge(w), acts),
                                    Total(FrictionCharge(w), acts), Total(InfoCharge(w), acts))
  {
    if acts != [] {
      var front, a := acts[..|acts| - 1], acts[|acts| - 1];
      TallyClosedForm(front, w);
      var c := Tally(front, w);
      RoundShifts(c.g, w.step);
      ChargeShifts(c.risk, a.risk, w.risk);
      ChargeShifts(c.friction, a.friction, w.friction);
      ChargeShifts(c.infoGain, a.infoGain, w.infoGain);
    }
  }

  lemma StatesEqualByAxis(s: State, t: State)
    requires forall axis: Axis :: s.At(axis) == t.At(axis)
    ensures s == t
  {
    assert s.At(Contract) == t.At(Contract) && s.At(Context) == t.At(Context)
        && s.At(Implementation) == t.At(Implementation) && s.At(Verification) == t.At(Verification)
        && s.At(Review) == t.At(Review);
  }

  /** Reordering a route changes neither where it ends nor what it costs. */
  lemma RouteOrderIsIrrelevant(start: State, goal: State, p: seq<Action>, q: seq<Action>, w: Weights)
    requires ValidActions(p) && multiset(p) == multiset(q)
    ensures Replay(start, goal, p) == Replay(start, goal, q)
    ensures Tally(p, w) == Tally(q, w)
  {
    assert |p| == |multiset(p)| == |multiset(q)| == |q|;
    forall a | a in q ensures a in p { assert a in multiset(q); }
    forall axis: Axis ensures Replay(start, goal, p).At(axis) == Replay(start, goal, q).At(axis) {
      if p != [] {
        ReplayClosedForm(start, goal, p, axis);
        ReplayClosedForm(start, goal, q, axis);
        TotalIgnoresOrder(PushOn(axis), p, q);
      }
    }
    StatesEqualByAxis(Replay(start, goal, p), Replay(start, goal, q));
    TallyClosedForm(p, w);
    TallyClosedForm(q, w);
    TotalIgnoresOrder(StepCharge(w), p, q);
    TotalIgnoresOrder(RiskCharge(w), p, q);
    TotalIgnoresOrder(FrictionCharge(w), p, q);
    TotalIgnoresOrder(InfoCharge(w), p, q);
  }

  lemma StepLowersDebt(s: State, a: Action, goal: State, w: Weights)
    requires ValidAction(a) && ValidWeights(w)
    ensures Debt(Apply(s, a, goal), goal) <= Debt(s, goal)
    ensures ProofDebt(Apply(s, a, goal), goal, w) <= ProofDebt(s, goal, w)
  {
    forall axis: Axis ensures AxisDebt(Apply(s, a, goal), goal, axis) <= AxisDebt(s, goal, axis) {
      ApplyOnAxis(s, a, goal, axis);
      assert a.delta.At(axis) >= 0;
    }
    HeuristicFollowsDebt(Debt(Apply(s, a, goal), goal), Debt(s, goal), w.proofDebt);
  }

  lemma HeuristicFollowsDebt(m: nat, n: nat, x: real)
    requires m <= n && x > 0.0
    ensures Weighted(m as real, x) <= Weighted(n as real, x)
  {
    assert (n as real - m as real) * x >= 0.0;
    RoundIsMonotone(m as real * x, n as real * x);
  }

  /** Going further along a route never raises the debt or the heuristic. */
  lemma {:induction false} DebtNeverRises(start: State, goal: State, acts: seq<Action>, i: nat, w: Weights)
    requires i <= |acts| && ValidActions(acts) && ValidWeights(w)
    ensures Debt(Replay(start, goal, acts), goal) <= Debt(Replay(start, goal, acts[..i]), goal)
    ensures ProofDebt(Replay(start, goal, acts), goal, w) <= ProofDebt(Replay(start, goal, acts[..i]), goal, w)
  {
    if i == |acts| {
      assert acts[..i] == acts;
    } else {
      var front, last := acts[..|acts| - 1], acts[|acts| - 1];
      DebtNeverRises(start, goal, front, i, w);
      assert front[..i] == acts[..i];
      StepLowersDebt(Replay(start, goal, front), last, goal, w);
    }
  }
}
