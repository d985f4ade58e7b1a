/** The replica target for an observed utilisation, and its iteration under constant load. */
module Autoscaling {
  import opened Prelude
  import opened RealArithmetic

  datatype ScaleError = InvalidReplicaLimits | InvalidUtilization

  datatype Reason = ScaleUp | ScaleDown | Hold

  datatype ScaleDecision = ScaleDecision(currentReplicas: int, desiredReplicas: int, reason: Reason)

  datatype Policy = Policy(targetUtilization: real, minimum: int, maximum: int, maxScaleUpFactor: real) {
    predicate Valid() {
      0.0 < targetUtilization <= 1.0 && 0 < minimum <= maximum
    }
  }

  function Clamp(x: int, p: Policy): int {
    Lesser(Greater(x, p.minimum), p.maximum)
  }

  /** The work that `current` replicas do at an observed utilisation. */
  function Work(current: int, observed: real): real {
    current as real * observed
  }

  /** Replicas that would bring utilisation to the target. */
  function Demand(current: int, observed: real, target: real): int
    requires target > 0.0
  {
    Ceil(Work(current, observed) / target)
  }

  /** The most replicas one step may scale up to. */
  function Reach(current: int, factor: real): int {
    Greater(current, Ceil(current as real * factor))
  }

  function DesiredReplicas(current: int, observed: real, p: Policy): Result<ScaleDecision, ScaleError> {
    if current <= 0 || p.minimum <= 0 || p.maximum < p.minimum then Err(InvalidReplicaLimits)
    else if !(0.0 < p.targetUtilization <= 1.0) || observed < 0.0 then Err(InvalidUtilization)
    else
      var raw := Demand(current, observed, p.targetUtilization);
      var desired := Clamp(Lesser(raw, Reach(current, p.maxScaleUpFactor)), p);
      Ok(ScaleDecision(current, desired,
                       if desired > current then ScaleUp else if desired < current then ScaleDown else Hold))
  }

  // ---- one step

  lemma CeilBounds(x: real)
    ensures (Ceil(x) - 1) as real < x <= Ceil(x) as real
  {
  }

  lemma CeilMonotone(x: real, y: real)
    requires x <= y
    ensures Ceil(x) <= Ceil(y)
  {
  }

  lemma DemandMonotone(current: int, a: real, b: real, target: real)
    requires current > 0 && target > 0.0 && a <= b
    ensures Demand(current, a, target) <= Demand(current, b, target)
  {
    WorkOrder(current, a, b);
    DivideOrder(Work(current, a), Work(current, b), target);
    CeilMonotone(Work(current, a) / target, Work(current, b) / target);
  }

  lemma WorkOrder(current: int, a: real, b: real)
    requires current > 0 && a <= b
    ensures Work(current, a) <= Work(current, b)
  {
    MulOrder(b, a, current as real);
  }

  lemma DivideOrder(x: real, y: real, m: real)
    requires m > 0.0 && x <= y
    ensures x / m <= y / m
  {
    MulOrder(y / m, x / m, m);
    assert x / m * m == x && y / m * m == y;
  }

  /** A higher observed utilisation never asks for fewer replicas. */
  lemma MonotoneInUtilization(current: int, a: real, b: real, p: Policy)
    requires current > 0 && p.Valid() && 0.0 <= a <= b
    ensures DesiredReplicas(current, a, p).value.desiredReplicas <= DesiredReplicas(current, b, p).value.desiredReplicas
  {
    DemandMonotone(current, a, b, p.targetUtilization);
  }

  /** The demand is the least number of replicas that carries the work within the target. */
  lemma DemandIsLeast(current: int, observed: real, target: real, n: int)
    requires current > 0 && target > 0.0
    ensures Demand(current, observed, target) <= n <==> Work(current, observed) <= n as real * target
  {
    var w := Work(current, observed);
    var q := w / target;
    QuotientTimes(w, target);
    MulOrder(n as real, q, target);
    CeilBounds(q);
  }

  /** A decision is made exactly for admissible limits and utilisations. It stays within the
      limits, its reason is its direction, and it is the least count that carries the work
      within the target unless a limit or the scale-up factor holds it back. */
  lemma DecisionMeans(current: int, observed: real, p: Policy)
    ensures DesiredReplicas(current, observed, p).Ok? <==> current > 0 && p.Valid() && observed >= 0.0
    ensures DesiredReplicas(current, observed, p).Ok? ==>
              var d := DesiredReplicas(current, observed, p).value;
              && d.currentReplicas == current && p.minimum <= d.desiredReplicas <= p.maximum
              && (d.reason == ScaleUp <==> d.desiredReplicas > current)
              && (d.reason == ScaleDown <==> d.desiredReplicas < current)
              && (d.desiredReplicas > p.minimum ==> d.desiredReplicas <= Reach(current, p.maxScaleUpFactor))
              && (Work(current, observed) <= d.desiredReplicas as real * p.targetUtilization
                  || d.desiredReplicas == p.maximum || d.desiredReplicas >= Reach(current, p.maxScaleUpFactor))
              && (d.desiredReplicas > p.minimum ==>
                    Work(current, observed) > (d.desiredReplicas - 1) as real * p.targetUtilization)
  {
    hide Demand, Reach, Work;
    if DesiredReplicas(current, observed, p).Ok? {
      var d := DesiredReplicas(current, observed, p).value.desiredReplicas;
      DemandIsLeast(current, observed, p.targetUtilization, d);
      DemandIsLeast(current, observed, p.targetUtilization, d - 1);
    }
  }

  // ---- constant load

  /** The utilisation that `load` busy replicas' worth of work causes. */
  function Observed(load: real, current: int): real
    requires current > 0
  {
    load / current as real
  }

  function Next(load: real, current: int, p: Policy): (next: int)
    requires p.Valid() && load >= 0.0 && current > 0
    ensures p.minimum <= next <= p.maximum
  {
    ObservedNonNegative(load, current);
    DesiredReplicas(current, Observed(load, current), p).value.desiredReplicas
  }

  function Goal(load: real, p: Policy): int
    requires p.Valid()
  {
    Clamp(Ceil(load / p.targetUtilization), p)
  }

  lemma ObservedNonNegative(load: real, current: int)
    requires load >= 0.0 && current > 0
    ensures Observed(load, current) >= 0.0
  {
    var o, c := Observed(load, current), current as real;
    assert o * c == load;
    MulOrder(o, 0.0, c);
  }

  /** Under constant load the demand does not depend on the replicas it was measured with. */
  lemma DemandIsLoad(load: real, current: int, target: real)
    requires current > 0 && target > 0.0
    ensures Demand(current, Observed(load, current), target) == Ceil(load / target)
  {
    assert Work(current, Observed(load, current)) == load;
  }

  lemma NextUnfolds(load: real, current: int, p: Policy)
    requires p.Valid() && load >= 0.0 && current > 0
    ensures Next(load, current, p)
         == Clamp(Lesser(Ceil(load / p.targetUtilization), Reach(current, p.maxScaleUpFactor)), p)
  {
    ObservedNonNegative(load, current);
    DemandIsLoad(load, current, p.targetUtilization);
  }

  lemma CeilAbove(x: real, n: int)
    ensures Ceil(x) > n <==> x > n as real
  {
  }

  lemma WorkAbove(current: int, factor: real)
    requires current > 0
    ensures Work(current, factor) > current as real <==> factor > 1.0
  {
    MulOrder(1.0, factor, current as real);
  }

  lemma ReachIs(current: int, factor: real)
    ensures Reach(current, factor) == Greater(current, Ceil(Work(current, factor)))
  {
  }

  /** A factor above one lets every step grow by at least one replica, and no other does. */
  lemma ReachGrows(current: int, factor: real)
    requires current > 0
    ensures Reach(current, factor) > current <==> factor > 1.0
  {
    hide Reach, Work, Ceil;
    ReachIs(current, factor);
    CeilAbove(Work(current, factor), current);
    WorkAbove(current, factor);
  }

  function Distance(a: int, b: int): nat {
    if a >= b then a - b else b - a
  }

  /** One step under constant load: from above straight to the goal, from the goal nowhere,
      from below upwards without passing it. */
  lemma StepTowardsGoal(load: real, current: int, p: Policy)
    requires p.Valid() && load >= 0.0 && current > 0
    ensures var next, goal := Next(load, current, p), Goal(load, p);
            && (current >= goal ==> next == goal)
            && (current < goal ==> current <= next <= goal)
  {
    NextUnfolds(load, current, p);
  }

  /** Below the goal and within the limits a step makes progress exactly when the scale-up
      factor exceeds one. */
  lemma ProgressExactly(load: real, current: int, p: Policy)
    requires p.Valid() && load >= 0.0 && p.minimum <= current < Goal(load, p)
    ensures Next(load, current, p) > current <==> p.maxScaleUpFactor > 1.0
  {
    NextUnfolds(load, current, p);
    ReachGrows(current, p.maxScaleUpFactor);
  }

  /** Away from the goal the distance to it strictly decreases. */
  lemma DistanceDecreases(load: real, current: int, p: Policy)
    requires p.Valid() && load >= 0.0 && current > 0 && p.maxScaleUpFactor > 1.0
    requires current != Goal(load, p)
    ensures Distance(Next(load, current, p), Goal(load, p)) < Distance(current, Goal(load, p))
  {
    NextUnfolds(load, current, p);
    ReachGrows(current, p.maxScaleUpFactor);
  }

  function Iterate(load: real, current: int, p: Policy, n: nat): (c: int)
    requires p.Valid() && load >= 0.0 && current > 0
    ensures c > 0
    decreases n
  {
    if n == 0 then current else Iterate(load, Next(load, current, p), p, n - 1)
  }

  /** After as many rounds as the goal is away, and for good, the goal is held; no round
      overshoots it from below. */
  lemma {:induction false} Converges(load: real, current: int, p: Policy, n: nat)
    requires p.Valid() && load >= 0.0 && current > 0 && p.maxScaleUpFactor > 1.0
    ensures n >= Distance(current, Goal(load, p)) ==> Iterate(load, current, p, n) == Goal(load, p)
    ensures current <= Goal(load, p) ==> current <= Iterate(load, current, p, n) <= Goal(load, p)
    decreases n
  {
    if n > 0 {
      StepTowardsGoal(load, current, p);
      if current != Goal(load, p) {
        DistanceDecreases(load, current, p);
      }
      Converges(load, Next(load, current, p), p, n - 1);
    }
  }

  /** With a factor of at most one a service below its goal but within the limits stays
      where it is, however often it is scaled. */
  lemma {:induction false} StuckWithoutGrowth(load: real, current: int, p: Policy, n: nat)
    requires p.Valid() && load >= 0.0 && p.maxScaleUpFactor <= 1.0
    requires p.minimum <= current < Goal(load, p)
    ensures Iterate(load, current, p, n) == current
    decreases n
  {
    if n > 0 {
      ProgressExactly(load, current, p);
      StepTowardsGoal(load, current, p);
      StuckWithoutGrowth(load, Next(load, current, p), p, n - 1);
    }
  }

  /** Without growth the first round brings a service up to the minimum and no further. */
  lemma FirstRoundWithoutGrowth(load: real, current: int, p: Policy)
    requires p.Valid() && load >= 0.0 && p.maxScaleUpFactor <= 1.0 && 0 < current < Goal(load, p)
    ensures Next(load, current, p) == Greater(current, p.minimum)
  {
    NextUnfolds(load, current, p);
    ReachGrows(current, p.maxScaleUpFactor);
    ReachIs(current, p.maxScaleUpFactor);
    hide Work;
  }

  /** Scaling under constant load ever reaches its goal exactly when the scale-up factor
      exceeds one, or the service is not below the goal, or the goal is the minimum. */
  lemma ReachesGoalExactly(load: real, current: int, p: Policy)
    requires p.Valid() && load >= 0.0 && current > 0
    ensures (exists n: nat :: Iterate(load, current, p, n) == Goal(load, p))
       <==> p.maxScaleUpFactor > 1.0 || current >= Goal(load, p) || Goal(load, p) == p.minimum
  {
    hide Goal, Next, Reach;
    var goal := Goal(load, p);
    if p.maxScaleUpFactor > 1.0 {
      Converges(load, current, p, Distance(current, goal));
    } else if current >= goal {
      StepTowardsGoal(load, current, p);
      assert Iterate(load, current, p, 1) == Iterate(load, Next(load, current, p), p, 0);
    } else {
      FirstRoundWithoutGrowth(load, current, p);
      GoalWithinLimits(load, p);
      assert Iterate(load, current, p, 1) == Iterate(load, Next(load, current, p), p, 0);
      if goal != p.minimum {
        forall n: nat ensures Iterate(load, current, p, n) != goal {
          if n > 0 { StuckWithoutGrowth(load, Next(load, current, p), p, n - 1); }
        }
      } else {
        assert Iterate(load, current, p, 1) == goal;
      }
    }
  }

  lemma GoalWithinLimits(load: real, p: Policy)
    requires p.Valid() && load >= 0.0
    ensures p.minimum <= Goal(load, p) <= p.maximum
  {
  }
}
