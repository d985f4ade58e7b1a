/** Plan validation around the layered topological sort of the plan's steps. */
module PlanningGovernance {
  import opened Ordering
  import opened PlanGraph
  import opened Prelude

  const MAX_PLAN_STEPS := 8
  const MAX_REPLANS := 2
  const MAX_TOOL_CALLS := 12
  const MAX_PLAN_TOKENS := 4000
  const MAX_PLAN_DURATION_SECONDS := 600
  const FORBIDDEN_GOALS := {
    "bypass_consent", "bypass_approval", "disable_security", "collect_credentials",
    "hide_evidence", "claim_unverified_resolution", "expand_tenant_scope", "arbitrary_command_execution"}

  datatype Risk = ReadOnly | Low | Medium | High

  function Severity(r: Risk): nat {
    match r case ReadOnly => 0 case Low => 1 case Medium => 2 case High => 3
  }

  datatype PlanStep = PlanStep(
    stepId: string,
    objective: string,
    dependencies: seq<string>,
    requiredEvidenceIds: seq<string>,
    toolId: Option<string>,
    risk: Risk,
    expectedOutput: string)

  datatype ProposedPlan = ProposedPlan(
    tenantId: string,
    incidentId: string,
    objectiveId: string,
    version: int,
    parentPlanSha256: Option<string>,
    replanCount: int,
    estimatedTokens: int,
    estimatedToolCalls: int,
    estimatedDurationSeconds: int,
    steps: seq<PlanStep>)

  datatype Denial =
    | DuplicateOrEmptyId | InvalidDependency | CyclicPlan
    | ObjectiveNotApproved | LimitExceeded | BudgetExceeded | LineageRequired
    | ForbiddenStep | ToolOutsideAllowlist | EvidenceRequired | EvidenceUnavailable | OutputMissing
    | ToolBudgetUnderstated

  datatype ValidatedPlan = ValidatedPlan(orderedStepIds: seq<string>, maximumRisk: Risk, planSha256: string)

  // ---- the step graph

  function StepIds(steps: seq<PlanStep>): seq<string> {
    seq(|steps|, i requires 0 <= i < |steps| => steps[i].stepId)
  }

  /** The dictionary of steps by id; a repeated id keeps its last step. */
  function GraphOf(steps: seq<PlanStep>): Graph {
    if steps == [] then map[]
    else
      var last := steps[|steps| - 1];
      GraphOf(steps[..|steps| - 1])[last.stepId := SetOf(last.dependencies)]
  }

  ghost predicate IdsOk(steps: seq<PlanStep>) {
    Distinct(StepIds(steps)) && "" !in StepIds(steps)
  }

  ghost predicate DependenciesOk(steps: seq<PlanStep>) {
    forall s, dep | s in steps && dep in s.dependencies :: dep in StepIds(steps) && dep != s.stepId
  }

  lemma {:induction false} GraphKeys(steps: seq<PlanStep>)
    ensures GraphOf(steps).Keys == SetOf(StepIds(steps))
    ensures |GraphOf(steps)| == |SetOf(StepIds(steps))|
  {
    if steps != [] {
      var k := |steps| - 1;
      GraphKeys(steps[..k]);
      assert StepIds(steps) == StepIds(steps[..k]) + [steps[k].stepId];
      assert SetOf(StepIds(steps)) == SetOf(StepIds(steps[..k])) + {steps[k].stepId};
    }
    assert |GraphOf(steps).Keys| == |GraphOf(steps)|;
  }

  /** With distinct ids the graph holds every step's dependencies. */
  lemma {:induction false} GraphEntries(steps: seq<PlanStep>)
    requires Distinct(StepIds(steps))
    ensures forall s | s in steps :: s.stepId in GraphOf(steps) && GraphOf(steps)[s.stepId] == SetOf(s.dependencies)
  {
    if steps != [] {
      var k := |steps| - 1;
      var rest := steps[..k];
      assert StepIds(steps) == StepIds(rest) + [steps[k].stepId];
      assert forall i, j | 0 <= i < j < k ::
               StepIds(rest)[i] == StepIds(steps)[i] && StepIds(rest)[j] == StepIds(steps)[j];
      GraphEntries(rest);
      forall s | s in steps ensures s.stepId in GraphOf(steps) && GraphOf(steps)[s.stepId] == SetOf(s.dependencies) {
        var i :| 0 <= i < |steps| && steps[i] == s;
        if i < k {
          assert rest[i] == s && s in rest;
          assert StepIds(steps)[i] != StepIds(steps)[k];
        }
      }
    }
  }

  lemma GraphClosed(steps: seq<PlanStep>)
    requires IdsOk(steps) && DependenciesOk(steps)
    ensures Closed(GraphOf(steps))
  {
    GraphKeys(steps);
    GraphEntries(steps);
    var g := GraphOf(steps);
    forall id | id in g ensures g[id] <= g.Keys - {id} {
      assert id in SetOf(StepIds(steps));
      var i :| 0 <= i < |steps| && StepIds(steps)[i] == id;
      assert steps[i] in steps;
    }
  }

  /** The graph, and with it the verdict and the order, ignores how the steps are listed. */
  lemma GraphIgnoresListing(xs: seq<PlanStep>, ys: seq<PlanStep>)
    requires multiset(xs) == multiset(ys) && IdsOk(xs)
    ensures IdsOk(ys) && GraphOf(xs) == GraphOf(ys) && (DependenciesOk(xs) <==> DependenciesOk(ys))
  {
    hide Distinct;
    SameMultiset(xs, ys);
    IdsDistinctByContents(xs, ys);
    SameIdSets(xs, ys);
    SameIdSets(ys, xs);
    forall id ensures id in StepIds(xs) <==> id in StepIds(ys) {
      assert id in SetOf(StepIds(xs)) <==> id in StepIds(xs);
      assert id in SetOf(StepIds(ys)) <==> id in StepIds(ys);
    }
    SameGraph(xs, ys);
  }

  lemma SameGraph(xs: seq<PlanStep>, ys: seq<PlanStep>)
    requires Distinct(StepIds(xs)) && Distinct(StepIds(ys))
    requires forall s :: s in xs <==> s in ys
    requires SetOf(StepIds(xs)) == SetOf(StepIds(ys))
    ensures GraphOf(xs) == GraphOf(ys)
  {
    hide Distinct;
    GraphKeys(xs);
    GraphKeys(ys);
    GraphEntries(xs);
    GraphEntries(ys);
    var g, h := GraphOf(xs), GraphOf(ys);
    forall id | id in g ensures g[id] == h[id] {
      assert id in SetOf(StepIds(xs));
      var i :| 0 <= i < |xs| && StepIds(xs)[i] == id;
      assert xs[i] in xs && xs[i] in ys;
    }
  }

  lemma SameIdSets(xs: seq<PlanStep>, ys: seq<PlanStep>)
    requires forall s :: s in xs ==> s in ys
    ensures SetOf(StepIds(xs)) <= SetOf(StepIds(ys))
  {
    forall id | id in SetOf(StepIds(xs)) ensures id in SetOf(StepIds(ys)) {
      var i :| 0 <= i < |xs| && StepIds(xs)[i] == id;
      assert xs[i] in xs;
      var j :| 0 <= j < |ys| && ys[j] == xs[i];
      assert StepIds(ys)[j] == id;
    }
  }

  lemma IdsDistinctByContents(xs: seq<PlanStep>, ys: seq<PlanStep>)
    requires multiset(xs) == multiset(ys) && Distinct(StepIds(xs))
    ensures Distinct(StepIds(ys))
  {
    SameMultiset(xs, ys);
    assert Distinct(xs) by {
      forall i, j | 0 <= i < j < |xs| ensures xs[i] != xs[j] {
        assert StepIds(xs)[i] != StepIds(xs)[j];
      }
    }
    DistinctByContents(xs, ys);
    forall i, j | 0 <= i < j < |ys| ensures StepIds(ys)[i] != StepIds(ys)[j] {
      assert ys[i] in xs && ys[j] in xs;
      var a :| 0 <= a < |xs| && xs[a] == ys[i];
      var b :| 0 <= b < |xs| && xs[b] == ys[j];
      assert StepIds(xs)[a] != StepIds(xs)[b];
    }
  }

  // ---- the sort

  function ReadyIn(g: Graph, remaining: set<string>, done: set<string>): string -> bool
    requires remaining <= g.Keys
  {
    (id: string) => id in remaining && id in g && g[id] <= done
  }

  /** What the rounds so far have produced. */
  ghost predicate Progress(g: Graph, k: nat, result: seq<string>) {
    && Distinct(result) && SetOf(result) == Done(g, k)
    && forall i, j | 0 <= i < j < |result| :: Precedes(g, result[i], result[j])
  }

  lemma EarlierLayerPrecedes(g: Graph, k: nat, a: string, b: string)
    requires Closed(g) && a in Done(g, k) && b in Done(g, k + 1) && b !in Done(g, k)
    ensures Precedes(g, a, b)
  {
    var m := RankOf(g, k, a);
    LayerIsLongestChain(g, k + 1, b);
    assert LongestChain(g, a, m) && LongestChain(g, b, k + 1) && m < k + 1;
  }

  lemma SameLayerPrecedes(g: Graph, k: nat, a: string, b: string)
    requires Closed(g) && a in Done(g, k + 1) && a !in Done(g, k) && b in Done(g, k + 1) && b !in Done(g, k)
    requires StrLt(a, b)
    ensures Precedes(g, a, b)
  {
    LayerIsLongestChain(g, k + 1, a);
    LayerIsLongestChain(g, k + 1, b);
  }

  lemma RoundExtends(g: Graph, k: nat, result: seq<string>, ready: seq<string>)
    requires Closed(g) && Progress(g, k, result)
    requires Distinct(ready) && Sorted(ready, StrLe)
    requires forall id :: id in ready <==> id in Done(g, k + 1) && id !in Done(g, k)
    ensures Progress(g, k + 1, result + ready)
  {
    hide Precedes, Closed, Done;
    var longer := result + ready;
    DoneGrows(g, k);
    forall i, j | 0 <= i < j < |longer| ensures longer[i] != longer[j] && Precedes(g, longer[i], longer[j]) {
      if i < |result| && j >= |result| {
        assert longer[i] in SetOf(result) && longer[j] in ready;
        EarlierLayerPrecedes(g, k, longer[i], longer[j]);
      } else if i >= |result| {
        assert longer[i] == ready[i - |result|] && longer[j] == ready[j - |result|];
        assert longer[i] in ready && longer[j] in ready;
        SameLayerPrecedes(g, k, longer[i], longer[j]);
      }
    }
    assert SetOf(longer) == SetOf(result) + SetOf(ready);
    assert SetOf(longer) == Done(g, k + 1);
  }

  /** Whatever is done within `k` rounds has its longest chain within `k`. */
  lemma {:induction false} RankOf(g: Graph, k: nat, id: string) returns (m: nat)
    requires Closed(g) && id in Done(g, k)
    ensures m <= k && LongestChain(g, id, m)
    decreases k
  {
    if id in Done(g, k - 1) {
      m := RankOf(g, k - 1, id);
    } else {
      m := k;
      LayerIsLongestChain(g, k, id);
    }
  }

  /** `_topological`. The four results exclude each other, so each is returned exactly when
      its condition holds; an order, if any, is the canonical one. */
  method Topological(steps: seq<PlanStep>) returns (r: Result<seq<string>, Denial>)
    ensures match r
            case Ok(order) => IdsOk(steps) && DependenciesOk(steps) && Canonical(GraphOf(steps), order)
                              && !exists c :: Cycle(GraphOf(steps), c)
            case Err(CyclicPlan) => IdsOk(steps) && DependenciesOk(steps) && exists c :: Cycle(GraphOf(steps), c)
            case Err(InvalidDependency) => IdsOk(steps) && !DependenciesOk(steps)
            case Err(e) => e == DuplicateOrEmptyId && !IdsOk(steps)
  {
    var g := GraphOf(steps);
    var ids := StepIds(steps);
    GraphKeys(steps);
    DistinctCounts(ids);
    if |g| != |steps| || "" in ids {
      return Err(DuplicateOrEmptyId);
    }
    assert Distinct(ids) by {
      FullSetDistinct(ids);
    }
    for i := 0 to |steps|
      invariant forall k | 0 <= k < i :: forall dep | dep in steps[k].dependencies ::
                  dep in ids && dep != steps[k].stepId
    {
      var bad := set dep | dep in steps[i].dependencies && (dep !in g || dep == steps[i].stepId);
      if bad != {} {
        assert steps[i] in steps;
        var dep :| dep in bad;
        assert dep !in SetOf(ids) || dep == steps[i].stepId;
        return Err(InvalidDependency);
      }
      forall dep | dep in steps[i].dependencies ensures dep in ids && dep != steps[i].stepId {
        assert dep !in bad;
        assert dep in SetOf(ids);
      }
    }
    assert DependenciesOk(steps);
    GraphClosed(steps);
    r := Layers(g, ids);
  }

  /** The layered loop over a closed graph whose keys are listed in `ids`. */
  method Layers(g: Graph, ids: seq<string>) returns (r: Result<seq<string>, Denial>)
    requires Closed(g) && Distinct(ids) && SetOf(ids) == g.Keys
    ensures match r
            case Ok(order) => Canonical(g, order) && !exists c :: Cycle(g, c)
            case Err(e) => e == CyclicPlan && exists c :: Cycle(g, c)
  {
    hide Precedes, Closed, Done, Cycle, Progress, Stuck, Distinct, Sorted, SortBy, Filter, StrLe;
    var result: seq<string> := [];
    var remaining := SetOf(ids);
    ghost var k := 0;
    NothingDone(g);
    while remaining != {}
      invariant Progress(g, k, result)
      invariant remaining == g.Keys - Done(g, k)
      decreases |remaining|
    {
      var p := ReadyIn(g, remaining, SetOf(result));
      var ready := SortBy(Filter(ids, p), StrLe);
      Round(g, k, ids, result, remaining, ready);
      if ready == [] {
        ghost var c := StuckHasCycle(g, k);
        return Err(CyclicPlan);
      }
      result := result + ready;
      remaining := remaining - SetOf(ready);
      k := k + 1;
    }
    AllDone(g, k, result);
    CompleteHasNoCycle(g, k);
    return Ok(result);
  }

  /** What one round of the loop does, or what it means that it does nothing. */
  lemma Round(g: Graph, k: nat, ids: seq<string>, result: seq<string>, remaining: set<string>, ready: seq<string>)
    requires Closed(g) && Distinct(ids) && SetOf(ids) == g.Keys
    requires Progress(g, k, result) && remaining == g.Keys - Done(g, k) && remaining != {}
    requires ready == SortBy(Filter(ids, ReadyIn(g, remaining, SetOf(result))), StrLe)
    ensures Progress(g, k + 1, result + ready) && remaining - SetOf(ready) == g.Keys - Done(g, k + 1)
    ensures if ready == [] then Stuck(g, k) else |remaining - SetOf(ready)| < |remaining|
  {
    hide Precedes, Closed, Done, Distinct, Sorted, SortBy, Filter, StrLe;
    ReadyFacts(g, k, ids, remaining, ready);
    DoneGrows(g, k);
    RoundExtends(g, k, result, ready);
    if ready == [] {
      assert Done(g, k) == Done(g, k + 1);
    } else {
      assert ready[0] in ready;
      assert remaining == (remaining - SetOf(ready)) + (remaining * SetOf(ready))
             && ready[0] in remaining * SetOf(ready);
    }
  }

  lemma AllDone(g: Graph, k: nat, result: seq<string>)
    requires Closed(g) && Progress(g, k, result) && g.Keys - Done(g, k) == {}
    ensures Canonical(g, result) && Done(g, k) == g.Keys
  {
    hide Precedes, Closed, Done;
    DoneGrows(g, k);
    forall id | id in g.Keys ensures id in Done(g, k) {
      assert id !in g.Keys - Done(g, k);
    }
  }

  lemma NothingDone(g: Graph)
    ensures Done(g, 0) == {} && Progress(g, 0, [])
  {
  }

  lemma CompleteHasNoCycle(g: Graph, k: nat)
    requires Done(g, k) == g.Keys
    ensures !exists c :: Cycle(g, c)
  {
    forall c ensures !Cycle(g, c) {
      if Cycle(g, c) {
        CycleNeverDone(g, c, k, 0);
      }
    }
  }

  lemma ReadyFacts(g: Graph, k: nat, ids: seq<string>, remaining: set<string>, ready: seq<string>)
    requires Distinct(ids) && SetOf(ids) == g.Keys && remaining == g.Keys - Done(g, k)
    requires ready == SortBy(Filter(ids, ReadyIn(g, remaining, Done(g, k))), StrLe)
    ensures Distinct(ready) && Sorted(ready, StrLe)
    ensures forall id :: id in ready <==> id in Done(g, k + 1) && id !in Done(g, k)
  {
    var p := ReadyIn(g, remaining, Done(g, k));
    StrLeIsAnOrder();
    FilterKeeps(ids, p);
    FilterDistinct(ids, p);
    SortPermutes(Filter(ids, p), StrLe);
    SortSorts(Filter(ids, p), StrLe);
    DistinctByContents(Filter(ids, p), ready);
    assert forall id :: id in ids <==> id in SetOf(ids);
  }

  // ---- validation around the sort

  /** The checks before the sort, in their order. */
  function HeaderDenial(plan: ProposedPlan, approvedObjectives: set<string>): Option<Denial> {
    if plan.tenantId == "" || plan.incidentId == "" || plan.objectiveId !in approvedObjectives
      || plan.objectiveId in FORBIDDEN_GOALS
    then Some(ObjectiveNotApproved)
    else if |plan.steps| == 0 || |plan.steps| > MAX_PLAN_STEPS || plan.replanCount < 0 || plan.replanCount > MAX_REPLANS
    then Some(LimitExceeded)
    else if plan.estimatedTokens > MAX_PLAN_TOKENS || plan.estimatedToolCalls > MAX_TOOL_CALLS
            || plan.estimatedDurationSeconds > MAX_PLAN_DURATION_SECONDS
    then Some(BudgetExceeded)
    else if plan.version != plan.replanCount + 1
            || (plan.replanCount > 0 && (plan.parentPlanSha256.None? || |plan.parentPlanSha256.value| != 64))
    then Some(LineageRequired)
    else None
  }

  function StepDenial(s: PlanStep, allowedTools: set<string>, available: set<string>): Option<Denial> {
    if s.objective in FORBIDDEN_GOALS then Some(ForbiddenStep)
    else if s.toolId.Some? && s.toolId.value != "" && s.toolId.value !in allowedTools then Some(ToolOutsideAllowlist)
    else if s.risk != ReadOnly && s.requiredEvidenceIds == [] then Some(EvidenceRequired)
    else if !(SetOf(s.requiredEvidenceIds) <= available) then Some(EvidenceUnavailable)
    else if s.expectedOutput == "" then Some(OutputMissing)
    else None
  }

  /** The first step that is denied decides. */
  function StepsDenial(steps: seq<PlanStep>, allowedTools: set<string>, available: set<string>): Option<Denial>
    decreases |steps|
  {
    if steps == [] then None
    else
      var first := StepDenial(steps[0], allowedTools, available);
      if first.Some? then first else StepsDenial(steps[1..], allowedTools, available)
  }

  ghost predicate Cyclic(steps: seq<PlanStep>) {
    exists c :: Cycle(GraphOf(steps), c)
  }

  /** Why a plan is denied: the first failing check, in the program's order. */
  ghost function PlanDenial(plan: ProposedPlan, approvedObjectives: set<string>, allowedTools: set<string>,
                            available: set<string>): Option<Denial>
  {
    if HeaderDenial(plan, approvedObjectives).Some? then HeaderDenial(plan, approvedObjectives)
    else if !IdsOk(plan.steps) then Some(DuplicateOrEmptyId)
    else if !DependenciesOk(plan.steps) then Some(InvalidDependency)
    else if Cyclic(plan.steps) then Some(CyclicPlan)
    else if StepsDenial(plan.steps, allowedTools, available).Some? then StepsDenial(plan.steps, allowedTools, available)
    else if ToolSteps(plan.steps) > plan.estimatedToolCalls then Some(ToolBudgetUnderstated)
    else None
  }

  function ToolSteps(steps: seq<PlanStep>): nat {
    if steps == [] then 0
    else ToolSteps(steps[..|steps| - 1]) + if steps[|steps| - 1].toolId.Some? then 1 else 0
  }

  // ---- which plans are denied, and why

  ghost predicate Forbidden(goal: string) {
    goal in ["bypass_consent", "bypass_approval", "disable_security", "collect_credentials", "hide_evidence",
             "claim_unverified_resolution", "expand_tenant_scope", "arbitrary_command_execution"]
  }

  /** A step fails the check that this denial stands for. */
  ghost predicate StepFails(s: PlanStep, e: Denial, allowedTools: set<string>, available: set<string>) {
    match e
    case ForbiddenStep => Forbidden(s.objective)
    case ToolOutsideAllowlist => s.toolId.Some? && s.toolId.value != "" && s.toolId.value !in allowedTools
    case EvidenceRequired => s.risk != ReadOnly && s.requiredEvidenceIds == []
    case EvidenceUnavailable => exists id :: id in s.requiredEvidenceIds && id !in available
    case OutputMissing => s.expectedOutput == ""
    case _ => false
  }

  ghost function Tools(steps: seq<PlanStep>): set<nat> {
    set i: nat | i < |steps| && steps[i].toolId != None
  }

  ghost predicate AnyStepFails(steps: seq<PlanStep>, allowedTools: set<string>, available: set<string>) {
    exists i, e :: 0 <= i < |steps| && StepFails(steps[i], e, allowedTools, available)
  }

  ghost predicate Listed(steps: seq<PlanStep>, id: string) {
    exists u :: u in steps && u.stepId == id
  }

  /** A step depends on itself, or on one that is not listed. */
  ghost predicate Dangling(steps: seq<PlanStep>, s: PlanStep, dep: string) {
    s in steps && dep in s.dependencies && (dep == s.stepId || !Listed(steps, dep))
  }

  /** A plan fails the check that this denial stands for. */
  ghost predicate Fails(plan: ProposedPlan, e: Denial, approvedObjectives: set<string>, allowedTools: set<string>,
                        available: set<string>)
  {
    var steps := plan.steps;
    match e
    case ObjectiveNotApproved =>
      plan.tenantId == "" || plan.incidentId == "" || plan.objectiveId !in approvedObjectives
      || Forbidden(plan.objectiveId)
    case LimitExceeded => !(1 <= |steps| <= 8 && 0 <= plan.replanCount <= 2)
    case BudgetExceeded =>
      plan.estimatedTokens > 4000 || plan.estimatedToolCalls > 12 || plan.estimatedDurationSeconds > 600
    case LineageRequired =>
      plan.version != plan.replanCount + 1
      || (plan.replanCount > 0 && !(plan.parentPlanSha256.Some? && |plan.parentPlanSha256.value| == 64))
    case DuplicateOrEmptyId =>
      || Listed(steps, "")
      || exists i, j :: 0 <= i < j < |steps| && steps[i].stepId == steps[j].stepId
    case InvalidDependency =>
      exists s, d :: Dangling(steps, s, d)
    case CyclicPlan => Cyclic(steps)
    case ToolBudgetUnderstated => |Tools(steps)| > plan.estimatedToolCalls
    case _ => AnyStepFails(steps, allowedTools, available)
  }

  /** The order of the checks; those of a step are made step by step. */
  ghost function Checks(): seq<Denial> {
    [ObjectiveNotApproved, LimitExceeded, BudgetExceeded, LineageRequired, DuplicateOrEmptyId, InvalidDependency,
     CyclicPlan, ForbiddenStep, ToolBudgetUnderstated]
  }

  ghost function StepChecks(): seq<Denial> {
    [ForbiddenStep, ToolOutsideAllowlist, EvidenceRequired, EvidenceUnavailable, OutputMissing]
  }

  /** The first step that fails a check is denied for the first check it fails. */
  ghost predicate DeniedAt(steps: seq<PlanStep>, i: nat, k: nat, allowedTools: set<string>, available: set<string>) {
    && i < |steps| && k < 5 && StepFails(steps[i], StepChecks()[k], allowedTools, available)
    && (forall j | 0 <= j < k :: !StepFails(steps[i], StepChecks()[j], allowedTools, available))
    && (forall h, e | 0 <= h < i :: !StepFails(steps[h], e, allowedTools, available))
  }

  lemma StepDeniedExactly(s: PlanStep, allowedTools: set<string>, available: set<string>)
    ensures match StepDenial(s, allowedTools, available)
            case None => forall e :: !StepFails(s, e, allowedTools, available)
            case Some(e) =>
              exists k: nat :: k < 5 && StepChecks()[k] == e && StepFails(s, e, allowedTools, available)
                && forall j | 0 <= j < k :: !StepFails(s, StepChecks()[j], allowedTools, available)
  {
    if StepDenial(s, allowedTools, available).Some? {
      var k: nat := match StepDenial(s, allowedTools, available).value
        case ForbiddenStep => 0 case ToolOutsideAllowlist => 1 case EvidenceRequired => 2
        case EvidenceUnavailable => 3 case _ => 4;
      assert StepChecks()[k] == StepDenial(s, allowedTools, available).value;
    }
  }

  lemma {:induction false} StepsDeniedExactly(steps: seq<PlanStep>, allowedTools: set<string>, available: set<string>)
    ensures match StepsDenial(steps, allowedTools, available)
            case None => !AnyStepFails(steps, allowedTools, available)
            case Some(e) =>
              && AnyStepFails(steps, allowedTools, available)
              && e in {ForbiddenStep, ToolOutsideAllowlist, EvidenceRequired, EvidenceUnavailable, OutputMissing}
              && exists i: nat, k: nat :: DeniedAt(steps, i, k, allowedTools, available) && StepChecks()[k] == e
    decreases |steps|
  {
    if steps != [] {
      hide StepFails;
      StepDeniedExactly(steps[0], allowedTools, available);
      StepsDeniedExactly(steps[1..], allowedTools, available);
      if StepDenial(steps[0], allowedTools, available).Some? {
        var e := StepDenial(steps[0], allowedTools, available).value;
        var k: nat :| k < 5 && StepChecks()[k] == e && StepFails(steps[0], e, allowedTools, available)
                      && forall j | 0 <= j < k :: !StepFails(steps[0], StepChecks()[j], allowedTools, available);
        assert DeniedAt(steps, 0, k, allowedTools, available);
      } else if StepsDenial(steps[1..], allowedTools, available).Some? {
        var i: nat, k: nat :| DeniedAt(steps[1..], i, k, allowedTools, available)
                              && StepChecks()[k] == StepsDenial(steps[1..], allowedTools, available).value;
        assert forall h | 0 <= h < i :: steps[1..][h] == steps[h + 1];
        assert DeniedAt(steps, i + 1, k, allowedTools, available);
      } else {
        forall i, e | 0 <= i < |steps| ensures !StepFails(steps[i], e, allowedTools, available) {
          if i > 0 {
            assert steps[1..][i - 1] == steps[i];
          }
        }
      }
    }
  }

  lemma {:induction false} ToolsCounted(steps: seq<PlanStep>)
    ensures ToolSteps(steps) == |Tools(steps)|
  {
    if steps != [] {
      var n := |steps| - 1;
      ToolsCounted(steps[..n]);
      assert forall i | 0 <= i < n :: steps[..n][i] == steps[i];
      if steps[n].toolId.Some? {
        assert Tools(steps) == Tools(steps[..n]) + {n};
      } else {
        assert Tools(steps) == Tools(steps[..n]);
      }
    } else {
      assert Tools(steps) == {};
    }
  }

  lemma HeaderExactly(plan: ProposedPlan, approvedObjectives: set<string>, allowedTools: set<string>,
                      available: set<string>)
    ensures HeaderDenial(plan, approvedObjectives)
         == (if Fails(plan, ObjectiveNotApproved, approvedObjectives, allowedTools, available)
               then Some(ObjectiveNotApproved)
             else if Fails(plan, LimitExceeded, approvedObjectives, allowedTools, available) then Some(LimitExceeded)
             else if Fails(plan, BudgetExceeded, approvedObjectives, allowedTools, available) then Some(BudgetExceeded)
             else if Fails(plan, LineageRequired, approvedObjectives, allowedTools, available)
               then Some(LineageRequired)
             else None)
  {
  }

  lemma ListedExactly(steps: seq<PlanStep>, id: string)
    ensures id in StepIds(steps) <==> Listed(steps, id)
  {
    var ids := StepIds(steps);
    if id in ids {
      var i :| 0 <= i < |ids| && ids[i] == id;
      assert steps[i] in steps;
    }
    if u :| u in steps && u.stepId == id {
      var i :| 0 <= i < |steps| && steps[i] == u;
      assert ids[i] == id;
    }
  }

  lemma DanglingExactly(steps: seq<PlanStep>)
    ensures DependenciesOk(steps) <==> !exists s, dep :: Dangling(steps, s, dep)
  {
    hide Listed;
    forall id ensures id in StepIds(steps) <==> Listed(steps, id) {
      ListedExactly(steps, id);
    }
    if s, dep :| Dangling(steps, s, dep) {
      assert s in steps && dep in s.dependencies && !(dep in StepIds(steps) && dep != s.stepId);
      assert !DependenciesOk(steps);
    }
    if !DependenciesOk(steps) {
      var s, dep :| s in steps && dep in s.dependencies && !(dep in StepIds(steps) && dep != s.stepId);
      assert Dangling(steps, s, dep);
    }
  }

  lemma GraphFailsExactly(plan: ProposedPlan, approvedObjectives: set<string>, allowedTools: set<string>,
                          available: set<string>)
    ensures IdsOk(plan.steps) <==> !Fails(plan, DuplicateOrEmptyId, approvedObjectives, allowedTools, available)
    ensures DependenciesOk(plan.steps) <==> !Fails(plan, InvalidDependency, approvedObjectives, allowedTools, available)
  {
    hide DependenciesOk, Dangling, Listed;
    DanglingExactly(plan.steps);
    ListedExactly(plan.steps, "");
    assert forall i | 0 <= i < |plan.steps| :: StepIds(plan.steps)[i] == plan.steps[i].stepId;
  }

  /** The first check that the plan fails is the `k`-th. */
  ghost predicate FirstFailed(plan: ProposedPlan, k: nat, approvedObjectives: set<string>, allowedTools: set<string>,
                              available: set<string>)
  {
    && k < 9 && Fails(plan, Checks()[k], approvedObjectives, allowedTools, available)
    && forall j | 0 <= j < k :: !Fails(plan, Checks()[j], approvedObjectives, allowedTools, available)
  }

  /** A plan is denied exactly when it fails a check, and for the first one it fails. */
  lemma DeniedExactly(plan: ProposedPlan, approvedObjectives: set<string>, allowedTools: set<string>,
                      available: set<string>)
    ensures match PlanDenial(plan, approvedObjectives, allowedTools, available)
            case None => forall e :: !Fails(plan, e, approvedObjectives, allowedTools, available)
            case Some(e) =>
              exists k: nat :: FirstFailed(plan, k, approvedObjectives, allowedTools, available)
                && (if k == 7 then exists i: nat, n: nat :: DeniedAt(plan.steps, i, n, allowedTools, available)
                                                            && StepChecks()[n] == e
                    else e == Checks()[k])
  {
    hide GraphOf, StepFails, StepsDenial, ToolSteps, HeaderDenial, IdsOk, DependenciesOk, DeniedAt, StepChecks, Tools,
         AnyStepFails, Fails;
    StepsDeniedExactly(plan.steps, allowedTools, available);
    ToolsCounted(plan.steps);
    HeaderExactly(plan, approvedObjectives, allowedTools, available);
    GraphFailsExactly(plan, approvedObjectives, allowedTools, available);
    LaterChecks(plan, approvedObjectives, allowedTools, available);
    if PlanDenial(plan, approvedObjectives, allowedTools, available).Some? {
      var k: nat := match PlanDenial(plan, approvedObjectives, allowedTools, available).value
        case ObjectiveNotApproved => 0 case LimitExceeded => 1 case BudgetExceeded => 2 case LineageRequired => 3
        case DuplicateOrEmptyId => 4 case InvalidDependency => 5 case CyclicPlan => 6 case ToolBudgetUnderstated => 8
        case _ => 7;
      assert FirstFailed(plan, k, approvedObjectives, allowedTools, available);
    }
  }

  lemma LaterChecks(plan: ProposedPlan, approvedObjectives: set<string>, allowedTools: set<string>,
                    available: set<string>)
    ensures Fails(plan, CyclicPlan, approvedObjectives, allowedTools, available) <==> Cyclic(plan.steps)
    ensures Fails(plan, ToolBudgetUnderstated, approvedObjectives, allowedTools, available)
            <==> |Tools(plan.steps)| > plan.estimatedToolCalls
    ensures forall e | e !in {ObjectiveNotApproved, LimitExceeded, BudgetExceeded, LineageRequired, DuplicateOrEmptyId,
                              InvalidDependency, CyclicPlan, ToolBudgetUnderstated} ::
              Fails(plan, e, approvedObjectives, allowedTools, available)
              <==> AnyStepFails(plan.steps, allowedTools, available)
    ensures Fails(plan, ForbiddenStep, approvedObjectives, allowedTools, available)
            <==> AnyStepFails(plan.steps, allowedTools, available)
  {
  }

  /** `validate_plan`: the first failing check decides, in the program's order; a plan that
      passes leaves with its canonical order, its greatest step risk and the digest of plan
      and order. */
  method ValidatePlan(plan: ProposedPlan, approvedObjectives: set<string>, allowedTools: set<string>,
                      available: set<string>, digest: (ProposedPlan, seq<string>) -> string)
    returns (r: Result<ValidatedPlan, Denial>)
    ensures match PlanDenial(plan, approvedObjectives, allowedTools, available)
            case Some(denial) => r == Err(denial)
            case None => r.Ok? && Canonical(GraphOf(plan.steps), r.value.orderedStepIds)
                         && r.value.planSha256 == digest(plan, r.value.orderedStepIds)
                         && GreatestRisk(plan.steps, r.value.maximumRisk)
  {
    hide Canonical, Cycle, IdsOk, DependenciesOk, StepsDenial, GreatestRisk, GraphOf, ToolSteps;
    if plan.tenantId == "" || plan.incidentId == "" || plan.objectiveId !in approvedObjectives
      || plan.objectiveId in FORBIDDEN_GOALS {
      return Err(ObjectiveNotApproved);
    }
    if plan.steps == [] || |plan.steps| > MAX_PLAN_STEPS || plan.replanCount < 0 || plan.replanCount > MAX_REPLANS {
      return Err(LimitExceeded);
    }
    if plan.estimatedTokens > MAX_PLAN_TOKENS || plan.estimatedToolCalls > MAX_TOOL_CALLS
       || plan.estimatedDurationSeconds > MAX_PLAN_DURATION_SECONDS {
      return Err(BudgetExceeded);
    }
    if plan.version != plan.replanCount + 1
       || (plan.replanCount > 0 && (plan.parentPlanSha256.None? || |plan.parentPlanSha256.value| != 64)) {
      return Err(LineageRequired);
    }
    var sorted := Topological(plan.steps);
    if sorted.Err? {
      return Err(sorted.error);
    }
    var checked := CheckSteps(plan.steps, allowedTools, available);
    if checked.Err? {
      return Err(checked.error);
    }
    if checked.value.0 > plan.estimatedToolCalls {
      return Err(ToolBudgetUnderstated);
    }
    return Ok(ValidatedPlan(sorted.value, checked.value.1, digest(plan, sorted.value)));
  }

  ghost predicate GreatestRisk(steps: seq<PlanStep>, top: Risk) {
    && (exists s :: s in steps && s.risk == top)
    && (forall s | s in steps ::
          match top
          case High => true
          case Medium => s.risk != High
          case Low => s.risk in {ReadOnly, Low}
          case ReadOnly => s.risk == ReadOnly)
  }

  lemma GreatestBySeverity(steps: seq<PlanStep>, top: Risk)
    requires exists k :: 0 <= k < |steps| && steps[k].risk == top
    requires forall k | 0 <= k < |steps| :: Severity(steps[k].risk) <= Severity(top)
    ensures GreatestRisk(steps, top)
  {
    var k :| 0 <= k < |steps| && steps[k].risk == top;
    assert steps[k] in steps;
  }

  /** The loop over the steps, with their number of tool calls and their greatest risk. */
  method CheckSteps(steps: seq<PlanStep>, allowedTools: set<string>, available: set<string>)
    returns (r: Result<(nat, Risk), Denial>)
    requires steps != []
    ensures match StepsDenial(steps, allowedTools, available)
            case Some(denial) => r == Err(denial)
            case None => r.Ok? && r.value.0 == ToolSteps(steps) && GreatestRisk(steps, r.value.1)
  {
    hide GreatestRisk, Severity;
    var tools, top := 0, steps[0].risk;
    for i := 0 to |steps|
      invariant StepsDenial(steps[i..], allowedTools, available) == StepsDenial(steps, allowedTools, available)
      invariant tools == ToolSteps(steps[..i])
      invariant exists k :: 0 <= k < |steps| && steps[k].risk == top
      invariant forall k | 0 <= k < i :: Severity(steps[k].risk) <= Severity(top)
    {
      var s := steps[i];
      assert steps[i..][0] == s && steps[i..][1..] == steps[i + 1..];
      assert steps[..i + 1][..i] == steps[..i];
      if s.objective in FORBIDDEN_GOALS { return Err(ForbiddenStep); }
      if s.toolId.Some? && s.toolId.value != "" && s.toolId.value !in allowedTools { return Err(ToolOutsideAllowlist); }
      if s.risk != ReadOnly && s.requiredEvidenceIds == [] { return Err(EvidenceRequired); }
      if !(SetOf(s.requiredEvidenceIds) <= available) { return Err(EvidenceUnavailable); }
      if s.expectedOutput == "" { return Err(OutputMissing); }
      tools := tools + if s.toolId.Some? then 1 else 0;
      top := if Severity(s.risk) > Severity(top) then s.risk else top;
    }
    assert steps[..|steps|] == steps;
    GreatestBySeverity(steps, top);
    return Ok((tools, top));
  }
}
