/** The deny-by-default policy over roles, capabilities and request attributes. */
module AuthorizationPolicy {
  import opened Prelude
  import opened SessionModel

  function RoleCapabilities(r: Role): set<string> {
    match r
    case Viewer => {"incident:read"}
    case ServiceDesk => {"incident:read", "incident:update", "diagnostic:run", "remediation:request"}
    case SeniorEngineer => {"incident:read", "incident:update", "diagnostic:run", "remediation:request"}
    case Approver => {"incident:read", "remediation:approve"}
    case TenantAdmin =>
      {"incident:read", "incident:update", "diagnostic:run", "remediation:request", "remediation:approve",
       "tenant:manage"}
    case PlatformAdmin => {"platform:manage"}
  }

  const STEP_UP_ACTIONS := {"remediation:approve", "remediation:execute", "tenant:manage", "platform:manage"}

  datatype Resource = Resource(tenantId: string, resourceId: string, classification: string)

  datatype Request = Request(deviceTrust: string, riskLevel: string, stepUpVerified: bool)

  datatype Decision = Decision(allowed: bool, reason: string, requiresStepUp: bool)

  predicate MayDo(p: Principal, action: string) {
    action in p.capabilities || exists r :: r in p.roles && action in RoleCapabilities(r)
  }

  predicate NeedsStepUp(action: string, q: Request) {
    action in STEP_UP_ACTIONS || q.riskLevel == "elevated"
  }

  function Evaluated(principal: Option<Principal>, action: string, res: Resource, q: Request): Decision {
    if principal.None? then Decision(false, "unauthenticated", false)
    else
      var p := principal.value;
      if p.tenantId != res.tenantId && PlatformAdmin !in p.roles then Decision(false, "cross_tenant_denied", false)
      else if !MayDo(p, action) then Decision(false, "capability_denied", false)
      else if q.riskLevel == "blocked" then Decision(false, "risk_policy_denied", false)
      else if res.classification == "restricted" && q.deviceTrust != "managed"
        then Decision(false, "managed_device_required", false)
      else if NeedsStepUp(action, q) && !q.stepUpVerified then Decision(false, "step_up_required", true)
      else Decision(true, "allowed", NeedsStepUp(action, q))
  }

  /** The capabilities a principal holds directly or through a role. */
  method EffectiveCapabilities(p: Principal) returns (effective: set<string>)
    ensures forall action :: action in effective <==> MayDo(p, action)
  {
    effective := p.capabilities;
    var rest := p.roles;
    while rest != {}
      invariant rest <= p.roles
      invariant forall action :: action in effective
                  <==> action in p.capabilities || exists r :: r in p.roles - rest && action in RoleCapabilities(r)
      decreases |rest|
    {
      hide RoleCapabilities;
      var role :| role in rest;
      ghost var before, done := effective, p.roles - rest;
      effective := effective + RoleCapabilities(role);
      rest := rest - {role};
      assert p.roles - rest == done + {role};
    }
    assert p.roles - rest == p.roles;
  }

  method Evaluate(principal: Option<Principal>, action: string, res: Resource, q: Request) returns (d: Decision)
    ensures d == Evaluated(principal, action, res, q)
  {
    if principal.None? {
      return Decision(false, "unauthenticated", false);
    }
    var p := principal.value;
    if p.tenantId != res.tenantId && PlatformAdmin !in p.roles {
      return Decision(false, "cross_tenant_denied", false);
    }
    var effective := EffectiveCapabilities(p);
    if action !in effective {
      return Decision(false, "capability_denied", false);
    }
    if q.riskLevel == "blocked" {
      return Decision(false, "risk_policy_denied", false);
    }
    if res.classification == "restricted" && q.deviceTrust != "managed" {
      return Decision(false, "managed_device_required", false);
    }
    var needsStepUp := action in STEP_UP_ACTIONS || q.riskLevel == "elevated";
    if needsStepUp && !q.stepUpVerified {
      return Decision(false, "step_up_required", true);
    }
    return Decision(true, "allowed", needsStepUp);
  }

  /** A denial asks for a step-up exactly when a verified step-up is all that is missing. */
  lemma StepUpIsAllThatIsMissing(principal: Option<Principal>, action: string, res: Resource, q: Request)
    ensures var d, verified := Evaluated(principal, action, res, q),
            Evaluated(principal, action, res, q.(stepUpVerified := true));
            !d.allowed && d.requiresStepUp <==> !d.allowed && verified.allowed
  {
    hide MayDo;
  }

  /** `q` is gained from `p` by adding roles and capabilities. */
  ghost predicate Gains(p: Principal, q: Principal) {
    p.tenantId == q.tenantId && p.roles <= q.roles && p.capabilities <= q.capabilities
  }

  /** More roles and capabilities never turn an allowed action into a denied one, and a
      verified step-up never does. */
  lemma PrivilegesAreMonotone(p: Principal, p2: Principal, action: string, res: Resource, q: Request)
    requires Gains(p, p2) && Evaluated(Some(p), action, res, q).allowed
    ensures Evaluated(Some(p2), action, res, q).allowed
    ensures Evaluated(Some(p2), action, res, q.(stepUpVerified := true)).allowed
  {
    hide RoleCapabilities;
    if action !in p.capabilities {
      var r :| r in p.roles && action in RoleCapabilities(r);
      assert r in p2.roles;
    }
  }

  /** Who may do what, seen from the action: held directly, or through one of the roles that
      carry it. */
  ghost predicate Entitled(p: Principal, action: string) {
    || action in p.capabilities
    || (action == "incident:read" && exists r :: r in p.roles && r != PlatformAdmin)
    || ((action == "incident:update" || action == "diagnostic:run" || action == "remediation:request")
        && (ServiceDesk in p.roles || SeniorEngineer in p.roles || TenantAdmin in p.roles))
    || (action == "remediation:approve" && (Approver in p.roles || TenantAdmin in p.roles))
    || (action == "tenant:manage" && TenantAdmin in p.roles)
    || (action == "platform:manage" && PlatformAdmin in p.roles)
  }

  lemma CarriedBy(r: Role, action: string)
    ensures action in RoleCapabilities(r)
       <==> || (action == "incident:read" && r != PlatformAdmin)
            || ((action == "incident:update" || action == "diagnostic:run" || action == "remediation:request")
                && r in {ServiceDesk, SeniorEngineer, TenantAdmin})
            || (action == "remediation:approve" && r in {Approver, TenantAdmin})
            || (action == "tenant:manage" && r == TenantAdmin)
            || (action == "platform:manage" && r == PlatformAdmin)
  {
  }

  lemma MayDoExactly(p: Principal, action: string)
    ensures MayDo(p, action) <==> Entitled(p, action)
  {
    forall r ensures action in RoleCapabilities(r)
       <==> || (action == "incident:read" && r != PlatformAdmin)
            || ((action == "incident:update" || action == "diagnostic:run" || action == "remediation:request")
                && r in {ServiceDesk, SeniorEngineer, TenantAdmin})
            || (action == "remediation:approve" && r in {Approver, TenantAdmin})
            || (action == "tenant:manage" && r == TenantAdmin)
            || (action == "platform:manage" && r == PlatformAdmin)
    {
      CarriedBy(r, action);
    }
    hide RoleCapabilities;
  }

  /** An action that needs a step-up: approving, executing, managing, or anything at elevated risk. */
  ghost predicate Delicate(action: string, q: Request) {
    || action == "remediation:approve" || action == "remediation:execute"
    || action == "tenant:manage" || action == "platform:manage"
    || q.riskLevel == "elevated"
  }

  /** The decision, its reason and whether it asks for a step-up, for every request: the first
      thing that is missing decides. */
  lemma DecidesExactly(principal: Option<Principal>, action: string, res: Resource, q: Request)
    ensures var d := Evaluated(principal, action, res, q);
            var known := principal.Some?;
            var home := known && (principal.value.tenantId == res.tenantId || PlatformAdmin in principal.value.roles);
            var entitled := home && Entitled(principal.value, action);
            var calm := entitled && q.riskLevel != "blocked";
            var managed := calm && (res.classification == "restricted" ==> q.deviceTrust == "managed");
            var granted := managed && (Delicate(action, q) ==> q.stepUpVerified);
            && d.allowed == granted
            && d.requiresStepUp == (managed && Delicate(action, q))
            && d.reason == (if !known then "unauthenticated" else if !home then "cross_tenant_denied"
                            else if !entitled then "capability_denied" else if !calm then "risk_policy_denied"
                            else if !managed then "managed_device_required" else if !granted then "step_up_required"
                            else "allowed")
  {
    if principal.Some? {
      MayDoExactly(principal.value, action);
    }
    assert NeedsStepUp(action, q) <==> Delicate(action, q);
    hide MayDo, Entitled;
  }

  /** What an allowed action always rests on. */
  lemma AllowedMeans(principal: Option<Principal>, action: string, res: Resource, q: Request)
    ensures Evaluated(principal, action, res, q).allowed
       <==> && principal.Some? && MayDo(principal.value, action)
            && (principal.value.tenantId == res.tenantId || PlatformAdmin in principal.value.roles)
            && q.riskLevel != "blocked" && (res.classification == "restricted" ==> q.deviceTrust == "managed")
            && (NeedsStepUp(action, q) ==> q.stepUpVerified)
  {
    hide MayDo;
  }
}
