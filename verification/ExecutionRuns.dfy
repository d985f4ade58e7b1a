/** The engine, the gate and the dispatcher over whole runs. */
module ExecutionRuns {
  import opened Prelude
  import opened ExecutionModel
  import opened ExecutionLaws

  datatype Op =
    | Register(spec: ToolSpec)
    | IssueGrant(ctx: Context, fingerprint: string, id: string, now: real, ttl: real)
    | ConsumeGrant(ctx: Context, fingerprint: string, id: string, now: real)
    | Prepare(ctx: Context, incident: Incident, w: World)
    | ApproveAndExecute(ctx: Context, incident: Incident, prepared: Outcome, approval: Option<Grant>, id: string,
                        w: World)

  /** The gate with the calls on record, and the tools registered at the moment. */
  datatype Runtime = Runtime(system: System, specs: Specs)

  function SystemAfter(s: System, specs: Specs, sha: string -> string, op: Op): System {
    match op
    case Register(_) => s
    case IssueGrant(ctx, fingerprint, id, now, ttl) =>
      if APPROVE_CAPABILITY in ctx.capabilities
      then s.(gate := s.gate[id := Approval(NewGrant(ctx, fingerprint, id, now, ttl), false)]) else s
    case ConsumeGrant(ctx, fingerprint, id, now) =>
      if ConsumeRefusal(s.gate, ctx, fingerprint, id, now).None? then s.(gate := Consumed(s.gate, id)) else s
    case Prepare(ctx, incident, w) => Prepared(s, specs, ctx, incident, w).system
    case ApproveAndExecute(ctx, incident, prepared, approval, id, w) =>
      Approved(s, specs, ctx, incident, prepared, approval, id, w, sha).system
  }

  function SpecsAfter(specs: Specs, op: Op): Specs {
    if op.Register? then specs[op.spec.name := op.spec] else specs
  }

  function Step(r: Runtime, sha: string -> string, op: Op): Runtime {
    Runtime(SystemAfter(r.system, r.specs, sha, op), SpecsAfter(r.specs, op))
  }

  /** New approval ids are drawn fresh. */
  ghost predicate Fresh(s: System, op: Op) {
    match op
    case IssueGrant(_, _, id, _, _) => id !in s.gate
    case ApproveAndExecute(_, _, _, _, id, _) => id !in s.gate
    case _ => true
  }

  ghost predicate FreshRun(r: Runtime, sha: string -> string, ops: seq<Op>)
    decreases |ops|
  {
    ops == [] || (Fresh(r.system, ops[0]) && FreshRun(Step(r, sha, ops[0]), sha, ops[1..]))
  }

  function Run(r: Runtime, sha: string -> string, ops: seq<Op>): Runtime
    decreases |ops|
  {
    if ops == [] then r else Run(Step(r, sha, ops[0]), sha, ops[1..])
  }

  lemma StepKeeps(s: System, specs: Specs, sha: string -> string, op: Op)
    requires Sound(s) && Fresh(s, op)
    ensures Sound(SystemAfter(s, specs, sha, op)) && GateGrows(s.gate, SystemAfter(s, specs, sha, op).gate)
  {
    hide Sound, Approved;
    match op {
      case Register(_) =>
      case IssueGrant(ctx, fingerprint, id, now, ttl) =>
        IssueKeeps(s, NewGrant(ctx, fingerprint, id, now, ttl));
      case ConsumeGrant(ctx, fingerprint, id, now) =>
        if ConsumeRefusal(s.gate, ctx, fingerprint, id, now).None? {
          ConsumeKeeps(s, ctx, fingerprint, id, now);
        }
      case Prepare(ctx, incident, w) =>
        PlainCallKeeps(s, specs, ctx, DiagnosticRequest(incident, w.clock(4)));
      case ApproveAndExecute(ctx, incident, prepared, approval, id, w) =>
        ApprovedKeeps(s, specs, ctx, incident, prepared, approval, id, w, sha);
    }
  }

  /** Over every run, also one that registers and replaces tools as it goes: each approved
      handler call has its own grant, consumed for it while unexpired and matching its
      tenant, session and plan; no tool that is mutating at its call runs without. */
  lemma {:induction false} RunKeeps(r: Runtime, sha: string -> string, ops: seq<Op>)
    requires Sound(r.system) && FreshRun(r, sha, ops)
    ensures Sound(Run(r, sha, ops).system) && GateGrows(r.system.gate, Run(r, sha, ops).system.gate)
    decreases |ops|
  {
    hide Sound, SystemAfter, SpecsAfter, Fresh;
    if ops != [] {
      StepKeeps(r.system, r.specs, sha, ops[0]);
      RunKeeps(Step(r, sha, ops[0]), sha, ops[1..]);
    }
  }

  /** In particular from an empty gate, whatever tools are registered at the start. */
  lemma RunFromStart(specs: Specs, sha: string -> string, ops: seq<Op>)
    requires FreshRun(Runtime(System(map[], []), specs), sha, ops)
    ensures Sound(Run(Runtime(System(map[], []), specs), sha, ops).system)
  {
    RunKeeps(Runtime(System(map[], []), specs), sha, ops);
  }

  /** A grant that has been spent is refused in every later state, for every caller. */
  lemma SpentGrantIsRefused(r: Runtime, sha: string -> string, ops: seq<Op>, ctx: Context, fingerprint: string,
                            id: string, now: real)
    requires Sound(r.system) && FreshRun(r, sha, ops) && id in r.system.gate && r.system.gate[id].consumed
    ensures ConsumeRefusal(Run(r, sha, ops).system.gate, ctx, fingerprint, id, now) == Some(ApprovalConsumed)
  {
    RunKeeps(r, sha, ops);
  }

  // ---- the plan and what runs

  /** The call does what the plan says: its tool, its device, its action. */
  predicate Follows(q: ToolRequest, p: Plan) {
    q.tool == p.toolName && q.resource == p.resourceId && "action" in q.args && q.args["action"] == p.action
  }

  lemma FollowsExactly(origin: Incident, incident: Incident, now: real)
    ensures Follows(RemediationRequest(incident, PlanFor(origin).action, now), PlanFor(origin))
       <==> incident.domain == origin.domain && incident.deviceId == origin.deviceId
  {
    hide ActionFor;
    assert RouteOf(Outlook).remediationTool[4] != RouteOf(Printer).remediationTool[4];
  }

  lemma VerifiedAppends(s: System, specs: Specs, ctx: Context, incident: Incident, prepared: Outcome, grant: Grant,
                        remediation: ToolResult, events: seq<Event>, w: World)
    ensures s.invoked <= Verified(s, specs, ctx, incident, prepared, grant, remediation, events, w).system.invoked
  {
    hide Executed, Log;
  }

  /** The first call that follows a consumed approval is the approved remediation. */
  lemma RemediatedCall(s: System, specs: Specs, ctx: Context, incident: Incident, prepared: Outcome, grant: Grant,
                       spent: Spent, w: World)
    ensures var t := Remediated(s, specs, ctx, incident, prepared, grant, spent, w).system;
            |t.invoked| > |s.invoked| ==>
              t.invoked[|s.invoked|].spent == Some(spent)
              && t.invoked[|s.invoked|].request == RemediationRequest(incident, prepared.plan.action, w.clock(2))
  {
    hide Settled, Log, Admission, RemediationRequest, Verified;
    var q := RemediationRequest(incident, prepared.plan.action, w.clock(2));
    var called := Called(s, specs, ctx, q, Some(spent));
    var events := Log(Log(prepared.events, AWAITING_APPROVAL, "approval_consumed", ctx), REMEDIATING,
                      "remediation_completed", ctx);
    if Executed(specs, ctx, q, w.handling(0)).Ok? {
      VerifiedAppends(called, specs, ctx, incident, prepared, grant, Executed(specs, ctx, q, w.handling(0)).value,
                      events, w);
    }
  }

  lemma OnDevice(incident: Incident, action: string, now: real)
    ensures RemediationRequest(incident, action, now).resource == incident.deviceId
  {
  }

  /** The approved call of an execution, if there was one, was made for a grant given for the
      plan of the incident that was prepared; it follows that plan exactly when the incident
      executed agrees with the prepared one in domain and device. */
  lemma ApprovedCallFollowsPlan(s: System, specs: Specs, ctx: Context, origin: Incident, incident: Incident,
                                prepared: Outcome, approval: Option<Grant>, id: string, w: World, sha: string -> string)
    requires PreparedFor(prepared, origin)
    requires |Approved(s, specs, ctx, incident, prepared, approval, id, w, sha).system.invoked| > |s.invoked|
    ensures var call := Approved(s, specs, ctx, incident, prepared, approval, id, w, sha).system.invoked[|s.invoked|];
            && call.spent.Some? && call.spent.value.planFingerprint == sha(FingerprintText(PlanFor(origin)))
            && call.request.resource == incident.deviceId
            && (Follows(call.request, PlanFor(origin))
                <==> incident.domain == origin.domain && incident.deviceId == origin.deviceId)
  {
    hide PreparedFor, Remediated, ConsumeRefusal, Consumed, FingerprintText, Follows, RemediationRequest, PlanFor;
    PreparedOutcome(prepared, origin);
    var grant := GrantUsed(ctx, prepared, approval, id, w, sha);
    var issued := if approval.Some? then s else s.(gate := s.gate[id := Approval(grant, false)]);
    RemediatedCall(issued.(gate := Consumed(issued.gate, grant.approvalId)), specs, ctx, incident, prepared, grant,
                   Spent(grant.approvalId, ctx.tenantId, ctx.sessionId, sha(FingerprintText(prepared.plan)),
                         w.clock(1)), w);
    OnDevice(incident, PlanFor(origin).action, w.clock(2));
    FollowsExactly(origin, incident, w.clock(2));
  }

  /** An approved call does what some routed plan says, and it was that plan's fingerprint
      that its approval was given for. */
  ghost predicate Planned(i: Invocation, sha: string -> string) {
    i.spent.Some? ==>
      exists origin: Incident :: i.spent.value.planFingerprint == sha(FingerprintText(PlanFor(origin)))
                              && Follows(i.request, PlanFor(origin))
  }

  ghost predicate AllPlanned(s: System, sha: string -> string) {
    forall i | i in s.invoked :: Planned(i, sha)
  }

  /** An execution is asked for with the incident its outcome was prepared for. */
  ghost predicate SameIncident(op: Op) {
    op.ApproveAndExecute? ==> PreparedFor(op.prepared, op.incident)
  }

  lemma CalledPlanned(s: System, specs: Specs, ctx: Context, q: ToolRequest, spent: Option<Spent>,
                      sha: string -> string)
    requires AllPlanned(s, sha) && forall mutating :: Planned(Invocation(q, mutating, spent), sha)
    ensures AllPlanned(Called(s, specs, ctx, q, spent), sha)
  {
  }

  lemma ApprovedPlanned(s: System, specs: Specs, ctx: Context, incident: Incident, prepared: Outcome,
                        approval: Option<Grant>, id: string, w: World, sha: string -> string)
    requires AllPlanned(s, sha) && PreparedFor(prepared, incident)
    ensures AllPlanned(Approved(s, specs, ctx, incident, prepared, approval, id, w, sha).system, sha)
  {
    hide PreparedFor, Called, Executed, AllPlanned, Planned, ConsumeRefusal, Consumed, FingerprintText, RouteOf,
         ActionFor, Log;
    PreparedOutcome(prepared, incident);
    var grant := GrantUsed(ctx, prepared, approval, id, w, sha);
    var issued := if approval.Some? then s else s.(gate := s.gate[id := Approval(grant, false)]);
    var t := issued.(gate := Consumed(issued.gate, grant.approvalId));
    var spent := Spent(grant.approvalId, ctx.tenantId, ctx.sessionId, sha(FingerprintText(prepared.plan)), w.clock(1));
    SamePlanned(s, issued, sha);
    SamePlanned(s, t, sha);
    var q := RemediationRequest(incident, prepared.plan.action, w.clock(2));
    RequestPlanned(incident, w.clock(2), spent, sha);
    CalledPlanned(t, specs, ctx, q, Some(spent), sha);
    var called := Called(t, specs, ctx, q, Some(spent));
    PlainPlanned(VerificationRequest(incident, w.clock(3)), sha);
    CalledPlanned(called, specs, ctx, VerificationRequest(incident, w.clock(3)), None, sha);
  }

  lemma SamePlanned(s: System, t: System, sha: string -> string)
    requires AllPlanned(s, sha) && t.invoked == s.invoked
    ensures AllPlanned(t, sha)
  {
  }

  lemma PlainPlanned(q: ToolRequest, sha: string -> string)
    ensures forall mutating :: Planned(Invocation(q, mutating, None), sha)
  {
  }

  lemma RequestPlanned(incident: Incident, now: real, spent: Spent, sha: string -> string)
    requires spent.planFingerprint == sha(FingerprintText(PlanFor(incident)))
    ensures forall mutating :: Planned(Invocation(RemediationRequest(incident, PlanFor(incident).action, now), mutating,
                                                  Some(spent)), sha)
  {
    hide Follows, PlanFor, FingerprintText, RemediationRequest;
    FollowsExactly(incident, incident, now);
  }

  lemma StepPlanned(s: System, specs: Specs, sha: string -> string, op: Op)
    requires AllPlanned(s, sha) && SameIncident(op)
    ensures AllPlanned(SystemAfter(s, specs, sha, op), sha)
  {
    hide AllPlanned, Planned, Approved, Called, Executed, PreparedFor;
    SamePlanned(s, s, sha);
    match op {
      case Register(_) =>
      case IssueGrant(ctx, fingerprint, id, now, ttl) =>
        SamePlanned(s, SystemAfter(s, specs, sha, op), sha);
      case ConsumeGrant(ctx, fingerprint, id, now) =>
        SamePlanned(s, SystemAfter(s, specs, sha, op), sha);
      case Prepare(ctx, incident, w) =>
        PlainPlanned(DiagnosticRequest(incident, w.clock(4)), sha);
        CalledPlanned(s, specs, ctx, DiagnosticRequest(incident, w.clock(4)), None, sha);
      case ApproveAndExecute(ctx, incident, prepared, approval, id, w) =>
        ApprovedPlanned(s, specs, ctx, incident, prepared, approval, id, w, sha);
    }
  }

  /** Over every run in which executions name the incident they were prepared for: the action
      an approved call carries out, its tool and its device are what its approval was given
      for. */
  lemma {:induction false} RunPlanned(r: Runtime, sha: string -> string, ops: seq<Op>)
    requires AllPlanned(r.system, sha) && forall op | op in ops :: SameIncident(op)
    ensures AllPlanned(Run(r, sha, ops).system, sha)
    decreases |ops|
  {
    hide AllPlanned, SystemAfter, SpecsAfter, SameIncident;
    if ops != [] {
      StepPlanned(r.system, r.specs, sha, ops[0]);
      RunPlanned(Step(r, sha, ops[0]), sha, ops[1..]);
    }
  }

  // ---- which calls are made, in which order

  /** The call is a diagnosis, a repair or a verification of some incident, as the engine asks
      for them. */
  ghost predicate Told(i: Invocation) {
    exists incident: Incident, action: string, at: real :: ToldOf(i, incident, action, at)
  }

  ghost predicate ToldOf(i: Invocation, incident: Incident, action: string, at: real) {
    || Asks(i, DiagnoseTool(incident.domain), incident, at)
    || Repairs(i, incident, action, at)
    || Asks(i, VerifyTool(incident.domain), incident, at)
  }

  ghost predicate Verifies(i: Invocation) {
    i.request.tool == "mcp.outlook.verify" || i.request.tool == "mcp.printer.verify"
  }

  /** The approved call before a verification is about the same device and incident. */
  ghost predicate After(repair: Invocation, i: Invocation) {
    && repair.spent.Some? && repair.request.approved
    && repair.request.resource == i.request.resource && repair.request.domain == i.request.domain
    && "incident_id" in repair.request.args && "incident_id" in i.request.args
    && repair.request.args["incident_id"] == i.request.args["incident_id"]
  }

  ghost predicate OrderlyAt(calls: seq<Invocation>, k: nat)
    requires k < |calls|
  {
    Told(calls[k]) && (Verifies(calls[k]) ==> k > 0 && After(calls[k - 1], calls[k]))
  }

  ghost predicate Orderly(calls: seq<Invocation>) {
    forall k: nat | k < |calls| :: OrderlyAt(calls, k)
  }

  lemma ToolsApart(d: Domain)
    ensures DiagnoseTool(d) !in {"mcp.outlook.verify", "mcp.printer.verify"}
    ensures RepairTool(d) !in {"mcp.outlook.verify", "mcp.printer.verify"}
  {
    assert |"mcp.outlook.verify"| == 18 && |"mcp.printer.verify"| == 18;
    assert |DiagnoseTool(d)| == 20 && |RepairTool(d)| == 21;
  }

  lemma OrderlyOne(calls: seq<Invocation>, i: Invocation)
    requires Orderly(calls) && Told(i) && (Verifies(i) ==> calls != [] && After(calls[|calls| - 1], i))
    ensures Orderly(calls + [i])
  {
    hide Told, After, Verifies;
    var more := calls + [i];
    forall k: nat | k < |more| ensures OrderlyAt(more, k) {
      if k < |calls| {
        assert OrderlyAt(calls, k);
        assert more[k] == calls[k] && (k > 0 ==> more[k - 1] == calls[k - 1]);
      } else {
        assert more[k] == i && (k > 0 ==> more[k - 1] == calls[k - 1]);
      }
    }
  }

  lemma OrderlyTwo(calls: seq<Invocation>, repair: Invocation, i: Invocation)
    requires Orderly(calls) && Told(repair) && !Verifies(repair) && Told(i) && After(repair, i)
    ensures Orderly(calls + [repair] + [i])
  {
    hide Told, After, Verifies, Orderly;
    OrderlyOne(calls, repair);
    OrderlyOne(calls + [repair], i);
  }

  /** Preparing adds nothing or a diagnosis. */
  lemma PreparedAdds(s: System, specs: Specs, ctx: Context, incident: Incident, w: World)
    ensures var calls := Prepared(s, specs, ctx, incident, w).system.invoked;
            || calls == s.invoked
            || exists i :: calls == s.invoked + [i] && Asks(i, DiagnoseTool(incident.domain), incident, w.clock(4))
  {
    hide PreparedEvents, Admission, IntakeRefusal, PlanFor, Settled;
    var calls := Prepared(s, specs, ctx, incident, w).system.invoked;
    if calls != s.invoked {
      var i := calls[|s.invoked|];
      assert calls == s.invoked + [i];
    }
  }

  lemma VerifiedAdds(s: System, specs: Specs, ctx: Context, incident: Incident, prepared: Outcome, grant: Grant,
                     remediation: ToolResult, events: seq<Event>, w: World)
    ensures var calls := Verified(s, specs, ctx, incident, prepared, grant, remediation, events, w).system.invoked;
            || calls == s.invoked
            || exists j :: calls == s.invoked + [j] && Asks(j, VerifyTool(incident.domain), incident, w.clock(3))
  {
    hide Admission, Settled, Log;
    var calls := Verified(s, specs, ctx, incident, prepared, grant, remediation, events, w).system.invoked;
    if calls != s.invoked {
      var j := calls[|s.invoked|];
      assert calls == s.invoked + [j];
    }
  }

  lemma RemediatedAdds(s: System, specs: Specs, ctx: Context, incident: Incident, prepared: Outcome, grant: Grant,
                       spent: Spent, w: World)
    ensures var calls := Remediated(s, specs, ctx, incident, prepared, grant, spent, w).system.invoked;
            || calls == s.invoked
            || (exists i :: calls == s.invoked + [i] && Repairs(i, incident, prepared.plan.action, w.clock(2)))
            || (exists i, j :: calls == s.invoked + [i] + [j] && Repairs(i, incident, prepared.plan.action, w.clock(2))
                              && Asks(j, VerifyTool(incident.domain), incident, w.clock(3)))
  {
    hide Admission, Settled, Log, Verified, Asks;
    var q := RemediationRequest(incident, prepared.plan.action, w.clock(2));
    var called := Called(s, specs, ctx, q, Some(spent));
    if Admission(specs, ctx, q).None? {
      var i := called.invoked[|s.invoked|];
      assert called.invoked == s.invoked + [i] && Repairs(i, incident, prepared.plan.action, w.clock(2));
      hide Repairs, RemediationRequest, Called;
      var r := Executed(specs, ctx, q, w.handling(0));
      if r.Ok? && r.value.ok {
        var noted := Log(Log(prepared.events, AWAITING_APPROVAL, "approval_consumed", ctx), REMEDIATING,
                         "remediation_completed", ctx);
        VerifiedAdds(called, specs, ctx, incident, prepared, grant, r.value, noted, w);
      }
    }
  }

  /** Executing adds nothing, a repair, or a repair and its verification. */
  lemma ApprovedAdds(s: System, specs: Specs, ctx: Context, incident: Incident, prepared: Outcome,
                     approval: Option<Grant>, id: string, w: World, sha: string -> string)
    ensures var calls := Approved(s, specs, ctx, incident, prepared, approval, id, w, sha).system.invoked;
            || calls == s.invoked
            || (exists i :: calls == s.invoked + [i] && Repairs(i, incident, prepared.plan.action, w.clock(2)))
            || (exists i, j :: calls == s.invoked + [i] + [j] && Repairs(i, incident, prepared.plan.action, w.clock(2))
                              && Asks(j, VerifyTool(incident.domain), incident, w.clock(3)))
  {
    hide Remediated, ConsumeRefusal, Consumed, FingerprintText, Repairs, Asks;
    var grant := GrantUsed(ctx, prepared, approval, id, w, sha);
    var issued := if approval.Some? then s else s.(gate := s.gate[id := Approval(grant, false)]);
    RemediatedAdds(issued.(gate := Consumed(issued.gate, grant.approvalId)), specs, ctx, incident, prepared, grant,
                   Spent(grant.approvalId, ctx.tenantId, ctx.sessionId, sha(FingerprintText(prepared.plan)),
                         w.clock(1)), w);
  }

  lemma StepOrderly(s: System, specs: Specs, sha: string -> string, op: Op)
    requires Orderly(s.invoked)
    ensures Orderly(SystemAfter(s, specs, sha, op).invoked)
  {
    hide Orderly, Prepared, Approved, Told, Verifies;
    match op {
      case Prepare(ctx, incident, w) =>
        PreparedAdds(s, specs, ctx, incident, w);
        var calls := Prepared(s, specs, ctx, incident, w).system.invoked;
        if i :| calls == s.invoked + [i] && Asks(i, DiagnoseTool(incident.domain), incident, w.clock(4)) {
          AskedIsTold(i, incident, w.clock(4));
          OrderlyOne(s.invoked, i);
        }
      case ApproveAndExecute(ctx, incident, prepared, approval, id, w) =>
        ApprovedAdds(s, specs, ctx, incident, prepared, approval, id, w, sha);
        var calls := Approved(s, specs, ctx, incident, prepared, approval, id, w, sha).system.invoked;
        if i :| calls == s.invoked + [i] && Repairs(i, incident, prepared.plan.action, w.clock(2)) {
          RepairIsTold(i, incident, prepared.plan.action, w.clock(2));
          OrderlyOne(s.invoked, i);
        } else if i, j :| calls == s.invoked + [i] + [j] && Repairs(i, incident, prepared.plan.action, w.clock(2))
                          && Asks(j, VerifyTool(incident.domain), incident, w.clock(3)) {
          RepairIsTold(i, incident, prepared.plan.action, w.clock(2));
          CheckIsTold(i, j, incident, prepared.plan.action, w.clock(2), w.clock(3));
          OrderlyTwo(s.invoked, i, j);
        }
      case _ =>
    }
  }

  lemma AskedIsTold(i: Invocation, incident: Incident, at: real)
    requires Asks(i, DiagnoseTool(incident.domain), incident, at)
    ensures Told(i) && !Verifies(i)
  {
    ToolsApart(incident.domain);
    assert ToldOf(i, incident, "", at);
  }

  lemma RepairIsTold(i: Invocation, incident: Incident, action: string, at: real)
    requires Repairs(i, incident, action, at)
    ensures Told(i) && !Verifies(i)
  {
    ToolsApart(incident.domain);
    assert ToldOf(i, incident, action, at);
  }

  lemma CheckIsTold(i: Invocation, j: Invocation, incident: Incident, action: string, at: real, later: real)
    requires Repairs(i, incident, action, at) && Asks(j, VerifyTool(incident.domain), incident, later)
    ensures Told(j) && After(i, j)
  {
    assert ToldOf(j, incident, "", later);
  }

  /** Over every run: each call is a diagnosis, an approved repair or a verification, of the
      right tool for its domain, and each verification directly follows the approved repair of
      the same device and incident. */
  lemma {:induction false} RunOrderly(r: Runtime, sha: string -> string, ops: seq<Op>)
    requires Orderly(r.system.invoked)
    ensures Orderly(Run(r, sha, ops).system.invoked)
    decreases |ops|
  {
    hide Orderly, SystemAfter, SpecsAfter;
    if ops != [] {
      StepOrderly(r.system, r.specs, sha, ops[0]);
      RunOrderly(Step(r, sha, ops[0]), sha, ops[1..]);
    }
  }

  lemma RunHead(r: Runtime, sha: string -> string, op: Op, rest: seq<Op>)
    ensures Run(r, sha, [op] + rest) == Run(Step(r, sha, op), sha, rest)
    ensures FreshRun(r, sha, [op] + rest) <==> Fresh(r.system, op) && FreshRun(Step(r, sha, op), sha, rest)
  {
    hide Step, Fresh;
    assert ([op] + rest)[1..] == rest;
  }

  lemma RunNothing(r: Runtime, sha: string -> string)
    ensures Run(r, sha, []) == r && FreshRun(r, sha, [])
  {
  }
}
