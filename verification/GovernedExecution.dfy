/** The approval gate, the dispatcher and the engine in the program's own form. */
module GovernedExecution {
  import opened Prelude
  import opened AgentLoopGuard
  import opened ExecutionModel

  class ApprovalRecord {
    const grant: Grant
    var consumed: bool

    constructor (grant: Grant)
      ensures this.grant == grant && !consumed
    {
      this.grant, consumed := grant, false;
    }

    function View(): Approval
      reads this
    {
      Approval(grant, consumed)
    }
  }

  class ApprovalGate {
    const sha: string -> string
    var records: map<string, ApprovalRecord>

    ghost predicate Valid()
      reads this
    {
      forall id | id in records :: records[id].grant.approvalId == id
    }

    ghost function View(): Gate
      reads this, records.Values
    {
      map id | id in records :: records[id].View()
    }

    constructor (sha: string -> string)
      ensures Valid() && View() == map[] && this.sha == sha
    {
      this.sha := sha;
      records := map[];
    }

    method Issue(ctx: Context, plan: Plan, now: real, ttl: real, id: string) returns (r: Result<Grant, Failure>)
      requires Valid() && id !in records
      modifies this
      ensures Valid() && fresh(records.Values - old(records.Values))
      ensures if APPROVE_CAPABILITY in ctx.capabilities then
                var g := NewGrant(ctx, sha(FingerprintText(plan)), id, now, ttl);
                r == Ok(g) && View() == old(View())[id := Approval(g, false)]
              else
                r == Err(MissingCapability(APPROVE_CAPABILITY)) && View() == old(View())
    {
      if APPROVE_CAPABILITY !in ctx.capabilities {
        return Err(MissingCapability(APPROVE_CAPABILITY));
      }
      var grant := NewGrant(ctx, sha(FingerprintText(plan)), id, now, ttl);
      var record := new ApprovalRecord(grant);
      records := records[id := record];
      return Ok(grant);
    }

    method Consume(ctx: Context, plan: Plan, id: string, now: real) returns (r: Result<Grant, Failure>)
      requires Valid()
      modifies records.Values
      ensures Valid()
      ensures match ConsumeRefusal(old(View()), ctx, sha(FingerprintText(plan)), id, now)
              case Some(f) => r == Err(f) && View() == old(View())
              case None => r == Ok(old(View())[id].grant) && View() == Consumed(old(View()), id)
    {
      if id !in records {
        return Err(ApprovalNotFound);
      }
      var record := records[id];
      var grant := record.grant;
      assert old(View())[id] == record.View();
      if record.consumed {
        return Err(ApprovalConsumed);
      }
      if grant.expiresAt <= now {
        return Err(ApprovalExpired);
      }
      if grant.tenantId != ctx.tenantId || grant.sessionId != ctx.sessionId {
        return Err(ApprovalContextMismatch);
      }
      if grant.planFingerprint != sha(FingerprintText(plan)) {
        return Err(ApprovalPlanMismatch);
      }
      record.consumed := true;
      assert forall j | j in records && j != id :: records[j] != record;
      return Ok(grant);
    }
  }

  class GovernedMcpDispatcher {
    var specs: Specs

    constructor ()
      ensures specs == map[]
    {
      specs := map[];
    }

    method Register(spec: ToolSpec)
      modifies this
      ensures specs == old(specs)[spec.name := spec]
    {
      specs := specs[spec.name := spec];
    }

    /** `h` is what the tool's handler does if it is called; `called` tells whether it was. */
    method Execute(ctx: Context, q: ToolRequest, h: Handling) returns (r: Result<ToolResult, Failure>, called: bool)
      ensures r == Executed(specs, ctx, q, h)
      ensures called <==> Admission(specs, ctx, q).None?
    {
      if q.tool !in specs {
        return Err(ToolNotRegistered), false;
      }
      var spec := specs[q.tool];
      if q.domain !in spec.allowedDomains {
        return Err(ToolDomainDenied), false;
      }
      if spec.requiredCapability !in ctx.capabilities {
        return Err(MissingCapability(spec.requiredCapability)), false;
      }
      if spec.mutating && !q.approved {
        return Err(ApprovalRequired), false;
      }
      var remaining := ctx.deadlineAt - q.now;
      if remaining <= 0.0 {
        return Err(ToolDeadlineExceeded), false;
      }
      if spec.timeoutSeconds > remaining {
        return Err(InsufficientTimeBudget), false;
      }
      match h {
        case RaisesToolError => return Err(ToolFailed), true;
        case RaisesOther => return Err(HandlerRaised), true;
        case Returns(result) =>
          if !ctx.SameTenant(result.tenantId) {
            return Err(CrossTenant), true;
          }
          if result.resourceId != q.resource {
            return Err(ResourceMismatch), true;
          }
          return Ok(result), true;
      }
    }

    method ExecuteWithFallback(ctx: Context, primary: string, fallback: Option<string>, domain: string,
                               resource: string, args: Args, now: real, first: Handling, second: Handling)
      returns (r: Result<ToolResult, Failure>, calls: seq<ToolRequest>)
      ensures Fallen(r, calls) == WithFallback(specs, ctx, primary, fallback, domain, resource, args, now, first,
                                               second)
    {
      calls := [];
      if primary !in specs {
        return Err(ToolNotRegistered), calls;
      }
      if specs[primary].mutating {
        return Err(FallbackForbidden), calls;
      }
      var q := ToolRequest(primary, domain, resource, args, now, false);
      var called: bool;
      r, called := Execute(ctx, q, first);
      calls := if called then [q] else [];
      if r.Ok? || !IsToolError(r.error) || fallback.None? {
        return;
      }
      if fallback.value !in specs {
        return Err(FallbackNotRegistered), calls;
      }
      if specs[fallback.value].mutating {
        return Err(FallbackForbidden), calls;
      }
      var q2 := ToolRequest(fallback.value, domain, resource, args, now, false);
      r, called := Execute(ctx, q2, second);
      calls := calls + if called then [q2] else [];
    }
  }

  /** `CitationVerifier.build`: a citation for each row, or why the rows cannot ground a plan.
      The assertion is the program's comparison of a citation's hash with its text's. */
  method CheckGrounding(ctx: Context, rows: seq<EvidenceRow>, digest: string -> string)
    returns (r: Option<Failure>, citations: seq<Citation>)
    ensures r == Grounding(ctx, rows)
    ensures r.None? ==> citations == CitationsOf(rows, digest)
  {
    citations := [];
    if rows == [] {
      return Some(NoGroundingEvidence), citations;
    }
    var seen := {};
    for i := 0 to |rows|
      invariant GroundingFrom(ctx, rows[i..], seen) == Grounding(ctx, rows)
      invariant citations == CitationsOf(rows[..i], digest)
    {
      assert rows[i..][0] == rows[i] && rows[i..][1..] == rows[i + 1..];
      if !ctx.SameTenant(rows[i].tenantId) {
        return Some(CrossTenant), citations;
      }
      if (rows[i].documentId, rows[i].chunkId) in seen {
        return Some(DuplicateCitation), citations;
      }
      seen := seen + {(rows[i].documentId, rows[i].chunkId)};
      var citation := CitationOf(rows[i], digest);
      assert citation.contentHash == digest(rows[i].text);
      citations := citations + [citation];
    }
    assert rows[..|rows|] == rows;
    return None, citations;
  }

  class DeskPilotExecutionEngine {
    const tools: GovernedMcpDispatcher
    const approvals: ApprovalGate
    /** Handler calls made so far, in order; the model's record, not a field of the program. */
    var invoked: seq<Invocation>

    ghost predicate Valid()
      reads approvals
    {
      approvals.Valid()
    }

    ghost function View(): System
      reads this, approvals, approvals.records.Values
    {
      System(approvals.View(), invoked)
    }

    constructor (tools: GovernedMcpDispatcher, approvals: ApprovalGate)
      requires approvals.Valid()
      ensures Valid() && this.tools == tools && this.approvals == approvals && invoked == []
    {
      this.tools, this.approvals, invoked := tools, approvals, [];
    }

    method Dispatch(ctx: Context, q: ToolRequest, h: Handling, spent: Option<Spent>)
      returns (r: Result<ToolResult, Failure>)
      requires Valid()
      modifies `invoked
      ensures Valid()
      ensures r == Executed(tools.specs, ctx, q, h)
      ensures View() == Called(old(View()), tools.specs, ctx, q, spent)
    {
      var called: bool;
      r, called := tools.Execute(ctx, q, h);
      if called {
        invoked := invoked + [Invocation(q, tools.specs[q.tool].mutating, spent)];
      }
    }

    /** The phases of `prepare` up to the route. The assertions are the program's
        transition checks. */
    method Intake(ctx: Context, incident: Incident, w: World, guard: LoopGuard)
      returns (refused: Option<Failure>, events: seq<Event>)
      requires guard.View() == Counters(0, map[]) && guard.bounds == DEFAULT_BOUNDS
      modifies guard
      ensures refused == IntakeRefusal(ctx, incident, w)
      ensures refused.None? ==> events == RoutedEvents(ctx) && guard.steps == 3
      ensures refused.None? ==> CountOf(guard.View(), RouteOf(incident.domain).diagnosticTool) == 0
    {
      hide Log, Grounding, Context.SameTenant;
      EdgesBefore();
      hide Edge;
      ToolIsNoPhase(incident.domain);
      hide RouteOf;
      events := [];
      if !ctx.SameTenant(incident.tenantId) {
        return Some(CrossTenant), events;
      }
      events := Log(events, INTAKE, "incident_accepted", ctx);

      assert Edge(INTAKE, RETRIEVING);
      var late := guard.Checkpoint("retrieve", w.clock(0), ctx.deadlineAt);
      if late.Some? { return Some(GuardFailure(late.value)), events; }
      events := Log(events, RETRIEVING, "evidence_retrieved", ctx);

      assert Edge(RETRIEVING, GROUNDING);
      late := guard.Checkpoint("ground", w.clock(1), ctx.deadlineAt);
      if late.Some? { return Some(GuardFailure(late.value)), events; }
      var ungrounded, citations := CheckGrounding(ctx, w.rows, approvals.sha);
      if ungrounded.Some? { return ungrounded, events; }
      events := Log(events, GROUNDING, "citations_verified", ctx);

      assert Edge(GROUNDING, ROUTING);
      late := guard.Checkpoint("route", w.clock(2), ctx.deadlineAt);
      if late.Some? { return Some(GuardFailure(late.value)), events; }
      if DIAGNOSE_CAPABILITY !in ctx.capabilities {
        return Some(MissingCapability(DIAGNOSE_CAPABILITY)), events;
      }
      events := Log(events, ROUTING, "agent_routed", ctx);
      return None, events;
    }

    /** `prepare`. Its own loop guard never refuses for steps or repetition: only a passed
        deadline can. */
    method Prepare(ctx: Context, incident: Incident, w: World) returns (r: Result<Outcome, Failure>)
      requires Valid()
      modifies `invoked
      ensures Valid()
      ensures Answer(View(), r) == Prepared(old(View()), tools.specs, ctx, incident, w)
    {
      hide Executed, Called, Log, IntakeRefusal, RoutedEvents, PlanFor, DiagnosticRequest;
      EdgesBefore();
      hide Edge;
      var guard := new LoopGuard(DEFAULT_BOUNDS);
      var refused, events := Intake(ctx, incident, w, guard);
      if refused.Some? { return Err(refused.value); }
      var route := RouteOf(incident.domain);
      hide RouteOf;
      var plan := PlanFor(incident);

      assert Edge(ROUTING, DIAGNOSING);
      var late := guard.Checkpoint(route.diagnosticTool, w.clock(3), ctx.deadlineAt);
      if late.Some? { return Err(GuardFailure(late.value)); }
      var diagnosis := Dispatch(ctx, DiagnosticRequest(incident, w.clock(4)), w.handling(0), None);
      if diagnosis.Err? { return Err(diagnosis.error); }
      events := Log(events, DIAGNOSING, "diagnostic_completed", ctx);

      assert Edge(DIAGNOSING, AWAITING_APPROVAL);
      events := Log(events, AWAITING_APPROVAL, "approval_required", ctx);
      return Ok(Outcome(AWAITING_APPROVAL, plan, w.rows, diagnosis.value, None, None, None, events));
    }

    /** `approve_and_execute`; `id` is what the gate draws if it has to issue a grant. */
    method ApproveAndExecute(ctx: Context, incident: Incident, prepared: Outcome, approval: Option<Grant>, id: string,
                             w: World)
      returns (r: Result<Outcome, Failure>)
      requires Valid() && id !in approvals.records
      modifies `invoked, approvals, approvals.records.Values
      ensures Valid() && fresh(approvals.records.Values - old(approvals.records.Values))
      ensures Answer(View(), r) == Approved(old(View()), tools.specs, ctx, incident, prepared, approval, id, w,
                                            approvals.sha)
    {
      hide Remediated, Executed, Called, FingerprintText, Consumed, ConsumeRefusal;
      if prepared.state != AWAITING_APPROVAL {
        return Err(NotAwaitingApproval);
      }
      if !ctx.SameTenant(incident.tenantId) {
        return Err(CrossTenant);
      }
      var plan := prepared.plan;
      var grant: Grant;
      if approval.None? {
        var issued := approvals.Issue(ctx, plan, w.clock(0), APPROVAL_TTL, id);
        if issued.Err? { return Err(issued.error); }
        grant := issued.value;
      } else {
        grant := approval.value;
      }
      var consumed := approvals.Consume(ctx, plan, grant.approvalId, w.clock(1));
      if consumed.Err? { return Err(consumed.error); }
      var spent := Spent(grant.approvalId, ctx.tenantId, ctx.sessionId, approvals.sha(FingerprintText(plan)),
                         w.clock(1));
      r := Remediate(ctx, incident, prepared, grant, spent, w);
    }

    method Remediate(ctx: Context, incident: Incident, prepared: Outcome, grant: Grant, spent: Spent, w: World)
      returns (r: Result<Outcome, Failure>)
      requires Valid()
      modifies `invoked
      ensures Valid()
      ensures Answer(View(), r) == Remediated(old(View()), tools.specs, ctx, incident, prepared, grant, spent, w)
    {
      hide Executed, Called, Log;
      var events := Log(prepared.events, AWAITING_APPROVAL, "approval_consumed", ctx);
      assert Edge(AWAITING_APPROVAL, REMEDIATING);
      var remediation := Dispatch(ctx, RemediationRequest(incident, prepared.plan.action, w.clock(2)), w.handling(0),
                                  Some(spent));
      if remediation.Err? { return Err(remediation.error); }
      events := Log(events, REMEDIATING, "remediation_completed", ctx);
      if !remediation.value.ok {
        return Ok(Outcome(FAILED, prepared.plan, prepared.rows, prepared.diagnosis, Some(remediation.value), None,
                          Some(grant), events));
      }
      assert Edge(REMEDIATING, VERIFYING);
      var verification := Dispatch(ctx, VerificationRequest(incident, w.clock(3)), w.handling(1), None);
      if verification.Err? { return Err(verification.error); }
      events := Log(events, VERIFYING, "verification_completed", ctx);
      var state: ExecutionState;
      if verification.value.ok {
        assert Edge(VERIFYING, CLOSED);
        events := Log(events, CLOSED, "incident_closed", ctx);
        state := CLOSED;
      } else {
        assert Edge(VERIFYING, DIAGNOSING);
        events := Log(events, DIAGNOSING, "verification_failed_retriage_required", ctx);
        state := DIAGNOSING;
      }
      return Ok(Outcome(state, prepared.plan, prepared.rows, prepared.diagnosis, Some(remediation.value),
                        Some(verification.value),
                        Some(grant), events));
    }
  }

  function GuardFailure(r: AgentLoopGuard.Refusal): Failure {
    match r
    case DeadlineExceeded => RunDeadlineExceeded
    case MaxStepsExceeded => StepBudgetExceeded
    case RepeatedAction => ExecutionModel.RepeatedAction
  }

  lemma EdgesBefore()
    ensures Edge(INTAKE, RETRIEVING) && Edge(RETRIEVING, GROUNDING) && Edge(GROUNDING, ROUTING)
    ensures Edge(ROUTING, DIAGNOSING) && Edge(DIAGNOSING, AWAITING_APPROVAL)
  {
  }

  /** No diagnostic tool is named like one of the guard's phases. */
  lemma ToolIsNoPhase(d: Domain)
    ensures RouteOf(d).diagnosticTool !in {"retrieve", "ground", "route"}
  {
    assert RouteOf(d).diagnosticTool[0] == 'm';
  }
}
