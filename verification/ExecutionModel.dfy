/** The governed execution engine as values: routing, the tool dispatcher, the approval
    gate, and the two engine operations with everything they leave behind. */
module ExecutionModel {
  import opened Prelude
  import opened TextCodec

  // ---- states and events

  datatype ExecutionState =
    | INTAKE | RETRIEVING | GROUNDING | ROUTING | DIAGNOSING
    | AWAITING_APPROVAL | REMEDIATING | VERIFYING | CLOSED | FAILED

  /** The production graph; FAILED is not one of its nodes. */
  const PRODUCTION_EDGES := {
    (INTAKE, RETRIEVING), (RETRIEVING, GROUNDING), (GROUNDING, ROUTING), (ROUTING, DIAGNOSING),
    (DIAGNOSING, AWAITING_APPROVAL), (AWAITING_APPROVAL, REMEDIATING), (REMEDIATING, VERIFYING),
    (VERIFYING, CLOSED), (VERIFYING, DIAGNOSING)}

  predicate Edge(a: ExecutionState, b: ExecutionState) {
    (a, b) in PRODUCTION_EDGES
  }

  datatype Event = Event(sequence: nat, state: ExecutionState, eventType: string, tenantId: string, runId: string)

  // ---- who asks for what

  datatype Domain = Outlook | Printer

  function DomainName(d: Domain): string {
    match d case Outlook => "outlook" case Printer => "printer"
  }

  datatype Context = Context(
    runId: string, tenantId: string, userId: string, sessionId: string, capabilities: set<string>, deadlineAt: real)
  {
    predicate SameTenant(tenant: string) {
      tenant != "" && tenant == tenantId
    }
  }

  datatype Incident = Incident(
    incidentId: string, tenantId: string, domain: Domain, title: string, description: string, deviceId: string)

  datatype Plan = Plan(
    action: string, toolName: string, resourceId: string, reason: string, risk: string, requiresApproval: bool)

  datatype Failure =
    | CrossTenant | MissingCapability(capability: string)
    | RunDeadlineExceeded | StepBudgetExceeded | RepeatedAction
    | NoGroundingEvidence | DuplicateCitation
    | ToolNotRegistered | ToolDomainDenied | ApprovalRequired
    | ToolDeadlineExceeded | InsufficientTimeBudget | ResourceMismatch | ToolFailed | HandlerRaised
    | FallbackNotRegistered | FallbackForbidden
    | ApprovalNotFound | ApprovalConsumed | ApprovalExpired | ApprovalContextMismatch | ApprovalPlanMismatch
    | NotAwaitingApproval

  // ---- routing

  datatype Route = Route(agentName: string, diagnosticTool: string, remediationTool: string, verificationTool: string)

  function RouteOf(d: Domain): Route {
    match d
    case Outlook => Route("outlook-support-agent", "mcp.outlook.diagnose", "mcp.outlook.remediate",
                          "mcp.outlook.verify")
    case Printer => Route("printer-support-agent", "mcp.printer.diagnose", "mcp.printer.remediate",
                          "mcp.printer.verify")
  }

  function ActionFor(incident: Incident): string {
    var text := Lower(incident.title + " " + incident.description);
    match incident.domain
    case Printer => if Contains(text, "spool") || Contains(text, "queue") then "restart_spooler"
      else "refresh_printer_connection"
    case Outlook => if Contains(text, "crash") || Contains(text, "slow") then "restart_outlook"
      else "refresh_outlook_sync"
  }

  function PlanFor(incident: Incident): Plan {
    Plan(ActionFor(incident), RouteOf(incident.domain).remediationTool, incident.deviceId,
         "deterministic_plan_for:" + DomainName(incident.domain), "medium", true)
  }

  /** What a plan's fingerprint digests. */
  function FingerprintText(p: Plan): string {
    p.action + "|" + p.toolName + "|" + p.resourceId + "|" + p.risk
  }

  // ---- tools

  datatype ToolSpec = ToolSpec(
    name: string, requiredCapability: string, mutating: bool, timeoutSeconds: real, allowedDomains: set<string>)

  type Specs = map<string, ToolSpec>

  datatype ToolResult = ToolResult(toolName: string, tenantId: string, resourceId: string, ok: bool)

  /** What a tool handler does when called: answer, fail as a tool, or raise anything else. */
  datatype Handling = Returns(result: ToolResult) | RaisesToolError | RaisesOther

  type Args = map<string, string>

  datatype ToolRequest = ToolRequest(tool: string, domain: string, resource: string, args: Args, now: real,
                                     approved: bool)

  /** The ordered checks before a handler is called; None admits the call. */
  function Admission(specs: Specs, ctx: Context, q: ToolRequest): Option<Failure> {
    if q.tool !in specs then Some(ToolNotRegistered)
    else
      var spec := specs[q.tool];
      var remaining := ctx.deadlineAt - q.now;
      if q.domain !in spec.allowedDomains then Some(ToolDomainDenied)
      else if spec.requiredCapability !in ctx.capabilities then Some(MissingCapability(spec.requiredCapability))
      else if spec.mutating && !q.approved then Some(ApprovalRequired)
      else if remaining <= 0.0 then Some(ToolDeadlineExceeded)
      else if spec.timeoutSeconds > remaining then Some(InsufficientTimeBudget)
      else None
  }

  /** The checks on what a handler returned. */
  function Settled(ctx: Context, q: ToolRequest, h: Handling): Result<ToolResult, Failure> {
    match h
    case RaisesToolError => Err(ToolFailed)
    case RaisesOther => Err(HandlerRaised)
    case Returns(r) =>
      if !ctx.SameTenant(r.tenantId) then Err(CrossTenant)
      else if r.resourceId != q.resource then Err(ResourceMismatch)
      else Ok(r)
  }

  function Executed(specs: Specs, ctx: Context, q: ToolRequest, h: Handling): Result<ToolResult, Failure> {
    match Admission(specs, ctx, q)
    case Some(f) => Err(f)
    case None => Settled(ctx, q, h)
  }

  /** The failures that are tool execution errors rather than denials. */
  predicate IsToolError(f: Failure) {
    f == ToolDeadlineExceeded || f == InsufficientTimeBudget || f == ResourceMismatch || f == ToolFailed
  }

  /** The read-only fallback: its result and the handler calls it made, in order. */
  datatype Fallen = Fallen(result: Result<ToolResult, Failure>, calls: seq<ToolRequest>)

  function CallIfAdmitted(specs: Specs, ctx: Context, q: ToolRequest): seq<ToolRequest> {
    if Admission(specs, ctx, q).None? then [q] else []
  }

  function WithFallback(specs: Specs, ctx: Context, primary: string, fallback: Option<string>, domain: string,
                        resource: string, args: Args, now: real, first: Handling, second: Handling): Fallen
  {
    var q := ToolRequest(primary, domain, resource, args, now, false);
    if primary !in specs then Fallen(Err(ToolNotRegistered), [])
    else if specs[primary].mutating then Fallen(Err(FallbackForbidden), [])
    else
      match Executed(specs, ctx, q, first)
      case Ok(r) => Fallen(Ok(r), CallIfAdmitted(specs, ctx, q))
      case Err(f) =>
        if !IsToolError(f) || fallback.None? then Fallen(Err(f), CallIfAdmitted(specs, ctx, q))
        else if fallback.value !in specs then Fallen(Err(FallbackNotRegistered), CallIfAdmitted(specs, ctx, q))
        else if specs[fallback.value].mutating then Fallen(Err(FallbackForbidden), CallIfAdmitted(specs, ctx, q))
        else
          var q2 := ToolRequest(fallback.value, domain, resource, args, now, false);
          Fallen(Executed(specs, ctx, q2, second), CallIfAdmitted(specs, ctx, q) + CallIfAdmitted(specs, ctx, q2))
  }

  // ---- approvals

  datatype Grant = Grant(
    approvalId: string, tenantId: string, sessionId: string, userId: string, planFingerprint: string,
    issuedAt: real, expiresAt: real)

  datatype Approval = Approval(grant: Grant, consumed: bool)

  type Gate = map<string, Approval>

  const APPROVE_CAPABILITY := "remediation:approve"
  const DIAGNOSE_CAPABILITY := "ai:diagnose"
  const APPROVAL_TTL := 300.0

  function NewGrant(ctx: Context, fingerprint: string, id: string, now: real, ttl: real): Grant {
    Grant(id, ctx.tenantId, ctx.sessionId, ctx.userId, fingerprint, now, now + ttl)
  }

  function ConsumeRefusal(g: Gate, ctx: Context, fingerprint: string, id: string, now: real): Option<Failure> {
    if id !in g then Some(ApprovalNotFound)
    else
      var a := g[id];
      if a.consumed then Some(ApprovalConsumed)
      else if a.grant.expiresAt <= now then Some(ApprovalExpired)
      else if a.grant.tenantId != ctx.tenantId || a.grant.sessionId != ctx.sessionId then Some(ApprovalContextMismatch)
      else if a.grant.planFingerprint != fingerprint then Some(ApprovalPlanMismatch)
      else None
  }

  function Consumed(g: Gate, id: string): Gate {
    if id in g then g[id := g[id].(consumed := true)] else g
  }

  // ---- the engine's operations

  datatype EvidenceRow = EvidenceRow(documentId: string, chunkId: string, tenantId: string, text: string)

  datatype Citation = Citation(documentId: string, chunkId: string, tenantId: string, contentHash: string)

  function CitationOf(r: EvidenceRow, digest: string -> string): Citation {
    Citation(r.documentId, r.chunkId, r.tenantId, digest(r.text))
  }

  function CitationsOf(rows: seq<EvidenceRow>, digest: string -> string): seq<Citation> {
    seq(|rows|, i requires 0 <= i < |rows| => CitationOf(rows[i], digest))
  }

  /** Every row of this tenant, no document chunk twice, at least one row. */
  function Grounding(ctx: Context, rows: seq<EvidenceRow>): Option<Failure> {
    if rows == [] then Some(NoGroundingEvidence) else GroundingFrom(ctx, rows, {})
  }

  function GroundingFrom(ctx: Context, rows: seq<EvidenceRow>, seen: set<(string, string)>): Option<Failure> {
    if rows == [] then None
    else if !ctx.SameTenant(rows[0].tenantId) then Some(CrossTenant)
    else if (rows[0].documentId, rows[0].chunkId) in seen then Some(DuplicateCitation)
    else GroundingFrom(ctx, rows[1..], seen + {(rows[0].documentId, rows[0].chunkId)})
  }

  /** What the surroundings decide during one operation: clock readings and handler
      behaviour by position, and the rows that retrieval finds. */
  datatype World = World(clock: nat -> real, handling: nat -> Handling, rows: seq<EvidenceRow>)

  datatype Outcome = Outcome(
    state: ExecutionState,
    plan: Plan,
    rows: seq<EvidenceRow>,
    diagnosis: ToolResult,
    remediation: Option<ToolResult>,
    verification: Option<ToolResult>,
    approval: Option<Grant>,
    events: seq<Event>)

  function Log(events: seq<Event>, state: ExecutionState, eventType: string, ctx: Context): seq<Event> {
    events + [Event(|events| + 1, state, eventType, ctx.tenantId, ctx.runId)]
  }

  function RoutedEvents(ctx: Context): seq<Event> {
    var e1 := Log([], INTAKE, "incident_accepted", ctx);
    var e2 := Log(e1, RETRIEVING, "evidence_retrieved", ctx);
    var e3 := Log(e2, GROUNDING, "citations_verified", ctx);
    Log(e3, ROUTING, "agent_routed", ctx)
  }

  function PreparedEvents(ctx: Context): seq<Event> {
    var e5 := Log(RoutedEvents(ctx), DIAGNOSING, "diagnostic_completed", ctx);
    Log(e5, AWAITING_APPROVAL, "approval_required", ctx)
  }

  function DiagnosticRequest(incident: Incident, now: real): ToolRequest {
    ToolRequest(RouteOf(incident.domain).diagnosticTool, DomainName(incident.domain), incident.deviceId,
                map["incident_id" := incident.incidentId], now, false)
  }

  /** The approval behind an approved call of a handler. */
  datatype Spent = Spent(approvalId: string, tenantId: string, sessionId: string, planFingerprint: string, at: real)

  /** A handler call that was admitted, whether the tool was then registered as mutating, and
      the approval consumed for the call, if any. */
  datatype Invocation = Invocation(request: ToolRequest, mutating: bool, spent: Option<Spent>)

  datatype System = System(gate: Gate, invoked: seq<Invocation>)

  datatype Answer = Answer(system: System, result: Result<Outcome, Failure>)

  /** The system after a dispatch: the call is on record when it was admitted. */
  function Called(s: System, specs: Specs, ctx: Context, q: ToolRequest, spent: Option<Spent>): System {
    if Admission(specs, ctx, q).None? then s.(invoked := s.invoked + [Invocation(q, specs[q.tool].mutating, spent)])
      else s
  }

  /** Why an incident does not get as far as a route, if it does not. */
  function IntakeRefusal(ctx: Context, incident: Incident, w: World): Option<Failure> {
    if !ctx.SameTenant(incident.tenantId) then Some(CrossTenant)
    else if w.clock(0) >= ctx.deadlineAt || w.clock(1) >= ctx.deadlineAt then Some(RunDeadlineExceeded)
    else if Grounding(ctx, w.rows).Some? then Grounding(ctx, w.rows)
    else if w.clock(2) >= ctx.deadlineAt then Some(RunDeadlineExceeded)
    else if DIAGNOSE_CAPABILITY !in ctx.capabilities then Some(MissingCapability(DIAGNOSE_CAPABILITY))
    else None
  }

  /** `prepare`: the clock is read at the four guard checkpoints and for the diagnosis. */
  function Prepared(s: System, specs: Specs, ctx: Context, incident: Incident, w: World): Answer {
    if IntakeRefusal(ctx, incident, w).Some? then Answer(s, Err(IntakeRefusal(ctx, incident, w).value))
    else if w.clock(3) >= ctx.deadlineAt then Answer(s, Err(RunDeadlineExceeded))
    else
      var q := DiagnosticRequest(incident, w.clock(4));
      var called := Called(s, specs, ctx, q, None);
      match Executed(specs, ctx, q, w.handling(0))
      case Err(f) => Answer(called, Err(f))
      case Ok(diagnosis) =>
        Answer(called, Ok(Outcome(AWAITING_APPROVAL, PlanFor(incident), w.rows, diagnosis, None, None, None,
                                  PreparedEvents(ctx))))
  }

  /** Tool and device come from the incident, the action from the prepared plan. */
  function RemediationRequest(incident: Incident, action: string, now: real): ToolRequest {
    ToolRequest(RouteOf(incident.domain).remediationTool, DomainName(incident.domain), incident.deviceId,
                map["action" := action, "incident_id" := incident.incidentId], now, true)
  }

  function VerificationRequest(incident: Incident, now: real): ToolRequest {
    ToolRequest(RouteOf(incident.domain).verificationTool, DomainName(incident.domain), incident.deviceId,
                map["incident_id" := incident.incidentId], now, false)
  }

  /** The last part of `approve_and_execute`, after a successful remediation. */
  function Verified(s: System, specs: Specs, ctx: Context, incident: Incident, prepared: Outcome, grant: Grant,
                    remediation: ToolResult, events: seq<Event>, w: World): Answer
  {
    var q := VerificationRequest(incident, w.clock(3));
    var called := Called(s, specs, ctx, q, None);
    match Executed(specs, ctx, q, w.handling(1))
    case Err(f) => Answer(called, Err(f))
    case Ok(verification) =>
      var noted := Log(events, VERIFYING, "verification_completed", ctx);
      var end := if verification.ok then CLOSED else DIAGNOSING;
      var closing := if verification.ok then "incident_closed" else "verification_failed_retriage_required";
      Answer(called, Ok(Outcome(end, prepared.plan, prepared.rows, prepared.diagnosis, Some(remediation),
                                Some(verification),
                                Some(grant), Log(noted, end, closing, ctx))))
  }

  /** The middle part, after the approval has been consumed. */
  function Remediated(s: System, specs: Specs, ctx: Context, incident: Incident, prepared: Outcome, grant: Grant,
                      spent: Spent, w: World): Answer
  {
    var events := Log(prepared.events, AWAITING_APPROVAL, "approval_consumed", ctx);
    var q := RemediationRequest(incident, prepared.plan.action, w.clock(2));
    var called := Called(s, specs, ctx, q, Some(spent));
    match Executed(specs, ctx, q, w.handling(0))
    case Err(f) => Answer(called, Err(f))
    case Ok(remediation) =>
      var noted := Log(events, REMEDIATING, "remediation_completed", ctx);
      if !remediation.ok then
        Answer(called, Ok(Outcome(FAILED, prepared.plan, prepared.rows, prepared.diagnosis, Some(remediation), None,
                                  Some(grant), noted)))
      else
        Verified(called, specs, ctx, incident, prepared, grant, remediation, noted, w)
  }

  /** `approve_and_execute`: the clock is read for issuing (0), consuming (1), remediating
      (2) and verifying (3); `id` is the identifier a newly issued grant would get. */
  function Approved(s: System, specs: Specs, ctx: Context, incident: Incident, prepared: Outcome,
                    approval: Option<Grant>, id: string, w: World, sha: string -> string): Answer
  {
    var fingerprint := sha(FingerprintText(prepared.plan));
    if prepared.state != AWAITING_APPROVAL then Answer(s, Err(NotAwaitingApproval))
    else if !ctx.SameTenant(incident.tenantId) then Answer(s, Err(CrossTenant))
    else if approval.None? && APPROVE_CAPABILITY !in ctx.capabilities
      then Answer(s, Err(MissingCapability(APPROVE_CAPABILITY)))
    else
      var grant := if approval.Some? then approval.value else NewGrant(ctx, fingerprint, id, w.clock(0), APPROVAL_TTL);
      var issued := if approval.Some? then s else s.(gate := s.gate[id := Approval(grant, false)]);
      match ConsumeRefusal(issued.gate, ctx, fingerprint, grant.approvalId, w.clock(1))
      case Some(f) => Answer(issued, Err(f))
      case None =>
        Remediated(issued.(gate := Consumed(issued.gate, grant.approvalId)), specs, ctx, incident, prepared, grant,
                   Spent(grant.approvalId, ctx.tenantId, ctx.sessionId, fingerprint, w.clock(1)), w)
  }
}
