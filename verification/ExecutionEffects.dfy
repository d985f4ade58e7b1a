/** What each engine operation demands and leaves behind, in full: plans, refusals, grants,
    results and event logs. */
module ExecutionEffects {
  import opened Prelude
  import opened TextCodec
  import opened ExecutionModel
  import opened ExecutionLaws
  import opened ExecutionRuns

  // ---- the plan

  /** The title or the description has the word, in whatever case. */
  ghost predicate Mentions(incident: Incident, word: string) {
    exists before, after :: Lower(incident.title + " " + incident.description) == before + word + after
  }

  /** The plan that an incident gets. */
  lemma PlanExactly(incident: Incident)
    ensures var action :=
              if incident.domain == Printer then
                if Mentions(incident, "spool") || Mentions(incident, "queue") then "restart_spooler"
                else "refresh_printer_connection"
              else if Mentions(incident, "crash") || Mentions(incident, "slow") then "restart_outlook"
              else "refresh_outlook_sync";
            PlanFor(incident) == Plan(action, RepairTool(incident.domain), incident.deviceId,
                                      "deterministic_plan_for:" + DomainText(incident.domain), "medium", true)
  {
    hide Contains;
    forall word ensures Contains(Lower(incident.title + " " + incident.description), word)
                   <==> Mentions(incident, word) {
      ContainsExactly(Lower(incident.title + " " + incident.description), word);
    }
  }

  /** Who handles which domain, and with which tools. */
  lemma RouteExactly(d: Domain)
    ensures RouteOf(d) == Route(if d == Outlook then "outlook-support-agent" else "printer-support-agent",
                                DiagnoseTool(d), RepairTool(d), VerifyTool(d))
  {
  }

  /** The edges of the production graph: each state to the next, and from verification back
      to diagnosis. */
  lemma EdgeExactly(a: ExecutionState, b: ExecutionState)
    ensures var order := [INTAKE, RETRIEVING, GROUNDING, ROUTING, DIAGNOSING, AWAITING_APPROVAL, REMEDIATING,
                          VERIFYING, CLOSED];
            Edge(a, b) <==> (exists i :: 0 <= i < 8 && a == order[i] && b == order[i + 1])
                            || (a == VERIFYING && b == DIAGNOSING)
  {
    var order := [INTAKE, RETRIEVING, GROUNDING, ROUTING, DIAGNOSING, AWAITING_APPROVAL, REMEDIATING, VERIFYING,
                  CLOSED];
    if Edge(a, b) && !(a == VERIFYING && b == DIAGNOSING) {
      var i := match a case INTAKE => 0 case RETRIEVING => 1 case GROUNDING => 2 case ROUTING => 3
        case DIAGNOSING => 4 case AWAITING_APPROVAL => 5 case REMEDIATING => 6 case _ => 7;
      assert a == order[i] && b == order[i + 1];
    }
  }

  // ---- the events

  /** The log of every preparation that succeeds. */
  lemma PreparedLog(s: System, specs: Specs, ctx: Context, incident: Incident, w: World)
    requires Prepared(s, specs, ctx, incident, w).result.Ok?
    ensures var t, r := ctx.tenantId, ctx.runId;
            Prepared(s, specs, ctx, incident, w).result.value.events
            == [Event(1, INTAKE, "incident_accepted", t, r), Event(2, RETRIEVING, "evidence_retrieved", t, r),
                Event(3, GROUNDING, "citations_verified", t, r), Event(4, ROUTING, "agent_routed", t, r),
                Event(5, DIAGNOSING, "diagnostic_completed", t, r),
                  Event(6, AWAITING_APPROVAL, "approval_required", t, r)]
  {
    hide Executed, IntakeRefusal, PlanFor, Called;
  }

  /** What an execution that finishes adds to the log it was given. */
  lemma ApprovedLog(s: System, specs: Specs, ctx: Context, incident: Incident, prepared: Outcome,
                    approval: Option<Grant>, id: string, w: World, sha: string -> string)
    requires Approved(s, specs, ctx, incident, prepared, approval, id, w, sha).result.Ok?
    ensures var o, n := Approved(s, specs, ctx, incident, prepared, approval, id, w, sha).result.value,
                        |prepared.events|;
            var t, r := ctx.tenantId, ctx.runId;
            o.events == prepared.events
              + [Event(n + 1, AWAITING_APPROVAL, "approval_consumed", t, r),
                 Event(n + 2, REMEDIATING, "remediation_completed", t, r)]
              + (if o.state == FAILED then []
                 else if o.state == CLOSED then
                   [Event(n + 3, VERIFYING, "verification_completed", t, r),
                    Event(n + 4, CLOSED, "incident_closed", t, r)]
                 else
                   [Event(n + 3, VERIFYING, "verification_completed", t, r),
                    Event(n + 4, DIAGNOSING, "verification_failed_retriage_required", t, r)])
  {
    hide Approved;
    ApprovedEventsAre(s, specs, ctx, incident, prepared, approval, id, w, sha);
  }

  // ---- what a preparation demands

  /** The first row that is of another tenant, or cites a chunk that an earlier one cites. */
  ghost predicate FirstBadRow(ctx: Context, rows: seq<EvidenceRow>, i: nat) {
    && i < |rows|
    && (!ctx.SameTenant(rows[i].tenantId) || exists j :: 0 <= j < i && SameChunk(rows[j], rows[i]))
    && (forall k | 0 <= k < i :: ctx.SameTenant(rows[k].tenantId))
    && (forall k, j | 0 <= j < k < i :: !SameChunk(rows[j], rows[k]))
  }

  lemma {:induction false} GroundingFault(ctx: Context, rows: seq<EvidenceRow>, n: nat, seen: set<(string, string)>)
    requires n <= |rows| && GroundingFrom(ctx, rows[n..], seen).Some?
    requires forall c :: c in seen <==> exists j :: 0 <= j < n && (rows[j].documentId, rows[j].chunkId) == c
    requires forall k | 0 <= k < n :: ctx.SameTenant(rows[k].tenantId)
    requires forall k, j | 0 <= j < k < n :: !SameChunk(rows[j], rows[k])
    ensures exists i: nat :: FirstBadRow(ctx, rows, i)
              && GroundingFrom(ctx, rows[n..], seen).value
                 == if ctx.SameTenant(rows[i].tenantId) then DuplicateCitation else CrossTenant
    decreases |rows| - n
  {
    if n < |rows| {
      var c := (rows[n].documentId, rows[n].chunkId);
      assert rows[n..][0] == rows[n] && rows[n..][1..] == rows[n + 1..];
      if !ctx.SameTenant(rows[n].tenantId) || c in seen {
        assert FirstBadRow(ctx, rows, n);
      } else {
        forall j | 0 <= j < n ensures !SameChunk(rows[j], rows[n]) {
          assert (rows[j].documentId, rows[j].chunkId) in seen;
        }
        GroundingFault(ctx, rows, n + 1, seen + {c});
      }
    }
  }

  /** Why rows do not ground a plan. */
  lemma GroundingRefusal(ctx: Context, rows: seq<EvidenceRow>)
    ensures Grounding(ctx, rows) == Some(NoGroundingEvidence) <==> rows == []
    ensures Grounding(ctx, rows).Some? && rows != [] ==>
              exists i: nat :: FirstBadRow(ctx, rows, i)
                && Grounding(ctx, rows).value
                   == if ctx.SameTenant(rows[i].tenantId) then DuplicateCitation else CrossTenant
  {
    if rows != [] && Grounding(ctx, rows).Some? {
      assert rows[0..] == rows;
      GroundingFault(ctx, rows, 0, {});
    }
  }

  /** An incident is refused, in this order: another tenant's, the deadline passed before the
      rows are looked at, rows that do not ground a plan, the deadline passed, no capability to
      diagnose, the deadline passed, and then whatever the diagnosis is refused for. */
  lemma PreparationAnswers(s: System, specs: Specs, ctx: Context, incident: Incident, w: World)
    ensures var r := Prepared(s, specs, ctx, incident, w).result;
            var late := (i: nat) => w.clock(i) >= ctx.deadlineAt;
            if ctx.tenantId == "" || incident.tenantId != ctx.tenantId then r == Err(CrossTenant)
            else if late(0) || late(1) then r == Err(RunDeadlineExceeded)
            else if w.rows == [] then r == Err(NoGroundingEvidence)
            else if exists i: nat :: FirstBadRow(ctx, w.rows, i) then
              exists i: nat :: FirstBadRow(ctx, w.rows, i)
                && r == Err(if ctx.SameTenant(w.rows[i].tenantId) then DuplicateCitation else CrossTenant)
            else if late(2) then r == Err(RunDeadlineExceeded)
            else if "ai:diagnose" !in ctx.capabilities then r == Err(MissingCapability("ai:diagnose"))
            else if late(3) then r == Err(RunDeadlineExceeded)
            else
              var q := ToolRequest(DiagnoseTool(incident.domain), DomainText(incident.domain), incident.deviceId,
                                   map["incident_id" := incident.incidentId], w.clock(4), false);
              match Executed(specs, ctx, q, w.handling(0))
              case Err(f) => r == Err(f)
              case Ok(diagnosis) => r.Ok? && r.value.diagnosis == diagnosis
  {
    hide PreparedEvents, Admission, Settled, PlanFor, Grounding, Called;
    GroundingRefusal(ctx, w.rows);
    if Grounding(ctx, w.rows).None? {
      GroundedRows(ctx, w.rows);
    }
    assert DiagnosticRequest(incident, w.clock(4))
      == ToolRequest(DiagnoseTool(incident.domain), DomainText(incident.domain), incident.deviceId,
                     map["incident_id" := incident.incidentId], w.clock(4), false);
  }

  lemma GroundedRows(ctx: Context, rows: seq<EvidenceRow>)
    requires Grounding(ctx, rows).None?
    ensures forall i: nat :: !FirstBadRow(ctx, rows, i)
  {
    GroundingMeans(ctx, rows);
  }

  /** A citation for each row, that names its chunk and carries the digest of its text. */
  lemma CitationsName(rows: seq<EvidenceRow>, digest: string -> string, i: nat)
    requires i < |rows|
    ensures |CitationsOf(rows, digest)| == |rows|
    ensures var c, r := CitationsOf(rows, digest)[i], rows[i];
            c.documentId == r.documentId && c.chunkId == r.chunkId && c.tenantId == r.tenantId
            && c.contentHash == digest(r.text)
  {
  }

  // ---- dispatch

  /** What a call fails for, in the order in which it is checked. */
  ghost predicate CallFails(specs: Specs, ctx: Context, q: ToolRequest, k: nat) {
    match k
    case 0 => q.tool !in specs
    case 1 => q.tool in specs && q.domain !in specs[q.tool].allowedDomains
    case 2 => q.tool in specs && specs[q.tool].requiredCapability !in ctx.capabilities
    case 3 => q.tool in specs && specs[q.tool].mutating && !q.approved
    case 4 => q.now >= ctx.deadlineAt
    case 5 => q.tool in specs && q.now + specs[q.tool].timeoutSeconds > ctx.deadlineAt
    case _ => false
  }

  ghost function CallFailure(specs: Specs, q: ToolRequest, k: nat): Failure {
    match k
    case 0 => ToolNotRegistered
    case 1 => ToolDomainDenied
    case 2 => MissingCapability(if q.tool in specs then specs[q.tool].requiredCapability else "")
    case 3 => ApprovalRequired
    case 4 => ToolDeadlineExceeded
    case _ => InsufficientTimeBudget
  }

  ghost predicate FirstCallFailure(specs: Specs, ctx: Context, q: ToolRequest, k: nat) {
    k < 6 && CallFails(specs, ctx, q, k) && forall j: nat | j < k :: !CallFails(specs, ctx, q, j)
  }

  /** A call is answered by the first check that it fails; a handler that runs is believed
      only about the caller's tenant and the requested resource. */
  lemma DispatchAnswers(specs: Specs, ctx: Context, q: ToolRequest, h: Handling)
    ensures match Admission(specs, ctx, q)
            case Some(f) => exists k: nat :: FirstCallFailure(specs, ctx, q, k) && f == CallFailure(specs, q, k)
            case None => forall k: nat :: !FirstCallFailure(specs, ctx, q, k)
    ensures Executed(specs, ctx, q, h)
         == (if Admission(specs, ctx, q).Some? then Err(Admission(specs, ctx, q).value)
             else if h == RaisesToolError then Err(ToolFailed)
             else if h == RaisesOther then Err(HandlerRaised)
             else if ctx.tenantId == "" || h.result.tenantId != ctx.tenantId then Err(CrossTenant)
             else if h.result.resourceId != q.resource then Err(ResourceMismatch)
             else Ok(h.result))
  {
    if Admission(specs, ctx, q).Some? {
      var k := if CallFails(specs, ctx, q, 0) then 0 else if CallFails(specs, ctx, q, 1) then 1
               else if CallFails(specs, ctx, q, 2) then 2 else if CallFails(specs, ctx, q, 3) then 3
               else if CallFails(specs, ctx, q, 4) then 4 else 5;
      assert FirstCallFailure(specs, ctx, q, k);
    }
  }

  /** The failures of a tool itself, as opposed to a refusal of the caller or a broken handler. */
  ghost predicate ToolFailure(f: Failure) {
    f == ToolDeadlineExceeded || f == InsufficientTimeBudget || f == ResourceMismatch || f == ToolFailed
  }

  ghost function ReadOnlyCall(tool: string, domain: string, resource: string, args: Args, now: real): ToolRequest {
    ToolRequest(tool, domain, resource, args, now, false)
  }

  /** Whether a first answer is followed by a second try. */
  ghost predicate Falls(specs: Specs, fallback: Option<string>, first: Result<ToolResult, Failure>) {
    && first.Err? && ToolFailure(first.error) && fallback.Some?
    && fallback.value in specs && !specs[fallback.value].mutating
  }

  /** The whole of a dispatch with a fallback: which handlers are called, and whose answer it
      gives. A registered read-only fallback is tried exactly after a failure of the read-only
      primary tool itself. */
  lemma FallbackExactly(specs: Specs, ctx: Context, primary: string, fallback: Option<string>, domain: string,
                        resource: string, args: Args, now: real, first: Handling, second: Handling)
    ensures var out := WithFallback(specs, ctx, primary, fallback, domain, resource, args, now, first, second);
            var q := ReadOnlyCall(primary, domain, resource, args, now);
            var r1 := Executed(specs, ctx, q, first);
            if primary in specs && !specs[primary].mutating && Falls(specs, fallback, r1) then
              var q2 := ReadOnlyCall(fallback.value, domain, resource, args, now);
              && out.result == Executed(specs, ctx, q2, second)
              && out.calls == (if Admission(specs, ctx, q).None? then [q] else [])
                              + (if Admission(specs, ctx, q2).None? then [q2] else [])
            else
              && out.calls == (if primary in specs && !specs[primary].mutating && Admission(specs, ctx, q).None?
                               then [q] else [])
              && out.result == (if primary !in specs then Err(ToolNotRegistered)
                                else if specs[primary].mutating then Err(FallbackForbidden)
                                else if r1.Ok? || !ToolFailure(r1.error) || fallback == None then r1
                                else if fallback.value in specs then Err(FallbackForbidden)
                                else Err(FallbackNotRegistered))
  {
    hide Executed, Admission;
  }

  // ---- grants

  /** A grant is accepted exactly when it is filed, unspent and unexpired, and given for the
      caller's tenant and session and for this fingerprint. */
  ghost predicate Accepts(g: Gate, ctx: Context, fingerprint: string, id: string, now: real) {
    && id in g && !g[id].consumed && now < g[id].grant.expiresAt
    && g[id].grant.tenantId == ctx.tenantId && g[id].grant.sessionId == ctx.sessionId
    && g[id].grant.planFingerprint == fingerprint
  }

  lemma AcceptedExactly(g: Gate, ctx: Context, fingerprint: string, id: string, now: real)
    ensures ConsumeRefusal(g, ctx, fingerprint, id, now).None? <==> Accepts(g, ctx, fingerprint, id, now)
    ensures ConsumeRefusal(g, ctx, fingerprint, id, now) == Some(ApprovalNotFound) <==> id !in g
    ensures ConsumeRefusal(g, ctx, fingerprint, id, now) == Some(ApprovalConsumed) <==> id in g && g[id].consumed
    ensures ConsumeRefusal(g, ctx, fingerprint, id, now) == Some(ApprovalExpired)
       <==> id in g && !g[id].consumed && now >= g[id].grant.expiresAt
    ensures ConsumeRefusal(g, ctx, fingerprint, id, now) == Some(ApprovalPlanMismatch)
       <==> && id in g && !g[id].consumed && now < g[id].grant.expiresAt
            && g[id].grant.tenantId == ctx.tenantId && g[id].grant.sessionId == ctx.sessionId
            && g[id].grant.planFingerprint != fingerprint
    ensures ConsumeRefusal(g, ctx, fingerprint, id, now).Some? ==>
              ConsumeRefusal(g, ctx, fingerprint, id, now).value
              in {ApprovalNotFound, ApprovalConsumed, ApprovalExpired, ApprovalContextMismatch, ApprovalPlanMismatch}
  {
  }

  /** The gate when the grant is presented: without one, a new one for five minutes is filed. */
  ghost function GateThen(g: Gate, ctx: Context, prepared: Outcome, approval: Option<Grant>, id: string, now: real,
                          sha: string -> string): Gate
  {
    if approval.Some? then g
    else
      g[id := Approval(Grant(id, ctx.tenantId, ctx.sessionId, ctx.userId, sha(FingerprintText(prepared.plan)), now,
                             now + 300.0), false)]
  }

  /** The approved call that an execution makes. */
  ghost function RepairCall(incident: Incident, action: string, at: real): ToolRequest {
    ToolRequest(RepairTool(incident.domain), DomainText(incident.domain), incident.deviceId,
                map["action" := action, "incident_id" := incident.incidentId], at, true)
  }

  lemma RepairCallIs(incident: Incident, action: string, at: real)
    ensures RemediationRequest(incident, action, at) == RepairCall(incident, action, at)
  {
  }

  lemma VerificationKeeps(s: System, specs: Specs, ctx: Context, incident: Incident, prepared: Outcome, grant: Grant,
                          remediation: ToolResult, events: seq<Event>, w: World)
    ensures var t := Verified(s, specs, ctx, incident, prepared, grant, remediation, events, w).system;
            t.gate == s.gate && s.invoked <= t.invoked
  {
    hide Executed, Log;
  }

  /** After the grant is spent: the approved call, if it is admitted, comes first. */
  lemma RemediationTells(s: System, specs: Specs, ctx: Context, incident: Incident, prepared: Outcome, grant: Grant,
                         spent: Spent, w: World)
    ensures var a := Remediated(s, specs, ctx, incident, prepared, grant, spent, w);
            var q := RepairCall(incident, prepared.plan.action, w.clock(2));
            && a.system.gate == s.gate && s.invoked <= a.system.invoked
            && (Admission(specs, ctx, q).None? ==>
                  && |a.system.invoked| > |s.invoked| && a.system.invoked[|s.invoked|].request == q
                  && a.system.invoked[|s.invoked|].spent == Some(spent))
            && (Executed(specs, ctx, q, w.handling(0)).Err? ==>
                  a.result == Err(Executed(specs, ctx, q, w.handling(0)).error))
  {
    RepairCallIs(incident, prepared.plan.action, w.clock(2));
    hide Admission, Settled, Log, RepairCall, RemediationRequest, Verified;
    var q := RepairCall(incident, prepared.plan.action, w.clock(2));
    if Executed(specs, ctx, q, w.handling(0)).Ok? {
      VerificationKeeps(Called(s, specs, ctx, q, Some(spent)), specs, ctx, incident, prepared, grant,
                        Executed(specs, ctx, q, w.handling(0)).value,
                        Log(Log(prepared.events, AWAITING_APPROVAL, "approval_consumed", ctx), REMEDIATING,
                            "remediation_completed", ctx), w);
    }
  }

  /** An execution is refused, in this order: an outcome that does not await approval, another
      tenant's incident, no capability to approve and no grant, a grant that is not accepted.
      Until then nothing is called; after that the grant is spent. */
  lemma ExecutionAnswers(s: System, specs: Specs, ctx: Context, incident: Incident, prepared: Outcome,
                         approval: Option<Grant>, id: string, w: World, sha: string -> string)
    ensures var a := Approved(s, specs, ctx, incident, prepared, approval, id, w, sha);
            var gate := GateThen(s.gate, ctx, prepared, approval, id, w.clock(0), sha);
            var used := if approval.Some? then approval.value.approvalId else id;
            var fingerprint := sha(FingerprintText(prepared.plan));
            if prepared.state != AWAITING_APPROVAL then a == Answer(s, Err(NotAwaitingApproval))
            else if ctx.tenantId == "" || incident.tenantId != ctx.tenantId then a == Answer(s, Err(CrossTenant))
            else if approval.None? && "remediation:approve" !in ctx.capabilities then
              a == Answer(s, Err(MissingCapability("remediation:approve")))
            else if !Accepts(gate, ctx, fingerprint, used, w.clock(1)) then
              && a.system == System(gate, s.invoked)
              && a.result.Err? && ConsumeRefusal(gate, ctx, fingerprint, used, w.clock(1)) == Some(a.result.error)
            else
              var q := RepairCall(incident, prepared.plan.action, w.clock(2));
              && a.system.gate == gate[used := Approval(gate[used].grant, true)]
              && s.invoked <= a.system.invoked
              && (Admission(specs, ctx, q).None? ==>
                    && |a.system.invoked| > |s.invoked| && a.system.invoked[|s.invoked|].request == q
                    && a.system.invoked[|s.invoked|].spent
                       == Some(Spent(used, ctx.tenantId, ctx.sessionId, fingerprint, w.clock(1))))
              && (Executed(specs, ctx, q, w.handling(0)).Err? ==>
                    a.result == Err(Executed(specs, ctx, q, w.handling(0)).error))
  {
    hide Executed, Admission, FingerprintText, Remediated, ConsumeRefusal, RepairCall;
    var gate := GateThen(s.gate, ctx, prepared, approval, id, w.clock(0), sha);
    var used := if approval.Some? then approval.value.approvalId else id;
    var fingerprint := sha(FingerprintText(prepared.plan));
    AcceptedExactly(gate, ctx, fingerprint, used, w.clock(1));
    if Accepts(gate, ctx, fingerprint, used, w.clock(1)) {
      RemediationTells(System(Consumed(gate, used), s.invoked), specs, ctx, incident, prepared,
                       GrantUsed(ctx, prepared, approval, id, w, sha),
                       Spent(used, ctx.tenantId, ctx.sessionId, fingerprint, w.clock(1)), w);
    }
  }

  /** Whatever runs in between, a grant that was issued to somebody who may approve is accepted
      as long as it is unspent and its time has not passed, for its tenant, session and plan. */
  lemma GrantStaysGood(r: Runtime, sha: string -> string, ops: seq<Op>, ctx: Context, fingerprint: string, id: string,
                       at: real, ttl: real, other: Context, otherFingerprint: string, now: real)
    requires Sound(r.system) && "remediation:approve" in ctx.capabilities
    requires FreshRun(r, sha, [IssueGrant(ctx, fingerprint, id, at, ttl)] + ops)
    ensures var gate := Run(r, sha, [IssueGrant(ctx, fingerprint, id, at, ttl)] + ops).system.gate;
            && id in gate
            && (ConsumeRefusal(gate, other, otherFingerprint, id, now).None?
                <==> && !gate[id].consumed && now < at + ttl && other.tenantId == ctx.tenantId
                     && other.sessionId == ctx.sessionId && otherFingerprint == fingerprint)
  {
    var issue := IssueGrant(ctx, fingerprint, id, at, ttl);
    var all := [issue] + ops;
    assert all[0] == issue && all[1..] == ops;
    var issued := Step(r, sha, issue);
    StepKeeps(r.system, r.specs, sha, issue);
    RunKeeps(issued, sha, ops);
    assert issued.system.gate[id].grant == NewGrant(ctx, fingerprint, id, at, ttl);
    AcceptedExactly(Run(r, sha, all).system.gate, other, otherFingerprint, id, now);
  }
}
