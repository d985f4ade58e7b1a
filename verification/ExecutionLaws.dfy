/** What every engine operation, and every run of them, keeps. */
module ExecutionLaws {
  import opened Prelude
  import opened ExecutionModel

  // ---- the event log

  /** Numbered from one without a gap; the states start at INTAKE and move along edges of
      the production graph or stay. */
  ghost predicate Walk(events: seq<Event>) {
    && events != [] && events[0].state == INTAKE
    && (forall i | 0 <= i < |events| :: events[i].sequence == i + 1)
    && (forall i | 0 <= i < |events| - 1 ::
          events[i].state == events[i + 1].state || Edge(events[i].state, events[i + 1].state))
  }

  lemma LogWalks(events: seq<Event>, state: ExecutionState, eventType: string, ctx: Context)
    requires Walk(events)
    requires events[|events| - 1].state == state || Edge(events[|events| - 1].state, state)
    ensures var longer := Log(events, state, eventType, ctx);
            Walk(longer) && events < longer && longer[|longer| - 1].state == state
  {
  }

  lemma PreparedEventsWalk(ctx: Context)
    ensures Walk(PreparedEvents(ctx)) && PreparedEvents(ctx)[|PreparedEvents(ctx)| - 1].state == AWAITING_APPROVAL
  {
    var e1 := Log([], INTAKE, "incident_accepted", ctx);
    var e2 := Log(e1, RETRIEVING, "evidence_retrieved", ctx);
    var e3 := Log(e2, GROUNDING, "citations_verified", ctx);
    var e4 := Log(e3, ROUTING, "agent_routed", ctx);
    var e5 := Log(e4, DIAGNOSING, "diagnostic_completed", ctx);
    LogWalks(e1, RETRIEVING, "evidence_retrieved", ctx);
    LogWalks(e2, GROUNDING, "citations_verified", ctx);
    LogWalks(e3, ROUTING, "agent_routed", ctx);
    LogWalks(e4, DIAGNOSING, "diagnostic_completed", ctx);
    LogWalks(e5, AWAITING_APPROVAL, "approval_required", ctx);
  }

  /** An outcome that `prepare` returned for `incident` in some surroundings. */
  ghost predicate PreparedFor(p: Outcome, incident: Incident) {
    exists s, specs, ctx, w :: Prepared(s, specs, ctx, incident, w).result == Ok(p)
  }

  lemma PreparedOutcome(p: Outcome, incident: Incident)
    requires PreparedFor(p, incident)
    ensures p.state == AWAITING_APPROVAL && p.plan == PlanFor(incident) && Walk(p.events)
    ensures p.events[|p.events| - 1].state == AWAITING_APPROVAL
  {
    hide PreparedEvents, Executed, Grounding, Called, PlanFor;
    var s, specs, ctx, w :| Prepared(s, specs, ctx, incident, w).result == Ok(p);
    PreparedEventsWalk(ctx);
  }

  /** The events that a finished approved execution adds, by its result state. */
  function ApprovedEvents(events: seq<Event>, state: ExecutionState, ctx: Context): seq<Event> {
    var e1 := Log(events, AWAITING_APPROVAL, "approval_consumed", ctx);
    var e2 := Log(e1, REMEDIATING, "remediation_completed", ctx);
    if state == FAILED then e2
    else
      var e3 := Log(e2, VERIFYING, "verification_completed", ctx);
      Log(e3, state, if state == CLOSED then "incident_closed" else "verification_failed_retriage_required", ctx)
  }

  lemma ApprovedEventsAre(s: System, specs: Specs, ctx: Context, incident: Incident, prepared: Outcome,
                          approval: Option<Grant>, id: string, w: World, sha: string -> string)
    requires Approved(s, specs, ctx, incident, prepared, approval, id, w, sha).result.Ok?
    ensures var o := Approved(s, specs, ctx, incident, prepared, approval, id, w, sha).result.value;
            && o.state in {FAILED, CLOSED, DIAGNOSING}
            && o.events == ApprovedEvents(prepared.events, o.state, ctx)
            && prepared.state == AWAITING_APPROVAL
  {
    hide Executed, Called, ConsumeRefusal, Consumed, Log, FingerprintText;
  }

  lemma ApprovedEventsWalk(events: seq<Event>, state: ExecutionState, ctx: Context)
    requires Walk(events) && events[|events| - 1].state == AWAITING_APPROVAL && state in {FAILED, CLOSED, DIAGNOSING}
    ensures var more := ApprovedEvents(events, state, ctx);
            Walk(more) && events < more && more[|more| - 1].state == if state == FAILED then REMEDIATING else state
  {
    hide Log, Walk, Edge;
    EdgesAhead();
    var e1 := Log(events, AWAITING_APPROVAL, "approval_consumed", ctx);
    var e2 := Log(e1, REMEDIATING, "remediation_completed", ctx);
    var e3 := Log(e2, VERIFYING, "verification_completed", ctx);
    LogWalks(events, AWAITING_APPROVAL, "approval_consumed", ctx);
    LogWalks(e1, REMEDIATING, "remediation_completed", ctx);
    if state != FAILED {
      LogWalks(e2, VERIFYING, "verification_completed", ctx);
      LogWalks(e3, state, if state == CLOSED then "incident_closed" else "verification_failed_retriage_required", ctx);
    }
  }

  /** Whatever tools and clock do, the events of an approved execution extend the prepared
      ones, stay numbered, and keep walking the graph; the last event shows the result
      state, except that FAILED, which is outside the graph, ends at REMEDIATING. */
  lemma ApprovedWalks(s: System, specs: Specs, ctx: Context, origin: Incident, incident: Incident, prepared: Outcome,
                      approval: Option<Grant>, id: string, w: World, sha: string -> string)
    requires PreparedFor(prepared, origin)
    requires Approved(s, specs, ctx, incident, prepared, approval, id, w, sha).result.Ok?
    ensures var o := Approved(s, specs, ctx, incident, prepared, approval, id, w, sha).result.value;
            && prepared.events < o.events && Walk(o.events)
            && o.events[|o.events| - 1].state == (if o.state == FAILED then REMEDIATING else o.state)
            && o.state in {FAILED, CLOSED, DIAGNOSING}
  {
    hide Approved, PreparedFor, ApprovedEvents, Walk;
    PreparedOutcome(prepared, origin);
    ApprovedEventsAre(s, specs, ctx, incident, prepared, approval, id, w, sha);
    var o := Approved(s, specs, ctx, incident, prepared, approval, id, w, sha).result.value;
    ApprovedEventsWalk(prepared.events, o.state, ctx);
  }

  lemma EdgesAhead()
    ensures Edge(AWAITING_APPROVAL, REMEDIATING) && Edge(REMEDIATING, VERIFYING)
    ensures Edge(VERIFYING, CLOSED) && Edge(VERIFYING, DIAGNOSING)
  {
  }

  /** All events are of one tenant and one run. */
  ghost predicate OneRun(events: seq<Event>) {
    forall e, f | e in events && f in events :: e.tenantId == f.tenantId && e.runId == f.runId
  }

  ghost predicate Stamped(events: seq<Event>, ctx: Context) {
    forall e | e in events :: e.tenantId == ctx.tenantId && e.runId == ctx.runId
  }

  lemma LogStamps(events: seq<Event>, state: ExecutionState, eventType: string, ctx: Context)
    requires Stamped(events, ctx)
    ensures Stamped(Log(events, state, eventType, ctx), ctx)
  {
  }

  lemma PreparedStamped(ctx: Context)
    ensures Stamped(PreparedEvents(ctx), ctx) && PreparedEvents(ctx) != []
  {
    var e1 := Log([], INTAKE, "incident_accepted", ctx);
    var e2 := Log(e1, RETRIEVING, "evidence_retrieved", ctx);
    var e3 := Log(e2, GROUNDING, "citations_verified", ctx);
    var e4 := Log(e3, ROUTING, "agent_routed", ctx);
    var e5 := Log(e4, DIAGNOSING, "diagnostic_completed", ctx);
    LogStamps([], INTAKE, "incident_accepted", ctx);
    LogStamps(e1, RETRIEVING, "evidence_retrieved", ctx);
    LogStamps(e2, GROUNDING, "citations_verified", ctx);
    LogStamps(e3, ROUTING, "agent_routed", ctx);
    LogStamps(e4, DIAGNOSING, "diagnostic_completed", ctx);
    LogStamps(e5, AWAITING_APPROVAL, "approval_required", ctx);
  }

  /** The events after `events` all carry the context. */
  ghost predicate Adds(events: seq<Event>, more: seq<Event>, ctx: Context) {
    events <= more && forall i | |events| <= i < |more| ::
        more[i].tenantId == ctx.tenantId && more[i].runId == ctx.runId
  }

  lemma LogAdds(events: seq<Event>, so: seq<Event>, state: ExecutionState, eventType: string, ctx: Context)
    requires Adds(events, so, ctx)
    ensures Adds(events, Log(so, state, eventType, ctx), ctx) && |Log(so, state, eventType, ctx)| == |so| + 1
  {
  }

  /** The events an execution adds all carry its own context. */
  lemma ApprovedStamps(events: seq<Event>, state: ExecutionState, ctx: Context)
    ensures Adds(events, ApprovedEvents(events, state, ctx), ctx) && |ApprovedEvents(events, state, ctx)| > |events|
  {
    assert Adds(events, events, ctx);
    hide Log, Adds;
    var e1 := Log(events, AWAITING_APPROVAL, "approval_consumed", ctx);
    var e2 := Log(e1, REMEDIATING, "remediation_completed", ctx);
    var e3 := Log(e2, VERIFYING, "verification_completed", ctx);
    LogAdds(events, events, AWAITING_APPROVAL, "approval_consumed", ctx);
    LogAdds(events, e1, REMEDIATING, "remediation_completed", ctx);
    LogAdds(events, e2, VERIFYING, "verification_completed", ctx);
    LogAdds(events, e3, state, if state == CLOSED then "incident_closed" else "verification_failed_retriage_required",
            ctx);
  }

  /** The log of a finished execution is of one tenant and run exactly when it was executed in
      the tenant and run it was prepared in; nothing in the program asks for that. */
  lemma OneRunExactly(s0: System, specs0: Specs, ctx0: Context, origin: Incident, w0: World, s: System, specs: Specs,
                      ctx: Context, incident: Incident, prepared: Outcome, approval: Option<Grant>, id: string,
                      w: World, sha: string -> string)
    requires Prepared(s0, specs0, ctx0, origin, w0).result == Ok(prepared)
    requires Approved(s, specs, ctx, incident, prepared, approval, id, w, sha).result.Ok?
    ensures OneRun(Approved(s, specs, ctx, incident, prepared, approval, id, w, sha).result.value.events)
       <==> ctx.tenantId == ctx0.tenantId && ctx.runId == ctx0.runId
  {
    PreparedStamped(ctx0);
    assert prepared.events == PreparedEvents(ctx0) by {
      hide PreparedEvents, Executed, IntakeRefusal, PlanFor, Called;
    }
    hide Approved, Prepared, ApprovedEvents, PreparedEvents;
    ApprovedEventsAre(s, specs, ctx, incident, prepared, approval, id, w, sha);
    var o := Approved(s, specs, ctx, incident, prepared, approval, id, w, sha).result.value;
    ApprovedStamps(prepared.events, o.state, ctx);
    var first, added := o.events[0], o.events[|prepared.events|];
    assert first == prepared.events[0] && first in prepared.events;
    assert first in o.events && added in o.events;
    if ctx.tenantId == ctx0.tenantId && ctx.runId == ctx0.runId {
      forall e | e in o.events ensures e.tenantId == ctx.tenantId && e.runId == ctx.runId {
        var i :| 0 <= i < |o.events| && o.events[i] == e;
        if i < |prepared.events| {
          assert e == prepared.events[i] && e in prepared.events;
        }
      }
    }
  }

  // ---- the evidence

  predicate SameChunk(a: EvidenceRow, b: EvidenceRow) {
    a.documentId == b.documentId && a.chunkId == b.chunkId
  }

  /** No document chunk is cited twice. */
  ghost predicate DifferentChunks(rows: seq<EvidenceRow>) {
    forall i, j | 0 <= i < j < |rows| :: !SameChunk(rows[i], rows[j])
  }

  lemma ChunksCons(first: EvidenceRow, rest: seq<EvidenceRow>)
    ensures DifferentChunks([first] + rest) <==> DifferentChunks(rest) && forall r | r in rest :: !SameChunk(first, r)
  {
    var rows := [first] + rest;
    if DifferentChunks(rows) {
      forall i, j | 0 <= i < j < |rest| ensures !SameChunk(rest[i], rest[j]) {
        assert rest[i] == rows[i + 1] && rest[j] == rows[j + 1];
      }
      forall r | r in rest ensures !SameChunk(first, r) {
        var j :| 0 <= j < |rest| && rest[j] == r;
        assert rows[0] == first && rows[j + 1] == r;
      }
    }
  }

  lemma {:induction false} GroundingFromMeans(ctx: Context, rows: seq<EvidenceRow>, seen: set<(string, string)>)
    ensures GroundingFrom(ctx, rows, seen).None?
       <==> && (forall r | r in rows :: ctx.SameTenant(r.tenantId) && (r.documentId, r.chunkId) !in seen)
            && DifferentChunks(rows)
    decreases |rows|
  {
    if rows != [] {
      hide DifferentChunks;
      var first, rest := rows[0], rows[1..];
      assert rows == [first] + rest;
      ChunksCons(first, rest);
      GroundingFromMeans(ctx, rest, seen + {(first.documentId, first.chunkId)});
    }
  }

  /** Rows ground a plan exactly when there are some, all of the caller's tenant, and no
      document chunk is cited twice. */
  lemma GroundingMeans(ctx: Context, rows: seq<EvidenceRow>)
    ensures Grounding(ctx, rows).None?
       <==> rows != [] && (forall r | r in rows :: ctx.SameTenant(r.tenantId)) && DifferentChunks(rows)
  {
    GroundingFromMeans(ctx, rows, {});
  }

  /** The evidence of a finished execution is of the executing tenant exactly when that is the
      tenant it was prepared for; nothing in the program asks for that. */
  lemma EvidenceOfTenantExactly(s0: System, specs0: Specs, ctx0: Context, origin: Incident, w0: World, s: System,
                                specs: Specs, ctx: Context, incident: Incident, prepared: Outcome,
                                approval: Option<Grant>, id: string, w: World, sha: string -> string)
    requires Prepared(s0, specs0, ctx0, origin, w0).result == Ok(prepared)
    requires Approved(s, specs, ctx, incident, prepared, approval, id, w, sha).result.Ok?
    ensures var o := Approved(s, specs, ctx, incident, prepared, approval, id, w, sha).result.value;
            (forall r | r in o.rows :: r.tenantId == ctx.tenantId) <==> ctx.tenantId == ctx0.tenantId
  {
    GroundingMeans(ctx0, w0.rows);
    PreparedRows(s0, specs0, ctx0, origin, w0);
    ApprovedRows(s, specs, ctx, incident, prepared, approval, id, w, sha);
    hide Prepared, Approved, Grounding;
    assert prepared.rows[0] in prepared.rows;
  }

  lemma PreparedRows(s: System, specs: Specs, ctx: Context, incident: Incident, w: World)
    requires Prepared(s, specs, ctx, incident, w).result.Ok?
    ensures Prepared(s, specs, ctx, incident, w).result.value.rows == w.rows && Grounding(ctx, w.rows).None?
  {
    hide PreparedEvents, Executed, Called, PlanFor, Grounding;
  }

  lemma ApprovedRows(s: System, specs: Specs, ctx: Context, incident: Incident, prepared: Outcome,
                     approval: Option<Grant>, id: string, w: World, sha: string -> string)
    requires Approved(s, specs, ctx, incident, prepared, approval, id, w, sha).result.Ok?
    ensures Approved(s, specs, ctx, incident, prepared, approval, id, w, sha).result.value.rows == prepared.rows
  {
    hide Executed, Called, ConsumeRefusal, Consumed, Log, FingerprintText;
  }

  // ---- closure

  /** The approval that `approve_and_execute` uses. */
  function GrantUsed(ctx: Context, prepared: Outcome, approval: Option<Grant>, id: string, w: World,
                     sha: string -> string): Grant
  {
    if approval.Some? then approval.value
    else NewGrant(ctx, sha(FingerprintText(prepared.plan)), id, w.clock(0), APPROVAL_TTL)
  }

  ghost predicate UnspentIn(g: Gate, id: string) {
    id in g && !g[id].consumed
  }

  /** An execution that returns consumed its grant, which was unspent and fitting, and is
      CLOSED exactly when the remediation and then the verification came back ok. */
  lemma ClosedExactly(s: System, specs: Specs, ctx: Context, incident: Incident, prepared: Outcome,
                      approval: Option<Grant>, id: string, w: World, sha: string -> string)
    requires Approved(s, specs, ctx, incident, prepared, approval, id, w, sha).result.Ok?
    ensures var a := Approved(s, specs, ctx, incident, prepared, approval, id, w, sha);
            var o, g := a.result.value, GrantUsed(ctx, prepared, approval, id, w, sha).approvalId;
            && (approval.Some? ==> UnspentIn(s.gate, g)) && g in a.system.gate && a.system.gate[g].consumed
            && o.remediation.Some?
            && (o.state == CLOSED <==> o.remediation.value.ok && o.verification.Some? && o.verification.value.ok)
            && (o.state == FAILED <==> !o.remediation.value.ok)
            && (o.state == DIAGNOSING <==> o.remediation.value.ok && o.verification.Some? && !o.verification.value.ok)
            && o.plan == prepared.plan
  {
  }

  // ---- the calls

  /** The tools and their domain by name. */
  ghost function DiagnoseTool(d: Domain): string {
    if d == Outlook then "mcp.outlook.diagnose" else "mcp.printer.diagnose"
  }

  ghost function RepairTool(d: Domain): string {
    if d == Outlook then "mcp.outlook.remediate" else "mcp.printer.remediate"
  }

  ghost function VerifyTool(d: Domain): string {
    if d == Outlook then "mcp.outlook.verify" else "mcp.printer.verify"
  }

  ghost function DomainText(d: Domain): string {
    if d == Outlook then "outlook" else "printer"
  }

  /** An unapproved call about the incident. */
  ghost predicate Asks(i: Invocation, tool: string, incident: Incident, at: real) {
    && i.request == ToolRequest(tool, DomainText(incident.domain), incident.deviceId,
                                map["incident_id" := incident.incidentId], at, false)
    && i.spent.None?
  }

  /** The approved call about the incident. */
  ghost predicate Repairs(i: Invocation, incident: Incident, action: string, at: real) {
    && i.request == ToolRequest(RepairTool(incident.domain), DomainText(incident.domain), incident.deviceId,
                                map["action" := action, "incident_id" := incident.incidentId], at, true)
    && i.spent.Some?
  }

  /** A preparation that succeeds has made one call, to the diagnosis tool of the incident's
      domain on its device, and reports what that answered. */
  lemma PreparationCalls(s: System, specs: Specs, ctx: Context, incident: Incident, w: World)
    requires Prepared(s, specs, ctx, incident, w).result.Ok?
    ensures var a := Prepared(s, specs, ctx, incident, w);
            && |a.system.invoked| == |s.invoked| + 1 && s.invoked <= a.system.invoked && a.system.gate == s.gate
            && Asks(a.system.invoked[|s.invoked|], DiagnoseTool(incident.domain), incident, w.clock(4))
            && w.handling(0) == Returns(a.result.value.diagnosis)
  {
    hide PreparedEvents, Admission, IntakeRefusal, PlanFor;
  }

  lemma RepairMade(s: System, specs: Specs, ctx: Context, incident: Incident, action: string, spent: Option<Spent>,
                   w: World)
    requires spent.Some? && Executed(specs, ctx, RemediationRequest(incident, action, w.clock(2)), w.handling(0)).Ok?
    ensures var q := RemediationRequest(incident, action, w.clock(2));
            var calls := Called(s, specs, ctx, q, spent).invoked;
            && |calls| == |s.invoked| + 1 && s.invoked <= calls
            && Repairs(calls[|s.invoked|], incident, action, w.clock(2))
            && w.handling(0) == Returns(Executed(specs, ctx, q, w.handling(0)).value)
  {
    hide Admission;
  }

  lemma VerificationCall(s: System, specs: Specs, ctx: Context, incident: Incident, prepared: Outcome, grant: Grant,
                         remediation: ToolResult, events: seq<Event>, w: World)
    requires Verified(s, specs, ctx, incident, prepared, grant, remediation, events, w).result.Ok?
    ensures var a := Verified(s, specs, ctx, incident, prepared, grant, remediation, events, w);
            var o, calls := a.result.value, a.system.invoked;
            && |calls| == |s.invoked| + 1 && s.invoked <= calls
            && Asks(calls[|s.invoked|], VerifyTool(incident.domain), incident, w.clock(3))
            && o.remediation == Some(remediation) && o.diagnosis == prepared.diagnosis && o.approval == Some(grant)
            && o.verification.Some? && w.handling(1) == Returns(o.verification.value) && o.state != FAILED
  {
    hide Admission, Log;
  }

  /** An execution that finishes has made one approved call, to the repair tool of the
      incident's domain on its device, and, unless that came back not ok, after it exactly one
      more: unapproved, to the verification tool, on the same device. It reports what these two
      answered. */
  lemma ExecutionCalls(s: System, specs: Specs, ctx: Context, incident: Incident, prepared: Outcome,
                       approval: Option<Grant>, id: string, w: World, sha: string -> string)
    requires Approved(s, specs, ctx, incident, prepared, approval, id, w, sha).result.Ok?
    ensures var a, n := Approved(s, specs, ctx, incident, prepared, approval, id, w, sha), |s.invoked|;
            var o, calls := a.result.value, a.system.invoked;
            && |calls| == n + (if o.state == FAILED then 1 else 2) && s.invoked <= calls
            && Repairs(calls[n], incident, prepared.plan.action, w.clock(2))
            && o.remediation.Some? && w.handling(0) == Returns(o.remediation.value)
            && (o.state == FAILED ==> o.verification.None?)
            && (o.state != FAILED ==>
                  && Asks(calls[n + 1], VerifyTool(incident.domain), incident, w.clock(3))
                  && o.verification.Some? && w.handling(1) == Returns(o.verification.value))
            && o.diagnosis == prepared.diagnosis && o.approval.Some?
  {
    hide Admission, Settled, ConsumeRefusal, Consumed, Log, FingerprintText, Verified, Executed, RemediationRequest;
    var q := RemediationRequest(incident, prepared.plan.action, w.clock(2));
    var grant := GrantUsed(ctx, prepared, approval, id, w, sha);
    var spent := Spent(grant.approvalId, ctx.tenantId, ctx.sessionId, sha(FingerprintText(prepared.plan)), w.clock(1));
    var gate := if approval.Some? then s.gate else s.gate[id := Approval(grant, false)];
    var after := System(Consumed(gate, grant.approvalId), s.invoked);
    assert Approved(s, specs, ctx, incident, prepared, approval, id, w, sha)
      == Remediated(after, specs, ctx, incident, prepared, grant, spent, w);
    RepairMade(after, specs, ctx, incident, prepared.plan.action, Some(spent), w);
    var called := Called(after, specs, ctx, q, Some(spent));
    var repaired := Executed(specs, ctx, q, w.handling(0)).value;
    if repaired.ok {
      VerificationCall(called, specs, ctx, incident, prepared, grant, repaired,
                       Log(Log(prepared.events, AWAITING_APPROVAL, "approval_consumed", ctx), REMEDIATING,
                           "remediation_completed", ctx), w);
    }
  }

  // ---- over whole runs

  /** Every approved handler call has an approval of its own: consumed, unexpired at that
      time, and of the call's tenant, session and plan. Mutating tools run approved only. */
  ghost predicate SpentOk(g: Gate, sp: Spent) {
    && sp.approvalId in g && g[sp.approvalId].consumed
    && g[sp.approvalId].grant.tenantId == sp.tenantId
    && g[sp.approvalId].grant.sessionId == sp.sessionId
    && g[sp.approvalId].grant.planFingerprint == sp.planFingerprint
    && sp.at < g[sp.approvalId].grant.expiresAt
  }

  ghost predicate CallOk(s: System, i: Invocation) {
    && (i.request.approved <==> i.spent.Some?) && (i.mutating ==> i.request.approved)
    && (i.spent.Some? ==> SpentOk(s.gate, i.spent.value))
  }

  ghost predicate GateOk(g: Gate) {
    forall id | id in g :: g[id].grant.approvalId == id
  }

  ghost predicate OwnGrants(invoked: seq<Invocation>) {
    forall i, j | 0 <= i < j < |invoked| && invoked[i].spent.Some? && invoked[j].spent.Some? ::
      invoked[i].spent.value.approvalId != invoked[j].spent.value.approvalId
  }

  ghost predicate Sound(s: System) {
    && GateOk(s.gate) && OwnGrants(s.invoked)
    && forall i | i in s.invoked :: CallOk(s, i)
  }

  /** Grants appear and get consumed; nothing else happens to them. */
  ghost predicate GateGrows(g: Gate, h: Gate) {
    forall id | id in g :: id in h && h[id].grant == g[id].grant && (g[id].consumed ==> h[id].consumed)
  }

  lemma SoundIfGateGrows(s: System, t: System)
    requires Sound(s) && GateGrows(s.gate, t.gate) && GateOk(t.gate) && t.invoked == s.invoked
    ensures Sound(t)
  {
    forall i | i in t.invoked ensures CallOk(t, i) {
      assert CallOk(s, i);
    }
  }

  /** An unapproved call adds no spending and cannot reach a mutating tool. */
  lemma PlainCallKeeps(s: System, specs: Specs, ctx: Context, q: ToolRequest)
    requires Sound(s) && !q.approved
    ensures Sound(Called(s, specs, ctx, q, None))
  {
    var t := Called(s, specs, ctx, q, None);
    forall i | i in t.invoked ensures CallOk(t, i) {
      if i in s.invoked {
        assert CallOk(s, i);
      }
    }
  }

  /** An approved call on a grant that was consumed for it and for no call before. */
  lemma ApprovedCallKeeps(s: System, specs: Specs, ctx: Context, q: ToolRequest, sp: Spent)
    requires Sound(s) && q.approved && SpentOk(s.gate, sp)
    requires forall i | i in s.invoked && i.spent.Some? :: i.spent.value.approvalId != sp.approvalId
    ensures Sound(Called(s, specs, ctx, q, Some(sp)))
  {
    var t := Called(s, specs, ctx, q, Some(sp));
    forall i | i in t.invoked ensures CallOk(t, i) {
      if i in s.invoked {
        assert CallOk(s, i);
      }
    }
    forall i, j | 0 <= i < j < |t.invoked| && t.invoked[i].spent.Some? && t.invoked[j].spent.Some?
      ensures t.invoked[i].spent.value.approvalId != t.invoked[j].spent.value.approvalId
    {
      if j == |s.invoked| {
        assert t.invoked[i] in s.invoked;
      }
    }
  }

  lemma VerifiedKeeps(s: System, specs: Specs, ctx: Context, incident: Incident, prepared: Outcome, grant: Grant,
                      remediation: ToolResult, events: seq<Event>, w: World)
    requires Sound(s)
    ensures var t := Verified(s, specs, ctx, incident, prepared, grant, remediation, events, w).system;
            Sound(t) && t.gate == s.gate
  {
    PlainCallKeeps(s, specs, ctx, VerificationRequest(incident, w.clock(3)));
  }

  lemma RemediatedKeeps(s: System, specs: Specs, ctx: Context, incident: Incident, prepared: Outcome, grant: Grant,
                        sp: Spent, w: World)
    requires Sound(s) && SpentOk(s.gate, sp)
    requires forall i | i in s.invoked && i.spent.Some? :: i.spent.value.approvalId != sp.approvalId
    ensures var t := Remediated(s, specs, ctx, incident, prepared, grant, sp, w).system;
            Sound(t) && t.gate == s.gate
  {
    var q := RemediationRequest(incident, prepared.plan.action, w.clock(2));
    ApprovedCallKeeps(s, specs, ctx, q, sp);
    var called := Called(s, specs, ctx, q, Some(sp));
    var events := Log(Log(prepared.events, AWAITING_APPROVAL, "approval_consumed", ctx), REMEDIATING,
                      "remediation_completed", ctx);
    if Executed(specs, ctx, q, w.handling(0)).Ok? {
      VerifiedKeeps(called, specs, ctx, incident, prepared, grant, Executed(specs, ctx, q, w.handling(0)).value, events,
                    w);
    }
  }

  /** Consuming an unspent grant that fits the caller and the plan. */
  lemma ConsumeKeeps(s: System, ctx: Context, fingerprint: string, id: string, now: real)
    requires Sound(s) && ConsumeRefusal(s.gate, ctx, fingerprint, id, now).None?
    ensures var t := s.(gate := Consumed(s.gate, id));
            && Sound(t) && GateGrows(s.gate, t.gate)
            && SpentOk(t.gate, Spent(id, ctx.tenantId, ctx.sessionId, fingerprint, now))
            && (forall i | i in s.invoked && i.spent.Some? :: i.spent.value.approvalId != id)
  {
    var t := s.(gate := Consumed(s.gate, id));
    SoundIfGateGrows(s, t);
    forall i | i in s.invoked && i.spent.Some? ensures i.spent.value.approvalId != id {
      assert CallOk(s, i);
    }
  }

  lemma IssueKeeps(s: System, grant: Grant)
    requires Sound(s) && grant.approvalId !in s.gate
    ensures var t := s.(gate := s.gate[grant.approvalId := Approval(grant, false)]);
            Sound(t) && GateGrows(s.gate, t.gate)
  {
    SoundIfGateGrows(s, s.(gate := s.gate[grant.approvalId := Approval(grant, false)]));
  }

  lemma ApprovedKeeps(s: System, specs: Specs, ctx: Context, incident: Incident, prepared: Outcome,
                      approval: Option<Grant>, id: string, w: World, sha: string -> string)
    requires Sound(s) && id !in s.gate
    ensures var t := Approved(s, specs, ctx, incident, prepared, approval, id, w, sha).system;
            Sound(t) && GateGrows(s.gate, t.gate)
  {
    hide Sound, Remediated, FingerprintText;
    var fingerprint := sha(FingerprintText(prepared.plan));
    var grant := GrantUsed(ctx, prepared, approval, id, w, sha);
    var issued := if approval.Some? then s else s.(gate := s.gate[id := Approval(grant, false)]);
    if approval.None? {
      IssueKeeps(s, grant);
    }
    if ConsumeRefusal(issued.gate, ctx, fingerprint, grant.approvalId, w.clock(1)).None? {
      ConsumeKeeps(issued, ctx, fingerprint, grant.approvalId, w.clock(1));
      RemediatedKeeps(issued.(gate := Consumed(issued.gate, grant.approvalId)), specs, ctx, incident, prepared, grant,
                      Spent(grant.approvalId, ctx.tenantId, ctx.sessionId, fingerprint, w.clock(1)), w);
    }
  }

  // ---- dispatch

  /** What a dispatch that answers rests on: a registered tool of the domain, the capability,
      an approval if the tool is mutating, enough time, and a result for the caller's tenant
      and the requested resource. Without the first five no handler runs. */
  lemma DispatchMeans(specs: Specs, ctx: Context, q: ToolRequest, h: Handling)
    ensures Admission(specs, ctx, q).None?
       <==> && q.tool in specs && q.domain in specs[q.tool].allowedDomains
            && specs[q.tool].requiredCapability in ctx.capabilities
            && (specs[q.tool].mutating ==> q.approved)
            && ctx.deadlineAt - q.now > 0.0 && specs[q.tool].timeoutSeconds <= ctx.deadlineAt - q.now
    ensures Executed(specs, ctx, q, h).Ok?
       <==> && Admission(specs, ctx, q).None?
            && h.Returns? && ctx.SameTenant(h.result.tenantId) && h.result.resourceId == q.resource
    ensures Executed(specs, ctx, q, h).Ok? ==> Executed(specs, ctx, q, h).value == h.result
  {
  }

  // ---- fallback

  /** A fallback dispatch calls at most two handlers, none of a mutating tool, the primary
      before the fallback; the fallback runs only after a tool error of the primary, and an
      answer comes from the last handler called, for the requested resource and tenant. */
  lemma FallbackIsReadOnly(specs: Specs, ctx: Context, primary: string, fallback: Option<string>, domain: string,
                           resource: string, args: Args, now: real, first: Handling, second: Handling)
    ensures var out := WithFallback(specs, ctx, primary, fallback, domain, resource, args, now, first, second);
            var q := ToolRequest(primary, domain, resource, args, now, false);
            && |out.calls| <= 2
            && (forall i | 0 <= i < |out.calls| :: out.calls[i].tool in specs && !specs[out.calls[i].tool].mutating)
            && (forall i | 0 <= i < |out.calls| && out.calls[i] != q ::
                  && fallback == Some(out.calls[i].tool)
                  && Executed(specs, ctx, q, first).Err? && IsToolError(Executed(specs, ctx, q, first).error))
            && (out.result.Ok? ==>
                  && out.calls != [] && ctx.SameTenant(out.result.value.tenantId)
                  && out.result.value.resourceId == resource)
  {
  }
}
