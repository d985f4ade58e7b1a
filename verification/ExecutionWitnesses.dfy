/** Executions that show what the engine does not ask for. */
module ExecutionWitnesses {
  import opened Prelude
  import opened ExecutionModel
  import opened ExecutionLaws
  import opened ExecutionRuns

  // ---- a printer, its tools and an operator

  const PROBE := ToolSpec("mcp.printer.diagnose", "mcp:read", false, 5.0, {"printer"})
  const REPAIR := ToolSpec("mcp.printer.remediate", "mcp:write", true, 5.0, {"printer"})
  const CHECK := ToolSpec("mcp.printer.verify", "mcp:read", false, 5.0, {"printer"})

  function PrinterSpecs(): Specs {
    map[PROBE.name := PROBE, REPAIR.name := REPAIR, CHECK.name := CHECK]
  }

  function Operator(run: string, tenant: string): Context {
    Context(run, tenant, "u", "s", {APPROVE_CAPABILITY, DIAGNOSE_CAPABILITY, "mcp:read", "mcp:write"}, 60.0)
  }

  function PrinterAt(tenant: string, device: string): Incident {
    Incident("inc-1", tenant, Printer, "printer", "", device)
  }

  function RowOf(tenant: string): EvidenceRow {
    EvidenceRow("doc", "chunk", tenant, "text")
  }

  /** Time stands still, and every tool answers for this tenant and device. */
  function CalmWorld(tenant: string, device: string, ok: bool): World {
    World(_ => 0.0, _ => Returns(ToolResult("tool", tenant, device, ok)), [RowOf(tenant)])
  }

  lemma ToolsDiffer()
    ensures PROBE.name != REPAIR.name && PROBE.name != CHECK.name && REPAIR.name != CHECK.name
  {
    assert PROBE.name[12] == 'd' && REPAIR.name[12] == 'r' && CHECK.name[12] == 'v';
  }

  lemma ToolsAdmitted(run: string, tenant: string, device: string, action: string)
    ensures var (specs, ctx, incident) := (PrinterSpecs(), Operator(run, tenant), PrinterAt(tenant, device));
            && Admission(specs, ctx, DiagnosticRequest(incident, 0.0)) == None
            && Admission(specs, ctx, RemediationRequest(incident, action, 0.0)) == None
            && Admission(specs, ctx, VerificationRequest(incident, 0.0)) == None
            && specs[RouteOf(Printer).remediationTool].mutating
  {
    ToolsDiffer();
  }

  function Begin(run: string, tenant: string, device: string): Answer {
    Prepared(System(map[], []), PrinterSpecs(), Operator(run, tenant), PrinterAt(tenant, device),
             CalmWorld(tenant, device, true))
  }

  function Finish(s: System, prepared: Outcome, run: string, tenant: string, device: string, ok: bool,
                  sha: string -> string): Answer
  {
    Approved(s, PrinterSpecs(), Operator(run, tenant), PrinterAt(tenant, device), prepared, None, "g",
             CalmWorld(tenant, device, ok), sha)
  }

  lemma BeginSucceeds(run: string, tenant: string, device: string)
    requires tenant != ""
    ensures var a := Begin(run, tenant, device);
            && a.result.Ok? && PreparedFor(a.result.value, PrinterAt(tenant, device))
            && a.result.value.rows == [RowOf(tenant)] && a.system.gate == map[] && |a.system.invoked| == 1
  {
    hide Admission, PlanFor, PreparedEvents;
    ToolsAdmitted(run, tenant, device, "");
    var ctx, incident, w := Operator(run, tenant), PrinterAt(tenant, device), CalmWorld(tenant, device, true);
    assert Grounding(ctx, w.rows).None? by { GroundingMeans(ctx, w.rows); }
    assert IntakeRefusal(ctx, incident, w).None?;
    assert Executed(PrinterSpecs(), ctx, DiagnosticRequest(incident, w.clock(4)), w.handling(0)).Ok?;
  }

  lemma FinishSucceeds(s: System, prepared: Outcome, origin: Incident, run: string, tenant: string, device: string,
                       ok: bool, sha: string -> string)
    requires tenant != "" && PreparedFor(prepared, origin) && s.gate == map[]
    ensures var a := Finish(s, prepared, run, tenant, device, ok, sha);
            && a.result.Ok? && a.result.value.state == (if ok then CLOSED else FAILED)
            && a.result.value.rows == prepared.rows
            && |a.system.invoked| == |s.invoked| + (if ok then 2 else 1) && s.invoked <= a.system.invoked
            && a.system.invoked[|s.invoked|].mutating
  {
    hide Admission, PlanFor, PreparedFor, FingerprintText, Log, RouteOf;
    PreparedOutcome(prepared, origin);
    ToolsAdmitted(run, tenant, device, prepared.plan.action);
  }

  // ---- another run, another tenant

  /** Prepared as "run-1", executed as "run-2" of the same tenant: closed, with a log that is
      not of one run. */
  lemma OtherRunCloses(sha: string -> string)
    ensures var a := Begin("run-1", "t", "A");
            && a.result.Ok?
            && var b := Finish(a.system, a.result.value, "run-2", "t", "A", true, sha);
               b.result.Ok? && b.result.value.state == CLOSED && !OneRun(b.result.value.events)
  {
    hide Prepared, Approved, PreparedFor, OneRun;
    BeginSucceeds("run-1", "t", "A");
    var a := Begin("run-1", "t", "A");
    FinishSucceeds(a.system, a.result.value, PrinterAt("t", "A"), "run-2", "t", "A", true, sha);
    OneRunExactly(System(map[], []), PrinterSpecs(), Operator("run-1", "t"), PrinterAt("t", "A"),
                  CalmWorld("t", "A", true),
                  a.system, PrinterSpecs(), Operator("run-2", "t"), PrinterAt("t", "A"), a.result.value, None, "g",
                  CalmWorld("t", "A", true), sha);
  }

  /** Prepared in tenant "t", executed in tenant "u" with an incident of "u": closed, with the
      evidence of "t". */
  lemma OtherTenantCloses(sha: string -> string)
    ensures var a := Begin("run-1", "t", "A");
            && a.result.Ok?
            && var b := Finish(a.system, a.result.value, "run-1", "u", "A", true, sha);
               b.result.Ok? && b.result.value.state == CLOSED && b.result.value.rows == [RowOf("t")]
                 && RowOf("t").tenantId != "u"
  {
    hide Prepared, Approved, PreparedFor;
    BeginSucceeds("run-1", "t", "A");
    var a := Begin("run-1", "t", "A");
    FinishSucceeds(a.system, a.result.value, PrinterAt("t", "A"), "run-1", "u", "A", true, sha);
  }

  // ---- a failed remediation

  /** A remediation that does not come back ok ends in FAILED, and the log at REMEDIATING. */
  lemma FailedEndsAtRemediating(sha: string -> string)
    ensures var a := Begin("run-1", "t", "A");
            && a.result.Ok?
            && var b := Finish(a.system, a.result.value, "run-1", "t", "A", false, sha);
               && b.result.Ok? && b.result.value.state == FAILED
               && var events := b.result.value.events; events != [] && events[|events| - 1].state == REMEDIATING
  {
    hide Prepared, Approved, PreparedFor, Walk;
    BeginSucceeds("run-1", "t", "A");
    var a := Begin("run-1", "t", "A");
    FinishSucceeds(a.system, a.result.value, PrinterAt("t", "A"), "run-1", "t", "A", false, sha);
    ApprovedWalks(a.system, PrinterSpecs(), Operator("run-1", "t"), PrinterAt("t", "A"), PrinterAt("t", "A"),
                  a.result.value,
                  None, "g", CalmWorld("t", "A", false), sha);
  }

  // ---- another device than the one approved

  /** Three tools registered, an incident on device "A" prepared, the outcome executed with an
      incident on device "B": the mutating tool is called on "B", for a grant whose
      fingerprint is that of the plan for "A", and "B" is verified. */
  lemma OtherDeviceReached(sha: string -> string) returns (ops: seq<Op>)
    ensures var start := Runtime(System(map[], []), map[]);
            var end := Run(start, sha, ops).system;
            && FreshRun(start, sha, ops)
            && |end.invoked| == 3 && end.invoked[1].mutating && end.invoked[1].request.resource == "B"
            && end.invoked[1].spent.Some?
            && end.invoked[1].spent.value.planFingerprint == sha(FingerprintText(PlanFor(PrinterAt("t", "A"))))
            && PlanFor(PrinterAt("t", "A")).resourceId == "A"
            && end.invoked[0].request.tool == "mcp.printer.diagnose" && end.invoked[0].request.resource == "A"
            && end.invoked[1].request.tool == "mcp.printer.remediate"
            && end.invoked[2].request.tool == "mcp.printer.verify" && end.invoked[2].request.resource == "B"
            && end.invoked[2].spent.None?
  {
    hide PlanFor, FingerprintText, Prepared, Approved, PreparedFor, RouteOf, Step, Run, FreshRun;
    var ctx, a, b := Operator("run-1", "t"), PrinterAt("t", "A"), PrinterAt("t", "B");
    BeginSucceeds("run-1", "t", "A");
    var first := Begin("run-1", "t", "A");
    var outcome := first.result.value;
    FinishSucceeds(first.system, outcome, a, "run-1", "t", "B", true, sha);
    ApprovedCallFollowsPlan(first.system, PrinterSpecs(), ctx, a, b, outcome, None, "g", CalmWorld("t", "B", true),
                            sha);
    PlansItsDevice("A");
    PreparationCalls(System(map[], []), PrinterSpecs(), ctx, a, CalmWorld("t", "A", true));
    ExecutionCalls(first.system, PrinterSpecs(), ctx, b, outcome, None, "g", CalmWorld("t", "B", true), sha);
    var prepare := Prepare(ctx, a, CalmWorld("t", "A", true));
    var execute := ApproveAndExecute(ctx, b, outcome, None, "g", CalmWorld("t", "B", true));
    ops := [Register(PROBE), Register(REPAIR), Register(CHECK), prepare, execute];
    ToolsRegistered(sha, [prepare, execute]);
    assert [Register(PROBE), Register(REPAIR), Register(CHECK)] + [prepare, execute] == ops;
    PreparedThenExecuted(sha, prepare, execute);
  }

  lemma PreparedThenExecuted(sha: string -> string, prepare: Op, execute: Op)
    requires prepare.Prepare? && execute.ApproveAndExecute?
    ensures var ready := Runtime(System(map[], []), PrinterSpecs());
            var s := Prepared(ready.system, ready.specs, prepare.ctx, prepare.incident, prepare.w).system;
            && Run(ready, sha, [prepare, execute]).system
               == Approved(s, ready.specs, execute.ctx, execute.incident, execute.prepared, execute.approval,
                           execute.id, execute.w, sha).system
            && (FreshRun(ready, sha, [prepare, execute]) <==> execute.id !in s.gate)
  {
    hide Prepared, Approved, Run, FreshRun, PrinterSpecs;
    var ready := Runtime(System(map[], []), PrinterSpecs());
    RunHead(ready, sha, prepare, [execute]);
    RunHead(Step(ready, sha, prepare), sha, execute, []);
    RunNothing(Step(Step(ready, sha, prepare), sha, execute), sha);
    assert [prepare] + [execute] == [prepare, execute] && [execute] + [] == [execute];
  }

  lemma ToolsRegistered(sha: string -> string, rest: seq<Op>)
    ensures var start, ready := Runtime(System(map[], []), map[]), Runtime(System(map[], []), PrinterSpecs());
            var ops := [Register(PROBE), Register(REPAIR), Register(CHECK)] + rest;
            Run(start, sha, ops) == Run(ready, sha, rest) && (FreshRun(start, sha, ops) <==> FreshRun(ready, sha, rest))
  {
    hide Run, FreshRun;
    var start := Runtime(System(map[], []), map[]);
    var a, b, c := Register(PROBE), Register(REPAIR), Register(CHECK);
    var r1 := Step(start, sha, a);
    var r2 := Step(r1, sha, b);
    RunHead(start, sha, a, [b, c] + rest);
    RunHead(r1, sha, b, [c] + rest);
    RunHead(r2, sha, c, rest);
    assert [a] + ([b, c] + rest) == [a, b, c] + rest && [b] + ([c] + rest) == [b, c] + rest;
    assert Step(r2, sha, c) == Runtime(System(map[], []), PrinterSpecs());
  }

  lemma PlansItsDevice(device: string)
    ensures PlanFor(PrinterAt("t", device)).resourceId == device
  {
  }
}
