# DeskPilot governors, modelled and proved in Dafny

This project models the stateful governors and the deterministic algorithms of the DeskPilot
service desk and proves what they promise over all inputs and all runs. `dafny verify
dfyconfig.toml` checks everything.

**How it is built.** For each component there is a value model (datatypes and functions) and,
where the program updates objects in place, a class with the same fields whose methods are
tied to the value model: `View()` afterwards is the model function of `old(View())`. What the
program promises is then proved about the model: what one call does, what every operation
keeps, and what holds over every run.

| area | files |
|---|---|
| audit log, sessions | HashChain, IdentityAudit, SessionModel, SessionLaws, SessionEviction, SessionRuns, SessionEffects, SessionTheorems, SessionManager |
| step-up, policy, enforcement, provider tokens, service | StepUp, AuthorizationPolicy, Enforcement, EnforcementLaws, TokenVault, IdentityServiceModel, IdentityService, IdentityServiceLaws, ServiceEffects |
| governed execution engine | LoopGuard, ExecutionModel, ExecutionLaws, ExecutionRuns, ExecutionEffects, ExecutionWitnesses, PlanFingerprints, GovernedExecution |
| plan order, resilience, evidence, clarification | PlanGraph, PlanningGovernance, NodeResilience, EvidenceMerge, EvidenceArrival, MergeLaws, DiagnosticFanout, EvidenceFusion, FusionLaws, EvidenceOrder, Clarification |
| capacity | RateLimit, ConcurrencyGovernor, LatencyStats, Fairness, Autoscaling, VirtualWindow |
| formats and versions | AgentTrace, StateMigrations, OpenApiCompatibility, TraceParent, Csrf, TextCodec |
| shared | Prelude, Ordering, RealArithmetic |

**Conventions.** Clocks, random draws, tool handlers, retrieval results and asynchronous
operations are parameters: a theorem quantifies over every clock reading and every outcome.
Drawn ids and tokens are assumed fresh where a run hands them out, and the session cap assumes
a clock that does not run backwards; the admission bound of the token bucket does not. SHA-256
and HMAC are arbitrary functions; that they have no collisions is assumed only in the lemmas
that say so. Digests cover body values, not JSON text. Floats are exact reals. Python
exceptions are error results, a null record stands for the session error.

**Where the code differs from what a reader might expect.** The model follows the code, and
each point is a lemma:

- The retry hint of the rate limiter adds 0.999999 and truncates; it is not a ceiling.
  `RateLimit.RetryHint` says exactly when waiting as told suffices, `HintCanFallShort` gives a
  run after which it does not.
- Plan fingerprints join their fields with `|`. A fingerprint identifies its plan exactly when
  none of the fields contains that character (`PlanFingerprints.IdentifiedExactly`,
  `RoutedIdentifiedExactly`); otherwise an approval also covers other plans
  (`ApprovalCoversExactly`, `ApprovalCanCoverAnotherTool`). Two routed plans never collide
  (`RoutedFingerprints`).
- `approve_and_execute` runs the tool and device of the incident it is given, not of the plan
  it was approved for; they agree exactly when domain and device do
  (`ExecutionRuns.ApprovedCallFollowsPlan`, `ExecutionWitnesses.OtherDeviceReached`). Nor does
  it ask for the context of the preparation: log and evidence of the result may be of another
  run or tenant (`ExecutionLaws.OneRunExactly`, `EvidenceOfTenantExactly`,
  `ExecutionWitnesses.OtherRunCloses`, `OtherTenantCloses`).
- `issue` takes any parent session and starts at version one all the same; the rotation
  lineage stays in order exactly when no parent is given
  (`SessionTheorems.LoginKeepsLineageExactly`).
- `merge_evidence` reports the fault that arrives first, and keeps the record that arrives first
  among those of one digest and least id. `EvidenceArrival.OrderMattersExactly` says exactly when
  the order of the records matters (`FirstRecordDecides`, `SameIdTellsApart`).
- `fuse_evidence` too reports the first fault it meets. `EvidenceOrder.AnswerIgnoresOrderExactly`
  says exactly when the order of the evidence matters (`FaultDependsOnOrder`).
- Rotating a session does not carry its provider tokens over: they stay with the revoked session
  (`IdentityServiceLaws.RotationLeavesTokens`).
- Evidence fusion compares the leading hypothesis with the runner-up only
  (`EvidenceFusion.RivalExactly`, `RivalBehindIneligible`); its three eligibility conditions
  reduce to one (`TwoTypesSuffice`).
- `logout_all` drops the provider tokens of sessions active at that moment; a family left by an
  expired or earlier revoked session stays (`IdentityServiceLaws.LogoutAllExactly`,
  `LogoutAllLeavesFamily`).
- A provider that hands a retired refresh token out again locks its own token family
  (`TokenVault.AcceptedExactly`).
- A clarification is complete when every need is answered or was asked, answered or not
  (`Clarification.AskedCountsAsAnswered`, `UnansweredIsComplete`).
- A scale-up factor of at most one keeps a service below its goal for ever, unless the goal is
  the minimum (`Autoscaling.ReachesGoalExactly`).
- Adding an enum to a property that had none is not reported, dropping one with values is; the
  report is right about enums exactly when neither happens (`OpenApiCompatibility.EnumReportExactly`,
  `AddedEnumIsSilent`).
- The signature of a CSRF token covers the number in its time field, not the text
  (`Csrf.TamperedExactly`, `OtherTextsValidate`).
- FAILED is an outcome outside the production graph; the log of a failed execution ends at
  REMEDIATING (`ExecutionLaws.ApprovedWalks`, `ExecutionWitnesses.FailedEndsAtRemediating`).
- `verify_chain` never looks at sequence numbers; the head hash still fixes the whole history
  (`IdentityAudit.HeadIdentifiesHistory`).

## Model

| member | source | states |
|---|---|---|
| IdentityAudit.IdentityAuditLog.Append | backend/src/deskpilot_identity/audit.py:30-57 | adds one event holding exactly the caller's entry, numbered one higher and linked to the last event's hash; keeps the log acceptable to an auditor |
| IdentityAudit.IdentityAuditLog.VerifyChain | backend/src/deskpilot_identity/audit.py:59-70 | answers true exactly when every stored event names its predecessor's hash and carries the digest of its own body, for any stored events |
| IdentityAudit.VerifiesExactly | backend/src/deskpilot_identity/audit.py:59-70 | a log verifies exactly when every digest is that of its body and every body names the digest before it, the first one GENESIS |
| IdentityAudit.AppendKeepsLog | backend/src/deskpilot_identity/audit.py:42-57 | an append adds one event, number one higher and holding the last event's hash or GENESIS, leaves the past untouched, and the longer log is again linked and numbered without a gap |
| IdentityAudit.WrittenLogsVerify | backend/src/deskpilot_identity/audit.py:30-70 | every log written by appends alone verifies, whatever the digest function, and its contents are the entries in order |
| IdentityAudit.HeadIdentifiesHistory | backend/src/deskpilot_identity/audit.py:59-70 | with a collision-free digest, two verifying logs have the same head hash exactly when they are equal event by event, although numbers are never checked |
| SessionManagement.SessionStore.Put | backend/src/deskpilot_identity/sessions.py:29-31 | stores the record under its id, keeping the dictionary order, and points its token hash at it |
| SessionManagement.SessionStore.RemoveToken | backend/src/deskpilot_identity/sessions.py:40-41 | drops one token hash and nothing else |
| SessionManagement.SessionStore.All | backend/src/deskpilot_identity/sessions.py:43-44 | lists the records in insertion order |
| SessionManagement.SessionManager.Issue | backend/src/deskpilot_identity/sessions.py:61-78 | new store and log after storing the record, evicting down to the cap and noting the issue |
| SessionManagement.SessionManager.Authenticate | backend/src/deskpilot_identity/sessions.py:80-87 | returns the record a live token opens, or null, and touches only its last-seen time |
| SessionManagement.SessionManager.Rotate | backend/src/deskpilot_identity/sessions.py:89-98 | revokes the old session, issues its successor one generation higher and notes the rotation; an unusable token changes nothing |
| SessionManagement.SessionManager.RevokeById | backend/src/deskpilot_identity/sessions.py:100-110 | revokes an ACTIVE record with time and reason, drops its token and notes it; otherwise changes nothing and answers false |
| SessionManagement.SessionManager.RevokeSubject | backend/src/deskpilot_identity/sessions.py:112-117 | revokes the subject's records in store order; the count is the number of records that changed status and of events written |
| SessionManagement.SessionManager.RevokeOidcSid | backend/src/deskpilot_identity/sessions.py:119-124 | the same for all records of one provider session |
| SessionManagement.SessionManager.ActiveForSubject | backend/src/deskpilot_identity/sessions.py:126-130 | hands out the stored records of the subject's active sessions, sorted by last seen, issue time and id |
| SessionManagement.SessionManager.EnforceConcurrency | backend/src/deskpilot_identity/sessions.py:132-137 | the eviction loop terminates and leaves what giving up the first sessions of the give-up order leaves |
| SessionEviction.ActiveForLists | backend/src/deskpilot_identity/sessions.py:126-130 | the active list holds each active session of the subject once, in key order |
| SessionEviction.LoopRound | backend/src/deskpilot_identity/sessions.py:134-137 | one round of the loop takes exactly one session off the active list and leaves the final outcome unchanged |
| SessionEviction.VictimsFacts | backend/src/deskpilot_identity/sessions.py:132-137 | as many sessions are evicted as exceed the cap, all active, none twice |
| SessionEviction.VictimsAreLeastRecent | backend/src/deskpilot_identity/sessions.py:132-137 | with a cap of at least one the new session stays and the evicted ones are the least others by last seen, issue time and id |
| SessionEviction.LeastRecentUnique | backend/src/deskpilot_identity/sessions.py:132-137 | there is only one such set, so the evicted sessions are determined |
| SessionRuns.IssueEffect | backend/src/deskpilot_identity/sessions.py:61-78 | issuing adds one record and revokes exactly the victims; every other record stays as it was |
| SessionRuns.RotateHasRoom | backend/src/deskpilot_identity/sessions.py:89-98 | under a kept cap a rotation finds room: no third session has to go |
| SessionRuns.ReplaceEffect | backend/src/deskpilot_identity/sessions.py:89-98 | rotation revokes the old record, adds the successor with its parent link and version, and changes no third record |
| SessionEffects.LoginTells | backend/src/deskpilot_identity/sessions.py:61-78 | an issue call: the whole new record, the sessions it ends and how, nobody else's, and every audit event it writes, in order |
| SessionEffects.RotateTells | backend/src/deskpilot_identity/sessions.py:89-98 | a rotation: old record ended, successor for the same principal authenticated now and one version higher, all other records unchanged, and its three audit events |
| SessionEffects.OpenTells | backend/src/deskpilot_identity/sessions.py:80-87 | authenticating changes the last-seen time of the opened record, when asked to, and nothing else |
| SessionEffects.RevokeTells | backend/src/deskpilot_identity/sessions.py:100-110 | revoking by id: the whole ended record and the one audit event, or nothing |
| SessionEffects.CloseSubjectTells | backend/src/deskpilot_identity/sessions.py:112-117 | exactly the ACTIVE records of that subject in that tenant are ended, all others stay, one event each in store order |
| SessionEffects.CloseProviderTells | backend/src/deskpilot_identity/sessions.py:119-124 | exactly the ACTIVE records of that provider session are ended, all others stay, one event each in store order |
| SessionLaws.RevokeAllKeeps | backend/src/deskpilot_identity/sessions.py:100-124 | bulk revocation changes exactly the listed ACTIVE records, keeps the token index in agreement and only ages records |
| SessionLaws.RevokeCountIsExact | backend/src/deskpilot_identity/sessions.py:112-124 | the returned count equals the status changes and the audit events it causes |
| SessionTheorems.StepKeepsInv | backend/src/deskpilot_identity/sessions.py:61-137 | every operation keeps index agreement, an audit trail mirroring the records, and the cap, whatever parent an issue call names, and never revives a record |
| SessionTheorems.RunKeepsInv | backend/src/deskpilot_identity/sessions.py:61-137 | so does every run with fresh draws and a non-decreasing clock |
| SessionTheorems.CapHolds | backend/src/deskpilot_identity/sessions.py:132-137 | after every run, at the last call and any later time, a subject has at most the configured number of ACTIVE, unexpired sessions |
| SessionTheorems.RevocationIsFinal | backend/src/deskpilot_identity/sessions.py:100-110 | a revoked record is the same record after every later run |
| SessionTheorems.LookupExactly | backend/src/deskpilot_identity/sessions.py:36-41 | a token opens a session exactly when an unexpired record carries its hash and the log never revoked that record |
| SessionTheorems.TokensOpenExactly | backend/src/deskpilot_identity/sessions.py:80-87 | over every run, a token opens a session at a time exactly when the run handed it out, by issue or rotation, less than the configured lifetime before, and the session was never revoked; the session is then the one made at that draw |
| SessionTheorems.OpenedIsStored | backend/src/deskpilot_identity/sessions.py:80-87 | what a token opens is the stored record, with the principal and the times of its draw |
| SessionTheorems.LoginKeepsLineageExactly | backend/src/deskpilot_identity/sessions.py:61-78 | an issue call leaves the rotation lineage in order exactly when it names no parent |
| SessionTheorems.RunKeepsLineage | backend/src/deskpilot_identity/sessions.py:61-98 | runs whose issue calls name no parent keep the lineage: a rotated session points back to one revoked session of the same owner, one version lower, and none is rotated twice |
| SessionTheorems.VersionsCountRotations | backend/src/deskpilot_identity/sessions.py:89-98 | after such a run a session's authentication version is one more than the number of rotations behind it |
| SessionTheorems.LineageIsAcyclic | backend/src/deskpilot_identity/sessions.py:89-98 | after such a run following parent links never leads back to the same session |
| StepUp.StepUpManager.Create | backend/src/deskpilot_identity/step_up.py:14-20 | an empty set of acceptable assurance levels is refused |
| StepUp.StepUpManager.Issue | backend/src/deskpilot_identity/step_up.py:22-51 | refuses authentications from the future, too old ones and insufficient assurance, in this order; otherwise files one grant bound to session, tenant, action and resource |
| StepUp.StepUpManager.Consume | backend/src/deskpilot_identity/step_up.py:53-66 | the refusals in order; an accepted one-time grant is used up and no other |
| StepUp.AcceptedGrant | backend/src/deskpilot_identity/step_up.py:33-66 | an accepted grant was issued for exactly this use, was never accepted before, and its authentication is of accepted assurance and less than two grant lifetimes old |
| StepUp.IssuedExactly | backend/src/deskpilot_identity/step_up.py:22-51 | a grant is issued exactly when the assurance is accepted and the authentication is at most a lifetime old and at most a minute ahead; the grant filed, in full |
| StepUp.AcceptedExactly | backend/src/deskpilot_identity/step_up.py:53-66 | in a proper book a presented grant is accepted exactly when it is filed, unspent, presented less than a lifetime after its issue, and for its session, tenant, action and resource |
| AuthorizationPolicy.EffectiveCapabilities | backend/src/deskpilot_identity/policy.py:54-56 | the union of direct and role capabilities |
| AuthorizationPolicy.AllowedMeans | backend/src/deskpilot_identity/policy.py:48-68 | an action is allowed exactly when capability, tenant, risk, device trust and step-up all permit it |
| AuthorizationPolicy.MayDoExactly | backend/src/deskpilot_identity/policy.py:9-56 | who may do what, by capability name: held directly or carried by a role |
| AuthorizationPolicy.DecidesExactly | backend/src/deskpilot_identity/policy.py:48-68 | the whole decision: the first of the six denials that applies, else an allow that says whether it needed a step-up |
| AuthorizationPolicy.StepUpIsAllThatIsMissing | backend/src/deskpilot_identity/policy.py:65-68 | a denial asks for a step-up exactly when a verified step-up alone would turn it into an allow |
| AuthorizationPolicy.PrivilegesAreMonotone | backend/src/deskpilot_identity/policy.py:48-68 | more roles, more capabilities or a verified step-up never turn an allow into a denial |
| Enforcement.IdentityEnforcer.Authorize | backend/src/deskpilot_identity/enforcement.py:22-48 | authenticate and touch, evaluate, spend a grant if asked for, evaluate again; session, grants and decision afterwards |
| EnforcementLaws.StepUpSpendsExactlyOne | backend/src/deskpilot_identity/enforcement.py:34-48 | where a step-up is needed and unverified, allow holds exactly when the one presented grant is spent, unspent before; otherwise no grant changes |
| EnforcementLaws.AllowedExactly | backend/src/deskpilot_identity/enforcement.py:34-48 | the decision after spending is an allow exactly when the policy allows already, or lacks only the step-up and the presented grant is filed, unspent, young enough and for exactly this use |
| EnforcementLaws.DecidedExactly | backend/src/deskpilot_identity/enforcement.py:34-48 | which decision is given when it is not an allow: the policy's own, or an invalid grant |
| EnforcementLaws.AuthorizedExactly | backend/src/deskpilot_identity/enforcement.py:22-48 | session error, decision and new state of a whole authorization call |
| EnforcementLaws.ElevationAdmits | backend/src/deskpilot_identity/enforcement.py:22-48 | over every run, after an accepted elevation an authorization for the same use within the lifetime, on a session still open, that lacks only the step-up, is allowed while the grant is unspent |
| EnforcementLaws.AuthorizeIsStep | backend/src/deskpilot_identity/enforcement.py:22-48 | the run step of an authorization is the enforcer's own new state |
| EnforcementLaws.RunSpends | backend/src/deskpilot_identity/enforcement.py:22-48 | over every run the step-up admissions account for the grants: each has its own, issued for that very use, unexpired and fresh; none is spent twice or without an admission |
| EnforcementLaws.SpentFromStart | backend/src/deskpilot_identity/enforcement.py:22-48 | from the start the grants spent are exactly those of the step-up admissions, one each: there are no more such admissions than grants issued |
| EnforcementLaws.RevokedSessionsSpendNothing | backend/src/deskpilot_identity/enforcement.py:32-39 | a revoked session never passes a step-up again in any later run, whatever grants it holds |
| TokenVault.InMemoryTokenVault.Bind | backend/src/deskpilot_identity/token_vault.py:41-42 | a new family of generation one replaces whatever was bound to the session |
| TokenVault.InMemoryTokenVault.Get | backend/src/deskpilot_identity/token_vault.py:44-46 | the tokens of an existing family that is not compromised, else none |
| TokenVault.InMemoryTokenVault.Rotate | backend/src/deskpilot_identity/token_vault.py:48-62 | the three failures in order, reuse marking the family; success retires the presented digest, installs the replacement and counts a generation |
| TokenVault.InMemoryTokenVault.Revoke | backend/src/deskpilot_identity/token_vault.py:64-65 | drops the family and tells whether there was one |
| TokenVault.RunKeepsCounted | backend/src/deskpilot_identity/token_vault.py:41-65 | in every run a family's generation is one plus the number of retired digests |
| TokenVault.FamilyRemembers | backend/src/deskpilot_identity/token_vault.py:54-62 | a kept family remembers exactly the digests it retired, each retired once |
| TokenVault.ReplayCompromises | backend/src/deskpilot_identity/token_vault.py:54-56 | presenting any token retired earlier in the run leaves the family unavailable |
| TokenVault.CompromiseIsFinal | backend/src/deskpilot_identity/token_vault.py:44-56 | an unavailable family hands out no tokens and accepts no rotation in any later run until it is bound anew |
| TokenVault.AcceptedExactly | backend/src/deskpilot_identity/token_vault.py:50-62 | a rotation is accepted exactly for the current, never retired token; a provider that re-issues a retired one locks its own family |
| TokenVault.VaultAnswers | backend/src/deskpilot_identity/token_vault.py:41-65 | after every run from the start, tokens handed out and answers to a rotation are those of a reference that follows the presented tokens themselves: current, exchanged, or gone |
| IdentityServiceObject.IdentityService.CompleteLogin | backend/src/deskpilot_identity/service.py:29-34 | session issued, tokens bound to it, login noted |
| IdentityServiceObject.IdentityService.Authorize | backend/src/deskpilot_identity/service.py:36-48 | the enforcer's decision, noted with outcome, action, resource and reason; a session error leaves no note |
| IdentityServiceObject.IdentityService.ApplyPermissionSnapshot | backend/src/deskpilot_identity/service.py:50-55 | the first difference from the source revokes the session, drops its tokens and is noted |
| IdentityServiceObject.IdentityService.RotateProviderTokens | backend/src/deskpilot_identity/service.py:57-65 | reuse revokes the session and is noted, other failures change nothing, success is noted with the generation |
| IdentityServiceObject.IdentityService.LogoutSession | backend/src/deskpilot_identity/service.py:67-69 | session revoked and tokens dropped |
| IdentityServiceObject.IdentityService.LogoutAll | backend/src/deskpilot_identity/service.py:71-78 | all sessions of the subject revoked, tokens of those active at that moment dropped, count of status changes |
| IdentityServiceLaws.StepKeeps | backend/src/deskpilot_identity/service.py:29-78 | every service operation keeps the session invariants, a verifying log that mirrors the records, and that compromised families belong to revoked sessions |
| IdentityServiceLaws.RunKeeps | backend/src/deskpilot_identity/service.py:29-78 | so does every run, interleaved with direct calls on the session manager |
| IdentityServiceLaws.RunFromStart | backend/src/deskpilot_identity/service.py:29-78 | after every run from the start the log verifies, no owner exceeds the cap, provider tokens belong to sessions without a parent, and a session whose refresh token was replayed is revoked exactly once in the log and opened by no token |
| IdentityServiceLaws.RotationLeavesTokens | backend/src/deskpilot_identity/sessions.py:89-98 | rotating a session leaves its provider tokens with the old, revoked one; the new one never gets any in any later run |
| IdentityServiceLaws.ReuseEndsSession | backend/src/deskpilot_identity/service.py:57-64 | presenting a retired refresh token is logged last, and from then on, over every run, no token opens the session and its provider tokens are not handed out |
| IdentityServiceLaws.DriftEndsSession | backend/src/deskpilot_identity/permission_drift.py:15-32 | drift is detected exactly when subject, tenant, roles, capabilities or version differ, and ends the session for good |
| IdentityServiceLaws.LogoutAllExactly | backend/src/deskpilot_identity/service.py:71-78 | afterwards no session of the subject is active, and exactly the tokens of sessions that were active at that moment are gone |
| IdentityServiceLaws.LogoutAllLeavesFamily | backend/src/deskpilot_identity/service.py:71-78 | a run from the start after which provider tokens outlive logging out everywhere |
| ServiceEffects.CompleteLoginTells | backend/src/deskpilot_identity/service.py:29-34 | a login: the new session's record, its tokens, and the audit events it writes |
| ServiceEffects.AuthorizeTells | backend/src/deskpilot_identity/service.py:36-48 | the note of an authorization says allow exactly when the decision is an allow, and carries action, resource and reason |
| ServiceEffects.SnapshotTells | backend/src/deskpilot_identity/service.py:50-55 | what a permission snapshot ends, drops and writes, and when it does nothing |
| ServiceEffects.RenewTells | backend/src/deskpilot_identity/service.py:57-65 | each of the four results of renewing provider tokens, with everything it writes and whether the session is ended |
| ServiceEffects.LogoutTells | backend/src/deskpilot_identity/service.py:67-78 | what logging out one session or everywhere ends, drops and writes |
| AgentLoopGuard.LoopGuard.Checkpoint | backend/src/deskpilot_ai_pipeline/loop_guard.py:21-29 | the three refusals in order and the counters afterwards, for any bounds |
| AgentLoopGuard.AcceptedExactly | backend/src/deskpilot_ai_pipeline/loop_guard.py:14-29 | a new guard lets a sequence of visits pass exactly when all are in time, within the step budget, and none repeats too often |
| AgentLoopGuard.AnsweredExactly | backend/src/deskpilot_ai_pipeline/loop_guard.py:21-29 | the verdict on the next visit after any visits, refused ones included, from how many of them were in time and how many of those the same action |
| GovernedExecution.ApprovalGate.Issue | backend/src/deskpilot_ai_pipeline/approval.py:23-35 | needs the approve capability; files one unconsumed grant for context and plan fingerprint |
| GovernedExecution.ApprovalGate.Consume | backend/src/deskpilot_ai_pipeline/approval.py:37-51 | the five refusals in order; success marks exactly this grant consumed |
| GovernedExecution.GovernedMcpDispatcher.Register | backend/src/deskpilot_ai_pipeline/tools.py:34-36 | one specification added or replaced |
| ExecutionLaws.DispatchMeans | backend/src/deskpilot_ai_pipeline/tools.py:38-67 | a handler runs exactly for a registered tool of the domain, with capability, approval if mutating, and time; an answer is for the caller's tenant and the asked resource |
| ExecutionEffects.DispatchAnswers | backend/src/deskpilot_ai_pipeline/tools.py:38-67 | a dispatch fails for the first check it fails, in the program's order, and otherwise believes the handler only about the caller's tenant and the asked resource |
| GovernedExecution.GovernedMcpDispatcher.ExecuteWithFallback | backend/src/deskpilot_ai_pipeline/tools.py:69-110 | result and handler calls of the bounded read-only fallback |
| ExecutionLaws.FallbackIsReadOnly | backend/src/deskpilot_ai_pipeline/tools.py:80-110 | at most two handlers run, none of a mutating tool, the fallback only after a tool error of the primary; an answer is for the asked tenant and resource |
| ExecutionEffects.FallbackExactly | backend/src/deskpilot_ai_pipeline/tools.py:69-110 | exactly when the fallback is tried, which handlers are called in which order, and whose answer is given |
| GovernedExecution.CheckGrounding | backend/src/deskpilot_ai_pipeline/citations.py:21-38 | a citation for each row, whose hash is that of its text, or the first reason why the rows cannot ground a plan |
| ExecutionLaws.GroundingMeans | backend/src/deskpilot_ai_pipeline/citations.py:21-38 | rows ground a plan exactly when there are some, all of the tenant, and no document chunk twice |
| ExecutionEffects.GroundingRefusal | backend/src/deskpilot_ai_pipeline/citations.py:21-38 | why rows do not ground a plan: none at all, or the first one that is foreign or cites a chunk again |
| GovernedExecution.DeskPilotExecutionEngine.Intake | backend/src/deskpilot_ai_pipeline/orchestration.py:59-86 | the first four phases: every transition checked is an edge, failures in order, events in order |
| GovernedExecution.DeskPilotExecutionEngine.Prepare | backend/src/deskpilot_ai_pipeline/orchestration.py:59-106 | outcome, handler call and failure of a preparation for every clock and handler behaviour |
| GovernedExecution.DeskPilotExecutionEngine.ApproveAndExecute | backend/src/deskpilot_ai_pipeline/orchestration.py:108-125 | gate, handler calls and result of an approved execution for every clock and handler behaviour |
| GovernedExecution.DeskPilotExecutionEngine.Remediate | backend/src/deskpilot_ai_pipeline/orchestration.py:127-159 | remediation, verification and final state after a consumed approval; the transitions checked are edges |
| ExecutionLaws.PreparedOutcome | backend/src/deskpilot_ai_pipeline/orchestration.py:59-106 | a prepared outcome awaits approval, carries the routed plan, and its log walks the graph from intake |
| ExecutionEffects.PreparationAnswers | backend/src/deskpilot_ai_pipeline/orchestration.py:59-106 | the result of every preparation: the refusals in order, and else the diagnosis of the domain's tool on the incident's device |
| ExecutionEffects.PreparedLog | backend/src/deskpilot_ai_pipeline/orchestration.py:59-106 | the six events of every successful preparation |
| ExecutionEffects.PlanExactly | backend/src/deskpilot_ai_pipeline/routing.py:38-52 | the plan by domain and by the words that title and description mention |
| ExecutionLaws.PreparationCalls | backend/src/deskpilot_ai_pipeline/orchestration.py:88-100 | a preparation that succeeds has made one call: unapproved, to the domain's diagnosis tool, on the incident's device; it reports that answer |
| ExecutionLaws.ApprovedWalks | backend/src/deskpilot_ai_pipeline/orchestration.py:119-159 | for every tool outcome and clock the log extends the prepared one, is numbered 1..n and walks the production graph with stuttering; it ends in the result state, FAILED at remediating |
| ExecutionLaws.ClosedExactly | backend/src/deskpilot_ai_pipeline/orchestration.py:137-159 | a returned execution consumed an unspent grant, and is CLOSED exactly when remediation and then verification were ok |
| ExecutionLaws.ExecutionCalls | backend/src/deskpilot_ai_pipeline/orchestration.py:119-159 | a finished execution has made one approved call to the domain's repair tool and, unless that came back not ok, exactly one more: unapproved, to the domain's verify tool, on the same device; it reports these two answers |
| ExecutionEffects.ExecutionAnswers | backend/src/deskpilot_ai_pipeline/orchestration.py:108-136 | the refusals of an execution in order and the gate they leave; after them the grant is spent, a new one being good for five minutes, and the approved call comes first |
| ExecutionEffects.ApprovedLog | backend/src/deskpilot_ai_pipeline/orchestration.py:119-159 | the events that a finished execution adds, by its result |
| ExecutionLaws.OneRunExactly | backend/src/deskpilot_ai_pipeline/orchestration.py:108-159 | the log of a finished execution is of one tenant and run exactly when it was executed in the context it was prepared in |
| ExecutionLaws.EvidenceOfTenantExactly | backend/src/deskpilot_ai_pipeline/orchestration.py:108-159 | the evidence of a finished execution is of the executing tenant exactly when that is the tenant it was prepared for |
| ExecutionRuns.StepKeeps | backend/src/deskpilot_ai_pipeline/orchestration.py:108-145 | every operation keeps: each approved call has its own consumed, then unexpired grant of the same tenant, session and plan; tools mutating at their call run approved only |
| ExecutionRuns.RunKeeps | backend/src/deskpilot_ai_pipeline/orchestration.py:108-145 | so does every run of registering, issuing, consuming, preparing and executing |
| ExecutionRuns.RunFromStart | backend/src/deskpilot_ai_pipeline/orchestration.py:108-145 | in particular from an empty gate, whatever tools are registered |
| ExecutionRuns.SpentGrantIsRefused | backend/src/deskpilot_ai_pipeline/approval.py:42-50 | a spent grant is refused in every later state, for every caller |
| ExecutionEffects.AcceptedExactly | backend/src/deskpilot_ai_pipeline/approval.py:37-51 | when exactly a grant is accepted, and each refusal |
| ExecutionEffects.GrantStaysGood | backend/src/deskpilot_ai_pipeline/approval.py:23-51 | whatever runs in between, an issued grant is accepted as long as it is unspent and in time, for its tenant, session and plan only |
| ExecutionRuns.ApprovedCallFollowsPlan | backend/src/deskpilot_ai_pipeline/orchestration.py:108-136 | the approved call of an execution was made for the fingerprint of the prepared plan, and follows that plan's tool, device and action exactly when the incident agrees in domain and device with the prepared one |
| ExecutionWitnesses.OtherDeviceReached | backend/src/deskpilot_ai_pipeline/orchestration.py:108-136 | a run in which the mutating tool is called on a device other than the one whose plan was approved |
| ExecutionWitnesses.OtherRunCloses | backend/src/deskpilot_ai_pipeline/orchestration.py:108-159 | prepared in one run, executed in another: closed, with a log that is not of one run |
| ExecutionWitnesses.OtherTenantCloses | backend/src/deskpilot_ai_pipeline/orchestration.py:108-159 | prepared in one tenant, executed in another: closed, with the evidence of the first |
| ExecutionWitnesses.FailedEndsAtRemediating | backend/src/deskpilot_ai_pipeline/orchestration.py:137-141 | a remediation that comes back not ok: FAILED, with a log that ends at REMEDIATING |
| ExecutionRuns.RunPlanned | backend/src/deskpilot_ai_pipeline/orchestration.py:120-136 | in runs that execute the incident they prepared, every approved call runs the tool and device whose fingerprint its approval was given for |
| ExecutionRuns.RunOrderly | backend/src/deskpilot_ai_pipeline/orchestration.py:88-159 | over every run each handler call on record is a diagnosis, an approved repair or a verification by the right tool of its domain, and each verification directly follows the approved repair of the same device and incident |
| PlanFingerprints.IdentifiedExactly | backend/src/deskpilot_ai_pipeline/models.py:93-96 | equal fingerprint texts mean the same action, tool, device and risk, for whatever other plan, exactly when none of the plan's four fields contains the separator |
| PlanFingerprints.RoutedIdentifiedExactly | backend/src/deskpilot_ai_pipeline/models.py:93-96 | a routed plan is identified exactly when its device id is free of the separator |
| PlanFingerprints.RoutedFingerprints | backend/src/deskpilot_ai_pipeline/models.py:93-96 | between two routed plans equal fingerprints always mean the same action, tool and device |
| PlanFingerprints.ApprovalCoversExactly | backend/src/deskpilot_ai_pipeline/approval.py:37-51 | with a collision-free digest an approval is accepted for exactly the plans with the same text: for nothing but the approved fields exactly when they are free of the separator |
| PlanFingerprints.ApprovalCanCoverAnotherTool | backend/src/deskpilot_ai_pipeline/approval.py:37-51 | an approval of a routed plan for device d|x is accepted for another tool on another device |
| PlanGraph.StuckHasCycle | services/ai-service/src/deskpilot_ai/planning_governance.py:63-65 | a round that completes nothing although ids remain means a dependency cycle |
| PlanGraph.LayerIsLongestChain | services/ai-service/src/deskpilot_ai/planning_governance.py:63-66 | an id joins in the round numbered by its longest dependency chain |
| PlanGraph.DependenciesComeFirst | services/ai-service/src/deskpilot_ai/planning_governance.py:58-67 | in the canonical order every dependency is earlier |
| PlanGraph.CanonicalUnique | services/ai-service/src/deskpilot_ai/planning_governance.py:58-67 | there is one order by longest chain and then id |
| PlanningGovernance.Topological | services/ai-service/src/deskpilot_ai/planning_governance.py:58-67 | duplicate or empty ids, bad dependencies and cycles are reported exactly when present; otherwise the canonical order |
| PlanningGovernance.Layers | services/ai-service/src/deskpilot_ai/planning_governance.py:62-67 | the layered loop terminates with the canonical order or a proof of a cycle |
| PlanningGovernance.GraphIgnoresListing | services/ai-service/src/deskpilot_ai/planning_governance.py:58-67 | graph and verdict, hence the order, do not depend on how the steps are listed |
| PlanningGovernance.ValidatePlan | services/ai-service/src/deskpilot_ai/planning_governance.py:70-86 | the first failing check decides; a passed plan leaves with canonical order, greatest step risk and its digest |
| PlanningGovernance.CheckSteps | services/ai-service/src/deskpilot_ai/planning_governance.py:76-84 | the first denied step decides; else the number of tool steps and the greatest risk, none of the steps being riskier |
| PlanningGovernance.DeniedExactly | services/ai-service/src/deskpilot_ai/planning_governance.py:70-86 | a plan is denied exactly when it fails one of the checks, written out, and for the first it fails; among its steps the first failing one decides, by its first failing check |
| NodeResilience.ExecuteNode | services/ai-service/src/deskpilot_ai/node_resilience.py:34-55 | reply, attempts, sleeps and compensation of a call for every outcome sequence |
| NodeResilience.CallShape | services/ai-service/src/deskpilot_ai/node_resilience.py:40-53 | an admitted call is attempts 1..n with backoffs, then one compensation exactly when the last failed, one was partial and a keyed compensator exists; others do nothing |
| NodeResilience.ReplyOfCall | services/ai-service/src/deskpilot_ai/node_resilience.py:42-55 | status, value, events and circuit that the call reports, from its attempts |
| NodeResilience.CallExactly | services/ai-service/src/deskpilot_ai/node_resilience.py:28-55 | the whole of an admitted call in terms of the outcomes: attempts up to the first that succeeds, fails for good or is the last allowed, sleeps of one and two seconds, compensation, and the circuit: open exactly when it was half-open or three failures are reached, else with the failures counted |
| NodeResilience.ExecutionBounded | services/ai-service/src/deskpilot_ai/node_resilience.py:37-47 | a closed circuit admits at most three minus its failures, an open one at most one attempt and none within 30 s; the returned circuit is sound |
| NodeResilience.FailedProbeReopens | services/ai-service/src/deskpilot_ai/node_resilience.py:28-31 | a failing half-open call makes one attempt and reopens from then on |
| NodeResilience.NoRetryAfterPermanentFailure | services/ai-service/src/deskpilot_ai/node_resilience.py:47-48 | nothing starts again after a failure that is not retryable |
| NodeResilience.ThreadSound | services/ai-service/src/deskpilot_ai/node_resilience.py:24-31 | threading returned circuits through any calls, closed ones have fewer than three failures and none is half-open |
| NodeResilience.OpenCircuitIsSilent | services/ai-service/src/deskpilot_ai/node_resilience.py:24-39 | no call in any sequence starts the operation within 30 s of opening |
| EvidenceMerge.MergeEvidence | services/ai-service/src/deskpilot_ai/parallel_diagnostics.py:22-34 | the first faulty record decides; else evidence and contradictions, within the limit |
| EvidenceMerge.OnePerDigest | services/ai-service/src/deskpilot_ai/parallel_diagnostics.py:27-28 | one record per digest, the one with the least evidence id, sorted |
| EvidenceMerge.ContestedExactly | services/ai-service/src/deskpilot_ai/parallel_diagnostics.py:29-33 | the contested source/kind pairs are those on which two input records disagree, before deduplication |
| EvidenceMerge.ReportedExactly | services/ai-service/src/deskpilot_ai/parallel_diagnostics.py:33 | the labels reported are exactly those pairs' labels, sorted |
| MergeLaws.MergedExactly | services/ai-service/src/deskpilot_ai/parallel_diagnostics.py:22-34 | the whole merge: the first record at fault and why, the limit of 64 digests, and else exactly which records are kept, sorted by time, source, kind and id, and which labels are contested |
| MergeLaws.ArrivedExactly | services/ai-service/src/deskpilot_ai/parallel_diagnostics.py:22-24 | records arrive branch by branch; a branch without output has none |
| EvidenceArrival.OrderMattersExactly | services/ai-service/src/deskpilot_ai/parallel_diagnostics.py:22-34 | order, branch and repetition of the records change nothing, errors included, exactly when not both kinds of faulty record arrive and, without fault and within the limit, no digest has two records of least id and no two of these tie |
| EvidenceArrival.OnlyErrorsDepend | services/ai-service/src/deskpilot_ai/parallel_diagnostics.py:22-34 | if an evidence id names one record, that is exactly when not both kinds of faulty record arrive |
| EvidenceArrival.OrderDoesNotMatter | services/ai-service/src/deskpilot_ai/parallel_diagnostics.py:22-34 | two deliveries of the same records are faulty together, and give the same result unless both kinds of fault or ties are present |
| EvidenceArrival.BranchOrderDoesNotMatter | services/ai-service/src/deskpilot_ai/parallel_diagnostics.py:22-34 | permuted branches are faulty together, and unambiguous evidence without fault gives the same result or limit error |
| EvidenceArrival.FirstRecordDecides | services/ai-service/src/deskpilot_ai/parallel_diagnostics.py:24-26 | a faulty record that arrives before everything else decides the error |
| EvidenceArrival.SameIdTellsApart | services/ai-service/src/deskpilot_ai/parallel_diagnostics.py:27-28 | two different records of one id and digest: which is kept depends on the order |
| EvidenceArrival.MergeIsIdempotent | services/ai-service/src/deskpilot_ai/parallel_diagnostics.py:22-34 | merging merged evidence changes nothing, whatever the ids |
| DiagnosticFanout.FanoutDiagnostics | services/ai-service/src/deskpilot_ai/parallel_diagnostics.py:40-57 | argument errors, merge errors, else status, evidence, hypotheses, branches and next phase |
| DiagnosticFanout.RefusedExactly | services/ai-service/src/deskpilot_ai/parallel_diagnostics.py:40-42 | one domain or two different ones and a timeout of at most fifteen seconds are accepted; beyond that only the merge can refuse |
| DiagnosticFanout.FanoutTells | services/ai-service/src/deskpilot_ai/parallel_diagnostics.py:35-49 | branches by name with how each ended, the merge of what they delivered in that order, and each hypothesis once |
| DiagnosticFanout.StatusMeans | services/ai-service/src/deskpilot_ai/parallel_diagnostics.py:50-54 | contradictory, complete, failed, escalated and clarification each mean exactly one thing about the branches |
| DiagnosticFanout.ListingDoesNotMatter | services/ai-service/src/deskpilot_ai/parallel_diagnostics.py:43-57 | the order in which domains are listed does not matter |
| EvidenceFusion.ValidateEvidence | services/ai-service/src/deskpilot_ai/evidence_fusion.py:55-67 | the first faulty item decides; else the items by id |
| EvidenceFusion.IndexedExactly | services/ai-service/src/deskpilot_ai/evidence_fusion.py:57-67 | valid exactly when all items are proper and no id or item repeats; the index then holds exactly the items |
| EvidenceFusion.Contradictions | services/ai-service/src/deskpilot_ai/evidence_fusion.py:70-75 | the keys to which two materially reliable items give different values, each once, sorted |
| EvidenceFusion.FuseEvidence | services/ai-service/src/deskpilot_ai/evidence_fusion.py:78-108 | validation errors in order, else the ranking and the decision on it |
| EvidenceFusion.ScoreMonotone | services/ai-service/src/deskpilot_ai/evidence_fusion.py:93-95 | scores lie in [0, 1], never fall with more support and never rise with more opposition |
| EvidenceFusion.TwoTypesSuffice | services/ai-service/src/deskpilot_ai/evidence_fusion.py:91-96 | the three eligibility conditions hold exactly when two sources of different types support |
| FusionLaws.AnsweredExactly | services/ai-service/src/deskpilot_ai/evidence_fusion.py:55-90 | when exactly there is an answer, and which refusal is given for items, candidates and their references |
| FusionLaws.RankedExactly | services/ai-service/src/deskpilot_ai/evidence_fusion.py:83-97 | every candidate ranked once, by score and then name, with its lists, source types, eligibility, and a score that is the share of supporting worth rounded to four places, half to even |
| FusionLaws.DecidedExactly | services/ai-service/src/deskpilot_ai/evidence_fusion.py:98-106 | the decision and the selected cause from the ranking and the items |
| EvidenceOrder.OrderDoesNotMatter | services/ai-service/src/deskpilot_ai/evidence_fusion.py:78-108 | whether there is an answer, and an accepted one, do not depend on the order of evidence or candidates |
| EvidenceOrder.AnswerIgnoresOrderExactly | services/ai-service/src/deskpilot_ai/evidence_fusion.py:55-108 | every order gets the same answer, refusals included, exactly when the number of items is refused already or at most one kind of fault is among them: a foreign item; a nameless one or one sharing the id of a proper one; one of bad quality |
| EvidenceOrder.VerdictIgnoresOrderExactly | services/ai-service/src/deskpilot_ai/evidence_fusion.py:55-67 | the same for the verdict on the evidence alone |
| EvidenceOrder.FaultDependsOnOrder | services/ai-service/src/deskpilot_ai/evidence_fusion.py:60-65 | two items whose order decides which of two errors is reported |
| EvidenceFusion.ReadyMeans | services/ai-service/src/deskpilot_ai/evidence_fusion.py:98-104 | a selected cause ranks first, meets threshold and independence, and no evidence contradicts itself |
| EvidenceFusion.RivalExactly | services/ai-service/src/deskpilot_ai/evidence_fusion.py:100-104 | when exactly a root cause is declared, and when exactly in spite of a close eligible rival: behind an ineligible runner-up |
| EvidenceFusion.RivalBehindIneligible | services/ai-service/src/deskpilot_ai/evidence_fusion.py:100-104 | evidence and candidates on which a root cause is declared although the third hypothesis is its rival |
| Clarification.BuildNeeds | services/ai-service/src/deskpilot_ai/clarification.py:19-27 | the needs of missing fields and contradictions, or the limit error |
| Clarification.NeedsExactly | services/ai-service/src/deskpilot_ai/clarification.py:21-25 | each missing catalog field and each contradiction once, under different ids |
| Clarification.AsksTheBest | services/ai-service/src/deskpilot_ai/clarification.py:28-37 | when a plan asks, completes or escalates; it asks at most two open needs, which rank before those left |
| Clarification.AskedCountsAsAnswered | services/ai-service/src/deskpilot_ai/clarification.py:28-37 | a turn that asks, asked again unchanged, is complete exactly when it had at most two open needs, although none is answered |
| Clarification.UnansweredIsComplete | services/ai-service/src/deskpilot_ai/clarification.py:28-37 | a dialogue with one missing field for which that happens |
| Clarification.RefusesExactly | services/ai-service/src/deskpilot_ai/clarification.py:29-36 | a round is refused exactly for a negative number or when an open need is unsafe to ask for |
| Clarification.TurnRefusedExactly | services/ai-service/src/deskpilot_ai/clarification.py:19-36 | each refusal of a turn: more than twelve needs, a negative round, an unsafe open need when it would have to ask |
| Clarification.NoQuestionTwice | services/ai-service/src/deskpilot_ai/clarification.py:28-40 | over any dialogue no question id is asked twice |
| Clarification.ThreeAskingRounds | services/ai-service/src/deskpilot_ai/clarification.py:28-40 | a dialogue asks in at most three rounds, at most two questions each |
| AgentTrace.ValidateTrace | services/ai-service/src/deskpilot_ai/agent_observability.py:85-95 | accepts exactly the non-empty, numbered, single-scope, linked traces; otherwise reports the first faulty event |
| AgentTrace.AppendKeepsTrace | services/ai-service/src/deskpilot_ai/agent_observability.py:65-82 | an accepted append keeps the trace valid, within 500 events and with allowed, bounded attributes |
| AgentTrace.AppendedTracesValidate | services/ai-service/src/deskpilot_ai/agent_observability.py:65-95 | whatever sequence of appends, the trace validates and its past is untouched |
| AgentTrace.HeadIdentifiesTrace | services/ai-service/src/deskpilot_ai/agent_observability.py:85-95 | with a collision-free digest, equal heads mean equal traces |
| AgentTrace.AppendsExactly | services/ai-service/src/deskpilot_ai/agent_observability.py:65-82 | an append is refused for the first objection to it, of all the limits written out, and otherwise adds one event that holds the draft with sanitised attributes, numbered and linked |
| AgentTrace.SafeValueExactly | services/ai-service/src/deskpilot_ai/agent_observability.py:55-62 | what becomes of an attribute value: kept, shortened or rejected, by its kind |
| AgentTrace.SafeValuesAreRedacted | services/ai-service/src/deskpilot_ai/agent_observability.py:55-62 | whatever the redaction guarantees holds of every kept text, however deep |
| AgentTrace.SafeValuesAreBounded | services/ai-service/src/deskpilot_ai/agent_observability.py:55-62 | sanitised values are short strings and short lists all the way down |
| RateLimit.TokenBucketLimiter.Create | backend/src/deskpilot_api_security/rate_limit.py:23-28 | non-positive limits are refused |
| RateLimit.TokenBucketLimiter.Check | backend/src/deskpilot_api_security/rate_limit.py:30-46 | decision and buckets after a check; a bad cost changes nothing |
| RateLimit.RunWithinCapacity | backend/src/deskpilot_api_security/rate_limit.py:38-42 | tokens stay in [0, capacity] in every run |
| RateLimit.AdmissionBound | backend/src/deskpilot_api_security/rate_limit.py:38-43 | from any point of any run the admitted cost of a key is at most capacity plus what its forward clock moves refill |
| RateLimit.AdmittedPlusStock | backend/src/deskpilot_api_security/rate_limit.py:38-46 | conservation: stock after a run plus the cost admitted is stock before plus what was gained, minus exactly the overflow cut at capacity |
| RateLimit.NewKeyAdmitsCapacity | backend/src/deskpilot_api_security/rate_limit.py:30-43 | a new key admits every sequence of valid requests whose total cost is at most the capacity, at any clock |
| RateLimit.RemainingIsFound | backend/src/deskpilot_api_security/rate_limit.py:38-46 | the remaining tokens reported are what the next check at that time finds, rounded down |
| RateLimit.MonotoneForward | backend/src/deskpilot_api_security/rate_limit.py:38-40 | with a clock that never runs backwards those moves add up to the elapsed time |
| RateLimit.RetryHint | backend/src/deskpilot_api_security/rate_limit.py:44-46 | one second before the hint is still denied, at the hint less than a millionth of a second's refill is missing, and exactly when the hint suffices |
| RateLimit.HintCanFallShort | backend/src/deskpilot_api_security/rate_limit.py:45 | a run and a request after which waiting as told is not enough |
| ConcurrencyGovernance.ConcurrencyGovernor.Create | backend/src/deskpilot_performance/concurrency.py:22-30 | inadmissible limits are refused |
| ConcurrencyGovernance.ConcurrencyGovernor.Acquire | backend/src/deskpilot_performance/concurrency.py:32-44 | the refusals in order, else both counters up by one and a lease |
| ConcurrencyGovernance.ConcurrencyGovernor.Release | backend/src/deskpilot_performance/concurrency.py:46-52 | a lease not held is refused and changes nothing, else both counters down by one |
| ConcurrencyGovernance.RunCounts | backend/src/deskpilot_performance/concurrency.py:32-52 | over every run the workload counter is the sum of the tenants' and acquires minus releases, for each tenant too |
| ConcurrencyGovernance.LimitsHold | backend/src/deskpilot_performance/concurrency.py:32-52 | from the start, no workload exceeds its limit and no tenant its share |
| ConcurrencyGovernance.RefusedOnlyAtLimits | backend/src/deskpilot_performance/concurrency.py:36-41 | a known workload is refused exactly at one of the two limits |
| ConcurrencyGovernance.AcquireTells | backend/src/deskpilot_performance/concurrency.py:32-44 | after every run the answer to an acquire, from how many leases are out of the workload and with the tenant |
| ConcurrencyGovernance.TenantCapExactly | backend/src/deskpilot_performance/concurrency.py:36-41 | a tenant's cap: as many leases as fit into its share of the limit, and one in any case |
| ConcurrencyGovernance.GiveUndoesTake | backend/src/deskpilot_performance/concurrency.py:32-52 | giving a lease back undoes the acquire |
| LatencyStats.PercentileIsLeastCovering | backend/src/deskpilot_performance/stats.py:8-15 | the least value that at least p percent of the values do not exceed |
| LatencyStats.PercentileIgnoresOrder | backend/src/deskpilot_performance/stats.py:8-15 | depends on the multiset of values only |
| LatencyStats.PercentileMonotone | backend/src/deskpilot_performance/stats.py:8-15 | grows with p |
| LatencyStats.SummaryOrdered | backend/src/deskpilot_performance/stats.py:18-31 | p50 <= p95 <= p99 <= max in every summary, and the error rate is a proportion |
| LatencyStats.SummaryTells | backend/src/deskpilot_performance/stats.py:18-31 | when there is a summary, and its count, percentiles, maximum and error rate |
| Fairness.JainBounds | backend/src/deskpilot_performance/fairness.py:4-13 | between 1/n and 1, and 1 exactly for equal allocations, all zero included |
| Fairness.JainScaleInvariant | backend/src/deskpilot_performance/fairness.py:4-13 | index or error unchanged by scaling |
| Fairness.JainIgnoresOrder | backend/src/deskpilot_performance/fairness.py:9-13 | unchanged by permuting |
| Fairness.EnforceTenantShare | backend/src/deskpilot_performance/fairness.py:16-35 | errors in order, else the allocation of the cutting loop, which is a fair cut |
| Fairness.CutLargestFirst | backend/src/deskpilot_performance/fairness.py:27-35 | the loop takes the overflow from the largest first |
| Fairness.CutOfIsFair | backend/src/deskpilot_performance/fairness.py:25-35 | each tenant between zero and its capped request, in total exactly the lesser of slots and capped requests, largest cut first, equal ones in dictionary order, at most one cut in part |
| Fairness.ShareCapExactly | backend/src/deskpilot_performance/fairness.py:25 | the cap: the share of the slots rounded down, one slot if that is none, nothing of no slots |
| Autoscaling.DecisionMeans | backend/src/deskpilot_performance/autoscaling.py:18-31 | decided exactly for admissible input; within the limits, the reason is the direction, and the count is the least that meets the target unless a limit or the factor holds it back |
| Autoscaling.MonotoneInUtilization | backend/src/deskpilot_performance/autoscaling.py:22-24 | higher utilisation never asks for fewer replicas |
| Autoscaling.StepTowardsGoal | backend/src/deskpilot_performance/autoscaling.py:22-24 | under constant load a step never passes the goal from below and reaches it from above |
| Autoscaling.ProgressExactly | backend/src/deskpilot_performance/autoscaling.py:22-24 | below the goal a step makes progress exactly when the scale-up factor exceeds one |
| Autoscaling.DistanceDecreases | backend/src/deskpilot_performance/autoscaling.py:22-24 | the distance to the goal strictly decreases |
| Autoscaling.Converges | backend/src/deskpilot_performance/autoscaling.py:14-31 | iterating reaches the clamped goal and stays there |
| Autoscaling.ReachesGoalExactly | backend/src/deskpilot_performance/autoscaling.py:14-31 | iterating under constant load ever reaches the goal exactly when the factor exceeds one, the service is not below the goal, or the goal is the minimum |
| Autoscaling.StuckWithoutGrowth | backend/src/deskpilot_performance/autoscaling.py:23 | with a factor of at most one it never moves |
| StateMigrations.PathUnique | services/ai-service/src/deskpilot_ai/migrations.py:17-23 | at most one path leads from one version to another |
| StateMigrations.MigrationRegistry.Register | services/ai-service/src/deskpilot_ai/migrations.py:14-16 | refuses a second step from a version and a step to itself |
| StateMigrations.MigrationRegistry.Path | services/ai-service/src/deskpilot_ai/migrations.py:17-23 | succeeds exactly when the steps lead there within eight, with the contiguous cycle-free path |
| StateMigrations.MigrationRegistry.Migrate | services/ai-service/src/deskpilot_ai/migrations.py:24-29 | no path, else the first changed identifying field, else the upgraded state and its events |
| StateMigrations.MigratedVersion | services/ai-service/src/deskpilot_ai/migrations.py:24-29 | a migration ends at the target version with identifying fields unchanged, for arbitrary upgrades, and succeeds exactly then |
| StateMigrations.MigratedExactly | services/ai-service/src/deskpilot_ai/migrations.py:24-29 | the whole result: each upgrade works on the state before it, stamped with its version, one event each; or the first of the six identifying fields to read differently |
| StateMigrations.DowngradeThenMigrate | services/ai-service/src/deskpilot_ai/migrations.py:31-36 | always succeeds, and restores the state exactly for 1.0.0 states with their phase, retry, error and audit fields, no stage and no pending interrupt |
| StateMigrations.DefaultRegistry | services/ai-service/src/deskpilot_ai/migrations.py:35-36 | holds the one default step |
| OpenApiCompatibility.BreakingChanges | scripts/openapi_compatibility.py:6-32 | one message per break, sorted; none exactly between compatible documents |
| OpenApiCompatibility.NoBreakIffCompatible | scripts/openapi_compatibility.py:6-32 | no break exists exactly when the declarative relation holds |
| OpenApiCompatibility.FieldsReadBack | scripts/openapi_compatibility.py:24-26 | the newly required fields can be read back from the text that lists them |
| OpenApiCompatibility.CompatibleReflexive | scripts/openapi_compatibility.py:6-32 | every description is compatible with itself |
| OpenApiCompatibility.CompatibleTransitive | scripts/openapi_compatibility.py:6-32 | compatibility composes over releases |
| OpenApiCompatibility.EnumCheckExactly | scripts/openapi_compatibility.py:30 | the check on one property agrees with the values it allows exactly when it neither gains an enum nor drops one with values |
| OpenApiCompatibility.EnumReportExactly | scripts/openapi_compatibility.py:27-31 | the enums reported are those that allow less than before exactly when no property gains an enum and none drops one with values |
| OpenApiCompatibility.SilenceServesExactly | scripts/openapi_compatibility.py:6-32 | an empty report means that clients are served exactly when no property gains an enum |
| OpenApiCompatibility.ServedIsSilentExactly | scripts/openapi_compatibility.py:6-32 | where clients are served the report is empty exactly when no enum with values is dropped |
| OpenApiCompatibility.AddedEnumIsSilent | scripts/openapi_compatibility.py:30 | adding an enum is not reported though it narrows, dropping it is reported though it does not |
| TraceParent.ReadPrinted | backend/src/deskpilot_llmops/models.py:26-47 | reading a printed valid context gives it back |
| TraceParent.PrintRead | backend/src/deskpilot_llmops/models.py:26-47 | printing what was read gives the lower-case header; only valid contexts are read |
| TraceParent.AcceptedExactly | backend/src/deskpilot_llmops/models.py:28-33 | a header is accepted exactly when it reads, in lower case, as version zero, two non-zero hexadecimal ids and one of two flags, and then these are the context's (section 3.2 of W3C Trace Context) |
| Csrf.ValidatesExactly | backend/src/deskpilot_identity/csrf.py:14-38 | an issued token validates exactly for its session and key, from a minute before issue until its age is reached |
| Csrf.ValidatesOwnToken | backend/src/deskpilot_identity/csrf.py:14-38 | the window for the own session and key, without any assumption on collisions |
| Csrf.TamperedExactly | backend/src/deskpilot_identity/csrf.py:23-38 | a token with an issued signature and any other time text and nonce is accepted exactly for the session, key and nonce of its issue, with a text that reads as its time, within the window |
| Csrf.AcceptedExactly | backend/src/deskpilot_identity/csrf.py:23-38 | any text at all validates exactly when it consists of a text that reads as a time within the window, a nonce, and the signature over session, time and nonce |
| Csrf.PayloadNames | backend/src/deskpilot_identity/csrf.py:16-36 | the signed payload fixes session, time and nonce, whatever separators the session has |
| Csrf.OtherTextsValidate | backend/src/deskpilot_identity/csrf.py:28-38 | a leading space, plus sign or zero, or a trailing space, gives another token that is accepted whenever the issued one is |
| VirtualWindow.CoversViewport | frontend/src/lib/performance/virtual-window.ts:16-29 | with overscan of at least one every row that meets the viewport is rendered |
| VirtualWindow.MissedExactly | frontend/src/lib/performance/virtual-window.ts:19-22 | without overscan exactly the row just past the counted ones is missed |
| VirtualWindow.WindowExactly | frontend/src/lib/performance/virtual-window.ts:16-29 | the window from the row at the top of the viewport and the rows that fill it, widened by the overscan and cut off at the ends of the list |
| VirtualWindow.OverscanIsNeeded | frontend/src/lib/performance/virtual-window.ts:19-22 | a viewport for which that happens |
| VirtualWindow.WindowIsSmall | frontend/src/lib/performance/virtual-window.ts:19-22 | the rows rendered are bounded by the viewport, not the list |

## Left out

- SessionManagement.SessionManager.Issue: asks that the token index agrees with the records and that the drawn id and token are new; the first is kept by every operation, the second is what the random source is for.
- SessionTheorems.CapHolds: a negative `max_concurrent_sessions`, for which the program's loop indexes an empty list, is not modelled.
- SessionStatus.EXPIRED is never assigned by the modelled code; expiry is the time comparison.
- Principal attributes, `amr` and the request's client address are not modelled: no modelled decision reads them.
- GovernedExecution.GovernedMcpDispatcher.Register: keeps the specification; the handler, an arbitrary function, is a parameter of each call.
- GovernedExecution.DeskPilotExecutionEngine.Prepare: event details and retrieval scoring are left out; the rows that retrieval finds are a parameter.
- AgentTrace.AppendKeepsTrace: the redaction patterns are an arbitrary function.
- `summarize_trace`, `accept_critic_review`, the supervisor hand-offs and `GraphContract.validate` are left out: each is settled by reading its body.
- Provenance hashes of `execute_node`, `fanout_diagnostics`, `fuse_evidence` and `plan_clarification` are left out.
- NodeResilience.ExecuteNode: what an attempt raises is reduced to its category, message and partial-mutation mark; time passing inside `wait_for` is part of the clock parameter.
- DiagnosticFanout.FanoutDiagnostics: branches run to their ending one after the other; cancellation from outside is not modelled.
- EvidenceFusion.FuseEvidence: source types are kept as a set, not as sorted names.
- StateMigrations.MigrationRegistry.Migrate: upgrade functions are total; `str()` of a version that is not text is a parameter.
- OpenApiCompatibility.BreakingChanges: documents are typed; null entries and malformed sections are not modelled.
- Csrf.ValidatesExactly: reading a number and lower-casing are modelled on ASCII text.
- VirtualWindow.CoversViewport: a zero or negative row height, for which the program divides by zero, is not modelled.
- IdentityService: the service and the session manager share one audit log, as the HTTP adapter wires them; back-channel logout tokens, cookies and the OIDC exchange are left out.
- Concurrency of requests, persistence and the HTTP layers are left out.
