/** The identity service as a state machine over sessions, step-up grants, provider tokens
    and the audit log that the session manager and the service share. */
module IdentityServiceModel {
  import opened IdentityAudit
  import opened Ordering
  import opened Prelude
  import opened SessionModel
  import StepUp
  import opened AuthorizationPolicy
  import opened Enforcement
  import TokenVault

  datatype Identity = Identity(sessions: State, book: StepUp.Book, vault: TokenVault.Vault)

  datatype Snapshot = Snapshot(subject: string, tenantId: string, roles: set<Role>, capabilities: set<string>,
                               permissionVersion: int)

  const LOGIN_EVENT := "login.completed"
  const DECISION_EVENT := "authorization.decision"
  const DRIFT_EVENT := "permission.drift"
  const REUSE_EVENT := "token.refresh_reuse"
  const RENEWED_EVENT := "token.rotated"

  function Noted(s: State, e: Entry, h: Digest): State {
    s.(log := Appended(s.log, e, h))
  }

  function Outcome(kind: string, r: Record, outcome: string, details: map<string, Detail>, now: int): Entry {
    Entry(now, kind, Some(r.principal.subject), Some(r.principal.tenantId), Some(r.sessionId), outcome, details)
  }

  function LoggedIn(w: Identity, c: Config, p: Principal, tokens: Option<TokenVault.TokenSet>, now: int, token: string,
                    sid: string): Identity
    requires WF(w.sessions)
  {
    var r := NewRecord(c, p, now, token, sid, None);
    Identity(Noted(Issue(w.sessions, c, p, now, token, sid, None), Note(LOGIN_EVENT, r, map[], now), c.h),
             w.book,
             if tokens.Some? then TokenVault.Bound(w.vault, sid, tokens.value) else w.vault)
  }

  function DecisionNote(v: Verdict, a: Asked, now: int): Entry {
    Outcome(DECISION_EVENT, v.session, if v.decision.allowed then "allow" else "deny",
            map["action" := Text(a.action), "resource_id" := Text(a.resource.resourceId),
                "reason" := Text(v.decision.reason)], now)
  }

  function Checked(w: Identity, c: Config, token: string, a: Asked, now: int): Identity {
    var e := Authorized(Gatehouse(w.sessions, w.book), c, token, a, now);
    match e.verdict
    case None => w
    case Some(v) => Identity(Noted(e.after.sessions, DecisionNote(v, a, now), c.h), e.after.book, w.vault)
  }

  /** Why a session no longer fits the permissions at their source. */
  function Drift(r: Record, source: Snapshot): Option<string> {
    if r.principal.subject != source.subject || r.principal.tenantId != source.tenantId
      then Some("identity_binding_changed")
    else if r.permissionVersion != source.permissionVersion then Some("permission_version_changed")
    else if r.principal.roles != source.roles then Some("role_membership_changed")
    else if r.principal.capabilities != source.capabilities then Some("capabilities_changed")
    else None
  }

  function Applied(w: Identity, c: Config, r: Record, source: Snapshot, now: int): Identity {
    match Drift(r, source)
    case None => w
    case Some(reason) =>
      var closed := Revoke(w.sessions, r.sessionId, "permission_drift:" + reason, now, c.h);
      Identity(Noted(closed, Outcome(DRIFT_EVENT, r, "revoked", map["reason" := Text(reason)], now), c.h), w.book,
               w.vault - {r.sessionId})
  }

  const REUSE_REASON := "refresh_token_reuse"

  function Renewed(w: Identity, c: Config, r: Record, presented: string, replacement: TokenVault.TokenSet, now: int,
                   sha: TokenVault.Digest): Identity
  {
    var vault := TokenVault.Rotated(w.vault, r.sessionId, presented, replacement, sha);
    match TokenVault.RotateFailure(w.vault, r.sessionId, presented, sha)
    case None =>
      Identity(Noted(w.sessions, Note(RENEWED_EVENT, r, map["generation" := Count(vault[r.sessionId].generation)], now),
                     c.h), w.book, vault)
    case Some(failure) =>
      if failure == TokenVault.ReuseDetected
      then Identity(Noted(Revoke(w.sessions, r.sessionId, REUSE_REASON, now, c.h),
                          Outcome(REUSE_EVENT, r, "revoked", map[], now), c.h),
                    w.book, vault)
      else w
  }

  function LoggedOut(w: Identity, c: Config, r: Record, now: int): Identity {
    Identity(Revoke(w.sessions, r.sessionId, "user_logout", now, c.h), w.book, w.vault - {r.sessionId})
  }

  function ActiveNow(s: State, r: Record, now: int): seq<string>
    requires WF(s)
  {
    IdsOf(ActiveFor(s, r.principal.subject, r.principal.tenantId, now))
  }

  function AllLoggedOut(w: Identity, c: Config, r: Record, now: int): Identity
    requires WF(w.sessions)
  {
    Identity(RevokeSubject(w.sessions, c, r.principal.subject, r.principal.tenantId, "user_logout_all", now),
             w.book, w.vault - SetOf(ActiveNow(w.sessions, r, now)))
  }
}
