/** What every run of the identity service keeps, and what ends a session for good. */
module IdentityServiceLaws {
  import opened IdentityAudit
  import opened Ordering
  import opened Prelude
  import opened SessionModel
  import opened SessionLaws
  import opened SessionEviction
  import opened SessionRuns
  import SessionTheorems
  import StepUp
  import opened AuthorizationPolicy
  import opened Enforcement
  import EnforcementLaws
  import TokenVault
  import opened IdentityServiceModel

  // ---- runs

  /** `Direct` is a call on the session manager beside the service, such as a rotation or a
      back-channel logout. The session of an operation is looked up by its id. */
  datatype Op =
    | CompleteLogin(principal: Principal, tokens: Option<TokenVault.TokenSet>, token: string, sid: string)
    | Direct(op: SessionModel.Op)
    | StepUpFor(id: string, action: string, resourceId: string, authTime: int, acr: Option<string>, grantId: string)
    | Authorize(token: string, asked: Asked)
    | ApplySnapshot(id: string, source: Snapshot)
    | RenewTokens(id: string, presented: string, replacement: TokenVault.TokenSet)
    | Logout(id: string)
    | LogoutAll(id: string)

  datatype Act = Act(now: int, op: Op)

  datatype Setup = Setup(c: Config, l: StepUp.Limits, sha: TokenVault.Digest)

  function OnSession(w: Identity, id: string): Option<Record> {
    if id in w.sessions.byId then Some(w.sessions.byId[id]) else None
  }

  function Step(w: Identity, u: Setup, act: Act): Identity
    requires WF(w.sessions)
  {
    var now := act.now;
    match act.op
    case CompleteLogin(p, tokens, token, sid) => LoggedIn(w, u.c, p, tokens, now, token, sid)
    case Direct(op) => w.(sessions := SessionModel.Step(w.sessions, u.c, Call(now, op)))
    case Authorize(token, a) => Checked(w, u.c, token, a, now)
    case StepUpFor(id, action, resourceId, authTime, acr, grantId) =>
      (match OnSession(w, id)
       case None => w
       case Some(r) => w.(book := StepUp.Issued(w.book, u.l, StepUp.UseOf(r, action, resourceId), authTime, acr, now,
                                                grantId)))
    case ApplySnapshot(id, source) =>
      (match OnSession(w, id) case None => w case Some(r) => Applied(w, u.c, r, source, now))
    case RenewTokens(id, presented, replacement) =>
      (match OnSession(w, id) case None => w case Some(r) => Renewed(w, u.c, r, presented, replacement, now, u.sha))
    case Logout(id) =>
      (match OnSession(w, id) case None => w case Some(r) => LoggedOut(w, u.c, r, now))
    case LogoutAll(id) =>
      (match OnSession(w, id) case None => w case Some(r) => AllLoggedOut(w, u.c, r, now))
  }

  ghost predicate LegalAct(w: Identity, u: Setup, clock: int, act: Act) {
    && clock <= act.now
    && (act.op.CompleteLogin? ==> FreshDraw(w.sessions, u.c, act.op.token, act.op.sid))
    && (act.op.Direct? ==> Legal(w.sessions, u.c, clock, Call(act.now, act.op.op)))
  }

  /** Families belong to sessions that no rotation made; a compromised one belongs to a
      revoked session. */
  ghost predicate Owned(s: State, v: TokenVault.Vault) {
    forall id | id in v ::
      id in s.byId && s.byId[id].parent.None? && (v[id].compromised ==> s.byId[id].status == REVOKED)
  }

  ghost predicate ServiceInv(w: Identity, u: Setup, clock: int) {
    WF(w.sessions) && Inv(w.sessions, u.c, clock) && Owned(w.sessions, w.vault) && TokenVault.Counted(w.vault)
  }

  // ---- the shared audit log

  /** The service's own events are of other kinds than the session manager's. */
  lemma ServiceKinds(kind: string)
    requires kind in {LOGIN_EVENT, DECISION_EVENT, DRIFT_EVENT, REUSE_EVENT, RENEWED_EVENT}
    ensures kind != ISSUED_EVENT && kind != REVOKED_EVENT
  {
    assert ISSUED_EVENT[0] == 's' && REVOKED_EVENT[0] == 's';
    assert LOGIN_EVENT[0] == 'l' && DECISION_EVENT[0] == 'a' && DRIFT_EVENT[0] == 'p' && REUSE_EVENT[0] == 't'
           && RENEWED_EVENT[0] == 't';
  }

  lemma NotedKeepsInv(s: State, c: Config, clock: int, e: Entry)
    requires Inv(s, c, clock) && e.eventType != ISSUED_EVENT && e.eventType != REVOKED_EVENT
    ensures Inv(Noted(s, e, c.h), c, clock) && Ages(s, Noted(s, e, c.h))
  {
    hide Mirrored, Appended, Accepted;
    var t := Noted(s, e, c.h);
    SessionTheorems.MirroredIfNoted(s, t, e, c.h);
    forall subject, tenant ensures |ActiveIds(t, subject, tenant, clock)| <= c.cap {
      assert ActiveIds(t, subject, tenant, clock) == ActiveIds(s, subject, tenant, clock);
    }
  }

  lemma CallKeeps(s: State, c: Config, clock: int, call: Call)
    requires Inv(s, c, clock) && Legal(s, c, clock, call)
    ensures Inv(SessionModel.Step(s, c, call), c, call.now) && Ages(s, SessionModel.Step(s, c, call))
  {
    SessionTheorems.StepKeepsInv(s, c, clock, call);
  }

  lemma LaterInv(s: State, c: Config, clock: int, now: int)
    requires Inv(s, c, clock) && clock <= now
    ensures Inv(s, c, now) && Ages(s, s)
  {
    hide Indexed, Mirrored;
    CapLater(s, c.cap, clock, now);
    AgesReflexive(s);
  }

  /** A session call followed by an event of the service. */
  lemma CallAndNoteKeep(s: State, c: Config, clock: int, call: Call, e: Entry)
    requires Inv(s, c, clock) && Legal(s, c, clock, call) && e.eventType != ISSUED_EVENT && e.eventType != REVOKED_EVENT
    ensures var t := Noted(SessionModel.Step(s, c, call), e, c.h);
            Inv(t, c, call.now) && Ages(s, t)
  {
    assert WF(s);
    hide Inv, Ages, Legal, SessionModel.Step, Noted, WF;
    CallKeeps(s, c, clock, call);
    var t := SessionModel.Step(s, c, call);
    NotedKeepsInv(t, c, call.now, e);
    AgesTransitive(s, t, Noted(t, e, c.h));
  }

  lemma OwnedLater(s: State, t: State, v: TokenVault.Vault)
    requires Owned(s, v) && Ages(s, t)
    ensures Owned(t, v)
  {
    forall id | id in v
      ensures id in t.byId && t.byId[id].parent.None? && (v[id].compromised ==> t.byId[id].status == REVOKED)
    {
      assert Older(s.byId[id], t.byId[id]);
    }
  }

  lemma DroppedKeeps(s: State, v: TokenVault.Vault, gone: set<string>)
    requires Owned(s, v) && TokenVault.Counted(v)
    ensures Owned(s, v - gone) && TokenVault.Counted(v - gone)
  {
  }

  // ---- each operation

  lemma LoginKeeps(w: Identity, u: Setup, clock: int, p: Principal, tokens: Option<TokenVault.TokenSet>, now: int,
                   token: string, sid: string)
    requires ServiceInv(w, u, clock) && clock <= now && FreshDraw(w.sessions, u.c, token, sid)
    ensures ServiceInv(LoggedIn(w, u.c, p, tokens, now, token, sid), u, now)
    ensures Ages(w.sessions, LoggedIn(w, u.c, p, tokens, now, token, sid).sessions)
  {
    var t := LoggedIn(w, u.c, p, tokens, now, token, sid);
    IssueWF(w.sessions, u.c, p, now, token, sid, None);
    assert sid in t.sessions.byId && t.sessions.byId[sid].parent.None? by {
      IssueEffect(w.sessions, u.c, p, now, token, sid, None);
    }
    assert WF(t.sessions);
    hide Inv, Ages, WF, FreshDraw, Issue, NewRecord;
    ServiceKinds(LOGIN_EVENT);
    CallAndNoteKeep(w.sessions, u.c, clock, Call(now, Login(p, token, sid, None)),
                    Note(LOGIN_EVENT, NewRecord(u.c, p, now, token, sid, None), map[], now));
    OwnedLater(w.sessions, t.sessions, w.vault);
    if tokens.Some? {
      BoundKeeps(t.sessions, w.vault, sid, tokens.value);
    }
  }

  lemma BoundKeeps(s: State, v: TokenVault.Vault, sid: string, tokens: TokenVault.TokenSet)
    requires Owned(s, v) && TokenVault.Counted(v) && sid in s.byId && s.byId[sid].parent.None?
    ensures Owned(s, TokenVault.Bound(v, sid, tokens)) && TokenVault.Counted(TokenVault.Bound(v, sid, tokens))
  {
  }

  lemma DirectKeeps(w: Identity, u: Setup, clock: int, call: Call)
    requires ServiceInv(w, u, clock) && Legal(w.sessions, u.c, clock, call)
    ensures ServiceInv(w.(sessions := SessionModel.Step(w.sessions, u.c, call)), u, call.now)
    ensures Ages(w.sessions, SessionModel.Step(w.sessions, u.c, call))
  {
    hide Inv, Ages, WF, Legal, SessionModel.Step;
    CallKeeps(w.sessions, u.c, clock, call);
    SessionModel.StepWF(w.sessions, u.c, call);
    OwnedLater(w.sessions, SessionModel.Step(w.sessions, u.c, call), w.vault);
  }

  lemma CheckKeeps(w: Identity, u: Setup, clock: int, token: string, a: Asked, now: int)
    requires ServiceInv(w, u, clock) && clock <= now
    ensures ServiceInv(Checked(w, u.c, token, a, now), u, now)
    ensures Ages(w.sessions, Checked(w, u.c, token, a, now).sessions)
  {
    hide Inv, Ages, WF, Lookup, Decided, SessionModel.Authenticate, Owned, TokenVault.Counted;
    LaterInv(w.sessions, u.c, clock, now);
    var e := Authorized(Gatehouse(w.sessions, w.book), u.c, token, a, now);
    if e.verdict.Some? {
      var call := Call(now, Open(token, true));
      var note := DecisionNote(e.verdict.value, a, now);
      ServiceKinds(DECISION_EVENT);
      SessionModel.StepWF(w.sessions, u.c, call);
      var t := Noted(SessionModel.Step(w.sessions, u.c, call), note, u.c.h);
      CallAndNoteKeep(w.sessions, u.c, clock, call, note);
      NotedWF(SessionModel.Step(w.sessions, u.c, call), note, u.c.h);
      OwnedLater(w.sessions, t, w.vault);
    }
  }

  lemma NotedWF(s: State, e: Entry, h: Digest)
    requires WF(s)
    ensures WF(Noted(s, e, h))
  {
  }

  lemma SnapshotKeeps(w: Identity, u: Setup, clock: int, r: Record, source: Snapshot, now: int)
    requires ServiceInv(w, u, clock) && clock <= now
    ensures ServiceInv(Applied(w, u.c, r, source, now), u, now)
    ensures Ages(w.sessions, Applied(w, u.c, r, source, now).sessions)
  {
    hide Inv, Ages, WF, Owned, TokenVault.Counted, Drift;
    LaterInv(w.sessions, u.c, clock, now);
    if Drift(r, source).Some? {
      var reason := Drift(r, source).value;
      var note := Outcome(DRIFT_EVENT, r, "revoked", map["reason" := Text(reason)], now);
      ServiceKinds(DRIFT_EVENT);
      CloseAndNoteKeep(w, u, clock, r.sessionId, "permission_drift:" + reason, now, note);
      var t := Noted(Revoke(w.sessions, r.sessionId, "permission_drift:" + reason, now, u.c.h), note, u.c.h);
      DroppedKeeps(t, w.vault, {r.sessionId});
    }
  }

  lemma CloseAndNoteKeep(w: Identity, u: Setup, clock: int, id: string, reason: string, now: int, note: Entry)
    requires ServiceInv(w, u, clock) && clock <= now && note.eventType != ISSUED_EVENT
             && note.eventType != REVOKED_EVENT
    ensures var t := Noted(Revoke(w.sessions, id, reason, now, u.c.h), note, u.c.h);
            WF(t) && Inv(t, u.c, now) && Ages(w.sessions, t) && Owned(t, w.vault)
  {
    hide Inv, Ages, WF, Owned, TokenVault.Counted, Revoke, Noted;
    var call := Call(now, Close(id, reason));
    CallAndNoteKeep(w.sessions, u.c, clock, call, note);
    SessionModel.StepWF(w.sessions, u.c, call);
    NotedWF(Revoke(w.sessions, id, reason, now, u.c.h), note, u.c.h);
    OwnedLater(w.sessions, Noted(Revoke(w.sessions, id, reason, now, u.c.h), note, u.c.h), w.vault);
  }

  lemma RenewKeeps(w: Identity, u: Setup, clock: int, r: Record, presented: string, replacement: TokenVault.TokenSet,
                   now: int)
    requires ServiceInv(w, u, clock) && clock <= now && r.sessionId in w.sessions.byId
    ensures ServiceInv(Renewed(w, u.c, r, presented, replacement, now, u.sha), u, now)
    ensures Ages(w.sessions, Renewed(w, u.c, r, presented, replacement, now, u.sha).sessions)
  {
    var id := r.sessionId;
    assert TokenVault.RotateFailure(w.vault, id, presented, u.sha).None? ==>
        id in TokenVault.Rotated(w.vault, id, presented, replacement, u.sha);
    hide Inv, Ages, WF, Owned, TokenVault.Counted, TokenVault.Rotated, TokenVault.RotateFailure;
    LaterInv(w.sessions, u.c, clock, now);
    var vault := TokenVault.Rotated(w.vault, id, presented, replacement, u.sha);
    TokenVault.StepKeepsCounted(w.vault, u.sha, TokenVault.Rotate(id, presented, replacement));
    match TokenVault.RotateFailure(w.vault, id, presented, u.sha) {
      case None =>
        var note := Note(RENEWED_EVENT, r, map["generation" := Count(vault[id].generation)], now);
        ServiceKinds(RENEWED_EVENT);
        NotedKeepsInv(w.sessions, u.c, now, note);
        NotedWF(w.sessions, note, u.c.h);
        OwnedLater(w.sessions, Noted(w.sessions, note, u.c.h), w.vault);
        RotatedOwned(Noted(w.sessions, note, u.c.h), w.vault, id, presented, replacement, u.sha);
      case Some(failure) =>
        if failure == TokenVault.ReuseDetected {
          var note := Outcome(REUSE_EVENT, r, "revoked", map[], now);
          var t := Noted(Revoke(w.sessions, id, REUSE_REASON, now, u.c.h), note, u.c.h);
          ServiceKinds(REUSE_EVENT);
          CloseAndNoteKeep(w, u, clock, id, REUSE_REASON, now, note);
          RevokedNow(w.sessions, u.c, clock, id, REUSE_REASON, now);
          RotatedOwned(t, w.vault, id, presented, replacement, u.sha);
        }
    }
  }

  /** Right after `revoke_by_id`, the session is revoked, whatever it was before. */
  lemma RevokedNow(s: State, c: Config, clock: int, id: string, reason: string, now: int)
    requires Inv(s, c, clock) && id in s.byId
    ensures id in Revoke(s, id, reason, now, c.h).byId && Revoke(s, id, reason, now, c.h).byId[id].status == REVOKED
  {
  }

  lemma RotatedOwned(s: State, v: TokenVault.Vault, id: string, presented: string, replacement: TokenVault.TokenSet,
                     sha: TokenVault.Digest)
    requires Owned(s, v) && id in s.byId
    requires TokenVault.RotateFailure(v, id, presented, sha) == Some(TokenVault.ReuseDetected) ==>
               s.byId[id].status == REVOKED
    ensures Owned(s, TokenVault.Rotated(v, id, presented, replacement, sha))
  {
  }

  lemma LogoutKeeps(w: Identity, u: Setup, clock: int, r: Record, now: int)
    requires ServiceInv(w, u, clock) && clock <= now
    ensures ServiceInv(LoggedOut(w, u.c, r, now), u, now) && Ages(w.sessions, LoggedOut(w, u.c, r, now).sessions)
  {
    hide Inv, Ages, WF, Owned, TokenVault.Counted;
    DirectKeeps(w, u, clock, Call(now, Close(r.sessionId, "user_logout")));
    DroppedKeeps(LoggedOut(w, u.c, r, now).sessions, w.vault, {r.sessionId});
  }

  lemma LogoutAllKeeps(w: Identity, u: Setup, clock: int, r: Record, now: int)
    requires ServiceInv(w, u, clock) && clock <= now
    ensures ServiceInv(AllLoggedOut(w, u.c, r, now), u, now) && Ages(w.sessions, AllLoggedOut(w, u.c, r, now).sessions)
  {
    assert WF(w.sessions);
    hide Inv, Ages, WF, Owned, TokenVault.Counted, RevokeSubject, SetOf, ActiveNow, SessionModel.Step;
    var subject, tenant := r.principal.subject, r.principal.tenantId;
    var t := RevokeSubject(w.sessions, u.c, subject, tenant, "user_logout_all", now);
    CloseSubjectIsStep(w.sessions, u.c, subject, tenant, "user_logout_all", now);
    DirectKeeps(w, u, clock, Call(now, CloseSubject(subject, tenant, "user_logout_all")));
    DroppedKeeps(t, w.vault, SetOf(ActiveNow(w.sessions, r, now)));
  }

  lemma CloseSubjectIsStep(s: State, c: Config, subject: string, tenant: string, reason: string, now: int)
    requires WF(s)
    ensures SessionModel.Step(s, c, Call(now, CloseSubject(subject, tenant, reason)))
            == RevokeSubject(s, c, subject, tenant, reason, now)
  {
    hide RevokeSubject, WF;
  }

  /** Every operation of the service keeps the session invariant (index, cap and an audit
      log that verifies and mirrors the records) and the ties between vault and
      sessions, and only ages the session records. */
  lemma StepKeeps(w: Identity, u: Setup, clock: int, act: Act)
    requires ServiceInv(w, u, clock) && LegalAct(w, u, clock, act)
    ensures ServiceInv(Step(w, u, act), u, act.now) && Ages(w.sessions, Step(w, u, act).sessions)
  {
    hide Inv, Ages, WF, Owned, TokenVault.Counted, Legal, FreshDraw, SessionModel.Step, Renewed, Applied, LoggedOut,
         AllLoggedOut, Checked, LoggedIn;
    var now := act.now;
    LaterInv(w.sessions, u.c, clock, now);
    match act.op {
      case CompleteLogin(p, tokens, token, sid) => LoginKeeps(w, u, clock, p, tokens, now, token, sid);
      case Direct(op) => DirectKeeps(w, u, clock, Call(now, op));
      case Authorize(token, a) => CheckKeeps(w, u, clock, token, a, now);
      case StepUpFor(id, action, resourceId, authTime, acr, grantId) =>
      case ApplySnapshot(id, source) =>
        if OnSession(w, id).Some? { SnapshotKeeps(w, u, clock, w.sessions.byId[id], source, now); }
      case RenewTokens(id, presented, replacement) =>
        if OnSession(w, id).Some? {
          NamedRecord(w.sessions, id);
          RenewKeeps(w, u, clock, w.sessions.byId[id], presented, replacement, now);
        }
      case Logout(id) =>
        if OnSession(w, id).Some? { LogoutKeeps(w, u, clock, w.sessions.byId[id], now); }
      case LogoutAll(id) =>
        if OnSession(w, id).Some? { LogoutAllKeeps(w, u, clock, w.sessions.byId[id], now); }
    }
  }

  lemma NamedRecord(s: State, id: string)
    requires WF(s) && id in s.byId
    ensures s.byId[id].sessionId == id
  {
  }

  // ---- whole runs

  lemma StepStructure(w: Identity, u: Setup, act: Act)
    requires WF(w.sessions)
    ensures WF(Step(w, u, act).sessions)
  {
    hide WF, Inv, Drift, Issue, Decided, Lookup, RevokeSubject, TokenVault.Rotated, TokenVault.RotateFailure, SetOf,
         ActiveNow;
    var s, c, now := w.sessions, u.c, act.now;
    match act.op {
      case CompleteLogin(p, tokens, token, sid) =>
        IssueWF(s, c, p, now, token, sid, None);
        NotedWF(Issue(s, c, p, now, token, sid, None),
                Note(LOGIN_EVENT, NewRecord(c, p, now, token, sid, None), map[], now), c.h);
      case Direct(op) => SessionModel.StepWF(s, c, Call(now, op));
      case Authorize(token, a) =>
        SessionModel.StepWF(s, c, Call(now, Open(token, true)));
        var e := Authorized(Gatehouse(s, w.book), c, token, a, now);
        if e.verdict.Some? {
          NotedWF(e.after.sessions, DecisionNote(e.verdict.value, a, now), c.h);
        }
      case StepUpFor(id, action, resourceId, authTime, acr, grantId) =>
      case ApplySnapshot(id, source) =>
        if OnSession(w, id).Some? && Drift(s.byId[id], source).Some? {
          var reason := Drift(s.byId[id], source).value;
          CloseNoteWF(s, s.byId[id].sessionId, "permission_drift:" + reason, now,
                      Outcome(DRIFT_EVENT, s.byId[id], "revoked", map["reason" := Text(reason)], now), c.h);
        }
      case RenewTokens(id, presented, replacement) =>
        if OnSession(w, id).Some? {
          RenewWF(w, c, s.byId[id], presented, replacement, now, u.sha);
        }
      case Logout(id) =>
        if OnSession(w, id).Some? { RevokeWF(s, s.byId[id].sessionId, "user_logout", now, c.h); }
      case LogoutAll(id) =>
        if OnSession(w, id).Some? {
          var principal := s.byId[id].principal;
          SessionModel.StepWF(s, c, Call(now, CloseSubject(principal.subject, principal.tenantId, "user_logout_all")));
        }
    }
  }

  lemma CloseNoteWF(s: State, id: string, reason: string, now: int, e: Entry, h: Digest)
    requires WF(s)
    ensures WF(Noted(Revoke(s, id, reason, now, h), e, h))
  {
    hide WF, Revoke;
    RevokeWF(s, id, reason, now, h);
    NotedWF(Revoke(s, id, reason, now, h), e, h);
  }

  lemma RenewWF(w: Identity, c: Config, r: Record, presented: string, replacement: TokenVault.TokenSet, now: int,
                sha: TokenVault.Digest)
    requires WF(w.sessions)
    ensures WF(Renewed(w, c, r, presented, replacement, now, sha).sessions)
  {
    hide WF, Revoke, Noted, Outcome, Note;
    forall e: Entry ensures WF(Noted(w.sessions, e, c.h)) {
      NotedWF(w.sessions, e, c.h);
    }
    CloseNoteWF(w.sessions, r.sessionId, REUSE_REASON, now, Outcome(REUSE_EVENT, r, "revoked", map[], now), c.h);
  }

  ghost function Run(w: Identity, u: Setup, acts: seq<Act>): Identity
    requires WF(w.sessions)
    ensures WF(Run(w, u, acts).sessions)
    decreases |acts|
  {
    if acts == [] then w
    else
      StepStructure(w, u, acts[0]);
      Run(Step(w, u, acts[0]), u, acts[1..])
  }

  ghost predicate LegalRun(w: Identity, u: Setup, clock: int, acts: seq<Act>)
    requires WF(w.sessions)
    decreases |acts|
  {
    acts == []
    || (LegalAct(w, u, clock, acts[0])
        && (StepStructure(w, u, acts[0]); LegalRun(Step(w, u, acts[0]), u, acts[0].now, acts[1..])))
  }

  ghost function LastClock(clock: int, acts: seq<Act>): int {
    if acts == [] then clock else acts[|acts| - 1].now
  }

  lemma {:induction false} RunKeeps(w: Identity, u: Setup, clock: int, acts: seq<Act>)
    requires ServiceInv(w, u, clock) && LegalRun(w, u, clock, acts)
    ensures ServiceInv(Run(w, u, acts), u, LastClock(clock, acts)) && Ages(w.sessions, Run(w, u, acts).sessions)
    decreases |acts|
  {
    hide Inv, WF, Ages, Owned, TokenVault.Counted, Step, LegalAct;
    AgesReflexive(w.sessions);
    if acts != [] {
      var t := Step(w, u, acts[0]);
      StepStructure(w, u, acts[0]);
      StepKeeps(w, u, clock, acts[0]);
      RunKeeps(t, u, acts[0].now, acts[1..]);
      AgesTransitive(w.sessions, t.sessions, Run(w, u, acts).sessions);
    }
  }

  const NOTHING := Identity(Empty(), StepUp.Book(map[], {}), map[])

  lemma EmptyServiceInv(u: Setup, clock: int)
    ensures ServiceInv(NOTHING, u, clock)
  {
    SessionTheorems.EmptyInv(u.c, clock);
  }

  /** What every run from the start leaves: an audit log that verifies, no owner above the
      limit, and provider tokens that belong to sessions, never to one with a parent. Where a
      refresh token was replayed, the log revokes the session exactly once, and no token opens
      it at any time. */
  lemma RunFromStart(u: Setup, clock: int, acts: seq<Act>)
    requires LegalRun(NOTHING, u, clock, acts)
    ensures var w := Run(NOTHING, u, acts);
            && Accepted(w.sessions.log, u.c.h)
            && (forall subject, tenant :: |ActiveIds(w.sessions, subject, tenant, LastClock(clock, acts))| <= u.c.cap)
            && (forall id | id in w.vault :: id in w.sessions.byId && w.vault[id].generation == 1 + |w.vault[id].used|)
            && (forall id | id in w.sessions.byId && w.sessions.byId[id].parent.Some? ::
                  TokenVault.Fetched(w.vault, id).None?)
            && (forall id | id in w.vault && w.vault[id].compromised :: Times(w.sessions.log, REVOKED_EVENT, id) == 1)
            && (forall token, now :: var r := Lookup(w.sessions, u.c, token, now);
                  r.Some? && r.value.sessionId in w.vault ==> !w.vault[r.value.sessionId].compromised)
  {
    hide Step, Indexed, Accepted;
    EmptyServiceInv(u, clock);
    RunKeeps(NOTHING, u, clock, acts);
  }

  /** Rotating a session leaves its provider tokens with the old, revoked session: the new one
      never gets any, in any later run. */
  lemma RotationLeavesTokens(w: Identity, u: Setup, clock: int, token: string, reason: string, newToken: string,
                             sid: string, now: int, acts: seq<Act>)
    requires ServiceInv(w, u, clock) && clock <= now && FreshDraw(w.sessions, u.c, newToken, sid)
    requires Lookup(w.sessions, u.c, token, now).Some?
    requires (var act := Act(now, Direct(Renew(token, reason, newToken, sid)));
              StepStructure(w, u, act); LegalRun(Step(w, u, act), u, now, acts))
    ensures var act := Act(now, Direct(Renew(token, reason, newToken, sid)));
            var prior, t := Lookup(w.sessions, u.c, token, now).value.sessionId, Step(w, u, act);
            && WF(t.sessions) && TokenVault.Fetched(t.vault, prior) == TokenVault.Fetched(w.vault, prior)
            && prior in t.sessions.byId && t.sessions.byId[prior].status == REVOKED
            && sid in t.sessions.byId && t.sessions.byId[sid].parent == Some(prior)
            && TokenVault.Fetched(Run(t, u, acts).vault, sid).None?
  {
    var act := Act(now, Direct(Renew(token, reason, newToken, sid)));
    var t := Step(w, u, act);
    RotatedSessions(w.sessions, u.c, clock, token, reason, newToken, sid, now);
    StepKeeps(w, u, clock, act);
    hide Step, Inv, WF, LegalAct, TokenVault.Counted, Lookup, Run, LegalRun, FreshDraw;
    RunKeeps(t, u, now, acts);
    var end := Run(t, u, acts);
    assert Older(t.sessions.byId[sid], end.sessions.byId[sid]);
  }

  lemma RotatedSessions(s: State, c: Config, clock: int, token: string, reason: string, newToken: string, sid: string,
                        now: int)
    requires WF(s) && Inv(s, c, clock) && clock <= now && FreshDraw(s, c, newToken, sid)
             && Lookup(s, c, token, now).Some?
    ensures var t, prior := SessionModel.Step(s, c, Call(now, Renew(token, reason, newToken, sid))),
            Lookup(s, c, token, now).value.sessionId;
            && prior in t.byId && t.byId[prior].status == REVOKED
            && sid in t.byId && t.byId[sid].parent == Some(prior)
  {
    var prior := Lookup(s, c, token, now).value;
    PriorIsActive(s, c, token, now);
    CapLater(s, c.cap, clock, now);
    ReplaceEffect(s, c, prior, now, reason, newToken, sid);
  }

  // ---- ended for good

  /** No token opens the session, and its provider tokens are not handed out. */
  ghost predicate Ended(w: Identity, c: Config, id: string) {
    && TokenVault.Unavailable(w.vault, id)
    && id in w.sessions.byId && w.sessions.byId[id].status == REVOKED
  }

  lemma EndedMeans(w: Identity, c: Config, id: string, token: string, now: int)
    requires WF(w.sessions) && Ended(w, c, id)
    ensures TokenVault.Fetched(w.vault, id).None?
    ensures Lookup(w.sessions, c, token, now).Some? ==> Lookup(w.sessions, c, token, now).value.sessionId != id
  {
  }

  lemma StepStaysEnded(w: Identity, u: Setup, clock: int, act: Act, id: string)
    requires ServiceInv(w, u, clock) && LegalAct(w, u, clock, act) && Ended(w, u.c, id)
    ensures Ended(Step(w, u, act), u.c, id)
  {
    VaultStaysUnavailable(w, u, act, id);
    hide Inv, WF, Ages, Owned, TokenVault.Counted, Step, LegalAct, TokenVault.Unavailable;
    StepKeeps(w, u, clock, act);
    EnforcementLaws.StaysRevoked(w.sessions, Step(w, u, act).sessions, id);
  }

  /** Only a login binds a family, and it binds one for a new session. */
  lemma VaultStaysUnavailable(w: Identity, u: Setup, act: Act, id: string)
    requires WF(w.sessions) && id in w.sessions.byId && TokenVault.Unavailable(w.vault, id)
    requires act.op.CompleteLogin? ==> act.op.sid !in w.sessions.byId
    ensures TokenVault.Unavailable(Step(w, u, act).vault, id)
  {
    hide Inv, WF, Issue, SessionModel.Step, Decided, Lookup, Revoke, RevokeSubject, Drift, SetOf, ActiveNow, Noted;
  }

  lemma {:induction false} RunStaysEnded(w: Identity, u: Setup, clock: int, acts: seq<Act>, id: string)
    requires ServiceInv(w, u, clock) && LegalRun(w, u, clock, acts) && Ended(w, u.c, id)
    ensures Ended(Run(w, u, acts), u.c, id)
    decreases |acts|
  {
    hide Inv, WF, Ages, Owned, TokenVault.Counted, Step, LegalAct, Ended;
    if acts != [] {
      StepStructure(w, u, acts[0]);
      StepKeeps(w, u, clock, acts[0]);
      StepStaysEnded(w, u, clock, acts[0], id);
      RunStaysEnded(Step(w, u, acts[0]), u, acts[0].now, acts[1..], id);
    }
  }

  /** Presenting a retired refresh token of a live family is reported and ends the session:
      after the call and over every later run no token opens it and its provider tokens
      are not handed out again. */
  lemma ReuseEndsSession(w: Identity, u: Setup, clock: int, id: string, presented: string,
                         replacement: TokenVault.TokenSet, now: int, acts: seq<Act>, token: string, later: int)
    requires ServiceInv(w, u, clock) && clock <= now
    requires id in w.vault && !w.vault[id].compromised && u.sha(presented) in w.vault[id].used
    requires (var act := Act(now, RenewTokens(id, presented, replacement));
              StepStructure(w, u, act); LegalRun(Step(w, u, act), u, now, acts))
    ensures var first := Step(w, u, Act(now, RenewTokens(id, presented, replacement)));
            && WF(first.sessions)
            && w.sessions.log < first.sessions.log
            && Content(first.sessions.log[|first.sessions.log| - 1].body)
               == Outcome(REUSE_EVENT, w.sessions.byId[id], "revoked", map[], now)
            && var end := Run(first, u, acts);
               && TokenVault.Fetched(end.vault, id).None? && id in end.sessions.byId
               && end.sessions.byId[id].status == REVOKED
               && (Lookup(end.sessions, u.c, token, later).Some? ==>
                     Lookup(end.sessions, u.c, token, later).value.sessionId != id)
  {
    var act := Act(now, RenewTokens(id, presented, replacement));
    var first := Step(w, u, act);
    ReuseEnds(w, u, clock, id, presented, replacement, now);
    hide Inv, WF, Ages, Owned, TokenVault.Counted, Step, Lookup, TokenVault.Fetched;
    StepKeeps(w, u, clock, act);
    RunStaysEnded(first, u, now, acts, id);
    EndedMeans(Run(first, u, acts), u.c, id, token, later);
  }

  lemma ReuseEnds(w: Identity, u: Setup, clock: int, id: string, presented: string, replacement: TokenVault.TokenSet,
                  now: int)
    requires ServiceInv(w, u, clock) && clock <= now
    requires id in w.vault && !w.vault[id].compromised && u.sha(presented) in w.vault[id].used
    ensures var first := Step(w, u, Act(now, RenewTokens(id, presented, replacement)));
            && WF(first.sessions) && id in w.sessions.byId
            && w.sessions.log < first.sessions.log
            && Content(first.sessions.log[|first.sessions.log| - 1].body)
               == Outcome(REUSE_EVENT, w.sessions.byId[id], "revoked", map[], now)
            && Ended(first, u.c, id)
  {
    StepStructure(w, u, Act(now, RenewTokens(id, presented, replacement)));
    RevokedNow(w.sessions, u.c, clock, id, REUSE_REASON, now);
    NamedRecord(w.sessions, id);
    hide Inv, WF, Mirrored, Indexed, Capped;
  }

  /** A detected drift ends the session as well. */
  lemma DriftEndsSession(w: Identity, u: Setup, clock: int, id: string, source: Snapshot, now: int, acts: seq<Act>)
    requires ServiceInv(w, u, clock) && clock <= now && id in w.sessions.byId
    requires (var act := Act(now, ApplySnapshot(id, source));
              StepStructure(w, u, act); LegalRun(Step(w, u, act), u, now, acts))
    ensures WF(Step(w, u, Act(now, ApplySnapshot(id, source))).sessions)
    ensures var r := w.sessions.byId[id];
            && (Drift(r, source).None? <==> Snapshot(r.principal.subject, r.principal.tenantId, r.principal.roles,
                                                     r.principal.capabilities,
                                                     r.permissionVersion) == source)
            && (Drift(r, source).Some? ==> Ended(Run(Step(w, u, Act(now, ApplySnapshot(id, source))), u, acts), u.c,
                                                 id))
  {
    var act := Act(now, ApplySnapshot(id, source));
    StepStructure(w, u, act);
    var first := Step(w, u, act);
    var r := w.sessions.byId[id];
    if Drift(r, source).Some? {
      DriftEnds(w, u, clock, id, source, now);
      hide Inv, WF, Ages, Owned, TokenVault.Counted, Step, Ended, Drift;
      StepKeeps(w, u, clock, act);
      RunStaysEnded(first, u, now, acts, id);
    }
  }

  lemma DriftEnds(w: Identity, u: Setup, clock: int, id: string, source: Snapshot, now: int)
    requires ServiceInv(w, u, clock) && clock <= now && id in w.sessions.byId
             && Drift(w.sessions.byId[id], source).Some?
    ensures Ended(Step(w, u, Act(now, ApplySnapshot(id, source))), u.c, id)
  {
    RevokedNow(w.sessions, u.c, clock, id, "permission_drift:" + Drift(w.sessions.byId[id], source).value, now);
    NamedRecord(w.sessions, id);
    hide Inv, WF, Mirrored, Indexed, Capped, Drift, Revoke;
  }

  /** After logging out everywhere no session of the subject is ACTIVE, and exactly those
      provider tokens are gone whose session could still be opened at that moment: a family
      left behind by an expired or earlier revoked session stays. */
  lemma LogoutAllExactly(w: Identity, u: Setup, clock: int, r: Record, now: int, id: string)
    requires ServiceInv(w, u, clock) && clock <= now
    requires id in w.sessions.byId && w.sessions.byId[id].Owner(r.principal.subject, r.principal.tenantId)
    ensures var t := AllLoggedOut(w, u.c, r, now);
            && id in t.sessions.byId && t.sessions.byId[id].status == REVOKED
            && (TokenVault.Fetched(t.vault, id).Some?
                <==> TokenVault.Fetched(w.vault, id).Some? && !w.sessions.byId[id].Active(now))
  {
    var subject, tenant := r.principal.subject, r.principal.tenantId;
    var s := w.sessions;
    hide LiveIndexed, IndexLive, HashesDiffer, WF, Mirrored, Capped, RevokeAll, Matching, ActiveFor;
    ActiveListed(s, subject, tenant, now, id);
    OwnedListed(s, subject, tenant, id);
    RevokeAllKeeps(s, Matching(s, OwnedBy(subject, tenant)), "user_logout_all", now, u.c.h);
    assert id in SetOf(ActiveNow(s, r, now)) <==> id in ActiveNow(s, r, now);
  }

  /** A run from the start that leaves such a family: log in with provider tokens, have the
      session revoked directly, log out everywhere. The tokens are still handed out. */
  lemma LogoutAllLeavesFamily(u: Setup, p: Principal, tokens: TokenVault.TokenSet, token: string, sid: string,
                              reason: string, now: int)
    requires sid != ""
    ensures var acts := [Act(now, CompleteLogin(p, Some(tokens), token, sid)), Act(now, Direct(Close(sid, reason))),
                         Act(now, LogoutAll(sid))];
            && LegalRun(NOTHING, u, now, acts)
            && var w := Run(NOTHING, u, acts);
               sid in w.sessions.byId && w.sessions.byId[sid].status == REVOKED
                 && TokenVault.Fetched(w.vault, sid) == Some(tokens)
  {
    var login, close, logout := Act(now, CompleteLogin(p, Some(tokens), token, sid)),
      Act(now, Direct(Close(sid, reason))), Act(now, LogoutAll(sid));
    EmptyServiceInv(u, now);
    LoginBinds(u, p, tokens, token, sid, now);
    StepStructure(NOTHING, u, login);
    StepKeeps(NOTHING, u, now, login);
    hide Step, ServiceInv, WF;
    var w := Step(NOTHING, u, login);
    FamilyOutlivesSession(w, u, sid, reason, now);
    ThreeActs(NOTHING, u, now, login, close, logout);
  }

  lemma FamilyOutlivesSession(w: Identity, u: Setup, sid: string, reason: string, now: int)
    requires ServiceInv(w, u, now) && sid in w.sessions.byId
    ensures var close, logout := Act(now, Direct(Close(sid, reason))), Act(now, LogoutAll(sid));
            var w2 := Step(w, u, close);
            && LegalAct(w, u, now, close) && WF(w2.sessions) && LegalAct(w2, u, now, logout)
            && var w3 := Step(w2, u, logout);
               && WF(w3.sessions) && sid in w3.sessions.byId && w3.sessions.byId[sid].status == REVOKED
               && TokenVault.Fetched(w3.vault, sid) == TokenVault.Fetched(w.vault, sid)
  {
    var close, logout := Act(now, Direct(Close(sid, reason))), Act(now, LogoutAll(sid));
    StepStructure(w, u, close);
    StepKeeps(w, u, now, close);
    RevokedNow(w.sessions, u.c, now, sid, reason, now);
    var w2 := Step(w, u, close);
    assert w2.vault == w.vault && w2.sessions.byId[sid].status == REVOKED;
    StepStructure(w2, u, logout);
    RevokedKeepsFamily(w2, u, now, sid);
  }

  lemma RevokedKeepsFamily(w: Identity, u: Setup, now: int, sid: string)
    requires ServiceInv(w, u, now) && sid in w.sessions.byId && w.sessions.byId[sid].status == REVOKED
    ensures var t := Step(w, u, Act(now, LogoutAll(sid)));
            && sid in t.sessions.byId && t.sessions.byId[sid].status == REVOKED
            && TokenVault.Fetched(t.vault, sid) == TokenVault.Fetched(w.vault, sid)
  {
    var r := w.sessions.byId[sid];
    LogoutAllExactly(w, u, now, r, now, sid);
    hide ServiceInv, RevokeSubject, SetOf, ActiveNow;
    assert Step(w, u, Act(now, LogoutAll(sid))) == AllLoggedOut(w, u.c, r, now);
  }

  lemma LoginBinds(u: Setup, p: Principal, tokens: TokenVault.TokenSet, token: string, sid: string, now: int)
    ensures var w := Step(NOTHING, u, Act(now, CompleteLogin(p, Some(tokens), token, sid)));
            && sid in w.sessions.byId && w.sessions.byId[sid].sessionId == sid
            && w.vault == TokenVault.Bound(map[], sid, tokens)
  {
    var c := u.c;
    var stored := Put(Empty(), NewRecord(c, p, now, token, sid, None));
    IssueWF(Empty(), c, p, now, token, sid, None);
    RevokeAllWF(stored, Victims(stored, c.cap, p.subject, p.tenantId, now, sid), LIMIT_REASON, now, c.h);
  }

  lemma ThreeActs(w: Identity, u: Setup, clock: int, a: Act, b: Act, d: Act)
    requires WF(w.sessions) && LegalAct(w, u, clock, a)
    requires (var w1 := Step(w, u, a);
              WF(w1.sessions) && LegalAct(w1, u, a.now, b)
              && var w2 := Step(w1, u, b); WF(w2.sessions) && LegalAct(w2, u, b.now, d) && WF(Step(w2, u, d).sessions))
    ensures LegalRun(w, u, clock, [a, b, d])
    ensures Run(w, u, [a, b, d]) == Step(Step(Step(w, u, a), u, b), u, d)
  {
    hide Step, LegalAct, WF;
    var w1 := Step(w, u, a);
    var w2 := Step(w1, u, b);
    var end := Step(w2, u, d);
    assert [a, b, d][1..] == [b, d] && [b, d][1..] == [d] && [d][1..] == [];
    assert LegalRun(end, u, d.now, []) && Run(end, u, []) == end;
    assert LegalRun(w2, u, b.now, [d]) && Run(w2, u, [d]) == Run(end, u, []);
    assert LegalRun(w1, u, a.now, [b, d]) && Run(w1, u, [b, d]) == Run(w2, u, [d]);
  }

  lemma ActiveListed(s: State, subject: string, tenant: string, now: int, id: string)
    requires WF(s) && id in s.byId
    ensures id in IdsOf(ActiveFor(s, subject, tenant, now))
            <==> s.byId[id].Owner(subject, tenant) && s.byId[id].Active(now)
  {
    ActiveForIds(s, subject, tenant, now);
    assert id in SetOf(IdsOf(ActiveFor(s, subject, tenant, now))) <==> id in IdsOf(ActiveFor(s, subject, tenant, now));
  }

  lemma OwnedListed(s: State, subject: string, tenant: string, id: string)
    requires WF(s) && id in s.byId && s.byId[id].Owner(subject, tenant)
    ensures id in Matching(s, OwnedBy(subject, tenant))
  {
    var rs := Records(s);
    var i :| 0 <= i < |s.ids| && s.ids[i] == id;
    assert rs[i] in rs && OwnedBy(subject, tenant)(rs[i]);
    FilterKeeps(rs, OwnedBy(subject, tenant));
    IdsOfMembers(Filter(rs, OwnedBy(subject, tenant)));
  }
}
