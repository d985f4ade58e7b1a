/** The service class over its collaborators. */
module IdentityServiceObject {
  import opened IdentityAudit
  import opened Ordering
  import opened Prelude
  import opened SessionModel
  import opened SessionLaws
  import opened SessionManagement
  import opened Enforcement
  import TokenVault
  import opened IdentityServiceModel

  class IdentityService {
    const sessions: SessionManager
    const enforcer: IdentityEnforcer
    const audit: IdentityAuditLog
    const vault: TokenVault.InMemoryTokenVault

    ghost predicate Valid()
      reads sessions, sessions.store, sessions.audit, vault
    {
      sessions.Valid() && enforcer.sessions == sessions && sessions.audit == audit && vault.Valid()
    }

    ghost function View(): Identity
      reads sessions, sessions.store, sessions.store.byId.Values, sessions.audit, enforcer.stepUp, vault,
        vault.families.Values
    {
      Identity(sessions.View(), enforcer.stepUp.View(), vault.View())
    }

    constructor (sessions: SessionManager, enforcer: IdentityEnforcer, audit: IdentityAuditLog,
                 vault: TokenVault.InMemoryTokenVault)
      requires sessions.Valid() && enforcer.sessions == sessions && sessions.audit == audit && vault.Valid()
      ensures Valid() && this.sessions == sessions && this.enforcer == enforcer && this.audit == audit
              && this.vault == vault
    {
      this.sessions, this.enforcer, this.audit, this.vault := sessions, enforcer, audit, vault;
    }

    method AppendNote(e: Entry)
      requires Valid()
      modifies audit
      ensures Valid() && View() == old(View()).(sessions := Noted(old(View().sessions), e, sessions.config.h))
    {
      hide Appended, WF;
      audit.Append(e);
    }

    // The calls on each collaborator, seen from the service.

    method OpenSession(p: Principal, now: int, token: string, sid: string) returns (record: SessionRecord)
      requires Valid() && Indexed(sessions.View()) && FreshDraw(sessions.View(), sessions.config, token, sid)
      modifies sessions.store, sessions.store.byId.Values, audit
      ensures Valid() && sid in sessions.store.byId && sessions.store.byId[sid] == record && record.sessionId == sid
      ensures View() == old(View()).(sessions := Issue(old(View()).sessions, sessions.config, p, now, token, sid, None))
    {
      hide Issue, Indexed, WF, FreshDraw;
      record := sessions.Issue(p, now, token, sid, None);
    }

    method CloseSession(id: string, reason: string, now: int) returns (revoked: bool)
      requires Valid()
      modifies sessions.store`tokens, sessions.store.byId.Values, audit
      ensures Valid()
      ensures View() == old(View()).(sessions := Revoke(old(View()).sessions, id, reason, now, sessions.config.h))
    {
      hide Revoke;
      revoked := sessions.RevokeById(id, reason, now);
    }

    method DropFamily(id: string)
      requires Valid()
      modifies vault
      ensures Valid() && vault.families.Values <= old(vault.families.Values)
      ensures View() == old(View()).(vault := old(View()).vault - {id})
    {
      var existed := vault.Revoke(id);
    }

    method BindFamily(id: string, tokens: TokenVault.TokenSet)
      requires Valid()
      modifies vault
      ensures Valid()
      ensures View() == old(View()).(vault := TokenVault.Bound(old(View()).vault, id, tokens))
    {
      vault.Bind(id, tokens);
    }

    method RotateFamily(id: string, presented: string, replacement: TokenVault.TokenSet)
      returns (failed: Option<TokenVault.Failure>, generation: int)
      requires Valid()
      modifies vault.families.Values
      ensures Valid()
      ensures View() == old(View()).(vault := TokenVault.Rotated(old(View()).vault, id, presented, replacement,
                                                                 vault.sha))
      ensures failed == TokenVault.RotateFailure(old(View()).vault, id, presented, vault.sha)
      ensures failed.None? ==> id in View().vault && generation == View().vault[id].generation
    {
      hide TokenVault.Rotated, TokenVault.RotateFailure;
      var rotated := vault.Rotate(id, presented, replacement);
      if rotated.Ok? {
        assert vault.View()[id] == rotated.value.View();
        return None, rotated.value.generation;
      }
      return Some(rotated.error), 0;
    }

    // The service's own operations.

    method CompleteLogin(p: Principal, tokens: Option<TokenVault.TokenSet>, now: int, token: string, sid: string)
      returns (record: SessionRecord)
      requires Valid() && Indexed(sessions.View()) && FreshDraw(sessions.View(), sessions.config, token, sid)
      modifies sessions.store, sessions.store.byId.Values, audit, vault
      ensures Valid()
      ensures View() == LoggedIn(old(View()), sessions.config, p, tokens, now, token, sid)
      ensures sid in sessions.store.byId && sessions.store.byId[sid] == record
    {
      assert WF(View().sessions);
      hide Issue, Indexed, WF, FreshDraw, TokenVault.Bound, View, Noted, NewRecord;
      record := OpenSession(p, now, token, sid);
      if tokens.Some? {
        BindFamily(record.sessionId, tokens.value);
      }
      AppendNote(Note(LOGIN_EVENT, NewRecord(sessions.config, p, now, token, sid, None), map[], now));
    }

    /** A null session stands for the session error. */
    method Authorize(token: string, a: Asked, now: int)
      returns (session: SessionRecord?, decision: AuthorizationPolicy.Decision)
      requires Valid()
      modifies sessions.store.byId.Values, audit, enforcer.stepUp
      ensures Valid()
      ensures View() == Checked(old(View()), sessions.config, token, a, now)
      ensures var e := Authorized(old(enforcer.View()), sessions.config, token, a, now);
              && (session == null <==> e.verdict.None?)
              && (session != null ==> e.verdict == Some(Verdict(session.View(), decision)))
    {
      hide DecisionNote, Decided, Lookup, SessionModel.Authenticate;
      session, decision := enforcer.Authorize(token, a, now);
      if session != null {
        AppendNote(DecisionNote(Verdict(session.View(), decision), a, now));
      }
    }

    /** The reason of a detected drift, if any. */
    method ApplyPermissionSnapshot(session: SessionRecord, source: Snapshot, now: int) returns (drift: Option<string>)
      requires Valid()
      modifies sessions.store`tokens, sessions.store.byId.Values, audit, vault
      ensures Valid()
      ensures View() == Applied(old(View()), sessions.config, old(session.View()), source, now)
      ensures drift == Drift(old(session.View()), source)
    {
      hide Revoke, View, Noted, Drift;
      var r := session.View();
      drift := Drift(r, source);
      if drift.Some? {
        var revoked := CloseSession(r.sessionId, "permission_drift:" + drift.value, now);
        DropFamily(r.sessionId);
        AppendNote(Outcome(DRIFT_EVENT, r, "revoked", map["reason" := Text(drift.value)], now));
      }
    }

    /** The error, if any; a reused token also ends the session. */
    method RotateProviderTokens(session: SessionRecord, presented: string, replacement: TokenVault.TokenSet, now: int)
      returns (failed: Option<TokenVault.Failure>)
      requires Valid()
      modifies sessions.store`tokens, sessions.store.byId.Values, audit, vault.families.Values
      ensures Valid()
      ensures View() == Renewed(old(View()), sessions.config, old(session.View()), presented, replacement, now,
                                vault.sha)
      ensures failed == TokenVault.RotateFailure(old(View()).vault, session.sessionId, presented, vault.sha)
    {
      FailuresKeep(View().vault, session.sessionId, presented, replacement, vault.sha);
      hide Revoke, View, Noted, TokenVault.Rotated, TokenVault.RotateFailure;
      var r := session.View();
      var generation: int;
      failed, generation := RotateFamily(r.sessionId, presented, replacement);
      if failed == Some(TokenVault.ReuseDetected) {
        var revoked := CloseSession(r.sessionId, REUSE_REASON, now);
        AppendNote(Outcome(REUSE_EVENT, r, "revoked", map[], now));
      } else if failed.None? {
        AppendNote(Note(RENEWED_EVENT, r, map["generation" := Count(generation)], now));
      }
    }

    method LogoutSession(session: SessionRecord, now: int)
      requires Valid()
      modifies sessions.store`tokens, sessions.store.byId.Values, audit, vault
      ensures Valid()
      ensures View() == LoggedOut(old(View()), sessions.config, old(session.View()), now)
    {
      hide Revoke, View;
      var revoked := CloseSession(session.sessionId, "user_logout", now);
      DropFamily(session.sessionId);
    }

    method LogoutAll(session: SessionRecord, now: int) returns (count: nat)
      requires Valid()
      modifies sessions.store`tokens, sessions.store.byId.Values, audit, vault
      ensures Valid()
      ensures View() == AllLoggedOut(old(View()), sessions.config, old(session.View()), now)
      ensures CountsChanges(count, old(View()).sessions, View().sessions)
    {
      hide RevokeSubject, ActiveFor, CountsChanges, View, IdsOf;
      var subject, tenant := session.principal.subject, session.principal.tenantId;
      var ids := ActiveSessions(subject, tenant, now);
      count := CloseSubject(subject, tenant, "user_logout_all", now);
      DropFamilies(ids);
    }

    method ActiveSessions(subject: string, tenant: string, now: int) returns (ids: seq<string>)
      requires Valid()
      ensures WF(View().sessions) && ids == IdsOf(ActiveFor(View().sessions, subject, tenant, now))
    {
      hide ActiveFor;
      var active := sessions.ActiveForSubject(subject, tenant, now);
      assert sessions.Snapshots(active) == ActiveFor(View().sessions, subject, tenant, now);
      ids := IdsOf(sessions.Snapshots(active));
    }

    method CloseSubject(subject: string, tenant: string, reason: string, now: int) returns (count: nat)
      requires Valid()
      modifies sessions.store`tokens, sessions.store.byId.Values, audit
      ensures Valid()
      ensures View() == old(View()).(sessions := RevokeSubject(old(View()).sessions, sessions.config, subject, tenant,
                                                               reason, now))
      ensures CountsChanges(count, old(View()).sessions, View().sessions)
    {
      hide RevokeSubject, CountsChanges;
      count := sessions.RevokeSubject(subject, tenant, reason, now);
    }

    method DropFamilies(ids: seq<string>)
      requires Valid()
      modifies vault
      ensures Valid() && View() == old(View()).(vault := old(View()).vault - SetOf(ids))
    {
      hide View, SetOf;
      ghost var w := View();
      NothingDropped(w);
      for i := 0 to |ids|
        invariant Valid() && View() == w.(vault := w.vault - SetOf(ids[..i]))
        invariant vault.families.Values <= old(vault.families.Values)
      {
        DropFamily(ids[i]);
        OneMoreDropped(w.vault, ids, i);
      }
      assert ids[..|ids|] == ids;
    }
  }

  lemma NothingDropped(w: Identity)
    ensures w == w.(vault := w.vault - SetOf<string>([]))
  {
    assert w.vault - SetOf<string>([]) == w.vault;
  }

  lemma OneMoreDropped(v: TokenVault.Vault, ids: seq<string>, i: nat)
    requires i < |ids|
    ensures v - SetOf(ids[..i]) - {ids[i]} == v - SetOf(ids[..i + 1])
  {
    assert ids[..i + 1] == ids[..i] + [ids[i]];
    assert SetOf(ids[..i + 1]) == SetOf(ids[..i]) + {ids[i]};
  }

  /** A refused rotation changes the vault only to mark reuse. */
  lemma FailuresKeep(v: TokenVault.Vault, id: string, presented: string, replacement: TokenVault.TokenSet,
                     sha: TokenVault.Digest)
    ensures TokenVault.RotateFailure(v, id, presented, sha).Some?
            && TokenVault.RotateFailure(v, id, presented, sha) != Some(TokenVault.ReuseDetected) ==>
              TokenVault.Rotated(v, id, presented, replacement, sha) == v
  {
  }
}
