/** What each operation of the identity service does to sessions, grants, provider tokens and
    log, told in full. */
module ServiceEffects {
  import opened IdentityAudit
  import opened Ordering
  import opened Prelude
  import opened SessionModel
  import opened SessionLaws
  import opened SessionEffects
  import opened Enforcement
  import opened IdentityServiceModel

  /** An audit entry of the service about a session. */
  ghost function Told(r: Record, kind: string, outcome: string, details: map<string, Detail>, now: int): Entry {
    Entry(now, kind, Some(r.principal.subject), Some(r.principal.tenantId), Some(r.sessionId), outcome, details)
  }

  ghost predicate Trail(w: Identity, c: Config) {
    Accepted(w.sessions.log, c.h) && Numbered(w.sessions.log)
  }

  /** A login issues a root session, binds its provider tokens, if any, as a new family, and
      notes the login. */
  lemma CompleteLoginTells(w: Identity, c: Config, p: Principal, tokens: Option<TokenVault.TokenSet>, now: int,
                           token: string, sid: string)
    requires Indexed(w.sessions) && FreshDraw(w.sessions, c, token, sid) && Trail(w, c)
    ensures var t, issued := LoggedIn(w, c, p, tokens, now, token, sid), Issue(w.sessions, c, p, now, token, sid, None);
            && t.sessions.byId == issued.byId && t.sessions.ids == issued.ids && t.sessions.tokens == issued.tokens
            && Writes(issued, t.sessions, [Told(FirstRecord(c, p, now, token, sid, None), "login.completed", "success",
                                                map[], now)], c.h)
            && t.book == w.book
            && t.vault == match tokens
                          case None => w.vault
                          case Some(bound) => w.vault[sid := TokenVault.Family(sid, bound, 1, {}, false)]
  {
    var issued := Issue(w.sessions, c, p, now, token, sid, None);
    LoginTells(w.sessions, c, p, now, token, sid, None);
    hide Issue;
    WritesOne(issued, LoggedIn(w, c, p, tokens, now, token, sid).sessions,
              Told(FirstRecord(c, p, now, token, sid, None), "login.completed", "success", map[], now), c.h);
  }

  /** An authorization on an open session touches it, spends what the decision spends, and notes
      the decision as an allow or a deny; without a session nothing happens. */
  lemma AuthorizeTells(w: Identity, c: Config, token: string, a: Asked, now: int)
    requires Trail(w, c)
    ensures var t := Checked(w, c, token, a, now);
            match Lookup(w.sessions, c, token, now)
            case None => t == w
            case Some(r) =>
              var (book, d) := Decided(w.book, r, a, now);
              && t.book == book && t.vault == w.vault
              && t.sessions.byId == Authenticate(w.sessions, c, token, now, true).byId
              && t.sessions.ids == w.sessions.ids && t.sessions.tokens == w.sessions.tokens
              && Writes(w.sessions, t.sessions,
                        [Told(r, "authorization.decision", if d.allowed then "allow" else "deny",
                              map["action" := Text(a.action), "resource_id" := Text(a.resource.resourceId),
                                  "reason" := Text(d.reason)], now)], c.h)
  {
    if Lookup(w.sessions, c, token, now).Some? {
      var r := Lookup(w.sessions, c, token, now).value;
      var d := Decided(w.book, r, a, now).1;
      var touched := Authenticate(w.sessions, c, token, now, true);
      hide Decided;
      WritesOne(touched, Checked(w, c, token, a, now).sessions,
                Told(r, "authorization.decision", if d.allowed then "allow" else "deny",
                     map["action" := Text(a.action), "resource_id" := Text(a.resource.resourceId),
                         "reason" := Text(d.reason)], now), c.h);
    }
  }

  /** The first difference between a session and the permissions at their source. */
  ghost function Difference(r: Record, source: Snapshot): Option<string> {
    if (r.principal.subject, r.principal.tenantId) != (source.subject, source.tenantId)
      then Some("identity_binding_changed")
    else if r.permissionVersion != source.permissionVersion then Some("permission_version_changed")
    else if r.principal.roles != source.roles then Some("role_membership_changed")
    else if r.principal.capabilities != source.capabilities then Some("capabilities_changed")
    else None
  }

  /** A difference ends the session, drops its provider tokens and is noted with its name. */
  lemma SnapshotTells(w: Identity, c: Config, r: Record, source: Snapshot, now: int)
    requires Trail(w, c) && (r.sessionId in w.sessions.byId ==> w.sessions.byId[r.sessionId].sessionId == r.sessionId)
    ensures var t := Applied(w, c, r, source, now);
            match Difference(r, source)
            case None => t == w
            case Some(reason) =>
              var closed := Revoke(w.sessions, r.sessionId, "permission_drift:" + reason, now, c.h);
              && t.sessions.byId == closed.byId && t.sessions.ids == closed.ids && t.sessions.tokens == closed.tokens
              && Writes(closed, t.sessions, [Told(r, "permission.drift", "revoked", map["reason" := Text(reason)],
                                                  now)], c.h)
              && t.book == w.book && t.vault == w.vault - {r.sessionId}
  {
    if Difference(r, source).Some? {
      var reason := Difference(r, source).value;
      var closed := Revoke(w.sessions, r.sessionId, "permission_drift:" + reason, now, c.h);
      assert Drift(r, source) == Some(reason);
      RevokeTells(w.sessions, r.sessionId, "permission_drift:" + reason, now, c.h);
      hide Revoke, Drift;
      WritesOne(closed, Applied(w, c, r, source, now).sessions,
                Told(r, "permission.drift", "revoked", map["reason" := Text(reason)], now), c.h);
    }
  }

  /** Renewing provider tokens: an unknown or compromised family, or a token that was never
      current, changes nothing; a token retired before compromises the family and ends the
      session; the current one is retired, replaced and noted with its generation. */
  lemma RenewTells(w: Identity, c: Config, r: Record, presented: string, replacement: TokenVault.TokenSet, now: int,
                   sha: TokenVault.Digest)
    requires Trail(w, c) && (r.sessionId in w.sessions.byId ==> w.sessions.byId[r.sessionId].sessionId == r.sessionId)
    ensures var t, id := Renewed(w, c, r, presented, replacement, now, sha), r.sessionId;
            if id !in w.vault || w.vault[id].compromised then t == w
            else
              var f := w.vault[id];
              if sha(presented) in f.used then
                var closed := Revoke(w.sessions, id, "refresh_token_reuse", now, c.h);
                && t.vault == w.vault[id := f.(compromised := true)] && t.book == w.book
                && t.sessions.byId == closed.byId && t.sessions.ids == closed.ids && t.sessions.tokens == closed.tokens
                && Writes(closed, t.sessions, [Told(r, "token.refresh_reuse", "revoked", map[], now)], c.h)
              else if f.tokens.refreshToken.None? || sha(f.tokens.refreshToken.value) != sha(presented) then t == w
              else
                && t.vault == w.vault[id := f.(tokens := replacement, generation := f.generation + 1,
                                               used := f.used + {sha(presented)})]
                && t.book == w.book && t.sessions.byId == w.sessions.byId && t.sessions.ids == w.sessions.ids
                && t.sessions.tokens == w.sessions.tokens
                && Writes(w.sessions, t.sessions,
                          [Told(r, "token.rotated", "success", map["generation" := Count(f.generation + 1)], now)], c.h)
  {
    var id := r.sessionId;
    if id in w.vault && !w.vault[id].compromised {
      if sha(presented) in w.vault[id].used {
        var closed := Revoke(w.sessions, id, "refresh_token_reuse", now, c.h);
        RevokeTells(w.sessions, id, "refresh_token_reuse", now, c.h);
        hide Revoke;
        WritesOne(closed, Renewed(w, c, r, presented, replacement, now, sha).sessions,
                  Told(r, "token.refresh_reuse", "revoked", map[], now), c.h);
      } else if w.vault[id].tokens.refreshToken.Some? && sha(w.vault[id].tokens.refreshToken.value) == sha(presented) {
        WritesOne(w.sessions, Renewed(w, c, r, presented, replacement, now, sha).sessions,
                  Told(r, "token.rotated", "success", map["generation" := Count(w.vault[id].generation + 1)], now),
                    c.h);
      }
    }
  }

  /** Logging out ends this session as the user's wish and drops its provider tokens; logging
      out everywhere ends the owner's sessions in the tenant and no others, and drops the
      tokens of those that were open. */
  lemma LogoutTells(w: Identity, c: Config, r: Record, now: int)
    requires Indexed(w.sessions) && Trail(w, c)
    ensures var t := LoggedOut(w, c, r, now);
            && t.sessions == Revoke(w.sessions, r.sessionId, "user_logout", now, c.h)
            && t.book == w.book && t.vault == w.vault - {r.sessionId}
    ensures var t, owner := AllLoggedOut(w, c, r, now), r.principal;
            && t.sessions == RevokeSubject(w.sessions, c, owner.subject, owner.tenantId, "user_logout_all", now)
            && (forall id | id in w.sessions.byId ::
                  var x := w.sessions.byId[id];
                  id in t.sessions.byId
                  && t.sessions.byId[id] == if x.principal.subject == owner.subject
                  && x.principal.tenantId == owner.tenantId
                                               && x.status == ACTIVE
                                            then Ended(x, "user_logout_all", now) else x)
            && t.book == w.book
            && (forall id | id in w.vault :: id !in t.vault <==>
                  id in w.sessions.byId
                  && var x := w.sessions.byId[id];
                     x.principal.subject == owner.subject && x.principal.tenantId == owner.tenantId
                     && x.status == ACTIVE && now < x.expiresAt)
            && (forall id | id in t.vault :: id in w.vault && t.vault[id] == w.vault[id])
  {
    CloseSubjectTells(w.sessions, c, r.principal.subject, r.principal.tenantId, "user_logout_all", now);
    ActiveIdsListed(w.sessions, r.principal.subject, r.principal.tenantId, now);
    hide RevokeSubject, ActiveFor, IdsOf, Indexed, Farewells, Writes;
  }

  lemma ActiveIdsListed(s: State, subject: string, tenant: string, now: int)
    requires WF(s)
    ensures forall id :: id in SetOf(IdsOf(ActiveFor(s, subject, tenant, now)))
              <==> id in s.byId && s.byId[id].principal.subject == subject && s.byId[id].principal.tenantId == tenant
                   && s.byId[id].status == ACTIVE && now < s.byId[id].expiresAt
  {
    SessionEviction.ActiveForIds(s, subject, tenant, now);
    hide IdsOf, ActiveFor;
  }
}
