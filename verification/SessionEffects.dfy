/** What each operation of the session manager does to every record and writes to the log,
    told in full. */
module SessionEffects {
  import opened IdentityAudit
  import opened Ordering
  import opened Prelude
  import opened SessionModel
  import opened SessionLaws
  import opened SessionEviction
  import opened SessionRuns

  // ---- what is written

  /** An audit entry about a session. */
  ghost function About(r: Record, kind: string, details: map<string, Detail>, now: int): Entry {
    Entry(now, kind, Some(r.principal.subject), Some(r.principal.tenantId), Some(r.sessionId), "success", details)
  }

  ghost function Farewell(r: Record, reason: string, now: int): Entry {
    About(r, "session.revoked", map["reason" := Text(reason)], now)
  }

  /** One farewell for each listed session that is ACTIVE, in order. */
  ghost function Farewells(s: State, ids: seq<string>, reason: string, now: int): seq<Entry> {
    if ids == [] then []
    else
      (if ids[0] in s.byId && s.byId[ids[0]].status == ACTIVE then [Farewell(s.byId[ids[0]], reason, now)] else [])
      + Farewells(s, ids[1..], reason, now)
  }

  ghost function Ended(r: Record, reason: string, now: int): Record {
    r.(status := REVOKED, revokedAt := Some(now), revokeReason := Some(reason))
  }

  /** The log of `t` is that of `s` with these entries added, and verifies. */
  ghost predicate Writes(s: State, t: State, es: seq<Entry>, h: Digest) {
    Accepted(t.log, h) && Numbered(t.log) && s.log <= t.log && Contents(t.log) == Contents(s.log) + es
  }

  lemma WritesThen(s: State, t: State, u: State, a: seq<Entry>, b: seq<Entry>, h: Digest)
    requires Writes(s, t, a, h) && Writes(t, u, b, h)
    ensures Writes(s, u, a + b, h)
  {
    assert Contents(s.log) + a + b == Contents(s.log) + (a + b);
  }

  lemma WritesOne(s: State, t: State, e: Entry, h: Digest)
    requires Accepted(s.log, h) && Numbered(s.log) && t.log == Appended(s.log, e, h)
    ensures Writes(s, t, [e], h)
  {
    AppendKeepsLog(s.log, e, h);
  }

  lemma WritesNothing(s: State, t: State, h: Digest)
    requires Accepted(s.log, h) && Numbered(s.log) && t.log == s.log
    ensures Writes(s, t, [], h)
  {
  }

  // ---- revoking

  /** Revoking an ACTIVE session ends it, forgets its token and says so; anything else is left
      alone. */
  lemma RevokeTells(s: State, id: string, reason: string, now: int, h: Digest)
    requires Accepted(s.log, h) && Numbered(s.log) && (id in s.byId ==> s.byId[id].sessionId == id)
    ensures var t := Revoke(s, id, reason, now, h);
            if id in s.byId && s.byId[id].status == ACTIVE then
              && t.byId == s.byId[id := Ended(s.byId[id], reason, now)]
              && t.tokens == s.tokens - {s.byId[id].tokenHash} && t.ids == s.ids
              && Writes(s, t, [Farewell(s.byId[id], reason, now)], h)
            else t == s
  {
    var t := Revoke(s, id, reason, now, h);
    if id in s.byId && s.byId[id].status == ACTIVE {
      WritesOne(s, t, Farewell(s.byId[id], reason, now), h);
    }
  }

  lemma FarewellsLater(s: State, t: State, ids: seq<string>, reason: string, now: int)
    requires forall id | id in ids :: (id in s.byId <==> id in t.byId) && (id in s.byId ==> s.byId[id] == t.byId[id])
    ensures Farewells(s, ids, reason, now) == Farewells(t, ids, reason, now)
  {
    if ids != [] {
      assert ids[0] in ids && forall id | id in ids[1..] :: id in ids;
      FarewellsLater(s, t, ids[1..], reason, now);
    }
  }

  lemma {:induction false} RevokeAllWrites(s: State, ids: seq<string>, reason: string, now: int, h: Digest)
    requires WF(s) && Accepted(s.log, h) && Numbered(s.log) && Distinct(ids)
    ensures Writes(s, RevokeAll(s, ids, reason, now, h), Farewells(s, ids, reason, now), h)
    decreases |ids|
  {
    if ids == [] {
      WritesNothing(s, s, h);
    } else {
      var t, rest := Revoke(s, ids[0], reason, now, h), ids[1..];
      assert forall i | 0 <= i < |rest| :: rest[i] == ids[i + 1] && rest[i] != ids[0];
      RevokeWF(s, ids[0], reason, now, h);
      RevokeTells(s, ids[0], reason, now, h);
      assert Distinct(rest);
      FarewellsLater(s, t, rest, reason, now);
      hide Revoke, Writes, Accepted, Numbered, WF, Distinct;
      if t == s {
        RevokeAllWrites(s, rest, reason, now, h);
      } else {
        WritesMeans(s, t, [Farewell(s.byId[ids[0]], reason, now)], h);
        RevokeAllWrites(t, rest, reason, now, h);
        WritesThen(s, t, RevokeAll(t, rest, reason, now, h), [Farewell(s.byId[ids[0]], reason, now)],
                   Farewells(t, rest, reason, now), h);
      }
    }
  }

  lemma WritesMeans(s: State, t: State, es: seq<Entry>, h: Digest)
    requires Writes(s, t, es, h)
    ensures Accepted(t.log, h) && Numbered(t.log)
  {
  }

  lemma MatchingLists(s: State, p: Record -> bool)
    requires WF(s)
    ensures Distinct(Matching(s, p)) && forall id :: id in Matching(s, p) <==> id in s.byId && p(s.byId[id])
  {
    RecordsStored(s);
    FilterKeyed(Records(s), p);
    FilterKeeps(Records(s), p);
    KeyedIds(Filter(Records(s), p));
    IdsOfMembers(Filter(Records(s), p));
  }

  /** Ending a subject's sessions in a tenant ends exactly those that are ACTIVE and of this
      subject and tenant, and says so one by one; all others stay. */
  lemma CloseSubjectTells(s: State, c: Config, subject: string, tenant: string, reason: string, now: int)
    requires Indexed(s) && Accepted(s.log, c.h) && Numbered(s.log)
    ensures var t := RevokeSubject(s, c, subject, tenant, reason, now);
            && t.ids == s.ids && t.byId.Keys == s.byId.Keys
            && (forall id | id in s.byId ::
                  var r := s.byId[id];
                  t.byId[id] == if r.principal.subject == subject && r.principal.tenantId == tenant
                    && r.status == ACTIVE
                                then Ended(r, reason, now) else r)
            && exists ids :: Distinct(ids) && Writes(s, t, Farewells(s, ids, reason, now), c.h)
                 && forall id :: id in ids <==> id in s.byId && s.byId[id].Owner(subject, tenant)
  {
    var p := OwnedBy(subject, tenant);
    var ids := Matching(s, p);
    MatchingLists(s, p);
    RevokeAllKeeps(s, ids, reason, now, c.h);
    RevokeAllWrites(s, ids, reason, now, c.h);
  }

  /** Ending the sessions of a provider session ends exactly those that are ACTIVE and stem
      from it; sessions of other provider sessions, and those of none, stay. */
  lemma CloseProviderTells(s: State, c: Config, oidcSid: string, reason: string, now: int)
    requires Indexed(s) && Accepted(s.log, c.h) && Numbered(s.log)
    ensures var t := RevokeOidcSid(s, c, oidcSid, reason, now);
            && t.ids == s.ids && t.byId.Keys == s.byId.Keys
            && (forall id | id in s.byId ::
                  var r := s.byId[id];
                  t.byId[id] == if r.principal.oidcSid == Some(oidcSid) && r.status == ACTIVE
                                then Ended(r, reason, now) else r)
            && exists ids :: Distinct(ids) && Writes(s, t, Farewells(s, ids, reason, now), c.h)
                 && forall id :: id in ids <==> id in s.byId && s.byId[id].principal.oidcSid == Some(oidcSid)
  {
    var p := FromProvider(oidcSid);
    var ids := Matching(s, p);
    MatchingLists(s, p);
    RevokeAllKeeps(s, ids, reason, now, c.h);
    RevokeAllWrites(s, ids, reason, now, c.h);
  }

  // ---- opening

  /** The record a token opens: the one its hash points to, ACTIVE and unexpired. */
  ghost predicate Opens(s: State, c: Config, token: string, now: int, id: string) {
    && id != "" && id in s.byId && c.sha(token) in s.tokens && s.tokens[c.sha(token)] == id
    && s.byId[id].status == ACTIVE && now < s.byId[id].expiresAt
  }

  /** Authenticating finds that record and, if told to, notes the time on it and on no other;
      nothing else changes, nothing is written. */
  lemma OpenTells(s: State, c: Config, token: string, now: int, touch: bool)
    ensures var found, t := Lookup(s, c, token, now), Authenticate(s, c, token, now, touch);
            && (found.None? <==> forall id :: !Opens(s, c, token, now, id))
            && (found.None? ==> t == s)
            && (forall id | Opens(s, c, token, now, id) ::
                  found == Some(s.byId[id])
                  && t == if touch then s.(byId := s.byId[id := s.byId[id].(lastSeenAt := now)]) else s)
  {
    if Lookup(s, c, token, now).Some? {
      assert Opens(s, c, token, now, s.tokens[c.sha(token)]);
    }
  }

  // ---- issuing

  ghost function FirstRecord(c: Config, p: Principal, now: int, token: string, sid: string,
                             parent: Option<string>): Record
  {
    Record(sid, c.sha(token), p, now, now + c.ttl, now, 1, p.permissionVersion, ACTIVE, None, None, parent)
  }

  lemma IssueWrites(s: State, c: Config, p: Principal, now: int, token: string, sid: string, parent: Option<string>)
    requires Indexed(s) && FreshDraw(s, c, token, sid) && Accepted(s.log, c.h) && Numbered(s.log)
    ensures var r := FirstRecord(c, p, now, token, sid, parent);
            && WF(Put(s, r))
            && var given := Victims(Put(s, r), c.cap, p.subject, p.tenantId, now, sid);
               Writes(s, Issue(s, c, p, now, token, sid, parent),
                      Farewells(Put(s, r), given, "concurrent_session_limit", now)
                      + [About(r, "session.issued", map[], now)],
                      c.h)
  {
    var r := FirstRecord(c, p, now, token, sid, parent);
    var stored := Put(s, r);
    PutWF(s, r);
    var given := Victims(stored, c.cap, p.subject, p.tenantId, now, sid);
    VictimsFacts(stored, c.cap, p.subject, p.tenantId, now, sid);
    RevokeAllWrites(stored, given, "concurrent_session_limit", now, c.h);
    var kept := RevokeAll(stored, given, "concurrent_session_limit", now, c.h);
    var t := Issue(s, c, p, now, token, sid, parent);
    assert t.log == Appended(kept.log, About(r, "session.issued", map[], now), c.h);
    hide Victims, RevokeAll, Farewells, Indexed, Distinct, WF, Issue, Put, FreshDraw;
    WritesMeans(stored, kept, Farewells(stored, given, "concurrent_session_limit", now), c.h);
    WritesOne(kept, t, About(r, "session.issued", map[], now), c.h);
    WritesThen(stored, kept, t, Farewells(stored, given, "concurrent_session_limit", now),
               [About(r, "session.issued", map[], now)], c.h);
    SameLog(s, stored, t, c.h,
            Farewells(stored, given, "concurrent_session_limit", now) + [About(r, "session.issued", map[], now)]);
  }

  lemma SameLog(s: State, u: State, t: State, h: Digest, es: seq<Entry>)
    requires u.log == s.log && Writes(u, t, es, h)
    ensures Writes(s, t, es, h)
  {
  }

  /** A login adds one record, made for the principal at this moment and good for one
      lifetime, ends whom the limit gives up, and says so: first the farewells, then the issue. */
  lemma LoginTells(s: State, c: Config, p: Principal, now: int, token: string, sid: string, parent: Option<string>)
    requires Indexed(s) && FreshDraw(s, c, token, sid) && Accepted(s.log, c.h) && Numbered(s.log)
    ensures var r, t := FirstRecord(c, p, now, token, sid, parent), Issue(s, c, p, now, token, sid, parent);
            && WF(Put(s, r))
            && var given := Victims(Put(s, r), c.cap, p.subject, p.tenantId, now, sid);
            && t.ids == s.ids + [sid] && t.byId.Keys == s.byId.Keys + {sid}
            && (forall id | id in t.byId ::
                  var before := if id == sid then r else s.byId[id];
                  t.byId[id] == if id in given then Ended(before, "concurrent_session_limit", now) else before)
            && Writes(s, t, Farewells(Put(s, r), given, "concurrent_session_limit", now)
                            + [About(r, "session.issued", map[], now)], c.h)
  {
    IssueEffect(s, c, p, now, token, sid, parent);
    IssueWrites(s, c, p, now, token, sid, parent);
    hide Issue, Victims, Farewells, Writes, Accepted, Numbered, Known, LiveIndexed, IndexLive, HashesDiffer, Ages, Put;
  }

  // ---- rotating

  /** The record of the session that replaces another. */
  ghost function NextRecord(c: Config, prior: Record, now: int, token: string, sid: string): Record {
    FirstRecord(c, prior.principal.(authTime := now), now, token, sid,
                Some(prior.sessionId)).(authVersion := prior.authVersion + 1)
  }

  /** What a rotation writes: the farewell, the issue and the rotation. */
  ghost function RotationEntries(prior: Record, r: Record, reason: string, now: int): seq<Entry> {
    [Farewell(prior, "rotated:" + reason, now), About(r, "session.issued", map[], now),
     About(r, "session.rotated", map["replaced_session_id" := Text(prior.sessionId), "reason" := Text(reason)], now)]
  }

  /** A rotation ends the old session, adds its successor, one version higher, for the same
      principal authenticated now, and changes nobody else; it writes the farewell, the issue
      and the rotation. An unusable token changes and writes nothing. */
  lemma RotateTells(s: State, c: Config, clock: int, token: string, now: int, reason: string, newToken: string,
                    sid: string)
    requires Inv(s, c, clock) && clock <= now && FreshDraw(s, c, newToken, sid)
    ensures var found, t := Lookup(s, c, token, now), Rotate(s, c, token, now, reason, newToken, sid);
            match found
            case None => t == s
            case Some(prior) =>
              var r := NextRecord(c, prior, now, newToken, sid);
              && t.ids == s.ids + [sid]
              && t.byId == s.byId[prior.sessionId := Ended(prior, "rotated:" + reason, now)][sid := r]
              && Writes(s, t, RotationEntries(prior, r, reason, now), c.h)
  {
    if Lookup(s, c, token, now).Some? {
      RotationReplaces(s, c, clock, token, now, reason, newToken, sid);
      hide Rotate, Replace, Replaceable, Inv, Writes, Capped, NextRecord, RotationEntries, Ended, Lookup, FreshDraw,
           Accepted, Numbered, WF;
      ReplaceTells(s, c, Lookup(s, c, token, now).value, now, reason, newToken, sid);
    }
  }

  lemma RotationReplaces(s: State, c: Config, clock: int, token: string, now: int, reason: string, newToken: string,
                         sid: string)
    requires Inv(s, c, clock) && clock <= now && FreshDraw(s, c, newToken, sid) && Lookup(s, c, token, now).Some?
    ensures var prior := Lookup(s, c, token, now).value;
            && Replaceable(s, c, prior, now, newToken, sid) && Capped(s, c.cap, now)
            && Accepted(s.log, c.h) && Numbered(s.log)
            && Rotate(s, c, token, now, reason, newToken, sid) == Replace(s, c, prior, now, reason, newToken, sid)
  {
    PriorIsActive(s, c, token, now);
    CapLater(s, c.cap, clock, now);
    hide Replace, Capped, FreshDraw, Lookup;
  }

  lemma ReplaceTells(s: State, c: Config, prior: Record, now: int, reason: string, token: string, sid: string)
    requires Replaceable(s, c, prior, now, token, sid) && Capped(s, c.cap, now)
    requires Accepted(s.log, c.h) && Numbered(s.log)
    ensures var t, r := Replace(s, c, prior, now, reason, token, sid), NextRecord(c, prior, now, token, sid);
            && t.ids == s.ids + [sid]
            && t.byId == s.byId[prior.sessionId := Ended(prior, "rotated:" + reason, now)][sid := r]
            && Writes(s, t, RotationEntries(prior, r, reason, now), c.h)
  {
    ReplaceEffect(s, c, prior, now, reason, token, sid);
    ReplaceWrites(s, c, prior, now, reason, token, sid);
    SameEntries(c, prior, now, reason, token, sid);
    hide Replace, Writes, Accepted, Numbered, Indexed, Ages, Capped, FreshDraw, RotationEntries;
  }

  lemma SameEntries(c: Config, prior: Record, now: int, reason: string, token: string, sid: string)
    ensures RotationEntries(prior, NextRecord(c, prior, now, token, sid), reason, now)
         == RotationEntries(prior, Successor(c, prior, now, token, sid), reason, now)
  {
  }

  lemma ReplaceWrites(s: State, c: Config, prior: Record, now: int, reason: string, token: string, sid: string)
    requires Replaceable(s, c, prior, now, token, sid) && Capped(s, c.cap, now)
    requires Accepted(s.log, c.h) && Numbered(s.log)
    ensures Writes(s, Replace(s, c, prior, now, reason, token, sid),
                   RotationEntries(prior, Successor(c, prior, now, token, sid), reason, now), c.h)
  {
    var closed := Closed(s, c, prior, now, reason);
    var r := Successor(c, prior, now, token, sid);
    var es := RotationEntries(prior, r, reason, now);
    var farewell, issued, rotated := es[0], es[1], es[2];
    assert es == [farewell] + [issued] + [rotated];
    FarewellWritten(s, c, prior, now, reason, token, sid);
    SuccessorWrites(s, c, prior, now, reason, token, sid);
    var renewed := Issue(closed, c, r.principal, now, token, sid, r.parent);
    var t := Replace(s, c, prior, now, reason, token, sid);
    ReplaceUnfolds(s, c, prior, now, reason, token, sid);
    assert t.log == Appended(renewed.log, rotated, c.h);
    hide Issue, Replace, Closed, Indexed, WF, Capped, Ages, Replaceable, FreshDraw, Writes, Accepted, Numbered,
         RotationEntries;
    WritesMeans(closed, renewed, [issued], c.h);
    WritesOne(renewed, t, rotated, c.h);
    WritesThen(s, closed, renewed, [farewell], [issued], c.h);
    WritesThen(s, renewed, t, [farewell] + [issued], [rotated], c.h);
  }

  lemma FarewellWritten(s: State, c: Config, prior: Record, now: int, reason: string, token: string, sid: string)
    requires Replaceable(s, c, prior, now, token, sid) && Capped(s, c.cap, now)
    requires Accepted(s.log, c.h) && Numbered(s.log)
    ensures var closed := Closed(s, c, prior, now, reason);
            && WF(closed) && Accepted(closed.log, c.h) && Numbered(closed.log)
            && Writes(s, closed, [Farewell(prior, "rotated:" + reason, now)], c.h)
  {
    ClosedKeeps(s, c, prior, now, reason, token, sid);
    RevokeTells(s, prior.sessionId, "rotated:" + reason, now, c.h);
    hide Revoke;
    WritesMeans(s, Closed(s, c, prior, now, reason), [Farewell(prior, "rotated:" + reason, now)], c.h);
  }

  lemma SuccessorWrites(s: State, c: Config, prior: Record, now: int, reason: string, token: string, sid: string)
    requires Replaceable(s, c, prior, now, token, sid) && Capped(s, c.cap, now)
    requires WF(Closed(s, c, prior, now, reason))
    requires var log := Closed(s, c, prior, now, reason).log; Accepted(log, c.h) && Numbered(log)
    ensures var closed, r := Closed(s, c, prior, now, reason), Successor(c, prior, now, token, sid);
            Writes(closed, Issue(closed, c, r.principal, now, token, sid, r.parent),
                   [About(r, "session.issued", map[], now)], c.h)
  {
    var closed, r := Closed(s, c, prior, now, reason), Successor(c, prior, now, token, sid);
    ClosedKeeps(s, c, prior, now, reason, token, sid);
    RotateHasRoom(s, c, prior, now, reason, token, sid);
    IssueWrites(closed, c, r.principal, now, token, sid, r.parent);
    assert Farewells(Put(closed, r), [], "concurrent_session_limit", now) + [About(r, "session.issued", map[], now)]
           == [About(r, "session.issued", map[], now)];
    hide Issue, Victims, Writes, Closed, Indexed, Capped, Accepted, Numbered;
  }
}
