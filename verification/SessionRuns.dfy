/** The session invariant is kept by every operation, hence by every run. */
module SessionRuns {
  import opened IdentityAudit
  import opened Ordering
  import opened Prelude
  import opened SessionModel
  import opened SessionLaws
  import opened SessionEviction

  // ---- issuing

  ghost predicate FreshRecord(s: State, r: Record) {
    && r.status == ACTIVE && r.sessionId != "" && r.sessionId !in s.byId
    && forall id | id in s.byId :: s.byId[id].tokenHash != r.tokenHash
  }

  lemma PutKeepsIndex(s: State, r: Record)
    requires LiveIndexed(s) && IndexLive(s) && FreshRecord(s, r)
    ensures LiveIndexed(Put(s, r)) && IndexLive(Put(s, r))
  {
    var t := Put(s, r);
    forall h | h in t.tokens
      ensures t.tokens[h] in t.byId && t.byId[t.tokens[h]].tokenHash == h && t.byId[t.tokens[h]].status == ACTIVE
    {
      if h != r.tokenHash {
        assert h in s.tokens;
      }
    }
  }

  lemma PutKeepsNames(s: State, r: Record)
    requires Known(s) && HashesDiffer(s) && FreshRecord(s, r)
    ensures Known(Put(s, r)) && HashesDiffer(Put(s, r))
  {
  }

  lemma PutAges(s: State, r: Record)
    requires FreshRecord(s, r)
    ensures Ages(s, Put(s, r))
  {
  }

  lemma PutKeeps(s: State, r: Record)
    requires Indexed(s) && FreshRecord(s, r)
    ensures Indexed(Put(s, r)) && Ages(s, Put(s, r))
  {
    PutWF(s, r);
    PutKeepsIndex(s, r);
    PutKeepsNames(s, r);
    PutAges(s, r);
  }

  lemma AgesTransitive(s: State, t: State, u: State)
    requires Ages(s, t) && Ages(t, u)
    ensures Ages(s, u)
  {
    forall id | id in s.byId ensures id in u.byId && Older(s.byId[id], u.byId[id]) {
      assert Older(s.byId[id], t.byId[id]) && Older(t.byId[id], u.byId[id]);
    }
  }

  /** `t` is `s` with record `r` added and the sessions in `V` given up. */
  ghost predicate IssuedInto(s: State, r: Record, t: State, V: seq<string>, now: int) {
    && t.ids == s.ids + [r.sessionId]
    && t.byId.Keys == s.byId.Keys + {r.sessionId}
    && (forall id | id in s.byId :: t.byId[id] == if id in V then Limited(s.byId[id], now) else s.byId[id])
    && t.byId[r.sessionId] == (if r.sessionId in V then Limited(r, now) else r)
  }

  function Limited(r: Record, now: int): Record {
    r.(status := REVOKED, revokedAt := Some(now), revokeReason := Some(LIMIT_REASON))
  }

  ghost function Given(s: State, c: Config, r: Record, now: int): seq<string>
    requires WF(s)
    ensures WF(Put(s, r))
  {
    PutWF(s, r);
    Victims(Put(s, r), c.cap, r.principal.subject, r.principal.tenantId, now, r.sessionId)
  }

  lemma GivenActive(s: State, c: Config, r: Record, now: int, id: string)
    requires WF(s) && id in Given(s, c, r, now)
    ensures id in Put(s, r).byId && Put(s, r).byId[id].status == ACTIVE
  {
    VictimsFacts(Put(s, r), c.cap, r.principal.subject, r.principal.tenantId, now, r.sessionId);
    assert id in SetOf(Given(s, c, r, now));
  }

  /** Giving up sessions touches the listed records and no others. */
  ghost predicate GivenUp(s: State, t: State, V: seq<string>, now: int) {
    && t.ids == s.ids && t.byId.Keys == s.byId.Keys
    && forall id | id in s.byId :: t.byId[id] == if id in V then Limited(s.byId[id], now) else s.byId[id]
  }

  lemma GiveUpEffect(s: State, c: Config, r: Record, now: int)
    requires Indexed(s) && FreshRecord(s, r)
    ensures var V := Given(s, c, r, now);
            var kept := RevokeAll(Put(s, r), V, LIMIT_REASON, now, c.h);
            Indexed(kept) && Ages(Put(s, r), kept) && GivenUp(Put(s, r), kept, V, now)
  {
    var stored, V := Put(s, r), Given(s, c, r, now);
    PutKeeps(s, r);
    forall id | id in V ensures id in stored.byId && stored.byId[id].status == ACTIVE {
      GivenActive(s, c, r, now, id);
    }
    RevokeAllKeeps(stored, V, LIMIT_REASON, now, c.h);
  }

  lemma PutThenGiveUp(s: State, r: Record, t: State, V: seq<string>, now: int)
    requires r.sessionId !in s.byId && GivenUp(Put(s, r), t, V, now)
    ensures IssuedInto(s, r, t, V, now)
  {
  }

  /** Issuing adds one record and revokes exactly the victims, for the limit's reason. */
  lemma IssueEffect(s: State, c: Config, p: Principal, now: int, token: string, sid: string, parent: Option<string>)
    requires Indexed(s) && FreshDraw(s, c, token, sid)
    ensures var t := Issue(s, c, p, now, token, sid, parent);
            var r := NewRecord(c, p, now, token, sid, parent);
            Indexed(t) && Ages(s, t) && IssuedInto(s, r, t, Given(s, c, r, now), now)
  {
    var r := NewRecord(c, p, now, token, sid, parent);
    var stored, V := Put(s, r), Given(s, c, r, now);
    var kept := RevokeAll(stored, V, LIMIT_REASON, now, c.h);
    GiveUpEffect(s, c, r, now);
    PutAges(s, r);
    AgesTransitive(s, stored, kept);
    PutThenGiveUp(s, r, kept, V, now);
    SameButLog(kept, Issue(s, c, p, now, token, sid, parent), s);
  }

  lemma IssueUnfolds(s: State, c: Config, p: Principal, now: int, token: string, sid: string, parent: Option<string>)
    requires Indexed(s) && FreshDraw(s, c, token, sid)
    ensures var r := NewRecord(c, p, now, token, sid, parent);
            && r.sessionId !in s.byId && Indexed(Put(s, r))
            && var kept := Settled(Put(s, r), c.cap, p.subject, p.tenantId, now, sid, c.h);
               Issue(s, c, p, now, token, sid, parent)
                 == kept.(log := Appended(kept.log, Note(ISSUED_EVENT, r, map[], now), c.h))
  {
    PutKeeps(s, NewRecord(c, p, now, token, sid, parent));
  }

  lemma SameButLog(t: State, u: State, s: State)
    requires Indexed(t) && Ages(s, t) && u == t.(log := u.log)
    ensures Indexed(u) && Ages(s, u)
  {
  }

  lemma IssueMirrors(s: State, c: Config, p: Principal, now: int, token: string, sid: string, parent: Option<string>)
    requires Indexed(s) && Mirrored(s, c.h) && FreshDraw(s, c, token, sid)
    ensures Mirrored(Issue(s, c, p, now, token, sid, parent), c.h)
  {
    var r := NewRecord(c, p, now, token, sid, parent);
    var kept := RevokeAll(Put(s, r), Given(s, c, r, now), LIMIT_REASON, now, c.h);
    var t := Issue(s, c, p, now, token, sid, parent);
    assert t == kept.(log := Appended(kept.log, Note(ISSUED_EVENT, r, map[], now), c.h));
    GiveUpMirrors(s, c, r, now);
    IssueEffect(s, c, p, now, token, sid, parent);
    forall id | id in Given(s, c, r, now) ensures id in t.byId {
      GivenActive(s, c, r, now, id);
    }
    IssuedLogMirrors(s, c.h, r, t, Given(s, c, r, now), kept.log, now);
  }

  lemma IssuedLogMirrors(s: State, h: Digest, r: Record, t: State, V: seq<string>, log: Log, now: int)
    requires r.sessionId !in s.byId && r.status == ACTIVE && IssuedInto(s, r, t, V, now)
    requires forall id | id in V :: id in t.byId
    requires TimesAre(log, s, V) && Accepted(log, h) && Numbered(log)
    requires t.log == Appended(log, Note(ISSUED_EVENT, r, map[], now), h)
    ensures Mirrored(t, h)
  {
    var e := Note(ISSUED_EVENT, r, map[], now);
    AppendKeepsLog(log, e, h);
    forall id, kind
      ensures Times(t.log, kind, id)
           == Times(log, kind, id) + if kind == ISSUED_EVENT && id == r.sessionId then 1 else 0
    {
      TimesAppended(log, e, h, kind, id);
    }
  }

  /** The log says of `s` what it should, plus one revocation for each id in `V`. */
  ghost predicate TimesAre(log: Log, s: State, V: seq<string>) {
    && (forall id :: Times(log, ISSUED_EVENT, id) == if id in s.byId then 1 else 0)
    && (forall id :: Times(log, REVOKED_EVENT, id)
                  == if id in V then 1 else if id in s.byId && s.byId[id].status == REVOKED then 1 else 0)
  }

  lemma GiveUpMirrors(s: State, c: Config, r: Record, now: int)
    requires Indexed(s) && Mirrored(s, c.h) && FreshRecord(s, r)
    ensures var V := Given(s, c, r, now);
            var log := RevokeAll(Put(s, r), V, LIMIT_REASON, now, c.h).log;
            TimesAre(log, s, V) && Accepted(log, c.h) && Numbered(log)
  {
    var stored, V := Put(s, r), Given(s, c, r, now);
    PutKeeps(s, r);
    RevokeAllMirrors(stored, V, LIMIT_REASON, now, c.h);
    forall id | id in V ensures Revocable(stored, id) && Times(s.log, REVOKED_EVENT, id) == 0 {
      GivenActive(s, c, r, now, id);
    }
  }

  /** Time passing only ends sessions. */
  lemma ActiveShrinks(s: State, subject: string, tenant: string, now: int, later: int)
    requires now <= later
    ensures ActiveIds(s, subject, tenant, later) <= ActiveIds(s, subject, tenant, now)
  {
  }

  lemma CapLater(s: State, cap: nat, now: int, later: int)
    requires Capped(s, cap, now) && now <= later
    ensures Capped(s, cap, later)
  {
    forall subject, tenant ensures |ActiveIds(s, subject, tenant, later)| <= cap {
      ActiveShrinks(s, subject, tenant, now, later);
      SubsetSize(ActiveIds(s, subject, tenant, later), ActiveIds(s, subject, tenant, now));
    }
  }

  /** A step that only ends sessions keeps the cap. */
  lemma CapIfAges(s: State, t: State, cap: nat, now: int)
    requires Capped(s, cap, now) && Ages(s, t) && t.byId.Keys == s.byId.Keys
    ensures Capped(t, cap, now)
  {
    forall subject, tenant ensures |ActiveIds(t, subject, tenant, now)| <= cap {
      forall id | id in ActiveIds(t, subject, tenant, now) ensures id in ActiveIds(s, subject, tenant, now) {
        assert Older(s.byId[id], t.byId[id]);
      }
      SubsetSize(ActiveIds(t, subject, tenant, now), ActiveIds(s, subject, tenant, now));
    }
  }

  /** Whoever is active after issuing was active before, or is the new session, and is no victim. */
  lemma StillActive(s: State, r: Record, t: State, V: seq<string>, now: int, subject: string, tenant: string)
    requires IssuedInto(s, r, t, V, now) && r.sessionId !in s.byId
    ensures ActiveIds(t, subject, tenant, now) <= ActiveIds(Put(s, r), subject, tenant, now) - SetOf(V)
    ensures !r.Owner(subject, tenant) ==> ActiveIds(t, subject, tenant, now) <= ActiveIds(s, subject, tenant, now)
  {
  }

  lemma IssueCaps(s: State, c: Config, p: Principal, now: int, token: string, sid: string, parent: Option<string>)
    requires Indexed(s) && FreshDraw(s, c, token, sid) && Capped(s, c.cap, now)
    ensures Capped(Issue(s, c, p, now, token, sid, parent), c.cap, now)
  {
    var r := NewRecord(c, p, now, token, sid, parent);
    var V := Given(s, c, r, now);
    var t := Issue(s, c, p, now, token, sid, parent);
    IssueEffect(s, c, p, now, token, sid, parent);
    forall subject, tenant ensures |ActiveIds(t, subject, tenant, now)| <= c.cap {
      StillActive(s, r, t, V, now, subject, tenant);
      if r.Owner(subject, tenant) {
        VictimsFacts(Put(s, r), c.cap, p.subject, p.tenantId, now, sid);
        SubsetSize(ActiveIds(t, subject, tenant, now), ActiveIds(Put(s, r), subject, tenant, now) - SetOf(V));
      } else {
        SubsetSize(ActiveIds(t, subject, tenant, now), ActiveIds(s, subject, tenant, now));
      }
    }
  }

  // ---- lineage

  /** Older records keep their generation when the store only grows and ages. */
  lemma LinealIfAges(s: State, t: State, i: nat)
    requires Lineal(s) && WF(t) && Ages(s, t) && i < |s.ids|
    ensures GenerationOk(t, i)
  {
    assert t.ids[..i] == s.ids[..i] && t.ids[i] == s.ids[i];
    assert GenerationOk(s, i);
    var id := s.ids[i];
    assert id in s.byId && Older(s.byId[id], t.byId[id]);
    match s.byId[id].parent {
      case None =>
      case Some(p) =>
        assert p in s.byId && Older(s.byId[p], t.byId[p]);
    }
  }

  lemma LinealIfSameKeys(s: State, t: State)
    requires Lineal(s) && WF(t) && Ages(s, t) && t.ids == s.ids
    ensures Lineal(t)
  {
    forall i | 0 <= i < |t.ids| ensures GenerationOk(t, i) {
      LinealIfAges(s, t, i);
    }
    forall a, b | a in t.byId && b in t.byId && t.byId[a].parent.Some? && t.byId[a].parent == t.byId[b].parent
      ensures a == b
    {
      assert Older(s.byId[a], t.byId[a]) && Older(s.byId[b], t.byId[b]);
    }
  }

  /** Adding one record at the end: a root, or the only child of a revoked one. */
  lemma LinealIfExtended(s: State, t: State, sid: string)
    requires Lineal(s) && WF(t) && Ages(s, t) && t.ids == s.ids + [sid] && sid !in s.byId
    requires GenerationOk(t, |s.ids|)
    requires forall id | id in s.byId && s.byId[id].parent.Some? :: s.byId[id].parent != t.byId[sid].parent
    ensures Lineal(t)
  {
    forall i | 0 <= i < |t.ids| ensures GenerationOk(t, i) {
      if i < |s.ids| {
        LinealIfAges(s, t, i);
      }
    }
    forall a, b | a in t.byId && b in t.byId && t.byId[a].parent.Some? && t.byId[a].parent == t.byId[b].parent
      ensures a == b
    {
      assert a in t.ids && b in t.ids;
      assert a != sid ==> a in s.byId && Older(s.byId[a], t.byId[a]);
      assert b != sid ==> b in s.byId && Older(s.byId[b], t.byId[b]);
    }
  }

  // ---- rotation

  lemma PriorIsActive(s: State, c: Config, token: string, now: int)
    requires Indexed(s) && Lookup(s, c, token, now).Some?
    ensures var prior := Lookup(s, c, token, now).value;
            Revocable(s, prior.sessionId) && s.byId[prior.sessionId] == prior && prior.Active(now)
  {
  }

  lemma TouchKeeps(s: State, c: Config, token: string, now: int, touch: bool)
    requires Indexed(s)
    ensures var t := Authenticate(s, c, token, now, touch);
            && Indexed(t) && Ages(s, t) && t.ids == s.ids && t.byId.Keys == s.byId.Keys && t.log == s.log
            && (forall id | id in s.byId :: t.byId[id].status == s.byId[id].status)
  {
    hide Indexed, Ages;
    if Lookup(s, c, token, now).Some? && touch {
      PriorIsActive(s, c, token, now);
      SeenKeeps(s, s.tokens[c.sha(token)], now);
    } else {
      AgesReflexive(s);
    }
  }

  lemma AgesReflexive(s: State)
    ensures Ages(s, s)
  {
  }

  lemma SeenKeeps(s: State, id: string, now: int)
    requires Indexed(s) && id in s.byId && s.byId[id].status == ACTIVE
    ensures var t := s.(byId := s.byId[id := s.byId[id].(lastSeenAt := now)]);
            Indexed(t) && Ages(s, t) && t.byId.Keys == s.byId.Keys
  {
    hide Distinct;
    var t := s.(byId := s.byId[id := s.byId[id].(lastSeenAt := now)]);
    assert t.byId.Keys == s.byId.Keys;
    assert LiveIndexed(t) && IndexLive(t);
    assert HashesDiffer(t);
  }

  /** What is assumed of the session that a rotation replaces. */
  ghost predicate Replaceable(s: State, c: Config, prior: Record, now: int, token: string, sid: string) {
    && Indexed(s) && FreshDraw(s, c, token, sid)
    && prior.sessionId in s.byId && s.byId[prior.sessionId] == prior && prior.Active(now)
  }

  function Closed(s: State, c: Config, prior: Record, now: int, reason: string): State {
    Revoke(s, prior.sessionId, "rotated:" + reason, now, c.h)
  }

  lemma ClosedKeeps(s: State, c: Config, prior: Record, now: int, reason: string, token: string, sid: string)
    requires Replaceable(s, c, prior, now, token, sid)
    ensures var closed := Closed(s, c, prior, now, reason);
            && Indexed(closed) && Ages(s, closed) && FreshDraw(closed, c, token, sid)
            && closed.ids == s.ids && closed.byId.Keys == s.byId.Keys
            && closed.byId[prior.sessionId].status == REVOKED
            && (forall id | id in s.byId && id != prior.sessionId :: closed.byId[id] == s.byId[id])
  {
    RevokeKeeps(s, prior.sessionId, "rotated:" + reason, now, c.h);
  }

  lemma OneOutOneIn(s: State, t: State, gone: string, r: Record, subject: string, tenant: string, now: int)
    requires t.byId.Keys == s.byId.Keys && gone in ActiveIds(s, subject, tenant, now) && t.byId[gone].status == REVOKED
    requires forall id | id in s.byId && id != gone :: t.byId[id] == s.byId[id]
    ensures |ActiveIds(Put(t, r), subject, tenant, now)| <= |ActiveIds(s, subject, tenant, now)|
  {
    var before := ActiveIds(s, subject, tenant, now);
    var after := ActiveIds(Put(t, r), subject, tenant, now);
    assert after <= before - {gone} + {r.sessionId};
    SubsetSize(after, before - {gone} + {r.sessionId});
  }

  /** Rotating frees the place that the new session takes. */
  lemma RotateHasRoom(s: State, c: Config, prior: Record, now: int, reason: string, token: string, sid: string)
    requires Replaceable(s, c, prior, now, token, sid) && Capped(s, c.cap, now)
    ensures WF(Closed(s, c, prior, now, reason))
    ensures Given(Closed(s, c, prior, now, reason), c, Successor(c, prior, now, token, sid), now) == []
  {
    var closed := Closed(s, c, prior, now, reason);
    var r := Successor(c, prior, now, token, sid);
    var subject, tenant := prior.principal.subject, prior.principal.tenantId;
    ClosedKeeps(s, c, prior, now, reason, token, sid);
    PutWF(closed, r);
    assert |ActiveIds(Put(closed, r), subject, tenant, now)| <= c.cap by {
      OneOutOneIn(s, closed, prior.sessionId, r, subject, tenant, now);
    }
    VictimsFacts(Put(closed, r), c.cap, subject, tenant, now, sid);
  }

  lemma NothingGivenUp(s: State, r: Record, t: State, now: int)
    requires r.sessionId !in s.byId && IssuedInto(s, r, t, [], now)
    ensures t.byId == s.byId[r.sessionId := r]
  {
  }

  lemma ReplaceIssues(s: State, c: Config, prior: Record, now: int, reason: string, token: string, sid: string)
    requires Replaceable(s, c, prior, now, token, sid) && Capped(s, c.cap, now)
    ensures WF(Closed(s, c, prior, now, reason))
    ensures var closed := Closed(s, c, prior, now, reason);
            var r := Successor(c, prior, now, token, sid);
            var renewed := Issue(closed, c, r.principal, now, token, sid, r.parent);
            Indexed(renewed) && Ages(s, renewed) && renewed.ids == s.ids + [sid]
              && renewed.byId == closed.byId[sid := r]
  {
    var closed := Closed(s, c, prior, now, reason);
    var r := Successor(c, prior, now, token, sid);
    ClosedKeeps(s, c, prior, now, reason, token, sid);
    RotateHasRoom(s, c, prior, now, reason, token, sid);
    IssueEffect(closed, c, r.principal, now, token, sid, r.parent);
    var renewed := Issue(closed, c, r.principal, now, token, sid, r.parent);
    AgesTransitive(s, closed, renewed);
    NothingGivenUp(closed, r, renewed, now);
  }

  lemma ReplaceUnfolds(s: State, c: Config, prior: Record, now: int, reason: string, token: string, sid: string)
    requires WF(s)
    ensures WF(Closed(s, c, prior, now, reason))
    ensures var r := Successor(c, prior, now, token, sid);
            var renewed := Issue(Closed(s, c, prior, now, reason), c, r.principal, now, token, sid, r.parent);
            && sid in renewed.byId
            && Replace(s, c, prior, now, reason, token, sid)
               == Promote(renewed, sid, prior.authVersion + 1, RotationNote(prior, r, reason, now), c.h)
  {
    RevokeWF(s, prior.sessionId, "rotated:" + reason, now, c.h);
    var r := Successor(c, prior, now, token, sid);
    IssueWF(Closed(s, c, prior, now, reason), c, r.principal, now, token, sid, r.parent);
  }

  lemma PromoteOverrides(t: State, base: map<string, Record>, r: Record, sid: string, version: int, e: Entry, h: Digest)
    requires t.byId == base[sid := r]
    ensures Promote(t, sid, version, e, h).byId == base[sid := r.(authVersion := version)]
    ensures Promote(t, sid, version, e, h).ids == t.ids
  {
  }

  /** A rotation revokes the presented session, adds its successor, and evicts nobody. */
  lemma ReplaceEffect(s: State, c: Config, prior: Record, now: int, reason: string, token: string, sid: string)
    requires Replaceable(s, c, prior, now, token, sid) && Capped(s, c.cap, now)
    ensures var t := Replace(s, c, prior, now, reason, token, sid);
            && t.ids == s.ids + [sid]
            && t.byId == Closed(s, c, prior, now, reason).byId
                         [sid := Successor(c, prior, now, token, sid).(authVersion := prior.authVersion + 1)]
            && Indexed(t) && Ages(s, t)
  {
    ReplaceIssues(s, c, prior, now, reason, token, sid);
    ReplaceUnfolds(s, c, prior, now, reason, token, sid);
    var r := Successor(c, prior, now, token, sid);
    var renewed := Issue(Closed(s, c, prior, now, reason), c, r.principal, now, token, sid, r.parent);
    PromoteKeeps(s, renewed, sid, prior.authVersion + 1, RotationNote(prior, r, reason, now), c.h);
    PromoteOverrides(renewed, Closed(s, c, prior, now, reason).byId, r, sid, prior.authVersion + 1,
                     RotationNote(prior, r, reason, now), c.h);
  }

  lemma PromoteKeeps(s: State, t: State, sid: string, version: int, e: Entry, h: Digest)
    requires Indexed(t) && Ages(s, t) && sid in t.byId && sid !in s.byId
    ensures Indexed(Promote(t, sid, version, e, h)) && Ages(s, Promote(t, sid, version, e, h))
  {
    var u := Promote(t, sid, version, e, h);
    forall id ensures id in t.byId <==> id in u.byId {}
    forall id | id in t.byId ensures u.byId[id] == t.byId[id].(authVersion := u.byId[id].authVersion) {}
    assert LiveIndexed(u) && IndexLive(u);
    assert HashesDiffer(u);
  }
}
