/** The session store and manager in the program's own form: records and indexes updated
    in place. Every method is tied to its function in SessionModel. */
module SessionManagement {
  import opened IdentityAudit
  import opened Ordering
  import opened Prelude
  import opened SessionModel
  import opened SessionLaws
  import opened SessionEviction
  import opened SessionRuns

  class SessionRecord {
    const sessionId: string
    const tokenHash: string
    const principal: Principal
    const issuedAt: int
    const expiresAt: int
    const permissionVersion: int
    const parent: Option<string>
    var lastSeenAt: int
    var authVersion: int
    var status: Status
    var revokedAt: Option<int>
    var revokeReason: Option<string>

    constructor (r: Record)
      ensures View() == r && sessionId == r.sessionId && tokenHash == r.tokenHash && principal == r.principal
    {
      sessionId := r.sessionId;
      tokenHash := r.tokenHash;
      principal := r.principal;
      issuedAt := r.issuedAt;
      expiresAt := r.expiresAt;
      permissionVersion := r.permissionVersion;
      parent := r.parent;
      lastSeenAt := r.lastSeenAt;
      authVersion := r.authVersion;
      status := r.status;
      revokedAt := r.revokedAt;
      revokeReason := r.revokeReason;
    }

    function View(): Record
      reads this
    {
      Record(sessionId, tokenHash, principal, issuedAt, expiresAt, lastSeenAt, authVersion, permissionVersion,
             status, revokedAt, revokeReason, parent)
    }
  }

  class SessionStore {
    var ids: seq<string>
    var byId: map<string, SessionRecord>
    var tokens: map<string, string>

    ghost predicate Valid()
      reads this
    {
      && Distinct(ids)
      && (forall id :: id in ids <==> id in byId)
      && (forall id | id in byId :: byId[id].sessionId == id)
    }

    ghost function Values(): map<string, Record>
      reads this, byId.Values
    {
      map id | id in byId :: byId[id].View()
    }

    constructor ()
      ensures Valid() && ids == [] && byId == map[] && tokens == map[]
    {
      ids, byId, tokens := [], map[], map[];
    }

    method Put(record: SessionRecord)
      requires Valid()
      modifies this
      ensures Valid()
      ensures ids == if record.sessionId in old(byId) then old(ids) else old(ids) + [record.sessionId]
      ensures byId == old(byId)[record.sessionId := record]
      ensures tokens == old(tokens)[record.tokenHash := record.sessionId]
    {
      if record.sessionId !in byId {
        ids := ids + [record.sessionId];
      }
      byId := byId[record.sessionId := record];
      tokens := tokens[record.tokenHash := record.sessionId];
    }

    function ById(id: string): (r: SessionRecord?)
      reads this
      ensures r != null <==> id in byId
      ensures r != null ==> r == byId[id]
    {
      if id in byId then byId[id] else null
    }

    method RemoveToken(tokenHash: string)
      modifies `tokens
      ensures tokens == old(tokens) - {tokenHash}
    {
      tokens := tokens - {tokenHash};
    }

    /** `all()`: the records in insertion order, as they stand. */
    method All() returns (rs: seq<SessionRecord>)
      requires Valid()
      ensures |rs| == |ids| && forall i | 0 <= i < |rs| :: rs[i] == byId[ids[i]]
    {
      rs := [];
      for i := 0 to |ids|
        invariant |rs| == i && forall k | 0 <= k < i :: rs[k] == byId[ids[k]]
      {
        rs := rs + [byId[ids[i]]];
      }
    }
  }

  class SessionManager {
    const store: SessionStore
    const audit: IdentityAuditLog
    const config: Config

    /** Structural consistency; that the token index agrees with the records is
        `Indexed(View())`, which every operation keeps (SessionTheorems). */
    ghost predicate Valid()
      reads store, audit
    {
      store.Valid() && audit.Valid() && audit.h == config.h
    }

    ghost function View(): State
      reads store, store.byId.Values, audit
    {
      State(store.ids, store.Values(), store.tokens, audit.events)
    }

    constructor (audit: IdentityAuditLog, config: Config)
      requires audit.Valid() && audit.h == config.h
      ensures Valid() && fresh(store) && this.audit == audit && this.config == config
      ensures View() == Empty().(log := audit.events)
    {
      this.audit := audit;
      this.config := config;
      this.store := new SessionStore();
    }

    method Issue(p: Principal, now: int, token: string, sid: string, parent: Option<string>)
      returns (record: SessionRecord)
      requires Valid() && Indexed(View()) && FreshDraw(View(), config, token, sid)
      modifies store, store.byId.Values, audit
      ensures Valid() && fresh(store.byId.Values - old(store.byId.Values))
      ensures fresh(record) && sid in store.byId && store.byId[sid] == record && record.principal == p
      ensures View() == SessionModel.Issue(old(View()), config, p, now, token, sid, parent)
    {
      hide Settled, Put, SessionModel.Issue, Indexed, WF, FreshDraw, Distinct, Accepted, Numbered, Appended;
      ghost var s := View();
      var r := NewRecord(config, p, now, token, sid, parent);
      IssueUnfolds(s, config, p, now, token, sid, parent);
      record := StoreCapped(r, now);
      audit.Append(Note(ISSUED_EVENT, r, map[], now));
    }

    /** Stores the record and evicts down to the cap. */
    method StoreCapped(r: Record, now: int) returns (record: SessionRecord)
      requires Valid() && r.sessionId !in store.byId && Indexed(SessionModel.Put(View(), r))
      modifies store, store.byId.Values, audit
      ensures Valid() && fresh(store.byId.Values - old(store.byId.Values))
      ensures fresh(record) && r.sessionId in store.byId && store.byId[r.sessionId] == record
              && record.principal == r.principal
      ensures View() == Settled(SessionModel.Put(old(View()), r), config.cap, r.principal.subject, r.principal.tenantId,
                                now, r.sessionId, config.h)
    {
      hide Settled, SessionModel.Put, Indexed, Distinct, Accepted, Numbered;
      record := StoreNew(r);
      EnforceConcurrency(r.principal.subject, r.principal.tenantId, now, r.sessionId);
    }

    method StoreNew(r: Record) returns (record: SessionRecord)
      requires Valid() && r.sessionId !in store.byId
      modifies store
      ensures Valid() && fresh(record) && record.principal == r.principal
      ensures store.byId == old(store.byId)[r.sessionId := record]
      ensures View() == SessionModel.Put(old(View()), r)
    {
      hide SessionModel.Put, Distinct, Accepted, Numbered;
      ghost var s := View();
      record := new SessionRecord(r);
      store.Put(record);
      StoredView(s, r, record);
    }

    lemma StoredView(s: State, r: Record, record: SessionRecord)
      requires store.Valid() && r.sessionId !in s.byId && record.View() == r
      requires store.byId.Keys == s.byId.Keys + {r.sessionId} && store.byId[r.sessionId] == record
      requires forall id | id in s.byId :: store.byId[id].View() == s.byId[id]
      requires store.ids == s.ids + [r.sessionId] && store.tokens == s.tokens[r.tokenHash := r.sessionId]
               && s.log == audit.events
      ensures View() == SessionModel.Put(s, r)
    {
    }

    /** The record behind a live token, touched unless told otherwise; null for an error. */
    method Authenticate(token: string, now: int, touch: bool) returns (record: SessionRecord?)
      requires Valid()
      modifies store.byId.Values
      ensures Valid()
      ensures View() == SessionModel.Authenticate(old(View()), config, token, now, touch)
      ensures record == null <==> Lookup(old(View()), config, token, now).None?
      ensures record != null ==> record.sessionId in store.byId && store.byId[record.sessionId] == record
      ensures record != null ==> old(record.View()) == Lookup(old(View()), config, token, now).value
    {
      var hash := config.sha(token);
      if hash !in store.tokens || store.tokens[hash] == "" {
        return null;
      }
      var found := store.ById(store.tokens[hash]);
      if found == null || !found.View().Active(now) {
        return null;
      }
      ghost var s := View();
      if touch {
        found.lastSeenAt := now;
        TouchedView(s, found);
      }
      return found;
    }

    lemma TouchedView(s: State, found: SessionRecord)
      requires store.Valid() && found.sessionId in store.byId && store.byId[found.sessionId] == found
      requires s.byId.Keys == store.byId.Keys && s.ids == store.ids && s.tokens == store.tokens && s.log == audit.events
      requires forall id | id in store.byId && id != found.sessionId :: store.byId[id].View() == s.byId[id]
      ensures View() == s.(byId := s.byId[found.sessionId := found.View()])
    {
    }

    method Rotate(token: string, now: int, reason: string, newToken: string, sid: string)
      returns (record: SessionRecord?)
      requires Valid() && Indexed(View()) && FreshDraw(View(), config, newToken, sid)
      modifies store, store.byId.Values, audit
      ensures Valid() && fresh(store.byId.Values - old(store.byId.Values))
      ensures View() == SessionModel.Rotate(old(View()), config, token, now, reason, newToken, sid)
      ensures record == null <==> Lookup(old(View()), config, token, now).None?
      ensures record != null ==> sid in store.byId && store.byId[sid] == record
    {
      hide Replace;
      var found := Authenticate(token, now, false);
      if found == null {
        return null;
      }
      record := ReplaceStored(found, now, reason, newToken, sid);
    }

    /** The part of `rotate` after the old token has been accepted. */
    method ReplaceStored(found: SessionRecord, now: int, reason: string, token: string, sid: string)
      returns (record: SessionRecord)
      requires Valid() && found.sessionId in store.byId && store.byId[found.sessionId] == found
      requires Replaceable(View(), config, found.View(), now, token, sid)
      modifies store, store.byId.Values, audit
      ensures Valid() && fresh(store.byId.Values - old(store.byId.Values))
      ensures View() == Replace(old(View()), config, old(found.View()), now, reason, token, sid)
      ensures sid in store.byId && store.byId[sid] == record
    {
      hide Revoke, Replace, SessionModel.Issue, Indexed, WF, Promote;
      ghost var s, prior := View(), found.View();
      ReplaceUnfolds(s, config, prior, now, reason, token, sid);
      var version := found.authVersion + 1;
      record := CloseAndIssue(found, now, reason, token, sid);
      PromoteStored(record, version, Note(ROTATED_EVENT, record.View(),
                                          map["replaced_session_id" := Text(found.sessionId), "reason" := Text(reason)],
                                            now));
    }

    method CloseAndIssue(found: SessionRecord, now: int, reason: string, token: string, sid: string)
      returns (record: SessionRecord)
      requires Valid() && found.sessionId in store.byId && store.byId[found.sessionId] == found
      requires Replaceable(View(), config, found.View(), now, token, sid)
      modifies store, store.byId.Values, audit
      ensures Valid() && fresh(store.byId.Values - old(store.byId.Values))
      ensures var r := Successor(config, old(found.View()), now, token, sid);
              && WF(Closed(old(View()), config, old(found.View()), now, reason))
              && View() == SessionModel.Issue(Closed(old(View()), config, old(found.View()), now, reason),
                                              config, r.principal, now, token, sid, r.parent)
              && record.principal == r.principal
      ensures sid in store.byId && store.byId[sid] == record
    {
      hide Revoke, SessionModel.Issue, Indexed, WF, Distinct;
      ghost var s, prior := View(), found.View();
      ClosedKeeps(s, config, prior, now, reason, token, sid);
      var principal := found.principal.(authTime := now);
      var closed := RevokeById(found.sessionId, "rotated:" + reason, now);
      record := Issue(principal, now, token, sid, Some(found.sessionId));
    }

    method PromoteStored(record: SessionRecord, version: int, e: Entry)
      requires Valid() && record.sessionId in store.byId && store.byId[record.sessionId] == record
      modifies record, audit
      ensures Valid()
      ensures View() == Promote(old(View()), record.sessionId, version, e, config.h)
    {
      hide Distinct, Accepted, Numbered, Appended;
      SetVersion(record, version);
      audit.Append(e);
    }

    method SetVersion(record: SessionRecord, version: int)
      requires Valid() && record.sessionId in store.byId && store.byId[record.sessionId] == record
      modifies record
      ensures Valid()
      ensures var s := old(View());
              View() == s.(byId := s.byId[record.sessionId := s.byId[record.sessionId].(authVersion := version)])
    {
      hide Distinct, Accepted, Numbered;
      ghost var s := View();
      record.authVersion := version;
      TouchedView(s, record);
    }

    method RevokeById(id: string, reason: string, now: int) returns (revoked: bool)
      requires Valid()
      modifies store`tokens, store.byId.Values, audit
      ensures Valid()
      ensures View() == Revoke(old(View()), id, reason, now, config.h)
      ensures revoked == Revocable(old(View()), id)
    {
      hide Distinct, Accepted, Numbered;
      var record := store.ById(id);
      if record == null || record.status != ACTIVE {
        return false;
      }
      RevokeStored(record, reason, now);
      return true;
    }

    method RevokeStored(record: SessionRecord, reason: string, now: int)
      requires Valid() && record.sessionId in store.byId && store.byId[record.sessionId] == record
      requires record.status == ACTIVE
      modifies store`tokens, record, audit
      ensures Valid()
      ensures View() == Revoke(old(View()), record.sessionId, reason, now, config.h)
    {
      hide Distinct, Accepted, Numbered, Appended, Revoke, Note;
      RevokeParts(View(), record.sessionId, reason, now, config.h);
      ghost var before := record.View();
      CloseRecord(record, reason, now);
      SameNote(before, record.View(), reason, now);
      audit.Append(Note(REVOKED_EVENT, record.View(), map["reason" := Text(reason)], now));
    }

    lemma RevokeParts(s: State, id: string, reason: string, now: int, h: Digest)
      requires Revocable(s, id)
      ensures var r := s.byId[id];
              Revoke(s, id, reason, now, h)
              == s.(byId := s.byId[id := r.(status := REVOKED, revokedAt := Some(now), revokeReason := Some(reason))],
                    tokens := s.tokens - {r.tokenHash},
                    log := Appended(s.log, Note(REVOKED_EVENT, r, map["reason" := Text(reason)], now), h))
    {
    }

    lemma SameNote(a: Record, b: Record, reason: string, now: int)
      requires a.principal == b.principal && a.sessionId == b.sessionId
      ensures Note(REVOKED_EVENT, a, map["reason" := Text(reason)], now)
              == Note(REVOKED_EVENT, b, map["reason" := Text(reason)], now)
    {
    }

    method CloseRecord(record: SessionRecord, reason: string, now: int)
      requires Valid() && record.sessionId in store.byId && store.byId[record.sessionId] == record
      modifies store`tokens, record
      ensures Valid()
      ensures var s := old(View());
              var r := s.byId[record.sessionId].(status := REVOKED, revokedAt := Some(now),
                                                 revokeReason := Some(reason));
              View() == s.(byId := s.byId[record.sessionId := r], tokens := s.tokens - {r.tokenHash})
                && record.View() == r
    {
      hide Distinct, Accepted, Numbered;
      MarkRevoked(record, reason, now);
      DropToken(record.tokenHash);
    }

    method MarkRevoked(record: SessionRecord, reason: string, now: int)
      requires Valid() && record.sessionId in store.byId && store.byId[record.sessionId] == record
      modifies record
      ensures Valid()
      ensures var s := old(View());
              var r := s.byId[record.sessionId].(status := REVOKED, revokedAt := Some(now),
                                                 revokeReason := Some(reason));
              View() == s.(byId := s.byId[record.sessionId := r]) && record.View() == r
    {
      hide Distinct, Accepted, Numbered;
      ghost var s := View();
      record.status := REVOKED;
      record.revokedAt := Some(now);
      record.revokeReason := Some(reason);
      TouchedView(s, record);
    }

    method DropToken(tokenHash: string)
      requires Valid()
      modifies store`tokens
      ensures Valid() && View() == old(View()).(tokens := old(View()).tokens - {tokenHash})
    {
      store.RemoveToken(tokenHash);
    }

    /** The stored records as they stand, for a list of snapshots. */
    ghost predicate Shows(active: seq<SessionRecord>, views: seq<Record>)
      reads store, active
    {
      && |active| == |views|
      && forall i | 0 <= i < |active| ::
           active[i].View() == views[i] && active[i].sessionId in store.byId
             && store.byId[active[i].sessionId] == active[i]
    }

    /** `active_for_subject`: the record objects, in key order. */
    method ActiveForSubject(subject: string, tenant: string, now: int) returns (active: seq<SessionRecord>)
      requires Valid()
      ensures Shows(active, ActiveFor(View(), subject, tenant, now))
    {
      hide ActiveFor, Keyed, Sorted, Distinct;
      var rs := store.All();
      var records := Snapshots(rs);
      assert records == Records(View());
      var views := SortedActive(records, subject, tenant, now);
      ActiveForLists(View(), subject, tenant, now);
      active := [];
      for k := 0 to |views|
        invariant Shows(active, views[..k])
      {
        assert views[k] in views && IsActive(View(), subject, tenant, now, views[k]);
        active := active + [store.byId[views[k].sessionId]];
      }
      assert views[..|views|] == views;
    }

    method SortedActive(records: seq<Record>, subject: string, tenant: string, now: int) returns (views: seq<Record>)
      requires Valid() && records == Records(View())
      ensures views == ActiveFor(View(), subject, tenant, now)
    {
      views := SortBy(Filter(records, ActiveOf(subject, tenant, now)), RecordLe);
    }

    function Snapshots(rs: seq<SessionRecord>): seq<Record>
      reads rs
    {
      seq(|rs|, i requires 0 <= i < |rs| reads rs => rs[i].View())
    }

    /** One reading of the active list: its length, and the first session on it that is not to
        be kept, or the first of all. */
    method NextVictim(subject: string, tenant: string, now: int, keep: string) returns (count: nat, victim: string)
      requires Valid()
      ensures count == |ActiveFor(View(), subject, tenant, now)|
      ensures count > 0 ==> Due(View(), subject, tenant, now, keep, victim)
    {
      hide ActiveFor;
      var active := ActiveForSubject(subject, tenant, now);
      assert Snapshots(active) == ActiveFor(View(), subject, tenant, now);
      return |active|, if active == [] then "" else Victim(Snapshots(active), keep).sessionId;
    }

    /** One round of the eviction loop, up to the next reading of the active list. */
    method Evict(subject: string, tenant: string, now: int, keep: string, victim: string)
      returns (count: nat, next: string)
      requires Valid()
      modifies store`tokens, store.byId.Values, audit
      ensures Valid()
      ensures View() == Revoke(old(View()), victim, LIMIT_REASON, now, config.h)
      ensures count == |ActiveFor(View(), subject, tenant, now)|
      ensures count > 0 ==> Due(View(), subject, tenant, now, keep, next)
    {
      hide Due, Revoke, ActiveFor, Distinct, Accepted, Numbered;
      var revoked := RevokeById(victim, LIMIT_REASON, now);
      count, next := NextVictim(subject, tenant, now, keep);
    }

    method EnforceConcurrency(subject: string, tenant: string, now: int, keep: string)
      requires Valid() && Indexed(View())
      modifies store`tokens, store.byId.Values, audit
      ensures Valid()
      ensures View() == Settled(old(View()), config.cap, subject, tenant, now, keep, config.h)
    {
      hide Underway, Due, Settled, Revoke, Indexed, ActiveFor, Distinct, Accepted, Numbered;
      ghost var goal := Settled(View(), config.cap, subject, tenant, now, keep, config.h);
      var count: nat, victim := NextVictim(subject, tenant, now, keep);
      UnderwayStarts(View(), config, subject, tenant, now, keep);
      while count > config.cap
        invariant Valid() && count == |ActiveFor(View(), subject, tenant, now)|
        invariant Underway(View(), config, subject, tenant, now, keep, goal)
        invariant count > 0 ==> Due(View(), subject, tenant, now, keep, victim)
        decreases count
      {
        ghost var s, evicted := View(), victim;
        count, victim := Evict(subject, tenant, now, keep, victim);
        UnderwayNext(s, config, subject, tenant, now, keep, evicted, View(), goal);
      }
      UnderwayEnds(View(), config, subject, tenant, now, keep, goal);
    }

    /** The loop shared by the two bulk revocations; `hit` looks at the principal only. */
    method RevokeWhere(hit: Record -> bool, reason: string, now: int) returns (count: nat)
      requires Valid()
      requires forall a: Record, b: Record :: a.principal == b.principal ==> hit(a) == hit(b)
      modifies store`tokens, store.byId.Values, audit
      ensures Valid()
      ensures View() == RevokeAll(old(View()), Matching(old(View()), hit), reason, now, config.h)
      ensures count == RevokeCount(old(View()), Matching(old(View()), hit), reason, now, config.h)
    {
      hide RevokeAll, RevokeCount, BulkUnderway, Distinct, Accepted, Numbered;
      var rs := store.All();
      ghost var records := Records(View());
      ghost var goal, total := BulkStarts(View(), hit, reason, now, config.h);
      assert records[0..] == records;
      count := 0;
      for i := 0 to |rs|
        invariant Valid() && store.byId == old(store.byId)
        invariant BulkUnderway(View(), records[i..], hit, reason, now, config.h, count, goal, total)
      {
        assert records[i].principal == rs[i].principal && records[i].sessionId == rs[i].sessionId;
        count := RevokeNext(rs[i], hit, reason, now, records, i, count, goal, total);
      }
      BulkEnds(View(), records[|rs|..], hit, reason, now, config.h, count, goal, total);
    }

    method RevokeNext(record: SessionRecord, hit: Record -> bool, reason: string, now: int, ghost records: seq<Record>,
                      ghost i: nat, count: nat, ghost goal: State, ghost total: nat)
      returns (more: nat)
      requires Valid() && i < |records| && record.principal == records[i].principal
               && record.sessionId == records[i].sessionId
      requires forall a: Record, b: Record :: a.principal == b.principal ==> hit(a) == hit(b)
      requires BulkUnderway(View(), records[i..], hit, reason, now, config.h, count, goal, total)
      modifies store`tokens, store.byId.Values, audit
      ensures Valid() && store.byId == old(store.byId)
      ensures BulkUnderway(View(), records[i + 1..], hit, reason, now, config.h, more, goal, total)
    {
      hide Revoke, BulkUnderway, Revocable, Distinct, Accepted, Numbered;
      BulkNext(View(), records, i, hit, reason, now, config.h, count, goal, total);
      more := count;
      if hit(record.View()) {
        var revoked := RevokeById(record.sessionId, reason, now);
        more := count + if revoked then 1 else 0;
      }
    }

    method RevokeSubject(subject: string, tenant: string, reason: string, now: int) returns (count: nat)
      requires Valid()
      modifies store`tokens, store.byId.Values, audit
      ensures Valid()
      ensures View() == SessionModel.RevokeSubject(old(View()), config, subject, tenant, reason, now)
      ensures CountsChanges(count, old(View()), View())
    {
      ghost var s := View();
      count := RevokeWhere(OwnedBy(subject, tenant), reason, now);
      CountIsExact(s, Matching(s, OwnedBy(subject, tenant)), reason, now, config.h);
    }

    method RevokeOidcSid(oidcSid: string, reason: string, now: int) returns (count: nat)
      requires Valid()
      modifies store`tokens, store.byId.Values, audit
      ensures Valid()
      ensures View() == SessionModel.RevokeOidcSid(old(View()), config, oidcSid, reason, now)
      ensures CountsChanges(count, old(View()), View())
    {
      ghost var s := View();
      count := RevokeWhere(FromProvider(oidcSid), reason, now);
      CountIsExact(s, Matching(s, FromProvider(oidcSid)), reason, now, config.h);
    }
  }

  /** The session that the next round of the eviction loop gives up. */
  ghost predicate Due(s: State, subject: string, tenant: string, now: int, keep: string, victim: string)
    requires WF(s)
  {
    var active := ActiveFor(s, subject, tenant, now);
    active != [] && victim == Victim(active, keep).sessionId
  }

  /** Between two rounds of the eviction loop the outcome is still the goal. */
  ghost predicate Underway(s: State, c: Config, subject: string, tenant: string, now: int, keep: string, goal: State) {
    Indexed(s) && Settled(s, c.cap, subject, tenant, now, keep, c.h) == goal
  }

  lemma UnderwayStarts(s: State, c: Config, subject: string, tenant: string, now: int, keep: string)
    requires Indexed(s)
    ensures Underway(s, c, subject, tenant, now, keep, Settled(s, c.cap, subject, tenant, now, keep, c.h))
  {
  }

  lemma UnderwayNext(s: State, c: Config, subject: string, tenant: string, now: int, keep: string, victim: string,
                     t: State, goal: State)
    requires Underway(s, c, subject, tenant, now, keep, goal) && |ActiveFor(s, subject, tenant, now)| > c.cap
    requires Due(s, subject, tenant, now, keep, victim) && t == Revoke(s, victim, LIMIT_REASON, now, c.h)
    ensures Underway(t, c, subject, tenant, now, keep, goal)
    ensures |ActiveFor(t, subject, tenant, now)| == |ActiveFor(s, subject, tenant, now)| - 1
  {
    hide Settled, Revoke, ActiveFor, Victim, Distinct, Known, LiveIndexed, IndexLive, HashesDiffer;
    LoopRound(s, c.cap, subject, tenant, now, keep, c.h, victim, t);
  }

  lemma UnderwayEnds(s: State, c: Config, subject: string, tenant: string, now: int, keep: string, goal: State)
    requires Underway(s, c, subject, tenant, now, keep, goal) && |ActiveFor(s, subject, tenant, now)| <= c.cap
    ensures s == goal
  {
    hide ActiveFor, Settled, Distinct;
    LoopEnd(s, c.cap, subject, tenant, now, keep, c.h);
  }

  /** The returned count is the number of status changes and of events written, provided
      the index agreed with the records. */
  ghost predicate CountsChanges(count: nat, s: State, t: State) {
    Indexed(s) ==> count == |StatusChanges(s, t)| && count == |t.log| - |s.log|
  }

  lemma CountIsExact(s: State, ids: seq<string>, reason: string, now: int, h: Digest)
    ensures CountsChanges(RevokeCount(s, ids, reason, now, h), s, RevokeAll(s, ids, reason, now, h))
  {
    if Indexed(s) {
      RevokeCountIsExact(s, ids, reason, now, h);
    }
  }

  /** Within a bulk revocation: revoking the hits among the records still to be looked at
      leads to the goal, and their count completes the total. */
  ghost predicate BulkUnderway(s: State, left: seq<Record>, hit: Record -> bool, reason: string, now: int, h: Digest,
                               count: nat, goal: State, total: nat)
  {
    var due := IdsOf(Filter(left, hit));
    RevokeAll(s, due, reason, now, h) == goal && count + RevokeCount(s, due, reason, now, h) == total
  }

  lemma BulkStarts(s: State, hit: Record -> bool, reason: string, now: int, h: Digest) returns (goal: State, total: nat)
    requires WF(s)
    ensures goal == RevokeAll(s, Matching(s, hit), reason, now, h)
            && total == RevokeCount(s, Matching(s, hit), reason, now, h)
    ensures BulkUnderway(s, Records(s), hit, reason, now, h, 0, goal, total)
  {
    goal, total := RevokeAll(s, Matching(s, hit), reason, now, h), RevokeCount(s, Matching(s, hit), reason, now, h);
  }

  lemma BulkNext(s: State, records: seq<Record>, i: nat, hit: Record -> bool, reason: string, now: int, h: Digest,
                 count: nat, goal: State, total: nat)
    requires i < |records| && BulkUnderway(s, records[i..], hit, reason, now, h, count, goal, total)
    ensures var rest, id := records[i + 1..], records[i].sessionId;
            if hit(records[i])
            then BulkUnderway(Revoke(s, id, reason, now, h), rest, hit, reason, now, h,
                              count + if Revocable(s, id) then 1 else 0, goal, total)
            else BulkUnderway(s, rest, hit, reason, now, h, count, goal, total)
  {
    hide Revoke, Revocable;
    assert records[i..][1..] == records[i + 1..];
    if hit(records[i]) {
      HeadOfFilter(records[i..], hit);
    }
  }

  lemma BulkEnds(s: State, left: seq<Record>, hit: Record -> bool, reason: string, now: int, h: Digest, count: nat,
                 goal: State, total: nat)
    requires left == [] && BulkUnderway(s, left, hit, reason, now, h, count, goal, total)
    ensures s == goal && count == total
  {
  }

  lemma HeadOfFilter(rs: seq<Record>, p: Record -> bool)
    requires rs != [] && p(rs[0])
    ensures IdsOf(Filter(rs, p)) == [rs[0].sessionId] + IdsOf(Filter(rs[1..], p))
  {
  }
}
