/** What every run of the session operations keeps: index agreement, an audit trail that
    mirrors the records, the concurrency cap, and linear rotation lineages. */
module SessionLaws {
  import opened IdentityAudit
  import opened Prelude
  import opened SessionModel

  // ---- the invariant

  ghost predicate LiveIndexed(s: State) {
    forall id | id in s.byId && s.byId[id].status == ACTIVE ::
      s.byId[id].tokenHash in s.tokens && s.tokens[s.byId[id].tokenHash] == id
  }

  ghost predicate IndexLive(s: State) {
    forall t | t in s.tokens ::
      s.tokens[t] in s.byId && s.byId[s.tokens[t]].tokenHash == t && s.byId[s.tokens[t]].status == ACTIVE
  }

  ghost predicate HashesDiffer(s: State) {
    forall a, b | a in s.byId && b in s.byId && a != b :: s.byId[a].tokenHash != s.byId[b].tokenHash
  }

  ghost predicate Known(s: State) {
    "" !in s.byId && forall id | id in s.byId :: s.byId[id].status != EXPIRED
  }

  /** The token index holds exactly the hashes of the ACTIVE records. */
  ghost predicate Indexed(s: State) {
    WF(s) && Known(s) && LiveIndexed(s) && IndexLive(s) && HashesDiffer(s)
  }

  function Times(log: Log, kind: string, id: string): nat {
    if log == [] then 0
    else
      var last := log[|log| - 1].body;
      Times(log[..|log| - 1], kind, id) + (if last.eventType == kind && last.sessionId == Some(id) then 1 else 0)
  }

  /** The audit log names every issue once and every revocation once. */
  ghost predicate Mirrored(s: State, h: Digest) {
    && Accepted(s.log, h) && Numbered(s.log)
    && (forall id :: Times(s.log, ISSUED_EVENT, id) == if id in s.byId then 1 else 0)
    && (forall id :: Times(s.log, REVOKED_EVENT, id) == if id in s.byId && s.byId[id].status == REVOKED then 1 else 0)
  }

  ghost function ActiveIds(s: State, subject: string, tenant: string, now: int): set<string> {
    set id | && id in s.byId && s.byId[id].status == ACTIVE && now < s.byId[id].expiresAt
             && s.byId[id].principal.subject == subject && s.byId[id].principal.tenantId == tenant
  }

  ghost predicate Capped(s: State, cap: nat, now: int) {
    forall subject, tenant :: |ActiveIds(s, subject, tenant, now)| <= cap
  }

  /** A rotated session points back to one earlier, revoked session of the same owner, one
      generation lower, and no session is rotated into two. */
  ghost predicate Lineal(s: State) {
    && WF(s)
    && (forall i | 0 <= i < |s.ids| :: GenerationOk(s, i))
    && (forall a, b | a in s.byId && b in s.byId && s.byId[a].parent.Some? && s.byId[a].parent == s.byId[b].parent ::
          a == b)
  }

  ghost predicate GenerationOk(s: State, i: int)
    requires WF(s) && 0 <= i < |s.ids|
  {
    var r := s.byId[s.ids[i]];
    match r.parent
    case None => r.authVersion == 1
    case Some(p) => p in s.ids[..i] && s.byId[p].status == REVOKED && r.authVersion == s.byId[p].authVersion + 1
                    && r.Owner(s.byId[p].principal.subject, s.byId[p].principal.tenantId)
  }

  /** Index agreement, audit trail and cap; the lineage is kept apart because it holds only
      as long as nobody issues a session with a parent of the caller's choice. */
  ghost predicate Inv(s: State, c: Config, clock: int) {
    Indexed(s) && Mirrored(s, c.h) && Capped(s, c.cap, clock)
  }

  /** A newly drawn session id and token were never drawn before. */
  ghost predicate FreshDraw(s: State, c: Config, token: string, sid: string) {
    sid != "" && sid !in s.byId && forall id | id in s.byId :: s.byId[id].tokenHash != c.sha(token)
  }

  ghost predicate Legal(s: State, c: Config, clock: int, call: Call) {
    && clock <= call.now
    && match call.op
       case Login(_, token, sid, _) => FreshDraw(s, c, token, sid)
       case Renew(_, _, token, sid) => FreshDraw(s, c, token, sid)
       case _ => true
  }

  // ---- what a later state may change about a record

  ghost predicate Older(a: Record, b: Record) {
    && b == a.(lastSeenAt := b.lastSeenAt, status := b.status, revokedAt := b.revokedAt, revokeReason := b.revokeReason)
    && (a.status != ACTIVE ==> b == a)
  }

  ghost predicate Ages(s: State, t: State) {
    && s.ids <= t.ids
    && forall id | id in s.byId :: id in t.byId && Older(s.byId[id], t.byId[id])
  }

  // ---- one revocation

  lemma TimesAppended(log: Log, e: Entry, h: Digest, kind: string, id: string)
    ensures Times(Appended(log, e, h), kind, id)
         == Times(log, kind, id) + if e.eventType == kind && e.sessionId == Some(id) then 1 else 0
  {
    var longer := Appended(log, e, h);
    assert longer[..|longer| - 1] == log;
  }

  lemma RevokeKeeps(s: State, id: string, reason: string, now: int, h: Digest)
    requires Indexed(s)
    ensures Indexed(Revoke(s, id, reason, now, h))
    ensures Ages(s, Revoke(s, id, reason, now, h))
  {
    RevokeWF(s, id, reason, now, h);
    RevokeKeepsNames(s, id, reason, now, h);
    RevokeKeepsIndex(s, id, reason, now, h);
    RevokeAges(s, id, reason, now, h);
    hide WF, Known, LiveIndexed, IndexLive, HashesDiffer, Revoke, Ages;
  }

  lemma RevokeKeepsNames(s: State, id: string, reason: string, now: int, h: Digest)
    requires Known(s) && HashesDiffer(s)
    ensures Known(Revoke(s, id, reason, now, h)) && HashesDiffer(Revoke(s, id, reason, now, h))
  {
  }

  lemma RevokeKeepsIndex(s: State, id: string, reason: string, now: int, h: Digest)
    requires LiveIndexed(s) && IndexLive(s) && HashesDiffer(s)
    ensures LiveIndexed(Revoke(s, id, reason, now, h)) && IndexLive(Revoke(s, id, reason, now, h))
  {
    var t := Revoke(s, id, reason, now, h);
    if Revocable(s, id) {
      assert LiveIndexed(t);
      assert IndexLive(t);
    }
  }

  lemma RevokeAges(s: State, id: string, reason: string, now: int, h: Digest)
    ensures Ages(s, Revoke(s, id, reason, now, h))
  {
  }

  lemma RevokeMirrors(s: State, id: string, reason: string, now: int, h: Digest)
    requires Indexed(s) && Accepted(s.log, h) && Numbered(s.log)
    ensures var t := Revoke(s, id, reason, now, h);
            && Accepted(t.log, h) && Numbered(t.log)
            && (forall x :: Times(t.log, ISSUED_EVENT, x) == Times(s.log, ISSUED_EVENT, x))
            && (forall x :: Times(t.log, REVOKED_EVENT, x)
                         == Times(s.log, REVOKED_EVENT, x) + if x == id && Revocable(s, id) then 1 else 0)
  {
    if Revocable(s, id) {
      var e := Note(REVOKED_EVENT, s.byId[id], map["reason" := Text(reason)], now);
      AppendKeepsLog(s.log, e, h);
      forall x, kind ensures Times(Appended(s.log, e, h), kind, x)
                          == Times(s.log, kind, x) + if kind == REVOKED_EVENT && x == id then 1 else 0
      {
        TimesAppended(s.log, e, h, kind, x);
      }
    }
  }

  // ---- many revocations

  lemma RevokeRecords(s: State, id: string, reason: string, now: int, h: Digest)
    ensures var t := Revoke(s, id, reason, now, h);
            && t.ids == s.ids && t.byId.Keys == s.byId.Keys
            && (forall x | x in s.byId ::
                  t.byId[x] == if x == id && s.byId[x].status == ACTIVE
                               then s.byId[x].(status := REVOKED, revokedAt := Some(now), revokeReason := Some(reason))
                               else s.byId[x])
  {
  }

  /** Exactly the listed ACTIVE records are revoked, with this reason and time; all others
      are untouched, and the audit log grows by one event for each. */
  lemma {:induction false} RevokeAllKeeps(s: State, ids: seq<string>, reason: string, now: int, h: Digest)
    requires Indexed(s)
    ensures var t := RevokeAll(s, ids, reason, now, h);
            && Indexed(t) && Ages(s, t) && t.ids == s.ids && t.byId.Keys == s.byId.Keys
            && (forall id | id in s.byId ::
                  t.byId[id] == if id in ids && s.byId[id].status == ACTIVE
                                then s.byId[id].(status := REVOKED, revokedAt := Some(now),
                                                 revokeReason := Some(reason))
                                else s.byId[id])
    decreases |ids|
  {
    hide Indexed, Revoke;
    if ids != [] {
      var u := Revoke(s, ids[0], reason, now, h);
      RevokeKeeps(s, ids[0], reason, now, h);
      RevokeRecords(s, ids[0], reason, now, h);
      RevokeAllKeeps(u, ids[1..], reason, now, h);
      assert ids == [ids[0]] + ids[1..];
    }
  }

  lemma RevocableAfter(s: State, id: string, reason: string, now: int, h: Digest)
    ensures forall x :: Revocable(Revoke(s, id, reason, now, h), x) <==> Revocable(s, x) && x != id
  {
  }

  lemma {:induction false} RevokeAllMirrors(s: State, ids: seq<string>, reason: string, now: int, h: Digest)
    requires Indexed(s) && Accepted(s.log, h) && Numbered(s.log)
    ensures var t := RevokeAll(s, ids, reason, now, h);
            && Accepted(t.log, h) && Numbered(t.log)
            && (forall x :: Times(t.log, ISSUED_EVENT, x) == Times(s.log, ISSUED_EVENT, x))
            && (forall x :: Times(t.log, REVOKED_EVENT, x)
                         == Times(s.log, REVOKED_EVENT, x) + if x in ids && Revocable(s, x) then 1 else 0)
    decreases |ids|
  {
    hide Revoke, Indexed, Accepted, Numbered, Times;
    if ids != [] {
      var u := Revoke(s, ids[0], reason, now, h);
      RevokeKeeps(s, ids[0], reason, now, h);
      RevokeMirrors(s, ids[0], reason, now, h);
      RevokeAllMirrors(u, ids[1..], reason, now, h);
      RevocableAfter(s, ids[0], reason, now, h);
      assert ids == [ids[0]] + ids[1..];
    }
  }

  ghost function StatusChanges(s: State, t: State): set<string> {
    set id | id in s.byId && id in t.byId && s.byId[id].status != t.byId[id].status
  }

  lemma RevokeChanges(s: State, id: string, reason: string, now: int, h: Digest)
    requires Indexed(s)
    ensures var t := Revoke(s, id, reason, now, h);
            && StatusChanges(s, t) == (if Revocable(s, id) then {id} else {})
            && |t.log| == |s.log| + (if Revocable(s, id) then 1 else 0)
            && s.log <= t.log
  {
  }

  lemma ChangesCompose(s: State, u: State, t: State)
    requires Indexed(s) && Indexed(u) && Indexed(t) && Ages(s, u) && Ages(u, t)
    requires s.byId.Keys == u.byId.Keys
    ensures StatusChanges(s, t) == StatusChanges(s, u) + StatusChanges(u, t)
    ensures StatusChanges(s, u) !! StatusChanges(u, t)
  {
    hide Indexed;
    forall x | x in s.byId
      ensures x in StatusChanges(s, t) <==> x in StatusChanges(s, u) || x in StatusChanges(u, t)
      ensures x !in StatusChanges(s, u) || x !in StatusChanges(u, t)
    {
      assert Older(s.byId[x], u.byId[x]) && Older(u.byId[x], t.byId[x]);
    }
  }

  lemma {:induction false} RevokeAllExtendsLog(s: State, ids: seq<string>, reason: string, now: int, h: Digest)
    ensures s.log <= RevokeAll(s, ids, reason, now, h).log
    ensures RevokeCount(s, ids, reason, now, h) == |RevokeAll(s, ids, reason, now, h).log| - |s.log|
    decreases |ids|
  {
    if ids != [] {
      RevokeAllExtendsLog(Revoke(s, ids[0], reason, now, h), ids[1..], reason, now, h);
    }
  }

  lemma RevokeKeys(s: State, id: string, reason: string, now: int, h: Digest)
    ensures Revoke(s, id, reason, now, h).byId.Keys == s.byId.Keys
  {
  }

  lemma {:induction false} RevokeCountIsChanges(s: State, ids: seq<string>, reason: string, now: int, h: Digest)
    requires Indexed(s)
    ensures RevokeCount(s, ids, reason, now, h) == |StatusChanges(s, RevokeAll(s, ids, reason, now, h))|
    decreases |ids|
  {
    var t := RevokeAll(s, ids, reason, now, h);
    if ids == [] {
      assert StatusChanges(s, t) == {};
    } else {
      hide Indexed, Ages, StatusChanges, Revoke;
      var u := Revoke(s, ids[0], reason, now, h);
      RevokeKeeps(s, ids[0], reason, now, h);
      RevokeChanges(s, ids[0], reason, now, h);
      RevokeCountIsChanges(u, ids[1..], reason, now, h);
      RevokeAllKeeps(u, ids[1..], reason, now, h);
      RevokeKeys(s, ids[0], reason, now, h);
      ChangesCompose(s, u, t);
    }
  }

  /** The returned count is the number of records that change status, and the number of
      audit events written; listing an id twice or a revoked one adds nothing. */
  lemma RevokeCountIsExact(s: State, ids: seq<string>, reason: string, now: int, h: Digest)
    requires Indexed(s)
    ensures var t := RevokeAll(s, ids, reason, now, h);
            && RevokeCount(s, ids, reason, now, h) == |StatusChanges(s, t)| == |t.log| - |s.log|
            && s.log <= t.log
  {
    RevokeAllExtendsLog(s, ids, reason, now, h);
    RevokeCountIsChanges(s, ids, reason, now, h);
  }
}
