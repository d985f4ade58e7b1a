/** The identity sessions as values: what each operation of the session manager does to
    the store and to the audit log. The classes in SessionManager refine these functions. */
module SessionModel {
  import opened IdentityAudit
  import opened Ordering
  import opened Prelude

  datatype Role = Viewer | ServiceDesk | SeniorEngineer | Approver | TenantAdmin | PlatformAdmin

  datatype Principal = Principal(
    userId: string,
    tenantId: string,
    subject: string,
    roles: set<Role>,
    capabilities: set<string>,
    authTime: int,
    acr: Option<string>,
    oidcSid: Option<string>,
    permissionVersion: int)

  datatype Status = ACTIVE | REVOKED | EXPIRED

  datatype Record = Record(
    sessionId: string,
    tokenHash: string,
    principal: Principal,
    issuedAt: int,
    expiresAt: int,
    lastSeenAt: int,
    authVersion: int,
    permissionVersion: int,
    status: Status,
    revokedAt: Option<int>,
    revokeReason: Option<string>,
    parent: Option<string>)
  {
    predicate Active(now: int) {
      status == ACTIVE && expiresAt > now
    }

    predicate Owner(subject: string, tenant: string) {
      principal.subject == subject && principal.tenantId == tenant
    }
  }

  /** The digest of session tokens, the digest of audit bodies and the manager's limits. */
  datatype Config = Config(sha: string -> string, h: Digest, ttl: int, cap: nat)

  /** `ids` is the insertion order of the record dictionary. */
  datatype State = State(ids: seq<string>, byId: map<string, Record>, tokens: map<string, string>, log: Log)

  ghost predicate WF(s: State) {
    && Distinct(s.ids)
    && (forall id :: id in s.ids <==> id in s.byId)
    && (forall id | id in s.byId :: s.byId[id].sessionId == id)
  }

  function Empty(): State {
    State([], map[], map[], [])
  }

  function Records(s: State): seq<Record>
    requires WF(s)
  {
    seq(|s.ids|, i requires 0 <= i < |s.ids| => s.byId[s.ids[i]])
  }

  function IdsOf(rs: seq<Record>): seq<string> {
    seq(|rs|, i requires 0 <= i < |rs| => rs[i].sessionId)
  }

  /** The session list's sort key: last seen, then issued, then id. */
  predicate RecordLe(a: Record, b: Record) {
    a.lastSeenAt < b.lastSeenAt
    || (a.lastSeenAt == b.lastSeenAt
        && (a.issuedAt < b.issuedAt
            || (a.issuedAt == b.issuedAt && StrLe(a.sessionId, b.sessionId))))
  }

  function ActiveOf(subject: string, tenant: string, now: int): Record -> bool {
    (r: Record) => r.Owner(subject, tenant) && r.Active(now)
  }

  function NotId(id: string): Record -> bool {
    (r: Record) => r.sessionId != id
  }

  function IsId(id: string): Record -> bool {
    (r: Record) => r.sessionId == id
  }

  function OwnedBy(subject: string, tenant: string): Record -> bool {
    (r: Record) => r.Owner(subject, tenant)
  }

  function FromProvider(sid: string): Record -> bool {
    (r: Record) => r.principal.oidcSid == Some(sid)
  }

  function ActiveFor(s: State, subject: string, tenant: string, now: int): seq<Record>
    requires WF(s)
  {
    SortBy(Filter(Records(s), ActiveOf(subject, tenant, now)), RecordLe)
  }

  // ---- audit entries

  function Note(kind: string, r: Record, details: map<string, Detail>, now: int): Entry {
    Entry(now, kind, Some(r.principal.subject), Some(r.principal.tenantId), Some(r.sessionId), "success", details)
  }

  const REVOKED_EVENT := "session.revoked"
  const ISSUED_EVENT := "session.issued"
  const ROTATED_EVENT := "session.rotated"

  // ---- operations

  predicate Revocable(s: State, id: string) {
    id in s.byId && s.byId[id].status == ACTIVE
  }

  function Revoke(s: State, id: string, reason: string, now: int, h: Digest): State {
    if !Revocable(s, id) then s
    else
      var r := s.byId[id];
      State(s.ids,
            s.byId[id := r.(status := REVOKED, revokedAt := Some(now), revokeReason := Some(reason))],
            s.tokens - {r.tokenHash},
            Appended(s.log, Note(REVOKED_EVENT, r, map["reason" := Text(reason)], now), h))
  }

  function RevokeAll(s: State, ids: seq<string>, reason: string, now: int, h: Digest): State
    decreases |ids|
  {
    if ids == [] then s else RevokeAll(Revoke(s, ids[0], reason, now, h), ids[1..], reason, now, h)
  }

  /** How many of the calls `RevokeAll` makes return true. */
  function RevokeCount(s: State, ids: seq<string>, reason: string, now: int, h: Digest): nat
    decreases |ids|
  {
    if ids == [] then 0
    else (if Revocable(s, ids[0]) then 1 else 0)
         + RevokeCount(Revoke(s, ids[0], reason, now, h), ids[1..], reason, now, h)
  }

  function Put(s: State, r: Record): State {
    s.(ids := if r.sessionId in s.byId then s.ids else s.ids + [r.sessionId],
       byId := s.byId[r.sessionId := r],
       tokens := s.tokens[r.tokenHash := r.sessionId])
  }

  /** The order in which sessions are given up: everybody else's from the least recently
      seen on, the new session only after all others. */
  function GiveUpOrder(active: seq<Record>, keep: string): seq<Record> {
    Filter(active, NotId(keep)) + Filter(active, IsId(keep))
  }

  function Take<T>(xs: seq<T>, n: int): seq<T> {
    if n <= 0 then [] else if n >= |xs| then xs else xs[..n]
  }

  function Victims(s: State, cap: nat, subject: string, tenant: string, now: int, keep: string): seq<string>
    requires WF(s)
  {
    var active := ActiveFor(s, subject, tenant, now);
    IdsOf(Take(GiveUpOrder(active, keep), |active| - cap))
  }

  const LIMIT_REASON := "concurrent_session_limit"

  function NewRecord(c: Config, p: Principal, now: int, token: string, sid: string, parent: Option<string>): Record {
    Record(sid, c.sha(token), p, now, now + c.ttl, now, 1, p.permissionVersion, ACTIVE, None, None, parent)
  }

  function Issue(s: State, c: Config, p: Principal, now: int, token: string, sid: string, parent: Option<string>): State
    requires WF(s)
  {
    var r := NewRecord(c, p, now, token, sid, parent);
    var stored := Put(s, r);
    assert WF(stored) by { PutWF(s, r); }
    var kept := RevokeAll(stored, Victims(stored, c.cap, p.subject, p.tenantId, now, sid), LIMIT_REASON, now, c.h);
    kept.(log := Appended(kept.log, Note(ISSUED_EVENT, r, map[], now), c.h))
  }

  /** The session a token opens at `now`. */
  function Lookup(s: State, c: Config, token: string, now: int): Option<Record> {
    var hash := c.sha(token);
    if hash in s.tokens && s.tokens[hash] != "" && s.tokens[hash] in s.byId && s.byId[s.tokens[hash]].Active(now)
    then Some(s.byId[s.tokens[hash]])
    else None
  }

  function Authenticate(s: State, c: Config, token: string, now: int, touch: bool): State
  {
    var found := Lookup(s, c, token, now);
    if found.None? || !touch then s
    else
      var id := s.tokens[c.sha(token)];
      s.(byId := s.byId[id := s.byId[id].(lastSeenAt := now)])
  }

  /** The end of a rotation: the new record's generation is set, then the rotation is noted. */
  function Promote(s: State, sid: string, version: int, e: Entry, h: Digest): State
    requires sid in s.byId
  {
    s.(byId := s.byId[sid := s.byId[sid].(authVersion := version)], log := Appended(s.log, e, h))
  }

  function Successor(c: Config, prior: Record, now: int, token: string, sid: string): Record {
    NewRecord(c, prior.principal.(authTime := now), now, token, sid, Some(prior.sessionId))
  }

  function RotationNote(prior: Record, r: Record, reason: string, now: int): Entry {
    Note(ROTATED_EVENT, r, map["replaced_session_id" := Text(prior.sessionId), "reason" := Text(reason)], now)
  }

  function Replace(s: State, c: Config, prior: Record, now: int, reason: string, token: string, sid: string): State
    requires WF(s)
  {
    var closed := Revoke(s, prior.sessionId, "rotated:" + reason, now, c.h);
    assert WF(closed) by { RevokeWF(s, prior.sessionId, "rotated:" + reason, now, c.h); }
    var r := Successor(c, prior, now, token, sid);
    var renewed := Issue(closed, c, r.principal, now, token, sid, r.parent);
    assert sid in renewed.byId by { IssueWF(closed, c, r.principal, now, token, sid, r.parent); }
    Promote(renewed, sid, prior.authVersion + 1, RotationNote(prior, r, reason, now), c.h)
  }

  function Rotate(s: State, c: Config, token: string, now: int, reason: string, newToken: string, sid: string): State
    requires WF(s)
  {
    match Lookup(s, c, token, now)
    case None => s
    case Some(prior) => Replace(s, c, prior, now, reason, newToken, sid)
  }

  function Matching(s: State, p: Record -> bool): seq<string>
    requires WF(s)
  {
    IdsOf(Filter(Records(s), p))
  }

  function RevokeSubject(s: State, c: Config, subject: string, tenant: string, reason: string, now: int): State
    requires WF(s)
  {
    RevokeAll(s, Matching(s, OwnedBy(subject, tenant)), reason, now, c.h)
  }

  function RevokeOidcSid(s: State, c: Config, sid: string, reason: string, now: int): State
    requires WF(s)
  {
    RevokeAll(s, Matching(s, FromProvider(sid)), reason, now, c.h)
  }

  // ---- runs

  datatype Op =
    | Login(principal: Principal, token: string, sid: string, parent: Option<string>)
    | Open(token: string, touch: bool)
    | Renew(token: string, reason: string, newToken: string, sid: string)
    | Close(id: string, reason: string)
    | CloseSubject(subject: string, tenant: string, reason: string)
    | CloseProvider(oidcSid: string, reason: string)

  datatype Call = Call(now: int, op: Op)

  function Step(s: State, c: Config, call: Call): State
    requires WF(s)
  {
    match call.op
    case Login(p, token, sid, parent) => Issue(s, c, p, call.now, token, sid, parent)
    case Open(token, touch) => Authenticate(s, c, token, call.now, touch)
    case Renew(token, reason, newToken, sid) => Rotate(s, c, token, call.now, reason, newToken, sid)
    case Close(id, reason) => Revoke(s, id, reason, call.now, c.h)
    case CloseSubject(subject, tenant, reason) => RevokeSubject(s, c, subject, tenant, reason, call.now)
    case CloseProvider(oidcSid, reason) => RevokeOidcSid(s, c, oidcSid, reason, call.now)
  }

  // ---- structure is kept

  lemma PutWF(s: State, r: Record)
    requires WF(s)
    ensures WF(Put(s, r))
  {
  }

  lemma RevokeWF(s: State, id: string, reason: string, now: int, h: Digest)
    requires WF(s)
    ensures WF(Revoke(s, id, reason, now, h))
    ensures Revoke(s, id, reason, now, h).byId.Keys == s.byId.Keys
    ensures Revoke(s, id, reason, now, h).ids == s.ids
  {
  }

  lemma {:induction false} RevokeAllWF(s: State, ids: seq<string>, reason: string, now: int, h: Digest)
    requires WF(s)
    ensures WF(RevokeAll(s, ids, reason, now, h))
    ensures RevokeAll(s, ids, reason, now, h).byId.Keys == s.byId.Keys
    ensures RevokeAll(s, ids, reason, now, h).ids == s.ids
    decreases |ids|
  {
    if ids != [] {
      RevokeWF(s, ids[0], reason, now, h);
      RevokeAllWF(Revoke(s, ids[0], reason, now, h), ids[1..], reason, now, h);
    }
  }

  lemma IssueWF(s: State, c: Config, p: Principal, now: int, token: string, sid: string, parent: Option<string>)
    requires WF(s)
    ensures WF(Issue(s, c, p, now, token, sid, parent))
    ensures Issue(s, c, p, now, token, sid, parent).byId.Keys == s.byId.Keys + {sid}
  {
    var r := NewRecord(c, p, now, token, sid, parent);
    PutWF(s, r);
    var stored := Put(s, r);
    RevokeAllWF(stored, Victims(stored, c.cap, p.subject, p.tenantId, now, sid), LIMIT_REASON, now, c.h);
  }

  lemma ReplaceWF(s: State, c: Config, prior: Record, now: int, reason: string, token: string, sid: string)
    requires WF(s)
    ensures WF(Replace(s, c, prior, now, reason, token, sid))
  {
    var closed := Revoke(s, prior.sessionId, "rotated:" + reason, now, c.h);
    RevokeWF(s, prior.sessionId, "rotated:" + reason, now, c.h);
    var r := Successor(c, prior, now, token, sid);
    IssueWF(closed, c, r.principal, now, token, sid, r.parent);
  }

  lemma StepWF(s: State, c: Config, call: Call)
    requires WF(s)
    ensures WF(Step(s, c, call))
  {
    match call.op
    case Login(p, token, sid, parent) =>
      IssueWF(s, c, p, call.now, token, sid, parent);
    case Open(token, touch) =>
    case Renew(token, reason, newToken, sid) =>
      match Lookup(s, c, token, call.now) {
        case None =>
        case Some(prior) => ReplaceWF(s, c, prior, call.now, reason, newToken, sid);
      }
    case Close(id, reason) =>
      RevokeWF(s, id, reason, call.now, c.h);
    case CloseSubject(subject, tenant, reason) =>
      RevokeAllWF(s, Matching(s, OwnedBy(subject, tenant)), reason, call.now, c.h);
    case CloseProvider(oidcSid, reason) =>
      RevokeAllWF(s, Matching(s, FromProvider(oidcSid)), reason, call.now, c.h);
  }
}
