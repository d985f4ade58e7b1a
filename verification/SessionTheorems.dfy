/** The promises of the session manager over whole runs: the cap, the index, the audit
    trail, absorbing revocation, and the rotation lineage. */
module SessionTheorems {
  import opened IdentityAudit
  import opened Ordering
  import opened Prelude
  import opened SessionModel
  import opened SessionLaws
  import opened SessionEviction
  import opened SessionRuns

  // ---- each operation

  lemma MirroredIfRevoked(s: State, id: string, reason: string, now: int, h: Digest)
    requires Indexed(s) && Mirrored(s, h)
    ensures Mirrored(Revoke(s, id, reason, now, h), h)
  {
    RevokeMirrors(s, id, reason, now, h);
  }

  lemma MirroredIfRevokedAll(s: State, ids: seq<string>, reason: string, now: int, h: Digest)
    requires Indexed(s) && Mirrored(s, h)
    ensures Mirrored(RevokeAll(s, ids, reason, now, h), h)
  {
    RevokeAllMirrors(s, ids, reason, now, h);
    RevokeAllKeeps(s, ids, reason, now, h);
  }

  /** Events of other kinds do not disturb the trail of issues and revocations. */
  lemma MirroredIfNoted(s: State, t: State, e: Entry, h: Digest)
    requires Mirrored(s, h) && e.eventType != ISSUED_EVENT && e.eventType != REVOKED_EVENT
    requires t.byId.Keys == s.byId.Keys && forall id | id in s.byId :: t.byId[id].status == s.byId[id].status
    requires t.log == Appended(s.log, e, h)
    ensures Mirrored(t, h)
  {
    AppendKeepsLog(s.log, e, h);
    forall kind, id | kind == ISSUED_EVENT || kind == REVOKED_EVENT
      ensures Times(t.log, kind, id) == Times(s.log, kind, id)
    {
      TimesAppended(s.log, e, h, kind, id);
    }
  }

  /** Nobody was rotated out of a session that is still ACTIVE. */
  lemma ActiveIsNoParent(s: State, id: string, child: string)
    requires Lineal(s) && id in s.byId && s.byId[id].status == ACTIVE && child in s.byId
    ensures s.byId[child].parent != Some(id)
  {
    var i :| 0 <= i < |s.ids| && s.ids[i] == child;
    assert GenerationOk(s, i);
  }

  lemma ReplaceLineal(s: State, c: Config, prior: Record, now: int, reason: string, token: string, sid: string)
    requires Replaceable(s, c, prior, now, token, sid) && Capped(s, c.cap, now) && Lineal(s)
    ensures Lineal(Replace(s, c, prior, now, reason, token, sid))
  {
    var t := Replace(s, c, prior, now, reason, token, sid);
    ReplaceEffect(s, c, prior, now, reason, token, sid);
    ClosedKeeps(s, c, prior, now, reason, token, sid);
    assert t.ids[..|s.ids|] == s.ids;
    assert GenerationOk(t, |s.ids|);
    forall id | id in s.byId && s.byId[id].parent.Some? ensures s.byId[id].parent != t.byId[sid].parent {
      ActiveIsNoParent(s, prior.sessionId, id);
    }
    LinealIfExtended(s, t, sid);
  }

  lemma ReplaceMirrors(s: State, c: Config, prior: Record, now: int, reason: string, token: string, sid: string)
    requires Replaceable(s, c, prior, now, token, sid) && Mirrored(s, c.h)
    ensures Mirrored(Replace(s, c, prior, now, reason, token, sid), c.h)
  {
    var closed := Closed(s, c, prior, now, reason);
    var r := Successor(c, prior, now, token, sid);
    ClosedKeeps(s, c, prior, now, reason, token, sid);
    MirroredIfRevoked(s, prior.sessionId, "rotated:" + reason, now, c.h);
    var renewed := Issue(closed, c, r.principal, now, token, sid, r.parent);
    IssueMirrors(closed, c, r.principal, now, token, sid, r.parent);
    ReplaceUnfolds(s, c, prior, now, reason, token, sid);
    PromoteMirrors(renewed, sid, prior.authVersion + 1, RotationNote(prior, r, reason, now), c.h);
  }

  lemma PromoteMirrors(s: State, sid: string, version: int, e: Entry, h: Digest)
    requires sid in s.byId && Mirrored(s, h) && e.eventType != ISSUED_EVENT && e.eventType != REVOKED_EVENT
    ensures Mirrored(Promote(s, sid, version, e, h), h)
  {
    MirroredIfNoted(s, Promote(s, sid, version, e, h), e, h);
  }

  lemma ReplaceCaps(s: State, c: Config, prior: Record, now: int, reason: string, token: string, sid: string)
    requires Replaceable(s, c, prior, now, token, sid) && Capped(s, c.cap, now)
    ensures Capped(Replace(s, c, prior, now, reason, token, sid), c.cap, now)
  {
    hide Capped, Promote, Replace, Issue, Closed, Revoke, Ages, LiveIndexed, IndexLive, HashesDiffer, Known;
    var closed := Closed(s, c, prior, now, reason);
    var r := Successor(c, prior, now, token, sid);
    ClosedKeeps(s, c, prior, now, reason, token, sid);
    CapIfAges(s, closed, c.cap, now);
    IssueCaps(closed, c, r.principal, now, token, sid, r.parent);
    ReplaceUnfolds(s, c, prior, now, reason, token, sid);
    PromoteCaps(Issue(closed, c, r.principal, now, token, sid, r.parent), sid, prior.authVersion + 1,
                RotationNote(prior, r, reason, now), c.h, c.cap, now);
  }

  lemma PromoteCaps(s: State, sid: string, version: int, e: Entry, h: Digest, cap: nat, now: int)
    requires sid in s.byId && Capped(s, cap, now)
    ensures Capped(Promote(s, sid, version, e, h), cap, now)
  {
    var t := Promote(s, sid, version, e, h);
    forall subject, tenant ensures |ActiveIds(t, subject, tenant, now)| <= cap {
      assert ActiveIds(t, subject, tenant, now) == ActiveIds(s, subject, tenant, now);
    }
  }

  /** A step that adds no record and keeps index and trail keeps the whole invariant. */
  lemma InvIfAges(s: State, t: State, c: Config, clock: int, now: int)
    requires Inv(s, c, clock) && clock <= now
    requires Indexed(t) && Mirrored(t, c.h) && Ages(s, t) && t.ids == s.ids && t.byId.Keys == s.byId.Keys
    ensures Inv(t, c, now)
  {
    CapLater(s, c.cap, clock, now);
    CapIfAges(s, t, c.cap, now);
  }

  lemma RevokeAllKeepsInv(s: State, c: Config, clock: int, ids: seq<string>, reason: string, now: int)
    requires Inv(s, c, clock) && clock <= now
    ensures Inv(RevokeAll(s, ids, reason, now, c.h), c, now) && Ages(s, RevokeAll(s, ids, reason, now, c.h))
  {
    RevokeAllKeeps(s, ids, reason, now, c.h);
    MirroredIfRevokedAll(s, ids, reason, now, c.h);
    InvIfAges(s, RevokeAll(s, ids, reason, now, c.h), c, clock, now);
  }

  lemma LoginKeepsInv(s: State, c: Config, clock: int, p: Principal, now: int, token: string, sid: string,
                      parent: Option<string>)
    requires Inv(s, c, clock) && clock <= now && FreshDraw(s, c, token, sid)
    ensures Inv(Issue(s, c, p, now, token, sid, parent), c, now) && Ages(s, Issue(s, c, p, now, token, sid, parent))
  {
    CapLater(s, c.cap, clock, now);
    IssueEffect(s, c, p, now, token, sid, parent);
    IssueMirrors(s, c, p, now, token, sid, parent);
    IssueCaps(s, c, p, now, token, sid, parent);
  }

  lemma ReplaceKeepsInv(s: State, c: Config, clock: int, prior: Record, now: int, reason: string, token: string,
                        sid: string)
    requires Inv(s, c, clock) && clock <= now && Replaceable(s, c, prior, now, token, sid)
    ensures Inv(Replace(s, c, prior, now, reason, token, sid), c, now)
    ensures Ages(s, Replace(s, c, prior, now, reason, token, sid))
  {
    CapLater(s, c.cap, clock, now);
    ReplaceEffect(s, c, prior, now, reason, token, sid);
    ReplaceMirrors(s, c, prior, now, reason, token, sid);
    ReplaceCaps(s, c, prior, now, reason, token, sid);
  }

  lemma OpenKeepsInv(s: State, c: Config, clock: int, token: string, now: int, touch: bool)
    requires Inv(s, c, clock) && clock <= now
    ensures Inv(Authenticate(s, c, token, now, touch), c, now) && Ages(s, Authenticate(s, c, token, now, touch))
  {
    var t := Authenticate(s, c, token, now, touch);
    TouchKeeps(s, c, token, now, touch);
    assert Mirrored(t, c.h);
    InvIfAges(s, t, c, clock, now);
  }

  /** Every operation keeps index, trail and cap, and only ages older records. */
  lemma StepKeepsInv(s: State, c: Config, clock: int, call: Call)
    requires Inv(s, c, clock) && Legal(s, c, clock, call)
    ensures Inv(Step(s, c, call), c, call.now) && Ages(s, Step(s, c, call))
  {
    hide WF, Known, LiveIndexed, IndexLive, HashesDiffer, Mirrored, Capped, Ages, Distinct;
    AgesReflexive(s);
    match call.op {
      case Login(p, token, sid, parent) =>
        LoginKeepsInv(s, c, clock, p, call.now, token, sid, parent);
      case Open(token, touch) =>
        OpenKeepsInv(s, c, clock, token, call.now, touch);
      case Renew(token, reason, newToken, sid) =>
        match Lookup(s, c, token, call.now) {
          case None =>
            CapLater(s, c.cap, clock, call.now);
          case Some(prior) =>
            PriorIsActive(s, c, token, call.now);
            ReplaceKeepsInv(s, c, clock, prior, call.now, reason, newToken, sid);
        }
      case Close(id, reason) =>
        RevokeAllKeepsInv(s, c, clock, [id], reason, call.now);
        assert RevokeAll(s, [id], reason, call.now, c.h) == Revoke(s, id, reason, call.now, c.h);
      case CloseSubject(subject, tenant, reason) =>
        RevokeAllKeepsInv(s, c, clock, Matching(s, OwnedBy(subject, tenant)), reason, call.now);
      case CloseProvider(oidcSid, reason) =>
        RevokeAllKeepsInv(s, c, clock, Matching(s, FromProvider(oidcSid)), reason, call.now);
    }
  }

  // ---- whole runs

  ghost function Run(s: State, c: Config, calls: seq<Call>): State
    requires WF(s)
    ensures WF(Run(s, c, calls))
    decreases |calls|
  {
    if calls == [] then s
    else
      StepWF(s, c, calls[0]);
      Run(Step(s, c, calls[0]), c, calls[1..])
  }

  /** Fresh draws and a clock that never runs backwards. */
  ghost predicate LegalRun(s: State, c: Config, clock: int, calls: seq<Call>)
    requires WF(s)
    decreases |calls|
  {
    calls == []
    || (Legal(s, c, clock, calls[0])
        && (StepWF(s, c, calls[0]); LegalRun(Step(s, c, calls[0]), c, calls[0].now, calls[1..])))
  }

  ghost function LastClock(clock: int, calls: seq<Call>): int {
    if calls == [] then clock else calls[|calls| - 1].now
  }

  lemma EmptyInv(c: Config, clock: int)
    ensures Inv(Empty(), c, clock)
  {
    forall subject, tenant ensures |ActiveIds(Empty(), subject, tenant, clock)| <= c.cap {
      assert ActiveIds(Empty(), subject, tenant, clock) == {};
    }
  }

  lemma {:induction false} RunKeepsInv(s: State, c: Config, clock: int, calls: seq<Call>)
    requires Inv(s, c, clock) && LegalRun(s, c, clock, calls)
    ensures Inv(Run(s, c, calls), c, LastClock(clock, calls)) && Ages(s, Run(s, c, calls))
    decreases |calls|
  {
    hide WF, Known, LiveIndexed, IndexLive, HashesDiffer, Mirrored, Capped, Ages, Distinct, Step, Legal;
    AgesReflexive(s);
    if calls != [] {
      var t := Step(s, c, calls[0]);
      StepKeepsInv(s, c, clock, calls[0]);
      RunKeepsInv(t, c, calls[0].now, calls[1..]);
      AgesTransitive(s, t, Run(t, c, calls[1..]));
      assert Run(s, c, calls) == Run(t, c, calls[1..]);
    }
  }

  /** After any run from the empty store, at the last call's time and at every later one,
      no subject has more active sessions than the cap. */
  lemma CapHolds(c: Config, clock: int, calls: seq<Call>, subject: string, tenant: string, now: int)
    requires LegalRun(Empty(), c, clock, calls) && LastClock(clock, calls) <= now
    ensures |ActiveFor(Run(Empty(), c, calls), subject, tenant, now)| <= c.cap
    ensures |ActiveIds(Run(Empty(), c, calls), subject, tenant, now)| <= c.cap
  {
    EmptyInv(c, clock);
    RunKeepsInv(Empty(), c, clock, calls);
    var t := Run(Empty(), c, calls);
    CapLater(t, c.cap, LastClock(clock, calls), now);
    ActiveForIds(t, subject, tenant, now);
  }

  /** A revoked session stays exactly as it was revoked. */
  lemma RevocationIsFinal(s: State, c: Config, clock: int, calls: seq<Call>, id: string)
    requires Inv(s, c, clock) && LegalRun(s, c, clock, calls)
    requires id in s.byId && s.byId[id].status == REVOKED
    ensures id in Run(s, c, calls).byId && Run(s, c, calls).byId[id] == s.byId[id]
  {
    RunKeepsInv(s, c, clock, calls);
    assert Older(s.byId[id], Run(s, c, calls).byId[id]);
  }

  // ---- which tokens open a session

  /** A session handed out: its id, its token, for whom and when. */
  datatype Draw = Draw(sid: string, token: string, principal: Principal, at: int)

  ghost function Drawn(s: State, c: Config, call: Call): set<Draw> {
    match call.op
    case Login(p, token, sid, _) => {Draw(sid, token, p, call.now)}
    case Renew(token, _, newToken, sid) =>
      (match Lookup(s, c, token, call.now)
       case None => {}
       case Some(prior) => {Draw(sid, newToken, prior.principal.(authTime := call.now), call.now)})
    case _ => {}
  }

  /** Everything handed out during the run; a rotation hands out anew. */
  ghost function AllDrawn(s: State, c: Config, calls: seq<Call>): set<Draw>
    requires WF(s)
    decreases |calls|
  {
    if calls == [] then {}
    else
      StepWF(s, c, calls[0]);
      Drawn(s, c, calls[0]) + AllDrawn(Step(s, c, calls[0]), c, calls[1..])
  }

  /** What a record keeps of its draw. */
  ghost predicate MadeBy(r: Record, d: Draw, c: Config) {
    && r.sessionId == d.sid && r.tokenHash == c.sha(d.token) && r.principal == d.principal
    && r.issuedAt == d.at && r.expiresAt == d.at + c.ttl && r.permissionVersion == d.principal.permissionVersion
  }

  /** The store holds a record for each draw, and no others. */
  ghost predicate Holds(s: State, c: Config, draws: set<Draw>) {
    && (forall d | d in draws :: d.sid in s.byId && MadeBy(s.byId[d.sid], d, c))
    && (forall id | id in s.byId :: exists d :: d in draws && d.sid == id)
  }

  lemma HoldsIfAges(s: State, t: State, c: Config, draws: set<Draw>)
    requires Holds(s, c, draws) && Ages(s, t) && t.byId.Keys == s.byId.Keys
    ensures Holds(t, c, draws)
  {
    forall d | d in draws ensures d.sid in t.byId && MadeBy(t.byId[d.sid], d, c) {
      assert Older(s.byId[d.sid], t.byId[d.sid]);
    }
  }

  lemma HoldsIfAdded(s: State, t: State, c: Config, draws: set<Draw>, d: Draw)
    requires Holds(s, c, draws) && Ages(s, t) && t.byId.Keys == s.byId.Keys + {d.sid}
    requires MadeBy(t.byId[d.sid], d, c)
    ensures Holds(t, c, draws + {d})
  {
    forall e | e in draws ensures e.sid in t.byId && MadeBy(t.byId[e.sid], e, c) {
      assert Older(s.byId[e.sid], t.byId[e.sid]);
    }
    forall id | id in t.byId ensures exists e :: e in draws + {d} && e.sid == id {
      if id in s.byId {
        var e :| e in draws && e.sid == id;
        assert e in draws + {d};
      } else {
        assert d in draws + {d} && d.sid == id;
      }
    }
  }

  lemma LoginHolds(s: State, c: Config, p: Principal, now: int, token: string, sid: string, parent: Option<string>,
                   draws: set<Draw>)
    requires Indexed(s) && FreshDraw(s, c, token, sid) && Holds(s, c, draws)
    ensures Holds(Issue(s, c, p, now, token, sid, parent), c, draws + {Draw(sid, token, p, now)})
  {
    IssueEffect(s, c, p, now, token, sid, parent);
    HoldsIfAdded(s, Issue(s, c, p, now, token, sid, parent), c, draws, Draw(sid, token, p, now));
  }

  lemma ReplaceHolds(s: State, c: Config, prior: Record, now: int, reason: string, token: string, sid: string,
                     draws: set<Draw>)
    requires Replaceable(s, c, prior, now, token, sid) && Capped(s, c.cap, now) && Holds(s, c, draws)
    ensures Holds(Replace(s, c, prior, now, reason, token, sid), c,
                  draws + {Draw(sid, token, prior.principal.(authTime := now), now)})
  {
    hide Holds, Capped, Ages, LiveIndexed, IndexLive, HashesDiffer, Distinct, Replace;
    ReplaceEffect(s, c, prior, now, reason, token, sid);
    ClosedKeeps(s, c, prior, now, reason, token, sid);
    HoldsIfAdded(s, Replace(s, c, prior, now, reason, token, sid), c, draws,
                 Draw(sid, token, prior.principal.(authTime := now), now));
  }

  lemma StepHolds(s: State, c: Config, clock: int, call: Call, draws: set<Draw>)
    requires Inv(s, c, clock) && Legal(s, c, clock, call) && Holds(s, c, draws)
    ensures Holds(Step(s, c, call), c, draws + Drawn(s, c, call))
  {
    assert draws + {} == draws;
    match call.op {
      case Login(p, token, sid, parent) =>
        LoginHolds(s, c, p, call.now, token, sid, parent, draws);
      case Renew(token, reason, newToken, sid) =>
        match Lookup(s, c, token, call.now) {
          case None =>
          case Some(prior) =>
            PriorIsActive(s, c, token, call.now);
            CapLater(s, c.cap, clock, call.now);
            ReplaceHolds(s, c, prior, call.now, reason, newToken, sid, draws);
        }
      case Open(token, touch) =>
        TouchKeeps(s, c, token, call.now, touch);
        HoldsIfAges(s, Step(s, c, call), c, draws);
      case _ =>
        StepKeepsInv(s, c, clock, call);
        StepKeepsKeys(s, c, call);
        HoldsIfAges(s, Step(s, c, call), c, draws);
    }
  }

  lemma StepKeepsKeys(s: State, c: Config, call: Call)
    requires WF(s) && (call.op.Close? || call.op.CloseSubject? || call.op.CloseProvider?)
    ensures Step(s, c, call).byId.Keys == s.byId.Keys
  {
    match call.op
    case Close(id, reason) => RevokeWF(s, id, reason, call.now, c.h);
    case CloseSubject(subject, tenant, reason) =>
      RevokeAllWF(s, Matching(s, OwnedBy(subject, tenant)), reason, call.now, c.h);
    case CloseProvider(oidcSid, reason) =>
      RevokeAllWF(s, Matching(s, FromProvider(oidcSid)), reason, call.now, c.h);
  }

  lemma {:induction false} RunHolds(s: State, c: Config, clock: int, calls: seq<Call>, draws: set<Draw>)
    requires Inv(s, c, clock) && LegalRun(s, c, clock, calls) && Holds(s, c, draws)
    ensures Holds(Run(s, c, calls), c, draws + AllDrawn(s, c, calls))
    decreases |calls|
  {
    if calls == [] {
      assert draws + {} == draws;
    } else {
      StepKeepsInv(s, c, clock, calls[0]);
      StepHolds(s, c, clock, calls[0], draws);
      var t := Step(s, c, calls[0]);
      RunHolds(t, c, calls[0].now, calls[1..], draws + Drawn(s, c, calls[0]));
      assert draws + Drawn(s, c, calls[0]) + AllDrawn(t, c, calls[1..]) == draws + AllDrawn(s, c, calls);
    }
  }

  /** In an invariant state, a token opens a session exactly when some unexpired record
      carries its hash and the audit log never revoked that record. */
  lemma LookupExactly(s: State, c: Config, clock: int, token: string, now: int)
    requires Inv(s, c, clock)
    ensures Lookup(s, c, token, now).Some?
       <==> exists id :: id in s.byId && s.byId[id].tokenHash == c.sha(token) && s.byId[id].expiresAt > now
                         && Times(s.log, REVOKED_EVENT, id) == 0
  {
    if Lookup(s, c, token, now).Some? {
      var id := s.tokens[c.sha(token)];
      assert Times(s.log, REVOKED_EVENT, id) == 0;
    }
  }

  /** In a store that holds a record for each draw, what a token opens. */
  lemma HeldOpensExactly(t: State, c: Config, clock: int, draws: set<Draw>, token: string, now: int)
    requires Inv(t, c, clock) && Holds(t, c, draws) && forall x, y :: c.sha(x) == c.sha(y) ==> x == y
    ensures var found := Lookup(t, c, token, now);
            && (found.Some? <==> exists d :: d in draws && d.token == token && now < d.at + c.ttl
                                          && Times(t.log, REVOKED_EVENT, d.sid) == 0)
            && (found.Some? ==> exists d :: d in draws && d.token == token && MadeBy(found.value, d, c))
  {
    LookupExactly(t, c, clock, token, now);
    if Lookup(t, c, token, now).Some? {
      OpenedIsStored(t, c, clock, token, now);
    }
    hide Inv, Lookup, Times;
    if Lookup(t, c, token, now).Some? {
      var r := Lookup(t, c, token, now).value;
      var d :| d in draws && d.sid == r.sessionId;
      assert MadeBy(r, d, c);
    }
    if d :| d in draws && d.token == token && now < d.at + c.ttl && Times(t.log, REVOKED_EVENT, d.sid) == 0 {
      assert MadeBy(t.byId[d.sid], d, c);
    }
  }

  /** Over every run from the empty store with collision-free token hashes: a token
      authenticates at `now` exactly when the run handed it out less than the lifetime ago for
      a session that the audit log never revoked, and it opens that session, for the
      principal it was handed out for. */
  lemma TokensOpenExactly(c: Config, clock: int, calls: seq<Call>, token: string, now: int)
    requires LegalRun(Empty(), c, clock, calls)
    requires forall x, y :: c.sha(x) == c.sha(y) ==> x == y
    ensures var t, draws := Run(Empty(), c, calls), AllDrawn(Empty(), c, calls);
            var found := Lookup(t, c, token, now);
            && (found.Some? <==> exists d :: d in draws && d.token == token && now < d.at + c.ttl
                                          && Times(t.log, "session.revoked", d.sid) == 0)
            && (found.Some? ==> exists d :: d in draws && d.token == token && MadeBy(found.value, d, c))
  {
    EmptyInv(c, clock);
    RunKeepsInv(Empty(), c, clock, calls);
    RunHolds(Empty(), c, clock, calls, {});
    var draws := AllDrawn(Empty(), c, calls);
    assert {} + draws == draws;
    hide Inv, Holds, MadeBy, Lookup, Times, Run, AllDrawn;
    HeldOpensExactly(Run(Empty(), c, calls), c, LastClock(clock, calls), draws, token, now);
  }

  lemma OpenedIsStored(s: State, c: Config, clock: int, token: string, now: int)
    requires Inv(s, c, clock) && Lookup(s, c, token, now).Some?
    ensures var r := Lookup(s, c, token, now).value;
            && r.sessionId in s.byId && s.byId[r.sessionId] == r && r.tokenHash == c.sha(token)
            && r.expiresAt > now && Times(s.log, REVOKED_EVENT, r.sessionId) == 0
  {
    var id := s.tokens[c.sha(token)];
    assert Times(s.log, REVOKED_EVENT, id) == 0;
  }

  // ---- lineage

  /** The call does not issue a session with a parent of the caller's choice. */
  predicate Rooted(call: Call) {
    call.op.Login? ==> call.op.parent.None?
  }

  lemma IssueRootLineal(s: State, c: Config, p: Principal, now: int, token: string, sid: string)
    requires Indexed(s) && Lineal(s) && FreshDraw(s, c, token, sid)
    ensures Lineal(Issue(s, c, p, now, token, sid, None))
  {
    IssueEffect(s, c, p, now, token, sid, None);
    LinealIfExtended(s, Issue(s, c, p, now, token, sid, None), sid);
  }

  lemma StepKeepsLineage(s: State, c: Config, clock: int, call: Call)
    requires Inv(s, c, clock) && Legal(s, c, clock, call) && Lineal(s) && Rooted(call)
    ensures Lineal(Step(s, c, call))
  {
    hide Lineal, Known, LiveIndexed, IndexLive, HashesDiffer, Mirrored, Capped, Ages, Distinct;
    match call.op {
      case Login(p, token, sid, parent) =>
        IssueRootLineal(s, c, p, call.now, token, sid);
      case Renew(token, reason, newToken, sid) =>
        match Lookup(s, c, token, call.now) {
          case None =>
          case Some(prior) =>
            PriorIsActive(s, c, token, call.now);
            CapLater(s, c.cap, clock, call.now);
            ReplaceLineal(s, c, prior, call.now, reason, newToken, sid);
        }
      case _ =>
        StepKeepsInv(s, c, clock, call);
        StepKeepsIds(s, c, call);
        LinealIfSameKeys(s, Step(s, c, call));
    }
  }

  lemma StepKeepsIds(s: State, c: Config, call: Call)
    requires WF(s) && !call.op.Login? && !call.op.Renew?
    ensures Step(s, c, call).ids == s.ids
  {
    match call.op
    case Open(token, touch) =>
    case Close(id, reason) => RevokeWF(s, id, reason, call.now, c.h);
    case CloseSubject(subject, tenant, reason) =>
      RevokeAllWF(s, Matching(s, OwnedBy(subject, tenant)), reason, call.now, c.h);
    case CloseProvider(oidcSid, reason) =>
      RevokeAllWF(s, Matching(s, FromProvider(oidcSid)), reason, call.now, c.h);
  }

  lemma {:induction false} RunKeepsLineage(s: State, c: Config, clock: int, calls: seq<Call>)
    requires Inv(s, c, clock) && LegalRun(s, c, clock, calls) && Lineal(s)
    requires forall call | call in calls :: Rooted(call)
    ensures Lineal(Run(s, c, calls))
    decreases |calls|
  {
    hide WF, Known, LiveIndexed, IndexLive, HashesDiffer, Mirrored, Capped, Lineal, Ages, Distinct, Step, Legal, Rooted;
    if calls != [] {
      StepKeepsInv(s, c, clock, calls[0]);
      StepKeepsLineage(s, c, clock, calls[0]);
      RunKeepsLineage(Step(s, c, calls[0]), c, calls[0].now, calls[1..]);
    }
  }

  /** How many rotations lie behind the session at position `i`. */
  ghost function Depth(s: State, i: nat): nat
    requires Lineal(s) && i < |s.ids|
    decreases i
  {
    assert GenerationOk(s, i);
    match s.byId[s.ids[i]].parent
    case None => 0
    case Some(p) =>
      var j: nat :| j < i && s.ids[j] == p;
      1 + Depth(s, j)
  }

  /** A session's authentication version counts the rotations that led to it. */
  lemma {:induction false} VersionIsDepth(s: State, i: nat)
    requires Lineal(s) && i < |s.ids|
    ensures s.byId[s.ids[i]].authVersion == 1 + Depth(s, i)
    decreases i
  {
    assert GenerationOk(s, i);
    match s.byId[s.ids[i]].parent {
      case None =>
      case Some(p) =>
        var j: nat :| j < i && s.ids[j] == p && Depth(s, i) == 1 + Depth(s, j);
        VersionIsDepth(s, j);
    }
  }

  ghost predicate ParentChain(s: State, chain: seq<string>) {
    forall k | 0 <= k < |chain| - 1 :: chain[k] in s.byId && s.byId[chain[k]].parent == Some(chain[k + 1])
  }

  lemma {:induction false} VersionsFallAlongChain(s: State, chain: seq<string>)
    requires Lineal(s) && |chain| >= 2 && ParentChain(s, chain)
    ensures chain[0] in s.byId && chain[|chain| - 1] in s.byId
    ensures s.byId[chain[0]].authVersion == s.byId[chain[|chain| - 1]].authVersion + |chain| - 1
  {
    assert chain[0] in s.byId && chain[0] in s.ids;
    var i :| 0 <= i < |s.ids| && s.ids[i] == chain[0];
    assert GenerationOk(s, i);
    assert s.byId[chain[0]].parent == Some(chain[1]);
    if |chain| > 2 {
      var rest := chain[1..];
      forall k | 0 <= k < |rest| - 1 ensures rest[k] in s.byId && s.byId[rest[k]].parent == Some(rest[k + 1]) {
        assert rest[k] == chain[k + 1] && rest[k + 1] == chain[k + 2];
      }
      VersionsFallAlongChain(s, rest);
    }
  }

  /** A login leaves the lineage in order exactly when it names no parent: a first generation
      that claims one contradicts the version count. */
  lemma LoginKeepsLineageExactly(s: State, c: Config, clock: int, p: Principal, now: int, token: string, sid: string,
                                 parent: Option<string>)
    requires Inv(s, c, clock) && clock <= now && FreshDraw(s, c, token, sid) && Lineal(s)
    ensures Lineal(Issue(s, c, p, now, token, sid, parent)) <==> parent.None?
  {
    if parent.None? {
      IssueRootLineal(s, c, p, now, token, sid);
    } else {
      var t := Issue(s, c, p, now, token, sid, parent);
      IssueEffect(s, c, p, now, token, sid, parent);
      if Lineal(t) {
        var k := |s.ids|;
        assert t.ids[k] == sid && GenerationOk(t, k);
        var i: nat :| i < k && t.ids[..k][i] == parent.value;
        VersionIsDepth(t, i);
        VersionIsDepth(t, k);
      }
    }
  }

  /** After any run whose logins name no parent no session is its own ancestor. */
  lemma LineageIsAcyclic(c: Config, clock: int, calls: seq<Call>, chain: seq<string>)
    requires LegalRun(Empty(), c, clock, calls) && forall call | call in calls :: Rooted(call)
    requires |chain| >= 2 && ParentChain(Run(Empty(), c, calls), chain)
    ensures chain[0] != chain[|chain| - 1]
  {
    EmptyInv(c, clock);
    RunKeepsLineage(Empty(), c, clock, calls);
    VersionsFallAlongChain(Run(Empty(), c, calls), chain);
  }

  /** After any such run a session's version counts the rotations that led to it. */
  lemma VersionsCountRotations(c: Config, clock: int, calls: seq<Call>, i: nat)
    requires LegalRun(Empty(), c, clock, calls) && forall call | call in calls :: Rooted(call)
    requires i < |Run(Empty(), c, calls).ids|
    ensures var t := Run(Empty(), c, calls);
            Lineal(t) && t.byId[t.ids[i]].authVersion == 1 + Depth(t, i)
  {
    EmptyInv(c, clock);
    RunKeepsLineage(Empty(), c, clock, calls);
    VersionIsDepth(Run(Empty(), c, calls), i);
  }
}
