/** What step-up grants are spent on, in one authorization and over whole runs. */
module EnforcementLaws {
  import opened Prelude
  import opened Ordering
  import opened SessionModel
  import opened SessionLaws
  import opened SessionRuns
  import SessionTheorems
  import opened StepUp
  import opened AuthorizationPolicy
  import opened Enforcement

  // ---- one authorization

  predicate ByStepUp(a: Asked) {
    NeedsStepUp(a.action, a.request) && !a.request.stepUpVerified
  }

  /** Where a step-up is needed and not yet verified, the action is allowed exactly when one
      grant is spent: the presented one, unspent before, unexpired, and issued for this
      session, tenant, action and resource. In all other cases no grant is touched. */
  lemma StepUpSpendsExactlyOne(b: Book, l: Limits, r: Record, a: Asked, now: int)
    requires Proper(b, l)
    ensures var (after, d) := Decided(b, r, a, now);
            && after.grants == b.grants
            && (after.consumed == b.consumed
                || exists id :: a.grantId == Some(id) && id !in b.consumed && after.consumed == b.consumed + {id})
            && (after.consumed != b.consumed <==> d.allowed && ByStepUp(a))
            && (d.allowed && ByStepUp(a) ==>
                  a.grantId.Some? && ConsumeRefusal(b, a.grantId.value, UseOf(r, a.action, a.resource.resourceId),
                                                    now).None?
                  && after == Spent(b, a.grantId.value, UseOf(r, a.action, a.resource.resourceId), now))
  {
    hide MayDo, ConsumeRefusal;
    StepUpIsAllThatIsMissing(Some(r.principal), a.action, a.resource, a.request);
    if ByStepUp(a) && a.grantId.Some? {
      var use := UseOf(r, a.action, a.resource.resourceId);
      if ConsumeRefusal(b, a.grantId.value, use, now).None? {
        AcceptedGrant(b, l, a.grantId.value, use, now);
      }
    }
  }

  /** An action is allowed exactly when the policy permits it, which may take a step-up: then
      the step-up has been verified already, or the presented grant fits. */
  lemma AllowedExactly(b: Book, l: Limits, r: Record, a: Asked, now: int)
    requires Proper(b, l)
    ensures Decided(b, r, a, now).1.allowed
       <==> && Evaluated(Some(r.principal), a.action, a.resource, a.request.(stepUpVerified := true)).allowed
            && (a.request.stepUpVerified || !NeedsStepUp(a.action, a.request)
                || (a.grantId.Some? && Fits(b, l, a.grantId.value, UseOf(r, a.action, a.resource.resourceId), now)))
    ensures Decided(b, r, a, now).1.reason == "invalid_step_up_grant"
       <==> && Evaluated(Some(r.principal), a.action, a.resource, a.request.(stepUpVerified := true)).allowed
            && ByStepUp(a) && a.grantId.Some?
            && !Fits(b, l, a.grantId.value, UseOf(r, a.action, a.resource.resourceId), now)
  {
    if a.grantId.Some? {
      AcceptedExactly(b, l, a.grantId.value, UseOf(r, a.action, a.resource.resourceId), now);
    }
    ReasonsDiffer();
    hide MayDo, ConsumeRefusal, Fits, Spent, Proper;
  }

  /** The decision in full: the policy's own, unless a step-up is all that is missing and a
      grant was presented; then the verified decision if the grant fits, and otherwise a denial
      that names the grant. The grant is spent exactly in the first of these cases. */
  lemma DecidedExactly(b: Book, l: Limits, r: Record, a: Asked, now: int)
    requires Proper(b, l)
    ensures var plain := Evaluated(Some(r.principal), a.action, a.resource, a.request);
            var verified := Evaluated(Some(r.principal), a.action, a.resource, a.request.(stepUpVerified := true));
            Decided(b, r, a, now) ==
              if plain.allowed || !verified.allowed || a.grantId.None? then (b, plain)
              else if Fits(b, l, a.grantId.value, UseOf(r, a.action, a.resource.resourceId), now)
              then (Book(b.grants, b.consumed + {a.grantId.value}), verified)
              else (b, Decision(false, "invalid_step_up_grant", true))
  {
    StepUpIsAllThatIsMissing(Some(r.principal), a.action, a.resource, a.request);
    if a.grantId.Some? {
      AcceptedExactly(b, l, a.grantId.value, UseOf(r, a.action, a.resource.resourceId), now);
    }
    hide MayDo, ConsumeRefusal, Fits, Spent, Proper;
  }

  /** An authorization without a session has no verdict and changes nothing; with one, it
      answers with the session, seen now, and the decision, and leaves the spent grants. */
  lemma AuthorizedExactly(g: Gatehouse, c: Config, token: string, a: Asked, now: int)
    ensures var e := Authorized(g, c, token, a, now);
            match Lookup(g.sessions, c, token, now)
            case None => e.verdict == None && e.after == g
            case Some(r) =>
              && e.verdict == Some(Verdict(r.(lastSeenAt := now), Decided(g.book, r, a, now).1))
              && e.after.book == Decided(g.book, r, a, now).0
              && e.after.sessions == g.sessions.(byId := e.after.sessions.byId)
              && (forall id :: (id in e.after.sessions.byId
                                <==> id in g.sessions.byId || id == g.sessions.tokens[c.sha(token)]))
              && (forall id | id in e.after.sessions.byId ::
                    e.after.sessions.byId[id] == if id == g.sessions.tokens[c.sha(token)] then r.(lastSeenAt := now)
                                                 else g.sessions.byId[id])
  {
    hide Decided;
  }

  lemma ReasonsDiffer()
    ensures "invalid_step_up_grant" !in {"unauthenticated", "cross_tenant_denied", "capability_denied",
                                         "risk_policy_denied",
                                         "managed_device_required", "step_up_required", "allowed"}
  {
    assert |"invalid_step_up_grant"| == 21;
  }

  // ---- runs

  datatype Op =
    | Sessions(call: Call)
    | Elevate(sessionId: string, action: string, resourceId: string, authTime: int, acr: Option<string>, now: int,
              id: string)
    | Authorize(token: string, asked: Asked, now: int)

  function ClockOf(op: Op): int {
    match op
    case Sessions(call) => call.now
    case Elevate(_, _, _, _, _, now, _) => now
    case Authorize(_, _, now) => now
  }

  /** What an operation is to the session store: an authorization opens the session. */
  function CallOf(op: Op): Option<Call> {
    match op
    case Sessions(call) => Some(call)
    case Elevate(_, _, _, _, _, _, _) => None
    case Authorize(token, _, now) => Some(Call(now, Open(token, true)))
  }

  function SessionsAfter(s: State, c: Config, op: Op): State
    requires WF(s)
  {
    match CallOf(op)
    case None => s
    case Some(call) => SessionModel.Step(s, c, call)
  }

  function BookAfter(g: Gatehouse, c: Config, l: Limits, op: Op): Book {
    match op
    case Sessions(call) => g.book
    case Elevate(sid, action, resourceId, authTime, acr, now, id) =>
      if sid in g.sessions.byId
      then Issued(g.book, l, UseOf(g.sessions.byId[sid], action, resourceId), authTime, acr, now, id)
      else g.book
    case Authorize(token, a, now) => Authorized(g, c, token, a, now).after.book
  }

  function Step(g: Gatehouse, c: Config, l: Limits, op: Op): Gatehouse
    requires WF(g.sessions)
  {
    Gatehouse(SessionsAfter(g.sessions, c, op), BookAfter(g, c, l, op))
  }

  /** A step is what the enforcer does. */
  lemma AuthorizeIsStep(g: Gatehouse, c: Config, l: Limits, token: string, a: Asked, now: int)
    requires WF(g.sessions)
    ensures Step(g, c, l, Authorize(token, a, now)) == Authorized(g, c, token, a, now).after
  {
    hide Decided;
  }

  ghost predicate GateInv(g: Gatehouse, c: Config, l: Limits, clock: int) {
    WF(g.sessions) && Inv(g.sessions, c, clock) && Proper(g.book, l)
  }

  ghost predicate LegalOp(g: Gatehouse, c: Config, clock: int, op: Op) {
    && clock <= ClockOf(op)
    && (op.Sessions? ==> Legal(g.sessions, c, clock, op.call))
    && (op.Elevate? ==> op.id !in g.book.grants)
  }

  /** An authorization that a step-up decided. */
  datatype Admission = Admission(grantId: Option<string>, use: Use, at: int)

  function Admitted(g: Gatehouse, c: Config, op: Op): seq<Admission> {
    if !op.Authorize? then []
    else
      var e := Authorized(g, c, op.token, op.asked, op.now);
      if e.verdict.Some? && e.verdict.value.decision.allowed && ByStepUp(op.asked)
      then [Admission(op.asked.grantId, UseOf(e.verdict.value.session, op.asked.action, op.asked.resource.resourceId),
                      op.now)]
      else []
  }

  lemma StepKeepsGate(g: Gatehouse, c: Config, l: Limits, clock: int, op: Op)
    requires GateInv(g, c, l, clock) && LegalOp(g, c, clock, op)
    ensures GateInv(Step(g, c, l, op), c, l, ClockOf(op)) && Ages(g.sessions, Step(g, c, l, op).sessions)
  {
    hide Inv, Ages, Proper, SessionModel.Step, Decided, Lookup;
    StepWF(g, c, l, op);
    SessionsKept(g.sessions, c, clock, op);
    BookKept(g, c, l, op);
  }

  lemma SessionsKept(s: State, c: Config, clock: int, op: Op)
    requires Inv(s, c, clock) && clock <= ClockOf(op) && (op.Sessions? ==> Legal(s, c, clock, op.call))
    ensures Inv(SessionsAfter(s, c, op), c, ClockOf(op)) && Ages(s, SessionsAfter(s, c, op))
  {
    hide WF, Known, LiveIndexed, IndexLive, HashesDiffer, Mirrored, Capped, Ages, Distinct, SessionModel.Step;
    match CallOf(op) {
      case Some(call) =>
        SessionTheorems.StepKeepsInv(s, c, clock, call);
      case None =>
        AgesReflexive(s);
        CapLater(s, c.cap, clock, ClockOf(op));
    }
  }

  lemma BookKept(g: Gatehouse, c: Config, l: Limits, op: Op)
    requires Proper(g.book, l)
    ensures Proper(BookAfter(g, c, l, op), l)
  {
    hide Lookup, Proper, Evaluated, ConsumeRefusal;
    match op {
      case Sessions(_) =>
      case Elevate(sid, action, resourceId, authTime, acr, now, id) =>
        if sid in g.sessions.byId {
          IssueKeepsProper(g.book, l, UseOf(g.sessions.byId[sid], action, resourceId), authTime, acr, now, id);
        }
      case Authorize(token, a, now) =>
        var found := Lookup(g.sessions, c, token, now);
        if found.Some? && a.grantId.Some? {
          ConsumeKeepsProper(g.book, l, a.grantId.value, UseOf(found.value, a.action, a.resource.resourceId), now);
        }
    }
  }

  const NOTHING := Gatehouse(Empty(), Book(map[], {}))

  lemma EmptyGateInv(c: Config, l: Limits, clock: int)
    ensures GateInv(NOTHING, c, l, clock)
  {
    SessionTheorems.EmptyInv(c, clock);
  }

  ghost function Run(g: Gatehouse, c: Config, l: Limits, ops: seq<Op>): Gatehouse
    requires WF(g.sessions)
    ensures WF(Run(g, c, l, ops).sessions)
    decreases |ops|
  {
    if ops == [] then g
    else
      StepWF(g, c, l, ops[0]);
      Run(Step(g, c, l, ops[0]), c, l, ops[1..])
  }

  lemma StepWF(g: Gatehouse, c: Config, l: Limits, op: Op)
    requires WF(g.sessions)
    ensures WF(Step(g, c, l, op).sessions)
  {
    hide WF;
    if CallOf(op).Some? {
      SessionModel.StepWF(g.sessions, c, CallOf(op).value);
    }
  }

  ghost predicate LegalRun(g: Gatehouse, c: Config, l: Limits, clock: int, ops: seq<Op>)
    requires WF(g.sessions)
    decreases |ops|
  {
    ops == []
    || (LegalOp(g, c, clock, ops[0])
        && (StepWF(g, c, l, ops[0]); LegalRun(Step(g, c, l, ops[0]), c, l, ClockOf(ops[0]), ops[1..])))
  }

  /** The step-up admissions of a run, in order. */
  ghost function History(g: Gatehouse, c: Config, l: Limits, ops: seq<Op>): seq<Admission>
    requires WF(g.sessions)
    decreases |ops|
  {
    if ops == [] then []
    else
      StepWF(g, c, l, ops[0]);
      Admitted(g, c, ops[0]) + History(Step(g, c, l, ops[0]), c, l, ops[1..])
  }

  /** The grant behind an admission: spent, issued for this very use, unexpired then, of
      accepted assurance, its authentication less than two lifetimes old. */
  ghost predicate Backed(b: Book, l: Limits, a: Admission) {
    && a.grantId.Some? && a.grantId.value in b.consumed && a.grantId.value in b.grants
    && var g := b.grants[a.grantId.value];
       && Use(g.sessionId, g.tenantId, g.action, g.resourceId) == a.use
       && a.at < g.expiresAt && a.at - g.authTime < 2 * l.ttl
       && g.acr.Some? && g.acr.value in l.allowed
  }

  /** `later` comes after `b`: grants stay as issued, and spent ones stay spent. */
  ghost predicate BookGrows(b: Book, later: Book) {
    && b.consumed <= later.consumed
    && forall id | id in b.grants :: id in later.grants && later.grants[id] == b.grants[id]
  }

  function GrantsOf(h: seq<Admission>): set<string> {
    set a | a in h && a.grantId.Some? :: a.grantId.value
  }

  /** Pairwise different grants. */
  ghost predicate NoGrantTwice(h: seq<Admission>) {
    forall i, j | 0 <= i < j < |h| :: h[i].grantId != h[j].grantId
  }

  lemma StepSpends(g: Gatehouse, c: Config, l: Limits, op: Op, clock: int)
    requires Proper(g.book, l) && LegalOp(g, c, clock, op)
    ensures var h, later := Admitted(g, c, op), BookAfter(g, c, l, op);
            && BookGrows(g.book, later) && |h| <= 1
            && (h == [] ==> later.consumed == g.book.consumed)
            && (h != [] ==>
                  Backed(later, l, h[0]) && h[0].grantId.value !in g.book.consumed
                  && later.consumed == g.book.consumed + {h[0].grantId.value})
  {
    hide Lookup, Proper, Evaluated, ByStepUp, Authenticate, Legal, Decided;
    if op.Authorize? && Lookup(g.sessions, c, op.token, op.now).Some? {
      var r := Lookup(g.sessions, c, op.token, op.now).value;
      StepUpSpendsExactlyOne(g.book, l, r, op.asked, op.now);
      if Admitted(g, c, op) != [] {
        AcceptedGrant(g.book, l, op.asked.grantId.value, UseOf(r, op.asked.action, op.asked.resource.resourceId),
                      op.now);
      }
    }
  }

  lemma BackedLater(b: Book, later: Book, l: Limits, a: Admission)
    requires Backed(b, l, a) && BookGrows(b, later)
    ensures Backed(later, l, a)
  {
  }

  /** The admissions `h` account for everything that changed between two books: each has
      its own grant, spent on it and on nothing else, and no other grant was spent. */
  ghost predicate Accounted(h: seq<Admission>, before: Book, later: Book, l: Limits) {
    && BookGrows(before, later) && NoGrantTwice(h)
    && (forall a | a in h :: Backed(later, l, a) && a.grantId.value !in before.consumed)
    && later.consumed == before.consumed + GrantsOf(h)
  }

  lemma AccountedNothing(b: Book, later: Book, end: Book, l: Limits, rest: seq<Admission>)
    requires BookGrows(b, later) && later.consumed == b.consumed && Accounted(rest, later, end, l)
    ensures Accounted(rest, b, end, l)
  {
  }

  lemma AccountedOne(a: Admission, b: Book, later: Book, end: Book, l: Limits, rest: seq<Admission>)
    requires BookGrows(b, later) && Backed(later, l, a) && a.grantId.value !in b.consumed
    requires later.consumed == b.consumed + {a.grantId.value}
    requires Accounted(rest, later, end, l)
    ensures Accounted([a] + rest, b, end, l)
  {
    ConsHistory(a, rest, later.consumed);
    BackedLater(later, end, l, a);
    forall x | x in [a] + rest ensures Backed(end, l, x) && x.grantId.value !in b.consumed {
      assert x == a || x in rest;
    }
  }

  lemma AccountedEmpty(b: Book, l: Limits)
    ensures Accounted([], b, b, l)
  {
    assert GrantsOf([]) == {};
  }

  /** Over every run from a proper state, its step-up admissions account for its grants. */
  lemma {:induction false} RunSpends(g: Gatehouse, c: Config, l: Limits, clock: int, ops: seq<Op>)
    requires GateInv(g, c, l, clock) && LegalRun(g, c, l, clock, ops)
    ensures Accounted(History(g, c, l, ops), g.book, Run(g, c, l, ops).book, l)
    decreases |ops|
  {
    hide Inv, WF, Proper, Step, LegalOp, Backed, BookGrows, Admitted, Accounted;
    if ops == [] {
      AccountedEmpty(g.book, l);
    } else {
      var t := Step(g, c, l, ops[0]);
      StepWF(g, c, l, ops[0]);
      var first, rest := Admitted(g, c, ops[0]), History(t, c, l, ops[1..]);
      StepKeepsGate(g, c, l, clock, ops[0]);
      BookOfStep(g, c, l, ops[0]);
      StepSpends(g, c, l, ops[0], clock);
      RunSpends(t, c, l, ClockOf(ops[0]), ops[1..]);
      var end := Run(t, c, l, ops[1..]).book;
      if first != [] {
        AccountedOne(first[0], g.book, t.book, end, l, rest);
        assert first + rest == [first[0]] + rest;
      } else {
        AccountedNothing(g.book, t.book, end, l, rest);
        assert first + rest == rest;
      }
    }
  }

  /** From the start, the grants spent are exactly those of the step-up admissions, one
      each: there are no more such admissions than grants issued. */
  lemma SpentFromStart(c: Config, l: Limits, clock: int, ops: seq<Op>)
    requires LegalRun(NOTHING, c, l, clock, ops)
    ensures var h, end := History(NOTHING, c, l, ops), Run(NOTHING, c, l, ops).book;
            && NoGrantTwice(h) && (forall a | a in h :: Backed(end, l, a))
            && end.consumed == GrantsOf(h) && |end.consumed| == |h| <= |end.grants|
  {
    hide WF, Step, Backed, Inv, History, Run;
    EmptyGateInv(c, l, clock);
    RunSpends(NOTHING, c, l, clock, ops);
    var h, end := History(NOTHING, c, l, ops), Run(NOTHING, c, l, ops).book;
    GrantsCounted(h, end, l);
  }

  lemma GrantsCounted(h: seq<Admission>, b: Book, l: Limits)
    requires NoGrantTwice(h) && forall a | a in h :: Backed(b, l, a)
    ensures |GrantsOf(h)| == |h| <= |b.grants|
  {
    forall i | 0 <= i < |h| ensures h[i].grantId.Some? && h[i].grantId.value in b.grants {
      assert h[i] in h;
    }
    var ids := seq(|h|, i requires 0 <= i < |h| => h[i].grantId.value);
    assert forall i | 0 <= i < |h| :: ids[i] == h[i].grantId.value;
    hide Backed;
    assert Distinct(ids);
    DistinctCounts(ids);
    assert GrantsOf(h) == SetOf(ids) by {
      hide Distinct, NoGrantTwice;
      forall id ensures id in SetOf(ids) <==> id in GrantsOf(h) {
        if id in GrantsOf(h) {
          var a :| a in h && a.grantId == Some(id);
          var i :| 0 <= i < |h| && h[i] == a;
          assert ids[i] == id;
        }
        if id in SetOf(ids) {
          var i :| 0 <= i < |ids| && ids[i] == id;
          assert h[i] in h && h[i].grantId == Some(id);
        }
      }
    }
    assert SetOf(ids) <= b.grants.Keys;
    SubsetSize(SetOf(ids), b.grants.Keys);
  }

  lemma BookOfStep(g: Gatehouse, c: Config, l: Limits, op: Op)
    requires WF(g.sessions)
    ensures Step(g, c, l, op).book == BookAfter(g, c, l, op)
  {
  }

  lemma ConsHistory(a: Admission, rest: seq<Admission>, consumed: set<string>)
    requires a.grantId.Some? && a.grantId.value in consumed && NoGrantTwice(rest)
    requires forall x | x in rest :: x.grantId.Some? && x.grantId.value !in consumed
    ensures NoGrantTwice([a] + rest) && GrantsOf([a] + rest) == {a.grantId.value} + GrantsOf(rest)
  {
    var h := [a] + rest;
    forall i, j | 0 <= i < j < |h| ensures h[i].grantId != h[j].grantId {
      assert h[j] == rest[j - 1] && h[j] in rest;
      if i > 0 {
        assert h[i] == rest[i - 1];
      }
    }
    forall id ensures id in GrantsOf(h) <==> id in {a.grantId.value} + GrantsOf(rest) {
      if id in GrantsOf(h) {
        var x :| x in h && x.grantId == Some(id);
        assert x == a || x in rest;
      }
      if id in GrantsOf(rest) {
        var x :| x in rest && x.grantId == Some(id);
        assert x in h;
      }
      assert a in h;
    }
  }

  lemma LaterGrant(before: Book, later: Book, l: Limits, id: string, use: Use, at: int, now: int)
    requires BookGrows(before, later) && id in before.grants && id !in later.consumed && now < at + l.ttl
    requires var g := before.grants[id];
             g.issuedAt == at && Use(g.sessionId, g.tenantId, g.action, g.resourceId) == use
    ensures Fits(later, l, id, use, now)
  {
  }

  /** An accepted elevation is good for one lifetime: after any run, on a session that is still
      open, an authorization for the same use with the unspent grant is allowed when nothing
      but the step-up stands against it. */
  lemma ElevationAdmits(g: Gatehouse, c: Config, l: Limits, clock: int, up: Op, ops: seq<Op>, token: string, a: Asked,
                        now: int)
    requires GateInv(g, c, l, clock) && up.Elevate? && LegalOp(g, c, clock, up) && up.sessionId in g.sessions.byId
    requires up.now - l.ttl <= up.authTime <= up.now + 60 && up.acr.Some? && up.acr.value in l.allowed
    requires (StepWF(g, c, l, up); LegalRun(Step(g, c, l, up), c, l, up.now, ops))
    requires (StepWF(g, c, l, up);
              var end := Run(Step(g, c, l, up), c, l, ops);
              && Lookup(end.sessions, c, token, now).Some?
              && Lookup(end.sessions, c, token, now).value.sessionId == up.sessionId
              && up.id !in end.book.consumed)
    requires a.action == up.action && a.resource.resourceId == up.resourceId && a.grantId == Some(up.id)
    requires now < up.now + l.ttl
    requires Evaluated(Some(g.sessions.byId[up.sessionId].principal), a.action, a.resource,
                       a.request.(stepUpVerified := true)).allowed
    ensures WF(Step(g, c, l, up).sessions)
    ensures var verdict := Authorized(Run(Step(g, c, l, up), c, l, ops), c, token, a, now).verdict;
            verdict.Some? && verdict.value.decision.allowed
  {
    StepWF(g, c, l, up);
    var t := Step(g, c, l, up);
    var end := Run(t, c, l, ops);
    var r := Lookup(end.sessions, c, token, now).value;
    ElevationFiled(g, c, l, up);
    StepKeepsGate(g, c, l, clock, up);
    RunSpends(t, c, l, up.now, ops);
    RunKeepsGate(t, c, l, up.now, ops);
    OpenedRecord(end.sessions, c, token, now);
    assert Older(t.sessions.byId[up.sessionId], r) && t.sessions == g.sessions;
    hide Lookup, Evaluated, Proper, Step, Run, LegalRun, Ages, Inv, WF, Decided;
    LaterGrant(t.book, end.book, l, up.id, UseOf(r, a.action, a.resource.resourceId), up.now, now);
    AllowedExactly(end.book, l, r, a, now);
  }

  lemma ElevationFiled(g: Gatehouse, c: Config, l: Limits, up: Op)
    requires WF(g.sessions) && up.Elevate? && up.sessionId in g.sessions.byId
    requires up.now - l.ttl <= up.authTime <= up.now + 60 && up.acr.Some? && up.acr.value in l.allowed
    ensures var book, r := Step(g, c, l, up).book, g.sessions.byId[up.sessionId];
            && up.id in book.grants && book.grants[up.id].issuedAt == up.now
            && book.grants[up.id].sessionId == r.sessionId && book.grants[up.id].tenantId == r.principal.tenantId
            && book.grants[up.id].action == up.action && book.grants[up.id].resourceId == up.resourceId
  {
    IssuedExactly(g.book, l, UseOf(g.sessions.byId[up.sessionId], up.action, up.resourceId), up.authTime, up.acr,
                  up.now, up.id);
  }

  lemma OpenedRecord(s: State, c: Config, token: string, now: int)
    requires WF(s) && Lookup(s, c, token, now).Some?
    ensures var r := Lookup(s, c, token, now).value; r.sessionId in s.byId && s.byId[r.sessionId] == r
  {
  }

  lemma {:induction false} RunKeepsGate(g: Gatehouse, c: Config, l: Limits, clock: int, ops: seq<Op>)
    requires GateInv(g, c, l, clock) && LegalRun(g, c, l, clock, ops)
    ensures Proper(Run(g, c, l, ops).book, l) && Ages(g.sessions, Run(g, c, l, ops).sessions)
    decreases |ops|
  {
    hide Inv, WF, Proper, Step, LegalOp, Ages;
    AgesReflexive(g.sessions);
    if ops != [] {
      var t := Step(g, c, l, ops[0]);
      StepWF(g, c, l, ops[0]);
      StepKeepsGate(g, c, l, clock, ops[0]);
      RunKeepsGate(t, c, l, ClockOf(ops[0]), ops[1..]);
      AgesTransitive(g.sessions, t.sessions, Run(g, c, l, ops).sessions);
    }
  }

  /** Whatever grants it still holds, a revoked session never passes a step-up again. */
  lemma {:induction false} RevokedSessionsSpendNothing(g: Gatehouse, c: Config, l: Limits, clock: int, ops: seq<Op>,
                                                       sid: string)
    requires GateInv(g, c, l, clock) && LegalRun(g, c, l, clock, ops)
    requires sid in g.sessions.byId && g.sessions.byId[sid].status == REVOKED
    ensures forall a | a in History(g, c, l, ops) :: a.use.sessionId != sid
    decreases |ops|
  {
    hide Inv, WF, Proper, Step, LegalOp, Admitted, Ages;
    if ops != [] {
      var t := Step(g, c, l, ops[0]);
      StepKeepsGate(g, c, l, clock, ops[0]);
      StaysRevoked(g.sessions, t.sessions, sid);
      RevokedIsNotAdmitted(g, c, ops[0], sid);
      RevokedSessionsSpendNothing(t, c, l, ClockOf(ops[0]), ops[1..], sid);
    }
  }

  lemma StaysRevoked(s: State, t: State, sid: string)
    requires Ages(s, t) && sid in s.byId && s.byId[sid].status == REVOKED
    ensures sid in t.byId && t.byId[sid].status == REVOKED
  {
    assert Older(s.byId[sid], t.byId[sid]);
  }

  lemma RevokedIsNotAdmitted(g: Gatehouse, c: Config, op: Op, sid: string)
    requires WF(g.sessions) && sid in g.sessions.byId && g.sessions.byId[sid].status == REVOKED
    ensures forall a | a in Admitted(g, c, op) :: a.use.sessionId != sid
  {
    hide Decided;
  }
}
