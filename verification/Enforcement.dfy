/** Authorization of a request: authenticate, evaluate the policy, spend a step-up grant if
    the policy asks for one, and evaluate again. */
module Enforcement {
  import opened Prelude
  import opened SessionModel
  import opened SessionManagement
  import opened StepUp
  import opened AuthorizationPolicy

  datatype Gatehouse = Gatehouse(sessions: State, book: Book)

  datatype Verdict = Verdict(session: Record, decision: Decision)

  /** `verdict` is None when the token opens no session. */
  datatype Enforced = Enforced(after: Gatehouse, verdict: Option<Verdict>)

  datatype Asked = Asked(action: string, resource: Resource, request: Request, grantId: Option<string>)

  const INVALID_GRANT := Decision(false, "invalid_step_up_grant", true)

  function Decided(b: Book, r: Record, a: Asked, now: int): (Book, Decision) {
    var preliminary := Evaluated(Some(r.principal), a.action, a.resource, a.request);
    if !preliminary.requiresStepUp || preliminary.allowed || a.grantId.None? then (b, preliminary)
    else
      var use := UseOf(r, a.action, a.resource.resourceId);
      if ConsumeRefusal(b, a.grantId.value, use, now).Some? then (b, INVALID_GRANT)
      else (Spent(b, a.grantId.value, use, now),
            Evaluated(Some(r.principal), a.action, a.resource, a.request.(stepUpVerified := true)))
  }

  function Authorized(g: Gatehouse, c: Config, token: string, a: Asked, now: int): Enforced {
    match Lookup(g.sessions, c, token, now)
    case None => Enforced(g, None)
    case Some(r) =>
      var (book, decision) := Decided(g.book, r, a, now);
      Enforced(Gatehouse(Authenticate(g.sessions, c, token, now, true), book),
               Some(Verdict(r.(lastSeenAt := now), decision)))
  }

  class IdentityEnforcer {
    const sessions: SessionManager
    const stepUp: StepUpManager

    ghost predicate Valid()
      reads sessions, sessions.store, sessions.audit
    {
      sessions.Valid()
    }

    ghost function View(): Gatehouse
      reads sessions, sessions.store, sessions.store.byId.Values, sessions.audit, stepUp
    {
      Gatehouse(sessions.View(), stepUp.View())
    }

    constructor (sessions: SessionManager, stepUp: StepUpManager)
      requires sessions.Valid()
      ensures Valid() && this.sessions == sessions && this.stepUp == stepUp
    {
      this.sessions, this.stepUp := sessions, stepUp;
    }

    method Enter(token: string, now: int) returns (session: SessionRecord?)
      requires Valid()
      modifies sessions.store.byId.Values
      ensures Valid()
      ensures var before := old(sessions.View());
              && sessions.View() == SessionModel.Authenticate(before, sessions.config, token, now, true)
              && match Lookup(before, sessions.config, token, now)
                 case None => session == null && sessions.View() == before
                 case Some(r) => session != null && session.View() == r.(lastSeenAt := now)
    {
      ghost var before := sessions.View();
      session := sessions.Authenticate(token, now, true);
      if session != null {
        TouchedRecord(before, sessions.config, token, now);
        assert sessions.View().byId[session.sessionId] == session.View();
      }
    }

    /** A null session stands for the error of an invalid or expired token. */
    method Authorize(token: string, a: Asked, now: int) returns (session: SessionRecord?, decision: Decision)
      requires Valid()
      modifies sessions.store.byId.Values, stepUp
      ensures Valid()
      ensures var e := Authorized(old(View()), sessions.config, token, a, now);
              && View() == e.after
              && (session == null <==> e.verdict.None?)
              && (session != null ==> e.verdict == Some(Verdict(session.View(), decision)))
    {
      hide Lookup, SessionModel.Authenticate, Decided;
      session := Enter(token, now);
      if session == null {
        return null, INVALID_GRANT;
      }
      decision := Decide(session, a, now);
      DecidedIgnoresTouch(old(stepUp.View()), session.View(), a, now);
    }

    method Decide(session: SessionRecord, a: Asked, now: int) returns (decision: Decision)
      modifies stepUp
      ensures (stepUp.View(), decision) == Decided(old(stepUp.View()), session.View(), a, now)
    {
      hide Evaluated, ConsumeRefusal;
      decision := Evaluate(Some(session.principal), a.action, a.resource, a.request);
      if decision.requiresStepUp && !decision.allowed {
        if a.grantId.None? {
          return;
        }
        var spent := stepUp.Consume(a.grantId.value, session, a.action, a.resource.resourceId, now);
        if spent.Err? {
          return INVALID_GRANT;
        }
        decision := Evaluate(Some(session.principal), a.action, a.resource, a.request.(stepUpVerified := true));
      }
    }
  }

  lemma TouchedRecord(s: State, c: Config, token: string, now: int)
    requires WF(s) && Lookup(s, c, token, now).Some?
    ensures var r := Lookup(s, c, token, now).value;
            var t := SessionModel.Authenticate(s, c, token, now, true);
            r.sessionId in t.byId && t.byId[r.sessionId] == r.(lastSeenAt := now)
  {
  }

  lemma DecidedIgnoresTouch(b: Book, r: Record, a: Asked, now: int)
    ensures forall seen: int :: Decided(b, r.(lastSeenAt := seen), a, now) == Decided(b, r, a, now)
  {
  }
}
