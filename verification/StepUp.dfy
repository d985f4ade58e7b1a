/** Step-up grants: proofs of a recent stronger authentication, each bound to one session,
    tenant, action and resource, and good for one use. */
module StepUp {
  import opened Prelude
  import opened SessionModel
  import opened SessionManagement

  datatype Grant = Grant(
    grantId: string, sessionId: string, action: string, resourceId: string, tenantId: string,
    issuedAt: int, expiresAt: int, authTime: int, acr: Option<string>, oneTime: bool)

  datatype Book = Book(grants: map<string, Grant>, consumed: set<string>)

  datatype Limits = Limits(ttl: int, allowed: set<string>)

  datatype Failure =
    | AuthenticationTimeInvalid | AuthenticationTooOld | AssuranceInsufficient
    | InvalidOrConsumed | Expired | SessionBindingMismatch | ScopeMismatch

  /** What a grant is presented for. */
  datatype Use = Use(sessionId: string, tenantId: string, action: string, resourceId: string)

  function UseOf(r: Record, action: string, resourceId: string): Use {
    Use(r.sessionId, r.principal.tenantId, action, resourceId)
  }

  const CLOCK_SKEW := 60

  function IssueRefusal(c: Limits, authTime: int, acr: Option<string>, now: int): Option<Failure> {
    if authTime > now + CLOCK_SKEW then Some(AuthenticationTimeInvalid)
    else if authTime < now - c.ttl then Some(AuthenticationTooOld)
    else if acr.None? || acr.value !in c.allowed then Some(AssuranceInsufficient)
    else None
  }

  function NewGrant(c: Limits, use: Use, authTime: int, acr: Option<string>, now: int, id: string): Grant {
    Grant(id, use.sessionId, use.action, use.resourceId, use.tenantId, now, now + c.ttl, authTime, acr, true)
  }

  function Issued(b: Book, c: Limits, use: Use, authTime: int, acr: Option<string>, now: int, id: string): Book {
    if IssueRefusal(c, authTime, acr, now).Some? then b
    else b.(grants := b.grants[id := NewGrant(c, use, authTime, acr, now, id)])
  }

  function ConsumeRefusal(b: Book, id: string, use: Use, now: int): Option<Failure> {
    if id !in b.grants || id in b.consumed then Some(InvalidOrConsumed)
    else
      var g := b.grants[id];
      if g.expiresAt <= now then Some(Expired)
      else if g.sessionId != use.sessionId || g.tenantId != use.tenantId then Some(SessionBindingMismatch)
      else if g.action != use.action || g.resourceId != use.resourceId then Some(ScopeMismatch)
      else None
  }

  function Spent(b: Book, id: string, use: Use, now: int): Book {
    if ConsumeRefusal(b, id, use, now).Some? || !b.grants[id].oneTime then b
    else b.(consumed := b.consumed + {id})
  }

  class StepUpManager {
    const limits: Limits
    var grants: map<string, Grant>
    var consumed: set<string>

    function View(): Book
      reads this
    {
      Book(grants, consumed)
    }

    constructor (limits: Limits)
      requires limits.allowed != {}
      ensures this.limits == limits && View() == Book(map[], {})
    {
      this.limits, grants, consumed := limits, map[], {};
    }

    /** An empty set of acceptable assurance levels is refused with null. */
    static method Create(limits: Limits) returns (m: StepUpManager?)
      ensures m == null <==> limits.allowed == {}
      ensures m != null ==> fresh(m) && m.limits == limits && m.View() == Book(map[], {})
    {
      if limits.allowed == {} {
        return null;
      }
      m := new StepUpManager(limits);
    }

    /** `id` is the drawn grant id. */
    method Issue(session: SessionRecord, action: string, resourceId: string, authTime: int, acr: Option<string>,
                 now: int, id: string)
      returns (r: Result<Grant, Failure>)
      modifies this
      ensures var use := UseOf(session.View(), action, resourceId);
              && View() == Issued(old(View()), limits, use, authTime, acr, now, id)
              && r == match IssueRefusal(limits, authTime, acr, now)
                      case Some(f) => Err(f)
                      case None => Ok(NewGrant(limits, use, authTime, acr, now, id))
    {
      if authTime > now + CLOCK_SKEW {
        return Err(AuthenticationTimeInvalid);
      }
      if authTime < now - limits.ttl {
        return Err(AuthenticationTooOld);
      }
      if acr.None? || acr.value !in limits.allowed {
        return Err(AssuranceInsufficient);
      }
      var grant := Grant(id, session.sessionId, action, resourceId, session.principal.tenantId,
                         now, now + limits.ttl, authTime, acr, true);
      grants := grants[id := grant];
      return Ok(grant);
    }

    method Consume(id: string, session: SessionRecord, action: string, resourceId: string, now: int)
      returns (r: Result<Grant, Failure>)
      modifies this
      ensures var use := UseOf(session.View(), action, resourceId);
              && View() == Spent(old(View()), id, use, now)
              && r == match ConsumeRefusal(old(View()), id, use, now)
                      case Some(f) => Err(f)
                      case None => Ok(old(grants)[id])
    {
      if id !in grants || id in consumed {
        return Err(InvalidOrConsumed);
      }
      var grant := grants[id];
      if grant.expiresAt <= now {
        return Err(Expired);
      }
      if grant.sessionId != session.sessionId || grant.tenantId != session.principal.tenantId {
        return Err(SessionBindingMismatch);
      }
      if grant.action != action || grant.resourceId != resourceId {
        return Err(ScopeMismatch);
      }
      if grant.oneTime {
        consumed := consumed + {id};
      }
      return Ok(grant);
    }
  }

  // ---- what the book always holds

  /** Every grant is filed under its id, is one-time, and rests on an authentication of
      accepted assurance that was recent when the grant was issued. */
  ghost predicate Proper(b: Book, c: Limits) {
    && b.consumed <= b.grants.Keys
    && forall id | id in b.grants ::
         var g := b.grants[id];
         && g.grantId == id && g.oneTime && g.expiresAt == g.issuedAt + c.ttl
         && g.issuedAt - c.ttl <= g.authTime <= g.issuedAt + CLOCK_SKEW
         && g.acr.Some? && g.acr.value in c.allowed
  }

  lemma IssueKeepsProper(b: Book, c: Limits, use: Use, authTime: int, acr: Option<string>, now: int, id: string)
    requires Proper(b, c)
    ensures Proper(Issued(b, c, use, authTime, acr, now, id), c)
  {
  }

  lemma ConsumeKeepsProper(b: Book, c: Limits, id: string, use: Use, now: int)
    requires Proper(b, c)
    ensures Proper(Spent(b, id, use, now), c)
  {
  }

  /** A grant is issued exactly when the authentication is at most one lifetime old, at most a
      minute ahead, and of accepted assurance; which of the three is missing decides the
      refusal, in this order. What is filed is bound to the use and lives for one lifetime. */
  lemma IssuedExactly(b: Book, c: Limits, use: Use, authTime: int, acr: Option<string>, now: int, id: string)
    ensures match IssueRefusal(c, authTime, acr, now)
            case None => now - c.ttl <= authTime <= now + 60 && acr.Some? && acr.value in c.allowed
            case Some(AuthenticationTimeInvalid) => authTime > now + 60
            case Some(AuthenticationTooOld) => authTime <= now + 60 && authTime < now - c.ttl
            case Some(AssuranceInsufficient) =>
              now - c.ttl <= authTime <= now + 60 && (acr.None? || acr.value !in c.allowed)
            case _ => false
    ensures var t := Issued(b, c, use, authTime, acr, now, id);
            var g := Grant(id, use.sessionId, use.action, use.resourceId, use.tenantId, now, now + c.ttl, authTime, acr,
                           true);
            t == if now - c.ttl <= authTime <= now + 60 && acr.Some? && acr.value in c.allowed
                 then Book(b.grants[id := g], b.consumed) else b
  {
  }

  /** The grant is filed and unspent, less than a lifetime old, and made for this use. */
  predicate Fits(b: Book, c: Limits, id: string, use: Use, now: int) {
    && id in b.grants && id !in b.consumed
    && now < b.grants[id].issuedAt + c.ttl
    && b.grants[id].sessionId == use.sessionId && b.grants[id].tenantId == use.tenantId
    && b.grants[id].action == use.action && b.grants[id].resourceId == use.resourceId
  }

  /** A grant is accepted exactly when it fits; otherwise the first thing that does not fit
      decides the refusal. Accepting it uses up this grant and no other. */
  lemma AcceptedExactly(b: Book, c: Limits, id: string, use: Use, now: int)
    requires Proper(b, c)
    ensures match ConsumeRefusal(b, id, use, now)
            case None => Fits(b, c, id, use, now)
            case Some(InvalidOrConsumed) => id !in b.grants || id in b.consumed
            case Some(Expired) => id in b.grants && id !in b.consumed && now >= b.grants[id].issuedAt + c.ttl
            case Some(SessionBindingMismatch) =>
              && id in b.grants && id !in b.consumed && now < b.grants[id].issuedAt + c.ttl
              && (b.grants[id].sessionId != use.sessionId || b.grants[id].tenantId != use.tenantId)
            case Some(ScopeMismatch) =>
              && id in b.grants && id !in b.consumed && now < b.grants[id].issuedAt + c.ttl
              && b.grants[id].sessionId == use.sessionId && b.grants[id].tenantId == use.tenantId
              && (b.grants[id].action != use.action || b.grants[id].resourceId != use.resourceId)
            case _ => false
    ensures Spent(b, id, use, now) == if Fits(b, c, id, use, now) then Book(b.grants, b.consumed + {id}) else b
  {
  }

  /** A grant that is accepted was issued for exactly this use and never accepted before;
      the authentication behind it has accepted assurance and is less than two grant
      lifetimes old; accepting it uses up this grant and no other. */
  lemma AcceptedGrant(b: Book, c: Limits, id: string, use: Use, now: int)
    requires Proper(b, c) && ConsumeRefusal(b, id, use, now).None?
    ensures id in b.grants && id !in b.consumed
    ensures var g := b.grants[id];
            && Use(g.sessionId, g.tenantId, g.action, g.resourceId) == use
            && g.acr.Some? && g.acr.value in c.allowed
            && now - g.authTime < 2 * c.ttl
    ensures Spent(b, id, use, now) == Book(b.grants, b.consumed + {id})
  {
  }
}
