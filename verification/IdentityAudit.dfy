/** The append-only, hash-chained identity audit log. */
module IdentityAudit {
  import opened HashChain
  import opened Prelude

  datatype Detail = Text(text: string) | Count(count: int)

  /** Everything an event's digest covers. */
  datatype Body = Body(
    sequence: nat,
    occurredAt: int,
    eventType: string,
    actorSubject: Option<string>,
    tenantId: Option<string>,
    sessionId: Option<string>,
    outcome: string,
    details: map<string, Detail>,
    previousHash: string)

  /** The caller's part of an event: the body without its place in the chain. */
  datatype Entry = Entry(
    occurredAt: int,
    eventType: string,
    actorSubject: Option<string>,
    tenantId: Option<string>,
    sessionId: Option<string>,
    outcome: string,
    details: map<string, Detail>)

  type Log = seq<Link<Body>>
  type Digest = Body -> string

  const GENESIS := "GENESIS"

  function PreviousHash(b: Body): string {
    b.previousHash
  }

  function Place(log: Log, e: Entry): Body {
    Body(|log| + 1, e.occurredAt, e.eventType, e.actorSubject, e.tenantId, e.sessionId, e.outcome, e.details,
         Head(log, GENESIS))
  }

  function Appended(log: Log, e: Entry, h: Digest): Log {
    log + [Link(Place(log, e), h(Place(log, e)))]
  }

  function AppendedAll(log: Log, es: seq<Entry>, h: Digest): Log
    decreases |es|
  {
    if es == [] then log else AppendedAll(Appended(log, es[0], h), es[1..], h)
  }

  function Content(b: Body): Entry {
    Entry(b.occurredAt, b.eventType, b.actorSubject, b.tenantId, b.sessionId, b.outcome, b.details)
  }

  function Contents(log: Log): seq<Entry> {
    seq(|log|, i requires 0 <= i < |log| => Content(log[i].body))
  }

  predicate Accepted(log: Log, h: Digest) {
    Linked(log, PreviousHash, h, GENESIS)
  }

  ghost predicate Numbered(log: Log) {
    forall i | 0 <= i < |log| :: log[i].body.sequence == i + 1
  }

  /** Appending records exactly the caller's entry, after an unchanged past, and the
      longer log is again accepted and numbered without a gap. */
  lemma AppendKeepsLog(log: Log, e: Entry, h: Digest)
    requires Accepted(log, h) && Numbered(log)
    ensures Accepted(Appended(log, e, h), h) && Numbered(Appended(log, e, h))
    ensures log <= Appended(log, e, h)
    ensures Contents(Appended(log, e, h)) == Contents(log) + [e]
    ensures var body := Body(|log| + 1, e.occurredAt, e.eventType, e.actorSubject, e.tenantId, e.sessionId, e.outcome,
                             e.details, if log == [] then "GENESIS" else log[|log| - 1].digest);
            Appended(log, e, h) == log + [Link(body, h(body))]
  {
    AppendLinked(log, Place(log, e), PreviousHash, h, GENESIS);
  }

  /** The digest is that of the body, and the body names the digest before it, the first
      one "GENESIS". */
  ghost predicate Chained(log: Log, i: nat, h: Digest)
    requires i < |log|
  {
    && log[i].digest == h(log[i].body)
    && log[i].body.previousHash == if i == 0 then "GENESIS" else log[i - 1].digest
  }

  lemma ChainedExactly(log: Log, i: nat, h: Digest)
    requires i < |log|
    ensures LinkOk(log, i, PreviousHash, h, GENESIS) <==> Chained(log, i, h)
  {
    assert |log[..i]| == i && (i > 0 ==> log[..i][i - 1] == log[i - 1]);
  }

  /** A log verifies exactly when all its events are chained. */
  lemma VerifiesExactly(log: Log, h: Digest)
    ensures Accepted(log, h) <==> forall i: nat | i < |log| :: Chained(log, i, h)
  {
    hide LinkOk, Chained;
    forall i: nat | i < |log| ensures LinkOk(log, i, PreviousHash, h, GENESIS) <==> Chained(log, i, h) {
      ChainedExactly(log, i, h);
    }
  }

  /** Every log written by `append` alone verifies, whatever the digest function. */
  lemma {:induction false} WrittenLogsVerify(log: Log, es: seq<Entry>, h: Digest)
    requires Accepted(log, h) && Numbered(log)
    ensures Accepted(AppendedAll(log, es, h), h) && Numbered(AppendedAll(log, es, h))
    ensures log <= AppendedAll(log, es, h)
    ensures Contents(AppendedAll(log, es, h)) == Contents(log) + es
    decreases |es|
  {
    if es != [] {
      AppendKeepsLog(log, es[0], h);
      WrittenLogsVerify(Appended(log, es[0], h), es[1..], h);
      assert es == [es[0]] + es[1..];
      assert Contents(log) + [es[0]] + es[1..] == Contents(log) + es;
    } else {
      assert Contents(log) + es == Contents(log);
    }
  }

  /** The head hash identifies the whole history, although `verify_chain` never looks at
      the sequence numbers: no digest can be mistaken for the genesis marker. */
  lemma HeadIdentifiesHistory(xs: Log, ys: Log, h: Digest)
    requires Injective(h) && Avoids(h, GENESIS)
    requires Accepted(xs, h) && Accepted(ys, h)
    ensures Head(xs, GENESIS) == Head(ys, GENESIS) <==> xs == ys
  {
    if Head(xs, GENESIS) == Head(ys, GENESIS) {
      SameHeadSameLength(xs, ys, PreviousHash, h, GENESIS);
      SameHeadSamePast(xs, ys, PreviousHash, h, GENESIS);
    }
  }

  class IdentityAuditLog {
    const h: Digest
    var events: Log

    ghost predicate Valid()
      reads this
    {
      Accepted(events, h) && Numbered(events)
    }

    constructor (h: Digest)
      ensures Valid() && events == [] && this.h == h
    {
      this.h := h;
      events := [];
    }

    method Append(e: Entry)
      requires Valid()
      modifies this
      ensures Valid() && events == Appended(old(events), e, h)
    {
      AppendKeepsLog(events, e, h);
      var body := Place(events, e);
      events := events + [Link(body, h(body))];
    }

    /** Answers for any stored events, not only for those `Append` wrote. */
    method VerifyChain() returns (ok: bool)
      ensures ok <==> Accepted(events, h)
    {
      var previous := GENESIS;
      for i := 0 to |events|
        invariant previous == Head(events[..i], GENESIS)
        invariant forall k: nat | k < i :: LinkOk(events, k, PreviousHash, h, GENESIS)
      {
        var event := events[i];
        if event.body.previousHash != previous || h(event.body) != event.digest {
          assert !LinkOk(events, i, PreviousHash, h, GENESIS);
          return false;
        }
        previous := event.digest;
      }
      return true;
    }
  }
}
