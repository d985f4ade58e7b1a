/** Bounded node execution: retries with backoff, a circuit breaker threaded through the
    calls, and a single compensation after a partial mutation. */
module NodeResilience {
  import opened Prelude

  datatype Category =
    | Timeout | RateLimited | DependencyUnavailable | Transient
    | Validation | Authorization | PolicyDenied | ScopeViolation | Permanent | Unknown

  const MAX_ATTEMPTS := 3
  const MIN_TIMEOUT := 1.0
  const MAX_TIMEOUT := 60.0
  const FAILURE_THRESHOLD := 3
  const OPEN_SECONDS := 30.0
  const HALF_OPEN_PROBES := 1
  const BACKOFF_SECONDS := [0, 1, 2]

  predicate Retryable(c: Category) {
    c == Timeout || c == RateLimited || c == DependencyUnavailable || c == Transient
  }

  // ---- the circuit

  datatype Status = Closed | Open | HalfOpen

  datatype Circuit = Circuit(status: Status, failures: int, openedAt: Option<real>, probes: int)

  function FreshCircuit(): Circuit {
    Circuit(Closed, 0, None, 0)
  }

  function CircuitBefore(c: Circuit, now: real): Circuit {
    if c.status == Open && c.openedAt.Some? && now - c.openedAt.value >= OPEN_SECONDS
    then Circuit(HalfOpen, c.failures, c.openedAt, 0)
    else c
  }

  function CircuitFailure(c: Circuit, now: real): Circuit {
    var count := c.failures + 1;
    if c.status == HalfOpen || count >= FAILURE_THRESHOLD then Circuit(Open, count, Some(now), 0)
    else Circuit(Closed, count, None, 0)
  }

  // ---- one call

  /** How one attempt of the operation ends. */
  datatype Outcome =
    | Succeeds(value: string)
    | Fails(category: Category, message: string, partialMutation: bool)
    | Cancelled

  /** What the surroundings decide during a call: attempt outcomes and clock readings by
      number, and whether compensating would succeed when a compensator is given. */
  datatype World = World(outcome: nat -> Outcome, clock: nat -> real, compensator: Option<bool>, idempotencyKey: string)

  datatype EventKind = SuccessEvent | FailureEvent | TimeoutEvent | CircuitOpenEvent | CompensatedEvent
    | CompensationFailedEvent

  datatype AttemptEvent = AttemptEvent(attempt: nat, kind: EventKind, category: Option<Category>, message: string)

  datatype Verdict = Succeeded | Failed | Compensated | Escalated

  datatype Reply =
    | Returned(verdict: Verdict, value: Option<string>, events: seq<AttemptEvent>, circuit: Circuit)
    | InvalidArgument
    | CancellationRaised

  datatype Effect = Operate(attempt: nat) | Sleep(seconds: int) | Compensate(key: string)

  datatype Trace = Trace(reply: Reply, effects: seq<Effect>)

  function FailureEntry(k: nat, f: Outcome): AttemptEvent
    requires f.Fails?
  {
    AttemptEvent(k, if f.category == Timeout then TimeoutEvent else FailureEvent, Some(f.category), f.message)
  }

  /** The end of a call none of whose attempts succeeded. */
  function Conclude(w: World, c: Circuit, events: seq<AttemptEvent>, effects: seq<Effect>, partialMutation: bool,
                    last: Category): Trace
  {
    if !partialMutation then
      Trace(Returned(Failed, None, events, c), effects)
    else if w.compensator.None? || w.idempotencyKey == "" then
      Trace(Returned(Escalated, None, events + [AttemptEvent(|events| + 1, CompensationFailedEvent, Some(last),
                                                             "Compensation unavailable")], c),
            effects)
    else if w.compensator.value then
      Trace(Returned(Compensated, None, events + [AttemptEvent(|events| + 1, CompensatedEvent, None,
                                                               "Compensation succeeded")], c),
            effects + [Compensate(w.idempotencyKey)])
    else
      Trace(Returned(Escalated, None, events + [AttemptEvent(|events| + 1, CompensationFailedEvent, Some(last),
                                                             "Compensation failed")], c),
            effects + [Compensate(w.idempotencyKey)])
  }

  /** No further attempt follows failure `f` at attempt `k` that left circuit `c`. */
  predicate GivesUp(k: nat, f: Outcome, c: Circuit)
    requires f.Fails?
  {
    !Retryable(f.category) || k >= MAX_ATTEMPTS || c.status == Open
  }

  /** Attempts `k` to 3. */
  function Attempts(k: nat, w: World, c: Circuit, events: seq<AttemptEvent>, effects: seq<Effect>,
                    partialMutation: bool): Trace
    requires 1 <= k <= MAX_ATTEMPTS
    decreases MAX_ATTEMPTS - k
  {
    var tried := effects + [Operate(k)];
    match w.outcome(k)
    case Succeeds(v) =>
      Trace(Returned(Succeeded, Some(v), events + [AttemptEvent(k, SuccessEvent, None, "Node execution succeeded")],
                     FreshCircuit()), tried)
    case Cancelled =>
      Trace(CancellationRaised, tried)
    case Fails(category, message, p) =>
      var after := CircuitFailure(c, w.clock(k));
      var noted := events + [FailureEntry(k, w.outcome(k))];
      if GivesUp(k, w.outcome(k), after) then Conclude(w, after, noted, tried, partialMutation || p, category)
      else Attempts(k + 1, w, after, noted, tried + [Sleep(BACKOFF_SECONDS[k])], partialMutation || p)
  }

  function Refusal(c: Circuit, message: string): Trace {
    Trace(Returned(Escalated, None, [AttemptEvent(0, CircuitOpenEvent, Some(DependencyUnavailable), message)], c), [])
  }

  function Execution(nodeName: string, timeoutSeconds: real, c: Circuit, w: World): Trace {
    if nodeName == "" || !(MIN_TIMEOUT <= timeoutSeconds <= MAX_TIMEOUT) then Trace(InvalidArgument, [])
    else
      var current := CircuitBefore(c, w.clock(0));
      if current.status == Open then Refusal(current, "Dependency circuit is open")
      else if current.status == HalfOpen && current.probes >= HALF_OPEN_PROBES
        then Refusal(current, "Half-open probe already used")
      else Attempts(1, w, current, [], [], false)
  }

  /** `execute_node`, with the calls it makes on its surroundings. */
  method ExecuteNode(nodeName: string, timeoutSeconds: real, circuit: Circuit, w: World)
    returns (reply: Reply, effects: seq<Effect>)
    ensures Trace(reply, effects) == Execution(nodeName, timeoutSeconds, circuit, w)
  {
    effects := [];
    if nodeName == "" || !(MIN_TIMEOUT <= timeoutSeconds <= MAX_TIMEOUT) {
      return InvalidArgument, effects;
    }
    var current := CircuitBefore(circuit, w.clock(0));
    var events := [];
    if current.status == Open {
      events := [AttemptEvent(0, CircuitOpenEvent, Some(DependencyUnavailable), "Dependency circuit is open")];
      return Returned(Escalated, None, events, current), effects;
    }
    if current.status == HalfOpen && current.probes >= HALF_OPEN_PROBES {
      events := [AttemptEvent(0, CircuitOpenEvent, Some(DependencyUnavailable), "Half-open probe already used")];
      return Returned(Escalated, None, events, current), effects;
    }
    var partialMutation, last, attempt, trying := false, Unknown, 1, true;
    while trying
      invariant 1 <= attempt <= MAX_ATTEMPTS
      invariant trying ==>
                  Attempts(attempt, w, current, events, effects, partialMutation)
                  == Execution(nodeName, timeoutSeconds, circuit, w)
      invariant !trying ==>
                  Conclude(w, current, events, effects, partialMutation, last)
                  == Execution(nodeName, timeoutSeconds, circuit, w)
      decreases trying, MAX_ATTEMPTS - attempt
    {
      effects := effects + [Operate(attempt)];
      match w.outcome(attempt) {
        case Succeeds(v) =>
          events := events + [AttemptEvent(attempt, SuccessEvent, None, "Node execution succeeded")];
          return Returned(Succeeded, Some(v), events, FreshCircuit()), effects;
        case Cancelled =>
          return CancellationRaised, effects;
        case Fails(category, message, p) =>
          last := category;
          partialMutation := partialMutation || p;
          events := events + [FailureEntry(attempt, w.outcome(attempt))];
          current := CircuitFailure(current, w.clock(attempt));
          if GivesUp(attempt, w.outcome(attempt), current) {
            trying := false;
          } else {
            effects := effects + [Sleep(BACKOFF_SECONDS[attempt])];
            attempt := attempt + 1;
          }
      }
    }
    if !partialMutation {
      return Returned(Failed, None, events, current), effects;
    }
    if w.compensator.None? || w.idempotencyKey == "" {
      events := events + [AttemptEvent(|events| + 1, CompensationFailedEvent, Some(last), "Compensation unavailable")];
      return Returned(Escalated, None, events, current), effects;
    }
    effects := effects + [Compensate(w.idempotencyKey)];
    if w.compensator.value {
      events := events + [AttemptEvent(|events| + 1, CompensatedEvent, None, "Compensation succeeded")];
      return Returned(Compensated, None, events, current), effects;
    }
    events := events + [AttemptEvent(|events| + 1, CompensationFailedEvent, Some(last), "Compensation failed")];
    return Returned(Escalated, None, events, current), effects;
  }

  // ---- what a single call does

  function Operations(effects: seq<Effect>): nat {
    if effects == [] then 0 else Operations(effects[..|effects| - 1]) + if effects[|effects| - 1].Operate? then 1 else 0
  }

  function Compensations(effects: seq<Effect>): nat {
    if effects == [] then 0
    else Compensations(effects[..|effects| - 1]) + if effects[|effects| - 1].Compensate? then 1 else 0
  }

  lemma OneMore(effects: seq<Effect>, e: Effect)
    ensures Operations(effects + [e]) == Operations(effects) + if e.Operate? then 1 else 0
    ensures Compensations(effects + [e]) == Compensations(effects) + if e.Compensate? then 1 else 0
  {
    assert (effects + [e])[..|effects|] == effects;
  }

  /** The last attempt made, when attempts start at `k` with circuit `c`. */
  function LastAttempt(k: nat, w: World, c: Circuit): (n: nat)
    requires 1 <= k <= MAX_ATTEMPTS
    ensures k <= n <= MAX_ATTEMPTS
    decreases MAX_ATTEMPTS - k
  {
    if !w.outcome(k).Fails? || GivesUp(k, w.outcome(k), CircuitFailure(c, w.clock(k))) then k
    else LastAttempt(k + 1, w, CircuitFailure(c, w.clock(k)))
  }

  /** The backoff follows every attempt that is retried. */
  function Schedule(k: nat, n: nat): seq<Effect>
    requires 1 <= k <= n <= MAX_ATTEMPTS
    decreases n - k
  {
    if k == n then [Operate(k)] else [Operate(k), Sleep(BACKOFF_SECONDS[k])] + Schedule(k + 1, n)
  }

  ghost predicate SomePartial(w: World, k: nat, n: nat) {
    exists j: nat :: k <= j <= n && w.outcome(j).Fails? && w.outcome(j).partialMutation
  }

  /** Compensation is due: nothing succeeded, something was left half done, and it can be undone. */
  ghost predicate CompensationDue(w: World, k: nat, n: nat, partialMutation: bool) {
    w.outcome(n).Fails? && (partialMutation || SomePartial(w, k, n)) && w.compensator.Some? && w.idempotencyKey != ""
  }

  /** Closed form of the attempts: consecutive attempts with their backoffs, then at most
      one compensation, exactly when one is due. */
  lemma {:induction false} AttemptsShape(k: nat, w: World, c: Circuit, events: seq<AttemptEvent>, effects: seq<Effect>,
                                         partialMutation: bool)
    requires 1 <= k <= MAX_ATTEMPTS
    ensures var n := LastAttempt(k, w, c);
            && Attempts(k, w, c, events, effects, partialMutation).effects
               == effects + Schedule(k, n) + (if CompensationDue(w, k, n, partialMutation)
                                              then [Compensate(w.idempotencyKey)] else [])
            && (forall j: nat | k <= j < n :: w.outcome(j).Fails? && Retryable(w.outcome(j).category))
    decreases MAX_ATTEMPTS - k
  {
    var n := LastAttempt(k, w, c);
    var t := Attempts(k, w, c, events, effects, partialMutation);
    if n == k {
      assert Schedule(k, n) == [Operate(k)];
      assert CompensationDue(w, k, n, partialMutation)
        <==> && w.outcome(k).Fails? && (partialMutation || w.outcome(k).partialMutation)
             && w.compensator.Some? && w.idempotencyKey != "";
    } else {
      var f := w.outcome(k);
      var after := CircuitFailure(c, w.clock(k));
      var tried := effects + [Operate(k)] + [Sleep(BACKOFF_SECONDS[k])];
      AttemptsShape(k + 1, w, after, events + [FailureEntry(k, f)], tried, partialMutation || f.partialMutation);
      assert CompensationDue(w, k + 1, n, partialMutation || f.partialMutation)
             <==> CompensationDue(w, k, n, partialMutation) by {
        PartialSplit(w, k, n);
      }
      assert tried + Schedule(k + 1, n) == effects + Schedule(k, n);
    }
  }

  lemma PartialSplit(w: World, k: nat, n: nat)
    requires k < n && w.outcome(k).Fails?
    ensures SomePartial(w, k, n) <==> w.outcome(k).partialMutation || SomePartial(w, k + 1, n)
  {
    if SomePartial(w, k, n) && !w.outcome(k).partialMutation {
      var j: nat :| k <= j <= n && w.outcome(j).Fails? && w.outcome(j).partialMutation;
      assert k + 1 <= j <= n;
    }
  }

  /** The event that reports attempt `j`. */
  ghost function Report(w: World, j: nat): AttemptEvent
    requires !w.outcome(j).Cancelled?
  {
    match w.outcome(j)
    case Succeeds(_) => AttemptEvent(j, SuccessEvent, None, "Node execution succeeded")
    case Fails(Timeout, message, _) => AttemptEvent(j, TimeoutEvent, Some(Timeout), message)
    case Fails(category, message, _) => AttemptEvent(j, FailureEvent, Some(category), message)
  }

  /** The event that closes a call which left something half done. */
  ghost function Closing(w: World, n: nat, number: nat): AttemptEvent
    requires w.outcome(n).Fails?
  {
    if w.compensator.None? || w.idempotencyKey == ""
    then AttemptEvent(number, CompensationFailedEvent, Some(w.outcome(n).category), "Compensation unavailable")
    else if w.compensator == Some(true) then AttemptEvent(number, CompensatedEvent, None, "Compensation succeeded")
    else AttemptEvent(number, CompensationFailedEvent, Some(w.outcome(n).category), "Compensation failed")
  }

  ghost predicate Reported(w: World, k: nat, n: nat, events: seq<AttemptEvent>, from: nat) {
    from + (n - k) < |events|
    && forall j: nat | k <= j <= n :: !w.outcome(j).Cancelled? && events[from + (j - k)] == Report(w, j)
  }

  /** What the reply says: the last attempt's outcome decides the verdict, and the events
      report the attempts one by one, followed by one compensation event if it came to that. */
  ghost predicate ReplyTells(w: World, k: nat, n: nat, r: Reply, events: seq<AttemptEvent>, partialMutation: bool) {
    var undone := partialMutation || SomePartial(w, k, n);
    match w.outcome(n)
    case Cancelled => r == CancellationRaised
    case Succeeds(v) =>
      && r.Returned? && r.verdict == Succeeded && r.value == Some(v) && r.circuit == Circuit(Closed, 0, None, 0)
      && events <= r.events && |r.events| == |events| + (n - k + 1) && Reported(w, k, n, r.events, |events|)
    case Fails(_, _, _) =>
      && r.Returned? && r.value == None
      && r.verdict == (if !undone then Failed
                       else if w.compensator == Some(true) && w.idempotencyKey != "" then Compensated
                       else Escalated)
      && events <= r.events && |r.events| == |events| + (n - k + 1) + (if undone then 1 else 0)
      && Reported(w, k, n, r.events, |events|)
      && (undone ==> r.events != [] && r.events[|r.events| - 1] == Closing(w, n, |r.events|))
  }

  lemma ReplyFromNext(w: World, k: nat, n: nat, r: Reply, events: seq<AttemptEvent>, partialMutation: bool)
    requires k < n && w.outcome(k).Fails?
    requires ReplyTells(w, k + 1, n, r, events + [FailureEntry(k, w.outcome(k))],
                        partialMutation || w.outcome(k).partialMutation)
    ensures ReplyTells(w, k, n, r, events, partialMutation)
  {
    PartialSplit(w, k, n);
    if r.Returned? {
      assert r.events[|events|] == (events + [FailureEntry(k, w.outcome(k))])[|events|] == Report(w, k);
      forall j: nat | k < j <= n ensures !w.outcome(j).Cancelled? && r.events[|events| + (j - k)] == Report(w, j) {
        assert |events| + 1 + (j - (k + 1)) == |events| + (j - k);
      }
    }
  }

  lemma {:induction false} AttemptsReply(k: nat, w: World, c: Circuit, events: seq<AttemptEvent>, effects: seq<Effect>,
                                         partialMutation: bool)
    requires 1 <= k <= MAX_ATTEMPTS
    ensures ReplyTells(w, k, LastAttempt(k, w, c), Attempts(k, w, c, events, effects, partialMutation).reply, events,
                       partialMutation)
    decreases MAX_ATTEMPTS - k
  {
    hide ReplyTells;
    var n := LastAttempt(k, w, c);
    if n > k {
      var f := w.outcome(k);
      var after, noted := CircuitFailure(c, w.clock(k)), events + [FailureEntry(k, f)];
      AttemptsReply(k + 1, w, after, noted, effects + [Operate(k)] + [Sleep(BACKOFF_SECONDS[k])],
                    partialMutation || f.partialMutation);
      ReplyFromNext(w, k, n, Attempts(k, w, c, events, effects, partialMutation).reply, events, partialMutation);
    } else {
      LastReply(k, w, c, events, effects, partialMutation);
    }
  }

  lemma LastReply(k: nat, w: World, c: Circuit, events: seq<AttemptEvent>, effects: seq<Effect>, partialMutation: bool)
    requires 1 <= k <= MAX_ATTEMPTS && LastAttempt(k, w, c) == k
    ensures ReplyTells(w, k, k, Attempts(k, w, c, events, effects, partialMutation).reply, events, partialMutation)
  {
    assert SomePartial(w, k, k) <==> w.outcome(k).Fails? && w.outcome(k).partialMutation;
  }

  /** `AttemptsReply` for a whole admitted call. */
  lemma ReplyOfCall(nodeName: string, timeoutSeconds: real, c: Circuit, w: World)
    requires Admitted(nodeName, timeoutSeconds, c, w)
    ensures ReplyTells(w, 1, LastAttempt(1, w, CircuitBefore(c, w.clock(0))),
                       Execution(nodeName, timeoutSeconds, c, w).reply, [], false)
  {
    AttemptsReply(1, w, CircuitBefore(c, w.clock(0)), [], [], false);
  }

  function Undo(w: World, n: nat): seq<Effect> {
    if w.outcome(n).Fails? && w.compensator.Some? && w.idempotencyKey != "" && exists j: nat ::
        1 <= j <= n && w.outcome(j).Fails? && w.outcome(j).partialMutation
    then [Compensate(w.idempotencyKey)]
    else []
  }

  predicate Admitted(nodeName: string, timeoutSeconds: real, c: Circuit, w: World) {
    var current := CircuitBefore(c, w.clock(0));
    && nodeName != "" && MIN_TIMEOUT <= timeoutSeconds <= MAX_TIMEOUT
    && current.status != Open && (current.status == HalfOpen ==> current.probes < HALF_OPEN_PROBES)
  }

  /** An admitted call makes attempts 1 to `n` with backoffs between them and then, exactly
      when the last one failed, some attempt left a partial mutation and a compensator with
      a key was given, compensates once. A call that is not admitted does nothing. */
  lemma CallShape(nodeName: string, timeoutSeconds: real, c: Circuit, w: World)
    ensures var effects := Execution(nodeName, timeoutSeconds, c, w).effects;
            var n := LastAttempt(1, w, CircuitBefore(c, w.clock(0)));
            if Admitted(nodeName, timeoutSeconds, c, w) then
              && effects == Schedule(1, n) + Undo(w, n)
              && Operations(effects) == n
              && Compensations(effects) == |Undo(w, n)|
              && (forall j: nat :: Operate(j) in effects <==> 1 <= j <= n)
            else
              effects == []
  {
    if Admitted(nodeName, timeoutSeconds, c, w) {
      var current := CircuitBefore(c, w.clock(0));
      var n := LastAttempt(1, w, current);
      AttemptsShape(1, w, current, [], [], false);
      assert Undo(w, n) == if CompensationDue(w, 1, n, false) then [Compensate(w.idempotencyKey)] else [];
      ScheduleFacts(1, n);
      OneMore([], Compensate(w.idempotencyKey));
      assert [] + [Compensate(w.idempotencyKey)] == [Compensate(w.idempotencyKey)];
      OperationsConcat(Schedule(1, n), Undo(w, n));
      assert [] + Schedule(1, n) + Undo(w, n) == Schedule(1, n) + Undo(w, n);
    }
  }

  lemma {:induction false} ScheduleFacts(k: nat, n: nat)
    requires 1 <= k <= n <= MAX_ATTEMPTS
    ensures Operations(Schedule(k, n)) == n - k + 1 && Compensations(Schedule(k, n)) == 0
    ensures forall j: nat :: Operate(j) in Schedule(k, n) <==> k <= j <= n
    decreases n - k
  {
    if k == n {
      JustOne(Operate(k));
    } else {
      hide Operations, Compensations;
      var pair := [Operate(k), Sleep(BACKOFF_SECONDS[k])];
      assert pair == [Operate(k)] + [Sleep(BACKOFF_SECONDS[k])];
      ScheduleFacts(k + 1, n);
      OperationsConcat(pair, Schedule(k + 1, n));
      OperationsConcat([Operate(k)], [Sleep(BACKOFF_SECONDS[k])]);
      JustOne(Operate(k));
      JustOne(Sleep(BACKOFF_SECONDS[k]));
    }
  }

  lemma JustOne(e: Effect)
    ensures Operations([e]) == (if e.Operate? then 1 else 0) && Compensations([e]) == (if e.Compensate? then 1 else 0)
  {
    OneMore([], e);
    assert [] + [e] == [e];
  }

  lemma {:induction false} OperationsConcat(a: seq<Effect>, b: seq<Effect>)
    ensures Operations(a + b) == Operations(a) + Operations(b)
    ensures Compensations(a + b) == Compensations(a) + Compensations(b)
    decreases |b|
  {
    if b == [] {
      assert a + b == a;
    } else {
      var k := |b| - 1;
      OperationsConcat(a, b[..k]);
      OneMore(a + b[..k], b[k]);
      assert a + b == a + b[..k] + [b[k]];
    }
  }

  // ---- the whole call, told without its bookkeeping

  /** No attempt follows attempt `j` of at most `allowed`. */
  ghost predicate Stops(w: World, j: nat, allowed: int) {
    !w.outcome(j).Fails? || w.outcome(j).category !in {Timeout, RateLimited, DependencyUnavailable, Transient}
      || j >= allowed
  }

  /** Attempt `n` is the first that stops the call. */
  ghost predicate IsLast(w: World, k: nat, n: nat, allowed: int) {
    k <= n && Stops(w, n, allowed) && forall j: nat | k <= j < n :: !Stops(w, j, allowed)
  }

  /** The circuit after `m` failures of a call that found `failures` of them. */
  ghost function Blown(failures: int, m: int, probing: bool, at: real): Circuit {
    if probing || failures + m >= 3 then Circuit(Open, failures + m, Some(at), 0)
      else Circuit(Closed, failures + m, None, 0)
  }

  lemma {:induction false} LastAttemptIsLast(k: nat, w: World, c: Circuit, events: seq<AttemptEvent>,
                                             effects: seq<Effect>, partialMutation: bool)
    requires 1 <= k <= 3 && Working(c) && (c.status == Closed ==> k <= 1 + c.failures)
    ensures var n, r := LastAttempt(k, w, c), Attempts(k, w, c, events, effects, partialMutation).reply;
            && IsLast(w, k, n, if c.status == Closed then k + 2 - c.failures else k)
            && (w.outcome(n).Fails? && r.Returned? ==>
                  r.circuit == Blown(c.failures, n - k + 1, c.status == HalfOpen, w.clock(n)))
    decreases 3 - k
  {
    if w.outcome(k).Fails? {
      var after := CircuitFailure(c, w.clock(k));
      if !GivesUp(k, w.outcome(k), after) {
        LastAttemptIsLast(k + 1, w, after, events + [FailureEntry(k, w.outcome(k))],
                          effects + [Operate(k)] + [Sleep(BACKOFF_SECONDS[k])],
                          partialMutation || w.outcome(k).partialMutation);
      }
    }
  }

  /** One to three attempts with the pauses between them. */
  ghost function Timetable(n: nat): seq<Effect> {
    if n == 1 then [Operate(1)]
    else if n == 2 then [Operate(1), Sleep(1), Operate(2)]
    else [Operate(1), Sleep(1), Operate(2), Sleep(2), Operate(3)]
  }

  lemma TimetableIsSchedule(n: nat)
    requires 1 <= n <= 3
    ensures Schedule(1, n) == Timetable(n)
  {
    assert Schedule(3, 3) == [Operate(3)];
    assert n >= 2 ==> Schedule(2, n) == if n == 2 then [Operate(2)] else [Operate(2), Sleep(2)] + Schedule(3, 3);
  }

  ghost predicate Probing(c: Circuit, now: real) {
    c.status == HalfOpen || (c.status == Open && c.openedAt.Some? && now - c.openedAt.value >= 30.0)
  }

  ghost function Declined(c: Circuit, message: string): Trace {
    Trace(Returned(Escalated, None, [AttemptEvent(0, CircuitOpenEvent, Some(DependencyUnavailable), message)], c), [])
  }

  /** The whole of a call, for every circuit below its threshold. A bad argument is refused
      before anything else; an open circuit, or a used probe, declines. Otherwise the attempts
      end with the first that does not fail, fails for good or is the last allowed: three
      minus the failures of a closed circuit, one when probing. Pauses of one and two seconds
      lie between them, and the circuit counts the failures up to three or one failed probe. */
  lemma CallExactly(nodeName: string, timeoutSeconds: real, c: Circuit, w: World)
    requires 0 <= c.failures && (c.status == Closed ==> c.failures < 3)
    ensures var t, now := Execution(nodeName, timeoutSeconds, c, w), w.clock(0);
            if nodeName == "" || timeoutSeconds < 1.0 || timeoutSeconds > 60.0 then t == Trace(InvalidArgument, [])
            else if c.status == Open && !Probing(c, now) then t == Declined(c, "Dependency circuit is open")
            else if c.status == HalfOpen && c.probes >= 1 then t == Declined(c, "Half-open probe already used")
            else
              exists n: nat ::
                && 1 <= n <= 3 && IsLast(w, 1, n, if c.status == Closed then 3 - c.failures else 1)
                && t.effects == Timetable(n) + Undo(w, n)
                && ReplyTells(w, 1, n, t.reply, [], false)
                && (w.outcome(n).Fails? ==>
                      t.reply.Returned? && t.reply.circuit == Blown(c.failures, n, Probing(c, now), w.clock(n)))
  {
    if Admitted(nodeName, timeoutSeconds, c, w) {
      var current := CircuitBefore(c, w.clock(0));
      var n := LastAttempt(1, w, current);
      LastAttemptIsLast(1, w, current, [], [], false);
      CallShape(nodeName, timeoutSeconds, c, w);
      ReplyOfCall(nodeName, timeoutSeconds, c, w);
      TimetableIsSchedule(n);
      hide Execution, Attempts, LastAttempt, Schedule, Undo;
    }
  }

  // ---- threading the circuit through calls

  /** Circuits that a caller holds: never half-open, closed below the threshold, and open
      ones know when they opened. */
  ghost predicate Sound(c: Circuit) {
    && c.status != HalfOpen
    && 0 <= c.failures
    && (c.status == Closed ==> c.failures < FAILURE_THRESHOLD)
    && (c.status == Open ==> c.openedAt.Some?)
  }

  /** The circuit as `execute_node` sees it while attempts run. */
  ghost predicate Working(c: Circuit) {
    0 <= c.failures && c.status != Open && (c.status == Closed ==> c.failures < FAILURE_THRESHOLD)
  }

  /** A closed circuit with `f` failures admits at most `3 - f` attempts, a half-open one a
      single attempt; and whatever is returned is again a circuit a caller may hold. */
  lemma {:induction false} AttemptsBounded(k: nat, w: World, c: Circuit, events: seq<AttemptEvent>,
                                           effects: seq<Effect>, partialMutation: bool)
    requires 1 <= k <= MAX_ATTEMPTS && Working(c)
    ensures var n := LastAttempt(k, w, c);
            && (c.status == HalfOpen ==> n == k)
            && (c.status == Closed ==> n - k + 1 <= FAILURE_THRESHOLD - c.failures)
    ensures var r := Attempts(k, w, c, events, effects, partialMutation).reply;
            r.Returned? ==> Sound(r.circuit)
    decreases MAX_ATTEMPTS - k
  {
    if w.outcome(k).Fails? {
      var after := CircuitFailure(c, w.clock(k));
      if !GivesUp(k, w.outcome(k), after) {
        AttemptsBounded(k + 1, w, after, events + [FailureEntry(k, w.outcome(k))],
                        effects + [Operate(k)] + [Sleep(BACKOFF_SECONDS[k])],
                        partialMutation || w.outcome(k).partialMutation);
      }
    }
  }

  /** One call on a sound circuit: how often the operation starts, and soundness again. */
  lemma ExecutionBounded(nodeName: string, timeoutSeconds: real, c: Circuit, w: World)
    requires Sound(c)
    ensures var t := Execution(nodeName, timeoutSeconds, c, w);
            && (t.reply.Returned? ==> Sound(t.reply.circuit))
            && (c.status == Closed ==> Operations(t.effects) <= FAILURE_THRESHOLD - c.failures)
            && (c.status == Open ==> Operations(t.effects) <= 1)
            && (c.status == Open && w.clock(0) - c.openedAt.value < OPEN_SECONDS ==>
                  t.effects == [] && NextCircuit(c, Call(nodeName, timeoutSeconds, w)) == c)
  {
    CallShape(nodeName, timeoutSeconds, c, w);
    if Admitted(nodeName, timeoutSeconds, c, w) {
      AttemptsBounded(1, w, CircuitBefore(c, w.clock(0)), [], [], false);
    }
  }

  /** A half-open probe that fails makes one attempt and opens the circuit from then on. */
  lemma FailedProbeReopens(nodeName: string, timeoutSeconds: real, c: Circuit, w: World)
    requires Sound(c) && c.status == Open && w.clock(0) - c.openedAt.value >= OPEN_SECONDS
    requires Admitted(nodeName, timeoutSeconds, c, w) && w.outcome(1).Fails?
    ensures var t := Execution(nodeName, timeoutSeconds, c, w);
            && Operations(t.effects) == 1
            && t.reply.Returned? && t.reply.circuit == Circuit(Open, c.failures + 1, Some(w.clock(1)), 0)
  {
    CallShape(nodeName, timeoutSeconds, c, w);
    AttemptsBounded(1, w, CircuitBefore(c, w.clock(0)), [], [], false);
  }

  /** After a failure that is not retryable the operation is not started again in that call. */
  lemma NoRetryAfterPermanentFailure(nodeName: string, timeoutSeconds: real, c: Circuit, w: World, k: nat, j: nat)
    requires Operate(k) in Execution(nodeName, timeoutSeconds, c, w).effects
    requires w.outcome(k).Fails? && !Retryable(w.outcome(k).category)
    requires k < j
    ensures Operate(j) !in Execution(nodeName, timeoutSeconds, c, w).effects
  {
    CallShape(nodeName, timeoutSeconds, c, w);
    AttemptsShape(1, w, CircuitBefore(c, w.clock(0)), [], [], false);
  }

  datatype Call = Call(nodeName: string, timeoutSeconds: real, world: World)

  function NextCircuit(c: Circuit, call: Call): Circuit {
    match Execution(call.nodeName, call.timeoutSeconds, c, call.world).reply
    case Returned(_, _, _, next) => next
    case _ => c
  }

  /** The circuit after a sequence of calls, each given what the one before returned. */
  function Thread(c: Circuit, calls: seq<Call>): Circuit
    decreases |calls|
  {
    if calls == [] then c else Thread(NextCircuit(c, calls[0]), calls[1..])
  }

  /** Starting from a fresh circuit, every circuit ever held is sound: closed circuits have
      fewer than three failures and no half-open circuit is handed out. */
  lemma {:induction false} ThreadSound(c: Circuit, calls: seq<Call>)
    requires Sound(c)
    ensures Sound(Thread(c, calls))
    decreases |calls|
  {
    if calls != [] {
      ExecutionBounded(calls[0].nodeName, calls[0].timeoutSeconds, c, calls[0].world);
      ThreadSound(NextCircuit(c, calls[0]), calls[1..]);
    }
  }

  /** While 30 seconds have not passed since the circuit opened, no call in any sequence
      starts the operation, and the circuit stays as it is. */
  lemma {:induction false} OpenCircuitIsSilent(c: Circuit, calls: seq<Call>, i: nat)
    requires Sound(c) && c.status == Open
    requires forall k | 0 <= k < |calls| :: calls[k].world.clock(0) - c.openedAt.value < OPEN_SECONDS
    requires i < |calls|
    ensures Thread(c, calls[..i]) == c
    ensures Execution(calls[i].nodeName, calls[i].timeoutSeconds, Thread(c, calls[..i]), calls[i].world).effects == []
    decreases i
  {
    if i > 0 {
      assert NextCircuit(c, calls[0]) == c;
      OpenCircuitIsSilent(c, calls[1..], i - 1);
      assert calls[1..][..i - 1] == calls[..i][1..];
    }
    ExecutionBounded(calls[i].nodeName, calls[i].timeoutSeconds, c, calls[i].world);
  }
}
