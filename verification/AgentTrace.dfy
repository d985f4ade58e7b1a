/** Agent traces: scoped, numbered, hash-chained events with sanitised attributes. */
module AgentTrace {
  import opened HashChain
  import opened Prelude

  datatype EventType =
    | GraphTransition | AgentDecision | Retrieval | ToolCall | HumanDecision | Retry | ErrorEvent | Budget | Terminal

  const MAX_EVENTS_PER_TRACE := 500
  const MAX_ATTRIBUTE_KEYS := 20
  const MAX_ATTRIBUTE_VALUE_CHARS := 256
  const MAX_LIST_ITEMS := 20
  const ALLOWED_ATTRIBUTES := {
    "from_phase", "to_phase", "route_reason", "agent_id", "decision", "outcome", "evidence_ids",
    "model_id", "prompt_version", "config_fingerprint", "retrieval_round", "retrieval_count",
    "tool_id", "capability_id", "status", "error_class", "retry_count", "actor_role",
    "tokens", "cost_microusd", "latency_ms", "budget_remaining", "audit_event_id"}

  datatype Scope = Scope(traceId: string, tenantId: string, incidentId: string, threadId: string, correlationId: string)

  /** Attribute values. A number is a decimal mantissa and exponent, as written in the digested
      text; `Unsupported` stands for anything the sanitiser rejects. */
  datatype Value = Text(text: string) | Number(mantissa: int, exponent: int) | Flag(flag: bool) | Null
    | List(items: seq<Value>) | Unsupported

  datatype Body = Body(
    sequence: nat,
    eventId: string,
    eventType: EventType,
    scope: Scope,
    timestamp: string,
    attributes: map<string, Value>,
    inputFingerprint: Option<string>,
    outputFingerprint: Option<string>,
    auditEventId: Option<string>,
    previousSha256: string)

  type Event = Link<Body>

  datatype TraceError =
    | InvalidScopeOrLimit | CrossScope | AttributeNotAllowed | OutputFingerprintRequired | InvalidFingerprint
    | UnsupportedValue
    | EmptyTrace | ChainInvalid | Tampered

  const ZERO_HASH: string := seq(64, _ => '0')

  /** The digest of a body, the event-id digest, and the pattern redaction. */
  datatype Functions = Functions(h: Body -> string, idOf: (string, nat, EventType) -> string, redact: string -> string)

  function Previous(b: Body): string {
    b.previousSha256
  }

  // ---- sanitising

  function Cut<T>(xs: seq<T>, n: nat): seq<T> {
    if |xs| > n then xs[..n] else xs
  }

  function SafeValue(v: Value, redact: string -> string): Option<Value>
    decreases v
  {
    match v
    case Text(s) => Some(Text(Cut(redact(s), MAX_ATTRIBUTE_VALUE_CHARS)))
    case List(items) =>
      (match SafeItems(if |items| > MAX_LIST_ITEMS then items[..MAX_LIST_ITEMS] else items, redact)
       case Some(safe) => Some(List(safe))
       case None => None)
    case Unsupported => None
    case _ => Some(v)
  }

  function SafeItems(items: seq<Value>, redact: string -> string): Option<seq<Value>>
    decreases items
  {
    if items == [] then Some([])
    else
      match (SafeValue(items[0], redact), SafeItems(items[1..], redact))
      case (Some(x), Some(xs)) => Some([x] + xs)
      case _ => None
  }

  /** Short strings and short lists all the way down. */
  ghost predicate Bounded(v: Value) {
    match v
    case Text(s) => |s| <= 256
    case List(items) => |items| <= 20 && forall x | x in items :: Bounded(x)
    case Unsupported => false
    case _ => true
  }

  lemma {:induction false} SafeValuesAreBounded(v: Value, redact: string -> string)
    ensures SafeValue(v, redact).Some? ==> Bounded(SafeValue(v, redact).value)
    decreases v
  {
    if v.List? {
      SafeItemsAreBounded(if |v.items| > MAX_LIST_ITEMS then v.items[..MAX_LIST_ITEMS] else v.items, redact);
    }
  }

  lemma {:induction false} SafeItemsAreBounded(items: seq<Value>, redact: string -> string)
    ensures SafeItems(items, redact).Some? ==>
              |SafeItems(items, redact).value| == |items| && forall x | x in SafeItems(items, redact).value ::
                  Bounded(x)
    decreases items
  {
    if items != [] {
      SafeValuesAreBounded(items[0], redact);
      SafeItemsAreBounded(items[1..], redact);
    }
  }

  /** What is kept of a value: the first 256 characters of a redacted text, the first 20 items
      of a list, sanitised in turn, and any number, flag or null as it is. */
  ghost predicate Kept(v: Value, kept: Value, redact: string -> string)
    decreases v
  {
    match v
    case Text(s) =>
      kept == Text(if |redact(s)| <= 256 then redact(s) else redact(s)[..256])
    case List(items) =>
      && kept.List? && |kept.items| == (if |items| <= 20 then |items| else 20)
      && forall i | 0 <= i < |kept.items| :: Kept(items[i], kept.items[i], redact)
    case Unsupported => false
    case _ => kept == v
  }

  /** Something the sanitiser rejects is among what it would keep. */
  ghost predicate Rejected(v: Value)
    decreases v
  {
    match v
    case Unsupported => true
    case List(items) => exists i: nat :: i < |items| && i < 20 && Rejected(items[i])
    case _ => false
  }

  /** Sanitising rejects exactly what it must, and keeps exactly what it may. */
  lemma {:induction false} SafeValueExactly(v: Value, redact: string -> string)
    ensures SafeValue(v, redact).None? <==> Rejected(v)
    ensures SafeValue(v, redact).Some? ==> Kept(v, SafeValue(v, redact).value, redact)
    decreases v
  {
    if v.List? {
      var first := if |v.items| > 20 then v.items[..20] else v.items;
      assert forall i | 0 <= i < |first| :: first[i] == v.items[i];
      SafeItemsExactly(first, redact);
    }
  }

  lemma {:induction false} SafeItemsExactly(items: seq<Value>, redact: string -> string)
    ensures SafeItems(items, redact).None? <==> exists i: nat :: i < |items| && Rejected(items[i])
    ensures SafeItems(items, redact).Some? ==>
              && |SafeItems(items, redact).value| == |items|
              && forall i | 0 <= i < |items| :: Kept(items[i], SafeItems(items, redact).value[i], redact)
    decreases items
  {
    if items != [] {
      SafeValueExactly(items[0], redact);
      SafeItemsExactly(items[1..], redact);
      if i: nat :| i < |items| && Rejected(items[i]) {
        assert i > 0 ==> items[1..][i - 1] == items[i];
      }
      if i: nat :| i < |items[1..]| && Rejected(items[1..][i]) {
        assert items[i + 1] == items[1..][i];
      }
      if SafeItems(items, redact).Some? {
        var safe := SafeItems(items, redact).value;
        forall i | 0 <= i < |items| ensures Kept(items[i], safe[i], redact) {
          assert i > 0 ==> items[1..][i - 1] == items[i];
        }
      }
    }
  }

  /** Every text in the value satisfies `clean`. */
  ghost predicate AllTexts(v: Value, clean: string -> bool) {
    match v
    case Text(s) => clean(s)
    case List(items) => forall x | x in items :: AllTexts(x, clean)
    case _ => true
  }

  /** Whatever the redaction guarantees of its cut output holds of every text that is kept,
      however deep it is nested. */
  lemma {:induction false} SafeValuesAreRedacted(v: Value, redact: string -> string, clean: string -> bool)
    requires forall s :: clean(Cut(redact(s), MAX_ATTRIBUTE_VALUE_CHARS))
    ensures SafeValue(v, redact).Some? ==> AllTexts(SafeValue(v, redact).value, clean)
    decreases v
  {
    if v.List? {
      SafeItemsAreRedacted(if |v.items| > MAX_LIST_ITEMS then v.items[..MAX_LIST_ITEMS] else v.items, redact, clean);
    }
  }

  lemma {:induction false} SafeItemsAreRedacted(items: seq<Value>, redact: string -> string, clean: string -> bool)
    requires forall s :: clean(Cut(redact(s), MAX_ATTRIBUTE_VALUE_CHARS))
    ensures SafeItems(items, redact).Some? ==> forall x | x in SafeItems(items, redact).value :: AllTexts(x, clean)
    decreases items
  {
    if items != [] {
      SafeValuesAreRedacted(items[0], redact, clean);
      SafeItemsAreRedacted(items[1..], redact, clean);
    }
  }

  ghost predicate AttributesBounded(m: map<string, Value>) {
    m.Keys <= ALLOWED_ATTRIBUTES && |m| <= 20 && forall k | k in m :: Bounded(m[k])
  }

  // ---- appending

  datatype Draft = Draft(
    eventType: EventType,
    timestamp: string,
    attributes: map<string, Value>,
    inputFingerprint: Option<string>,
    outputFingerprint: Option<string>,
    auditEventId: Option<string>)

  predicate NeedsOutput(t: EventType) {
    t == AgentDecision || t == ToolCall || t == HumanDecision || t == Terminal
  }

  predicate FingerprintOk(f: Option<string>) {
    f.Some? ==> |f.value| == 64
  }

  function AppendEvent(existing: seq<Event>, scope: Scope, d: Draft, fs: Functions): Result<Event, TraceError> {
    if |existing| >= MAX_EVENTS_PER_TRACE || scope.traceId == "" || scope.tenantId == "" || scope.incidentId == ""
       || scope.threadId == "" || scope.correlationId == "" then Err(InvalidScopeOrLimit)
    else if exists i :: 0 <= i < |existing| && existing[i].body.scope != scope then Err(CrossScope)
    else if |d.attributes| > MAX_ATTRIBUTE_KEYS || !(d.attributes.Keys <= ALLOWED_ATTRIBUTES)
      then Err(AttributeNotAllowed)
    else if NeedsOutput(d.eventType) && (d.outputFingerprint.None? || d.outputFingerprint.value == "")
      then Err(OutputFingerprintRequired)
    else if !FingerprintOk(d.inputFingerprint) || !FingerprintOk(d.outputFingerprint) then Err(InvalidFingerprint)
    else if exists k :: k in d.attributes && SafeValue(d.attributes[k], fs.redact).None? then Err(UnsupportedValue)
    else
      var safe := map k | k in d.attributes :: SafeValue(d.attributes[k], fs.redact).value;
      var n := |existing| + 1;
      var body := Body(n, fs.idOf(scope.traceId, n, d.eventType), d.eventType, scope, d.timestamp, safe,
                       d.inputFingerprint, d.outputFingerprint, d.auditEventId, Head(existing, ZERO_HASH));
      Ok(Link(body, fs.h(body)))
  }

  // ---- validating

  /** Numbered without gap, all in one scope, every event linked and untampered. */
  ghost predicate ValidTrace(events: seq<Event>, h: Body -> string) {
    && Linked(events, Previous, h, ZERO_HASH)
    && forall i | 0 <= i < |events| :: events[i].body.sequence == i + 1 && events[i].body.scope == events[0].body.scope
  }

  /** What is wrong with event `i`, given the ones before it. */
  function FaultAt(events: seq<Event>, i: nat, h: Body -> string): Option<TraceError>
    requires i < |events|
  {
    var e := events[i];
    if e.body.sequence != i + 1 || e.body.scope != events[0].body.scope
      || e.body.previousSha256 != Head(events[..i], ZERO_HASH)
    then Some(ChainInvalid)
    else if e.digest != h(e.body) then Some(Tampered)
    else None
  }

  /** `validate_trace`: accepts exactly the non-empty valid traces, and otherwise reports
      the first event at fault. */
  method ValidateTrace(events: seq<Event>, h: Body -> string) returns (r: Result<(), TraceError>)
    ensures r.Ok? <==> events != [] && ValidTrace(events, h)
    ensures events == [] ==> r == Err(EmptyTrace)
    ensures events != [] && r.Err? ==>
              exists i: nat :: i < |events| && FaultAt(events, i, h) == Some(r.error) && forall k: nat | k < i ::
                  FaultAt(events, k, h).None?
  {
    if events == [] {
      return Err(EmptyTrace);
    }
    var scope, previous := events[0].body.scope, ZERO_HASH;
    for i := 0 to |events|
      invariant previous == Head(events[..i], ZERO_HASH)
      invariant forall k: nat | k < i :: FaultAt(events, k, h).None?
    {
      var event := events[i];
      if event.body.sequence != i + 1 || event.body.scope != scope || event.body.previousSha256 != previous {
        assert FaultAt(events, i, h) == Some(ChainInvalid);
        ValidMeansFaultless(events, i, h);
        return Err(ChainInvalid);
      }
      if event.digest != h(event.body) {
        assert FaultAt(events, i, h) == Some(Tampered);
        ValidMeansFaultless(events, i, h);
        return Err(Tampered);
      }
      previous := event.digest;
    }
    FaultlessMeansValid(events, h);
    return Ok(());
  }

  lemma ValidMeansFaultless(events: seq<Event>, i: nat, h: Body -> string)
    requires i < |events|
    ensures ValidTrace(events, h) ==> FaultAt(events, i, h).None?
  {
    if ValidTrace(events, h) {
      assert LinkOk(events, i, Previous, h, ZERO_HASH);
    }
  }

  lemma FaultlessMeansValid(events: seq<Event>, h: Body -> string)
    requires forall k: nat | k < |events| :: FaultAt(events, k, h).None?
    ensures ValidTrace(events, h)
  {
    forall k: nat | k < |events| ensures LinkOk(events, k, Previous, h, ZERO_HASH) {
      assert FaultAt(events, k, h).None?;
    }
    forall i | 0 <= i < |events|
      ensures events[i].body.sequence == i + 1 && events[i].body.scope == events[0].body.scope
    {
      assert FaultAt(events, i, h).None?;
    }
  }

  /** An accepted append extends a valid trace to a valid one, never past 500 events, and
      records only allowed, bounded attributes. */
  lemma AppendKeepsTrace(existing: seq<Event>, scope: Scope, d: Draft, fs: Functions)
    requires ValidTrace(existing, fs.h) && AppendEvent(existing, scope, d, fs).Ok?
    ensures var e := AppendEvent(existing, scope, d, fs).value;
            && ValidTrace(existing + [e], fs.h) && |existing + [e]| <= 500
            && e.body.scope == scope && AttributesBounded(e.body.attributes)
  {
    var e := AppendEvent(existing, scope, d, fs).value;
    AppendLinked(existing, e.body, Previous, fs.h, ZERO_HASH);
    assert e.body.attributes.Keys == d.attributes.Keys;
    assert |e.body.attributes.Keys| == |d.attributes.Keys|;
    forall k | k in d.attributes ensures Bounded(e.body.attributes[k]) {
      SafeValuesAreBounded(d.attributes[k], fs.redact);
    }
  }

  ghost predicate Named(scope: Scope) {
    "" !in {scope.traceId, scope.tenantId, scope.incidentId, scope.threadId, scope.correlationId}
  }

  /** The attributes an event may carry: what happened where, with which model, tool and
      evidence, and what it cost. */
  ghost predicate Permitted(k: string) {
    || k == "from_phase" || k == "to_phase" || k == "route_reason" || k == "agent_id" || k == "decision"
    || k == "outcome" || k == "evidence_ids" || k == "model_id" || k == "prompt_version"
    || k == "config_fingerprint" || k == "retrieval_round" || k == "retrieval_count" || k == "tool_id"
    || k == "capability_id" || k == "status" || k == "error_class" || k == "retry_count" || k == "actor_role"
    || k == "tokens" || k == "cost_microusd" || k == "latency_ms" || k == "budget_remaining" || k == "audit_event_id"
  }

  /** Decisions of agents and humans, tool calls and ends of runs name their output. */
  ghost predicate Answerable(t: EventType) {
    t != GraphTransition && t != Retrieval && t != Retry && t != ErrorEvent && t != Budget
  }

  ghost predicate Sha256Text(f: Option<string>) {
    f == None || |f.value| == 64
  }

  ghost predicate Limited(existing: seq<Event>, scope: Scope) {
    |existing| >= 500 || !Named(scope)
  }

  ghost predicate Crossed(existing: seq<Event>, scope: Scope) {
    exists x :: x in existing && x.body.scope != scope
  }

  ghost predicate Loaded(d: Draft) {
    |d.attributes| > 20 || exists k :: k in d.attributes && !Permitted(k)
  }

  ghost predicate Mute(d: Draft) {
    Answerable(d.eventType) && (d.outputFingerprint == None || d.outputFingerprint == Some(""))
  }

  ghost predicate Forged(d: Draft) {
    !Sha256Text(d.inputFingerprint) || !Sha256Text(d.outputFingerprint)
  }

  ghost predicate Odd(d: Draft) {
    exists k :: k in d.attributes && Rejected(d.attributes[k])
  }

  /** The first thing that stands against an append, if anything does. */
  ghost function Objection(existing: seq<Event>, scope: Scope, d: Draft): Option<TraceError> {
    if Limited(existing, scope) then Some(InvalidScopeOrLimit)
    else if Crossed(existing, scope) then Some(CrossScope)
    else if Loaded(d) then Some(AttributeNotAllowed)
    else if Mute(d) then Some(OutputFingerprintRequired)
    else if Forged(d) then Some(InvalidFingerprint)
    else if Odd(d) then Some(UnsupportedValue)
    else None
  }

  /** The event an append records: the draft with its attributes sanitised, the next number,
      and the digest of the event before it, 64 zeros for the first. */
  ghost predicate Records(existing: seq<Event>, scope: Scope, d: Draft, fs: Functions, e: Event) {
    var b, n := e.body, |existing| + 1;
    && e.digest == fs.h(b)
    && b.sequence == n && b.eventId == fs.idOf(scope.traceId, n, d.eventType) && b.scope == scope
    && Draft(b.eventType, b.timestamp, d.attributes, b.inputFingerprint, b.outputFingerprint, b.auditEventId) == d
    && b.attributes.Keys == d.attributes.Keys
    && (forall k | k in d.attributes :: Kept(d.attributes[k], b.attributes[k], fs.redact))
    && (if existing == [] then |b.previousSha256| == 64 && forall c | c in b.previousSha256 :: c == '0'
        else b.previousSha256 == existing[|existing| - 1].digest)
  }

  lemma CrossedMeans(existing: seq<Event>, scope: Scope)
    ensures Crossed(existing, scope) <==> exists i :: 0 <= i < |existing| && existing[i].body.scope != scope
  {
    if i :| 0 <= i < |existing| && existing[i].body.scope != scope {
      assert existing[i] in existing;
    }
  }

  lemma LoadedMeans(d: Draft)
    ensures Loaded(d) <==> |d.attributes| > MAX_ATTRIBUTE_KEYS || !(d.attributes.Keys <= ALLOWED_ATTRIBUTES)
  {
    forall k ensures k in ALLOWED_ATTRIBUTES <==> Permitted(k) {}
    hide Permitted;
  }

  lemma OddMeans(d: Draft, redact: string -> string)
    ensures Odd(d) <==> exists k :: k in d.attributes && SafeValue(d.attributes[k], redact).None?
    ensures forall k | k in d.attributes && SafeValue(d.attributes[k], redact).Some? ::
              Kept(d.attributes[k], SafeValue(d.attributes[k], redact).value, redact)
  {
    forall k | k in d.attributes
      ensures SafeValue(d.attributes[k], redact).None? <==> Rejected(d.attributes[k])
      ensures SafeValue(d.attributes[k], redact).Some? ==>
                Kept(d.attributes[k], SafeValue(d.attributes[k], redact).value, redact)
    {
      SafeValueExactly(d.attributes[k], redact);
    }
    hide SafeValue, Rejected, Kept;
  }

  /** An append is refused with the first objection, and otherwise records the draft. */
  lemma AppendsExactly(existing: seq<Event>, scope: Scope, d: Draft, fs: Functions)
    ensures match AppendEvent(existing, scope, d, fs)
            case Ok(e) => Objection(existing, scope, d) == None && Records(existing, scope, d, fs, e)
            case Err(f) => Objection(existing, scope, d) == Some(f)
  {
    CrossedMeans(existing, scope);
    LoadedMeans(d);
    OddMeans(d, fs.redact);
    hide SafeValue, Kept, Crossed, Loaded, Odd;
  }

  /** The trace that a sequence of append calls leaves; refused calls leave it alone. */
  function Appends(existing: seq<Event>, calls: seq<(Scope, Draft)>, fs: Functions): seq<Event>
    decreases |calls|
  {
    if calls == [] then existing
    else
      var r := AppendEvent(existing, calls[0].0, calls[0].1, fs);
      Appends(if r.Ok? then existing + [r.value] else existing, calls[1..], fs)
  }

  /** Whatever is appended to a valid or empty trace, in any scopes and whatever the digest:
      the result validates, its past is untouched and it keeps its first scope. */
  lemma {:induction false} AppendedTracesValidate(existing: seq<Event>, calls: seq<(Scope, Draft)>, fs: Functions)
    requires ValidTrace(existing, fs.h) && |existing| <= 500
    ensures ValidTrace(Appends(existing, calls, fs), fs.h) && |Appends(existing, calls, fs)| <= 500
    ensures existing <= Appends(existing, calls, fs)
    decreases |calls|
  {
    if calls != [] {
      var r := AppendEvent(existing, calls[0].0, calls[0].1, fs);
      if r.Ok? {
        AppendKeepsTrace(existing, calls[0].0, calls[0].1, fs);
      }
      AppendedTracesValidate(if r.Ok? then existing + [r.value] else existing, calls[1..], fs);
    }
  }

  /** With an injective digest the head hash identifies the whole trace; here the sequence
      numbers fix the length, although the start marker is itself a possible digest. */
  lemma HeadIdentifiesTrace(xs: seq<Event>, ys: seq<Event>, h: Body -> string)
    requires Injective(h) && xs != [] && ys != []
    requires ValidTrace(xs, h) && ValidTrace(ys, h)
    ensures Head(xs, ZERO_HASH) == Head(ys, ZERO_HASH) <==> xs == ys
  {
    if Head(xs, ZERO_HASH) == Head(ys, ZERO_HASH) {
      assert LinkOk(xs, |xs| - 1, Previous, h, ZERO_HASH) && LinkOk(ys, |ys| - 1, Previous, h, ZERO_HASH);
      assert xs[|xs| - 1].body == ys[|ys| - 1].body;
      SameHeadSamePast(xs, ys, Previous, h, ZERO_HASH);
    }
  }
}
