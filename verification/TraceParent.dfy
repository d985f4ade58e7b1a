/** The `traceparent` header of W3C Trace Context, read and written. */
module TraceParent {
  import opened Prelude
  import opened TextCodec

  datatype TraceContext = TraceContext(
    traceId: string, spanId: string, correlationId: string, tenantId: string, runId: string, sampled: bool)

  predicate IsHex(c: char) {
    '0' <= c <= '9' || 'a' <= c <= 'f'
  }

  predicate AllHex(s: string) {
    forall i | 0 <= i < |s| :: IsHex(s[i])
  }

  predicate AllZero(s: string) {
    s != [] && forall i | 0 <= i < |s| :: s[i] == '0'
  }

  predicate WellFormed(parts: seq<string>) {
    && |parts| == 4 && parts[0] == "00" && |parts[1]| == 32 && |parts[2]| == 16
    && (parts[3] == "00" || parts[3] == "01")
    && AllHex(parts[1]) && AllHex(parts[2]) && !AllZero(parts[1]) && !AllZero(parts[2])
  }

  function FromTraceparent(header: string, correlationId: string, tenantId: string, runId: string): Option<TraceContext>
  {
    var parts := Split(Lower(header), '-');
    if !WellFormed(parts) then None
    else Some(TraceContext(parts[1], parts[2], correlationId, tenantId, runId, parts[3] == "01"))
  }

  function Traceparent(c: TraceContext): string {
    "00-" + c.traceId + "-" + c.spanId + "-" + (if c.sampled then "01" else "00")
  }

  /** An id of `n` lower-case hexadecimal digits that is not zero
      (W3C Trace Context, section 3.2.2). */
  predicate Id(s: string, n: nat) {
    |s| == n && (forall i | 0 <= i < n :: s[i] in "0123456789abcdef") && exists i :: 0 <= i < n && s[i] != '0'
  }

  predicate Valid(c: TraceContext) {
    Id(c.traceId, 32) && Id(c.spanId, 16)
  }

  lemma IdExactly(s: string, n: nat)
    requires n > 0
    ensures Id(s, n) <==> |s| == n && AllHex(s) && !AllZero(s)
  {
    var hex := "0123456789abcdef";
    forall c ensures c in hex <==> IsHex(c) {
      if '0' <= c <= '9' { assert hex[c as int - 48] == c; }
      if 'a' <= c <= 'f' { assert hex[c as int - 87] == c; }
    }
  }

  lemma ValidIds(c: TraceContext)
    ensures Valid(c) <==> |c.traceId| == 32 && |c.spanId| == 16 && AllHex(c.traceId) && AllHex(c.spanId)
                          && !AllZero(c.traceId) && !AllZero(c.spanId)
  {
    IdExactly(c.traceId, 32);
    IdExactly(c.spanId, 16);
  }

  function FlagText(sampled: bool): string {
    if sampled then "01" else "00"
  }

  lemma LowerFixed(c: TraceContext)
    requires Valid(c)
    ensures Lower(Traceparent(c)) == Traceparent(c)
  {
    ValidIds(c);
    var t := Traceparent(c);
    forall i | 0 <= i < |t| ensures LowerChar(t[i]) == t[i] {
      if 3 <= i < 35 {
        assert t[i] == c.traceId[i - 3];
      } else if 36 <= i < 52 {
        assert t[i] == c.spanId[i - 36];
      }
    }
  }

  lemma NoDash(s: string)
    requires AllHex(s)
    ensures '-' !in s
  {
  }

  lemma PrintedParts(c: TraceContext)
    requires Valid(c)
    ensures Lower(Traceparent(c)) == Traceparent(c)
    ensures Split(Traceparent(c), '-') == ["00", c.traceId, c.spanId, FlagText(c.sampled)]
  {
    hide Split, Lower, AllHex, AllZero;
    ValidIds(c);
    var flag := FlagText(c.sampled);
    LowerFixed(c);
    NoDash(c.traceId);
    NoDash(c.spanId);
    assert Traceparent(c) == "00" + ['-'] + (c.traceId + ['-'] + (c.spanId + ['-'] + flag));
    SplitFirst("00", c.traceId + ['-'] + (c.spanId + ['-'] + flag), '-');
    SplitFirst(c.traceId, c.spanId + ['-'] + flag, '-');
    SplitFirst(c.spanId, flag, '-');
    SplitNone(flag, '-');
  }

  /** Reading a printed context gives it back. */
  lemma ReadPrinted(c: TraceContext)
    requires Valid(c)
    ensures FromTraceparent(Traceparent(c), c.correlationId, c.tenantId, c.runId) == Some(c)
  {
    ValidIds(c);
    PrintedParts(c);
  }

  /** Printing what was read gives the header in lower case, and only valid contexts are read. */
  lemma PrintRead(header: string, correlationId: string, tenantId: string, runId: string)
    requires FromTraceparent(header, correlationId, tenantId, runId).Some?
    ensures var c := FromTraceparent(header, correlationId, tenantId, runId).value;
            Traceparent(c) == Lower(header) && Valid(c) && c.correlationId == correlationId && c.tenantId == tenantId
              && c.runId == runId
  {
    hide Split, Join, Lower, AllHex, AllZero, Valid, Id;
    var parts := Split(Lower(header), '-');
    ValidIds(FromTraceparent(header, correlationId, tenantId, runId).value);
    hide WellFormed;
    JoinSplit(Lower(header), '-');
    assert parts == [parts[0], parts[1], parts[2], parts[3]];
    JoinFour(parts[0], parts[1], parts[2], parts[3]);
  }

  lemma JoinFour(a: string, b: string, c: string, d: string)
    ensures Join([a, b, c, d], '-') == a + "-" + b + "-" + c + "-" + d
  {
    assert [a, b, c, d][1..] == [b, c, d] && [b, c, d][1..] == [c, d] && [c, d][1..] == [d];
    assert Join([c, d], '-') == c + ['-'] + d;
    assert Join([b, c, d], '-') == b + ['-'] + (c + ['-'] + d);
  }

  /** In lower case: version zero, two ids, and one of two flags. */
  ghost predicate Reads(header: string, t: string, s: string, sampled: bool) {
    Id(t, 32) && Id(s, 16) && Lower(header) == "00-" + t + "-" + s + "-" + if sampled then "01" else "00"
  }

  lemma ReadsAs(header: string, c: TraceContext)
    requires Reads(header, c.traceId, c.spanId, c.sampled)
    ensures FromTraceparent(header, c.correlationId, c.tenantId, c.runId) == Some(c)
  {
    PrintedParts(c);
    ValidIds(c);
    hide Split, Lower, AllHex, AllZero, Id;
  }

  /** A header is accepted exactly when it reads so for some ids and flag, and then these are
      the ids and the flag of the context. */
  lemma AcceptedExactly(header: string, correlationId: string, tenantId: string, runId: string)
    ensures FromTraceparent(header, correlationId, tenantId, runId).Some?
       <==> exists t, s, sampled :: Reads(header, t, s, sampled)
    ensures forall t, s, sampled | Reads(header, t, s, sampled) ::
              FromTraceparent(header, correlationId, tenantId, runId)
              == Some(TraceContext(t, s, correlationId, tenantId, runId, sampled))
  {
    hide FromTraceparent, Lower;
    if FromTraceparent(header, correlationId, tenantId, runId).Some? {
      PrintRead(header, correlationId, tenantId, runId);
      var c := FromTraceparent(header, correlationId, tenantId, runId).value;
      assert Reads(header, c.traceId, c.spanId, c.sampled);
    }
    forall t, s, sampled | Reads(header, t, s, sampled)
      ensures FromTraceparent(header, correlationId, tenantId, runId)
              == Some(TraceContext(t, s, correlationId, tenantId, runId, sampled))
    {
      ReadsAs(header, TraceContext(t, s, correlationId, tenantId, runId, sampled));
    }
  }
}
