/** What a plan's fingerprint tells apart, and which plans an approval therefore covers. */
module PlanFingerprints {
  import opened Prelude
  import opened TextCodec
  import opened ExecutionModel

  /** The plans agree in everything their fingerprints digest. */
  predicate SameDigested(p: Plan, q: Plan) {
    p.action == q.action && p.toolName == q.toolName && p.resourceId == q.resourceId && p.risk == q.risk
  }

  /** The separator occurs in none of the digested fields. */
  predicate BarFree(p: Plan) {
    '|' !in p.action && '|' !in p.toolName && '|' !in p.resourceId && '|' !in p.risk
  }

  ghost predicate Identified(p: Plan) {
    forall q :: FingerprintText(q) == FingerprintText(p) ==> SameDigested(p, q)
  }

  // ---- splitting at the separator

  lemma FirstBar(a: string, b: string, x: string, y: string)
    requires '|' !in a && '|' !in b && a + "|" + x == b + "|" + y
    ensures a == b && x == y
  {
    var s, t := a + "|" + x, b + "|" + y;
    assert s[|a|] == '|' && t[|b|] == '|';
    assert forall i | 0 <= i < |a| :: s[i] == a[i] && a[i] in a;
    assert forall i | 0 <= i < |b| :: t[i] == b[i] && b[i] in b;
    assert |a| == |b|;
    assert s[..|a|] == a && t[..|b|] == b;
    assert s[|a| + 1..] == x && t[|b| + 1..] == y;
  }

  lemma NoBarInAction(incident: Incident)
    ensures '|' !in ActionFor(incident)
  {
    hide Contains, Lower;
    if incident.domain == Printer {
      assert '|' !in "restart_spooler" && '|' !in "refresh_printer_connection";
    } else {
      assert '|' !in "restart_outlook" && '|' !in "refresh_outlook_sync";
    }
  }

  lemma NoBarInTool(d: Domain)
    ensures '|' !in RouteOf(d).remediationTool
  {
    match d
    case Outlook => assert '|' !in "mcp.outlook.remediate";
    case Printer => assert '|' !in "mcp.printer.remediate";
  }

  lemma NoBars(incident: Incident)
    ensures '|' !in PlanFor(incident).action && '|' !in PlanFor(incident).toolName
  {
    hide ActionFor, RouteOf;
    NoBarInAction(incident);
    NoBarInTool(incident.domain);
  }

  /** A plan's fingerprint text, seen from the front. */
  lemma FingerprintFront(p: Plan)
    ensures FingerprintText(p) == p.action + "|" + (p.toolName + "|" + (p.resourceId + "|" + p.risk))
  {
  }

  lemma SameTail(x: string, y: string, tail: string)
    requires x + tail == y + tail
    ensures x == y
  {
    assert |x| == |y|;
    assert x == (x + tail)[..|x|] && y == (y + tail)[..|y|];
  }

  /** Between plans that the router makes, equal fingerprints mean the same action, tool
      and device, even though the fingerprint's fields are joined with a character that a
      device id may contain. */
  lemma RoutedFingerprints(a: Incident, b: Incident, sha: string -> string)
    requires forall x, y :: sha(x) == sha(y) ==> x == y
    requires sha(FingerprintText(PlanFor(a))) == sha(FingerprintText(PlanFor(b)))
    ensures PlanFor(a).action == PlanFor(b).action && PlanFor(a).toolName == PlanFor(b).toolName
    ensures PlanFor(a).resourceId == PlanFor(b).resourceId
  {
    hide ActionFor, RouteOf, FingerprintText;
    var p, q := PlanFor(a), PlanFor(b);
    FingerprintFront(p);
    FingerprintFront(q);
    NoBars(a);
    NoBars(b);
    var x, y := p.resourceId + "|" + p.risk, q.resourceId + "|" + q.risk;
    FirstBar(p.action, q.action, p.toolName + "|" + x, q.toolName + "|" + y);
    FirstBar(p.toolName, q.toolName, x, y);
    assert x == p.resourceId + ("|" + p.risk) && y == q.resourceId + ("|" + q.risk) && p.risk == q.risk;
    SameTail(p.resourceId, q.resourceId, "|" + p.risk);
  }

  // ---- counting separators

  function Bars(s: string): nat {
    if s == [] then 0 else (if s[0] == '|' then 1 else 0) + Bars(s[1..])
  }

  lemma {:induction false} BarsConcat(a: string, b: string)
    ensures Bars(a + b) == Bars(a) + Bars(b)
  {
    if a == [] {
      assert a + b == b;
    } else {
      assert (a + b)[1..] == a[1..] + b;
      BarsConcat(a[1..], b);
    }
  }

  lemma {:induction false} NoBarsCounted(s: string)
    ensures Bars(s) == 0 <==> '|' !in s
  {
    if s != [] {
      NoBarsCounted(s[1..]);
      assert s == [s[0]] + s[1..];
    }
  }

  /** One separator follows each of the first three fields. */
  lemma FingerprintBars(p: Plan)
    ensures Bars(FingerprintText(p)) == 3 + Bars(p.action) + Bars(p.toolName) + Bars(p.resourceId) + Bars(p.risk)
    ensures Bars(FingerprintText(p)) == 3 <==> BarFree(p)
  {
    hide Bars;
    OneBar();
    var tail := p.resourceId + "|" + p.risk;
    FingerprintFront(p);
    BarsConcat(p.action, "|" + (p.toolName + "|" + tail));
    assert FingerprintText(p) == p.action + ("|" + (p.toolName + "|" + tail));
    BarsConcat("|", p.toolName + "|" + tail);
    BarsConcat(p.toolName, "|" + tail);
    assert p.toolName + "|" + tail == p.toolName + ("|" + tail);
    BarsConcat("|", tail);
    BarsConcat(p.resourceId, "|" + p.risk);
    assert tail == p.resourceId + ("|" + p.risk);
    BarsConcat("|", p.risk);
    NoBarsCounted(p.action);
    NoBarsCounted(p.toolName);
    NoBarsCounted(p.resourceId);
    NoBarsCounted(p.risk);
  }

  lemma OneBar()
    ensures Bars("|") == 1
  {
    assert Bars("|"[1..]) == 0;
  }

  // ---- which plans a fingerprint identifies

  lemma BarFreeIdentifies(p: Plan, q: Plan)
    requires BarFree(p) && FingerprintText(q) == FingerprintText(p)
    ensures SameDigested(p, q)
  {
    hide FingerprintText, Bars;
    FingerprintBars(p);
    FingerprintBars(q);
    FingerprintFront(p);
    FingerprintFront(q);
    FirstBar(p.action, q.action, p.toolName + "|" + (p.resourceId + "|" + p.risk),
             q.toolName + "|" + (q.resourceId + "|" + q.risk));
    FirstBar(p.toolName, q.toolName, p.resourceId + "|" + p.risk, q.resourceId + "|" + q.risk);
    FirstBar(p.resourceId, q.resourceId, p.risk, q.risk);
  }

  lemma AtBar(s: string) returns (a: string, b: string)
    requires '|' in s
    ensures s == a + "|" + b
  {
    var i :| 0 <= i < |s| && s[i] == '|';
    a, b := s[..i], s[i + 1..];
  }

  /** The text after a separator inside a field moved into the neighbouring field: another
      plan with the same text. */
  lemma MovedBar(p: Plan) returns (q: Plan)
    requires !BarFree(p)
    ensures FingerprintText(q) == FingerprintText(p) && !SameDigested(p, q)
  {
    if '|' in p.action {
      var a, b := AtBar(p.action);
      q := p.(action := a, toolName := b + "|" + p.toolName);
    } else if '|' in p.toolName {
      var a, b := AtBar(p.toolName);
      q := p.(toolName := a, resourceId := b + "|" + p.resourceId);
    } else if '|' in p.resourceId {
      var a, b := AtBar(p.resourceId);
      q := p.(resourceId := a, risk := b + "|" + p.risk);
    } else {
      var a, b := AtBar(p.risk);
      q := p.(resourceId := p.resourceId + "|" + a, risk := b);
    }
    SameText(p, q);
  }

  lemma SameText(p: Plan, q: Plan)
    requires || (p.action + "|" + p.toolName == q.action + "|" + q.toolName && p.resourceId == q.resourceId
                 && p.risk == q.risk)
             || (p.toolName + "|" + p.resourceId == q.toolName + "|" + q.resourceId && p.action == q.action
                 && p.risk == q.risk)
             || (p.resourceId + "|" + p.risk == q.resourceId + "|" + q.risk && p.action == q.action
                 && p.toolName == q.toolName)
    ensures FingerprintText(p) == FingerprintText(q)
  {
    MiddleOf(p);
    MiddleOf(q);
    FingerprintFront(p);
    FingerprintFront(q);
  }

  lemma MiddleOf(p: Plan)
    ensures FingerprintText(p) == p.action + ("|" + (p.toolName + "|" + p.resourceId) + ("|" + p.risk))
  {
  }

  /** Equal fingerprint texts mean the same action, tool, device and risk, for whatever other
      plan, exactly when the separator occurs in none of the plan's digested fields. */
  lemma IdentifiedExactly(p: Plan)
    ensures (forall q :: FingerprintText(q) == FingerprintText(p) ==> SameDigested(p, q)) <==> BarFree(p)
  {
    hide FingerprintText;
    if BarFree(p) {
      forall q | FingerprintText(q) == FingerprintText(p) ensures SameDigested(p, q) {
        BarFreeIdentifies(p, q);
      }
    } else {
      var q := MovedBar(p);
    }
  }

  /** A plan that the router makes is identified exactly when its device id has no separator. */
  lemma RoutedIdentifiedExactly(incident: Incident)
    ensures Identified(PlanFor(incident)) <==> '|' !in incident.deviceId
  {
    hide ActionFor, RouteOf, FingerprintText;
    IdentifiedExactly(PlanFor(incident));
    NoBars(incident);
    assert '|' !in "medium";
  }

  // ---- what an approval covers

  /** A gate that has issued `id` for plan `p` and since then has neither consumed nor
      replaced that grant. */
  predicate Pending(g: Gate, ctx: Context, p: Plan, id: string, at: real, ttl: real, sha: string -> string) {
    id in g && g[id] == Approval(NewGrant(ctx, sha(FingerprintText(p)), id, at, ttl), false)
  }

  /** With a collision-free digest, an approval given for `p` is accepted, in time and in its
      own context, for exactly the plans with the same fingerprint text; so it covers nothing
      but `p`'s action, tool, device and risk exactly when these are free of the separator. */
  lemma ApprovalCoversExactly(g: Gate, ctx: Context, p: Plan, id: string, at: real, ttl: real, sha: string -> string,
                              now: real)
    requires Pending(g, ctx, p, id, at, ttl, sha) && now < at + ttl
    requires forall x, y :: sha(x) == sha(y) ==> x == y
    ensures forall q :: ConsumeRefusal(g, ctx, sha(FingerprintText(q)), id, now).None?
              <==> FingerprintText(q) == FingerprintText(p)
    ensures (forall q :: ConsumeRefusal(g, ctx, sha(FingerprintText(q)), id, now).None? ==> SameDigested(p, q))
            <==> BarFree(p)
  {
    hide FingerprintText, SameDigested, BarFree;
    IdentifiedExactly(p);
  }

  /** An approval that the router's plan for a device "d|x" got also covers another tool on
      another device. */
  lemma ApprovalCanCoverAnotherTool(g: Gate, ctx: Context, incident: Incident, id: string, at: real, ttl: real,
                                    sha: string -> string, now: real)
    requires incident.deviceId == "d|x" && now < at + ttl
    requires Pending(g, ctx, PlanFor(incident), id, at, ttl, sha)
    ensures var p := PlanFor(incident);
            var q := p.(toolName := p.toolName + "|d", resourceId := "x");
            q.toolName != p.toolName && q.resourceId != p.resourceId
            && ConsumeRefusal(g, ctx, sha(FingerprintText(q)), id, now) == None
  {
    hide ActionFor, RouteOf;
    var p := PlanFor(incident);
    var q := p.(toolName := p.toolName + "|d", resourceId := "x");
    assert p.toolName + "|" + p.resourceId == q.toolName + "|" + q.resourceId;
    SameText(p, q);
  }
}
