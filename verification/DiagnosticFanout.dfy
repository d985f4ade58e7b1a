/** The outcome of running specialist branches side by side: what it says about the
    branches, and that it does not depend on the order in which they are listed. */
module DiagnosticFanout {
  import opened Ordering
  import opened Prelude
  import opened EvidenceMerge

  const MAX_BRANCHES := 2
  const BRANCH_TIMEOUT_SECONDS := 15.0
  const ACCEPTED := {"complete", "insufficient_evidence", "contradictory_evidence"}

  datatype Output = Output(status: string, evidence: seq<Item>, hypotheses: seq<string>)

  /** How a branch ends: with an output, past its time, or with an exception. */
  datatype Reply = Delivered(output: Output) | TimedOut | Raised

  datatype BranchStatus = Finished | Timeout | Failed

  datatype BranchResult = BranchResult(domain: string, status: BranchStatus, output: Option<Output>)

  datatype Status = AllComplete | Partial | Contradictory | NoneUsable

  datatype Phase = ToFusion | ToClarification | Escalate

  datatype Fanout = Fanout(
    status: Status, evidence: seq<Item>, hypotheses: seq<string>, branches: seq<BranchResult>,
      contradictions: seq<string>, next: Phase)

  datatype FanoutError = InvalidBranches | InvalidTimeout | Merge(error: MergeError)

  function Settle(domain: string, r: Reply): BranchResult {
    match r
    case Delivered(output) => BranchResult(domain, Finished, Some(output))
    case TimedOut => BranchResult(domain, Timeout, None)
    case Raised => BranchResult(domain, Failed, None)
  }

  function Branches(domains: seq<string>, runner: string -> Reply): seq<BranchResult> {
    var sorted := SortBy(domains, StrLe);
    seq(|sorted|, i requires 0 <= i < |sorted| => Settle(sorted[i], runner(sorted[i])))
  }

  function Outputs(bs: seq<BranchResult>): seq<Branch> {
    seq(|bs|, i requires 0 <= i < |bs| => if bs[i].output.Some? then Some(bs[i].output.value.evidence) else None)
  }

  predicate Usable(b: BranchResult) {
    b.output.Some? && b.output.value.status in ACCEPTED
  }

  function HypothesesOf(bs: seq<BranchResult>): set<string> {
    set b, h | b in bs && b.output.Some? && h in b.output.value.hypotheses :: h
  }

  function Verdict(bs: seq<BranchResult>, evidence: seq<Item>, contradictions: seq<string>): (Status, Phase) {
    var successes := |Filter(bs, Usable)|;
    if contradictions != [] then (Contradictory, ToFusion)
    else if successes == |bs| then (AllComplete, ToFusion)
    else if successes > 0 then (Partial, if evidence != [] then ToFusion else ToClarification)
    else (NoneUsable, Escalate)
  }

  /** `fanout_diagnostics`; `runner` gives each branch's ending. */
  method FanoutDiagnostics(domains: seq<string>, runner: string -> Reply, tenant: string, incident: string,
                           timeout: real)
    returns (r: Result<Fanout, FanoutError>)
    ensures r == Fanned(domains, runner, tenant, incident, timeout)
  {
    hide Evidence, Contradictions, Flatten, FirstFault;
    if domains == [] || |domains| > MAX_BRANCHES || |SetOf(domains)| != |domains| {
      return Err(InvalidBranches);
    }
    if timeout <= 0.0 || timeout > BRANCH_TIMEOUT_SECONDS {
      return Err(InvalidTimeout);
    }
    var branches := Branches(domains, runner);
    var merged := MergeEvidence(Outputs(branches), tenant, incident);
    if merged.Err? {
      return Err(Merge(merged.error));
    }
    var verdict := Verdict(branches, merged.value.0, merged.value.1);
    return Ok(Fanout(verdict.0, merged.value.0, SortedList(HypothesesOf(branches)), branches, merged.value.1,
                     verdict.1));
  }

  function Fanned(domains: seq<string>, runner: string -> Reply, tenant: string, incident: string,
                  timeout: real): Result<Fanout, FanoutError>
  {
    if domains == [] || |domains| > MAX_BRANCHES || |SetOf(domains)| != |domains| then Err(InvalidBranches)
    else if timeout <= 0.0 || timeout > BRANCH_TIMEOUT_SECONDS then Err(InvalidTimeout)
    else
      var bs := Branches(domains, runner);
      match Merged(Flatten(Outputs(bs)), tenant, incident)
      case Err(e) => Err(Merge(e))
      case Ok(m) =>
        var (status, next) := Verdict(bs, m.0, m.1);
        Ok(Fanout(status, m.0, SortedList(HypothesesOf(bs)), bs, m.1, next))
  }

  /** The result does not depend on the order in which the domains are listed. */
  lemma ListingDoesNotMatter(xs: seq<string>, ys: seq<string>, runner: string -> Reply, tenant: string,
                             incident: string, timeout: real)
    requires multiset(xs) == multiset(ys)
    ensures Fanned(xs, runner, tenant, incident, timeout) == Fanned(ys, runner, tenant, incident, timeout)
  {
    hide Merged, Verdict, SortBy, HypothesesOf;
    SameMultiset(xs, ys);
    assert SetOf(xs) == SetOf(ys);
    StrLeIsAnOrder();
    StringsSeparated(xs);
    SortDependsOnContents(xs, ys, StrLe);
  }

  lemma {:induction false} FilterAllOrNone(bs: seq<BranchResult>)
    ensures |Filter(bs, Usable)| <= |bs|
    ensures |Filter(bs, Usable)| == |bs| <==> forall b | b in bs :: Usable(b)
    ensures |Filter(bs, Usable)| > 0 <==> exists b :: b in bs && Usable(b)
  {
    if bs != [] {
      FilterAllOrNone(bs[1..]);
      Members(bs);
    }
  }

  /** The branch delivered an output whose own status is one of the three accepted ones. */
  ghost predicate Succeeds(r: Reply) {
    r.Delivered? && (r.output.status == "complete" || r.output.status == "insufficient_evidence"
                     || r.output.status == "contradictory_evidence")
  }

  lemma UsableExactly(domain: string, r: Reply)
    ensures Usable(Settle(domain, r)) <==> Succeeds(r)
  {
  }

  /** What a status says about the branches: complete means that every requested domain
      delivered a usable output, escalation that none did, and clarification that some but
      not all did and nothing was learned. Contradictions come before all of these. */
  lemma StatusMeans(domains: seq<string>, runner: string -> Reply, tenant: string, incident: string, timeout: real)
    requires Fanned(domains, runner, tenant, incident, timeout).Ok?
    ensures var f := Fanned(domains, runner, tenant, incident, timeout).value;
            var all := forall d | d in domains :: Succeeds(runner(d));
            var some := exists d :: d in domains && Succeeds(runner(d));
            && (f.status == Contradictory <==> exists p :: Disagree(Flatten(Outputs(f.branches)), p))
            && (f.status == AllComplete <==> all && f.contradictions == [])
            && (f.status == NoneUsable <==> !some && f.contradictions == [])
            && (f.next == Escalate <==> f.status == NoneUsable)
            && (f.next == ToClarification <==> f.status == Partial && f.evidence == [])
  {
    hide SortBy, Flatten, Disagree, Usable, HypothesesOf, Evidence, Settle, Contradictions, Outputs, Succeeds;
    var bs := Branches(domains, runner);
    forall d ensures Usable(Settle(d, runner(d))) <==> Succeeds(runner(d)) {
      UsableExactly(d, runner(d));
    }
    FilterAllOrNone(bs);
    BranchesOf(domains, runner);
    assert domains[0] in domains;
    var f := Fanned(domains, runner, tenant, incident, timeout).value;
    assert f.branches == bs;
    AnyContradiction(Flatten(Outputs(f.branches)));
    assert f.contradictions == Contradictions(Flatten(Outputs(f.branches)));
  }

  lemma AnyContradiction(items: seq<Item>)
    ensures Contradictions(items) != [] <==> exists p :: Disagree(items, p)
  {
    hide Contradictions, Disagree, Sorted;
    if Contradictions(items) != [] {
      ReportedExactly(items, Contradictions(items)[0]);
    }
    if p :| Disagree(items, p) {
      ReportedExactly(items, Label(p));
    }
  }

  lemma BranchesOf(domains: seq<string>, runner: string -> Reply)
    ensures |Branches(domains, runner)| == |domains|
    ensures (forall b | b in Branches(domains, runner) :: Usable(b))
            <==> (forall d | d in domains :: Usable(Settle(d, runner(d))))
    ensures (exists b :: b in Branches(domains, runner) && Usable(b))
            <==> (exists d :: d in domains && Usable(Settle(d, runner(d))))
  {
    hide Usable, Settle;
    SortPermutes(domains, StrLe);
    var sorted, bs := SortBy(domains, StrLe), Branches(domains, runner);
    forall d | d in domains ensures Settle(d, runner(d)) in bs {
      var i :| 0 <= i < |sorted| && sorted[i] == d;
      assert bs[i] == Settle(d, runner(d));
    }
    forall b | b in bs ensures exists d :: d in domains && b == Settle(d, runner(d)) {
      var i :| 0 <= i < |bs| && bs[i] == b;
      assert sorted[i] in domains;
    }
  }

  /** One domain, or two different ones, and a timeout of at most fifteen seconds are accepted;
      beyond that only the merge can refuse. */
  lemma RefusedExactly(domains: seq<string>, runner: string -> Reply, tenant: string, incident: string, timeout: real)
    ensures var r := Fanned(domains, runner, tenant, incident, timeout);
            var listed := |domains| == 1 || (|domains| == 2 && domains[0] != domains[1]);
            && (r == Err(InvalidBranches) <==> !listed)
            && (r == Err(InvalidTimeout) <==> listed && !(0.0 < timeout <= 15.0))
            && (listed && 0.0 < timeout <= 15.0 && r.Err? ==>
                  r.error.Merge? && Merged(Flatten(Outputs(Branches(domains, runner))), tenant, incident)
                                    == Err(r.error.error))
  {
    hide Branches, Outputs, Flatten, Merged, Verdict, HypothesesOf;
    if |domains| == 1 {
      assert SetOf(domains) == {domains[0]};
    } else if |domains| == 2 {
      assert SetOf(domains) == {domains[0], domains[1]};
    }
  }

  /** How the branch for a domain is recorded. */
  ghost predicate Records(b: BranchResult, d: string, r: Reply) {
    && b.domain == d
    && b.output == (if r.Delivered? then Some(r.output) else None)
    && b.status == (if r.Delivered? then Finished else if r == TimedOut then Timeout else Failed)
  }

  ghost function Given(r: Reply): seq<Item> {
    if r.Delivered? then r.output.evidence else []
  }

  lemma BranchesTell(domains: seq<string>, runner: string -> Reply)
    requires |domains| == 1 || (|domains| == 2 && domains[0] != domains[1])
    ensures var bs := Branches(domains, runner);
            && |bs| == |domains| && (forall b | b in bs ::
                                       b.domain in domains && Records(b, b.domain, runner(b.domain)))
            && (forall d | d in domains :: exists b :: b in bs && b.domain == d)
            && (|domains| == 1 ==> bs[0].domain == domains[0])
            && (|domains| == 2 ==> StrLt(bs[0].domain, bs[1].domain))
  {
    hide SortBy, StrLe;
    SortPermutes(domains, StrLe);
    StrLeIsAnOrder();
    SortSorts(domains, StrLe);
    var bs, sorted := Branches(domains, runner), SortBy(domains, StrLe);
    DistinctByContents(domains, sorted);
    forall b | b in bs ensures b.domain in domains && Records(b, b.domain, runner(b.domain)) {
      var i :| 0 <= i < |bs| && bs[i] == b;
      assert sorted[i] in domains;
    }
    forall d | d in domains ensures exists b :: b in bs && b.domain == d {
      var i :| 0 <= i < |sorted| && sorted[i] == d;
      assert bs[i].domain == d;
    }
    assert bs[0].domain == sorted[0] && sorted[0] in domains;
  }

  lemma HypothesesTell(bs: seq<BranchResult>, domains: seq<string>, runner: string -> Reply, h: string)
    requires forall b | b in bs :: b.domain in domains && Records(b, b.domain, runner(b.domain))
    requires forall d | d in domains :: exists b :: b in bs && b.domain == d
    ensures h in HypothesesOf(bs)
       <==> exists d :: d in domains && runner(d).Delivered? && h in runner(d).output.hypotheses
  {
  }

  /** The branches are recorded by name, each with how it ended; what they delivered is merged
      in that order, and every hypothesis among it is listed once. */
  lemma FanoutTells(domains: seq<string>, runner: string -> Reply, tenant: string, incident: string, timeout: real)
    requires Fanned(domains, runner, tenant, incident, timeout).Ok?
    ensures var f := Fanned(domains, runner, tenant, incident, timeout).value;
            && |f.branches| == |domains| && 1 <= |domains| <= 2
            && (forall b | b in f.branches :: b.domain in domains && Records(b, b.domain, runner(b.domain)))
            && (|domains| == 1 ==> f.branches[0].domain == domains[0])
            && (|domains| == 2 ==> StrLt(f.branches[0].domain, f.branches[1].domain))
            && Merged(Given(runner(f.branches[0].domain))
                      + (if |domains| == 1 then [] else Given(runner(f.branches[1].domain))), tenant, incident)
               == Ok((f.evidence, f.contradictions))
            && (forall h :: h in f.hypotheses <==>
                  exists d :: d in domains && runner(d).Delivered? && h in runner(d).output.hypotheses)
            && Sorted(f.hypotheses, StrLe) && Distinct(f.hypotheses)
  {
    hide Merged, Flatten, StrLe, StrLt, SortedList, Sorted, Distinct, Branches, HypothesesOf, Verdict, Outputs;
    RefusedExactly(domains, runner, tenant, incident, timeout);
    BranchesTell(domains, runner);
    var bs := Branches(domains, runner);
    assert forall i | 0 <= i < |bs| :: bs[i] in bs;
    DeliveredInOrder(bs);
    forall h ensures h in HypothesesOf(bs)
                <==> exists d :: d in domains && runner(d).Delivered? && h in runner(d).output.hypotheses {
      HypothesesTell(bs, domains, runner, h);
    }
    OutputsGive(bs, runner);
  }

  lemma OutputsGive(bs: seq<BranchResult>, runner: string -> Reply)
    requires forall b | b in bs :: Records(b, b.domain, runner(b.domain))
    ensures |Outputs(bs)| == |bs|
    ensures forall i | 0 <= i < |bs| :: EvidenceOf(Outputs(bs)[i]) == Given(runner(bs[i].domain))
  {
    assert forall i | 0 <= i < |bs| :: bs[i] in bs;
  }

  lemma DeliveredInOrder(bs: seq<BranchResult>)
    requires 1 <= |bs| <= 2
    ensures |Outputs(bs)| == |bs|
    ensures Flatten(Outputs(bs)) == EvidenceOf(Outputs(bs)[0]) + (if |bs| == 1 then [] else EvidenceOf(Outputs(bs)[1]))
  {
    var os := Outputs(bs);
    assert Flatten(os[..1][..0]) == [] && os[..1][..0] == [];
    if |os| == 2 {
      assert Flatten(os) == Flatten(os[..1]) + EvidenceOf(os[1]);
      assert Flatten(os[..1]) == EvidenceOf(os[0]);
    }
  }
}
