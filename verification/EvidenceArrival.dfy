/** When the order of the records, their branch and their repetition matter to a merge. */
module EvidenceArrival {
  import opened Ordering
  import opened Prelude
  import opened EvidenceMerge

  // ---- which records arrive

  /** Some branch brings the record. */
  ghost predicate Carries(branches: seq<Branch>, x: Item) {
    exists b :: b in branches && x in EvidenceOf(b)
  }

  lemma {:induction false} FlattenMembers(branches: seq<Branch>, x: Item)
    ensures x in Flatten(branches) <==> Carries(branches, x)
  {
    if branches != [] {
      var n := |branches| - 1;
      FlattenMembers(branches[..n], x);
      assert branches == branches[..n] + [branches[n]];
      if x in EvidenceOf(branches[n]) {
        assert branches[n] in branches;
      }
    }
  }

  predicate Crosses(x: Item, tenant: string, incident: string) {
    !InScope(x, tenant, incident)
  }

  predicate Raw(x: Item, tenant: string, incident: string) {
    InScope(x, tenant, incident) && x.contentIncluded != Some(false)
  }

  /** No fault means no faulty record, and a fault is that of some record. */
  lemma {:induction false} FaultIsSomeones(items: seq<Item>, tenant: string, incident: string)
    ensures match FirstFault(items, tenant, incident)
            case None => forall x | x in items :: !Crosses(x, tenant, incident) && !Raw(x, tenant, incident)
            case Some(CrossScope) => exists x :: x in items && Crosses(x, tenant, incident)
            case Some(RawContent) => exists x :: x in items && Raw(x, tenant, incident)
            case Some(LimitExceeded) => false
  {
    if items != [] {
      var n := |items| - 1;
      FaultIsSomeones(items[..n], tenant, incident);
      assert items == items[..n] + [items[n]];
      assert items[n] in items;
    }
  }

  lemma SameRecords(bs: seq<Branch>, cs: seq<Branch>)
    requires forall x :: Carries(bs, x) <==> Carries(cs, x)
    ensures forall x :: x in Flatten(bs) <==> x in Flatten(cs)
  {
    hide Carries;
    forall x ensures x in Flatten(bs) <==> x in Flatten(cs) {
      FlattenMembers(bs, x);
      FlattenMembers(cs, x);
    }
  }

  // ---- the contradictions

  lemma ContradictionsFromSet(xs: seq<Item>, ys: seq<Item>)
    requires forall x :: x in xs <==> x in ys
    ensures Contradictions(xs) == Contradictions(ys)
  {
    hide Fold, Distinct, Disagree, Filter, SortBy, Labels, StrLe;
    var ps, qs := InDispute(xs), InDispute(ys);
    ContestedExactly(xs);
    ContestedExactly(ys);
    forall p ensures p in ps <==> p in qs {
      SameDisputes(xs, ys, p);
    }
    SameElementsPermute(ps, qs);
    LabelsPermute(ps, qs);
    SortedLabelsSame(Labels(ps), Labels(qs));
  }

  lemma SortedLabelsSame(xs: seq<string>, ys: seq<string>)
    requires multiset(xs) == multiset(ys)
    ensures SortBy(xs, StrLe) == SortBy(ys, StrLe)
  {
    StrLeIsAnOrder();
    StringsSeparated(xs);
    SortDependsOnContents(xs, ys, StrLe);
  }

  lemma SameDisputes(xs: seq<Item>, ys: seq<Item>, p: Pair)
    requires forall x :: x in xs <==> x in ys
    ensures Disagree(xs, p) <==> Disagree(ys, p)
  {
  }

  lemma {:induction false} LabelsPermute(ps: seq<Pair>, qs: seq<Pair>)
    requires multiset(ps) == multiset(qs)
    ensures multiset(Labels(ps)) == multiset(Labels(qs))
  {
    hide Labels;
    if ps == [] {
      assert |multiset(qs)| == 0;
    } else {
      var i := FindFirst(ps, qs);
      var rest := qs[..i] + qs[i + 1..];
      LabelsPermute(ps[1..], rest);
      LabelsRemoveAt(ps, 0);
      LabelsRemoveAt(qs, i);
      assert ps[..0] + ps[1..] == ps[1..];
    }
  }

  lemma LabelsRemoveAt(ps: seq<Pair>, i: nat)
    requires i < |ps|
    ensures multiset(Labels(ps)) == multiset{Label(ps[i])} + multiset(Labels(ps[..i] + ps[i + 1..]))
  {
    var rest := ps[..i] + ps[i + 1..];
    assert Labels(ps)[..i] + Labels(ps)[i + 1..] == Labels(rest);
    RemoveAt(Labels(ps), i);
  }

  // ---- the evidence

  /** No digest has two records of least id. */
  ghost predicate OneWinner(items: seq<Item>) {
    forall x, y | Winner(items, x) && Winner(items, y) && x.digest == y.digest :: x == y
  }

  /** No two records of least id tie in the order of the result. */
  ghost predicate NoTies(items: seq<Item>) {
    forall x, y | Winner(items, x) && Winner(items, y) && ItemLe(x, y) && ItemLe(y, x) :: x == y
  }

  ghost predicate Unambiguous(items: seq<Item>) {
    OneWinner(items) && NoTies(items)
  }

  /** In particular when an evidence id names one record. */
  lemma IdsSuffice(items: seq<Item>)
    requires forall x, y | x in items && y in items && x.evidenceId == y.evidenceId :: x == y
    ensures Unambiguous(items)
  {
    forall x, y | Winner(items, x) && Winner(items, y) && x.digest == y.digest ensures x == y {
      StrLeAntisymmetric(x.evidenceId, y.evidenceId);
    }
    forall x, y | Winner(items, x) && Winner(items, y) && ItemLe(x, y) && ItemLe(y, x) ensures x == y {
      Cascade(x.observedAt, y.observedAt, x.observedAt);
      Cascade(x.source, y.source, x.source);
      Cascade(x.kind, y.kind, x.kind);
      Cascade(x.evidenceId, y.evidenceId, x.evidenceId);
    }
  }

  lemma WinnersAreEvidence(items: seq<Item>)
    requires Unambiguous(items)
    ensures forall x :: x in Evidence(items) <==> Winner(items, x)
    ensures Separates(ItemLe, Evidence(items))
  {
    hide Winner;
    OnePerDigest(items);
    forall x | Winner(items, x) ensures x in Evidence(items) {
      WinnerListed(items, x);
      var y :| y in Evidence(items) && y.digest == x.digest;
    }
  }

  lemma WinnerListed(items: seq<Item>, x: Item)
    requires Winner(items, x)
    ensures x in items
  {
  }

  lemma EvidenceFromSet(xs: seq<Item>, ys: seq<Item>)
    requires Unambiguous(xs) && forall x :: x in xs <==> x in ys
    ensures Evidence(xs) == Evidence(ys)
  {
    assert forall x :: Winner(xs, x) <==> Winner(ys, x);
    hide Evidence, Winner, Sorted, Distinct, Separates;
    OnePerDigest(xs);
    OnePerDigest(ys);
    WinnersAreEvidence(xs);
    WinnersAreEvidence(ys);
    SameElementsPermute(Evidence(xs), Evidence(ys));
    SortedUnique(Evidence(xs), Evidence(ys), ItemLe);
  }

  /** As many records are kept as there are digests. */
  lemma EvidenceCounts(xs: seq<Item>, ys: seq<Item>)
    requires forall x :: x in xs <==> x in ys
    ensures |Evidence(xs)| == |Evidence(ys)|
  {
    hide Evidence;
    KeptDigests(xs);
    KeptDigests(ys);
    assert (set x | x in xs :: x.digest) == (set x | x in ys :: x.digest);
  }

  lemma KeptDigests(items: seq<Item>)
    ensures |Evidence(items)| == |set x | x in items :: x.digest|
  {
    FoldTracked(items);
    FoldBest(items);
    var a := Fold(items);
    hide Fold;
    DistinctCounts(a.digests);
    SortPermutes(Values(a), ItemLe);
    assert SetOf(a.digests) == set x | x in items :: x.digest;
  }

  // ---- deliveries that give different evidence

  /** A record of least id that arrives first is kept. */
  lemma {:induction false} FirstWinnerStays(x: Item, rest: seq<Item>)
    requires Winner([x] + rest, x)
    ensures x.digest in Fold([x] + rest).best && Fold([x] + rest).best[x.digest] == x
    decreases |rest|
  {
    var items := [x] + rest;
    if rest == [] {
      assert items[..0] == [];
    } else {
      var n := |rest| - 1;
      assert items[..n + 1] == [x] + rest[..n] && items == ([x] + rest[..n]) + [rest[n]];
      FirstWinnerStays(x, rest[..n]);
      if rest[n].digest == x.digest && StrLt(rest[n].evidenceId, x.evidenceId) {
        StrLeAntisymmetric(rest[n].evidenceId, x.evidenceId);
        assert false;
      }
    }
  }

  lemma FirstWinnerKept(x: Item, items: seq<Item>)
    requires Winner(items, x)
    ensures x in Evidence([x] + items)
  {
    assert Winner([x] + items, x);
    FirstWinnerStays(x, items);
    EvidenceMembers([x] + items);
  }

  lemma {:induction false} DigestsExtend(first: seq<Item>, rest: seq<Item>)
    ensures Fold(first).digests <= Fold(first + rest).digests
    decreases |rest|
  {
    if rest == [] {
      assert first + rest == first;
    } else {
      var n := |rest| - 1;
      DigestsExtend(first, rest[..n]);
      assert (first + rest)[..|first| + n] == first + rest[..n];
    }
  }

  lemma FirstTwoDigests(x: Item, y: Item, items: seq<Item>)
    requires x.digest != y.digest
    ensures [x.digest, y.digest] <= Fold([x, y] + items).digests
  {
    assert [x, y][..1] == [x] && [x][..0] == [];
    assert Fold([x]).digests == [x.digest] && Fold([x]).best == map[x.digest := x];
    assert Fold([x, y]).digests == [x.digest, y.digest];
    DigestsExtend([x, y], items);
  }

  /** Of two records that tie, the one whose digest arrives first comes first. */
  lemma TiesKeepArrival(x: Item, y: Item, items: seq<Item>) returns (i: nat, j: nat)
    requires x.digest != y.digest && ItemLe(x, y) && OneWinner([x, y] + items)
    requires Winner([x, y] + items, x) && Winner([x, y] + items, y)
    ensures var e := Evidence([x, y] + items); i < j < |e| && e[i] == x && e[j] == y
  {
    var a := Fold([x, y] + items);
    FoldTracked([x, y] + items);
    FoldBest([x, y] + items);
    FirstTwoDigests(x, y, items);
    hide Fold, ItemLe, Insert;
    var vs := Values(a);
    assert vs[0] == x && vs[1] == y;
    SortPermutes(vs[1..], ItemLe);
    assert vs[1..][0] == y && y in vs[1..];
    i, j := InsertedBefore(x, SortBy(vs[1..], ItemLe), ItemLe, y);
  }

  // ---- when every delivery gives the same result

  lemma {:induction false} FlattenPrefix(first: Branch, bs: seq<Branch>)
    ensures Flatten([first] + bs) == EvidenceOf(first) + Flatten(bs)
    decreases |bs|
  {
    if bs == [] {
      assert [first] + bs == [first] && [first][..0] == [];
    } else {
      var n := |bs| - 1;
      FlattenPrefix(first, bs[..n]);
      var all := [first] + bs;
      assert all[..n + 1] == [first] + bs[..n] && all[n + 1] == bs[n];
      assert Flatten(all) == Flatten(all[..n + 1]) + EvidenceOf(bs[n]);
      assert Flatten(bs) == Flatten(bs[..n]) + EvidenceOf(bs[n]);
      hide EvidenceOf, Flatten;
      Regroup(EvidenceOf(first), Flatten(bs[..n]), EvidenceOf(bs[n]));
    }
  }

  lemma Regroup(a: seq<Item>, b: seq<Item>, c: seq<Item>)
    ensures a + b + c == a + (b + c)
  {
  }

  /** A faulty record that arrives first decides the error, whatever else arrives. */
  lemma FirstRecordDecides(x: Item, bs: seq<Branch>, tenant: string, incident: string)
    requires Crosses(x, tenant, incident) || Raw(x, tenant, incident)
    ensures Merged(Flatten([Some([x])] + bs), tenant, incident)
         == Err(if Crosses(x, tenant, incident) then CrossScope else RawContent)
  {
    hide Evidence, Contradictions;
    FlattenPrefix(Some([x]), bs);
    assert [x][..0] == [];
    FaultStays([x], [x] + Flatten(bs), tenant, incident);
  }

  lemma FrontCarries(front: seq<Item>, bs: seq<Branch>)
    requires forall x | x in front :: x in Flatten(bs)
    ensures forall x :: Carries([Some(front)] + bs, x) <==> Carries(bs, x)
  {
    forall x ensures Carries([Some(front)] + bs, x) <==> Carries(bs, x) {
      FlattenPrefix(Some(front), bs);
      FlattenMembers([Some(front)] + bs, x);
      FlattenMembers(bs, x);
    }
  }

  /** Every way of delivering the same records gives the same result. */
  ghost predicate AlwaysMergesAlike(bs: seq<Branch>, tenant: string, incident: string) {
    forall cs | (forall x :: Carries(cs, x) <==> Carries(bs, x)) ::
      Merged(Flatten(cs), tenant, incident) == Merged(Flatten(bs), tenant, incident)
  }

  ghost predicate BothFaults(bs: seq<Branch>, tenant: string, incident: string) {
    && (exists x :: Carries(bs, x) && Crosses(x, tenant, incident))
    && (exists x :: Carries(bs, x) && Raw(x, tenant, incident))
  }

  ghost predicate AnyFault(bs: seq<Branch>, tenant: string, incident: string) {
    exists x :: Carries(bs, x) && (Crosses(x, tenant, incident) || Raw(x, tenant, incident))
  }

  ghost predicate TooMany(items: seq<Item>) {
    |set x | x in items :: x.digest| > MAX_EVIDENCE
  }

  /** Two deliveries of the same records: both are faulty or neither, and differ at most in
      the fault, if there are two kinds, or in the evidence, if there are ties. */
  lemma OrderDoesNotMatter(bs: seq<Branch>, cs: seq<Branch>, tenant: string, incident: string)
    requires forall x :: Carries(bs, x) <==> Carries(cs, x)
    ensures FirstFault(Flatten(bs), tenant, incident).Some? <==> AnyFault(bs, tenant, incident)
    ensures FirstFault(Flatten(cs), tenant, incident).Some? <==> AnyFault(bs, tenant, incident)
    ensures !BothFaults(bs, tenant, incident)
            && (AnyFault(bs, tenant, incident) || TooMany(Flatten(bs)) || Unambiguous(Flatten(bs))) ==>
              Merged(Flatten(cs), tenant, incident) == Merged(Flatten(bs), tenant, incident)
  {
    hide Evidence, Contradictions, Flatten, Carries, Unambiguous, FirstFault, Crosses, Raw;
    var xs, ys := Flatten(bs), Flatten(cs);
    SameRecords(bs, cs);
    forall x ensures x in xs <==> Carries(bs, x) {
      FlattenMembers(bs, x);
    }
    FaultIsSomeones(xs, tenant, incident);
    FaultIsSomeones(ys, tenant, incident);
    KeptDigests(xs);
    EvidenceCounts(xs, ys);
    if Unambiguous(xs) { EvidenceFromSet(xs, ys); }
    ContradictionsFromSet(xs, ys);
  }

  /** In particular permuted branches are faulty together. */
  lemma BranchOrderDoesNotMatter(bs: seq<Branch>, cs: seq<Branch>, tenant: string, incident: string)
    requires multiset(bs) == multiset(cs)
    ensures FirstFault(Flatten(bs), tenant, incident).None? <==> FirstFault(Flatten(cs), tenant, incident).None?
    ensures FirstFault(Flatten(bs), tenant, incident).None? && Unambiguous(Flatten(bs)) ==>
              Merged(Flatten(bs), tenant, incident) == Merged(Flatten(cs), tenant, incident)
  {
    hide Merged, Flatten, Unambiguous, FirstFault;
    SameMultiset(bs, cs);
    forall x ensures Carries(bs, x) <==> Carries(cs, x) {}
    OrderDoesNotMatter(bs, cs, tenant, incident);
  }

  lemma NotBoth(x: Item, tenant: string, incident: string)
    ensures !(Crosses(x, tenant, incident) && Raw(x, tenant, incident))
  {
  }

  lemma FaultsTellApart(bs: seq<Branch>, tenant: string, incident: string)
    requires BothFaults(bs, tenant, incident)
    ensures !AlwaysMergesAlike(bs, tenant, incident)
  {
    hide Carries, Crosses, Raw, Merged, Flatten;
    var x :| Carries(bs, x) && Crosses(x, tenant, incident);
    var y :| Carries(bs, y) && Raw(y, tenant, incident);
    NotBoth(y, tenant, incident);
    FlattenMembers(bs, x);
    FlattenMembers(bs, y);
    FrontCarries([x], bs);
    FrontCarries([y], bs);
    FirstRecordDecides(x, bs, tenant, incident);
    FirstRecordDecides(y, bs, tenant, incident);
  }

  /** A delivery with `front` in front of everything else, where nothing is at fault. */
  lemma FrontMerged(front: seq<Item>, bs: seq<Branch>, tenant: string, incident: string)
    requires (forall x | x in front :: x in Flatten(bs))
    requires !AnyFault(bs, tenant, incident) && !TooMany(Flatten(bs)) && AlwaysMergesAlike(bs, tenant, incident)
    ensures Merged(Flatten(bs), tenant, incident).Ok?
    ensures Evidence(front + Flatten(bs)) == Merged(Flatten(bs), tenant, incident).value.0
  {
    hide Evidence, Contradictions, Flatten, FirstFault, TooMany, AnyFault, Carries;
    var cs := [Some(front)] + bs;
    FrontCarries(front, bs);
    OrderDoesNotMatter(bs, cs, tenant, incident);
    FlattenPrefix(Some(front), bs);
    KeptWithin(Flatten(bs));
    SameRecords(bs, cs);
    EvidenceCounts(Flatten(bs), Flatten(cs));
  }

  lemma KeptWithin(items: seq<Item>)
    requires !TooMany(items)
    ensures |Evidence(items)| <= MAX_EVIDENCE
  {
    KeptDigests(items);
  }

  lemma WinnersTellApart(bs: seq<Branch>, x: Item, y: Item, tenant: string, incident: string)
    requires !AnyFault(bs, tenant, incident) && !TooMany(Flatten(bs))
    requires Winner(Flatten(bs), x) && Winner(Flatten(bs), y) && x.digest == y.digest && x != y
    ensures !AlwaysMergesAlike(bs, tenant, incident)
  {
    if AlwaysMergesAlike(bs, tenant, incident) {
      hide Evidence, Merged, Flatten, AlwaysMergesAlike, AnyFault, TooMany;
      FrontMerged([x], bs, tenant, incident);
      FrontMerged([y], bs, tenant, incident);
      FirstWinnerKept(x, Flatten(bs));
      FirstWinnerKept(y, Flatten(bs));
      OnePerDigest([x] + Flatten(bs));
      assert false;
    }
  }

  lemma TiesTellApart(bs: seq<Branch>, x: Item, y: Item, tenant: string, incident: string)
    requires !AnyFault(bs, tenant, incident) && !TooMany(Flatten(bs)) && OneWinner(Flatten(bs))
    requires Winner(Flatten(bs), x) && Winner(Flatten(bs), y) && ItemLe(x, y) && ItemLe(y, x) && x != y
    ensures !AlwaysMergesAlike(bs, tenant, incident)
  {
    var items := Flatten(bs);
    if AlwaysMergesAlike(bs, tenant, incident) {
      assert forall z :: Winner([x, y] + items, z) <==> Winner(items, z);
      assert forall z :: Winner([y, x] + items, z) <==> Winner(items, z);
      hide Evidence, Merged, Flatten, AlwaysMergesAlike, AnyFault, TooMany, ItemLe, Winner;
      WinnerListed(items, x);
      WinnerListed(items, y);
      FrontMerged([x, y], bs, tenant, incident);
      FrontMerged([y, x], bs, tenant, incident);
      var i, j := TiesKeepArrival(x, y, items);
      var k, l := TiesKeepArrival(y, x, items);
      OnePerDigest([x, y] + items);
      assert false;
    }
  }

  /** Two different records of the same id and digest: which one is kept depends on the
      order, although nothing is at fault. */
  lemma SameIdTellsApart(x: Item, y: Item, tenant: string, incident: string)
    requires x.evidenceId == y.evidenceId && x.digest == y.digest && x != y
    requires forall z | z in {x, y} :: !Crosses(z, tenant, incident) && !Raw(z, tenant, incident)
    ensures !AlwaysMergesAlike([Some([x, y])], tenant, incident)
  {
    var bs := [Some([x, y])];
    hide Flatten, Carries, AlwaysMergesAlike, Crosses, Raw, Winner, TooMany;
    Delivered([x, y]);
    BothWin(x, y);
    WinnersTellApart(bs, x, y, tenant, incident);
  }

  lemma Delivered(items: seq<Item>)
    ensures Flatten([Some(items)]) == items
    ensures forall x :: Carries([Some(items)], x) <==> x in items
  {
    assert [Some(items)][..0] == [] && Flatten([]) + items == items;
    assert EvidenceOf(Some(items)) == items;
    forall x ensures Carries([Some(items)], x) <==> x in items {
      FlattenMembers([Some(items)], x);
    }
  }

  lemma BothWin(x: Item, y: Item)
    requires x.evidenceId == y.evidenceId && x.digest == y.digest
    ensures Winner([x, y], x) && Winner([x, y], y) && !TooMany([x, y])
  {
    StrLeTotal(x.evidenceId, x.evidenceId);
    assert (set z | z in [x, y] :: z.digest) == {x.digest};
  }

  /** Order, branch and repetition change nothing at all, errors included, exactly when not both
      kinds of faulty record arrive and, should there be no fault and not too many digests,
      the evidence is unambiguous. */
  lemma OrderMattersExactly(bs: seq<Branch>, tenant: string, incident: string)
    ensures AlwaysMergesAlike(bs, tenant, incident)
       <==> && !BothFaults(bs, tenant, incident)
            && (AnyFault(bs, tenant, incident) || TooMany(Flatten(bs)) || Unambiguous(Flatten(bs)))
  {
    hide Merged, Flatten, Carries, BothFaults, AnyFault, TooMany, Winner, ItemLe;
    if BothFaults(bs, tenant, incident) {
      FaultsTellApart(bs, tenant, incident);
    } else if AnyFault(bs, tenant, incident) || TooMany(Flatten(bs)) || Unambiguous(Flatten(bs)) {
      forall cs | (forall x :: Carries(cs, x) <==> Carries(bs, x))
        ensures Merged(Flatten(cs), tenant, incident) == Merged(Flatten(bs), tenant, incident)
      {
        OrderDoesNotMatter(bs, cs, tenant, incident);
      }
    } else if !OneWinner(Flatten(bs)) {
      var x, y :| Winner(Flatten(bs), x) && Winner(Flatten(bs), y) && x.digest == y.digest && x != y;
      WinnersTellApart(bs, x, y, tenant, incident);
    } else {
      var x, y :| Winner(Flatten(bs), x) && Winner(Flatten(bs), y) && ItemLe(x, y) && ItemLe(y, x) && x != y;
      TiesTellApart(bs, x, y, tenant, incident);
    }
  }

  /** Where an evidence id names one record, only the error can depend on the order. */
  lemma OnlyErrorsDepend(bs: seq<Branch>, tenant: string, incident: string)
    requires forall x, y | Carries(bs, x) && Carries(bs, y) && x.evidenceId == y.evidenceId :: x == y
    ensures AlwaysMergesAlike(bs, tenant, incident) <==> !BothFaults(bs, tenant, incident)
  {
    hide AlwaysMergesAlike, Carries, BothFaults, AnyFault, TooMany, Unambiguous;
    OrderMattersExactly(bs, tenant, incident);
    forall x ensures x in Flatten(bs) <==> Carries(bs, x) {
      FlattenMembers(bs, x);
    }
    IdsSuffice(Flatten(bs));
  }

  // ---- merging twice

  lemma NewDigest(a: Acc, x: Item)
    requires Tracked(a) && Tracked(Add(a, x)) && x.digest !in a.best
    ensures Values(Add(a, x)) == Values(a) + [x]
    ensures Add(a, x).best.Keys == a.best.Keys + {x.digest}
  {
    assert forall d | d in a.digests :: d in a.best && d != x.digest;
    var b := Add(a, x);
    assert b.digests == a.digests + [x.digest];
    forall i | 0 <= i < |a.digests| ensures Values(b)[i] == Values(a)[i] {
      assert a.digests[i] in a.digests;
    }
  }

  ghost predicate DifferentDigests(items: seq<Item>) {
    forall i, j | 0 <= i < j < |items| :: items[i].digest != items[j].digest
  }

  ghost function DigestsOf(items: seq<Item>): set<string> {
    set x | x in items :: x.digest
  }

  lemma {:induction false} DigestsDiffer(items: seq<Item>)
    requires DifferentDigests(items)
    ensures Tracked(Fold(items)) && Values(Fold(items)) == items
    ensures Fold(items).best.Keys == DigestsOf(items)
  {
    hide Tracked, Values, Add, DifferentDigests, DigestsOf;
    FoldTracked(items);
    if items != [] {
      var n := |items| - 1;
      var before, x := items[..n], items[n];
      assert items == before + [x];
      OneMoreDigest(before, x);
      DigestsDiffer(before);
      FoldTracked(before);
      NewDigest(Fold(before), x);
    } else {
      NothingKept();
      NoDigests();
    }
  }

  lemma NoDigests()
    ensures DigestsOf([]) == {}
  {
  }

  lemma OneMoreDigest(before: seq<Item>, x: Item)
    requires DifferentDigests(before + [x])
    ensures DifferentDigests(before) && x.digest !in DigestsOf(before)
    ensures DigestsOf(before + [x]) == DigestsOf(before) + {x.digest}
  {
    var items := before + [x];
    forall i | 0 <= i < |before| ensures before[i].digest != x.digest {
      assert items[i] == before[i] && items[|before|] == x;
    }
    forall i, j | 0 <= i < j < |before| ensures before[i].digest != before[j].digest {
      assert items[i] == before[i] && items[j] == before[j];
    }
    assert x in items && forall y | y in before :: y in items;
  }

  lemma NothingKept()
    ensures Tracked(Fold([])) && Values(Fold([])) == [] && Fold([]).best == map[]
  {
  }

  lemma {:induction false} SortedStays(items: seq<Item>)
    requires Sorted(items, ItemLe)
    ensures SortBy(items, ItemLe) == items
  {
    if items != [] {
      SortedTail(items, ItemLe);
      SortedStays(items[1..]);
      assert items == [items[0]] + items[1..];
    }
  }

  /** Merging what was merged changes nothing, whatever the ids. */
  lemma MergeIsIdempotent(items: seq<Item>)
    ensures Evidence(Evidence(items)) == Evidence(items)
  {
    var once := Evidence(items);
    OnePerDigest(items);
    assert forall i, j | 0 <= i < j < |once| :: once[i] in once && once[j] in once && once[i] != once[j];
    hide Distinct, Sorted;
    DigestsDiffer(once);
    SortedStays(once);
  }
}
