/** A merge in terms of the records it was given: which one is reported when one is at fault,
    and otherwise exactly which are kept, in which order, and which labels are contested. */
module MergeLaws {
  import opened Ordering
  import opened Prelude
  import opened EvidenceMerge
  import opened EvidenceArrival

  // ---- what is refused

  /** The first record of another tenant or incident, or not marked free of raw content. */
  ghost predicate FirstAtFault(items: seq<Item>, i: nat, tenant: string, incident: string) {
    && i < |items|
    && !(items[i].tenantId == tenant && items[i].incidentId == incident && items[i].contentIncluded == Some(false))
    && (forall j | 0 <= j < i ::
          items[j].tenantId == tenant && items[j].incidentId == incident && items[j].contentIncluded == Some(false))
  }

  ghost predicate Fault(items: seq<Item>, f: Option<MergeError>, tenant: string, incident: string) {
    match f
    case None => forall i: nat :: !FirstAtFault(items, i, tenant, incident)
    case Some(e) =>
      exists i: nat :: FirstAtFault(items, i, tenant, incident)
        && e == if items[i].tenantId == tenant && items[i].incidentId == incident then RawContent else CrossScope
  }

  lemma {:induction false} FaultExactly(items: seq<Item>, tenant: string, incident: string)
    ensures Fault(items, FirstFault(items, tenant, incident), tenant, incident)
  {
    if items != [] {
      var before, n := items[..|items| - 1], |items| - 1;
      FaultExactly(before, tenant, incident);
      assert forall i | 0 <= i < n :: before[i] == items[i];
      assert forall i: nat | i < n ::
          FirstAtFault(before, i, tenant, incident) <==> FirstAtFault(items, i, tenant, incident);
      if FirstFault(before, tenant, incident).None? {
        AllSound(before, tenant, incident, n);
        if FirstFault(items, tenant, incident).Some? {
          assert FirstAtFault(items, n, tenant, incident);
        }
      }
    }
  }

  lemma {:induction false} AllSound(items: seq<Item>, tenant: string, incident: string, n: nat)
    requires n <= |items| && forall i: nat :: !FirstAtFault(items, i, tenant, incident)
    ensures forall j | 0 <= j < n ::
              items[j].tenantId == tenant && items[j].incidentId == incident && items[j].contentIncluded == Some(false)
  {
    if n > 0 {
      AllSound(items, tenant, incident, n - 1);
      assert !FirstAtFault(items, n - 1, tenant, incident);
    }
  }

  // ---- what is kept

  /** Of the records with its digest, the one with the least id, and of those the first. */
  ghost predicate Kept(items: seq<Item>, i: nat) {
    && i < |items|
    && (forall j | 0 <= j < |items| && items[j].digest == items[i].digest ::
          StrLe(items[i].evidenceId, items[j].evidenceId)
          && (j < i ==> items[j].evidenceId != items[i].evidenceId))
  }

  /** A record that takes the place of the best so far comes before all of its digest. */
  lemma NewBest(before: seq<Item>, x: Item, y: Item)
    requires x.digest in Fold(before).best ==> StrLt(x.evidenceId, Fold(before).best[x.digest].evidenceId)
    requires y in before && y.digest == x.digest
    ensures StrLe(x.evidenceId, y.evidenceId) && x.evidenceId != y.evidenceId
  {
    hide Fold, StrLe;
    FoldBest(before);
    var w := Fold(before).best[x.digest].evidenceId;
    StrLeTransitive(x.evidenceId, w, y.evidenceId);
    if x.evidenceId == y.evidenceId {
      StrLeAntisymmetric(w, x.evidenceId);
    }
  }

  lemma {:induction false} BestIsKept(items: seq<Item>, d: string)
    requires d in Fold(items).best
    ensures exists i: nat :: Kept(items, i) && items[i] == Fold(items).best[d] && items[i].digest == d
  {
    FoldBest(items);
    var n := |items| - 1;
    var before, x := items[..n], items[n];
    assert forall j | 0 <= j < n :: before[j] == items[j];
    if Fold(items).best[d] == x && (d !in Fold(before).best || Fold(before).best[d] != x) {
      forall j | 0 <= j < n && items[j].digest == d
        ensures StrLe(x.evidenceId, items[j].evidenceId) && items[j].evidenceId != x.evidenceId
      {
        NewBest(before, x, before[j]);
      }
      StrLeTotal(x.evidenceId, x.evidenceId);
      assert Kept(items, n);
    } else {
      BestIsKept(before, d);
      var i: nat :| Kept(before, i) && before[i] == Fold(before).best[d] && before[i].digest == d;
      StrLeTotal(items[i].evidenceId, x.evidenceId);
      assert Kept(items, i);
    }
  }

  lemma KeptIsUnique(items: seq<Item>, i: nat, j: nat)
    requires Kept(items, i) && Kept(items, j) && items[i].digest == items[j].digest
    ensures i == j
  {
    StrLeAntisymmetric(items[i].evidenceId, items[j].evidenceId);
  }

  lemma KeptIsListed(items: seq<Item>)
    ensures forall i: nat :: Kept(items, i) ==> i < |items|
  {
  }

  lemma EvidenceIsKept(items: seq<Item>, x: Item)
    ensures x in Evidence(items) <==> exists i: nat :: Kept(items, i) && items[i] == x
  {
    hide Fold, Kept, Evidence, Sorted, Distinct;
    EvidenceMembers(items);
    FoldBest(items);
    if x in Evidence(items) {
      BestIsKept(items, x.digest);
    }
    KeptIsListed(items);
    if i: nat :| Kept(items, i) && items[i] == x {
      BestIsKept(items, x.digest);
      var k: nat :| Kept(items, k) && items[k] == Fold(items).best[x.digest] && items[k].digest == x.digest;
      KeptIsUnique(items, i, k);
    }
  }

  /** What the evidence is sorted by, the most important first. */
  ghost function Keys(x: Item): seq<string> {
    [x.observedAt, x.source, x.kind, x.evidenceId]
  }

  ghost predicate Before(a: Item, b: Item) {
    Keys(a) == Keys(b)
    || exists k :: 0 <= k < 4 && StrLt(Keys(a)[k], Keys(b)[k]) && forall j | 0 <= j < k :: Keys(a)[j] == Keys(b)[j]
  }

  lemma ItemLeExactly(a: Item, b: Item)
    ensures ItemLe(a, b) <==> Before(a, b)
  {
    hide StrLe;
    var s, t := Keys(a), Keys(b);
    assert s[0] == a.observedAt && s[1] == a.source && s[2] == a.kind && s[3] == a.evidenceId;
    assert t[0] == b.observedAt && t[1] == b.source && t[2] == b.kind && t[3] == b.evidenceId;
    StrLeTotal(a.evidenceId, a.evidenceId);
    assert s == t <==> s[0] == t[0] && s[1] == t[1] && s[2] == t[2] && s[3] == t[3];
  }

  /** Two records of this source and kind have different digests. */
  ghost predicate Contested(items: seq<Item>, text: string) {
    exists x, y :: x in items && y in items && x.source == y.source && x.kind == y.kind && x.digest != y.digest
                   && text == x.source + ":" + x.kind
  }

  /** The whole result of a merge, from the records in the order they arrived. */
  lemma MergedExactly(items: seq<Item>, tenant: string, incident: string)
    ensures var digests := set x | x in items :: x.digest;
            match Merged(items, tenant, incident)
            case Err(LimitExceeded) => Fault(items, None, tenant, incident) && |digests| > 64
            case Err(e) => Fault(items, Some(e), tenant, incident)
            case Ok(m) =>
              && Fault(items, None, tenant, incident) && |m.0| == |digests| <= 64
              && (forall x :: x in m.0 <==> exists i: nat :: Kept(items, i) && items[i] == x)
              && (forall i, j | 0 <= i < j < |m.0| :: Before(m.0[i], m.0[j]))
              && (forall text :: text in m.1 <==> Contested(items, text)) && Sorted(m.1, StrLe)
  {
    hide Evidence, EvidenceMerge.Contradictions, FirstFault, Fault, Fold, Kept, Before, Contested, ItemLe, StrLe,
         Distinct;
    FaultExactly(items, tenant, incident);
    KeptDigests(items);
    EvidenceMembers(items);
    KeptIsListed(items);
    forall x ensures x in Evidence(items) <==> exists i: nat :: Kept(items, i) && items[i] == x {
      EvidenceIsKept(items, x);
    }
    forall a, b ensures ItemLe(a, b) <==> Before(a, b) {
      ItemLeExactly(a, b);
    }
    forall text ensures text in EvidenceMerge.Contradictions(items) <==> Contested(items, text) {
      ReportedExactly(items, text);
      LabelsContested(items, text);
    }
    ReportedExactly(items, "");
  }

  lemma LabelsContested(items: seq<Item>, text: string)
    ensures (exists p :: Disagree(items, p) && Label(p) == text) <==> Contested(items, text)
  {
    if x, y :| (x in items && y in items && x.source == y.source && x.kind == y.kind && x.digest != y.digest
                && text == x.source + ":" + x.kind) {
      assert Disagree(items, PairOf(x)) && Label(PairOf(x)) == text;
    }
  }

  // ---- the records of several branches

  /** The records arrive branch by branch, each branch's in its order; a branch without
      output has none. */
  lemma {:induction false} ArrivedExactly(bs: seq<Branch>, i: nat)
    requires i < |bs|
    ensures Flatten(bs) == Flatten(bs[..i]) + (match bs[i] case None => [] case Some(xs) => xs) + Flatten(bs[i + 1..])
  {
    if i == |bs| - 1 {
      assert bs[i + 1..] == [];
    } else {
      var before := bs[..|bs| - 1];
      ArrivedExactly(before, i);
      assert before[..i] == bs[..i] && before[i + 1..] == bs[i + 1..][..|bs[i + 1..]| - 1];
    }
  }
}
