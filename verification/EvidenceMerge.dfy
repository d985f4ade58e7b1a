/** Merging the evidence of parallel diagnostic branches: one record per digest, the
    contradictions among all records, and independence of arrival order. */
module EvidenceMerge {
  import opened Ordering
  import opened Prelude

  const MAX_EVIDENCE := 64

  /** `payload` stands for the fields the merge passes through. */
  datatype Item = Item(
    evidenceId: string,
    tenantId: string,
    incidentId: string,
    digest: string,
    source: string,
    kind: string,
    observedAt: string,
    contentIncluded: Option<bool>,
    payload: string)

  /** A branch without output contributes nothing. */
  type Branch = Option<seq<Item>>

  datatype MergeError = CrossScope | RawContent | LimitExceeded

  type Pair = (string, string)

  /** The two dictionaries, with the insertion order of their keys. */
  datatype Acc = Acc(digests: seq<string>, best: map<string, Item>, pairs: seq<Pair>, seen: map<Pair, set<string>>)

  function EvidenceOf(b: Branch): seq<Item> {
    if b.Some? then b.value else []
  }

  function Flatten(branches: seq<Branch>): seq<Item> {
    if branches == [] then [] else Flatten(branches[..|branches| - 1]) + EvidenceOf(branches[|branches| - 1])
  }

  function PairOf(x: Item): Pair {
    (x.source, x.kind)
  }

  function Add(a: Acc, x: Item): Acc {
    var d, p := x.digest, PairOf(x);
    Acc(if d in a.best then a.digests else a.digests + [d],
        if d !in a.best || StrLt(x.evidenceId, a.best[d].evidenceId) then a.best[d := x] else a.best,
        if p in a.seen then a.pairs else a.pairs + [p],
        a.seen[p := (if p in a.seen then a.seen[p] else {}) + {d}])
  }

  function Fold(items: seq<Item>): Acc {
    if items == [] then Acc([], map[], [], map[]) else Add(Fold(items[..|items| - 1]), items[|items| - 1])
  }

  predicate InScope(x: Item, tenant: string, incident: string) {
    x.tenantId == tenant && x.incidentId == incident
  }

  /** The first record, in arrival order, that may not be merged, and why. */
  function FirstFault(items: seq<Item>, tenant: string, incident: string): Option<MergeError> {
    if items == [] then None
    else
      var earlier, x := FirstFault(items[..|items| - 1], tenant, incident), items[|items| - 1];
      if earlier.Some? then earlier
      else if !InScope(x, tenant, incident) then Some(CrossScope)
      else if x.contentIncluded != Some(false) then Some(RawContent)
      else None
  }

  /** Observation time, source, kind, id. */
  predicate ItemLe(a: Item, b: Item) {
    if a.observedAt != b.observedAt then StrLe(a.observedAt, b.observedAt)
    else if a.source != b.source then StrLe(a.source, b.source)
    else if a.kind != b.kind then StrLe(a.kind, b.kind)
    else StrLe(a.evidenceId, b.evidenceId)
  }

  function Values(a: Acc): seq<Item>
    requires forall d | d in a.digests :: d in a.best
  {
    seq(|a.digests|, i requires 0 <= i < |a.digests| => a.best[a.digests[i]])
  }

  function Contested(a: Acc): Pair -> bool {
    (p: Pair) => p in a.seen && |a.seen[p]| > 1
  }

  function Label(p: Pair): string {
    p.0 + ":" + p.1
  }

  function Labels(ps: seq<Pair>): seq<string> {
    seq(|ps|, i requires 0 <= i < |ps| => Label(ps[i]))
  }

  ghost predicate Tracked(a: Acc) {
    && Distinct(a.digests) && (forall d :: d in a.digests <==> d in a.best)
    && Distinct(a.pairs) && (forall p :: p in a.pairs <==> p in a.seen)
  }

  function Evidence(items: seq<Item>): seq<Item> {
    assert Tracked(Fold(items)) by { FoldTracked(items); }
    SortBy(Values(Fold(items)), ItemLe)
  }

  function Contradictions(items: seq<Item>): seq<string> {
    SortBy(Labels(Filter(Fold(items).pairs, Contested(Fold(items)))), StrLe)
  }

  lemma {:induction false} FoldTracked(items: seq<Item>)
    ensures Tracked(Fold(items))
  {
    if items != [] {
      FoldTracked(items[..|items| - 1]);
    }
  }

  function Merged(items: seq<Item>, tenant: string, incident: string): Result<(seq<Item>, seq<string>), MergeError> {
    match FirstFault(items, tenant, incident)
    case Some(f) => Err(f)
    case None => if |Evidence(items)| > MAX_EVIDENCE then Err(LimitExceeded)
      else Ok((Evidence(items), Contradictions(items)))
  }

  /** `merge_evidence`. */
  method MergeEvidence(branches: seq<Branch>, tenant: string, incident: string)
    returns (r: Result<(seq<Item>, seq<string>), MergeError>)
    ensures r == Merged(Flatten(branches), tenant, incident)
  {
    hide Evidence, Contradictions, Fold, FirstFault;
    var acc := Acc([], map[], [], map[]);
    NothingMerged(tenant, incident);
    for i := 0 to |branches|
      invariant acc == Fold(Flatten(branches[..i]))
      invariant FirstFault(Flatten(branches[..i]), tenant, incident) == None
    {
      ghost var done := Flatten(branches[..i]);
      assert branches[..i + 1][..i] == branches[..i];
      var fault: Option<MergeError>;
      acc, fault := MergeBranch(acc, EvidenceOf(branches[i]), tenant, incident, done);
      if fault.Some? {
        FlattenGrows(branches, i + 1);
        FaultStays(done + EvidenceOf(branches[i]), Flatten(branches), tenant, incident);
        return Err(fault.value);
      }
    }
    assert branches[..|branches|] == branches;
    r := Finished(acc, Flatten(branches));
  }

  /** The inner loop: the records of one branch after those already merged. */
  method MergeBranch(acc: Acc, items: seq<Item>, tenant: string, incident: string, ghost done: seq<Item>)
    returns (after: Acc, fault: Option<MergeError>)
    requires acc == Fold(done) && FirstFault(done, tenant, incident) == None
    ensures fault == FirstFault(done + items, tenant, incident)
    ensures fault.None? ==> after == Fold(done + items)
  {
    hide Add, Fold, FirstFault;
    after := acc;
    assert done + items[..0] == done;
    for j := 0 to |items|
      invariant after == Fold(done + items[..j]) && FirstFault(done + items[..j], tenant, incident) == None
    {
      var x := items[j];
      assert done + items[..j + 1] == done + items[..j] + [x];
      assert done + items[..j + 1] <= done + items;
      OneMoreItem(done + items[..j], x, tenant, incident);
      if !InScope(x, tenant, incident) {
        FaultStays(done + items[..j + 1], done + items, tenant, incident);
        return after, Some(CrossScope);
      }
      if x.contentIncluded != Some(false) {
        FaultStays(done + items[..j + 1], done + items, tenant, incident);
        return after, Some(RawContent);
      }
      after := Add(after, x);
    }
    assert items[..|items|] == items;
    return after, None;
  }

  lemma OneMoreItem(done: seq<Item>, x: Item, tenant: string, incident: string)
    ensures Fold(done + [x]) == Add(Fold(done), x)
    ensures FirstFault(done, tenant, incident).None? ==>
              FirstFault(done + [x], tenant, incident)
              == if !InScope(x, tenant, incident) then Some(CrossScope)
                 else if x.contentIncluded != Some(false) then Some(RawContent) else None
  {
    assert (done + [x])[..|done|] == done;
  }

  lemma NothingMerged(tenant: string, incident: string)
    ensures Fold([]) == Acc([], map[], [], map[]) && FirstFault([], tenant, incident) == None
  {
  }

  /** Both results, read off the two dictionaries. */
  method Finished(acc: Acc, ghost items: seq<Item>) returns (r: Result<(seq<Item>, seq<string>), MergeError>)
    requires acc == Fold(items)
    ensures r == if |Evidence(items)| > MAX_EVIDENCE then Err(LimitExceeded)
            else Ok((Evidence(items), Contradictions(items)))
  {
    FoldTracked(items);
    var ordered := SortBy(Values(acc), ItemLe);
    if |ordered| > MAX_EVIDENCE {
      return Err(LimitExceeded);
    }
    return Ok((ordered, SortBy(Labels(Filter(acc.pairs, Contested(acc))), StrLe)));
  }

  lemma {:induction false} FlattenGrows(branches: seq<Branch>, i: nat)
    requires i <= |branches|
    ensures Flatten(branches[..i]) <= Flatten(branches)
    decreases |branches|
  {
    var n := |branches| - 1;
    if i <= n {
      assert branches[..n][..i] == branches[..i];
      FlattenGrows(branches[..n], i);
    } else {
      assert branches[..i] == branches;
    }
  }

  lemma {:induction false} FaultStays(items: seq<Item>, longer: seq<Item>, tenant: string, incident: string)
    requires items <= longer && FirstFault(items, tenant, incident).Some?
    ensures FirstFault(longer, tenant, incident) == FirstFault(items, tenant, incident)
    decreases |longer|
  {
    if items != longer {
      FaultStays(items, longer[..|longer| - 1], tenant, incident);
    }
  }

  // ---- what is kept

  /** Among the records with its digest, `x` has the least id. */
  ghost predicate Winner(items: seq<Item>, x: Item) {
    x in items && forall y | y in items && y.digest == x.digest :: StrLe(x.evidenceId, y.evidenceId)
  }

  ghost predicate BestOk(items: seq<Item>, a: Acc) {
    && (forall x | x in items :: x.digest in a.best)
    && (forall d | d in a.best :: a.best[d].digest == d && Winner(items, a.best[d]))
  }

  lemma AddBest(items: seq<Item>, a: Acc, x: Item)
    requires BestOk(items, a)
    ensures BestOk(items + [x], Add(a, x))
  {
    var b, longer := Add(a, x), items + [x];
    forall d | d in b.best ensures b.best[d].digest == d && Winner(longer, b.best[d]) {
      var w := b.best[d];
      forall y | y in longer && y.digest == w.digest ensures StrLe(w.evidenceId, y.evidenceId) {
        StrLeTotal(w.evidenceId, y.evidenceId);
        if y in items && y.digest in a.best && w == x {
          StrLeTransitive(w.evidenceId, a.best[d].evidenceId, y.evidenceId);
        }
      }
    }
  }

  lemma {:induction false} FoldBest(items: seq<Item>)
    ensures BestOk(items, Fold(items))
  {
    if items != [] {
      var n := |items| - 1;
      hide BestOk, Fold, Add;
      var before, x := items[..n], items[n];
      assert items == before + [x];
      FoldBest(before);
      AddBest(before, Fold(before), x);
      OneMoreItem(before, x, "", "");
    }
  }

  lemma EvidenceMembers(items: seq<Item>)
    ensures Distinct(Evidence(items)) && Sorted(Evidence(items), ItemLe)
    ensures forall x :: x in Evidence(items) <==> x.digest in Fold(items).best && Fold(items).best[x.digest] == x
  {
    hide Fold, Sorted, Distinct;
    FoldTracked(items);
    FoldBest(items);
    var vs := Values(Fold(items));
    ValuesAre(Fold(items));
    SortPermutes(vs, ItemLe);
    DistinctByContents(vs, Evidence(items));
    ItemLeIsAnOrder();
    SortSorts(vs, ItemLe);
  }

  /** The merged evidence has one record for every digest that occurs, a least-id one, and
      is sorted. */
  lemma OnePerDigest(items: seq<Item>)
    ensures forall x | x in Evidence(items) :: Winner(items, x)
    ensures forall x | x in items :: exists y :: y in Evidence(items) && y.digest == x.digest
    ensures forall x, y | x in Evidence(items) && y in Evidence(items) && x.digest == y.digest :: x == y
    ensures Distinct(Evidence(items)) && Sorted(Evidence(items), ItemLe)
  {
    hide Fold, Sorted, Distinct, Evidence;
    EvidenceMembers(items);
    FoldBest(items);
    forall x | x in items ensures exists y :: y in Evidence(items) && y.digest == x.digest {
      assert Fold(items).best[x.digest] in Evidence(items);
    }
  }

  lemma ValuesAre(a: Acc)
    requires Tracked(a) && forall d | d in a.best :: a.best[d].digest == d
    ensures Distinct(Values(a))
    ensures forall x :: x in Values(a) <==> x.digest in a.best && a.best[x.digest] == x
  {
    var vs := Values(a);
    assert forall i | 0 <= i < |vs| :: a.digests[i] in a.digests && vs[i].digest == a.digests[i];
    forall x: Item | x.digest in a.best && a.best[x.digest] == x ensures x in vs {
      var i :| 0 <= i < |a.digests| && a.digests[i] == x.digest;
      assert vs[i] == x;
    }
  }

  lemma ItemLeIsAnOrder()
    ensures Total(ItemLe) && Transitive(ItemLe)
  {
    StrLeIsAnOrder();
    forall a: Item, b: Item, c: Item | ItemLe(a, b) && ItemLe(b, c) ensures ItemLe(a, c) {
      ItemLeTransitive(a, b, c);
    }
  }

  lemma ItemLeTransitive(a: Item, b: Item, c: Item)
    requires ItemLe(a, b) && ItemLe(b, c)
    ensures ItemLe(a, c)
  {
    Cascade(a.observedAt, b.observedAt, c.observedAt);
    Cascade(a.source, b.source, c.source);
    Cascade(a.kind, b.kind, c.kind);
    Cascade(a.evidenceId, b.evidenceId, c.evidenceId);
  }

  lemma Cascade(a: string, b: string, c: string)
    ensures StrLe(a, b) && StrLe(b, c) ==> StrLe(a, c)
    ensures StrLe(a, b) && StrLe(b, a) ==> a == b
  {
    if StrLe(a, b) && StrLe(b, c) { StrLeTransitive(a, b, c); }
    if StrLe(a, b) && StrLe(b, a) { StrLeAntisymmetric(a, b); }
  }

  // ---- contradictions

  /** Two input records of this source and kind disagree. */
  ghost predicate Disagree(items: seq<Item>, p: Pair) {
    exists x, y :: x in items && y in items && PairOf(x) == p && PairOf(y) == p && x.digest != y.digest
  }

  ghost predicate SeenOk(items: seq<Item>, a: Acc) {
    && (forall p :: p in a.seen <==> exists x :: x in items && PairOf(x) == p)
    && (forall p, d | p in a.seen :: d in a.seen[p] <==> exists x :: x in items && PairOf(x) == p && x.digest == d)
  }

  lemma AddSeen(items: seq<Item>, a: Acc, x: Item)
    requires SeenOk(items, a)
    ensures SeenOk(items + [x], Add(a, x))
  {
    var b, longer := Add(a, x), items + [x];
    assert forall y :: y in longer <==> y in items || y == x;
    forall p ensures p in b.seen <==> exists y :: y in longer && PairOf(y) == p {
      if p == PairOf(x) {
        assert x in longer;
      }
    }
    forall p, d | p in b.seen ensures d in b.seen[p] <==> exists y :: y in longer && PairOf(y) == p && y.digest == d {
      if p == PairOf(x) && d == x.digest {
        assert x in longer;
      }
    }
  }

  lemma {:induction false} FoldSeen(items: seq<Item>)
    ensures SeenOk(items, Fold(items))
  {
    if items != [] {
      var n := |items| - 1;
      hide SeenOk, Fold, Add;
      var before, x := items[..n], items[n];
      assert items == before + [x];
      FoldSeen(before);
      AddSeen(before, Fold(before), x);
      OneMoreItem(before, x, "", "");
    }
  }

  lemma ContestedIffDisagree(items: seq<Item>, p: Pair)
    ensures Contested(Fold(items))(p) <==> Disagree(items, p)
  {
    hide Fold;
    FoldSeen(items);
    var a := Fold(items);
    if p in a.seen {
      TwoElements(a.seen[p]);
      if c, d :| c in a.seen[p] && d in a.seen[p] && c != d {
        var x :| x in items && PairOf(x) == p && x.digest == c;
        var y :| y in items && PairOf(y) == p && y.digest == d;
        assert Disagree(items, p);
      }
      if Disagree(items, p) {
        var x, y :| x in items && y in items && PairOf(x) == p && PairOf(y) == p && x.digest != y.digest;
        assert x.digest in a.seen[p] && y.digest in a.seen[p];
      }
    }
  }

  ghost function InDispute(items: seq<Item>): seq<Pair> {
    Filter(Fold(items).pairs, Contested(Fold(items)))
  }

  /** The contested pairs are exactly the source/kind pairs on which input records disagree,
      counted over all records, also those the deduplication drops. */
  lemma ContestedExactly(items: seq<Item>)
    ensures Distinct(InDispute(items))
    ensures forall p :: p in InDispute(items) <==> Disagree(items, p)
  {
    hide Fold, Distinct, Contested, Disagree;
    var a := Fold(items);
    FoldTracked(items);
    FoldSeen(items);
    FilterKeeps(a.pairs, Contested(a));
    FilterDistinct(a.pairs, Contested(a));
    forall p ensures p in InDispute(items) <==> Disagree(items, p) {
      ContestedIffDisagree(items, p);
      if Disagree(items, p) { DisputeIsSeen(items, p); }
    }
  }

  lemma DisputeIsSeen(items: seq<Item>, p: Pair)
    requires Disagree(items, p)
    ensures p in Fold(items).seen
  {
    FoldSeen(items);
  }

  /** A reported label names a pair in dispute, and every pair in dispute is reported. */
  lemma ReportedExactly(items: seq<Item>, text: string)
    ensures text in Contradictions(items) <==> exists p :: Disagree(items, p) && Label(p) == text
    ensures Sorted(Contradictions(items), StrLe) && |Contradictions(items)| == |InDispute(items)|
  {
    hide Fold, Distinct, Disagree, Sorted, Filter;
    var ps := InDispute(items);
    ContestedExactly(items);
    SortPermutes(Labels(ps), StrLe);
    StrLeIsAnOrder();
    SortSorts(Labels(ps), StrLe);
    LabelsMembers(ps, text);
  }

  lemma LabelsMembers(ps: seq<Pair>, text: string)
    ensures text in Labels(ps) <==> exists p :: p in ps && Label(p) == text
  {
    if text in Labels(ps) {
      var i :| 0 <= i < |ps| && Labels(ps)[i] == text;
      assert ps[i] in ps;
    }
    if p :| p in ps && Label(p) == text {
      var i :| 0 <= i < |ps| && ps[i] == p;
      assert Labels(ps)[i] == text;
    }
  }
}
