/** What the order of evidence and candidates changes about a fusion: nothing in an
    accepted answer, and in a refused one only which of several faults is reported. */
module EvidenceOrder {
  import opened Ordering
  import opened Prelude
  import opened EvidenceFusion

  // ---- the faults among the items, in whatever order

  predicate InScope(e: Evidence, tenant: string, incident: string) {
    e.tenantId == tenant && e.incidentId == incident
  }

  predicate Unnamed(e: Evidence) {
    e.evidenceId == "" || e.sourceId == "" || e.observationKey == ""
  }

  predicate Poor(e: Evidence) {
    !(0.0 <= e.reliability <= 1.0) || e.freshnessSeconds < 0
  }

  /** Two listed items share an id, or one item is listed twice. */
  predicate Twins(items: seq<Evidence>, x: Evidence, y: Evidence) {
    x in items && y in items && x.evidenceId == y.evidenceId && (x != y || multiset(items)[x] > 1)
  }

  /** Some item is of another tenant or incident. */
  ghost predicate AnyForeign(items: seq<Evidence>, tenant: string, incident: string) {
    exists e :: e in items && !InScope(e, tenant, incident)
  }

  /** Some item in scope lacks a name, or shares its id with an item that is proper. */
  ghost predicate AnyUnclear(items: seq<Evidence>, tenant: string, incident: string) {
    || (exists e :: e in items && InScope(e, tenant, incident) && Unnamed(e))
    || exists x, y :: Twins(items, x, y) && Proper(x, tenant, incident) && InScope(y, tenant, incident)
  }

  /** Some item in scope is named but of bad quality. */
  ghost predicate AnyPoor(items: seq<Evidence>, tenant: string, incident: string) {
    exists e :: e in items && InScope(e, tenant, incident) && !Unnamed(e) && Poor(e)
  }

  /** The error that stands for a kind of fault is among those the items can cause. */
  ghost predicate Possible(items: seq<Evidence>, tenant: string, incident: string, f: FusionError) {
    match f
    case CrossScope => AnyForeign(items, tenant, incident)
    case InvalidOrDuplicate => AnyUnclear(items, tenant, incident)
    case InvalidQuality => AnyPoor(items, tenant, incident)
    case _ => false
  }

  lemma SamePossible(xs: seq<Evidence>, ys: seq<Evidence>, tenant: string, incident: string, f: FusionError)
    requires multiset(xs) == multiset(ys)
    ensures Possible(xs, tenant, incident, f) <==> Possible(ys, tenant, incident, f)
  {
    hide Proper;
    SameMultiset(xs, ys);
    assert forall x, y :: Twins(xs, x, y) <==> Twins(ys, x, y);
  }

  lemma PossibleLater(before: seq<Evidence>, e: Evidence, tenant: string, incident: string, f: FusionError)
    requires Possible(before, tenant, incident, f)
    ensures Possible(before + [e], tenant, incident, f)
  {
    hide Proper;
    var items := before + [e];
    assert forall x | x in before :: x in items;
    assert multiset(items) == multiset(before) + multiset{e};
    assert forall x, y | Twins(before, x, y) :: Twins(items, x, y);
  }

  /** A reported fault is among the possible ones. */
  lemma {:induction false} ReportedIsPossible(items: seq<Evidence>, tenant: string, incident: string)
    requires Indexed(items, tenant, incident).Err?
    ensures Possible(items, tenant, incident, Indexed(items, tenant, incident).error)
  {
    var n := |items| - 1;
    var before, e := items[..n], items[n];
    assert items == before + [e];
    match Indexed(before, tenant, incident) {
      case Err(f) =>
        ReportedIsPossible(before, tenant, incident);
        PossibleLater(before, e, tenant, incident, f);
      case Ok(byId) =>
        IndexedExactly(before, tenant, incident);
        LastIsAtFault(before, e, byId, tenant, incident);
    }
  }

  lemma LastIsAtFault(before: seq<Evidence>, e: Evidence, byId: ById, tenant: string, incident: string)
    requires Files(byId, before) && Indexable(before, tenant, incident) && ItemFault(e, byId, tenant, incident).Some?
    ensures Possible(before + [e], tenant, incident, ItemFault(e, byId, tenant, incident).value)
  {
    var items := before + [e];
    assert e in items && forall x | x in before :: x in items;
    assert multiset(items) == multiset(before) + multiset{e};
    if e.evidenceId in byId {
      assert Twins(items, byId[e.evidenceId], e);
    }
  }

  /** Accepted evidence has no possible fault. */
  lemma AcceptedIsFaultless(items: seq<Evidence>, tenant: string, incident: string, f: FusionError)
    requires Indexed(items, tenant, incident).Ok?
    ensures !Possible(items, tenant, incident, f)
  {
    IndexedExactly(items, tenant, incident);
    DistinctCounts(items);
    hide Indexed, Distinct;
    forall x, y ensures !Twins(items, x, y) {}
  }

  // ---- every possible fault is reported for some order

  lemma TakeOut(items: seq<Evidence>, x: Evidence) returns (rest: seq<Evidence>)
    requires x in items
    ensures multiset([x] + rest) == multiset(items)
  {
    var i :| 0 <= i < |items| && items[i] == x;
    rest := items[..i] + items[i + 1..];
    RemoveAt(items, i);
  }

  lemma FirstAtFault(e: Evidence, rest: seq<Evidence>, tenant: string, incident: string)
    requires !Proper(e, tenant, incident)
    ensures Indexed([e] + rest, tenant, incident) == Err(ItemFault(e, map[], tenant, incident).value)
  {
    assert [e][..0] == [];
    FaultStays([e], [e] + rest, tenant, incident);
  }

  lemma SecondAtFault(x: Evidence, y: Evidence, rest: seq<Evidence>, tenant: string, incident: string)
    requires Proper(x, tenant, incident) && InScope(y, tenant, incident) && x.evidenceId == y.evidenceId
    ensures Indexed([x, y] + rest, tenant, incident) == Err(InvalidOrDuplicate)
  {
    assert [x][..0] == [] && [x, y][..1] == [x];
    assert Indexed([x], tenant, incident) == Ok(map[x.evidenceId := x]);
    assert Indexed([x, y], tenant, incident) == Err(InvalidOrDuplicate);
    FaultStays([x, y], [x, y] + rest, tenant, incident);
  }

  /** The items in an order that reports this fault. */
  lemma PossibleIsReported(items: seq<Evidence>, tenant: string, incident: string, f: FusionError)
    returns (ys: seq<Evidence>)
    requires Possible(items, tenant, incident, f)
    ensures multiset(ys) == multiset(items) && Indexed(ys, tenant, incident) == Err(f)
  {
    hide Indexed;
    if e :| e in items && !Proper(e, tenant, incident) && ItemFault(e, map[], tenant, incident) == Some(f) {
      var rest := TakeOut(items, e);
      ys := [e] + rest;
      FirstAtFault(e, rest, tenant, incident);
    } else {
      var x, y :| Twins(items, x, y) && Proper(x, tenant, incident) && InScope(y, tenant, incident);
      var rest := TakeOut(items, x);
      SecondLeft(items, x, y, rest);
      var last := TakeOut(rest, y);
      ys := [x, y] + last;
      assert [x] + ([y] + last) == ys;
      SecondAtFault(x, y, last, tenant, incident);
    }
  }

  lemma SecondLeft(items: seq<Evidence>, x: Evidence, y: Evidence, rest: seq<Evidence>)
    requires Twins(items, x, y) && multiset([x] + rest) == multiset(items)
    ensures y in rest
  {
    assert multiset([x] + rest) == multiset{x} + multiset(rest);
    assert y in multiset(items);
  }

  // ---- the verdict on the evidence

  predicate Counted(items: seq<Evidence>) {
    0 < |items| <= MAX_EVIDENCE
  }

  /** Which evidence is refused does not depend on its order, whatever the errors. */
  lemma RefusalIgnoresOrder(xs: seq<Evidence>, ys: seq<Evidence>, tenant: string, incident: string)
    requires multiset(xs) == multiset(ys)
    ensures Validated(xs, tenant, incident).Ok? ==> Validated(ys, tenant, incident) == Validated(xs, tenant, incident)
    ensures Validated(xs, tenant, incident).Ok? <==> Validated(ys, tenant, incident).Ok?
  {
    if Validated(xs, tenant, incident).Ok? { SameIndex(xs, ys, tenant, incident); }
    if Validated(ys, tenant, incident).Ok? { SameIndex(ys, xs, tenant, incident); }
  }

  ghost predicate OneKind(items: seq<Evidence>, tenant: string, incident: string) {
    forall f, g | Possible(items, tenant, incident, f) && Possible(items, tenant, incident, g) :: f == g
  }

  ghost predicate SameVerdicts(items: seq<Evidence>, tenant: string, incident: string) {
    forall ys | multiset(ys) == multiset(items) :: Validated(ys, tenant, incident) == Validated(items, tenant, incident)
  }

  /** All listings of the same items get the same verdict exactly when their number is refused
      already or at most one kind of fault is among them. */
  lemma VerdictIgnoresOrderExactly(items: seq<Evidence>, tenant: string, incident: string)
    ensures SameVerdicts(items, tenant, incident) <==> !Counted(items) || OneKind(items, tenant, incident)
  {
    hide Possible, Indexed;
    if Counted(items) && !OneKind(items, tenant, incident) {
      var f, g :| Possible(items, tenant, incident, f) && Possible(items, tenant, incident, g) && f != g;
      var xs := PossibleIsReported(items, tenant, incident, f);
      var ys := PossibleIsReported(items, tenant, incident, g);
      SameMultiset(xs, items);
      SameMultiset(ys, items);
      assert Validated(xs, tenant, incident) == Err(f) && Validated(ys, tenant, incident) == Err(g);
    }
    if !Counted(items) || OneKind(items, tenant, incident) {
      forall ys | multiset(ys) == multiset(items)
        ensures Validated(ys, tenant, incident) == Validated(items, tenant, incident)
      {
        SameMultiset(ys, items);
        RefusalIgnoresOrder(items, ys, tenant, incident);
        if Counted(items) && Indexed(items, tenant, incident).Err? {
          ReportedIsPossible(items, tenant, incident);
          ReportedIsPossible(ys, tenant, incident);
          SamePossible(ys, items, tenant, incident, Indexed(ys, tenant, incident).error);
        }
      }
    }
  }

  // ---- the answer

  /** Where one listing of the evidence is validated like another, the order in which evidence
      and candidates are given changes nothing. */
  lemma SameVerdictSameAnswer(tenant: string, incident: string, xs: seq<Evidence>, ys: seq<Evidence>,
                              cs: seq<Candidate>, ds: seq<Candidate>, r: Result<Fusion, FusionError>,
                              q: Result<Fusion, FusionError>)
    requires Fuses(tenant, incident, xs, cs, r) && Fuses(tenant, incident, ys, ds, q)
    requires multiset(xs) == multiset(ys) && multiset(cs) == multiset(ds)
    requires Validated(ys, tenant, incident) == Validated(xs, tenant, incident)
    ensures q == r
  {
    hide Clash, RefersWell, RankedOf, SortBy, Decided, Sorted, Distinct, Validated;
    SameMultiset(xs, ys);
    SameMultiset(cs, ds);
    assert Causes(cs) == Causes(ds);
    if r.Ok? {
      var byId := Validated(xs, tenant, incident).value;
      SameRanking(cs, ds, byId);
      forall key ensures Clash(xs, key) <==> Clash(ys, key) {
        SameClash(xs, ys, key);
      }
      SameList(r.value.contradictions, q.value.contradictions);
    }
  }

  /** An accepted answer, and whether there is one, do not depend on the order in which
      evidence and candidates are given. */
  lemma OrderDoesNotMatter(tenant: string, incident: string, xs: seq<Evidence>, ys: seq<Evidence>, cs: seq<Candidate>,
                           ds: seq<Candidate>, r: Result<Fusion, FusionError>, q: Result<Fusion, FusionError>)
    requires Fuses(tenant, incident, xs, cs, r) && Fuses(tenant, incident, ys, ds, q)
    requires multiset(xs) == multiset(ys) && multiset(cs) == multiset(ds)
    ensures r.Ok? <==> q.Ok?
    ensures r.Ok? ==> q == r
  {
    hide Clash, RefersWell, RankedOf, SortBy, Decided, Sorted, Distinct, Validated;
    RefusalIgnoresOrder(xs, ys, tenant, incident);
    if Validated(xs, tenant, incident).Ok? {
      SameVerdictSameAnswer(tenant, incident, xs, ys, cs, ds, r, q);
    }
  }

  /** Every answer is the same for every order of evidence and candidates, refusals included. */
  ghost predicate SameAnswers(tenant: string, incident: string, xs: seq<Evidence>, cs: seq<Candidate>) {
    forall ys, ds, r, q | multiset(ys) == multiset(xs) && multiset(ds) == multiset(cs)
                          && Fuses(tenant, incident, xs, cs, r) && Fuses(tenant, incident, ys, ds, q) :: q == r
  }

  /** It is so exactly when the number of items is refused already or at most one kind of fault
      is among them, whatever the candidates. */
  lemma AnswerIgnoresOrderExactly(tenant: string, incident: string, xs: seq<Evidence>, cs: seq<Candidate>)
    ensures SameAnswers(tenant, incident, xs, cs) <==> !Counted(xs) || OneKind(xs, tenant, incident)
  {
    hide Fuses, Validated, OneKind, Counted;
    VerdictIgnoresOrderExactly(xs, tenant, incident);
    if SameVerdicts(xs, tenant, incident) {
      forall ys, ds, r, q | multiset(ys) == multiset(xs) && multiset(ds) == multiset(cs)
                            && Fuses(tenant, incident, xs, cs, r) && Fuses(tenant, incident, ys, ds, q)
        ensures q == r
      {
        SameVerdictSameAnswer(tenant, incident, xs, ys, cs, ds, r, q);
      }
    } else {
      var ys :| multiset(ys) == multiset(xs) && Validated(ys, tenant, incident) != Validated(xs, tenant, incident);
      RefusalIgnoresOrder(xs, ys, tenant, incident);
      RefusedAnswer(tenant, incident, xs, cs);
      RefusedAnswer(tenant, incident, ys, cs);
      assert Fuses(tenant, incident, xs, cs, Err(Validated(xs, tenant, incident).error));
      assert Fuses(tenant, incident, ys, cs, Err(Validated(ys, tenant, incident).error));
    }
  }

  lemma RefusedAnswer(tenant: string, incident: string, xs: seq<Evidence>, cs: seq<Candidate>)
    requires Validated(xs, tenant, incident).Err?
    ensures Fuses(tenant, incident, xs, cs, Err(Validated(xs, tenant, incident).error))
  {
  }

  /** One item of another tenant and one of impossible reliability: which of the two errors is
      reported depends on which comes first. */
  lemma FaultDependsOnOrder(cs: seq<Candidate>, r: Result<Fusion, FusionError>, q: Result<Fusion, FusionError>)
    requires var foreign, poor := Sighting("e1", Telemetry, 0.9).(tenantId := "u"), Sighting("e2", Telemetry, 2.0);
             Fuses("t", "i", [foreign, poor], cs, r) && Fuses("t", "i", [poor, foreign], cs, q)
    ensures r == Err(CrossScope) && q == Err(InvalidQuality)
  {
    var foreign, poor := Sighting("e1", Telemetry, 0.9).(tenantId := "u"), Sighting("e2", Telemetry, 2.0);
    FirstAtFault(foreign, [poor], "t", "i");
    FirstAtFault(poor, [foreign], "t", "i");
    assert [foreign] + [poor] == [foreign, poor] && [poor] + [foreign] == [poor, foreign];
  }

  // ---- the parts of an accepted answer

  lemma SameClash(xs: seq<Evidence>, ys: seq<Evidence>, key: string)
    requires forall x :: x in xs <==> x in ys
    ensures Clash(xs, key) <==> Clash(ys, key)
  {
  }

  lemma SameList(xs: seq<string>, ys: seq<string>)
    requires Sorted(xs, StrLe) && Sorted(ys, StrLe) && Distinct(xs) && Distinct(ys)
    requires forall x :: x in xs <==> x in ys
    ensures xs == ys
  {
    SameElementsPermute(xs, ys);
    StringsSeparated(xs);
    SortedUnique(xs, ys, StrLe);
  }

  lemma SameIndex(xs: seq<Evidence>, ys: seq<Evidence>, tenant: string, incident: string)
    requires multiset(xs) == multiset(ys) && Validated(xs, tenant, incident).Ok?
    ensures Validated(ys, tenant, incident) == Validated(xs, tenant, incident)
  {
    hide Distinct, Indexed, Proper;
    SameMultiset(xs, ys);
    IndexedExactly(xs, tenant, incident);
    IndexedExactly(ys, tenant, incident);
    DistinctByContents(xs, ys);
    assert IdsIdentify(ys);
    var a, b := Indexed(xs, tenant, incident).value, Indexed(ys, tenant, incident).value;
    forall id ensures id in a <==> id in b {
      if id in a { assert a[id] in ys; }
      if id in b { assert b[id] in xs; }
    }
    forall id | id in a ensures a[id] == b[id] {
      assert a[id] in ys;
    }
    assert a == b;
  }

  lemma SameRanking(cs: seq<Candidate>, ds: seq<Candidate>, byId: ById)
    requires multiset(cs) == multiset(ds) && |Causes(cs)| == |cs|
    ensures SortBy(AllRanked(cs, byId), RankLe) == SortBy(AllRanked(ds, byId), RankLe)
  {
    hide RankedOf, SortBy, Distinct;
    SameMultiset(cs, ds);
    assert Causes(cs) == Causes(ds);
    CausesDiffer(cs, byId);
    CausesDiffer(ds, byId);
    var a, b := AllRanked(cs, byId), AllRanked(ds, byId);
    forall x ensures x in a <==> x in b {
      RankedMember(cs, byId, x);
      RankedMember(ds, byId, x);
    }
    SameElementsPermute(a, b);
    RankLeIsAnOrder();
    SortDependsOnContents(a, b, RankLe);
  }

  lemma CausesDiffer(cs: seq<Candidate>, byId: ById)
    requires |Causes(cs)| == |cs|
    ensures Distinct(AllRanked(cs, byId)) && Separates(RankLe, AllRanked(cs, byId))
  {
    hide SortedList, Score, Eligible, TypesOf;
    var names := seq(|cs|, i requires 0 <= i < |cs| => cs[i].cause);
    assert SetOf(names) == Causes(cs) by {
      forall c | c in cs ensures c.cause in names {
        var i :| 0 <= i < |cs| && cs[i] == c;
        assert names[i] == c.cause;
      }
    }
    FullSetDistinct(names);
    var a := AllRanked(cs, byId);
    assert forall i | 0 <= i < |cs| :: a[i].cause == names[i];
    forall x, y | x in a && y in a && RankLe(x, y) && RankLe(y, x) ensures x == y {
      StrLeAntisymmetric(x.cause, y.cause);
      var i :| 0 <= i < |a| && a[i] == x;
      var j :| 0 <= j < |a| && a[j] == y;
      assert names[i] == names[j];
    }
  }
}
