/** A fusion in terms of the items and candidates it was given: what is refused, how every
    candidate is scored and ranked, and what is decided. */
module FusionLaws {
  import opened Ordering
  import opened Prelude
  import opened EvidenceFusion

  // ---- what is accepted

  ghost predicate WellFormed(e: Evidence, tenant: string, incident: string) {
    && e.tenantId == tenant && e.incidentId == incident
    && e.evidenceId != "" && e.sourceId != "" && e.observationKey != ""
    && 0.0 <= e.reliability <= 1.0 && e.freshnessSeconds >= 0
  }

  /** One to forty items of the tenant and incident, named, of good quality, with different ids. */
  ghost predicate Sound(items: seq<Evidence>, tenant: string, incident: string) {
    && 1 <= |items| <= 40
    && (forall e | e in items :: WellFormed(e, tenant, incident))
    && (forall i, j | 0 <= i < j < |items| :: items[i].evidenceId != items[j].evidenceId)
  }

  ghost predicate Known(items: seq<Evidence>, id: string) {
    exists e :: e in items && e.evidenceId == id
  }

  /** It is supported by something, by nothing that also opposes it, and refers to items only. */
  ghost predicate Grounded(items: seq<Evidence>, c: Candidate) {
    && c.supporting != []
    && (forall id | id in c.supporting :: Known(items, id) && id !in c.contradicting)
    && (forall id | id in c.contradicting :: Known(items, id))
  }

  /** One to six candidates for different causes. */
  ghost predicate Distinguished(cs: seq<Candidate>) {
    1 <= |cs| <= 6 && forall i, j | 0 <= i < j < |cs| :: cs[i].cause != cs[j].cause
  }

  lemma {:induction false} CountIsCheckedFirst(items: seq<Evidence>, tenant: string, incident: string)
    ensures Indexed(items, tenant, incident).Err?
            ==> Indexed(items, tenant, incident).error in {CrossScope, InvalidOrDuplicate, InvalidQuality}
  {
    if items != [] {
      CountIsCheckedFirst(items[..|items| - 1], tenant, incident);
    }
  }

  lemma SoundExactly(items: seq<Evidence>, tenant: string, incident: string)
    ensures Validated(items, tenant, incident).Ok? <==> Sound(items, tenant, incident)
    ensures Validated(items, tenant, incident).Ok? ==> Files(Validated(items, tenant, incident).value, items)
    ensures Validated(items, tenant, incident) == Err(InvalidCount) <==> !(1 <= |items| <= 40)
    ensures Validated(items, tenant, incident) !in {Err(InvalidCandidates), Err(InvalidReference)}
  {
    hide Indexed, Files;
    CountIsCheckedFirst(items, tenant, incident);
    IndexedExactly(items, tenant, incident);
    if Indexable(items, tenant, incident) && 1 <= |items| <= 40 {
      assert forall e | e in items :: Proper(e, tenant, incident) && WellFormed(e, tenant, incident);
      assert forall i, j | 0 <= i < j < |items| :: items[i] in items && items[j] in items && items[i] != items[j];
    }
    if Sound(items, tenant, incident) {
      assert forall e | e in items :: WellFormed(e, tenant, incident) && Proper(e, tenant, incident);
      assert forall i, j | 0 <= i < j < |items| :: items[i] != items[j];
      SoundIdentifies(items, tenant, incident);
    }
  }

  lemma SoundIdentifies(items: seq<Evidence>, tenant: string, incident: string)
    requires Sound(items, tenant, incident)
    ensures IdsIdentify(items)
  {
    forall x, y | x in items && y in items && x.evidenceId == y.evidenceId ensures x == y {
      var i :| 0 <= i < |items| && items[i] == x;
      var j :| 0 <= j < |items| && items[j] == y;
      assert i == j;
    }
  }

  lemma CausesCount(cs: seq<Candidate>)
    ensures |Causes(cs)| == |cs| <==> forall i, j | 0 <= i < j < |cs| :: cs[i].cause != cs[j].cause
  {
    var names := seq(|cs|, i requires 0 <= i < |cs| => cs[i].cause);
    forall x ensures x in names <==> x in Causes(cs) {
      if x in names {
        var i :| 0 <= i < |names| && names[i] == x;
        assert cs[i] in cs;
      }
      if c :| c in cs && c.cause == x {
        var i :| 0 <= i < |cs| && cs[i] == c;
        assert names[i] == x;
      }
    }
    assert Causes(cs) == SetOf(names);
    FullSetDistinct(names);
    DistinctCounts(names);
    assert forall i | 0 <= i < |cs| :: names[i] == cs[i].cause;
  }

  lemma GroundedExactly(items: seq<Evidence>, byId: ById, c: Candidate)
    requires Files(byId, items)
    ensures RefersWell(c, byId) <==> Grounded(items, c)
  {
    assert forall id :: id in byId <==> Known(items, id);
    assert SetOf(c.supporting) != {} <==> c.supporting != [] by {
      if c.supporting != [] {
        assert c.supporting[0] in SetOf(c.supporting);
      }
    }
  }

  /** What is refused, and in which order the demands on items, candidates and their
      references are made. */
  lemma AnsweredExactly(tenant: string, incident: string, items: seq<Evidence>, cs: seq<Candidate>,
                        r: Result<Fusion, FusionError>)
    requires Fuses(tenant, incident, items, cs, r)
    ensures var grounded := forall c | c in cs :: Grounded(items, c);
            && (r.Ok? <==> Sound(items, tenant, incident) && Distinguished(cs) && grounded)
            && (r == Err(InvalidCount) <==> !(1 <= |items| <= 40))
            && (r == Err(InvalidReference) <==> Sound(items, tenant, incident) && Distinguished(cs) && !grounded)
            && (Sound(items, tenant, incident) && !Distinguished(cs) ==> r == Err(InvalidCandidates))
            && (r == Err(InvalidCandidates) ==> Sound(items, tenant, incident))
  {
    hide Sound, Validated, Distinguished, Grounded, RefersWell, Known, Causes, Clash, SortBy, Sorted, Distinct, Decided,
         AllRanked, Files;
    SoundExactly(items, tenant, incident);
    DistinguishedExactly(cs);
    if Validated(items, tenant, incident).Ok? {
      var byId := Validated(items, tenant, incident).value;
      forall c ensures RefersWell(c, byId) <==> Grounded(items, c) {
        GroundedExactly(items, byId, c);
      }
    }
  }

  lemma DistinguishedExactly(cs: seq<Candidate>)
    ensures Distinguished(cs) <==> !(cs == [] || |cs| > MAX_CANDIDATES || |Causes(cs)| != |cs|)
  {
    CausesCount(cs);
  }

  // ---- how a candidate is scored

  /** What an item is worth: its reliability, times the weight of the kind of its source. */
  ghost function Worth(e: Evidence): real {
    if e.sourceType == Telemetry then e.reliability
    else if e.sourceType == Specialist then e.reliability * 9.0 / 10.0
    else if e.sourceType == Inventory then e.reliability * 4.0 / 5.0
    else if e.sourceType == Employee then e.reliability * 3.0 / 5.0
    else e.reliability / 2.0
  }

  /** What the items that `ids` names are worth together. */
  ghost function WorthOf(items: seq<Evidence>, ids: seq<string>): real {
    if items == [] then 0.0
    else
      var e := items[|items| - 1];
      WorthOf(items[..|items| - 1], ids) + if e.evidenceId in ids then Worth(e) else 0.0
  }

  lemma LeastStays(m: string, s: set<string>, x: string)
    requires Least(m, s)
    ensures m in s && (m != x ==> Least(m, s - {x}))
  {
  }

  lemma {:induction false} MassPick(s: set<string>, x: string, byId: ById)
    requires x in s
    ensures Mass(SortedList(s), byId) == ItemShare(x, byId) + Mass(SortedList(s - {x}), byId)
    decreases |s|
  {
    hide SortedList, Least, ItemShare;
    LeastFirst(s);
    var m := SortedList(s)[0];
    LeastStays(m, s, x);
    if m != x {
      MassPick(s - {m}, x, byId);
      LeastFirst(s - {x});
      LeastIsUnique(s - {x});
      assert s - {m} - {x} == s - {x} - {m};
    }
  }

  lemma {:induction false} MassSame(ids: seq<string>, a: ById, b: ById)
    requires forall id | id in ids :: ItemShare(id, a) == ItemShare(id, b)
    ensures Mass(ids, a) == Mass(ids, b)
  {
    if ids != [] {
      MassSame(ids[1..], a, b);
    }
  }

  lemma {:induction false} MassOfNothing(ids: seq<string>)
    ensures Mass(ids, map[]) == 0.0
  {
    if ids != [] {
      MassOfNothing(ids[1..]);
    }
  }

  /** The running sum over the sorted ids is what the named items are worth together. */
  lemma {:induction false} MassIsWorth(items: seq<Evidence>, ids: seq<string>, tenant: string, incident: string)
    requires Indexed(items, tenant, incident).Ok?
    ensures Mass(SortedList(SetOf(ids)), Indexed(items, tenant, incident).value) == WorthOf(items, ids)
  {
    hide SortedList, Mass;
    var s := SetOf(ids);
    if items == [] {
      MassOfNothing(SortedList(s));
    } else {
      var before, e := items[..|items| - 1], items[|items| - 1];
      MassIsWorth(before, ids, tenant, incident);
      var prior, byId := Indexed(before, tenant, incident).value, Indexed(items, tenant, incident).value;
      assert byId == prior[e.evidenceId := e] && e.evidenceId !in prior;
      var rest := s - {e.evidenceId};
      MassSame(SortedList(rest), prior, byId);
      if e.evidenceId in ids {
        MassPick(s, e.evidenceId, prior);
        MassPick(s, e.evidenceId, byId);
      } else {
        assert rest == s;
      }
    }
  }

  /** `score` is a whole number of ten-thousandths nearest to `x`, an even number when two are. */
  ghost predicate Nearest(score: real, x: real) {
    exists k: int {:trigger Ticks(k)} ::
      score == Ticks(k) && -0.5 <= k as real - x * 10000.0 <= 0.5
      && ((k as real - x * 10000.0 == 0.5 || k as real - x * 10000.0 == -0.5) ==> k % 2 == 0)
  }

  ghost function Ticks(k: int): real {
    k as real / 10000.0
  }

  lemma RoundIsNearest(x: real)
    ensures Nearest(Round4(x), x)
  {
    var k := RoundHalfEven(x * 10000.0);
    assert Round4(x) == Ticks(k);
  }

  // ---- how the candidates are ranked

  /** The ids named, each once, sorted. */
  ghost predicate Lists(xs: seq<string>, ids: seq<string>) {
    Sorted(xs, StrLe) && Distinct(xs) && forall id :: id in xs <==> id in ids
  }

  /** An item of this type supports the candidate. */
  ghost predicate SupportedBy(items: seq<Evidence>, c: Candidate, t: SourceType) {
    exists e :: e in items && e.evidenceId in c.supporting && e.sourceType == t
  }

  /** What becomes of a candidate: its two lists, the types of source that support it, whether
      two different ones do, and the share of the supporting worth in all it refers to, where
      a total below one counts as one. */
  ghost predicate RankedAs(items: seq<Evidence>, c: Candidate, x: Ranked) {
    var s, o := WorthOf(items, c.supporting), WorthOf(items, c.contradicting);
    && x.cause == c.cause && Lists(x.supporting, c.supporting) && Lists(x.contradicting, c.contradicting)
    && (forall t :: t in x.sourceTypes <==> SupportedBy(items, c, t))
    && (x.eligible <==> exists t, u :: SupportedBy(items, c, t) && SupportedBy(items, c, u) && t != u)
    && Nearest(x.score, if s + o < 1.0 then s else s / (s + o))
  }

  lemma SupportedTypes(items: seq<Evidence>, byId: ById, c: Candidate)
    requires Files(byId, items)
    ensures forall t :: t in TypesOf(SetOf(c.supporting), byId) <==> SupportedBy(items, c, t)
  {
  }

  lemma RankedOfExactly(items: seq<Evidence>, tenant: string, incident: string, c: Candidate)
    requires Validated(items, tenant, incident).Ok?
    ensures RankedAs(items, c, RankedOf(c, Validated(items, tenant, incident).value))
  {
    hide Mass, SortedList, Sorted, Distinct, Nearest, Round4, WorthOf, Files, SupportedBy, TypesOf, Eligible;
    var byId := Validated(items, tenant, incident).value;
    SoundExactly(items, tenant, incident);
    MassIsWorth(items, c.supporting, tenant, incident);
    MassIsWorth(items, c.contradicting, tenant, incident);
    var s, o := WorthOf(items, c.supporting), WorthOf(items, c.contradicting);
    RoundIsNearest(Share(s, o));
    assert Share(s, o) == if s + o < 1.0 then s else s / (s + o);
    SupportedTypes(items, byId, c);
    EligibleTypes(SetOf(c.supporting), byId);
  }

  lemma EligibleTypes(ids: set<string>, byId: ById)
    ensures Eligible(ids, byId)
       <==> exists t, u :: t in TypesOf(ids, byId) && u in TypesOf(ids, byId) && t != u
  {
    TwoTypesSuffice(ids, byId);
    if a, b :| a in ids && b in ids && a in byId && b in byId && byId[a].sourceType != byId[b].sourceType {
      assert byId[a].sourceType in TypesOf(ids, byId) && byId[b].sourceType in TypesOf(ids, byId);
    }
  }

  /** Every candidate is ranked once: higher scores first, equal ones by name. */
  lemma RankedExactly(tenant: string, incident: string, items: seq<Evidence>, cs: seq<Candidate>,
                      r: Result<Fusion, FusionError>)
    requires Fuses(tenant, incident, items, cs, r) && r.Ok?
    ensures var ranked := r.value.ranked;
            && |ranked| == |cs|
            && (forall c | c in cs :: exists x :: x in ranked && RankedAs(items, c, x))
            && (forall x | x in ranked :: exists c :: c in cs && RankedAs(items, c, x))
            && (forall i, j | 0 <= i < j < |ranked| ::
                  || ranked[i].score > ranked[j].score
                  || (ranked[i].score == ranked[j].score && StrLe(ranked[i].cause, ranked[j].cause)))
  {
    hide RankedOf, RankedAs, SortBy, Clash, RefersWell, Validated, Decided, Causes, Distinct;
    var byId := Validated(items, tenant, incident).value;
    var all := AllRanked(cs, byId);
    RankLeIsAnOrder();
    SortPermutes(all, RankLe);
    SortSorts(all, RankLe);
    forall c ensures RankedAs(items, c, RankedOf(c, byId)) {
      RankedOfExactly(items, tenant, incident, c);
    }
    forall x ensures x in all <==> exists c :: c in cs && RankedOf(c, byId) == x {
      RankedMember(cs, byId, x);
    }
    forall c | c in cs ensures exists x :: x in r.value.ranked && RankedAs(items, c, x) {
      assert RankedOf(c, byId) in all;
    }
  }

  lemma SomeClash(items: seq<Evidence>)
    ensures (exists key :: Clash(items, key))
       <==> exists x, y :: x in items && y in items && x.observationKey == y.observationKey
                           && x.reliability >= 0.7 && y.reliability >= 0.7 && x.value != y.value
  {
    if x, y :| (x in items && y in items && x.observationKey == y.observationKey
                && x.reliability >= 0.7 && y.reliability >= 0.7 && x.value != y.value) {
      assert Clash(items, x.observationKey);
    }
  }

  /** The decision, from the ranking and the items: contradictory when two reliable items
      clash or the runner-up comes close, ready when the first is eligible and scores 0.78,
      insufficient otherwise; only a ready one names a cause. */
  lemma DecidedExactly(tenant: string, incident: string, items: seq<Evidence>, cs: seq<Candidate>,
                       r: Result<Fusion, FusionError>)
    requires Fuses(tenant, incident, items, cs, r) && r.Ok?
    ensures var f := r.value;
            var clash := exists x, y :: x in items && y in items && x.observationKey == y.observationKey
                           && x.reliability >= 0.7 && y.reliability >= 0.7 && x.value != y.value;
            var close := |f.ranked| > 1 && f.ranked[1].eligible && f.ranked[1].score >= 0.78
                         && f.ranked[0].score - f.ranked[1].score < 0.08;
            && f.ranked != []
            && f.decision == (if clash || close then ContradictoryEvidence
                              else if f.ranked[0].eligible && f.ranked[0].score >= 0.78 then RootCauseReady
                              else InsufficientEvidence)
            && f.selected == (if f.decision == RootCauseReady then Some(f.ranked[0].cause) else None)
  {
    hide SortBy, RankedOf, RefersWell, Validated, Clash;
    var keys := r.value.contradictions;
    assert keys != [] ==> keys[0] in keys;
    SomeClash(items);
  }
}
