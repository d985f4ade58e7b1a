/** Fusing evidence into ranked root-cause hypotheses and one decision. */
module EvidenceFusion {
  import opened Ordering
  import opened Prelude
  import opened RealArithmetic

  const MAX_EVIDENCE := 40
  const MAX_CANDIDATES := 6
  const MIN_ROOT_CAUSE_SCORE := 0.78
  const MIN_INDEPENDENT_SOURCE_TYPES := 2
  const MATERIAL_RELIABILITY := 0.7
  const CLEAR_LEAD := 0.08

  datatype SourceType = Specialist | Telemetry | Rag | Employee | Inventory

  function SourceWeight(t: SourceType): real {
    match t case Telemetry => 1.0 case Specialist => 0.9 case Inventory => 0.8 case Employee => 0.6 case Rag => 0.5
  }

  datatype Evidence = Evidence(
    evidenceId: string, tenantId: string, incidentId: string, sourceType: SourceType, sourceId: string,
    observationKey: string, value: string, reliability: real, freshnessSeconds: int)

  datatype Candidate = Candidate(cause: string, supporting: seq<string>, contradicting: seq<string>)

  datatype Ranked = Ranked(
    cause: string, score: real, eligible: bool, supporting: seq<string>, contradicting: seq<string>,
      sourceTypes: set<SourceType>)

  datatype Decision = RootCauseReady | InsufficientEvidence | ContradictoryEvidence

  datatype Fusion = Fusion(decision: Decision, selected: Option<string>, ranked: seq<Ranked>,
                           contradictions: seq<string>)

  datatype FusionError =
    | InvalidCount | CrossScope | InvalidOrDuplicate | InvalidQuality | InvalidCandidates | InvalidReference

  type ById = map<string, Evidence>

  // ---- validation

  function ItemFault(e: Evidence, byId: ById, tenant: string, incident: string): Option<FusionError> {
    if e.tenantId != tenant || e.incidentId != incident then Some(CrossScope)
    else if e.evidenceId == "" || e.evidenceId in byId || e.sourceId == "" || e.observationKey == ""
      then Some(InvalidOrDuplicate)
    else if !(0.0 <= e.reliability <= 1.0) || e.freshnessSeconds < 0 then Some(InvalidQuality)
    else None
  }

  function Indexed(items: seq<Evidence>, tenant: string, incident: string): Result<ById, FusionError> {
    if items == [] then Ok(map[])
    else
      match Indexed(items[..|items| - 1], tenant, incident)
      case Err(f) => Err(f)
      case Ok(byId) =>
        var e := items[|items| - 1];
        match ItemFault(e, byId, tenant, incident)
        case Some(f) => Err(f)
        case None => Ok(byId[e.evidenceId := e])
  }

  function Validated(items: seq<Evidence>, tenant: string, incident: string): Result<ById, FusionError> {
    if items == [] || |items| > MAX_EVIDENCE then Err(InvalidCount) else Indexed(items, tenant, incident)
  }

  method ValidateEvidence(items: seq<Evidence>, tenant: string, incident: string) returns (r: Result<ById, FusionError>)
    ensures r == Validated(items, tenant, incident)
  {
    if items == [] || |items| > MAX_EVIDENCE {
      return Err(InvalidCount);
    }
    var byId: ById := map[];
    for i := 0 to |items|
      invariant Indexed(items[..i], tenant, incident) == Ok(byId)
    {
      var e := items[i];
      assert items[..i + 1][..i] == items[..i];
      var fault := ItemFault(e, byId, tenant, incident);
      if fault.Some? {
        FaultStays(items[..i + 1], items, tenant, incident);
        return Err(fault.value);
      }
      byId := byId[e.evidenceId := e];
    }
    assert items[..|items|] == items;
    return Ok(byId);
  }

  lemma {:induction false} FaultStays(items: seq<Evidence>, longer: seq<Evidence>, tenant: string, incident: string)
    requires items <= longer && Indexed(items, tenant, incident).Err?
    ensures Indexed(longer, tenant, incident) == Indexed(items, tenant, incident)
    decreases |longer|
  {
    if items != longer {
      FaultStays(items, longer[..|longer| - 1], tenant, incident);
    }
  }

  // ---- contradictions

  /** Two materially reliable items give one observation different values. */
  ghost predicate Clash(items: seq<Evidence>, key: string) {
    exists x, y :: x in items && y in items && x.observationKey == key && y.observationKey == key
                && x.reliability >= 0.7 && y.reliability >= 0.7 && x.value != y.value
  }

  ghost predicate Observed(items: seq<Evidence>, key: string, value: string) {
    exists x :: x in items && x.observationKey == key && x.value == value && x.reliability >= MATERIAL_RELIABILITY
  }

  function Note(values: map<string, set<string>>, e: Evidence): map<string, set<string>> {
    if e.reliability < MATERIAL_RELIABILITY then values
    else values[e.observationKey := (if e.observationKey in values then values[e.observationKey] else {}) + {e.value}]
  }

  predicate Has(values: map<string, set<string>>, key: string, v: string) {
    key in values && v in values[key]
  }

  lemma NoteAdds(values: map<string, set<string>>, e: Evidence)
    ensures forall key, v :: Has(Note(values, e), key, v)
              <==> Has(values, key, v) || (e.observationKey == key && e.value == v
                                           && e.reliability >= MATERIAL_RELIABILITY)
  {
  }

  /** The observation keys in contradiction, each once, sorted. */
  method Contradictions(items: seq<Evidence>) returns (keys: seq<string>)
    ensures forall key :: key in keys <==> Clash(items, key)
    ensures Sorted(keys, StrLe) && Distinct(keys)
  {
    hide Observed, Clash, Note, Has;
    var values: map<string, set<string>> := map[];
    NothingObserved();
    assert items[..0] == [];
    for i := 0 to |items|
      invariant forall key, v :: Has(values, key, v) <==> Observed(items[..i], key, v)
    {
      var e := items[i];
      ObservedMore(items, i);
      NoteAdds(values, e);
      ghost var before := values;
      values := Note(values, e);
      forall key, v ensures Has(values, key, v) <==> Observed(items[..i + 1], key, v) {
        assert Has(before, key, v) <==> Observed(items[..i], key, v);
      }
    }
    assert items[..|items|] == items;
    KeysWithTwo(items, values);
    keys := SortedList(set key | key in values && |values[key]| > 1);
  }

  lemma KeysWithTwo(items: seq<Evidence>, values: map<string, set<string>>)
    requires forall key, v :: Has(values, key, v) <==> Observed(items, key, v)
    ensures forall key :: key in values && |values[key]| > 1 <==> Clash(items, key)
  {
    hide Observed, Clash;
    forall key ensures key in values && |values[key]| > 1 <==> Clash(items, key) {
      ClashObserved(items, key);
      if key in values {
        TwoElements(values[key]);
        if a, b :| a in values[key] && b in values[key] && a != b {
          assert Has(values, key, a) && Has(values, key, b);
        }
      }
      if v, u :| Observed(items, key, v) && Observed(items, key, u) && v != u {
        assert Has(values, key, v) && Has(values, key, u);
      }
    }
  }

  lemma NothingObserved()
    ensures forall key, v :: !Observed([], key, v) && !Has(map[], key, v)
  {
  }

  lemma ObservedMore(items: seq<Evidence>, i: nat)
    requires i < |items|
    ensures forall key, v :: Observed(items[..i + 1], key, v) <==>
              Observed(items[..i], key, v)
              || (items[i].observationKey == key && items[i].value == v && items[i].reliability >= MATERIAL_RELIABILITY)
  {
    assert items[..i + 1] == items[..i] + [items[i]];
    forall key, v | Observed(items[..i], key, v) ensures Observed(items[..i + 1], key, v) {
      var x :| x in items[..i] && x.observationKey == key && x.value == v && x.reliability >= MATERIAL_RELIABILITY;
      assert x in items[..i + 1];
    }
    assert items[i] in items[..i + 1];
  }

  lemma ClashObserved(items: seq<Evidence>, key: string)
    ensures Clash(items, key) <==> exists v, u :: Observed(items, key, v) && Observed(items, key, u) && v != u
  {
    if Clash(items, key) {
      var x, y :| x in items && y in items && x.observationKey == key && y.observationKey == key
                  && x.reliability >= MATERIAL_RELIABILITY && y.reliability >= MATERIAL_RELIABILITY
                  && x.value != y.value;
      assert Observed(items, key, x.value) && Observed(items, key, y.value);
    }
  }

  // ---- scores

  function ItemMass(e: Evidence): real {
    e.reliability * SourceWeight(e.sourceType)
  }

  function Mass(ids: seq<string>, byId: ById): real {
    if ids == [] then 0.0
    else ItemShare(ids[0], byId) + Mass(ids[1..], byId)
  }

  function ItemShare(id: string, byId: ById): real {
    if id in byId then ItemMass(byId[id]) else 0.0
  }

  /** Python's `round` to an integer: to the nearest, a tie to the even one. */
  function RoundHalfEven(x: real): int {
    var f := x.Floor;
    var rest := x - f as real;
    if rest < 0.5 || (rest == 0.5 && f % 2 == 0) then f else f + 1
  }

  function Round4(x: real): real {
    RoundHalfEven(x * 10000.0) as real / 10000.0
  }

  function Share(support: real, oppose: real): real {
    support / (if support + oppose >= 1.0 then support + oppose else 1.0)
  }

  function Score(supporting: set<string>, contradicting: set<string>, byId: ById): real {
    Round4(Share(Mass(SortedList(supporting), byId), Mass(SortedList(contradicting), byId)))
  }

  function TypesOf(ids: set<string>, byId: ById): set<SourceType> {
    set id | id in ids && id in byId :: byId[id].sourceType
  }

  function SourcesOf(ids: set<string>, byId: ById): set<(SourceType, string)> {
    set id | id in ids && id in byId :: (byId[id].sourceType, byId[id].sourceId)
  }

  function Eligible(ids: set<string>, byId: ById): bool {
    |TypesOf(ids, byId)| >= MIN_INDEPENDENT_SOURCE_TYPES && |SourcesOf(ids, byId)| >= 2 && TypesOf(ids, byId) != {Rag}
  }

  predicate RefersWell(c: Candidate, byId: ById) {
    var s, o := SetOf(c.supporting), SetOf(c.contradicting);
    s != {} && s !! o && s + o <= byId.Keys
  }

  function RankedOf(c: Candidate, byId: ById): Ranked {
    var s, o := SetOf(c.supporting), SetOf(c.contradicting);
    Ranked(c.cause, Score(s, o, byId), Eligible(s, byId), SortedList(s), SortedList(o), TypesOf(s, byId))
  }

  function AllRanked(cs: seq<Candidate>, byId: ById): seq<Ranked> {
    seq(|cs|, i requires 0 <= i < |cs| => RankedOf(cs[i], byId))
  }

  /** Highest score first, then by cause. */
  predicate RankLe(a: Ranked, b: Ranked) {
    a.score > b.score || (a.score == b.score && StrLe(a.cause, b.cause))
  }

  predicate CloseCompetitor(ranked: seq<Ranked>) {
    |ranked| > 1 && ranked[1].eligible && ranked[1].score >= MIN_ROOT_CAUSE_SCORE
      && ranked[0].score - ranked[1].score < CLEAR_LEAD
  }

  function Decided(ranked: seq<Ranked>, contradictions: seq<string>): Fusion
    requires ranked != []
  {
    if contradictions != [] || CloseCompetitor(ranked) then Fusion(ContradictoryEvidence, None, ranked, contradictions)
    else if ranked[0].eligible && ranked[0].score >= MIN_ROOT_CAUSE_SCORE
    then Fusion(RootCauseReady, Some(ranked[0].cause), ranked, contradictions)
    else Fusion(InsufficientEvidence, None, ranked, contradictions)
  }

  function Causes(cs: seq<Candidate>): set<string> {
    set c | c in cs :: c.cause
  }

  /** Everything `fuse_evidence` promises about its answer. */
  ghost predicate Fuses(tenant: string, incident: string, items: seq<Evidence>, cs: seq<Candidate>,
                        r: Result<Fusion, FusionError>)
  {
    match Validated(items, tenant, incident)
    case Err(f) => r == Err(f)
    case Ok(byId) =>
      if cs == [] || |cs| > MAX_CANDIDATES || |Causes(cs)| != |cs| then r == Err(InvalidCandidates)
      else if exists c :: c in cs && !RefersWell(c, byId) then r == Err(InvalidReference)
      else
        var ranked := SortBy(AllRanked(cs, byId), RankLe);
        && r.Ok? && r.value.ranked == ranked && ranked != [] && r.value == Decided(ranked, r.value.contradictions)
        && (forall key :: key in r.value.contradictions <==> Clash(items, key))
        && Sorted(r.value.contradictions, StrLe) && Distinct(r.value.contradictions)
  }

  method FuseEvidence(tenant: string, incident: string, items: seq<Evidence>, cs: seq<Candidate>)
    returns (r: Result<Fusion, FusionError>)
    ensures Fuses(tenant, incident, items, cs, r)
  {
    hide Validated, RefersWell, RankedOf, Clash, SortBy, Distinct, Sorted;
    var index := ValidateEvidence(items, tenant, incident);
    if index.Err? {
      return Err(index.error);
    }
    var byId := index.value;
    if cs == [] || |cs| > MAX_CANDIDATES || |Causes(cs)| != |cs| {
      return Err(InvalidCandidates);
    }
    var contradictions := Contradictions(items);
    var ranked := [];
    for i := 0 to |cs|
      invariant |ranked| == i && forall k | 0 <= k < i :: ranked[k] == RankedOf(cs[k], byId)
      invariant forall k | 0 <= k < i :: RefersWell(cs[k], byId)
    {
      if !RefersWell(cs[i], byId) {
        return Err(InvalidReference);
      }
      ranked := ranked + [RankedOf(cs[i], byId)];
    }
    assert ranked == AllRanked(cs, byId);
    SortPermutes(ranked, RankLe);
    ranked := SortBy(ranked, RankLe);
    return Ok(Decided(ranked, contradictions));
  }

  // ---- the score

  lemma RoundMonotone(x: real, y: real)
    requires x <= y
    ensures RoundHalfEven(x) <= RoundHalfEven(y)
    ensures Round4(x) <= Round4(y)
  {
    RoundHalfEvenMonotone(x, y);
    RoundHalfEvenMonotone(x * 10000.0, y * 10000.0);
  }

  lemma RoundHalfEvenMonotone(x: real, y: real)
    requires x <= y
    ensures RoundHalfEven(x) <= RoundHalfEven(y)
  {
    assert x.Floor <= y.Floor;
  }

  lemma ShareMonotone(s: real, o: real, s2: real, o2: real)
    requires 0.0 <= s <= s2 && o >= o2 >= 0.0
    ensures Share(s, o) <= Share(s2, o2)
  {
    var d, d2 := Max(s + o, 1.0), Max(s2 + o2, 1.0);
    ProductsOrdered(s, o, s2, o2);
    assert Share(s, o) == s / d && Share(s2, o2) == s2 / d2;
    QuotientsOrdered(s, d, s2, d2);
  }

  lemma QuotientsOrdered(a: real, b: real, c: real, d: real)
    requires b > 0.0 && d > 0.0 && a * d <= c * b
    ensures a / b <= c / d
  {
    var x, y := a / b, c / d;
    assert x * b == a && y * d == c;
    MulPositive(b, d);
    MulOrder(y, x, b * d);
    assert x * (b * d) == a * d && y * (b * d) == c * b;
  }

  lemma CrossTerms(s: real, o: real, s2: real, o2: real)
    requires s * o2 <= s2 * o2 && o2 * s2 <= o * s2
    ensures s * (s2 + o2) <= s2 * (s + o)
  {
    assert s * (s2 + o2) == s * s2 + s * o2;
    assert s2 * (s + o) == s * s2 + s2 * o;
  }

  lemma ProductsOrdered(s: real, o: real, s2: real, o2: real)
    requires 0.0 <= s <= s2 && o >= o2 >= 0.0
    ensures s * Max(s2 + o2, 1.0) <= s2 * Max(s + o, 1.0)
  {
    var m := Max(s + o, 1.0);
    if s2 + o2 >= 1.0 {
      MulMonotone(s, s2, o2);
      MulMonotone(o2, o, s2);
      MulMonotone(s + o, m, s2);
      Distribute(s, s2, o2);
      Distribute(s2, s, o);
      CrossTerms(s, o, s2, o2);
      assert (s + o) * s2 == s2 * (s + o) && m * s2 == s2 * m;
      assert Max(s2 + o2, 1.0) == s2 + o2;
    } else {
      MulMonotone(1.0, m, s2);
    }
  }

  ghost predicate Weighted(byId: ById) {
    forall id | id in byId :: 0.0 <= byId[id].reliability <= 1.0
  }

  lemma {:induction false} MassGrows(s: set<string>, t: set<string>, byId: ById)
    requires Weighted(byId) && s <= t
    ensures 0.0 <= Mass(SortedList(s), byId) <= Mass(SortedList(t), byId)
    decreases |t|
  {
    hide SortedList, Least, Mass, ItemShare, Weighted;
    MassNotNegative(s, byId);
    if t != {} {
      var m := SortedList(t)[0];
      MassFirst(t, byId);
      if m in s {
        MassFirst(s, byId);
        LeastInBoth(m, s, t);
        MassGrows(s - {m}, t - {m}, byId);
      } else {
        MassGrows(s, t - {m}, byId);
      }
    } else {
      assert s == t;
    }
  }

  lemma LeastInBoth(m: string, s: set<string>, t: set<string>)
    requires s <= t && s != {} && m in s && Least(m, t) && Least(SortedList(s)[0], s)
    ensures SortedList(s)[0] == m
  {
    hide SortedList;
    LeastIsUnique(s);
    assert Least(m, s);
  }

  lemma MassFirst(s: set<string>, byId: ById)
    requires s != {} && Weighted(byId)
    ensures var m := SortedList(s)[0];
            && m in s && Least(m, s)
            && Mass(SortedList(s), byId) == ItemShare(m, byId) + Mass(SortedList(s - {m}), byId)
            && ItemShare(m, byId) >= 0.0
  {
    hide SortedList;
    LeastFirst(s);
  }

  lemma {:induction false} MassNotNegative(s: set<string>, byId: ById)
    requires Weighted(byId)
    ensures Mass(SortedList(s), byId) >= 0.0
    decreases |s|
  {
    hide SortedList, Least, ItemShare, Weighted;
    if s == {} {
      assert SortedList(s) == [];
    } else {
      MassFirst(s, byId);
      MassNotNegative(s - {SortedList(s)[0]}, byId);
    }
  }

  lemma LeastFirst(s: set<string>)
    requires s != {}
    ensures SortedList(s) != [] && Least(SortedList(s)[0], s)
            && SortedList(s)[1..] == SortedList(s - {SortedList(s)[0]})
  {
  }

  /** A score lies in [0, 1]; more supporting evidence never lowers it and more opposing
      evidence never raises it. */
  lemma ScoreMonotone(s: set<string>, o: set<string>, s2: set<string>, o2: set<string>, byId: ById)
    requires Weighted(byId) && s <= s2 && o2 <= o
    ensures Score(s, o, byId) <= Score(s2, o2, byId)
    ensures 0.0 <= Score(s, o, byId) <= 1.0
  {
    hide SortedList, Share, RoundHalfEven;
    MassGrows(s, s2, byId);
    MassGrows(o2, o, byId);
    var ws, wo := Mass(SortedList(s), byId), Mass(SortedList(o), byId);
    ShareMonotone(ws, wo, Mass(SortedList(s2), byId), Mass(SortedList(o2), byId));
    RoundMonotone(Share(ws, wo), Share(Mass(SortedList(s2), byId), Mass(SortedList(o2), byId)));
    ShareBounds(ws, wo);
    RoundMonotone(0.0, Share(ws, wo));
    RoundMonotone(Share(ws, wo), 1.0);
    RoundWhole();
  }

  lemma ShareBounds(s: real, o: real)
    requires s >= 0.0 && o >= 0.0
    ensures 0.0 <= Share(s, o) <= 1.0
  {
    if s + o >= 1.0 {
      QuotientsOrdered(s, s + o, 1.0, 1.0);
      QuotientsOrdered(0.0, 1.0, s, s + o);
    }
  }

  lemma RoundWhole()
    ensures Round4(0.0) == 0.0 && Round4(1.0) == 1.0
  {
    assert 10000.0.Floor == 10000;
  }

  // ---- what the answer rests on

  /** The three eligibility conditions come down to one: two sources of different types. */
  lemma TwoTypesSuffice(ids: set<string>, byId: ById)
    ensures Eligible(ids, byId)
       <==> exists a, b :: a in ids && b in ids && a in byId && b in byId && byId[a].sourceType != byId[b].sourceType
  {
    TwoElements(TypesOf(ids, byId));
    if x, y :| x in TypesOf(ids, byId) && y in TypesOf(ids, byId) && x != y {
      var a :| a in ids && a in byId && byId[a].sourceType == x;
      var b :| b in ids && b in byId && byId[b].sourceType == y;
      var p, q := (x, byId[a].sourceId), (y, byId[b].sourceId);
      assert p in SourcesOf(ids, byId) && q in SourcesOf(ids, byId) && p != q;
      TwoElements(SourcesOf(ids, byId));
      assert !(x in {Rag} && y in {Rag});
    }
    if a, b :| a in ids && b in ids && a in byId && b in byId && byId[a].sourceType != byId[b].sourceType {
      assert byId[a].sourceType in TypesOf(ids, byId) && byId[b].sourceType in TypesOf(ids, byId);
    }
  }

  /** An id names one item. */
  ghost predicate IdsIdentify(items: seq<Evidence>) {
    forall x, y | x in items && y in items && x.evidenceId == y.evidenceId :: x == y
  }

  predicate Proper(e: Evidence, tenant: string, incident: string) {
    ItemFault(e, map[], tenant, incident).None?
  }

  ghost predicate Files(byId: ById, items: seq<Evidence>) {
    && (forall e | e in items :: e.evidenceId in byId && byId[e.evidenceId] == e)
    && (forall id | id in byId :: byId[id] in items && byId[id].evidenceId == id)
  }

  /** Every item is proper, none is listed twice and no two share an id. */
  ghost predicate Indexable(items: seq<Evidence>, tenant: string, incident: string) {
    (forall x | x in items :: Proper(x, tenant, incident)) && Distinct(items) && IdsIdentify(items)
  }

  lemma {:induction false} IndexedExactly(items: seq<Evidence>, tenant: string, incident: string)
    ensures Indexed(items, tenant, incident).Ok? <==> Indexable(items, tenant, incident)
    ensures Indexed(items, tenant, incident).Ok? ==> Files(Indexed(items, tenant, incident).value, items)
  {
    if items != [] {
      var n := |items| - 1;
      var before, e := items[..n], items[n];
      assert items == before + [e];
      IndexedExactly(before, tenant, incident);
      IndexOne(before, e, tenant, incident);
    }
  }

  lemma FaultSplits(e: Evidence, byId: ById, tenant: string, incident: string)
    ensures ItemFault(e, byId, tenant, incident).None? <==> Proper(e, tenant, incident) && e.evidenceId !in byId
  {
  }

  lemma DistinctSplits(before: seq<Evidence>, e: Evidence)
    ensures Distinct(before + [e]) <==> Distinct(before) && e !in before
  {
    var items := before + [e];
    if Distinct(items) {
      assert forall i, j | 0 <= i < j < |before| :: before[i] == items[i] && before[j] == items[j];
      assert forall i | 0 <= i < |before| :: items[i] != items[|before|];
    }
    if Distinct(before) && e !in before {
      forall i, j | 0 <= i < j < |items| ensures items[i] != items[j] {
        assert items[i] == before[i] && (j < |before| ==> items[j] == before[j]);
      }
    }
  }

  lemma IndexOne(before: seq<Evidence>, e: Evidence, tenant: string, incident: string)
    requires Indexed(before, tenant, incident).Ok? <==> Indexable(before, tenant, incident)
    requires Indexed(before, tenant, incident).Ok? ==> Files(Indexed(before, tenant, incident).value, before)
    ensures var items := before + [e];
            && (Indexed(items, tenant, incident).Ok? <==> Indexable(items, tenant, incident))
            && (Indexed(items, tenant, incident).Ok? ==> Files(Indexed(items, tenant, incident).value, items))
  {
    hide ItemFault, Indexable, Proper, Files;
    var items := before + [e];
    assert items[..|before|] == before && items[|before|] == e;
    IndexableOne(before, e, tenant, incident);
    if Indexed(before, tenant, incident).Ok? {
      var byId := Indexed(before, tenant, incident).value;
      FaultSplits(e, byId, tenant, incident);
      FilesOne(byId, before, e);
    }
  }

  lemma FilesOne(byId: ById, before: seq<Evidence>, e: Evidence)
    requires Files(byId, before)
    ensures e.evidenceId in byId <==> exists x :: x in before && x.evidenceId == e.evidenceId
    ensures e.evidenceId !in byId ==> Files(byId[e.evidenceId := e], before + [e])
  {
  }

  lemma IndexableOne(before: seq<Evidence>, e: Evidence, tenant: string, incident: string)
    ensures Indexable(before + [e], tenant, incident)
       <==> Indexable(before, tenant, incident) && Proper(e, tenant, incident)
            && !exists x :: x in before && x.evidenceId == e.evidenceId
  {
    hide Proper, Distinct;
    var items := before + [e];
    assert forall x :: x in items <==> x in before || x == e;
    DistinctSplits(before, e);
  }

  lemma RankedMember(cs: seq<Candidate>, byId: ById, x: Ranked)
    ensures x in AllRanked(cs, byId) <==> exists c :: c in cs && RankedOf(c, byId) == x
  {
    hide RankedOf;
    if c :| c in cs && RankedOf(c, byId) == x {
      var i :| 0 <= i < |cs| && cs[i] == c;
      assert AllRanked(cs, byId)[i] == x;
    }
  }

  lemma RankLeIsAnOrder()
    ensures Total(RankLe) && Transitive(RankLe)
  {
    StrLeIsAnOrder();
  }

  /** A selected root cause is the first by score and then by name, scores at least the
      threshold, rests on two sources of different types, and nothing in the evidence, even
      what no candidate refers to, contradicts itself. */
  lemma ReadyMeans(tenant: string, incident: string, items: seq<Evidence>, cs: seq<Candidate>,
                   r: Result<Fusion, FusionError>)
    requires Fuses(tenant, incident, items, cs, r) && r.Ok? && r.value.decision == RootCauseReady
    ensures var byId := Validated(items, tenant, incident).value;
            && (forall key :: !Clash(items, key))
            && exists c :: c in cs && r.value.selected == Some(c.cause) && RefersWell(c, byId)
                 && Eligible(SetOf(c.supporting), byId)
                 && Score(SetOf(c.supporting), SetOf(c.contradicting), byId) >= 0.78
                 && forall d | d in cs :: RankLe(RankedOf(c, byId), RankedOf(d, byId))
  {
    hide Clash, SortBy, Sorted, Distinct, RefersWell;
    var byId := Validated(items, tenant, incident).value;
    var all := AllRanked(cs, byId);
    var ranked := SortBy(all, RankLe);
    RankLeIsAnOrder();
    SortPermutes(all, RankLe);
    SortSorts(all, RankLe);
    assert ranked[0] in ranked;
    RankedMember(cs, byId, ranked[0]);
    var c :| c in cs && RankedOf(c, byId) == ranked[0];
    forall d | d in cs ensures RankLe(ranked[0], RankedOf(d, byId)) {
      RankedMember(cs, byId, RankedOf(d, byId));
      RankLeReflexive(ranked[0]);
      if RankedOf(d, byId) != ranked[0] {
        SortedHeadIsLeast(ranked, RankLe, RankedOf(d, byId));
      }
    }
    forall key ensures !Clash(items, key) {
      assert key !in r.value.contradictions;
    }
  }

  lemma RankLeReflexive(x: Ranked)
    ensures RankLe(x, x)
  {
    StrLeTotal(x.cause, x.cause);
  }

  /** Another eligible hypothesis above the threshold without a clear gap to the first. */
  predicate Rival(ranked: seq<Ranked>, i: nat)
    requires 0 < i < |ranked|
  {
    ranked[i].eligible && ranked[i].score >= 0.78 && ranked[0].score - ranked[i].score < 0.08
  }

  /** Some hypothesis behind the first comes close to it. */
  ghost predicate HasRival(ranked: seq<Ranked>) {
    exists i: nat :: 0 < i < |ranked| && Rival(ranked, i)
  }

  ghost predicate Leads(ranked: seq<Ranked>) {
    ranked != [] && ranked[0].eligible && ranked[0].score >= 0.78
  }

  /** Only the runner-up is compared with the first. A root cause is declared exactly when
      nothing contradicts itself, the first hypothesis meets the bar and the runner-up is no
      rival; and it is declared in spite of a rival exactly when the runner-up is not
      eligible and the rival stands behind it. */
  lemma RivalExactly(tenant: string, incident: string, items: seq<Evidence>, cs: seq<Candidate>,
                     r: Result<Fusion, FusionError>)
    requires Fuses(tenant, incident, items, cs, r) && r.Ok?
    ensures var ranked, ready := r.value.ranked, r.value.decision == RootCauseReady;
            var consistent := forall key :: !Clash(items, key);
            && (ready <==> consistent && Leads(ranked) && !(|ranked| > 1 && Rival(ranked, 1)))
            && (ready && HasRival(ranked)
                <==> && consistent && Leads(ranked) && |ranked| > 2 && !ranked[1].eligible
                     && exists i: nat :: 1 < i < |ranked| && Rival(ranked, i))
  {
    hide Clash, SortBy, RankedOf, RefersWell, Validated;
    var ranked, keys := r.value.ranked, r.value.contradictions;
    assert keys != [] ==> keys[0] in keys;
    RankLeIsAnOrder();
    SortSorts(AllRanked(cs, Validated(items, tenant, incident).value), RankLe);
    if i: nat :| 1 < i < |ranked| && Rival(ranked, i) {
      assert RankLe(ranked[1], ranked[i]);
    }
  }

  function Sighting(id: string, t: SourceType, reliability: real): Evidence {
    Evidence(id, "t", "i", t, "s", "k", "v", reliability, 0)
  }

  /** Two observations, the second of no reliability, and three causes: "a" and "c" rest on
      both, "b" on the first alone. */
  const SIGHTINGS := [Sighting("e1", Telemetry, 0.9), Sighting("e2", Specialist, 0.0)]
  const CAUSES := [Candidate("a", ["e1", "e2"], []), Candidate("b", ["e1"], []), Candidate("c", ["e1", "e2"], [])]

  /** A root cause is declared on them although the third hypothesis is a rival of the first. */
  lemma RivalBehindIneligible(r: Result<Fusion, FusionError>)
    requires Fuses("t", "i", SIGHTINGS, CAUSES, r)
    ensures r.Ok? && r.value.decision == RootCauseReady && r.value.selected == Some("a")
    ensures |r.value.ranked| == 3 && r.value.ranked[2].cause == "c" && Rival(r.value.ranked, 2)
            && !r.value.ranked[1].eligible
  {
    hide Clash, RankedOf, AllRanked, SortBy, Sorted, Distinct, RefersWell, Validated;
    SightingsIndexed();
    CausesInOrder(SightingsById());
    var keys := r.value.contradictions;
    assert keys == [] || keys[0] in keys;
    NoClash();
    SightingsDecided();
  }

  lemma SightingsDecided()
    ensures var f := Decided([Ranks("a"), Ranks("b"), Ranks("c")], []);
            f.decision == RootCauseReady && f.selected == Some("a")
  {
  }

  lemma CausesInOrder(byId: ById)
    requires byId == SightingsById()
    ensures |CAUSES| == 3 && |Causes(CAUSES)| == 3 && forall c | c in CAUSES :: RefersWell(c, byId)
    ensures SortBy(AllRanked(CAUSES, byId), RankLe) == [Ranks("a"), Ranks("b"), Ranks("c")]
  {
    hide RankedOf, SortBy, RefersWell;
    CausesRanked(byId);
    RankedInOrder();
    assert Causes(CAUSES) == {"a", "b", "c"} by {
      assert CAUSES[0].cause == "a" && CAUSES[1].cause == "b" && CAUSES[2].cause == "c";
    }
    assert AllRanked(CAUSES, byId) == [Ranks("a"), Ranks("b"), Ranks("c")];
  }

  function SightingsById(): ById {
    map["e1" := SIGHTINGS[0], "e2" := SIGHTINGS[1]]
  }

  function Ranks(cause: string): Ranked {
    if cause == "b" then Ranked(cause, 0.9, false, ["e1"], [], {Telemetry})
    else Ranked(cause, 0.9, true, ["e1", "e2"], [], {Telemetry, Specialist})
  }

  lemma SightingsIndexed()
    ensures Validated(SIGHTINGS, "t", "i") == Ok(SightingsById())
  {
    var items := SIGHTINGS;
    assert items[..2] == items && items[..2][..1] == items[..1] && items[..1][..0] == [];
    assert Indexed(items[..1], "t", "i") == Ok(map["e1" := items[0]]);
  }

  lemma NoClash()
    ensures forall key :: !Clash(SIGHTINGS, key)
  {
  }

  lemma SortedPairs()
    ensures SortedList({}) == [] && SortedList({"e1"}) == ["e1"] && SortedList({"e1", "e2"}) == ["e1", "e2"]
  {
    assert StrLe("e1", "e2") && StrLe("e1", "e1") && StrLe("e2", "e2");
    var both, one := {"e1", "e2"}, {"e2"};
    LeastFirst(both);
    assert Least("e1", both);
    LeastIsUnique(both);
    assert both - {"e1"} == one && one - {"e2"} == {} && {"e1"} - {"e1"} == {};
  }

  lemma CausesRanked(byId: ById)
    requires byId == SightingsById()
    ensures forall c | c in CAUSES :: RefersWell(c, byId) && RankedOf(c, byId) == Ranks(c.cause)
  {
    hide SortedList, Score, Eligible, TypesOf;
    SortedPairs();
    assert SetOf(["e1"]) == {"e1"} && SetOf(["e1", "e2"]) == {"e1", "e2"} && SetOf<string>([]) == {};
    SightingsScore(byId);
    SightingsTypes(byId);
  }

  lemma SightingsTypes(byId: ById)
    requires byId == SightingsById()
    ensures TypesOf({"e1"}, byId) == {Telemetry} && TypesOf({"e1", "e2"}, byId) == {Telemetry, Specialist}
    ensures !Eligible({"e1"}, byId) && Eligible({"e1", "e2"}, byId)
  {
    hide Eligible;
    assert byId["e1"].sourceType == Telemetry && byId["e2"].sourceType == Specialist;
    TwoTypesSuffice({"e1"}, byId);
    TwoTypesSuffice({"e1", "e2"}, byId);
  }

  lemma SightingsScore(byId: ById)
    requires byId == SightingsById()
    ensures Score({"e1"}, {}, byId) == 0.9 && Score({"e1", "e2"}, {}, byId) == 0.9
  {
    hide SortedList, Round4;
    SortedPairs();
    assert Mass([], byId) == 0.0;
    assert Mass(["e2"], byId) == 0.0;
    assert Mass(["e1"], byId) == 0.9;
    assert Mass(["e1", "e2"], byId) == 0.9;
    assert Share(0.9, 0.0) == 0.9;
    NineTenths();
  }

  lemma NineTenths()
    ensures Round4(0.9) == 0.9
  {
    assert 9000.0.Floor == 9000;
  }

  lemma RankedInOrder()
    ensures SortBy([Ranks("a"), Ranks("b"), Ranks("c")], RankLe) == [Ranks("a"), Ranks("b"), Ranks("c")]
  {
    assert StrLe("a", "b") && StrLe("a", "c") && StrLe("b", "c");
  }
}
