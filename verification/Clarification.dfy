/** Clarifying questions: which ones a round asks, and what a whole dialogue keeps. */
module Clarification {
  import opened Ordering
  import opened Prelude
  import opened TextCodec

  const MAX_QUESTIONS := 2
  const MAX_ROUNDS := 3
  const MAX_QUESTION_CHARS := 180
  const MAX_NEEDS := 12

  datatype Need = Need(questionId: string, field: string, category: string, question: string, gain: int)

  datatype Outcome = Ask | Complete | Escalated

  datatype Plan = Plan(outcome: Outcome, questions: seq<Need>, round: int)

  datatype ClarificationError = TooManyNeeds | InvalidRound | UnsafeNeed

  const PRIORITY := map[
    "safety" := 0, "affected_device_id" := 1, "symptom" := 2, "business_impact" := 3,
    "timeline" := 4, "domain" := 5, "contradiction" := 6, "optional" := 7]

  /** Category, question and information gain of a field that can be asked for. */
  function Catalog(field: string): Option<(string, string, int)> {
    if field == "affected_device_id" then
      Some(("affected_device_id", "Which registered Windows device is affected?", 10))
    else if field == "symptoms" then
      Some(("symptom", "What exactly happens when you try, including any visible error message?", 9))
    else if field == "business_impact" then
      Some(("business_impact", "Is only your work affected, or are other people blocked too?", 8))
    else if field == "reported_timeline" then Some(("timeline", "When did this issue begin?", 6))
    else if field == "domain" then
      Some(("domain", "Is the problem with Outlook, printing, scanning, or Windows network access?", 7))
    else None
  }

  function Spaced(key: string): string {
    seq(|key|, i requires 0 <= i < |key| => if key[i] == ':' then ' ' else key[i])
  }

  function FieldId(field: string): string {
    "field:" + field
  }

  function ContradictionId(key: string): string {
    "contradiction:" + key
  }

  function FieldNeed(field: string): Need
    requires Catalog(field).Some?
  {
    var entry := Catalog(field).value;
    Need(FieldId(field), field, entry.0, entry.1, entry.2)
  }

  function ContradictionNeed(key: string): Need {
    Need(ContradictionId(key), key, "contradiction",
         "I found conflicting information about " + Spaced(key) + ". What do you currently observe?", 8)
  }

  function FieldNeeds(fields: seq<string>): seq<Need> {
    if fields == [] then []
    else
      var n := |fields| - 1;
      FieldNeeds(fields[..n]) + if Catalog(fields[n]).Some? then [FieldNeed(fields[n])] else []
  }

  function ContradictionNeeds(keys: seq<string>): seq<Need> {
    seq(|keys|, i requires 0 <= i < |keys| => ContradictionNeed(keys[i]))
  }

  /** The needs of a set of missing fields and of contradictory observations. */
  function Needs(missing: seq<string>, keys: seq<string>): seq<Need> {
    FieldNeeds(SortedList(SetOf(missing))) + ContradictionNeeds(SortedList(SetOf(keys)))
  }

  method BuildNeeds(missing: seq<string>, keys: seq<string>) returns (r: Result<seq<Need>, ClarificationError>)
    ensures r == if |Needs(missing, keys)| > 12 then Err(TooManyNeeds) else Ok(Needs(missing, keys))
  {
    hide Catalog, FieldNeed, ContradictionNeed, SortedList;
    var fields, contested := SortedList(SetOf(missing)), SortedList(SetOf(keys));
    var needs := [];
    for i := 0 to |fields|
      invariant needs == FieldNeeds(fields[..i])
    {
      assert fields[..i + 1][..i] == fields[..i];
      if Catalog(fields[i]).Some? {
        needs := needs + [FieldNeed(fields[i])];
      }
    }
    assert fields[..|fields|] == fields;
    for i := 0 to |contested|
      invariant needs == FieldNeeds(fields) + ContradictionNeeds(contested[..i])
    {
      assert ContradictionNeeds(contested[..i + 1])
             == ContradictionNeeds(contested[..i]) + [ContradictionNeed(contested[i])];
      needs := needs + [ContradictionNeed(contested[i])];
    }
    assert contested[..|contested|] == contested;
    if |needs| > MAX_NEEDS {
      return Err(TooManyNeeds);
    }
    return Ok(needs);
  }

  // ---- one round

  /** The characters that stripping removes. */
  predicate White(c: char) {
    '\t' <= c <= '\r' || '\U{1c}' <= c <= ' ' || c == '\U{85}' || c == '\U{a0}' || c == '\U{1680}'
    || '\U{2000}' <= c <= '\U{200a}' || c == '\U{2028}' || c == '\U{2029}' || c == '\U{202f}' || c == '\U{205f}'
    || c == '\U{3000}'
  }

  predicate Blank(s: string) {
    forall c | c in s :: White(c)
  }

  predicate Unsafe(n: Need) {
    n.category !in PRIORITY || Blank(n.question) || |n.question| > MAX_QUESTION_CHARS
    || Contains(Lower(n.question), "password") || Contains(Lower(n.question), "mfa")
  }

  function Rank(n: Need): nat {
    if n.category in PRIORITY then PRIORITY[n.category] else 8
  }

  /** Priority of the category, then information gain, then question id. */
  predicate NeedLe(a: Need, b: Need) {
    if Rank(a) != Rank(b) then Rank(a) < Rank(b)
    else if a.gain != b.gain then a.gain > b.gain
    else StrLe(a.questionId, b.questionId)
  }

  function Open(answered: set<string>, asked: set<string>): Need -> bool {
    (n: Need) => n.field !in answered && n.questionId !in asked
  }

  function Remaining(needs: seq<Need>, answered: set<string>, asked: set<string>): seq<Need> {
    Filter(needs, Open(answered, asked))
  }

  function FirstTwo(ns: seq<Need>): seq<Need> {
    if |ns| <= MAX_QUESTIONS then ns else ns[..MAX_QUESTIONS]
  }

  function Planned(needs: seq<Need>, answered: set<string>, asked: set<string>,
                   round: int): Result<Plan, ClarificationError>
  {
    var remaining := Remaining(needs, answered, asked);
    if round < 0 then Err(InvalidRound)
    else if remaining == [] then Ok(Plan(Complete, [], round))
    else if round >= MAX_ROUNDS then Ok(Plan(Escalated, [], round))
    else if exists n :: n in remaining && Unsafe(n) then Err(UnsafeNeed)
    else Ok(Plan(Ask, FirstTwo(SortBy(remaining, NeedLe)), round + 1))
  }

  function IdsOf(ns: seq<Need>): set<string> {
    set n | n in ns :: n.questionId
  }

  /** How urgent a category is; what is not listed comes last. */
  ghost function Urgency(category: string): nat {
    if category == "safety" then 0 else if category == "affected_device_id" then 1
    else if category == "symptom" then 2 else if category == "business_impact" then 3
    else if category == "timeline" then 4 else if category == "domain" then 5
    else if category == "contradiction" then 6 else if category == "optional" then 7 else 8
  }

  lemma RankExactly(category: string)
    ensures forall n: Need | n.category == category :: Rank(n) == Urgency(category)
    ensures category in PRIORITY <==> Urgency(category) < 8
  {
    assert PRIORITY == map["safety" := 0, "affected_device_id" := 1, "symptom" := 2, "business_impact" := 3,
                           "timeline" := 4, "domain" := 5, "contradiction" := 6, "optional" := 7];
  }

  /** The more urgent category first, then the greater gain, then the lesser id. */
  ghost predicate AskedBefore(a: Need, b: Need) {
    var u, v := Urgency(a.category), Urgency(b.category);
    u < v || (u == v && (a.gain > b.gain || (a.gain == b.gain && StrLe(a.questionId, b.questionId))))
  }

  lemma NeedLeMeans(a: Need, b: Need)
    ensures NeedLe(a, b) <==> AskedBefore(a, b)
  {
    RankExactly(a.category);
    RankExactly(b.category);
    hide Urgency, Rank;
  }

  /** Tab to carriage return, the four information separators and the space, and the spaces
      of Unicode by number. */
  lemma WhiteExactly(c: char)
    ensures White(c)
       <==> var k := c as int;
            || 9 <= k <= 13 || 28 <= k <= 32 || k == 133 || k == 160 || k == 5760 || 8192 <= k <= 8202
            || k == 8232 || k == 8233 || k == 8239 || k == 8287 || k == 12288
  {
  }

  /** A need may be asked for exactly when its category is known, its question is not blank, has
      at most 180 characters and asks for no password or second factor. */
  lemma SafeExactly(n: Need)
    ensures !Unsafe(n)
       <==> && Urgency(n.category) < 8 && |n.question| <= 180 && (exists c :: c in n.question && !White(c))
            && !Contains(Lower(n.question), "password") && !Contains(Lower(n.question), "mfa")
  {
    RankExactly(n.category);
    hide White, Urgency;
  }

  /** What is asked for each field that can be asked for. */
  lemma AskedFor(field: string)
    ensures Catalog(field) ==
              if field == "domain" then
                Some(("domain", "Is the problem with Outlook, printing, scanning, or Windows network access?", 7))
              else if field == "reported_timeline" then Some(("timeline", "When did this issue begin?", 6))
              else if field == "business_impact" then
                Some(("business_impact", "Is only your work affected, or are other people blocked too?", 8))
              else if field == "symptoms" then
                Some(("symptom", "What exactly happens when you try, including any visible error message?", 9))
              else if field == "affected_device_id" then
                Some(("affected_device_id", "Which registered Windows device is affected?", 10))
              else None
    ensures Catalog(field).Some? ==>
              var (category, question, gain) := Catalog(field).value;
              FieldNeed(field) == Need("field:" + field, field, category, question, gain)
  {
    assert |"domain"| == 6 && |"reported_timeline"| == 17 && |"business_impact"| == 15;
    assert |"symptoms"| == 8 && |"affected_device_id"| == 18;
  }

  /** What is asked about a contradiction: its key, with spaces for colons. */
  lemma AskedAbout(key: string)
    ensures ContradictionNeed(key) ==
              Need("contradiction:" + key, key, "contradiction",
                   "I found conflicting information about " + Spaced(key) + ". What do you currently observe?", 8)
    ensures |Spaced(key)| == |key| && forall i | 0 <= i < |key| ::
              Spaced(key)[i] == (if key[i] == ':' then ' ' else key[i])
  {
  }

  /** A plan asks nothing unless it needs to, never more than two questions, only open ones,
      and the ones it asks rank before the open ones it leaves for later. */
  lemma AsksTheBest(needs: seq<Need>, answered: set<string>, asked: set<string>, round: int)
    requires Planned(needs, answered, asked, round).Ok?
    ensures var p, open := Planned(needs, answered, asked, round).value, Remaining(needs, answered, asked);
            && (p.outcome == Complete <==> forall n | n in needs :: n.field in answered || n.questionId in asked)
            && (p.outcome == Escalated
                <==> && round >= 3
                     && exists n :: n in needs && n.field !in answered && n.questionId !in asked)
            && (p.outcome == Ask ==>
                  && p.round == round + 1 <= 3
                  && 0 < |p.questions| == (if |open| < 2 then |open| else 2))
            && (p.outcome != Ask ==> p.questions == [])
            && (forall q | q in p.questions ::
                  q in needs && q.field !in answered && q.questionId !in asked && !Unsafe(q))
            && (p.outcome != Ask ==> p.round == round)
            && (multiset(p.questions) <= multiset(open))
            && (p.outcome == Ask ==>
                  forall q, n | q in p.questions && n in multiset(open) - multiset(p.questions) :: AskedBefore(q, n))
  {
    hide Unsafe, NeedLe, SortBy;
    var open := Remaining(needs, answered, asked);
    FilterKeeps(needs, Open(answered, asked));
    if open == [] {
      assert forall n | n in needs :: n !in open;
    } else {
      assert open[0] in open;
      var ranked := SortBy(open, NeedLe);
      SortPermutes(open, NeedLe);
      NeedLeIsAnOrder();
      SortSorts(open, NeedLe);
      SplitSorted(ranked);
      forall q, n | NeedLe(q, n) ensures AskedBefore(q, n) {
        RankExactly(q.category);
        RankExactly(n.category);
        NeedLeMeans(q, n);
      }
    }
  }

  /** A round is refused exactly for a negative number, or when it would have to ask and some
      open need is not safe to ask for. */
  lemma RefusesExactly(needs: seq<Need>, answered: set<string>, asked: set<string>, round: int)
    ensures Planned(needs, answered, asked, round).Err?
       <==> round < 0 || (round < 3 && exists n ::
                            n in needs && n.field !in answered && n.questionId !in asked && Unsafe(n))
  {
    hide Unsafe, NeedLe, SortBy;
    FilterKeeps(needs, Open(answered, asked));
  }

  lemma SplitSorted(ns: seq<Need>)
    requires Sorted(ns, NeedLe)
    ensures var first := FirstTwo(ns);
            && multiset(first) <= multiset(ns)
            && (forall q | q in first :: q in ns)
            && forall q, n | q in first && n in multiset(ns) - multiset(first) :: NeedLe(q, n)
  {
    hide NeedLe;
    var first := FirstTwo(ns);
    var rest := ns[|first|..];
    assert ns == first + rest;
    assert multiset(ns) - multiset(first) == multiset(rest);
    forall q, n | q in first && n in rest ensures NeedLe(q, n) {
      var i :| 0 <= i < |first| && first[i] == q;
      var j :| 0 <= j < |rest| && rest[j] == n;
      assert ns[i] == q && ns[|first| + j] == n;
    }
  }

  lemma NeedLeIsAnOrder()
    ensures Total(NeedLe) && Transitive(NeedLe)
  {
    hide Rank;
    StrLeIsAnOrder();
  }

  // ---- a dialogue

  /** What one turn brings: the open fields and contradictions of that moment, and the
      fields answered by then. */
  datatype Turn = Turn(missing: seq<string>, keys: seq<string>, answered: set<string>)

  /** The state kept between turns. */
  datatype Dialogue = Dialogue(asked: set<string>, round: int)

  function TurnPlan(d: Dialogue, t: Turn): Result<Plan, ClarificationError> {
    if |Needs(t.missing, t.keys)| > MAX_NEEDS then Err(TooManyNeeds)
    else Planned(Needs(t.missing, t.keys), t.answered, d.asked, d.round)
  }

  /** A turn with more than twelve needs is refused, and otherwise one at a negative round or
      one that would have to ask while some open need is not safe to ask for. */
  lemma TurnRefusedExactly(d: Dialogue, t: Turn)
    ensures var needs := Needs(t.missing, t.keys);
            var unsafe := exists n :: n in needs && n.field !in t.answered && n.questionId !in d.asked && Unsafe(n);
            && (TurnPlan(d, t) == Err(TooManyNeeds) <==> |needs| > 12)
            && (TurnPlan(d, t) == Err(InvalidRound) <==> |needs| <= 12 && d.round < 0)
            && (TurnPlan(d, t) == Err(UnsafeNeed) <==> |needs| <= 12 && 0 <= d.round < 3 && unsafe)
  {
    hide Unsafe, NeedLe, SortBy, Needs;
    FilterKeeps(Needs(t.missing, t.keys), Open(t.answered, d.asked));
  }

  /** The state update: asked ids accumulate, the round is the plan's. */
  function After(d: Dialogue, t: Turn): Dialogue {
    match TurnPlan(d, t)
    case Err(_) => d
    case Ok(p) => Dialogue(d.asked + IdsOf(p.questions), p.round)
  }

  /** All questions a dialogue asks, in order, whatever the turns bring. */
  function Questions(d: Dialogue, turns: seq<Turn>): seq<Need>
    decreases |turns|
  {
    if turns == [] then []
    else
      (match TurnPlan(d, turns[0]) case Err(_) => [] case Ok(p) => p.questions)
      + Questions(After(d, turns[0]), turns[1..])
  }

  function AskingRounds(d: Dialogue, turns: seq<Turn>): nat
    decreases |turns|
  {
    if turns == [] then 0
    else
      (if TurnPlan(d, turns[0]).Ok? && TurnPlan(d, turns[0]).value.outcome == Ask then 1 else 0)
      + AskingRounds(After(d, turns[0]), turns[1..])
  }

  ghost predicate DifferentIds(ns: seq<Need>) {
    forall i, j | 0 <= i < j < |ns| :: ns[i].questionId != ns[j].questionId
  }

  lemma FieldIdsDiffer(a: string, b: string)
    ensures FieldId(a) == FieldId(b) <==> a == b
    ensures ContradictionId(a) == ContradictionId(b) <==> a == b
    ensures FieldId(a) != ContradictionId(b)
  {
    assert FieldId(a)[6..] == a && FieldId(b)[6..] == b;
    assert ContradictionId(a)[14..] == a && ContradictionId(b)[14..] == b;
    assert FieldId(a)[0] == 'f' && ContradictionId(b)[0] == 'c';
  }

  lemma {:induction false} FieldNeedsAre(fields: seq<string>)
    requires Distinct(fields)
    ensures DifferentIds(FieldNeeds(fields))
    ensures forall n :: n in FieldNeeds(fields)
              <==> n.field in fields && Catalog(n.field).Some? && n == FieldNeed(n.field)
  {
    hide Catalog, FieldId;
    if fields != [] {
      var k := |fields| - 1;
      assert fields == fields[..k] + [fields[k]];
      assert forall i, j | 0 <= i < j < k :: fields[..k][i] == fields[i] && fields[..k][j] == fields[j];
      FieldNeedsAre(fields[..k]);
      assert fields[k] !in fields[..k];
      forall n | n in FieldNeeds(fields[..k]) ensures n.questionId != FieldId(fields[k]) {
        FieldIdsDiffer(n.field, fields[k]);
      }
    }
  }

  /** Each missing field of the catalog and each contradiction is asked for once. */
  lemma NeedsExactly(missing: seq<string>, keys: seq<string>)
    ensures DifferentIds(Needs(missing, keys))
    ensures forall n :: n in Needs(missing, keys)
              <==> (n.field in missing && Catalog(n.field).Some? && n == FieldNeed(n.field))
                   || (n.field in keys && n == ContradictionNeed(n.field))
  {
    hide Catalog, FieldId, ContradictionId, SortedList, FieldNeed, ContradictionNeed;
    var fields, contested := SortedList(SetOf(missing)), SortedList(SetOf(keys));
    FieldNeedsAre(fields);
    ContradictionNeedsAre(contested);
    NeedsDiffer(FieldNeeds(fields), ContradictionNeeds(contested));
  }

  lemma ContradictionNeedsAre(keys: seq<string>)
    requires Distinct(keys)
    ensures DifferentIds(ContradictionNeeds(keys))
    ensures forall n :: n in ContradictionNeeds(keys) <==> n.field in keys && n == ContradictionNeed(n.field)
  {
    hide ContradictionId, Spaced;
    var ns := ContradictionNeeds(keys);
    forall i, j | 0 <= i < j < |ns| ensures ns[i].questionId != ns[j].questionId {
      FieldIdsDiffer(keys[i], keys[j]);
    }
    forall n: Need | n.field in keys && n == ContradictionNeed(n.field) ensures n in ns {
      var i :| 0 <= i < |keys| && keys[i] == n.field;
      assert ns[i] == n;
    }
  }

  lemma NeedsDiffer(a: seq<Need>, b: seq<Need>)
    requires DifferentIds(a) && DifferentIds(b)
    requires forall n | n in a :: Catalog(n.field).Some? && n == FieldNeed(n.field)
    requires forall n | n in b :: n == ContradictionNeed(n.field)
    ensures DifferentIds(a + b)
  {
    hide Catalog, FieldId, ContradictionId;
    forall x, y | x in a && y in b ensures x.questionId != y.questionId {
      assert x.questionId == FieldId(x.field) && y.questionId == ContradictionId(y.field);
      FieldIdsDiffer(x.field, y.field);
    }
  }

  lemma DifferentIdsMeans(ns: seq<Need>)
    ensures DifferentIds(ns) <==> Distinct(ns) && forall x, y | x in ns && y in ns && x.questionId == y.questionId ::
              x == y
  {
    if DifferentIds(ns) {
      forall x, y | x in ns && y in ns && x.questionId == y.questionId ensures x == y {
        var i :| 0 <= i < |ns| && ns[i] == x;
        var j :| 0 <= j < |ns| && ns[j] == y;
      }
    } else {
      var i, j :| 0 <= i < j < |ns| && ns[i].questionId == ns[j].questionId;
      assert ns[i] in ns && ns[j] in ns;
    }
  }

  function OpenNeeds(d: Dialogue, t: Turn): seq<Need> {
    Remaining(Needs(t.missing, t.keys), t.answered, d.asked)
  }

  lemma RankedDiffer(d: Dialogue, t: Turn)
    ensures DifferentIds(SortBy(OpenNeeds(d, t), NeedLe))
  {
    hide Needs, SortBy, NeedLe, Distinct, DifferentIds;
    var needs, open := Needs(t.missing, t.keys), OpenNeeds(d, t);
    NeedsExactly(t.missing, t.keys);
    DifferentIdsMeans(needs);
    FilterDistinct(needs, Open(t.answered, d.asked));
    FilterKeeps(needs, Open(t.answered, d.asked));
    DifferentIdsMeans(open);
    var ranked := SortBy(open, NeedLe);
    SortPermutes(open, NeedLe);
    DistinctByContents(open, ranked);
    DifferentIdsMeans(ranked);
  }

  /** One turn asks questions with different ids, none of them asked before. */
  lemma TurnAsksNew(d: Dialogue, t: Turn)
    requires TurnPlan(d, t).Ok?
    ensures var qs := TurnPlan(d, t).value.questions;
            DifferentIds(qs) && forall q | q in qs :: q.questionId !in d.asked
  {
    hide Needs, Unsafe, SortBy, NeedLe, DifferentIds, FirstTwo;
    AsksTheBest(Needs(t.missing, t.keys), t.answered, d.asked, d.round);
    RankedDiffer(d, t);
    FirstTwoDiffer(SortBy(OpenNeeds(d, t), NeedLe));
    NoneDiffer();
  }

  /** A turn that asks has something unanswered to ask for. Asked again unchanged, it is
      complete exactly when it asked all there was, at most two needs, although none of them
      has been answered. */
  lemma AskedCountsAsAnswered(d: Dialogue, t: Turn)
    requires TurnPlan(d, t).Ok? && TurnPlan(d, t).value.outcome == Ask
    ensures var again := TurnPlan(After(d, t), t);
            again.Ok? && again.value.outcome == Complete <==> |OpenNeeds(d, t)| <= 2
    ensures exists n :: n in Needs(t.missing, t.keys) && n.field !in t.answered && n.questionId !in d.asked
  {
    hide Needs, Unsafe, SortBy, NeedLe;
    var needs, open := Needs(t.missing, t.keys), OpenNeeds(d, t);
    var ranked, qs := SortBy(open, NeedLe), TurnPlan(d, t).value.questions;
    FilterKeeps(needs, Open(t.answered, d.asked));
    assert open[0] in open;
    SortPermutes(open, NeedLe);
    var left := OpenNeeds(After(d, t), t);
    FilterKeeps(needs, Open(t.answered, d.asked + IdsOf(qs)));
    assert forall n :: n in left <==> n in ranked && n.questionId !in IdsOf(qs);
    assert left == [] || left[0] in left;
    if |open| <= MAX_QUESTIONS {
      assert qs == ranked;
    } else {
      RankedDiffer(d, t);
      assert qs == ranked[..2] && ranked[2] in ranked;
      assert ranked[2].questionId !in IdsOf(qs);
      assert ranked[2] in left;
    }
  }

  /** A new dialogue with one missing field: it asks, and asked again it is complete. */
  lemma UnansweredIsComplete()
    ensures var d, t := Dialogue({}, 0), Turn(["reported_timeline"], [], {});
            var p, again := TurnPlan(d, t), TurnPlan(After(d, t), t);
            && p.Ok? && p.value.outcome == Ask && p.value.questions == [FieldNeed("reported_timeline")]
            && again.Ok? && again.value.outcome == Complete
  {
    var d, t, need := Dialogue({}, 0), Turn(["reported_timeline"], [], {}), FieldNeed("reported_timeline");
    OneNeed();
    TimelineIsSafe(need);
    hide Needs, Unsafe, FieldNeed, SortBy;
    var open := OpenNeeds(d, t);
    assert open == [need];
    assert SortBy(open, NeedLe) == [need] by { SortOne(need); }
    AskedCountsAsAnswered(d, t);
  }

  lemma SortOne(need: Need)
    ensures SortBy([need], NeedLe) == [need]
  {
  }

  lemma OneNeed()
    ensures Needs(["reported_timeline"], []) == [FieldNeed("reported_timeline")]
  {
    var field := "reported_timeline";
    assert Catalog(field).Some?;
    hide FieldNeed, SortedList, Catalog;
    SortedOne(field);
    assert SetOf([field]) == {field} && SetOf<string>([]) == {};
    assert [field][..0] == [] && FieldNeeds([]) == [];
    assert FieldNeeds([field]) == FieldNeeds([]) + [FieldNeed(field)];
    assert ContradictionNeeds([]) == [];
  }

  lemma SortedOne(x: string)
    ensures SortedList({x}) == [x] && SortedList({}) == []
  {
    assert {x} - {x} == {};
    assert SortedList({x})[0] == x;
  }

  lemma TimelineIsSafe(need: Need)
    requires need == FieldNeed("reported_timeline")
    ensures !Unsafe(need)
  {
    var q := need.question;
    assert q == "When did this issue begin?";
    WhenHasNone();
    NotInLower(q, 'p', 'P');
    NotInLower(q, 'm', 'M');
    hide Lower, Contains, Catalog;
    assert q[0] == 'W' && !White(q[0]);
    assert "password"[0] == 'p' && "mfa"[0] == 'm';
    Absent(Lower(q), "password");
    Absent(Lower(q), "mfa");
    RankExactly(need.category);
  }

  lemma WhenHasNone()
    ensures forall c | c in {'p', 'P', 'm', 'M'} :: c !in "When did this issue begin?"
  {
  }

  lemma NotInLower(s: string, c: char, upper: char)
    requires c !in s && upper !in s && forall x :: LowerChar(x) == c ==> x == c || x == upper
    ensures c !in Lower(s)
  {
  }

  lemma Absent(s: string, part: string)
    requires part != "" && part[0] !in s
    ensures !Contains(s, part)
  {
  }

  lemma NoneDiffer()
    ensures DifferentIds([])
  {
  }

  lemma FirstTwoDiffer(ns: seq<Need>)
    requires DifferentIds(ns)
    ensures DifferentIds(FirstTwo(ns))
  {
  }

  lemma JoinedDiffer(a: seq<Need>, b: seq<Need>)
    requires DifferentIds(a) && DifferentIds(b) && forall x, y | x in a && y in b :: x.questionId != y.questionId
    ensures DifferentIds(a + b)
  {
  }

  /** Whatever the turns of a dialogue bring, no question is asked twice. */
  lemma {:induction false} NoQuestionTwice(d: Dialogue, turns: seq<Turn>)
    ensures DifferentIds(Questions(d, turns))
    ensures forall q | q in Questions(d, turns) :: q.questionId !in d.asked
    decreases |turns|
  {
    hide DifferentIds, TurnPlan;
    NoneDiffer();
    if turns != [] {
      var next := After(d, turns[0]);
      NoQuestionTwice(next, turns[1..]);
      var rest := Questions(next, turns[1..]);
      if TurnPlan(d, turns[0]).Ok? {
        var qs := TurnPlan(d, turns[0]).value.questions;
        TurnAsksNew(d, turns[0]);
        forall x, y | x in qs && y in rest ensures x.questionId != y.questionId {
          assert x.questionId in IdsOf(qs);
        }
        JoinedDiffer(qs, rest);
      } else {
        assert [] + rest == rest;
      }
    }
  }

  lemma TurnRound(d: Dialogue, t: Turn)
    ensures var p, asks := TurnPlan(d, t), TurnPlan(d, t).Ok? && TurnPlan(d, t).value.outcome == Ask;
            && After(d, t).round == d.round + (if asks then 1 else 0)
            && (asks ==> 0 <= d.round < MAX_ROUNDS && |p.value.questions| <= MAX_QUESTIONS)
            && (p.Ok? && !asks ==> p.value.questions == [])
  {
    hide Needs, Unsafe, SortBy, NeedLe, Remaining;
  }

  /** A dialogue started at round zero asks in at most three rounds, at most six questions. */
  lemma {:induction false} ThreeAskingRounds(d: Dialogue, turns: seq<Turn>)
    ensures AskingRounds(d, turns) <= 3
    ensures 0 <= d.round ==> AskingRounds(d, turns) <= (if d.round < 3 then 3 - d.round else 0)
    ensures |Questions(d, turns)| <= 2 * AskingRounds(d, turns)
    decreases |turns|
  {
    hide TurnPlan, After;
    if turns != [] {
      TurnRound(d, turns[0]);
      ThreeAskingRounds(After(d, turns[0]), turns[1..]);
    }
  }
}
