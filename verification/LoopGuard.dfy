/** The agent loop guard: a step budget and a repetition limit per action. */
module AgentLoopGuard {
  import opened Prelude

  datatype Bounds = Bounds(maxSteps: int, maxSameAction: int)

  const DEFAULT_BOUNDS := Bounds(12, 2)

  datatype Refusal = DeadlineExceeded | MaxStepsExceeded | RepeatedAction

  datatype Counters = Counters(steps: int, counts: map<string, int>)

  datatype Visit = Visit(fingerprint: string, now: real, deadlineAt: real)

  function CountOf(c: Counters, fingerprint: string): int {
    if fingerprint in c.counts then c.counts[fingerprint] else 0
  }

  function Verdict(b: Bounds, c: Counters, v: Visit): Option<Refusal> {
    if v.now >= v.deadlineAt then Some(DeadlineExceeded)
    else if c.steps + 1 > b.maxSteps then Some(MaxStepsExceeded)
    else if CountOf(c, v.fingerprint) + 1 > b.maxSameAction then Some(RepeatedAction)
    else None
  }

  /** The counters move even when the visit is then refused, except past the deadline. */
  function After(b: Bounds, c: Counters, v: Visit): Counters {
    if v.now >= v.deadlineAt then c
    else if c.steps + 1 > b.maxSteps then c.(steps := c.steps + 1)
    else Counters(c.steps + 1, c.counts[v.fingerprint := CountOf(c, v.fingerprint) + 1])
  }

  class LoopGuard {
    const bounds: Bounds
    var steps: int
    var counts: map<string, int>

    function View(): Counters
      reads this
    {
      Counters(steps, counts)
    }

    constructor (bounds: Bounds)
      ensures View() == Counters(0, map[]) && this.bounds == bounds
    {
      this.bounds, steps, counts := bounds, 0, map[];
    }

    method Checkpoint(fingerprint: string, now: real, deadlineAt: real) returns (refused: Option<Refusal>)
      modifies this
      ensures refused == Verdict(bounds, old(View()), Visit(fingerprint, now, deadlineAt))
      ensures View() == After(bounds, old(View()), Visit(fingerprint, now, deadlineAt))
    {
      if now >= deadlineAt {
        return Some(DeadlineExceeded);
      }
      steps := steps + 1;
      if steps > bounds.maxSteps {
        return Some(MaxStepsExceeded);
      }
      counts := counts[fingerprint := (if fingerprint in counts then counts[fingerprint] else 0) + 1];
      if counts[fingerprint] > bounds.maxSameAction {
        return Some(RepeatedAction);
      }
      return None;
    }
  }

  function Run(b: Bounds, c: Counters, vs: seq<Visit>): Counters {
    if vs == [] then c else After(b, Run(b, c, vs[..|vs| - 1]), vs[|vs| - 1])
  }

  function Occurrences(vs: seq<Visit>, fingerprint: string): nat {
    if vs == [] then 0
    else Occurrences(vs[..|vs| - 1], fingerprint) + if vs[|vs| - 1].fingerprint == fingerprint then 1 else 0
  }

  /** None of the visits, one after the other, is refused by a new guard. */
  predicate AllAccepted(b: Bounds, vs: seq<Visit>) {
    vs == []
    || (AllAccepted(b, vs[..|vs| - 1]) && Verdict(b, Run(b, Counters(0, map[]), vs[..|vs| - 1]), vs[|vs| - 1]) == None)
  }

  lemma {:induction false} AcceptedCounters(b: Bounds, vs: seq<Visit>, fingerprint: string)
    requires AllAccepted(b, vs)
    ensures var c := Run(b, Counters(0, map[]), vs);
            c.steps == |vs| && CountOf(c, fingerprint) == Occurrences(vs, fingerprint)
    decreases |vs|
  {
    if vs != [] {
      AcceptedCounters(b, vs[..|vs| - 1], fingerprint);
    }
  }

  ghost predicate NoneRepeats(limit: int, vs: seq<Visit>) {
    forall v | v in vs :: Occurrences(vs, v.fingerprint) <= limit
  }

  lemma RepeatsSplit(limit: int, vs: seq<Visit>)
    requires vs != []
    ensures var n := |vs| - 1;
            NoneRepeats(limit, vs) <==> NoneRepeats(limit, vs[..n]) && Occurrences(vs[..n], vs[n].fingerprint) < limit
  {
    var n := |vs| - 1;
    assert vs == vs[..n] + [vs[n]];
    forall f ensures Occurrences(vs, f) == Occurrences(vs[..n], f) + if vs[n].fingerprint == f then 1 else 0 {}
    if NoneRepeats(limit, vs) {
      assert vs[n] in vs;
      forall v | v in vs[..n] ensures Occurrences(vs[..n], v.fingerprint) <= limit {
        assert v in vs;
      }
    }
  }

  predicate InTime(vs: seq<Visit>) {
    forall v | v in vs :: v.now < v.deadlineAt
  }

  lemma InTimeSplit(vs: seq<Visit>)
    requires vs != []
    ensures InTime(vs) <==> InTime(vs[..|vs| - 1]) && vs[|vs| - 1].now < vs[|vs| - 1].deadlineAt
  {
    assert vs == vs[..|vs| - 1] + [vs[|vs| - 1]];
  }

  /** A new guard lets a sequence of visits pass exactly when every visit is before its
      deadline, there are no more than the step budget, and no action comes up more often
      than allowed. */
  lemma {:induction false} AcceptedExactly(b: Bounds, vs: seq<Visit>)
    ensures AllAccepted(b, vs) <==> vs == [] || (InTime(vs) && |vs| <= b.maxSteps && NoneRepeats(b.maxSameAction, vs))
    decreases |vs|
  {
    if vs != [] {
      hide NoneRepeats, InTime, Run, Occurrences, After;
      var n := |vs| - 1;
      InTimeSplit(vs);
      RepeatsSplit(b.maxSameAction, vs);
      AcceptedExactly(b, vs[..n]);
      if AllAccepted(b, vs[..n]) {
        AcceptedCounters(b, vs[..n], vs[n].fingerprint);
      }
      if n == 0 {
        NothingRepeats(b.maxSameAction);
        assert vs[..n] == [];
      }
    }
  }

  lemma NothingRepeats(limit: int)
    ensures NoneRepeats(limit, []) && InTime([])
  {
  }

  /** How many of the visits were before their deadline, and how many of those were this action. */
  ghost function InTimeVisits(vs: seq<Visit>): nat {
    if vs == [] then 0
    else InTimeVisits(vs[..|vs| - 1]) + if vs[|vs| - 1].now < vs[|vs| - 1].deadlineAt then 1 else 0
  }

  ghost function InTimeOf(vs: seq<Visit>, fingerprint: string): nat {
    if vs == [] then 0
    else
      var v := vs[|vs| - 1];
      InTimeOf(vs[..|vs| - 1], fingerprint) + if v.now < v.deadlineAt && v.fingerprint == fingerprint then 1 else 0
  }

  lemma {:induction false} RunCounters(b: Bounds, vs: seq<Visit>, fingerprint: string)
    ensures var c := Run(b, Counters(0, map[]), vs);
            && c.steps == InTimeVisits(vs)
            && (InTimeVisits(vs) <= b.maxSteps ==> CountOf(c, fingerprint) == InTimeOf(vs, fingerprint))
    decreases |vs|
  {
    if vs != [] {
      RunCounters(b, vs[..|vs| - 1], fingerprint);
    }
  }

  /** After any visits, refused ones included, the next one is answered by those that were
      before their deadline, and by those of them that were the same action. */
  lemma AnsweredExactly(b: Bounds, vs: seq<Visit>, v: Visit)
    ensures Verdict(b, Run(b, Counters(0, map[]), vs), v)
         == (if v.now >= v.deadlineAt then Some(DeadlineExceeded)
             else if InTimeVisits(vs) >= b.maxSteps then Some(MaxStepsExceeded)
             else if InTimeOf(vs, v.fingerprint) >= b.maxSameAction then Some(RepeatedAction)
             else None)
  {
    RunCounters(b, vs, v.fingerprint);
  }

  /** By default twelve steps, and no action more than twice. */
  lemma AcceptedByDefault(vs: seq<Visit>)
    ensures AllAccepted(DEFAULT_BOUNDS, vs) <==> InTime(vs) && |vs| <= 12 && NoneRepeats(2, vs)
  {
    AcceptedExactly(DEFAULT_BOUNDS, vs);
    NothingRepeats(2);
  }
}
