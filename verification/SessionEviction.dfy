/** Which sessions the concurrency limit gives up: the closed form that the eviction loop
    reaches, and a characterisation of that choice that mentions neither loop nor sort. */
module SessionEviction {
  import opened Ordering
  import opened IdentityAudit
  import opened SessionModel
  import opened SessionLaws

  // ---- session lists

  lemma RecordLeIsAnOrder()
    ensures Total(RecordLe) && Transitive(RecordLe)
  {
    StrLeIsAnOrder();
  }

  ghost predicate Keyed(rs: seq<Record>) {
    forall i, j | 0 <= i < j < |rs| :: rs[i].sessionId != rs[j].sessionId
  }

  lemma SameKeySameId(a: Record, b: Record)
    requires RecordLe(a, b) && RecordLe(b, a)
    ensures a.sessionId == b.sessionId
  {
    StrLeAntisymmetric(a.sessionId, b.sessionId);
  }

  lemma KeyedSeparated(rs: seq<Record>)
    requires Keyed(rs)
    ensures Separates(RecordLe, rs) && Distinct(rs)
  {
    forall x, y | x in rs && y in rs && RecordLe(x, y) && RecordLe(y, x) ensures x == y {
      SameKeySameId(x, y);
    }
  }

  lemma KeyedIds(rs: seq<Record>)
    requires Keyed(rs)
    ensures Distinct(IdsOf(rs)) && |SetOf(IdsOf(rs))| == |rs|
  {
    DistinctCounts(IdsOf(rs));
  }

  lemma {:induction false} FilterKeyed(rs: seq<Record>, p: Record -> bool)
    requires Keyed(rs)
    ensures Keyed(Filter(rs, p))
  {
    if rs != [] {
      FilterKeyed(rs[1..], p);
      FilterKeeps(rs[1..], p);
      var kept := Filter(rs[1..], p);
      forall j | 0 <= j < |kept| ensures kept[j].sessionId != rs[0].sessionId {
        assert kept[j] in kept;
      }
    }
  }

  lemma {:induction false} FilterSorted(rs: seq<Record>, p: Record -> bool)
    requires Sorted(rs, RecordLe)
    ensures Sorted(Filter(rs, p), RecordLe)
  {
    if rs != [] {
      FilterSorted(rs[1..], p);
      FilterKeeps(rs[1..], p);
      forall r | r in rs[1..] ensures RecordLe(rs[0], r) {}
    }
  }

  /** Every id in the list belongs to a record in the list. */
  lemma IdsOfMembers(rs: seq<Record>)
    ensures forall r | r in rs :: r.sessionId in IdsOf(rs)
    ensures forall id | id in IdsOf(rs) :: exists r :: r in rs && r.sessionId == id
  {
    var ids := IdsOf(rs);
    forall r | r in rs ensures r.sessionId in ids {
      var i :| 0 <= i < |rs| && rs[i] == r;
      assert ids[i] == r.sessionId;
    }
    forall id | id in ids ensures exists r :: r in rs && r.sessionId == id {
      var i :| 0 <= i < |ids| && ids[i] == id;
      assert rs[i] in rs && rs[i].sessionId == id;
    }
  }

  lemma RecordsStored(s: State)
    requires WF(s)
    ensures Keyed(Records(s))
    ensures forall r :: r in Records(s) <==> r.sessionId in s.byId && s.byId[r.sessionId] == r
  {
    var rs := Records(s);
    assert forall i | 0 <= i < |rs| :: rs[i].sessionId == s.ids[i];
    forall r: Record | r.sessionId in s.byId && s.byId[r.sessionId] == r ensures r in rs {
      var i :| 0 <= i < |s.ids| && s.ids[i] == r.sessionId;
      assert rs[i] == r;
    }
  }

  ghost predicate IsActive(s: State, subject: string, tenant: string, now: int, r: Record) {
    && r.sessionId in s.byId && s.byId[r.sessionId] == r
    && r.principal.subject == subject && r.principal.tenantId == tenant && r.status == ACTIVE && now < r.expiresAt
  }

  /** `active_for_subject` lists exactly the subject's active records, each once, in key order. */
  lemma ActiveForLists(s: State, subject: string, tenant: string, now: int)
    requires WF(s)
    ensures var rs := ActiveFor(s, subject, tenant, now);
            Keyed(rs) && Sorted(rs, RecordLe) && forall r :: r in rs <==> IsActive(s, subject, tenant, now, r)
  {
    RecordsStored(s);
    var p := ActiveOf(subject, tenant, now);
    var found := Filter(Records(s), p);
    FilterKeeps(Records(s), p);
    FilterKeyed(Records(s), p);
    KeyedSeparated(found);
    RecordLeIsAnOrder();
    SortSorts(found, RecordLe);
    SortPermutes(found, RecordLe);
    var rs := SortBy(found, RecordLe);
    DistinctByContents(found, rs);
  }

  /** The listed ids are the active ids. */
  lemma ActiveForIds(s: State, subject: string, tenant: string, now: int)
    requires WF(s)
    ensures SetOf(IdsOf(ActiveFor(s, subject, tenant, now))) == ActiveIds(s, subject, tenant, now)
    ensures |ActiveFor(s, subject, tenant, now)| == |ActiveIds(s, subject, tenant, now)|
  {
    var rs := ActiveFor(s, subject, tenant, now);
    ActiveForLists(s, subject, tenant, now);
    IdsOfMembers(rs);
    KeyedIds(rs);
    var A := ActiveIds(s, subject, tenant, now);
    forall id ensures id in SetOf(IdsOf(rs)) <==> id in A {
      if id in A {
        assert IsActive(s, subject, tenant, now, s.byId[id]);
      }
    }
  }

  // ---- the give-up order

  lemma {:induction false} SplitPermutes(rs: seq<Record>, keep: string)
    ensures multiset(GiveUpOrder(rs, keep)) == multiset(rs)
  {
    if rs != [] {
      SplitPermutes(rs[1..], keep);
      assert rs == [rs[0]] + rs[1..];
      assert multiset(GiveUpOrder(rs, keep)) == multiset{rs[0]} + multiset(GiveUpOrder(rs[1..], keep));
    }
  }

  lemma GiveUpOrderKeyed(rs: seq<Record>, keep: string)
    requires Keyed(rs)
    ensures Keyed(GiveUpOrder(rs, keep)) && |GiveUpOrder(rs, keep)| == |rs|
    ensures forall r :: r in GiveUpOrder(rs, keep) <==> r in rs
  {
    FilterKeyed(rs, NotId(keep));
    FilterKeyed(rs, IsId(keep));
    FilterKeeps(rs, NotId(keep));
    FilterKeeps(rs, IsId(keep));
    SplitPermutes(rs, keep);
    SameMultiset(GiveUpOrder(rs, keep), rs);
    var others, kept := Filter(rs, NotId(keep)), Filter(rs, IsId(keep));
    forall i, j | 0 <= i < |others| && 0 <= j < |kept| ensures others[i].sessionId != kept[j].sessionId {
      assert others[i] in others && kept[j] in kept;
    }
  }

  lemma TakenIds(order: seq<Record>, n: int)
    requires Keyed(order)
    ensures var V := IdsOf(Take(order, n));
            && Distinct(V) && SetOf(V) <= SetOf(IdsOf(order))
            && |SetOf(V)| == |V| == (if n <= 0 then 0 else if n >= |order| then |order| else n)
  {
    var t := Take(order, n);
    KeyedIds(t);
    assert forall i | 0 <= i < |t| :: IdsOf(t)[i] == IdsOf(order)[i];
  }

  lemma DifferenceSize(a: set<string>, b: set<string>)
    requires b <= a
    ensures |a - b| == |a| - |b|
  {
    assert a == b + (a - b);
  }

  /** As many victims as sessions over the limit, all of them active, none twice. */
  lemma VictimsFacts(s: State, cap: nat, subject: string, tenant: string, now: int, keep: string)
    requires WF(s)
    ensures var V := Victims(s, cap, subject, tenant, now, keep);
            var A := ActiveIds(s, subject, tenant, now);
            && Distinct(V) && SetOf(V) <= A
            && |SetOf(V)| == |V| == (if |A| > cap then |A| - cap else 0)
            && |A - SetOf(V)| <= cap
  {
    hide ActiveFor, GiveUpOrder, Keyed, Distinct, WF, ActiveIds, SetOf, Take, IdsOf;
    var rs := ActiveFor(s, subject, tenant, now);
    var A := ActiveIds(s, subject, tenant, now);
    var order := GiveUpOrder(rs, keep);
    assert Keyed(order) && |order| == |rs| == |A| && SetOf(IdsOf(order)) == A by {
      ActiveForLists(s, subject, tenant, now);
      ActiveForIds(s, subject, tenant, now);
      GiveUpOrderKeyed(rs, keep);
      SameIds(order, rs);
    }
    TakenIds(order, |rs| - cap);
    DifferenceSize(A, SetOf(IdsOf(Take(order, |rs| - cap))));
  }

  lemma SameIds(xs: seq<Record>, ys: seq<Record>)
    requires forall r :: r in xs <==> r in ys
    ensures SetOf(IdsOf(xs)) == SetOf(IdsOf(ys))
  {
    IdsOfMembers(xs);
    IdsOfMembers(ys);
  }

  // ---- the choice, declaratively

  /** Seen earlier, or as early and issued earlier, or as early in both with a lesser id. */
  ghost predicate SeenBefore(a: Record, b: Record) {
    && a.lastSeenAt <= b.lastSeenAt
    && (a.lastSeenAt == b.lastSeenAt ==> a.issuedAt <= b.issuedAt)
    && (a.lastSeenAt == b.lastSeenAt && a.issuedAt == b.issuedAt ==> StrLe(a.sessionId, b.sessionId))
  }

  /** `V` may be given up when `keep` stays: as few others as the limit asks for, none more
      recently used than a survivor. */
  ghost predicate LeastRecent(s: State, cap: nat, subject: string, tenant: string, now: int, keep: string,
                              V: set<string>)
  {
    var A := ActiveIds(s, subject, tenant, now);
    && V <= A - {keep}
    && |V| == (if |A| > cap then |A| - cap else 0)
    && (forall v, o | v in V && o in A - {keep} - V :: SeenBefore(s.byId[v], s.byId[o]))
  }

  lemma KeptOnce(rs: seq<Record>, keep: string)
    requires Keyed(rs)
    ensures |Filter(rs, IsId(keep))| <= 1
  {
    FilterKeyed(rs, IsId(keep));
    FilterKeeps(rs, IsId(keep));
    var kept := Filter(rs, IsId(keep));
    forall i | 0 <= i < |kept| ensures kept[i].sessionId == keep {
      assert kept[i] in kept;
    }
    KeyedIds(kept);
    assert SetOf(IdsOf(kept)) <= {keep};
    DifferenceSize({keep}, SetOf(IdsOf(kept)));
  }

  /** While one session may stay, only others are given up, the first ones in key order. */
  lemma VictimsPrefix(s: State, cap: nat, subject: string, tenant: string, now: int, keep: string)
    requires WF(s) && cap >= 1
    ensures var others := Filter(ActiveFor(s, subject, tenant, now), NotId(keep));
            var V := Victims(s, cap, subject, tenant, now, keep);
            |V| <= |others| && V == IdsOf(others[..|V|])
  {
    var rs := ActiveFor(s, subject, tenant, now);
    ActiveForLists(s, subject, tenant, now);
    GiveUpOrderKeyed(rs, keep);
    KeptOnce(rs, keep);
  }

  lemma InOrder(a: Record, b: Record)
    requires RecordLe(a, b)
    ensures SeenBefore(a, b)
  {
  }

  lemma OthersListed(s: State, subject: string, tenant: string, now: int, keep: string)
    requires WF(s)
    ensures var others := Filter(ActiveFor(s, subject, tenant, now), NotId(keep));
            && Sorted(others, RecordLe)
            && (forall id | id in ActiveIds(s, subject, tenant, now) && id != keep ::
                  id in s.byId && s.byId[id] in others && s.byId[id].sessionId == id)
            && (forall r | r in others :: r.sessionId != keep && r.sessionId in s.byId && s.byId[r.sessionId] == r)
  {
    ActiveForLists(s, subject, tenant, now);
    FilterKeeps(ActiveFor(s, subject, tenant, now), NotId(keep));
    FilterSorted(ActiveFor(s, subject, tenant, now), NotId(keep));
    hide ActiveFor, RecordLe;
    forall id | id in ActiveIds(s, subject, tenant, now) && id != keep
      ensures s.byId[id] in Filter(ActiveFor(s, subject, tenant, now), NotId(keep))
    {
      assert IsActive(s, subject, tenant, now, s.byId[id]);
    }
  }

  /** With a cap of at least one the new session survives and the victims are the least
      recently seen others. */
  lemma VictimsAreLeastRecent(s: State, cap: nat, subject: string, tenant: string, now: int, keep: string)
    requires WF(s) && cap >= 1
    ensures LeastRecent(s, cap, subject, tenant, now, keep, SetOf(Victims(s, cap, subject, tenant, now, keep)))
  {
    hide RecordLe, SeenBefore, ActiveFor, ActiveIds, Victims, Sorted;
    var A := ActiveIds(s, subject, tenant, now);
    var V := Victims(s, cap, subject, tenant, now, keep);
    var others := Filter(ActiveFor(s, subject, tenant, now), NotId(keep));
    OthersListed(s, subject, tenant, now, keep);
    VictimsPrefix(s, cap, subject, tenant, now, keep);
    VictimsFacts(s, cap, subject, tenant, now, keep);
    forall v, o | v in V && o in A && o != keep && o !in V
      ensures v in s.byId && v != keep && SeenBefore(s.byId[v], s.byId[o])
    {
      PrefixBelowRest(others, V, v, s.byId[o]);
      InOrder(s.byId[v], s.byId[o]);
    }
    PrefixOmits(others, V, keep);
  }

  lemma PrefixOmits(others: seq<Record>, V: seq<string>, keep: string)
    requires |V| <= |others| && V == IdsOf(others[..|V|])
    requires forall r | r in others :: r.sessionId != keep
    ensures keep !in V
  {
    forall i | 0 <= i < |V| ensures V[i] != keep {
      assert others[i] in others && V[i] == others[i].sessionId;
    }
  }

  lemma PrefixBelowRest(others: seq<Record>, V: seq<string>, v: string, o: Record)
    requires Sorted(others, RecordLe)
    requires |V| <= |others| && V == IdsOf(others[..|V|])
    requires v in V && o.sessionId !in V && o in others
    ensures exists r :: r in others && r.sessionId == v && RecordLe(r, o)
  {
    var i :| 0 <= i < |V| && V[i] == v;
    var j :| 0 <= j < |others| && others[j] == o;
    assert others[i] in others && others[i].sessionId == v;
    assert forall k | 0 <= k < |V| :: V[k] in V && V[k] == others[k].sessionId;
    assert j >= |V|;
    assert RecordLe(others[i], others[j]);
  }

  /** That description admits one set of victims. */
  lemma LeastRecentUnique(s: State, cap: nat, subject: string, tenant: string, now: int, keep: string, V: set<string>,
                          W: set<string>)
    requires WF(s)
    requires LeastRecent(s, cap, subject, tenant, now, keep, V)
    requires LeastRecent(s, cap, subject, tenant, now, keep, W)
    ensures V == W
  {
    if V != W {
      assert V - W != {} && W - V != {} by {
        if V <= W { SubsetSameSize(V, W); }
        if W <= V { SubsetSameSize(W, V); }
      }
      var v :| v in V - W;
      var w :| w in W - V;
      SameKeySameId(s.byId[v], s.byId[w]);
      assert false;
    }
  }

  lemma SubsetSameSize(a: set<string>, b: set<string>)
    requires a <= b && |a| == |b|
    ensures a == b
  {
    assert b == a + (b - a);
  }

  // ---- the loop that computes it

  lemma {:induction false} FilterSwap(rs: seq<Record>, p: Record -> bool, q: Record -> bool)
    ensures Filter(Filter(rs, p), q) == Filter(Filter(rs, q), p)
  {
    if rs != [] {
      FilterSwap(rs[1..], p, q);
      FilterCons(rs[0], Filter(rs[1..], p), q);
      FilterCons(rs[0], Filter(rs[1..], q), p);
    }
  }

  lemma FilterCons(r: Record, rs: seq<Record>, p: Record -> bool)
    ensures Filter([r] + rs, p) == if p(r) then [r] + Filter(rs, p) else Filter(rs, p)
  {
    assert ([r] + rs)[1..] == rs;
  }

  lemma {:induction false} FilterAll(rs: seq<Record>, p: Record -> bool)
    requires forall r | r in rs :: p(r)
    ensures Filter(rs, p) == rs
  {
    if rs != [] {
      FilterAll(rs[1..], p);
    }
  }

  lemma {:induction false} FilterConcat(xs: seq<Record>, ys: seq<Record>, p: Record -> bool)
    ensures Filter(xs + ys, p) == Filter(xs, p) + Filter(ys, p)
  {
    if xs == [] {
      assert xs + ys == ys;
    } else {
      assert (xs + ys)[1..] == xs[1..] + ys;
      FilterConcat(xs[1..], ys, p);
    }
  }

  lemma FilterOutHead(rs: seq<Record>)
    requires Keyed(rs) && rs != []
    ensures Filter(rs, NotId(rs[0].sessionId)) == rs[1..]
  {
    FilterAll(rs[1..], NotId(rs[0].sessionId));
  }

  lemma GiveUpOrderWithout(rs: seq<Record>, keep: string, id: string)
    ensures GiveUpOrder(Filter(rs, NotId(id)), keep) == Filter(GiveUpOrder(rs, keep), NotId(id))
  {
    FilterSwap(rs, NotId(id), NotId(keep));
    FilterSwap(rs, NotId(id), IsId(keep));
    FilterConcat(Filter(rs, NotId(keep)), Filter(rs, IsId(keep)), NotId(id));
  }

  /** Revoking one active session drops it from the owner's list and disturbs nothing else. */
  lemma RevokeDropsFromActive(s: State, id: string, subject: string, tenant: string, now: int, reason: string, at: int,
                              h: Digest)
    requires Indexed(s) && id in ActiveIds(s, subject, tenant, now)
    ensures WF(Revoke(s, id, reason, at, h))
    ensures ActiveFor(Revoke(s, id, reason, at, h), subject, tenant, now)
         == Filter(ActiveFor(s, subject, tenant, now), NotId(id))
  {
    var t := Revoke(s, id, reason, at, h);
    RevokeWF(s, id, reason, at, h);
    ActiveForLists(s, subject, tenant, now);
    ActiveForLists(t, subject, tenant, now);
    var before := ActiveFor(s, subject, tenant, now);
    var after := ActiveFor(t, subject, tenant, now);
    var kept := Filter(before, NotId(id));
    FilterKeeps(before, NotId(id));
    FilterKeyed(before, NotId(id));
    FilterSorted(before, NotId(id));
    forall r ensures r in after <==> r in kept {
      assert IsActive(t, subject, tenant, now, r) <==> IsActive(s, subject, tenant, now, r) && r.sessionId != id;
    }
    KeyedSeparated(after);
    KeyedSeparated(kept);
    SameElementsPermute(after, kept);
    SortedUnique(after, kept, RecordLe);
  }

  /** The loop's choice: the first listed session other than the new one, or else the head. */
  function Victim(active: seq<Record>, keep: string): Record
    requires active != []
  {
    var others := Filter(active, NotId(keep));
    if others != [] then others[0] else active[0]
  }

  lemma VictimHeadsOrder(rs: seq<Record>, keep: string)
    requires Keyed(rs) && rs != []
    ensures GiveUpOrder(rs, keep) != [] && GiveUpOrder(rs, keep)[0] == Victim(rs, keep) && Victim(rs, keep) in rs
  {
    GiveUpOrderKeyed(rs, keep);
    FilterKeeps(rs, NotId(keep));
    if Filter(rs, NotId(keep)) == [] {
      forall r | r in rs ensures IsId(keep)(r) {
        assert !NotId(keep)(r);
      }
      FilterAll(rs, IsId(keep));
    }
  }

  /** The state with every due victim revoked: what the loop is heading for. */
  ghost function Settled(s: State, cap: nat, subject: string, tenant: string, now: int, keep: string, h: Digest): State
    requires WF(s)
  {
    RevokeAll(s, Victims(s, cap, subject, tenant, now, keep), LIMIT_REASON, now, h)
  }

  /** The loop stops when nobody is due. */
  lemma LoopEnd(s: State, cap: nat, subject: string, tenant: string, now: int, keep: string, h: Digest)
    requires WF(s) && |ActiveFor(s, subject, tenant, now)| <= cap
    ensures Settled(s, cap, subject, tenant, now, keep, h) == s
  {
  }

  /** One round of the loop revokes the first of the victims and leaves the rest due. */
  lemma VictimsRound(s: State, cap: nat, subject: string, tenant: string, now: int, keep: string, h: Digest, v: string,
                     t: State)
    requires Indexed(s) && |ActiveFor(s, subject, tenant, now)| > cap
    requires v == Victim(ActiveFor(s, subject, tenant, now), keep).sessionId
    requires t == Revoke(s, v, LIMIT_REASON, now, h)
    ensures Indexed(t)
    ensures |ActiveFor(t, subject, tenant, now)| == |ActiveFor(s, subject, tenant, now)| - 1
    ensures Victims(s, cap, subject, tenant, now, keep) == [v] + Victims(t, cap, subject, tenant, now, keep)
  {
    var rs := ActiveFor(s, subject, tenant, now);
    ActiveForLists(s, subject, tenant, now);
    VictimHeadsOrder(rs, keep);
    var order := GiveUpOrder(rs, keep);
    assert IsActive(s, subject, tenant, now, Victim(rs, keep));
    RevokeKeeps(s, v, LIMIT_REASON, now, h);
    RevokeDropsFromActive(s, v, subject, tenant, now, LIMIT_REASON, now, h);
    var after := ActiveFor(t, subject, tenant, now);
    assert GiveUpOrder(after, keep) == order[1..] && |after| == |rs| - 1 by {
      GiveUpOrderKeyed(rs, keep);
      FilterKeyed(rs, NotId(v));
      GiveUpOrderKeyed(after, keep);
      GiveUpOrderWithout(rs, keep, v);
      FilterOutHead(order);
    }
    TakeStep(order, |rs| - cap);
  }

  lemma LoopRound(s: State, cap: nat, subject: string, tenant: string, now: int, keep: string, h: Digest, v: string,
                  t: State)
    requires Indexed(s) && |ActiveFor(s, subject, tenant, now)| > cap
    requires v == Victim(ActiveFor(s, subject, tenant, now), keep).sessionId
    requires t == Revoke(s, v, LIMIT_REASON, now, h)
    ensures Indexed(t)
    ensures |ActiveFor(t, subject, tenant, now)| == |ActiveFor(s, subject, tenant, now)| - 1
    ensures Settled(t, cap, subject, tenant, now, keep, h) == Settled(s, cap, subject, tenant, now, keep, h)
  {
    VictimsRound(s, cap, subject, tenant, now, keep, h, v, t);
    var V := Victims(t, cap, subject, tenant, now, keep);
    assert ([v] + V)[1..] == V;
  }

  lemma TakeStep(order: seq<Record>, n: int)
    requires order != [] && n > 0
    ensures IdsOf(Take(order, n)) == [order[0].sessionId] + IdsOf(Take(order[1..], n - 1))
  {
  }
}
