/** The concurrency governor: global and per-tenant counters that must agree. */
module ConcurrencyGovernance {
  import opened Prelude

  type TenantKey = (string, string)

  datatype Limits = Limits(limits: map<string, int>, tenantShareMax: real) {
    predicate Valid() {
      limits != map[] && (forall w | w in limits :: limits[w] > 0) && 0.0 < tenantShareMax <= 1.0
    }

    /** What one tenant may hold of a workload. */
    function TenantCap(w: string): int
      requires w in limits
    {
      var share := (limits[w] as real * tenantShareMax).Floor;
      if share > 1 then share else 1
    }
  }

  datatype Lease = Lease(tenantId: string, workload: string)

  datatype Refusal = UnknownWorkload | CapacityExhausted | TenantShareExhausted | LeaseNotActive

  datatype Counts = Counts(active: map<string, int>, tenantActive: map<TenantKey, int>)

  function Held(s: Counts, tenant: string, w: string): int {
    if (tenant, w) in s.tenantActive then s.tenantActive[(tenant, w)] else 0
  }

  function Start(l: Limits): Counts {
    Counts(map w | w in l.limits :: 0, map[])
  }

  // ---- agreement of the counters

  /** The sum of the tenants' counters for workload `w`, over the keys `ks`. */
  ghost function SumOver(m: map<TenantKey, int>, w: string, ks: set<TenantKey>): int
    requires ks <= m.Keys
    decreases |ks|
  {
    if ks == {} then 0
    else
      var k :| k in ks;
      (if k.1 == w then m[k] else 0) + SumOver(m, w, ks - {k})
  }

  lemma {:induction false} SumPick(m: map<TenantKey, int>, w: string, ks: set<TenantKey>, k: TenantKey)
    requires ks <= m.Keys && k in ks
    ensures SumOver(m, w, ks) == (if k.1 == w then m[k] else 0) + SumOver(m, w, ks - {k})
    decreases |ks|
  {
    var j :| j in ks && SumOver(m, w, ks) == (if j.1 == w then m[j] else 0) + SumOver(m, w, ks - {j});
    if j != k {
      SumPick(m, w, ks - {j}, k);
      SumPick(m, w, ks - {k}, j);
      assert ks - {j} - {k} == ks - {k} - {j};
    }
  }

  lemma {:induction false} SumSame(m: map<TenantKey, int>, n: map<TenantKey, int>, w: string, ks: set<TenantKey>)
    requires ks <= m.Keys && ks <= n.Keys && forall k | k in ks :: m[k] == n[k]
    ensures SumOver(m, w, ks) == SumOver(n, w, ks)
    decreases |ks|
  {
    if ks != {} {
      var k :| k in ks;
      SumPick(m, w, ks, k);
      SumPick(n, w, ks, k);
      SumSame(m, n, w, ks - {k});
    }
  }

  /** Changing one counter changes its workload's sum by the same amount, and no other sum. */
  lemma SumUpdated(m: map<TenantKey, int>, w: string, k: TenantKey, v: int)
    ensures SumOver(m[k := v], w, m.Keys + {k})
         == SumOver(m, w, m.Keys) + if k.1 == w then v - (if k in m then m[k] else 0) else 0
  {
    var n := m[k := v];
    SumPick(n, w, m.Keys + {k}, k);
    assert m.Keys + {k} - {k} == m.Keys - {k};
    SumSame(m, n, w, m.Keys - {k});
    if k in m {
      SumPick(m, w, m.Keys, k);
    } else {
      assert m.Keys - {k} == m.Keys;
    }
  }

  ghost predicate Agree(s: Counts, l: Limits) {
    && s.active.Keys == l.limits.Keys
    && (forall k | k in s.tenantActive :: k.1 in l.limits && 0 <= s.tenantActive[k] <= l.TenantCap(k.1))
    && (forall w | w in l.limits :: s.active[w] == SumOver(s.tenantActive, w, s.tenantActive.Keys))
    && (forall w | w in l.limits :: 0 <= s.active[w] <= l.limits[w])
  }

  // ---- the two operations

  function AcquireVerdict(s: Counts, l: Limits, tenant: string, w: string): Result<Lease, Refusal>
    requires s.active.Keys == l.limits.Keys
  {
    if w !in l.limits then Err(UnknownWorkload)
    else if s.active[w] >= l.limits[w] then Err(CapacityExhausted)
    else if Held(s, tenant, w) >= l.TenantCap(w) then Err(TenantShareExhausted)
    else Ok(Lease(tenant, w))
  }

  function Acquired(s: Counts, l: Limits, tenant: string, w: string): Counts
    requires s.active.Keys == l.limits.Keys
  {
    if AcquireVerdict(s, l, tenant, w).Err? then s
    else Counts(s.active[w := s.active[w] + 1], s.tenantActive[(tenant, w) := Held(s, tenant, w) + 1])
  }

  /** A lease that is not held is refused; holding it implies that its workload is known. */
  function Released(s: Counts, lease: Lease): Counts {
    var k := (lease.tenantId, lease.workload);
    if Held(s, lease.tenantId, lease.workload) <= 0 || lease.workload !in s.active then s
    else Counts(s.active[lease.workload := s.active[lease.workload] - 1], s.tenantActive[k := s.tenantActive[k] - 1])
  }

  lemma AgreeKeys(s: Counts, l: Limits)
    requires Agree(s, l)
    ensures s.active.Keys == l.limits.Keys
  {
  }

  lemma AcquireKeeps(s: Counts, l: Limits, tenant: string, w: string)
    requires l.Valid() && Agree(s, l)
    ensures Agree(Acquired(s, l, tenant, w), l)
  {
    var t := Acquired(s, l, tenant, w);
    if t != s {
      var k := (tenant, w);
      assert t.tenantActive.Keys == s.tenantActive.Keys + {k};
      forall v | v in l.limits ensures t.active[v] == SumOver(t.tenantActive, v, t.tenantActive.Keys) {
        SumUpdated(s.tenantActive, v, k, Held(s, tenant, w) + 1);
      }
    }
  }

  /** One tenant's counter is part of its workload's sum. */
  lemma HeldWithinActive(s: Counts, l: Limits, tenant: string, w: string)
    requires Agree(s, l) && w in l.limits
    ensures Held(s, tenant, w) <= s.active[w]
  {
    var k := (tenant, w);
    if k in s.tenantActive {
      SumPick(s.tenantActive, w, s.tenantActive.Keys, k);
      SumNonNegative(s.tenantActive, w, s.tenantActive.Keys - {k});
    }
  }

  lemma {:induction false} SumNonNegative(m: map<TenantKey, int>, w: string, ks: set<TenantKey>)
    requires ks <= m.Keys && forall k | k in m :: m[k] >= 0
    ensures SumOver(m, w, ks) >= 0
    decreases |ks|
  {
    if ks != {} {
      var k :| k in ks;
      SumPick(m, w, ks, k);
      SumNonNegative(m, w, ks - {k});
    }
  }

  lemma ReleaseKeeps(s: Counts, l: Limits, lease: Lease)
    requires l.Valid() && Agree(s, l)
    ensures Agree(Released(s, lease), l)
    ensures Released(s, lease) == s <==> Held(s, lease.tenantId, lease.workload) <= 0
  {
    var t := Released(s, lease);
    var k := (lease.tenantId, lease.workload);
    if Held(s, k.0, k.1) > 0 {
      HeldWithinActive(s, l, k.0, k.1);
      assert t.tenantActive[k] == s.tenantActive[k] - 1;
      assert t.tenantActive.Keys == s.tenantActive.Keys + {k};
      forall v | v in l.limits ensures t.active[v] == SumOver(t.tenantActive, v, t.tenantActive.Keys) {
        SumUpdated(s.tenantActive, v, k, s.tenantActive[k] - 1);
      }
    }
  }

  lemma HeldIsKnown(s: Counts, l: Limits, lease: Lease)
    requires Agree(s, l)
    ensures Held(s, lease.tenantId, lease.workload) > 0 ==> lease.workload in s.active
  {
  }

  class ConcurrencyGovernor {
    const limits: Limits
    var active: map<string, int>
    var tenantActive: map<TenantKey, int>

    ghost function View(): Counts
      reads this
    {
      Counts(active, tenantActive)
    }

    ghost predicate Valid()
      reads this
    {
      limits.Valid() && Agree(View(), limits)
    }

    constructor (limits: Limits)
      requires limits.Valid()
      ensures Valid() && this.limits == limits && View() == Start(limits)
    {
      this.limits := limits;
      active := map w | w in limits.limits :: 0;
      tenantActive := map[];
    }

    /** Limits that are not admissible are refused with null. */
    static method Create(limits: Limits) returns (g: ConcurrencyGovernor?)
      ensures g != null <==> limits.limits != map[] && (forall w | w in limits.limits :: limits.limits[w] >= 1)
                             && 0.0 < limits.tenantShareMax <= 1.0
      ensures g != null ==> fresh(g) && g.Valid() && g.limits == limits && g.View() == Start(limits)
    {
      if !limits.Valid() {
        return null;
      }
      g := new ConcurrencyGovernor(limits);
    }

    method Acquire(tenant: string, workload: string) returns (r: Result<Lease, Refusal>)
      requires Valid()
      modifies this
      ensures Valid()
      ensures r == AcquireVerdict(old(View()), limits, tenant, workload)
      ensures View() == Acquired(old(View()), limits, tenant, workload)
    {
      hide SumOver, Agree;
      AcquireKeeps(View(), limits, tenant, workload);
      AgreeKeys(View(), limits);
      if workload !in limits.limits {
        return Err(UnknownWorkload);
      }
      if active[workload] >= limits.limits[workload] {
        return Err(CapacityExhausted);
      }
      var held := if (tenant, workload) in tenantActive then tenantActive[(tenant, workload)] else 0;
      if held >= limits.TenantCap(workload) {
        return Err(TenantShareExhausted);
      }
      active := active[workload := active[workload] + 1];
      tenantActive := tenantActive[(tenant, workload) := held + 1];
      return Ok(Lease(tenant, workload));
    }

    method Release(lease: Lease) returns (r: Result<(), Refusal>)
      requires Valid()
      modifies this
      ensures Valid()
      ensures r == if Held(old(View()), lease.tenantId, lease.workload) > 0 then Ok(()) else Err(LeaseNotActive)
      ensures View() == Released(old(View()), lease)
    {
      hide SumOver, Agree;
      ReleaseKeeps(View(), limits, lease);
      HeldIsKnown(View(), limits, lease);
      var k := (lease.tenantId, lease.workload);
      var held := if k in tenantActive then tenantActive[k] else 0;
      if held <= 0 {
        return Err(LeaseNotActive);
      }
      tenantActive := tenantActive[k := held - 1];
      active := active[lease.workload := active[lease.workload] - 1];
      return Ok(());
    }
  }

  // ---- whole runs

  datatype Op = Take(tenant: string, workload: string) | Give(lease: Lease)

  function Step(s: Counts, l: Limits, op: Op): Counts
    requires s.active.Keys == l.limits.Keys
  {
    match op
    case Take(t, w) => Acquired(s, l, t, w)
    case Give(lease) => Released(s, lease)
  }

  ghost function Run(s: Counts, l: Limits, ops: seq<Op>): (t: Counts)
    requires s.active.Keys == l.limits.Keys
    ensures t.active.Keys == l.limits.Keys
    decreases |ops|
  {
    if ops == [] then s else Run(Step(s, l, ops[0]), l, ops[1..])
  }

  /** What one operation adds to workload `w`: one for a successful acquire, minus one for a
      successful release; of one tenant only, when one is given. */
  function Delta(s: Counts, l: Limits, op: Op, tenant: Option<string>, w: string): int
    requires s.active.Keys == l.limits.Keys
  {
    match op
    case Take(t, v) =>
      if v == w && (tenant == None || tenant == Some(t)) && AcquireVerdict(s, l, t, v).Ok? then 1 else 0
    case Give(lease) =>
      if lease.workload == w && (tenant == None || tenant == Some(lease.tenantId)) && Held(s, lease.tenantId, w) > 0
        then -1 else 0
  }

  ghost function Net(s: Counts, l: Limits, ops: seq<Op>, tenant: Option<string>, w: string): int
    requires s.active.Keys == l.limits.Keys
    decreases |ops|
  {
    if ops == [] then 0 else Delta(s, l, ops[0], tenant, w) + Net(Step(s, l, ops[0]), l, ops[1..], tenant, w)
  }

  lemma StepCounts(s: Counts, l: Limits, op: Op, tenant: string, w: string)
    requires s.active.Keys == l.limits.Keys && w in l.limits
    ensures Step(s, l, op).active[w] == s.active[w] + Delta(s, l, op, None, w)
    ensures Held(Step(s, l, op), tenant, w) == Held(s, tenant, w) + Delta(s, l, op, Some(tenant), w)
  {
  }

  lemma StepKeeps(s: Counts, l: Limits, op: Op)
    requires l.Valid() && Agree(s, l)
    ensures Agree(Step(s, l, op), l)
  {
    match op {
      case Take(t, w) => AcquireKeeps(s, l, t, w);
      case Give(lease) => ReleaseKeeps(s, l, lease);
    }
  }

  /** Over every run: the counters agree and respect the limits, the workload counter is
      the successful acquires minus the successful releases, and so is each tenant's. */
  lemma {:induction false} RunCounts(s: Counts, l: Limits, ops: seq<Op>, tenant: string, w: string)
    requires l.Valid() && Agree(s, l) && w in l.limits
    ensures Agree(Run(s, l, ops), l)
    ensures Run(s, l, ops).active[w] == s.active[w] + Net(s, l, ops, None, w)
    ensures Held(Run(s, l, ops), tenant, w) == Held(s, tenant, w) + Net(s, l, ops, Some(tenant), w)
    decreases |ops|
  {
    if ops != [] {
      hide Delta, Step, Held, SumOver;
      StepKeeps(s, l, ops[0]);
      StepCounts(s, l, ops[0], tenant, w);
      RunCounts(Step(s, l, ops[0]), l, ops[1..], tenant, w);
    }
  }

  /** From the start, for every run: no workload exceeds its limit and no tenant its cap. */
  lemma LimitsHold(l: Limits, ops: seq<Op>, tenant: string, w: string)
    requires l.Valid() && w in l.limits
    ensures var t := Run(Start(l), l, ops);
            && 0 <= t.active[w] == Net(Start(l), l, ops, None, w) <= l.limits[w]
            && 0 <= Held(t, tenant, w) == Net(Start(l), l, ops, Some(tenant), w) <= l.TenantCap(w)
            && Held(t, tenant, w) <= t.active[w]
  {
    assert Agree(Start(l), l);
    RunCounts(Start(l), l, ops, tenant, w);
    HeldWithinActive(Run(Start(l), l, ops), l, tenant, w);
  }

  /** A tenant may hold as many leases of a workload as fit into its share of the limit,
      and one in any case. */
  lemma TenantCapExactly(l: Limits, w: string, n: int)
    requires w in l.limits
    ensures n <= l.TenantCap(w) <==> n <= 1 || n as real <= l.limits[w] as real * l.tenantShareMax
  {
  }

  /** An acquire on a known workload is refused exactly at one of the two limits. */
  lemma RefusedOnlyAtLimits(s: Counts, l: Limits, tenant: string, w: string)
    requires l.Valid() && Agree(s, l) && w in l.limits
    ensures AcquireVerdict(s, l, tenant, w).Err?
       <==> s.active[w] == l.limits[w] || Held(s, tenant, w) == l.TenantCap(w)
  {
  }

  /** After every run from the start, an acquire is answered by how many leases are out: of
      the workload in all, and of the tenant. */
  lemma AcquireTells(l: Limits, ops: seq<Op>, tenant: string, w: string)
    requires l.Valid()
    ensures var out, own := Net(Start(l), l, ops, None, w), Net(Start(l), l, ops, Some(tenant), w);
            var next := own + 1;
            AcquireVerdict(Run(Start(l), l, ops), l, tenant, w)
            == (if w !in l.limits then Err(UnknownWorkload)
                else if out == l.limits[w] then Err(CapacityExhausted)
                else if next > 1 && next as real > l.limits[w] as real * l.tenantShareMax then Err(TenantShareExhausted)
                else Ok(Lease(tenant, w)))
  {
    hide Net, Agree;
    assert Start(l).active.Keys == l.limits.Keys;
    if w in l.limits {
      LimitsHold(l, ops, tenant, w);
      TenantCapExactly(l, w, Net(Start(l), l, ops, Some(tenant), w) + 1);
    }
  }

  /** A lease that was handed out is out: giving it back undoes the acquire, for every
      other question that is asked afterwards. */
  lemma GiveUndoesTake(s: Counts, l: Limits, tenant: string, w: string, other: string, v: string)
    requires l.Valid() && Agree(s, l) && AcquireVerdict(s, l, tenant, w).Ok? && v in l.limits
    ensures var t := Released(Acquired(s, l, tenant, w), Lease(tenant, w));
            t.active == s.active && Held(t, other, v) == Held(s, other, v)
  {
  }
}
