/** Nearest-rank percentiles and stage summaries, over exact reals. */
module LatencyStats {
  import opened Ordering
  import opened Prelude
  import opened RealArithmetic

  datatype StatsError = EmptyValues | PercentileOutOfRange | ErrorsOutOfRange

  predicate RealLe(a: real, b: real) {
    a <= b
  }

  /** `p` percent of `n`. */
  function Quota(n: nat, p: real): real {
    p / 100.0 * n as real
  }

  function Rank(n: nat, p: real): int {
    var r := Ceil(Quota(n, p));
    if r > 1 then r else 1
  }

  lemma RankInRange(n: nat, p: real)
    requires n > 0 && 0.0 <= p <= 100.0
    ensures 1 <= Rank(n, p) <= n
    ensures Quota(n, p) <= Rank(n, p) as real
    ensures Rank(n, p) > 1 ==> (Rank(n, p) - 1) as real < Quota(n, p)
  {
    QuotaMonotone(n, p, 100.0);
    QuotaMonotone(n, 0.0, p);
    CeilMonotone(Quota(n, p), n as real);
  }

  lemma QuotaMonotone(n: nat, p: real, q: real)
    requires p <= q
    ensures Quota(n, p) <= Quota(n, q)
    ensures Quota(n, 100.0) == n as real && Quota(n, 0.0) == 0.0
  {
    assert (q / 100.0 - p / 100.0) * n as real >= 0.0;
  }

  lemma CeilMonotone(x: real, y: real)
    requires x <= y
    ensures Ceil(x) <= Ceil(y)
    ensures (Ceil(x) - 1) as real < x <= Ceil(x) as real
  {
  }

  function Percentile(values: seq<real>, p: real): Result<real, StatsError> {
    if values == [] then Err(EmptyValues)
    else if !(0.0 <= p <= 100.0) then Err(PercentileOutOfRange)
    else
      SortPermutes(values, RealLe);
      RankInRange(|values|, p);
      Ok(SortBy(values, RealLe)[Rank(|values|, p) - 1])
  }

  datatype StageSummary = StageSummary(
    name: string, count: nat, p50: real, p95: real, p99: real, max: real, errorRate: real)

  function Greatest(values: seq<real>): real
    requires values != []
  {
    if |values| == 1 then values[0]
    else
      var rest := Greatest(values[1..]);
      if values[0] >= rest then values[0] else rest
  }

  function SummarizeStage(name: string, latencies: seq<real>, errors: int): Result<StageSummary, StatsError> {
    if latencies == [] then Err(EmptyValues)
    else if errors < 0 || errors > |latencies| then Err(ErrorsOutOfRange)
    else
      Ok(StageSummary(name, |latencies|, Percentile(latencies, 50.0).value, Percentile(latencies, 95.0).value,
                      Percentile(latencies, 99.0).value, Greatest(latencies), errors as real / |latencies| as real))
  }

  // ---- counting

  /** How many values are at most `v`. */
  function AtMost(values: seq<real>, v: real): nat {
    if values == [] then 0 else (if values[0] <= v then 1 else 0) + AtMost(values[1..], v)
  }

  lemma {:induction false} AtMostInserted(x: real, xs: seq<real>, v: real)
    ensures AtMost(Insert(x, xs, RealLe), v) == (if x <= v then 1 else 0) + AtMost(xs, v)
  {
    if xs != [] && x > xs[0] {
      AtMostInserted(x, xs[1..], v);
    }
  }

  lemma {:induction false} AtMostSorted(xs: seq<real>, v: real)
    ensures AtMost(SortBy(xs, RealLe), v) == AtMost(xs, v)
  {
    if xs != [] {
      AtMostSorted(xs[1..], v);
      AtMostInserted(xs[0], SortBy(xs[1..], RealLe), v);
    }
  }

  /** In ascending order the first `k + 1` values are at most the `k`-th, and values below
      it have at most `k` values at or below them. */
  lemma {:induction false} SortedCounts(xs: seq<real>, k: nat, u: real)
    requires Sorted(xs, RealLe) && k < |xs|
    ensures AtMost(xs, xs[k]) >= k + 1
    ensures u < xs[k] ==> AtMost(xs, u) <= k
    decreases |xs|
  {
    if k > 0 {
      SortedCounts(xs[1..], k - 1, u);
    } else if u < xs[0] {
      NoneBelow(xs, u);
    }
  }

  lemma {:induction false} NoneBelow(xs: seq<real>, u: real)
    requires forall i | 0 <= i < |xs| :: u < xs[i]
    ensures AtMost(xs, u) == 0
  {
    if xs != [] {
      NoneBelow(xs[1..], u);
    }
  }

  lemma {:induction false} MembersCount(xs: seq<real>, v: real)
    requires v in xs
    ensures AtMost(xs, v) >= 1
  {
    if xs[0] != v {
      assert v in xs[1..];
      MembersCount(xs[1..], v);
    }
  }

  lemma RealLeIsAnOrder(xs: seq<real>)
    ensures Total(RealLe) && Transitive(RealLe) && Separates(RealLe, xs)
  {
  }

  // ---- what a percentile is

  /** At least `p` percent of the values are at most `v`. */
  ghost predicate Covers(values: seq<real>, p: real, v: real) {
    AtMost(values, v) as real >= Quota(|values|, p)
  }

  /** The percentile is the least of the values that covers `p` percent; for 0 every value
      does and it is the minimum. */
  lemma PercentileIsLeastCovering(values: seq<real>, p: real)
    requires values != [] && 0.0 <= p <= 100.0
    ensures var v := Percentile(values, p).value;
            && v in values && Covers(values, p, v)
            && (forall u | u in values && Covers(values, p, u) :: v <= u)
  {
    hide Quota, Sorted, Ceil;
    var s, n := SortBy(values, RealLe), |values|;
    SortPermutes(values, RealLe);
    RealLeIsAnOrder(values);
    SortSorts(values, RealLe);
    RankInRange(n, p);
    var k := Rank(n, p) - 1;
    var v := s[k];
    assert v in s;
    AtMostSorted(values, v);
    SortedCounts(s, k, v);
    forall u | u in values && Covers(values, p, u) ensures v <= u {
      AtMostSorted(values, u);
      SortedCounts(s, k, u);
      MembersCount(values, u);
    }
  }

  /** It depends on the values as a multiset only. */
  lemma PercentileIgnoresOrder(xs: seq<real>, ys: seq<real>, p: real)
    requires multiset(xs) == multiset(ys)
    ensures Percentile(xs, p) == Percentile(ys, p)
  {
    SameMultiset(xs, ys);
    RealLeIsAnOrder(xs);
    SortDependsOnContents(xs, ys, RealLe);
  }

  lemma RankMonotone(n: nat, p: real, q: real)
    requires p <= q
    ensures Rank(n, p) <= Rank(n, q)
  {
    QuotaMonotone(n, p, q);
    CeilMonotone(Quota(n, p), Quota(n, q));
  }

  /** A higher percentage never gives a lower percentile. */
  lemma PercentileMonotone(values: seq<real>, p: real, q: real)
    requires values != [] && 0.0 <= p <= q <= 100.0
    ensures Percentile(values, p).value <= Percentile(values, q).value
  {
    SortPermutes(values, RealLe);
    RealLeIsAnOrder(values);
    SortSorts(values, RealLe);
    RankInRange(|values|, p);
    RankInRange(|values|, q);
    RankMonotone(|values|, p, q);
    var s := SortBy(values, RealLe);
    assert Rank(|values|, p) < Rank(|values|, q) ==> RealLe(s[Rank(|values|, p) - 1], s[Rank(|values|, q) - 1]);
  }

  lemma {:induction false} GreatestIsMaximum(values: seq<real>)
    requires values != []
    ensures Greatest(values) in values && forall v | v in values :: v <= Greatest(values)
  {
    if |values| > 1 {
      GreatestIsMaximum(values[1..]);
      assert values == [values[0]] + values[1..];
    }
  }

  /** In every summary p50 <= p95 <= p99 <= max, and the error rate is a proportion. */
  lemma SummaryOrdered(name: string, latencies: seq<real>, errors: int)
    requires SummarizeStage(name, latencies, errors).Ok?
    ensures var s := SummarizeStage(name, latencies, errors).value;
            s.p50 <= s.p95 <= s.p99 <= s.max && s.max in latencies && 0.0 <= s.errorRate <= 1.0
  {
    hide Percentile, Covers, Greatest;
    PercentileMonotone(latencies, 50.0, 95.0);
    PercentileMonotone(latencies, 95.0, 99.0);
    PercentileIsLeastCovering(latencies, 99.0);
    GreatestIsMaximum(latencies);
    Proportion(errors, |latencies|);
  }

  /** What a summary says of its latencies, and when there is none. */
  lemma SummaryTells(name: string, latencies: seq<real>, errors: int)
    ensures var r := SummarizeStage(name, latencies, errors);
            && (r == Err(EmptyValues) <==> |latencies| == 0)
            && (r == Err(ErrorsOutOfRange) <==> |latencies| > 0 && !(0 <= errors <= |latencies|))
            && (|latencies| > 0 && 0 <= errors <= |latencies| ==>
                  && r.Ok? && r.value.name == name && r.value.count == |latencies|
                  && Percentile(latencies, 50.0) == Ok(r.value.p50) && Percentile(latencies, 95.0) == Ok(r.value.p95)
                  && Percentile(latencies, 99.0) == Ok(r.value.p99)
                  && r.value.max in latencies && (forall v | v in latencies :: v <= r.value.max)
                  && r.value.errorRate * r.value.count as real == errors as real)
  {
    hide Percentile, Greatest;
    if |latencies| > 0 {
      GreatestIsMaximum(latencies);
      PercentileAnswers(latencies, 50.0);
      PercentileAnswers(latencies, 95.0);
      PercentileAnswers(latencies, 99.0);
      QuotientTimes(errors as real, |latencies| as real);
    }
  }

  /** Which percentages are answered. */
  lemma PercentileAnswers(values: seq<real>, p: real)
    ensures Percentile(values, p) == Err(EmptyValues) <==> |values| == 0
    ensures Percentile(values, p).Ok? <==> |values| > 0 && 0.0 <= p <= 100.0
    ensures Percentile(values, p) == Err(PercentileOutOfRange) <==> |values| > 0 && !(0.0 <= p <= 100.0)
  {
  }

  lemma Proportion(a: int, b: int)
    requires 0 <= a <= b && b > 0
    ensures 0.0 <= a as real / b as real <= 1.0
  {
  }
}
