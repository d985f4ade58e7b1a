/** The token-bucket limiter, one bucket per key, with exact real arithmetic. */
module RateLimit {
  import opened Prelude
  import opened RealArithmetic

  // ---- as values

  datatype Level = Level(tokens: real, updatedAt: real)

  datatype Limits = Limits(capacity: int, refillPerSecond: real) {
    predicate Valid() {
      capacity > 0 && refillPerSecond > 0.0
    }
  }

  datatype Decision = Decision(allowed: bool, remaining: int, retryAfterSeconds: int)

  datatype Refusal = InvalidCost

  type Buckets = map<string, Level>

  predicate CostOk(l: Limits, cost: int) {
    0 < cost <= l.capacity
  }

  /** The bucket that a check finds: a full one for a new key. */
  function Found(m: Buckets, l: Limits, key: string, now: real): Level {
    if key in m then m[key] else Level(l.capacity as real, now)
  }

  function Elapsed(b: Level, now: real): real {
    Max(0.0, now - b.updatedAt)
  }

  function Gain(l: Limits, elapsed: real): real {
    elapsed * l.refillPerSecond
  }

  function Refilled(l: Limits, b: Level, now: real): real {
    Min(l.capacity as real, b.tokens + Gain(l, Elapsed(b, now)))
  }

  /** The hint for a wait of `wait` seconds: at least one, rounded up as the program does. */
  function Hint(wait: real): int {
    var whole := (wait + 0.999999).Floor;
    if whole > 1 then whole else 1
  }

  function Wait(l: Limits, deficit: real): real
    requires l.Valid()
  {
    deficit / l.refillPerSecond
  }

  function RetryAfter(l: Limits, deficit: real): int
    requires l.Valid()
  {
    Hint(Wait(l, deficit))
  }

  function Decide(l: Limits, available: real, cost: int): Decision
    requires l.Valid()
  {
    if available >= cost as real then Decision(true, (available - cost as real).Floor, 0)
    else Decision(false, available.Floor, RetryAfter(l, cost as real - available))
  }

  function Verdict(m: Buckets, l: Limits, key: string, cost: int, now: real): Decision
    requires l.Valid()
  {
    Decide(l, Refilled(l, Found(m, l, key, now), now), cost)
  }

  /** The buckets after a check with an accepted cost. */
  function After(m: Buckets, l: Limits, key: string, cost: int, now: real): Buckets
    requires l.Valid()
  {
    var available := Refilled(l, Found(m, l, key, now), now);
    m[key := Level(if Decide(l, available, cost).allowed then available - cost as real else available, now)]
  }

  // ---- the program's own form

  class Bucket {
    var tokens: real
    var updatedAt: real

    constructor (tokens: real, updatedAt: real)
      ensures this.tokens == tokens && this.updatedAt == updatedAt
    {
      this.tokens, this.updatedAt := tokens, updatedAt;
    }

    function View(): Level
      reads this
    {
      Level(tokens, updatedAt)
    }
  }

  class TokenBucketLimiter {
    const limits: Limits
    var buckets: map<string, Bucket>

    ghost predicate Valid()
      reads this
    {
      limits.Valid() && forall k, j | k in buckets && j in buckets && k != j :: buckets[k] != buckets[j]
    }

    ghost function View(): Buckets
      reads this, buckets.Values
    {
      map k | k in buckets :: buckets[k].View()
    }

    constructor (limits: Limits)
      requires limits.Valid()
      ensures Valid() && this.limits == limits && View() == map[]
    {
      this.limits := limits;
      buckets := map[];
    }

    /** Limits that are not positive are refused with null. */
    static method Create(limits: Limits) returns (t: TokenBucketLimiter?)
      ensures t != null <==> limits.capacity >= 1 && limits.refillPerSecond > 0.0
      ensures t != null ==> fresh(t) && t.Valid() && t.limits == limits && t.View() == map[]
    {
      if !limits.Valid() {
        return null;
      }
      t := new TokenBucketLimiter(limits);
    }

    method Check(key: string, cost: int, now: real) returns (r: Result<Decision, Refusal>)
      requires Valid()
      modifies this, buckets.Values
      ensures Valid() && fresh(buckets.Values - old(buckets.Values))
      ensures r == if CostOk(limits, cost) then Ok(Verdict(old(View()), limits, key, cost, now)) else Err(InvalidCost)
      ensures View() == if CostOk(limits, cost) then After(old(View()), limits, key, cost, now) else old(View())
    {
      hide Gain, RetryAfter, Decide, Refilled;
      if cost <= 0 || cost > limits.capacity {
        return Err(InvalidCost);
      }
      var bucket := BucketFor(key, now);
      ghost var found := View();
      assert bucket.View() == found[key];
      var decision := Spend(bucket, cost, now);
      assert View() == found[key := bucket.View()];
      return Ok(decision);
    }

    /** Refills the bucket and takes the cost out if it is covered. */
    method Spend(bucket: Bucket, cost: int, now: real) returns (d: Decision)
      requires limits.Valid()
      modifies bucket
      ensures var available := Refilled(limits, old(bucket.View()), now);
              && d == Decide(limits, available, cost)
              && bucket.View() == Level(if d.allowed then available - cost as real else available, now)
    {
      hide Gain, RetryAfter;
      var elapsed := Max(0.0, now - bucket.updatedAt);
      bucket.tokens := Min(limits.capacity as real, bucket.tokens + Gain(limits, elapsed));
      bucket.updatedAt := now;
      if bucket.tokens >= cost as real {
        bucket.tokens := bucket.tokens - cost as real;
        return Decision(true, bucket.tokens.Floor, 0);
      }
      var deficit := cost as real - bucket.tokens;
      return Decision(false, bucket.tokens.Floor, RetryAfter(limits, deficit));
    }

    /** The bucket of a key; a new key gets a full one. */
    method BucketFor(key: string, now: real) returns (bucket: Bucket)
      requires Valid()
      modifies this
      ensures Valid() && fresh(buckets.Values - old(buckets.Values))
      ensures key in buckets && buckets[key] == bucket
      ensures View() == old(View())[key := Found(old(View()), limits, key, now)]
    {
      if key in buckets {
        return buckets[key];
      }
      bucket := new Bucket(limits.capacity as real, now);
      buckets := buckets[key := bucket];
    }
  }

  // ---- bounds over runs

  ghost predicate WithinCapacity(m: Buckets, l: Limits) {
    forall k | k in m :: 0.0 <= m[k].tokens <= l.capacity as real
  }

  datatype Request = Request(key: string, cost: int, now: real)

  function Next(m: Buckets, l: Limits, q: Request): Buckets
    requires l.Valid()
  {
    if CostOk(l, q.cost) then After(m, l, q.key, q.cost, q.now) else m
  }

  function Run(m: Buckets, l: Limits, qs: seq<Request>): Buckets
    requires l.Valid()
    decreases |qs|
  {
    if qs == [] then m else Run(Next(m, l, qs[0]), l, qs[1..])
  }

  /** The cost admitted for `key` during a run. */
  function Admitted(m: Buckets, l: Limits, qs: seq<Request>, key: string): int
    requires l.Valid()
    decreases |qs|
  {
    if qs == [] then 0
    else
      (if qs[0].key == key && CostOk(l, qs[0].cost) && Verdict(m, l, key, qs[0].cost, qs[0].now).allowed then qs[0].cost
       else 0)
      + Admitted(Next(m, l, qs[0]), l, qs[1..], key)
  }

  /** How far the clock moved forward between the checks on `key`, backward moves not counted. */
  function Forward(m: Buckets, l: Limits, qs: seq<Request>, key: string): real
    requires l.Valid()
    decreases |qs|
  {
    if qs == [] then 0.0
    else
      (if qs[0].key == key && CostOk(l, qs[0].cost) then Elapsed(Found(m, l, key, qs[0].now), qs[0].now) else 0.0)
      + Forward(Next(m, l, qs[0]), l, qs[1..], key)
  }

  function Stock(m: Buckets, l: Limits, key: string): real {
    if key in m then m[key].tokens else l.capacity as real
  }

  /** Tokens never leave [0, capacity]. */
  lemma {:induction false} RunWithinCapacity(m: Buckets, l: Limits, qs: seq<Request>)
    requires l.Valid() && WithinCapacity(m, l)
    ensures WithinCapacity(Run(m, l, qs), l)
    decreases |qs|
  {
    if qs != [] {
      CheckWithinCapacity(m, l, qs[0]);
      RunWithinCapacity(Next(m, l, qs[0]), l, qs[1..]);
    }
  }

  lemma CheckWithinCapacity(m: Buckets, l: Limits, q: Request)
    requires l.Valid() && WithinCapacity(m, l)
    ensures WithinCapacity(Next(m, l, q), l)
  {
    hide Gain, Wait, Hint;
    GainNonNegative(l, Elapsed(Found(m, l, q.key, q.now), q.now));
  }

  lemma GainNonNegative(l: Limits, elapsed: real)
    requires l.Valid() && elapsed >= 0.0
    ensures Gain(l, elapsed) >= 0.0
  {
  }

  /** The refills that checks on `key` collect, before any is cut off at the capacity. */
  function Gained(m: Buckets, l: Limits, qs: seq<Request>, key: string): real
    requires l.Valid()
    decreases |qs|
  {
    if qs == [] then 0.0
    else
      (if qs[0].key == key && CostOk(l, qs[0].cost) then Gain(l, Elapsed(Found(m, l, key, qs[0].now), qs[0].now))
       else 0.0)
      + Gained(Next(m, l, qs[0]), l, qs[1..], key)
  }

  lemma GainAdds(l: Limits, a: real, b: real)
    ensures Gain(l, a + b) == Gain(l, a) + Gain(l, b) && Gain(l, 0.0) == 0.0
  {
  }

  lemma {:induction false} GainedIsForward(m: Buckets, l: Limits, qs: seq<Request>, key: string)
    requires l.Valid()
    ensures Gained(m, l, qs, key) == Gain(l, Forward(m, l, qs, key))
    decreases |qs|
  {
    hide Gain, Next;
    GainAdds(l, 0.0, 0.0);
    if qs != [] {
      var rest := Forward(Next(m, l, qs[0]), l, qs[1..], key);
      GainedIsForward(Next(m, l, qs[0]), l, qs[1..], key);
      GainAdds(l, Elapsed(Found(m, l, key, qs[0].now), qs[0].now), rest);
    }
  }

  /** What the checks on `key` refill beyond the capacity, which is cut off. */
  function Overflow(m: Buckets, l: Limits, qs: seq<Request>, key: string): real
    requires l.Valid()
    decreases |qs|
  {
    if qs == [] then 0.0
    else
      (if qs[0].key == key && 0 < qs[0].cost <= l.capacity
       then Max(0.0, Stock(m, l, key) + Gain(l, Elapsed(Found(m, l, key, qs[0].now), qs[0].now)) - l.capacity as real)
       else 0.0)
      + Overflow(Next(m, l, qs[0]), l, qs[1..], key)
  }

  /** One check moves tokens from the key's stock to the caller and nowhere else, except for
      what exceeds the capacity; other keys keep theirs. */
  lemma CheckConserves(m: Buckets, l: Limits, q: Request, key: string)
    requires l.Valid()
    ensures var gained := Gain(l, Max(0.0, q.now - (if key in m then m[key].updatedAt else q.now)));
            var before := Stock(m, l, key) + gained;
            var found := if before <= l.capacity as real then before else l.capacity as real;
            if q.key == key && 0 < q.cost <= l.capacity then
              && (Verdict(m, l, key, q.cost, q.now).allowed <==> q.cost as real <= found)
              && Stock(Next(m, l, q), l, key) == found - (if q.cost as real <= found then q.cost as real else 0.0)
              && key in Next(m, l, q) && Next(m, l, q)[key].updatedAt == q.now
            else
              Stock(Next(m, l, q), l, key) == Stock(m, l, key)
  {
    hide Gain, Wait, Hint;
    GainAdds(l, 0.0, 0.0);
  }

  /** Conservation: what is admitted for a key, what is left at the end and what was cut off at
      the capacity is exactly what was there before and was refilled since. */
  lemma {:induction false} AdmittedPlusStock(m: Buckets, l: Limits, qs: seq<Request>, key: string)
    requires l.Valid()
    ensures Admitted(m, l, qs, key) as real + Stock(Run(m, l, qs), l, key) + Overflow(m, l, qs, key)
         == Stock(m, l, key) + Gained(m, l, qs, key)
    decreases |qs|
  {
    hide Gain, Wait, Hint;
    if qs != [] {
      CheckConserves(m, l, qs[0], key);
      AdmittedPlusStock(Next(m, l, qs[0]), l, qs[1..], key);
    }
  }

  lemma {:induction false} OverflowNonNegative(m: Buckets, l: Limits, qs: seq<Request>, key: string)
    requires l.Valid()
    ensures Overflow(m, l, qs, key) >= 0.0
    decreases |qs|
  {
    hide Gain, Next, Found;
    if qs != [] {
      OverflowNonNegative(Next(m, l, qs[0]), l, qs[1..], key);
    }
  }

  function TotalCost(qs: seq<Request>, key: string): int {
    if qs == [] then 0 else (if qs[0].key == key then qs[0].cost else 0) + TotalCost(qs[1..], key)
  }

  /** Requests whose total cost the stock covers are all admitted, whatever the clock does and
      whatever happens to other keys. */
  lemma {:induction false} CoveredIsAdmitted(m: Buckets, l: Limits, qs: seq<Request>, key: string)
    requires l.Valid() && WithinCapacity(m, l)
    requires forall q | q in qs && q.key == key :: 0 < q.cost <= l.capacity
    requires TotalCost(qs, key) as real <= Stock(m, l, key)
    ensures Admitted(m, l, qs, key) == TotalCost(qs, key)
    decreases |qs|
  {
    hide Gain, Wait, Hint, Next, Verdict;
    if qs != [] {
      var q := qs[0];
      CheckConserves(m, l, q, key);
      CheckWithinCapacity(m, l, q);
      GainNonNegative(l, Max(0.0, q.now - (if key in m then m[key].updatedAt else q.now)));
      CostNonNegative(qs[1..], key);
      assert q in qs && forall r | r in qs[1..] :: r in qs;
      CoveredIsAdmitted(Next(m, l, q), l, qs[1..], key);
    }
  }

  lemma {:induction false} CostNonNegative(qs: seq<Request>, key: string)
    requires forall q | q in qs && q.key == key :: q.cost > 0
    ensures TotalCost(qs, key) >= 0
  {
    if qs != [] {
      assert qs[0] in qs && forall r | r in qs[1..] :: r in qs;
      CostNonNegative(qs[1..], key);
    }
  }

  /** In particular a new key has its whole capacity to spend, at any point of any run. */
  lemma NewKeyAdmitsCapacity(l: Limits, past: seq<Request>, qs: seq<Request>, key: string)
    requires l.Valid() && key !in Run(map[], l, past)
    requires (forall q | q in qs && q.key == key :: 0 < q.cost <= l.capacity) && TotalCost(qs, key) <= l.capacity
    ensures Admitted(Run(map[], l, past), l, qs, key) == TotalCost(qs, key)
  {
    hide Run, Admitted;
    RunWithinCapacity(map[], l, past);
    CoveredIsAdmitted(Run(map[], l, past), l, qs, key);
  }

  /** The reported remainder is the whole tokens that a check at the same moment finds. */
  lemma RemainingIsFound(m: Buckets, l: Limits, key: string, cost: int, now: real)
    requires l.Valid() && WithinCapacity(m, l) && 0 < cost <= l.capacity
    ensures var d, after := Verdict(m, l, key, cost, now), After(m, l, key, cost, now);
            && d.remaining == Refilled(l, Found(after, l, key, now), now).Floor
            && (d.allowed ==> d.retryAfterSeconds == 0)
            && forall other | other != key ::
                 (other in after <==> other in m) && (other in m ==> after[other] == m[other])
  {
    hide Gain, Wait, Hint;
    GainAdds(l, 0.0, 0.0);
    GainNonNegative(l, Elapsed(Found(m, l, key, now), now));
  }

  /** Counted from any point of any run, over interleaved keys and any clock: the cost
      admitted for a key is at most the capacity plus what the forward clock moves refill. */
  lemma AdmissionBound(l: Limits, past: seq<Request>, qs: seq<Request>, key: string)
    requires l.Valid()
    ensures var m := Run(map[], l, past);
            Admitted(m, l, qs, key) as real <= l.capacity as real + Gain(l, Forward(m, l, qs, key))
  {
    hide Gain, Forward, Gained, Admitted, Run;
    var m := Run(map[], l, past);
    RunWithinCapacity(map[], l, past);
    RunWithinCapacity(m, l, qs);
    AdmittedPlusStock(m, l, qs, key);
    OverflowNonNegative(m, l, qs, key);
    GainedIsForward(m, l, qs, key);
  }

  ghost predicate MonotoneFrom(t: real, qs: seq<Request>) {
    forall i | 0 <= i < |qs| :: t <= qs[i].now && forall j | i <= j < |qs| :: qs[i].now <= qs[j].now
  }

  /** With a clock that never runs backwards the forward moves add up to the time elapsed
      since the last check on the key. */
  lemma {:induction false} MonotoneForward(m: Buckets, l: Limits, qs: seq<Request>, key: string, t: real, end: real)
    requires l.Valid() && MonotoneFrom(t, qs) && t <= end && (forall i | 0 <= i < |qs| :: qs[i].now <= end)
    requires key in m ==> m[key].updatedAt <= t
    ensures Forward(m, l, qs, key) <= end - if key in m then m[key].updatedAt else t
    decreases |qs|
  {
    if qs != [] {
      MonotoneForward(Next(m, l, qs[0]), l, qs[1..], key, qs[0].now, end);
    }
  }

  // ---- the retry hint

  function Frac(x: real): real {
    x - x.Floor as real
  }

  /** The check on `key` at `now` was denied; nothing else touches the key afterwards. */
  ghost predicate Denied(m: Buckets, l: Limits, key: string, cost: int, now: real) {
    l.Valid() && CostOk(l, cost) && WithinCapacity(m, l) && !Verdict(m, l, key, cost, now).allowed
  }

  ghost function AvailableLater(m: Buckets, l: Limits, key: string, cost: int, now: real, seconds: int): real
    requires l.Valid()
  {
    var later := now + seconds as real;
    var after := After(m, l, key, cost, now);
    Refilled(l, Found(after, l, key, later), later)
  }

  lemma FloorIs(x: real, k: int)
    requires k as real <= x < k as real + 1.0
    ensures x.Floor == k
  {
  }

  lemma HintRounds(wait: real)
    requires wait > 0.0
    ensures Hint(wait) >= 1
    ensures (Hint(wait) - 1) as real < wait
    ensures wait - Hint(wait) as real < 0.000001
    ensures Hint(wait) as real >= wait <==> wait <= 1.0 || Frac(wait) == 0.0 || Frac(wait) >= 0.000001
  {
    var n := wait.Floor;
    var f := wait - n as real;
    assert n >= 0;
    if f < 0.000001 {
      FloorIs(wait + 0.999999, n);
      assert Hint(wait) == if n > 1 then n else 1;
    } else {
      FloorIs(wait + 0.999999, n + 1);
      assert Hint(wait) == n + 1;
    }
  }

  lemma WaitTimes(l: Limits, deficit: real)
    requires l.Valid()
    ensures Wait(l, deficit) * l.refillPerSecond == deficit
  {
    QuotientTimes(deficit, l.refillPerSecond);
  }

  lemma GainTimes(l: Limits, seconds: real)
    ensures Gain(l, seconds) == seconds * l.refillPerSecond
  {
  }

  /** Refilling for `seconds` covers the deficit exactly when the wait is no longer, and
      otherwise leaves the missing seconds' worth. */
  lemma GainAgainstWait(l: Limits, deficit: real, seconds: real)
    requires l.Valid()
    ensures seconds < Wait(l, deficit) <==> Gain(l, seconds) < deficit
    ensures Wait(l, deficit) - seconds < 0.000001 ==> deficit - Gain(l, seconds) < 0.000001 * l.refillPerSecond
  {
    var rate, wait := l.refillPerSecond, Wait(l, deficit);
    WaitTimes(l, deficit);
    GainTimes(l, seconds);
    Shortfall(wait, seconds, 0.000001, rate, deficit, Gain(l, seconds), 0.000001 * rate);
  }

  lemma WaitPositive(l: Limits, deficit: real)
    requires l.Valid() && deficit > 0.0
    ensures Wait(l, deficit) > 0.0
  {
    GainAgainstWait(l, deficit, 0.0);
    GainAdds(l, 0.0, 0.0);
  }

  /** After a denial, checking again one second before the hint is denied as well; at the
      hint itself less than a millionth of a second's refill is missing; and the check at
      the hint is admitted exactly when the wait in seconds is at most one, whole, or at
      least a millionth above a whole number. */
  lemma RetryHint(m: Buckets, l: Limits, key: string, cost: int, now: real)
    requires Denied(m, l, key, cost, now)
    ensures var hint := Verdict(m, l, key, cost, now).retryAfterSeconds;
            var wait := Wait(l, cost as real - Refilled(l, Found(m, l, key, now), now));
            && hint >= 1
            && AvailableLater(m, l, key, cost, now, hint - 1) < cost as real
            && cost as real - AvailableLater(m, l, key, cost, now, hint) < 0.000001 * l.refillPerSecond
            && (AvailableLater(m, l, key, cost, now, hint) >= cost as real
                <==> wait <= 1.0 || Frac(wait) == 0.0 || Frac(wait) >= 0.000001)
  {
    hide Gain, Wait, Hint, Frac;
    var deficit := cost as real - Refilled(l, Found(m, l, key, now), now);
    var wait := Wait(l, deficit);
    WaitPositive(l, deficit);
    HintRounds(wait);
    GainAgainstWait(l, deficit, (Hint(wait) - 1) as real);
    GainAgainstWait(l, deficit, Hint(wait) as real);
    SmallPositive(l);
  }

  lemma SmallPositive(l: Limits)
    requires l.Valid()
    ensures 0.000001 * l.refillPerSecond > 0.0
  {
  }

  /** The hint is not a true ceiling: a bucket of two that one request emptied, asked again for
      two after 0.9999995 seconds, names one second, and a second later the request would still
      be denied. */
  lemma HintCanFallShort()
    ensures var l := Limits(2, 1.0);
            var m := Run(map[], l, [Request("k", 2, 0.0)]);
            var now := 0.9999995;
            && Denied(m, l, "k", 2, now)
            && Verdict(m, l, "k", 2, now).retryAfterSeconds == 1
            && AvailableLater(m, l, "k", 2, now, 1) < 2.0
  {
    var l := Limits(2, 1.0);
    EmptiedBucket(l);
    AskedAgain(l, map["k" := Level(0.0, 0.0)]);
  }

  lemma AskedAgain(l: Limits, m: Buckets)
    requires l == Limits(2, 1.0) && m == map["k" := Level(0.0, 0.0)]
    ensures WithinCapacity(m, l)
    ensures Verdict(m, l, "k", 2, 0.9999995) == Decision(false, 0, 1)
    ensures AvailableLater(m, l, "k", 2, 0.9999995, 1) == 1.9999995
  {
    OneUnitPerSecond(l);
    JustOverASecond();
    hide Gain, Wait, Hint;
    FloorIs(0.9999995, 0);
    assert Refilled(l, m["k"], 0.9999995) == 0.9999995;
    var after := Level(0.9999995, 0.9999995);
    assert After(m, l, "k", 2, 0.9999995) == map["k" := after];
    assert Refilled(l, after, 1.9999995) == 1.9999995;
  }

  lemma EmptiedBucket(l: Limits)
    requires l == Limits(2, 1.0)
    ensures Run(map[], l, [Request("k", 2, 0.0)]) == map["k" := Level(0.0, 0.0)]
  {
    OneUnitPerSecond(l);
    hide Gain;
    var qs := [Request("k", 2, 0.0)];
    assert qs[1..] == [];
    assert Refilled(l, Found(map[], l, "k", 0.0), 0.0) == 2.0;
    assert Run(map[], l, qs) == Next(map[], l, qs[0]);
  }

  lemma OneUnitPerSecond(l: Limits)
    requires l == Limits(2, 1.0)
    ensures forall x :: Gain(l, x) == x && Wait(l, x) == x
  {
  }

  lemma JustOverASecond()
    ensures Hint(1.0000005) == 1
  {
    FloorIs(1.9999995, 1);
  }
}
