/** Jain's fairness index and the tenant share limit. */
module Fairness {
  import opened Ordering
  import opened Prelude
  import opened RealArithmetic

  datatype FairnessError = EmptyAllocations | NegativeAllocation | NegativeSlots | ShareOutOfRange | NegativeRequest

  // ---- Jain's index

  function Sum(xs: seq<real>): real {
    if xs == [] then 0.0 else xs[0] + Sum(xs[1..])
  }

  function Times(a: real, b: real): real {
    a * b
  }

  function Square(x: real): real {
    Times(x, x)
  }

  function Squares(xs: seq<real>): real {
    if xs == [] then 0.0 else Square(xs[0]) + Squares(xs[1..])
  }

  predicate NonNegative(xs: seq<real>) {
    forall x | x in xs :: x >= 0.0
  }

  /** The quotient for `n` entries with sum `s` and squares `q`. */
  function Index(n: real, s: real, q: real): real
    requires n > 0.0 && q >= 0.0
  {
    if s == 0.0 || q == 0.0 then 1.0
    else
      MulPositive(n, q);
      Square(s) / (n * q)
  }

  function JainIndex(xs: seq<real>): Result<real, FairnessError> {
    if xs == [] then Err(EmptyAllocations)
    else if !NonNegative(xs) then Err(NegativeAllocation)
    else
      SquaresPositive(xs);
      Ok(Index(|xs| as real, Sum(xs), Squares(xs)))
  }

  lemma TimesSign(a: real, b: real)
    ensures a > 0.0 && b > 0.0 ==> Times(a, b) > 0.0
    ensures a < 0.0 && b < 0.0 ==> Times(a, b) > 0.0
    ensures a == 0.0 || b == 0.0 ==> Times(a, b) == 0.0
  {
  }

  lemma SquareSign(x: real)
    ensures Square(x) >= 0.0
    ensures Square(x) == 0.0 <==> x == 0.0
  {
    hide Times;
    TimesSign(x, x);
  }

  lemma {:induction false} SquaresPositive(xs: seq<real>)
    ensures Squares(xs) >= 0.0
    ensures Squares(xs) == 0.0 ==> forall x | x in xs :: x == 0.0
  {
    hide Square;
    if xs != [] {
      SquaresPositive(xs[1..]);
      SquareSign(xs[0]);
      Members(xs);
    }
  }

  /** The sum of squared distances to `y`. */
  function Gap(xs: seq<real>, y: real): real {
    if xs == [] then 0.0 else Square(xs[0] - y) + Gap(xs[1..], y)
  }

  lemma {:induction false} GapSign(xs: seq<real>, y: real)
    ensures Gap(xs, y) >= 0.0
    ensures Gap(xs, y) == 0.0 <==> forall x | x in xs :: x == y
  {
    hide Square;
    if xs != [] {
      GapSign(xs[1..], y);
      SquareSign(xs[0] - y);
      Members(xs);
    }
  }

  /** `Gap` multiplied out, for `n` entries with squares `q` and sum `s`. */
  function Expanded(n: real, q: real, s: real, y: real): real {
    q - 2.0 * y * s + n * Square(y)
  }

  lemma ExpandStep(n: real, q: real, s: real, y: real, x: real)
    ensures Expanded(n + 1.0, Square(x) + q, x + s, y) == Square(x - y) + Expanded(n, q, s, y)
  {
    assert Square(x - y) == x * x - 2.0 * y * x + y * y;
    assert 2.0 * y * (x + s) == 2.0 * y * x + 2.0 * y * s;
    assert (n + 1.0) * (y * y) == n * (y * y) + y * y;
  }

  lemma {:induction false} GapExpands(xs: seq<real>, y: real)
    ensures Gap(xs, y) == Expanded(|xs| as real, Squares(xs), Sum(xs), y)
  {
    if xs != [] {
      hide Square, Expanded;
      GapExpands(xs[1..], y);
      ExpandStep(|xs[1..]| as real, Squares(xs[1..]), Sum(xs[1..]), y, xs[0]);
      assert |xs[1..]| as real + 1.0 == |xs| as real;
    }
  }

  /** What Cauchy-Schwarz leaves: zero exactly for constant lists. */
  function Slack(n: real, q: real, s: real): real {
    n * q - Square(s)
  }

  function Spread(xs: seq<real>): real {
    Slack(|xs| as real, Squares(xs), Sum(xs))
  }

  lemma SlackStep(n: real, q: real, s: real, y: real)
    ensures Slack(n + 1.0, Square(y) + q, y + s) == Slack(n, q, s) + Expanded(n, q, s, y)
  {
    assert (n + 1.0) * (y * y + q) == n * (y * y) + n * q + y * y + q;
    assert (y + s) * (y + s) == y * y + 2.0 * y * s + s * s;
  }

  lemma SpreadStep(xs: seq<real>)
    requires xs != []
    ensures Spread(xs) == Spread(xs[1..]) + Gap(xs[1..], xs[0])
  {
    hide Square, Expanded, Slack, Gap;
    var y, rest := xs[0], xs[1..];
    GapExpands(rest, y);
    SlackStep(|rest| as real, Squares(rest), Sum(rest), y);
    assert |rest| as real + 1.0 == |xs| as real;
  }

  ghost predicate AllEqual(xs: seq<real>) {
    forall x, y | x in xs && y in xs :: x == y
  }

  lemma {:induction false} SpreadMeasuresInequality(xs: seq<real>)
    ensures Spread(xs) >= 0.0
    ensures Spread(xs) == 0.0 <==> AllEqual(xs)
  {
    if xs != [] {
      hide Slack, Squares, Sum, Gap;
      SpreadStep(xs);
      SpreadMeasuresInequality(xs[1..]);
      GapSign(xs[1..], xs[0]);
      Members(xs);
    } else {
      assert Spread(xs) == 0.0;
    }
  }

  lemma SquareOfSum(y: real, s: real)
    requires y >= 0.0 && s >= 0.0
    ensures Square(y + s) >= Square(y) + Square(s)
  {
    assert y * s >= 0.0;
    assert (y + s) * (y + s) == y * y + 2.0 * (y * s) + s * s;
  }

  /** For non-negative entries the squares cannot exceed the squared sum. */
  lemma {:induction false} SquaresBelowSquaredSum(xs: seq<real>)
    requires NonNegative(xs)
    ensures Sum(xs) >= 0.0 && Squares(xs) <= Square(Sum(xs))
  {
    if xs != [] {
      hide Square;
      Members(xs);
      SquaresBelowSquaredSum(xs[1..]);
      SquareOfSum(xs[0], Sum(xs[1..]));
    } else {
      SquareSign(Sum(xs));
    }
  }

  lemma Ratio(a: real, b: real)
    requires b > 0.0
    ensures a / b <= 1.0 <==> a <= b
    ensures a / b == 1.0 <==> a == b
  {
    assert a == (a / b) * b;
  }

  lemma RatioAbove(a: real, n: real, q: real)
    requires n > 0.0 && q > 0.0 && q <= a
    ensures n * q > 0.0 && 1.0 / n <= a / (n * q)
  {
    MulPositive(n, q);
    var r, u := a / (n * q), 1.0 / n;
    assert a == r * (n * q) == (r * n) * q;
    MulOrder(r * n, 1.0, q);
    assert u * n == 1.0;
    MulOrder(r, u, n);
  }

  ghost predicate Informative(xs: seq<real>) {
    NonNegative(xs) && exists x :: x in xs && x != 0.0
  }

  lemma PositiveIfInformative(xs: seq<real>)
    requires Informative(xs)
    ensures Squares(xs) > 0.0 && Sum(xs) > 0.0
  {
    SquaresPositive(xs);
    SquaresBelowSquaredSum(xs);
    SquareSign(Sum(xs));
  }

  lemma InformativeBounds(xs: seq<real>)
    requires Informative(xs)
    ensures JainIndex(xs).Ok?
    ensures 1.0 / |xs| as real <= JainIndex(xs).value <= 1.0
    ensures JainIndex(xs).value == 1.0 <==> AllEqual(xs)
  {
    hide Sum, Squares, NonNegative, AllEqual, Square;
    PositiveIfInformative(xs);
    SquaresBelowSquaredSum(xs);
    SpreadMeasuresInequality(xs);
    var n, q, s := |xs| as real, Squares(xs), Sum(xs);
    MulPositive(n, q);
    RatioAbove(Square(s), n, q);
    Ratio(Square(s), n * q);
  }

  lemma {:induction false} NothingAllocated(xs: seq<real>)
    requires forall x | x in xs :: x == 0.0
    ensures Sum(xs) == 0.0 && Squares(xs) == 0.0
  {
    if xs != [] {
      Members(xs);
      NothingAllocated(xs[1..]);
      SquareSign(xs[0]);
    }
  }

  /** For every non-empty list of non-negative allocations, all zero included, the index lies
      between 1/n and 1, and it is 1 exactly when all allocations are equal. */
  lemma JainBounds(xs: seq<real>)
    requires xs != [] && NonNegative(xs)
    ensures JainIndex(xs).Ok?
    ensures 1.0 / |xs| as real <= JainIndex(xs).value <= 1.0
    ensures JainIndex(xs).value == 1.0 <==> AllEqual(xs)
  {
    if Informative(xs) {
      InformativeBounds(xs);
    } else {
      hide Sum, Squares;
      NothingAllocated(xs);
      Ratio(1.0, |xs| as real);
    }
  }

  function Scaled(xs: seq<real>, k: real): seq<real> {
    if xs == [] then [] else [k * xs[0]] + Scaled(xs[1..], k)
  }

  lemma SquareScaled(k: real, x: real)
    ensures Square(k * x) == Square(k) * Square(x)
  {
    assert (k * x) * (k * x) == (k * k) * (x * x);
  }

  lemma ScaledHead(xs: seq<real>, k: real)
    requires xs != []
    ensures Scaled(xs, k) == [k * xs[0]] + Scaled(xs[1..], k)
  {
  }

  lemma {:induction false} ScaledSums(xs: seq<real>, k: real)
    ensures |Scaled(xs, k)| == |xs|
    ensures Sum(Scaled(xs, k)) == k * Sum(xs)
    ensures Squares(Scaled(xs, k)) == Square(k) * Squares(xs)
  {
    if xs != [] {
      hide Square, Sum, Squares, Scaled;
      var ys := Scaled(xs[1..], k);
      ScaledHead(xs, k);
      ScaledSums(xs[1..], k);
      HeadSums(xs);
      HeadSums([k * xs[0]] + ys);
      assert ([k * xs[0]] + ys)[1..] == ys;
      SquareScaled(k, xs[0]);
      Distribute(k, xs[0], Sum(xs[1..]));
      Distribute(Square(k), Square(xs[0]), Squares(xs[1..]));
    }
  }

  lemma {:induction false} ScaledInformative(xs: seq<real>, k: real)
    requires k > 0.0 && NonNegative(xs)
    ensures NonNegative(Scaled(xs, k))
    ensures Informative(xs) ==> Informative(Scaled(xs, k))
  {
    if xs != [] {
      Members(xs);
      ScaledInformative(xs[1..], k);
      assert k * xs[0] >= 0.0;
      if xs[0] != 0.0 {
        MulPositive(k, xs[0]);
        assert k * xs[0] in Scaled(xs, k);
      } else if Informative(xs) {
        var x :| x in xs && x != 0.0;
        assert x in xs[1..];
        var y :| y in Scaled(xs[1..], k) && y != 0.0;
        assert y in Scaled(xs, k);
      }
    }
  }

  lemma CancelFactor(m: real, a: real, n: real, q: real)
    requires m > 0.0 && n > 0.0 && q > 0.0
    ensures n * q > 0.0 && n * (m * q) > 0.0
    ensures (m * a) / (n * (m * q)) == a / (n * q)
  {
    MulPositive(n, q);
    var b := n * q;
    assert n * (m * q) == m * b;
    MulPositive(m, b);
    var r := a / b;
    assert a == r * b;
    assert m * a == r * (m * b);
  }

  lemma IndexScaled(k: real, n: real, s: real, q: real, ks: real, kq: real)
    requires k > 0.0 && n > 0.0 && s > 0.0 && q > 0.0
    requires ks == k * s && kq == Square(k) * q
    ensures kq > 0.0 && Index(n, ks, kq) == Index(n, s, q)
  {
    hide Square;
    SquareSign(k);
    SquareScaled(k, s);
    MulPositive(k, s);
    MulPositive(Square(k), q);
    CancelFactor(Square(k), Square(s), n, q);
  }

  lemma InformativeScaled(xs: seq<real>, k: real)
    requires k > 0.0 && Informative(xs)
    ensures JainIndex(Scaled(xs, k)) == JainIndex(xs)
  {
    hide Sum, Squares, Square, Index, Scaled;
    ScaledInformative(xs, k);
    PositiveIfInformative(xs);
    ScaledSums(xs, k);
    var ys := Scaled(xs, k);
    IndexScaled(k, |xs| as real, Sum(xs), Squares(xs), Sum(ys), Squares(ys));
  }

  lemma ScaledAt(xs: seq<real>, k: real, i: nat)
    requires i < |xs|
    ensures |Scaled(xs, k)| == |xs| && Scaled(xs, k)[i] == k * xs[i]
  {
    if i > 0 {
      ScaledAt(xs[1..], k, i - 1);
    } else {
      ScaledSums(xs, k);
    }
  }

  /** Multiplying all allocations by the same positive factor leaves the index, or the error,
      alone. */
  lemma JainScaleInvariant(xs: seq<real>, k: real)
    requires k > 0.0
    ensures JainIndex(Scaled(xs, k)) == JainIndex(xs)
  {
    var ys := Scaled(xs, k);
    hide Sum, Squares, Square, Scaled;
    ScaledSums(xs, k);
    if Informative(xs) {
      InformativeScaled(xs, k);
    } else if NonNegative(xs) {
      ScaledInformative(xs, k);
      NothingAllocated(xs);
      assert Squares(ys) == 0.0;
    } else {
      var x :| x in xs && x < 0.0;
      var i :| 0 <= i < |xs| && xs[i] == x;
      ScaledAt(xs, k, i);
      MulOrder(x, 0.0, k);
      assert ys[i] in ys && ys[i] < 0.0;
    }
  }

  lemma HeadSums(xs: seq<real>)
    requires xs != []
    ensures Sum(xs) == xs[0] + Sum(xs[1..]) && Squares(xs) == Square(xs[0]) + Squares(xs[1..])
  {
    hide Square;
  }

  lemma {:induction false} SumsPermute(xs: seq<real>, ys: seq<real>)
    requires multiset(xs) == multiset(ys)
    ensures Sum(xs) == Sum(ys) && Squares(xs) == Squares(ys)
  {
    if xs == [] {
      SameMultiset(xs, ys);
    } else {
      hide Square, Sum, Squares;
      var i := FindFirst(xs, ys);
      SumsPermute(xs[1..], ys[..i] + ys[i + 1..]);
      SumsWithout(ys, i);
      HeadSums(xs);
    }
  }

  lemma {:induction false} SumsWithout(ys: seq<real>, i: nat)
    requires i < |ys|
    ensures Sum(ys) == ys[i] + Sum(ys[..i] + ys[i + 1..])
    ensures Squares(ys) == Square(ys[i]) + Squares(ys[..i] + ys[i + 1..])
  {
    hide Square;
    var rest := ys[..i] + ys[i + 1..];
    if i == 0 {
      assert rest == ys[1..];
    } else {
      SumsWithout(ys[1..], i - 1);
      assert rest[1..] == ys[1..][..i - 1] + ys[1..][i..];
      assert rest[0] == ys[0];
    }
  }

  /** The index does not depend on the order of the allocations. */
  lemma JainIgnoresOrder(xs: seq<real>, ys: seq<real>)
    requires multiset(xs) == multiset(ys)
    ensures JainIndex(xs) == JainIndex(ys)
  {
    hide Index, Sum, Squares;
    SameMultiset(xs, ys);
    SumsPermute(xs, ys);
  }

  // ---- the tenant share

  type Slots = map<string, int>

  function Total(order: seq<string>, m: Slots): int
    requires forall t | t in order :: t in m
  {
    if order == [] then 0 else m[order[0]] + Total(order[1..], m)
  }

  function ShareCap(totalSlots: int, maxShare: real): int {
    if totalSlots == 0 then 0
    else
      var share := (totalSlots as real * maxShare).Floor;
      if share > 1 then share else 1
  }

  function Capped(requested: Slots, cap: int): Slots {
    map t | t in requested :: Lesser(requested[t], cap)
  }

  /** Larger allocation first; ties stay in dictionary order because sorting is stable. */
  function LargerFirst(m: Slots): (string, string) -> bool {
    (a, b) => (if a in m then m[a] else 0) >= (if b in m then m[b] else 0)
  }

  lemma {:induction false} TotalUpdated(order: seq<string>, m: Slots, t: string, v: int)
    requires Distinct(order) && t in order && forall u | u in order :: u in m
    ensures Total(order, m[t := v]) == Total(order, m) - m[t] + v
  {
    if order[0] == t {
      TotalSame(order[1..], m, m[t := v]);
    } else {
      assert t in order[1..];
      TotalUpdated(order[1..], m, t, v);
    }
  }

  lemma {:induction false} TotalSame(order: seq<string>, m: Slots, n: Slots)
    requires forall t | t in order :: t in m && t in n && m[t] == n[t]
    ensures Total(order, m) == Total(order, n)
  {
    if order != [] {
      TotalSame(order[1..], m, n);
    }
  }

  lemma {:induction false} TotalZero(order: seq<string>, m: Slots)
    requires forall t | t in order :: t in m && m[t] == 0
    ensures Total(order, m) == 0
  {
    if order != [] {
      TotalZero(order[1..], m);
    }
  }

  /** Everything promised about an allocation of `totalSlots` for capped requests. */
  ghost predicate FairCut(order: seq<string>, capped: Slots, totalSlots: int, allocation: Slots)
    requires forall t | t in order :: t in capped
  {
    && allocation.Keys == capped.Keys
    && (forall t | t in capped :: 0 <= allocation[t] <= capped[t])
    && (forall t | t in order :: t in allocation)
    && Total(order, allocation) == Lesser(totalSlots, Total(order, capped))
    // the largest go first: nobody is cut while somebody larger keeps anything
    && (forall a, b | a in capped && b in capped && a != b && allocation[a] < capped[a] && allocation[b] > 0 ::
          capped[a] >= capped[b])
    // and among equally large ones the first in the dictionary
    && (forall i, j | 0 <= i < j < |order| && capped[order[i]] >= capped[order[j]] && allocation[order[i]] > 0 ::
          allocation[order[j]] == capped[order[j]])
    // at most one tenant is cut in part
    && (forall a, b | a in capped && b in capped && 0 < allocation[a] < capped[a] && 0 < allocation[b] < capped[b] ::
          a == b)
  }

  /** Takes the overflow away from the tenants in turn. */
  function Cut(ranked: seq<string>, allocation: Slots, overflow: int): Slots
    requires forall t | t in ranked :: t in allocation
    decreases |ranked|
  {
    if ranked == [] || overflow == 0 then allocation
    else
      var reducible := Lesser(allocation[ranked[0]], overflow);
      Cut(ranked[1..], allocation[ranked[0] := allocation[ranked[0]] - reducible], overflow - reducible)
  }

  function ShareError(requested: Slots, totalSlots: int, maxShare: real): Option<FairnessError> {
    if totalSlots < 0 then Some(NegativeSlots)
    else if !(0.0 < maxShare <= 1.0) then Some(ShareOutOfRange)
    else if exists t :: t in requested && requested[t] < 0 then Some(NegativeRequest)
    else None
  }

  /** No tenant gets more than its share of the slots, rounded down, or one slot if that is
      none; of no slots nobody gets any. */
  lemma ShareCapExactly(totalSlots: int, maxShare: real, n: int)
    requires totalSlots >= 0
    ensures n <= ShareCap(totalSlots, maxShare)
       <==> n <= 0 || (totalSlots > 0 && (n == 1 || n as real <= totalSlots as real * maxShare))
  {
  }

  /** `enforce_tenant_share`; `order` is the dictionary order of `requested`. */
  method EnforceTenantShare(order: seq<string>, requested: Slots, totalSlots: int, maxShare: real)
    returns (r: Result<Slots, FairnessError>)
    requires Distinct(order) && SetOf(order) == requested.Keys
    ensures forall t | t in order :: t in requested
    ensures var admissible := forall t | t in requested :: requested[t] >= 0;
            && (r == Err(NegativeSlots) <==> totalSlots < 0)
            && (r == Err(ShareOutOfRange) <==> totalSlots >= 0 && !(0.0 < maxShare <= 1.0))
            && (r == Err(NegativeRequest) <==> totalSlots >= 0 && 0.0 < maxShare <= 1.0 && !admissible)
            && (r.Ok? <==> totalSlots >= 0 && 0.0 < maxShare <= 1.0 && admissible)
    ensures match ShareError(requested, totalSlots, maxShare)
            case Some(error) => r == Err(error)
            case None => r == Ok(CutOf(order, Capped(requested, ShareCap(totalSlots, maxShare)), totalSlots))
                         && FairCut(order, Capped(requested, ShareCap(totalSlots, maxShare)), totalSlots, r.value)
  {
    assert forall t :: t in order <==> t in SetOf(order);
    if totalSlots < 0 {
      return Err(NegativeSlots);
    }
    if !(0.0 < maxShare <= 1.0) {
      return Err(ShareOutOfRange);
    }
    if exists t :: t in requested && requested[t] < 0 {
      return Err(NegativeRequest);
    }
    var cap := ShareCap(totalSlots, maxShare);
    var capped := Capped(requested, cap);
    CutOfIsFair(order, capped, totalSlots);
    var allocation := CutLargestFirst(order, capped, totalSlots);
    return Ok(allocation);
  }

  function Positive(x: int): int {
    if x > 0 then x else 0
  }

  /** Progress of the cutting loop over `ranked`: a zeroed prefix, one pivot, an untouched rest. */
  ghost predicate CutSoFar(ranked: seq<string>, capped: Slots, allocation: Slots, pivot: int) {
    && allocation.Keys == capped.Keys
    && (forall k | 0 <= k < |ranked| :: ranked[k] in capped && 0 <= allocation[ranked[k]] <= capped[ranked[k]])
    && (forall k | 0 <= k < pivot && k < |ranked| :: allocation[ranked[k]] == 0)
    && (forall k | pivot < k < |ranked| && k >= 0 :: allocation[ranked[k]] == capped[ranked[k]])
  }

  /** The allocation after cutting the largest first until no overflow is left. */
  function CutOf(order: seq<string>, capped: Slots, totalSlots: int): Slots
    requires forall t | t in order :: t in capped
  {
    SortPermutes(order, LargerFirst(capped));
    Cut(SortBy(order, LargerFirst(capped)), capped, Positive(Total(order, capped) - totalSlots))
  }

  method CutLargestFirst(order: seq<string>, capped: Slots, totalSlots: int) returns (allocation: Slots)
    requires forall t | t in order :: t in capped
    ensures allocation == CutOf(order, capped, totalSlots)
  {
    hide Total, SortBy;
    allocation := capped;
    var ranked := SortBy(order, LargerFirst(capped));
    SortPermutes(order, LargerFirst(capped));
    var overflow := Positive(Total(order, capped) - totalSlots);
    var i := 0;
    assert ranked[0..] == ranked;
    while i < |ranked| && overflow != 0
      invariant 0 <= i <= |ranked| && allocation.Keys == capped.Keys
      invariant Cut(ranked[i..], allocation, overflow) == CutOf(order, capped, totalSlots)
    {
      var t := ranked[i];
      assert ranked[i..][0] == t && ranked[i..][1..] == ranked[i + 1..];
      var reducible := Lesser(allocation[t], overflow);
      allocation := allocation[t := allocation[t] - reducible];
      overflow := overflow - reducible;
      i := i + 1;
    }
  }

  lemma {:induction false} CutRun(order: seq<string>, ranked: seq<string>, capped: Slots, totalSlots: int, i: nat,
                                  allocation: Slots, overflow: int, pivot: int)
    returns (last: int)
    requires i <= |ranked| && overflow >= 0 && totalSlots >= 0 && Distinct(order) && Distinct(ranked)
    requires forall t :: t in ranked <==> t in order
    requires CutSoFar(ranked, capped, allocation, pivot) && pivot <= i - 1
    requires overflow > 0 ==> pivot == i - 1 && forall k | 0 <= k < i :: allocation[ranked[k]] == 0
    requires (forall t | t in order :: t in allocation) && Total(order, allocation) == totalSlots + overflow
    ensures (forall t | t in ranked[i..] :: t in allocation)
    ensures var final := Cut(ranked[i..], allocation, overflow);
            CutSoFar(ranked, capped, final, last) && (forall t | t in order :: t in final)
              && Total(order, final) == totalSlots
    decreases |ranked| - i
  {
    hide Total;
    forall t | t in ranked[i..] ensures t in allocation {
      assert t in ranked;
    }
    if overflow == 0 {
      last := pivot;
    } else if i == |ranked| {
      forall t | t in order ensures allocation[t] == 0 {
        assert t in ranked;
      }
      TotalZero(order, allocation);
      assert false;
    } else {
      var t := ranked[i];
      assert t in ranked && ranked[i..][0] == t && ranked[i..][1..] == ranked[i + 1..];
      var reducible := Lesser(allocation[t], overflow);
      TotalUpdated(order, allocation, t, allocation[t] - reducible);
      last := CutRun(order, ranked, capped, totalSlots, i + 1, allocation[t := allocation[t] - reducible],
                     overflow - reducible, i);
    }
  }

  /** Cutting conserves slots, cuts the largest first and leaves at most one tenant cut in
      part. */
  lemma CutOfIsFair(order: seq<string>, capped: Slots, totalSlots: int)
    requires Distinct(order) && SetOf(order) == capped.Keys && totalSlots >= 0
    requires forall t | t in capped :: capped[t] >= 0
    requires forall t | t in order :: t in capped
    ensures FairCut(order, capped, totalSlots, CutOf(order, capped, totalSlots))
  {
    hide Distinct, SetOf, Sorted, Total, SortBy;
    var ranked := SortBy(order, LargerFirst(capped));
    RankedFacts(order, capped);
    if Total(order, capped) > totalSlots {
      var pivot := CutRun(order, ranked, capped, totalSlots, 0, capped, Total(order, capped) - totalSlots, -1);
      assert ranked[0..] == ranked;
      CutIsFair(order, ranked, capped, totalSlots, CutOf(order, capped, totalSlots), pivot);
    }
  }

  lemma RankedFacts(order: seq<string>, capped: Slots)
    requires Distinct(order) && forall t | t in order :: t in capped
    ensures var ranked := SortBy(order, LargerFirst(capped));
            && Distinct(ranked) && Sorted(ranked, LargerFirst(capped))
            && (forall t :: t in ranked <==> t in order)
  {
    var le := LargerFirst(capped);
    SortPermutes(order, le);
    SortSorts(order, le);
    DistinctByContents(order, SortBy(order, le));
  }

  lemma Position(order: seq<string>, ranked: seq<string>, capped: Slots, t: string) returns (k: nat)
    requires SetOf(order) == capped.Keys && (forall u :: u in ranked <==> u in order) && t in capped
    ensures k < |ranked| && ranked[k] == t
  {
    assert t in SetOf(order);
    assert t in ranked;
    k :| k < |ranked| && ranked[k] == t;
  }

  /** At position `k` after a cut at `pivot`. */
  lemma CutAt(ranked: seq<string>, capped: Slots, allocation: Slots, pivot: int, k: nat)
    requires CutSoFar(ranked, capped, allocation, pivot) && k < |ranked|
    ensures ranked[k] in capped && ranked[k] in allocation && 0 <= allocation[ranked[k]] <= capped[ranked[k]]
    ensures allocation[ranked[k]] < capped[ranked[k]] ==> k <= pivot
    ensures allocation[ranked[k]] > 0 ==> k >= pivot
  {
  }

  lemma SortedPair(ranked: seq<string>, capped: Slots, i: nat, j: nat)
    requires Sorted(ranked, LargerFirst(capped)) && i < j < |ranked| && ranked[i] in capped && ranked[j] in capped
    ensures capped[ranked[i]] >= capped[ranked[j]]
  {
    assert LargerFirst(capped)(ranked[i], ranked[j]);
  }

  /** Of two tenants, the one that is cut is the larger, and only one is cut in part. */
  lemma CutPair(order: seq<string>, ranked: seq<string>, capped: Slots, allocation: Slots, pivot: int, a: string,
                b: string)
    requires SetOf(order) == capped.Keys && forall t | t in order :: t in capped
    requires Distinct(ranked) && Sorted(ranked, LargerFirst(capped)) && forall t :: t in ranked <==> t in order
    requires CutSoFar(ranked, capped, allocation, pivot) && a in capped && b in capped
    ensures allocation.Keys == capped.Keys
    ensures a != b && allocation[a] < capped[a] && allocation[b] > 0 ==> capped[a] >= capped[b]
    ensures 0 < allocation[a] < capped[a] && 0 < allocation[b] < capped[b] ==> a == b
  {
    assert allocation.Keys == capped.Keys;
    hide SetOf, Distinct, Sorted, CutSoFar, LargerFirst;
    var i := Position(order, ranked, capped, a);
    var j := Position(order, ranked, capped, b);
    CutAt(ranked, capped, allocation, pivot, i);
    CutAt(ranked, capped, allocation, pivot, j);
    if i < j { SortedPair(ranked, capped, i, j); }
  }

  /** Of two tenants in dictionary order, the later one is cut only when it is larger or the
      earlier one has nothing left. */
  lemma TiePair(order: seq<string>, capped: Slots, allocation: Slots, pivot: int, i: nat, j: nat)
    requires Distinct(order) && forall t | t in order :: t in capped
    requires CutSoFar(SortBy(order, LargerFirst(capped)), capped, allocation, pivot)
    requires i < j < |order| && capped[order[i]] >= capped[order[j]]
    ensures order[i] in allocation && order[j] in allocation
    ensures allocation[order[i]] > 0 ==> allocation[order[j]] == capped[order[j]]
  {
    hide SortBy, CutSoFar, Distinct;
    assert LargerFirst(capped)(order[i], order[j]);
    var p, q := SortStable(order, LargerFirst(capped), i, j);
    CutAt(SortBy(order, LargerFirst(capped)), capped, allocation, pivot, p);
    CutAt(SortBy(order, LargerFirst(capped)), capped, allocation, pivot, q);
  }

  lemma CutIsFair(order: seq<string>, ranked: seq<string>, capped: Slots, totalSlots: int, allocation: Slots,
                  pivot: int)
    requires SetOf(order) == capped.Keys && forall t | t in order :: t in capped
    requires Distinct(ranked) && Sorted(ranked, LargerFirst(capped)) && forall t :: t in ranked <==> t in order
    requires CutSoFar(ranked, capped, allocation, pivot)
    requires Distinct(order) && ranked == SortBy(order, LargerFirst(capped))
    requires Total(order, allocation) == totalSlots <= Total(order, capped)
    ensures FairCut(order, capped, totalSlots, allocation)
  {
    assert allocation.Keys == capped.Keys;
    hide Total, SetOf, Distinct, Sorted, CutSoFar, LargerFirst, SortBy;
    forall t | t in capped ensures 0 <= allocation[t] <= capped[t] {
      var k := Position(order, ranked, capped, t);
      CutAt(ranked, capped, allocation, pivot, k);
    }
    forall a, b | a in capped && b in capped
      ensures a != b && allocation[a] < capped[a] && allocation[b] > 0 ==> capped[a] >= capped[b]
      ensures 0 < allocation[a] < capped[a] && 0 < allocation[b] < capped[b] ==> a == b
    {
      CutPair(order, ranked, capped, allocation, pivot, a, b);
    }
    forall i, j | 0 <= i < j < |order| && capped[order[i]] >= capped[order[j]] && allocation[order[i]] > 0
      ensures allocation[order[j]] == capped[order[j]]
    {
      TiePair(order, capped, allocation, pivot, i, j);
    }
  }
}
