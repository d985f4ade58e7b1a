/** Python's code-point ordering of strings and its stable `sorted`, with the facts
    the other modules rely on: sorting permutes, sorts, and has one possible result
    when the order separates the elements. */
module Ordering {

  /** Lexicographic by code point, a proper prefix first: Python's `<=` on `str`. */
  predicate StrLe(a: string, b: string) {
    a == [] || (b != [] && (a[0] < b[0] || (a[0] == b[0] && StrLe(a[1..], b[1..]))))
  }

  /** A prefix comes first, and otherwise the text with the lesser character at the first
      place where they differ. */
  lemma {:induction false} StrLeExactly(a: string, b: string)
    ensures StrLe(a, b)
       <==> a <= b || exists i :: 0 <= i < |a| && i < |b| && a[i] < b[i] && forall k | 0 <= k < i :: a[k] == b[k]
  {
    if a != [] && b != [] && a[0] == b[0] {
      var s, t := a[1..], b[1..];
      StrLeExactly(s, t);
      assert s <= t <==> a <= b;
      if i :| 0 <= i < |s| && i < |t| && s[i] < t[i] && forall k | 0 <= k < i :: s[k] == t[k] {
        assert a[i + 1] < b[i + 1] && forall k | 0 <= k < i + 1 :: a[k] == b[k];
      }
      if i :| 0 <= i < |a| && i < |b| && a[i] < b[i] && forall k | 0 <= k < i :: a[k] == b[k] {
        assert s[i - 1] < t[i - 1] && forall k | 0 <= k < i - 1 :: s[k] == t[k];
      }
    }
  }

  predicate StrLt(a: string, b: string) {
    a != b && StrLe(a, b)
  }

  lemma StrLeTotal(a: string, b: string)
    ensures StrLe(a, b) || StrLe(b, a)
  {
  }

  lemma StrLeAntisymmetric(a: string, b: string)
    requires StrLe(a, b) && StrLe(b, a)
    ensures a == b
  {
    if a != [] && b != [] {
      StrLeAntisymmetric(a[1..], b[1..]);
      assert a == [a[0]] + a[1..] && b == [b[0]] + b[1..];
    }
  }

  lemma StrLeTransitive(a: string, b: string, c: string)
    requires StrLe(a, b) && StrLe(b, c)
    ensures StrLe(a, c)
  {
    if a != [] && b != [] && c != [] && a[0] == b[0] == c[0] {
      StrLeTransitive(a[1..], b[1..], c[1..]);
    }
  }

  ghost predicate Total<T(!new)>(le: (T, T) -> bool) {
    forall x, y :: le(x, y) || le(y, x)
  }

  ghost predicate Transitive<T(!new)>(le: (T, T) -> bool) {
    forall x, y, z :: le(x, y) && le(y, z) ==> le(x, z)
  }

  /** No two different elements of `xs` tie under `le`. */
  ghost predicate Separates<T>(le: (T, T) -> bool, xs: seq<T>) {
    forall x, y | x in xs && y in xs :: le(x, y) && le(y, x) ==> x == y
  }

  ghost predicate Sorted<T>(xs: seq<T>, le: (T, T) -> bool) {
    forall i, j | 0 <= i < j < |xs| :: le(xs[i], xs[j])
  }

  lemma StrLeIsAnOrder()
    ensures Total(StrLe) && Transitive(StrLe)
  {
    forall a: string, b: string ensures StrLe(a, b) || StrLe(b, a) {
      StrLeTotal(a, b);
    }
    forall a: string, b: string, c: string | StrLe(a, b) && StrLe(b, c) ensures StrLe(a, c) {
      StrLeTransitive(a, b, c);
    }
  }

  lemma StringsSeparated(xs: seq<string>)
    ensures Separates(StrLe, xs)
  {
    forall a, b | a in xs && b in xs && StrLe(a, b) && StrLe(b, a) ensures a == b {
      StrLeAntisymmetric(a, b);
    }
  }

  /** Puts `x` before the first element it does not exceed. */
  function Insert<T>(x: T, xs: seq<T>, le: (T, T) -> bool): seq<T> {
    if xs == [] then [x]
    else if le(x, xs[0]) then [x] + xs
    else [xs[0]] + Insert(x, xs[1..], le)
  }

  /** Stable insertion sort: Python's `sorted` with a key, the key folded into `le`. */
  function SortBy<T>(xs: seq<T>, le: (T, T) -> bool): seq<T> {
    if xs == [] then [] else Insert(xs[0], SortBy(xs[1..], le), le)
  }

  lemma {:induction false} InsertPermutes<T>(x: T, xs: seq<T>, le: (T, T) -> bool)
    ensures multiset(Insert(x, xs, le)) == multiset{x} + multiset(xs)
  {
    if xs != [] {
      assert xs == [xs[0]] + xs[1..];
      if !le(x, xs[0]) {
        InsertPermutes(x, xs[1..], le);
      }
    }
  }

  lemma {:induction false} SortPermutes<T>(xs: seq<T>, le: (T, T) -> bool)
    ensures multiset(SortBy(xs, le)) == multiset(xs)
    ensures |SortBy(xs, le)| == |xs|
    ensures forall x :: x in SortBy(xs, le) <==> x in xs
  {
    if xs != [] {
      SortPermutes(xs[1..], le);
      InsertPermutes(xs[0], SortBy(xs[1..], le), le);
      assert xs == [xs[0]] + xs[1..];
    }
    SameMultiset(SortBy(xs, le), xs);
  }

  /** What is inserted comes before everything it may precede. */
  lemma {:induction false} InsertedBefore<T>(x: T, ys: seq<T>, le: (T, T) -> bool, y: T) returns (i: nat, j: nat)
    requires y in ys && le(x, y)
    ensures var zs := Insert(x, ys, le); i < j < |zs| && zs[i] == x && zs[j] == y
  {
    if le(x, ys[0]) {
      i := 0;
      var k :| 0 <= k < |ys| && ys[k] == y;
      j := k + 1;
    } else {
      assert ys == [ys[0]] + ys[1..];
      i, j := InsertedBefore(x, ys[1..], le, y);
      i, j := i + 1, j + 1;
    }
  }

  /** Two elements that are in order keep their order when another is inserted. */
  lemma {:induction false} InsertKeepsOrder<T>(x: T, ys: seq<T>, le: (T, T) -> bool, p: nat, q: nat)
    returns (i: nat, j: nat)
    requires p < q < |ys|
    ensures var zs := Insert(x, ys, le); i < j < |zs| && zs[i] == ys[p] && zs[j] == ys[q]
  {
    InsertPermutes(x, ys, le);
    if le(x, ys[0]) {
      i, j := p + 1, q + 1;
    } else if p > 0 {
      i, j := InsertKeepsOrder(x, ys[1..], le, p - 1, q - 1);
      i, j := i + 1, j + 1;
    } else {
      InsertPermutes(x, ys[1..], le);
      assert ys[1..][q - 1] == ys[q];
      assert ys[q] in multiset(Insert(x, ys[1..], le));
      var k :| 0 <= k < |Insert(x, ys[1..], le)| && Insert(x, ys[1..], le)[k] == ys[q];
      i, j := 0, k + 1;
    }
  }

  /** The sort is stable: an element keeps its place before a later one that it may precede. */
  lemma {:induction false} SortStable<T>(xs: seq<T>, le: (T, T) -> bool, a: nat, b: nat) returns (i: nat, j: nat)
    requires a < b < |xs| && le(xs[a], xs[b])
    ensures var zs := SortBy(xs, le); i < j < |zs| && zs[i] == xs[a] && zs[j] == xs[b]
  {
    var rest := xs[1..];
    if a > 0 {
      i, j := SortStable(rest, le, a - 1, b - 1);
      i, j := InsertKeepsOrder(xs[0], SortBy(rest, le), le, i, j);
    } else {
      SortPermutes(rest, le);
      assert rest[b - 1] in rest;
      i, j := InsertedBefore(xs[0], SortBy(rest, le), le, xs[b]);
    }
  }

  lemma SameMultiset<T>(xs: seq<T>, ys: seq<T>)
    requires multiset(xs) == multiset(ys)
    ensures |xs| == |ys|
    ensures forall x :: x in xs <==> x in ys
  {
    assert |multiset(xs)| == |multiset(ys)|;
    forall x ensures x in xs <==> x in ys {
      assert x in xs <==> x in multiset(xs);
      assert x in ys <==> x in multiset(ys);
    }
  }

  lemma {:induction false} InsertSorts<T(!new)>(x: T, xs: seq<T>, le: (T, T) -> bool)
    requires Total(le) && Transitive(le) && Sorted(xs, le)
    ensures Sorted(Insert(x, xs, le), le)
  {
    if xs != [] && !le(x, xs[0]) {
      var rest := Insert(x, xs[1..], le);
      InsertSorts(x, xs[1..], le);
      InsertPermutes(x, xs[1..], le);
      forall y | y in rest ensures le(xs[0], y) {
        assert y in multiset(rest);
        assert y == x || y in xs[1..];
      }
    }
  }

  lemma {:induction false} SortSorts<T(!new)>(xs: seq<T>, le: (T, T) -> bool)
    requires Total(le) && Transitive(le)
    ensures Sorted(SortBy(xs, le), le)
  {
    if xs != [] {
      SortSorts(xs[1..], le);
      InsertSorts(xs[0], SortBy(xs[1..], le), le);
    }
  }

  lemma SortedHeadIsLeast<T>(xs: seq<T>, le: (T, T) -> bool, x: T)
    requires Sorted(xs, le) && x in xs && x != xs[0]
    ensures le(xs[0], x)
  {
    var i :| 0 <= i < |xs| && xs[i] == x;
  }

  lemma TailContents<T>(xs: seq<T>)
    requires xs != []
    ensures multiset(xs[1..]) == multiset(xs) - multiset{xs[0]}
  {
    assert xs == [xs[0]] + xs[1..];
  }

  lemma RemoveAt<T>(xs: seq<T>, i: nat)
    requires i < |xs|
    ensures multiset(xs) == multiset{xs[i]} + multiset(xs[..i] + xs[i + 1..])
  {
    assert xs == xs[..i] + [xs[i]] + xs[i + 1..];
  }

  /** Where a permutation has the first element, and what remains on both sides. */
  lemma FindFirst<T>(xs: seq<T>, ys: seq<T>) returns (i: nat)
    requires xs != [] && multiset(xs) == multiset(ys)
    ensures i < |ys| && ys[i] == xs[0] && multiset(xs[1..]) == multiset(ys[..i] + ys[i + 1..])
  {
    SameMultiset(xs, ys);
    assert xs[0] in ys;
    i :| i < |ys| && ys[i] == xs[0];
    TailContents(xs);
    RemoveAt(ys, i);
  }

  lemma SameLeast<T>(xs: seq<T>, ys: seq<T>, le: (T, T) -> bool)
    requires xs != [] && ys != [] && Sorted(xs, le) && Sorted(ys, le) && Separates(le, xs)
    requires forall x :: x in xs <==> x in ys
    ensures xs[0] == ys[0]
  {
    var x, y := xs[0], ys[0];
    assert x in xs && y in ys;
    if x != y {
      SortedHeadIsLeast(xs, le, y);
      SortedHeadIsLeast(ys, le, x);
    }
  }

  lemma SortedTail<T>(xs: seq<T>, le: (T, T) -> bool)
    requires xs != [] && Sorted(xs, le)
    ensures Sorted(xs[1..], le)
  {
  }

  lemma SameTails<T>(xs: seq<T>, ys: seq<T>)
    requires xs != [] && ys != [] && xs[0] == ys[0] && multiset(xs) == multiset(ys)
    ensures multiset(xs[1..]) == multiset(ys[1..])
  {
    TailContents(xs);
    TailContents(ys);
  }

  lemma HeadAndTail<T>(xs: seq<T>, ys: seq<T>)
    requires xs != [] && ys != [] && xs[0] == ys[0] && xs[1..] == ys[1..]
    ensures xs == ys
  {
    assert xs == [xs[0]] + xs[1..] && ys == [ys[0]] + ys[1..];
  }

  lemma SeparatesTail<T>(xs: seq<T>, le: (T, T) -> bool)
    requires xs != [] && Separates(le, xs)
    ensures Separates(le, xs[1..])
  {
    Members(xs);
  }

  /** A sorted arrangement is unique when the order separates the elements. */
  lemma {:induction false} SortedUnique<T>(xs: seq<T>, ys: seq<T>, le: (T, T) -> bool)
    requires Sorted(xs, le) && Sorted(ys, le)
    requires multiset(xs) == multiset(ys)
    requires Separates(le, xs)
    ensures xs == ys
  {
    hide Sorted, Separates;
    SameMultiset(xs, ys);
    if xs != [] {
      SameLeast(xs, ys, le);
      SameTails(xs, ys);
      SeparatesTail(xs, le);
      SortedTail(xs, le);
      SortedTail(ys, le);
      SortedUnique(xs[1..], ys[1..], le);
      HeadAndTail(xs, ys);
    }
  }

  /** Two inputs with the same contents sort to the same sequence. */
  lemma SortDependsOnContents<T(!new)>(xs: seq<T>, ys: seq<T>, le: (T, T) -> bool)
    requires Total(le) && Transitive(le) && Separates(le, xs)
    requires multiset(xs) == multiset(ys)
    ensures SortBy(xs, le) == SortBy(ys, le)
  {
    SortPermutes(xs, le);
    SortPermutes(ys, le);
    SortSorts(xs, le);
    SortSorts(ys, le);
    SortedUnique(SortBy(xs, le), SortBy(ys, le), le);
  }

  /** The elements that satisfy `p`, in order: a Python comprehension. */
  function Filter<T>(xs: seq<T>, p: T -> bool): seq<T> {
    if xs == [] then []
    else if p(xs[0]) then [xs[0]] + Filter(xs[1..], p)
    else Filter(xs[1..], p)
  }

  lemma {:induction false} FilterKeeps<T>(xs: seq<T>, p: T -> bool)
    ensures forall x :: x in Filter(xs, p) <==> x in xs && p(x)
    ensures |Filter(xs, p)| <= |xs|
  {
    if xs != [] {
      FilterKeeps(xs[1..], p);
      assert xs == [xs[0]] + xs[1..];
    }
  }

  lemma Members<T>(xs: seq<T>)
    requires xs != []
    ensures xs[0] in xs && forall x :: x in xs <==> x == xs[0] || x in xs[1..]
  {
    assert xs == [xs[0]] + xs[1..];
  }

  function SetOf<T>(xs: seq<T>): set<T> {
    set x | x in xs
  }

  ghost predicate Distinct<T>(xs: seq<T>) {
    forall i, j | 0 <= i < j < |xs| :: xs[i] != xs[j]
  }

  lemma {:induction false} FilterDistinct<T>(xs: seq<T>, p: T -> bool)
    requires Distinct(xs)
    ensures Distinct(Filter(xs, p))
  {
    if xs != [] {
      FilterDistinct(xs[1..], p);
      FilterKeeps(xs[1..], p);
    }
  }

  lemma RepeatCounts<T>(xs: seq<T>, i: nat, j: nat)
    requires i < j < |xs| && xs[i] == xs[j]
    ensures multiset(xs)[xs[i]] >= 2
  {
    assert xs == xs[..j] + xs[j..];
    assert xs[i] == xs[..j][i] && xs[j] == xs[j..][0];
    assert xs[i] in xs[..j] && xs[i] in xs[j..];
  }

  lemma {:induction false} DistinctCountsOnce<T>(xs: seq<T>)
    requires Distinct(xs)
    ensures forall x | x in xs :: multiset(xs)[x] == 1
    ensures |SetOf(xs)| == |xs|
  {
    if xs != [] {
      var tail := xs[1..];
      DistinctCountsOnce(tail);
      assert xs == [xs[0]] + tail;
      assert multiset(xs) == multiset{xs[0]} + multiset(tail);
      assert xs[0] !in tail;
      assert SetOf(xs) == SetOf(tail) + {xs[0]};
    }
  }

  /** Duplicate-free is a property of the contents alone. */
  lemma DistinctCounts<T>(xs: seq<T>)
    ensures Distinct(xs) <==> forall x | x in xs :: multiset(xs)[x] == 1
    ensures Distinct(xs) ==> |SetOf(xs)| == |xs|
  {
    if Distinct(xs) {
      DistinctCountsOnce(xs);
    } else {
      var i: nat, j: nat :| i < j < |xs| && xs[i] == xs[j];
      RepeatCounts(xs, i, j);
    }
  }

  lemma SubsetSize<T>(a: set<T>, b: set<T>)
    requires a <= b
    ensures |a| <= |b|
  {
    assert b == a + (b - a);
  }

  /** As many different elements as positions: no element twice. */
  lemma {:induction false} FullSetDistinct<T>(xs: seq<T>)
    ensures |SetOf(xs)| <= |xs|
    ensures |SetOf(xs)| == |xs| ==> Distinct(xs)
  {
    if xs != [] {
      var tail := xs[1..];
      FullSetDistinct(tail);
      Members(xs);
      assert SetOf(xs) == SetOf(tail) + {xs[0]};
      if xs[0] in tail {
        assert SetOf(xs) == SetOf(tail);
      }
    }
  }

  lemma DistinctByContents<T>(xs: seq<T>, ys: seq<T>)
    requires multiset(xs) == multiset(ys) && Distinct(xs)
    ensures Distinct(ys)
  {
    SameMultiset(xs, ys);
    DistinctCounts(xs);
    DistinctCounts(ys);
  }

  /** Duplicate-free sequences with the same elements are permutations of each other. */
  lemma SameElementsPermute<T>(xs: seq<T>, ys: seq<T>)
    requires Distinct(xs) && Distinct(ys)
    requires forall x :: x in xs <==> x in ys
    ensures multiset(xs) == multiset(ys)
  {
    DistinctCounts(xs);
    DistinctCounts(ys);
    forall x ensures multiset(xs)[x] == multiset(ys)[x] {
      if x in xs {
        assert multiset(xs)[x] == 1 && multiset(ys)[x] == 1;
      } else {
        assert x !in multiset(xs) && x !in multiset(ys);
      }
    }
  }

  lemma TwoElements<T>(s: set<T>)
    ensures |s| > 1 <==> exists a, b :: a in s && b in s && a != b
  {
    if |s| > 1 {
      var a :| a in s;
      assert |s - {a}| > 0;
      var b :| b in s - {a};
    } else if s != {} {
      var a :| a in s;
      assert s - {a} == {} by {
        assert |s - {a}| == 0;
      }
      forall b | b in s ensures b == a {
        assert b !in s - {a};
      }
    }
  }

  // ---- sorting a set of strings

  predicate Least(m: string, s: set<string>) {
    m in s && forall x | x in s :: StrLe(m, x)
  }

  lemma {:induction false} LeastExists(s: set<string>)
    requires s != {}
    ensures exists m :: Least(m, s)
    decreases |s|
  {
    var x :| x in s;
    StrLeTotal(x, x);
    if s == {x} {
      assert Least(x, s);
    } else {
      LeastExists(s - {x});
      var m :| Least(m, s - {x});
      StrLeTotal(m, x);
      if StrLe(m, x) {
        assert Least(m, s);
      } else {
        forall y | y in s ensures StrLe(x, y) {
          if y != x { StrLeTransitive(x, m, y); }
        }
        assert Least(x, s);
      }
    }
  }

  lemma LeastIsUnique(s: set<string>)
    ensures forall a, b | Least(a, s) && Least(b, s) :: a == b
  {
    forall a, b | Least(a, s) && Least(b, s) ensures a == b {
      StrLeAntisymmetric(a, b);
    }
  }

  lemma LeastInFront(m: string, s: set<string>, rest: seq<string>)
    requires Least(m, s) && Distinct(rest) && Sorted(rest, StrLe) && forall x :: x in rest <==> x in s - {m}
    ensures Distinct([m] + rest) && Sorted([m] + rest, StrLe) && forall x :: x in [m] + rest <==> x in s
  {
    hide StrLe;
    var r := [m] + rest;
    forall i, j | 0 <= i < j < |r| ensures r[i] != r[j] && StrLe(r[i], r[j]) {
      assert r[j] == rest[j - 1] && rest[j - 1] in rest;
      if i > 0 {
        assert r[i] == rest[i - 1];
      }
    }
  }

  /** Python's `sorted` of a set of strings. */
  function SortedList(s: set<string>): (r: seq<string>)
    ensures Distinct(r) && Sorted(r, StrLe) && forall x :: x in r <==> x in s
    decreases |s|
  {
    if s == {} then []
    else
      LeastExists(s);
      LeastIsUnique(s);
      var m :| Least(m, s);
      var rest := SortedList(s - {m});
      LeastInFront(m, s, rest);
      [m] + rest
  }
}
