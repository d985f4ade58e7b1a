/** Dependency graphs of plans: layers, longest chains and cycles, and the one ordering
    that a layered topological sort can produce. */
module PlanGraph {
  import opened Ordering

  /** Each step id with the ids it depends on. */
  type Graph = map<string, set<string>>

  /** Dependencies are other step ids. */
  ghost predicate Closed(g: Graph) {
    forall id | id in g :: g[id] <= g.Keys - {id}
  }

  /** A dependency chain: every id is a dependency of the next one. */
  ghost predicate Chain(g: Graph, c: seq<string>) {
    && (forall i | 0 <= i < |c| :: c[i] in g)
    && (forall i | 0 <= i < |c| - 1 :: c[i] in g[c[i + 1]])
  }

  ghost predicate ChainTo(g: Graph, c: seq<string>, id: string) {
    c != [] && Chain(g, c) && c[|c| - 1] == id
  }

  ghost predicate Cycle(g: Graph, c: seq<string>) {
    |c| >= 2 && Chain(g, c) && c[0] == c[|c| - 1]
  }

  /** `n` is the length of the longest dependency chain that ends at `id`. */
  ghost predicate LongestChain(g: Graph, id: string, n: nat) {
    && (exists c :: ChainTo(g, c, id) && |c| == n)
    && (forall c | ChainTo(g, c, id) :: |c| <= n)
  }

  // ---- layers

  /** The ids whose dependencies are complete within `k` rounds. */
  ghost function Done(g: Graph, k: nat): set<string> {
    if k == 0 then {} else set id | id in g && g[id] <= Done(g, k - 1)
  }

  lemma {:induction false} DoneGrows(g: Graph, k: nat)
    ensures Done(g, k) <= Done(g, k + 1) <= g.Keys
  {
    if k > 0 {
      DoneGrows(g, k - 1);
    }
  }

  lemma {:induction false} DoneMonotone(g: Graph, j: nat, k: nat)
    requires j <= k
    ensures Done(g, j) <= Done(g, k)
    decreases k - j
  {
    if j < k {
      DoneGrows(g, j);
      DoneMonotone(g, j + 1, k);
    }
  }

  /** No chain into a layer is longer than the layer's number. */
  lemma {:induction false} ChainsFitLayers(g: Graph, k: nat, c: seq<string>, id: string)
    requires id in Done(g, k) && ChainTo(g, c, id)
    ensures |c| <= k
    decreases k
  {
    if |c| > 1 {
      var p := c[|c| - 2];
      assert p in g[id];
      ChainsFitLayers(g, k - 1, c[..|c| - 1], p);
    }
  }

  /** An id that is new in layer `k` ends a chain of length `k`. */
  lemma {:induction false} NewInLayerHasChain(g: Graph, k: nat, id: string) returns (c: seq<string>)
    requires Closed(g) && k > 0 && id in Done(g, k) && id !in Done(g, k - 1)
    ensures ChainTo(g, c, id) && |c| == k
    decreases k
  {
    if k == 1 {
      c := [id];
    } else {
      assert !(g[id] <= Done(g, k - 2));
      var p :| p in g[id] && p !in Done(g, k - 2);
      var rest := NewInLayerHasChain(g, k - 1, p);
      c := rest + [id];
    }
  }

  lemma LayerIsLongestChain(g: Graph, k: nat, id: string)
    requires Closed(g) && k > 0 && id in Done(g, k) && id !in Done(g, k - 1)
    ensures LongestChain(g, id, k)
  {
    var c := NewInLayerHasChain(g, k, id);
    forall d | ChainTo(g, d, id) ensures |d| <= k {
      ChainsFitLayers(g, k, d, id);
    }
  }

  lemma LongestChainUnique(g: Graph, id: string, m: nat, n: nat)
    requires LongestChain(g, id, m) && LongestChain(g, id, n)
    ensures m == n
  {
  }

  // ---- cycles

  /** Nothing on a cycle is ever done. */
  lemma {:induction false} CycleNeverDone(g: Graph, c: seq<string>, k: nat, i: nat)
    requires Cycle(g, c) && i < |c|
    ensures c[i] !in Done(g, k)
    decreases k
  {
    if c[i] in Done(g, k) {
      var p := if i == 0 then |c| - 2 else i - 1;
      assert c[p] in g[c[i]];
      CycleNeverDone(g, c, k - 1, p);
      assert false;
    }
  }

  ghost predicate Stuck(g: Graph, k: nat) {
    Done(g, k) == Done(g, k + 1) && Done(g, k) != g.Keys
  }

  lemma StuckStep(g: Graph, k: nat, id: string) returns (p: string)
    requires Closed(g) && Stuck(g, k) && id in g.Keys - Done(g, k)
    ensures p in g[id] && p in g.Keys - Done(g, k)
  {
    assert id !in Done(g, k + 1);
    p :| p in g[id] && p !in Done(g, k);
  }

  /** Among ids that are stuck, one can walk along dependencies for as long as one likes. */
  lemma {:induction false} StuckWalk(g: Graph, k: nat, n: nat) returns (c: seq<string>)
    requires Closed(g) && Stuck(g, k)
    ensures Chain(g, c) && |c| == n + 1 && SetOf(c) <= g.Keys
    ensures c[0] in g.Keys - Done(g, k)
  {
    hide Closed, SetOf;
    if n == 0 {
      DoneGrows(g, k);
      ProperSubset(Done(g, k), g.Keys);
      var id :| id in g.Keys - Done(g, k);
      c := [id];
    } else {
      var rest := StuckWalk(g, k, n - 1);
      var p := StuckStep(g, k, rest[0]);
      c := [p] + rest;
    }
    ChainInGraph(g, c);
  }

  lemma ProperSubset(a: set<string>, b: set<string>)
    requires a <= b && a != b
    ensures b - a != {}
  {
    var x :| x in b && x !in a;
    assert x in b - a;
  }

  lemma ChainInGraph(g: Graph, c: seq<string>)
    requires Chain(g, c)
    ensures SetOf(c) <= g.Keys
  {
  }

  lemma Repeats(walk: seq<string>, names: set<string>) returns (i: nat, j: nat)
    requires SetOf(walk) <= names && |walk| > |names|
    ensures i < j < |walk| && walk[i] == walk[j]
  {
    assert !Distinct(walk) by {
      DistinctCounts(walk);
      SubsetSize(SetOf(walk), names);
    }
    i, j :| 0 <= i < j < |walk| && walk[i] == walk[j];
  }

  /** When a round completes nothing new although ids remain, there is a cycle. */
  lemma StuckHasCycle(g: Graph, k: nat) returns (c: seq<string>)
    requires Closed(g) && Stuck(g, k)
    ensures Cycle(g, c)
  {
    hide Closed, Stuck, SetOf;
    var walk := StuckWalk(g, k, |g.Keys|);
    var i, j := Repeats(walk, g.Keys);
    c := walk[i..j + 1];
    forall m | 0 <= m < |c| - 1 ensures c[m] in g[c[m + 1]] {
      assert c[m] == walk[i + m] && c[m + 1] == walk[i + m + 1];
    }
  }

  // ---- the canonical order

  /** Shorter longest chain first, equal ones by id. */
  ghost predicate Precedes(g: Graph, a: string, b: string) {
    exists m: nat, n: nat :: LongestChain(g, a, m) && LongestChain(g, b, n) && (m < n || (m == n && StrLt(a, b)))
  }

  /** Every id once, ordered by length of the longest dependency chain and then by id. */
  ghost predicate Canonical(g: Graph, order: seq<string>) {
    Distinct(order) && SetOf(order) == g.Keys && Arranged(g, order)
  }

  ghost predicate Arranged(g: Graph, xs: seq<string>) {
    forall i, j | 0 <= i < j < |xs| :: Precedes(g, xs[i], xs[j])
  }

  lemma PrecedesAsymmetric(g: Graph, a: string, b: string)
    requires Precedes(g, a, b)
    ensures !Precedes(g, b, a)
  {
    var m: nat, n: nat :| LongestChain(g, a, m) && LongestChain(g, b, n) && (m < n || (m == n && StrLt(a, b)));
    forall p: nat, q: nat | LongestChain(g, b, p) && LongestChain(g, a, q) ensures !(p < q || (p == q && StrLt(b, a))) {
      LongestChainUnique(g, a, m, q);
      LongestChainUnique(g, b, n, p);
      if StrLe(a, b) && StrLe(b, a) {
        StrLeAntisymmetric(a, b);
      }
    }
  }

  /** A graph has at most one canonical order. */
  lemma CanonicalUnique(g: Graph, xs: seq<string>, ys: seq<string>)
    requires Canonical(g, xs) && Canonical(g, ys)
    ensures xs == ys
  {
    forall x ensures x in xs <==> x in ys {
      assert x in xs <==> x in SetOf(xs);
      assert x in ys <==> x in SetOf(ys);
    }
    SameElementsPermute(xs, ys);
    ArrangedUnique(g, xs, ys);
  }

  lemma ArrangedTail(g: Graph, xs: seq<string>)
    requires xs != [] && Arranged(g, xs)
    ensures Arranged(g, xs[1..])
  {
    hide Precedes;
  }

  lemma HeadPrecedes(g: Graph, xs: seq<string>, x: string)
    requires Arranged(g, xs) && x in xs && x != xs[0]
    ensures Precedes(g, xs[0], x)
  {
    hide Precedes;
    var i :| 0 <= i < |xs| && xs[i] == x;
  }

  lemma SameHead(g: Graph, xs: seq<string>, ys: seq<string>)
    requires xs != [] && ys != [] && Arranged(g, xs) && Arranged(g, ys)
    requires forall x :: x in xs <==> x in ys
    ensures xs[0] == ys[0]
  {
    hide Arranged, Precedes;
    var x, y := xs[0], ys[0];
    assert x in ys && y in xs;
    if x != y {
      HeadPrecedes(g, xs, y);
      HeadPrecedes(g, ys, x);
      PrecedesAsymmetric(g, x, y);
    }
  }

  lemma {:induction false} ArrangedUnique(g: Graph, xs: seq<string>, ys: seq<string>)
    requires multiset(xs) == multiset(ys) && Arranged(g, xs) && Arranged(g, ys)
    ensures xs == ys
  {
    hide Arranged;
    SameMultiset(xs, ys);
    if xs != [] {
      SameHead(g, xs, ys);
      TailContents(xs);
      TailContents(ys);
      ArrangedTail(g, xs);
      ArrangedTail(g, ys);
      ArrangedUnique(g, xs[1..], ys[1..]);
      assert xs == [xs[0]] + xs[1..] && ys == [ys[0]] + ys[1..];
    }
  }

  /** In a canonical order every dependency comes earlier. */
  lemma DependenciesComeFirst(g: Graph, order: seq<string>, i: nat, j: nat)
    requires Closed(g) && Canonical(g, order) && i < |order| && j < |order| && order[i] in g && order[j] in g[order[i]]
    ensures j < i
  {
    var a, b := order[j], order[i];
    if i < j {
      var m: nat, n: nat :| LongestChain(g, b, m) && LongestChain(g, a, n) && (m < n || (m == n && StrLt(b, a)));
      ChainExtends(g, a, b, n, m);
    }
  }

  lemma ChainExtends(g: Graph, a: string, b: string, n: nat, m: nat)
    requires a in g && b in g && a in g[b] && LongestChain(g, a, n) && LongestChain(g, b, m)
    ensures n < m
  {
    var c :| ChainTo(g, c, a) && |c| == n;
    assert ChainTo(g, c + [b], b);
  }
}
