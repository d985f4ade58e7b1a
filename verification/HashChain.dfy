/** Hash-linked records: every record's digest covers its body, and its body names the
    digest before it. The digest is an arbitrary function of the body; injectivity is
    assumed only where a lemma says so. */
module HashChain {

  datatype Link<B> = Link(body: B, digest: string)

  ghost predicate Injective<B(!new)>(h: B -> string) {
    forall x, y :: h(x) == h(y) ==> x == y
  }

  /** The start marker is not a digest; no hexadecimal SHA-256 digest reads "GENESIS". */
  ghost predicate Avoids<B(!new)>(h: B -> string, genesis: string) {
    forall x :: h(x) != genesis
  }

  function Head<B>(links: seq<Link<B>>, genesis: string): string {
    if links == [] then genesis else links[|links| - 1].digest
  }

  /** What an auditor demands of record `i`: the right predecessor and the right digest. */
  predicate LinkOk<B>(links: seq<Link<B>>, i: nat, prev: B -> string, h: B -> string, genesis: string)
    requires i < |links|
  {
    && prev(links[i].body) == Head(links[..i], genesis)
    && links[i].digest == h(links[i].body)
  }

  predicate Linked<B>(links: seq<Link<B>>, prev: B -> string, h: B -> string, genesis: string) {
    forall i: nat | i < |links| :: LinkOk(links, i, prev, h, genesis)
  }

  lemma PrefixLinked<B>(links: seq<Link<B>>, k: nat, prev: B -> string, h: B -> string, genesis: string)
    requires k <= |links| && Linked(links, prev, h, genesis)
    ensures Linked(links[..k], prev, h, genesis)
  {
    forall i: nat | i < k ensures LinkOk(links[..k], i, prev, h, genesis) {
      assert LinkOk(links, i, prev, h, genesis);
      assert links[..k][..i] == links[..i];
    }
  }

  lemma AppendLinked<B>(links: seq<Link<B>>, body: B, prev: B -> string, h: B -> string, genesis: string)
    requires Linked(links, prev, h, genesis)
    requires prev(body) == Head(links, genesis)
    ensures Linked(links + [Link(body, h(body))], prev, h, genesis)
  {
    var longer := links + [Link(body, h(body))];
    forall i: nat | i < |longer| ensures LinkOk(longer, i, prev, h, genesis) {
      assert longer[..i] == links[..i];
      if i < |links| {
        assert LinkOk(links, i, prev, h, genesis);
      } else {
        assert links[..i] == links;
      }
    }
  }

  /** Equal heads over equally long accepted chains leave no room for a different past. */
  lemma {:induction false} SameHeadSamePast<B(!new)>(
      xs: seq<Link<B>>, ys: seq<Link<B>>, prev: B -> string, h: B -> string, genesis: string)
    requires Linked(xs, prev, h, genesis) && Linked(ys, prev, h, genesis)
    requires |xs| == |ys| && Head(xs, genesis) == Head(ys, genesis)
    requires Injective(h)
    ensures xs == ys
  {
    if xs != [] {
      var k := |xs| - 1;
      assert LinkOk(xs, k, prev, h, genesis) && LinkOk(ys, k, prev, h, genesis);
      assert xs[k] == ys[k];
      PrefixLinked(xs, k, prev, h, genesis);
      PrefixLinked(ys, k, prev, h, genesis);
      SameHeadSamePast(xs[..k], ys[..k], prev, h, genesis);
      assert xs == xs[..k] + [xs[k]] && ys == ys[..k] + [ys[k]];
    }
  }

  lemma HeadIsDigest<B(!new)>(links: seq<Link<B>>, prev: B -> string, h: B -> string, genesis: string)
    requires Linked(links, prev, h, genesis) && Avoids(h, genesis)
    ensures links != [] ==> Head(links, genesis) != genesis
  {
    if links != [] {
      assert LinkOk(links, |links| - 1, prev, h, genesis);
    }
  }

  /** When no digest equals the genesis marker, the head also fixes the length. */
  lemma {:induction false} SameHeadSameLength<B(!new)>(
      xs: seq<Link<B>>, ys: seq<Link<B>>, prev: B -> string, h: B -> string, genesis: string)
    requires Linked(xs, prev, h, genesis) && Linked(ys, prev, h, genesis)
    requires Head(xs, genesis) == Head(ys, genesis)
    requires Injective(h) && Avoids(h, genesis)
    ensures |xs| == |ys|
  {
    if xs != [] && ys != [] {
      var i, j := |xs| - 1, |ys| - 1;
      assert LinkOk(xs, i, prev, h, genesis) && LinkOk(ys, j, prev, h, genesis);
      PrefixLinked(xs, i, prev, h, genesis);
      PrefixLinked(ys, j, prev, h, genesis);
      SameHeadSameLength(xs[..i], ys[..j], prev, h, genesis);
    } else {
      HeadIsDigest(xs, prev, h, genesis);
      HeadIsDigest(ys, prev, h, genesis);
    }
  }
}
