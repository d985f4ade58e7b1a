/** The rows a virtualized list renders around the viewport. Heights and offsets are exact
    reals, row counts are integers. */
module VirtualWindow {
  import opened RealArithmetic

  datatype Input = Input(itemCount: int, itemHeight: real, viewportHeight: real, scrollTop: real, overscan: int)

  datatype Window = Window(startIndex: int, endIndex: int, offsetTop: real, totalHeight: real)

  function FirstVisible(v: Input): int
    requires v.itemHeight > 0.0
  {
    ((if v.scrollTop >= 0.0 then v.scrollTop else 0.0) / v.itemHeight).Floor
  }

  function VisibleCount(v: Input): int
    requires v.itemHeight > 0.0
  {
    Ceil(v.viewportHeight / v.itemHeight)
  }

  function WindowOf(v: Input): Window
    requires v.itemHeight > 0.0
  {
    var count := Greater(0, v.itemCount);
    var start := Greater(0, FirstVisible(v) - v.overscan);
    Window(start, Lesser(count, FirstVisible(v) + VisibleCount(v) + v.overscan), start as real * v.itemHeight,
           count as real * v.itemHeight)
  }

  /** The window from the row at the top of the viewport, `first`, and the least number of
      rows that fill the viewport, `count`: both widened by the overscan, and cut off at the
      ends of the list. */
  lemma WindowExactly(v: Input, first: int, count: int)
    requires v.itemHeight > 0.0
    requires var top := if v.scrollTop < 0.0 then 0.0 else v.scrollTop;
             first as real * v.itemHeight <= top < (first + 1) as real * v.itemHeight
    requires (count - 1) as real * v.itemHeight < v.viewportHeight <= count as real * v.itemHeight
    ensures var w, items := WindowOf(v), if v.itemCount < 0 then 0 else v.itemCount;
            && w.startIndex == (if first < v.overscan then 0 else first - v.overscan)
            && w.endIndex == (if first + count + v.overscan < items then first + count + v.overscan else items)
            && w.offsetTop == w.startIndex as real * v.itemHeight && w.totalHeight == items as real * v.itemHeight
  {
    var h, top := v.itemHeight, if v.scrollTop < 0.0 then 0.0 else v.scrollTop;
    Within(top, first, first as real, h);
    NegatedProduct(count, h);
    Within(-v.viewportHeight, -count, (-count) as real, h);
    NegatedQuotient(v.viewportHeight, h);
    assert FirstVisible(v) == first && VisibleCount(v) == count;
    hide FirstVisible, VisibleCount;
  }

  lemma Within(x: real, n: int, y: real, h: real)
    requires h > 0.0 && y == n as real && y * h <= x < (y + 1.0) * h
    ensures (x / h).Floor == n
  {
    var q, z := x / h, y + 1.0;
    QuotientTimes(x, h);
    MulOrder(q, y, h);
    MulOrder(q, z, h);
    assert y <= q < z;
  }

  lemma NegatedProduct(n: int, h: real)
    ensures (-n) as real * h == -(n as real * h) && ((-n) as real + 1.0) * h == -((n - 1) as real * h)
  {
  }

  lemma NegatedQuotient(x: real, h: real)
    requires h > 0.0
    ensures (-x) / h == -(x / h)
  {
  }

  /** Row `i` lies between `i` and `i + 1` heights; some of it is inside the viewport. */
  predicate Meets(v: Input, i: nat) {
    i as real * v.itemHeight < v.scrollTop + v.viewportHeight && v.scrollTop < (i + 1) as real * v.itemHeight
  }

  /** A row that meets the viewport, in units of rows. */
  lemma MeetsInRows(v: Input, i: nat)
    requires v.itemHeight > 0.0 && Meets(v, i)
    ensures FirstVisible(v) <= i <= FirstVisible(v) + VisibleCount(v)
  {
    var h := v.itemHeight;
    var scroll := if v.scrollTop >= 0.0 then v.scrollTop else 0.0;
    var s, n := scroll / h, v.viewportHeight / h;
    assert s * h == scroll && n * h == v.viewportHeight;
    MulOrder(i as real, s + n, h);
    MulOrder(s, (i + 1) as real, h);
    assert (s + n) * h == scroll + v.viewportHeight;
    MulPositive((i + 1) as real, h);
    assert i as real < s + n && s < (i + 1) as real;
  }

  /** With at least one row of overscan, every row that meets the viewport is rendered. */
  lemma CoversViewport(v: Input, i: nat)
    requires v.itemHeight > 0.0 && v.overscan >= 1 && i < v.itemCount && Meets(v, i)
    ensures WindowOf(v).startIndex <= i < WindowOf(v).endIndex
  {
    MeetsInRows(v, i);
  }

  /** With no overscan, exactly the row just past the counted ones can be missed. */
  lemma MissedExactly(v: Input, i: nat)
    requires v.itemHeight > 0.0 && v.overscan == 0 && i < v.itemCount && Meets(v, i)
    ensures WindowOf(v).startIndex <= i < WindowOf(v).endIndex <==> i != FirstVisible(v) + VisibleCount(v)
  {
    MeetsInRows(v, i);
  }

  lemma OverscanIsNeeded()
    ensures var v := Input(10, 2.0, 2.0, 1.0, 0);
            Meets(v, 1) && !(WindowOf(v).startIndex <= 1 < WindowOf(v).endIndex)
  {
    assert (1.0 / 2.0).Floor == 0;
    assert (-(2.0 / 2.0)).Floor == -1;
  }

  /** The work stays proportional to the viewport, however long the list is. */
  lemma WindowIsSmall(v: Input)
    requires v.itemHeight > 0.0 && v.overscan >= 0 && v.viewportHeight >= 0.0
    ensures WindowOf(v).endIndex - WindowOf(v).startIndex <= VisibleCount(v) + 2 * v.overscan
    ensures 0 <= WindowOf(v).startIndex && WindowOf(v).endIndex <= Greater(0, v.itemCount)
  {
  }
}
