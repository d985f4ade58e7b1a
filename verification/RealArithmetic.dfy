/** Rounding up, the lesser and the greater of two numbers, and small facts about products of
    reals that the solver needs by name. */
module RealArithmetic {

  function Ceil(x: real): int {
    -((-x).Floor)
  }

  function Lesser(a: int, b: int): int {
    if a <= b then a else b
  }

  function Greater(a: int, b: int): int {
    if a >= b then a else b
  }

  function Min(a: real, b: real): real {
    if a <= b then a else b
  }

  function Max(a: real, b: real): real {
    if a >= b then a else b
  }

  lemma MulPositive(a: real, b: real)
    requires a > 0.0 && b > 0.0
    ensures a * b > 0.0
  {
  }

  /** Multiplying by a positive number keeps the order, both ways. */
  lemma MulOrder(x: real, y: real, m: real)
    requires m > 0.0
    ensures x < y <==> x * m < y * m
    ensures x == y <==> x * m == y * m
  {
    if x < y { assert (y - x) * m > 0.0; }
    if x >= y { assert (x - y) * m >= 0.0; }
    if x > y { assert (x - y) * m > 0.0; }
  }

  lemma Distribute(m: real, a: real, b: real)
    ensures m * (a + b) == m * a + m * b
  {
  }

  lemma MulMonotone(x: real, y: real, m: real)
    requires x <= y && m >= 0.0
    ensures x * m <= y * m
  {
    assert (y - x) * m >= 0.0;
  }

  lemma QuotientTimes(a: real, b: real)
    requires b != 0.0
    ensures a / b * b == a
  {
  }

  /** Comparing two products with the same positive factor, and how far apart they are. */
  lemma Shortfall(a: real, b: real, e: real, m: real, am: real, bm: real, em: real)
    requires m > 0.0 && a * m == am && b * m == bm && e * m == em
    ensures b < a <==> bm < am
    ensures a - b < e ==> am - bm < em
  {
    MulOrder(b, a, m);
    if a - b < e {
      MulPositive(e - (a - b), m);
      assert (e - (a - b)) * m == e * m - a * m + b * m;
    }
  }
}
