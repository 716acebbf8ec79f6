/** Inequalities over the reals that the solver needs one step at a time. */
module RealArithmetic {

  lemma Product(a: real, b: real, c: real)
    requires 0.0 <= a && b <= c
    ensures a * b <= a * c
  {
  }

  lemma StrictSquares(x: real, y: real)
    requires 0.0 <= y < x
    ensures y * y < x * x
  {
    var d, s := x - y, x + y;
    assert d * s > 0.0;
    assert d * s == x * x - y * y;
  }

  lemma RootBelow(x: real, y: real)
    requires y >= 0.0 && x * x <= y * y
    ensures x <= y
  {
    if x > y { StrictSquares(x, y); }
  }

  lemma Mean(u: real, v: real, w: real)
    requires u >= 0.0 && v >= 0.0 && w * w <= u * v
    ensures 2.0 * w <= u + v
  {
    assert (u - v) * (u - v) >= 0.0;
    assert (u + v) * (u + v) == (u - v) * (u - v) + 4.0 * (u * v);
    assert (2.0 * w) * (2.0 * w) == 4.0 * (w * w);
    RootBelow(2.0 * w, u + v);
  }

  lemma Mixed(a: real, b: real, p: real, q: real)
    requires 0.0 <= a <= p && 0.0 <= b <= q
    ensures a * b <= p * q
  {
    Product(a, b, q); Product(q, a, p);
  }

  lemma Shuffle(a: real, b: real, n1: real, q1: real, n2: real, q2: real)
    ensures (a * b) * (a * b) == (a * a) * (b * b)
    ensures (n1 * q2) * (n2 * q1) == (n1 * q1) * (n2 * q2)
  {
  }

  /** The Cauchy-Schwarz inequality survives adding two samples: sizes n, sums a, sums of squares q. */
  lemma PooledSquares(n1: real, a1: real, q1: real, n2: real, a2: real, q2: real)
    requires n1 >= 0.0 && n2 >= 0.0 && q1 >= 0.0 && q2 >= 0.0
    requires a1 * a1 <= n1 * q1 && a2 * a2 <= n2 * q2
    ensures (a1 + a2) * (a1 + a2) <= (n1 + n2) * (q1 + q2)
  {
    assert a1 * a1 >= 0.0 && a2 * a2 >= 0.0 && n1 * q2 >= 0.0 && n2 * q1 >= 0.0;
    Mixed(a1 * a1, a2 * a2, n1 * q1, n2 * q2);
    Shuffle(a1, a2, n1, q1, n2, q2);
    Mean(n1 * q2, n2 * q1, a1 * a2);
    assert (a1 + a2) * (a1 + a2) == a1 * a1 + 2.0 * (a1 * a2) + a2 * a2;
    assert (n1 + n2) * (q1 + q2) == n1 * q1 + n1 * q2 + n2 * q1 + n2 * q2;
  }

  lemma Scale(n: real, u: real, v: real)
    requires n > 0.0 && u > v
    ensures n * u > n * v
  {
  }

  lemma Cancel(n: real, u: real, v: real)
    requires n > 0.0 && n * u <= n * v
    ensures u <= v
  {
    if u > v { Scale(n, u, v); }
  }
}
