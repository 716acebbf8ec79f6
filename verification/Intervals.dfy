/**
 The Wilson interval of a conversion rate and the Newcombe interval of a difference of rates, in exact
 arithmetic. A square root is passed in as the non-negative number whose square is the argument.
 */
module Intervals {
  import opened RealArithmetic

  datatype Interval = Interval(lower: real, upper: real)

  datatype Sample = Sample(goals: nat, exposures: nat)

  predicate Counted(s: Sample) { s.goals <= s.exposures && s.exposures > 0 }

  function Rate(s: Sample): real
    requires s.exposures > 0
  {
    s.goals as real / s.exposures as real
  }

  predicate IsRoot(root: real, x: real) { root >= 0.0 && root * root == x }

  function Clip(low: real, high: real): Interval {
    Interval(if low < 0.0 then 0.0 else low, if high > 1.0 then 1.0 else high)
  }

  function Denominator(s: Sample, z: real): (d: real)
    requires s.exposures > 0
    ensures d >= 1.0
  {
    1.0 + Per(z * z, s)
  }

  /** A non-negative quantity per exposure. */
  function Per(x: real, s: Sample): (q: real)
    requires s.exposures > 0
    ensures x >= 0.0 ==> q >= 0.0
  {
    x / s.exposures as real
  }

  function Center(s: Sample, z: real): real
    requires s.exposures > 0
  {
    (Rate(s) + z * z / (2.0 * s.exposures as real)) / Denominator(s, z)
  }

  /** What wilsonInterval takes the square root of. */
  function Radicand(s: Sample, z: real): real
    requires s.exposures > 0
  {
    var n := s.exposures as real;
    Rate(s) * (1.0 - Rate(s)) / n + z * z / (4.0 * (n * n))
  }

  function Radius(s: Sample, z: real, root: real): real
    requires s.exposures > 0
  {
    z / Denominator(s, z) * root
  }

  function WilsonInterval(s: Sample, z: real, root: real): Interval
    requires s.exposures > 0
  {
    Clip(Center(s, z) - Radius(s, z, root), Center(s, z) + Radius(s, z, root))
  }

  /** The score test at critical value z does not reject the rate q. */
  ghost predicate ScoreAccepts(s: Sample, z: real, q: real)
    requires s.exposures > 0
  {
    (Rate(s) - q) * (Rate(s) - q) <= z * z * (q * (1.0 - q)) / s.exposures as real
  }

  lemma RateBounds(s: Sample)
    requires Counted(s)
    ensures 0.0 <= Rate(s) <= 1.0
  {
    var r, n := Rate(s), s.exposures as real;
    assert r * n == s.goals as real;
    if r > 1.0 { Scale(n, r, 1.0); }
  }

  // The interval in terms of p, k = z * z / n and d = 1 + k

  predicate CenterShape(p: real, k: real, c: real) {
    c * (1.0 + k) == p + k / 2.0
  }

  predicate RadiusShape(p: real, k: real, r: real) {
    (r * (1.0 + k)) * (r * (1.0 + k)) == k * (p * (1.0 - p)) + k * k / 4.0
  }

  predicate Shape(p: real, k: real, c: real, r: real) {
    k >= 0.0 && CenterShape(p, k, c) && RadiusShape(p, k, r)
  }

  lemma CenterScaled(s: Sample, z: real, p: real, k: real, c: real)
    requires s.exposures > 0 && k == Per(z * z, s) && p == Rate(s) && c == Center(s, z)
    ensures CenterShape(p, k, c)
  {
    var n := s.exposures as real;
    var h := z * z / (2.0 * n);
    assert h * (2.0 * n) == z * z;
    assert k * n == z * z;
    assert (2.0 * h) * n == k * n;
    SameFactor(2.0 * h, k, n);
  }

  lemma SameFactor(a: real, b: real, n: real)
    requires n > 0.0 && a * n == b * n
    ensures a == b
  {
    if a > b { Scale(n, a, b); }
    if b > a { Scale(n, b, a); }
  }

  lemma RadiusScaled(s: Sample, z: real, root: real, p: real, k: real, r: real)
    requires s.exposures > 0 && IsRoot(root, Radicand(s, z))
    requires k == Per(z * z, s) && p == Rate(s) && r == Radius(s, z, root)
    ensures RadiusShape(p, k, r)
  {
    var n, d := s.exposures as real, Denominator(s, z);
    var u := z / d;
    assert u * d == z && k * n == z * z;
    hide RadiusShape, IsRoot;
    RadiusPlain(n, z, k, root, p, u);
  }

  lemma RadiusPlain(n: real, z: real, k: real, root: real, p: real, u: real)
    requires n > 0.0 && k * n == z * z && u * (1.0 + k) == z
    requires IsRoot(root, p * (1.0 - p) / n + z * z / (4.0 * (n * n)))
    ensures RadiusShape(p, k, u * root)
  {
    Regroup(u, root, 1.0 + k);
    Squared((u * root) * (1.0 + k), z, root);
    SameProduct(z * z, root * root, p * (1.0 - p) / n + z * z / (4.0 * (n * n)));
    RadicandScaled(n, z, k, p * (1.0 - p));
  }

  lemma SameProduct(a: real, x: real, y: real)
    requires x == y
    ensures a * x == a * y
  {
  }

  lemma Regroup(a: real, b: real, c: real)
    ensures (a * b) * c == (a * c) * b
  {
  }

  lemma Squared(x: real, a: real, b: real)
    requires x == a * b
    ensures x * x == (a * a) * (b * b)
  {
  }

  lemma NonNegative(a: real, b: real)
    requires a >= 0.0 && b >= 0.0
    ensures a * b >= 0.0 && (a > 0.0 && b > 0.0 ==> a * b > 0.0)
  {
  }

  lemma RadicandScaled(n: real, z: real, k: real, v: real)
    requires n > 0.0 && k * n == z * z
    ensures (z * z) * (v / n + z * z / (4.0 * (n * n))) == k * v + k * k / 4.0
  {
    var a, b := v / n, z * z / (4.0 * (n * n));
    NonNegative(n, n);
    assert a * n == v;
    assert b * (4.0 * (n * n)) == z * z;
    assert (4.0 * (b * n)) * n == k * n;
    SameFactor(4.0 * (b * n), k, n);
    assert (k * n) * (a + b) == k * (a * n) + k * (b * n);
  }

  lemma WilsonShape(s: Sample, z: real, root: real)
    requires s.exposures > 0 && IsRoot(root, Radicand(s, z))
    ensures Shape(Rate(s), Per(z * z, s), Center(s, z), Radius(s, z, root))
  {
    hide CenterShape, RadiusShape, Rate, Center, Radius, Denominator, Radicand;
    Squares(z);
    CenterScaled(s, z, Rate(s), Per(z * z, s), Center(s, z));
    RadiusScaled(s, z, root, Rate(s), Per(z * z, s), Radius(s, z, root));
  }

  lemma Squares(z: real)
    ensures z * z >= 0.0
  {
  }

  /** (d c)^2 - (d r)^2 is d p^2, so the interval is where a parabola is not above zero. */
  lemma Parabola(p: real, k: real, c: real, r: real, q: real)
    requires Shape(p, k, c, r)
    ensures (1.0 + k) * ((q - c) * (q - c) - r * r) == (p - q) * (p - q) - k * (q * (1.0 - q))
  {
    var d := 1.0 + k;
    assert d * d * (r * r) == k * p - k * p * p + k * k / 4.0;
    assert d * d * (c * c) == p * p + k * p + k * k / 4.0 by {
      assert d * d * (c * c) == (c * d) * (c * d);
      assert (p + k / 2.0) * (p + k / 2.0) == p * p + k * p + k * k / 4.0;
    }
    assert d * (d * (c * c - r * r)) == d * d * (c * c) - d * d * (r * r);
    assert d * (d * (c * c - r * r)) == (p * p) * d;
    SameFactor(d * (c * c - r * r), p * p, d);
    assert d * (2.0 * q * c) == 2.0 * q * (c * d);
    assert (q - c) * (q - c) - r * r == q * q - 2.0 * q * c + (c * c - r * r);
    assert d * (q * q - 2.0 * q * c + (c * c - r * r)) == d * (q * q) - d * (2.0 * q * c) + d * (c * c - r * r);
  }

  lemma Within(x: real, r: real)
    requires r >= 0.0
    ensures -r <= x <= r <==> x * x <= r * r
  {
    if x * x <= r * r { RootBelow(x, r); RootBelow(-x, r); }
    if -r <= x <= r {
      if x >= 0.0 { Mixed(x, x, r, r); } else { Mixed(-x, -x, r, r); }
    }
  }

  lemma SignOfProduct(d: real, x: real)
    requires d > 0.0
    ensures d * x <= 0.0 <==> x <= 0.0
  {
  }

  lemma PerProduct(x: real, y: real, s: Sample)
    requires s.exposures > 0
    ensures x * y / s.exposures as real == Per(x, s) * y
  {
    var n := s.exposures as real;
    var a := Per(x, s);
    assert a * n == x;
    assert (a * y) * n == (a * n) * y;
  }

  lemma RadiusSign(s: Sample, z: real, root: real)
    requires s.exposures > 0 && z >= 0.0 && root >= 0.0
    ensures Radius(s, z, root) >= 0.0
  {
    var u := z / Denominator(s, z);
    assert u >= 0.0;
  }

  /** Before clipping, the interval is exactly the set of rates that the score test does not reject. */
  lemma WilsonInvertsScoreTest(s: Sample, z: real, root: real, q: real)
    requires Counted(s) && z >= 0.0 && IsRoot(root, Radicand(s, z))
    ensures Center(s, z) - Radius(s, z, root) <= q <= Center(s, z) + Radius(s, z, root) <==> ScoreAccepts(s, z, q)
  {
    hide ScoreAccepts, Rate, Per, Center, Radius, Radicand, Denominator, Shape;
    var p, k := Rate(s), Per(z * z, s);
    var c, r := Center(s, z), Radius(s, z, root);
    WilsonShape(s, z, root);
    RadiusSign(s, z, root);
    ScoreMeans(s, z, q, p, k);
    Inverts(p, k, c, r, q);
  }

  lemma ScoreMeans(s: Sample, z: real, q: real, p: real, k: real)
    requires s.exposures > 0 && p == Rate(s) && k == Per(z * z, s)
    ensures ScoreAccepts(s, z, q) <==> (p - q) * (p - q) <= k * (q * (1.0 - q))
  {
    hide Rate, Per;
    PerProduct(z * z, q * (1.0 - q), s);
  }

  lemma Inverts(p: real, k: real, c: real, r: real, q: real)
    requires Shape(p, k, c, r) && r >= 0.0
    ensures c - r <= q <= c + r <==> (p - q) * (p - q) <= k * (q * (1.0 - q))
  {
    Parabola(p, k, c, r, q);
    Within(q - c, r);
    SignOfProduct(1.0 + k, (q - c) * (q - c) - r * r);
  }

  /** Clipping to [0, 1] never moves a bound, and the observed rate is always inside. */
  lemma WilsonContainsRate(s: Sample, z: real, root: real)
    requires Counted(s) && z >= 0.0 && IsRoot(root, Radicand(s, z))
    ensures var i := WilsonInterval(s, z, root);
      && 0.0 <= i.lower <= Rate(s) <= i.upper <= 1.0
      && i == Interval(Center(s, z) - Radius(s, z, root), Center(s, z) + Radius(s, z, root))
  {
    var p, k := Rate(s), Per(z * z, s);
    var c, r := Center(s, z), Radius(s, z, root);
    RateBounds(s);
    WilsonShape(s, z, root);
    RadiusSign(s, z, root);
    hide Center, Radius, Rate, Per, Radicand, Denominator, Shape;
    Inside(p, k, c, r);
  }

  lemma Inside(p: real, k: real, c: real, r: real)
    requires Shape(p, k, c, r) && 0.0 <= p <= 1.0 && r >= 0.0
    ensures 0.0 <= c - r <= p <= c + r <= 1.0
  {
    CenterInside(p, k, c, r);
    RateInside(p, k, c, r);
    Parabola(p, k, c, r, 0.0);
    EndInside(1.0 + k, 0.0 - c, c, r);
    Parabola(p, k, c, r, 1.0);
    EndInside(1.0 + k, 1.0 - c, 1.0 - c, r);
  }

  lemma RateInside(p: real, k: real, c: real, r: real)
    requires Shape(p, k, c, r) && 0.0 <= p <= 1.0 && r >= 0.0
    ensures c - r <= p <= c + r
  {
    NonNegative(p, 1.0 - p);
    NonNegative(k, p * (1.0 - p));
    hide Shape;
    Inverts(p, k, c, r, p);
  }

  lemma EndInside(d: real, x: real, distance: real, r: real)
    requires d > 0.0 && distance >= 0.0 && (x == distance || x == -distance)
    requires d * (x * x - r * r) >= 0.0
    ensures r <= distance
  {
    if x * x - r * r < 0.0 { Scale(d, 0.0, x * x - r * r); }
    RootBelow(r, distance);
  }

  lemma CenterInside(p: real, k: real, c: real, r: real)
    requires Shape(p, k, c, r) && 0.0 <= p <= 1.0
    ensures 0.0 <= c <= 1.0
  {
    if c < 0.0 { Scale(1.0 + k, 0.0, c); }
    if c > 1.0 { Scale(1.0 + k, c, 1.0); }
  }

  // Newcombe's interval of the difference

  function Square(x: real): real { x * x }

  /**
   What the lower bound takes the square root of, from the two Wilson intervals; the upper bound swaps the
   samples.
   */
  function Spread(above: Sample, aboveInterval: Interval, below: Sample, belowInterval: Interval): real
    requires above.exposures > 0 && below.exposures > 0
  {
    Square(Rate(above) - aboveInterval.lower) + Square(belowInterval.upper - Rate(below))
  }

  function NewcombeInterval(treatment: Sample, control: Sample, down: real, up: real): Interval
    requires treatment.exposures > 0 && control.exposures > 0
  {
    var effect := Rate(treatment) - Rate(control);
    Interval(effect - down, effect + up)
  }

  lemma RootOfSum(root: real, a: real, b: real)
    requires a >= 0.0 && b >= 0.0 && IsRoot(root, Square(a) + Square(b))
    ensures root <= a + b
  {
    assert (a + b) * (a + b) == Square(a) + Square(b) + 2.0 * (a * b);
    assert a * b >= 0.0;
    RootBelow(root, a + b);
  }

  /** The Newcombe interval contains the observed effect and stays within [-1, 1]. */
  lemma NewcombeContainsEffect(treatment: Sample, control: Sample, z: real, treatmentRoot: real, controlRoot: real,
        down: real, up: real)
    requires Counted(treatment) && Counted(control) && z >= 0.0
    requires IsRoot(treatmentRoot, Radicand(treatment, z)) && IsRoot(controlRoot, Radicand(control, z))
    requires var t, c := WilsonInterval(treatment, z, treatmentRoot), WilsonInterval(control, z, controlRoot);
      IsRoot(down, Spread(treatment, t, control, c)) && IsRoot(up, Spread(control, c, treatment, t))
    ensures var i := NewcombeInterval(treatment, control, down, up);
      -1.0 <= i.lower <= Rate(treatment) - Rate(control) <= i.upper <= 1.0
  {
    var t, c := WilsonInterval(treatment, z, treatmentRoot), WilsonInterval(control, z, controlRoot);
    WilsonContainsRate(treatment, z, treatmentRoot);
    WilsonContainsRate(control, z, controlRoot);
    hide WilsonInterval, Radicand, Rate, Square;
    RootOfSum(down, Rate(treatment) - t.lower, c.upper - Rate(control));
    RootOfSum(up, Rate(control) - c.lower, t.upper - Rate(treatment));
  }

  /** Swapping the two samples mirrors the interval around zero. */
  lemma NewcombeMirrors(treatment: Sample, control: Sample, t: Interval, c: Interval, down: real, up: real,
                        down': real, up': real)
    requires treatment.exposures > 0 && control.exposures > 0
    requires IsRoot(down, Spread(treatment, t, control, c)) && IsRoot(up, Spread(control, c, treatment, t))
    requires IsRoot(down', Spread(control, c, treatment, t)) && IsRoot(up', Spread(treatment, t, control, c))
    ensures var i, j := NewcombeInterval(treatment, control, down, up),
      NewcombeInterval(control, treatment, down', up');
      i.lower == -j.upper && i.upper == -j.lower
  {
    hide Rate, Spread;
    RootBelow(down, up'); RootBelow(up', down);
    RootBelow(up, down'); RootBelow(down', up);
  }

  /** A point of the unit disc. */
  predicate InDisc(u: real, v: real) { Square(u) + Square(v) <= 1.0 }

  /** The largest value of a * u + b * v over the unit disc is the root of a^2 + b^2. */
  lemma DiscBound(a: real, b: real, root: real, u: real, v: real)
    requires IsRoot(root, Square(a) + Square(b)) && InDisc(u, v)
    ensures a * u + b * v <= root
  {
    Squares(a);
    Squares(b);
    LagrangeIdentity(a, b, u, v);
    hide IsRoot;
    RootOfProduct(root, Square(a) + Square(b), Square(u) + Square(v), a * u + b * v, a * v - b * u);
  }

  lemma RootOfProduct(root: real, r: real, n: real, w: real, x: real)
    requires IsRoot(root, r) && r >= 0.0 && n <= 1.0 && r * n == Square(w) + Square(x)
    ensures w <= root
  {
    Squares(x);
    NonNegative(r, 1.0 - n);
    assert r * (1.0 - n) == r - r * n;
    RootBelow(w, root);
  }

  lemma LagrangeIdentity(a: real, b: real, u: real, v: real)
    ensures (Square(a) + Square(b)) * (Square(u) + Square(v)) == Square(a * u + b * v) + Square(a * v - b * u)
  {
  }

  lemma DiscReached(a: real, b: real, root: real) returns (u: real, v: real)
    requires IsRoot(root, Square(a) + Square(b))
    ensures InDisc(u, v) && a * u + b * v == root
  {
    if root == 0.0 {
      Squares(a);
      Squares(b);
      u, v := 0.0, 0.0;
    } else {
      u, v := a / root, b / root;
      assert u * root == a && v * root == b;
      Normalized(a, b, root, u, v);
    }
  }

  lemma Normalized(a: real, b: real, root: real, u: real, v: real)
    requires root > 0.0 && root * root == a * a + b * b && a == u * root && b == v * root
    ensures u * u + v * v == 1.0 && a * u + b * v == root
  {
    assert (a * u + b * v) * root == a * (u * root) + b * (v * root);
    SameFactor(a * u + b * v, root, root);
    assert (u * u + v * v) * root == u * (u * root) + v * (v * root);
    SameFactor(u * u + v * v, 1.0, root);
  }

  /**
   What the Newcombe interval is: the differences of rates that lie within the ellipse whose half-widths are those
   of the two Wilson intervals, towards each other for the lower bound and apart for the upper one.
   */
  lemma NewcombeBoundsEllipse(treatment: Sample, control: Sample, t: Interval, c: Interval, down: real, up: real,
                              u: real, v: real)
    requires treatment.exposures > 0 && control.exposures > 0 && InDisc(u, v)
    requires IsRoot(down, Spread(treatment, t, control, c)) && IsRoot(up, Spread(control, c, treatment, t))
    ensures var i, x, y := NewcombeInterval(treatment, control, down, up), Rate(treatment), Rate(control);
      && i.lower <= (x - u * (x - t.lower)) - (y + v * (c.upper - y))
      && (x + v * (t.upper - x)) - (y - u * (y - c.lower)) <= i.upper
  {
    hide Rate, Square;
    var x, y := Rate(treatment), Rate(control);
    DiscBound(x - t.lower, c.upper - y, down, u, v);
    DiscBound(y - c.lower, t.upper - x, up, u, v);
  }

  /** Both bounds are reached. */
  lemma NewcombeReachesEllipse(treatment: Sample, control: Sample, t: Interval, c: Interval, down: real, up: real)
    returns (low: (real, real), high: (real, real))
    requires treatment.exposures > 0 && control.exposures > 0
    requires IsRoot(down, Spread(treatment, t, control, c)) && IsRoot(up, Spread(control, c, treatment, t))
    ensures InDisc(low.0, low.1) && InDisc(high.0, high.1)
    ensures var i, x, y := NewcombeInterval(treatment, control, down, up), Rate(treatment), Rate(control);
      && i.lower == (x - low.0 * (x - t.lower)) - (y + low.1 * (c.upper - y))
      && i.upper == (x + high.1 * (t.upper - x)) - (y - high.0 * (y - c.lower))
  {
    hide Rate, Square, InDisc;
    var x, y := Rate(treatment), Rate(control);
    var a, b := DiscReached(x - t.lower, c.upper - y, down);
    var e, f := DiscReached(y - c.lower, t.upper - x, up);
    low, high := (a, b), (e, f);
  }
}
