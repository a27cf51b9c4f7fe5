/** The triangular membership function of main.py (`triangular_mf`). */
module Membership {

  /** The parameters (a, b, c) of a triangle: left foot, peak, right foot. */
  datatype Shape = Shape(a: real, b: real, c: real)

  /** All three parameters coincide: the shape is a crisp singleton. */
  predicate Degenerate(s: Shape) {
    s.a == s.b && s.b == s.c
  }

  /** The points whose degree is positive. */
  predicate InSupport(x: real, s: Shape) {
    if Degenerate(s) then x == s.a else s.a < x < s.c
  }

  /** The points whose degree is exactly 1. A triangle with a < b < c peaks at b;
      a triangle with a == b < c or a < b == c has no such point at all. */
  predicate AtPeak(x: real, s: Shape) {
    if Degenerate(s) then x == s.a else s.a < s.b < s.c && x == s.b
  }

  /** The branches of the guard chain, in the order they are tested. */
  datatype Branch = Singleton | Outside | Rising | Falling | FallThrough

  /** Which branch a crisp value takes. The final fall-through is unreachable for
      every shape, well-formed or not. */
  function Classify(x: real, s: Shape): (br: Branch)
    ensures br != FallThrough
  {
    if s.a == s.b && s.b == s.c then Singleton
    else if x <= s.a || x >= s.c then Outside
    else if s.a < x <= s.b then Rising
    else if s.b < x < s.c then Falling
    else FallThrough
  }

  /** The degree of x in the triangle s. */
  function Triangular(x: real, s: Shape): (r: real)
    ensures 0.0 <= r <= 1.0
    ensures r > 0.0 <==> InSupport(x, s)
    ensures r == 1.0 <==> AtPeak(x, s)
  {
    match Classify(x, s)
    case Singleton => if x == s.a then 1.0 else 0.0
    case Outside => 0.0
    case Rising =>
      if s.b != s.a then RatioIsDegree(x - s.a, s.b - s.a); (x - s.a) / (s.b - s.a) else 1.0
    case Falling =>
      if s.c != s.b then RatioIsDegree(s.c - x, s.c - s.b); (s.c - x) / (s.c - s.b) else 1.0
    case FallThrough => 0.0
  }

  /** The ratio of a positive length to a length at least as large is a positive degree,
      and it is 1 exactly when the lengths are equal. */
  lemma RatioIsDegree(p: real, k: real)
    requires 0.0 < p <= k
    ensures 0.0 < p / k <= 1.0
    ensures p / k == 1.0 <==> p == k
  {
    assert p / k * k == p;
  }

  /** A singleton shape is the crisp indicator of its point. */
  lemma SingletonDegree(x: real, s: Shape)
    requires Degenerate(s)
    ensures Triangular(x, s) == (if x == s.a then 1.0 else 0.0)
  {
  }

  /** Outside the open interval (a, c), end points included, the degree is 0. */
  lemma ZeroOutsideSupport(x: real, s: Shape)
    requires !Degenerate(s)
    requires x <= s.a || x >= s.c
    ensures Triangular(x, s) == 0.0
  {
  }

  /** A proper triangle takes the value 1 at its peak. */
  lemma PeakDegree(s: Shape)
    requires s.a < s.b < s.c
    ensures Triangular(s.b, s) == 1.0
  {
  }

  /** On the rising edge the degree strictly increases. The point x2 must lie left of c:
      when b == c the peak itself falls in the zero region. */
  lemma RisingEdgeIncreasing(x1: real, x2: real, s: Shape)
    requires s.a < x1 < x2 <= s.b
    requires x2 < s.c
    ensures Triangular(x1, s) < Triangular(x2, s)
  {
    var k := s.b - s.a;
    assert Triangular(x1, s) == (x1 - s.a) / k;
    assert Triangular(x2, s) == (x2 - s.a) / k;
    DivisionMonotone(x1 - s.a, x2 - s.a, k);
  }

  /** On the falling edge the degree strictly decreases. The point x1 must lie right of a:
      when a == b the peak itself falls in the zero region. */
  lemma FallingEdgeDecreasing(x1: real, x2: real, s: Shape)
    requires s.b <= x1 < x2 < s.c
    requires s.a < x1
    ensures Triangular(x1, s) > Triangular(x2, s)
  {
    var k := s.c - s.b;
    assert Triangular(x2, s) == (s.c - x2) / k;
    if x1 == s.b {
      assert Triangular(x1, s) == 1.0;
    } else {
      assert Triangular(x1, s) == (s.c - x1) / k;
      DivisionMonotone(s.c - x2, s.c - x1, k);
    }
  }

  lemma DivisionMonotone(p: real, q: real, k: real)
    requires k > 0.0 && p < q
    ensures p / k < q / k
  {
    assert q / k - p / k == (q - p) / k;
  }

  /** Shoulder triangles as written: the label (0, 0, 3) has degree 0 at its peak 0 and a
      positive degree just right of it; (0, 1, 1) has degree 0 at its peak 1. */
  lemma ShoulderPeaksAreZero()
    ensures Triangular(0.0, Shape(0.0, 0.0, 3.0)) == 0.0
    ensures Triangular(1.0, Shape(0.0, 0.0, 3.0)) > 0.0
    ensures Triangular(1.0, Shape(0.0, 1.0, 1.0)) == 0.0
    ensures Triangular(0.5, Shape(0.0, 1.0, 1.0)) > 0.0
  {
  }

  /** The shipped example: 18 degrees in the label "warm" (10, 20, 28) has degree 0.8. */
  lemma WarmAtEighteen()
    ensures Triangular(18.0, Shape(10.0, 20.0, 28.0)) == 0.8
  {
  }
}
