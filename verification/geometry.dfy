/** Points, implicit lines and the half-plane test of the QuickHull core.

    Coordinates are exact reals standing for the source's doubles, so every
    identity below holds exactly (in floating point it would hold only up to
    rounding). */
module Geometry {

  /** A 2-D input point (the source's two-element double array). */
  datatype Point = Point(x: real, y: real)

  /** The implicit line a*x + b*y + c = 0 (the source's three line parameters). */
  datatype Line = Line(a: real, b: real, c: real)

  /** Tolerance of the strict "left of the line" test. */
  const EPS: real := 0.00001

  /** Twice the signed area of the triangle (p, q, r): positive exactly when
      r lies to the left of the directed line p -> q. This is the geometric
      meaning of the half-plane test, defined independently of it. */
  function Orientation(p: Point, q: Point, r: Point): real {
    (q.x - p.x) * (r.y - p.y) - (q.y - p.y) * (r.x - p.x)
  }

  /** Coefficients of the directed line through p and q. */
  function ComputeLineParams(p: Point, q: Point): (l: Line)
    ensures HalfplaneTest(l, p) == 0.0 && HalfplaneTest(l, q) == 0.0
    ensures p == q <==> l.a == 0.0 && l.b == 0.0
  {
    Line(p.y - q.y, -(p.x - q.x), p.x * q.y - p.y * q.x)
  }

  /** Signed value of p against the line, as the partition filters compute it. */
  function HalfplaneTest(l: Line, p: Point): real {
    p.x * l.a + p.y * l.b + 1.0 * l.c
  }

  /** The test value of r against the line through p and q is the
      orientation of (p, q, r): positive means r is left of p -> q. */
  lemma TestIsOrientation(p: Point, q: Point, r: Point)
    ensures HalfplaneTest(ComputeLineParams(p, q), r) == Orientation(p, q, r)
  {
  }

  /** Oriented, unnormalised distance of p from the line, as the farthest-point
      selector computes it. */
  function DistFromLine(l: Line, p: Point): real {
    l.a * p.x + l.b * p.y + l.c
  }

  /** The two evaluators of the line equation agree on every line and point. */
  lemma DistAgreesWithTest(l: Line, p: Point)
    ensures DistFromLine(l, p) == HalfplaneTest(l, p)
  {
  }

  /** Reversing the direction of a line negates the test value of every point,
      which is what lets the right half reuse the diameter line reversed. */
  lemma ReversedLineNegates(p: Point, q: Point, r: Point)
    ensures HalfplaneTest(ComputeLineParams(q, p), r) == -HalfplaneTest(ComputeLineParams(p, q), r)
  {
  }

  /** For any apex d of the baseline a -> b, the test values of a point against
      the two new lines a -> d and d -> b add up to how much farther from the
      baseline the point is than d. */
  lemma SplitIdentity(a: Point, b: Point, d: Point, p: Point)
    ensures HalfplaneTest(ComputeLineParams(a, d), p) + HalfplaneTest(ComputeLineParams(d, b), p)
         == HalfplaneTest(ComputeLineParams(a, b), p) - HalfplaneTest(ComputeLineParams(a, b), d)
  {
    TestIsOrientation(a, d, p);
    TestIsOrientation(d, b, p);
    TestIsOrientation(a, b, p);
    TestIsOrientation(a, b, d);
    assert Orientation(a, d, p) + Orientation(d, b, p) == Orientation(a, b, p) - Orientation(a, b, d);
  }

  /** No point at most as far from the baseline as the apex d lies strictly
      to the left of both a -> d and d -> b: the two sub-problems of the
      recursion never share a point. */
  lemma NotLeftOfBoth(a: Point, b: Point, d: Point, p: Point)
    requires HalfplaneTest(ComputeLineParams(a, b), p) <= HalfplaneTest(ComputeLineParams(a, b), d)
    ensures !(HalfplaneTest(ComputeLineParams(a, d), p) > 0.0 && HalfplaneTest(ComputeLineParams(d, b), p) > 0.0)
  {
    SplitIdentity(a, b, d, p);
  }
}
