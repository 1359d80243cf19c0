/** The two extreme-point finders: the leftmost and the rightmost input point,
    ties on x broken by y. Both scan the whole input once, starting from the
    first point, and replace the candidate only on a strict improvement. */
module Extremes {
  import opened Geometry

  /** p is no further right than q: smaller x, or the same x and no larger y. */
  predicate LexLeq(p: Point, q: Point) {
    p.x < q.x || (p.x == q.x && p.y <= q.y)
  }

  /** The scan of leftCornerPoint from position i on, with `best` the point
      found so far. */
  function LeftCornerScan(points: seq<Point>, best: Point, i: nat): (p: Point)
    requires i <= |points|
    ensures p == best || p in points
    ensures LexLeq(p, best)
    ensures forall j :: i <= j < |points| ==> LexLeq(p, points[j])
    decreases |points| - i
  {
    if i == |points| then best
    else if points[i].x < best.x then LeftCornerScan(points, points[i], i + 1)
    else if points[i].x == best.x && points[i].y < best.y then LeftCornerScan(points, points[i], i + 1)
    else LeftCornerScan(points, best, i + 1)
  }

  /** The leftmost point, lowest among the leftmost ones. */
  function LeftCornerPoint(points: seq<Point>): (p: Point)
    requires |points| > 0
    ensures p in points
    ensures forall q :: q in points ==> p.x <= q.x && (q.x == p.x ==> p.y <= q.y)
  {
    LeftCornerScan(points, points[0], 0)
  }

  /** The scan of rightCornerPoint from position i on. */
  function RightCornerScan(points: seq<Point>, best: Point, i: nat): (p: Point)
    requires i <= |points|
    ensures p == best || p in points
    ensures LexLeq(best, p)
    ensures forall j :: i <= j < |points| ==> LexLeq(points[j], p)
    decreases |points| - i
  {
    if i == |points| then best
    else if points[i].x > best.x then RightCornerScan(points, points[i], i + 1)
    else if points[i].x == best.x && points[i].y > best.y then RightCornerScan(points, points[i], i + 1)
    else RightCornerScan(points, best, i + 1)
  }

  /** The rightmost point, highest among the rightmost ones. */
  function RightCornerPoint(points: seq<Point>): (p: Point)
    requires |points| > 0
    ensures p in points
    ensures forall q :: q in points ==> q.x <= p.x && (q.x == p.x ==> q.y <= p.y)
  {
    RightCornerScan(points, points[0], 0)
  }

  /** The left corner is the one input point below every other in the
      (x, y) order: any such point is what leftCornerPoint returns. */
  lemma LeftCornerIsLexMinimum(points: seq<Point>, p: Point)
    requires p in points
    requires forall q :: q in points ==> LexLeq(p, q)
    ensures LeftCornerPoint(points) == p
  {
  }

  /** The right corner is the one input point above every other in the
      (x, y) order. */
  lemma RightCornerIsLexMaximum(points: seq<Point>, p: Point)
    requires p in points
    requires forall q :: q in points ==> LexLeq(q, p)
    ensures RightCornerPoint(points) == p
  {
  }

  /** The two corners coincide exactly when all input points are equal. */
  lemma CornersCoincide(points: seq<Point>)
    requires |points| > 0
    ensures LeftCornerPoint(points) == RightCornerPoint(points)
        <==> forall i :: 0 <= i < |points| ==> points[i] == points[0]
  {
    var a, b := LeftCornerPoint(points), RightCornerPoint(points);
    if a == b {
      forall i | 0 <= i < |points|
        ensures points[i] == points[0]
      {
        assert points[i] in points && points[0] in points;
      }
    }
  }
}
