/** The recursive hull builder and the entry point. The hull under
    construction is threaded through the recursion as a sequence: each call
    only appends to it. */
module Hull {
  import opened Geometry
  import opened Extremes
  import opened Partition
  import opened Furthest

  datatype Option<T> = None | Some(value: T)

  /** The apex of a recursion step: the candidate farthest from a -> b. */
  function Apex(points: seq<Point>, pointSet: seq<int>, a: Point, b: Point): (k: int)
    requires ValidIndices(points, pointSet)
    requires |pointSet| > 0
    ensures k in pointSet && 0 <= k < |points|
  {
    FurthestPointFromLine(points, ComputeLineParams(a, b), pointSet)
  }

  /** The candidates strictly left of a -> apex, to be searched next. */
  function LeftSubset(points: seq<Point>, pointSet: seq<int>, a: Point, b: Point): seq<int>
    requires ValidIndices(points, pointSet)
    requires |pointSet| > 0
  {
    GetLSet(points, ComputeLineParams(a, points[Apex(points, pointSet, a, b)]), pointSet)
  }

  /** The candidates strictly left of apex -> b, to be searched next. */
  function RightSubset(points: seq<Point>, pointSet: seq<int>, a: Point, b: Point): seq<int>
    requires ValidIndices(points, pointSet)
    requires |pointSet| > 0
  {
    GetLSet(points, ComputeLineParams(points[Apex(points, pointSet, a, b)], b), pointSet)
  }

  /** The apex tests to exactly zero against both new lines, so neither
      sub-set holds it and each is a strict subsequence of the candidates:
      the recursion terminates. */
  lemma SubsetsShrink(points: seq<Point>, pointSet: seq<int>, a: Point, b: Point)
    requires ValidIndices(points, pointSet)
    requires |pointSet| > 0
    ensures Apex(points, pointSet, a, b) !in LeftSubset(points, pointSet, a, b)
    ensures Apex(points, pointSet, a, b) !in RightSubset(points, pointSet, a, b)
    ensures IsSubsequence(LeftSubset(points, pointSet, a, b), pointSet)
    ensures IsSubsequence(RightSubset(points, pointSet, a, b), pointSet)
    ensures |LeftSubset(points, pointSet, a, b)| < |pointSet|
    ensures |RightSubset(points, pointSet, a, b)| < |pointSet|
  {
    var k := Apex(points, pointSet, a, b);
    var d := points[k];
    var j :| 0 <= j < |pointSet| && pointSet[j] == k;
    assert HalfplaneTest(ComputeLineParams(a, d), d) == 0.0;
    assert HalfplaneTest(ComputeLineParams(d, b), d) == 0.0;
    assert !IsLeft(ComputeLineParams(a, d), points[pointSet[j]]);
    assert !IsLeft(ComputeLineParams(d, b), points[pointSet[j]]);
  }

  /** quickHullRec: appends to `hull` the hull vertices strictly left of the
      directed line a -> b, found among the candidates, in boundary order. The
      source's line parameter is always the line through a and b, so it is
      computed here rather than passed in. */
  function QuickHullRec(points: seq<Point>, pointSet: seq<int>, a: Point, b: Point, hull: seq<Point>): (h: seq<Point>)
    requires ValidIndices(points, pointSet)
    ensures |hull| <= |h| && forall i :: 0 <= i < |hull| ==> h[i] == hull[i]
    ensures |pointSet| == 0 ==> h == hull
    ensures |pointSet| > 0 ==> |h| > |hull|
    decreases |pointSet|
  {
    if |pointSet| < 1 then hull
    else
      var k := Apex(points, pointSet, a, b);
      var d := points[k];
      var lSet := LeftSubset(points, pointSet, a, b);
      var rSet := RightSubset(points, pointSet, a, b);
      SubsetsShrink(points, pointSet, a, b);
      var h1 := QuickHullRec(points, lSet, a, d, hull);
      QuickHullRec(points, rSet, d, b, h1 + [d])
  }

  /** q is the point of one of the candidates. */
  ghost predicate FromCandidates(points: seq<Point>, pointSet: seq<int>, q: Point) {
    exists k :: k in pointSet && 0 <= k < |points| && points[k] == q
  }

  /** Every vertex a recursion step appends is one of its candidate points. */
  lemma {:induction false} RecEmitsCandidates(points: seq<Point>, pointSet: seq<int>, a: Point, b: Point, hull: seq<Point>)
    requires ValidIndices(points, pointSet)
    ensures forall i :: |hull| <= i < |QuickHullRec(points, pointSet, a, b, hull)| ==>
              FromCandidates(points, pointSet, QuickHullRec(points, pointSet, a, b, hull)[i])
    decreases |pointSet|
  {
    if |pointSet| > 0 {
      var k := Apex(points, pointSet, a, b);
      var d := points[k];
      var lSet := LeftSubset(points, pointSet, a, b);
      var rSet := RightSubset(points, pointSet, a, b);
      SubsetsShrink(points, pointSet, a, b);
      var h1 := QuickHullRec(points, lSet, a, d, hull);
      var h := QuickHullRec(points, rSet, d, b, h1 + [d]);
      RecEmitsCandidates(points, lSet, a, d, hull);
      RecEmitsCandidates(points, rSet, d, b, h1 + [d]);
      forall i | |hull| <= i < |h|
        ensures FromCandidates(points, pointSet, h[i])
      {
        if i < |h1| {
          assert h[i] == h1[i];
          assert FromCandidates(points, lSet, h1[i]);
          var j :| j in lSet && 0 <= j < |points| && points[j] == h1[i];
          assert j in pointSet;
        } else if i == |h1| {
          assert h[i] == (h1 + [d])[i] == points[k];
        } else {
          assert FromCandidates(points, rSet, h[i]);
          var j :| j in rSet && 0 <= j < |points| && points[j] == h[i];
          assert j in pointSet;
        }
      }
    }
  }

  /** quickHull: no hull for at most one point; otherwise the left corner,
      the hull vertices above the diameter, the right corner, then the hull
      vertices below it. */
  function QuickHull(points: seq<Point>): (r: Option<seq<Point>>)
    ensures r.None? <==> |points| <= 1
    ensures r.Some? ==> |r.value| >= 2 && r.value[0] == LeftCornerPoint(points)
  {
    if |points| <= 1 then None
    else
      var a := LeftCornerPoint(points);
      var b := RightCornerPoint(points);
      var line := ComputeLineParams(a, b);
      var lSet := GetLSetFromAllPoints(points, line);
      var rSet := GetRSetFromAllPoints(points, line);
      var h1 := QuickHullRec(points, lSet, a, b, [a]);
      Some(QuickHullRec(points, rSet, b, a, h1 + [b]))
  }

  /** h starts at the left corner A, runs through points strictly left of
      A -> B, reaches the right corner B, then runs through points strictly
      right of A -> B. */
  ghost predicate IsChainShaped(points: seq<Point>, h: seq<Point>)
    requires |points| > 0
  {
    var a, b := LeftCornerPoint(points), RightCornerPoint(points);
    var line := ComputeLineParams(a, b);
    && |h| >= 2 && h[0] == a
    && exists m :: 1 <= m < |h| && h[m] == b
         && (forall i :: 0 < i < m ==> IsLeft(line, h[i]))
         && (forall i :: m < i < |h| ==> IsRight(line, h[i]))
  }

  /** Vertices appended from candidates that all lie strictly left of l are
      input points strictly left of l. */
  lemma AppendedAreLeft(points: seq<Point>, pointSet: seq<int>, a: Point, b: Point, hull: seq<Point>, l: Line)
    requires ValidIndices(points, pointSet)
    requires forall k :: k in pointSet ==> 0 <= k < |points| && IsLeft(l, points[k])
    ensures forall i :: |hull| <= i < |QuickHullRec(points, pointSet, a, b, hull)| ==>
              IsLeft(l, QuickHullRec(points, pointSet, a, b, hull)[i]) && QuickHullRec(points, pointSet, a, b, hull)[i] in points
  {
    var h := QuickHullRec(points, pointSet, a, b, hull);
    RecEmitsCandidates(points, pointSet, a, b, hull);
    forall i | |hull| <= i < |h|
      ensures IsLeft(l, h[i]) && h[i] in points
    {
      assert FromCandidates(points, pointSet, h[i]);
      var k :| k in pointSet && 0 <= k < |points| && points[k] == h[i];
    }
  }

  /** Vertices appended from candidates that all lie strictly right of l are
      input points strictly right of l. */
  lemma AppendedAreRight(points: seq<Point>, pointSet: seq<int>, a: Point, b: Point, hull: seq<Point>, l: Line)
    requires ValidIndices(points, pointSet)
    requires forall k :: k in pointSet ==> 0 <= k < |points| && IsRight(l, points[k])
    ensures forall i :: |hull| <= i < |QuickHullRec(points, pointSet, a, b, hull)| ==>
              IsRight(l, QuickHullRec(points, pointSet, a, b, hull)[i]) && QuickHullRec(points, pointSet, a, b, hull)[i] in points
  {
    var h := QuickHullRec(points, pointSet, a, b, hull);
    RecEmitsCandidates(points, pointSet, a, b, hull);
    forall i | |hull| <= i < |h|
      ensures IsRight(l, h[i]) && h[i] in points
    {
      assert FromCandidates(points, pointSet, h[i]);
      var k :| k in pointSet && 0 <= k < |points| && points[k] == h[i];
    }
  }

  /** The hull consists of input points only, and is A, the upper chain, B,
      the lower chain. */
  lemma HullShape(points: seq<Point>)
    requires |points| >= 2
    ensures forall i :: 0 <= i < |QuickHull(points).value| ==> QuickHull(points).value[i] in points
    ensures IsChainShaped(points, QuickHull(points).value)
  {
    var a := LeftCornerPoint(points);
    var b := RightCornerPoint(points);
    var line := ComputeLineParams(a, b);
    var lSet := GetLSetFromAllPoints(points, line);
    var rSet := GetRSetFromAllPoints(points, line);
    var h1 := QuickHullRec(points, lSet, a, b, [a]);
    var h := QuickHullRec(points, rSet, b, a, h1 + [b]);
    assert QuickHull(points) == Some(h);
    AppendedAreLeft(points, lSet, a, b, [a], line);
    AppendedAreRight(points, rSet, b, a, h1 + [b], line);
    var m := |h1|;
    assert h[m] == (h1 + [b])[m] == b;
    forall i | 0 < i < m
      ensures IsLeft(line, h[i]) && h[i] in points
    {
      assert h[i] == h1[i];
    }
    assert h[0] == a;
  }

  /** The two sub-sets of a recursion step share no candidate, because a
      candidate left of both a -> d and d -> b would be farther from a -> b
      than the apex d. Together with the apex they fit in the candidate set. */
  lemma SubsetsDisjoint(points: seq<Point>, pointSet: seq<int>, a: Point, b: Point)
    requires ValidIndices(points, pointSet)
    requires |pointSet| > 0
    ensures forall j :: !(j in LeftSubset(points, pointSet, a, b) && j in RightSubset(points, pointSet, a, b))
    ensures |LeftSubset(points, pointSet, a, b)| + |RightSubset(points, pointSet, a, b)| < |pointSet|
  {
    var line := ComputeLineParams(a, b);
    var k := Apex(points, pointSet, a, b);
    var d := points[k];
    var lSet := LeftSubset(points, pointSet, a, b);
    var rSet := RightSubset(points, pointSet, a, b);
    forall j | j in lSet && j in rSet
      ensures false
    {
      var q :| 0 <= q < |pointSet| && pointSet[q] == j;
      assert DistFromLine(line, points[pointSet[q]]) <= DistFromLine(line, d);
      DistAgreesWithTest(line, points[j]);
      DistAgreesWithTest(line, d);
      NotLeftOfBoth(a, b, d, points[j]);
    }
    SubsetsShrink(points, pointSet, a, b);
    DisjointSubsetsSize(pointSet, lSet, rSet, k);
  }

  /** A recursion step appends at most one vertex per candidate. */
  lemma {:induction false} HullRecBound(points: seq<Point>, pointSet: seq<int>, a: Point, b: Point, hull: seq<Point>)
    requires ValidIndices(points, pointSet)
    ensures |QuickHullRec(points, pointSet, a, b, hull)| <= |hull| + |pointSet|
    decreases |pointSet|
  {
    if |pointSet| > 0 {
      var k := Apex(points, pointSet, a, b);
      var d := points[k];
      var lSet := LeftSubset(points, pointSet, a, b);
      var rSet := RightSubset(points, pointSet, a, b);
      SubsetsDisjoint(points, pointSet, a, b);
      var h1 := QuickHullRec(points, lSet, a, d, hull);
      HullRecBound(points, lSet, a, d, hull);
      HullRecBound(points, rSet, d, b, h1 + [d]);
    }
  }

  lemma ConcatAssociates<T>(s: seq<T>, t: seq<T>, u: seq<T>)
    ensures s + t + u == s + (t + u)
  {
  }

  /** The vertices a recursion step appends do not depend on what the hull
      already holds. */
  lemma {:induction false} HullRecFrame(points: seq<Point>, pointSet: seq<int>, a: Point, b: Point, hull: seq<Point>)
    requires ValidIndices(points, pointSet)
    ensures QuickHullRec(points, pointSet, a, b, hull) == hull + QuickHullRec(points, pointSet, a, b, [])
    decreases |pointSet|
  {
    if |pointSet| > 0 {
      var k := Apex(points, pointSet, a, b);
      var d := points[k];
      var lSet := LeftSubset(points, pointSet, a, b);
      var rSet := RightSubset(points, pointSet, a, b);
      SubsetsShrink(points, pointSet, a, b);
      var left := QuickHullRec(points, lSet, a, d, []);
      var right := QuickHullRec(points, rSet, d, b, []);
      var h1 := QuickHullRec(points, lSet, a, d, hull);
      assert h1 == hull + left by {
        HullRecFrame(points, lSet, a, d, hull);
      }
      assert QuickHullRec(points, rSet, d, b, h1 + [d]) == h1 + [d] + right by {
        HullRecFrame(points, rSet, d, b, h1 + [d]);
      }
      assert QuickHullRec(points, rSet, d, b, left + [d]) == left + [d] + right by {
        HullRecFrame(points, rSet, d, b, left + [d]);
      }
      assert h1 + [d] + right == hull + (left + [d] + right) by {
        ConcatAssociates(hull, left, [d]);
        ConcatAssociates(hull, left + [d], right);
      }
    }
  }

  /** In-order emission: the vertices found left of a -> apex, then the apex,
      then the vertices found left of apex -> b. */
  lemma HullRecInOrder(points: seq<Point>, pointSet: seq<int>, a: Point, b: Point, hull: seq<Point>)
    requires ValidIndices(points, pointSet)
    requires |pointSet| > 0
    ensures Apex(points, pointSet, a, b) in pointSet
    ensures QuickHullRec(points, pointSet, a, b, hull)
         == hull
          + QuickHullRec(points, LeftSubset(points, pointSet, a, b), a, points[Apex(points, pointSet, a, b)], [])
          + [points[Apex(points, pointSet, a, b)]]
          + QuickHullRec(points, RightSubset(points, pointSet, a, b), points[Apex(points, pointSet, a, b)], b, [])
  {
    var d := points[Apex(points, pointSet, a, b)];
    var lSet := LeftSubset(points, pointSet, a, b);
    var rSet := RightSubset(points, pointSet, a, b);
    SubsetsShrink(points, pointSet, a, b);
    var left := QuickHullRec(points, lSet, a, d, []);
    var right := QuickHullRec(points, rSet, d, b, []);
    HullRecFrame(points, pointSet, a, b, hull);
    assert QuickHullRec(points, pointSet, a, b, []) == left + [d] + right by {
      HullRecFrame(points, rSet, d, b, left + [d]);
      assert [] + left == left;
    }
    assert hull + (left + [d] + right) == hull + left + [d] + right by {
      ConcatAssociates(hull, left, [d]);
      ConcatAssociates(hull, left + [d], right);
    }
  }

  /** The initial left and right sets leave out both corners, so together
      they hold at most n - 2 indices. */
  lemma InitialSetsFit(points: seq<Point>)
    requires |points| >= 2
    ensures forall k :: 0 <= k < |points| && (points[k] == LeftCornerPoint(points) || points[k] == RightCornerPoint(points)) ==>
              (k !in GetLSetFromAllPoints(points, ComputeLineParams(LeftCornerPoint(points), RightCornerPoint(points)))
               && k !in GetRSetFromAllPoints(points, ComputeLineParams(LeftCornerPoint(points), RightCornerPoint(points))))
    ensures |GetLSetFromAllPoints(points, ComputeLineParams(LeftCornerPoint(points), RightCornerPoint(points)))|
          + |GetRSetFromAllPoints(points, ComputeLineParams(LeftCornerPoint(points), RightCornerPoint(points)))|
         <= |points| - 2
  {
    var n := |points|;
    var a := LeftCornerPoint(points);
    var b := RightCornerPoint(points);
    var line := ComputeLineParams(a, b);
    var lSet := GetLSetFromAllPoints(points, line);
    var rSet := GetRSetFromAllPoints(points, line);
    if a == b {
      assert forall p :: HalfplaneTest(line, p) == 0.0;
    } else {
      var ia :| 0 <= ia < n && points[ia] == a;
      var ib :| 0 <= ib < n && points[ib] == b;
      assert forall k :: k in lSet ==> k !in rSet;
      DisjointIndexSetsSize(n, lSet, rSet, ia, ib);
    }
  }

  /** The hull fits the buffer of n slots the source allocates for it. */
  lemma HullFitsBuffer(points: seq<Point>)
    requires |points| >= 2
    ensures |QuickHull(points).value| <= |points|
  {
    var a := LeftCornerPoint(points);
    var b := RightCornerPoint(points);
    var line := ComputeLineParams(a, b);
    var lSet := GetLSetFromAllPoints(points, line);
    var rSet := GetRSetFromAllPoints(points, line);
    var h1 := QuickHullRec(points, lSet, a, b, [a]);
    HullRecBound(points, lSet, a, b, [a]);
    HullRecBound(points, rSet, b, a, h1 + [b]);
    InitialSetsFit(points);
  }

  /** The hull is just the two corners exactly when no point tests above EPS
      or below zero against the diameter: only then are both initial sets
      empty. */
  lemma DiameterOnlyIff(points: seq<Point>)
    requires |points| >= 2
    ensures QuickHull(points) == Some([LeftCornerPoint(points), RightCornerPoint(points)])
        <==> forall k :: 0 <= k < |points| ==>
               0.0 <= HalfplaneTest(ComputeLineParams(LeftCornerPoint(points), RightCornerPoint(points)), points[k]) <= EPS
  {
    var a := LeftCornerPoint(points);
    var b := RightCornerPoint(points);
    var line := ComputeLineParams(a, b);
    var lSet := GetLSetFromAllPoints(points, line);
    var rSet := GetRSetFromAllPoints(points, line);
    var h1 := QuickHullRec(points, lSet, a, b, [a]);
    var h := QuickHullRec(points, rSet, b, a, h1 + [b]);
    assert QuickHull(points) == Some(h);
    if forall k :: 0 <= k < |points| ==> 0.0 <= HalfplaneTest(line, points[k]) <= EPS {
      assert |lSet| == 0 && |rSet| == 0;
      assert h == [a, b];
    } else {
      assert |lSet| > 0 || |rSet| > 0;
      assert |h| > 2;
    }
  }

  /** All input points lie on one line. */
  ghost predicate Collinear(points: seq<Point>) {
    forall i, j, k :: 0 <= i < |points| && 0 <= j < |points| && 0 <= k < |points| ==>
      Orientation(points[i], points[j], points[k]) == 0.0
  }

  /** Collinear input yields exactly the two extreme points. */
  lemma CollinearHull(points: seq<Point>)
    requires |points| >= 2
    requires Collinear(points)
    ensures QuickHull(points) == Some([LeftCornerPoint(points), RightCornerPoint(points)])
  {
    var a := LeftCornerPoint(points);
    var b := RightCornerPoint(points);
    var ia :| 0 <= ia < |points| && points[ia] == a;
    var ib :| 0 <= ib < |points| && points[ib] == b;
    forall k | 0 <= k < |points|
      ensures HalfplaneTest(ComputeLineParams(a, b), points[k]) == 0.0
    {
      TestIsOrientation(a, b, points[k]);
      assert Orientation(points[ia], points[ib], points[k]) == 0.0;
    }
    DiameterOnlyIff(points);
  }

  /** When every input point is the same point p, the hull is p twice: the
      corners coincide and both are emitted. */
  lemma CoincidentPointsRepeat(points: seq<Point>)
    requires |points| >= 2
    requires forall i :: 0 <= i < |points| ==> points[i] == points[0]
    ensures QuickHull(points) == Some([points[0], points[0]])
  {
    CornersCoincide(points);
    LeftCornerIsLexMinimum(points, points[0]);
    CollinearHull(points);
  }
}
