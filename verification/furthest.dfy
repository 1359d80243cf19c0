/** The farthest-point selector: an argmax of the oriented distance over a
    non-empty candidate set, where a later candidate replaces the current one
    only if it is strictly farther, so the first maximum wins. */
module Furthest {
  import opened Geometry
  import opened Partition

  /** Distance from the line of the point named by the candidate at position j. */
  function DistAt(points: seq<Point>, l: Line, pointSet: seq<int>, j: int): real
    requires ValidIndices(points, pointSet)
    requires 0 <= j < |pointSet|
  {
    DistFromLine(l, points[pointSet[j]])
  }

  /** Position p holds a maximal distance, and every earlier position a
      strictly smaller one. */
  predicate IsFirstMaximum(points: seq<Point>, l: Line, pointSet: seq<int>, p: int)
    requires ValidIndices(points, pointSet)
  {
    && 0 <= p < |pointSet|
    && (forall j :: 0 <= j < |pointSet| ==> DistAt(points, l, pointSet, j) <= DistAt(points, l, pointSet, p))
    && (forall j :: 0 <= j < p ==> DistAt(points, l, pointSet, j) < DistAt(points, l, pointSet, p))
  }

  /** The loop of furthestPointFromLine from position i on, with `best` the
      position of the maximum found so far. */
  function FurthestScan(points: seq<Point>, l: Line, pointSet: seq<int>, best: nat, i: nat): (p: nat)
    requires ValidIndices(points, pointSet)
    requires best < i <= |pointSet|
    requires forall j :: 0 <= j < i ==> DistAt(points, l, pointSet, j) <= DistAt(points, l, pointSet, best)
    requires forall j :: 0 <= j < best ==> DistAt(points, l, pointSet, j) < DistAt(points, l, pointSet, best)
    ensures IsFirstMaximum(points, l, pointSet, p)
    decreases |pointSet| - i
  {
    if i == |pointSet| then best
    else if DistAt(points, l, pointSet, i) > DistAt(points, l, pointSet, best) then
      FurthestScan(points, l, pointSet, i, i + 1)
    else
      FurthestScan(points, l, pointSet, best, i + 1)
  }

  /** Position in the candidate set of the point furthestPointFromLine picks. */
  function FurthestPosition(points: seq<Point>, l: Line, pointSet: seq<int>): (p: nat)
    requires ValidIndices(points, pointSet)
    requires |pointSet| > 0
    ensures IsFirstMaximum(points, l, pointSet, p)
  {
    FurthestScan(points, l, pointSet, 0, 1)
  }

  /** furthestPointFromLine: the input index of the first candidate farthest
      (by oriented distance) from the line. */
  function FurthestPointFromLine(points: seq<Point>, l: Line, pointSet: seq<int>): (k: int)
    requires ValidIndices(points, pointSet)
    requires |pointSet| > 0
    ensures k in pointSet && 0 <= k < |points|
    ensures forall j :: 0 <= j < |pointSet| ==> DistFromLine(l, points[pointSet[j]]) <= DistFromLine(l, points[k])
    ensures exists p :: 0 <= p < |pointSet| && pointSet[p] == k &&
              forall j :: 0 <= j < p ==> DistFromLine(l, points[pointSet[j]]) < DistFromLine(l, points[k])
  {
    var p := FurthestPosition(points, l, pointSet);
    assert forall j :: 0 <= j < |pointSet| ==> DistAt(points, l, pointSet, j) == DistFromLine(l, points[pointSet[j]]);
    pointSet[p]
  }

  /** Exactly one position is a first maximum, and it is the one the
      selector returns. */
  lemma FurthestIsFirstMaximum(points: seq<Point>, l: Line, pointSet: seq<int>, p: int)
    requires ValidIndices(points, pointSet)
    requires IsFirstMaximum(points, l, pointSet, p)
    ensures FurthestPosition(points, l, pointSet) == p
  {
  }
}
