/** Worked cases of the hull: three collinear points, and a single point. */
module HullCases {
  import opened Geometry
  import opened Extremes
  import opened Hull

  /** Three points on the x axis: only the two ends remain. */
  lemma ThreeOnALine()
    ensures QuickHull([Point(0.0, 0.0), Point(1.0, 0.0), Point(2.0, 0.0)]) == Some([Point(0.0, 0.0), Point(2.0, 0.0)])
  {
    var pts := [Point(0.0, 0.0), Point(1.0, 0.0), Point(2.0, 0.0)];
    LeftCornerIsLexMinimum(pts, Point(0.0, 0.0));
    RightCornerIsLexMaximum(pts, Point(2.0, 0.0));
    CollinearHull(pts);
  }

  /** A single point has no hull. */
  lemma SinglePoint()
    ensures QuickHull([Point(0.0, 0.0)]) == None
  {
  }
}
