/** The partition filters. A candidate set is a sequence of indices into the
    immutable input point sequence; each filter keeps, in their original order,
    the indices whose point passes the side test against a line. */
module Partition {
  import opened Geometry

  /** The strict "left of the line" test: the value must exceed EPS. */
  predicate IsLeft(l: Line, p: Point) {
    HalfplaneTest(l, p) > EPS
  }

  /** The "right of the line" test: the value must be below zero (not -EPS). */
  predicate IsRight(l: Line, p: Point) {
    HalfplaneTest(l, p) < 0.0
  }

  /** Every index of the candidate set names an input point. */
  predicate ValidIndices(points: seq<Point>, pointSet: seq<int>) {
    forall j :: 0 <= j < |pointSet| ==> 0 <= pointSet[j] < |points|
  }

  predicate StrictlyIncreasing(s: seq<int>) {
    forall i, j :: 0 <= i < j < |s| ==> s[i] < s[j]
  }

  /** sub can be obtained from s by deleting elements. */
  ghost predicate IsSubsequence<T>(sub: seq<T>, s: seq<T>)
    decreases |s|
  {
    |sub| == 0 ||
    (|s| > 0 && ((sub[0] == s[0] && IsSubsequence(sub[1..], s[1..])) || IsSubsequence(sub, s[1..])))
  }

  /** getLSet: the candidates strictly left of the line, in their input order. */
  function GetLSet(points: seq<Point>, l: Line, pointSet: seq<int>): (r: seq<int>)
    requires ValidIndices(points, pointSet)
    ensures ValidIndices(points, r)
    ensures forall k :: k in r <==> k in pointSet && 0 <= k < |points| && IsLeft(l, points[k])
    ensures IsSubsequence(r, pointSet)
    ensures multiset(r) <= multiset(pointSet)
    ensures |r| <= |pointSet|
    ensures |r| == |pointSet| <==> forall j :: 0 <= j < |pointSet| ==> IsLeft(l, points[pointSet[j]])
    decreases |pointSet|
  {
    if |pointSet| == 0 then []
    else
      assert pointSet == [pointSet[0]] + pointSet[1..];
      var rest := GetLSet(points, l, pointSet[1..]);
      if IsLeft(l, points[pointSet[0]]) then
        assert ([pointSet[0]] + rest)[1..] == rest;
        [pointSet[0]] + rest
      else rest
  }

  /** getLSet is the exact filter, with multiplicity: an index the input
      repeats is kept as often as it occurs when its point passes, and
      dropped entirely otherwise. */
  lemma {:induction false} GetLSetCounts(points: seq<Point>, l: Line, pointSet: seq<int>)
    requires ValidIndices(points, pointSet)
    ensures forall k :: multiset(GetLSet(points, l, pointSet))[k]
                     == if 0 <= k < |points| && IsLeft(l, points[k]) then multiset(pointSet)[k] else 0
    decreases |pointSet|
  {
    if |pointSet| > 0 {
      var tail := pointSet[1..];
      assert pointSet == [pointSet[0]] + tail;
      assert multiset(pointSet) == multiset{pointSet[0]} + multiset(tail);
      GetLSetCounts(points, l, tail);
    }
  }

  /** The indices in [i, |points|) strictly left of the line, ascending. */
  function LeftScan(points: seq<Point>, l: Line, i: nat): (r: seq<int>)
    requires i <= |points|
    ensures forall k :: k in r <==> i <= k < |points| && IsLeft(l, points[k])
    ensures StrictlyIncreasing(r)
    ensures |r| == 0 <==> forall k :: i <= k < |points| ==> !IsLeft(l, points[k])
    decreases |points| - i
  {
    if i == |points| then []
    else
      var rest := LeftScan(points, l, i + 1);
      assert forall j :: 0 <= j < |rest| ==> rest[j] in rest;
      if IsLeft(l, points[i]) then [i] + rest else rest
  }

  /** The indices in [i, |points|) strictly right of the line, ascending. */
  function RightScan(points: seq<Point>, l: Line, i: nat): (r: seq<int>)
    requires i <= |points|
    ensures forall k :: k in r <==> i <= k < |points| && IsRight(l, points[k])
    ensures StrictlyIncreasing(r)
    ensures |r| == 0 <==> forall k :: i <= k < |points| ==> !IsRight(l, points[k])
    decreases |points| - i
  {
    if i == |points| then []
    else
      var rest := RightScan(points, l, i + 1);
      assert forall j :: 0 <= j < |rest| ==> rest[j] in rest;
      if IsRight(l, points[i]) then [i] + rest else rest
  }

  /** getLSetFromAllPoints: every input index strictly left of the line. */
  function GetLSetFromAllPoints(points: seq<Point>, l: Line): (r: seq<int>)
    ensures forall k :: k in r <==> 0 <= k < |points| && IsLeft(l, points[k])
    ensures StrictlyIncreasing(r)
    ensures |r| == 0 <==> forall k :: 0 <= k < |points| ==> !IsLeft(l, points[k])
    ensures ValidIndices(points, r)
  {
    var r := LeftScan(points, l, 0);
    assert forall j :: 0 <= j < |r| ==> r[j] in r;
    r
  }

  /** getRSetFromAllPoints: every input index strictly right of the line. */
  function GetRSetFromAllPoints(points: seq<Point>, l: Line): (r: seq<int>)
    ensures forall k :: k in r <==> 0 <= k < |points| && IsRight(l, points[k])
    ensures StrictlyIncreasing(r)
    ensures |r| == 0 <==> forall k :: 0 <= k < |points| ==> !IsRight(l, points[k])
    ensures ValidIndices(points, r)
  {
    var r := RightScan(points, l, 0);
    assert forall j :: 0 <= j < |r| ==> r[j] in r;
    r
  }

  /** The indices lo, lo + 1, ..., hi - 1. */
  function Range(lo: nat, hi: nat): (s: seq<int>)
    requires lo <= hi
    ensures |s| == hi - lo
    ensures forall i :: 0 <= i < |s| ==> s[i] == lo + i
    decreases hi - lo
  {
    if lo == hi then [] else [lo] + Range(lo + 1, hi)
  }

  /** The scan over the whole input is getLSet applied to all indices: the two
      source filters agree. */
  lemma {:induction false} LeftScanIsGetLSet(points: seq<Point>, l: Line, i: nat)
    requires i <= |points|
    ensures LeftScan(points, l, i) == GetLSet(points, l, Range(i, |points|))
    decreases |points| - i
  {
    if i < |points| {
      LeftScanIsGetLSet(points, l, i + 1);
      assert Range(i, |points|)[1..] == Range(i + 1, |points|);
    }
  }

  lemma GetLSetFromAllPointsIsGetLSet(points: seq<Point>, l: Line)
    ensures GetLSetFromAllPoints(points, l) == GetLSet(points, l, Range(0, |points|))
  {
    LeftScanIsGetLSet(points, l, 0);
  }

  /** The initial left and right sets never share an index, and a point whose
      test value lies in [0, EPS] is in neither of them. */
  lemma InitialSetsDisjoint(points: seq<Point>, l: Line, k: int)
    ensures !(k in GetLSetFromAllPoints(points, l) && k in GetRSetFromAllPoints(points, l))
    ensures 0 <= k < |points| && 0.0 <= HalfplaneTest(l, points[k]) <= EPS ==>
              k !in GetLSetFromAllPoints(points, l) && k !in GetRSetFromAllPoints(points, l)
    ensures 0 <= k < |points| && -EPS < HalfplaneTest(l, points[k]) < 0.0 ==>
              k in GetRSetFromAllPoints(points, l)
  {
  }

  /** A strictly increasing sequence holds each value at most once. */
  lemma {:induction false} IncreasingCountsOnce(s: seq<int>)
    requires StrictlyIncreasing(s)
    ensures forall k :: multiset(s)[k] == if k in s then 1 else 0
  {
    if |s| > 0 {
      assert s == [s[0]] + s[1..];
      IncreasingCountsOnce(s[1..]);
      assert forall j :: 0 <= j < |s[1..]| ==> s[1..][j] > s[0];
    }
  }

  /** Removing a sub-multiset removes exactly its size. */
  lemma MultisetDifferenceSize<T>(a: multiset<T>, b: multiset<T>)
    requires a <= b
    ensures |b - a| == |b| - |a|
  {
    assert b == a + (b - a);
  }

  /** Two multisets whose counts add up to at most those of s are together
      no larger than s. */
  lemma SumBoundedSize<T>(a: multiset<T>, b: multiset<T>, s: multiset<T>)
    requires forall x :: a[x] + b[x] <= s[x]
    ensures |a| + |b| <= |s|
  {
    assert a + b <= s;
    MultisetDifferenceSize(a + b, s);
  }

  /** Two disjoint sub-multisets of a candidate set that both miss one of its
      members are together smaller than the candidate set. */
  lemma DisjointSubsetsSize(pointSet: seq<int>, left: seq<int>, right: seq<int>, k: int)
    requires multiset(left) <= multiset(pointSet) && multiset(right) <= multiset(pointSet)
    requires forall j :: !(j in left && j in right)
    requires k in pointSet && k !in left && k !in right
    ensures |left| + |right| < |pointSet|
  {
    var rest := multiset(pointSet) - multiset{k};
    forall x
      ensures multiset(left)[x] + multiset(right)[x] <= rest[x]
    {
      if x != k && x in left {
        assert x !in right;
      }
    }
    SumBoundedSize(multiset(left), multiset(right), rest);
    MultisetDifferenceSize(multiset{k}, multiset(pointSet));
  }

  /** Each index of [0, n) occurs once in Range(0, n), and nothing else does. */
  lemma RangeCounts(n: nat)
    ensures forall x :: multiset(Range(0, n))[x] == if 0 <= x < n then 1 else 0
  {
    var all := Range(0, n);
    IncreasingCountsOnce(all);
    forall x | 0 <= x < n
      ensures x in all
    {
      assert all[x] == x;
    }
  }

  /** The indices of [0, n) other than two distinct ones, each counted once. */
  lemma RangeWithoutTwo(n: nat, i1: int, i2: int)
    requires 0 <= i1 < n && 0 <= i2 < n && i1 != i2
    ensures |multiset(Range(0, n)) - multiset{i1, i2}| == n - 2
    ensures forall x :: (multiset(Range(0, n)) - multiset{i1, i2})[x] == if 0 <= x < n && x != i1 && x != i2 then 1 else 0
  {
    var all := multiset(Range(0, n));
    var ends := multiset{i1, i2};
    RangeCounts(n);
    assert ends <= all by {
      assert all[i1] == 1 && all[i2] == 1;
    }
    MultisetDifferenceSize(ends, all);
  }

  /** Two disjoint ascending index sequences over [0, n) that both miss two
      distinct indices hold at most n - 2 indices together. */
  lemma DisjointIndexSetsSize(n: nat, left: seq<int>, right: seq<int>, i1: int, i2: int)
    requires StrictlyIncreasing(left) && StrictlyIncreasing(right)
    requires forall k :: k in left ==> 0 <= k < n
    requires forall k :: k in right ==> 0 <= k < n
    requires forall j :: !(j in left && j in right)
    requires 0 <= i1 < n && 0 <= i2 < n && i1 != i2
    requires i1 !in left && i1 !in right && i2 !in left && i2 !in right
    ensures |left| + |right| <= n - 2
  {
    var rest := multiset(Range(0, n)) - multiset{i1, i2};
    RangeWithoutTwo(n, i1, i2);
    forall x
      ensures multiset(left)[x] + multiset(right)[x] <= rest[x]
    {
      IncreasingCountsOnce(left);
      IncreasingCountsOnce(right);
      if x in left {
        assert x !in right;
      }
    }
    SumBoundedSize(multiset(left), multiset(right), rest);
  }
}
