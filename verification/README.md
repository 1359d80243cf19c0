# QuickHull for 2-D points, modelled in Dafny

This project models `dQuickhull.h`, a sequential QuickHull that computes the convex hull of a finite set of 2-D points. The model proves properties of each step.

The algorithm works as follows:

- It takes the leftmost point A and the rightmost point B as the ends of the diameter.
- It splits the remaining points by which side of the directed line A -> B they lie on.
- On each side it recursively picks the candidate farthest from the current baseline (the apex D).
- It keeps the candidates strictly left of A -> D and of D -> B, recurses on each, and emits D between the two recursions.

The hull is the sequence `A, upper chain, B, lower chain`.

Modules, one per component of the source:

- `Geometry` (`geometry.dfy`): points, line coefficients, the half-plane test and the oriented distance. Coordinates are exact `real`s and `EPS = 0.00001` is an exact constant. `Orientation` is an independent reference for the sign of the test (twice the signed triangle area).
- `Extremes` (`extremes.dfy`): `leftCornerPoint` and `rightCornerPoint`. Each is modelled as the source's scan, with the candidate replaced only on a strict improvement.
- `Partition` (`partition.dfy`): the three filters over index sequences, plus counting lemmas on multisets.
- `Furthest` (`furthest.dfy`): the argmax in which the first maximum wins.
- `Hull` (`quickhull.dfy`): `quickHullRec` and `quickHull`. The hull under construction is a sequence threaded through the recursion. The source's `hullSize` is its length.
- `HullCases` (`examples_hull.dfy`): worked inputs.

Candidate sets are sequences of indices into the immutable input sequence, as in the source. The recursion terminates because each sub-set is strictly shorter than its parent: the apex tests to exactly zero against both new lines.

## Model

| member | source | states |
|---|---|---|
| Geometry.ComputeLineParams | dQuickhull.h:58-62 | both defining points test to exactly 0 against the line; the (a, b) part is zero exactly when the two points coincide |
| Geometry.TestIsOrientation | dQuickhull.h:58-66 | the test value of r against the line through p, q equals the orientation of (p, q, r), so a positive value means r is left of p -> q |
| Geometry.DistAgreesWithTest | dQuickhull.h:108-110 | `distFromLine` and `halfplaneTest` give the same value for every line and point |
| Geometry.ReversedLineNegates | dQuickhull.h:186 | the line through (q, p) gives every point the negated test value of the line through (p, q) |
| Geometry.SplitIdentity | dQuickhull.h:145-148 | the test values of a point against a -> d and d -> b sum to its test value against a -> b minus that of d |
| Geometry.NotLeftOfBoth | dQuickhull.h:145-153 | a point no farther from a -> b than d cannot be strictly left of both a -> d and d -> b |
| Extremes.LeftCornerPoint | dQuickhull.h:12-30 | for non-empty input, returns an input point with minimal x, and minimal y among the points with that x |
| Extremes.RightCornerPoint | dQuickhull.h:38-56 | for non-empty input, returns an input point with maximal x, and maximal y among the points with that x |
| Extremes.LeftCornerIsLexMinimum | dQuickhull.h:12-30 | any input point that is below every input point in the (x, y) order is the left corner, so the result is unique |
| Extremes.RightCornerIsLexMaximum | dQuickhull.h:38-56 | any input point that is above every input point in the (x, y) order is the right corner |
| Extremes.CornersCoincide | dQuickhull.h:12-56 | the left and right corners are equal exactly when all input points are equal |
| Partition.GetLSet | dQuickhull.h:67-77 | the result holds exactly the candidates whose test exceeds EPS; it is an order-preserving subsequence and a sub-multiset of the input, no longer than it; it has the input's length exactly when every candidate passes |
| Partition.GetLSetCounts | dQuickhull.h:70-74 | the exact filter with multiplicity: every index occurs in the result as often as in the input if its point tests above EPS, and not at all otherwise, so repeated candidates are all kept |
| Partition.GetLSetFromAllPoints | dQuickhull.h:78-88 | holds exactly the indices in [0, n) whose test exceeds EPS, strictly increasing; empty exactly when no point passes |
| Partition.GetRSetFromAllPoints | dQuickhull.h:90-100 | holds exactly the indices in [0, n) whose test is below 0, strictly increasing; empty exactly when no point passes |
| Partition.GetLSetFromAllPointsIsGetLSet | dQuickhull.h:67-88 | the whole-input filter equals `getLSet` applied to the indices 0 .. n-1 |
| Partition.InitialSetsDisjoint | dQuickhull.h:81-99 | no index is in both initial sets; a point testing in [0, EPS] is in neither; a point testing in (-EPS, 0) is in the right set |
| Furthest.FurthestPosition | dQuickhull.h:120-134 | for a non-empty set, returns a position whose distance is maximal and strictly greater than that of every earlier position |
| Furthest.FurthestPointFromLine | dQuickhull.h:120-134 | returns a member of the non-empty candidate set whose distance is at least every member's, and which sits at a position before which all distances are strictly smaller |
| Furthest.FurthestIsFirstMaximum | dQuickhull.h:125-131 | any position that is a first maximum is the one the selector returns |
| Hull.Apex | dQuickhull.h:142-143 | the apex of a recursion step is one of its candidates and a valid input index |
| Hull.SubsetsShrink | dQuickhull.h:145-153 | neither sub-set contains the apex; each is a subsequence of the candidates and strictly shorter |
| Hull.QuickHullRec | dQuickhull.h:136-163 | only appends: the input hull is a prefix of the result; an empty candidate set appends nothing; a non-empty one appends at least one vertex (that it is the apex, between the two recursions, is `HullRecInOrder`) |
| Hull.RecEmitsCandidates | dQuickhull.h:152-157 | every vertex a recursion step appends is the point of one of its candidates |
| Hull.HullRecInOrder | dQuickhull.h:152-157 | for a non-empty set the output is the hull so far, then the left recursion's vertices, then the apex (a candidate), then the right recursion's vertices |
| Hull.HullRecFrame | dQuickhull.h:136-157 | the vertices appended do not depend on the hull already built: the result equals the old hull plus the result from an empty hull |
| Hull.SubsetsDisjoint | dQuickhull.h:150-153 | the two sub-sets share no index, and together they are shorter than the candidate set |
| Hull.HullRecBound | dQuickhull.h:150-157 | a recursion step appends at most one vertex per candidate |
| Hull.QuickHull | dQuickhull.h:165-194 | no hull exactly when there is at most one point; otherwise at least two vertices, starting with the left corner |
| Hull.HullShape | dQuickhull.h:172-187 | every hull vertex is an input point; the hull is A, then points strictly left of A -> B, then B, then points strictly right of A -> B |
| Hull.InitialSetsFit | dQuickhull.h:179-182 | no index whose point equals a corner is in either initial set, and the two sets together hold at most n - 2 indices |
| Hull.HullFitsBuffer | dQuickhull.h:169-187 | the hull never exceeds the n slots allocated for it |
| Hull.DiameterOnlyIff | dQuickhull.h:176-187 | the hull is exactly [A, B] if and only if every point tests between 0 and EPS against A -> B |
| Hull.CollinearHull | dQuickhull.h:176-187 | collinear input yields exactly the two extreme points |
| Hull.CoincidentPointsRepeat | dQuickhull.h:172-185 | when all (at least two) points coincide, the hull is that point twice |
| HullCases.ThreeOnALine | dQuickhull.h:165-194 | (0,0), (1,0), (2,0) yield the hull (0,0), (2,0) |
| HullCases.SinglePoint | dQuickhull.h:166-167 | a single point yields no hull |

## Left out

- Memory management: `calloc`, `free`, `realloc`, the `double**` array-of-arrays layout, the `sizeof(int*)` over-allocation and the final shrink of the hull buffer. Results are fresh sequences. `HullFitsBuffer` states the fact the allocation depends on.
- IEEE-754 rounding. Coordinates are exact reals, so exact-zero facts hold here, such as the apex testing to 0 against both new lines. In doubles they hold only up to rounding, and termination there rests on the same facts.
- The source calls `furthestPointFromLine` twice, once per coordinate of D. The function is deterministic, so it is modelled as one call (`Apex`).
- The line-coefficient parameter of `quickHullRec` is not a separate argument. Every call site passes the line through the two endpoints it also passes (`A, B`, `B, A`, `A, D`, `D, B`), so the model computes it from them.
- The declared count `n` is taken to be the length of the point sequence. A count that disagrees with the array is a caller error in the source and has no counterpart here.
- Index and size variables are C `int`s. Their overflow would need more than 2^31 points and is not modelled.
- Global convex-hull correctness is not proved. That covers convexity of the output, every input point lying inside the polygon, and the idempotence of running the algorithm on its own output. The code does not state these, and proving them needs nonlinear real reasoning far beyond the steps modelled.
- "No duplicate vertices" is not claimed. The code emits two copies when all points coincide (`CoincidentPointsRepeat`).
- No worked case with a non-collinear input is included. Proving the hull of a concrete non-collinear input needs a chain of nonlinear real comparisons too costly for the verifier; the general lemmas cover such inputs.
- The unused `<stdio.h>` and `<math.h>` includes.

## Notes on the code

- The left sets use `> EPS` (dQuickhull.h:71, 82), but the right initial set uses `< 0` (dQuickhull.h:94). So a point whose test against A -> B is in (-EPS, 0) is kept as a candidate, while one whose test is in (0, EPS] is dropped. The model follows the code (`InitialSetsDisjoint`).
- The hull repeats a vertex when all input points coincide: A and B are then the same point and both are emitted (dQuickhull.h:173, 185; `CoincidentPointsRepeat`).
