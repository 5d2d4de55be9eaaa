/**
  The line-of-sight kernel of pathfinder/pathfinder.py: the orientation test
  `ccw`, `lines_intersect`, `line_is_clear` and the Euclidean `heuristic`.
  Coordinates are exact reals; the test uses only `-`, `*` and a strict `>`,
  so it is exact here as it is on the integer pixel coordinates of the maps.
 */
module Geometry {

  /** A map point `(x, y)`. */
  datatype Point = Point(x: real, y: real)

  /** A wall segment `(start, end)` as loaded from the map. */
  datatype Wall = Wall(start: Point, end: Point)

  /** A pose `(x, y, angle in degrees)`. */
  datatype Pose = Pose(x: real, y: real, angle: real)

  /** The position part of a pose, `pose[:2]`. */
  function Position(pose: Pose): Point {
    Point(pose.x, pose.y)
  }

  /** Twice the signed area of the triangle a, b, c, with the factors in the order the source writes them. */
  function Orient(a: Point, b: Point, c: Point): real {
    (c.y - a.y) * (b.x - a.x) - (b.y - a.y) * (c.x - a.x)
  }

  /**
    The source's `ccw(a, b, c)`: the turn a -> b -> c is strictly positive.
    Such a turn needs three distinct points, reads the same from any of its
    three corners, and is a strictly negative turn when a and b swap.
   */
  predicate Ccw(a: Point, b: Point, c: Point): (r: bool)
    ensures r ==> a != b && b != c && a != c
    ensures r <==> Orient(b, c, a) > 0.0
    ensures r ==> Orient(b, a, c) < 0.0
  {
    (c.y - a.y) * (b.x - a.x) > (b.y - a.y) * (c.x - a.x)
  }

  /**
    The source's `lines_intersect(p1, p2, q1, q2)`. It only reports segments
    of positive length, and only when each segment has an end point strictly
    to the left of the other's line.
   */
  predicate LinesIntersect(p1: Point, p2: Point, q1: Point, q2: Point): (r: bool)
    ensures r ==> p1 != p2 && q1 != q2
    ensures r ==> (Ccw(p1, q1, q2) || Ccw(p2, q1, q2)) && (Ccw(p1, p2, q1) || Ccw(p1, p2, q2))
  {
    (Ccw(p1, q1, q2) != Ccw(p2, q1, q2)) && (Ccw(p1, p2, q1) != Ccw(p1, p2, q2))
  }

  /** No wall of the list crosses the sight line from a to b, by the source's test. */
  predicate ClearOfWalls(a: Point, b: Point, walls: seq<Wall>) {
    forall i :: 0 <= i < |walls| ==> !LinesIntersect(a, b, walls[i].start, walls[i].end)
  }

  /** The source's `line_is_clear`: scan the walls and stop at the first one that blocks. */
  method LineIsClear(point1: Point, point2: Point, walls: seq<Wall>) returns (clear: bool)
    ensures clear <==> forall w :: w in walls ==> !LinesIntersect(point1, point2, w.start, w.end)
    ensures clear == ClearOfWalls(point1, point2, walls)
  {
    for i := 0 to |walls|
      invariant forall j :: 0 <= j < i ==> !LinesIntersect(point1, point2, walls[j].start, walls[j].end)
    {
      if LinesIntersect(point1, point2, walls[i].start, walls[i].end) {
        return false;
      }
    }
    return true;
  }

  /** Swapping the first two points negates the orientation. */
  lemma OrientSwap(a: Point, b: Point, c: Point)
    ensures Orient(b, a, c) == -Orient(a, b, c)
  {
    calc {
      Orient(b, a, c);
      (c.y - b.y) * (a.x - b.x) - (a.y - b.y) * (c.x - b.x);
      (c.y - a.y) * (a.x - b.x) + (a.y - b.y) * (a.x - b.x) - (a.y - b.y) * (c.x - a.x) - (a.y - b.y) * (a.x - b.x);
      -((c.y - a.y) * (b.x - a.x) - (b.y - a.y) * (c.x - a.x));
    }
  }

  /** Rotating the three points leaves the orientation unchanged. */
  lemma OrientRotate(a: Point, b: Point, c: Point)
    ensures Orient(b, c, a) == Orient(a, b, c)
  {
    calc {
      Orient(b, c, a);
      (a.y - b.y) * (c.x - b.x) - (c.y - b.y) * (a.x - b.x);
      (a.y - b.y) * (c.x - a.x) + (a.y - b.y) * (a.x - b.x) - (c.y - a.y) * (a.x - b.x) - (a.y - b.y) * (a.x - b.x);
      (c.y - a.y) * (b.x - a.x) - (b.y - a.y) * (c.x - a.x);
    }
  }

  /** A sight line of zero length is never blocked. */
  lemma DegenerateNeverBlocked(p: Point, q1: Point, q2: Point)
    ensures !LinesIntersect(p, p, q1, q2)
  {
  }

  /** A wall lying on the line through p1 and p2 (collinear with the sight line) never blocks it. */
  lemma CollinearNeverBlocks(p1: Point, p2: Point, q1: Point, q2: Point)
    requires Orient(p1, p2, q1) == 0.0 && Orient(p1, p2, q2) == 0.0
    ensures !LinesIntersect(p1, p2, q1, q2)
  {
  }

  /**
    A wall that starts where the sight line starts, or ends where it ends,
    never blocks it: the strict test misses the touch.
   */
  lemma SameEndpointNeverBlocks(p1: Point, p2: Point, q1: Point, q2: Point)
    requires q1 == p1 || q2 == p2
    ensures !LinesIntersect(p1, p2, q1, q2)
  {
    OrientSwap(p1, p2, q2);
    OrientSwap(q1, p1, p2);
    OrientRotate(p1, p2, q1);
  }

  /**
    A wall that starts where the sight line ends can block it: whether a shared
    end point blocks depends on which ends are shared.
   */
  lemma OppositeEndpointCanBlock()
    ensures LinesIntersect(Point(0.0, 0.0), Point(1.0, 0.0), Point(1.0, 0.0), Point(1.0, 1.0))
  {
  }

  /** Exchanging the two segments never changes the verdict: the four turns tested are the same. */
  lemma SwapSegments(p1: Point, p2: Point, q1: Point, q2: Point)
    ensures LinesIntersect(q1, q2, p1, p2) == LinesIntersect(p1, p2, q1, q2)
  {
    OrientRotate(p1, p2, q1);
    OrientRotate(p1, p2, q2);
    OrientRotate(q1, q2, p1);
    OrientRotate(q1, q2, p2);
  }

  /** No three of the four points tested are collinear. */
  predicate GeneralPosition(p1: Point, p2: Point, q1: Point, q2: Point) {
    Orient(p1, q1, q2) != 0.0 && Orient(p2, q1, q2) != 0.0 &&
    Orient(p1, p2, q1) != 0.0 && Orient(p1, p2, q2) != 0.0
  }

  /** In general position the verdict does not depend on the direction of either segment. */
  lemma EndsSwapInGeneralPosition(p1: Point, p2: Point, q1: Point, q2: Point)
    requires GeneralPosition(p1, p2, q1, q2)
    ensures LinesIntersect(p2, p1, q1, q2) == LinesIntersect(p1, p2, q1, q2)
    ensures LinesIntersect(p1, p2, q2, q1) == LinesIntersect(p1, p2, q1, q2)
  {
    OrientSwap(p1, p2, q1);
    OrientSwap(p1, p2, q2);
    OrientSwap(q1, q2, p1);
    OrientSwap(q1, q2, p2);
    OrientRotate(q1, q2, p1);
    OrientRotate(q2, q1, p1);
    OrientRotate(q1, q2, p2);
    OrientRotate(q2, q1, p2);
  }

  /**
    Outside general position the direction matters: a wall whose foot touches
    the middle of the sight line (a T-junction) blocks it from one end only.
   */
  lemma TJunctionDependsOnDirection()
    ensures LinesIntersect(Point(0.0, 0.0), Point(2.0, 0.0), Point(1.0, 0.0), Point(1.0, 1.0))
    ensures !LinesIntersect(Point(2.0, 0.0), Point(0.0, 0.0), Point(1.0, 0.0), Point(1.0, 1.0))
  {
  }

  /**
    The segments cross properly: the ends of the sight line lie strictly on
    opposite sides of the wall's line, and the ends of the wall strictly on
    opposite sides of the sight line's.
   */
  predicate ProperlyCrosses(p1: Point, p2: Point, q1: Point, q2: Point) {
    Orient(q1, q2, p1) * Orient(q1, q2, p2) < 0.0 && Orient(p1, p2, q1) * Orient(p1, p2, q2) < 0.0
  }

  /** A product is negative exactly when its factors have strictly opposite signs. */
  lemma NegativeProduct(a: real, b: real)
    ensures a * b < 0.0 <==> (a > 0.0 && b < 0.0) || (a < 0.0 && b > 0.0)
  {
    if (a > 0.0 && b > 0.0) || (a < 0.0 && b < 0.0) {
      assert a * b > 0.0;
    } else if (a > 0.0 && b < 0.0) || (a < 0.0 && b > 0.0) {
      assert a * b < 0.0;
    } else {
      assert a == 0.0 || b == 0.0;
    }
  }

  /** Reading the sight line backwards does not change whether it crosses a wall properly. */
  lemma ProperlyCrossesReversed(p1: Point, p2: Point, q1: Point, q2: Point)
    ensures ProperlyCrosses(p2, p1, q1, q2) == ProperlyCrosses(p1, p2, q1, q2)
  {
    OrientSwap(p1, p2, q1);
    OrientSwap(p1, p2, q2);
  }

  /** The four turns `lines_intersect` tests, as signs of orientations. */
  lemma CcwAsOrient(p1: Point, p2: Point, q1: Point, q2: Point)
    ensures Ccw(p1, q1, q2) <==> Orient(q1, q2, p1) > 0.0
    ensures Ccw(p2, q1, q2) <==> Orient(q1, q2, p2) > 0.0
    ensures Ccw(p1, p2, q1) <==> Orient(p1, p2, q1) > 0.0
    ensures Ccw(p1, p2, q2) <==> Orient(p1, p2, q2) > 0.0
  {
    OrientRotate(p1, p2, q1);
    OrientRotate(p1, p2, q2);
  }

  /** A wall that properly crosses the sight line is always reported, whatever the direction of either segment. */
  lemma ProperCrossingBlocks(p1: Point, p2: Point, q1: Point, q2: Point)
    requires ProperlyCrosses(p1, p2, q1, q2)
    ensures LinesIntersect(p1, p2, q1, q2)
  {
    CcwAsOrient(p1, p2, q1, q2);
    NegativeProduct(Orient(q1, q2, p1), Orient(q1, q2, p2));
    NegativeProduct(Orient(p1, p2, q1), Orient(p1, p2, q2));
  }

  /** In general position the test reports exactly the proper crossings. */
  lemma ProperCrossingExactly(p1: Point, p2: Point, q1: Point, q2: Point)
    requires GeneralPosition(p1, p2, q1, q2)
    ensures LinesIntersect(p1, p2, q1, q2) <==> ProperlyCrosses(p1, p2, q1, q2)
  {
    CcwAsOrient(p1, p2, q1, q2);
    OrientRotate(p1, q1, q2);
    OrientRotate(p2, q1, q2);
    NegativeProduct(Orient(q1, q2, p1), Orient(q1, q2, p2));
    NegativeProduct(Orient(p1, p2, q1), Orient(p1, p2, q2));
  }

  /** A sight line that some wall of the list properly crosses is not clear. */
  lemma CrossingWallBlocks(a: Point, b: Point, walls: seq<Wall>, k: int)
    requires 0 <= k < |walls| && ProperlyCrosses(a, b, walls[k].start, walls[k].end)
    ensures !ClearOfWalls(a, b, walls)
  {
    ProperCrossingBlocks(a, b, walls[k].start, walls[k].end);
  }

  /** A wall straddling the sight line blocks it; the same wall moved past its end does not. */
  lemma CrossingWallSamples()
    ensures !ClearOfWalls(Point(0.0, 0.0), Point(2.0, 0.0), [Wall(Point(1.0, -1.0), Point(1.0, 1.0))])
    ensures ClearOfWalls(Point(0.0, 0.0), Point(2.0, 0.0), [Wall(Point(3.0, -1.0), Point(3.0, 1.0))])
  {
    var blocking := [Wall(Point(1.0, -1.0), Point(1.0, 1.0))];
    assert LinesIntersect(Point(0.0, 0.0), Point(2.0, 0.0), blocking[0].start, blocking[0].end);
  }

  /** `math.hypot(dx, dy)`, the Euclidean length of a vector; the source's heuristic and `np.linalg.norm`. */
  type Hypot = (real, real) -> real

  /** The facts about `math.hypot` the model relies on. */
  ghost predicate IsHypot(hypot: Hypot) {
    && (forall dx, dy :: hypot(dx, dy) >= 0.0)
    && (forall dx, dy :: hypot(dx, dy) == 0.0 <==> dx == 0.0 && dy == 0.0)
    && (forall dx, dy, ex, ey {:trigger hypot(dx, dy), hypot(ex, ey)} ::
          ex == -dx && ey == -dy ==> hypot(ex, ey) == hypot(dx, dy))
  }

  /**
    The source's `heuristic(a, b)`: the length of the vector from a to b.
    For a true `hypot` it is non-negative and zero exactly between equal points.
   */
  function Heuristic(hypot: Hypot, a: Point, b: Point): (d: real)
    ensures IsHypot(hypot) ==> d >= 0.0 && (d == 0.0 <==> a == b)
  {
    hypot(b.x - a.x, b.y - a.y)
  }

  /** The heuristic is a distance: non-negative, zero exactly between equal points, symmetric. */
  lemma HeuristicIsDistance(hypot: Hypot, a: Point, b: Point)
    requires IsHypot(hypot)
    ensures Heuristic(hypot, a, b) >= 0.0
    ensures Heuristic(hypot, a, b) == 0.0 <==> a == b
    ensures Heuristic(hypot, a, b) == Heuristic(hypot, b, a)
  {
  }
}
