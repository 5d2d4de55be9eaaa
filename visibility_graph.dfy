/**
  `build_graph` of pathfinder/pathfinder.py: a complete visibility graph over
  the waypoints plus the start and end points, with an edge between two
  points exactly when the sight line between them is clear of every wall.
 */
module VisibilityGraph {
  import opened Geometry
  import opened WeightedGraph

  /** The node list: a copy of the waypoints extended by the start and end points. */
  function Nodes(waypoints: seq<Point>, startPoint: Point, endPoint: Point): (nodes: seq<Point>)
    ensures |nodes| == |waypoints| + 2
    ensures nodes[..|waypoints|] == waypoints
    ensures nodes[|waypoints|] == startPoint && nodes[|waypoints| + 1] == endPoint
  {
    waypoints + [startPoint, endPoint]
  }

  /**
    a and b are joined: at some positions i < j of the node list they stand as
    the pair tested, and the sight line from the earlier to the later is clear
    (the source tests each pair of positions once, in list order).
   */
  ghost predicate Linked(nodes: seq<Point>, walls: seq<Wall>, a: Point, b: Point) {
    exists i, j :: JoinedAt(nodes, walls, a, b, i, j)
  }

  /** Positions i < j hold a and b, in either order, and the sight line between them is clear. */
  ghost predicate JoinedAt(nodes: seq<Point>, walls: seq<Wall>, a: Point, b: Point, i: int, j: int) {
    && 0 <= i < j < |nodes|
    && ClearOfWalls(nodes[i], nodes[j], walls)
    && ((nodes[i] == a && nodes[j] == b) || (nodes[i] == b && nodes[j] == a))
  }

  /** A chain of mutually visible points from `source` to `target`. */
  ghost predicate VisibleRoute(nodes: seq<Point>, walls: seq<Wall>, path: seq<Point>, source: Point, target: Point) {
    && |path| >= 1
    && path[0] == source
    && path[|path| - 1] == target
    && forall i :: 0 <= i < |path| - 1 ==> Linked(nodes, walls, path[i], path[i + 1])
  }

  /** The graph is the visibility graph of `nodes`: what `build_graph` promises. */
  ghost predicate IsVisibilityGraph(graph: Graph, nodes: seq<Point>, walls: seq<Wall>, hypot: Hypot) {
    && graph.Keys == set p | p in nodes
    && (forall a, b :: a in graph && b in graph[a] ==> b in graph)
    && (forall a, b :: a in graph && b in graph ==> (b in graph[a] <==> Linked(nodes, walls, a, b)))
    && (forall a, b :: a in graph && b in graph[a] ==> graph[a][b] == Heuristic(hypot, a, b))
  }

  /** The source's `build_graph(waypoints, walls, start_point, end_point)`. */
  method BuildGraph(waypoints: seq<Point>, walls: seq<Wall>, startPoint: Point, endPoint: Point, hypot: Hypot)
    returns (graph: Graph)
    requires IsHypot(hypot)
    ensures graph.Keys == (set p | p in waypoints) + {startPoint, endPoint}
    ensures forall a, b :: a in graph && b in graph[a] ==> b in graph && a in graph[b] && graph[b][a] == graph[a][b]
    ensures IsVisibilityGraph(graph, Nodes(waypoints, startPoint, endPoint), walls, hypot)
    ensures WellFormed(graph)
  {
    var nodes := waypoints + [startPoint, endPoint];
    graph := map node | node in nodes :: map[];
    for i := 0 to |nodes|
      invariant graph.Keys == set p | p in nodes
      invariant Symmetric(graph, hypot)
      invariant Sound(graph, nodes, walls)
      invariant CompleteUpTo(graph, nodes, walls, i, i + 1)
    {
      for j := i + 1 to |nodes|
        invariant graph.Keys == set p | p in nodes
        invariant Symmetric(graph, hypot)
        invariant Sound(graph, nodes, walls)
        invariant CompleteUpTo(graph, nodes, walls, i, j)
      {
        var clear := LineIsClear(nodes[i], nodes[j], walls);
        if !clear {
          SkipBlockedPair(graph, nodes, walls, i, j);
        } else {
          var distance := Heuristic(hypot, nodes[i], nodes[j]);
          HeuristicIsDistance(hypot, nodes[i], nodes[j]);
          AddEdgeKeeps(graph, nodes, walls, hypot, i, j);
          graph := graph[nodes[i] := graph[nodes[i]][nodes[j] := distance]];
          graph := graph[nodes[j] := graph[nodes[j]][nodes[i] := distance]];
        }
      }
    }
    NodeSet(waypoints, startPoint, endPoint);
    LoopDoneIsVisibilityGraph(graph, nodes, walls, hypot);
  }

  /** The keys of the node list are the waypoints plus the two end points, duplicates collapsing. */
  lemma NodeSet(waypoints: seq<Point>, startPoint: Point, endPoint: Point)
    ensures (set p | p in Nodes(waypoints, startPoint, endPoint)) == (set p | p in waypoints) + {startPoint, endPoint}
  {
    var nodes := Nodes(waypoints, startPoint, endPoint);
    forall p | p in nodes
      ensures p in waypoints || p == startPoint || p == endPoint
    {
      var k :| 0 <= k < |nodes| && nodes[k] == p;
      if k < |waypoints| {
        assert waypoints[k] == p;
      }
    }
    forall p | p in waypoints
      ensures p in nodes
    {
      var k :| 0 <= k < |waypoints| && waypoints[k] == p;
      assert nodes[k] == p;
    }
  }

  /** Once every pair has been tested, the loop invariants say the graph is the visibility graph. */
  lemma LoopDoneIsVisibilityGraph(graph: Graph, nodes: seq<Point>, walls: seq<Wall>, hypot: Hypot)
    requires IsHypot(hypot)
    requires graph.Keys == set p | p in nodes
    requires Symmetric(graph, hypot) && Sound(graph, nodes, walls)
    requires CompleteUpTo(graph, nodes, walls, |nodes|, |nodes| + 1)
    ensures forall a, b :: a in graph && b in graph[a] ==> b in graph && a in graph[b] && graph[b][a] == graph[a][b]
    ensures IsVisibilityGraph(graph, nodes, walls, hypot)
    ensures WellFormed(graph)
  {
    SymmetricIsWellFormed(graph, hypot);
    EdgesExactlyLinked(graph, nodes, walls);
  }

  /** Edges weighted by a true distance make a graph A* can search: only a self-loop weighs zero. */
  lemma SymmetricIsWellFormed(graph: Graph, hypot: Hypot)
    requires IsHypot(hypot)
    requires Symmetric(graph, hypot)
    ensures forall a, b :: a in graph && b in graph[a] ==> b in graph && a in graph[b] && graph[b][a] == graph[a][b]
    ensures WellFormed(graph)
  {
    forall u, v | u in graph && v in graph[u]
      ensures v in graph && 0.0 <= graph[u][v] && (graph[u][v] == 0.0 ==> u == v)
    {
      assert graph[u][v] == Heuristic(hypot, u, v);
      HeuristicIsDistance(hypot, u, v);
    }
    assert WellFormed(graph);
  }

  /** Sound and complete over every tested pair, the graph has an edge exactly between joined points. */
  lemma EdgesExactlyLinked(graph: Graph, nodes: seq<Point>, walls: seq<Wall>)
    requires Sound(graph, nodes, walls)
    requires CompleteUpTo(graph, nodes, walls, |nodes|, |nodes| + 1)
    ensures forall a, b :: a in graph && b in graph ==> (b in graph[a] <==> Linked(nodes, walls, a, b))
  {
    forall a, b | a in graph && b in graph && Linked(nodes, walls, a, b)
      ensures b in graph[a]
    {
      var p, q :| JoinedAt(nodes, walls, a, b, p, q);
      assert nodes[q] in graph[nodes[p]] && nodes[p] in graph[nodes[q]];
    }
  }

  /** Every edge recorded so far joins a pair of the node list. */
  ghost predicate Sound(graph: Graph, nodes: seq<Point>, walls: seq<Wall>) {
    forall a, b :: a in graph && b in graph[a] ==> Linked(nodes, walls, a, b)
  }

  /** Every clear pair of positions (p, q) tested before position pair (i, j) has its edge. */
  ghost predicate CompleteUpTo(graph: Graph, nodes: seq<Point>, walls: seq<Wall>, i: int, j: int) {
    forall p, q :: 0 <= p < q < |nodes| && (p < i || (p == i && q < j)) && ClearOfWalls(nodes[p], nodes[q], walls) ==>
      nodes[p] in graph && nodes[q] in graph[nodes[p]] && nodes[q] in graph && nodes[p] in graph[nodes[q]]
  }

  /** The graph after recording the edge a -- b of weight d in both directions, as the source does. */
  function WithEdge(graph: Graph, a: Point, b: Point, d: real): (result: Graph)
    requires a in graph && b in graph
    ensures result.Keys == graph.Keys
    ensures forall x, y :: x in result && y in result[x] <==>
      (x in graph && y in graph[x]) || (x == a && y == b) || (x == b && y == a)
    ensures forall x, y :: x in result && y in result[x] ==>
      result[x][y] == if (x == a && y == b) || (x == b && y == a) then d else graph[x][y]
  {
    var g := graph[a := graph[a][b := d]];
    g[b := g[b][a := d]]
  }

  /** Recording the clear pair at positions (i, j) in both directions keeps the loop invariants. */
  lemma AddEdgeKeeps(before: Graph, nodes: seq<Point>, walls: seq<Wall>, hypot: Hypot, i: int, j: int)
    requires 0 <= i < j < |nodes| && ClearOfWalls(nodes[i], nodes[j], walls)
    requires Heuristic(hypot, nodes[i], nodes[j]) == Heuristic(hypot, nodes[j], nodes[i])
    requires before.Keys == set p | p in nodes
    requires Symmetric(before, hypot) && Sound(before, nodes, walls) && CompleteUpTo(before, nodes, walls, i, j)
    ensures var after := WithEdge(before, nodes[i], nodes[j], Heuristic(hypot, nodes[i], nodes[j]));
      Symmetric(after, hypot) && Sound(after, nodes, walls) && CompleteUpTo(after, nodes, walls, i, j + 1)
  {
    var a, b := nodes[i], nodes[j];
    var after := WithEdge(before, a, b, Heuristic(hypot, a, b));
    SoundKept(before, after, nodes, walls, i, j);
    SymmetricKept(before, after, hypot, a, b);
    CompleteKept(before, after, nodes, walls, i, j);
  }

  /** Adding the clear pair (i, j) adds only edges between joined points. */
  lemma SoundKept(before: Graph, after: Graph, nodes: seq<Point>, walls: seq<Wall>, i: int, j: int)
    requires 0 <= i < j < |nodes| && ClearOfWalls(nodes[i], nodes[j], walls)
    requires Sound(before, nodes, walls)
    requires forall x, y :: x in after && y in after[x] ==>
      (x in before && y in before[x]) || (x == nodes[i] && y == nodes[j]) || (x == nodes[j] && y == nodes[i])
    ensures Sound(after, nodes, walls)
  {
    assert JoinedAt(nodes, walls, nodes[i], nodes[j], i, j);
    assert JoinedAt(nodes, walls, nodes[j], nodes[i], i, j);
  }

  /** Adding an edge in both directions with the symmetric distance keeps edges paired and weighted. */
  lemma SymmetricKept(before: Graph, after: Graph, hypot: Hypot, a: Point, b: Point)
    requires Heuristic(hypot, a, b) == Heuristic(hypot, b, a)
    requires Symmetric(before, hypot) && a in before && b in before
    requires after == WithEdge(before, a, b, Heuristic(hypot, a, b))
    ensures Symmetric(after, hypot)
  {
  }

  /** A blocked pair needs no edge, so skipping it keeps completeness up to the next pair. */
  lemma SkipBlockedPair(graph: Graph, nodes: seq<Point>, walls: seq<Wall>, i: int, j: int)
    requires 0 <= i < j < |nodes| && !ClearOfWalls(nodes[i], nodes[j], walls)
    requires CompleteUpTo(graph, nodes, walls, i, j)
    ensures CompleteUpTo(graph, nodes, walls, i, j + 1)
  {
  }

  /** Once the pair (i, j) has its edges, completeness extends past it; earlier edges are kept. */
  lemma CompleteKept(before: Graph, after: Graph, nodes: seq<Point>, walls: seq<Wall>, i: int, j: int)
    requires 0 <= i < j < |nodes|
    requires CompleteUpTo(before, nodes, walls, i, j)
    requires nodes[i] in before && nodes[j] in before
    requires after.Keys == before.Keys
    requires forall x, y :: x in before && y in before[x] ==> y in after[x]
    requires nodes[j] in after[nodes[i]] && nodes[i] in after[nodes[j]]
    ensures CompleteUpTo(after, nodes, walls, i, j + 1)
  {
  }

  /** Every edge runs both ways with one weight, the Euclidean distance of its ends. */
  ghost predicate Symmetric(graph: Graph, hypot: Hypot) {
    forall a, b :: a in graph && b in graph[a] ==>
      b in graph && a in graph[b] && graph[a][b] == Heuristic(hypot, a, b) && graph[b][a] == graph[a][b]
  }

  /** Joining is symmetric. */
  lemma LinkedSymmetric(nodes: seq<Point>, walls: seq<Wall>, a: Point, b: Point)
    ensures Linked(nodes, walls, a, b) <==> Linked(nodes, walls, b, a)
  {
    if Linked(nodes, walls, a, b) {
      var i, j :| JoinedAt(nodes, walls, a, b, i, j);
      assert JoinedAt(nodes, walls, b, a, i, j);
    }
    if Linked(nodes, walls, b, a) {
      var i, j :| JoinedAt(nodes, walls, b, a, i, j);
      assert JoinedAt(nodes, walls, a, b, i, j);
    }
  }

  /** A point listed twice is joined to itself: the sight line of zero length is always clear. */
  lemma DuplicateIsSelfLinked(nodes: seq<Point>, walls: seq<Wall>, i: nat, j: nat)
    requires i < j < |nodes| && nodes[i] == nodes[j]
    ensures Linked(nodes, walls, nodes[i], nodes[i])
  {
    forall k | 0 <= k < |walls|
      ensures !LinesIntersect(nodes[i], nodes[j], walls[k].start, walls[k].end)
    {
      DegenerateNeverBlocked(nodes[i], walls[k].start, walls[k].end);
    }
    assert JoinedAt(nodes, walls, nodes[i], nodes[i], i, j);
  }

  /** With no walls every two listed points are joined. */
  lemma NoWallsCompleteGraph(nodes: seq<Point>, i: nat, j: nat)
    requires i < j < |nodes|
    ensures Linked(nodes, [], nodes[i], nodes[j])
  {
    assert JoinedAt(nodes, [], nodes[i], nodes[j], i, j);
  }

  /** In the visibility graph, graph paths are exactly the chains of mutually visible points. */
  lemma PathsAreVisibleRoutes(graph: Graph, nodes: seq<Point>, walls: seq<Wall>, hypot: Hypot,
                              path: seq<Point>, source: Point, target: Point)
    requires IsVisibilityGraph(graph, nodes, walls, hypot)
    ensures PathFromTo(graph, path, source, target) <==> VisibleRoute(nodes, walls, path, source, target)
  {
    if PathFromTo(graph, path, source, target) {
      forall i | 0 <= i < |path| - 1
        ensures Linked(nodes, walls, path[i], path[i + 1])
      {
        assert path[i] in graph && path[i + 1] in graph[path[i]];
      }
    }
    if VisibleRoute(nodes, walls, path, source, target) {
      forall i | 0 <= i < |path| - 1
        ensures path[i] in graph && path[i + 1] in graph[path[i]]
      {
        assert Linked(nodes, walls, path[i], path[i + 1]);
        var p, q :| JoinedAt(nodes, walls, path[i], path[i + 1], p, q);
        assert nodes[p] in graph && nodes[q] in graph;
      }
    }
  }

  /** Two joined points see each other past every wall: no wall properly crosses the segment between them. */
  lemma LinkedCrossesNoWall(nodes: seq<Point>, walls: seq<Wall>, a: Point, b: Point, k: int)
    requires Linked(nodes, walls, a, b) && 0 <= k < |walls|
    ensures !ProperlyCrosses(a, b, walls[k].start, walls[k].end)
  {
    var i, j :| JoinedAt(nodes, walls, a, b, i, j);
    if ProperlyCrosses(a, b, walls[k].start, walls[k].end) {
      ProperlyCrossesReversed(a, b, walls[k].start, walls[k].end);
      CrossingWallBlocks(nodes[i], nodes[j], walls, k);
    }
  }

  /** No hop of a visible route passes through a wall: no wall properly crosses any hop. */
  lemma VisibleRouteCrossesNoWall(nodes: seq<Point>, walls: seq<Wall>, path: seq<Point>, source: Point, target: Point)
    requires VisibleRoute(nodes, walls, path, source, target)
    ensures forall i, k :: 0 <= i < |path| - 1 && 0 <= k < |walls| ==>
      !ProperlyCrosses(path[i], path[i + 1], walls[k].start, walls[k].end)
  {
    forall i, k | 0 <= i < |path| - 1 && 0 <= k < |walls|
      ensures !ProperlyCrosses(path[i], path[i + 1], walls[k].start, walls[k].end)
    {
      LinkedCrossesNoWall(nodes, walls, path[i], path[i + 1], k);
    }
  }
}
