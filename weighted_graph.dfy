/**
  The dict-of-dicts graph that pathfinder/pathfinder.py builds and searches:
  `graph[a][b]` is the weight of the edge from a to b.
 */
module WeightedGraph {
  import opened Geometry

  type Graph = map<Point, map<Point, real>>

  /**
    The shape `build_graph` produces and `a_star_search` relies on: every
    neighbour is itself a node, weights are non-negative, and only a self-loop
    (a point listed twice) has weight zero.
   */
  ghost predicate WellFormed(graph: Graph) {
    forall u, v :: u in graph && v in graph[u] ==>
      v in graph && 0.0 <= graph[u][v] && (graph[u][v] == 0.0 ==> u == v)
  }

  /** In a well-formed graph an edge between two different points has positive weight. */
  lemma EdgeBetweenDistinctIsPositive(graph: Graph, u: Point, v: Point)
    requires WellFormed(graph) && u in graph && v in graph[u] && u != v
    ensures graph[u][v] > 0.0
  {
    assert v in graph && 0.0 <= graph[u][v];
    assert graph[u][v] == 0.0 ==> u == v;
  }

  /** `path` leads from `source` to `target` along edges of the graph. */
  ghost predicate PathFromTo(graph: Graph, path: seq<Point>, source: Point, target: Point) {
    && |path| >= 1
    && path[0] == source
    && path[|path| - 1] == target
    && forall i :: 0 <= i < |path| - 1 ==> path[i] in graph && path[i + 1] in graph[path[i]]
  }

  /** No edge leaves `region`: whatever can be reached from inside it stays inside it. */
  ghost predicate Closed(graph: Graph, region: set<Point>) {
    forall u, v :: u in region && u in graph && v in graph[u] ==> v in region
  }

  /** Every point of a path that starts inside a closed region lies inside it. */
  lemma {:induction false} ClosedRegionHoldsPath(graph: Graph, region: set<Point>, path: seq<Point>, k: nat)
    requires Closed(graph, region)
    requires |path| >= 1 && path[0] in region
    requires forall i :: 0 <= i < |path| - 1 ==> path[i] in graph && path[i + 1] in graph[path[i]]
    requires k < |path|
    ensures path[k] in region
  {
    if k > 0 {
      ClosedRegionHoldsPath(graph, region, path, k - 1);
    }
  }

  /** A closed region holding the source but not the target rules out every path between them. */
  lemma ClosedRegionSeparates(graph: Graph, region: set<Point>, source: Point, target: Point)
    requires Closed(graph, region) && source in region && target !in region
    ensures forall path :: !PathFromTo(graph, path, source, target)
  {
    forall path | PathFromTo(graph, path, source, target)
      ensures false
    {
      ClosedRegionHoldsPath(graph, region, path, |path| - 1);
    }
  }
}
