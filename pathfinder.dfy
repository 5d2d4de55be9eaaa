/**
  `find_optimal_path` of pathfinder/pathfinder.py: resolve the end point,
  build the visibility graph over the waypoints plus the start and end
  points, and run A* on it.
 */
module Pathfinder {
  import opened Results
  import opened Geometry
  import opened WeightedGraph
  import opened VisibilityGraph
  import AStar

  /** What `load_map_data` returns for a floor: walls, waypoints and named destinations. */
  datatype MapSnapshot = MapSnapshot(walls: seq<Wall>, waypoints: seq<Point>, destinations: map<string, Point>)

  /** The caller's `end_point`: a destination name, a coordinate tuple, or some other Python value. */
  datatype EndPoint = Named(name: string) | Coordinates(point: Point) | OtherValue

  /** The exceptions `find_optimal_path` can raise, plus running out of the A* step budget. */
  datatype PlanError = ValueError | KeyError(key: Point) | OutOfFuel

  /** The outcome of a call: the path it returns, its `return None`, or the exception it raises. */
  datatype Plan = Found(path: seq<Point>) | NotConnected | Raised(error: PlanError)

  /** The end point's coordinates, or None where the source raises ValueError. */
  function ResolveEndPoint(destinations: map<string, Point>, endPoint: EndPoint): (r: Option<Point>)
    ensures r.Some? <==> endPoint.Coordinates? || (endPoint.Named? && endPoint.name in destinations)
    ensures endPoint.Coordinates? ==> r == Some(endPoint.point)
    ensures endPoint.Named? && endPoint.name in destinations ==> r == Some(destinations[endPoint.name])
  {
    match endPoint
    case Named(name) => if name in destinations then Some(destinations[name]) else None
    case Coordinates(point) => Some(point)
    case OtherValue => None
  }

  /**
    The source's `find_optimal_path(floor_name, start_pose, end_point)`, with
    the loaded map passed in. A returned path is a chain of mutually visible
    points from the start position to the end point with no point repeated,
    and no wall properly crosses any of its hops; KeyError from A* means no such chain exists. The "not connected" check
    never fires, because `build_graph` makes both points nodes.
   */
  method FindOptimalPath(snapshot: MapSnapshot, startPose: Pose, endPoint: EndPoint, hypot: Hypot, fuel: nat)
    returns (r: Plan)
    requires IsHypot(hypot)
    ensures r == Raised(ValueError) <==> ResolveEndPoint(snapshot.destinations, endPoint) == None
    ensures !r.NotConnected?
    ensures r.Found? ==>
      var start := Position(startPose);
      var goal := ResolveEndPoint(snapshot.destinations, endPoint).value;
      && VisibleRoute(Nodes(snapshot.waypoints, start, goal), snapshot.walls, r.path, start, goal)
      && forall i, j :: 0 <= i < j < |r.path| ==> r.path[i] != r.path[j]
    ensures r.Found? ==> forall i, k :: 0 <= i < |r.path| - 1 && 0 <= k < |snapshot.walls| ==>
      !ProperlyCrosses(r.path[i], r.path[i + 1], snapshot.walls[k].start, snapshot.walls[k].end)
    ensures r.Raised? && r.error.KeyError? ==>
      var start := Position(startPose);
      var goal := ResolveEndPoint(snapshot.destinations, endPoint).value;
      && start != goal
      && forall path :: !VisibleRoute(Nodes(snapshot.waypoints, start, goal), snapshot.walls, path, start, goal)
    ensures fuel > 0 && ResolveEndPoint(snapshot.destinations, endPoint) == Some(Position(startPose)) ==>
      r == Found([Position(startPose)])
  {
    var resolved := ResolveEndPoint(snapshot.destinations, endPoint);
    if resolved.None? {
      return Raised(ValueError);
    }
    var goal := resolved.value;
    var start := Position(startPose);
    var graph := BuildGraph(snapshot.waypoints, snapshot.walls, start, goal, hypot);
    if start !in graph || goal !in graph {
      return NotConnected;
    }
    ghost var nodes := Nodes(snapshot.waypoints, start, goal);
    var searched := AStar.AStarSearch(graph, start, goal, hypot, fuel);
    if searched.Ok? {
      PathsAreVisibleRoutes(graph, nodes, snapshot.walls, hypot, searched.value, start, goal);
      VisibleRouteCrossesNoWall(nodes, snapshot.walls, searched.value, start, goal);
      r := Found(searched.value);
    } else if searched.error.KeyError? {
      forall path
        ensures !VisibleRoute(nodes, snapshot.walls, path, start, goal)
      {
        PathsAreVisibleRoutes(graph, nodes, snapshot.walls, hypot, path, start, goal);
      }
      r := Raised(KeyError(searched.error.key));
    } else {
      r := Raised(OutOfFuel);
    }
  }
}
