# Indoor navigation planner and direction composer, in Dafny

This project models the route-planning core of an indoor navigation
application and proves properties of it. The application works on a
floorplan given as wall segments plus waypoints. It plans a walking route
from the user's pose to a destination, then narrates the route as
clock-face turn instructions ("Turn right to 2 o'clock and walk 3.4
meters.").

The model covers:

- **Line of sight** (`Geometry`): the strict cross-product test
  `lines_intersect`, the wall scan `line_is_clear` and the Euclidean
  `heuristic`.
- **Visibility graph** (`VisibilityGraph`, `WeightedGraph`): `build_graph`.
  Its nested loops fill a dict of dicts in place; here that dict is a `map`
  the loops reassign.
- **A\*** (`AStar`): `a_star_search`. Its heap is a list of
  `(priority, node)` entries that `heappop` takes the least of, compared as
  Python tuples. The `came_from` and `cost_so_far` dictionaries are updated
  in a while loop. The path is rebuilt by following predecessors, then
  reversed.
- **Planning entry point** (`Pathfinder`): `find_optimal_path`. The loaded
  map is passed in as a value.
- **Direction composer** (`Messages`, `Phrases`): `angle_to_clock_direction`,
  `message` and the `generate_directions` loop of pathfinder/message.py. The
  first two are repeated unchanged in pose_estimation/src/navigate.py
  (lines 4-11 and 13-33), and the clock helper again in src/navigate.py
  (lines 5-9); every copy shares this one model.
- **Older copies** (`SrcNavigate`, `Start`): the copy of `message` in
  src/navigate.py, which does not round and words every left turn as right.
  The floor-division clock helper and phrase chain of start.py.
- **Wall pruning** (`DrawMap`): the map tool's `FloorplanApp`, a class whose
  `detected_walls`, `rects_to_remove` and `rect_start` fields change with
  mouse press and release.

Python's `x % 360` is modelled as a floor modulus over exact reals
(`PyMath.Mod360`). Python's `round` rounds half to even (`PyMath.RoundHalfEven`),
and `round(x, 1)` is `PyMath.Round1`. Each output sentence is one
constructor of `Phrases.Instruction`, one per f-string template. So two
instructions are equal exactly when they print the same sentence.

Three quantities come from transcendental functions. They are parameters:

- `math.hypot` and `np.linalg.norm` are a function `hypot`. Where the proof
  needs facts about it, it must satisfy `Geometry.IsHypot`: non-negative,
  zero only for the zero vector, and unchanged when the vector is negated.
- `np.degrees(np.arctan2(dy, dx))` is a function `bearing`. No facts about
  it are needed.

The A\* main loop runs at most `fuel` steps.

Where the code and the system's documented design disagree, the model
follows the code:

- **Touching walls.** The intersection test uses strict comparisons of
  orientations, with no tolerance, and its verdict can depend on the
  direction in which a segment is read. Only three cases are guaranteed never to block: a sight line of
  zero length (`Geometry.DegenerateNeverBlocked`), a wall on the sight
  line's own line (`Geometry.CollinearNeverBlocks`), and a wall that starts
  at the line's start or ends at its end
  (`Geometry.SameEndpointNeverBlocks`). Other touches may block, depending
  on which way the segments run: a wall starting at the line's end can
  block (`Geometry.OppositeEndpointCanBlock`), and so can a wall whose end
  touches the middle of the line (`Geometry.TJunctionDependsOnDirection`).
  A wall that properly crosses a sight line always blocks it
  (`Geometry.ProperCrossingBlocks`), so no hop of a returned route passes
  through a wall (`VisibilityGraph.VisibleRouteCrossesNoWall`).
- **Clock bins.** The `round`-based clock of pathfinder/message.py is not
  centred on the hour marks. Hour k covers the angles strictly between
  30(k-1) and 30k degrees. An exact multiple of 30 goes to the even
  neighbour, so 90 degrees is hour 4, not 3. Only the floor-based copy in
  start.py is centred.
- **Carried orientation.** `generate_directions` carries the hop's
  normalised *relative* angle into the next hop, not the hop's absolute
  bearing.
- **Nothing extra.** It adds no "Then" prefix and no remark about the
  destination. It applies no distance scale, and it does not skip
  zero-length hops.
- **No not-found result.** `find_optimal_path` has no explicit "not found"
  result. An unreachable goal surfaces as the KeyError of path
  reconstruction. Its "not connected" check can never fire.

## Model

| member | source | states |
|---|---|---|
| PyMath.Mod360 | pathfinder/message.py:54 | `x % 360` lies in [0, 360) and differs from x by a whole number of turns |
| PyMath.Mod360Periodic | pathfinder/message.py:54 | adding 360 before taking `% 360` changes nothing |
| PyMath.Mod360Fixed | pathfinder/message.py:65 | a value already in [0, 360) is its own `% 360` |
| PyMath.RoundHalfEven | pathfinder/message.py:7 | `round` is within one half of its argument, and a tie goes to the even integer |
| PyMath.Round1 | pathfinder/message.py:16 | `round(d, 1)` is within 0.05 of d and a whole number of tenths; on a tie it is the even tenth |
| PyMath.Round1Ties | pathfinder/message.py:16 | 0.25 rounds to 0.2 and 0.75 to 0.8 |
| Geometry.Ccw | pathfinder/pathfinder.py:45-46 | `ccw(a, b, c)` holds exactly when a, b, c make a strict counter-clockwise turn: the orientation read from b, c, a is positive and from b, a, c negative, and the three points are distinct |
| Geometry.LinesIntersect | pathfinder/pathfinder.py:44-47 | when the test reports a crossing, both segments have distinct ends, one end of the wall is left of the sight line and one end of the sight line is left of the wall |
| Geometry.Heuristic | pathfinder/pathfinder.py:51-52 | with a valid `hypot`, the estimate is non-negative and zero exactly between equal points |
| Geometry.LineIsClear | pathfinder/pathfinder.py:36-40 | the scan returns True exactly when no wall of the list intersects the sight line; True for no walls |
| Geometry.DegenerateNeverBlocked | pathfinder/pathfinder.py:44-47 | a zero-length sight line is never blocked |
| Geometry.CollinearNeverBlocks | pathfinder/pathfinder.py:44-47 | a wall on the sight line's own line never blocks it |
| Geometry.SameEndpointNeverBlocks | pathfinder/pathfinder.py:44-47 | a wall starting at the line's start, or ending at its end, never blocks it |
| Geometry.OppositeEndpointCanBlock | pathfinder/pathfinder.py:44-47 | a wall starting at the line's end can block it |
| Geometry.SwapSegments | pathfinder/pathfinder.py:45-47 | exchanging sight line and wall never changes the verdict |
| Geometry.EndsSwapInGeneralPosition | pathfinder/pathfinder.py:45-47 | with no three points collinear, reversing either segment does not change the verdict |
| Geometry.TJunctionDependsOnDirection | pathfinder/pathfinder.py:45-47 | outside general position, reversing the sight line can change the verdict |
| Geometry.ProperCrossingBlocks | pathfinder/pathfinder.py:44-47 | a wall that properly crosses the sight line (each segment's ends strictly on opposite sides of the other's line) is always reported |
| Geometry.ProperCrossingExactly | pathfinder/pathfinder.py:44-47 | in general position the test reports a crossing exactly when the segments cross properly |
| Geometry.CrossingWallBlocks | pathfinder/pathfinder.py:36-47 | a sight line that any wall of the list properly crosses is not clear |
| Geometry.CrossingWallSamples | pathfinder/pathfinder.py:36-47 | example: a wall straddling a line blocks it; the same wall beyond its end does not |
| Geometry.HeuristicIsDistance | pathfinder/pathfinder.py:51-52 | the heuristic is non-negative, zero exactly between equal points, and symmetric |
| VisibilityGraph.Nodes | pathfinder/pathfinder.py:89-90 | the node list is the waypoints followed by the start and end points |
| VisibilityGraph.NodeSet | pathfinder/pathfinder.py:89-91 | the graph's keys are the waypoints plus both points, duplicates collapsing |
| VisibilityGraph.BuildGraph | pathfinder/pathfinder.py:88-99 | keys are the waypoints plus both points; a and b are adjacent exactly when some pair of list positions holding them had a clear sight line in list order; every edge runs both ways weighted by the heuristic; the graph is well-formed for A* |
| VisibilityGraph.LinkedSymmetric | pathfinder/pathfinder.py:97-98 | adjacency is symmetric |
| VisibilityGraph.DuplicateIsSelfLinked | pathfinder/pathfinder.py:93-98 | a point listed twice gets a self-loop |
| VisibilityGraph.NoWallsCompleteGraph | pathfinder/pathfinder.py:93-98 | without walls every two listed points are adjacent |
| VisibilityGraph.PathsAreVisibleRoutes | pathfinder/pathfinder.py:93-98 | paths in the built graph are exactly the chains of mutually visible points |
| VisibilityGraph.LinkedCrossesNoWall | pathfinder/pathfinder.py:93-98 | no wall properly crosses the segment between two joined points |
| VisibilityGraph.VisibleRouteCrossesNoWall | pathfinder/pathfinder.py:93-98 | no wall properly crosses any hop of a visible route |
| WeightedGraph.ClosedRegionSeparates | pathfinder/pathfinder.py:62-74 | a node set that no edge leaves, holding the start but not the goal, rules out every path |
| AStar.HeapPop | pathfinder/pathfinder.py:63 | `heappop` returns an entry no greater than any queued one, as Python compares tuples, and removes exactly that entry |
| AStar.Expand | pathfinder/pathfinder.py:68-74 | a neighbour that was unknown or is reached more cheaply gets cost `cost[current] + edge` and predecessor `current`; every other neighbour keeps its cost and predecessor; nodes that are not neighbours keep their entries and no key is added for them; the heap keeps its old entries and gains exactly one `(new cost + heuristic, node)` entry per lowered neighbour; afterwards the expanded node is relaxed and the predecessor invariant (same keys, start at cost 0, each predecessor a neighbour whose cost plus the edge is at most the node's cost) still holds |
| AStar.Reversed | pathfinder/pathfinder.py:83 | `reverse` yields the same elements in the opposite order |
| AStar.Reconstruct | pathfinder/pathfinder.py:77-84 | the walk terminates; start == goal gives [start]; a goal in `came_from` gives a graph path from start to goal with strictly rising costs; otherwise KeyError |
| AStar.AStarSearch | pathfinder/pathfinder.py:56-84 | a returned path runs from start to goal along edges with no repeated node; start == goal gives [start]; KeyError means no path exists |
| Pathfinder.ResolveEndPoint | pathfinder/pathfinder.py:107-112 | a tuple end point is used as given, a name found among the destinations gives that destination's coordinates, and any other end point gives no point (the ValueError case) |
| Pathfinder.FindOptimalPath | pathfinder/pathfinder.py:103-131 | ValueError exactly when the end point is neither a tuple nor a known name; never "not connected"; a returned path is a chain of mutually visible points from the start position to the resolved end point with no repeats, and no wall properly crosses any of its hops; KeyError means no such chain exists |
| Messages.ClockDirection | pathfinder/message.py:3-10 | the clock hour is always in 1..12 |
| Messages.ClockPeriodic | pathfinder/message.py:7 | a full turn does not change the hour |
| Messages.ClockSector | pathfinder/message.py:7-10 | a normalised angle strictly between 30(k-1) and 30k gives hour k |
| Messages.ClockTie | pathfinder/message.py:7-10 | the angle 30k gives hour k for even k (0 as 12) and k + 1 for odd k |
| Messages.ClockSamples | pose_estimation/src/navigate.py:8-11 | 0 gives 12, 30 gives 2, 90 gives 4, 180 gives 6, -90 gives 10 |
| Messages.Message | pathfinder/message.py:12-32 | the distance is rounded to one decimal |
| Messages.MessageSides | pathfinder/message.py:17-32 | each hour's template: 11, 12, 1 ahead; 2-4 right; 5-7 behind; 8-10 left; only 3, 6, 9, 12 omit the hour, and the others name it |
| Messages.MessageMirror | pathfinder/message.py:21-32 | hour 12 - h gets the left-right mirror of hour h's sentence |
| Messages.MessageOutOfRange | pathfinder/message.py:31-32 | any value outside 1..12 gets "Turn left and walk", like 9 |
| Messages.MessageSideOfAngle | pathfinder/message.py:3-32 | an angle is announced as right on [30, 120], behind on (120, 210), left on [210, 300], ahead otherwise |
| Messages.GenerateDirections | pathfinder/message.py:34-67 | the loop returns the instruction sequence `Directions` defines |
| Messages.DirectionsByHop | pathfinder/message.py:43-67 | one message per hop, none for a path of at most one point; message k is hop k's turn binned and its length rounded, measured from the user's position or the previous point; path[0] is never used |
| Messages.StepsFrom | pathfinder/message.py:47-65 | from any hop on, the loop emits exactly the per-hop messages |
| Messages.NormalisedTurn | pathfinder/message.py:50-65 | both `(x + 360) % 360` steps are normalisations, and the relative angle is the orientation carried on |
| SrcNavigate.Message | src/navigate.py:11-27 | the distance is used unrounded, and no sentence says left |
| SrcNavigate.LeftAnnouncedAsRight | src/navigate.py:18-27 | 3 and 9 give the same "Turn right" sentence, 8 and 10 "Turn right to", and out-of-range values "Turn right" |
| SrcNavigate.AgreesWithPathfinderMessage | src/navigate.py:11-27 | given the rounded distance, hours 1-7 and 11 match pathfinder/message.py; 12 is the misspelled twin; 8-10 are on the opposite side |
| Start.ClockDirection | start.py:5-9 | the floor-based hour is always in 1..12 |
| Start.ClockBin | start.py:6-8 | hour k in 1..11 covers exactly [30k - 15, 30k + 15) |
| Start.ClockTwelve | start.py:6-9 | hour 12 covers exactly [345, 360) and [0, 15) |
| Start.ClockPeriodic | start.py:6 | a full turn does not change the hour |
| Start.ClockSamples | start.py:5-9 | 0 gives 12, 30 gives 1, 90 gives 3, -90 gives 9 |
| Start.Phrase | start.py:33-49 | the distance is rounded to one decimal before the phrase is chosen |
| Start.PhraseTable | start.py:34-49 | hour by hour: 12 "Go staright"; 3 "Turn left"; 6 "Turn around"; 9 "Turn right"; 1, 2, 4, 5 "Turn left to" the hour; 7, 8, 10, 11 "Turn right to" the hour; so 12 is ahead, 1-5 left, 6 behind, 7-11 right |
| Start.PhraseSideOfAngle | start.py:32-49 | an angle is announced as left on [15, 165), behind on [165, 195), right on [195, 345), ahead otherwise |
| DrawMap.BoxOf | draw_map/draw_map.py:108-110 | the min/max normalisation yields an ordered box whose left and right edges are the two x coordinates and whose top and bottom edges are the two y coordinates |
| DrawMap.BoxOfCornerOrder | draw_map/draw_map.py:109-110 | the drag direction does not change the box |
| DrawMap.WallsOutside | draw_map/draw_map.py:112-115 | a wall survives exactly when it was present and its start point is outside the closed box; each surviving wall keeps all its copies and a wall starting in the box keeps none |
| DrawMap.WallsOutsideIsSubsequence | draw_map/draw_map.py:112-115 | survivors keep their order and nothing is added |
| DrawMap.WallsOutsideIdempotent | draw_map/draw_map.py:112-115 | pruning with the same box twice equals pruning once |
| DrawMap.EndPointIgnored | draw_map/draw_map.py:114 | a wall whose end lies in the box but whose start does not survives |
| DrawMap.FloorplanApp.constructor | draw_map/draw_map.py:29-31 | no walls, no rectangles, no drag in progress |
| DrawMap.FloorplanApp.StartDrawRect | draw_map/draw_map.py:84-85 | only `rect_start` changes, to the press position |
| DrawMap.FloorplanApp.DrawRect | draw_map/draw_map.py:88-94 | no field changes |
| DrawMap.FloorplanApp.RemoveWallsInBox | draw_map/draw_map.py:108-115 | only `detected_walls` changes, to the walls whose start lies outside the normalised box |
| DrawMap.FloorplanApp.EndDrawRect | draw_map/draw_map.py:97-105 | with no drag, nothing changes; otherwise exactly one rectangle is appended as dragged, the walls are pruned with it, and the drag ends |

## Left out

- `load_map_data` and all JSON reading: file I/O. The walls, waypoints and destinations are passed in as a `Pathfinder.MapSnapshot` value.
- The `print` calls, the `__main__` block of pathfinder/pathfinder.py, and the test run at the end of pathfinder/message.py: console output.
- The exact values of `math.hypot`, `np.linalg.norm`, `np.arctan2` and `np.degrees`: floating-point transcendentals. They are parameters, and `hypot` is constrained only by `Geometry.IsHypot`.
- Floating-point rounding in the arithmetic itself: all arithmetic is exact over reals, so a float result that differs from the exact one in the last bit is not modelled.
- AStar.AStarSearch: the main loop is bounded by `fuel` steps and returns `OutOfFuel` when they run out; the source loops until the heap is empty.
- AStar.AStarSearch: the returned path is proved to be a path without repeated nodes, not a shortest one. Optimality of A* with this heuristic is not proved.
- AStar.HeapPop: the heap's internal array layout is not modelled. Any least entry is taken, and entries equal as tuples are interchangeable.
- AStar.Expand: neighbours are visited in an arbitrary order rather than the dictionary's insertion order. Each neighbour's update reads only that neighbour's entries, so the order does not matter.
- Pathfinder.FindOptimalPath: destinations are reduced to their (x, y) coordinates. A destination stored with a third coordinate would become a 3-tuple node in the source.
- Pathfinder.FindOptimalPath: a `load_map_data` that returns None would make the source's unpacking raise TypeError. With the map passed in, this cannot occur.
- The exact text of each sentence, including how Python prints the float: each template is one `Phrases.Instruction` constructor carrying the clock and the distance.
- `calculate_navigation` in pose_estimation/src/navigate.py, and the module-level scripts of src/navigate.py and start.py: these read tags.json and call the pose code. Only the phrase chain of start.py is modelled.
- `load_image`, `detect_walls`, `update_canvas` and `finish` of draw_map/draw_map.py: image loading, OpenCV contour detection, drawing and JSON output. `update_canvas` is treated as changing no modelled state.
- AprilTag detection, pose estimation, the GUI, OCR and plotting files: camera, OpenCV and library calls.
