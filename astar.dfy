/**
  `a_star_search` of pathfinder/pathfinder.py: A* over a `heapq` list of
  `(priority, node)` entries, with `came_from` and `cost_so_far` dictionaries,
  no closed set, and path reconstruction by following predecessors.
 */
module AStar {
  import opened Results
  import opened Geometry
  import opened WeightedGraph

  /** A heap entry `(priority, node)`. */
  type Entry = (real, Point)

  /** Python's order on point tuples: by x, then by y. */
  predicate PointLe(a: Point, b: Point) {
    a.x < b.x || (a.x == b.x && a.y <= b.y)
  }

  /** Python's order on heap entries: by priority, ties broken by the node. */
  predicate EntryLe(e: Entry, f: Entry) {
    e.0 < f.0 || (e.0 == f.0 && PointLe(e.1, f.1))
  }

  /** Why the search stopped without a path: a dictionary lookup raised KeyError, or the step budget ran out. */
  datatype SearchError = KeyError(key: Point) | OutOfFuel

  /** `heapq.heappop`: remove and return a least entry of the heap. */
  method HeapPop(queue: seq<Entry>) returns (least: Entry, rest: seq<Entry>)
    requires queue != []
    ensures least in queue
    ensures forall e :: e in queue ==> EntryLe(least, e)
    ensures multiset(rest) == multiset(queue) - multiset{least}
  {
    var k := 0;
    for i := 1 to |queue|
      invariant 0 <= k < |queue|
      invariant forall j :: 0 <= j < i ==> EntryLe(queue[k], queue[j])
    {
      if !EntryLe(queue[k], queue[i]) {
        k := i;
      }
    }
    least := queue[k];
    rest := queue[..k] + queue[k + 1..];
    assert queue == queue[..k] + [least] + queue[k + 1..];
  }

  /**
    The bookkeeping invariant of the search: `came_from` and `cost_so_far` have
    the same keys, the start costs 0 and has no predecessor, costs are
    non-negative, and every other node's predecessor is a neighbour whose cost
    plus the connecting edge does not exceed the node's own cost.
   */
  ghost predicate Predecessors(graph: Graph, start: Point, cameFrom: map<Point, Option<Point>>, cost: map<Point, real>) {
    && cameFrom.Keys == cost.Keys
    && start in cost && cost[start] == 0.0 && cameFrom[start] == None
    && (forall v :: v in cost ==> cost[v] >= 0.0)
    && (forall v {:trigger PredecessorOk(graph, cameFrom, cost, v)} :: v in cameFrom && v != start ==> PredecessorOk(graph, cameFrom, cost, v))
  }

  /** v's recorded predecessor is a different costed node with an edge to v, cheap enough to reach v at its cost. */
  ghost predicate PredecessorOk(graph: Graph, cameFrom: map<Point, Option<Point>>, cost: map<Point, real>, v: Point)
    requires v in cameFrom && v in cost
  {
    && cameFrom[v].Some?
    && var u := cameFrom[v].value;
       u in cost && u != v && u in graph && v in graph[u] && cost[u] + graph[u][v] <= cost[v]
  }

  /** Every queued node has a cost, and is a node of the graph unless it is the start. */
  ghost predicate QueueNodes(graph: Graph, start: Point, queue: seq<Entry>, cost: map<Point, real>) {
    forall e :: e in queue ==> e.1 in cost && (e.1 == start || e.1 in graph)
  }

  /** The entry pushed when u received its current cost; the start is pushed with priority 0. */
  function PendingEntry(cost: map<Point, real>, u: Point, start: Point, goal: Point, hypot: Hypot): Entry
    requires u in cost
  {
    if u == start then (0.0, start) else (cost[u] + Heuristic(hypot, u, goal), u)
  }

  /** u is a node and none of its edges can lower a neighbour's cost any more. */
  ghost predicate Relaxed(graph: Graph, cost: map<Point, real>, u: Point)
    requires u in cost
  {
    u in graph && forall v :: v in graph[u] ==> v in cost && cost[v] <= cost[u] + graph[u][v]
  }

  /** Each costed node outside `skip` is either still waiting in the queue with its current entry, or relaxed. */
  ghost predicate Waiting(graph: Graph, start: Point, goal: Point, hypot: Hypot,
                          queue: seq<Entry>, cost: map<Point, real>, skip: set<Point>) {
    forall u {:trigger PendingEntry(cost, u, start, goal, hypot)} {:trigger Relaxed(graph, cost, u)} ::
      u in cost && u !in skip ==> PendingEntry(cost, u, start, goal, hypot) in queue || Relaxed(graph, cost, u)
  }

  /** Removing an entry of `current` from the queue leaves every other node waiting. */
  lemma PopKeepsWaiting(graph: Graph, start: Point, goal: Point, hypot: Hypot,
                        queue: seq<Entry>, rest: seq<Entry>, least: Entry, cost: map<Point, real>)
    requires Waiting(graph, start, goal, hypot, queue, cost, {})
    requires QueueNodes(graph, start, queue, cost)
    requires multiset(rest) == multiset(queue) - multiset{least}
    ensures Waiting(graph, start, goal, hypot, rest, cost, {least.1})
    ensures QueueNodes(graph, start, rest, cost)
  {
    forall e | e in queue && e != least
      ensures e in rest
    {
      assert multiset(rest)[e] == multiset(queue)[e];
    }
    forall e | e in rest
      ensures e in queue
    {
      assert multiset(rest)[e] <= multiset(queue)[e];
    }
  }

  /** Once the queue is empty every costed node is relaxed, so no edge leaves the costed nodes. */
  lemma ExhaustedIsClosed(graph: Graph, start: Point, goal: Point, hypot: Hypot, cost: map<Point, real>)
    requires Waiting(graph, start, goal, hypot, [], cost, {})
    ensures Closed(graph, cost.Keys)
  {
    forall u, v | u in cost.Keys && u in graph && v in graph[u]
      ensures v in cost.Keys
    {
      assert Relaxed(graph, cost, u);
    }
  }

  /** The source's test: the neighbour v has no cost yet, or reaching it through `current` is strictly cheaper. */
  predicate Lowers(graph: Graph, cost: map<Point, real>, current: Point, v: Point)
    requires current in graph && current in cost && v in graph[current]
  {
    v !in cost || cost[current] + graph[current][v] < cost[v]
  }

  /** The heap entry pushed for neighbour v when expanding `current` at the costs `cost`. */
  function PushedEntry(graph: Graph, cost: map<Point, real>, current: Point, goal: Point, hypot: Hypot, v: Point): Entry
    requires current in graph && current in cost && v in graph[current]
  {
    (cost[current] + graph[current][v] + Heuristic(hypot, v, goal), v)
  }

  /** The entries pushed for the neighbours in `handled` whose cost the expansion lowers. */
  function Pushed(graph: Graph, cost: map<Point, real>, current: Point, goal: Point, hypot: Hypot, handled: set<Point>): set<Entry>
    requires current in graph && current in cost
  {
    set v | v in handled && v in graph[current] && Lowers(graph, cost, current, v) :: PushedEntry(graph, cost, current, goal, hypot, v)
  }

  /** Neighbour v after its turn in the expansion: lowered through `current`, or left as it was. */
  ghost predicate Outcome(graph: Graph, current: Point, cameFrom0: map<Point, Option<Point>>, cost0: map<Point, real>,
                          cameFrom: map<Point, Option<Point>>, cost: map<Point, real>, v: Point)
    requires current in graph && current in cost0 && v in graph[current]
  {
    && v in cost && v in cameFrom
    && if Lowers(graph, cost0, current, v) then cost[v] == cost0[current] + graph[current][v] && cameFrom[v] == Some(current)
       else v in cameFrom0 && cost[v] == cost0[v] && cameFrom[v] == cameFrom0[v]
  }

  /** v's entries in both dictionaries are as they were. */
  ghost predicate Untouched(cameFrom0: map<Point, Option<Point>>, cost0: map<Point, real>,
                            cameFrom: map<Point, Option<Point>>, cost: map<Point, real>, v: Point)
  {
    && (v in cost <==> v in cost0) && (v in cameFrom <==> v in cameFrom0)
    && (v in cost0 ==> cost[v] == cost0[v]) && (v in cameFrom0 ==> cameFrom[v] == cameFrom0[v])
  }

  /** The neighbours in `handled` have had their turn; every other node is untouched. */
  ghost predicate ExpandedSoFar(graph: Graph, current: Point, cameFrom0: map<Point, Option<Point>>, cost0: map<Point, real>,
                                cameFrom: map<Point, Option<Point>>, cost: map<Point, real>, handled: set<Point>)
    requires current in graph && current in cost0
  {
    && (forall v :: v in handled && v in graph[current] ==> Outcome(graph, current, cameFrom0, cost0, cameFrom, cost, v))
    && (forall v :: v !in handled ==> Untouched(cameFrom0, cost0, cameFrom, cost, v))
  }

  /** Handling neighbour `next` adds its entry to the pushed set exactly when its cost is lowered. */
  lemma PushedGrows(graph: Graph, cost0: map<Point, real>, current: Point, goal: Point, hypot: Hypot,
                    handled: set<Point>, next: Point)
    requires current in graph && current in cost0 && next in graph[current] && next !in handled
    ensures multiset(Pushed(graph, cost0, current, goal, hypot, handled + {next}))
      == multiset(Pushed(graph, cost0, current, goal, hypot, handled))
         + if Lowers(graph, cost0, current, next) then multiset{PushedEntry(graph, cost0, current, goal, hypot, next)} else multiset{}
  {
    var before := Pushed(graph, cost0, current, goal, hypot, handled);
    var after := Pushed(graph, cost0, current, goal, hypot, handled + {next});
    var e := PushedEntry(graph, cost0, current, goal, hypot, next);
    assert e !in before;
    if Lowers(graph, cost0, current, next) {
      assert after == before + {e};
    } else {
      assert after == before;
    }
  }

  /** Lowering `next` through `current` extends the expansion so far by that neighbour. */
  lemma LoweredStep(graph: Graph, current: Point, cameFrom0: map<Point, Option<Point>>, cost0: map<Point, real>,
                    cameFrom: map<Point, Option<Point>>, cost: map<Point, real>, handled: set<Point>, next: Point)
    requires current in graph && current in cost0 && next in graph[current] && next !in handled
    requires Lowers(graph, cost0, current, next)
    requires ExpandedSoFar(graph, current, cameFrom0, cost0, cameFrom, cost, handled)
    ensures ExpandedSoFar(graph, current, cameFrom0, cost0, cameFrom[next := Some(current)],
                          cost[next := cost0[current] + graph[current][next]], handled + {next})
  {
    var cameFrom', cost' := cameFrom[next := Some(current)], cost[next := cost0[current] + graph[current][next]];
    forall v | v in handled + {next} && v in graph[current]
      ensures Outcome(graph, current, cameFrom0, cost0, cameFrom', cost', v)
    {
      if v != next {
        assert Outcome(graph, current, cameFrom0, cost0, cameFrom, cost, v);
      }
    }
    forall v | v !in handled + {next}
      ensures Untouched(cameFrom0, cost0, cameFrom', cost', v)
    {
      assert Untouched(cameFrom0, cost0, cameFrom, cost, v);
    }
  }

  /** Leaving `next` as it is extends the expansion so far by that neighbour. */
  lemma KeptStep(graph: Graph, current: Point, cameFrom0: map<Point, Option<Point>>, cost0: map<Point, real>,
                 cameFrom: map<Point, Option<Point>>, cost: map<Point, real>, handled: set<Point>, next: Point)
    requires current in graph && current in cost0 && next in graph[current] && next !in handled
    requires cameFrom0.Keys == cost0.Keys
    requires !Lowers(graph, cost0, current, next)
    requires ExpandedSoFar(graph, current, cameFrom0, cost0, cameFrom, cost, handled)
    ensures ExpandedSoFar(graph, current, cameFrom0, cost0, cameFrom, cost, handled + {next})
  {
    assert Untouched(cameFrom0, cost0, cameFrom, cost, next);
    forall v | v in handled + {next} && v in graph[current]
      ensures Outcome(graph, current, cameFrom0, cost0, cameFrom, cost, v)
    {
      if v != next {
        assert Outcome(graph, current, cameFrom0, cost0, cameFrom, cost, v);
      }
    }
  }

  /**
    The bookkeeping half of the expansion loop's state once the neighbours in
    `handled` have had their turn: the invariant of the search holds, every
    node but `current` is waiting or relaxed, and the handled neighbours
    cannot be lowered through `current` any more.
   */
  ghost predicate ExpandBooks(graph: Graph, start: Point, goal: Point, hypot: Hypot, current: Point, cost0: map<Point, real>,
                              queue: seq<Entry>, cameFrom: map<Point, Option<Point>>, cost: map<Point, real>, handled: set<Point>)
  {
    && current in graph && handled <= graph[current].Keys
    && current in cost && current in cost0 && cost[current] == cost0[current]
    && Predecessors(graph, start, cameFrom, cost)
    && QueueNodes(graph, start, queue, cost)
    && Waiting(graph, start, goal, hypot, queue, cost, {current})
    && (forall v :: v in handled ==> v in cost && cost[v] <= cost[current] + graph[current][v])
  }

  /**
    The specification half: the dictionaries and the heap differ from their
    starting values exactly by the handled neighbours' outcomes.
   */
  ghost predicate ExpandProgress(graph: Graph, goal: Point, hypot: Hypot, current: Point,
                                 queue0: seq<Entry>, cameFrom0: map<Point, Option<Point>>, cost0: map<Point, real>,
                                 queue: seq<Entry>, cameFrom: map<Point, Option<Point>>, cost: map<Point, real>, handled: set<Point>)
  {
    && current in graph && current in cost0 && cameFrom0.Keys == cost0.Keys
    && ExpandedSoFar(graph, current, cameFrom0, cost0, cameFrom, cost, handled)
    && |queue| >= |queue0| && queue[..|queue0|] == queue0
    && multiset(queue) == multiset(queue0) + multiset(Pushed(graph, cost0, current, goal, hypot, handled))
  }

  /** Lowering a neighbour keeps the bookkeeping half. */
  lemma BooksLowered(graph: Graph, start: Point, goal: Point, hypot: Hypot, current: Point, cost0: map<Point, real>,
                     queue: seq<Entry>, cameFrom: map<Point, Option<Point>>, cost: map<Point, real>,
                     handled: set<Point>, next: Point)
    requires WellFormed(graph) && current in graph && current in cost
    requires ExpandBooks(graph, start, goal, hypot, current, cost0, queue, cameFrom, cost, handled)
    requires next in graph[current] && Lowers(graph, cost, current, next)
    ensures ExpandBooks(graph, start, goal, hypot, current, cost0,
                        queue + [(cost[current] + graph[current][next] + Heuristic(hypot, next, goal), next)],
                        cameFrom[next := Some(current)], cost[next := cost[current] + graph[current][next]],
                        handled + {next})
  {
    var cost' := cost[next := cost[current] + graph[current][next]];
    RelaxKeepsPredecessors(graph, start, current, next, cameFrom, cost);
    RelaxKeepsWaiting(graph, start, goal, hypot, current, next, queue, cost);
    assert next in graph;
    forall v | v in handled + {next}
      ensures v in cost' && cost'[v] <= cost'[current] + graph[current][v]
    {
    }
  }

  /** Leaving a neighbour as it is keeps the bookkeeping half. */
  lemma BooksKept(graph: Graph, start: Point, goal: Point, hypot: Hypot, current: Point, cost0: map<Point, real>,
                  queue: seq<Entry>, cameFrom: map<Point, Option<Point>>, cost: map<Point, real>,
                  handled: set<Point>, next: Point)
    requires current in graph && current in cost
    requires ExpandBooks(graph, start, goal, hypot, current, cost0, queue, cameFrom, cost, handled)
    requires next in graph[current] && !Lowers(graph, cost, current, next)
    ensures ExpandBooks(graph, start, goal, hypot, current, cost0, queue, cameFrom, cost, handled + {next})
  {
  }

  /** Lowering a neighbour extends the specification half by that neighbour. */
  lemma ProgressLowered(graph: Graph, goal: Point, hypot: Hypot, current: Point,
                        queue0: seq<Entry>, cameFrom0: map<Point, Option<Point>>, cost0: map<Point, real>,
                        queue: seq<Entry>, cameFrom: map<Point, Option<Point>>, cost: map<Point, real>,
                        handled: set<Point>, next: Point)
    requires current in graph && current in cost && current in cost0 && cost[current] == cost0[current]
    requires ExpandProgress(graph, goal, hypot, current, queue0, cameFrom0, cost0, queue, cameFrom, cost, handled)
    requires next in graph[current] && next !in handled && Lowers(graph, cost, current, next)
    ensures ExpandProgress(graph, goal, hypot, current, queue0, cameFrom0, cost0,
                           queue + [(cost[current] + graph[current][next] + Heuristic(hypot, next, goal), next)],
                           cameFrom[next := Some(current)], cost[next := cost[current] + graph[current][next]],
                           handled + {next})
  {
    var e := (cost[current] + graph[current][next] + Heuristic(hypot, next, goal), next);
    var queue' := queue + [e];
    assert Untouched(cameFrom0, cost0, cameFrom, cost, next);
    assert Lowers(graph, cost0, current, next) && e == PushedEntry(graph, cost0, current, goal, hypot, next);
    PushedGrows(graph, cost0, current, goal, hypot, handled, next);
    LoweredStep(graph, current, cameFrom0, cost0, cameFrom, cost, handled, next);
    assert multiset(queue') == multiset(queue) + multiset{e};
    assert queue'[..|queue0|] == queue[..|queue0|];
  }

  /** Leaving a neighbour as it is extends the specification half by that neighbour. */
  lemma ProgressKept(graph: Graph, goal: Point, hypot: Hypot, current: Point,
                     queue0: seq<Entry>, cameFrom0: map<Point, Option<Point>>, cost0: map<Point, real>,
                     queue: seq<Entry>, cameFrom: map<Point, Option<Point>>, cost: map<Point, real>,
                     handled: set<Point>, next: Point)
    requires current in graph && current in cost && current in cost0 && cost[current] == cost0[current]
    requires ExpandProgress(graph, goal, hypot, current, queue0, cameFrom0, cost0, queue, cameFrom, cost, handled)
    requires next in graph[current] && next !in handled && !Lowers(graph, cost, current, next)
    ensures ExpandProgress(graph, goal, hypot, current, queue0, cameFrom0, cost0, queue, cameFrom, cost, handled + {next})
  {
    assert Untouched(cameFrom0, cost0, cameFrom, cost, next);
    assert !Lowers(graph, cost0, current, next);
    PushedGrows(graph, cost0, current, goal, hypot, handled, next);
    KeptStep(graph, current, cameFrom0, cost0, cameFrom, cost, handled, next);
  }

  /** When every neighbour has had its turn, the state says what `Expand` promises. */
  lemma ExpandDone(graph: Graph, start: Point, goal: Point, hypot: Hypot, current: Point,
                   queue0: seq<Entry>, cameFrom0: map<Point, Option<Point>>, cost0: map<Point, real>,
                   queue: seq<Entry>, cameFrom: map<Point, Option<Point>>, cost: map<Point, real>)
    requires current in graph && current in cost0
    requires ExpandBooks(graph, start, goal, hypot, current, cost0, queue, cameFrom, cost, graph[current].Keys)
    requires ExpandProgress(graph, goal, hypot, current, queue0, cameFrom0, cost0, queue, cameFrom, cost, graph[current].Keys)
    ensures forall v :: v in graph[current] ==>
      && v in cost && v in cameFrom
      && if Lowers(graph, cost0, current, v) then cost[v] == cost0[current] + graph[current][v] && cameFrom[v] == Some(current)
         else v in cameFrom0 && cost[v] == cost0[v] && cameFrom[v] == cameFrom0[v]
    ensures forall v :: v !in graph[current] ==>
      && (v in cost <==> v in cost0) && (v in cameFrom <==> v in cameFrom0)
      && (v in cost0 ==> cost[v] == cost0[v]) && (v in cameFrom0 ==> cameFrom[v] == cameFrom0[v])
    ensures |queue| >= |queue0| && queue[..|queue0|] == queue0
    ensures multiset(queue) == multiset(queue0) + multiset(Pushed(graph, cost0, current, goal, hypot, graph[current].Keys))
    ensures Relaxed(graph, cost, current)
    ensures Predecessors(graph, start, cameFrom, cost)
    ensures QueueNodes(graph, start, queue, cost)
    ensures Waiting(graph, start, goal, hypot, queue, cost, {})
  {
    assert Relaxed(graph, cost, current);
    forall v | v in graph[current]
      ensures Outcome(graph, current, cameFrom0, cost0, cameFrom, cost, v)
    {
    }
    forall v | v !in graph[current]
      ensures Untouched(cameFrom0, cost0, cameFrom, cost, v)
    {
    }
  }

  /**
    One expansion of `current`: the source's `for next_node in graph[current]`
    loop. Each neighbour whose cost it lowers (or first sets) gets the new
    cost, a heap entry and `current` as predecessor; every other node keeps
    its entries. Neighbours are handled independently, so the dictionary's
    iteration order does not matter.
   */
  method Expand(graph: Graph, current: Point, start: Point, goal: Point, hypot: Hypot,
                queue0: seq<Entry>, cameFrom0: map<Point, Option<Point>>, cost0: map<Point, real>)
    returns (queue: seq<Entry>, cameFrom: map<Point, Option<Point>>, cost: map<Point, real>)
    requires WellFormed(graph)
    requires current in graph && current in cost0
    requires Predecessors(graph, start, cameFrom0, cost0)
    requires QueueNodes(graph, start, queue0, cost0)
    requires Waiting(graph, start, goal, hypot, queue0, cost0, {current})
    ensures forall v :: v in graph[current] ==>
      && v in cost && v in cameFrom
      && if Lowers(graph, cost0, current, v) then cost[v] == cost0[current] + graph[current][v] && cameFrom[v] == Some(current)
         else v in cameFrom0 && cost[v] == cost0[v] && cameFrom[v] == cameFrom0[v]
    ensures forall v :: v !in graph[current] ==>
      && (v in cost <==> v in cost0) && (v in cameFrom <==> v in cameFrom0)
      && (v in cost0 ==> cost[v] == cost0[v]) && (v in cameFrom0 ==> cameFrom[v] == cameFrom0[v])
    ensures |queue| >= |queue0| && queue[..|queue0|] == queue0
    ensures multiset(queue) == multiset(queue0) + multiset(Pushed(graph, cost0, current, goal, hypot, graph[current].Keys))
    ensures Relaxed(graph, cost, current)
    ensures Predecessors(graph, start, cameFrom, cost)
    ensures QueueNodes(graph, start, queue, cost)
    ensures Waiting(graph, start, goal, hypot, queue, cost, {})
  {
    queue, cameFrom, cost := queue0, cameFrom0, cost0;
    var neighbours := graph[current];
    var todo := neighbours.Keys;
    ghost var handled: set<Point> := {};
    assert Pushed(graph, cost0, current, goal, hypot, {}) == {};
    while todo != {}
      invariant todo <= neighbours.Keys && handled == neighbours.Keys - todo
      invariant ExpandBooks(graph, start, goal, hypot, current, cost0, queue, cameFrom, cost, handled)
      invariant ExpandProgress(graph, goal, hypot, current, queue0, cameFrom0, cost0, queue, cameFrom, cost, handled)
      decreases todo
    {
      var next :| next in todo;
      todo := todo - {next};
      var newCost := cost[current] + neighbours[next];
      if next !in cost || newCost < cost[next] {
        var priority := newCost + Heuristic(hypot, next, goal);
        assert Lowers(graph, cost, current, next);
        assert (priority, next) == (cost[current] + graph[current][next] + Heuristic(hypot, next, goal), next);
        BooksLowered(graph, start, goal, hypot, current, cost0, queue, cameFrom, cost, handled, next);
        ProgressLowered(graph, goal, hypot, current, queue0, cameFrom0, cost0, queue, cameFrom, cost, handled, next);
        cost := cost[next := newCost];
        queue := queue + [(priority, next)];
        cameFrom := cameFrom[next := Some(current)];
      } else {
        assert !Lowers(graph, cost, current, next);
        BooksKept(graph, start, goal, hypot, current, cost0, queue, cameFrom, cost, handled, next);
        ProgressKept(graph, goal, hypot, current, queue0, cameFrom0, cost0, queue, cameFrom, cost, handled, next);
      }
      handled := handled + {next};
    }
    assert handled == graph[current].Keys;
    ExpandDone(graph, start, goal, hypot, current, queue0, cameFrom0, cost0, queue, cameFrom, cost);
  }

  /**
    Lowering (or first setting) the cost of `next` through `current` and
    recording `current` as its predecessor keeps the bookkeeping invariant.
   */
  lemma RelaxKeepsPredecessors(graph: Graph, start: Point, current: Point, next: Point,
                               cameFrom: map<Point, Option<Point>>, cost: map<Point, real>)
    requires WellFormed(graph)
    requires current in graph && current in cost && next in graph[current]
    requires Predecessors(graph, start, cameFrom, cost)
    requires Lowers(graph, cost, current, next)
    ensures next != current && next != start
    ensures Predecessors(graph, start, cameFrom[next := Some(current)], cost[next := cost[current] + graph[current][next]])
  {
    var cost' := cost[next := cost[current] + graph[current][next]];
    var cameFrom' := cameFrom[next := Some(current)];
    assert next in graph && 0.0 <= graph[current][next];
    forall v | v in cameFrom' && v != start
      ensures PredecessorOk(graph, cameFrom', cost', v)
    {
      if v != next {
        assert PredecessorOk(graph, cameFrom, cost, v);
      }
    }
  }

  /**
    Queueing the new entry of `next` after lowering its cost leaves every
    node other than `current` waiting or relaxed.
   */
  lemma RelaxKeepsWaiting(graph: Graph, start: Point, goal: Point, hypot: Hypot, current: Point, next: Point,
                          queue: seq<Entry>, cost: map<Point, real>)
    requires current in graph && current in cost && next in graph[current]
    requires next != current && next != start
    requires Waiting(graph, start, goal, hypot, queue, cost, {current})
    requires Lowers(graph, cost, current, next)
    ensures Waiting(graph, start, goal, hypot, queue + [(cost[current] + graph[current][next] + Heuristic(hypot, next, goal), next)],
                    cost[next := cost[current] + graph[current][next]], {current})
  {
    var cost' := cost[next := cost[current] + graph[current][next]];
    var queue' := queue + [(cost[current] + graph[current][next] + Heuristic(hypot, next, goal), next)];
    assert PendingEntry(cost', next, start, goal, hypot) in queue';
    forall u | u in cost' && u !in {current} && PendingEntry(cost', u, start, goal, hypot) !in queue'
      ensures Relaxed(graph, cost', u)
    {
      assert u != next;
      assert PendingEntry(cost', u, start, goal, hypot) == PendingEntry(cost, u, start, goal, hypot);
      assert Relaxed(graph, cost, u);
    }
  }

  /** `path.reverse()`. */
  function Reversed(s: seq<Point>): (r: seq<Point>)
    ensures |r| == |s|
    ensures forall i :: 0 <= i < |s| ==> r[i] == s[|s| - 1 - i]
  {
    if s == [] then [] else Reversed(s[1..]) + [s[0]]
  }

  /** The costed nodes strictly cheaper than `bound`. */
  function Below(cost: map<Point, real>, bound: real): set<Point> {
    set v | v in cost && cost[v] < bound
  }

  /**
    The state of the backward walk: `path` runs from the goal along reversed
    edges to the node before `current`, with costs falling strictly on the way.
   */
  ghost predicate BackWalk(graph: Graph, cost: map<Point, real>, goal: Point, path: seq<Point>, current: Point) {
    && (path == [] ==> current == goal)
    && (path != [] ==> path[0] == goal && current in cost && current in graph && path[|path| - 1] in graph[current])
    && (forall k :: 0 <= k < |path| ==> path[k] in cost && cost[path[k]] > cost[current])
    && (forall k, l :: 0 <= k < l < |path| ==> cost[path[k]] > cost[path[l]])
    && (forall k :: 1 <= k < |path| ==> path[k] in graph && path[k - 1] in graph[path[k]])
  }

  /** Stepping from `current` back to a cheaper predecessor with an edge into it keeps the walk's state. */
  lemma BackWalkStep(graph: Graph, cost: map<Point, real>, goal: Point, path: seq<Point>, current: Point, previous: Point)
    requires BackWalk(graph, cost, goal, path, current)
    requires current in cost && previous in cost && cost[previous] < cost[current]
    requires previous in graph && current in graph[previous]
    ensures BackWalk(graph, cost, goal, path + [current], previous)
  {
    var path' := path + [current];
    forall k, l | 0 <= k < l < |path'|
      ensures cost[path'[k]] > cost[path'[l]]
    {
      if l < |path| {
        assert path'[k] == path[k] && path'[l] == path[l];
      } else {
        assert path'[k] == path[k];
      }
    }
    forall k | 1 <= k < |path'|
      ensures path'[k] in graph && path'[k - 1] in graph[path'[k]]
    {
      if k < |path| {
        assert path'[k] == path[k] && path'[k - 1] == path[k - 1];
      }
    }
  }

  /** A walk that has reached the start, once the start is appended and the whole reversed, is a path of rising cost. */
  lemma BackWalkDone(graph: Graph, cost: map<Point, real>, start: Point, goal: Point, path: seq<Point>, route: seq<Point>)
    requires BackWalk(graph, cost, goal, path, start) && start in cost
    requires route == Reversed(path + [start])
    ensures PathFromTo(graph, route, start, goal)
    ensures forall i :: 0 <= i < |route| ==> route[i] in cost
    ensures forall i, j :: 0 <= i < j < |route| ==> cost[route[i]] < cost[route[j]]
  {
    var full := path + [start];
    assert forall i :: 0 <= i < |route| ==> route[i] == full[|full| - 1 - i];
    assert route[0] == start;
    assert route[|route| - 1] == full[0] == goal;
    forall i | 0 <= i < |route| - 1
      ensures route[i] in graph && route[i + 1] in graph[route[i]]
    {
      var k := |full| - 1 - i;
      assert route[i] == full[k] && route[i + 1] == full[k - 1];
      if k < |path| {
        assert full[k] == path[k] && full[k - 1] == path[k - 1];
      } else {
        assert full[k - 1] == path[|path| - 1];
      }
    }
    forall i, j | 0 <= i < j < |route|
      ensures cost[route[i]] < cost[route[j]]
    {
      var k, l := |full| - 1 - j, |full| - 1 - i;
      assert route[i] == full[l] && route[j] == full[k];
      if l < |path| {
        assert full[k] == path[k] && full[l] == path[l];
      } else {
        assert full[k] == path[k];
      }
    }
  }

  /**
    The source's reconstruction: walk `came_from` back from the goal to the
    start, appending each node, then append the start and reverse. Looking up
    a goal that never received a predecessor raises KeyError. The walk ends
    because costs fall strictly along predecessors.
   */
  method Reconstruct(graph: Graph, start: Point, goal: Point, cameFrom: map<Point, Option<Point>>, ghost cost: map<Point, real>)
    returns (r: Result<seq<Point>, SearchError>)
    requires WellFormed(graph)
    requires Predecessors(graph, start, cameFrom, cost)
    ensures goal == start ==> r == Ok([start])
    ensures goal in cameFrom ==> r.Ok? && PathFromTo(graph, r.value, start, goal)
    ensures r.Ok? ==> forall i :: 0 <= i < |r.value| ==> r.value[i] in cost
    ensures r.Ok? ==> forall i, j :: 0 <= i < j < |r.value| ==> cost[r.value[i]] < cost[r.value[j]]
    ensures goal !in cameFrom ==> r == Err(KeyError(goal))
  {
    var path: seq<Point> := [];
    var current := goal;
    while current != start
      invariant BackWalk(graph, cost, goal, path, current)
      decreases if current in cost then Below(cost, cost[current]) else cost.Keys
    {
      if current !in cameFrom {
        return Err(KeyError(current));
      }
      assert PredecessorOk(graph, cameFrom, cost, current);
      var previous := cameFrom[current].value;
      EdgeBetweenDistinctIsPositive(graph, previous, current);
      BackWalkStep(graph, cost, goal, path, current, previous);
      assert previous in Below(cost, cost[current]) - Below(cost, cost[previous]);
      path := path + [current];
      current := previous;
    }
    path := path + [start];
    assert path == [start] ==> Reversed(path) == [start];
    var route := Reversed(path);
    BackWalkDone(graph, cost, start, goal, path[..|path| - 1], route);
    return Ok(route);
  }

  /**
    The source's `a_star_search(graph, start, goal)`. The main loop is bounded
    by `fuel` steps; the source loops until the heap is empty.
   */
  method AStarSearch(graph: Graph, start: Point, goal: Point, hypot: Hypot, fuel: nat)
    returns (r: Result<seq<Point>, SearchError>)
    requires WellFormed(graph)
    ensures r.Ok? ==> PathFromTo(graph, r.value, start, goal)
    ensures r.Ok? ==> forall i, j :: 0 <= i < j < |r.value| ==> r.value[i] != r.value[j]
    ensures start == goal && fuel > 0 ==> r == Ok([start])
    ensures r.Err? && r.error.KeyError? ==> start != goal && forall path :: !PathFromTo(graph, path, start, goal)
  {
    var queue: seq<Entry> := [(0.0, start)];
    var cameFrom: map<Point, Option<Point>> := map[start := None];
    var cost: map<Point, real> := map[start := 0.0];
    var steps := fuel;
    ghost var reached := false;
    while queue != []
      invariant Predecessors(graph, start, cameFrom, cost)
      invariant QueueNodes(graph, start, queue, cost)
      invariant Waiting(graph, start, goal, hypot, queue, cost, {})
      invariant start == goal ==> queue == [(0.0, start)] && steps == fuel
      invariant !reached
      decreases steps
    {
      if steps == 0 {
        return Err(OutOfFuel);
      }
      steps := steps - 1;
      var entry;
      ghost var queued := queue;
      entry, queue := HeapPop(queue);
      var current := entry.1;
      if current == goal {
        reached := true;
        break;
      }
      PopKeepsWaiting(graph, start, goal, hypot, queued, queue, entry, cost);
      if current !in graph {
        assert Closed(graph, {start});
        ClosedRegionSeparates(graph, {start}, start, goal);
        return Err(KeyError(current));
      }
      queue, cameFrom, cost := Expand(graph, current, start, goal, hypot, queue, cameFrom, cost);
    }
    if !reached {
      ExhaustedIsClosed(graph, start, goal, hypot, cost);
    }
    assert reached ==> goal in cameFrom;
    r := Reconstruct(graph, start, goal, cameFrom, cost);
    if r.Err? {
      ClosedRegionSeparates(graph, cost.Keys, start, goal);
    }
  }
}
