/** A* over the hex map (TravelEngine.find_path, caravaneer/travel.py).

    Costs and priorities are in tenths: an ordinary cell costs 10, so the hex distance
    enters a priority as ten tenths per hex. */
module Pathfinding {
  import opened Hex
  import opened AStar
  import opened HexLine
  import opened Galaxy
  import opened Waypoints
  import opened Options

  // ---- Routes ----

  predicate Passable(g: Chart, p: Position) {
    g.InBounds(p) && !(p in g.cells && g.cells[p].terrain.BlackHole?)
  }

  /** The cost of entering a cell. */
  function MoveCost(g: Chart, p: Position): int {
    if p in g.cells then CellCost(g.cells[p]) else 10
  }

  function CellCost(c: TerrainCell): int {
    c.fuelMultiplier + (if c.terrain.AsteroidField? then 5 else if c.terrain.Nebula? then 3 else 0)
  }

  /** A walk from start to dest entering only in-bounds cells that are not black holes.
      Like the code, it asks nothing of the cell it starts in. */
  ghost predicate Route(g: Chart, path: seq<Position>, start: Position, dest: Position) {
    WalkBetween(path, start, dest) && forall i :: 0 < i < |path| ==> Passable(g, path[i])
  }

  function RouteCost(g: Chart, path: seq<Position>): int {
    if |path| <= 1 then 0 else MoveCost(g, path[1]) + RouteCost(g, path[1..])
  }

  /** No route between the same ends costs less. */
  ghost predicate Cheapest(g: Chart, route: seq<Position>, start: Position, dest: Position) {
    && Route(g, route, start, dest)
    && forall path :: Route(g, path, start, dest) ==> RouteCost(g, route) <= RouteCost(g, path)
  }

  /** Every enterable cell costs at least `least` tenths. */
  ghost predicate CostsAtLeast(g: Chart, least: int) {
    forall p :: Passable(g, p) ==> MoveCost(g, p) >= least
  }

  /** The map as a weighted graph for a given destination. */
  function RouteGraph(g: Chart, dest: Position): Graph {
    Graph((u: Position, v: Position) => Adjacent(u, v) && Passable(g, v),
          (p: Position) => MoveCost(g, p),
          (p: Position) => 10 * p.DistanceTo(dest))
  }

  lemma RoutesArePaths(g: Chart, to: Position, path: seq<Position>, start: Position, dest: Position)
    ensures Route(g, path, start, dest) <==> Path(RouteGraph(g, to), path, start, dest)
  {
    var gr := RouteGraph(g, to);
    if Path(gr, path, start, dest) {
      forall i | 0 < i < |path|
        ensures Adjacent(path[i - 1], path[i]) && Passable(g, path[i])
      {
        assert gr.edge(path[i - 1], path[i]);
      }
    }
  }

  lemma {:induction false} RouteCostIsPathCost(g: Chart, to: Position, path: seq<Position>)
    ensures RouteCost(g, path) == PathCost(RouteGraph(g, to), path)
  {
    if |path| > 1 {
      RouteCostIsPathCost(g, to, path[1..]);
    }
  }

  lemma DistanceToSelf(p: Position)
    ensures p.DistanceTo(p) == 0
  {
  }

  /** Costs are never negative, so links lead back; unit costs make the hex distance consistent. */
  lemma RouteGraphFits(g: Chart, dest: Position)
    ensures CostsAtLeast(g, 0) ==> NonNegativePrices(RouteGraph(g, dest))
    ensures CostsAtLeast(g, 10) ==> Consistent(RouteGraph(g, dest), dest)
  {
    forall u, v | Adjacent(u, v) && Passable(g, v)
      ensures u != v
      ensures u.DistanceTo(dest) <= 1 + v.DistanceTo(dest)
    {
      TriangleInequality(u, v, dest);
      DistanceToSelf(u);
    }
  }

  /** A route costs at least ten tenths per hex between its ends. */
  lemma RouteCostsAtLeastDistance(g: Chart, path: seq<Position>, start: Position, dest: Position)
    requires Route(g, path, start, dest) && CostsAtLeast(g, 10)
    ensures RouteCost(g, path) >= 10 * start.DistanceTo(dest)
  {
    RoutesArePaths(g, dest, path, start, dest);
    RouteCostIsPathCost(g, dest, path);
    RouteGraphFits(g, dest);
    ConsistentIsAdmissible(RouteGraph(g, dest), path, start, dest);
  }

  /** Python's order on (priority, (q, r)) tuples. */
  predicate AtMost(a: Entry, b: Entry) {
    || a.priority < b.priority
    || (a.priority == b.priority &&
        (a.pos.q < b.pos.q || (a.pos.q == b.pos.q && a.pos.r <= b.pos.r)))
  }

  /** The lower priority comes first, on a tie the lower q, then the lower r; so one entry is the least. */
  lemma EntriesAreOrdered(a: Entry, b: Entry)
    ensures a.priority < b.priority ==> AtMost(a, b) && !AtMost(b, a)
    ensures a.priority == b.priority && a.pos.q < b.pos.q ==> AtMost(a, b) && !AtMost(b, a)
    ensures a.priority == b.priority && a.pos.q == b.pos.q && a.pos.r < b.pos.r ==> AtMost(a, b) && !AtMost(b, a)
    ensures AtMost(a, b) && AtMost(b, a) <==> a == b
  {
  }

  /** Takes out a least entry; the other entries stay, duplicates included. */
  method HeapPop(frontier: seq<Entry>) returns (least: Entry, rest: seq<Entry>)
    requires frontier != []
    ensures forall e :: e in frontier ==> AtMost(least, e)
    ensures least in frontier && |rest| == |frontier| - 1
    ensures forall e :: e in frontier ==> e == least || e in rest
    ensures forall e :: e in rest ==> e in frontier
  {
    var best := 0;
    for i := 1 to |frontier|
      invariant 0 <= best < |frontier|
      invariant forall k :: 0 <= k < i ==> AtMost(frontier[best], frontier[k])
    {
      if !AtMost(frontier[best], frontier[i]) {
        best := i;
      }
    }
    least, rest := frontier[best], frontier[..best] + frontier[best + 1..];
    forall e | e in frontier
      ensures e == least || e in rest
    {
      var k :| 0 <= k < |frontier| && frontier[k] == e;
      if k < best { assert rest[k] == e; }
      if k > best { assert rest[k - 1] == e; }
    }
  }

  // ---- The search ----

  /** cells holds every cell a search can ever discover. */
  ghost predicate Roomy(g: Chart, cells: seq<Position>) {
    forall w :: Passable(g, w) ==> w in cells
  }

  lemma RoomyCells(g: Chart) returns (cells: seq<Position>)
    ensures Roomy(g, cells)
  {
    cells := WithinCells(CENTER, g.radius);
    forall w | Passable(g, w)
      ensures w in cells
    {
      TriangleInequality(w, CENTER, w);
      WithinIsExactlyTheBall(CENTER, g.radius);
    }
  }

  /** Expands one popped cell: afterwards no neighbour can be improved through it. */
  method Expand(g: Chart, start: Position, dest: Position, s: Search, current: Position, ghost cells: seq<Position>)
    returns (s': Search)
    requires CostsAtLeast(g, 0) && current in s.cost && Roomy(g, cells)
    requires Invariant(RouteGraph(g, dest), start, s, {current})
    ensures Invariant(RouteGraph(g, dest), start, s', {})
    ensures s' == s || Smaller(cells, s'.cost, s.cost)
  {
    RouteGraphFits(g, dest);
    ghost var gr := RouteGraph(g, dest);
    s' := s;
    var neighbors := current.Neighbors();
    NeighborsAreUnitBall(current);
    for i := 0 to |neighbors|
      invariant Invariant(gr, start, s', {current})
      invariant current in s'.cost && s'.cost[current] == s.cost[current]
      invariant forall k :: 0 <= k < i && Passable(g, neighbors[k]) ==> NoBetterVia(gr, s'.cost, current, neighbors[k])
      invariant s' == s || Smaller(cells, s'.cost, s.cost)
    {
      assert gr.edge(current, neighbors[i]) <==> Passable(g, neighbors[i]);
      s' := Relax(g, gr, start, dest, s', current, neighbors[i], cells);
    }
    forall w | gr.edge(current, w)
      ensures NoBetterVia(gr, s'.cost, current, w)
    {
      assert w in neighbors;
    }
    ExpansionDone(gr, start, s', current);
  }

  /** One neighbour: skipped when out of bounds or a black hole, recorded when it gets cheaper. */
  method Relax(
    g: Chart, ghost gr: Graph, start: Position, dest: Position, s: Search, current: Position, neighbor: Position,
    ghost cells: seq<Position>)
    returns (s': Search)
    requires NonNegativePrices(gr) && gr.edge(current, neighbor) == Passable(g, neighbor)
    requires gr.price(neighbor) == MoveCost(g, neighbor) && gr.estimate(neighbor) == 10 * neighbor.DistanceTo(dest)
    requires Passable(g, neighbor) ==> neighbor in cells
    requires current in s.cost && Invariant(gr, start, s, {current})
    ensures Relaxed(gr, start, s, current, cells, s')
    ensures Passable(g, neighbor) ==> NoBetterVia(gr, s'.cost, current, neighbor)
    ensures s' != s ==>
              && Passable(g, neighbor) && neighbor in s'.cost
              && s'.cost[neighbor] == s.cost[current] + MoveCost(g, neighbor)
              && (neighbor in s.cost ==> s'.cost[neighbor] < s.cost[neighbor])
              && s' == Search(s.frontier + [Entry(s'.cost[neighbor] + 10 * neighbor.DistanceTo(dest), neighbor)],
                              s.cameFrom[neighbor := current], s.cost[neighbor := s'.cost[neighbor]])
  {
    if !Passable(g, neighbor) {
      return s;
    }
    var newCost := s.cost[current] + MoveCost(g, neighbor);
    if neighbor !in s.cost || newCost < s.cost[neighbor] {
      RecordRelaxes(gr, start, s, current, neighbor, cells);
      s' := Push(gr, s, current, neighbor, newCost, newCost + 10 * neighbor.DistanceTo(dest));
    } else {
      s' := s;
    }
  }

  /** The three updates of a recorded improvement. */
  method Push(ghost gr: Graph, s: Search, current: Position, neighbor: Position, newCost: int, priority: int)
    returns (s': Search)
    requires priority == newCost + gr.estimate(neighbor)
    ensures s' == Record(gr, s, current, neighbor, newCost)
  {
    s' := Search(s.frontier + [Entry(priority, neighbor)],
                 s.cameFrom[neighbor := current], s.cost[neighbor := newCost]);
  }

  /** The search loop. It always ends; a frontier run dry means every reachable cell was found,
      and with unit costs an early stop already knows the cheapest cost of the destination. */
  method FindCosts(g: Chart, start: Position, dest: Position) returns (s: Search)
    requires start != dest && CostsAtLeast(g, 0)
    ensures Tree(RouteGraph(g, dest), start, s) && Grown(RouteGraph(g, dest), s.cameFrom, s.cost)
    ensures forall path :: Route(g, path, start, dest) ==> dest in s.cost
    ensures CostsAtLeast(g, 10) ==>
              forall path :: Route(g, path, start, dest) ==> dest in s.cost && s.cost[dest] <= RouteCost(g, path)
  {
    ghost var gr := RouteGraph(g, dest);
    ghost var cells := RoomyCells(g);
    RouteGraphFits(g, dest);
    s := Search([Entry(0, start)], map[], map[start := 0]);
    InitialInvariant(gr, start);
    while s.frontier != []
      invariant Invariant(gr, start, s, {})
      decreases Undiscovered(cells, s.cost), TotalCost(cells, s.cost), |s.frontier|
    {
      TotalCostNonNegative(cells, s.cost);
      var top, rest := HeapPop(s.frontier);
      if top.pos == dest {
        EarlyStop(g, start, dest, s, top);
        return;
      }
      PopKeepsInvariant(gr, start, s, top, rest);
      s := Expand(g, start, dest, s.(frontier := rest), top.pos, cells);
    }
    forall path | Route(g, path, start, dest)
      ensures dest in s.cost && s.cost[dest] <= RouteCost(g, path)
    {
      RoutesArePaths(g, dest, path, start, dest);
      RouteCostIsPathCost(g, dest, path);
      FrontierBoundsPaths(gr, start, s, path, start, dest, 0);
    }
  }

  /** Popping the destination, even through a stale entry, means no route beats its cost. */
  lemma EarlyStop(g: Chart, start: Position, dest: Position, s: Search, top: Entry)
    requires start != dest && Invariant(RouteGraph(g, dest), start, s, {})
    requires top in s.frontier && top.pos == dest
    requires forall e :: e in s.frontier ==> AtMost(top, e)
    ensures dest in s.cost
    ensures CostsAtLeast(g, 10) ==>
              forall path :: Route(g, path, start, dest) ==> s.cost[dest] <= RouteCost(g, path)
  {
    var gr := RouteGraph(g, dest);
    RouteGraphFits(g, dest);
    assert top.priority >= Key(gr, start, s.cost, dest);
    forall path | CostsAtLeast(g, 10) && Route(g, path, start, dest)
      ensures s.cost[dest] <= RouteCost(g, path)
    {
      RoutesArePaths(g, dest, path, start, dest);
      RouteCostIsPathCost(g, dest, path);
      FrontierBoundsPaths(gr, start, s, path, start, dest, 0);
      if exists e :: e in s.frontier && e.priority <= PathCost(gr, path) {
        var e :| e in s.frontier && e.priority <= PathCost(gr, path);
        assert AtMost(top, e);
      }
    }
  }

  // ---- Reconstruction ----

  function Reversed(s: seq<Position>): (r: seq<Position>)
    ensures |r| == |s|
  {
    if s == [] then [] else Reversed(s[1..]) + [s[0]]
  }

  lemma {:induction false} ReversedAppend(s: seq<Position>, x: Position)
    ensures Reversed(s + [x]) == [x] + Reversed(s)
  {
    if s == [] {
      assert s + [x] == [x];
    } else {
      assert (s + [x])[1..] == s[1..] + [x];
      ReversedAppend(s[1..], x);
    }
  }

  /** Following came-from back ends at the start, along a route no dearer than the recorded cost. */
  method Reconstruct(g: Chart, start: Position, dest: Position, s: Search) returns (path: seq<Position>)
    requires Tree(RouteGraph(g, dest), start, s) && Grown(RouteGraph(g, dest), s.cameFrom, s.cost)
    requires dest in s.cost && CostsAtLeast(g, 0)
    ensures Route(g, path, start, dest) && RouteCost(g, path) <= s.cost[dest]
  {
    ghost var gr := RouteGraph(g, dest);
    RouteGraphFits(g, dest);
    ghost var time: map<Position, nat>, now: nat :| Dated(gr, s.cameFrom, s.cost, time, now);
    path := [dest];
    var current := dest;
    assert Reversed([dest]) == [dest];
    while current != start
      invariant current in s.cost
      invariant Path(gr, Reversed(path), current, dest)
      invariant s.cost[current] + PathCost(gr, Reversed(path)) <= s.cost[dest]
      decreases s.cost[current], time[current]
    {
      assert Linked(gr, s, current) && Sooner(gr, s.cameFrom, s.cost, time, current);
      var parent := s.cameFrom[current];
      PathPrepend(gr, Reversed(path), parent, current, dest);
      ReversedAppend(path, parent);
      current := parent;
      path := path + [current];
    }
    path := Reversed(path);
    RoutesArePaths(g, dest, path, start, dest);
    RouteCostIsPathCost(g, dest, path);
  }

  /** The planner. It answers None exactly when no route exists; otherwise the waypoints thin out
      a route that, when every cell costs at least 1.0, is a cheapest one among all routes. */
  method FindPath(g: Chart, start: Position, dest: Position, jumpRange: int)
    returns (waypoints: Option<seq<Position>>, ghost route: seq<Position>, ghost hops: seq<nat>)
    requires CostsAtLeast(g, 0)
    ensures waypoints.None? <==> !exists path :: Route(g, path, start, dest)
    ensures waypoints.Some? ==>
              && Route(g, route, start, dest)
              && Hops(route, jumpRange, waypoints.value, hops) && hops[|hops| - 1] == |route| - 1
              && (jumpRange >= 1 ==> waypoints.value == EveryStride(route, jumpRange))
              && (CostsAtLeast(g, 10) ==> Cheapest(g, route, start, dest))
  {
    if start == dest {
      route, hops := [start], [0];
      waypoints := Some([start]);
      assert Route(g, route, start, dest);
      if jumpRange >= 1 {
        ShortPathStrides(route, jumpRange);
      }
      forall path | CostsAtLeast(g, 10) && Route(g, path, start, dest)
        ensures RouteCost(g, route) <= RouteCost(g, path)
      {
        RouteCostsAtLeastDistance(g, path, start, dest);
      }
      return;
    }
    var s := FindCosts(g, start, dest);
    if dest !in s.cameFrom {
      return None, [], [];
    }
    var path := Reconstruct(g, start, dest, s);
    route := path;
    var points;
    points, hops := SimplifyPath(path, jumpRange);
    waypoints := Some(points);
  }

  // ---- Generated maps ----

  lemma GeneratedCost(g: Chart, p: Position)
    requires g.Generated()
    ensures MoveCost(g, p) in {10, 15, 23}
    ensures p in g.cells ==> (MoveCost(g, p) == 23 <==> g.cells[p].terrain.Nebula?)
    ensures p in g.cells ==> (MoveCost(g, p) == 15 <==> g.cells[p].terrain.AsteroidField?)
  {
    if p in g.cells {
      PlaceableCost(g.cells[p]);
    }
  }

  lemma PlaceableCost(c: TerrainCell)
    requires PlaceableCell(c)
    ensures CellCost(c) == if c.terrain.Nebula? then 23 else if c.terrain.AsteroidField? then 15 else 10
  {
  }

  lemma GeneratedCosts(g: Chart)
    requires g.Generated()
    ensures CostsAtLeast(g, 10)
  {
    forall p | Passable(g, p)
      ensures MoveCost(g, p) >= 10
    {
      GeneratedCost(g, p);
    }
  }

  lemma GeneratedRouteCost(g: Chart, path: seq<Position>)
    requires g.Generated() && path != []
    ensures RouteCost(g, path) <= 23 * (|path| - 1)
  {
    var gr := RouteGraph(g, path[0]);
    RouteCostIsPathCost(g, path[0], path);
    forall i | 0 < i < |path|
      ensures gr.price(path[i]) <= 23
    {
      GeneratedCost(g, path[i]);
    }
    PathCostAtMost(gr, path, 23);
  }

  /** On a generated map every in-bounds cell can be reached from every other, so the planner
      fails only on destinations off the map, and a cheapest route costs 1.0 to 2.3 per hex. */
  lemma GeneratedMapsAreConnected(g: Chart, start: Position, dest: Position)
    requires g.Generated() && g.InBounds(start)
    ensures (exists path :: Route(g, path, start, dest)) <==> g.InBounds(dest)
    ensures forall path :: Route(g, path, start, dest) ==> RouteCost(g, path) >= 10 * start.DistanceTo(dest)
    ensures g.InBounds(dest) ==>
              exists path :: Route(g, path, start, dest) && RouteCost(g, path) <= 23 * start.DistanceTo(dest)
  {
    GeneratedCosts(g);
    forall path | Route(g, path, start, dest)
      ensures g.InBounds(dest) && RouteCost(g, path) >= 10 * start.DistanceTo(dest)
    {
      RouteCostsAtLeastDistance(g, path, start, dest);
      if |path| > 1 {
        assert Passable(g, path[|path| - 1]);
      }
    }
    if g.InBounds(dest) {
      GeneratedIsFreeOfHoles(g);
      LineIsRoute(g, start, dest);
      GeneratedRouteCost(g, Line(start, dest));
    }
  }

  ghost predicate FreeOfHoles(g: Chart) {
    forall p :: p in g.cells ==> !g.cells[p].terrain.BlackHole?
  }

  lemma GeneratedIsFreeOfHoles(g: Chart)
    requires g.Generated()
    ensures FreeOfHoles(g)
  {
    forall p | p in g.cells
      ensures !g.cells[p].terrain.BlackHole?
    {
      assert PlaceableCell(g.cells[p]);
    }
  }

  /** Without black holes the straight line between two in-bounds cells is a route. */
  lemma LineIsRoute(g: Chart, start: Position, dest: Position)
    requires FreeOfHoles(g) && g.InBounds(start) && g.InBounds(dest)
    ensures Route(g, Line(start, dest), start, dest)
  {
    LineIsShortestWalk(start, dest);
    TriangleInequality(start, CENTER, start);
    TriangleInequality(dest, CENTER, dest);
    BallsAreConvex(CENTER, g.radius, start, dest);
    var line := Line(start, dest);
    forall i | 0 < i < |line|
      ensures Passable(g, line[i])
    {
      assert line[i] in line;
      TriangleInequality(line[i], CENTER, line[i]);
    }
  }
}
