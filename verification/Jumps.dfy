/** What flying a plan crosses. The planner goes round black holes hex by hex, but each jump between
    its waypoints is flown along a straight line (travel and find_path, caravaneer/travel.py). */
module Jumps {
  import opened Hex
  import opened HexLine
  import opened Galaxy
  import opened Waypoints
  import opened Pathfinding

  /** A jump from p to q enters only passable cells. */
  ghost predicate ClearJump(g: Chart, p: Position, q: Position) {
    forall i :: 0 < i < |Line(p, q)| ==> Passable(g, Line(p, q)[i])
  }

  ghost predicate ClearHop(g: Chart, waypoints: seq<Position>, m: nat)
    requires 0 < m < |waypoints|
  {
    ClearJump(g, waypoints[m - 1], waypoints[m])
  }

  /** Every jump of the plan is clear. */
  ghost predicate ClearPlan(g: Chart, waypoints: seq<Position>) {
    forall m {:trigger ClearHop(g, waypoints, m)} :: 0 < m < |waypoints| ==> ClearHop(g, waypoints, m)
  }

  // ---- With jump range one, and without black holes ----

  lemma StrideOne(path: seq<Position>)
    requires path != []
    ensures EveryStride(path, 1) == path
  {
  }

  lemma AdjacentLine(p: Position, q: Position)
    requires Adjacent(p, q)
    ensures Line(p, q) == [p, q]
  {
    LineIsShortestWalk(p, q);
  }

  lemma RangeOneIsClear(g: Chart, route: seq<Position>, a: Position, b: Position)
    requires Route(g, route, a, b)
    ensures ClearPlan(g, EveryStride(route, 1))
  {
    StrideOne(route);
    forall m | 0 < m < |route|
      ensures ClearHop(g, route, m)
    {
      AdjacentLine(route[m - 1], route[m]);
    }
  }

  /** Without black holes every plan is clear, whatever the jump range. */
  lemma PlansAreClearWithoutHoles(g: Chart, route: seq<Position>, a: Position, b: Position, k: nat)
    requires k >= 1 && FreeOfHoles(g) && g.InBounds(a) && Route(g, route, a, b)
    ensures ClearPlan(g, EveryStride(route, k))
  {
    var waypoints := EveryStride(route, k);
    forall m | 0 < m < |waypoints|
      ensures ClearHop(g, waypoints, m)
    {
      LineIsRoute(g, waypoints[m - 1], waypoints[m]);
    }
  }

  // ---- With a longer range ----

  lemma {:induction false} FlatRouteCost(g: Chart, path: seq<Position>)
    requires path != [] && forall i :: 0 < i < |path| ==> MoveCost(g, path[i]) == 10
    ensures RouteCost(g, path) == 10 * (|path| - 1)
  {
    if |path| > 1 {
      FlatRouteCost(g, path[1..]);
    }
  }

  /** The middle of a line of three cells stands next to both its ends. */
  lemma MiddleOfLine(a: Position, b: Position)
    requires b == Position(a.q + 1, a.r + 1)
    ensures |Line(a, b)| == 3
    ensures Line(a, b)[1] == Position(a.q + 1, a.r) || Line(a, b)[1] == Position(a.q, a.r + 1)
  {
    LineIsShortestWalk(a, b);
    var line := Line(a, b);
    assert Adjacent(line[1 - 1], line[1]) && Adjacent(line[2 - 1], line[2]);
  }

  lemma ThreeCellsThinToEnds(path: seq<Position>, k: nat)
    requires |path| == 3 && k >= 2
    ensures EveryStride(path, k) == [path[0], path[2]]
  {
    CountIs(2, k, 1);
  }

  /** For every jump range beyond one, and from every start, there is a map where the planner answers
      with one jump straight into a black hole: each cheapest route goes round it and thins to that jump. */
  lemma PlannedIntoBlackHole(a: Position, k: nat) returns (g: Chart, b: Position)
    requires k >= 2
    ensures CostsAtLeast(g, 10) && exists route :: Cheapest(g, route, a, b)
    ensures forall route :: Cheapest(g, route, a, b) ==> EveryStride(route, k) == [a, b]
    ensures !ClearPlan(g, [a, b])
  {
    b := Position(a.q + 1, a.r + 1);
    MiddleOfLine(a, b);
    var hole := Line(a, b)[1];
    var other := if hole.r == a.r then Position(a.q, a.r + 1) else Position(a.q + 1, a.r);
    g := Chart(a.DistanceTo(CENTER) + 2, map[hole := TerrainCell(BlackHole)]);
    var detour := [a, other, b];
    DetourIsRoute(g, a, other, b, hole);
    forall route | Route(g, route, a, b)
      ensures RouteCost(g, route) == 10 * (|route| - 1) && |route| >= 3
    {
      FlatRouteCost(g, route);
      WalkBoundsDistance(route, 0, |route| - 1);
    }
    assert Cheapest(g, detour, a, b);
    forall route | Cheapest(g, route, a, b)
      ensures EveryStride(route, k) == [a, b]
    {
      ThreeCellsThinToEnds(route, k);
    }
    assert !ClearJump(g, a, b);
    assert !ClearHop(g, [a, b], 1);
  }

  lemma DetourIsRoute(g: Chart, a: Position, other: Position, b: Position, hole: Position)
    requires b == Position(a.q + 1, a.r + 1) && Adjacent(a, other) && Adjacent(other, b) && other != hole && b != hole
    requires g == Chart(a.DistanceTo(CENTER) + 2, map[hole := TerrainCell(BlackHole)])
    ensures Route(g, [a, other, b], a, b)
  {
    TriangleInequality(other, a, CENTER);
    TriangleInequality(b, a, CENTER);
    TriangleInequality(a, other, b);
  }

  // ---- Exactly when ----

  /** Every route thins to a clear plan exactly when the jump range is one; and the planner's own answers,
      which are cheapest routes, do no better. */
  lemma PlansAreClearExactlyAtRangeOne(k: nat)
    requires k >= 1
    ensures (forall g: Chart, route, a, b :: Route(g, route, a, b) ==> ClearPlan(g, EveryStride(route, k))) <==> k == 1
    ensures (forall g: Chart, route, a, b ::
               CostsAtLeast(g, 10) && Cheapest(g, route, a, b) ==> ClearPlan(g, EveryStride(route, k))) <==> k == 1
  {
    if k == 1 {
      forall g: Chart, route, a, b | Route(g, route, a, b)
        ensures ClearPlan(g, EveryStride(route, k))
      {
        RangeOneIsClear(g, route, a, b);
      }
    } else {
      var g, b := PlannedIntoBlackHole(CENTER, k);
      var route :| Cheapest(g, route, CENTER, b);
      assert !ClearPlan(g, EveryStride(route, k));
    }
  }
}
