/** The axial hex grid: distance, neighbours, rings and balls (caravaneer/core.py). */
module Hex {

  datatype HexDir = NE | E | SE | SW | W | NW

  function Abs(x: int): nat {
    if x < 0 then -x else x
  }

  function Max(x: int, y: int): int {
    if x < y then y else x
  }

  datatype Position = Position(q: int, r: int) {

    /** The third cube coordinate; the three always sum to zero. */
    function S(): int {
      -q - r
    }

    function Neighbor(direction: HexDir): Position {
      match direction
      case NE => Position(q + 1, r - 1)
      case E => Position(q + 1, r)
      case SE => Position(q, r + 1)
      case SW => Position(q - 1, r + 1)
      case W => Position(q - 1, r)
      case NW => Position(q, r - 1)
    }

    function Neighbors(): seq<Position> {
      [Neighbor(NE), Neighbor(E), Neighbor(SE), Neighbor(SW), Neighbor(W), Neighbor(NW)]
    }

    function DistanceTo(other: Position): nat {
      Max(Max(Abs(q - other.q), Abs(r - other.r)), Abs((-q - r) - (-other.q - other.r)))
    }
  }

  // ---- Walks: sequences of neighbouring cells ----

  predicate Adjacent(a: Position, b: Position) {
    a.DistanceTo(b) == 1
  }

  /** The neighbour list holds exactly the six cells at distance one, each once. */
  lemma NeighborsAreUnitBall(a: Position)
    ensures NoDuplicates(a.Neighbors()) && |a.Neighbors()| == 6
    ensures forall b :: b in a.Neighbors() <==> Adjacent(a, b)
  {
    var n := a.Neighbors();
    forall b
      ensures b in n <==> Adjacent(a, b)
    {
      if Adjacent(a, b) {
        assert b == n[0] || b == n[1] || b == n[2] || b == n[3] || b == n[4] || b == n[5];
      }
    }
  }

  ghost predicate Walk(path: seq<Position>) {
    && |path| > 0
    && forall i :: 0 < i < |path| ==> Adjacent(path[i - 1], path[i])
  }

  ghost predicate WalkBetween(path: seq<Position>, a: Position, b: Position) {
    Walk(path) && path[0] == a && path[|path| - 1] == b
  }

  lemma TriangleInequality(a: Position, b: Position, c: Position)
    ensures a.DistanceTo(c) <= a.DistanceTo(b) + b.DistanceTo(c)
    ensures a.DistanceTo(b) == b.DistanceTo(a)
  {
  }

  lemma AdjacentDistance(a: Position, b: Position, c: Position)
    requires Adjacent(b, c)
    ensures a.DistanceTo(c) <= a.DistanceTo(b) + 1
    ensures Adjacent(c, b)
  {
  }

  /** Along a walk, cells at indices i <= j are at most j - i apart. */
  lemma {:induction false} WalkBoundsDistance(path: seq<Position>, i: nat, j: nat)
    requires Walk(path) && i <= j < |path|
    ensures path[i].DistanceTo(path[j]) <= j - i
    decreases j
  {
    if i < j {
      WalkBoundsDistance(path, i, j - 1);
      AdjacentDistance(path[i], path[j - 1], path[j]);
    }
  }

  // ---- Rings ----

  predicate NoDuplicates<T(==)>(s: seq<T>) {
    forall i, j :: 0 <= i < j < |s| ==> s[i] != s[j]
  }

  /** Cell number j of one of the six sides of the ring, starting at that side's corner. */
  function RingCell(c: Position, radius: int, side: nat, j: int): Position
    requires side <= 6
  {
    match side
    case 0 => Position(c.q + radius, c.r - radius + j)
    case 1 => Position(c.q + radius - j, c.r + j)
    case 2 => Position(c.q - j, c.r + radius)
    case 3 => Position(c.q - radius, c.r + radius - j)
    case 4 => Position(c.q - radius + j, c.r - j)
    case 5 => Position(c.q + j, c.r - radius)
    case _ => Position(c.q + radius, c.r - radius)
  }

  /** The first `sides` sides of the ring, in the order they are visited. */
  function RingSides(c: Position, radius: nat, sides: nat): (cells: seq<Position>)
    requires sides <= 6
    ensures |cells| == sides * radius
  {
    if sides == 0 then [] else
      RingSides(c, radius, sides - 1) + seq(radius, j => RingCell(c, radius, sides - 1, j))
  }

  function RingCells(c: Position, radius: int): seq<Position> {
    if radius <= 0 then [c] else RingSides(c, radius, 6)
  }

  lemma {:induction false} RingSidesAt(c: Position, radius: nat, sides: nat, side: nat, j: nat)
    requires side < sides <= 6 && j < radius
    ensures side * radius + j < sides * radius
    ensures RingSides(c, radius, sides)[side * radius + j] == RingCell(c, radius, side, j)
  {
    if side < sides - 1 {
      RingSidesAt(c, radius, sides - 1, side, j);
      assert sides * radius == (sides - 1) * radius + radius;
    } else {
      assert sides * radius == side * radius + radius;
    }
  }

  /** Splits an index into the ring into its side and its place on that side. */
  lemma RingIndexSplit(radius: nat, k: nat) returns (side: nat, j: nat)
    requires k < 6 * radius
    ensures side < 6 && j < radius && k == side * radius + j
  {
    if k < radius { side, j := 0, k; }
    else if k < 2 * radius { side, j := 1, k - radius; }
    else if k < 3 * radius { side, j := 2, k - 2 * radius; }
    else if k < 4 * radius { side, j := 3, k - 3 * radius; }
    else if k < 5 * radius { side, j := 4, k - 4 * radius; }
    else { side, j := 5, k - 5 * radius; }
  }

  lemma RingCellInjective(c: Position, radius: nat, s1: nat, j1: nat, s2: nat, j2: nat)
    requires s1 < 6 && s2 < 6 && j1 < radius && j2 < radius
    requires RingCell(c, radius, s1, j1) == RingCell(c, radius, s2, j2)
    ensures s1 == s2 && j1 == j2
  {
  }

  /** Every cell at distance radius sits on one of the six sides. */
  lemma RingCellCovers(c: Position, radius: int, p: Position) returns (side: nat, j: nat)
    requires radius >= 1 && c.DistanceTo(p) == radius
    ensures side < 6 && j < radius && RingCell(c, radius, side, j) == p
  {
    var dq, dr := p.q - c.q, p.r - c.r;
    if dq == radius && dr < 0 { side, j := 0, dr + radius; }
    else if dr >= 0 && dq > 0 { side, j := 1, dr; }
    else if dr == radius && dq > -radius { side, j := 2, -dq; }
    else if dq == -radius && dr > 0 { side, j := 3, radius - dr; }
    else if dq < 0 && dr <= 0 { side, j := 4, dq + radius; }
    else { side, j := 5, dq; }
  }

  lemma RingListsSphere(c: Position, radius: int, p: Position)
    requires radius >= 1
    ensures p in RingCells(c, radius) <==> c.DistanceTo(p) == radius
  {
    var cells := RingCells(c, radius);
    if p in cells {
      var k :| 0 <= k < |cells| && cells[k] == p;
      var side, j := RingIndexSplit(radius, k);
      RingSidesAt(c, radius, 6, side, j);
    }
    if c.DistanceTo(p) == radius {
      var side, j := RingCellCovers(c, radius, p);
      RingSidesAt(c, radius, 6, side, j);
    }
  }

  lemma RingListsOnce(c: Position, radius: int, i: int, k: int)
    requires radius >= 1 && 0 <= i < k < 6 * radius
    ensures RingCells(c, radius)[i] != RingCells(c, radius)[k]
  {
    var s1, j1 := RingIndexSplit(radius, i);
    var s2, j2 := RingIndexSplit(radius, k);
    RingSidesAt(c, radius, 6, s1, j1);
    RingSidesAt(c, radius, 6, s2, j2);
    if RingCell(c, radius, s1, j1) == RingCell(c, radius, s2, j2) {
      RingCellInjective(c, radius, s1, j1, s2, j2);
    }
  }

  /** ring(radius) lists each cell at that distance exactly once, 6 * radius of them. */
  lemma RingIsExactlyTheSphere(c: Position, radius: int)
    requires radius >= 1
    ensures |RingCells(c, radius)| == 6 * radius
    ensures NoDuplicates(RingCells(c, radius))
    ensures forall p :: p in RingCells(c, radius) <==> c.DistanceTo(p) == radius
  {
    forall i, k | 0 <= i < k < 6 * radius
      ensures RingCells(c, radius)[i] != RingCells(c, radius)[k]
    {
      RingListsOnce(c, radius, i, k);
    }
    forall p
      ensures p in RingCells(c, radius) <==> c.DistanceTo(p) == radius
    {
      RingListsSphere(c, radius, p);
    }
  }

  /** The loop-built ring: walk the six sides from the first corner, appending as it goes. */
  method Ring(c: Position, radius: int) returns (results: seq<Position>)
    ensures results == RingCells(c, radius)
    ensures radius <= 0 ==> results == [c]
    ensures radius >= 1 ==> |results| == 6 * radius && NoDuplicates(results)
    ensures radius >= 1 ==> forall p :: p in results <==> c.DistanceTo(p) == radius
  {
    if radius <= 0 {
      return [c];
    }
    results := [];
    var pos := Position(c.q + radius, c.r - radius);
    var directions := [(0, 1), (-1, 1), (-1, 0), (0, -1), (1, -1), (1, 0)];
    for side := 0 to 6
      invariant results == RingSides(c, radius, side)
      invariant pos == RingCell(c, radius, side, 0)
    {
      var (dq, dr) := directions[side];
      for j := 0 to radius
        invariant results == RingSides(c, radius, side) + seq(j, i => RingCell(c, radius, side, i))
        invariant pos == RingCell(c, radius, side, j)
      {
        results := results + [pos];
        pos := Position(pos.q + dq, pos.r + dr);
      }
    }
    RingIsExactlyTheSphere(c, radius);
  }

  // ---- Balls ----

  function WithinCells(c: Position, radius: int): seq<Position>
    decreases radius
  {
    if radius < 0 then [] else WithinCells(c, radius - 1) + RingCells(c, radius)
  }

  /** within(radius) lists each cell of the closed ball exactly once, 1 + 3r(r+1) of them. */
  lemma {:induction false} WithinIsExactlyTheBall(c: Position, radius: int)
    requires radius >= -1
    ensures |WithinCells(c, radius)| == if radius < 0 then 0 else 1 + 3 * radius * (radius + 1)
    ensures NoDuplicates(WithinCells(c, radius))
    ensures forall p :: p in WithinCells(c, radius) <==> c.DistanceTo(p) <= radius
    decreases radius
  {
    if radius >= 0 {
      WithinIsExactlyTheBall(c, radius - 1);
      var inner, ring := WithinCells(c, radius - 1), RingCells(c, radius);
      if radius == 0 {
        assert forall p :: c.DistanceTo(p) == 0 <==> p == c;
      } else {
        RingIsExactlyTheSphere(c, radius);
        assert 3 * radius * (radius + 1) == 3 * (radius - 1) * radius + 6 * radius;
      }
      var cells := inner + ring;
      forall i, k | 0 <= i < k < |cells|
        ensures cells[i] != cells[k]
      {
        if i < |inner| <= k {
          assert inner[i] in inner && ring[k - |inner|] in ring;
        }
      }
    }
  }

  method Within(c: Position, radius: int) returns (results: seq<Position>)
    ensures results == WithinCells(c, radius)
    ensures radius >= 0 ==> |results| == 1 + 3 * radius * (radius + 1)
    ensures NoDuplicates(results)
    ensures forall p :: p in results <==> c.DistanceTo(p) <= radius
  {
    results := [];
    var r := 0;
    while r < radius + 1
      invariant 0 <= r && (r <= radius + 1 || r == 0)
      invariant results == WithinCells(c, r - 1)
    {
      var ring := Ring(c, r);
      results := results + ring;
      r := r + 1;
    }
    WithinIsExactlyTheBall(c, Max(radius, -1));
    assert WithinCells(c, Max(radius, -1)) == WithinCells(c, radius);
  }
}
