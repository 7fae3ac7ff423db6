/** The galaxy map: terrain, bounds, fog of war and generation (caravaneer/map.py).

    Fuel multipliers are in tenths, so the source's 1.0 is 10 and its 2.0 is 20. */
module Galaxy {
  import opened Hex
  import opened Options

  datatype Terrain =
    | Empty | StarSystem | Nebula | AsteroidField | BlackHole
    | Wormhole | SpaceStation | PirateLair | Derelict | Anomaly

  datatype TerrainCell = TerrainCell(
    terrain: Terrain,
    wormholeTarget: Option<Position> := None,
    hazardDamage: int := 0,
    fuelMultiplier: int := 10)

  type Cells = map<Position, TerrainCell>

  const CENTER := Position(0, 0)

  /** What a route planner reads of the map. */
  datatype Chart = Chart(radius: int, cells: Cells) {

    predicate InBounds(pos: Position) {
      pos.DistanceTo(CENTER) <= radius
    }

    /** The terrain generation can produce: a full disc, no black holes, multiplier 2.0 on
        nebulae and 1.0 elsewhere, asteroid damage from 5 to 15, wormholes in mutual pairs. */
    ghost predicate Generated() {
      && FullDisc(radius, cells.Keys)
      && (forall p :: p in cells ==> PlaceableCell(cells[p]))
      && (forall p {:trigger PairedWormhole(cells, p)} ::
            p in cells && cells[p].terrain.Wormhole? ==> PairedWormhole(cells, p))
    }
  }

  ghost predicate FullDisc(radius: int, positions: set<Position>) {
    forall p :: p in positions <==> p.DistanceTo(CENTER) <= radius
  }

  predicate PlaceableCell(c: TerrainCell) {
    && !c.terrain.BlackHole?
    && c.fuelMultiplier == (if c.terrain.Nebula? then 20 else 10)
    && c.hazardDamage >= 0
    && (c.terrain.AsteroidField? ==> 5 <= c.hazardDamage <= 15)
  }

  ghost predicate PairedWormhole(cells: Cells, p: Position)
    requires p in cells
  {
    && cells[p].wormholeTarget.Some?
    && var t := cells[p].wormholeTarget.value;
      && t != p && t in cells && cells[t].terrain.Wormhole?
      && cells[t].wormholeTarget == Some(p)
  }

  /** Turns two empty cells into the two ends of a wormhole. */
  function LinkWormhole(cells: Cells, a: Position, b: Position): Cells
    requires a in cells && b in cells && a != b
  {
    cells[a := cells[a].(terrain := Wormhole, wormholeTarget := Some(b))]
         [b := cells[b].(terrain := Wormhole, wormholeTarget := Some(a))]
  }

  lemma LinkKeepsGenerated(radius: int, cells: Cells, a: Position, b: Position)
    requires Chart(radius, cells).Generated()
    requires a in cells && b in cells && a != b && cells[a].terrain.Empty? && cells[b].terrain.Empty?
    ensures Chart(radius, LinkWormhole(cells, a, b)).Generated()
  {
    var after := LinkWormhole(cells, a, b);
    forall p | p in after && after[p].terrain.Wormhole?
      ensures PairedWormhole(after, p)
    {
      if p != a && p != b {
        assert PairedWormhole(cells, p);
      }
    }
    assert after.Keys == cells.Keys;
  }

  /** The empty cells farther than `beyond` from the centre, in map order. */
  function EmptyCells(cells: Cells, positions: seq<Position>, beyond: int): seq<Position>
    requires forall p :: p in positions ==> p in cells
  {
    if positions == [] then [] else
      var p := positions[0];
      (if cells[p].terrain.Empty? && p.DistanceTo(CENTER) > beyond then [p] else [])
      + EmptyCells(cells, positions[1..], beyond)
  }

  lemma {:induction false} EmptyCellsAreEmpty(cells: Cells, positions: seq<Position>, beyond: int)
    requires NoDuplicates(positions)
    requires forall p :: p in positions ==> p in cells
    ensures NoDuplicates(EmptyCells(cells, positions, beyond))
    ensures forall p :: p in EmptyCells(cells, positions, beyond) ==> p in positions && cells[p].terrain.Empty?
  {
    if positions != [] {
      EmptyCellsAreEmpty(cells, positions[1..], beyond);
      assert positions[0] !in positions[1..];
    }
  }

  /** Exactly the listed cells that are empty and that far out. */
  lemma {:induction false} EmptyCellsMembers(cells: Cells, positions: seq<Position>, beyond: int, p: Position)
    requires forall q :: q in positions ==> q in cells
    ensures p in EmptyCells(cells, positions, beyond) <==>
            p in positions && cells[p].terrain.Empty? && p.DistanceTo(CENTER) > beyond
  {
    if positions != [] {
      EmptyCellsMembers(cells, positions[1..], beyond, p);
    }
  }

  /** Hideouts lie farther out than seven tenths of the radius. */
  lemma OutlyingCells(cells: Cells, positions: seq<Position>, radius: int, p: Position)
    requires forall q :: q in positions ==> q in cells
    ensures p in EmptyCells(cells, positions, 7 * radius / 10) <==>
            p in positions && cells[p].terrain.Empty? && 10 * p.DistanceTo(CENTER) > 7 * radius
  {
    EmptyCellsMembers(cells, positions, 7 * radius / 10, p);
  }

  /** On a generated map the cells in bounds are exactly those on the map. */
  lemma InBoundsIsMapped(g: Chart, p: Position)
    requires g.Generated()
    ensures g.InBounds(p) <==> p in g.cells
  {
    assert p in g.cells <==> p in g.cells.Keys;
  }

  class GalaxyMap {
    const radius: int
    var cells: Cells
    var wormholePairs: seq<(Position, Position)>
    var playerVisibility: map<string, set<Position>>

    ghost function View(): Chart
      reads this`cells
    {
      Chart(radius, cells)
    }

    constructor (radius: int)
      ensures this.radius == radius && cells == map[] && wormholePairs == [] && playerVisibility == map[]
    {
      this.radius := radius;
      cells, wormholePairs, playerVisibility := map[], [], map[];
    }

    /** Reveals exactly the in-bounds ball around pos, keeping what was already seen. */
    method Reveal(pos: Position, playerId: string, sensorRadius: int)
      modifies this`playerVisibility
      ensures playerVisibility == old(playerVisibility)[playerId :=
                Seen(old(playerVisibility), playerId) + InBoundsBall(radius, pos, sensorRadius)]
    {
      ghost var before, seen := playerVisibility, Seen(playerVisibility, playerId);
      if playerId !in playerVisibility {
        playerVisibility := playerVisibility[playerId := {}];
      }
      var ball := Within(pos, sensorRadius);
      var inBounds := InDisc(radius);
      for i := 0 to |ball|
        invariant playerId in playerVisibility
        invariant playerVisibility[playerId] == seen + Selected(ball[..i], inBounds)
        invariant playerVisibility == before[playerId := playerVisibility[playerId]]
      {
        SelectedOneMore(ball, i, inBounds);
        if inBounds(ball[i]) {
          playerVisibility := playerVisibility[playerId := playerVisibility[playerId] + {ball[i]}];
        }
      }
      assert ball[..|ball|] == ball;
    }

    /** Places terrain, then wormhole pairs, then pirate lairs and derelicts. The draws are
        inputs: a roll and an asteroid damage per cell, and two arbitrary shuffles. */
    method Generate(rolls: Position -> real, damage: Position -> int, d: Densities, numWormholes: nat,
                    farShuffle: seq<Position> -> seq<Position>, edgeShuffle: seq<Position> -> seq<Position>)
      requires cells == map[] && wormholePairs == []
      requires forall p :: 5 <= damage(p) <= 15
      requires forall s :: multiset(farShuffle(s)) == multiset(s)
      requires forall s :: multiset(edgeShuffle(s)) == multiset(s)
      modifies this`cells, this`wormholePairs
      ensures View().Generated()
      ensures radius >= 0 ==> CENTER in cells && cells[CENTER].terrain.SpaceStation?
      ensures AllJoined(cells, wormholePairs) && |wormholePairs| <= numWormholes
    {
      var allPositions := Within(CENTER, radius);
      PlaceTerrain(allPositions, rolls, damage, d);
      WithinFillsDisc(radius, cells.Keys);
      TriangleInequality(CENTER, CENTER, CENTER);
      PlaceWormholes(allPositions, numWormholes, farShuffle);
      ghost var joined := cells;
      PlaceHideouts(allPositions, edgeShuffle);
      KeptPairsStayJoined(joined, cells, wormholePairs);
    }

    /** One cell for every position, by its roll; the centre is always a station. */
    method PlaceTerrain(allPositions: seq<Position>, rolls: Position -> real, damage: Position -> int, d: Densities)
      requires cells == map[]
      requires forall p :: 5 <= damage(p) <= 15
      modifies this`cells
      ensures cells == map p | p in allPositions :: Rolled(p, rolls(p), damage(p), d)
      ensures forall p :: p in cells ==> PlaceableCell(cells[p]) && !cells[p].terrain.Wormhole?
    {
      for i := 0 to |allPositions|
        invariant cells == map p | p in allPositions[..i] :: Rolled(p, rolls(p), damage(p), d)
      {
        var pos := allPositions[i];
        cells := cells[pos := Rolled(pos, rolls(pos), damage(pos), d)];
        assert allPositions[..i + 1] == allPositions[..i] + [pos];
      }
      assert allPositions[..|allPositions|] == allPositions;
    }

    /** Joins the first shuffled far empty cells two by two, as many pairs as asked for or as there are,
        lists the pairs, and changes no other cell. */
    method PlaceWormholes(allPositions: seq<Position>, numWormholes: nat, shuffle: seq<Position> -> seq<Position>)
      requires NoDuplicates(allPositions) && cells.Keys == (set p | p in allPositions)
      requires View().Generated() && wormholePairs == []
      requires forall s :: multiset(shuffle(s)) == multiset(s)
      modifies this`cells, this`wormholePairs
      ensures View().Generated()
      ensures var order := shuffle(EmptyCells(old(cells), allPositions, 3));
              var pairs := if numWormholes < |order| / 2 then numWormholes else |order| / 2;
        Edited(old(cells), cells, order, 2 * pairs, WormholeEnd(order)) && wormholePairs == PairUp(order, pairs)
      ensures AllJoined(cells, wormholePairs) && |wormholePairs| <= numWormholes
      ensures FullCellsKept(old(cells), cells)
    {
      var order := shuffle(EmptyCells(cells, allPositions, 3));
      ShuffledEmptyCells(cells, allPositions, 3, order);
      var pairs := if numWormholes < |order| / 2 then numWormholes else |order| / 2;
      ghost var before := cells;
      JoinPairs(order, pairs);
      PairsAreJoined(before, cells, order, pairs);
      EditsKeepFullCells(before, cells, order, 2 * pairs, WormholeEnd(order));
    }

    method JoinPairs(order: seq<Position>, pairs: nat)
      requires View().Generated() && wormholePairs == []
      requires NoDuplicates(order) && AllEmpty(cells, order) && 2 * pairs <= |order|
      modifies this`cells, this`wormholePairs
      ensures View().Generated() && wormholePairs == PairUp(order, pairs)
      ensures Edited(old(cells), cells, order, 2 * pairs, WormholeEnd(order))
    {
      ghost var before := cells;
      for i := 0 to pairs
        invariant View().Generated() && wormholePairs == PairUp(order, i)
        invariant Edited(before, cells, order, 2 * i, WormholeEnd(order))
      {
        var a, b := order[2 * i], order[2 * i + 1];
        JoinOneMore(radius, before, cells, order, i);
        cells := LinkWormhole(cells, a, b);
        wormholePairs := wormholePairs + [(a, b)];
      }
    }

    /** Turns the first three shuffled outlying empty cells into pirate lairs and the next three into
        derelicts, as far as there are any, and changes no other cell. */
    method PlaceHideouts(allPositions: seq<Position>, shuffle: seq<Position> -> seq<Position>)
      requires NoDuplicates(allPositions) && cells.Keys == (set p | p in allPositions)
      requires View().Generated()
      requires forall s :: multiset(shuffle(s)) == multiset(s)
      modifies this`cells
      ensures View().Generated()
      ensures var order := shuffle(EmptyCells(old(cells), allPositions, 7 * radius / 10));
        && Edited(old(cells), cells, order, if |order| < 6 then |order| else 6, Hideout())
        && forall k :: 0 <= k < |order| && k < 6 ==>
             order[k] in cells && cells[order[k]].terrain == if k < 3 then PirateLair else Derelict
      ensures FullCellsKept(old(cells), cells)
    {
      ghost var before := cells;
      // radius * 0.7 as a strict lower bound on an integer distance
      var order := shuffle(EmptyCells(cells, allPositions, 7 * radius / 10));
      ShuffledEmptyCells(cells, allPositions, 7 * radius / 10, order);
      var hideouts := if |order| < 6 then |order| else 6;
      for i := 0 to hideouts
        invariant View().Generated()
        invariant Edited(before, cells, order, i, Hideout())
      {
        var terrain := if i < 3 then PirateLair else Derelict;
        EditOneMore(before, cells, order, i, Hideout());
        HideoutKeepsGenerated(radius, cells, order[i], terrain);
        cells := cells[order[i] := cells[order[i]].(terrain := terrain)];
      }
      EditsKeepFullCells(before, cells, order, hideouts, Hideout());
      forall k | 0 <= k < hideouts
        ensures order[k] in cells && cells[order[k]].terrain == if k < 3 then PirateLair else Derelict
      {
        assert EditedAt(before, cells, order, k, Hideout());
      }
    }
  }

  // ---- What generation changes ----

  /** The chances of each kind of terrain, in the order the roll is compared with their sums. */
  datatype Densities = Densities(system: real, nebula: real, asteroid: real, anomaly: real)

  function Rolled(pos: Position, roll: real, damage: int, d: Densities): TerrainCell {
    if pos == CENTER then TerrainCell(SpaceStation)
    else if roll < d.system then TerrainCell(StarSystem)
    else if roll < d.system + d.nebula then TerrainCell(Nebula, fuelMultiplier := 20)
    else if roll < d.system + d.nebula + d.asteroid then TerrainCell(AsteroidField, hazardDamage := damage)
    else if roll < d.system + d.nebula + d.asteroid + d.anomaly then TerrainCell(Anomaly)
    else TerrainCell(Empty)
  }

  /** Off the centre, each kind of terrain has the rolls of an interval as long as its density: star systems first,
      then nebulae, asteroid fields and anomalies; the rest of the rolls leave the cell empty. */
  lemma RolledByIntervals(pos: Position, roll: real, damage: int, d: Densities)
    requires d.system >= 0.0 && d.nebula >= 0.0 && d.asteroid >= 0.0 && d.anomaly >= 0.0
    requires pos != CENTER && roll >= 0.0
    ensures var t := Rolled(pos, roll, damage, d).terrain;
      && (t.StarSystem? <==> InInterval(roll, 0.0, d.system))
      && (t.Nebula? <==> InInterval(roll, d.system, d.nebula))
      && (t.AsteroidField? <==> InInterval(roll, d.system + d.nebula, d.asteroid))
      && (t.Anomaly? <==> InInterval(roll, d.system + d.nebula + d.asteroid, d.anomaly))
      && (t.Empty? <==> roll >= d.system + d.nebula + d.asteroid + d.anomaly)
    ensures Rolled(CENTER, roll, damage, d).terrain.SpaceStation?
    ensures Rolled(pos, roll, damage, d).terrain.AsteroidField? ==> Rolled(pos, roll, damage, d).hazardDamage == damage
  {
  }

  predicate InInterval(x: real, from: real, length: real) {
    from <= x < from + length
  }

  /** The first n cells of the order were edited, each according to its place; no other cell changed. */
  ghost predicate Edited(before: Cells, after: Cells,
                         order: seq<Position>, n: nat, edit: (nat, TerrainCell) -> TerrainCell)
    requires n <= |order|
  {
    && after.Keys == before.Keys
    && (forall k {:trigger EditedAt(before, after, order, k, edit)} ::
          0 <= k < n ==> EditedAt(before, after, order, k, edit))
    && (forall p :: p in before && p !in order[..n] ==> after[p] == before[p])
  }

  predicate EditedAt(before: Cells, after: Cells,
                     order: seq<Position>, k: nat, edit: (nat, TerrainCell) -> TerrainCell)
    requires k < |order|
  {
    order[k] in before && order[k] in after && after[order[k]] == edit(k, before[order[k]])
  }

  lemma EditOneMore(before: Cells, after: Cells,
                    order: seq<Position>, n: nat, edit: (nat, TerrainCell) -> TerrainCell)
    requires n < |order| && Edited(before, after, order, n, edit)
    requires NoDuplicates(order) && order[n] in before
    ensures after[order[n]] == before[order[n]]
    ensures Edited(before, after[order[n] := edit(n, before[order[n]])], order, n + 1, edit)
  {
    assert order[n] !in order[..n];
    assert order[..n + 1] == order[..n] + [order[n]];
    var next := after[order[n] := edit(n, before[order[n]])];
    forall k | 0 <= k < n + 1
      ensures EditedAt(before, next, order, k, edit)
    {
      if k < n {
        assert EditedAt(before, after, order, k, edit);
      }
    }
  }

  /** Cells at places 2i and 2i + 1 of the order become the two ends of one wormhole. */
  function Mate(k: nat): nat {
    if k % 2 == 0 then k + 1 else k - 1
  }

  function WormholeEnd(order: seq<Position>): (nat, TerrainCell) -> TerrainCell {
    (k: nat, c: TerrainCell) =>
      if Mate(k) < |order| then c.(terrain := Wormhole, wormholeTarget := Some(order[Mate(k)])) else c
  }

  function Hideout(): (nat, TerrainCell) -> TerrainCell {
    (k: nat, c: TerrainCell) => c.(terrain := if k < 3 then PirateLair else Derelict)
  }

  function PairUp(order: seq<Position>, n: nat): (pairs: seq<(Position, Position)>)
    requires 2 * n <= |order|
    ensures |pairs| == n && forall i :: 0 <= i < n ==> pairs[i] == (order[2 * i], order[2 * i + 1])
  {
    if n == 0 then [] else PairUp(order, n - 1) + [(order[2 * n - 2], order[2 * n - 1])]
  }

  predicate Joined(cells: Cells, pair: (Position, Position)) {
    && pair.0 in cells && pair.1 in cells
    && cells[pair.0].terrain.Wormhole? && cells[pair.0].wormholeTarget == Some(pair.1)
    && cells[pair.1].terrain.Wormhole? && cells[pair.1].wormholeTarget == Some(pair.0)
  }

  lemma Mates(i: nat)
    ensures Mate(2 * i) == 2 * i + 1 && Mate(2 * i + 1) == 2 * i
  {
  }

  predicate AllJoined(cells: Cells, pairs: seq<(Position, Position)>) {
    forall i :: 0 <= i < |pairs| ==> Joined(cells, pairs[i])
  }

  /** Cells that were not empty stay as they were. */
  ghost predicate FullCellsKept(before: Cells, after: Cells) {
    forall p :: p in before && !before[p].terrain.Empty? ==> p in after && after[p] == before[p]
  }

  predicate AllEmpty(cells: Cells, order: seq<Position>) {
    forall p :: p in order ==> p in cells && cells[p].terrain.Empty?
  }

  lemma KeptPairsStayJoined(before: Cells, after: Cells,
                            pairs: seq<(Position, Position)>)
    requires AllJoined(before, pairs) && FullCellsKept(before, after)
    ensures AllJoined(after, pairs)
  {
  }

  lemma ShuffledEmptyCells(cells: Cells, positions: seq<Position>, beyond: int, order: seq<Position>)
    requires NoDuplicates(positions) && forall p :: p in positions ==> p in cells
    requires multiset(order) == multiset(EmptyCells(cells, positions, beyond))
    ensures NoDuplicates(order) && AllEmpty(cells, order)
  {
    EmptyCellsAreEmpty(cells, positions, beyond);
    ShuffleKeepsNoDuplicates(EmptyCells(cells, positions, beyond), order);
  }

  lemma EditsKeepFullCells(before: Cells, after: Cells,
                           order: seq<Position>, n: nat, edit: (nat, TerrainCell) -> TerrainCell)
    requires n <= |order| && Edited(before, after, order, n, edit) && AllEmpty(before, order)
    ensures FullCellsKept(before, after)
  {
  }

  lemma LinkIsEdited(before: Cells, cells: Cells, order: seq<Position>, i: nat)
    requires 2 * i + 1 < |order| && NoDuplicates(order) && forall p :: p in order ==> p in before
    requires Edited(before, cells, order, 2 * i, WormholeEnd(order))
    ensures var a, b := order[2 * i], order[2 * i + 1];
      && a in cells && b in cells && a != b && cells[a] == before[a] && cells[b] == before[b]
      && Edited(before, LinkWormhole(cells, a, b), order, 2 * i + 2, WormholeEnd(order))
  {
    var k := 2 * i;
    var a, b, edit := order[k], order[k + 1], WormholeEnd(order);
    Mates(i);
    EditOneMore(before, cells, order, k, edit);
    var half := cells[a := edit(k, before[a])];
    EditOneMore(before, half, order, k + 1, edit);
    assert LinkWormhole(cells, a, b) == half[b := edit(k + 1, before[b])];
  }

  lemma JoinOneMore(radius: int, before: Cells, cells: Cells,
                    order: seq<Position>, i: nat)
    requires NoDuplicates(order) && AllEmpty(before, order) && 2 * i + 1 < |order|
    requires Chart(radius, cells).Generated() && Edited(before, cells, order, 2 * i, WormholeEnd(order))
    ensures var a, b := order[2 * i], order[2 * i + 1];
      && a in cells && b in cells && a != b
      && Chart(radius, LinkWormhole(cells, a, b)).Generated()
      && Edited(before, LinkWormhole(cells, a, b), order, 2 * (i + 1), WormholeEnd(order))
      && PairUp(order, i + 1) == PairUp(order, i) + [(a, b)]
  {
    LinkIsEdited(before, cells, order, i);
    LinkKeepsGenerated(radius, cells, order[2 * i], order[2 * i + 1]);
  }

  lemma PairIsJoined(before: Cells, cells: Cells, order: seq<Position>, n: nat, i: nat)
    requires i < n && 2 * n <= |order| && Edited(before, cells, order, 2 * n, WormholeEnd(order))
    ensures Joined(cells, (order[2 * i], order[2 * i + 1]))
  {
    Mates(i);
    assert EditedAt(before, cells, order, 2 * i, WormholeEnd(order));
    assert EditedAt(before, cells, order, 2 * i + 1, WormholeEnd(order));
  }

  lemma PairsAreJoined(before: Cells, cells: Cells, order: seq<Position>, n: nat)
    requires 2 * n <= |order| && Edited(before, cells, order, 2 * n, WormholeEnd(order))
    ensures AllJoined(cells, PairUp(order, n))
  {
    forall i | 0 <= i < n
      ensures Joined(cells, PairUp(order, n)[i])
    {
      PairIsJoined(before, cells, order, n, i);
    }
  }

  lemma HideoutKeepsGenerated(radius: int, cells: Cells, at: Position, terrain: Terrain)
    requires Chart(radius, cells).Generated()
    requires at in cells && cells[at].terrain.Empty? && (terrain.PirateLair? || terrain.Derelict?)
    ensures Chart(radius, cells[at := cells[at].(terrain := terrain)]).Generated()
  {
    var cell := cells[at].(terrain := terrain);
    var after := cells[at := cell];
    forall p | p in after && after[p].terrain.Wormhole?
      ensures PairedWormhole(after, p)
    {
      WormholeSurvives(cells, at, cell, p);
    }
    assert after.Keys == cells.Keys;
    assert forall p :: p in after ==> PlaceableCell(after[p]);
  }

  lemma WormholeSurvives(cells: Cells, at: Position, cell: TerrainCell, p: Position)
    requires at in cells && !cells[at].terrain.Wormhole? && !cell.terrain.Wormhole?
    requires p in cells && p != at && PairedWormhole(cells, p)
    ensures PairedWormhole(cells[at := cell], p)
  {
  }

  function Seen(visibility: map<string, set<Position>>, playerId: string): set<Position> {
    if playerId in visibility then visibility[playerId] else {}
  }

  lemma WithinFillsDisc(radius: int, positions: set<Position>)
    requires positions == set p | p in WithinCells(CENTER, radius)
    ensures FullDisc(radius, positions)
  {
    WithinIsExactlyTheBall(CENTER, Max(radius, -1));
    assert WithinCells(CENTER, Max(radius, -1)) == WithinCells(CENTER, radius);
    forall p
      ensures p in positions <==> p.DistanceTo(CENTER) <= radius
    {
      TriangleInequality(p, CENTER, p);
    }
  }

  function Selected(positions: seq<Position>, keep: Position -> bool): set<Position> {
    set p | p in positions && keep(p)
  }

  lemma SelectedOneMore(positions: seq<Position>, i: nat, keep: Position -> bool)
    requires i < |positions|
    ensures Selected(positions[..i + 1], keep)
         == Selected(positions[..i], keep) + (if keep(positions[i]) then {positions[i]} else {})
  {
  }

  function InDisc(radius: int): Position -> bool {
    (p: Position) => p.DistanceTo(CENTER) <= radius
  }

  function InBoundsOf(radius: int, positions: seq<Position>): set<Position> {
    Selected(positions, InDisc(radius))
  }

  /** The in-bounds cells within sensorRadius of pos. */
  function InBoundsBall(radius: int, pos: Position, sensorRadius: int): set<Position> {
    InBoundsOf(radius, WithinCells(pos, sensorRadius))
  }

  lemma InBoundsBallMembers(radius: int, pos: Position, sensorRadius: int, p: Position)
    ensures p in InBoundsBall(radius, pos, sensorRadius) <==>
            pos.DistanceTo(p) <= sensorRadius && p.DistanceTo(CENTER) <= radius
  {
    WithinIsExactlyTheBall(pos, Max(sensorRadius, -1));
    assert WithinCells(pos, Max(sensorRadius, -1)) == WithinCells(pos, sensorRadius);
  }

  lemma ShuffleKeepsNoDuplicates(s: seq<Position>, t: seq<Position>)
    requires NoDuplicates(s) && multiset(s) == multiset(t)
    ensures NoDuplicates(t)
    ensures forall p :: p in t <==> p in s
  {
    forall p
      ensures p in t <==> p in s
    {
      assert p in multiset(t) <==> p in multiset(s);
    }
    forall i, j | 0 <= i < j < |t|
      ensures t[i] != t[j]
    {
      if t[i] == t[j] {
        assert t == t[..i] + [t[i]] + t[i + 1..j] + [t[j]] + t[j + 1..];
        assert multiset(t)[t[i]] >= 2;
        CountOnce(s, t[i]);
      }
    }
  }

  lemma {:induction false} CountOnce(s: seq<Position>, p: Position)
    requires NoDuplicates(s)
    ensures multiset(s)[p] <= 1
  {
    if s != [] {
      assert s == [s[0]] + s[1..];
      CountOnce(s[1..], p);
      if s[0] == p {
        assert p !in s[1..];
      }
    }
  }
}
