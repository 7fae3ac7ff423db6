/** What a jump costs and does, as functions of the ship, the map and the draws
    (_calculate_fuel_cost, travel, _process_cell and the encounters, caravaneer/travel.py). */
module Voyages {
  import opened Arith
  import opened Hex
  import opened HexLine
  import opened Galaxy
  import opened Cargo
  import opened Ships

  // ---- Fuel ----

  /** One cell's share: int(base * multiplier / max(1, base)), the multiplier in tenths. */
  function CellFuel(base: nat, multiplier: int): int
    requires multiplier >= 0
  {
    base * multiplier / (10 * Max(1, base))
  }

  ghost predicate ChargeableChart(g: Chart) {
    forall p :: p in g.cells ==> g.cells[p].fuelMultiplier >= 0
  }

  function CellsFuel(g: Chart, base: nat, cells: seq<Position>): int
    requires ChargeableChart(g)
  {
    if cells == [] then 0 else
      CellsFuel(g, base, cells[..|cells| - 1])
      + (var p := cells[|cells| - 1]; if p in g.cells then CellFuel(base, g.cells[p].fuelMultiplier) else 0)
  }

  /** The fuel a path costs: every mapped cell entered, and at least 1. */
  function FuelCost(g: Chart, path: seq<Position>): int
    requires ChargeableChart(g) && path != []
  {
    Max(1, CellsFuel(g, |path| - 1, path[1..]))
  }

  /** The loop of _calculate_fuel_cost. */
  method CalculateFuelCost(g: Chart, path: seq<Position>) returns (cost: int)
    requires ChargeableChart(g) && path != []
    ensures cost == FuelCost(g, path)
  {
    var baseCost := |path| - 1;
    var total := 0;
    for i := 1 to |path|
      invariant total == CellsFuel(g, baseCost, path[1..i])
    {
      assert path[1..i + 1][..i - 1] == path[1..i];
      if path[i] in g.cells {
        total := total + CellFuel(baseCost, g.cells[path[i]].fuelMultiplier);
      }
    }
    assert path[1..|path|] == path[1..];
    cost := Max(1, total);
  }

  function NebulaCells(g: Chart, cells: seq<Position>): nat {
    if cells == [] then 0 else
      NebulaCells(g, cells[..|cells| - 1])
      + (var p := cells[|cells| - 1]; if p in g.cells && g.cells[p].terrain.Nebula? then 1 else 0)
  }

  /** The scaling cancels: a cell costs its multiplier, truncated. */
  lemma CellFuelIsMultiplier(base: nat, multiplier: int)
    requires base >= 1 && multiplier >= 0
    ensures CellFuel(base, multiplier) == multiplier / 10
  {
    var whole, rest := multiplier / 10, multiplier % 10;
    assert base * multiplier == base * (10 * whole) + base * rest;
    assert base * (10 * whole) == whole * (10 * base);
    MulMono(0, rest, base);
    MulMono(rest, 9, base);
    DivIs(base * multiplier, 10 * base, whole);
  }

  /** What the multipliers of the mapped cells add up to, each truncated. */
  function Multipliers(g: Chart, cells: seq<Position>): int {
    if cells == [] then 0 else
      Multipliers(g, cells[..|cells| - 1])
      + (var p := cells[|cells| - 1]; if p in g.cells then g.cells[p].fuelMultiplier / 10 else 0)
  }

  lemma {:induction false} CellsFuelIsMultipliers(g: Chart, base: nat, cells: seq<Position>)
    requires ChargeableChart(g) && base >= 1
    ensures CellsFuel(g, base, cells) == Multipliers(g, cells)
    decreases |cells|
  {
    if cells != [] {
      var n := |cells| - 1;
      CellsFuelIsMultipliers(g, base, cells[..n]);
      if cells[n] in g.cells {
        CellFuelIsMultiplier(base, g.cells[cells[n]].fuelMultiplier);
      }
    }
  }

  /** A path costs what the multipliers of the cells it enters add up to, but never nothing. */
  lemma FuelCostIsTheSum(g: Chart, path: seq<Position>)
    requires ChargeableChart(g) && |path| >= 2
    ensures var sum := Multipliers(g, path[1..]); FuelCost(g, path) == if sum >= 1 then sum else 1
  {
    CellsFuelIsMultipliers(g, |path| - 1, path[1..]);
  }

  lemma {:induction false} GeneratedCellsFuel(g: Chart, base: nat, cells: seq<Position>)
    requires g.Generated() && ChargeableChart(g) && base >= 1
    requires forall i :: 0 <= i < |cells| ==> cells[i] in g.cells
    ensures CellsFuel(g, base, cells) == |cells| + NebulaCells(g, cells)
    ensures NebulaCells(g, cells) <= |cells|
    decreases |cells|
  {
    if cells != [] {
      var n := |cells| - 1;
      GeneratedCellsFuel(g, base, cells[..n]);
      assert PlaceableCell(g.cells[cells[n]]);
      CellFuelIsMultiplier(base, g.cells[cells[n]].fuelMultiplier);
    }
  }

  lemma GeneratedIsChargeable(g: Chart)
    requires g.Generated()
    ensures ChargeableChart(g)
  {
    forall p | p in g.cells
      ensures g.cells[p].fuelMultiplier >= 0
    {
      assert PlaceableCell(g.cells[p]);
    }
  }

  /** On a generated map a jump between two in-bounds cells costs its distance plus the nebula cells
      it enters, so between once and twice the distance. */
  lemma JumpCost(g: Chart, a: Position, b: Position)
    requires g.Generated() && ChargeableChart(g) && g.InBounds(a) && g.InBounds(b) && a != b
    ensures FuelCost(g, Line(a, b)) == a.DistanceTo(b) + NebulaCells(g, Line(a, b)[1..])
    ensures a.DistanceTo(b) <= FuelCost(g, Line(a, b)) <= 2 * a.DistanceTo(b)
  {
    var line := Line(a, b);
    LineStaysOnMap(g, a, b);
    GeneratedCellsFuel(g, a.DistanceTo(b), line[1..]);
  }

  lemma LineStaysOnMap(g: Chart, a: Position, b: Position)
    requires g.Generated() && g.InBounds(a) && g.InBounds(b)
    ensures forall i :: 0 <= i < |Line(a, b)| ==> Line(a, b)[i] in g.cells
  {
    TriangleInequality(a, CENTER, a);
    TriangleInequality(b, CENTER, b);
    BallsAreConvex(CENTER, g.radius, a, b);
    forall i | 0 <= i < |Line(a, b)|
      ensures Line(a, b)[i] in g.cells
    {
      var p := Line(a, b)[i];
      assert p in Line(a, b);
      TriangleInequality(p, CENTER, p);
      assert p in g.cells.Keys;
    }
  }

  // ---- Encounters ----

  /** The draws one cell can need: a roll in [0, 1), a pirate's power and bounty, salvaged credits,
      found cargo, and which stacks thieves pick. */
  datatype Omen = Omen(roll: real, pirate: int, bounty: int, salvage: int, good: Good, amount: int, thefts: seq<nat>)

  predicate Plausible(d: Omen) {
    && 10 <= d.pirate <= 30 && 100 <= d.bounty <= 500 && 200 <= d.salvage <= 1000 && 1 <= d.amount <= 3
    && |d.thefts| <= 3
  }

  /** Whole stacks go, one per theft, as long as any are left. */
  function Robbed(stacks: seq<Stack>, thefts: seq<nat>): seq<Stack> {
    if thefts == [] || stacks == [] then stacks
    else Robbed(PopAt(stacks, thefts[0] % |stacks|), thefts[1..])
  }

  function Asteroids(v: Vitals, damage: int): Vitals {
    var absorbed := if v.shields > 0 then Min(v.shields, damage / 2) else 0;
    v.(shields := v.shields - absorbed, hull := v.hull - (damage - absorbed))
  }

  function Pirates(rig: Rig, v: Vitals, d: Omen): Vitals {
    if rig.attack >= d.pirate then v.(credits := v.credits + d.bounty)
    else var hit := TakeDamage(v, d.pirate - rig.attack); hit.(stacks := Robbed(hit.stacks, d.thefts))
  }

  function DerelictFound(rig: Rig, v: Vitals, d: Omen): Vitals {
    if d.roll < 0.4 then v.(credits := v.credits + d.salvage)
    else if d.roll < 0.7 then Refuel(rig, v, 30)
    else if d.roll < 0.9 then AddCargo(rig, v, d.good, d.amount, 0)
    else TakeDamage(v, 5)
  }

  function AnomalyMet(rig: Rig, v: Vitals, d: Omen): Vitals {
    if d.roll < 0.3 then Refuel(rig, v, 50)
    else if d.roll < 0.5 then RechargeShields(rig, Repair(rig, v, 10), 10)
    else if d.roll < 0.7 then TakeDamage(v, 10)
    else if d.roll < 0.9 then v
    else v.(credits := v.credits + 2000)
  }

  /** Entering one mapped cell. */
  function Enter(rig: Rig, v: Vitals, cell: TerrainCell, d: Omen): Vitals {
    match cell.terrain
    case AsteroidField => Asteroids(v, cell.hazardDamage)
    case BlackHole => TakeDamage(v, 20)
    case Wormhole =>
      if cell.wormholeTarget.Some? && !rig.stabilizer && d.roll < 0.5 then TakeDamage(v, 10) else v
    case PirateLair => if d.roll < 0.6 then Pirates(rig, v, d) else v
    case Derelict => DerelictFound(rig, v, d)
    case Anomaly => AnomalyMet(rig, v, d)
    case _ => v
  }

  lemma {:induction false} RobberyKeepsSound(rig: Rig, v: Vitals, thefts: seq<nat>)
    requires Sound(rig, v)
    ensures Sound(rig, v.(stacks := Robbed(v.stacks, thefts)))
    decreases |thefts|
  {
    if thefts != [] && v.stacks != [] {
      var k := thefts[0] % |v.stacks|;
      assert Stocked(v.stacks, k);
      PopAtTidy(v.stacks, k);
      PopAtWeight(v.stacks, k, Weight);
      RobberyKeepsSound(rig, v.(stacks := PopAt(v.stacks, k)), thefts[1..]);
    }
  }

  /** Whatever a cell does, the ship stays sound, and no cell burns fuel. */
  lemma EnteringKeepsSound(rig: Rig, v: Vitals, cell: TerrainCell, d: Omen)
    requires Sound(rig, v) && Plausible(d) && cell.hazardDamage >= 0
    ensures Sound(rig, Enter(rig, v, cell, d))
    ensures Enter(rig, v, cell, d).fuel >= v.fuel
  {
    match cell.terrain
    case BlackHole => UpkeepKeepsSound(rig, v, 20);
    case Wormhole => UpkeepKeepsSound(rig, v, 10);
    case PirateLair =>
      if rig.attack < d.pirate {
        UpkeepKeepsSound(rig, v, d.pirate - rig.attack);
        RobberyKeepsSound(rig, TakeDamage(v, d.pirate - rig.attack), d.thefts);
      }
    case Derelict =>
      UpkeepKeepsSound(rig, v, 30);
      UpkeepKeepsSound(rig, v, 5);
      AddCargoKeepsSound(rig, v, d.good, d.amount, 0);
    case Anomaly =>
      UpkeepKeepsSound(rig, v, 50);
      UpkeepKeepsSound(rig, v, 10);
      UpkeepKeepsSound(rig, Repair(rig, v, 10), 10);
    case _ =>
  }

  // ---- What each cell does ----

  /** Shields and hull together lost that much, the shields first, and nothing else changed. */
  ghost predicate Hurt(v: Vitals, w: Vitals, damage: int) {
    && (v.shields - w.shields) + (v.hull - w.hull) == damage
    && 0 <= w.shields <= v.shields && w.hull <= v.hull && (w.hull < v.hull ==> w.shields == 0)
    && w == v.(shields := w.shields, hull := w.hull)
  }

  /** An asteroid hit spends at most half of it, rounded down, on the shields, and the rest on the hull: the
      shields take less than that half only by running out. */
  ghost predicate Scraped(v: Vitals, w: Vitals, damage: int) {
    && (v.shields - w.shields) + (v.hull - w.hull) == damage
    && 0 <= w.shields <= v.shields && 2 * (v.shields - w.shields) <= damage
    && (2 * (v.shields - w.shields) < damage - 1 ==> w.shields == 0)
    && w == v.(shields := w.shields, hull := w.hull)
  }

  /** One lot has grown by that much, and no other lot and nothing else has changed. */
  ghost predicate Loaded(v: Vitals, w: Vitals, good: Good, price: int, amount: int) {
    && w == v.(stacks := w.stacks)
    && forall g, p ::
         Lot(w.stacks, g, p) == Lot(v.stacks, g, p) + (if g == good && p == price then amount else 0)
  }

  /** Pirates beaten pay their bounty and take nothing; others do the difference in damage and take whole
      stacks, as many as the thieves pick or as there are. */
  ghost predicate Attacked(attack: int, v: Vitals, d: Omen, w: Vitals) {
    if attack >= d.pirate then w == v.(credits := v.credits + d.bounty)
    else
      && Hurt(v.(stacks := w.stacks), w, d.pirate - attack)
      && |w.stacks| == (if |d.thefts| < |v.stacks| then |v.stacks| - |d.thefts| else 0)
      && multiset(w.stacks) <= multiset(v.stacks)
  }

  ghost predicate Salvaged(rig: Rig, v: Vitals, d: Omen, w: Vitals) {
    && (d.roll < 0.4 ==> w == v.(credits := v.credits + d.salvage))
    && (0.4 <= d.roll < 0.7 ==> w == v.(fuel := w.fuel) && Topped(v.fuel, w.fuel, 30, rig.maxFuel))
    && (0.7 <= d.roll < 0.9 ==>
          if UsedWeight(v.stacks) + Weight(d.good) * d.amount <= 10 * rig.maxCargo
          then Loaded(v, w, d.good, 0, d.amount) else w == v)
    && (0.9 <= d.roll ==> Hurt(v, w, 5))
  }

  ghost predicate Probed(rig: Rig, v: Vitals, d: Omen, w: Vitals) {
    && (d.roll < 0.3 ==> w == v.(fuel := w.fuel) && Topped(v.fuel, w.fuel, 50, rig.maxFuel))
    && (0.3 <= d.roll < 0.5 ==>
          && w == v.(hull := w.hull, shields := w.shields)
          && Topped(v.hull, w.hull, 10, rig.maxHull) && Topped(v.shields, w.shields, 10, rig.maxShields))
    && (0.5 <= d.roll < 0.7 ==> Hurt(v, w, 10))
    && (0.7 <= d.roll < 0.9 ==> w == v)
    && (0.9 <= d.roll ==> w == v.(credits := v.credits + 2000))
  }

  /** What entering a cell may do, terrain by terrain. */
  ghost predicate Befalls(rig: Rig, v: Vitals, cell: TerrainCell, d: Omen, w: Vitals) {
    match cell.terrain
    case AsteroidField => Scraped(v, w, cell.hazardDamage)
    case BlackHole => Hurt(v, w, 20)
    case Wormhole =>
      if cell.wormholeTarget.None? || rig.stabilizer || d.roll >= 0.5 then w == v else Hurt(v, w, 10)
    case PirateLair => if d.roll >= 0.6 then w == v else Attacked(rig.attack, v, d, w)
    case Derelict => Salvaged(rig, v, d, w)
    case Anomaly => Probed(rig, v, d, w)
    case _ => w == v
  }

  lemma {:induction false} RobberyTakesStacks(stacks: seq<Stack>, thefts: seq<nat>)
    ensures |Robbed(stacks, thefts)| == if |thefts| < |stacks| then |stacks| - |thefts| else 0
    ensures multiset(Robbed(stacks, thefts)) <= multiset(stacks)
    decreases |thefts|
  {
    if thefts != [] && stacks != [] {
      var k := thefts[0] % |stacks|;
      RobberyTakesStacks(PopAt(stacks, k), thefts[1..]);
      assert stacks == stacks[..k] + [stacks[k]] + stacks[k + 1..];
    }
  }

  /** A thief takes the very stack it picks. */
  lemma ThievesTakeTheirPick(stacks: seq<Stack>, k: nat)
    requires k < |stacks|
    ensures Robbed(stacks, [k]) == stacks[..k] + stacks[k + 1..]
  {
    var picks := [k];
    assert picks[1..] == [] && k % |stacks| == k;
    assert Robbed(stacks, picks) == Robbed(PopAt(stacks, k), picks[1..]);
  }

  lemma LoadingLoads(v: Vitals, g: Good, amount: int, price: int)
    ensures Loaded(v, v.(stacks := AddTo(v.stacks, g, amount, price)), g, price, amount)
  {
    forall other, paid
      ensures Lot(AddTo(v.stacks, g, amount, price), other, paid)
           == Lot(v.stacks, other, paid) + (if other == g && paid == price then amount else 0)
    {
      AddToLot(v.stacks, g, amount, price, other, paid);
    }
  }

  /** Every cell does exactly what its terrain and the roll say. */
  lemma EnteringDoes(rig: Rig, v: Vitals, cell: TerrainCell, d: Omen)
    requires v.shields >= 0 && cell.hazardDamage >= 0
    ensures Befalls(rig, v, cell, d, Enter(rig, v, cell, d))
  {
    match cell.terrain
    case AsteroidField => ScrapingPast(v, cell.hazardDamage);
    case BlackHole => Hurting(v, 20);
    case Wormhole => Hurting(v, 10);
    case PirateLair => MeetingPirates(rig, v, d);
    case Derelict => Salvaging(rig, v, d);
    case Anomaly => Probing(rig, v, d);
    case _ =>
  }

  lemma Hurting(v: Vitals, damage: nat)
    requires v.shields >= 0
    ensures Hurt(v, TakeDamage(v, damage), damage)
  {
  }

  lemma ScrapingPast(v: Vitals, damage: nat)
    requires v.shields >= 0
    ensures Scraped(v, Asteroids(v, damage), damage)
  {
  }

  lemma Salvaging(rig: Rig, v: Vitals, d: Omen)
    requires v.shields >= 0
    ensures Salvaged(rig, v, d, DerelictFound(rig, v, d))
  {
    LoadingLoads(v, d.good, d.amount, 0);
    Hurting(v, 5);
  }

  lemma Probing(rig: Rig, v: Vitals, d: Omen)
    requires v.shields >= 0
    ensures Probed(rig, v, d, AnomalyMet(rig, v, d))
  {
    Hurting(v, 10);
  }

  lemma MeetingPirates(rig: Rig, v: Vitals, d: Omen)
    requires v.shields >= 0
    ensures Attacked(rig.attack, v, d, Pirates(rig, v, d))
  {
    RobberyTakesStacks(v.stacks, d.thefts);
    if rig.attack < d.pirate {
      Hurting(v, d.pirate - rig.attack);
    }
  }

  // ---- What a flight costs ----

  /** The damage a cell's hazard stands for. */
  function DamageOf(rig: Rig, cell: TerrainCell, d: Omen): int {
    match cell.terrain
    case AsteroidField => cell.hazardDamage
    case BlackHole => 20
    case Wormhole => if cell.wormholeTarget.None? || rig.stabilizer || d.roll >= 0.5 then 0 else 10
    case PirateLair => if d.roll >= 0.6 || rig.attack >= d.pirate then 0 else d.pirate - rig.attack
    case Derelict => if d.roll >= 0.9 then 5 else 0
    case Anomaly => if 0.5 <= d.roll < 0.7 then 10 else 0
    case _ => 0
  }

  /** The credits a cell pays. */
  function PayOf(rig: Rig, cell: TerrainCell, d: Omen): int {
    match cell.terrain
    case PirateLair => if d.roll < 0.6 && rig.attack >= d.pirate then d.bounty else 0
    case Derelict => if d.roll < 0.4 then d.salvage else 0
    case Anomaly => if d.roll >= 0.9 then 2000 else 0
    case _ => 0
  }

  /** An anomaly that repairs the ship. */
  predicate Mends(cell: TerrainCell, d: Omen) {
    cell.terrain.Anomaly? && 0.3 <= d.roll < 0.5
  }

  /** Sums over the mapped cells of a path. */
  function Toll(g: Chart, cells: seq<Position>, omens: seq<Omen>, toll: (TerrainCell, Omen) -> int): int
    requires |omens| == |cells|
  {
    if cells == [] then 0 else
      var n := |cells| - 1;
      Toll(g, cells[..n], omens[..n], toll) + if cells[n] in g.cells then toll(g.cells[cells[n]], omens[n]) else 0
  }

  function Damages(rig: Rig): (TerrainCell, Omen) -> int {
    (cell: TerrainCell, d: Omen) => DamageOf(rig, cell, d)
  }

  function Pays(rig: Rig): (TerrainCell, Omen) -> int {
    (cell: TerrainCell, d: Omen) => PayOf(rig, cell, d)
  }

  lemma EnteringCosts(rig: Rig, v: Vitals, cell: TerrainCell, d: Omen)
    requires v.shields >= 0 && cell.hazardDamage >= 0 && rig.maxShields >= 0
    ensures var w := Enter(rig, v, cell, d);
      && w.credits == v.credits + PayOf(rig, cell, d)
      && (!Mends(cell, d) ==> (v.shields - w.shields) + (v.hull - w.hull) == DamageOf(rig, cell, d))
      && w.shields >= 0
  {
    EnteringDoes(rig, v, cell, d);
  }

  /** A flight so far, and whether the ship was found destroyed after some mapped cell. */
  datatype Flight = Flight(v: Vitals, down: bool)

  /** Flying through cells in order; a destroyed ship enters nothing more. */
  function Fly(g: Chart, rig: Rig, v: Vitals, cells: seq<Position>, omens: seq<Omen>): Flight
    requires |omens| == |cells|
  {
    if cells == [] then Flight(v, false) else
      var n := |cells| - 1;
      var f := Fly(g, rig, v, cells[..n], omens[..n]);
      if f.down || cells[n] !in g.cells then f
      else var w := Enter(rig, f.v, g.cells[cells[n]], omens[n]); Flight(w, w.hull <= 0)
  }

  lemma {:induction false} FlyingKeepsSound(g: Chart, rig: Rig, v: Vitals, cells: seq<Position>, omens: seq<Omen>)
    requires |omens| == |cells| && Sound(rig, v)
    requires forall p :: p in g.cells ==> g.cells[p].hazardDamage >= 0
    requires forall i :: 0 <= i < |omens| ==> Plausible(omens[i])
    ensures Sound(rig, Fly(g, rig, v, cells, omens).v) && Fly(g, rig, v, cells, omens).v.fuel >= v.fuel
    decreases |cells|
  {
    if cells != [] {
      var n := |cells| - 1;
      FlyingKeepsSound(g, rig, v, cells[..n], omens[..n]);
      var f := Fly(g, rig, v, cells[..n], omens[..n]);
      if !f.down && cells[n] in g.cells {
        EnteringKeepsSound(rig, f.v, g.cells[cells[n]], omens[n]);
      }
    }
  }

  /** The credits earned are what the cells pay; and with no repairing anomaly among them, the shields and hull
      lost are together the sum of their damages. */
  ghost predicate AddsUp(g: Chart, rig: Rig, v: Vitals, cells: seq<Position>, omens: seq<Omen>, w: Vitals)
    requires |omens| == |cells|
  {
    && w.shields >= 0
    && w.credits == v.credits + Toll(g, cells, omens, Pays(rig))
    && (NoneMends(g, cells, omens) ==>
          (v.shields - w.shields) + (v.hull - w.hull) == Toll(g, cells, omens, Damages(rig)))
  }

  predicate NoneMends(g: Chart, cells: seq<Position>, omens: seq<Omen>)
    requires |omens| == |cells|
  {
    forall i :: 0 <= i < |cells| && cells[i] in g.cells ==> !Mends(g.cells[cells[i]], omens[i])
  }

  lemma {:induction false} FullFlightAddsUp(g: Chart, rig: Rig, v: Vitals, cells: seq<Position>, omens: seq<Omen>)
    requires |omens| == |cells| && v.shields >= 0
    requires forall p :: p in g.cells ==> g.cells[p].hazardDamage >= 0
    requires cells != [] ==> !Fly(g, rig, v, cells[..|cells| - 1], omens[..|cells| - 1]).down
    ensures AddsUp(g, rig, v, cells, omens, Fly(g, rig, v, cells, omens).v)
    decreases |cells|
  {
    if cells != [] {
      var n := |cells| - 1;
      FullFlightAddsUp(g, rig, v, cells[..n], omens[..n]);
      assert NoneMends(g, cells, omens) ==> NoneMends(g, cells[..n], omens[..n]);
      if cells[n] in g.cells {
        EnteringCosts(rig, Fly(g, rig, v, cells[..n], omens[..n]).v, g.cells[cells[n]], omens[n]);
      }
    }
  }

  /** The cells a flight enters are a first part of its path: all of it, or as far as the ship is found destroyed. */
  lemma {:induction false} FlightEnters(g: Chart, rig: Rig, v: Vitals, cells: seq<Position>, omens: seq<Omen>)
    returns (n: nat)
    requires |omens| == |cells|
    ensures n <= |cells| && Fly(g, rig, v, cells, omens) == Fly(g, rig, v, cells[..n], omens[..n])
    ensures n > 0 ==> !Fly(g, rig, v, cells[..n - 1], omens[..n - 1]).down
    ensures var f := Fly(g, rig, v, cells, omens);
      if f.down then n > 0 && cells[n - 1] in g.cells && f.v.hull <= 0 else n == |cells|
    decreases |cells|
  {
    n := |cells|;
    assert cells[..n] == cells && omens[..n] == omens;
    if n > 0 && Fly(g, rig, v, cells[..n - 1], omens[..n - 1]).down {
      var m := n - 1;
      n := FlightEnters(g, rig, v, cells[..m], omens[..m]);
      assert cells[..m][..n] == cells[..n] && omens[..m][..n] == omens[..n];
      assert cells[..m][..n - 1] == cells[..n - 1] && omens[..m][..n - 1] == omens[..n - 1];
    }
  }

  /** Whoever gets through has hull left, or has entered nothing. */
  lemma {:induction false} SurvivorsHaveHull(g: Chart, rig: Rig, v: Vitals, cells: seq<Position>, omens: seq<Omen>)
    requires |omens| == |cells| && !Fly(g, rig, v, cells, omens).down
    ensures Fly(g, rig, v, cells, omens).v.hull > 0 || forall i :: 0 <= i < |cells| ==> cells[i] !in g.cells
    decreases |cells|
  {
    if cells != [] {
      var n := |cells| - 1;
      SurvivorsHaveHull(g, rig, v, cells[..n], omens[..n]);
    }
  }

  /** What a flight adds up to, over the cells it enters. */
  lemma FlightAddsUp(g: Chart, rig: Rig, v: Vitals, cells: seq<Position>, omens: seq<Omen>) returns (n: nat)
    requires |omens| == |cells| && v.shields >= 0
    requires forall p :: p in g.cells ==> g.cells[p].hazardDamage >= 0
    ensures n <= |cells| && AddsUp(g, rig, v, cells[..n], omens[..n], Fly(g, rig, v, cells, omens).v)
    ensures var f := Fly(g, rig, v, cells, omens);
      if f.down then n > 0 && cells[n - 1] in g.cells && f.v.hull <= 0 else n == |cells|
  {
    n := FlightEnters(g, rig, v, cells, omens);
    if n > 0 {
      assert cells[..n][..n - 1] == cells[..n - 1] && omens[..n][..n - 1] == omens[..n - 1];
    }
    FullFlightAddsUp(g, rig, v, cells[..n], omens[..n]);
  }

  predicate Refuelling(t: Terrain) {
    t.Derelict? || t.Anomaly?
  }

  predicate NoneRefuel(g: Chart, cells: seq<Position>) {
    forall i :: 0 <= i < |cells| && cells[i] in g.cells ==> !Refuelling(g.cells[cells[i]].terrain)
  }

  /** Only derelicts and anomalies can change the fuel on the way. */
  lemma {:induction false} FuelOnTheWay(g: Chart, rig: Rig, v: Vitals, cells: seq<Position>, omens: seq<Omen>)
    requires |omens| == |cells|
    requires forall i :: 0 <= i < |cells| && cells[i] in g.cells ==> !Refuelling(g.cells[cells[i]].terrain)
    ensures Fly(g, rig, v, cells, omens).v.fuel == v.fuel
    decreases |cells|
  {
    if cells != [] {
      FuelOnTheWay(g, rig, v, cells[..|cells| - 1], omens[..|cells| - 1]);
    }
  }

  // ---- A whole jump ----

  datatype Trip = AlreadyThere | OutOfRange | ShortOfFuel | Lost(wreck: Vitals) | Arrived(v: Vitals)

  /** Range and fuel are checked first; the fuel is paid only on arrival. */
  function Jump(g: Chart, rig: Rig, v: Vitals, from: Position, to: Position, omens: seq<Omen>): Trip
    requires ChargeableChart(g) && |omens| == from.DistanceTo(to)
  {
    if from == to then AlreadyThere
    else if from.DistanceTo(to) > rig.jumpRange then OutOfRange
    else if v.fuel < FuelCost(g, Line(from, to)) then ShortOfFuel
    else
      var f := Fly(g, rig, v, Line(from, to)[1..], omens);
      if f.down then Lost(f.v) else Arrived(f.v.(fuel := f.v.fuel - FuelCost(g, Line(from, to))))
  }

  /** Exactly when a jump is refused, and what it adds up to: the credits are those the cells entered pay, and with
      no repairing anomaly among them the shields and hull lost are the sum of their damages. An arrival enters every
      cell of the line, a loss those up to the one that destroys the ship, and a lost ship has paid no fuel. */
  lemma JumpAddsUp(g: Chart, rig: Rig, v: Vitals, from: Position, to: Position, omens: seq<Omen>) returns (n: nat)
    requires ChargeableChart(g) && |omens| == from.DistanceTo(to) && v.shields >= 0
    requires forall p :: p in g.cells ==> g.cells[p].hazardDamage >= 0
    ensures var t, cells := Jump(g, rig, v, from, to, omens), Line(from, to)[1..];
      && (t.AlreadyThere? <==> from == to)
      && (t.OutOfRange? <==> from.DistanceTo(to) > rig.jumpRange)
      && (t.ShortOfFuel? <==>
            from != to && from.DistanceTo(to) <= rig.jumpRange && v.fuel < FuelCost(g, Line(from, to)))
      && (t.Arrived? ==> AddsUp(g, rig, v, cells, omens, t.v))
      && (t.Lost? ==>
            && 0 < n <= |cells| && cells[n - 1] in g.cells
            && AddsUp(g, rig, v, cells[..n], omens[..n], t.wreck) && t.wreck.hull <= 0
            && (NoneRefuel(g, cells) ==> t.wreck.fuel == v.fuel))
      && (t.Arrived? ==> t.v.hull > 0 || forall i :: 0 <= i < |cells| ==> cells[i] !in g.cells)
  {
    TriangleInequality(from, to, from);
    n := 0;
    if from != to {
      var cells := Line(from, to)[1..];
      n := FlightAddsUp(g, rig, v, cells, omens);
      if NoneRefuel(g, cells) {
        FuelOnTheWay(g, rig, v, cells, omens);
      }
      if n == |cells| {
        assert cells[..n] == cells && omens[..n] == omens;
      }
      if !Fly(g, rig, v, cells, omens).down {
        SurvivorsHaveHull(g, rig, v, cells, omens);
      }
    }
  }

  /** A jump keeps the ship sound, lost or arrived; arriving never costs more than the quoted fuel,
      and exactly that when no derelict or anomaly lies on the line. */
  lemma JumpKeepsSound(g: Chart, rig: Rig, v: Vitals, from: Position, to: Position, omens: seq<Omen>)
    requires ChargeableChart(g) && |omens| == from.DistanceTo(to) && Sound(rig, v)
    requires forall p :: p in g.cells ==> g.cells[p].hazardDamage >= 0
    requires forall i :: 0 <= i < |omens| ==> Plausible(omens[i])
    ensures var t := Jump(g, rig, v, from, to, omens);
      && (t.Lost? ==> Sound(rig, t.wreck))
      && (t.Arrived? ==> Sound(rig, t.v) && t.v.fuel >= v.fuel - FuelCost(g, Line(from, to)))
      && (t.Arrived? && (forall p :: p in Line(from, to)[1..] && p in g.cells ==> !Refuelling(g.cells[p].terrain)) ==>
            t.v.fuel == v.fuel - FuelCost(g, Line(from, to)))
  {
    if from != to {
      var cells := Line(from, to)[1..];
      FlyingKeepsSound(g, rig, v, cells, omens);
      if forall p :: p in cells && p in g.cells ==> !Refuelling(g.cells[p].terrain) {
        FuelOnTheWay(g, rig, v, cells, omens);
      }
    }
  }
}
