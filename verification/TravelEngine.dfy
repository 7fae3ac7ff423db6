/** Travel on ship and map objects (TravelEngine.travel and _process_cell, caravaneer/travel.py). */
module TravelEngine {
  import opened Arith
  import opened Hex
  import opened HexLine
  import opened Galaxy
  import opened Ships
  import opened Voyages

  /** Thieves take whole stacks while there are any. */
  method Rob(ship: Ship, thefts: seq<nat>)
    requires ship.Valid()
    modifies ship`hold
    ensures ship.Valid()
    ensures ship.State() == old(ship.State()).(stacks := Robbed(old(StacksOf(ship.hold)), thefts))
  {
    ghost var before := StacksOf(ship.hold);
    for i := 0 to |thefts|
      invariant ship.Valid()
      invariant Robbed(StacksOf(ship.hold), thefts[i..]) == Robbed(before, thefts)
    {
      assert thefts[i..][1..] == thefts[i + 1..];
      if |ship.hold| > 0 {
        ship.LoseStack(thefts[i] % |ship.hold|);
      }
    }
  }

  method MeetPirates(ship: Ship, d: Omen)
    requires ship.Valid()
    modifies ship`credits, ship`hull, ship`shields, ship`hold
    ensures ship.Valid() && ship.State() == Pirates(ship.Fitted(), old(ship.State()), d)
  {
    if ship.Fitted().attack >= d.pirate {
      ship.credits := ship.credits + d.bounty;
    } else {
      ship.SufferDamage(d.pirate - ship.Fitted().attack);
      Rob(ship, d.thefts);
    }
  }

  method FindDerelict(ship: Ship, d: Omen)
    requires ship.Valid() && Plausible(d)
    modifies ship`credits, ship`fuel, ship`hull, ship`shields, ship`hold, ship`items, ship.items
    ensures ship.Valid() && fresh(ship.items - old(ship.items))
    ensures ship.State() == DerelictFound(ship.Fitted(), old(ship.State()), d)
  {
    if d.roll < 0.4 {
      ship.credits := ship.credits + d.salvage;
    } else if d.roll < 0.7 {
      ship.TakeFuel(30);
    } else if d.roll < 0.9 {
      var loaded := ship.LoadCargo(d.good, d.amount, 0);
    } else {
      ship.SufferDamage(5);
    }
  }

  method MeetAnomaly(ship: Ship, d: Omen)
    modifies ship`credits, ship`fuel, ship`hull, ship`shields
    ensures ship.State() == AnomalyMet(ship.Fitted(), old(ship.State()), d)
  {
    if d.roll < 0.3 {
      ship.TakeFuel(50);
    } else if d.roll < 0.5 {
      ship.RepairHull(10);
      ship.Recharge(10);
    } else if d.roll < 0.7 {
      ship.SufferDamage(10);
    } else if d.roll < 0.9 {
      // teleports; the jump overwrites the position on arrival
    } else {
      ship.credits := ship.credits + 2000;
    }
  }

  method HitAsteroids(ship: Ship, hazard: int)
    modifies ship`hull, ship`shields
    ensures ship.State() == Asteroids(old(ship.State()), hazard)
  {
    var damage := hazard;
    if ship.shields > 0 {
      var absorbed := Min(ship.shields, damage / 2);
      ship.shields := ship.shields - absorbed;
      damage := damage - absorbed;
    }
    ship.hull := ship.hull - damage;
  }

  method ProcessCell(ship: Ship, cell: TerrainCell, d: Omen)
    requires ship.Valid() && Plausible(d)
    modifies ship`credits, ship`fuel, ship`hull, ship`shields, ship`hold, ship`items, ship.items
    ensures ship.Valid() && fresh(ship.items - old(ship.items))
    ensures ship.State() == Enter(ship.Fitted(), old(ship.State()), cell, d)
  {
    match cell.terrain {
      case AsteroidField => HitAsteroids(ship, cell.hazardDamage);
      case BlackHole => ship.SufferDamage(20);
      case Wormhole =>
        if cell.wormholeTarget.Some? && !ship.Fitted().stabilizer && d.roll < 0.5 {
          ship.SufferDamage(10);
        }
      case PirateLair =>
        if d.roll < 0.6 {
          MeetPirates(ship, d);
        }
      case Derelict => FindDerelict(ship, d);
      case Anomaly => MeetAnomaly(ship, d);
      case _ =>
    }
  }

  /** The cell loop of travel: process each mapped cell, stop at destruction. */
  method FlyThrough(ship: Ship, galaxy: GalaxyMap, cells: seq<Position>, omens: seq<Omen>) returns (down: bool)
    requires ship.Valid() && |omens| == |cells|
    requires forall i :: 0 <= i < |omens| ==> Plausible(omens[i])
    modifies ship`credits, ship`fuel, ship`hull, ship`shields, ship`hold, ship`items, ship.items
    ensures ship.Valid() && fresh(ship.items - old(ship.items))
    ensures Flight(ship.State(), down) == Fly(galaxy.View(), ship.Fitted(), old(ship.State()), cells, omens)
  {
    down := false;
    ghost var g, rig, before := galaxy.View(), ship.Fitted(), ship.State();
    var i := 0;
    while i < |cells| && !down
      invariant 0 <= i <= |cells|
      invariant ship.Valid() && fresh(ship.items - old(ship.items))
      invariant Flight(ship.State(), down) == Fly(g, rig, before, cells[..i], omens[..i])
    {
      assert cells[..i + 1][..i] == cells[..i] && omens[..i + 1][..i] == omens[..i];
      if cells[i] in galaxy.cells {
        ProcessCell(ship, galaxy.cells[cells[i]], omens[i]);
        down := ship.hull <= 0;
      }
      i := i + 1;
    }
    DownStaysDown(g, rig, before, cells, omens, i);
  }

  lemma {:induction false} DownStaysDown(g: Chart, rig: Rig, v: Vitals, cells: seq<Position>, omens: seq<Omen>, i: nat)
    requires |omens| == |cells| && i <= |cells|
    requires Fly(g, rig, v, cells[..i], omens[..i]).down || i == |cells|
    ensures Fly(g, rig, v, cells, omens) == Fly(g, rig, v, cells[..i], omens[..i])
    decreases |cells|
  {
    if i == |cells| {
      assert cells[..i] == cells && omens[..i] == omens;
    } else {
      var n := |cells| - 1;
      assert cells[..n][..i] == cells[..i] && omens[..n][..i] == omens[..i];
      DownStaysDown(g, rig, v, cells[..n], omens[..n], i);
    }
  }

  /** The end of a jump that got there: fuel, position, fog of war. */
  method Arrive(ship: Ship, galaxy: GalaxyMap, owner: string, destination: Position, cost: int)
    modifies ship`fuel, ship`position, galaxy`playerVisibility
    ensures ship.fuel == old(ship.fuel) - cost && ship.position == destination
    ensures galaxy.playerVisibility == old(galaxy.playerVisibility)[owner :=
              Seen(old(galaxy.playerVisibility), owner)
              + InBoundsBall(galaxy.radius, destination, ship.Fitted().sensorRange)]
  {
    ship.fuel := ship.fuel - cost;
    ship.position := destination;
    galaxy.Reveal(destination, owner, ship.Fitted().sensorRange);
  }

  /** The flight itself, once range and fuel have been checked. */
  method Depart(ship: Ship, galaxy: GalaxyMap, owner: string, destination: Position, cells: seq<Position>, cost: int,
                omens: seq<Omen>)
    returns (trip: Trip)
    requires ship.Valid() && |omens| == |cells|
    requires forall i :: 0 <= i < |omens| ==> Plausible(omens[i])
    modifies ship`credits, ship`fuel, ship`hull, ship`shields, ship`hold, ship`items, ship`position, ship.items
    modifies galaxy`playerVisibility
    ensures ship.Valid() && fresh(ship.items - old(ship.items))
    ensures var f := Fly(galaxy.View(), ship.Fitted(), old(ship.State()), cells, omens);
      trip == if f.down then Lost(f.v) else Arrived(f.v.(fuel := f.v.fuel - cost))
    ensures trip.Arrived? ==> ship.State() == trip.v && ship.position == destination
    ensures trip.Arrived? ==> galaxy.playerVisibility == old(galaxy.playerVisibility)[owner :=
              Seen(old(galaxy.playerVisibility), owner)
              + InBoundsBall(galaxy.radius, destination, ship.Fitted().sensorRange)]
    ensures trip.Lost? ==> ship.State() == trip.wreck && galaxy.playerVisibility == old(galaxy.playerVisibility)
  {
    var down := FlyThrough(ship, galaxy, cells, omens);
    if down {
      return Lost(ship.State());
    }
    Arrive(ship, galaxy, owner, destination, cost);
    trip := Arrived(ship.State());
  }

  /** A jump. Refused jumps change nothing; an arrival moves the ship to the destination and reveals
      the map around it. */
  method Travel(ship: Ship, galaxy: GalaxyMap, owner: string, destination: Position, omens: seq<Omen>)
    returns (trip: Trip)
    requires ship.Valid() && ChargeableChart(galaxy.View())
    requires |omens| == ship.position.DistanceTo(destination)
    requires forall i :: 0 <= i < |omens| ==> Plausible(omens[i])
    modifies ship`credits, ship`fuel, ship`hull, ship`shields, ship`hold, ship`items, ship`position, ship.items
    modifies galaxy`playerVisibility
    ensures ship.Valid() && fresh(ship.items - old(ship.items))
    ensures trip == Jump(galaxy.View(), ship.Fitted(), old(ship.State()), old(ship.position), destination, omens)
    ensures trip.Arrived? ==> ship.State() == trip.v && ship.position == destination
    ensures trip.Arrived? ==> galaxy.playerVisibility == old(galaxy.playerVisibility)[owner :=
              Seen(old(galaxy.playerVisibility), owner)
              + InBoundsBall(galaxy.radius, destination, ship.Fitted().sensorRange)]
    ensures trip.Lost? ==> ship.State() == trip.wreck
    ensures !trip.Arrived? && !trip.Lost? ==> ship.State() == old(ship.State()) && ship.position == old(ship.position)
    ensures !trip.Arrived? ==> galaxy.playerVisibility == old(galaxy.playerVisibility)
  {
    var start := ship.position;
    var distance := start.DistanceTo(destination);
    if distance == 0 {
      return AlreadyThere;
    }
    if distance > ship.Fitted().jumpRange {
      return OutOfRange;
    }
    var path := LineTo(start, destination);
    var cost := CalculateFuelCost(Chart(galaxy.radius, galaxy.cells), path);
    if ship.fuel < cost {
      return ShortOfFuel;
    }
    trip := Depart(ship, galaxy, owner, destination, path[1..], cost, omens);
  }
}
