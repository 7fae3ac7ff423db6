/** Every run of the ship operations: trading, port services, upkeep, jumps and fights keep every
    ship of the fleet sound (caravaneer/player.py, economy.py, travel.py, combat.py, game.py). */
module Fleet {
  import opened Hex
  import opened Galaxy
  import opened Cargo
  import opened Ships
  import opened Trading
  import opened Voyages
  import opened Battle

  datatype Berth = Berth(rig: Rig, position: Position, v: Vitals)

  datatype Command =
    | BuyGoods(ship: nat, illegal: bool, good: Good, quantity: int, price: int)
    | SellGoods(ship: nat, illegal: bool, good: Good, quantity: int, price: int)
    | FuelUp(ship: nat)
    | MendHull(ship: nat)
    | Upkeep(ship: nat, repair: nat, recharge: nat)
    | JumpTo(ship: nat, destination: Position, omens: seq<Omen>)
    | Attack(ship: nat, target: nat, attackerWantsOut: bool, defenderWantsOut: bool, nebula: bool, draws: seq<Draws>)

  /** Commands the game can issue: existing ships, positive quantities and prices, two different
      ships in a fight, one plausible omen per hex of a jump. */
  predicate Proper(g: Chart, fleet: seq<Berth>, c: Command) {
    && c.ship < |fleet|
    && match c
       case BuyGoods(_, _, _, quantity, price) => quantity >= 1 && price >= 1
       case SellGoods(_, _, _, quantity, price) => quantity >= 1 && price >= 1
       case JumpTo(i, destination, omens) =>
         |omens| == fleet[i].position.DistanceTo(destination) && forall k :: 0 <= k < |omens| ==> Plausible(omens[k])
       case Attack(i, j, _, _, _, _) => j < |fleet| && i != j
       case _ => true
  }

  function Obey(g: Chart, fleet: seq<Berth>, c: Command): seq<Berth>
    requires ChargeableChart(g) && Proper(g, fleet, c)
  {
    var i := c.ship;
    var b := fleet[i];
    match c
    case BuyGoods(_, illegal, good, quantity, price) =>
      fleet[i := b.(v := Buy(b.rig, b.v, illegal, good, quantity, price).v)]
    case SellGoods(_, illegal, good, quantity, price) =>
      fleet[i := b.(v := Sell(b.v, illegal, good, quantity, price).v)]
    case FuelUp(_) => fleet[i := b.(v := BuyFuel(b.rig, b.v))]
    case MendHull(_) => fleet[i := b.(v := BuyRepairs(b.rig, b.v))]
    case Upkeep(_, repair, recharge) =>
      fleet[i := b.(v := RechargeShields(b.rig, Repair(b.rig, b.v, repair), recharge))]
    case JumpTo(_, destination, omens) =>
      (match Jump(g, b.rig, b.v, b.position, destination, omens)
       case Arrived(v) => fleet[i := b.(v := v, position := destination)]
       case Lost(wreck) => fleet[i := b.(v := wreck)]
       case _ => fleet)
    case Attack(_, j, attackerWantsOut, defenderWantsOut, nebula, draws) =>
      var o := Fight(Setting(b.rig, fleet[j].rig, attackerWantsOut, defenderWantsOut, nebula), b.v, fleet[j].v, draws);
      fleet[i := b.(v := o.attacker)][j := fleet[j].(v := o.defender)]
  }

  ghost predicate AllSound(fleet: seq<Berth>) {
    forall i :: 0 <= i < |fleet| ==> Sound(fleet[i].rig, fleet[i].v)
  }

  /** The map's cells do non-negative damage, and charge non-negative fuel. */
  ghost predicate Harmless(g: Chart) {
    ChargeableChart(g) && forall p :: p in g.cells ==> g.cells[p].hazardDamage >= 0
  }

  lemma ObeyingKeepsSound(g: Chart, fleet: seq<Berth>, c: Command)
    requires Harmless(g) && Proper(g, fleet, c) && AllSound(fleet)
    ensures AllSound(Obey(g, fleet, c)) && |Obey(g, fleet, c)| == |fleet|
  {
    var b := fleet[c.ship];
    match c
    case BuyGoods(_, illegal, good, quantity, price) => TradeKeepsSound(b.rig, b.v, illegal, good, quantity, price);
    case SellGoods(_, illegal, good, quantity, price) => TradeKeepsSound(b.rig, b.v, illegal, good, quantity, price);
    case FuelUp(_) => ServicesFillUp(b.rig, b.v);
    case MendHull(_) => ServicesFillUp(b.rig, b.v);
    case Upkeep(_, repair, recharge) =>
      UpkeepKeepsSound(b.rig, b.v, repair);
      UpkeepKeepsSound(b.rig, Repair(b.rig, b.v, repair), recharge);
    case JumpTo(_, destination, omens) => JumpKeepsSound(g, b.rig, b.v, b.position, destination, omens);
    case Attack(_, j, attackerWantsOut, defenderWantsOut, nebula, draws) =>
      FightKeepsSound(Setting(b.rig, fleet[j].rig, attackerWantsOut, defenderWantsOut, nebula), b.v, fleet[j].v, draws);
  }

  /** A command touches only its own ship, and the target of an attack; rigs stay, and a ship moves only by
      arriving, to where it was sent. */
  lemma ObeyingTouchesOnly(g: Chart, fleet: seq<Berth>, c: Command, k: nat)
    requires ChargeableChart(g) && Proper(g, fleet, c) && k < |fleet|
    ensures var after := Obey(g, fleet, c);
      && |after| == |fleet| && after[k].rig == fleet[k].rig
      && (k != c.ship && !(c.Attack? && k == c.target) ==> after[k] == fleet[k])
      && (after[k].position == if c.JumpTo? && k == c.ship && Arrives(g, fleet[k], c) then c.destination
                               else fleet[k].position)
  {
  }

  predicate Arrives(g: Chart, b: Berth, c: Command)
    requires ChargeableChart(g) && c.JumpTo? && |c.omens| == b.position.DistanceTo(c.destination)
  {
    Jump(g, b.rig, b.v, b.position, c.destination, c.omens).Arrived?
  }

  /** An attack moves credits and goods between two ships, and makes none: over the fleet they are conserved. */
  lemma AttacksConserve(g: Chart, fleet: seq<Berth>, c: Command, good: Good)
    requires ChargeableChart(g) && Proper(g, fleet, c) && c.Attack? && AllSound(fleet) && c.draws != []
    requires fleet[c.ship].v.hull > 0 && fleet[c.target].v.hull > 0
    ensures var after, i, j := Obey(g, fleet, c), c.ship, c.target;
      && after[i].v.credits + after[j].v.credits == fleet[i].v.credits + fleet[j].v.credits
      && Units(after[i].v.stacks, good) + Units(after[j].v.stacks, good)
         == Units(fleet[i].v.stacks, good) + Units(fleet[j].v.stacks, good)
  {
    var a, d := fleet[c.ship], fleet[c.target];
    FightIsFairAndConserves(
      Setting(a.rig, d.rig, c.attackerWantsOut, c.defenderWantsOut, c.nebula), a.v, d.v, c.draws, good);
  }

  // ---- Runs ----

  ghost predicate ProperRun(g: Chart, fleet: seq<Berth>, commands: seq<Command>)
    requires ChargeableChart(g)
    decreases |commands|
  {
    commands != [] ==>
      Proper(g, fleet, commands[0]) && ProperRun(g, Obey(g, fleet, commands[0]), commands[1..])
  }

  function ObeyAll(g: Chart, fleet: seq<Berth>, commands: seq<Command>): seq<Berth>
    requires ChargeableChart(g) && ProperRun(g, fleet, commands)
    decreases |commands|
  {
    if commands == [] then fleet else ObeyAll(g, Obey(g, fleet, commands[0]), commands[1..])
  }

  /** Over every run, every ship keeps its credits non-negative, its fuel, shields and hull within
      limits, its load within capacity, and its stacks tidy. */
  lemma {:induction false} FleetStaysSound(g: Chart, fleet: seq<Berth>, commands: seq<Command>)
    requires Harmless(g) && AllSound(fleet) && ProperRun(g, fleet, commands)
    ensures AllSound(ObeyAll(g, fleet, commands))
    decreases |commands|
  {
    if commands != [] {
      ObeyingKeepsSound(g, fleet, commands[0]);
      FleetStaysSound(g, Obey(g, fleet, commands[0]), commands[1..]);
    }
  }

  /** Generated maps are harmless in this sense. */
  lemma GeneratedIsHarmless(g: Chart)
    requires g.Generated()
    ensures Harmless(g)
  {
    GeneratedIsChargeable(g);
    forall p | p in g.cells
      ensures g.cells[p].hazardDamage >= 0
    {
      assert PlaceableCell(g.cells[p]);
    }
  }
}
