/** Ships: their fitted limits, their changing state as a value, and the object whose methods
    change it (Ship, caravaneer/player.py; templates and modules from caravaneer/core.py). */
module Ships {
  import opened Arith
  import opened Hex
  import opened Cargo

  // ---- Hulls and modules ----

  datatype Template = Template(cargo: nat, fuel: nat, jumpRange: nat, hull: nat, shields: nat, speed: nat)

  const SCOUT := Template(20, 60, 4, 15, 5, 3)

  datatype Module =
    | EngineMk1 | EngineMk2 | ShieldMk1 | ShieldMk2 | LaserCannon | PlasmaTurret | SensorMk1 | SensorMk2
    | CargoBay | FuelTank | WormholeStabilizer | NebulaNav | RepairDrones | CloakingDevice

  datatype Slot = Engine | Shield | Weapon | Sensor | CargoSlot | Utility

  function SlotOf(m: Module): Slot {
    match m
    case EngineMk1 => Engine case EngineMk2 => Engine
    case ShieldMk1 => Shield case ShieldMk2 => Shield
    case LaserCannon => Weapon case PlasmaTurret => Weapon
    case SensorMk1 => Sensor case SensorMk2 => Sensor
    case CargoBay => CargoSlot
    case _ => Utility
  }

  function EffectOf(m: Module): nat {
    match m
    case EngineMk1 => 1 case EngineMk2 => 2
    case ShieldMk1 => 10 case ShieldMk2 => 25
    case LaserCannon => 15 case PlasmaTurret => 30
    case SensorMk1 => 3 case SensorMk2 => 6
    case CargoBay => 30 case FuelTank => 40 case RepairDrones => 5
    case _ => 0
  }

  function SlotTotal(modules: seq<Module>, slot: Slot): nat {
    if modules == [] then 0 else
      (if SlotOf(modules[0]) == slot then EffectOf(modules[0]) else 0) + SlotTotal(modules[1..], slot)
  }

  /** Only fuel tanks, of all utility modules, add fuel capacity. */
  function TankTotal(modules: seq<Module>): nat {
    if modules == [] then 0 else (if modules[0].FuelTank? then 40 else 0) + TankTotal(modules[1..])
  }

  function BestSensor(modules: seq<Module>): nat {
    if modules == [] then 2 else
      var rest := BestSensor(modules[1..]);
      if SlotOf(modules[0]) == Sensor && EffectOf(modules[0]) > rest then EffectOf(modules[0]) else rest
  }

  /** What the template and modules together allow. */
  datatype Rig = Rig(maxCargo: nat, maxFuel: nat, maxHull: nat, maxShields: nat, jumpRange: nat,
                     speed: nat, attack: nat, sensorRange: nat, nebulaNav: bool, stabilizer: bool)

  function Fit(t: Template, modules: seq<Module>): Rig {
    Rig(t.cargo + SlotTotal(modules, CargoSlot), t.fuel + TankTotal(modules), t.hull,
        t.shields + SlotTotal(modules, Shield), t.jumpRange + SlotTotal(modules, Engine),
        t.speed, 5 + SlotTotal(modules, Weapon), BestSensor(modules),
        NebulaNav in modules, WormholeStabilizer in modules)
  }

  lemma {:induction false} ModulesAddUp(a: seq<Module>, b: seq<Module>, slot: Slot)
    ensures SlotTotal(a + b, slot) == SlotTotal(a, slot) + SlotTotal(b, slot)
    ensures TankTotal(a + b) == TankTotal(a) + TankTotal(b)
    ensures BestSensor(a + b) == Max(BestSensor(a), BestSensor(b))
  {
    if a == [] {
      assert a + b == b;
      SensorsAtLeastTwo(b);
    } else {
      ModulesAddUp(a[1..], b, slot);
      assert (a + b)[1..] == a[1..] + b;
    }
  }

  lemma {:induction false} SensorsAtLeastTwo(modules: seq<Module>)
    ensures BestSensor(modules) >= 2
  {
    if modules != [] {
      SensorsAtLeastTwo(modules[1..]);
    }
  }

  /** What one more module changes, wherever it is fitted: engines reach further, shield generators and weapons
      add their strength, the better sensor counts, and cargo bays and tanks hold more. */
  function Upgraded(r: Rig, m: Module): Rig {
    match m
    case EngineMk1 => r.(jumpRange := r.jumpRange + 1)
    case EngineMk2 => r.(jumpRange := r.jumpRange + 2)
    case ShieldMk1 => r.(maxShields := r.maxShields + 10)
    case ShieldMk2 => r.(maxShields := r.maxShields + 25)
    case LaserCannon => r.(attack := r.attack + 15)
    case PlasmaTurret => r.(attack := r.attack + 30)
    case SensorMk1 => r.(sensorRange := Max(r.sensorRange, 3))
    case SensorMk2 => r.(sensorRange := Max(r.sensorRange, 6))
    case CargoBay => r.(maxCargo := r.maxCargo + 30)
    case FuelTank => r.(maxFuel := r.maxFuel + 40)
    case WormholeStabilizer => r.(stabilizer := true)
    case NebulaNav => r.(nebulaNav := true)
    case RepairDrones => r
    case CloakingDevice => r
  }

  lemma FittingOneMore(t: Template, before: seq<Module>, m: Module, after: seq<Module>)
    ensures Fit(t, before + [m] + after) == Upgraded(Fit(t, before + after), m)
    ensures Fit(t, []) == Rig(t.cargo, t.fuel, t.hull, t.shields, t.jumpRange, t.speed, 5, 2, false, false)
  {
    var fitted, rest := before + [m] + after, before + after;
    forall slot
      ensures SlotTotal(fitted, slot) == SlotTotal(rest, slot) + (if SlotOf(m) == slot then EffectOf(m) else 0)
      ensures TankTotal(fitted) == TankTotal(rest) + (if m.FuelTank? then 40 else 0)
      ensures BestSensor(fitted) == if SlotOf(m) == Sensor then Max(BestSensor(rest), EffectOf(m)) else BestSensor(rest)
    {
      ModulesAddUp(before + [m], after, slot);
      ModulesAddUp(before, [m], slot);
      ModulesAddUp(before, after, slot);
      SensorsAtLeastTwo(before);
      OneModule(m, slot);
    }
    assert SlotTotal(fitted, Engine) == SlotTotal(rest, Engine) + (if SlotOf(m) == Engine then EffectOf(m) else 0);
    Aboard(before, m, after, NebulaNav);
    Aboard(before, m, after, WormholeStabilizer);
  }

  lemma OneModule(m: Module, slot: Slot)
    ensures SlotTotal([m], slot) == if SlotOf(m) == slot then EffectOf(m) else 0
    ensures TankTotal([m]) == if m.FuelTank? then 40 else 0
    ensures BestSensor([m]) == if SlotOf(m) == Sensor then Max(2, EffectOf(m)) else 2
  {
    assert [m][1..] == [];
  }

  lemma Aboard(before: seq<Module>, m: Module, after: seq<Module>, wanted: Module)
    ensures wanted in before + [m] + after <==> wanted == m || wanted in before + after
  {
  }

  // ---- The state of a ship ----

  datatype Vitals = Vitals(fuel: int, hull: int, shields: int, credits: int, stacks: seq<Stack>)

  /** What every operation must keep. */
  ghost predicate Sound(rig: Rig, v: Vitals) {
    && v.credits >= 0
    && 0 <= v.fuel <= rig.maxFuel
    && 0 <= v.shields <= rig.maxShields
    && v.hull <= rig.maxHull
    && Tidy(v.stacks)
    && UsedWeight(v.stacks) <= 10 * rig.maxCargo
  }

  function CanFit(rig: Rig, stacks: seq<Stack>, g: Good, quantity: int): bool {
    Weight(g) * quantity <= 10 * rig.maxCargo - UsedWeight(stacks)
  }

  /** Damage meets the shields first, then the hull. */
  function TakeDamage(v: Vitals, amount: int): Vitals {
    var absorbed := if v.shields > 0 then Min(v.shields, amount) else 0;
    v.(shields := v.shields - absorbed, hull := v.hull - (amount - absorbed))
  }

  function Repair(rig: Rig, v: Vitals, amount: int): Vitals {
    v.(hull := Min(rig.maxHull, v.hull + amount))
  }

  function RechargeShields(rig: Rig, v: Vitals, amount: int): Vitals {
    v.(shields := Min(rig.maxShields, v.shields + amount))
  }

  function Refuel(rig: Rig, v: Vitals, amount: int): Vitals {
    v.(fuel := Min(rig.maxFuel, v.fuel + amount))
  }

  function AddCargo(rig: Rig, v: Vitals, g: Good, quantity: int, price: int): Vitals {
    if CanFit(rig, v.stacks, g, quantity) then v.(stacks := AddTo(v.stacks, g, quantity, price)) else v
  }

  function RemoveCargo(v: Vitals, g: Good, quantity: int): Vitals {
    v.(stacks := RemoveFrom(v.stacks, g, quantity))
  }

  lemma DamageIsShared(v: Vitals, amount: int)
    requires amount >= 0 && v.shields >= 0
    ensures var w := TakeDamage(v, amount);
      && (v.shields - w.shields) + (v.hull - w.hull) == amount && 0 <= w.shields && (w.hull < v.hull ==> w.shields == 0)
      && w == v.(shields := w.shields, hull := w.hull)
  {
  }

  /** Up by that much, or to the top if that is nearer. */
  predicate Topped(before: int, after: int, amount: int, top: int) {
    after <= top && after - before <= amount && (after == top || after - before == amount)
  }

  /** Repairs, recharging and refuelling raise one reading each, by the amount or to its limit. */
  lemma UpkeepRestores(rig: Rig, v: Vitals, amount: int)
    ensures var w := Repair(rig, v, amount); w == v.(hull := w.hull) && Topped(v.hull, w.hull, amount, rig.maxHull)
    ensures var w := RechargeShields(rig, v, amount);
      w == v.(shields := w.shields) && Topped(v.shields, w.shields, amount, rig.maxShields)
    ensures var w := Refuel(rig, v, amount); w == v.(fuel := w.fuel) && Topped(v.fuel, w.fuel, amount, rig.maxFuel)
  {
  }

  /** Cargo fits exactly when the hold with it in is no heavier than the ship can carry. */
  lemma FitsExactlyWhen(rig: Rig, stacks: seq<Stack>, g: Good, quantity: int, price: int)
    ensures CanFit(rig, stacks, g, quantity)
        <==> UsedWeight(AddTo(stacks, g, quantity, price)) <= 10 * rig.maxCargo
  {
    AddToWeight(stacks, g, quantity, price, Weight);
  }

  lemma AddCargoKeepsSound(rig: Rig, v: Vitals, g: Good, quantity: int, price: int)
    requires Sound(rig, v) && quantity >= 1
    ensures Sound(rig, AddCargo(rig, v, g, quantity, price))
  {
    AddToTidy(v.stacks, g, quantity, price);
    AddToWeight(v.stacks, g, quantity, price, Weight);
  }

  lemma RemoveCargoKeepsSound(rig: Rig, v: Vitals, g: Good, quantity: int)
    requires Sound(rig, v) && quantity >= 1
    ensures Sound(rig, RemoveCargo(v, g, quantity))
  {
    var k := FirstFit(v.stacks, g, quantity);
    if k < |v.stacks| {
      TakeAtTidy(v.stacks, k, quantity);
      TakeAtWeight(v.stacks, k, quantity, Weight);
      MulMono(0, quantity, Weight(g));
    }
  }

  lemma UpkeepKeepsSound(rig: Rig, v: Vitals, amount: nat)
    requires Sound(rig, v)
    ensures Sound(rig, TakeDamage(v, amount)) && Sound(rig, Repair(rig, v, amount))
    ensures Sound(rig, RechargeShields(rig, v, amount)) && Sound(rig, Refuel(rig, v, amount))
  {
  }

  // ---- The ship as an object ----

  class CargoItem {
    const good: Good
    var quantity: int
    const price: int

    constructor (good: Good, quantity: int, price: int)
      ensures this.good == good && this.quantity == quantity && this.price == price
    {
      this.good, this.quantity, this.price := good, quantity, price;
    }
  }

  /** The values of a list of stack objects. */
  function StacksOf(items: seq<CargoItem>): (stacks: seq<Stack>)
    reads items
    ensures |stacks| == |items|
    ensures forall i :: 0 <= i < |items| ==> stacks[i] == Stack(items[i].good, items[i].quantity, items[i].price)
  {
    seq(|items|, i requires 0 <= i < |items| reads items => Stack(items[i].good, items[i].quantity, items[i].price))
  }

  lemma StacksOfWithout(items: seq<CargoItem>, k: nat)
    requires k < |items|
    ensures StacksOf(items[..k] + items[k + 1..]) == StacksOf(items)[..k] + StacksOf(items)[k + 1..]
  {
  }

  predicate DifferentItems(items: seq<CargoItem>, i: nat, j: nat)
    requires i < |items| && j < |items|
  {
    items[i] != items[j]
  }

  /** No object appears twice. */
  ghost predicate Distinct(items: seq<CargoItem>) {
    forall i, j {:trigger DifferentItems(items, i, j)} :: 0 <= i < j < |items| ==> DifferentItems(items, i, j)
  }

  predicate OwnedItem(items: seq<CargoItem>, i: nat, owned: set<CargoItem>)
    requires i < |items|
  {
    items[i] in owned
  }

  ghost predicate Owned(items: seq<CargoItem>, owned: set<CargoItem>) {
    forall i {:trigger OwnedItem(items, i, owned)} :: 0 <= i < |items| ==> OwnedItem(items, i, owned)
  }

  lemma OwnedWithout(items: seq<CargoItem>, k: nat, owned: set<CargoItem>)
    requires Owned(items, owned) && k < |items|
    ensures Owned(items[..k] + items[k + 1..], owned)
  {
    var after := items[..k] + items[k + 1..];
    forall i | 0 <= i < |after|
      ensures OwnedItem(after, i, owned)
    {
      assert OwnedItem(items, if i >= k then i + 1 else i, owned);
    }
  }

  lemma OwnedWith(items: seq<CargoItem>, owned: set<CargoItem>, item: CargoItem)
    requires Owned(items, owned)
    ensures Owned(items + [item], owned + {item})
  {
    var after := items + [item];
    forall i | 0 <= i < |after|
      ensures OwnedItem(after, i, owned + {item})
    {
      if i < |items| {
        assert OwnedItem(items, i, owned);
      }
    }
  }

  lemma OthersDiffer(items: seq<CargoItem>, k: nat)
    requires Distinct(items) && k < |items|
    ensures forall i :: 0 <= i < |items| && i != k ==> items[i] != items[k]
  {
    forall i | 0 <= i < |items| && i != k
      ensures items[i] != items[k]
    {
      assert DifferentItems(items, if i < k then i else k, if i < k then k else i);
    }
  }

  lemma DistinctWithout(items: seq<CargoItem>, k: nat)
    requires Distinct(items) && k < |items|
    ensures Distinct(items[..k] + items[k + 1..])
  {
    var after := items[..k] + items[k + 1..];
    forall i, j | 0 <= i < j < |after|
      ensures DifferentItems(after, i, j)
    {
      assert DifferentItems(items, if i >= k then i + 1 else i, if j >= k then j + 1 else j);
    }
  }

  lemma DistinctWith(items: seq<CargoItem>, item: CargoItem)
    requires Distinct(items) && item !in items
    ensures Distinct(items + [item])
  {
    var after := items + [item];
    forall i, j | 0 <= i < j < |after|
      ensures DifferentItems(after, i, j)
    {
      if j < |items| {
        assert DifferentItems(items, i, j);
      }
    }
  }

  lemma AllStocked(items: seq<CargoItem>)
    requires Tidy(StacksOf(items))
    ensures forall i :: 0 <= i < |items| ==> items[i].quantity >= 1
  {
    forall i | 0 <= i < |items|
      ensures items[i].quantity >= 1
    {
      assert Stocked(StacksOf(items), i);
    }
  }

  class Ship {
    const template: Template
    var modules: seq<Module>
    var position: Position
    var fuel: int
    var hull: int
    var shields: int
    var credits: int
    var hold: seq<CargoItem>
    ghost var items: set<CargoItem>  // every stack object this ship may write to

    function Fitted(): Rig
      reads this`modules
    {
      Fit(template, modules)
    }

    function State(): Vitals
      reads this, hold
    {
      Vitals(fuel, hull, shields, credits, StacksOf(hold))
    }

    /** The stacks are distinct objects of this ship. */
    ghost predicate Held()
      reads this`hold, this`items
    {
      Distinct(hold) && Owned(hold, items)
    }

    /** ... and a tidy list. */
    ghost predicate Valid()
      reads this`hold, this`items, hold
    {
      Held() && Tidy(StacksOf(hold))
    }

    /** A new ship, full of fuel, hull and shields. */
    constructor (template: Template, position: Position, startingCredits: nat)
      ensures Valid() && hold == [] && items == {} && modules == [] && this.position == position
      ensures this.template == template
      ensures State() == Vitals(template.fuel, template.hull, template.shields, startingCredits, [])
      ensures Sound(Fitted(), State())
    {
      this.template := template;
      this.position := position;
      modules, hold, items := [], [], {};
      fuel, hull, shields, credits := template.fuel, template.hull, template.shields, startingCredits;
    }

    method UsedCargo() returns (used: int)
      ensures used == UsedWeight(StacksOf(hold))
    {
      used := 0;
      var i := |hold|;
      while i > 0
        invariant 0 <= i <= |hold|
        invariant used == TotalWeight(StacksOf(hold)[i..], Weight)
      {
        i := i - 1;
        assert StacksOf(hold)[i..][1..] == StacksOf(hold)[i + 1..];
        used := used + Weight(hold[i].good) * hold[i].quantity;
      }
    }

    method FitsCargo(g: Good, quantity: int) returns (fits: bool)
      ensures fits == CanFit(Fitted(), StacksOf(hold), g, quantity)
    {
      var used := UsedCargo();
      fits := Weight(g) * quantity <= 10 * Fitted().maxCargo - used;
    }

    /** The first stack of that good and price. */
    method FindMerge(g: Good, price: int) returns (k: nat)
      ensures k == MergeIndex(StacksOf(hold), g, price)
    {
      k := 0;
      while k < |hold| && !(hold[k].good == g && hold[k].price == price)
        invariant k <= |hold| && MergeIndex(StacksOf(hold), g, price) >= k
      {
        k := k + 1;
      }
    }

    /** The first stack of that good with enough in it. */
    method FindFit(g: Good, quantity: int) returns (k: nat)
      ensures k == FirstFit(StacksOf(hold), g, quantity)
    {
      k := 0;
      while k < |hold| && !(hold[k].good == g && hold[k].quantity >= quantity)
        invariant k <= |hold| && FirstFit(StacksOf(hold), g, quantity) >= k
      {
        k := k + 1;
      }
    }

    /** Writes one stack's quantity; as the stacks are distinct objects, no other stack changes. */
    method SetQuantity(k: nat, quantity: int)
      requires k < |hold| && Distinct(hold)
      modifies hold[k]
      ensures StacksOf(hold) == old(StacksOf(hold))[k := old(StacksOf(hold))[k].(quantity := quantity)]
    {
      OthersDiffer(hold, k);
      hold[k].quantity := quantity;
    }

    /** Loads cargo if it fits, into the stack of the same good and price when there is one. A quantity
        that is not positive is loaded all the same; the list may then no longer be tidy. */
    method LoadCargo(g: Good, quantity: int, price: int) returns (ok: bool)
      requires Valid()
      modifies this`hold, this`items, items
      ensures Held() && (quantity >= 1 ==> Valid())
      ensures State() == AddCargo(Fitted(), old(State()), g, quantity, price)
      ensures ok == old(CanFit(Fitted(), StacksOf(hold), g, quantity))
      ensures old(items) <= items && fresh(items - old(items))
    {
      ok := FitsCargo(g, quantity);
      if ok {
        if quantity >= 1 {
          AddToTidy(StacksOf(hold), g, quantity, price);
        }
        MergeOrAppend(g, quantity, price);
      }
    }

    method MergeOrAppend(g: Good, quantity: int, price: int)
      requires Held()
      modifies this`hold, this`items, items
      ensures Held() && StacksOf(hold) == AddTo(old(StacksOf(hold)), g, quantity, price)
      ensures old(items) <= items && fresh(items - old(items))
    {
      var k := FindMerge(g, price);
      if k < |hold| {
        assert OwnedItem(hold, k, items);
        SetQuantity(k, hold[k].quantity + quantity);
      } else {
        Append(g, quantity, price);
      }
    }

    method Append(g: Good, quantity: int, price: int)
      requires Distinct(hold) && Owned(hold, items)
      modifies this`hold, this`items
      ensures StacksOf(hold) == old(StacksOf(hold)) + [Stack(g, quantity, price)]
      ensures Distinct(hold) && Owned(hold, items)
      ensures old(items) <= items && fresh(items - old(items))
    {
      var item := new CargoItem(g, quantity, price);
      DistinctWith(hold, item);
      OwnedWith(hold, items, item);
      hold, items := hold + [item], items + {item};
    }

    /** Takes cargo out of the first stack of that good that has enough; no other stack changes. */
    method UnloadCargo(g: Good, quantity: int) returns (ok: bool, ghost at: nat)
      requires Valid()
      modifies this`hold, items
      ensures Valid() && State() == RemoveCargo(old(State()), g, quantity)
      ensures at == FirstFit(old(StacksOf(hold)), g, quantity) && ok == (at < |old(hold)|)
      ensures hold == if ok && old(StacksOf(hold))[at].quantity == quantity
                      then old(hold)[..at] + old(hold)[at + 1..] else old(hold)
      ensures forall i :: 0 <= i < |old(hold)| && i != at ==> old(hold)[i].quantity == old(hold[i].quantity)
    {
      var k := FindFit(g, quantity);
      at, ok := k, k < |hold|;
      if !ok {
        return;
      }
      TakeAtTidy(StacksOf(hold), k, quantity);
      OthersDiffer(hold, k);
      AllStocked(hold);
      assert OwnedItem(hold, k, items);
      TakeFromStack(k, quantity);
    }

    method TakeFromStack(k: nat, quantity: int)
      requires Distinct(hold) && Owned(hold, items) && k < |hold| && quantity <= hold[k].quantity
      requires forall i :: 0 <= i < |hold| ==> hold[i].quantity >= 1
      modifies this`hold, hold[k]
      ensures StacksOf(hold) == TakeAt(old(StacksOf(hold)), k, quantity)
      ensures Distinct(hold) && Owned(hold, items)
      ensures hold == if old(StacksOf(hold))[k].quantity == quantity
                      then old(hold)[..k] + old(hold)[k + 1..] else old(hold)
    {
      var item := hold[k];
      SetQuantity(k, item.quantity - quantity);
      if item.quantity == 0 {
        StacksOfWithout(hold, k);
        DistinctWithout(hold, k);
        OwnedWithout(hold, k, items);
        RemoveEqual(item, k);
      }
    }

    /** list.remove: drops the first stack equal in value to item, which is item itself because
        every other stack holds something. */
    method RemoveEqual(item: CargoItem, ghost at: nat)
      requires at < |hold| && hold[at] == item && item.quantity == 0
      requires forall i :: 0 <= i < |hold| && i != at ==> hold[i].quantity >= 1
      modifies this`hold
      ensures hold == old(hold)[..at] + old(hold)[at + 1..]
    {
      var j := 0;
      while !(hold[j].good == item.good && hold[j].quantity == item.quantity && hold[j].price == item.price)
        invariant 0 <= j <= at
        decreases at - j
      {
        j := j + 1;
      }
      hold := hold[..j] + hold[j + 1..];
    }

    /** Loses the stack at that index. */
    method LoseStack(k: nat)
      requires Valid() && k < |hold|
      modifies this`hold
      ensures Valid() && State() == old(State()).(stacks := PopAt(old(StacksOf(hold)), k))
      ensures hold == old(hold)[..k] + old(hold)[k + 1..]
    {
      AllStocked(hold);
      PopAtTidy(StacksOf(hold), k);
      StacksOfWithout(hold, k);
      DistinctWithout(hold, k);
      OwnedWithout(hold, k, items);
      hold := hold[..k] + hold[k + 1..];
    }

    method SufferDamage(amount: int)
      modifies this`hull, this`shields
      ensures State() == TakeDamage(old(State()), amount)
    {
      var remaining := amount;
      if shields > 0 {
        var absorbed := Min(shields, remaining);
        shields := shields - absorbed;
        remaining := remaining - absorbed;
      }
      hull := hull - remaining;
    }

    method RepairHull(amount: int)
      modifies this`hull
      ensures State() == Repair(Fitted(), old(State()), amount)
    {
      hull := Min(Fitted().maxHull, hull + amount);
    }

    method Recharge(amount: int)
      modifies this`shields
      ensures State() == RechargeShields(Fitted(), old(State()), amount)
    {
      shields := Min(Fitted().maxShields, shields + amount);
    }

    method TakeFuel(amount: int)
      modifies this`fuel
      ensures State() == Refuel(Fitted(), old(State()), amount)
    {
      fuel := Min(Fitted().maxFuel, fuel + amount);
    }
  }
}
