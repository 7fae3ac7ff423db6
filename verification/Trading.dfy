/** Buying, selling and port services (caravaneer/economy.py; player_refuel and player_repair of
    caravaneer/game.py). The unit price is an input; the code never quotes less than 1. */
module Trading {
  import opened Arith
  import opened Cargo
  import opened Ships

  datatype Deal = Deal(v: Vitals, done: bool)

  /** Buying needs a legal good, room for it, and the money, checked in that order. */
  function Buy(rig: Rig, v: Vitals, illegal: bool, g: Good, quantity: int, price: int): Deal {
    if illegal || !CanFit(rig, v.stacks, g, quantity) || v.credits < price * quantity then Deal(v, false)
    else Deal(v.(credits := v.credits - price * quantity, stacks := AddTo(v.stacks, g, quantity, price)), true)
  }

  /** The first stack of that good, at whatever price it was bought. */
  function FirstOf(stacks: seq<Stack>, g: Good): (k: nat)
    ensures k <= |stacks|
    ensures k < |stacks| ==> stacks[k].good == g
    ensures forall i :: 0 <= i < k ==> stacks[i].good != g
  {
    if stacks == [] || stacks[0].good == g then 0 else 1 + FirstOf(stacks[1..], g)
  }

  /** Selling looks only at the first stack of the good. */
  function Sell(v: Vitals, illegal: bool, g: Good, quantity: int, price: int): Deal {
    var k := FirstOf(v.stacks, g);
    if illegal || k == |v.stacks| || v.stacks[k].quantity < quantity then Deal(v, false)
    else Deal(v.(credits := v.credits + price * quantity, stacks := RemoveFrom(v.stacks, g, quantity)), true)
  }

  /** When a sale goes through, the stack it was checked against is the one it is taken from. */
  lemma SaleComesFromFirstStack(v: Vitals, g: Good, quantity: int)
    requires FirstOf(v.stacks, g) < |v.stacks| && v.stacks[FirstOf(v.stacks, g)].quantity >= quantity
    ensures FirstFit(v.stacks, g, quantity) == FirstOf(v.stacks, g)
  {
    assert FirstFit(v.stacks, g, quantity) <= FirstOf(v.stacks, g);
  }

  /** What goods are worth at one price. */
  function Value(v: Vitals, g: Good, price: int): int {
    v.credits + price * Units(v.stacks, g)
  }

  /** A trade at one price moves value, never makes any: credits plus the good's units at that price
      stay the same, and no other good's units change. */
  lemma BuyKeepsValue(rig: Rig, v: Vitals, illegal: bool, g: Good, quantity: int, price: int, other: Good)
    ensures var w := Buy(rig, v, illegal, g, quantity, price).v;
      Value(w, g, price) == Value(v, g, price) && (other != g ==> Units(w.stacks, other) == Units(v.stacks, other))
  {
    if Buy(rig, v, illegal, g, quantity, price).done {
      MulAdd(price, Units(v.stacks, g), quantity);
      AddToUnits(v.stacks, g, quantity, price, g);
      AddToUnits(v.stacks, g, quantity, price, other);
    }
  }

  lemma SellKeepsValue(v: Vitals, illegal: bool, g: Good, quantity: int, price: int, other: Good)
    ensures var w := Sell(v, illegal, g, quantity, price).v;
      Value(w, g, price) == Value(v, g, price) && (other != g ==> Units(w.stacks, other) == Units(v.stacks, other))
  {
    if Sell(v, illegal, g, quantity, price).done {
      MulAdd(price, Units(v.stacks, g), quantity);
      SaleComesFromFirstStack(v, g, quantity);
      TakeAtUnits(v.stacks, FirstOf(v.stacks, g), quantity, g);
      TakeAtUnits(v.stacks, FirstOf(v.stacks, g), quantity, other);
    }
  }

  /** A purchase goes through exactly when it is legal, fits and can be paid; it then costs the price of each unit,
      and the units join the lot of that price. Otherwise nothing changes. */
  lemma BuyGoesThroughExactlyWhen(
    rig: Rig, v: Vitals, illegal: bool, g: Good, quantity: int, price: int, paid: int)
    ensures var deal := Buy(rig, v, illegal, g, quantity, price); var w := deal.v;
      && (deal.done <==>
            && !illegal && UsedWeight(v.stacks) + Weight(g) * quantity <= 10 * rig.maxCargo
            && price * quantity <= v.credits)
      && (!deal.done ==> w == v)
      && (deal.done ==>
            && w == v.(credits := v.credits - price * quantity, stacks := w.stacks)
            && Lot(w.stacks, g, paid) == Lot(v.stacks, g, paid) + (if paid == price then quantity else 0))
  {
    AddToLot(v.stacks, g, quantity, price, g, paid);
  }

  /** A sale goes through exactly when it is legal and the first stack of the good has enough; it then earns the
      price of each unit, and the units leave that stack and no other. Otherwise nothing changes. */
  lemma SellGoesThroughExactlyWhen(v: Vitals, illegal: bool, g: Good, quantity: int, price: int)
    ensures var deal := Sell(v, illegal, g, quantity, price); var w := deal.v;
      && (deal.done <==> !illegal && exists k :: FirstWithEnough(v.stacks, g, quantity, k))
      && (!deal.done ==> w == v)
      && (deal.done ==>
            && w == v.(credits := v.credits + price * quantity, stacks := w.stacks)
            && forall k :: FirstWithEnough(v.stacks, g, quantity, k) ==> LeftAt(v.stacks, k, quantity, w.stacks))
  {
    var k := FirstOf(v.stacks, g);
    if k < |v.stacks| && v.stacks[k].quantity >= quantity {
      assert FirstWithEnough(v.stacks, g, quantity, k);
      SaleComesFromFirstStack(v, g, quantity);
    }
    forall j | FirstWithEnough(v.stacks, g, quantity, j)
      ensures j == k
    {
    }
  }

  predicate FirstWithEnough(stacks: seq<Stack>, g: Good, quantity: int, k: int) {
    && 0 <= k < |stacks| && stacks[k].good == g && stacks[k].quantity >= quantity
    && forall i :: 0 <= i < k ==> stacks[i].good != g
  }

  /** That much has left stack k, which is gone if nothing remains in it; all the others are as they were. */
  predicate LeftAt(stacks: seq<Stack>, k: int, quantity: int, after: seq<Stack>)
    requires 0 <= k < |stacks|
  {
    if stacks[k].quantity == quantity then after == stacks[..k] + stacks[k + 1..]
    else
      && |after| == |stacks| && after[k] == stacks[k].(quantity := stacks[k].quantity - quantity)
      && forall i :: 0 <= i < |stacks| && i != k ==> after[i] == stacks[i]
  }

  /** Owning enough of a good is not enough to sell it: the first stack must hold it all. */
  lemma SaleCanBeRefusedWithStockInHand() returns (v: Vitals)
    ensures Units(v.stacks, Food) == 15 && !Sell(v, false, Food, 8, 8).done
    ensures FirstFit(v.stacks, Food, 8) < |v.stacks|
  {
    var last := [Stack(Food, 10, 9)];
    v := Vitals(0, 1, 0, 0, [Stack(Food, 5, 8)] + last);
    assert v.stacks[1..] == last && last[1..] == [];
    assert Units(last, Food) == 10 + Units([], Food);
    assert FirstFit(last, Food, 8) == 0;
  }

  ghost predicate OnlyStack(stacks: seq<Stack>, g: Good, k: nat) {
    forall i :: 0 <= i < |stacks| && i != k ==> stacks[i].good != g
  }

  lemma {:induction false} UnitsBeyondFirst(stacks: seq<Stack>, g: Good)
    requires forall i :: 0 <= i < |stacks| ==> stacks[i].quantity >= 1
    ensures var k := FirstOf(stacks, g);
      && (k == |stacks| ==> Units(stacks, g) == 0)
      && (k < |stacks| ==> Units(stacks, g) >= stacks[k].quantity)
      && (k < |stacks| ==> (Units(stacks, g) == stacks[k].quantity <==> OnlyStack(stacks, g, k)))
  {
    if stacks != [] {
      var rest := stacks[1..];
      UnitsBeyondFirst(rest, g);
      var k, j := FirstOf(stacks, g), FirstOf(rest, g);
      if k == 0 {
        if j < |rest| {
          assert stacks[j + 1].good == g;
        } else {
          assert forall i :: 1 <= i < |stacks| ==> stacks[i] == rest[i - 1];
        }
      } else if k < |stacks| {
        assert forall i :: 1 <= i < |stacks| ==> stacks[i] == rest[i - 1];
        assert forall i :: 0 <= i < |rest| ==> rest[i] == stacks[i + 1];
      }
    }
  }

  /** Everything a ship owns of a good can be sold exactly when it is all in one stack. */
  lemma SalesAreCompleteExactlyWhenOneStack(v: Vitals, g: Good, price: int)
    requires Tidy(v.stacks) && Units(v.stacks, g) >= 1
    ensures (forall q :: 1 <= q <= Units(v.stacks, g) ==> Sell(v, false, g, q, price).done)
            <==> OnlyStack(v.stacks, g, FirstOf(v.stacks, g))
  {
    forall i | 0 <= i < |v.stacks|
      ensures v.stacks[i].quantity >= 1
    {
      assert Stocked(v.stacks, i);
    }
    UnitsBeyondFirst(v.stacks, g);
    assert Sell(v, false, g, Units(v.stacks, g), price).done <==> OnlyStack(v.stacks, g, FirstOf(v.stacks, g));
  }

  lemma TradeKeepsSound(rig: Rig, v: Vitals, illegal: bool, g: Good, quantity: int, price: int)
    requires Sound(rig, v) && quantity >= 1 && price >= 1
    ensures Sound(rig, Buy(rig, v, illegal, g, quantity, price).v)
    ensures Sound(rig, Sell(v, illegal, g, quantity, price).v)
  {
    MulMono(0, quantity, price);
    AddCargoKeepsSound(rig, v, g, quantity, price);
    RemoveCargoKeepsSound(rig, v, g, quantity);
  }

  /** No quantity is refused for its sign. A purchase keeps the ship sound exactly when the stack it
      ends up in holds something. */
  lemma BuyKeepsSoundExactlyWhen(rig: Rig, v: Vitals, illegal: bool, g: Good, quantity: int, price: int)
    requires Sound(rig, v)
    ensures var deal, k := Buy(rig, v, illegal, g, quantity, price), MergeIndex(v.stacks, g, price);
      Sound(rig, deal.v) <==>
        || illegal || !CanFit(rig, v.stacks, g, quantity) || v.credits < price * quantity
        || (if k < |v.stacks| then v.stacks[k].quantity + quantity >= 1 else quantity >= 1)
  {
    AddToTidyExactlyWhen(v.stacks, g, quantity, price);
    AddToWeight(v.stacks, g, quantity, price, Weight);
  }

  /** A sale keeps the ship sound exactly when it leaves no debt and no overload, which only a negative
      quantity can cause. */
  lemma SellKeepsSoundExactlyWhen(rig: Rig, v: Vitals, illegal: bool, g: Good, quantity: int, price: int)
    requires Sound(rig, v)
    ensures var deal, k := Sell(v, illegal, g, quantity, price), FirstOf(v.stacks, g);
      Sound(rig, deal.v) <==>
        || illegal || k == |v.stacks| || v.stacks[k].quantity < quantity
        || (v.credits + price * quantity >= 0 && UsedWeight(v.stacks) - Weight(g) * quantity <= 10 * rig.maxCargo)
  {
    if Sell(v, illegal, g, quantity, price).done {
      var k := FirstOf(v.stacks, g);
      SaleComesFromFirstStack(v, g, quantity);
      TakeAtTidy(v.stacks, k, quantity);
      TakeAtWeight(v.stacks, k, quantity, Weight);
    }
  }

  /** Two trades the engine accepts that take a fresh ship out of its limits: buying nothing leaves an empty
      stack behind, and selling a negative amount of food leaves the ship in debt. */
  lemma NonPositiveTradesBreakLimits() returns (rig: Rig, v: Vitals)
    ensures Sound(rig, v)
    ensures var deal := Buy(rig, v, false, Ore, 0, 10); deal.done && !Sound(rig, deal.v)
    ensures var deal := Sell(v, false, Food, -1, 10); deal.done && !Sound(rig, deal.v)
  {
    rig := Fit(SCOUT, []);
    var food := Stack(Food, 5, 8);
    v := Vitals(60, 15, 5, 0, [food]);
    assert v.stacks[1..] == [];
    assert UsedWeight(v.stacks) == Weight(Food) * 5 + TotalWeight([], Weight);
    assert MergeIndex([], Ore, 10) == 0 && FirstOf(v.stacks, Food) == 0;
    assert Stocked(v.stacks, 0);
    assert Sound(rig, v);
    BuyKeepsSoundExactlyWhen(rig, v, false, Ore, 0, 10);
    SellKeepsSoundExactlyWhen(rig, v, false, Food, -1, 10);
  }

  // ---- Port services ----

  /** Fills the tank at two credits a unit, all or nothing. */
  function BuyFuel(rig: Rig, v: Vitals): Vitals {
    var needed := rig.maxFuel - v.fuel;
    if needed <= 0 || v.credits < needed * 2 then v else Refuel(rig, v.(credits := v.credits - needed * 2), needed)
  }

  /** Mends the hull at five credits a point, all or nothing. */
  function BuyRepairs(rig: Rig, v: Vitals): Vitals {
    var needed := rig.maxHull - v.hull;
    if needed <= 0 || v.credits < needed * 5 then v else Repair(rig, v.(credits := v.credits - needed * 5), needed)
  }

  lemma ServicesFillUp(rig: Rig, v: Vitals)
    requires Sound(rig, v)
    ensures Sound(rig, BuyFuel(rig, v)) && Sound(rig, BuyRepairs(rig, v))
    ensures BuyFuel(rig, v).fuel == rig.maxFuel <==> v.fuel == rig.maxFuel || v.credits >= 2 * (rig.maxFuel - v.fuel)
    ensures BuyRepairs(rig, v).hull == rig.maxHull <==> v.hull == rig.maxHull || v.credits >= 5 * (rig.maxHull - v.hull)
  {
  }

  /** Fuel costs two credits a unit and repairs five a point; neither changes anything else. */
  lemma ServicesCost(rig: Rig, v: Vitals)
    ensures var w := BuyFuel(rig, v);
      && w == v.(fuel := w.fuel, credits := w.credits)
      && v.credits - w.credits == 2 * (w.fuel - v.fuel) && w.fuel >= v.fuel
    ensures var w := BuyRepairs(rig, v);
      && w == v.(hull := w.hull, credits := w.credits)
      && v.credits - w.credits == 5 * (w.hull - v.hull) && w.hull >= v.hull
  {
  }

  // ---- On ship objects ----

  method FuelUp(ship: Ship) returns (done: bool)
    requires ship.Valid()
    modifies ship`credits, ship`fuel
    ensures ship.Valid() && ship.State() == BuyFuel(ship.Fitted(), old(ship.State()))
    ensures done <==> ship.fuel > old(ship.fuel)
  {
    var needed := ship.Fitted().maxFuel - ship.fuel;
    if needed <= 0 || ship.credits < needed * 2 {
      return false;
    }
    ship.credits := ship.credits - needed * 2;
    ship.TakeFuel(needed);
    return true;
  }

  method MendHull(ship: Ship) returns (done: bool)
    requires ship.Valid()
    modifies ship`credits, ship`hull
    ensures ship.Valid() && ship.State() == BuyRepairs(ship.Fitted(), old(ship.State()))
    ensures done <==> ship.hull > old(ship.hull)
  {
    var needed := ship.Fitted().maxHull - ship.hull;
    if needed <= 0 || ship.credits < needed * 5 {
      return false;
    }
    ship.credits := ship.credits - needed * 5;
    ship.RepairHull(needed);
    return true;
  }

  method BuyGoods(ship: Ship, illegal: bool, g: Good, quantity: int, price: int) returns (done: bool)
    requires ship.Valid()
    modifies ship`credits, ship`hold, ship`items, ship.items
    ensures ship.Held() && (quantity >= 1 ==> ship.Valid()) && fresh(ship.items - old(ship.items))
    ensures Deal(ship.State(), done) == Buy(ship.Fitted(), old(ship.State()), illegal, g, quantity, price)
  {
    done := false;
    if illegal {
      return;
    }
    var fits := ship.FitsCargo(g, quantity);
    if !fits {
      return;
    }
    var total := price * quantity;
    if ship.credits < total {
      return;
    }
    ship.credits := ship.credits - total;
    done := ship.LoadCargo(g, quantity, price);
  }

  method FindStack(ship: Ship, g: Good) returns (k: nat)
    requires ship.Valid()
    ensures k == FirstOf(StacksOf(ship.hold), g)
  {
    k := 0;
    while k < |ship.hold| && ship.hold[k].good != g
      invariant k <= |ship.hold| && FirstOf(StacksOf(ship.hold), g) >= k
    {
      k := k + 1;
    }
  }

  /** Pays for goods the first stack is known to hold, and takes them out. */
  method Deliver(ship: Ship, g: Good, quantity: int, price: int) returns (done: bool)
    requires ship.Valid()
    requires FirstOf(StacksOf(ship.hold), g) < |ship.hold|
    requires StacksOf(ship.hold)[FirstOf(StacksOf(ship.hold), g)].quantity >= quantity
    modifies ship`credits, ship`hold, ship.items
    ensures ship.Valid() && done
    ensures ship.State() == old(RemoveCargo(ship.State().(credits := ship.credits + price * quantity), g, quantity))
  {
    SaleComesFromFirstStack(ship.State(), g, quantity);
    ship.credits := ship.credits + price * quantity;
    ghost var at;
    done, at := ship.UnloadCargo(g, quantity);
  }

  method SellGoods(ship: Ship, illegal: bool, g: Good, quantity: int, price: int) returns (done: bool)
    requires ship.Valid()
    modifies ship`credits, ship`hold, ship.items
    ensures ship.Valid()
    ensures Deal(ship.State(), done) == Sell(old(ship.State()), illegal, g, quantity, price)
  {
    done := false;
    if illegal {
      return;
    }
    var k := FindStack(ship, g);
    if k == |ship.hold| || ship.hold[k].quantity < quantity {
      return;
    }
    done := Deliver(ship, g, quantity, price);
  }
}
