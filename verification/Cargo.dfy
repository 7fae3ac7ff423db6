/** Cargo stacks as values: what a hold contains and what adding and removing do to it
    (CargoItem and the cargo methods of Ship, caravaneer/player.py; goods from caravaneer/core.py).

    Weights are in tenths of a cargo unit. */
module Cargo {
  import opened Arith

  datatype Good =
    | Ore | FuelCells | Food | LuxuryFood | Textiles | Machinery | Electronics | Medicine
    | Weapons | Artifacts | Spice | DataCrystals | Slaves | Narcotics

  function Weight(g: Good): nat {
    match g
    case Ore => 20 case FuelCells => 15 case Food => 10 case LuxuryFood => 5 case Textiles => 10
    case Machinery => 30 case Electronics => 5 case Medicine => 2 case Weapons => 20
    case Artifacts => 1 case Spice => 3 case DataCrystals => 1 case Slaves => 10 case Narcotics => 2
  }

  datatype Stack = Stack(good: Good, quantity: int, price: int)

  // ---- Totals ----

  function UsedWeight(stacks: seq<Stack>): int {
    TotalWeight(stacks, Weight)
  }

  function TotalWeight(stacks: seq<Stack>, weight: Good -> nat): int {
    if stacks == [] then 0 else weight(stacks[0].good) * stacks[0].quantity + TotalWeight(stacks[1..], weight)
  }

  function Units(stacks: seq<Stack>, g: Good): int {
    if stacks == [] then 0 else (if stacks[0].good == g then stacks[0].quantity else 0) + Units(stacks[1..], g)
  }

  predicate Stocked(stacks: seq<Stack>, i: nat)
    requires i < |stacks|
  {
    stacks[i].quantity >= 1
  }

  predicate DifferentLots(stacks: seq<Stack>, i: nat, j: nat)
    requires i < |stacks| && j < |stacks|
  {
    stacks[i].good != stacks[j].good || stacks[i].price != stacks[j].price
  }

  /** Every stack holds something, and no two stacks share a good and a price. */
  ghost predicate Tidy(stacks: seq<Stack>) {
    && (forall i {:trigger Stocked(stacks, i)} :: 0 <= i < |stacks| ==> Stocked(stacks, i))
    && (forall i, j {:trigger DifferentLots(stacks, i, j)} :: 0 <= i < j < |stacks| ==> DifferentLots(stacks, i, j))
  }

  // ---- Adding ----

  /** The first stack of that good bought at that price, or the end. */
  function MergeIndex(stacks: seq<Stack>, g: Good, price: int): (k: nat)
    ensures k <= |stacks|
    ensures k < |stacks| ==> stacks[k].good == g && stacks[k].price == price
    ensures forall i :: 0 <= i < k ==> stacks[i].good != g || stacks[i].price != price
  {
    if stacks == [] || (stacks[0].good == g && stacks[0].price == price) then 0
    else 1 + MergeIndex(stacks[1..], g, price)
  }

  function AddTo(stacks: seq<Stack>, g: Good, quantity: int, price: int): seq<Stack> {
    var k := MergeIndex(stacks, g, price);
    if k < |stacks| then stacks[k := stacks[k].(quantity := stacks[k].quantity + quantity)]
    else stacks + [Stack(g, quantity, price)]
  }

  lemma {:induction false} WeightChange(stacks: seq<Stack>, k: nat, quantity: int, weight: Good -> nat)
    requires k < |stacks|
    ensures var w := weight(stacks[k].good);
      TotalWeight(stacks[k := stacks[k].(quantity := quantity)], weight) + w * stacks[k].quantity
      == TotalWeight(stacks, weight) + w * quantity
    decreases k
  {
    var after := stacks[k := stacks[k].(quantity := quantity)];
    if k == 0 {
      assert after[1..] == stacks[1..];
    } else {
      WeightChange(stacks[1..], k - 1, quantity, weight);
      assert after[1..] == stacks[1..][k - 1 := stacks[k].(quantity := quantity)];
    }
  }

  lemma {:induction false} WeightAppend(stacks: seq<Stack>, more: Stack, weight: Good -> nat)
    ensures TotalWeight(stacks + [more], weight) == TotalWeight(stacks, weight) + weight(more.good) * more.quantity
  {
    if stacks == [] {
      assert stacks + [more] == [more];
    } else {
      WeightAppend(stacks[1..], more, weight);
      assert (stacks + [more])[1..] == stacks[1..] + [more];
    }
  }

  lemma {:induction false} WeightRemove(stacks: seq<Stack>, k: nat, weight: Good -> nat)
    requires k < |stacks|
    ensures TotalWeight(stacks[..k] + stacks[k + 1..], weight) ==
            TotalWeight(stacks, weight) - weight(stacks[k].good) * stacks[k].quantity
    decreases k
  {
    if k == 0 {
      assert stacks[..0] + stacks[1..] == stacks[1..];
    } else {
      var rest, after := stacks[1..], stacks[..k] + stacks[k + 1..];
      WeightRemove(rest, k - 1, weight);
      assert after[1..] == rest[..k - 1] + rest[k..];
    }
  }

  lemma AddToWeight(stacks: seq<Stack>, g: Good, quantity: int, price: int, weight: Good -> nat)
    ensures TotalWeight(AddTo(stacks, g, quantity, price), weight) == TotalWeight(stacks, weight) + weight(g) * quantity
  {
    var k := MergeIndex(stacks, g, price);
    if k < |stacks| {
      MulAdd(weight(g), stacks[k].quantity, quantity);
      WeightChange(stacks, k, stacks[k].quantity + quantity, weight);
    } else {
      WeightAppend(stacks, Stack(g, quantity, price), weight);
    }
  }

  /** The weight that counts one good's units. */
  function Only(g: Good): Good -> nat {
    (other: Good) => if other == g then 1 else 0
  }

  lemma {:induction false} UnitsAreWeight(stacks: seq<Stack>, g: Good)
    ensures Units(stacks, g) == TotalWeight(stacks, Only(g))
  {
    if stacks != [] {
      UnitsAreWeight(stacks[1..], g);
    }
  }

  /** Adding changes exactly one good's total, by the quantity added. */
  lemma AddToUnits(stacks: seq<Stack>, g: Good, quantity: int, price: int, other: Good)
    ensures Units(AddTo(stacks, g, quantity, price), other)
         == Units(stacks, other) + (if other == g then quantity else 0)
  {
    UnitsAreWeight(stacks, other);
    UnitsAreWeight(AddTo(stacks, g, quantity, price), other);
    AddToWeight(stacks, g, quantity, price, Only(other));
  }

  /** Adding keeps the list tidy exactly when the stack it ends up in holds something. */
  lemma AddToTidyExactlyWhen(stacks: seq<Stack>, g: Good, quantity: int, price: int)
    requires Tidy(stacks)
    ensures var k := MergeIndex(stacks, g, price);
      Tidy(AddTo(stacks, g, quantity, price))
      <==> (if k < |stacks| then stacks[k].quantity + quantity >= 1 else quantity >= 1)
  {
    var k, after := MergeIndex(stacks, g, price), AddTo(stacks, g, quantity, price);
    assert Stocked(after, k) <==> after[k].quantity >= 1;
    forall i | 0 <= i < |after| && i != k
      ensures Stocked(after, i)
    {
      assert Stocked(stacks, i);
    }
    forall i, j | 0 <= i < j < |after|
      ensures DifferentLots(after, i, j)
    {
      if j < |stacks| {
        assert DifferentLots(stacks, i, j);
      }
    }
  }

  lemma AddToTidy(stacks: seq<Stack>, g: Good, quantity: int, price: int)
    requires Tidy(stacks) && quantity >= 1
    ensures Tidy(AddTo(stacks, g, quantity, price))
  {
    AddToTidyExactlyWhen(stacks, g, quantity, price);
    var k := MergeIndex(stacks, g, price);
    if k < |stacks| {
      assert Stocked(stacks, k);
    }
  }

  /** The units of one good bought at one price. */
  function Lot(stacks: seq<Stack>, g: Good, price: int): int {
    if stacks == [] then 0 else
      (if stacks[0].good == g && stacks[0].price == price then stacks[0].quantity else 0) + Lot(stacks[1..], g, price)
  }

  /** Adding changes exactly one lot, by the quantity added. */
  lemma {:induction false} AddToLot(stacks: seq<Stack>, g: Good, quantity: int, price: int, other: Good, paid: int)
    ensures Lot(AddTo(stacks, g, quantity, price), other, paid)
         == Lot(stacks, other, paid) + (if other == g && paid == price then quantity else 0)
  {
    var after := AddTo(stacks, g, quantity, price);
    if stacks == [] {
      assert after[1..] == [];
    } else if stacks[0].good == g && stacks[0].price == price {
      assert after[1..] == stacks[1..];
    } else {
      AddToLot(stacks[1..], g, quantity, price, other, paid);
      assert after[1..] == AddTo(stacks[1..], g, quantity, price);
    }
  }

  /** Adding leaves the order alone: at most one stack is new, at the end, and the old ones keep good and price. */
  lemma AddToKeepsOrder(stacks: seq<Stack>, g: Good, quantity: int, price: int)
    ensures var after := AddTo(stacks, g, quantity, price);
      && |stacks| <= |after| <= |stacks| + 1
      && forall i :: 0 <= i < |stacks| ==> after[i] == stacks[i].(quantity := after[i].quantity)
  {
  }

  // ---- Removing ----

  /** The first stack of that good with at least that much in it, or the end. */
  function FirstFit(stacks: seq<Stack>, g: Good, quantity: int): (k: nat)
    ensures k <= |stacks|
    ensures k < |stacks| ==> stacks[k].good == g && stacks[k].quantity >= quantity
    ensures forall i :: 0 <= i < k ==> stacks[i].good != g || stacks[i].quantity < quantity
  {
    if stacks == [] || (stacks[0].good == g && stacks[0].quantity >= quantity) then 0
    else 1 + FirstFit(stacks[1..], g, quantity)
  }

  /** Taking from one stack only; an emptied stack disappears. */
  function TakeAt(stacks: seq<Stack>, k: nat, quantity: int): seq<Stack>
    requires k < |stacks|
  {
    if stacks[k].quantity == quantity then stacks[..k] + stacks[k + 1..]
    else stacks[k := stacks[k].(quantity := stacks[k].quantity - quantity)]
  }

  function RemoveFrom(stacks: seq<Stack>, g: Good, quantity: int): seq<Stack> {
    var k := FirstFit(stacks, g, quantity);
    if k < |stacks| then TakeAt(stacks, k, quantity) else stacks
  }

  lemma TakeAtWeight(stacks: seq<Stack>, k: nat, quantity: int, weight: Good -> nat)
    requires k < |stacks|
    ensures TotalWeight(TakeAt(stacks, k, quantity), weight) ==
            TotalWeight(stacks, weight) - weight(stacks[k].good) * quantity
  {
    var w, left := weight(stacks[k].good), stacks[k].quantity - quantity;
    MulAdd(w, stacks[k].quantity, quantity);
    if left == 0 {
      WeightRemove(stacks, k, weight);
    } else {
      assert TakeAt(stacks, k, quantity) == stacks[k := stacks[k].(quantity := left)];
      WeightChange(stacks, k, left, weight);
    }
  }

  lemma TakeAtUnits(stacks: seq<Stack>, k: nat, quantity: int, other: Good)
    requires k < |stacks|
    ensures Units(TakeAt(stacks, k, quantity), other) ==
            Units(stacks, other) - (if other == stacks[k].good then quantity else 0)
  {
    UnitsAreWeight(stacks, other);
    UnitsAreWeight(TakeAt(stacks, k, quantity), other);
    TakeAtWeight(stacks, k, quantity, Only(other));
  }

  lemma TakeAtTidy(stacks: seq<Stack>, k: nat, quantity: int)
    requires Tidy(stacks) && k < |stacks| && quantity <= stacks[k].quantity
    ensures Tidy(TakeAt(stacks, k, quantity))
  {
    var after := TakeAt(stacks, k, quantity);
    var gone := stacks[k].quantity == quantity;
    forall i | 0 <= i < |after|
      ensures Stocked(after, i)
    {
      assert Stocked(stacks, if gone && i >= k then i + 1 else i);
    }
    forall i, j | 0 <= i < j < |after|
      ensures DifferentLots(after, i, j)
    {
      assert DifferentLots(stacks, if gone && i >= k then i + 1 else i, if gone && j >= k then j + 1 else j);
    }
  }

  // ---- Losing a whole stack ----

  function PopAt(stacks: seq<Stack>, k: nat): seq<Stack>
    requires k < |stacks|
  {
    stacks[..k] + stacks[k + 1..]
  }

  lemma PopAtTidy(stacks: seq<Stack>, k: nat)
    requires Tidy(stacks) && k < |stacks|
    ensures Tidy(PopAt(stacks, k))
  {
    assert Stocked(stacks, k);
    TakeAtTidy(stacks, k, stacks[k].quantity);
  }

  lemma PopAtWeight(stacks: seq<Stack>, k: nat, weight: Good -> nat)
    requires k < |stacks| && stacks[k].quantity >= 0
    ensures TotalWeight(PopAt(stacks, k), weight) <= TotalWeight(stacks, weight)
  {
    TakeAtWeight(stacks, k, stacks[k].quantity, weight);
    MulMono(0, stacks[k].quantity, weight(stacks[k].good));
  }
}
