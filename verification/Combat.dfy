/** Combat on ship objects (CombatEngine, caravaneer/combat.py), each method tied to the functions of
    module Battle. The looting loop runs over a snapshot of references to the very stacks it edits. */
module Combat {
  import opened Arith
  import opened Cargo
  import opened Ships
  import opened Battle

  /** The rigs as the fight starts, and who wants to leave. */
  function SettingOf(attacker: Ship, defender: Ship, attackerWantsOut: bool, defenderWantsOut: bool, nebula: bool)
    : Setting
    reads attacker`modules, defender`modules
  {
    Setting(attacker.Fitted(), defender.Fitted(), attackerWantsOut, defenderWantsOut, nebula)
  }

  /** Two different ships with no stack object in common. */
  ghost predicate Apart(a: Ship, b: Ship)
    reads a`items, b`items
  {
    a != b && a.items !! b.items
  }

  /** One shot; the return value is the hull damage. */
  method Fire(shooter: Ship, target: Ship, draw: real) returns (dealt: int)
    requires shooter != target
    modifies target`shields, target`hull
    ensures target.State() == Shot(shooter.Fitted(), target.Fitted(), old(target.State()), draw)
    ensures dealt == old(target.hull) - target.hull
    ensures old(target.shields) >= 0 ==>
              old(target.shields) - target.shields + dealt
              == if Hits(shooter.Fitted(), target.Fitted(), draw) then shooter.Fitted().attack else 0
  {
    if 100.0 * draw > Accuracy(shooter.Fitted(), target.Fitted()) as real {
      return 0;
    }
    dealt := shooter.Fitted().attack;
    if target.shields > 0 {
      var absorbed := Min(target.shields, dealt);
      target.shields := target.shields - absorbed;
      dealt := dealt - absorbed;
    }
    target.hull := target.hull - dealt;
  }

  method AttackerShoots(ghost s: Setting, attacker: Ship, defender: Ship, ghost b: Bout, tally: Tally, draw: real)
    returns (tally': Tally)
    requires attacker != defender && s.attacker == attacker.Fitted() && s.defender == defender.Fitted()
    requires b.attacker == attacker.State() && b.defender == defender.State() && b.tally == tally
    modifies defender`shields, defender`hull
    ensures AttackerFires(s, b, draw) == b.(defender := defender.State(), tally := tally')
  {
    tally' := tally;
    if attacker.hull > 0 {
      var dealt := Fire(attacker, defender, draw);
      tally' := AttackerScores(tally, dealt);
    }
  }

  method DefenderShoots(ghost s: Setting, attacker: Ship, defender: Ship, ghost b: Bout, tally: Tally, draw: real)
    returns (tally': Tally)
    requires attacker != defender && s.attacker == attacker.Fitted() && s.defender == defender.Fitted()
    requires b.attacker == attacker.State() && b.defender == defender.State() && b.tally == tally
    modifies attacker`shields, attacker`hull
    ensures DefenderFires(s, b, draw) == b.(attacker := attacker.State(), tally := tally')
  {
    tally' := tally;
    if defender.hull > 0 {
      var dealt := Fire(defender, attacker, draw);
      tally' := DefenderScores(tally, dealt);
    }
  }

  /** The variables of the round loop besides the ships. */
  datatype Progress = Progress(tally: Tally, attackerTried: bool, defenderTried: bool, over: bool)

  ghost function BoutOf(attacker: Vitals, defender: Vitals, p: Progress): Bout {
    Bout(attacker, defender, p.tally, p.attackerTried, p.defenderTried, p.over)
  }

  method LeadAttacker(s: Setting, attacker: Ship, defender: Ship, p: Progress, d: Draws) returns (p': Progress)
    requires attacker != defender && s.attacker == attacker.Fitted() && s.defender == defender.Fitted()
    modifies attacker`shields, attacker`hull, defender`shields, defender`hull
    ensures BoutOf(attacker.State(), defender.State(), p') ==
            AttackerLeads(s, BoutOf(old(attacker.State()), old(defender.State()), p), d)
  {
    p' := p;
    if s.attackerWantsOut && !p.attackerTried {
      if 100.0 * d.attackerFlight < FleeChance(s.attacker, s.defender, s.nebula) as real {
        return p.(over := true, tally := p.tally.(attackerFled := true, success := false));
      }
      p' := p'.(attackerTried := true);
    }
    ghost var b := BoutOf(attacker.State(), defender.State(), p');
    var tally := AttackerShoots(s, attacker, defender, b, p'.tally, d.firstShot);
    p' := p'.(tally := tally);
    p' := Answer(s, attacker, defender, p', d);
  }

  /** The defender's half of a round the attacker leads. */
  method Answer(s: Setting, attacker: Ship, defender: Ship, p: Progress, d: Draws) returns (p': Progress)
    requires attacker != defender && s.attacker == attacker.Fitted() && s.defender == defender.Fitted()
    modifies attacker`shields, attacker`hull
    ensures BoutOf(attacker.State(), defender.State(), p') ==
            DefenderAnswers(s, BoutOf(old(attacker.State()), old(defender.State()), p), d)
  {
    p' := p;
    if defender.hull <= 0 {
      return p.(over := true, tally := p.tally.(defenderDestroyed := true, success := true));
    }
    if s.defenderWantsOut && !p.defenderTried {
      if 100.0 * d.defenderFlight < FleeChance(s.defender, s.attacker, s.nebula) as real {
        return p.(over := true, tally := p.tally.(defenderFled := true, success := true));
      }
      p' := p.(defenderTried := true);
    }
    ghost var b := BoutOf(attacker.State(), defender.State(), p');
    var tally := DefenderShoots(s, attacker, defender, b, p'.tally, d.secondShot);
    p' := p'.(tally := tally);
    if attacker.hull <= 0 {
      p' := p'.(over := true, tally := tally.(defenderDestroyed := false, success := false));
    }
  }

  method LeadDefender(s: Setting, attacker: Ship, defender: Ship, p: Progress, d: Draws) returns (p': Progress)
    requires attacker != defender && s.attacker == attacker.Fitted() && s.defender == defender.Fitted()
    modifies attacker`shields, attacker`hull, defender`shields, defender`hull
    ensures BoutOf(attacker.State(), defender.State(), p') ==
            DefenderLeads(s, BoutOf(old(attacker.State()), old(defender.State()), p), d)
  {
    ghost var b := BoutOf(attacker.State(), defender.State(), p);
    var tally := DefenderShoots(s, attacker, defender, b, p.tally, d.firstShot);
    p' := p.(tally := tally);
    if attacker.hull <= 0 {
      return p'.(over := true, tally := tally.(defenderDestroyed := false, success := false));
    }
    b := BoutOf(attacker.State(), defender.State(), p');
    tally := AttackerShoots(s, attacker, defender, b, p'.tally, d.secondShot);
    p' := p'.(tally := tally);
    if defender.hull <= 0 {
      p' := p'.(over := true, tally := tally.(defenderDestroyed := true, success := true));
    }
  }

  /** play is the round function of this setting. */
  ghost predicate Plays(play: (Bout, Draws) -> Bout, s: Setting) {
    forall b, d {:trigger Round(s, b, d)} :: play(b, d) == Round(s, b, d)
  }

  method PlayRound(s: Setting, ghost play: (Bout, Draws) -> Bout, attacker: Ship, defender: Ship, p: Progress, d: Draws)
    returns (p': Progress)
    requires attacker != defender && s.attacker == attacker.Fitted() && s.defender == defender.Fitted()
    requires Plays(play, s)
    modifies attacker`shields, attacker`hull, defender`shields, defender`hull
    ensures BoutOf(attacker.State(), defender.State(), p') ==
            play(BoutOf(old(attacker.State()), old(defender.State()), p), d)
  {
    var p0 := p.(tally := p.tally.(turns := p.tally.turns + 1));
    ghost var b := BoutOf(attacker.State(), defender.State(), p);
    assert BoutOf(attacker.State(), defender.State(), p0) == Counted(b);
    if s.attacker.speed >= s.defender.speed {
      assert Round(s, b, d) == AttackerLeads(s, Counted(b), d);
      p' := LeadAttacker(s, attacker, defender, p0, d);
    } else {
      assert Round(s, b, d) == DefenderLeads(s, Counted(b), d);
      p' := LeadDefender(s, attacker, defender, p0, d);
    }
  }

  /** The round loop: at most |draws| rounds, left early as soon as somebody is out. */
  method Exchange(s: Setting, ghost play: (Bout, Draws) -> Bout, attacker: Ship, defender: Ship, draws: seq<Draws>)
    returns (p: Progress)
    requires attacker != defender && s.attacker == attacker.Fitted() && s.defender == defender.Fitted()
    requires Plays(play, s)
    modifies attacker`shields, attacker`hull, defender`shields, defender`hull
    ensures BoutOf(attacker.State(), defender.State(), p) ==
            Iterate(play, Opening(old(attacker.State()), old(defender.State())), draws, |draws|)
  {
    ghost var opening := Opening(attacker.State(), defender.State());
    p := Progress(NO_TALLY, false, false, false);
    var round := 0;
    while round < |draws| && !p.over
      invariant 0 <= round <= |draws|
      invariant BoutOf(attacker.State(), defender.State(), p) == Iterate(play, opening, draws, round)
    {
      p := PlayRound(s, play, attacker, defender, p, draws[round]);
      round := round + 1;
    }
    IterateStops(play, opening, draws, round, |draws|);
  }

  /** Loads goods onto one of two ships; the other is not touched. */
  method Give(attacker: Ship, defender: Ship, g: Good, quantity: int, price: int)
    requires attacker.Valid() && defender.Valid() && Apart(attacker, defender) && quantity >= 1
    requires CanFit(attacker.Fitted(), StacksOf(attacker.hold), g, quantity)
    modifies attacker`hold, attacker`items, attacker.items
    ensures attacker.Valid() && defender.Valid() && Apart(attacker, defender)
    ensures StacksOf(attacker.hold) == AddTo(old(StacksOf(attacker.hold)), g, quantity, price)
    ensures StacksOf(defender.hold) == old(StacksOf(defender.hold))
    ensures old(attacker.items) <= attacker.items && fresh(attacker.items - old(attacker.items))
  {
    var loaded := attacker.LoadCargo(g, quantity, price);
    forall i | 0 <= i < |defender.hold|
      ensures defender.hold[i].quantity == old(defender.hold[i].quantity)
    {
      assert OwnedItem(defender.hold, i, defender.items);
    }
    assert StacksOf(defender.hold) == old(StacksOf(defender.hold));
  }

  /** Removes goods from one of two ships, at or before the place of snapshot[k]; the stack objects
      after it stay. */
  method Take(attacker: Ship, defender: Ship, g: Good, quantity: int, ghost snapshot: seq<CargoItem>, ghost k: nat)
    requires attacker.Valid() && defender.Valid() && Apart(attacker, defender) && quantity >= 1
    requires k < |snapshot| && EndsAlike(snapshot, defender.hold, k)
    requires FirstFit(StacksOf(defender.hold), g, quantity) <= |defender.hold| - (|snapshot| - k)
    modifies defender`hold, defender.items
    ensures attacker.Valid() && defender.Valid() && Apart(attacker, defender)
    ensures StacksOf(attacker.hold) == old(StacksOf(attacker.hold))
    ensures StacksOf(defender.hold) == RemoveFrom(old(StacksOf(defender.hold)), g, quantity)
    ensures EndsAlike(snapshot, defender.hold, k + 1)
  {
    EndShrinks(snapshot, defender.hold, k);
    RemovalKeepsEnd(snapshot, defender.hold, k, FirstFit(StacksOf(defender.hold), g, quantity));
    var removed, at := defender.UnloadCargo(g, quantity);
    forall i | 0 <= i < |attacker.hold|
      ensures attacker.hold[i].quantity == old(attacker.hold[i].quantity)
    {
      assert OwnedItem(attacker.hold, i, attacker.items);
    }
    assert StacksOf(attacker.hold) == old(StacksOf(attacker.hold));
  }

  /** Moves goods from the defender to the attacker: loaded first, then removed. */
  method Transfer(attacker: Ship, defender: Ship, g: Good, quantity: int, price: int,
                  ghost snapshot: seq<CargoItem>, ghost k: nat)
    requires attacker.Valid() && defender.Valid() && Apart(attacker, defender) && quantity >= 1
    requires CanFit(attacker.Fitted(), StacksOf(attacker.hold), g, quantity)
    requires k < |snapshot| && EndsAlike(snapshot, defender.hold, k)
    requires FirstFit(StacksOf(defender.hold), g, quantity) <= |defender.hold| - (|snapshot| - k)
    modifies attacker`hold, attacker`items, attacker.items, defender`hold, defender.items
    ensures attacker.Valid() && defender.Valid() && Apart(attacker, defender)
    ensures StacksOf(attacker.hold) == AddTo(old(StacksOf(attacker.hold)), g, quantity, price)
    ensures StacksOf(defender.hold) == RemoveFrom(old(StacksOf(defender.hold)), g, quantity)
    ensures EndsAlike(snapshot, defender.hold, k + 1)
    ensures old(attacker.items) <= attacker.items && fresh(attacker.items - old(attacker.items))
  {
    Give(attacker, defender, g, quantity, price);
    Take(attacker, defender, g, quantity, snapshot, k);
  }

  /** What holds before each turn of the looting loop: the snapshot from k on is the untouched end of
      the defender's live hold. */
  ghost predicate Looting(attacker: Ship, defender: Ship, snapshot: seq<CargoItem>, loser: seq<Stack>, k: nat)
    requires k <= |snapshot| == |loser|
    reads attacker`hold, attacker`items, attacker.hold, defender`hold, defender`items, defender.hold
  {
    && attacker.Valid() && defender.Valid() && Apart(attacker, defender)
    && EndsAlike(snapshot, defender.hold, k)
    && EndsAlike(loser, StacksOf(defender.hold), k)
  }

  ghost function SpoilsOf(attacker: Ship, defender: Ship, taken: seq<(Good, int)>): Spoils
    reads attacker`hold, attacker.hold, defender`hold, defender.hold
  {
    Spoils(StacksOf(attacker.hold), StacksOf(defender.hold), taken)
  }

  /** One turn of the loop. The item is read live, and still holds what it held when the snapshot was taken. */
  method LootOne(attacker: Ship, defender: Ship, snapshot: seq<CargoItem>, ghost loser: seq<Stack>, k: nat,
                 taken: seq<(Good, int)>)
    returns (taken': seq<(Good, int)>)
    requires k < |snapshot| == |loser| && Stocked(loser, k)
    requires Looting(attacker, defender, snapshot, loser, k)
    modifies attacker`hold, attacker`items, attacker.items, defender`hold, defender.items
    ensures Looting(attacker, defender, snapshot, loser, k + 1)
    ensures SpoilsOf(attacker, defender, taken') ==
            LootStep(attacker.Fitted(), old(SpoilsOf(attacker, defender, taken)), loser[k])
    ensures old(attacker.items) <= attacker.items && fresh(attacker.items - old(attacker.items))
  {
    taken' := taken;
    var item := snapshot[k];
    EndShrinks(snapshot, defender.hold, k);
    EndShrinks(loser, StacksOf(defender.hold), k);
    RemovalStaysBehind(loser, StacksOf(defender.hold), k);
    var good, quantity := item.good, if item.quantity / 5 > 1 then item.quantity / 5 else 1;
    var fits := attacker.FitsCargo(good, quantity);
    if fits {
      taken' := taken + [(good, quantity)];
      Transfer(attacker, defender, good, quantity, item.price, snapshot, k);
    }
  }

  /** Loots the defender's hold, walking a snapshot of it while removing from the live list. */
  method Loot(attacker: Ship, defender: Ship) returns (taken: seq<(Good, int)>)
    requires attacker.Valid() && defender.Valid() && Apart(attacker, defender)
    modifies attacker`hold, attacker`items, attacker.items, defender`hold, defender.items
    ensures attacker.Valid() && defender.Valid() && Apart(attacker, defender)
    ensures SpoilsOf(attacker, defender, taken) ==
            Looted(attacker.Fitted(), old(StacksOf(attacker.hold)), old(StacksOf(defender.hold)), |old(defender.hold)|)
  {
    taken := [];
    ghost var winner, loser := StacksOf(attacker.hold), StacksOf(defender.hold);
    var snapshot := defender.hold;
    for k := 0 to |snapshot|
      invariant Looting(attacker, defender, snapshot, loser, k)
      invariant old(attacker.items) <= attacker.items && fresh(attacker.items - old(attacker.items))
      invariant SpoilsOf(attacker, defender, taken) == Looted(attacker.Fitted(), winner, loser, k)
    {
      assert Stocked(loser, k);
      taken := LootOne(attacker, defender, snapshot, loser, k, taken);
    }
  }

  /** A fifth of the credits, then the cargo. */
  method Plunder(attacker: Ship, defender: Ship) returns (credits: int, taken: seq<(Good, int)>)
    requires attacker.Valid() && defender.Valid() && Apart(attacker, defender)
    modifies attacker`credits, attacker`hold, attacker`items, attacker.items
    modifies defender`credits, defender`hold, defender.items
    ensures attacker.Valid() && defender.Valid() && Apart(attacker, defender)
    ensures credits == old(defender.credits) / 5
    ensures var spoils := Looted(attacker.Fitted(), old(StacksOf(attacker.hold)), old(StacksOf(defender.hold)),
                                 |old(defender.hold)|);
      && attacker.State() == old(attacker.State()).(credits := old(attacker.credits) + credits, stacks := spoils.winner)
      && defender.State() == old(defender.State()).(credits := old(defender.credits) - credits, stacks := spoils.loser)
      && taken == spoils.taken
  {
    credits := defender.credits / 5;
    attacker.credits := attacker.credits + credits;
    defender.credits := defender.credits - credits;
    taken := Loot(attacker, defender);
  }

  /** After the rounds: the verdict, and the loot if the defender was destroyed. */
  method Settle(s: Setting, attacker: Ship, defender: Ship, p: Progress)
    returns (tally: Tally, lootCredits: int, lootCargo: seq<(Good, int)>)
    requires attacker.Valid() && defender.Valid() && Apart(attacker, defender) && s.attacker == attacker.Fitted()
    modifies attacker`credits, attacker`hold, attacker`items, attacker.items
    modifies defender`credits, defender`hold, defender.items
    ensures attacker.Valid() && defender.Valid() && Apart(attacker, defender)
    ensures Outcome(attacker.State(), defender.State(), tally, lootCredits, lootCargo) ==
            Settled(s, BoutOf(old(attacker.State()), old(defender.State()), p))
  {
    tally := p.tally;
    if !tally.defenderDestroyed && !tally.attackerFled && !tally.defenderFled {
      tally := tally.(success := false);
    }
    lootCredits, lootCargo := 0, [];
    if tally.defenderDestroyed {
      lootCredits, lootCargo := Plunder(attacker, defender);
    }
  }

  method Conclude(s: Setting, attacker: Ship, defender: Ship, p: Progress)
    returns (tally: Tally, lootCredits: int, lootCargo: seq<(Good, int)>)
    requires attacker.Valid() && defender.Valid() && Apart(attacker, defender) && s.attacker == attacker.Fitted()
    modifies attacker`shields, attacker`credits, attacker`hold, attacker`items, attacker.items
    modifies defender`shields, defender`credits, defender`hold, defender.items
    ensures attacker.Valid() && defender.Valid() && Apart(attacker, defender)
    ensures Outcome(attacker.State(), defender.State(), tally, lootCredits, lootCargo) ==
            Aftermath(s, BoutOf(old(attacker.State()), old(defender.State()), p))
  {
    tally, lootCredits, lootCargo := Settle(s, attacker, defender, p);
    TireShields(attacker);
    TireShields(defender);
  }

  method TireShields(ship: Ship)
    modifies ship`shields
    ensures ship.State() == Tire(old(ship.State()))
  {
    ship.shields := if ship.shields - 2 > 0 then ship.shields - 2 else 0;
  }

  const MAX_ROUNDS := 5

  /** A whole fight, at most five rounds long. */
  method Resolve(attacker: Ship, defender: Ship, attackerWantsOut: bool, defenderWantsOut: bool, nebula: bool,
                 draws: seq<Draws>)
    returns (tally: Tally, lootCredits: int, lootCargo: seq<(Good, int)>)
    requires attacker.Valid() && defender.Valid() && Apart(attacker, defender) && |draws| == MAX_ROUNDS
    modifies attacker`shields, attacker`hull, attacker`credits, attacker`hold, attacker`items, attacker.items
    modifies defender`shields, defender`hull, defender`credits, defender`hold, defender.items
    ensures attacker.Valid() && defender.Valid() && Apart(attacker, defender)
    ensures Outcome(attacker.State(), defender.State(), tally, lootCredits, lootCargo) ==
            Fight(old(SettingOf(attacker, defender, attackerWantsOut, defenderWantsOut, nebula)),
                  old(attacker.State()), old(defender.State()), draws)
    ensures old(attacker.hull) > 0 && old(defender.hull) > 0 ==> 1 <= tally.turns <= 5
  {
    var s := SettingOf(attacker, defender, attackerWantsOut, defenderWantsOut, nebula);
    if attacker.hull > 0 && defender.hull > 0 {
      FightsAreFair(s, attacker.State(), defender.State(), draws, MAX_ROUNDS);
    }
    var p := Exchange(s, RoundOf(s), attacker, defender, draws);
    tally, lootCredits, lootCargo := Conclude(s, attacker, defender, p);
  }
}
