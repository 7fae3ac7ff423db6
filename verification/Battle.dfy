/** What a fight does, as a function of both ships and the draws: rounds, flight, shots and
    looting (CombatEngine, caravaneer/combat.py). Draws are in [0, 1) and arbitrary;
    accuracies and flight chances are in hundredths. */
module Battle {
  import opened Cargo
  import opened Ships

  function Clamp(lo: int, x: int, hi: int): int {
    if x < lo then lo else if x > hi then hi else x
  }

  function Accuracy(shooter: Rig, target: Rig): int {
    Clamp(30, 70 + 5 * (shooter.speed - target.speed), 95)
  }

  function FleeChance(fleeing: Rig, pursuer: Rig, nebula: bool): int {
    Clamp(10, 40 + 10 * (fleeing.speed - pursuer.speed) + (if nebula then 15 else 0), 85)
  }

  function Hits(shooter: Rig, target: Rig, draw: real): bool {
    !(100.0 * draw > Accuracy(shooter, target) as real)
  }

  function Escapes(fleeing: Rig, pursuer: Rig, nebula: bool, draw: real): bool {
    100.0 * draw < FleeChance(fleeing, pursuer, nebula) as real
  }

  /** A hit does attack-power damage, shields first; a miss does nothing. */
  function Shot(shooter: Rig, target: Rig, v: Vitals, draw: real): Vitals {
    if Hits(shooter, target, draw) then TakeDamage(v, shooter.attack) else v
  }

  /** The chance to hit: 0.70 between equal speeds, 0.05 for each point of difference, from 0.30 to 0.95. */
  lemma HitsExactlyWhen(shooter: Rig, target: Rig, draw: real)
    ensures Hits(shooter, target, draw) <==>
            if shooter.speed + 8 <= target.speed then draw <= 0.30
            else if shooter.speed >= target.speed + 5 then draw <= 0.95
            else draw <= 0.70 + 0.05 * (shooter.speed - target.speed) as real
  {
  }

  /** The chance to get away: 0.40 between equal speeds and 0.55 in a nebula, 0.10 for each point of
      difference, from 0.10 to 0.85. */
  lemma EscapesExactlyWhen(fleeing: Rig, pursuer: Rig, nebula: bool, draw: real)
    ensures Escapes(fleeing, pursuer, nebula, draw) <==>
      var chance := (if nebula then 0.55 else 0.40) + 0.10 * (fleeing.speed - pursuer.speed) as real;
      draw < 0.10 || (draw < 0.85 && draw < chance)
  {
  }

  /** A faster ship against a slower one hits, and gets away, whenever the slower one against the faster does;
      and a nebula never spoils an escape. */
  lemma SpeedHelps(a: Rig, b: Rig, faster: Rig, slower: Rig, nebula: bool, draw: real)
    requires faster.speed >= a.speed && slower.speed <= b.speed
    ensures Hits(a, b, draw) ==> Hits(faster, slower, draw)
    ensures Escapes(a, b, nebula, draw) ==> Escapes(faster, slower, nebula, draw)
    ensures Escapes(a, b, false, draw) ==> Escapes(a, b, true, draw)
  {
  }

  /** A hit costs shields and hull together exactly the shooter's attack, shields first; a miss costs nothing;
      and no shot changes anything else. */
  lemma ShotCosts(shooter: Rig, target: Rig, v: Vitals, draw: real)
    requires v.shields >= 0
    ensures var w := Shot(shooter, target, v, draw);
      && (v.shields - w.shields) + (v.hull - w.hull) == (if Hits(shooter, target, draw) then shooter.attack else 0)
      && 0 <= w.shields <= v.shields && w.hull <= v.hull && (w.hull < v.hull ==> w.shields == 0)
      && w == v.(shields := w.shields, hull := w.hull)
  {
    DamageIsShared(v, shooter.attack);
  }

  // ---- The report and the rounds ----

  datatype Tally = Tally(
    turns: nat, attackerDealt: int, defenderDealt: int, attackerShots: nat, defenderShots: nat, hits: nat,
    defenderDestroyed: bool, attackerFled: bool, defenderFled: bool, success: bool)

  const NO_TALLY := Tally(0, 0, 0, 0, 0, 0, false, false, false, false)

  /** The four draws of a round; those the round does not reach are ignored. */
  datatype Draws = Draws(attackerFlight: real, firstShot: real, defenderFlight: real, secondShot: real)

  /** What stays fixed during a fight. */
  datatype Setting = Setting(attacker: Rig, defender: Rig, attackerWantsOut: bool, defenderWantsOut: bool,
                             nebula: bool) {
    /** The faster ship acts first; a tie goes to the attacker. */
    predicate AttackerFirst() {
      attacker.speed >= defender.speed
    }
  }

  datatype Bout = Bout(attacker: Vitals, defender: Vitals, tally: Tally,
                       attackerTried: bool, defenderTried: bool, over: bool)

  function AttackerScores(t: Tally, dealt: int): Tally {
    t.(attackerDealt := t.attackerDealt + dealt, attackerShots := t.attackerShots + 1,
       hits := t.hits + (if dealt > 0 then 1 else 0))
  }

  function DefenderScores(t: Tally, dealt: int): Tally {
    t.(defenderDealt := t.defenderDealt + dealt, defenderShots := t.defenderShots + 1,
       hits := t.hits + (if dealt > 0 then 1 else 0))
  }

  /** A destroyed ship does not fire. */
  function AttackerFires(s: Setting, b: Bout, draw: real): Bout {
    if b.attacker.hull <= 0 then b else
    var target := Shot(s.attacker, s.defender, b.defender, draw);
    b.(defender := target, tally := AttackerScores(b.tally, b.defender.hull - target.hull))
  }

  function DefenderFires(s: Setting, b: Bout, draw: real): Bout {
    if b.defender.hull <= 0 then b else
    var target := Shot(s.defender, s.attacker, b.attacker, draw);
    b.(attacker := target, tally := DefenderScores(b.tally, b.attacker.hull - target.hull))
  }

  function DefenderDown(b: Bout): Bout {
    b.(over := true, tally := b.tally.(defenderDestroyed := true, success := true))
  }

  function AttackerDown(b: Bout): Bout {
    b.(over := true, tally := b.tally.(defenderDestroyed := false, success := false))
  }

  /** A round with the attacker acting first; each ship tries to flee at most once per fight. */
  function AttackerLeads(s: Setting, b: Bout, d: Draws): Bout {
    var tries := s.attackerWantsOut && !b.attackerTried;
    if tries && Escapes(s.attacker, s.defender, s.nebula, d.attackerFlight) then
      b.(over := true, tally := b.tally.(attackerFled := true, success := false))
    else
      DefenderAnswers(s, AttackerFires(s, b.(attackerTried := b.attackerTried || tries), d.firstShot), d)
  }

  /** The defender's half of such a round: it is down, or flees, or fires back. */
  function DefenderAnswers(s: Setting, b: Bout, d: Draws): Bout {
    if b.defender.hull <= 0 then DefenderDown(b) else
      var tries := s.defenderWantsOut && !b.defenderTried;
      if tries && Escapes(s.defender, s.attacker, s.nebula, d.defenderFlight) then
        b.(over := true, tally := b.tally.(defenderFled := true, success := true))
      else
        var b2 := DefenderFires(s, b.(defenderTried := b.defenderTried || tries), d.secondShot);
        if b2.attacker.hull <= 0 then AttackerDown(b2) else b2
  }

  /** A round with the defender acting first: the code lets neither ship try to flee. */
  function DefenderLeads(s: Setting, b: Bout, d: Draws): Bout {
    var b1 := DefenderFires(s, b, d.firstShot);
    if b1.attacker.hull <= 0 then AttackerDown(b1) else
      var b2 := AttackerFires(s, b1, d.secondShot);
      if b2.defender.hull <= 0 then DefenderDown(b2) else b2
  }

  function Counted(b: Bout): Bout {
    b.(tally := b.tally.(turns := b.tally.turns + 1))
  }

  function Round(s: Setting, b: Bout, d: Draws): Bout {
    if s.AttackerFirst() then AttackerLeads(s, Counted(b), d) else DefenderLeads(s, Counted(b), d)
  }

  function Opening(attacker: Vitals, defender: Vitals): Bout {
    Bout(attacker, defender, NO_TALLY, false, false, false)
  }

  /** At most n rounds, none once the fight is over. */
  function Iterate(round: (Bout, Draws) -> Bout, b: Bout, draws: seq<Draws>, n: nat): Bout
    requires n <= |draws|
  {
    if n == 0 then b else
      var before := Iterate(round, b, draws, n - 1);
      if before.over then before else round(before, draws[n - 1])
  }

  /** Once a fight is over, further rounds change nothing. */
  lemma {:induction false} IterateStops(round: (Bout, Draws) -> Bout, b: Bout, draws: seq<Draws>, n: nat, m: nat)
    requires n <= m <= |draws| && (Iterate(round, b, draws, n).over || n == m)
    ensures Iterate(round, b, draws, m) == Iterate(round, b, draws, n)
    decreases m
  {
    if n < m {
      IterateStops(round, b, draws, n, m - 1);
    }
  }

  function RoundOf(s: Setting): (Bout, Draws) -> Bout {
    (b: Bout, d: Draws) => Round(s, b, d)
  }

  /** The fight after at most n rounds. */
  function Rounds(s: Setting, attacker: Vitals, defender: Vitals, draws: seq<Draws>, n: nat): Bout
    requires n <= |draws|
  {
    Iterate(RoundOf(s), Opening(attacker, defender), draws, n)
  }

  /** The damage books balance, and only hulls and shields have changed. */
  ghost predicate Level(s: Setting, attacker: Vitals, defender: Vitals, b: Bout) {
    && b.tally.attackerDealt == defender.hull - b.defender.hull
    && b.tally.defenderDealt == attacker.hull - b.attacker.hull
    && b.tally.hits <= b.tally.attackerShots + b.tally.defenderShots
    && b.attacker.(hull := 0, shields := 0) == attacker.(hull := 0, shields := 0)
    && b.defender.(hull := 0, shields := 0) == defender.(hull := 0, shields := 0)
  }

  /** Nobody is out and nothing has been announced. */
  predicate Undecided(b: Bout) {
    && b.attacker.hull > 0 && b.defender.hull > 0 && !b.over
    && !b.tally.defenderDestroyed && !b.tally.attackerFled && !b.tally.defenderFled && !b.tally.success
  }

  /** What holds between rounds of any fight between two live ships. */
  ghost predicate FairSoFar(s: Setting, attacker: Vitals, defender: Vitals, b: Bout) {
    var t := b.tally;
    && Level(s, attacker, defender, b)
    && (!b.over ==> Undecided(b))
    && t.attackerShots <= t.turns && t.defenderShots <= t.turns
    && (t.defenderDestroyed <==> b.defender.hull <= 0)
    && AtMostOneOut(b)
    && (t.success <==> t.defenderDestroyed || t.defenderFled)
    && (t.attackerFled ==> s.AttackerFirst() && s.attackerWantsOut)
    && (t.defenderFled ==> s.AttackerFirst() && s.defenderWantsOut)
  }

  function Count(p: bool): nat {
    if p then 1 else 0
  }

  /** At most one of: attacker fled, defender fled, attacker destroyed, defender destroyed. */
  predicate AtMostOneOut(b: Bout) {
    Count(b.tally.attackerFled) + Count(b.tally.defenderFled)
    + Count(b.attacker.hull <= 0) + Count(b.defender.hull <= 0) <= 1
  }

  /** A shot of the attacker in a live round. */
  lemma AttackerShotIsFair(s: Setting, attacker: Vitals, defender: Vitals, b: Bout, draw: real)
    requires Level(s, attacker, defender, b) && b.attacker.hull > 0 && b.defender.hull > 0
    ensures var b' := AttackerFires(s, b, draw);
      && Level(s, attacker, defender, b') && b'.attacker == b.attacker
      && b'.tally == b.tally.(attackerDealt := b'.tally.attackerDealt, attackerShots := b.tally.attackerShots + 1,
                              hits := b'.tally.hits)
      && b'.over == b.over && b'.attackerTried == b.attackerTried && b'.defenderTried == b.defenderTried
  {
  }

  lemma DefenderShotIsFair(s: Setting, attacker: Vitals, defender: Vitals, b: Bout, draw: real)
    requires Level(s, attacker, defender, b) && b.attacker.hull > 0 && b.defender.hull > 0
    ensures var b' := DefenderFires(s, b, draw);
      && Level(s, attacker, defender, b') && b'.defender == b.defender
      && b'.tally == b.tally.(defenderDealt := b'.tally.defenderDealt, defenderShots := b.tally.defenderShots + 1,
                              hits := b'.tally.hits)
      && b'.over == b.over && b'.attackerTried == b.attackerTried && b'.defenderTried == b.defenderTried
  {
  }

  lemma AttackerLeadsFairly(s: Setting, attacker: Vitals, defender: Vitals, b: Bout, d: Draws)
    requires Level(s, attacker, defender, b) && Undecided(b) && s.AttackerFirst()
    requires b.tally.attackerShots < b.tally.turns && b.tally.defenderShots < b.tally.turns
    ensures FairSoFar(s, attacker, defender, AttackerLeads(s, b, d))
    ensures AttackerLeads(s, b, d).tally.turns == b.tally.turns
  {
    var b0 := b.(attackerTried := b.attackerTried || (s.attackerWantsOut && !b.attackerTried));
    AttackerShotIsFair(s, attacker, defender, b0, d.firstShot);
    var b1 := AttackerFires(s, b0, d.firstShot);
    if b1.defender.hull > 0 {
      DefenderShotIsFair(s, attacker, defender,
        b1.(defenderTried := b1.defenderTried || (s.defenderWantsOut && !b1.defenderTried)), d.secondShot);
    }
  }

  lemma DefenderLeadsFairly(s: Setting, attacker: Vitals, defender: Vitals, b: Bout, d: Draws)
    requires Level(s, attacker, defender, b) && Undecided(b)
    requires b.tally.attackerShots < b.tally.turns && b.tally.defenderShots < b.tally.turns
    ensures FairSoFar(s, attacker, defender, DefenderLeads(s, b, d))
    ensures DefenderLeads(s, b, d).tally.turns == b.tally.turns
  {
    DefenderShotIsFair(s, attacker, defender, b, d.firstShot);
    var b1 := DefenderFires(s, b, d.firstShot);
    if b1.attacker.hull > 0 {
      AttackerShotIsFair(s, attacker, defender, b1, d.secondShot);
    }
  }

  lemma RoundIsFair(s: Setting, attacker: Vitals, defender: Vitals, b: Bout, d: Draws)
    requires FairSoFar(s, attacker, defender, b) && !b.over
    ensures FairSoFar(s, attacker, defender, Round(s, b, d))
    ensures Round(s, b, d).tally.turns == b.tally.turns + 1
  {
    if s.AttackerFirst() {
      AttackerLeadsFairly(s, attacker, defender, Counted(b), d);
      assert Round(s, b, d) == AttackerLeads(s, Counted(b), d);
    } else {
      DefenderLeadsFairly(s, attacker, defender, Counted(b), d);
      assert Round(s, b, d) == DefenderLeads(s, Counted(b), d);
    }
  }

  /** Fair, and counting its rounds: n of them unless it ended before. */
  ghost predicate FairAfter(s: Setting, attacker: Vitals, defender: Vitals, b: Bout, n: nat) {
    && FairSoFar(s, attacker, defender, b)
    && b.tally.turns <= n && (!b.over ==> b.tally.turns == n) && (n >= 1 ==> b.tally.turns >= 1)
  }

  /** Whatever the draws, a fight between live ships lasts at most n rounds; what each side dealt
      is what the other's hull lost; the defender counts as destroyed exactly when its hull is gone;
      at most one ship flees or is destroyed; and success means the defender was destroyed or fled. */
  lemma {:induction false} FightsAreFair(s: Setting, attacker: Vitals, defender: Vitals, draws: seq<Draws>, n: nat)
    requires n <= |draws| && attacker.hull > 0 && defender.hull > 0
    ensures FairAfter(s, attacker, defender, Rounds(s, attacker, defender, draws, n), n)
  {
    if n > 0 {
      FightsAreFair(s, attacker, defender, draws, n - 1);
      var b := Rounds(s, attacker, defender, draws, n - 1);
      if b.over {
        assert Rounds(s, attacker, defender, draws, n) == b;
      } else {
        RoundIsFair(s, attacker, defender, b, draws[n - 1]);
        assert Rounds(s, attacker, defender, draws, n) == Round(s, b, draws[n - 1]);
      }
    }
  }

  /** A ship in a fight: hull and shields within limits, everything else as it was. */
  ghost predicate Fighting(rig: Rig, before: Vitals, v: Vitals) {
    && 0 <= v.shields <= rig.maxShields && v.hull <= rig.maxHull
    && v.fuel == before.fuel && v.credits == before.credits && v.stacks == before.stacks
  }

  ghost predicate BothFighting(s: Setting, attacker: Vitals, defender: Vitals, b: Bout) {
    Fighting(s.attacker, attacker, b.attacker) && Fighting(s.defender, defender, b.defender)
  }

  lemma FiringKeepsFighting(s: Setting, attacker: Vitals, defender: Vitals, b: Bout, draw: real)
    requires BothFighting(s, attacker, defender, b)
    ensures BothFighting(s, attacker, defender, AttackerFires(s, b, draw))
    ensures BothFighting(s, attacker, defender, DefenderFires(s, b, draw))
  {
  }

  lemma AttackerLeadsKeepsFighting(s: Setting, attacker: Vitals, defender: Vitals, b: Bout, d: Draws)
    requires BothFighting(s, attacker, defender, b)
    ensures BothFighting(s, attacker, defender, AttackerLeads(s, b, d))
  {
    var b1 := b.(attackerTried := b.attackerTried || (s.attackerWantsOut && !b.attackerTried));
    assert BothFighting(s, attacker, defender, b1);
    FiringKeepsFighting(s, attacker, defender, b1, d.firstShot);
    var b2 := AttackerFires(s, b1, d.firstShot);
    var b3 := b2.(defenderTried := b2.defenderTried || (s.defenderWantsOut && !b2.defenderTried));
    assert BothFighting(s, attacker, defender, b3);
    FiringKeepsFighting(s, attacker, defender, b3, d.secondShot);
  }

  lemma DefenderLeadsKeepsFighting(s: Setting, attacker: Vitals, defender: Vitals, b: Bout, d: Draws)
    requires BothFighting(s, attacker, defender, b)
    ensures BothFighting(s, attacker, defender, DefenderLeads(s, b, d))
  {
    FiringKeepsFighting(s, attacker, defender, b, d.firstShot);
    FiringKeepsFighting(s, attacker, defender, DefenderFires(s, b, d.firstShot), d.secondShot);
  }

  lemma RoundKeepsFighting(s: Setting, attacker: Vitals, defender: Vitals, b: Bout, d: Draws)
    requires BothFighting(s, attacker, defender, b)
    ensures BothFighting(s, attacker, defender, Round(s, b, d))
  {
    if s.AttackerFirst() {
      AttackerLeadsKeepsFighting(s, attacker, defender, Counted(b), d);
      assert Round(s, b, d) == AttackerLeads(s, Counted(b), d);
    } else {
      DefenderLeadsKeepsFighting(s, attacker, defender, Counted(b), d);
      assert Round(s, b, d) == DefenderLeads(s, Counted(b), d);
    }
  }

  lemma {:induction false} RoundsKeepSound(s: Setting, attacker: Vitals, defender: Vitals, draws: seq<Draws>, n: nat)
    requires n <= |draws| && Sound(s.attacker, attacker) && Sound(s.defender, defender)
    ensures BothFighting(s, attacker, defender, Rounds(s, attacker, defender, draws, n))
  {
    if n > 0 {
      RoundsKeepSound(s, attacker, defender, draws, n - 1);
      RoundKeepsFighting(s, attacker, defender, Rounds(s, attacker, defender, draws, n - 1), draws[n - 1]);
    }
  }

  // ---- Whose turn it is ----

  /** The ships act in turn, the faster one first and the attacker on a tie. Each fires once unless it, or the
      other, is already out; only a leading attacker and then the defender may try to flee, once each in a fight;
      and a hit is counted exactly when it reaches a hull. */
  lemma RoundGoesInTurn(s: Setting, b: Bout, d: Draws)
    requires Undecided(b)
    ensures var r := Round(s, b, d);
      if s.attacker.speed >= s.defender.speed then AttackerActsFirst(s, b, d, r) else DefenderActsFirst(s, b, d, r)
    ensures var r := Round(s, b, d);
      && (r.over <==> r.tally.attackerFled || r.tally.defenderFled || r.attacker.hull <= 0 || r.defender.hull <= 0)
      && r.tally.hits
         == b.tally.hits + Count(r.attacker.hull < b.attacker.hull) + Count(r.defender.hull < b.defender.hull)
  {
    if s.attacker.speed >= s.defender.speed {
      AttackerGoesFirst(s, b, d);
    } else {
      DefenderGoesFirst(s, b, d);
    }
  }

  ghost predicate AttackerActsFirst(s: Setting, b: Bout, d: Draws, r: Bout) {
    var t := r.tally;
    && (t.attackerFled <==>
          s.attackerWantsOut && !b.attackerTried && Escapes(s.attacker, s.defender, s.nebula, d.attackerFlight))
    && (t.attackerFled ==> r.attacker == b.attacker && r.defender == b.defender && ShotsFired(b, r, 0, 0))
    && (!t.attackerFled ==>
          && r.defender == Shot(s.attacker, s.defender, b.defender, d.firstShot)
          && (t.defenderFled <==>
                && r.defender.hull > 0 && s.defenderWantsOut && !b.defenderTried
                && Escapes(s.defender, s.attacker, s.nebula, d.defenderFlight))
          && if r.defender.hull <= 0 || t.defenderFled then r.attacker == b.attacker && ShotsFired(b, r, 1, 0)
             else r.attacker == Shot(s.defender, s.attacker, b.attacker, d.secondShot) && ShotsFired(b, r, 1, 1))
    && (!r.over ==> r.attackerTried == (b.attackerTried || s.attackerWantsOut))
    && (!r.over ==> r.defenderTried == (b.defenderTried || s.defenderWantsOut))
  }

  ghost predicate DefenderActsFirst(s: Setting, b: Bout, d: Draws, r: Bout) {
    && !r.tally.attackerFled && !r.tally.defenderFled
    && r.attacker == Shot(s.defender, s.attacker, b.attacker, d.firstShot)
    && if r.attacker.hull <= 0 then r.defender == b.defender && ShotsFired(b, r, 0, 1)
       else r.defender == Shot(s.attacker, s.defender, b.defender, d.secondShot) && ShotsFired(b, r, 1, 1)
  }

  predicate ShotsFired(b: Bout, r: Bout, attacker: nat, defender: nat) {
    && r.tally.attackerShots == b.tally.attackerShots + attacker
    && r.tally.defenderShots == b.tally.defenderShots + defender
  }

  lemma AttackerGoesFirst(s: Setting, b: Bout, d: Draws)
    requires Undecided(b) && s.attacker.speed >= s.defender.speed
    ensures var r := Round(s, b, d);
      && AttackerActsFirst(s, b, d, r)
      && (r.over <==> r.tally.attackerFled || r.tally.defenderFled || r.attacker.hull <= 0 || r.defender.hull <= 0)
      && r.tally.hits
         == b.tally.hits + Count(r.attacker.hull < b.attacker.hull) + Count(r.defender.hull < b.defender.hull)
  {
    assert Round(s, b, d) == AttackerLeads(s, Counted(b), d);
  }

  lemma DefenderGoesFirst(s: Setting, b: Bout, d: Draws)
    requires Undecided(b) && s.attacker.speed < s.defender.speed
    ensures var r := Round(s, b, d);
      && DefenderActsFirst(s, b, d, r)
      && (r.over <==> r.tally.attackerFled || r.tally.defenderFled || r.attacker.hull <= 0 || r.defender.hull <= 0)
      && r.tally.hits
         == b.tally.hits + Count(r.attacker.hull < b.attacker.hull) + Count(r.defender.hull < b.defender.hull)
  {
    assert Round(s, b, d) == DefenderLeads(s, Counted(b), d);
  }

  // ---- Looting ----

  /** A fifth of the stack, at least one unit. */
  function LootQuantity(quantity: int): int {
    if quantity / 5 > 1 then quantity / 5 else 1
  }

  datatype Spoils = Spoils(winner: seq<Stack>, loser: seq<Stack>, taken: seq<(Good, int)>)

  /** One stack's turn: what fits moves over. */
  function LootStep(rig: Rig, s: Spoils, item: Stack): Spoils {
    var q := LootQuantity(item.quantity);
    if CanFit(rig, s.winner, item.good, q) then
      Spoils(AddTo(s.winner, item.good, q, item.price), RemoveFrom(s.loser, item.good, q), s.taken + [(item.good, q)])
    else s
  }

  /** Looting the first k stacks of the loser's hold as it was. */
  function Looted(rig: Rig, winner: seq<Stack>, loser: seq<Stack>, k: nat): Spoils
    requires k <= |loser|
  {
    if k == 0 then Spoils(winner, loser, []) else LootStep(rig, Looted(rig, winner, loser, k - 1), loser[k - 1])
  }

  /** t ends with s from index k on: what the snapshot s has not reached yet is the untouched end of t. */
  ghost predicate EndsAlike<T>(s: seq<T>, t: seq<T>, k: nat)
    requires k <= |s|
  {
    |t| >= |s| - k && t[|t| - (|s| - k)..] == s[k..]
  }

  lemma EndShrinks<T>(s: seq<T>, t: seq<T>, k: nat)
    requires k < |s| && EndsAlike(s, t, k)
    ensures t[|t| - (|s| - k)] == s[k] && EndsAlike(s, t, k + 1)
  {
    var m := |t| - (|s| - k);
    assert t[m] == t[m..][0] == s[k..][0];
    assert t[m + 1..] == t[m..][1..] == s[k..][1..];
  }

  lemma ChangeKeepsEnd<T>(s: seq<T>, t: seq<T>, k: nat, at: nat, x: T)
    requires k < |s| && EndsAlike(s, t, k) && at <= |t| - (|s| - k)
    ensures EndsAlike(s, t[at := x], k + 1)
  {
    EndShrinks(s, t, k);
    assert t[at := x][|t| - (|s| - (k + 1))..] == t[|t| - (|s| - (k + 1))..];
  }

  lemma RemovalKeepsEnd<T>(s: seq<T>, t: seq<T>, k: nat, at: nat)
    requires k < |s| && EndsAlike(s, t, k) && at <= |t| - (|s| - k)
    ensures EndsAlike(s, t[..at] + t[at + 1..], k + 1)
  {
    EndShrinks(s, t, k);
    var after := t[..at] + t[at + 1..];
    assert after[|after| - (|s| - (k + 1))..] == t[|t| - (|s| - (k + 1))..];
  }

  /** A removal for the stack the snapshot reaches next always succeeds, in a stack no later than
      that one, so the stacks after it stay untouched. */
  lemma RemovalStaysBehind(loser: seq<Stack>, now: seq<Stack>, k: nat)
    requires k < |loser| && EndsAlike(loser, now, k) && loser[k].quantity >= 1
    ensures var q := LootQuantity(loser[k].quantity);
      && FirstFit(now, loser[k].good, q) <= |now| - (|loser| - k) < |now|
      && EndsAlike(loser, RemoveFrom(now, loser[k].good, q), k + 1)
  {
    var q := LootQuantity(loser[k].quantity);
    var f := FirstFit(now, loser[k].good, q);
    EndShrinks(loser, now, k);
    assert f <= |now| - (|loser| - k);
    if now[f].quantity == q {
      RemovalKeepsEnd(loser, now, k, f);
    } else {
      ChangeKeepsEnd(loser, now, k, f, now[f].(quantity := now[f].quantity - q));
    }
  }

  /** Of a stack of q units that fits, the attacker gets a fifth, rounded down, and of a smaller one a single
      unit: at most a fifth, and at most four units of the last fifth stay behind. What it gets keeps its price. */
  lemma LootIsAFifth(rig: Rig, s: Spoils, item: Stack, price: int)
    requires item.quantity >= 1
    ensures
      var s' := LootStep(rig, s, item);
      var q := Lot(s'.winner, item.good, item.price) - Lot(s.winner, item.good, item.price);
      && (s' == s || (q >= 1 && s'.taken == s.taken + [(item.good, q)]))
      && (s' != s ==> if item.quantity < 5 then q == 1 else 5 * q <= item.quantity <= 5 * q + 4)
      && (price != item.price ==> Lot(s'.winner, item.good, price) == Lot(s.winner, item.good, price))
      && (s' == s ==> Weight(item.good) * (if item.quantity < 5 then 1 else item.quantity / 5)
                      > 10 * rig.maxCargo - UsedWeight(s.winner))
  {
    var q := LootQuantity(item.quantity);
    AddToLot(s.winner, item.good, q, item.price, item.good, item.price);
    AddToLot(s.winner, item.good, q, item.price, item.good, price);
  }

  /** Units of a good on a list of looted goods. */
  function TakenUnits(taken: seq<(Good, int)>, g: Good): int {
    if taken == [] then 0 else
      TakenUnits(taken[..|taken| - 1], g) + (var last := taken[|taken| - 1]; if last.0 == g then last.1 else 0)
  }

  /** Each looted good moves from one hold to the other, and is listed: nothing appears or vanishes. */
  lemma {:induction false} LootingConserves(rig: Rig, winner: seq<Stack>, loser: seq<Stack>, k: nat, g: Good)
    requires Tidy(loser) && k <= |loser|
    ensures var s := Looted(rig, winner, loser, k);
      && Units(s.winner, g) + Units(s.loser, g) == Units(winner, g) + Units(loser, g)
      && TakenUnits(s.taken, g) == Units(s.winner, g) - Units(winner, g)
      && EndsAlike(loser, s.loser, k)
  {
    if k > 0 {
      LootingConserves(rig, winner, loser, k - 1, g);
      var s, item := Looted(rig, winner, loser, k - 1), loser[k - 1];
      var q := LootQuantity(item.quantity);
      if CanFit(rig, s.winner, item.good, q) {
        assert Stocked(loser, k - 1);
        RemovalStaysBehind(loser, s.loser, k - 1);
        AddToUnits(s.winner, item.good, q, item.price, g);
        TakeAtUnits(s.loser, FirstFit(s.loser, item.good, q), q, g);
        assert (s.taken + [(item.good, q)])[..|s.taken|] == s.taken;
      } else {
        EndShrinks(loser, s.loser, k - 1);
      }
    }
  }

  lemma {:induction false} LootingKeepsSound(rig: Rig, other: Rig, winner: Vitals, loser: Vitals, k: nat)
    requires Sound(rig, winner) && Sound(other, loser) && k <= |loser.stacks|
    ensures var s := Looted(rig, winner.stacks, loser.stacks, k);
      Sound(rig, winner.(stacks := s.winner)) && Sound(other, loser.(stacks := s.loser))
  {
    if k > 0 {
      LootingKeepsSound(rig, other, winner, loser, k - 1);
      var s, item := Looted(rig, winner.stacks, loser.stacks, k - 1), loser.stacks[k - 1];
      var q := LootQuantity(item.quantity);
      AddCargoKeepsSound(rig, winner.(stacks := s.winner), item.good, q, item.price);
      RemoveCargoKeepsSound(other, loser.(stacks := s.loser), item.good, q);
    }
  }

  // ---- The whole fight ----

  datatype Outcome = Outcome(attacker: Vitals, defender: Vitals, tally: Tally, lootCredits: int,
                             lootCargo: seq<(Good, int)>)

  function Tire(v: Vitals): Vitals {
    v.(shields := if v.shields - 2 > 0 then v.shields - 2 else 0)
  }

  /** The verdict and the spoils: a standoff is no success, a destroyed defender is looted. */
  function Settled(s: Setting, b: Bout): Outcome {
    if b.tally.defenderDestroyed then
      var credits := b.defender.credits / 5;
      var spoils := Looted(s.attacker, b.attacker.stacks, b.defender.stacks, |b.defender.stacks|);
      Outcome(b.attacker.(credits := b.attacker.credits + credits, stacks := spoils.winner),
              b.defender.(credits := b.defender.credits - credits, stacks := spoils.loser),
              b.tally, credits, spoils.taken)
    else
      Outcome(b.attacker, b.defender,
              if b.tally.attackerFled || b.tally.defenderFled then b.tally else b.tally.(success := false), 0, [])
  }

  /** Settled, with both ships' shields tired. */
  function Aftermath(s: Setting, b: Bout): Outcome {
    var o := Settled(s, b);
    o.(attacker := Tire(o.attacker), defender := Tire(o.defender))
  }

  /** A fight of at most |draws| rounds. */
  function Fight(s: Setting, attacker: Vitals, defender: Vitals, draws: seq<Draws>): Outcome {
    Aftermath(s, Rounds(s, attacker, defender, draws, |draws|))
  }

  /** After a fight, looting or not, each ship's shields are two points lower, or down, and its hull, tank and
      verdict are those of the last round. */
  lemma ShieldsTire(s: Setting, b: Bout)
    requires b.attacker.shields >= 0 && b.defender.shields >= 0
    ensures var o := Aftermath(s, b);
      && b.attacker.shields - o.attacker.shields == (if b.attacker.shields >= 2 then 2 else b.attacker.shields)
      && b.defender.shields - o.defender.shields == (if b.defender.shields >= 2 then 2 else b.defender.shields)
      && o.attacker.hull == b.attacker.hull && o.attacker.fuel == b.attacker.fuel
      && o.defender.hull == b.defender.hull && o.defender.fuel == b.defender.fuel
      && o.tally == b.tally.(success := o.tally.success)
      && (!b.tally.defenderDestroyed ==>
            o.attacker.stacks == b.attacker.stacks && o.defender.stacks == b.defender.stacks)
  {
  }

  /** The facts of FightsAreFair, for the whole fight; and no fight creates or destroys credits or goods. */
  lemma FightIsFairAndConserves(s: Setting, attacker: Vitals, defender: Vitals, draws: seq<Draws>, g: Good)
    requires attacker.hull > 0 && defender.hull > 0 && Tidy(defender.stacks) && draws != []
    ensures var o := Fight(s, attacker, defender, draws); var t := o.tally;
      && 1 <= t.turns <= |draws|
      && t.attackerDealt == defender.hull - o.defender.hull
      && t.defenderDealt == attacker.hull - o.attacker.hull
      && (t.defenderDestroyed <==> o.defender.hull <= 0)
      && AtMostOneOut(Bout(o.attacker, o.defender, t, false, false, false))
      && (t.success <==> t.defenderDestroyed || t.defenderFled)
      && o.attacker.credits + o.defender.credits == attacker.credits + defender.credits
      && o.lootCredits == (if t.defenderDestroyed then defender.credits / 5 else 0)
      && o.lootCredits == o.attacker.credits - attacker.credits
      && TakenUnits(o.lootCargo, g) == Units(o.attacker.stacks, g) - Units(attacker.stacks, g)
      && Units(o.attacker.stacks, g) + Units(o.defender.stacks, g)
         == Units(attacker.stacks, g) + Units(defender.stacks, g)
  {
    FightsAreFair(s, attacker, defender, draws, |draws|);
    var b := Rounds(s, attacker, defender, draws, |draws|);
    LootingConserves(s.attacker, b.attacker.stacks, b.defender.stacks, |b.defender.stacks|, g);
  }

  /** A fight leaves both ships sound. */
  lemma FightKeepsSound(s: Setting, attacker: Vitals, defender: Vitals, draws: seq<Draws>)
    requires Sound(s.attacker, attacker) && Sound(s.defender, defender)
    ensures var o := Fight(s, attacker, defender, draws);
      Sound(s.attacker, o.attacker) && Sound(s.defender, o.defender)
  {
    RoundsKeepSound(s, attacker, defender, draws, |draws|);
    var b := Rounds(s, attacker, defender, draws, |draws|);
    LootingKeepsSound(s.attacker, s.defender, b.attacker, b.defender, |b.defender.stacks|);
  }

  // ---- Who can flee ----

  /** A draw as random.random() gives it. */
  predicate Drawn(d: Draws) {
    && 0.0 <= d.attackerFlight < 1.0 && 0.0 <= d.firstShot < 1.0
    && 0.0 <= d.defenderFlight < 1.0 && 0.0 <= d.secondShot < 1.0
  }

  ghost predicate AllDrawn(draws: seq<Draws>) {
    forall k :: 0 <= k < |draws| ==> Drawn(draws[k])
  }

  /** Whoever flees wanted to, and the attacker acted first, in fights of any length. */
  lemma FlightNeedsInitiative(s: Setting, attacker: Vitals, defender: Vitals, draws: seq<Draws>)
    requires attacker.hull > 0 && defender.hull > 0
    ensures var t := Fight(s, attacker, defender, draws).tally;
      && (t.attackerFled ==> s.attacker.speed >= s.defender.speed && s.attackerWantsOut)
      && (t.defenderFled ==> s.attacker.speed >= s.defender.speed && s.defenderWantsOut)
  {
    FightsAreFair(s, attacker, defender, draws, |draws|);
  }

  /** Some five rounds of draws end with the attacker gone. */
  ghost predicate AttackerCanFlee(s: Setting, attacker: Vitals, defender: Vitals) {
    exists draws :: |draws| == 5 && AllDrawn(draws) && Fight(s, attacker, defender, draws).tally.attackerFled
  }

  ghost predicate DefenderCanFlee(s: Setting, attacker: Vitals, defender: Vitals) {
    exists draws :: |draws| == 5 && AllDrawn(draws) && Fight(s, attacker, defender, draws).tally.defenderFled
  }

  /** The rules give each ship one attempt to flee. The code gives it to neither ship when the defender
      is the faster one: a ship that wants out can get out exactly when the attacker acts first. */
  lemma FlightIsPossibleExactlyWhen(s: Setting, attacker: Vitals, defender: Vitals)
    requires attacker.hull > 0 && defender.hull > 0
    ensures AttackerCanFlee(s, attacker, defender) <==> s.attacker.speed >= s.defender.speed && s.attackerWantsOut
    ensures DefenderCanFlee(s, attacker, defender) <==> s.attacker.speed >= s.defender.speed && s.defenderWantsOut
  {
    forall draws: seq<Draws> {
      FlightNeedsInitiative(s, attacker, defender, draws);
    }
    if s.AttackerFirst() {
      if s.attackerWantsOut {
        AttackerFlees(s, attacker, defender);
      }
      if s.defenderWantsOut {
        DefenderFlees(s, attacker, defender);
      }
    }
  }

  /** The lowest draw always gets the attacker out at once. */
  lemma AttackerFlees(s: Setting, attacker: Vitals, defender: Vitals)
    requires s.AttackerFirst() && s.attackerWantsOut
    ensures AttackerCanFlee(s, attacker, defender)
  {
    var lucky := Draws(0.0, 0.0, 0.0, 0.0);
    FirstRoundDecides(s, attacker, defender, lucky);
  }

  /** A high draw fails the attacker's flight and its shot; the lowest one then gets the defender out. */
  lemma DefenderFlees(s: Setting, attacker: Vitals, defender: Vitals)
    requires s.AttackerFirst() && s.defenderWantsOut && attacker.hull > 0 && defender.hull > 0
    ensures DefenderCanFlee(s, attacker, defender)
  {
    var lucky := Draws(0.99, 0.99, 0.0, 0.0);
    FirstRoundDecides(s, attacker, defender, lucky);
  }

  lemma OneRound(round: (Bout, Draws) -> Bout, b: Bout, draws: seq<Draws>)
    requires draws != [] && !b.over
    ensures Iterate(round, b, draws, 1) == round(b, draws[0])
  {
    assert Iterate(round, b, draws, 0) == b;
  }

  /** A fight that its first round ends has that round's verdict. */
  lemma FirstRoundDecides(s: Setting, attacker: Vitals, defender: Vitals, d: Draws)
    requires Drawn(d)
    ensures var b := Round(s, Opening(attacker, defender), d);
      && (b.over && b.tally.attackerFled ==> AttackerCanFlee(s, attacker, defender))
      && (b.over && b.tally.defenderFled ==> DefenderCanFlee(s, attacker, defender))
  {
    var opening := Opening(attacker, defender);
    var b, draws := Round(s, opening, d), [d, d, d, d, d];
    assert AllDrawn(draws);
    if b.over {
      OneRound(RoundOf(s), opening, draws);
      IterateStops(RoundOf(s), opening, draws, 1, 5);
      assert Fight(s, attacker, defender, draws) == Aftermath(s, b);
    }
  }
}
