# Verification of the Caravaneer and RASA cores

A Dafny 4.11 model of the hard cores of two systems that share one repository, with proofs of what they promise:

- **Caravaneer**, a space-trading game on a hexagonal grid: the hex geometry, A* route planning, jumps and their fuel, cargo holds, trade, combat and looting.
- **RASA**, a platform that runs AI agents on a PostgreSQL task graph: the task protocol, the durable message bus, the array-literal printer and parser, soul-sheet inheritance, the agent registry and the parent-chain cycle check.

`dafny verify dfyconfig.toml` checks everything.

## How the model is laid out

| file | what it models |
|---|---|
| `Hex.dfy`, `HexLine.dfy` | positions, distance, rings, balls, lines |
| `Galaxy.dfy` | terrain, bounds, fog of war, map generation |
| `AStar.dfy`, `Pathfinding.dfy`, `Waypoints.dfy`, `Jumps.dfy` | the lazy-heap search, the planner, thinning to waypoints, what the jumps between them cross |
| `Cargo.dfy`, `Ships.dfy` | stacks as values; ships and stacks as objects that change in place |
| `Battle.dfy`, `Combat.dfy` | a fight as a function of its draws; the code that fights it on two ships |
| `Voyages.dfy`, `TravelEngine.dfy` | a jump as a function of its draws; the code that flies it |
| `Trading.dfy`, `Fleet.dfy` | trade and port services; every run of every ship operation |
| `Tasks.dfy`, `TaskTable.dfy` | the task protocol as a transition system; the handlers over the table |
| `Bus.dfy` | the durable queue and its wake-ups |
| `ArrayLiteral.dfy` | printing and parsing PostgreSQL array literals (section 8.15.6 of the PostgreSQL documentation) |
| `Souls.dfy`, `AgentRegistry.dfy`, `ParentChain.dfy` | sheet inheritance, the two-index registry, cycle checks |
| `Arith.dfy`, `Options.dfy` | shared facts about products and quotients; the optional value |

Code that changes state step by step is a method or a class, proved equal to a function of the old state; the laws are then lemmas about that function. Code made of expressions and recursion is functions.

## Choices that matter when reading the proofs

- Arithmetic is exact. Route costs, fuel multipliers and cargo weights are in tenths, so 1.0 is 10 and 2.3 is 23. Accuracy and flight chances are in hundredths. Points of a line are exact fractions, rounded half to even as Python rounds.
- Every random draw, shuffle and clock reading is an arbitrary input, within the range the code draws it from.
- `heapq` is a list from which a least entry is taken; duplicate and stale entries stay in it.
- The planner's laws hold on any map whose cells cost nothing or more, or 1.0 or more where they say so; generation is proved to give maps of the second kind.
- In whole runs, quantities traded are at least 1, as the callers of the trading engine see to, and prices at least 1 as the code quotes them. Every stack then holds at least one unit, so `list.remove`, which compares by value, drops the emptied stack itself; this is proved, not assumed.
- Each SQL statement, or each transaction where the code opens one, is one atomic step that succeeds. Two are split because the split matters: the daemon's claim, into its locking SELECT and its UPDATE, and `assign_task`, whose SELECT takes no lock. On the bus a publication is split into its insert and its commit, and a fetch into the moment its SELECT takes its snapshot and the moment it gets its row lock, so that both can overlap.
- The dependency graph does not change during a run, and all tasks start PENDING.

## What the proofs found

- **Assigning twice can undo a completion.** `assign_task` (rasa/orchestrator/delegator.py:80-109) checks that the row is PENDING and then updates it unconditionally. `Tasks.StaleAssignUndoesCompletion` is a run in which a late write takes a COMPLETED task back to ASSIGNED while the task that depends on it is already running; in `Tasks.LateAssignFailsCompletion` it starts a second execution whose failure turns COMPLETED into FAILED. `Tasks.CompletionUndoneExactlyBy` names the four statements that can undo a completion. `Tasks.OrderKeptExactlyWhen` gives the exact condition on each step for keeping order and single execution, `Tasks.Disciplined` is a simpler one that is enough, and `Tasks.CarefulRun` is one that callers can keep: assign a task once, and only one without upstreams; claim and cancel only rows no longer PENDING; re-queue nothing. `Tasks.CarefulRunsAreDisciplined` proves it enough.
- **A re-queue can strand a task.** The recovery controller sets an ASSIGNED or RUNNING row of a dead agent back to PENDING (internal/recovery/controller.go:145-151). If the task's wake-up has been handled by then, no notification is left to unblock it: `Tasks.RequeueLosesWakeUp` is such a run, `Tasks.StuckForGood` shows that only an outside step ends the wait, and `Tasks.RequeueKeepsWakeUpsExactlyWhen` gives the exact condition. The message the controller publishes afterwards asks for an assignment, which is such an outside step, and how it is routed is not modelled. The cancel and retry statements of the command lines (rasa/gui/cli.py:309-310 and 341-342) also set a column `updated_at` that the tasks table (migrations/010_rasa_orch.sql:15-36) does not have; the model includes those steps as they are meant.
- **A slower attacker means no flight.** The rules say each ship may try to flee once (caravaneer/combat.py:50). When the defender is faster the code never tries for either ship (caravaneer/combat.py:117-122). `Battle.FlightIsPossibleExactlyWhen` proves that a ship that wants out can get out exactly when the attacker acts first.
- **Speed counts once.** The rules take 0.03 of accuracy off for each point of the defender's speed (caravaneer/combat.py:45); the code does not (caravaneer/combat.py:178-181). `Battle.HitsExactlyWhen` follows the code.
- **A sale looks at the first stack only.** Goods bought at two prices cannot always be sold together: `Trading.SalesAreCompleteExactlyWhenOneStack`.
- **An array whose last element is empty does not come back.** `ArrayLiteral.RoundTrip` says exactly when a list survives.
- **An inheriting sheet can lose a nested `inherits` of its own.** The merge skips that key in every dict it merges, not only at the top: `Souls.NestedInheritsIsDroppedExactlyWhen` says when it is dropped and when it survives.
- **A planned jump can cross a black hole.** The route avoids black holes hex by hex, but the jumps between its waypoints are flown along straight lines. `Jumps.PlansAreClearExactlyAtRangeOne` proves that only jump range one rules this out, for the planner's own answers too, and `Jumps.PlansAreClearWithoutHoles` that it cannot happen on maps without black holes, such as generated ones.
- **The trading engine checks no sign.** `Economy.buy` and `Economy.sell`, and `player_buy` and `player_sell` above them, accept quantities of zero or less; the screens replace them by 1 (caravaneer/gui/app.py:984 and 1004) and the non-player traders pass positive ones. `Trading.BuyKeepsSoundExactlyWhen` and `Trading.SellKeepsSoundExactlyWhen` say exactly when an arbitrary quantity leaves a ship within its limits, and `Trading.NonPositiveTradesBreakLimits` shows two that do not.
- **A newer bus row can overtake an older one.** Ids are drawn at the insert and rows appear at the commit. `Bus.NewerRowOvertakes` is a run with two publishers. `Bus.DeliveryFollowsIdsExactlyWhen` proves that, whatever subscribers do, delivery follows the ids exactly when the publishers of each channel commit in the order of their ids; the other laws of the bus do not need it.
- **`detect_cycle` looks for the other dependency than it says.** Its docstring and comment speak of an ancestor that depends on the new task (rasa/orchestrator/dag.py:25-26 and 47), but its query finds rows from an ancestor to the new task, and the unblocking query (rasa/pool/controller.py:105-116) reads such a row as the new task waiting for the ancestor. The model follows the query.
- `max_jumps` is never read by the planner, so nothing is claimed about it.

## Model

| member | source | states |
|---|---|---|
| Hex.NeighborsAreUnitBall | caravaneer/core.py:44-56 | the neighbour list is exactly the six positions at distance one, each once |
| Hex.TriangleInequality | caravaneer/core.py:51-56 | hex distance is symmetric and obeys the triangle inequality |
| Hex.AdjacentDistance | caravaneer/core.py:51-56 | one step changes any distance by at most one |
| Hex.WalkBoundsDistance | caravaneer/core.py:51-56 | positions j - i steps apart on a walk are at distance at most j - i |
| Hex.RingIsExactlyTheSphere | caravaneer/core.py:58-68 | a ring of radius r >= 1 has 6r cells, no repeats, and holds exactly the positions at distance r |
| Hex.Ring | caravaneer/core.py:58-68 | the two nested loops that walk the six sides produce that ring; radius 0 or less gives the centre |
| Hex.WithinIsExactlyTheBall | caravaneer/core.py:70-75 | the closed ball has 1 + 3r(r+1) cells, no repeats, and holds exactly the positions at distance at most r |
| Hex.Within | caravaneer/core.py:70-75 | the loop over rings produces that ball |
| HexLine.RoundCubeNear | caravaneer/core.py:91-98 | the repaired rounding stays within half a hex of the exact point in all three cube coordinates |
| HexLine.LineCellNear | caravaneer/core.py:83-98 | every cell of a line is within half a hex of its exact point |
| HexLine.LineCellIsTheRounding | caravaneer/core.py:83-98 | a cell is the i-th of the line exactly when it is within half a hex of the exact point in all three coordinates, a tie in q is settled for the even q, and one in r, when q has none, for the even r: exactly one cell is |
| HexLine.LineStepsAreAdjacent | caravaneer/core.py:77-99 | consecutive cells of a line are neighbours |
| HexLine.LineEnds | caravaneer/core.py:77-99 | a line starts and ends at its arguments |
| HexLine.LineIsShortestWalk | caravaneer/core.py:77-99 | a line is a walk of distance + 1 cells from end to end |
| HexLine.DistanceIsLeastSteps | caravaneer/core.py:51-56 | the distance is exactly the least number of neighbour steps between two positions |
| HexLine.LineReverses | caravaneer/core.py:77-99 | the line back is the reverse of the line out |
| HexLine.BallsAreConvex | caravaneer/core.py:77-99 | a line between two cells of a ball never leaves it |
| HexLine.LineTo | caravaneer/core.py:77-99 | the loop with rounding and repair gives a walk of distance + 1 cells, each of them that one rounding of its point, ties settled evenly |
| Galaxy.GalaxyMap.Reveal | caravaneer/map.py:71-80 | adds exactly the in-bounds ball to what that player already saw, and touches nobody else's view |
| Galaxy.InBoundsBallMembers | caravaneer/map.py:60-80 | what is revealed is every position both in bounds and within sensor range |
| Galaxy.GalaxyMap.Generate | caravaneer/map.py:160-213 | whatever the draws, generation gives a full disc without black holes, multiplier 2.0 on nebulae and 1.0 elsewhere, wormholes in mutual pairs, every listed pair joined both ways, and a station at the centre |
| Galaxy.GalaxyMap.PlaceTerrain | caravaneer/map.py:163-198 | exactly one cell per position, decided by its roll, and a station at the centre |
| Galaxy.RolledByIntervals | caravaneer/map.py:163-198 | off the centre each kind of terrain has the rolls of an interval as long as its density: systems, nebulae, asteroid fields, anomalies, in that order, and the rest stay empty |
| Galaxy.GalaxyMap.PlaceWormholes | caravaneer/map.py:200-213 | the first shuffled far empty cells become wormhole ends two by two, as many pairs as asked for or as there are; the pairs are listed and no other cell changes |
| Galaxy.GalaxyMap.PlaceHideouts | caravaneer/map.py:270-281 | the first three shuffled outlying empty cells become pirate lairs and the next three derelicts, as far as there are any; no other cell changes |
| Galaxy.EmptyCellsMembers | caravaneer/map.py:201-204 | the cells drawn from are exactly the empty ones farther out than the bound |
| Galaxy.OutlyingCells | caravaneer/map.py:271-273 | for hideouts, exactly the empty ones farther out than seven tenths of the radius |
| Galaxy.InBoundsIsMapped | caravaneer/map.py:60-61 | on a generated map the cells in bounds are exactly the mapped ones |
| Galaxy.LinkKeepsGenerated | caravaneer/map.py:206-213 | linking two different empty cells both ways keeps every wormhole mutual |
| Galaxy.ShuffleKeepsNoDuplicates | caravaneer/map.py:204-208 | a shuffled list of distinct cells pairs no cell with itself or twice |
| AStar.ConsistentIsAdmissible | caravaneer/travel.py:394 | a heuristic that drops by no more than a step's price never overestimates a path |
| AStar.PopKeepsInvariant | caravaneer/travel.py:369-373 | popping an entry, stale or not, leaves every discovered cell queued, settled or being expanded |
| AStar.RecordKeepsInvariant | caravaneer/travel.py:390-396 | recording a cheaper way in keeps the search invariant |
| AStar.RecordProgress | caravaneer/travel.py:392-396 | each record discovers a cell or lowers the sum of costs, and undoes no earlier improvement |
| AStar.RecordKeepsGrown | caravaneer/travel.py:390-396 | every came-from link leads to a cell recorded sooner or strictly cheaper since, so links never go round |
| AStar.FrontierBoundsPaths | caravaneer/travel.py:369-396 | along any path, either its end is known within the path's cost or the frontier holds an entry no dearer |
| Pathfinding.RouteGraphFits | caravaneer/travel.py:379-394 | with every cell costing at least 1.0, hex distance is a consistent heuristic |
| Pathfinding.RouteCostsAtLeastDistance | caravaneer/travel.py:379-394 | a route then costs at least 1.0 per hex of distance between its ends |
| Pathfinding.EntriesAreOrdered | caravaneer/travel.py:364-396 | heap entries are ordered by priority, then q, then r, and no two different ones tie |
| Pathfinding.HeapPop | caravaneer/travel.py:370 | takes one least entry in Python's tuple order and leaves all others, duplicates included |
| Pathfinding.Expand | caravaneer/travel.py:375-396 | after the loop over neighbours the popped cell is settled and the measure has not grown |
| Pathfinding.Relax | caravaneer/travel.py:375-396 | one neighbour: skipped when out of bounds or a black hole, recorded exactly when new or cheaper, and then under its cost plus ten per hex of distance |
| Pathfinding.FindCosts | caravaneer/travel.py:364-396 | the search loop ends for any non-negative costs; an exhausted frontier has found all that is reachable, and an early stop knows the cheapest cost |
| Pathfinding.EarlyStop | caravaneer/travel.py:372-373 | popping the destination, even through a stale entry, means no route is cheaper than its recorded cost |
| Pathfinding.Reconstruct | caravaneer/travel.py:401-407 | following came-from ends at the start, zero-cost cells included, along a route no dearer than the recorded cost |
| Pathfinding.FindPath | caravaneer/travel.py:346-412 | for any non-negative costs, None exactly when no in-bounds route avoiding black holes exists; otherwise the waypoints thin out a route, which is cheapest among all routes when cells cost at least 1.0 |
| Pathfinding.GeneratedCost | caravaneer/travel.py:379-388 | on generated maps entering a nebula costs 2.3, an asteroid field 1.5, anything else 1.0 |
| Pathfinding.GeneratedCosts | caravaneer/map.py:163-198 | on generated maps every cell costs at least 1.0 to enter |
| Pathfinding.GeneratedRouteCost | caravaneer/travel.py:380-388 | on generated maps a route costs at most 2.3 per hex entered |
| Pathfinding.GeneratedMapsAreConnected | caravaneer/travel.py:346-412 | on a generated map a route exists exactly when the destination is in bounds, and a cheapest one costs 1.0 to 2.3 per hex of distance |
| Pathfinding.LineIsRoute | caravaneer/map.py:60-61 | on a map without black holes the straight line between two in-bounds cells is a route |
| Jumps.PlansAreClearExactlyAtRangeOne | caravaneer/travel.py:346-432 | every route of every map thins to jumps through passable cells exactly when the jump range is one; the same for cheapest routes at unit costs, which are the planner's answers |
| Jumps.PlannedIntoBlackHole | caravaneer/travel.py:409-432 | for every longer range and every start there are a map and a destination for which each cheapest route thins to one jump straight into a black hole |
| Jumps.PlansAreClearWithoutHoles | caravaneer/travel.py:409-432 | on a map without black holes every plan from an in-bounds cell is clear, whatever the range |
| Waypoints.Furthest | caravaneer/travel.py:424-428 | the scan ends at the furthest cell in range; on a walk that is exactly jump-range cells on, or the last |
| Waypoints.SimplifyPath | caravaneer/travel.py:414-432 | keeps both ends and the order, each hop within range or to the next cell; on a walk exactly every jump-range-th cell and the last, 1 + ceil((len-1)/range) of them |
| Voyages.CalculateFuelCost | caravaneer/travel.py:135-145 | the loop computes the sum of truncated cell shares over mapped cells, at least 1 |
| Voyages.CellFuelIsMultiplier | caravaneer/travel.py:144 | the scaling by path length cancels: a cell costs its multiplier, truncated |
| Voyages.FuelCostIsTheSum | caravaneer/travel.py:135-145 | on any map a path costs what the truncated multipliers of the mapped cells it enters add up to, and at least 1 |
| Voyages.GeneratedCellsFuel | caravaneer/travel.py:135-145 | on a generated map cells cost one each and one more per nebula |
| Voyages.LineStaysOnMap | caravaneer/map.py:60-61 | a jump between in-bounds cells enters only mapped cells |
| Voyages.JumpCost | caravaneer/travel.py:135-145 | a jump costs its distance plus the nebula cells entered, hence between once and twice the distance |
| Voyages.EnteringKeepsSound | caravaneer/travel.py:147-220 | no cell event breaks a ship limit or burns fuel |
| Voyages.EnteringDoes | caravaneer/travel.py:147-220 | an asteroid field takes its hazard, at most half of it from the shields and less only if they run out; black holes take 20 and unstable wormholes 10, shields first; pirates pay the bounty or take the difference in power and whole stacks; derelicts and anomalies change, by roll interval, exactly one of credits, fuel, cargo, or hull and shields by their amounts; everything else changes nothing |
| Voyages.RobberyTakesStacks | caravaneer/travel.py:280-283 | thieves take whole stacks, as many as they pick or as there are, and change none |
| Voyages.ThievesTakeTheirPick | caravaneer/travel.py:281-283 | a thief takes the very stack it picks |
| Voyages.FlightAddsUp | caravaneer/travel.py:97-114 | a flight enters a first part of its path, all of it unless destroyed; the credits earned are what those cells pay, and with no repairing anomaly among them the shields and hull lost are the sum of their damages |
| Voyages.SurvivorsHaveHull | caravaneer/travel.py:110-114 | whoever gets through has hull left, or has entered no mapped cell |
| Voyages.RobberyKeepsSound | caravaneer/travel.py:280-283 | losing whole stacks to pirates keeps the hold tidy and within capacity |
| Voyages.FlyingKeepsSound | caravaneer/travel.py:97-114 | flying a path cell by cell, until destroyed, keeps the ship within limits |
| Voyages.FuelOnTheWay | caravaneer/travel.py:290-343 | only derelicts and anomalies can change the fuel on the way |
| Voyages.JumpKeepsSound | caravaneer/travel.py:70-133 | lost or arrived, the ship is within limits; arriving costs at most the quoted fuel, and exactly that with no derelict or anomaly on the line |
| Voyages.JumpAddsUp | caravaneer/travel.py:70-133 | a jump is refused exactly at its destination, out of range or short of fuel; an arrival adds up over every cell of the line, a loss over those up to the one that destroys the ship, and a lost ship has paid no fuel |
| TravelEngine.FlyThrough | caravaneer/travel.py:97-114 | the loop over the path skips unmapped cells and stops at the first cell that finds the ship destroyed |
| TravelEngine.DownStaysDown | caravaneer/travel.py:111-114 | stopping early at destruction gives what flying on would give |
| TravelEngine.Travel | caravaneer/travel.py:70-133 | refused jumps change nothing, a lost ship keeps its wreck, an arrival pays the fuel, moves the ship and reveals the map around it |
| Ships.Ship.constructor | caravaneer/player.py:227-246 | a new ship is full of fuel, hull and shields, holds nothing, and is within limits |
| Ships.Ship.UsedCargo | caravaneer/player.py:126-128 | the sum of stack weights |
| Ships.Ship.LoadCargo | caravaneer/player.py:145-154 | loads any quantity exactly when it fits, into the first stack of the same good and price or a new one |
| Ships.Ship.UnloadCargo | caravaneer/player.py:156-164 | takes any quantity from the first stack of the good that has enough, drops it when emptied, and leaves every other stack object as it was |
| Ships.Ship.RemoveEqual | caravaneer/player.py:162 | removal by value equality hits the emptied stack itself |
| Ships.Ship.SufferDamage | caravaneer/player.py:166-172 | shields first, then hull |
| Ships.Ship.RepairHull | caravaneer/player.py:177-178 | repair stops at the maximum hull |
| Ships.Ship.Recharge | caravaneer/player.py:180-181 | recharging stops at the maximum shields |
| Ships.Ship.TakeFuel | caravaneer/player.py:183-184 | refuelling stops at the tank's capacity |
| Ships.DamageIsShared | caravaneer/player.py:166-172 | shield loss and hull loss add up to the damage, and the hull suffers only once the shields are gone |
| Ships.UpkeepRestores | caravaneer/player.py:177-184 | repairs, recharging and refuelling raise one reading each, by the amount or to its limit, and change nothing else |
| Ships.FitsExactlyWhen | caravaneer/player.py:141-143 | cargo fits exactly when the hold with it in weighs no more than the ship can carry |
| Ships.FittingOneMore | caravaneer/player.py:69-124 | what one more module, fitted anywhere, changes: each of the fourteen by its own strength in its own slot, only the better sensor counting, and only fuel tanks adding fuel |
| Ships.AddCargoKeepsSound | caravaneer/player.py:145-154 | loading keeps all limits, positive stacks, and one stack per good and price |
| Ships.RemoveCargoKeepsSound | caravaneer/player.py:156-164 | unloading keeps them |
| Ships.UpkeepKeepsSound | caravaneer/player.py:166-184 | damage, repair, recharging and refuelling keep them |
| Cargo.AddToUnits | caravaneer/player.py:145-154 | adding changes one good's total by the quantity and no other good's |
| Cargo.AddToWeight | caravaneer/player.py:145-154 | adding changes the load by weight times quantity |
| Cargo.AddToLot | caravaneer/player.py:145-154 | adding changes exactly the lot of that good and price, by the quantity |
| Cargo.AddToTidyExactlyWhen | caravaneer/player.py:145-154 | adding any quantity keeps stacks positive and lots different exactly when the stack it ends up in holds something |
| Cargo.TakeAtUnits | caravaneer/player.py:156-164 | taking changes one good's total by the quantity and no other good's |
| Cargo.TakeAtWeight | caravaneer/player.py:156-164 | taking changes the load by weight times quantity |
| Cargo.TakeAtTidy | caravaneer/player.py:156-164 | taking keeps stacks positive and lots different, an emptied stack included |
| Battle.FightsAreFair | caravaneer/combat.py:83-151 | after n rounds or fewer: damage dealt by each side is the other's hull loss, shots never exceed rounds, destroyed is recorded exactly for a dead defender, at most one ship is out, success means destroyed or fled |
| Battle.RoundIsFair | caravaneer/combat.py:83-151 | one round keeps all that and counts itself |
| Battle.IterateStops | caravaneer/combat.py:83-151 | rounds after the end of a fight change nothing, so breaking out of the loop is the same |
| Battle.HitsExactlyWhen | caravaneer/combat.py:178-184 | a draw hits when at most 0.70 between equal speeds, 0.05 more or less for each point of difference, never below 0.30 or above 0.95 |
| Battle.EscapesExactlyWhen | caravaneer/combat.py:196-204 | a draw escapes when below 0.40, or 0.55 in a nebula, 0.10 more or less for each point of difference, never below 0.10 or above 0.85 |
| Battle.SpeedHelps | caravaneer/combat.py:176-204 | a draw that hits or escapes still does when the ship is faster or the other slower, or, escaping, in a nebula |
| Battle.ShotCosts | caravaneer/combat.py:176-194 | a hit costs shields and hull together exactly the attack, shields first; a miss costs nothing |
| Battle.RoundGoesInTurn | caravaneer/combat.py:83-149 | the faster ship acts first, the attacker on a tie; each fires once unless it or the other is out by then; only a leading attacker and then the defender try to flee, once each in a fight; a hit is counted exactly when it reaches a hull |
| Battle.RoundsKeepSound | caravaneer/combat.py:83-151 | rounds change only hull and shields, within limits |
| Battle.RemovalStaysBehind | caravaneer/combat.py:163-168 | the removal for the stack the snapshot reaches next succeeds, in a stack no later than that one |
| Battle.LootIsAFifth | caravaneer/combat.py:163-168 | of a stack that fits the attacker gets a fifth rounded down, or one unit of a smaller stack than five, at its price; a stack is left only when that does not fit |
| Battle.LootingConserves | caravaneer/combat.py:158-168 | good by good, looting moves units from one hold to the other, lists exactly what it moved, and creates none |
| Battle.LootingKeepsSound | caravaneer/combat.py:158-168 | looting keeps both ships within limits |
| Battle.FightIsFairAndConserves | caravaneer/combat.py:58-174 | the verdict facts for a whole fight; combined credits and goods unchanged; a fifth of a destroyed defender's credits and exactly the listed cargo change hands |
| Battle.ShieldsTire | caravaneer/combat.py:153-172 | after the fight each ship has two points of shields less, or none; hull and tank are those of the last round |
| Battle.FightKeepsSound | caravaneer/combat.py:58-174 | a fight keeps both ships within limits |
| Battle.FlightNeedsInitiative | caravaneer/combat.py:86-129 | in a fight of any length whoever flees wanted to, and the attacker acted first |
| Battle.FlightIsPossibleExactlyWhen | caravaneer/combat.py:58-129 | for two live ships, some five rounds of draws let the attacker flee exactly when it acts first and wants out, and the defender exactly when the attacker acts first and the defender wants out |
| Combat.Fire | caravaneer/combat.py:176-194 | one shot on the target object: a hit takes exactly the attack from shields and hull, shields first, and returns what reached the hull; a miss takes nothing |
| Combat.LeadAttacker | caravaneer/combat.py:86-149 | a round led by the attacker, as code over two ships |
| Combat.LeadDefender | caravaneer/combat.py:86-149 | a round led by the defender, as code over two ships |
| Combat.Exchange | caravaneer/combat.py:79-151 | the round loop, left as soon as somebody is out |
| Combat.LootOne | caravaneer/combat.py:163-168 | one turn of the looting loop on live stack objects keeps the rest of the snapshot untouched |
| Combat.Loot | caravaneer/combat.py:163-168 | walking a snapshot while editing the live list does what the looting function says |
| Combat.Resolve | caravaneer/combat.py:58-174 | the whole fight on two separate ships: one to five rounds, then verdict, loot and shield wear |
| Trading.BuyGoods | caravaneer/economy.py:98-122 | the purchase of any quantity on a ship object: refused if illegal, without room or without money, in that order |
| Trading.SellGoods | caravaneer/economy.py:124-153 | the sale of any quantity on a ship object, decided by the first stack of the good |
| Trading.SaleComesFromFirstStack | caravaneer/economy.py:135-147 | the stack a sale is checked against is the one it is taken from |
| Trading.BuyKeepsValue | caravaneer/economy.py:98-122 | credits plus the good's units at the price are unchanged by a purchase, and other goods are untouched |
| Trading.SellKeepsValue | caravaneer/economy.py:124-153 | the same for a sale |
| Trading.BuyGoesThroughExactlyWhen | caravaneer/economy.py:98-122 | a purchase goes through exactly when legal, fitting and affordable; the units join the lot of that price, the credits are paid, and nothing else changes; a refusal changes nothing |
| Trading.SellGoesThroughExactlyWhen | caravaneer/economy.py:124-153 | a sale goes through exactly when legal and the first stack of the good has enough; the units leave that stack, which goes when emptied, and no other; a refusal changes nothing |
| Trading.SaleCanBeRefusedWithStockInHand | caravaneer/economy.py:135-143 | a hold of fifteen units from which eight cannot be sold |
| Trading.SalesAreCompleteExactlyWhenOneStack | caravaneer/economy.py:135-143 | every amount owned can be sold exactly when all of it is in one stack |
| Trading.TradeKeepsSound | caravaneer/economy.py:98-153 | trade in positive quantities keeps the ship within limits |
| Trading.BuyKeepsSoundExactlyWhen | caravaneer/economy.py:98-122 | a purchase of any quantity, of either sign, keeps them exactly when it is illegal, does not fit, cannot be paid, or the stack it ends up in holds something |
| Trading.SellKeepsSoundExactlyWhen | caravaneer/economy.py:124-153 | a sale of any quantity, of either sign, keeps them exactly when it is illegal, there is no stack, the first stack has too little, or it leaves no debt and no overload |
| Trading.NonPositiveTradesBreakLimits | caravaneer/economy.py:98-153 | a ship within its limits that buying nothing, and that selling a negative amount, takes out of them |
| Trading.FuelUp | caravaneer/game.py:410-420 | fills the tank of a ship object at two credits a unit, or changes nothing |
| Trading.MendHull | caravaneer/game.py:437-448 | mends the hull at five credits a point, or changes nothing |
| Trading.ServicesFillUp | caravaneer/game.py:393-445 | refuelling and repair fill up exactly when there is money for all of it, and keep the ship within limits |
| Trading.ServicesCost | caravaneer/game.py:410-445 | the credits lost are twice the fuel gained, and five times the hull gained; nothing else changes |
| Fleet.ObeyingKeepsSound | caravaneer/player.py:141-184 | any one operation keeps every ship of the fleet within limits |
| Fleet.ObeyingTouchesOnly | caravaneer/player.py:141-184 | a command touches only its own ship and the target of an attack, and a ship moves exactly by arriving where it was sent |
| Fleet.AttacksConserve | caravaneer/combat.py:153-168 | an attack on a live ship by a live one conserves credits and every good |
| Fleet.FleetStaysSound | caravaneer/player.py:141-184 | over every run of trade, services, upkeep, jumps and fights all ships stay within limits |
| Fleet.GeneratedIsHarmless | caravaneer/map.py:163-198 | generated maps meet the condition of the run theorem |
| Tasks.WakeUpsAreNeverLost | rasa/pool/controller.py:90-135 | in every run without a re-queue a PENDING task with upstreams, all COMPLETED, still has an unhandled notification from one of them |
| Tasks.StepKeepsWakeUp | rasa/agent/runtime.py:641-671 | each step but a re-queue keeps that, task by task |
| Tasks.RequeueKeepsWakeUpsExactlyWhen | internal/recovery/controller.go:145-151 | a re-queue of a row in any status keeps it exactly when the row has no upstreams or is its own, one is unfinished, or a notification from one is still undelivered |
| Tasks.RequeueLosesWakeUp | internal/recovery/controller.go:119-151 | a run in which a dependent re-queued while ASSIGNED ends up stuck: PENDING, every upstream settled as COMPLETED, nothing on its way |
| Tasks.StuckStaysExactlyWhen | rasa/pool/controller.py:90-135 | a step leaves a stuck task stuck exactly when it is not an assignment, claim or cancellation of the task or a re-queue of an upstream; no step of the system's own is one |
| Tasks.StuckForGood | rasa/pool/controller.py:90-135 | however a run goes on without those steps, the task stays stuck |
| Tasks.LockedRowsAreAssigned | rasa/agent/runtime.py:168-182 | a row selected FOR UPDATE stays ASSIGNED until its daemon writes it or rolls back |
| Tasks.RunningRowsExecute | rasa/agent/runtime.py:165-182 | unless an execution dies silently every RUNNING row has a live execution |
| Tasks.WhoWroteIt | rasa/agent/dispatcher.py:288-292 | in every run a row is PENDING since the start or holds what the last statement on it wrote: FAILED only by Fail, CHECKPOINTED only by Checkpoint, CANCELLED only by Cancel, and so on; a notification assigns only rows it unblocks |
| Tasks.StatementsTakeEffect | rasa/agent/runtime.py:641-671 | every statement that takes effect leaves its row with its own status and no other row changed |
| Tasks.PendingRowIsClaimed | rasa/agent/dispatcher.py:174-178 | a run in which a dispatcher takes a row from PENDING to RUNNING |
| Tasks.BooksBalance | rasa/agent/dispatcher.py:288-303 | in every run, task by task: claims are live executions, reports and deaths; reports are notifications pending or handled; assignment checks are open or written; a row is locked by at most one daemon, which has neither started it nor rolled back |
| Tasks.NothingWaitsButForLocks | rasa/agent/runtime.py:168-182 | in every run only a row lock can hold a statement up: executions can report any outcome, open assignments be written, and rows be claimed or cancelled exactly while PENDING or ASSIGNED |
| Tasks.QuietMeansAllCompleted | rasa/pool/controller.py:90-135 | acyclic graph, dependency-free tasks assigned, nothing failed or cancelled, no step enabled: every task is COMPLETED |
| Tasks.UnfinishedTaskMoves | rasa/pool/controller.py:90-135 | an unfinished task with finished upstreams always has a step of the system's own enabled |
| Tasks.ClaimsAreExclusive | rasa/agent/dispatcher.py:174-185 | between two claims of a task, by daemons or dispatchers, some step put its row back to PENDING or ASSIGNED |
| Tasks.WhoPutsBack | rasa/orchestrator/delegator.py:98-101 | only a late assignment or a re-queue can do that; unblocking never does |
| Tasks.OrderKeptExactlyWhen | rasa/pool/controller.py:105-124 | a step keeps order and single execution exactly when a late assignment or a re-queue hits a row without execution and, if COMPLETED, without a dependent past PENDING, and assignments and claims find all upstreams COMPLETED |
| Tasks.DisciplineOrders | rasa/pool/controller.py:105-124 | in disciplined runs every task past PENDING has all its upstreams COMPLETED, with at most one execution per task |
| Tasks.CompletionUndoneExactlyBy | rasa/orchestrator/delegator.py:80-109 | a completion is undone by exactly four statements on that row: a late assignment, a re-queue, and the failure or checkpoint of a second execution |
| Tasks.CompletedForGood | rasa/agent/runtime.py:641-647 | in disciplined runs a COMPLETED task stays COMPLETED |
| Tasks.ClaimsFollowUpstreams | rasa/pool/controller.py:105-124 | a task is claimed only when all its upstreams are COMPLETED, and they stay so |
| Tasks.CompletionsAreTopological | rasa/pool/controller.py:105-124 | every completion comes after the completions of all its upstreams |
| Tasks.FailureBlocksDownstream | rasa/agent/runtime.py:665-671 | while an upstream is FAILED its dependents are still PENDING or cancelled |
| Tasks.ClaimedAtMostOnce | rasa/agent/dispatcher.py:174-185 | a disciplined run claims each task at most once |
| Tasks.StaleAssignUndoesCompletion | rasa/orchestrator/delegator.py:80-109 | a run without re-queues that ends with a completed upstream ASSIGNED again and its dependent running |
| Tasks.LateAssignFailsCompletion | rasa/orchestrator/delegator.py:80-109 | a run without re-queues in which a late assignment starts a second execution, whose failure turns COMPLETED into FAILED |
| Tasks.CarefulRunsAreDisciplined | rasa/orchestrator/delegator.py:80-109 | calling assign_task at most once per task and only on tasks without upstreams, never claiming or cancelling a PENDING row and never re-queueing is enough for the discipline |
| Tasks.DisciplinedRunsEnd | rasa/pool/controller.py:105-124 | a disciplined run has at most four steps per task plus two for each assignment check and rolled-back poll |
| TaskTable.Table.PollForTask | rasa/agent/runtime.py:169-177 | locks the first ASSIGNED, unlocked row of the queue, skipping locked ones, or finds none |
| TaskTable.Table.CheckAssignable | rasa/orchestrator/delegator.py:84-95 | assign_task goes on to its update exactly from a PENDING row |
| TaskTable.Table.ClaimOneShot | rasa/agent/dispatcher.py:174-185 | claims exactly a row that is PENDING or ASSIGNED, which is RUNNING afterwards; otherwise bails out and changes nothing |
| TaskTable.Table.WriteOutcome | rasa/agent/dispatcher.py:288-303 | writes COMPLETED, FAILED or CHECKPOINTED, whatever the row says by then, and notifies |
| TaskTable.Table.CancelRow | rasa/gui/cli.py:309-316 | cancels exactly a row that is PENDING or ASSIGNED |
| TaskTable.Table.RequeueRow | internal/recovery/controller.go:145-151 | sets the row back to PENDING, whatever it says |
| TaskTable.Table.HasUnfinishedUpstream | rasa/pool/controller.py:110-115 | the NOT EXISTS subquery, row by row |
| TaskTable.Table.OnTaskCompleted | rasa/pool/controller.py:90-133 | moves to ASSIGNED exactly the PENDING dependents with every upstream COMPLETED, lists exactly those, and consumes the notification |
| ArrayLiteral.PqArray | internal/memory/canonical.go:216-226 | the printing loop gives the one literal of section 8.15.6 that quotes every element, and a strict reader of that grammar reads back exactly the list |
| ArrayLiteral.ParsePQArray | internal/memory/canonical.go:228-270 | the byte loop with its two flags is the scanner fed byte by byte after the trim |
| ArrayLiteral.EscapeReadsBack | internal/memory/canonical.go:223-255 | inside quotes any escaped bytes read back as themselves |
| ArrayLiteral.JoinReadsBack | internal/memory/canonical.go:244-265 | joined elements, quoted or bare, read back one by one, the last still current |
| ArrayLiteral.JoinHasNoOuterBraces | internal/memory/canonical.go:234 | trimming takes only the outer pair of braces of a printed literal |
| ArrayLiteral.ParseRender | internal/memory/canonical.go:216-270 | parsing any literal of a list, with any mix of quoted and bare elements, gives the list less an empty last element |
| ArrayLiteral.RoundTrip | internal/memory/canonical.go:216-270 | a list comes back exactly when it is empty or its last element is not |
| ArrayLiteral.PrintIsTheQuotedLiteral | internal/memory/canonical.go:216-226 | the strict reader, which wants both braces, one comma between elements, every element quoted and every quote and backslash in it escaped, reads a text as this list exactly when the text is what the printer gives; empty last elements included |
| ArrayLiteral.RenderedIsRead | internal/memory/canonical.go:216-226 | every literal of a list, whatever is left bare, is in the grammar and denotes that list |
| ArrayLiteral.ReadIsRendered | internal/memory/canonical.go:228-270 | and every literal of the grammar is one of those |
| ArrayLiteral.ScannerReadsTheGrammar | internal/memory/canonical.go:228-270 | the parser reads every literal of the grammar right, but for an empty last element |
| Bus.EveryRun | internal/bus/pg_subscriber.go:75-132 | with any number of publishers and subscribers whose transactions overlap: rows are handed over at most once, and pending rows never exceed an ear's backlog plus its wake-ups and the fetch it has in hand |
| Bus.DeliveryFollowsIdsExactlyWhen | internal/bus/pg_publisher.go:54-82 | for anything publishers do: in every run in which they do that, or a first part of it, consumed rows are always their channel's oldest, exactly when each channel's commits come in id order |
| Bus.OrderedCommitsKeepOrder | internal/bus/pg_subscriber.go:99-132 | in a run whose commits come in id order the consumed rows of each channel are its oldest |
| Bus.NewerRowOvertakes | internal/bus/pg_publisher.go:54-82 | two publishers that commit in the other order let a newer row be handed over while an older one stays pending |
| Bus.IdleEarMeansDrained | internal/bus/pg_subscriber.go:75-97 | an idle subscriber that started level means every committed row of the channel has been handed over |
| Bus.RowsAreDurable | internal/bus/pg_publisher.go:44-83 | a published row keeps its place, channel and envelope; it appears exactly by its commit, is dropped exactly by its rollback, is consumed only by a fetch on its channel that sees it, and stays consumed or dropped |
| Bus.FetchTakesOldestSeen | internal/bus/pg_subscriber.go:99-132 | a fetch hands over the oldest row of its snapshot still pending, that row only, and nothing exactly when there is none |
| Bus.WakeUpsFollowCommits | internal/bus/pg_publisher.go:70-82 | a connected ear's wake-ups grow by one with each commit on its channel and shrink by one with each fetch it begins, whose snapshot is all that is pending there |
| Bus.ListenersStartWithBacklog | internal/bus/pg_subscriber.go:53-68 | a new listener has no wake-ups, and its backlog is what is pending on the channel |
| Souls.ReadRaw | rasa/agent/soul.py:190-198 | the scan finds the first document that names the id, and fails exactly when none does |
| Souls.LookupIsFirst | rasa/agent/soul.py:190-198 | what is found is the first document of the directory that names the id |
| Souls.FalsyValues | rasa/agent/soul.py:217-219 | a sheet inherits from nothing exactly when its inherits entry is missing, None, False, zero or empty |
| Souls.DeepMerge | rasa/agent/soul.py:226-236 | the loop over the overlay's entries, in any order, gives the merge |
| Souls.MergeIsLeafwise | rasa/agent/soul.py:226-236 | on every path avoiding inherits the overlay decides wherever it says anything, even by blocking the path |
| Souls.NestedInheritsIsDroppedExactlyWhen | rasa/agent/soul.py:226-236 | where the inheriting sheet has a dict at a path, its inherits entry there is dropped for the base's exactly when the base has a dict there too, and survives otherwise |
| Souls.ResolvesExactlyWhenShallow | rasa/agent/soul.py:212-224 | resolution succeeds exactly when the chain of existing parents ends within five ancestors, and reports excessive depth exactly when a sixth exists |
| Souls.CyclesAreErrors | rasa/agent/soul.py:212-224 | a chain that meets a sheet twice is an error |
| Souls.ResolvedNamesNoParent | rasa/agent/soul.py:226-236 | the resolved sheet has no truthy inherits at the top |
| Souls.NearestSheetDecides | rasa/agent/soul.py:212-236 | a leaf of the resolved sheet is what the nearest sheet saying anything about it says; with all silent there is none |
| AgentRegistry.IndexAfterArrival | internal/pool/agent_registry.go:131-136 | indexing a new agent keeps the soul index equal to a scan of the agents |
| AgentRegistry.IndexAfterRemoval | internal/pool/agent_registry.go:138-146 | unindexing a removed agent keeps it so, without empty sets |
| AgentRegistry.IndexAfterMove | internal/pool/agent_registry.go:40-44 | moving an agent between souls keeps it so |
| AgentRegistry.NoEmptySets | internal/pool/agent_registry.go:142-144 | a soul is a key of the index exactly when some agent has it |
| AgentRegistry.RegisteredExactlyWhenAlive | internal/pool/agent_registry.go:31-90 | after any run of heartbeats and sweeps an agent is registered exactly when no later sweep passed its last heartbeat, under that heartbeat's soul and state |
| AgentRegistry.RegisteredWhenItJoined | internal/pool/agent_registry.go:46-56 | after any run the registration time of an agent is that of its first heartbeat since it was last absent |
| AgentRegistry.Registry.Upsert | internal/pool/agent_registry.go:31-58 | adds or updates one agent, soul change included, keeping the index equal to the scan |
| AgentRegistry.Registry.RemoveDead | internal/pool/agent_registry.go:76-90 | removes and lists exactly the agents heard from before the deadline, each once |
| AgentRegistry.Registry.FindBySoul | internal/pool/agent_registry.go:60-74 | lists exactly the agents with that soul, each once |
| AgentRegistry.Registry.CountByState | internal/pool/agent_registry.go:92-103 | the number of agents in that state |
| ParentChain.DetectCycle | rasa/orchestrator/dag.py:19-58 | ends on any parent column, and is true exactly when the new task is the parent or above it, the chain loops, or the new task depends on the parent or one of its ancestors |
| ParentChain.LinkKeepsAcyclicExactlyWhen | rasa/orchestrator/dag.py:19-58 | from an acyclic table a link keeps it acyclic exactly when the task is not already the parent or above it |
| ParentChain.VerdictOnAcyclicTables | rasa/orchestrator/dag.py:19-58 | from an acyclic table False is always safe, and True without a dependency hit means the link would close a cycle |
| ParentChain.CycleAboveIsRevisit | rasa/orchestrator/dag.py:64-91 | the recursive query finds a cycle exactly when the chain revisits a task |
| ParentChain.AcyclicExactlyWhenAllValidate | rasa/orchestrator/dag.py:64-91 | the table is acyclic exactly when every row validates |

## Left out

- Floating point: costs, weights, chances and line points are exact, so rounding of binary fractions is not modelled.
- Travel: positions during a jump (nebula drift, wormhole rides, teleports), which arrival overwrites, and the position of a lost ship; `_check_discovery`; the event texts.
- Galaxy generation: factions, star-system populations, the `discovered` flags of systems, and `generate_player_starts`.
- Economy: how prices are formed (`get_price`) and market events; the price is an input of at least 1.
- Combat: the log texts and `generate_pirate`.
- Port services: reputation and the requirement to be at a star system; a refusal changes nothing.
- Task protocol: how a task reaches an agent (`_on_task_assigned`, the `tasks_assigned` notifications, agent ids), pause and resume, the timeout sweep, the crash-recovery block that cannot be reached (rasa/agent/runtime.py:197-233), ad-hoc tasks inserted as RUNNING, tasks or dependencies added during a run, and the Go pool controller.
- Task notifications: the controller is taken to be listening throughout. A NOTIFY sent while nobody listens is lost, and the wake-up laws do not cover a controller that is down or reconnecting.
- Database failures: transactions succeed, and the branches that fail open, such as rasa/orchestrator/dag.py:59-61, are not modelled.
- Bus: envelopes that do not parse and subscribers without a handler.
- Array literals: PostgreSQL's own choice of what to quote is any choice that leaves bare only non-empty elements without syntax characters.
- Souls: YAML parsing, schema validation, keys that are not strings, Python's equality of numbers and booleans, caching, reloading and the typed view of a sheet.
- Agent registry: locking, and callers that write to a returned record.
- Parent chains: the parent is an id in canonical text form; the empty string stands for no parent.
- GUI, command lines, dashboards, servers, model gateways, embeddings, policies, tech tree, rumours and scoring.
