/** Why the lazy-heap A* of TravelEngine.find_path (caravaneer/travel.py) is right, over any
    weighted graph of positions: the state of the search, what every step keeps, and what the
    frontier says about all routes. Duplicate and stale heap entries are allowed throughout. */
module AStar {
  import opened Hex

  /** edge(u, v): v may be entered from u; price(v): what entering v costs; estimate: the heuristic. */
  datatype Graph = Graph(
    edge: (Position, Position) -> bool,
    price: Position -> int,
    estimate: Position -> int)

  ghost predicate NonNegativePrices(gr: Graph) {
    forall u, v :: gr.edge(u, v) ==> u != v && gr.price(v) >= 0
  }

  /** The heuristic never drops by more than the price of a step, and is zero at the goal. */
  ghost predicate Consistent(gr: Graph, dest: Position) {
    && gr.estimate(dest) == 0
    && (forall p :: gr.estimate(p) >= 0)
    && (forall u, v :: gr.edge(u, v) ==> gr.estimate(u) <= gr.price(v) + gr.estimate(v))
  }

  ghost predicate Path(gr: Graph, path: seq<Position>, a: Position, b: Position) {
    && |path| > 0 && path[0] == a && path[|path| - 1] == b
    && forall i :: 0 < i < |path| ==> gr.edge(path[i - 1], path[i])
  }

  function PathCost(gr: Graph, path: seq<Position>): int {
    if |path| <= 1 then 0 else gr.price(path[1]) + PathCost(gr, path[1..])
  }

  lemma PathTail(gr: Graph, path: seq<Position>, a: Position, b: Position)
    requires Path(gr, path, a, b) && |path| > 1
    ensures gr.edge(a, path[1]) && Path(gr, path[1..], path[1], b)
    ensures PathCost(gr, path) == gr.price(path[1]) + PathCost(gr, path[1..])
  {
    var tail := path[1..];
    forall i | 0 < i < |tail|
      ensures gr.edge(tail[i - 1], tail[i])
    {
      assert tail[i - 1] == path[i] && tail[i] == path[i + 1];
    }
  }

  lemma PathPrepend(gr: Graph, path: seq<Position>, u: Position, v: Position, b: Position)
    requires Path(gr, path, v, b) && gr.edge(u, v)
    ensures Path(gr, [u] + path, u, b)
    ensures PathCost(gr, [u] + path) == gr.price(v) + PathCost(gr, path)
  {
    assert ([u] + path)[1..] == path;
  }

  /** A consistent heuristic is admissible: it never overestimates a path to the goal. */
  lemma {:induction false} ConsistentIsAdmissible(gr: Graph, path: seq<Position>, a: Position, dest: Position)
    requires Path(gr, path, a, dest) && Consistent(gr, dest)
    ensures gr.estimate(a) <= PathCost(gr, path)
    decreases |path|
  {
    if |path| > 1 {
      PathTail(gr, path, a, dest);
      ConsistentIsAdmissible(gr, path[1..], path[1], dest);
    }
  }

  lemma {:induction false} PathCostAtMost(gr: Graph, path: seq<Position>, most: nat)
    requires path != [] && forall i :: 0 < i < |path| ==> gr.price(path[i]) <= most
    ensures PathCost(gr, path) <= most * (|path| - 1)
  {
    if |path| > 1 {
      PathCostAtMost(gr, path[1..], most);
      assert most * (|path| - 1) == most + most * (|path| - 2);
    }
  }

  // ---- The state of the search ----

  datatype Entry = Entry(priority: int, pos: Position)

  datatype Search = Search(
    frontier: seq<Entry>,
    cameFrom: map<Position, Position>,
    cost: map<Position, int>)

  /** The priority under which a cell's present cost was pushed; the start went in under 0. */
  function Key(gr: Graph, start: Position, cost: map<Position, int>, v: Position): int
    requires v in cost
  {
    if v == start then 0 else cost[v] + gr.estimate(v)
  }

  /** The came-from links follow edges, and a recorded cost never undershoots its link. */
  ghost predicate Tree(gr: Graph, start: Position, s: Search) {
    && start in s.cost && s.cost[start] == 0
    && start !in s.cameFrom && s.cost.Keys == s.cameFrom.Keys + {start}
    && (forall v :: v in s.cost ==> s.cost[v] >= 0)
    && (forall v {:trigger Linked(gr, s, v)} :: v in s.cameFrom ==> Linked(gr, s, v))
  }

  ghost predicate Linked(gr: Graph, s: Search, v: Position)
    requires v in s.cameFrom
  {
    var u := s.cameFrom[v];
    v in s.cost && u in s.cost && gr.edge(u, v) && s.cost[u] + gr.price(v) <= s.cost[v]
  }

  /** Came-from was recorded sooner, or has become strictly cheaper since: following it cannot go round. */
  ghost predicate Sooner(gr: Graph, cameFrom: map<Position, Position>, cost: map<Position, int>,
                         time: map<Position, nat>, v: Position)
    requires v in cameFrom
  {
    var u := cameFrom[v];
    && v in cost && u in cost && v in time && u in time
    && (cost[u] + gr.price(v) < cost[v] || time[u] < time[v])
  }

  /** time says when each present cost was recorded. */
  ghost predicate Dated(gr: Graph, cameFrom: map<Position, Position>, cost: map<Position, int>,
                        time: map<Position, nat>, now: nat)
  {
    && time.Keys == cost.Keys && (forall v :: v in time ==> time[v] < now)
    && (forall v {:trigger Sooner(gr, cameFrom, cost, time, v)} ::
          v in cameFrom ==> Sooner(gr, cameFrom, cost, time, v))
  }

  ghost predicate Grown(gr: Graph, cameFrom: map<Position, Position>, cost: map<Position, int>) {
    exists time: map<Position, nat>, now: nat :: Dated(gr, cameFrom, cost, time, now)
  }

  /** No entry in the frontier undersells the present cost of its cell. */
  ghost predicate Queued(gr: Graph, start: Position, s: Search) {
    forall e :: e in s.frontier ==> e.pos in s.cost && e.priority >= Key(gr, start, s.cost, e.pos)
  }

  /** The present cost of v still waits in the frontier. */
  ghost predicate Open(gr: Graph, start: Position, s: Search, v: Position)
    requires v in s.cost
  {
    Entry(Key(gr, start, s.cost, v), v) in s.frontier
  }

  predicate NoBetterVia(gr: Graph, cost: map<Position, int>, v: Position, w: Position)
    requires v in cost
  {
    w in cost && cost[w] <= cost[v] + gr.price(w)
  }

  /** No cell that v leads to could be improved through v. */
  ghost predicate Settled(gr: Graph, cost: map<Position, int>, v: Position)
    requires v in cost
  {
    forall w :: gr.edge(v, w) ==> NoBetterVia(gr, cost, v, w)
  }

  /** Every discovered cell, except possibly the one being expanded, is open or settled. */
  ghost predicate Covered(gr: Graph, start: Position, s: Search, expanding: set<Position>) {
    forall v {:trigger Open(gr, start, s, v)} ::
      v in s.cost && v !in expanding ==> Open(gr, start, s, v) || Settled(gr, s.cost, v)
  }

  ghost predicate Invariant(gr: Graph, start: Position, s: Search, expanding: set<Position>) {
    && Tree(gr, start, s) && Grown(gr, s.cameFrom, s.cost)
    && Queued(gr, start, s) && Covered(gr, start, s, expanding)
  }

  /** The state before the first pop. */
  lemma InitialInvariant(gr: Graph, start: Position)
    ensures Invariant(gr, start, Search([Entry(0, start)], map[], map[start := 0]), {})
  {
    var s := Search([Entry(0, start)], map[], map[start := 0]);
    assert s.frontier[0] == Entry(0, start);
    assert Open(gr, start, s, start);
    assert Dated(gr, s.cameFrom, s.cost, map[start := 0], 1);
  }

  // ---- Each step keeps the invariant ----

  /** Popping an entry leaves its cell to be expanded, whether or not the entry was stale. */
  lemma PopKeepsInvariant(gr: Graph, start: Position, s: Search, top: Entry, rest: seq<Entry>)
    requires Invariant(gr, start, s, {})
    requires top in s.frontier
    requires forall e :: e in s.frontier ==> e == top || e in rest
    requires forall e :: e in rest ==> e in s.frontier
    ensures top.pos in s.cost
    ensures Invariant(gr, start, s.(frontier := rest), {top.pos})
  {
    var s' := s.(frontier := rest);
    forall v | v in s'.cameFrom
      ensures Linked(gr, s', v)
    {
      assert Linked(gr, s, v);
    }
    forall v | v in s'.cost && v !in {top.pos}
      ensures Open(gr, start, s', v) || Settled(gr, s'.cost, v)
    {
      assert Open(gr, start, s, v) || Settled(gr, s.cost, v);
    }
  }

  /** Records a way into w through current at cost c. */
  function Record(gr: Graph, s: Search, current: Position, w: Position, c: int): Search {
    Search(s.frontier + [Entry(c + gr.estimate(w), w)], s.cameFrom[w := current], s.cost[w := c])
  }

  lemma RecordKeepsTree(gr: Graph, start: Position, s: Search, current: Position, w: Position)
    requires Tree(gr, start, s) && NonNegativePrices(gr)
    requires current in s.cost && gr.edge(current, w) && !NoBetterVia(gr, s.cost, current, w)
    ensures w != start && w != current
    ensures Tree(gr, start, Record(gr, s, current, w, s.cost[current] + gr.price(w)))
  {
    var s' := Record(gr, s, current, w, s.cost[current] + gr.price(w));
    forall v | v in s'.cameFrom
      ensures Linked(gr, s', v)
    {
      if v != w {
        assert Linked(gr, s, v);
      }
    }
  }

  lemma RecordKeepsGrown(gr: Graph, start: Position, s: Search, current: Position, w: Position)
    requires Tree(gr, start, s) && Grown(gr, s.cameFrom, s.cost) && NonNegativePrices(gr)
    requires current in s.cost && gr.edge(current, w) && !NoBetterVia(gr, s.cost, current, w)
    ensures Grown(gr, s.cameFrom[w := current], s.cost[w := s.cost[current] + gr.price(w)])
  {
    var time: map<Position, nat>, now: nat :| Dated(gr, s.cameFrom, s.cost, time, now);
    var cameFrom, cost, time' := s.cameFrom[w := current], s.cost[w := s.cost[current] + gr.price(w)], time[w := now];
    forall v | v in cameFrom
      ensures Sooner(gr, cameFrom, cost, time', v)
    {
      if v != w {
        assert Linked(gr, s, v) && Sooner(gr, s.cameFrom, s.cost, time, v);
      }
    }
    assert Dated(gr, cameFrom, cost, time', now + 1);
  }

  lemma RecordKeepsCover(gr: Graph, start: Position, s: Search, current: Position, w: Position, c: int)
    requires Covered(gr, start, s, {current}) && Queued(gr, start, s)
    requires current in s.cost && w != start && w != current && (w in s.cost ==> c < s.cost[w])
    ensures Covered(gr, start, Record(gr, s, current, w, c), {current})
    ensures Queued(gr, start, Record(gr, s, current, w, c))
  {
    var s' := Record(gr, s, current, w, c);
    forall v | v in s'.cost && v !in {current}
      ensures Open(gr, start, s', v) || Settled(gr, s'.cost, v)
    {
      if v == w {
        assert s'.frontier[|s.frontier|] == Entry(Key(gr, start, s'.cost, v), v);
      } else if Open(gr, start, s, v) {
        assert Open(gr, start, s', v);
      } else {
        CheaperKeepsSettled(gr, s.cost, w, c, v);
      }
    }
  }

  lemma RecordKeepsInvariant(gr: Graph, start: Position, s: Search, current: Position, w: Position)
    requires Invariant(gr, start, s, {current}) && NonNegativePrices(gr)
    requires current in s.cost && gr.edge(current, w) && !NoBetterVia(gr, s.cost, current, w)
    ensures w != current
    ensures Invariant(gr, start, Record(gr, s, current, w, s.cost[current] + gr.price(w)), {current})
  {
    RecordKeepsTree(gr, start, s, current, w);
    RecordKeepsGrown(gr, start, s, current, w);
    RecordKeepsCover(gr, start, s, current, w, s.cost[current] + gr.price(w));
  }

  /** Recording an improvement undoes no earlier one through the same cell, and makes progress. */
  lemma RecordProgress(gr: Graph, cost: map<Position, int>, current: Position, w: Position, cells: seq<Position>)
    requires current in cost && w != current && !NoBetterVia(gr, cost, current, w) && w in cells
    ensures var after := cost[w := cost[current] + gr.price(w)];
      && NoBetterVia(gr, after, current, w)
      && (forall v :: NoBetterVia(gr, cost, current, v) ==> NoBetterVia(gr, after, current, v))
      && Smaller(cells, after, cost)
  {
    if w in cost {
      ImprovementDrops(cells, cost, w, cost[current] + gr.price(w));
    } else {
      DiscoveryDrops(cells, cost, w, cost[current] + gr.price(w));
    }
  }

  /** What looking at one neighbour w of the expanded cell must leave behind. */
  ghost predicate Relaxed(gr: Graph, start: Position, s: Search, current: Position, cells: seq<Position>, s': Search)
    requires current in s.cost
  {
    && Invariant(gr, start, s', {current})
    && current in s'.cost && s'.cost[current] == s.cost[current]
    && (forall v :: NoBetterVia(gr, s.cost, current, v) ==> NoBetterVia(gr, s'.cost, current, v))
    && (s' == s || Smaller(cells, s'.cost, s.cost))
  }

  lemma RecordRelaxes(gr: Graph, start: Position, s: Search, current: Position, w: Position, cells: seq<Position>)
    requires Invariant(gr, start, s, {current}) && NonNegativePrices(gr) && w in cells
    requires current in s.cost && gr.edge(current, w) && !NoBetterVia(gr, s.cost, current, w)
    ensures var s' := Record(gr, s, current, w, s.cost[current] + gr.price(w));
      Relaxed(gr, start, s, current, cells, s') && NoBetterVia(gr, s'.cost, current, w)
  {
    RecordKeepsInvariant(gr, start, s, current, w);
    RecordProgress(gr, s.cost, current, w, cells);
  }

  lemma CheaperKeepsSettled(gr: Graph, cost: map<Position, int>, w: Position, c: int, v: Position)
    requires v in cost && v != w && (w in cost ==> c < cost[w])
    requires Settled(gr, cost, v)
    ensures Settled(gr, cost[w := c], v)
  {
    forall x | gr.edge(v, x)
      ensures NoBetterVia(gr, cost[w := c], v, x)
    {
      assert NoBetterVia(gr, cost, v, x);
    }
  }

  /** Once no neighbour can be improved through it, the expanded cell is settled. */
  lemma ExpansionDone(gr: Graph, start: Position, s: Search, current: Position)
    requires Invariant(gr, start, s, {current}) && current in s.cost && Settled(gr, s.cost, current)
    ensures Invariant(gr, start, s, {})
  {
  }

  // ---- What the frontier says about every route ----

  /** Follow any path from a cell whose cost is at most base: either an open cell on it put an
      entry in the frontier no dearer than the whole path, or its end was reached within that cost. */
  lemma {:induction false} FrontierBoundsPaths(
    gr: Graph, start: Position, s: Search, path: seq<Position>, from: Position, dest: Position, base: int)
    requires Invariant(gr, start, s, {})
    requires Path(gr, path, from, dest) && from in s.cost && s.cost[from] <= base
    requires s.frontier == [] || Consistent(gr, dest)
    ensures || (exists e :: e in s.frontier && e.priority <= base + PathCost(gr, path))
            || (dest in s.cost && s.cost[dest] <= base + PathCost(gr, path))
    decreases |path|
  {
    if |path| > 1 {
      if Open(gr, start, s, from) {
        ConsistentIsAdmissible(gr, path, from, dest);
        var e := Entry(Key(gr, start, s.cost, from), from);
        assert e in s.frontier && e.priority <= base + PathCost(gr, path);
      } else {
        assert Settled(gr, s.cost, from);
        PathTail(gr, path, from, dest);
        assert NoBetterVia(gr, s.cost, from, path[1]);
        FrontierBoundsPaths(gr, start, s, path[1..], path[1], dest, base + gr.price(path[1]));
      }
    }
  }

  // ---- Termination: undiscovered cells, then the sum of costs, then the frontier ----

  function Undiscovered(cells: seq<Position>, cost: map<Position, int>): nat {
    if cells == [] then 0 else
      (if cells[0] in cost then 0 else 1) + Undiscovered(cells[1..], cost)
  }

  function TotalCost(cells: seq<Position>, cost: map<Position, int>): int {
    if cells == [] then 0 else
      (if cells[0] in cost then cost[cells[0]] else 0) + TotalCost(cells[1..], cost)
  }

  lemma {:induction false} TotalCostNonNegative(cells: seq<Position>, cost: map<Position, int>)
    requires forall v :: v in cost ==> cost[v] >= 0
    ensures TotalCost(cells, cost) >= 0
  {
    if cells != [] {
      TotalCostNonNegative(cells[1..], cost);
    }
  }

  lemma {:induction false} DiscoveryDrops(cells: seq<Position>, cost: map<Position, int>, w: Position, c: int)
    requires w !in cost
    ensures Undiscovered(cells, cost[w := c]) <= Undiscovered(cells, cost)
    ensures w in cells ==> Undiscovered(cells, cost[w := c]) < Undiscovered(cells, cost)
  {
    if cells != [] {
      DiscoveryDrops(cells[1..], cost, w, c);
    }
  }

  lemma {:induction false} ImprovementDrops(cells: seq<Position>, cost: map<Position, int>, w: Position, c: int)
    requires w in cost && c < cost[w]
    ensures Undiscovered(cells, cost[w := c]) == Undiscovered(cells, cost)
    ensures TotalCost(cells, cost[w := c]) <= TotalCost(cells, cost)
    ensures w in cells ==> TotalCost(cells, cost[w := c]) < TotalCost(cells, cost)
  {
    if cells != [] {
      ImprovementDrops(cells[1..], cost, w, c);
    }
  }

  /** The pair (undiscovered, total) got lexicographically smaller. */
  predicate Smaller(cells: seq<Position>, after: map<Position, int>, before: map<Position, int>) {
    || Undiscovered(cells, after) < Undiscovered(cells, before)
    || (Undiscovered(cells, after) == Undiscovered(cells, before) && TotalCost(cells, after) < TotalCost(cells, before))
  }
}
