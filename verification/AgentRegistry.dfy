/** The pool's two-index registry of live agents (internal/pool/agent_registry.go). Times are plain
    numbers read from the caller's clock. */
module AgentRegistry {

  datatype Agent = Agent(soul: string, state: string, heartbeat: int, registered: int)

  /** The registry as a value: the agents by id. */
  type Roster = map<string, Agent>

  // ---- The index by soul ----

  function Members(roster: Roster, soul: string): set<string> {
    set id | id in roster && roster[id].soul == soul
  }

  /** The soul index a scan of the agents would build. */
  function Index(roster: Roster): map<string, set<string>> {
    map soul | soul in Souls(roster) :: Members(roster, soul)
  }

  function Souls(roster: Roster): set<string> {
    set id | id in roster :: roster[id].soul
  }

  function Indexed(index: map<string, set<string>>, soul: string, id: string): map<string, set<string>> {
    index[soul := (if soul in index then index[soul] else {}) + {id}]
  }

  function Unindexed(index: map<string, set<string>>, soul: string, id: string): map<string, set<string>> {
    if soul !in index then index
    else if index[soul] - {id} == {} then index - {soul}
    else index[soul := index[soul] - {id}]
  }

  /** The index has no empty sets: a soul is a key exactly when some agent has it. */
  lemma NoEmptySets(roster: Roster)
    ensures forall soul :: soul in Index(roster) <==> Members(roster, soul) != {}
  {
    forall soul
      ensures soul in Souls(roster) <==> Members(roster, soul) != {}
    {
      if soul in Souls(roster) {
        var id :| id in roster && roster[id].soul == soul;
        assert id in Members(roster, soul);
      }
      if Members(roster, soul) != {} {
        var id :| id in Members(roster, soul);
        assert roster[id].soul in Souls(roster);
      }
    }
  }

  lemma SameIndex(roster: Roster, index: map<string, set<string>>)
    requires forall soul :: soul in index <==> Members(roster, soul) != {}
    requires forall soul :: soul in index ==> index[soul] == Members(roster, soul)
    ensures index == Index(roster)
  {
    NoEmptySets(roster);
  }

  lemma IndexAfterRefresh(roster: Roster, id: string, agent: Agent)
    requires id in roster && roster[id].soul == agent.soul
    ensures Index(roster[id := agent]) == Index(roster)
  {
    var after := roster[id := agent];
    forall soul
      ensures Members(after, soul) == Members(roster, soul)
    {
    }
    NoEmptySets(roster);
    SameIndex(after, Index(roster));
  }

  /** Indexing a newly registered agent keeps the index equal to the scan. */
  lemma IndexAfterArrival(roster: Roster, id: string, agent: Agent)
    requires id !in roster
    ensures Index(roster[id := agent]) == Indexed(Index(roster), agent.soul, id)
  {
    var after := roster[id := agent];
    forall soul
      ensures Members(after, soul) == Members(roster, soul) + if soul == agent.soul then {id} else {}
    {
    }
    NoEmptySets(roster);
    SameIndex(after, Indexed(Index(roster), agent.soul, id));
  }

  /** Unindexing a removed agent keeps the index equal to the scan. */
  lemma IndexAfterRemoval(roster: Roster, id: string)
    requires id in roster
    ensures Index(roster - {id}) == Unindexed(Index(roster), roster[id].soul, id)
  {
    var after := roster - {id};
    forall soul
      ensures Members(after, soul) == Members(roster, soul) - if soul == roster[id].soul then {id} else {}
    {
    }
    NoEmptySets(roster);
    assert id in Members(roster, roster[id].soul);
    SameIndex(after, Unindexed(Index(roster), roster[id].soul, id));
  }

  /** Rewriting a known agent moves it between souls when its soul changed. */
  lemma IndexAfterMove(roster: Roster, id: string, agent: Agent)
    requires id in roster && roster[id].soul != agent.soul
    ensures Index(roster[id := agent])
         == Indexed(Unindexed(Index(roster), roster[id].soul, id), agent.soul, id)
  {
    IndexAfterRemoval(roster, id);
    IndexAfterArrival(roster - {id}, id, agent);
    assert (roster - {id})[id := agent] == roster[id := agent];
  }

  function InState(roster: Roster, state: string): set<string> {
    set id | id in roster && roster[id].state == state
  }

  lemma CountOneMore(matching: set<string>, left: set<string>, id: string)
    requires id in left
    ensures |matching - (left - {id})| == |matching - left| + if id in matching then 1 else 0
  {
    assert matching - (left - {id}) == (matching - left) + if id in matching then {id} else {};
  }

  lemma ListOneMore(ids: seq<string>, listed: set<string>, id: string)
    requires multiset(ids) == multiset(listed) && id !in listed
    ensures multiset(ids + [id]) == multiset(listed + {id})
  {
    assert multiset(listed + {id}) == multiset(listed) + multiset{id};
  }

  // ---- Commands ----

  datatype Command =
    | Heartbeat(id: string, soul: string, state: string, now: int)
    | Sweep(deadline: int)

  function Upserted(roster: Roster, id: string, soul: string, state: string, now: int): Roster {
    roster[id := Agent(soul, state, now, if id in roster then roster[id].registered else now)]
  }

  function Survivors(roster: Roster, deadline: int): Roster {
    map id | id in roster && roster[id].heartbeat >= deadline :: roster[id]
  }

  /** Midway through a sweep: gone are dead, the visited rest are not. */
  predicate Swept(roster: Roster, gone: set<string>, left: set<string>, deadline: int) {
    && left <= roster.Keys - gone
    && (forall id :: id in gone ==> id in roster && roster[id].heartbeat < deadline)
    && (forall id :: id in roster && id !in gone && id !in left ==> roster[id].heartbeat >= deadline)
  }

  lemma SweptOneMore(roster: Roster, gone: set<string>, left: set<string>, deadline: int, id: string)
    requires Swept(roster, gone, left, deadline) && id in left
    ensures var dead := if roster[id].heartbeat < deadline then {id} else {};
      && Swept(roster, gone + dead, left - {id}, deadline)
      && roster - (gone + dead) == roster - gone - dead
  {
  }

  lemma SweptAll(roster: Roster, gone: set<string>, deadline: int)
    requires Swept(roster, gone, {}, deadline)
    ensures roster - gone == Survivors(roster, deadline)
    ensures gone == roster.Keys - (roster - gone).Keys
  {
  }

  function Apply(roster: Roster, c: Command): Roster {
    match c
    case Heartbeat(id, soul, state, now) => Upserted(roster, id, soul, state, now)
    case Sweep(deadline) => Survivors(roster, deadline)
  }

  function After(commands: seq<Command>): Roster {
    if commands == [] then map[] else Apply(After(commands[..|commands| - 1]), commands[|commands| - 1])
  }

  /** The agent's last heartbeat in the run is command i, and no later sweep came past it. */
  predicate AliveSince(commands: seq<Command>, id: string, i: nat) {
    && i < |commands| && commands[i].Heartbeat? && commands[i].id == id
    && (forall j :: i < j < |commands| && commands[j].Heartbeat? ==> commands[j].id != id)
    && (forall j :: i < j < |commands| && commands[j].Sweep? ==> commands[i].now >= commands[j].deadline)
  }

  lemma AliveSinceShorter(commands: seq<Command>, id: string, i: nat)
    requires i < |commands| - 1
    ensures AliveSince(commands, id, i) <==>
      && AliveSince(commands[..|commands| - 1], id, i)
      && var c := commands[|commands| - 1];
         if c.Heartbeat? then c.id != id else commands[i].now >= c.deadline
  {
    var before := commands[..|commands| - 1];
    assert forall j :: 0 <= j < |before| ==> before[j] == commands[j];
  }

  /** After any run an agent is registered exactly when its last heartbeat was early enough for no
      later sweep, and it is listed under the soul and state of that heartbeat. */
  lemma {:induction false} RegisteredExactlyWhenAlive(commands: seq<Command>, id: string)
    ensures id in After(commands) <==> exists i: nat :: AliveSince(commands, id, i)
    ensures forall i: nat :: AliveSince(commands, id, i) && id in After(commands) ==>
      var a := After(commands)[id];
      a.soul == commands[i].soul && a.state == commands[i].state && a.heartbeat == commands[i].now
  {
    if commands != [] {
      var last := |commands| - 1;
      RegisteredExactlyWhenAlive(commands[..last], id);
      forall i: nat | i < last
        ensures AliveSince(commands, id, i) <==>
          && AliveSince(commands[..last], id, i)
          && if commands[last].Heartbeat? then commands[last].id != id else commands[i].now >= commands[last].deadline
      {
        AliveSinceShorter(commands, id, i);
      }
      if commands[last].Heartbeat? && commands[last].id == id {
        assert AliveSince(commands, id, last);
      }
      if i: nat :| AliveSince(commands[..last], id, i) {
        assert commands[..last][i] == commands[i];
      }
    }
  }

  /** Command i is the heartbeat with which the agent, absent before it, was registered for good. */
  predicate JoinedAt(commands: seq<Command>, id: string, i: nat) {
    && i < |commands| && commands[i].Heartbeat? && commands[i].id == id && id !in After(commands[..i])
    && forall j :: i < j <= |commands| ==> id in After(commands[..j])
  }

  /** An agent's registration time is that of its first heartbeat since it was last absent. */
  lemma {:induction false} RegisteredWhenItJoined(commands: seq<Command>, id: string) returns (i: nat)
    requires id in After(commands)
    ensures JoinedAt(commands, id, i) && After(commands)[id].registered == commands[i].now
  {
    var last := |commands| - 1;
    var before := commands[..last];
    assert commands[..|commands|] == commands;
    if id in After(before) {
      i := RegisteredWhenItJoined(before, id);
      forall j | i < j <= |commands|
        ensures id in After(commands[..j])
      {
        if j <= last {
          assert before[..j] == commands[..j];
        }
      }
      assert before[..i] == commands[..i];
    } else {
      i := last;
    }
  }

  // ---- The registry object ----

  class AgentInfo {
    const id: string
    const registered: int
    var soul: string
    var state: string
    var heartbeat: int

    constructor (id: string, soul: string, state: string, now: int)
      ensures this.id == id && this.registered == now
      ensures Seen() == Agent(soul, state, now, now)
    {
      this.id, this.soul, this.state := id, soul, state;
      this.heartbeat, this.registered := now, now;
    }

    function Seen(): Agent
      reads this
    {
      Agent(soul, state, heartbeat, registered)
    }
  }

  class Registry {
    var agents: map<string, AgentInfo>
    var bySoul: map<string, set<string>>

    /** Every record is filed under its own id, so no two ids share one. */
    predicate Filed()
      reads this
    {
      forall id :: id in agents ==> agents[id].id == id
    }

    ghost function View(): Roster
      reads this, agents.Values
    {
      map id | id in agents :: agents[id].Seen()
    }

    ghost predicate Valid()
      reads this, agents.Values
    {
      Filed() && bySoul == Index(View())
    }

    lemma ViewIs(roster: Roster)
      requires agents.Keys == roster.Keys
      requires forall id :: id in agents ==> agents[id].Seen() == roster[id]
      ensures View() == roster
    {
    }

    constructor ()
      ensures Valid() && View() == map[]
    {
      agents, bySoul := map[], map[];
    }

    method AddSoulIndex(soul: string, id: string)
      modifies this`bySoul
      ensures bySoul == Indexed(old(bySoul), soul, id)
    {
      if soul !in bySoul {
        bySoul := bySoul[soul := {}];
      }
      bySoul := bySoul[soul := bySoul[soul] + {id}];
    }

    method RemoveSoulIndex(soul: string, id: string)
      modifies this`bySoul
      ensures bySoul == Unindexed(old(bySoul), soul, id)
    {
      if soul in bySoul {
        var left := bySoul[soul] - {id};
        bySoul := bySoul[soul := left];
        if |left| == 0 {
          bySoul := bySoul - {soul};
        }
      }
    }

    /** Records what a heartbeat says besides the soul. */
    method Touch(id: string, state: string, now: int)
      requires Valid() && id in agents
      modifies agents[id]
      ensures Valid()
      ensures View() == old(View())[id := old(agents[id].Seen()).(state := state, heartbeat := now)]
    {
      ghost var before, agent := View(), agents[id].Seen().(state := state, heartbeat := now);
      agents[id].state := state;
      agents[id].heartbeat := now;
      ViewIs(before[id := agent]);
      IndexAfterRefresh(before, id, agent);
    }

    /** Moves an agent to another soul, in both indexes. */
    method Move(id: string, soul: string)
      requires Valid() && id in agents && agents[id].soul != soul
      modifies `bySoul, agents[id]
      ensures Valid() && agents == old(agents)
      ensures View() == old(View())[id := old(agents[id].Seen()).(soul := soul)]
    {
      ghost var before, agent := View(), agents[id].Seen().(soul := soul);
      RemoveSoulIndex(agents[id].soul, id);
      agents[id].soul := soul;
      AddSoulIndex(soul, id);
      ViewIs(before[id := agent]);
      IndexAfterMove(before, id, agent);
    }

    method Upsert(id: string, soul: string, state: string, now: int) returns (info: AgentInfo)
      requires Valid()
      modifies this, agents.Values
      ensures Valid() && View() == Upserted(old(View()), id, soul, state, now)
      ensures id in agents && agents[id] == info
      ensures agents.Values - old(agents.Values) <= {info}
      ensures if id in old(agents) then agents == old(agents) else fresh(info)
    {
      ghost var before := View();
      if id in agents {
        info := agents[id];
        Touch(id, state, now);
        if info.soul != soul {
          Move(id, soul);
        }
        assert View() == Upserted(before, id, soul, state, now);
        return;
      }
      info := new AgentInfo(id, soul, state, now);
      agents := agents[id := info];
      AddSoulIndex(soul, id);
      assert View() == before[id := info.Seen()];
      IndexAfterArrival(before, id, info.Seen());
    }

    /** Drops one agent: the body of the sweep's loop. */
    method Drop(id: string)
      requires Valid() && id in agents
      modifies this
      ensures Valid() && agents == old(agents) - {id}
      ensures View() == old(View()) - {id}
    {
      ghost var before := View();
      RemoveSoulIndex(agents[id].soul, id);
      agents := agents - {id};
      assert View() == before - {id};
      IndexAfterRemoval(before, id);
    }

    /** Visits the agents in any order, deleting as it goes. */
    method RemoveDead(deadline: int) returns (removed: seq<string>)
      requires Valid()
      modifies this
      ensures Valid() && View() == Survivors(old(View()), deadline)
      ensures multiset(removed) == multiset(old(View()).Keys - View().Keys)
    {
      ghost var before := View();
      ghost var gone := {};
      removed := [];
      var left := agents.Keys;
      while left != {}
        invariant Valid() && View() == before - gone
        invariant Swept(before, gone, left, deadline)
        invariant multiset(removed) == multiset(gone)
      {
        var id :| id in left;
        SweptOneMore(before, gone, left, deadline, id);
        assert agents[id].Seen() == before[id];
        left := left - {id};
        if agents[id].heartbeat < deadline {
          ListOneMore(removed, gone, id);
          removed := removed + [id];
          Drop(id);
          gone := gone + {id};
        }
      }
      SweptAll(before, gone, deadline);
    }

    method FindBySoul(soul: string) returns (ids: seq<string>)
      requires Valid()
      ensures multiset(ids) == multiset(Members(View(), soul))
    {
      NoEmptySets(View());
      if soul !in bySoul {
        return [];
      }
      ids := [];
      var left := bySoul[soul];
      while left != {}
        invariant left <= Members(View(), soul)
        invariant multiset(ids) == multiset(Members(View(), soul) - left)
      {
        var id :| id in left;
        left := left - {id};
        ids := ids + [id];
        assert Members(View(), soul) - left == Members(View(), soul) - (left + {id}) + {id};
      }
    }

    method CountByState(state: string) returns (n: nat)
      requires Valid()
      ensures n == |InState(View(), state)|
    {
      ghost var roster := View();
      ghost var matching := InState(roster, state);
      n := 0;
      var left := agents.Keys;
      while left != {}
        invariant left <= agents.Keys
        invariant n == |matching - left|
      {
        var id :| id in left;
        assert agents[id].state == roster[id].state;
        CountOneMore(matching, left, id);
        left := left - {id};
        if agents[id].state == state {
          n := n + 1;
        }
      }
      assert matching - left == matching;
    }
  }
}
