/** The handlers as code over the task table, each tied to one step of the protocol
    (rasa/pool/controller.py, rasa/agent/runtime.py, rasa/agent/dispatcher.py,
    rasa/orchestrator/delegator.py). */
module TaskTable {
  import opened Options
  import opened Tasks

  class Table {
    const plan: Plan
    var status: map<TaskId, Status>
    var locked: set<TaskId>
    var executing: multiset<TaskId>
    var checked: multiset<TaskId>
    var notes: multiset<TaskId>

    ghost function View(): Pool
      reads this
    {
      Pool(status, locked, executing, checked, notes)
    }

    constructor (plan: Plan)
      ensures this.plan == plan && View() == Init(plan)
    {
      this.plan := plan;
      status := map t | t in plan.tasks :: Pending;
      locked, executing, checked, notes := {}, multiset{}, multiset{}, multiset{};
    }

    /** The SELECT of assign_task: only a PENDING row goes on to the UPDATE. */
    method CheckAssignable(t: TaskId) returns (found: bool)
      modifies this`checked
      ensures found <==> t in old(status) && old(status)[t] == Pending
      ensures found <==> Enabled(plan, old(View()), AssignCheck(t))
      ensures View() == if found then Apply(plan, old(View()), AssignCheck(t)) else old(View())
    {
      found := t in status && status[t] == Pending;
      if found {
        checked := checked + multiset{t};
      }
    }

    /** The UPDATE of assign_task, which does not look at the status again. */
    method WriteAssigned(t: TaskId)
      requires Enabled(plan, View(), AssignWrite(t))
      modifies this`status, this`checked
      ensures status == old(status)[t := Assigned]
      ensures View() == Apply(plan, old(View()), AssignWrite(t))
    {
      status := status[t := Assigned];
      checked := checked - multiset{t};
    }

    /** A row a poll can take. */
    predicate Free(t: TaskId, locked: set<TaskId>)
      reads this`status
    {
      t in status && status[t] == Assigned && t !in locked
    }

    /** A daemon's poll: the first ASSIGNED row in queue order whose lock is free, skipping locked
        rows instead of waiting for them. */
    method PollForTask(queue: seq<TaskId>) returns (task: Option<TaskId>)
      requires forall t :: t in queue ==> t in status
      modifies this`locked
      ensures task.None? ==> View() == old(View())
                             && forall t :: t in queue ==> !Free(t, locked)
      ensures task.Some? ==>
                && Enabled(plan, old(View()), Lock(task.value))
                && View() == Apply(plan, old(View()), Lock(task.value))
                && exists i :: 0 <= i < |queue| && queue[i] == task.value && Free(task.value, old(locked))
                               && forall k :: 0 <= k < i ==> !Free(queue[k], old(locked))
    {
      for i := 0 to |queue|
        invariant View() == old(View())
        invariant forall k :: 0 <= k < i ==> !Free(queue[k], locked)
      {
        var t := queue[i];
        if status[t] == Assigned && t !in locked {
          locked := locked + {t};
          return Some(t);
        }
      }
      task := None;
    }

    /** The daemon's UPDATE under its lock, and the commit that frees the row. */
    method StartLocked(t: TaskId)
      requires Enabled(plan, View(), Start(t))
      modifies this`status, this`locked, this`executing
      ensures status == old(status)[t := Running] && executing == old(executing) + multiset{t}
      ensures View() == Apply(plan, old(View()), Start(t))
    {
      status := status[t := Running];
      locked := locked - {t};
      executing := executing + multiset{t};
    }

    /** The one-shot dispatcher's guarded claim; a zero row count makes it bail out. */
    method ClaimOneShot(t: TaskId) returns (claimed: bool)
      requires t !in locked
      modifies this`status, this`executing
      ensures claimed <==> t in old(status) && old(status)[t] in {Pending, Assigned}
      ensures claimed ==> status == old(status)[t := Running] && executing == old(executing) + multiset{t}
      ensures claimed <==> Enabled(plan, old(View()), Claim(t))
      ensures View() == if claimed then Apply(plan, old(View()), Claim(t)) else old(View())
    {
      claimed := t in status && status[t] in {Assigned, Pending};
      if claimed {
        status := status[t := Running];
        executing := executing + multiset{t};
      }
    }

    /** The final write of an execution and its notification, in one transaction. */
    method WriteOutcome(t: TaskId, outcome: Status)
      requires Enabled(plan, View(), Complete(t)) && outcome in {Completed, Failed, Checkpointed}
      modifies this`status, this`executing, this`notes
      ensures status == old(status)[t := outcome] && notes == old(notes) + multiset{t}
      ensures executing == old(executing) - multiset{t}
      ensures View() == Apply(plan, old(View()), Reporting(t, outcome))
    {
      status := status[t := outcome];
      executing := executing - multiset{t};
      notes := notes + multiset{t};
      ReportingReports(plan, old(View()), t, outcome);
    }

    /** The cancel command: a guarded update, which reports whether it hit a row. */
    method CancelRow(t: TaskId) returns (hit: bool)
      requires t !in locked
      modifies this`status
      ensures hit <==> t in old(status) && old(status)[t] in {Pending, Assigned}
      ensures status == if hit then old(status)[t := Cancelled] else old(status)
      ensures hit <==> Enabled(plan, old(View()), Cancel(t))
      ensures hit ==> View() == Apply(plan, old(View()), Cancel(t))
    {
      hit := t in status && status[t] in {Pending, Assigned};
      if hit {
        status := status[t := Cancelled];
      }
    }

    /** The re-queue of recovery and of the retry command, in whatever status the row is by then. */
    method RequeueRow(t: TaskId)
      requires t in status && t !in locked
      modifies this`status
      ensures status == old(status)[t := Pending]
      ensures Enabled(plan, old(View()), Requeue(t)) && View() == Apply(plan, old(View()), Requeue(t))
    {
      status := status[t := Pending];
    }

    /** Is some upstream of t not COMPLETED? The NOT EXISTS subquery, row by row. */
    method HasUnfinishedUpstream(t: TaskId) returns (unfinished: bool)
      requires plan.ForeignKeys() && Rows(plan, View())
      ensures unfinished <==> !Ready(plan, View(), t)
    {
      for i := 0 to |plan.tasks|
        invariant forall k :: 0 <= k < i && plan.tasks[k] in plan.Upstreams(t) ==> status[plan.tasks[k]].Completed?
      {
        var u := plan.tasks[i];
        if (u, t) in plan.deps && status[u] != Completed {
          assert u in plan.Upstreams(t);
          return true;
        }
      }
      forall u | u in plan.Upstreams(t) && u in status
        ensures status[u].Completed?
      {
        assert (u, t) in plan.deps;
      }
      unfinished := false;
    }

    method UnblockOne(u: TaskId, t: TaskId) returns (hit: bool)
      requires plan.ForeignKeys() && Rows(plan, View()) && t in status
      modifies this`status
      ensures hit <==> Unblocks(plan, old(View()), u, t)
      ensures status == if hit then old(status)[t := Assigned] else old(status)
    {
      hit := false;
      if (u, t) in plan.deps {
        var unfinished := HasUnfinishedUpstream(t);
        if !unfinished && status[t] == Pending {
          status := status[t := Assigned];
          hit := true;
        }
      }
    }

    /** Unblocks every dependent of u that is PENDING with all its upstreams COMPLETED, and no other row. */
    method OnTaskCompleted(u: TaskId) returns (unblocked: seq<TaskId>)
      requires plan.ForeignKeys() && Rows(plan, View()) && Enabled(plan, View(), Handle(u))
      modifies this`status, this`notes
      ensures View() == Apply(plan, old(View()), Handle(u))
      ensures forall t :: t in unblocked <==> Unblocks(plan, old(View()), u, t)
    {
      ghost var before := View();
      unblocked := [];
      notes := notes - multiset{u};
      NoneMarked(plan, before, u);
      assert plan.tasks[..0] == [];
      for i := 0 to |plan.tasks|
        invariant status == Marked(plan, before, u, plan.tasks[..i])
        invariant Listed(plan, before, u, plan.tasks[..i], unblocked)
        invariant notes == before.notes - multiset{u}
      {
        var t := plan.tasks[i];
        assert plan.tasks[..i + 1] == plan.tasks[..i] + [t];
        OneMore(plan, before, View(), u, plan.tasks[..i], unblocked, t);
        var hit := UnblockOne(u, t);
        if hit {
          unblocked := unblocked + [t];
        }
      }
      assert plan.tasks[..|plan.tasks|] == plan.tasks;
      AllMarked(plan, before, u, View());
    }
  }

  /** The step that reports an outcome. */
  function Reporting(t: TaskId, outcome: Status): Step {
    match outcome
    case Completed => Complete(t)
    case Failed => Fail(t)
    case _ => Checkpoint(t)
  }

  lemma ReportingReports(plan: Plan, s: Pool, t: TaskId, outcome: Status)
    requires outcome in {Completed, Failed, Checkpointed}
    ensures Apply(plan, s, Reporting(t, outcome)) == Report(s, t, outcome)
  {
  }

  lemma NoneMarked(plan: Plan, s: Pool, u: TaskId)
    ensures Marked(plan, s, u, []) == s.status && Listed(plan, s, u, [], [])
  {
  }

  lemma AllMarked(plan: Plan, s: Pool, u: TaskId, now: Pool)
    requires Rows(plan, s)
    requires now == s.(status := Marked(plan, s, u, plan.tasks), notes := s.notes - multiset{u})
    ensures now == Apply(plan, s, Handle(u))
    ensures forall t :: Unblocks(plan, s, u, t) ==> t in plan.tasks
  {
  }

  /** The rows after the dependents listed in done have been looked at. */
  ghost function Marked(plan: Plan, s: Pool, u: TaskId, done: seq<TaskId>): map<TaskId, Status> {
    map t | t in s.status :: if t in done && Unblocks(plan, s, u, t) then Assigned else s.status[t]
  }

  ghost predicate Listed(plan: Plan, s: Pool, u: TaskId, done: seq<TaskId>, unblocked: seq<TaskId>) {
    forall t :: t in unblocked <==> t in done && Unblocks(plan, s, u, t)
  }

  /** Assigning some dependents does not change whether another one is ready. */
  lemma MarkOneMore(plan: Plan, s: Pool, now: Pool, u: TaskId, done: seq<TaskId>, t: TaskId)
    requires t in s.status && now.status == Marked(plan, s, u, done)
    ensures Unblocks(plan, now, u, t) ==> Unblocks(plan, s, u, t)
    ensures Unblocks(plan, s, u, t) ==> t in done || Unblocks(plan, now, u, t)
    ensures Marked(plan, s, u, done + [t]) ==
            if Unblocks(plan, now, u, t) then now.status[t := Assigned] else now.status
  {
    assert Ready(plan, now, t) == Ready(plan, s, t);
  }

  /** Looking at one more row extends both the marks and the list. */
  lemma OneMore(plan: Plan, s: Pool, now: Pool, u: TaskId, done: seq<TaskId>, unblocked: seq<TaskId>, t: TaskId)
    requires t in s.status && now.status == Marked(plan, s, u, done) && Listed(plan, s, u, done, unblocked)
    ensures var hit := Unblocks(plan, now, u, t);
      && Marked(plan, s, u, done + [t]) == (if hit then now.status[t := Assigned] else now.status)
      && Listed(plan, s, u, done + [t], if hit then unblocked + [t] else unblocked)
  {
    MarkOneMore(plan, s, now, u, done, t);
  }
}
