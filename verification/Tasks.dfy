/** The task dependency protocol as a state machine over task rows, row locks, live executions
    and undelivered completion notifications (rasa/pool/controller.py, rasa/agent/runtime.py,
    rasa/agent/dispatcher.py, rasa/orchestrator/delegator.py).

    Every SQL statement is one atomic step. Two transactions are split into two steps because
    other sessions can act in between: the daemon's claim (lock, then update) and assign_task
    (an unlocked SELECT, then an unconditional UPDATE). */
module Tasks {

  type TaskId = string

  datatype Status = Pending | Assigned | Running | Checkpointed | Completed | Failed | Cancelled

  /** The tasks, all inserted PENDING, and the static finish-to-start edges (from, to). */
  datatype Plan = Plan(tasks: seq<TaskId>, deps: set<(TaskId, TaskId)>) {
    function Upstreams(t: TaskId): set<TaskId> {
      set e | e in deps && e.1 == t :: e.0
    }

    predicate PrimaryKey() {
      forall i, j :: 0 <= i < j < |tasks| ==> tasks[i] != tasks[j]
    }

    /** The foreign keys of task_dependencies: both ends of an edge are task rows. */
    predicate ForeignKeys() {
      forall e :: e in deps ==> e.0 in tasks && e.1 in tasks
    }
  }

  datatype Pool = Pool(
    status: map<TaskId, Status>,
    locked: set<TaskId>,          // rows a daemon has selected FOR UPDATE and not yet written
    executing: multiset<TaskId>,  // claimed executions that have not yet reported
    checked: multiset<TaskId>,    // assign_task calls past their SELECT, before their UPDATE
    notes: multiset<TaskId>)      // task_completed notifications not yet handled

  datatype Step =
    | AssignCheck(t: TaskId)  // assign_task finds the row PENDING
    | AssignWrite(t: TaskId)  // assign_task sets ASSIGNED, whatever the row says by now
    | Lock(t: TaskId)         // a daemon's SELECT ... FOR UPDATE SKIP LOCKED of an ASSIGNED row
    | Unlock(t: TaskId)       // that daemon's transaction rolls back
    | Start(t: TaskId)        // the daemon sets RUNNING and commits
    | Claim(t: TaskId)        // a one-shot dispatcher's guarded update to RUNNING
    | Complete(t: TaskId)     // an execution writes COMPLETED and notifies
    | Fail(t: TaskId)         // an execution writes FAILED and notifies
    | Checkpoint(t: TaskId)   // a dispatcher in daemon mode writes CHECKPOINTED and notifies
    | Abandon(t: TaskId)      // an execution dies without writing anything
    | Cancel(t: TaskId)       // a PENDING or ASSIGNED row is cancelled
    | Requeue(t: TaskId)      // retry or recovery sets the row back to PENDING
    | Handle(t: TaskId)       // the controller handles a completion notification from t

  function Init(plan: Plan): Pool {
    Pool(map t | t in plan.tasks :: Pending, {}, multiset{}, multiset{}, multiset{})
  }

  /** Every upstream is COMPLETED: the NOT EXISTS of the unblocking query. */
  predicate Ready(plan: Plan, s: Pool, t: TaskId) {
    forall u :: u in plan.Upstreams(t) && u in s.status ==> s.status[u].Completed?
  }

  /** The row the unblocking query updates when it handles a notification from u. */
  predicate Unblocks(plan: Plan, s: Pool, u: TaskId, t: TaskId) {
    t in s.status && s.status[t].Pending? && (u, t) in plan.deps && Ready(plan, s, t)
  }

  /** When a statement can take effect; a locked row makes every other writer wait. */
  predicate Enabled(plan: Plan, s: Pool, step: Step) {
    && step.t in s.status
    && match step
       case AssignCheck(t) => s.status[t].Pending?
       case AssignWrite(t) => t in s.checked && t !in s.locked
       case Lock(t) => s.status[t].Assigned? && t !in s.locked
       case Unlock(t) => t in s.locked
       case Start(t) => t in s.locked
       case Claim(t) => (s.status[t].Assigned? || s.status[t].Pending?) && t !in s.locked
       case Complete(t) => t in s.executing && t !in s.locked
       case Fail(t) => t in s.executing && t !in s.locked
       case Checkpoint(t) => t in s.executing && t !in s.locked
       case Abandon(t) => t in s.executing
       case Cancel(t) => (s.status[t].Assigned? || s.status[t].Pending?) && t !in s.locked
       case Requeue(t) => t !in s.locked
       case Handle(t) => t in s.notes
  }

  function Apply(plan: Plan, s: Pool, step: Step): Pool {
    match step
    case AssignCheck(t) => s.(checked := s.checked + multiset{t})
    case AssignWrite(t) => s.(status := s.status[t := Assigned], checked := s.checked - multiset{t})
    case Lock(t) => s.(locked := s.locked + {t})
    case Unlock(t) => s.(locked := s.locked - {t})
    case Start(t) =>
      s.(status := s.status[t := Running], locked := s.locked - {t}, executing := s.executing + multiset{t})
    case Claim(t) => s.(status := s.status[t := Running], executing := s.executing + multiset{t})
    case Complete(t) => Report(s, t, Completed)
    case Fail(t) => Report(s, t, Failed)
    case Checkpoint(t) => Report(s, t, Checkpointed)
    case Abandon(t) => s.(executing := s.executing - multiset{t})
    case Cancel(t) => s.(status := s.status[t := Cancelled])
    case Requeue(t) => s.(status := s.status[t := Pending])
    case Handle(u) =>
      s.(status := map t | t in s.status :: if Unblocks(plan, s, u, t) then Assigned else s.status[t],
         notes := s.notes - multiset{u})
  }

  /** An execution's final write, and its notification, in one transaction. */
  function Report(s: Pool, t: TaskId, outcome: Status): Pool {
    s.(status := s.status[t := outcome], executing := s.executing - multiset{t}, notes := s.notes + multiset{t})
  }

  /** An enabled step and its effect. */
  ghost predicate Next(plan: Plan, s: Pool, step: Step, s': Pool) {
    Enabled(plan, s, step) && s' == Apply(plan, s, step)
  }

  // ---- Runs ----

  /** A run so far: the steps taken and the states between them. */
  datatype History = History(states: seq<Pool>, steps: seq<Step>)

  ghost predicate StepAt(plan: Plan, h: History, k: nat)
    requires k < |h.steps| && |h.states| == |h.steps| + 1
  {
    Next(plan, h.states[k], h.steps[k], h.states[k + 1])
  }

  ghost predicate Run(plan: Plan, h: History) {
    && |h.states| == |h.steps| + 1
    && h.states[0] == Init(plan)
    && forall k {:trigger StepAt(plan, h, k)} :: 0 <= k < |h.steps| ==> StepAt(plan, h, k)
  }

  ghost predicate Rows(plan: Plan, s: Pool) {
    s.status.Keys == set t | t in plan.tasks
  }

  lemma {:induction false} RowsStay(plan: Plan, h: History, k: nat)
    requires Run(plan, h) && k < |h.states|
    ensures Rows(plan, h.states[k])
  {
    if k > 0 {
      RowsStay(plan, h, k - 1);
      assert StepAt(plan, h, k - 1);
      StepKeepsRows(plan, h.states[k - 1], h.steps[k - 1]);
    }
  }

  lemma StepKeepsRows(plan: Plan, s: Pool, step: Step)
    requires Enabled(plan, s, step)
    ensures Apply(plan, s, step).status.Keys == s.status.Keys
  {
  }

  // ---- No lost wake-ups ----

  /** A PENDING task whose upstreams are all COMPLETED still has a notification on its way. */
  ghost predicate WakeUpKept(plan: Plan, s: Pool, t: TaskId) {
    t in s.status && s.status[t].Pending? && plan.Upstreams(t) != {} && Ready(plan, s, t) ==>
      exists u :: u in plan.Upstreams(t) && u in s.notes
  }

  ghost predicate NoLostWakeUps(plan: Plan, s: Pool) {
    forall t :: WakeUpKept(plan, s, t)
  }

  lemma StepKeepsWakeUp(plan: Plan, s: Pool, step: Step, t: TaskId)
    requires plan.ForeignKeys() && Rows(plan, s)
    requires Enabled(plan, s, step) && !step.Requeue? && WakeUpKept(plan, s, t)
    ensures WakeUpKept(plan, Apply(plan, s, step), t)
  {
    var s' := Apply(plan, s, step);
    if t in s'.status && s'.status[t].Pending? && plan.Upstreams(t) != {} && Ready(plan, s', t) {
      StaysPending(plan, s, step, t);
      if Ready(plan, s, t) {
        var u :| u in plan.Upstreams(t) && u in s.notes;
        assert u in s'.notes;
      } else {
        var u :| u in plan.Upstreams(t) && u in s.status && !s.status[u].Completed?;
        CompletionNotifies(plan, s, step, u);
      }
    }
  }

  /** A row still PENDING after a step was PENDING before, and was not the step's to unblock. */
  lemma StaysPending(plan: Plan, s: Pool, step: Step, t: TaskId)
    requires Enabled(plan, s, step) && !step.Requeue? && t in s.status
    requires Apply(plan, s, step).status[t].Pending?
    ensures s.status[t].Pending?
    ensures step.Handle? ==> !Unblocks(plan, s, step.t, t)
  {
  }

  /** A row that a step completes has its notification on the way. */
  lemma CompletionNotifies(plan: Plan, s: Pool, step: Step, u: TaskId)
    requires Enabled(plan, s, step) && u in s.status && !s.status[u].Completed?
    requires Apply(plan, s, step).status[u].Completed?
    ensures u in Apply(plan, s, step).notes
  {
  }

  /** In every run without a re-queue, no wake-up is ever lost. */
  lemma {:induction false} WakeUpsAreNeverLost(plan: Plan, h: History, k: nat)
    requires plan.ForeignKeys() && Run(plan, h) && k < |h.states|
    requires forall i :: 0 <= i < |h.steps| ==> !h.steps[i].Requeue?
    ensures NoLostWakeUps(plan, h.states[k])
  {
    forall t
      ensures WakeUpKept(plan, h.states[k], t)
    {
      if k == 0 {
        InitiallyKept(plan, t);
      } else {
        WakeUpsAreNeverLost(plan, h, k - 1);
        RowsStay(plan, h, k - 1);
        assert StepAt(plan, h, k - 1);
        StepKeepsWakeUp(plan, h.states[k - 1], h.steps[k - 1], t);
      }
    }
  }

  lemma InitiallyKept(plan: Plan, t: TaskId)
    requires plan.ForeignKeys()
    ensures WakeUpKept(plan, Init(plan), t)
  {
    if t in plan.tasks && plan.Upstreams(t) != {} {
      var u :| u in plan.Upstreams(t);
      assert (u, t) in plan.deps;
    }
  }

  /** A re-queue, of a row in any status, keeps the wake-ups exactly when the row has no upstreams or is
      its own, one of them is not COMPLETED yet, or a notification from one of them is still undelivered. */
  lemma RequeueKeepsWakeUpsExactlyWhen(plan: Plan, s: Pool, t: TaskId)
    requires Enabled(plan, s, Requeue(t)) && NoLostWakeUps(plan, s)
    ensures NoLostWakeUps(plan, Apply(plan, s, Requeue(t))) <==>
            || plan.Upstreams(t) == {} || t in plan.Upstreams(t) || !Ready(plan, s, t)
            || exists u :: u in plan.Upstreams(t) && u in s.notes
  {
    var s' := Apply(plan, s, Requeue(t));
    if t in plan.Upstreams(t) {
      assert !Ready(plan, s', t);
    } else {
      assert Ready(plan, s', t) == Ready(plan, s, t);
    }
    assert WakeUpKept(plan, s', t) <==>
      || plan.Upstreams(t) == {} || t in plan.Upstreams(t) || !Ready(plan, s, t)
      || exists u :: u in plan.Upstreams(t) && u in s.notes;
    forall x | x != t
      ensures WakeUpKept(plan, s', x)
    {
      assert WakeUpKept(plan, s, x);
      assert Ready(plan, s', x) ==> Ready(plan, s, x);
    }
  }

  // ---- Locks and executions ----

  ghost predicate LocksHoldAssigned(s: Pool) {
    forall t :: t in s.locked ==> t in s.status && s.status[t].Assigned?
  }

  lemma StepKeepsLocks(plan: Plan, s: Pool, step: Step)
    requires Enabled(plan, s, step) && LocksHoldAssigned(s)
    ensures LocksHoldAssigned(Apply(plan, s, step))
  {
  }

  /** A locked row stays ASSIGNED until its daemon writes it or rolls back. */
  lemma {:induction false} LockedRowsAreAssigned(plan: Plan, h: History, k: nat)
    requires Run(plan, h) && k < |h.states|
    ensures LocksHoldAssigned(h.states[k])
  {
    if k > 0 {
      LockedRowsAreAssigned(plan, h, k - 1);
      assert StepAt(plan, h, k - 1);
      StepKeepsLocks(plan, h.states[k - 1], h.steps[k - 1]);
    }
  }

  ghost predicate RunningIsExecuting(s: Pool) {
    forall t :: t in s.status && s.status[t].Running? ==> t in s.executing
  }

  lemma StepKeepsRunning(plan: Plan, s: Pool, step: Step)
    requires Enabled(plan, s, step) && !step.Abandon? && RunningIsExecuting(s)
    ensures RunningIsExecuting(Apply(plan, s, step))
  {
  }

  /** Unless an execution dies silently, every RUNNING row has a live execution. */
  lemma {:induction false} RunningRowsExecute(plan: Plan, h: History, k: nat)
    requires Run(plan, h) && k < |h.states|
    requires forall i :: 0 <= i < |h.steps| ==> !h.steps[i].Abandon?
    ensures RunningIsExecuting(h.states[k])
  {
    if k > 0 {
      RunningRowsExecute(plan, h, k - 1);
      assert StepAt(plan, h, k - 1);
      StepKeepsRunning(plan, h.states[k - 1], h.steps[k - 1]);
    }
  }

  // ---- The life of a row ----

  /** The statements that can leave status x in t's row. */
  predicate Writes(step: Step, t: TaskId, x: Status) {
    match x
    case Pending => step == Requeue(t)
    case Assigned => step == AssignWrite(t) || step.Handle?
    case Running => step == Claim(t) || step == Start(t)
    case Checkpointed => step == Checkpoint(t)
    case Completed => step == Complete(t)
    case Failed => step == Fail(t)
    case Cancelled => step == Cancel(t)
  }

  function StatusAt(h: History, k: nat, t: TaskId): (x: Status)
    requires k < |h.states| && t in h.states[k].status
  {
    h.states[k].status[t]
  }

  /** A row changes only by a statement for its new status, and a notification assigns only rows it unblocks. */
  lemma ChangesAreWritten(plan: Plan, s: Pool, step: Step, t: TaskId)
    requires Enabled(plan, s, step) && t in s.status
    ensures var s' := Apply(plan, s, step);
      s'.status[t] != s.status[t] ==>
        Writes(step, t, s'.status[t]) && (step.Handle? ==> Unblocks(plan, s, step.t, t))
  {
  }

  /** In every run a row is PENDING since the start or holds what the last statement on it wrote: it is
      FAILED only by Fail, CHECKPOINTED only by Checkpoint, CANCELLED only by Cancel, and so on. */
  lemma {:induction false} WhoWroteIt(plan: Plan, h: History, k: nat, t: TaskId) returns (since: nat)
    requires Run(plan, h) && k < |h.states| && t in h.states[k].status
    ensures since <= k
    ensures forall j :: since <= j <= k ==> t in h.states[j].status && StatusAt(h, j, t) == StatusAt(h, k, t)
    ensures since == 0 ==> StatusAt(h, k, t).Pending?
    ensures since > 0 ==> Writes(h.steps[since - 1], t, StatusAt(h, k, t))
    ensures since > 0 && h.steps[since - 1].Handle? ==> Unblocks(plan, h.states[since - 1], h.steps[since - 1].t, t)
  {
    since := k;
    if k > 0 {
      assert StepAt(plan, h, k - 1);
      StepKeepsRows(plan, h.states[k - 1], h.steps[k - 1]);
      ChangesAreWritten(plan, h.states[k - 1], h.steps[k - 1], t);
      if StatusAt(h, k - 1, t) == StatusAt(h, k, t) {
        since := WhoWroteIt(plan, h, k - 1, t);
      }
    }
  }

  /** ... and every statement that takes effect leaves its row with the status it stands for, and no other row
      changed but by unblocking. */
  lemma StatementsTakeEffect(plan: Plan, h: History, k: nat, x: Status)
    requires Run(plan, h) && k < |h.steps| && Writes(h.steps[k], h.steps[k].t, x) && !h.steps[k].Handle?
    ensures h.steps[k].t in h.states[k].status
    ensures h.states[k + 1].status == h.states[k].status[h.steps[k].t := x]
  {
    assert StepAt(plan, h, k);
  }

  /** A dispatcher claims a row nobody has assigned: U goes from PENDING to RUNNING, with an execution of its own. */
  lemma PendingRowIsClaimed() returns (h: History)
    ensures Run(PAIR, h) && h.steps == [Claim(U)]
    ensures h.states[0].status == map[U := Pending, T := Pending]
    ensures h.states[1].status == map[U := Running, T := Pending] && h.states[1].executing == multiset{U}
  {
    PairFacts();
    h := History([Init(PAIR)], []);
    h := Extend(PAIR, h, Claim(U), Init(PAIR).(status := PairRows(Running, Pending), executing := multiset{U}));
  }

  // ---- Nothing is lost or doubled ----

  /** How many of the first k steps are one of these four on t. */
  function Times(steps: seq<Step>, k: nat, four: set<Step>): nat
    requires k <= |steps|
  {
    if k == 0 then 0 else Times(steps, k - 1, four) + (if steps[k - 1] in four then 1 else 0)
  }

  /** The books of every run balance, task by task: executions claimed are live, have reported or have died;
      notifications sent are undelivered or handled; assignment checks are open or written; and a row is locked
      by the one daemon that has neither started it nor rolled back. */
  lemma {:induction false} BooksBalance(plan: Plan, h: History, k: nat, t: TaskId)
    requires Run(plan, h) && k < |h.states|
    ensures var s, steps := h.states[k], h.steps;
      && Times(steps, k, {Claim(t), Start(t)})
         == s.executing[t] + Times(steps, k, {Complete(t), Fail(t), Checkpoint(t), Abandon(t)})
      && Times(steps, k, {Complete(t), Fail(t), Checkpoint(t)}) == s.notes[t] + Times(steps, k, {Handle(t)})
      && Times(steps, k, {AssignCheck(t)}) == s.checked[t] + Times(steps, k, {AssignWrite(t)})
      && Times(steps, k, {Lock(t)}) == (if t in s.locked then 1 else 0) + Times(steps, k, {Start(t), Unlock(t)})
  {
    if k > 0 {
      BooksBalance(plan, h, k - 1, t);
      assert StepAt(plan, h, k - 1);
      StepBalances(plan, h.states[k - 1], h.steps[k - 1], t);
    }
  }

  lemma StepBalances(plan: Plan, s: Pool, step: Step, t: TaskId)
    requires Enabled(plan, s, step)
    ensures var s' := Apply(plan, s, step);
      && s'.executing[t] + (if step in {Complete(t), Fail(t), Checkpoint(t), Abandon(t)} then 1 else 0)
         == s.executing[t] + (if step in {Claim(t), Start(t)} then 1 else 0)
      && s'.notes[t] + (if step in {Handle(t)} then 1 else 0)
         == s.notes[t] + (if step in {Complete(t), Fail(t), Checkpoint(t)} then 1 else 0)
      && s'.checked[t] + (if step in {AssignWrite(t)} then 1 else 0)
         == s.checked[t] + (if step in {AssignCheck(t)} then 1 else 0)
      && (if t in s'.locked then 1 else 0) + (if step in {Start(t), Unlock(t)} then 1 else 0)
         == (if t in s.locked then 1 else 0) + (if step in {Lock(t)} then 1 else 0)
  {
  }

  // ---- Nothing waits but for a row lock ----

  /** Whatever is locked, live, open or undelivered belongs to a task row. */
  ghost predicate Known(s: Pool) {
    forall t :: t in s.locked || t in s.executing || t in s.checked || t in s.notes ==> t in s.status
  }

  lemma StepKeepsKnown(plan: Plan, s: Pool, step: Step)
    requires Enabled(plan, s, step) && Known(s)
    ensures Known(Apply(plan, s, step))
  {
  }

  lemma {:induction false} RunsStayKnown(plan: Plan, h: History, k: nat)
    requires Run(plan, h) && k < |h.states|
    ensures Known(h.states[k])
  {
    if k > 0 {
      RunsStayKnown(plan, h, k - 1);
      assert StepAt(plan, h, k - 1);
      StepKeepsKnown(plan, h.states[k - 1], h.steps[k - 1]);
    }
  }

  /** What t's row lets happen: a locking daemon can start its task or roll back, and a notification can
      be handled; on an unlocked row an execution can report any of the three outcomes, an open assignment can
      be written, and a row can be claimed or cancelled exactly while it is PENDING or ASSIGNED. */
  predicate MayAct(plan: Plan, s: Pool, t: TaskId) {
    && (t in s.locked ==> Enabled(plan, s, Start(t)) && Enabled(plan, s, Unlock(t)))
    && (t in s.notes ==> Enabled(plan, s, Handle(t)))
    && (t in s.executing ==> Enabled(plan, s, Abandon(t)))
    && (t in s.executing && t !in s.locked ==>
          Enabled(plan, s, Complete(t)) && Enabled(plan, s, Fail(t)) && Enabled(plan, s, Checkpoint(t)))
    && (t in s.checked && t !in s.locked ==> Enabled(plan, s, AssignWrite(t)))
    && (t !in s.locked ==>
          && (Enabled(plan, s, Claim(t)) <==> Claimable(s, t))
          && (Enabled(plan, s, Cancel(t)) <==> Claimable(s, t))
          && (Enabled(plan, s, Requeue(t)) <==> t in plan.tasks))
  }

  /** In every state of every run. */
  lemma NothingWaitsButForLocks(plan: Plan, h: History, k: nat, t: TaskId)
    requires Run(plan, h) && k < |h.states|
    ensures MayAct(plan, h.states[k], t)
  {
    RunsStayKnown(plan, h, k);
    RowsStay(plan, h, k);
    OnlyLocksWait(plan, h.states[k], t);
  }

  lemma OnlyLocksWait(plan: Plan, s: Pool, t: TaskId)
    requires Known(s) && Rows(plan, s)
    ensures MayAct(plan, s, t)
  {
  }

  // ---- Progress: a quiet system has finished ----

  /** Nothing the system would do by itself is left to do. */
  ghost predicate Quiet(plan: Plan, s: Pool) {
    forall step: Step :: OwnMove(step) ==> !Enabled(plan, s, step)
  }

  ghost predicate Acyclic(plan: Plan, rank: map<TaskId, nat>) {
    forall e :: e in plan.deps ==> e.0 in rank && e.1 in rank && rank[e.0] < rank[e.1]
  }

  /** Dependency-free tasks were assigned; nothing failed, was cancelled or was checkpointed. */
  ghost predicate NothingWentWrong(plan: Plan, s: Pool) {
    forall t :: t in s.status ==>
      && !s.status[t].Failed? && !s.status[t].Cancelled? && !s.status[t].Checkpointed?
      && (plan.Upstreams(t) == {} ==> !s.status[t].Pending?)
  }

  /** If the graph is acyclic, nothing went wrong and nothing was re-queued or abandoned, then a
      quiet system has completed every task. */
  lemma QuietMeansAllCompleted(plan: Plan, rank: map<TaskId, nat>, h: History)
    requires plan.ForeignKeys() && Acyclic(plan, rank) && Run(plan, h)
    requires forall i :: 0 <= i < |h.steps| ==> !h.steps[i].Requeue? && !h.steps[i].Abandon?
    requires var s := h.states[|h.steps|]; Quiet(plan, s) && NothingWentWrong(plan, s)
    ensures forall t :: t in plan.tasks ==>
              t in h.states[|h.steps|].status && h.states[|h.steps|].status[t].Completed?
  {
    var k := |h.steps|;
    RowsStay(plan, h, k);
    WakeUpsAreNeverLost(plan, h, k);
    LockedRowsAreAssigned(plan, h, k);
    RunningRowsExecute(plan, h, k);
    forall t | t in plan.tasks
      ensures h.states[k].status[t].Completed?
    {
      QuietTaskCompleted(plan, rank, h.states[k], t);
    }
  }

  predicate OwnMove(step: Step) {
    step.AssignWrite? || step.Lock? || step.Start? || step.Complete? || step.Handle?
  }

  /** An unfinished task with finished upstreams can be moved on by the system itself. */
  lemma UnfinishedTaskMoves(plan: Plan, s: Pool, t: TaskId) returns (step: Step)
    requires plan.ForeignKeys() && Rows(plan, s) && t in plan.tasks
    requires NoLostWakeUps(plan, s) && LocksHoldAssigned(s) && RunningIsExecuting(s) && NothingWentWrong(plan, s)
    requires Ready(plan, s, t) && !s.status[t].Completed?
    ensures OwnMove(step) && Enabled(plan, s, step)
  {
    if s.status[t].Pending? {
      assert WakeUpKept(plan, s, t);
      var u :| u in plan.Upstreams(t) && u in s.notes;
      assert (u, t) in plan.deps;
      step := Handle(u);
    } else if s.status[t].Assigned? {
      step := if t in s.locked then Start(t) else Lock(t);
    } else {
      step := Complete(t);
    }
  }

  lemma {:induction false} QuietTaskCompleted(plan: Plan, rank: map<TaskId, nat>, s: Pool, t: TaskId)
    requires plan.ForeignKeys() && Acyclic(plan, rank) && Rows(plan, s) && t in plan.tasks
    requires NoLostWakeUps(plan, s) && LocksHoldAssigned(s) && RunningIsExecuting(s)
    requires Quiet(plan, s) && NothingWentWrong(plan, s)
    ensures t in s.status && s.status[t].Completed?
    decreases if t in rank then rank[t] else 0
  {
    forall u | u in plan.Upstreams(t) && u in s.status
      ensures s.status[u].Completed?
    {
      assert (u, t) in plan.deps;
      QuietTaskCompleted(plan, rank, s, u);
    }
    if !s.status[t].Completed? {
      var step := UnfinishedTaskMoves(plan, s, t);
    }
  }

  // ---- Mutual exclusion of claims ----

  predicate Claims(step: Step, t: TaskId) {
    step == Claim(t) || step == Start(t)
  }

  predicate Claimable(s: Pool, t: TaskId) {
    t in s.status && (s.status[t].Pending? || s.status[t].Assigned?)
  }

  /** Step k writes t's row back to PENDING or ASSIGNED. */
  predicate PutsBack(h: History, k: nat, t: TaskId)
    requires k + 1 < |h.states|
  {
    !Claimable(h.states[k], t) && Claimable(h.states[k + 1], t)
  }

  /** However daemons and one-shot dispatchers interleave, between two claims of the same task
      some step put the row back to PENDING or ASSIGNED. */
  lemma ClaimsAreExclusive(plan: Plan, h: History, i: nat, j: nat, t: TaskId)
    requires Run(plan, h) && i < j < |h.steps| && Claims(h.steps[i], t) && Claims(h.steps[j], t)
    ensures exists k :: i < k < j && PutsBack(h, k, t)
  {
    assert StepAt(plan, h, i) && StepAt(plan, h, j);
    LockedRowsAreAssigned(plan, h, j);
    assert Claimable(h.states[j], t);
    var k := FirstClaimable(h, i + 1, j, t);
  }

  lemma {:induction false} FirstClaimable(h: History, i: nat, j: nat, t: TaskId) returns (k: nat)
    requires i <= j < |h.states|
    requires !Claimable(h.states[i], t) && Claimable(h.states[j], t)
    ensures i <= k < j && PutsBack(h, k, t)
    decreases j - i
  {
    if Claimable(h.states[i + 1], t) {
      k := i;
    } else {
      k := FirstClaimable(h, i + 1, j, t);
    }
  }

  /** Only assign_task's write and a re-queue can put a row back; unblocking never does. */
  lemma WhoPutsBack(plan: Plan, h: History, k: nat, t: TaskId)
    requires Run(plan, h) && k < |h.steps| && PutsBack(h, k, t)
    ensures h.steps[k] == AssignWrite(t) || h.steps[k] == Requeue(t)
  {
    assert StepAt(plan, h, k);
  }

  // ---- Dependency order ----

  /** A discipline under which dependencies order execution: no re-queues, a row is assigned only
      while still PENDING, and tasks with upstreams leave PENDING for execution only by unblocking. */
  predicate Disciplined(plan: Plan, s: Pool, step: Step) {
    && !step.Requeue?
    && (step.AssignWrite? && step.t in s.status ==> s.status[step.t].Pending? && plan.Upstreams(step.t) == {})
    && (step.Claim? && step.t in s.status && s.status[step.t].Pending? ==> plan.Upstreams(step.t) == {})
  }

  predicate DisciplinedAt(plan: Plan, h: History, k: nat)
    requires k < |h.steps| < |h.states|
  {
    Disciplined(plan, h.states[k], h.steps[k])
  }

  ghost predicate DisciplinedRun(plan: Plan, h: History) {
    && Run(plan, h)
    && forall k {:trigger DisciplinedAt(plan, h, k)} :: 0 <= k < |h.steps| ==> DisciplinedAt(plan, h, k)
  }

  /** Past PENDING (cancelled rows aside), a task's upstreams are all COMPLETED. */
  ghost predicate Ordered(plan: Plan, s: Pool) {
    forall t :: Past(s, t) ==> Ready(plan, s, t)
  }

  predicate Past(s: Pool, t: TaskId) {
    t in s.status && !s.status[t].Pending? && !s.status[t].Cancelled?
  }

  /** One execution per task at most, and only of RUNNING rows. */
  ghost predicate Exclusive(s: Pool) {
    forall t :: s.executing[t] <= 1 && (t in s.executing ==> t in s.status && s.status[t].Running?)
  }

  lemma CompletedStays(plan: Plan, s: Pool, step: Step, t: TaskId)
    requires Enabled(plan, s, step) && Disciplined(plan, s, step) && Exclusive(s) && LocksHoldAssigned(s)
    requires t in s.status && s.status[t].Completed?
    ensures t in Apply(plan, s, step).status && Apply(plan, s, step).status[t].Completed?
  {
  }

  /** A completion is undone by exactly four statements on that very row: assign_task's late write, a
      re-queue, and the failure or checkpoint of a second execution. */
  lemma CompletionUndoneExactlyBy(plan: Plan, s: Pool, step: Step, u: TaskId)
    requires Enabled(plan, s, step) && LocksHoldAssigned(s) && IsCompleted(s, u)
    ensures !IsCompleted(Apply(plan, s, step), u)
            <==> step == AssignWrite(u) || step == Requeue(u) || step == Fail(u) || step == Checkpoint(u)
  {
    if step.t != u {
      OtherRowsStay(plan, s, step, u);
    }
  }

  /** A step on another row can take this one from PENDING to ASSIGNED, and nowhere else. */
  lemma OtherRowsStay(plan: Plan, s: Pool, step: Step, u: TaskId)
    requires Enabled(plan, s, step) && step.t != u && u in s.status && !s.status[u].Pending?
    ensures Apply(plan, s, step).status[u] == s.status[u]
  {
  }

  lemma StepKeepsExclusive(plan: Plan, s: Pool, step: Step)
    requires Enabled(plan, s, step) && Disciplined(plan, s, step) && Exclusive(s) && LocksHoldAssigned(s)
    ensures Exclusive(Apply(plan, s, step))
  {
    ExclusiveKeptExactlyWhen(plan, s, step);
  }

  lemma StepKeepsOrder(plan: Plan, s: Pool, step: Step)
    requires Enabled(plan, s, step) && Disciplined(plan, s, step)
    requires Exclusive(s) && LocksHoldAssigned(s) && Ordered(plan, s)
    ensures Ordered(plan, Apply(plan, s, step))
  {
    OrderKeptExactlyWhen(plan, s, step);
  }

  /** Exactly the steps that keep order and single execution: a late assignment or a re-queue only of a row
      without an execution and, if it is COMPLETED, without a dependent past PENDING; an assignment and a
      claim only when all upstreams are COMPLETED. */
  ghost predicate Harmless(plan: Plan, s: Pool, step: Step) {
    match step
    case AssignWrite(t) => t !in s.executing && Ready(plan, s, t) && (IsCompleted(s, t) ==> NoneFollows(plan, s, t))
    case Requeue(t) => t !in s.executing && (IsCompleted(s, t) ==> NoneElseFollows(plan, s, t))
    case Claim(t) => Ready(plan, s, t)
    case _ => true
  }

  ghost predicate NoneFollows(plan: Plan, s: Pool, t: TaskId) {
    forall d :: Past(s, d) ==> t !in plan.Upstreams(d)
  }

  ghost predicate NoneElseFollows(plan: Plan, s: Pool, t: TaskId) {
    forall d :: Past(s, d) && d != t ==> t !in plan.Upstreams(d)
  }

  lemma OrderKeptExactlyWhen(plan: Plan, s: Pool, step: Step)
    requires Enabled(plan, s, step) && Exclusive(s) && LocksHoldAssigned(s) && Ordered(plan, s)
    ensures Ordered(plan, Apply(plan, s, step)) && Exclusive(Apply(plan, s, step)) <==> Harmless(plan, s, step)
  {
    ExclusiveKeptExactlyWhen(plan, s, step);
    var s' := Apply(plan, s, step);
    match step
    case AssignWrite(t) => WriteKeepsOrder(plan, s, s', t, Assigned);
    case Requeue(t) => WriteKeepsOrder(plan, s, s', t, Pending);
    case Claim(t) => WriteKeepsOrder(plan, s, s', t, Running);
    case Handle(u) => HandlingKeepsOrder(plan, s, u);
    case _ => OwnWritesKeepOrder(plan, s, step);
  }

  /** The writes of a started row, and a cancellation, never break the order. */
  lemma OwnWritesKeepOrder(plan: Plan, s: Pool, step: Step)
    requires Enabled(plan, s, step) && Exclusive(s) && LocksHoldAssigned(s) && Ordered(plan, s)
    requires !step.AssignWrite? && !step.Requeue? && !step.Claim? && !step.Handle?
    ensures Ordered(plan, Apply(plan, s, step))
  {
    var s', t := Apply(plan, s, step), step.t;
    assert Past(s, t) ==> Ready(plan, s, t);
    if step.AssignCheck? || step.Lock? || step.Unlock? || step.Abandon? {
      SameStatusSameOrder(plan, s, s');
    } else {
      WriteKeepsOrder(plan, s, s', t, s'.status[t]);
    }
  }

  lemma ExclusiveKeptExactlyWhen(plan: Plan, s: Pool, step: Step)
    requires Enabled(plan, s, step) && Exclusive(s) && LocksHoldAssigned(s)
    ensures Exclusive(Apply(plan, s, step)) <==> (step.AssignWrite? || step.Requeue? ==> step.t !in s.executing)
  {
    var s' := Apply(plan, s, step);
    if (step.AssignWrite? || step.Requeue?) && step.t in s.executing {
      assert s'.executing[step.t] >= 1 && !s'.status[step.t].Running?;
    } else {
      forall x
        ensures s'.executing[x] <= 1 && (x in s'.executing ==> x in s'.status && s'.status[x].Running?)
      {
        ExecutionStays(plan, s, step, x);
      }
    }
  }

  lemma ExecutionStays(plan: Plan, s: Pool, step: Step, x: TaskId)
    requires Enabled(plan, s, step) && Exclusive(s) && LocksHoldAssigned(s)
    requires step.AssignWrite? || step.Requeue? ==> step.t !in s.executing
    ensures var s' := Apply(plan, s, step);
      s'.executing[x] <= 1 && (x in s'.executing ==> x in s'.status && s'.status[x].Running?)
  {
    assert s.executing[x] <= 1 && (x in s.executing ==> x in s.status && s.status[x].Running?);
  }

  lemma SameStatusSameOrder(plan: Plan, s: Pool, s': Pool)
    requires Ordered(plan, s) && s'.status == s.status
    ensures Ordered(plan, s')
  {
    forall t | Past(s', t)
      ensures Ready(plan, s', t)
    {
      assert Ready(plan, s, t);
    }
  }

  /** Writing one row keeps the order exactly when the row itself may be past PENDING and no other row
      that is rests on a completion now gone. */
  lemma WriteKeepsOrder(plan: Plan, s: Pool, s': Pool, t: TaskId, x: Status)
    requires Ordered(plan, s) && t in s.status && s'.status == s.status[t := x]
    ensures Ordered(plan, s') <==>
      (Past(s', t) ==> Ready(plan, s', t)) && (x.Completed? || NoneElseFollows(plan, s, t))
    ensures Ready(plan, s', t) <==>
      (forall u :: u in plan.Upstreams(t) && u != t && u in s.status ==> s.status[u].Completed?)
      && (t in plan.Upstreams(t) ==> x.Completed?)
    ensures !IsCompleted(s, t) ==> NoneElseFollows(plan, s, t)
  {
    forall d | Past(s, d) && d != t
      ensures Ready(plan, s', d) <==> x.Completed? || t !in plan.Upstreams(d)
      ensures t in plan.Upstreams(d) ==> IsCompleted(s, t)
    {
      assert Ready(plan, s, d);
    }
  }

  lemma HandlingKeepsOrder(plan: Plan, s: Pool, u: TaskId)
    requires Ordered(plan, s) && Enabled(plan, s, Handle(u))
    ensures Ordered(plan, Apply(plan, s, Handle(u)))
  {
    var s' := Apply(plan, s, Handle(u));
    forall t | Past(s', t)
      ensures Ready(plan, s', t)
    {
      assert Ready(plan, s, t);
    }
  }

  lemma {:induction false} DisciplineOrders(plan: Plan, h: History, k: nat)
    requires DisciplinedRun(plan, h) && k < |h.states|
    ensures Ordered(plan, h.states[k]) && Exclusive(h.states[k])
  {
    if k > 0 {
      DisciplineOrders(plan, h, k - 1);
      LockedRowsAreAssigned(plan, h, k - 1);
      assert StepAt(plan, h, k - 1) && DisciplinedAt(plan, h, k - 1);
      StepKeepsExclusive(plan, h.states[k - 1], h.steps[k - 1]);
      StepKeepsOrder(plan, h.states[k - 1], h.steps[k - 1]);
    }
  }

  predicate IsCompleted(s: Pool, u: TaskId) {
    u in s.status && s.status[u].Completed?
  }

  lemma {:induction false} CompletedForGood(plan: Plan, h: History, i: nat, k: nat, u: TaskId)
    requires DisciplinedRun(plan, h) && i <= k < |h.states| && IsCompleted(h.states[i], u)
    ensures IsCompleted(h.states[k], u)
  {
    if i < k {
      CompletedForGood(plan, h, i, k - 1, u);
      DisciplineOrders(plan, h, k - 1);
      LockedRowsAreAssigned(plan, h, k - 1);
      assert StepAt(plan, h, k - 1) && DisciplinedAt(plan, h, k - 1);
      CompletedStays(plan, h.states[k - 1], h.steps[k - 1], u);
    }
  }

  lemma OnlyCompleteCompletes(plan: Plan, s: Pool, step: Step, u: TaskId)
    requires Enabled(plan, s, step) && !IsCompleted(s, u) && IsCompleted(Apply(plan, s, step), u)
    ensures step == Complete(u)
  {
  }

  /** A COMPLETED row was completed by some earlier step. */
  lemma {:induction false} WhoCompleted(plan: Plan, h: History, k: nat, u: TaskId) returns (i: nat)
    requires Run(plan, h) && k < |h.states| && IsCompleted(h.states[k], u)
    ensures i < k && h.steps[i] == Complete(u)
  {
    i := 0;
    if k == 0 {
      assert false;
    } else if IsCompleted(h.states[k - 1], u) {
      i := WhoCompleted(plan, h, k - 1, u);
    } else {
      assert StepAt(plan, h, k - 1);
      OnlyCompleteCompletes(plan, h.states[k - 1], h.steps[k - 1], u);
      i := k - 1;
    }
  }

  /** In a disciplined run a task is claimed only after all its upstreams are COMPLETED, and they
      stay so for the rest of the run. */
  lemma ClaimsFollowUpstreams(plan: Plan, h: History, j: nat, t: TaskId, u: TaskId)
    requires plan.ForeignKeys() && DisciplinedRun(plan, h) && j < |h.steps|
    requires Claims(h.steps[j], t) && u in plan.Upstreams(t)
    ensures forall k :: j <= k < |h.states| ==> IsCompleted(h.states[k], u)
  {
    assert (u, t) in plan.deps;
    DisciplineOrders(plan, h, j);
    LockedRowsAreAssigned(plan, h, j);
    RowsStay(plan, h, j);
    assert StepAt(plan, h, j) && DisciplinedAt(plan, h, j);
    assert Ready(plan, h.states[j], t);
    forall k | j <= k < |h.states|
      ensures IsCompleted(h.states[k], u)
    {
      CompletedForGood(plan, h, j, k, u);
    }
  }

  /** Completion order is a topological order of the dependencies. */
  lemma CompletionsAreTopological(plan: Plan, h: History, j: nat, t: TaskId, u: TaskId)
    requires plan.ForeignKeys() && DisciplinedRun(plan, h) && j < |h.steps|
    requires h.steps[j] == Complete(t) && u in plan.Upstreams(t)
    ensures exists i :: 0 <= i < j && h.steps[i] == Complete(u)
  {
    assert (u, t) in plan.deps;
    DisciplineOrders(plan, h, j);
    RowsStay(plan, h, j);
    assert StepAt(plan, h, j);
    assert Ready(plan, h.states[j], t);
    var i := WhoCompleted(plan, h, j, u);
  }

  /** A FAILED upstream never unblocks anything: everything downstream of it is still PENDING or cancelled. */
  lemma FailureBlocksDownstream(plan: Plan, h: History, k: nat, u: TaskId, t: TaskId)
    requires plan.ForeignKeys() && DisciplinedRun(plan, h) && k < |h.states| && u in plan.Upstreams(t)
    requires u in h.states[k].status && h.states[k].status[u].Failed?
    ensures t in h.states[k].status
    ensures h.states[k].status[t].Pending? || h.states[k].status[t].Cancelled?
  {
    assert (u, t) in plan.deps;
    RowsStay(plan, h, k);
    DisciplineOrders(plan, h, k);
    assert !Past(h.states[k], t);
  }

  /** A disciplined run claims each task at most once. */
  lemma ClaimedAtMostOnce(plan: Plan, h: History, i: nat, j: nat, t: TaskId)
    requires DisciplinedRun(plan, h) && i < j < |h.steps| && Claims(h.steps[i], t)
    ensures !Claims(h.steps[j], t)
  {
    forall k | i < k < j
      ensures !PutsBack(h, k, t)
    {
      assert StepAt(plan, h, k) && DisciplinedAt(plan, h, k);
    }
    if Claims(h.steps[j], t) {
      ClaimsAreExclusive(plan, h, i, j, t);
    }
  }

  // ---- A discipline callers can keep ----

  /** What each caller can see to: nothing is re-queued, assign_task is called only on tasks without
      upstreams, and no statement claims or cancels a row that is still PENDING. */
  predicate Careful(plan: Plan, s: Pool, step: Step) {
    && !step.Requeue?
    && (step.AssignCheck? ==> plan.Upstreams(step.t) == {})
    && (step.Claim? || step.Cancel? ==> step.t in s.status && !s.status[step.t].Pending?)
  }

  predicate CarefulAt(plan: Plan, h: History, k: nat)
    requires k < |h.steps| < |h.states|
  {
    Careful(plan, h.states[k], h.steps[k])
  }

  /** Every caller is careful, and assign_task is called at most once per task. */
  ghost predicate CarefulRun(plan: Plan, h: History) {
    && Run(plan, h)
    && (forall k {:trigger CarefulAt(plan, h, k)} :: 0 <= k < |h.steps| ==> CarefulAt(plan, h, k))
    && (forall i, j :: 0 <= i < j < |h.steps| && h.steps[i].AssignCheck? ==> h.steps[i] != h.steps[j])
  }

  /** A check under way stands for an assignment that is still due: its row is PENDING and has no upstreams. */
  predicate CheckDue(plan: Plan, s: Pool, t: TaskId) {
    t in s.checked ==> s.checked[t] == 1 && t in s.status && s.status[t].Pending? && plan.Upstreams(t) == {}
  }

  ghost predicate ChecksDue(plan: Plan, s: Pool) {
    forall t {:trigger CheckDue(plan, s, t)} :: CheckDue(plan, s, t)
  }

  lemma CarefulStepIsDisciplined(plan: Plan, s: Pool, step: Step)
    requires Enabled(plan, s, step) && Careful(plan, s, step) && ChecksDue(plan, s)
    ensures Disciplined(plan, s, step)
  {
    assert CheckDue(plan, s, step.t);
  }

  lemma StepKeepsCheckDue(plan: Plan, s: Pool, step: Step, t: TaskId)
    requires Enabled(plan, s, step) && Careful(plan, s, step) && Exclusive(s) && LocksHoldAssigned(s)
    requires CheckDue(plan, s, t) && (step == AssignCheck(t) ==> t !in s.checked)
    ensures CheckDue(plan, Apply(plan, s, step), t)
  {
    assert step.t in s.executing ==> step.t in s.status && s.status[step.t].Running?;
    assert step.t in s.locked ==> step.t in s.status && s.status[step.t].Assigned?;
    assert step.Handle? ==> !Unblocks(plan, s, step.t, t) || step.t in plan.Upstreams(t);
  }

  /** Somebody called assign_task for every check under way. */
  lemma {:induction false} ChecksWereAsked(plan: Plan, h: History, k: nat, t: TaskId) returns (i: nat)
    requires Run(plan, h) && k < |h.states| && t in h.states[k].checked
    ensures i < k && h.steps[i] == AssignCheck(t)
  {
    i := 0;
    if k == 0 {
      assert false;
    } else {
      assert StepAt(plan, h, k - 1);
      if h.steps[k - 1] == AssignCheck(t) {
        i := k - 1;
      } else {
        i := ChecksWereAsked(plan, h, k - 1, t);
      }
    }
  }

  lemma {:induction false} CarefulStates(plan: Plan, h: History, k: nat)
    requires CarefulRun(plan, h) && k < |h.states|
    ensures ChecksDue(plan, h.states[k]) && Exclusive(h.states[k])
  {
    if k > 0 {
      CarefulStates(plan, h, k - 1);
      LockedRowsAreAssigned(plan, h, k - 1);
      var s, step := h.states[k - 1], h.steps[k - 1];
      assert StepAt(plan, h, k - 1) && CarefulAt(plan, h, k - 1);
      CarefulStepIsDisciplined(plan, s, step);
      StepKeepsExclusive(plan, s, step);
      forall t
        ensures CheckDue(plan, h.states[k], t)
      {
        if step == AssignCheck(t) && t in s.checked {
          var i := ChecksWereAsked(plan, h, k - 1, t);
          assert false;
        }
        assert CheckDue(plan, s, t);
        StepKeepsCheckDue(plan, s, step, t);
      }
    }
  }

  /** Careful callers keep the discipline, so all that it brings holds of their runs. */
  lemma CarefulRunsAreDisciplined(plan: Plan, h: History)
    requires CarefulRun(plan, h)
    ensures DisciplinedRun(plan, h)
  {
    forall k | 0 <= k < |h.steps|
      ensures DisciplinedAt(plan, h, k)
    {
      CarefulStates(plan, h, k);
      assert StepAt(plan, h, k) && CarefulAt(plan, h, k);
      CarefulStepIsDisciplined(plan, h.states[k], h.steps[k]);
    }
  }

  // ---- Tasks nothing will wake ----

  /** PENDING with every upstream settled as COMPLETED, and nothing on its way to either. */
  ghost predicate Stuck(plan: Plan, s: Pool, t: TaskId) {
    && t in s.status && s.status[t].Pending? && plan.Upstreams(t) != {} && Idle(s, t)
    && forall u {:trigger Settled(s, u)} :: u in plan.Upstreams(t) ==> Settled(s, u)
  }

  /** COMPLETED, with no execution, assignment or notification left. */
  predicate Settled(s: Pool, u: TaskId) {
    IsCompleted(s, u) && Idle(s, u) && u !in s.notes
  }

  predicate Idle(s: Pool, t: TaskId) {
    t !in s.locked && t !in s.executing && t !in s.checked
  }

  /** Somebody outside steps in: assigns, claims or cancels the task, or re-queues one of its upstreams. */
  predicate Rescues(plan: Plan, step: Step, t: TaskId) {
    || step == AssignCheck(t) || step == Claim(t) || step == Cancel(t)
    || (step.Requeue? && step.t in plan.Upstreams(t))
  }

  /** Only a rescue moves a stuck task, and none of the system's own moves is one. */
  lemma StuckStaysExactlyWhen(plan: Plan, s: Pool, step: Step, t: TaskId)
    requires Enabled(plan, s, step) && Stuck(plan, s, t)
    ensures Stuck(plan, Apply(plan, s, step), t) <==> !Rescues(plan, step, t)
    ensures OwnMove(step) ==> !Rescues(plan, step, t)
  {
    if Rescues(plan, step, t) {
      RescueMoves(plan, s, step, t);
    } else {
      StuckTaskStays(plan, s, step, t);
      forall u | u in plan.Upstreams(t)
        ensures Settled(Apply(plan, s, step), u)
      {
        assert Settled(s, u);
        SettledStays(plan, s, step, u);
      }
    }
  }

  lemma RescueMoves(plan: Plan, s: Pool, step: Step, t: TaskId)
    requires Enabled(plan, s, step) && Stuck(plan, s, t) && Rescues(plan, step, t)
    ensures !Stuck(plan, Apply(plan, s, step), t)
  {
    if step.Requeue? {
      assert Settled(s, step.t) && !Settled(Apply(plan, s, step), step.t);
    }
  }

  lemma StuckTaskStays(plan: Plan, s: Pool, step: Step, t: TaskId)
    requires Enabled(plan, s, step) && Stuck(plan, s, t) && !Rescues(plan, step, t)
    ensures var s' := Apply(plan, s, step); t in s'.status && s'.status[t].Pending? && Idle(s', t)
  {
    if step.Handle? && step.t in plan.Upstreams(t) {
      assert Settled(s, step.t);
    }
  }

  lemma SettledStays(plan: Plan, s: Pool, step: Step, u: TaskId)
    requires Enabled(plan, s, step) && Settled(s, u) && step != Requeue(u)
    ensures Settled(Apply(plan, s, step), u)
  {
    if step.t != u {
      OtherRowsStay(plan, s, step, u);
    }
  }

  /** A stuck task waits for ever, however the run goes on, unless somebody outside steps in. */
  lemma {:induction false} StuckForGood(plan: Plan, h: History, i: nat, k: nat, t: TaskId)
    requires Run(plan, h) && i <= k < |h.states| && Stuck(plan, h.states[i], t)
    requires forall j :: i <= j < k ==> !Rescues(plan, h.steps[j], t)
    ensures Stuck(plan, h.states[k], t)
  {
    if i < k {
      StuckForGood(plan, h, i, k - 1, t);
      assert StepAt(plan, h, k - 1);
      StuckStaysExactlyWhen(plan, h.states[k - 1], h.steps[k - 1], t);
    }
  }

  // ---- What goes wrong without the discipline ----

  const U := "u"
  const T := "t"
  /** T waits for U. */
  const PAIR := Plan([U, T], {(U, T)})

  function PairRows(u: Status, t: Status): map<TaskId, Status> {
    map[U := u, T := t]
  }

  lemma PairFacts()
    ensures PAIR.ForeignKeys() && PAIR.Upstreams(T) == {U} && PAIR.Upstreams(U) == {}
    ensures Init(PAIR) == Pool(PairRows(Pending, Pending), {}, multiset{}, multiset{}, multiset{})
  {
    assert (U, T) in PAIR.deps;
  }

  lemma Extend(plan: Plan, h: History, step: Step, s': Pool) returns (longer: History)
    requires Run(plan, h) && Next(plan, h.states[|h.steps|], step, s')
    ensures longer == History(h.states + [s'], h.steps + [step]) && Run(plan, longer)
  {
    longer := History(h.states + [s'], h.steps + [step]);
    forall k | 0 <= k < |longer.steps|
      ensures StepAt(plan, longer, k)
    {
      if k < |h.steps| {
        assert StepAt(plan, h, k);
      }
    }
  }

  /** U is running; if late, a second assign_task call on it, past its check, has yet to write. */
  lemma UpstreamRunning(late: bool) returns (h: History)
    ensures Run(PAIR, h) && forall k :: 0 <= k < |h.steps| ==> !h.steps[k].Requeue?
    ensures h.states[|h.steps|] == Pool(PairRows(Running, Pending), {}, multiset{U}, Late(late), multiset{})
  {
    h := UpstreamAssigned(late);
    var s := h.states[|h.steps|];
    h := Extend(PAIR, h, Claim(U), s.(status := PairRows(Running, Pending), executing := multiset{U}));
  }

  lemma UpstreamAssigned(late: bool) returns (h: History)
    ensures Run(PAIR, h) && forall k :: 0 <= k < |h.steps| ==> !h.steps[k].Requeue?
    ensures h.states[|h.steps|] == Pool(PairRows(Assigned, Pending), {}, multiset{}, Late(late), multiset{})
  {
    PairFacts();
    h := FirstCheck(late);
    var s := Pool(PairRows(Pending, Pending), {}, multiset{}, Late(late), multiset{});
    h := Extend(PAIR, h, AssignCheck(U), s.(checked := Late(late) + multiset{U}));
    h := Extend(PAIR, h, AssignWrite(U), s.(status := PairRows(Assigned, Pending)));
  }

  lemma FirstCheck(late: bool) returns (h: History)
    ensures Run(PAIR, h) && forall k :: 0 <= k < |h.steps| ==> !h.steps[k].Requeue?
    ensures h.states[|h.steps|] == Init(PAIR).(checked := Late(late))
  {
    h := History([Init(PAIR)], []);
    if late {
      PairFacts();
      h := Extend(PAIR, h, AssignCheck(U), Init(PAIR).(checked := multiset{U}));
    }
  }

  function Late(late: bool): multiset<TaskId> {
    if late then multiset{U} else multiset{}
  }

  /** ... then U completes and its notification assigns T. */
  lemma UpstreamCompleted(late: bool) returns (h: History)
    ensures Run(PAIR, h) && forall k :: 0 <= k < |h.steps| ==> !h.steps[k].Requeue?
    ensures h.states[|h.steps|] == Pool(PairRows(Completed, Assigned), {}, multiset{}, Late(late), multiset{})
  {
    h := UpstreamRunning(late);
    var s := Pool(PairRows(Completed, Pending), {}, multiset{}, Late(late), multiset{U});
    var s' := Pool(PairRows(Completed, Assigned), {}, multiset{}, Late(late), multiset{});
    h := Extend(PAIR, h, Complete(U), s);
    PairFacts();
    assert Unblocks(PAIR, s, U, T) && !Unblocks(PAIR, s, U, U);
    assert Apply(PAIR, s, Handle(U)).status == s'.status;
    h := Extend(PAIR, h, Handle(U), s');
  }

  /** assign_task's UPDATE does not look at the status again. Two overlapping calls can take a
      COMPLETED task back to ASSIGNED while the task it unblocked is already running. */
  lemma StaleAssignUndoesCompletion() returns (h: History)
    ensures PAIR.ForeignKeys() && PAIR.Upstreams(T) == {U}
    ensures Run(PAIR, h) && forall k :: 0 <= k < |h.steps| ==> !h.steps[k].Requeue?
    ensures h.states[|h.steps|].status == map[U := Assigned, T := Running]
  {
    PairFacts();
    h := UpstreamCompleted(true);
    var s := h.states[|h.steps|];
    var s1 := s.(status := PairRows(Completed, Running), executing := multiset{T});
    h := Extend(PAIR, h, Claim(T), s1);
    h := Extend(PAIR, h, AssignWrite(U), s1.(status := PairRows(Assigned, Running), checked := multiset{}));
  }

  /** The late write can also hit a RUNNING row: a second execution starts, and its failure turns the
      first one's COMPLETED into FAILED. */
  lemma LateAssignFailsCompletion() returns (h: History)
    ensures Run(PAIR, h) && forall k :: 0 <= k < |h.steps| ==> !h.steps[k].Requeue?
    ensures |h.steps| > 0 && IsCompleted(h.states[|h.steps| - 1], U)
    ensures h.states[|h.steps|].status == map[U := Failed, T := Pending]
  {
    h := RunningTwice();
    var s := Pool(PairRows(Running, Pending), {}, multiset{U}, multiset{}, multiset{});
    h := Extend(PAIR, h, Complete(U), s.(status := PairRows(Completed, Pending), notes := multiset{U}));
    h := Extend(PAIR, h, Fail(U),
      s.(status := PairRows(Failed, Pending), executing := multiset{}, notes := multiset{U, U}));
  }

  lemma RunningTwice() returns (h: History)
    ensures Run(PAIR, h) && forall k :: 0 <= k < |h.steps| ==> !h.steps[k].Requeue?
    ensures h.states[|h.steps|] == Pool(PairRows(Running, Pending), {}, multiset{U, U}, multiset{}, multiset{})
  {
    h := UpstreamRunning(true);
    var s := h.states[|h.steps|].(checked := multiset{});
    h := Extend(PAIR, h, AssignWrite(U), s.(status := PairRows(Assigned, Pending)));
    h := Extend(PAIR, h, Claim(U), s.(executing := multiset{U, U}));
  }

  /** A dependent that is re-queued while ASSIGNED, after its wake-up was handled, is stuck. */
  lemma RequeueLosesWakeUp() returns (h: History)
    ensures PAIR.ForeignKeys() && Run(PAIR, h) && !NoLostWakeUps(PAIR, h.states[|h.steps|])
    ensures Stuck(PAIR, h.states[|h.steps|], T)
  {
    PairFacts();
    h := UpstreamCompleted(false);
    var s := h.states[|h.steps|].(status := PairRows(Completed, Pending));
    h := Extend(PAIR, h, Requeue(T), s);
    assert !WakeUpKept(PAIR, s, T);
  }

  // ---- Runs end ----

  /** What is left of a row's life: PENDING or ASSIGNED 4, locked 3, RUNNING 1, settled 0. */
  function RowWeight(s: Pool, t: TaskId): nat {
    if t !in s.status then 0
    else if s.status[t].Pending? then 4
    else if s.status[t].Assigned? then (if t in s.locked then 3 else 4)
    else if s.status[t].Running? then 1 else 0
  }

  function RowsWeight(tasks: seq<TaskId>, s: Pool): nat {
    if tasks == [] then 0 else RowWeight(s, tasks[0]) + RowsWeight(tasks[1..], s)
  }

  function Measure(plan: Plan, s: Pool): nat {
    RowsWeight(plan.tasks, s) + |s.executing| + |s.checked| + |s.notes|
  }

  /** assign_task checks and rollbacks are paid for; every other disciplined step makes progress. */
  function Budget(steps: seq<Step>, k: nat): nat
    requires k <= |steps|
  {
    if k == 0 then 0 else
      Budget(steps, k - 1) + (if steps[k - 1].AssignCheck? || steps[k - 1].Unlock? then 2 else 0)
  }

  lemma {:induction false} WeightsDrop(tasks: seq<TaskId>, s: Pool, s': Pool, t: TaskId, drop: nat)
    requires forall x :: x != t ==> RowWeight(s', x) <= RowWeight(s, x)
    requires RowWeight(s', t) + drop <= RowWeight(s, t)
    ensures RowsWeight(tasks, s') <= RowsWeight(tasks, s)
    ensures t in tasks ==> RowsWeight(tasks, s') + drop <= RowsWeight(tasks, s)
  {
    if tasks != [] {
      WeightsDrop(tasks[1..], s, s', t, drop);
    }
  }

  /** How much of its own row's weight a step uses up. */
  function Drop(step: Step): nat {
    match step
    case Lock(_) => 1
    case Start(_) => 2
    case Claim(_) => 3
    case Complete(_) => 1
    case Fail(_) => 1
    case Checkpoint(_) => 1
    case Cancel(_) => 4
    case _ => 0
  }

  lemma StepWeighsRow(plan: Plan, s: Pool, step: Step, x: TaskId)
    requires Enabled(plan, s, step) && Disciplined(plan, s, step) && Exclusive(s) && LocksHoldAssigned(s)
    requires !step.Unlock?
    ensures RowWeight(Apply(plan, s, step), x) + (if x == step.t then Drop(step) else 0) <= RowWeight(s, x)
  {
    if x != step.t {
      OtherRowsWeighNoMore(plan, s, step, x);
    }
  }

  lemma OtherRowsWeighNoMore(plan: Plan, s: Pool, step: Step, x: TaskId)
    requires Enabled(plan, s, step) && x != step.t
    ensures RowWeight(Apply(plan, s, step), x) <= RowWeight(s, x)
  {
  }

  lemma StepWeighsQueues(plan: Plan, s: Pool, step: Step)
    requires Enabled(plan, s, step) && !step.Requeue?
    ensures var s' := Apply(plan, s, step);
      |s'.executing| + |s'.checked| + |s'.notes| + 1
      <= |s.executing| + |s.checked| + |s.notes| + Drop(step)
         + (if step.AssignCheck? then 2 else if step.Unlock? then 1 else 0)
  {
  }

  /** Every disciplined step lowers the measure, or was paid for by the budget. */
  lemma StepPaysWeight(plan: Plan, s: Pool, step: Step)
    requires plan.PrimaryKey() && Rows(plan, s)
    requires Enabled(plan, s, step) && Disciplined(plan, s, step) && Exclusive(s) && LocksHoldAssigned(s)
    ensures Measure(plan, Apply(plan, s, step)) + 1
            <= Measure(plan, s) + (if step.AssignCheck? || step.Unlock? then 2 else 0)
  {
    var s' := Apply(plan, s, step);
    StepWeighsQueues(plan, s, step);
    if step.Unlock? {
      UnlockWeight(plan.tasks, s, step.t);
    } else {
      forall x
        ensures RowWeight(s', x) + (if x == step.t then Drop(step) else 0) <= RowWeight(s, x)
      {
        StepWeighsRow(plan, s, step, x);
      }
      WeightsDrop(plan.tasks, s, s', step.t, Drop(step));
    }
  }

  lemma {:induction false} UnlockWeight(tasks: seq<TaskId>, s: Pool, t: TaskId)
    requires forall i, j :: 0 <= i < j < |tasks| ==> tasks[i] != tasks[j]
    ensures RowsWeight(tasks, s.(locked := s.locked - {t})) <= RowsWeight(tasks, s) + (if t in tasks then 1 else 0)
  {
    if tasks != [] {
      UnlockWeight(tasks[1..], s, t);
      if tasks[0] == t {
        assert t !in tasks[1..];
      }
    }
  }

  /** A disciplined run is finite: at most four steps per task, plus two for every assign_task
      check and every rolled-back poll it contains. */
  lemma DisciplinedRunsEnd(plan: Plan, h: History)
    requires plan.PrimaryKey() && DisciplinedRun(plan, h)
    ensures |h.steps| <= 4 * |plan.tasks| + Budget(h.steps, |h.steps|)
  {
    MeasureBoundsRun(plan, h, |h.steps|);
  }

  lemma {:induction false} MeasureBoundsRun(plan: Plan, h: History, k: nat)
    requires plan.PrimaryKey() && DisciplinedRun(plan, h) && k < |h.states|
    ensures Measure(plan, h.states[k]) + k <= 4 * |plan.tasks| + Budget(h.steps, k)
  {
    if k == 0 {
      InitialWeight(plan, plan.tasks);
    } else {
      MeasureBoundsRun(plan, h, k - 1);
      DisciplineOrders(plan, h, k - 1);
      LockedRowsAreAssigned(plan, h, k - 1);
      RowsStay(plan, h, k - 1);
      assert StepAt(plan, h, k - 1) && DisciplinedAt(plan, h, k - 1);
      StepPaysWeight(plan, h.states[k - 1], h.steps[k - 1]);
    }
  }

  lemma {:induction false} InitialWeight(plan: Plan, tasks: seq<TaskId>)
    ensures RowsWeight(tasks, Init(plan)) <= 4 * |tasks|
  {
    if tasks != [] {
      InitialWeight(plan, tasks[1..]);
    }
  }
}
