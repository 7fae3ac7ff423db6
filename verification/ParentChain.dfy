/** Cycle checks over the parent links of the task table (rasa/orchestrator/dag.py). */
module ParentChain {
  import opened Options

  type TaskId = string

  /** The tasks table's parent column; the empty string stands for NULL. */
  type Parents = map<TaskId, TaskId>

  /** A dependency row: from_task_id and to_task_id. */
  datatype Dependency = Dependency(source: TaskId, target: TaskId)

  function Parent(parents: Parents, t: TaskId): Option<TaskId> {
    if t in parents && parents[t] != "" then Some(parents[t]) else None
  }

  /** The n-th ancestor, itself being the 0-th. */
  function Ancestor(parents: Parents, t: TaskId, n: nat): Option<TaskId>
    decreases n
  {
    if n == 0 then Some(t)
    else
      var below := Ancestor(parents, t, n - 1);
      if below.None? then None else Parent(parents, below.value)
  }

  ghost predicate IsAncestor(parents: Parents, a: TaskId, t: TaskId) {
    exists n: nat :: Ancestor(parents, t, n) == Some(a)
  }

  ghost predicate Revisits(parents: Parents, t: TaskId) {
    exists i: nat, j: nat ::
      i < j && Ancestor(parents, t, i).Some? && Ancestor(parents, t, i) == Ancestor(parents, t, j)
  }

  ghost predicate Acyclic(parents: Parents) {
    forall t, n: nat :: n > 0 ==> Ancestor(parents, t, n) != Some(t)
  }

  /** The new task depends on t or on some ancestor of t: a dependency row leads from there to it. */
  ghost predicate DependencyHit(parents: Parents, dependencies: set<Dependency>, t: TaskId, newTask: TaskId) {
    exists a :: IsAncestor(parents, a, t) && Dependency(a, newTask) in dependencies
  }

  // ---- Walking up ----

  lemma {:induction false} AncestorsCompose(parents: Parents, t: TaskId, i: nat, n: nat)
    requires Ancestor(parents, t, i).Some?
    ensures Ancestor(parents, t, i + n) == Ancestor(parents, Ancestor(parents, t, i).value, n)
  {
    if n > 0 {
      AncestorsCompose(parents, t, i, n - 1);
    }
  }

  lemma {:induction false} AncestorsBelow(parents: Parents, t: TaskId, i: nat, n: nat)
    requires i <= n && Ancestor(parents, t, n).Some?
    ensures Ancestor(parents, t, i).Some?
  {
    if i < n {
      AncestorsBelow(parents, t, i, n - 1);
    }
  }

  /** Once the walk has ended nothing lies beyond. */
  ghost predicate EndsAfter(parents: Parents, t: TaskId, n: nat) {
    Ancestor(parents, t, n).Some? && Ancestor(parents, t, n + 1).None?
  }

  lemma EndedWalkHasNoRevisit(parents: Parents, t: TaskId, n: nat)
    requires EndsAfter(parents, t, n)
    ensures !Revisits(parents, t)
  {
    if i: nat, j: nat :| i < j && Ancestor(parents, t, i).Some? && Ancestor(parents, t, i) == Ancestor(parents, t, j) {
      if j > n {
        AncestorsBelow(parents, t, n + 1, j);
      } else {
        AncestorsCompose(parents, t, i, n - j);
        AncestorsCompose(parents, t, j, n - j);
        AncestorsCompose(parents, t, i, n + 1 - j);
        AncestorsCompose(parents, t, j, n + 1 - j);
        AncestorsBelow(parents, t, i + (n + 1 - j), n);
      }
      assert false;
    }
  }

  /** The first k cells of the walk from t. */
  ghost predicate Walk(parents: Parents, t: TaskId, chain: seq<TaskId>) {
    forall n: nat :: n < |chain| ==> Ancestor(parents, t, n) == Some(chain[n])
  }

  /** When the walk ends, or comes back to a task it has seen, the whole chain is known. */
  lemma WalkListsAncestors(parents: Parents, t: TaskId, chain: seq<TaskId>, a: TaskId)
    requires Walk(parents, t, chain) && Ancestor(parents, t, |chain|).None?
    ensures a in chain <==> IsAncestor(parents, a, t)
  {
    if n: nat :| Ancestor(parents, t, n) == Some(a) {
      if n >= |chain| {
        AncestorsBelow(parents, t, |chain|, n);
      }
    }
    if a in chain {
      var n: nat :| n < |chain| && chain[n] == a;
      assert Ancestor(parents, t, n) == Some(a);
    }
  }

  lemma WalkComesBack(parents: Parents, t: TaskId, chain: seq<TaskId>, a: TaskId)
    requires Walk(parents, t, chain) && Ancestor(parents, t, |chain|) == Some(a) && a in chain
    ensures Revisits(parents, t)
  {
    var n: nat :| n < |chain| && chain[n] == a;
    assert Ancestor(parents, t, n) == Ancestor(parents, t, |chain|);
  }

  /** What DetectCycle answers: the new task is the parent or above it, the chain above the parent
      loops, or the new task already depends on an ancestor. */
  ghost predicate Hazard(parents: Parents, dependencies: set<Dependency>, newTask: TaskId, parentId: TaskId) {
    || IsAncestor(parents, newTask, parentId)
    || Revisits(parents, parentId)
    || DependencyHit(parents, dependencies, parentId, newTask)
  }

  lemma EndedWalkHazard(
    parents: Parents, dependencies: set<Dependency>, newTask: TaskId, parentId: TaskId, chain: seq<TaskId>)
    requires chain != [] && Walk(parents, parentId, chain) && Ancestor(parents, parentId, |chain|).None?
    requires newTask !in chain
    ensures Hazard(parents, dependencies, newTask, parentId)
        <==> exists a :: a in chain && Dependency(a, newTask) in dependencies
  {
    forall a
      ensures a in chain <==> IsAncestor(parents, a, parentId)
    {
      WalkListsAncestors(parents, parentId, chain, a);
    }
    EndedWalkHasNoRevisit(parents, parentId, |chain| - 1);
  }

  /** The while loop, which ends on any parent column. */
  method DetectCycle(parents: Parents, dependencies: set<Dependency>, newTask: TaskId, parentId: TaskId)
    returns (cycle: bool)
    ensures cycle <==> parentId != "" && Hazard(parents, dependencies, newTask, parentId)
  {
    if parentId == "" {
      return false;
    }
    var visited: set<TaskId> := {};
    var current := Some(parentId);
    ghost var chain: seq<TaskId> := [];
    ghost var known := {parentId} + parents.Values;
    while current.Some?
      invariant current.Some? ==> current.value in known
      invariant Walk(parents, parentId, chain) && Ancestor(parents, parentId, |chain|) == current
      invariant forall a :: a in visited <==> a in chain
      invariant newTask !in chain
      invariant current.None? ==> chain != []
      decreases known - visited
    {
      if current.value == newTask {
        return true;
      }
      if current.value in visited {
        WalkComesBack(parents, parentId, chain, current.value);
        return true;
      }
      visited := visited + {current.value};
      chain := chain + [current.value];
      current := Parent(parents, current.value);
    }
    EndedWalkHazard(parents, dependencies, newTask, parentId, chain);
    if visited != {} {
      if exists a :: a in visited && Dependency(a, newTask) in dependencies {
        return true;
      }
    }
    return false;
  }

  // ---- What the verdict means ----

  /** Up to the first meeting with the rewritten task, the walk does not see the new link. */
  lemma {:induction false} WalkUnchanged(parents: Parents, newTask: TaskId, parentId: TaskId, t: TaskId, n: nat)
    requires forall m: nat :: m < n ==> Ancestor(parents, t, m) != Some(newTask)
    ensures Ancestor(parents[newTask := parentId], t, n) == Ancestor(parents, t, n)
  {
    if n > 0 {
      WalkUnchanged(parents, newTask, parentId, t, n - 1);
      assert Ancestor(parents, t, n - 1) != Some(newTask);
    }
  }

  /** The least step at which a walk meets a task. */
  function FirstMeeting(parents: Parents, t: TaskId, a: TaskId, n: nat): (m: nat)
    requires Ancestor(parents, t, n) == Some(a)
    ensures m <= n && Ancestor(parents, t, m) == Some(a)
    ensures forall i: nat :: i < m ==> Ancestor(parents, t, i) != Some(a)
  {
    EarliestFrom(parents, t, a, n, 0)
  }

  function EarliestFrom(parents: Parents, t: TaskId, a: TaskId, n: nat, from: nat): (m: nat)
    requires from <= n && Ancestor(parents, t, n) == Some(a)
    requires forall i: nat :: i < from ==> Ancestor(parents, t, i) != Some(a)
    ensures m <= n && Ancestor(parents, t, m) == Some(a)
    ensures forall i: nat :: i < m ==> Ancestor(parents, t, i) != Some(a)
    decreases n - from
  {
    if Ancestor(parents, t, from) == Some(a) then from else EarliestFrom(parents, t, a, n, from + 1)
  }

  /** A cycle made by the new link runs through the new task, so the parent had it as an ancestor. */
  lemma NewCyclesPassTheParent(parents: Parents, newTask: TaskId, parentId: TaskId, t: TaskId, n: nat)
    requires Acyclic(parents) && parentId != "" && n > 0
    requires Ancestor(parents[newTask := parentId], t, n) == Some(t)
    ensures IsAncestor(parents, newTask, parentId)
  {
    var after := parents[newTask := parentId];
    if forall m: nat :: m < n ==> Ancestor(parents, t, m) != Some(newTask) {
      WalkUnchanged(parents, newTask, parentId, t, n);
    } else {
      var m: nat :| m < n && Ancestor(parents, t, m) == Some(newTask);
      var k := FirstMeeting(parents, t, newTask, m);
      WalkUnchanged(parents, newTask, parentId, t, k);
      // Rotate the cycle so that it starts at the new task, then take its next visit to it.
      AncestorsCompose(after, t, n, k);
      AncestorsCompose(after, t, k, n);
      AncestorsCompose(after, newTask, 1, n - 1);
      assert Ancestor(after, newTask, 0) == Some(newTask);
      assert Ancestor(after, newTask, 1) == Some(parentId);
      assert Ancestor(after, parentId, n - 1) == Some(newTask);
      var f := FirstMeeting(after, parentId, newTask, n - 1);
      RestoredWalk(parents, after, newTask, parentId, f);
    }
  }

  /** Taking the new link away again gives back the old walk. */
  lemma {:induction false} RestoredWalk(parents: Parents, after: Parents, newTask: TaskId, parentId: TaskId, n: nat)
    requires after == parents[newTask := parentId]
    requires forall m: nat :: m < n ==> Ancestor(after, parentId, m) != Some(newTask)
    ensures Ancestor(parents, parentId, n) == Ancestor(after, parentId, n)
    decreases n
  {
    if n > 0 {
      RestoredWalk(parents, after, newTask, parentId, n - 1);
      assert Ancestor(after, parentId, n - 1) != Some(newTask);
    }
  }

  /** From an acyclic table, linking a task under a parent keeps it acyclic exactly when the task is
      not already the parent or above it. */
  lemma LinkKeepsAcyclicExactlyWhen(parents: Parents, newTask: TaskId, parentId: TaskId)
    requires Acyclic(parents) && parentId != ""
    ensures Acyclic(parents[newTask := parentId]) <==> !IsAncestor(parents, newTask, parentId)
  {
    var after := parents[newTask := parentId];
    if n: nat :| Ancestor(parents, parentId, n) == Some(newTask) {
      var m := FirstMeeting(parents, parentId, newTask, n);
      WalkUnchanged(parents, newTask, parentId, parentId, m);
      assert Ancestor(after, newTask, 0) == Some(newTask);
      assert Ancestor(after, newTask, 1) == Some(parentId);
      AncestorsCompose(after, newTask, 1, m);
      assert Ancestor(after, newTask, 1 + m) == Some(newTask);
    }
    if !Acyclic(after) {
      var t, n: nat :| n > 0 && Ancestor(after, t, n) == Some(t);
      NewCyclesPassTheParent(parents, newTask, parentId, t, n);
    }
  }

  lemma AcyclicNeverRevisits(parents: Parents, t: TaskId)
    requires Acyclic(parents)
    ensures !Revisits(parents, t)
  {
    forall i: nat, j: nat | i < j && Ancestor(parents, t, i).Some?
      ensures Ancestor(parents, t, i) != Ancestor(parents, t, j)
    {
      AncestorsCompose(parents, t, i, j - i);
    }
  }

  /** What the verdict is worth on an acyclic table: False is always safe, and when the new task depends
      on no ancestor True means the link would close a cycle. */
  lemma VerdictOnAcyclicTables(
    parents: Parents, dependencies: set<Dependency>, newTask: TaskId, parentId: TaskId)
    requires Acyclic(parents) && parentId != ""
    ensures !Hazard(parents, dependencies, newTask, parentId) ==> Acyclic(parents[newTask := parentId])
    ensures !DependencyHit(parents, dependencies, parentId, newTask) ==>
      (Hazard(parents, dependencies, newTask, parentId) <==> !Acyclic(parents[newTask := parentId]))
  {
    AcyclicNeverRevisits(parents, parentId);
    LinkKeepsAcyclicExactlyWhen(parents, newTask, parentId);
  }

  // ---- Validating one chain ----

  function Unseen(parents: Parents, path: seq<TaskId>): set<TaskId> {
    set t | t in parents && t !in path
  }

  /** The recursive query from a row whose path so far is given: does any row it adds repeat an id of
      its own path? Rows are joined only while they exist. */
  predicate CycleAbove(parents: Parents, path: seq<TaskId>)
    requires path != [] && forall a :: a in path ==> a in parents
    decreases Unseen(parents, path)
  {
    var parent := Parent(parents, path[|path| - 1]);
    if parent.None? || parent.value !in parents then false
    else if parent.value in path then true
    else
      assert parent.value in Unseen(parents, path) && parent.value !in Unseen(parents, path + [parent.value]);
      CycleAbove(parents, path + [parent.value])
  }

  predicate ValidateDag(parents: Parents, t: TaskId) {
    t in parents ==> !CycleAbove(parents, [t])
  }

  lemma {:induction false} CycleAboveIsRevisit(parents: Parents, t: TaskId, path: seq<TaskId>)
    requires path != [] && (forall a :: a in path ==> a in parents) && Walk(parents, t, path)
    ensures CycleAbove(parents, path) <==> Revisits(parents, t)
    decreases Unseen(parents, path)
  {
    var last := path[|path| - 1];
    assert Ancestor(parents, t, |path| - 1) == Some(last);
    var parent := Parent(parents, last);
    assert Ancestor(parents, t, |path|) == parent;
    if parent.None? {
      EndedWalkHasNoRevisit(parents, t, |path| - 1);
    } else if parent.value !in parents {
      EndedWalkHasNoRevisit(parents, t, |path|);
    } else if parent.value in path {
      WalkComesBack(parents, t, path, parent.value);
    } else {
      assert parent.value in Unseen(parents, path) && parent.value !in Unseen(parents, path + [parent.value]);
      CycleAboveIsRevisit(parents, t, path + [parent.value]);
    }
  }

  /** The table is acyclic exactly when every row validates. */
  lemma AcyclicExactlyWhenAllValidate(parents: Parents)
    ensures Acyclic(parents) <==> forall t :: t in parents ==> ValidateDag(parents, t)
  {
    forall t | t in parents
      ensures ValidateDag(parents, t) <==> !Revisits(parents, t)
    {
      CycleAboveIsRevisit(parents, t, [t]);
    }
    if Acyclic(parents) {
      forall t {
        AcyclicNeverRevisits(parents, t);
      }
    } else {
      var t, n: nat :| n > 0 && Ancestor(parents, t, n) == Some(t);
      AncestorsBelow(parents, t, 1, n);
      assert Ancestor(parents, t, 0) == Ancestor(parents, t, n);
      assert Ancestor(parents, t, 1) == Parent(parents, t);
    }
  }
}
