/** What holds over whole runs: creation, calls that succeed, throw or repeat an event id, and crashes. */
module Runs {
  import opened Wrappers
  import opened Contracts
  import opened Dag
  import opened Scheduler
  import opened EventLedger
  import opened Store
  import opened Engine
  import opened Invariants
  import opened Operations

  // ----- the invariant of every reachable state

  lemma InitialFit(def: Workflow, rt: Runtime)
    requires UniqueIds(def.steps) && rt.steps == InitialSteps(def.steps, {}) && rt.assignments == []
    requires rt.bindings == []
    requires forall s :: s in def.steps ==> StepDefOk(s)
    requires rt.task.status == TReady
    ensures Fit(def.steps, rt)
  {
    hide StepOk, Books, InitialStep, DefOf, UniqueIds;
    forall id | id in rt.steps
      ensures rt.steps[id].status in {Ready, WaitingDependency} { InitialStatus(def.steps, id); }
    forall s | s in def.steps ensures StepOk(s, rt.steps) { InitialStepOk(def.steps, s); }
    forall id | id in rt.steps ensures Books([], id, rt.steps[id]) { InitialStatus(def.steps, id); }
    if rt.steps.Keys != {} {
      var id :| id in rt.steps;
      assert rt.steps[id].status in {Ready, WaitingDependency};
    }
  }

  lemma InitialStatus(defs: seq<StepDef>, id: Id)
    requires id in StepIds(defs)
    ensures var x := InitialSteps(defs, {})[id]; x.status in {Ready, WaitingDependency} && Books([], id, x)
  {}

  lemma InitialStepOk(defs: seq<StepDef>, s: StepDef)
    requires UniqueIds(defs) && s in defs && StepDefOk(s)
    ensures StepOk(s, InitialSteps(defs, {}))
  {
    hide UniqueIds;
    var j :| 0 <= j < |defs| && defs[j] == s;
    DefOfIndex(defs, j);
    var steps := InitialSteps(defs, {});
    assert forall id :: id in steps ==> steps[id].status != Completed;
    if s.dependsOn != [] { assert s.dependsOn[0] in s.dependsOn; }
  }

  lemma InitialInv(def: Workflow)
    requires Creatable(def)
    ensures SnapInv(InitialSnapshot(def)) && SequencesOk(InitialSnapshot(def).rt, 0)
  {
    hide Acyclic, KnownDeps, TaskProgress, ActiveList;
    var s := InitialSnapshot(def);
    InitialFit(def, s.rt);
  }

  lemma BornInv(def: Workflow, uuid: Uuids, b: Birth)
    requires Creatable(def)
    ensures DiskInv(Born(def, uuid, b)) && Born(def, uuid, b).snap.def == def
  {
    hide SnapshotOk, Append, TaskProgress, ActiveList, Fit;
    var s := InitialSnapshot(def);
    InitialInv(def);
    AppendKeeps(s.rt, [], CreatedInput(def), uuid);
    var n := Append(s.rt, [], CreatedInput(def), uuid);
    if n.Noted? {
      DerivedStable(def, s.rt, n.rt);
      FitLike(def.steps, s.rt, n.rt);
    }
  }

  /** A new task has its initial step states, up to event numbers. */
  lemma BornLike(def: Workflow, uuid: Uuids, b: Birth)
    ensures SameSteps(InitialSteps(def.steps, {}), Born(def, uuid, b).snap.rt.steps)
  {
    hide SnapshotOk, TaskProgress, ActiveList, InitialSteps, CreatedInput;
  }

  lemma StepInv(d: Disk, m: Move)
    requires DiskInv(d)
    ensures DiskInv(Step(d, m)) && d.log <= Step(d, m).log
  {
    hide SnapInv, Exec;
    ExecGood(d, m.op, m.uuid);
    var r := Exec(d, m.op, m.uuid);
    if m.Crash? && |d.log| + m.kept <= |r.log| { SoundPrefix(r.log, |d.log| + m.kept); }
  }

  /** Any task, created whole or by an interrupted creation, and then any run. */
  ghost predicate Reachable(d: Disk) {
    exists def, uuid, b, moves :: Creatable(def) && d == Run(Born(def, uuid, b), moves)
  }

  lemma {:induction false} RunInv(d: Disk, moves: seq<Move>)
    requires DiskInv(d)
    ensures DiskInv(Run(d, moves)) && d.log <= Run(d, moves).log
  {
    hide DiskInv, Step;
    if moves != [] {
      RunInv(d, moves[..|moves|-1]);
      StepInv(Run(d, moves[..|moves|-1]), moves[|moves|-1]);
    }
  }

  lemma ReachableInv(d: Disk)
    requires Reachable(d)
    ensures DiskInv(d)
  {
    hide DiskInv, Run, Born, Creatable;
    var def, uuid, b, moves :| Creatable(def) && d == Run(Born(def, uuid, b), moves);
    BornInv(def, uuid, b);
    RunInv(Born(def, uuid, b), moves);
  }

  // ----- consequences for every reachable state

  /** Completed steps are closed under dependencies; so are, at any time, the dependencies of an assigned step. */
  lemma DependencyClosed(d: Disk, step: StepDef)
    requires Reachable(d) && step in d.snap.def.steps
    ensures step.stepId in d.snap.rt.steps
    ensures d.snap.rt.steps[step.stepId].status == Completed || d.snap.rt.steps[step.stepId].assignmentId.Some? ==>
              forall k :: k in step.dependsOn ==> k in d.snap.rt.steps && d.snap.rt.steps[k].status == Completed
  {
    hide Reachable, SnapshotOk, BooksOk;
    ReachableInv(d);
    assert StepOk(step, d.snap.rt.steps);
  }

  /** A step waits exactly while a dependency is open, and is ready only when none is. */
  lemma ReadinessIsCurrent(d: Disk, step: StepDef)
    requires Reachable(d) && step in d.snap.def.steps
    ensures step.stepId in d.snap.rt.steps
    ensures var x := d.snap.rt.steps[step.stepId];
            && x.status != Pending
            && (x.status == WaitingDependency ==> !DependencyReady(step, d.snap.rt.steps))
            && (x.status == Ready ==> DependencyReady(step, d.snap.rt.steps))
  {
    hide Reachable, SnapshotOk, BooksOk;
    ReachableInv(d);
    assert StepOk(step, d.snap.rt.steps);
  }

  /** Recomputing readiness from scratch never changes anything. */
  lemma ReconcileNeverActs(d: Disk, uuid: Uuids)
    requires Reachable(d)
    ensures Exec(d, ReconcileOp, uuid) == Wrote(d.log, d.snap)
  {
    hide Reachable, DiskInv, Exec;
    ReachableInv(d);
    ReconcileIsIdle(d, uuid);
  }

  /** Attempts, assignments and bindings agree. */
  lemma BooksAgree(d: Disk, step: StepDef)
    requires Reachable(d) && step in d.snap.def.steps
    ensures step.stepId in d.snap.rt.steps
    ensures var x, own := d.snap.rt.steps[step.stepId], AssignmentsOf(d.snap.rt.assignments, step.stepId);
            && |own| == x.attempt <= step.maxAttempts
            && (forall k :: 0 <= k < |own| ==> own[k].attempt == k + 1)
            && x.assignmentId == (if own == [] then None else Some(own[|own|-1].assignmentId))
    ensures OneOpenBinding(d.snap.rt.bindings)
  {
    hide Reachable, SnapshotOk, OneOpenBinding, AssignmentsOf;
    ReachableInv(d);
    assert StepOk(step, d.snap.rt.steps);
    assert Books(d.snap.rt.assignments, step.stepId, d.snap.rt.steps[step.stepId]);
  }

  /** A task whose steps are all completed is completed; one whose steps are all closed, some by cancellation, is
      cancelled. */
  lemma TaskFollowsSteps(d: Disk)
    requires Reachable(d) && d.snap.rt.steps.Keys != {}
    ensures AllCompleted(d.snap.rt.steps) ==> d.snap.rt.task.status == TCompleted
    ensures SomeCancelled(d.snap.rt.steps) && AllClosed(d.snap.rt.steps) ==> d.snap.rt.task.status == TCancelled
  {
    hide Reachable, SnapshotOk, StepsOk, BooksOk;
    ReachableInv(d);
  }

  /** The derived fields are those computed afresh from the step states. */
  lemma DerivedFieldsCurrent(d: Disk)
    requires Reachable(d)
    ensures StepIds(d.snap.def.steps) == d.snap.rt.steps.Keys
    ensures d.snap.rt.task.progress == TaskProgress(d.snap.def.steps, d.snap.rt.steps)
    ensures d.snap.rt.task.activeStepIds == ActiveList(d.snap.def.steps, d.snap.rt.steps)
    ensures AllCompleted(d.snap.rt.steps) && d.snap.def.steps != [] ==> d.snap.rt.task.progress == 1.0
  {
    hide Reachable, Fit, DefinitionOk, TaskProgress, ActiveList;
    ReachableInv(d);
    TaskProgressRange(d.snap.def.steps, d.snap.rt.steps);
    assert forall s :: s in d.snap.def.steps ==> s.stepId in StepIds(d.snap.def.steps);
  }

  /** The event file stays numbered 1..n without repeated ids and the snapshot never runs ahead of it, so
      that the check of the store on start-up succeeds. */
  lemma StoreStaysConsistent(d: Disk)
    requires Reachable(d)
    ensures SnapshotOk(d.snap) && Numbered(d.log) && DistinctIds(d.log)
    ensures d.snap.rt.task.lastEventSequence <= |d.log|
  {
    hide Reachable, Fit, SnapshotOk, DerivedOk, Numbered, DistinctIds;
    ReachableInv(d);
  }
}
