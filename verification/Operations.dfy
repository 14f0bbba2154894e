/** Every operation keeps the invariant; hence every run does. */
module Operations {
  import opened Wrappers
  import opened Contracts
  import opened Dag
  import opened Scheduler
  import opened EventLedger
  import opened Store
  import opened Engine
  import opened Invariants

  // ----- the single-event operations

  lemma TaskFit(s: Snapshot, to: TaskStatus, reason: Option<string>)
    requires Base(s)
    ensures ChangeOk(s, TaskChange(s, to, reason))
  {}

  lemma PreflightFit(s: Snapshot, stepId: Id, p: SkillPreflight)
    requires Base(s)
    ensures ChangeOk(s, PreflightChange(s, stepId, p))
  {
    var c := PreflightChange(s, stepId, p);
    if c.Replace? {
      StepOkAt(s.def.steps, s.rt.steps, stepId);
      StepFit(s, stepId, c.rt.steps[stepId]);
    }
  }

  lemma ProgressFit(s: Snapshot, stepId: Id, progress: Option<real>, activity: Option<string>, identity: Identity)
    requires Base(s)
    ensures ChangeOk(s, ProgressChange(s, stepId, progress, activity, identity))
  {
    var c := ProgressChange(s, stepId, progress, activity, identity);
    if c.Replace? {
      StepOkAt(s.def.steps, s.rt.steps, stepId);
      StepFit(s, stepId, c.rt.steps[stepId]);
    }
  }

  lemma RequestFit(s: Snapshot, stepId: Id, note: Option<string>, identity: Identity)
    requires Base(s)
    ensures ChangeOk(s, RequestChange(s, stepId, note, identity))
  {
    var c := RequestChange(s, stepId, note, identity);
    if c.Replace? {
      StepOkAt(s.def.steps, s.rt.steps, stepId);
      StepFit(s, stepId, c.rt.steps[stepId]);
    }
  }

  lemma GateFailFit(s: Snapshot, stepId: Id, reason: Option<string>)
    requires Base(s)
    ensures ChangeOk(s, GateFailChange(s, stepId, reason))
  {
    var c := GateFailChange(s, stepId, reason);
    if c.Replace? {
      StepOkAt(s.def.steps, s.rt.steps, stepId);
      StepFit(s, stepId, c.rt.steps[stepId]);
    }
  }

  lemma BindFit(s: Snapshot, assignmentId: Id, session: string, state: BindingState, bindingId: Id)
    requires Base(s)
    ensures ChangeOk(s, BindChange(s, assignmentId, session, state, bindingId))
  {
    hide StepsOk, BooksOk;
  }

  lemma BindingFit(s: Snapshot, bindingId: Id, state: BindingState)
    requires Base(s)
    ensures ChangeOk(s, BindingChange(s, bindingId, state))
  {
    hide StepsOk, BooksOk;
  }

  lemma AssignmentsOfSnoc(a: seq<Assignment>, n: Assignment, id: Id)
    ensures AssignmentsOf(a + [n], id) == AssignmentsOf(a, id) + if n.stepId == id then [n] else []
  {
    assert (a + [n])[..|a|] == a;
  }

  lemma BooksAssigned(a: seq<Assignment>, steps: map<Id, StepRuntime>, n: Assignment, y: StepRuntime)
    requires BooksOk(a, steps) && n.stepId in steps
    requires n.attempt == steps[n.stepId].attempt + 1 == y.attempt && y.assignmentId == Some(n.assignmentId)
    ensures BooksOk(a + [n], steps[n.stepId := y])
  {
    var t := steps[n.stepId := y];
    forall k | k in t ensures Books(a + [n], k, t[k]) {
      AssignmentsOfSnoc(a, n, k);
      assert Books(a, k, steps[k]);
    }
  }

  lemma AssignFit(s: Snapshot, stepId: Id, executor: Executor, executorId: Option<string>, assignmentId: Id)
    requires Base(s)
    ensures ChangeOk(s, AssignChange(s, stepId, executor, executorId, assignmentId))
  {
    hide StepsOk, BooksOk, ClosedOk, OneOpenBinding, LocalOk, DependencyReady, SkillsOpen, ActiveCount, UniqueIds,
      DefOf;
    AssignKnown(s, stepId, executor);
    if AssignmentRefusal(s, stepId, executor).None? {
      var rt := Assigned(s, stepId, executor, executorId, assignmentId);
      AssignSteps(s, stepId, executor, rt.steps[stepId]);
      BooksAssigned(s.rt.assignments, s.rt.steps, rt.assignments[|s.rt.assignments|], rt.steps[stepId]);
      NotClosed(rt, stepId);
    }
  }

  lemma AssignKnown(s: Snapshot, stepId: Id, executor: Executor)
    requires s.rt.steps.Keys == StepIds(s.def.steps)
    ensures AssignmentRefusal(s, stepId, executor).None? ==>
              stepId in s.rt.steps && s.rt.task.status !in {TCompleted, TCancelled}
  {
    hide SkillsOpen, ActiveCount, DependencyReady;
  }

  lemma AssignSteps(s: Snapshot, stepId: Id, executor: Executor, y: StepRuntime)
    requires Base(s) && AssignmentRefusal(s, stepId, executor).None?
    requires y.status == Dispatching && y.attempt == s.rt.steps[stepId].attempt + 1 && y.assignmentId.Some?
    ensures StepsOk(s.def.steps, s.rt.steps[stepId := y])
  {
    hide BooksOk, ClosedOk, OneOpenBinding;
    StepOkAt(s.def.steps, s.rt.steps, stepId);
    UpdateStep(s.def.steps, s.rt.steps, stepId, y);
  }

  lemma NotClosed(rt: Runtime, id: Id)
    requires id in rt.steps && rt.steps[id].status !in {Completed, Cancelled}
    ensures ClosedOk(rt)
  {}

  lemma ChangeFit(s: Snapshot, op: Op)
    requires Base(s) && SingleEvent(op)
    ensures ChangeOk(s, ChangeOf(s, op))
  {
    hide Base, Fit;
    match op
    case TransitionTaskOp(to, why) => TaskFit(s, to, why);
    case PreflightOp(id, p) => PreflightFit(s, id, p);
    case AssignOp(id, executor, executorId, assignmentId) => AssignFit(s, id, executor, executorId, assignmentId);
    case BindOp(assignmentId, session, state, bindingId) => BindFit(s, assignmentId, session, state, bindingId);
    case UpdateBindingOp(bindingId, state) => BindingFit(s, bindingId, state);
    case ProgressOp(id, p, activity, identity) => ProgressFit(s, id, p, activity, identity);
    case ArtifactOp(id, name, artifactId, identity) => ArtifactFit(s, id, name, artifactId, identity);
    case RequestCompletionOp(id, why, identity) => RequestFit(s, id, why, identity);
    case GateFailOp(id, why) => GateFailFit(s, id, why);
  }

  lemma ArtifactFit(s: Snapshot, stepId: Id, name: string, artifactId: Option<Id>, identity: Identity)
    requires Base(s)
    ensures ChangeOk(s, ArtifactChange(s, stepId, name, artifactId, identity))
  {}


  // ----- transitionStep

  /** The new step states of a transition, whose closing of the task is still to come. */
  lemma TransitionSteps(s: Snapshot, stepId: Id, to: StepStatus, reason: Option<string>)
    requires Base(s) && TransitionRefusal(s, stepId, to).None? && to !in {Completed, Verifying}
    ensures var steps := s.rt.steps[stepId := Transitioned(s.rt.steps[stepId], to, reason)];
            StepsOk(s.def.steps, steps) && BooksOk(s.rt.assignments, steps) && !AllCompleted(steps)
  {
    hide OneOpenBinding, ClosedOk, BooksOk, TransitionRefusal, LocalOk, Transitioned, UniqueIds, StepsOk, DefOf,
      DependencyReady, AllCompleted;
    TransitionLocal(s, stepId, to, reason);
    var y := Transitioned(s.rt.steps[stepId], to, reason);
    UpdateStep(s.def.steps, s.rt.steps, stepId, y);
    BooksReplaced(s.rt.assignments, s.rt.steps, stepId, y);
    NotAllCompleted(s.rt.steps, stepId, y);
  }

  lemma NotAllCompleted(steps: map<Id, StepRuntime>, id: Id, y: StepRuntime)
    requires y.status != Completed
    ensures !AllCompleted(steps[id := y])
  {
    assert steps[id := y][id] == y;
  }

  /** A permitted transition keeps the local condition of its step. */
  lemma TransitionLocal(s: Snapshot, stepId: Id, to: StepStatus, reason: Option<string>)
    requires s.rt.steps.Keys == StepIds(s.def.steps) && StepsOk(s.def.steps, s.rt.steps)
    requires TransitionRefusal(s, stepId, to).None? && to !in {Completed, Verifying}
    ensures stepId in s.rt.steps
    ensures var x, y := s.rt.steps[stepId], Transitioned(s.rt.steps[stepId], to, reason);
            && LocalOk(DefOf(s.def.steps, stepId), y, DependencyReady(DefOf(s.def.steps, stepId), s.rt.steps))
            && y.status != Completed && x.status != Completed
            && y.attempt == x.attempt && y.assignmentId == x.assignmentId
  {
    hide ActiveCount, DependencyReady;
    StepOkAt(s.def.steps, s.rt.steps, stepId);
  }

  /** `now` is `rt` up to event numbers, derived fields and the status of the task, which is closed if need be. */
  ghost predicate ClosedFrom(s: Snapshot, rt: Runtime, now: Snapshot) {
    && SnapshotOk(now) && DerivedOk(now) && now.def == s.def && SameSteps(rt.steps, now.rt.steps)
    && now.rt.assignments == rt.assignments && now.rt.bindings == rt.bindings
    && ClosedOk(now.rt)
  }

  lemma CancelShape(s: Snapshot, rt: Runtime, log: seq<Event>, uuid: Uuids)
    requires Sound(log) && SequencesOk(rt, |log|) && StepIds(s.def.steps) <= rt.steps.Keys
    requires rt == RefreshDerived(s.def, rt) && !AllCompleted(rt.steps)
    ensures var r := CancelWhenClosed(s, rt, log, uuid); LogOk(log, r) && (r.Wrote? ==> ClosedFrom(s, rt, r.snap))
  {
    hide SnapshotOk, Append, Sound, TaskProgress, ActiveList;
    var r := CancelWhenClosed(s, rt, log, uuid);
    if rt.task.status != TCancelled && SomeCancelled(rt.steps) && AllClosed(rt.steps) {
      var rt1 := rt.(task := rt.task.(status := TCancelled));
      var input := EventInput(None, None, TaskStateChanged(rt.task.status, TCancelled, Some("all_steps_terminal")),
                              Anonymous);
      AppendKeeps(rt1, log, input, uuid);
      if r.Wrote? {
        DerivedStable(s.def, rt, r.snap.rt);
        SameStepsFacts([], rt1.steps, r.snap.rt.steps);
      }
    }
  }

  lemma ClosedFromInv(s: Snapshot, rt: Runtime, now: Snapshot)
    requires ClosedFrom(s, rt, now) && StepsOk(s.def.steps, rt.steps) && BooksOk(rt.assignments, rt.steps)
    requires OneOpenBinding(rt.bindings)
    ensures SnapInv(now)
  {
    SameStepsFacts(s.def.steps, rt.steps, now.rt.steps);
    hide SnapshotOk, RefreshDerived, StepsOk, BooksOk, ClosedOk, SameSteps;
  }

  lemma TransitionNumbers(s: Snapshot, n: nat, stepId: Id, to: StepStatus, reason: Option<string>)
    requires s.rt.steps.Keys == StepIds(s.def.steps) && SequencesOk(s.rt, n) && TransitionRefusal(s, stepId, to).None?
    ensures stepId in s.rt.steps && SequencesOk(WithStep(s.rt, stepId, Transitioned(s.rt.steps[stepId], to, reason)), n)
  {}

  lemma TransitionGood(s: Snapshot, log: seq<Event>, stepId: Id, to: StepStatus, reason: Option<string>,
                       identity: Identity, uuid: Uuids)
    requires DiskInv(Disk(s, log))
    ensures Good(log, TransitionStep(s, log, stepId, to, reason, identity, uuid))
  {
    hide SnapshotOk, StepsOk, BooksOk, OneOpenBinding, ClosedOk, RefreshDerived, CancelWhenClosed, Settle, Append,
      RequestChange, SequencesOk, Sound, Transitioned, TransitionRefusal, TransitionInput, DerivedOk, Good;
    SnapshotFacts(s);
    HaltedGood(log);
    if to == Verifying {
      RequestFit(s, stepId, reason, identity);
      SettleGood(s, log, RequestChange(s, stepId, reason, identity), uuid);
    } else if to != Completed && TransitionRefusal(s, stepId, to).None? {
      TransitionNoted(s, log, stepId, to, reason, identity, uuid);
    }
  }

  lemma TransitionNoted(s: Snapshot, log: seq<Event>, stepId: Id, to: StepStatus, reason: Option<string>,
                        identity: Identity, uuid: Uuids)
    requires DiskInv(Disk(s, log)) && s.rt.steps.Keys == StepIds(s.def.steps) && UniqueIds(s.def.steps)
    requires TransitionRefusal(s, stepId, to).None? && to !in {Completed, Verifying}
    ensures stepId in s.rt.steps
    ensures var rt := WithStep(s.rt, stepId, Transitioned(s.rt.steps[stepId], to, reason));
            var n := Append(rt, log, TransitionInput(s, stepId, to, reason, identity), uuid); n.Noted? ==>
              && n.rt.steps.Keys == rt.steps.Keys
              && Good(log, CancelWhenClosed(s, RefreshDerived(s.def, n.rt), n.log, uuid))
  {
    hide SnapshotOk, StepsOk, BooksOk, OneOpenBinding, ClosedOk, RefreshDerived, CancelWhenClosed, Append,
      SequencesOk, Sound, Transitioned, TransitionRefusal, TransitionInput, Good;
    TransitionNumbers(s, |log|, stepId, to, reason);
    TransitionSteps(s, stepId, to, reason);
    TailGood(s, log, WithStep(s.rt, stepId, Transitioned(s.rt.steps[stepId], to, reason)),
             TransitionInput(s, stepId, to, reason, identity), uuid);
  }

  lemma TailGood(s: Snapshot, log: seq<Event>, rt: Runtime, input: EventInput, uuid: Uuids)
    requires Sound(log) && SequencesOk(rt, |log|) && rt.steps.Keys == StepIds(s.def.steps)
    requires StepsOk(s.def.steps, rt.steps) && BooksOk(rt.assignments, rt.steps) && OneOpenBinding(rt.bindings)
    requires !AllCompleted(rt.steps)
    ensures var n := Append(rt, log, input, uuid); n.Noted? ==>
              && n.rt.steps.Keys == rt.steps.Keys
              && Good(log, CancelWhenClosed(s, RefreshDerived(s.def, n.rt), n.log, uuid))
  {
    AppendKeeps(rt, log, input, uuid);
    var n := Append(rt, log, input, uuid);
    hide StepsOk, BooksOk, OneOpenBinding, ClosedOk, CancelWhenClosed, Append, Sound, SnapshotOk;
    if n.Noted? {
      var rt1 := RefreshDerived(s.def, n.rt);
      SameStepsFacts([], rt.steps, n.rt.steps);
      CancelShape(s, rt1, n.log, uuid);
      var r := CancelWhenClosed(s, rt1, n.log, uuid);
      if r.Wrote? {
        FitParts(s.def.steps, rt, rt1);
        ClosedFromInv(s, rt1, r.snap);
      }
    }
  }

  lemma FitParts(defs: seq<StepDef>, a: Runtime, b: Runtime)
    requires StepsOk(defs, a.steps) && BooksOk(a.assignments, a.steps) && SameSteps(a.steps, b.steps)
    ensures StepsOk(defs, b.steps) && BooksOk(a.assignments, b.steps)
  {
    SameStepsFacts(defs, a.steps, b.steps);
  }

  // ----- reconcileReadiness

  lemma {:induction false} NothingToReconcile(defs: seq<StepDef>, i: nat, rt: Runtime, log: seq<Event>, uuid: Uuids)
    requires i <= |defs| && StepIds(defs) <= rt.steps.Keys && StepsOk(defs, rt.steps)
    ensures ReconcileFrom(defs, i, rt, log, uuid) == Ran(rt, log)
    decreases |defs| - i
  {
    if i < |defs| {
      assert StepOk(defs[i], rt.steps);
      NothingToReconcile(defs, i + 1, rt, log, uuid);
    }
  }

  /** Readiness is kept up to date as steps complete, so that recomputing it from scratch finds nothing to do:
      no event is appended and the stored snapshot is written back as it was. */
  lemma ReconcileIsIdle(d: Disk, uuid: Uuids)
    requires DiskInv(d)
    ensures Exec(d, ReconcileOp, uuid) == Wrote(d.log, d.snap)
  {
    hide SnapshotOk, StepsOk, BooksOk, ClosedOk, OneOpenBinding, Sound, SequencesOk, ReconcileFrom, RefreshDerived;
    hide AddSteps, TransitionStep, GatePass, Settle, ChangeOf;
    SnapshotFacts(d.snap);
    NothingToReconcile(d.snap.def.steps, 0, d.snap.rt, d.log, uuid);
  }

  // ----- addSteps

  lemma {:induction false} AddedShape(rt: Runtime, log: seq<Event>, additions: seq<StepDef>, i: nat, uuid: Uuids)
    requires Sound(log) && SequencesOk(rt, |log|) && i <= |additions|
    ensures var r := AppendAdded(rt, log, additions, i, uuid);
            log <= r.log && Sound(r.log) && (r.Ran? ==> SameRuntime(rt, r.rt) && SequencesOk(r.rt, |r.log|))
    decreases |additions| - i
  {
    hide Append, Sound, SequencesOk;
    if i < |additions| {
      var input := EventInput(Some(additions[i].stepId), None, StepAdded(additions[i]), Anonymous);
      AppendKeeps(rt, log, input, uuid);
      var n := Append(rt, log, input, uuid);
      if n.Noted? {
        AddedShape(n.rt, n.log, additions, i + 1, uuid);
        var r := AppendAdded(n.rt, n.log, additions, i + 1, uuid);
        if r.Ran? { SameStepsTransitive(rt.steps, n.rt.steps, r.rt.steps); }
      }
    }
  }

  lemma {:induction false} NoAssignments(a: seq<Assignment>, id: Id)
    requires forall x :: x in a ==> x.stepId != id
    ensures AssignmentsOf(a, id) == []
  {
    if a != [] { NoAssignments(a[..|a|-1], id); }
  }

  /** The step states after new ones were added: the old ones unchanged, the new ones initial. */
  predicate Extended(old_: seq<StepDef>, was: map<Id, StepRuntime>, additions: seq<StepDef>,
                     now: map<Id, StepRuntime>) {
    && now == was + InitialSteps(additions, CompletedIds(was))
    && was.Keys == StepIds(old_) && UniqueIds(additions)
    && StepIds(old_) !! StepIds(additions)
  }

  lemma ExtendedFacts(defs: seq<StepDef>, was: map<Id, StepRuntime>, additions: seq<StepDef>)
    requires was.Keys == StepIds(defs) && UniqueIds(defs + additions)
    ensures Extended(defs, was, additions, was + InitialSteps(additions, CompletedIds(was)))
    ensures StepIds(defs + additions) == StepIds(defs) + StepIds(additions)
  {
    var all := defs + additions;
    forall a, b | 0 <= a < b < |additions| ensures additions[a].stepId != additions[b].stepId {
      assert all[|defs| + a] == additions[a] && all[|defs| + b] == additions[b];
    }
    forall i, j | 0 <= i < |defs| && 0 <= j < |additions| ensures defs[i].stepId != additions[j].stepId {
      assert all[i] == defs[i] && all[|defs| + j] == additions[j];
    }
  }

  lemma AddedKeys(defs: seq<StepDef>, was: map<Id, StepRuntime>, additions: seq<StepDef>, now: map<Id, StepRuntime>)
    requires was.Keys == StepIds(defs) && now == was + InitialSteps(additions, CompletedIds(was))
    ensures now.Keys == StepIds(defs + additions)
  {}

  lemma NewReadiness(defs: seq<StepDef>, was: map<Id, StepRuntime>, additions: seq<StepDef>, now: map<Id, StepRuntime>,
                     x: StepDef)
    requires Extended(defs, was, additions, now)
    ensures DependencyReady(x, now) <==> DependencyReady(x, was)
    ensures DependencyReady(x, now) <==> forall d :: d in x.dependsOn ==> d in CompletedIds(was)
  {
    assert forall id :: id in now && id !in was ==> now[id].status in {Ready, WaitingDependency};
    assert forall id :: id in was ==> id in now && now[id] == was[id];
  }

  lemma AddedSteps(defs: seq<StepDef>, was: map<Id, StepRuntime>, additions: seq<StepDef>, now: map<Id, StepRuntime>)
    requires Extended(defs, was, additions, now) && StepsOk(defs, was)
    requires forall x :: x in additions ==> StepDefOk(x)
    ensures StepsOk(defs + additions, now)
  {
    forall x | x in defs + additions ensures StepOk(x, now) {
      NewReadiness(defs, was, additions, now, x);
      if x in defs {
        assert StepOk(x, was);
      } else {
        var j :| 0 <= j < |additions| && additions[j] == x;
        DefOfIndex(additions, j);
      }
    }
  }

  lemma AddedBooks(defs: seq<StepDef>, was: map<Id, StepRuntime>, additions: seq<StepDef>, now: map<Id, StepRuntime>,
                   a: seq<Assignment>)
    requires Extended(defs, was, additions, now) && BooksOk(a, was)
    requires forall x :: x in a ==> x.stepId in StepIds(defs)
    ensures BooksOk(a, now) && (additions != [] ==> !AllClosed(now))
  {
    forall id | id in now ensures Books(a, id, now[id]) {
      if id in was { assert Books(a, id, was[id]); }
      else { NoAssignments(a, id); }
    }
    if additions != [] {
      var id := additions[0].stepId;
      assert id in StepIds(additions);
      assert now[id].status in {Ready, WaitingDependency};
    }
  }

  lemma AddedFit(s: Snapshot, additions: seq<StepDef>, rt: Runtime)
    requires Base(s) && UniqueIds(s.def.steps + additions) && additions != []
    requires forall x :: x in additions ==> StepDefOk(x)
    requires forall x :: x in s.rt.assignments ==> x.stepId in StepIds(s.def.steps)
    requires rt.steps == s.rt.steps + InitialSteps(additions, CompletedIds(s.rt.steps))
    requires rt.assignments == s.rt.assignments && rt.bindings == s.rt.bindings
    ensures Fit(s.def.steps + additions, rt)
  {
    hide StepsOk, BooksOk, OneOpenBinding, InitialSteps, UniqueIds, StepIds;
    ExtendedFacts(s.def.steps, s.rt.steps, additions);
    AddedSteps(s.def.steps, s.rt.steps, additions, rt.steps);
    AddedBooks(s.def.steps, s.rt.steps, additions, rt.steps, s.rt.assignments);
  }

  lemma AddedWrite(s: Snapshot, log: seq<Event>, def: Workflow, rt: Runtime, additions: seq<StepDef>, uuid: Uuids)
    requires Sound(log) && SequencesOk(rt, |log|) && rt.steps.Keys == StepIds(def.steps)
    requires (forall x :: x in def.steps ==> StepDefOk(x)) ==> Fit(def.steps, rt)
    ensures match AppendAdded(rt, log, additions, 0, uuid)
            case Stopped(log') => log <= log' && Sound(log')
            case Ran(rt', log') => Good(log, Write(s, def, RefreshDerived(def, rt'), log'))
  {
    AddedShape(rt, log, additions, 0, uuid);
    hide AppendAdded, Sound, ValidDag, RuntimeOk;
    var n := AppendAdded(rt, log, additions, 0, uuid);
    if n.Ran? {
      var r := Write(s, def, RefreshDerived(def, n.rt), n.log);
      if r.Wrote? { FitLike(def.steps, rt, r.snap.rt); }
    }
  }

  lemma AddStepsGood(s: Snapshot, log: seq<Event>, additions: seq<StepDef>, uuid: Uuids)
    requires DiskInv(Disk(s, log))
    ensures Good(log, AddSteps(s, log, additions, uuid))
  {
    hide SequencesOk, Sound, AppendAdded, Write, Good, Fit, ValidDag, DefinitionFieldsOk, TaskProgress, ActiveList;
    HaltedGood(log);
    WroteGood(s, log);
    SnapshotBase(s);
    if additions != [] && s.rt.task.status !in {TCompleted, TCancelled} && UniqueIds(s.def.steps + additions) {
      var def := s.def.(revision := s.def.revision + 1, steps := s.def.steps + additions);
      ExtendedFacts(s.def.steps, s.rt.steps, additions);
      var rt := RefreshDerived(def, s.rt.(steps := s.rt.steps + InitialSteps(additions, CompletedIds(s.rt.steps))));
      AddedNumbers(s.rt, |log|, additions, rt);
      if forall x :: x in def.steps ==> StepDefOk(x) { AddedFit(s, additions, rt); }
      AddedWrite(s, log, def, rt, additions, uuid);
      StoppedGood(log);
    }
  }

  lemma SnapshotBase(s: Snapshot)
    requires SnapInv(s)
    ensures Base(s) && forall x :: x in s.rt.assignments ==> x.stepId in StepIds(s.def.steps)
  {}

  lemma AddedNumbers(was: Runtime, n: nat, additions: seq<StepDef>, rt: Runtime)
    requires SequencesOk(was, n) && rt.task.lastEventSequence == was.task.lastEventSequence
    requires rt.steps == was.steps + InitialSteps(additions, CompletedIds(was.steps))
    ensures SequencesOk(rt, n)
  {}

  lemma StoppedGood(log: seq<Event>)
    ensures forall log', why :: log <= log' && Sound(log') ==> Good(log, Halted(log', why))
  {}

  lemma WroteGood(s: Snapshot, log: seq<Event>)
    requires DiskInv(Disk(s, log))
    ensures Good(log, Wrote(log, s))
  {}

  // ----- gatePassed

  /** The step state a promotion of every freed step gives to one step, up to event numbers. */
  predicate Promoted(step: StepDef, was: map<Id, StepRuntime>, now: map<Id, StepRuntime>)
    requires step.stepId in was && step.stepId in now
  {
    var x := was[step.stepId];
    Like(if Promotable(step, was) then x.(status := Ready) else x, now[step.stepId])
  }

  ghost predicate PromotedFrom(defs: seq<StepDef>, i: nat, was: map<Id, StepRuntime>, now: map<Id, StepRuntime>) {
    && now.Keys == was.Keys && StepIds(defs) <= was.Keys
    && (forall j :: 0 <= j < i && j < |defs| ==>
          defs[j].stepId in was && Like(was[defs[j].stepId], now[defs[j].stepId]))
    && (forall j :: i <= j < |defs| ==> defs[j].stepId in was && Promoted(defs[j], was, now))
  }

  lemma PromotedSkip(defs: seq<StepDef>, i: nat, was: map<Id, StepRuntime>, now: map<Id, StepRuntime>)
    requires PromotedFrom(defs, i + 1, was, now) && i < |defs| && !Promotable(defs[i], was)
    ensures PromotedFrom(defs, i, was, now)
  {}

  lemma PromotedStep(defs: seq<StepDef>, i: nat, was: map<Id, StepRuntime>, mid: map<Id, StepRuntime>,
                     now: map<Id, StepRuntime>)
    requires UniqueIds(defs) && i < |defs| && StepIds(defs) <= was.Keys && defs[i].stepId in was
    requires Promotable(defs[i], was)
    requires SameSteps(was[defs[i].stepId := was[defs[i].stepId].(status := Ready)], mid)
    requires PromotedFrom(defs, i + 1, mid, now)
    ensures PromotedFrom(defs, i, was, now)
  {
    var id := defs[i].stepId;
    assert forall k :: k in was ==> k in mid && (k != id ==> Like(was[k], mid[k]));
    assert Like(was[id].(status := Ready), mid[id]);
    forall s ensures DependencyReady(s, was) == DependencyReady(s, mid) {}
    forall j | 0 <= j < i ensures defs[j].stepId in was && Like(was[defs[j].stepId], now[defs[j].stepId]) {
      assert defs[j].stepId != id && Like(mid[defs[j].stepId], now[defs[j].stepId]);
    }
    forall j | i <= j < |defs| ensures defs[j].stepId in was && Promoted(defs[j], was, now) {
      if j == i { assert Like(mid[id], now[id]); }
      else { assert defs[j].stepId != id && Promoted(defs[j], mid, now); }
    }
  }

  /** Everything but step states and event numbers. */
  predicate SameRest(a: Runtime, b: Runtime) {
    && b.assignments == a.assignments && b.bindings == a.bindings
    && b.task == a.task.(lastEventSequence := b.task.lastEventSequence)
  }

  lemma {:induction false} PromoteShape(defs: seq<StepDef>, i: nat, rt: Runtime, log: seq<Event>, uuid: Uuids)
    requires UniqueIds(defs) && i <= |defs| && StepIds(defs) <= rt.steps.Keys && Sound(log) && SequencesOk(rt, |log|)
    ensures var r := PromoteFrom(defs, i, rt, log, uuid);
            log <= r.log && Sound(r.log) &&
            (r.Ran? ==> PromotedFrom(defs, i, rt.steps, r.rt.steps) && SameRest(rt, r.rt) && SequencesOk(r.rt, |r.log|))
    decreases |defs| - i
  {
    hide Append, Sound, DependencyReady;
    assert forall j :: 0 <= j < |defs| ==> defs[j].stepId in StepIds(defs);
    if i < |defs| {
      if !Promotable(defs[i], rt.steps) {
        PromoteShape(defs, i + 1, rt, log, uuid);
        var r := PromoteFrom(defs, i + 1, rt, log, uuid);
        if r.Ran? { PromotedSkip(defs, i, rt.steps, r.rt.steps); }
      } else {
        PromoteOne(defs, i, rt, log, uuid);
      }
    }
  }

  lemma PromoteOne(defs: seq<StepDef>, i: nat, rt: Runtime, log: seq<Event>, uuid: Uuids)
    requires UniqueIds(defs) && i < |defs| && StepIds(defs) <= rt.steps.Keys && Sound(log) && SequencesOk(rt, |log|)
    requires defs[i].stepId in rt.steps && Promotable(defs[i], rt.steps)
    ensures var r := PromoteFrom(defs, i, rt, log, uuid);
            log <= r.log && Sound(r.log) &&
            (r.Ran? ==> PromotedFrom(defs, i, rt.steps, r.rt.steps) && SameRest(rt, r.rt) && SequencesOk(r.rt, |r.log|))
    decreases |defs| - i, 0
  {
    hide Append, Sound, DependencyReady, PromotedFrom, UniqueIds, StepIds;
    var id := defs[i].stepId;
    var rt0 := WithStep(rt, id, rt.steps[id].(status := Ready));
    var input := EventInput(Some(id), None, StepStateChanged(WaitingDependency, Ready, Some("dependency_completed")),
                            Anonymous);
    AppendKeeps(rt0, log, input, uuid);
    var n := Append(rt0, log, input, uuid);
    if n.Noted? {
      PromoteShape(defs, i + 1, n.rt, n.log, uuid);
      var r := PromoteFrom(defs, i + 1, n.rt, n.log, uuid);
      if r.Ran? { PromotedStep(defs, i, rt.steps, n.rt.steps, r.rt.steps); }
    }
  }

  /** Completing a verifying step and promoting the steps it freed keeps every local condition. */
  lemma PassedSteps(s: Snapshot, stepId: Id, mid: map<Id, StepRuntime>, now: map<Id, StepRuntime>)
    requires Base(s) && stepId in s.rt.steps && s.rt.steps[stepId].status == Verifying
    requires SameSteps(s.rt.steps[stepId := Passed(s.rt.steps[stepId])], mid)
    requires PromotedFrom(s.def.steps, 0, mid, now)
    ensures StepsOk(s.def.steps, now) && BooksOk(s.rt.assignments, now)
  {
    hide OneOpenBinding, ClosedOk, UniqueIds, Books, DependencyReady, LocalOk, BooksOk;
    CompletedThroughPromotion(s.def.steps, mid, now);
    ReadyAfterPass(s.rt.steps, stepId, mid);
    forall j | 0 <= j < |s.def.steps| ensures StepOk(s.def.steps[j], now) {
      assert StepOk(s.def.steps[j], s.rt.steps);
      assert Promoted(s.def.steps[j], mid, now);
      PassedStep(s.def.steps[j], s.rt.steps, stepId, mid, now);
    }
    PassedBooks(s, stepId, mid, now);
  }

  lemma ReadyAfterPass(was: map<Id, StepRuntime>, stepId: Id, mid: map<Id, StepRuntime>)
    requires stepId in was && was[stepId].status == Verifying && SameSteps(was[stepId := Passed(was[stepId])], mid)
    ensures forall x :: DependencyReady(x, was) ==> DependencyReady(x, mid)
  {
    assert forall k :: k in was ==> k in mid && (k != stepId ==> Like(was[k], mid[k]));
    assert Like(Passed(was[stepId]), mid[stepId]);
  }

  lemma PassedStep(x: StepDef, was: map<Id, StepRuntime>, stepId: Id, mid: map<Id, StepRuntime>,
                   now: map<Id, StepRuntime>)
    requires StepOk(x, was) && stepId in was && was[stepId].status == Verifying
    requires SameSteps(was[stepId := Passed(was[stepId])], mid) && now.Keys == mid.Keys
    requires x.stepId in mid && Promoted(x, mid, now) && DependencyReady(x, now) == DependencyReady(x, mid)
    requires DependencyReady(x, was) ==> DependencyReady(x, mid)
    ensures StepOk(x, now)
  {
    hide DependencyReady;
    var k := x.stepId;
    assert k in was && Like(if k == stepId then Passed(was[k]) else was[k], mid[k]);
  }

  lemma PassedBooks(s: Snapshot, stepId: Id, mid: map<Id, StepRuntime>, now: map<Id, StepRuntime>)
    requires s.rt.steps.Keys == StepIds(s.def.steps) && BooksOk(s.rt.assignments, s.rt.steps) && stepId in s.rt.steps
    requires SameSteps(s.rt.steps[stepId := Passed(s.rt.steps[stepId])], mid)
    requires PromotedFrom(s.def.steps, 0, mid, now)
    ensures BooksOk(s.rt.assignments, now)
  {
    hide AssignmentsOf, DependencyReady;
    var was, defs := s.rt.steps, s.def.steps;
    forall k | k in now ensures Books(s.rt.assignments, k, now[k]) {
      assert Books(s.rt.assignments, k, was[k]);
      var j :| 0 <= j < |defs| && defs[j].stepId == k;
      assert Promoted(defs[j], mid, now);
      assert Like(if k == stepId then Passed(was[k]) else was[k], mid[k]);
    }
  }

  lemma CompletedThroughPromotion(defs: seq<StepDef>, mid: map<Id, StepRuntime>, now: map<Id, StepRuntime>)
    requires PromotedFrom(defs, 0, mid, now) && mid.Keys == StepIds(defs)
    ensures forall k :: k in mid ==> (now[k].status == Completed <==> mid[k].status == Completed)
    ensures forall x :: DependencyReady(x, now) == DependencyReady(x, mid)
  {
    forall k | k in mid ensures now[k].status == Completed <==> mid[k].status == Completed {
      var j :| 0 <= j < |defs| && defs[j].stepId == k;
      assert Promoted(defs[j], mid, now);
    }
  }

  lemma CloseShape(s: Snapshot, rt: Runtime, log: seq<Event>, uuid: Uuids)
    requires Sound(log) && SequencesOk(rt, |log|) && StepIds(s.def.steps) <= rt.steps.Keys
    ensures var r := CloseTask(s, rt, log, uuid); LogOk(log, r) && (r.Wrote? ==> ClosedFrom(s, rt, r.snap))
  {
    hide SnapshotOk, Sound, Append, TaskProgress, ActiveList;
    var r := CloseTask(s, rt, log, uuid);
    if AllClosed(rt.steps) {
      var to := if rt.steps.Keys != {} && AllCompleted(rt.steps) then TCompleted else TCancelled;
      var body := if to == TCompleted then TaskCompleted(IdList(s.def.steps))
                  else TaskStateChanged(rt.task.status, TCancelled, Some("all_steps_terminal"));
      var rt1 := rt.(task := rt.task.(status := to));
      AppendKeeps(rt1, log, EventInput(None, None, body, Anonymous), uuid);
      if r.Wrote? { SameStepsFacts([], rt1.steps, r.snap.rt.steps); }
    }
  }

  lemma GatePassGood(s: Snapshot, log: seq<Event>, stepId: Id, e: Evidence, uuid: Uuids)
    requires DiskInv(Disk(s, log))
    ensures Good(log, GatePass(s, log, stepId, e, uuid))
  {
    hide SnapshotOk, Sound, SequencesOk, Fit, DerivedOk, Good, Append, PromoteFrom, CloseTask, Passed;
    HaltedGood(log);
    StoppedGood(log);
    SnapshotBase(s);
    if GateRefusal(s, log, stepId, e).None? {
      GateNoted(s, log, stepId, e, uuid);
    }
  }

  /** What remains of a passed gate after its own event keeps the invariant. */
  ghost predicate GateEnds(s: Snapshot, log: seq<Event>, rt: Runtime, log': seq<Event>, uuid: Uuids)
    requires StepIds(s.def.steps) <= rt.steps.Keys
  {
    match PromoteFrom(s.def.steps, 0, rt, log', uuid)
    case Stopped(log'') => log <= log'' && Sound(log'')
    case Ran(rt', log'') => Good(log, CloseTask(s, rt', log'', uuid))
  }

  lemma GateNoted(s: Snapshot, log: seq<Event>, stepId: Id, e: Evidence, uuid: Uuids)
    requires DiskInv(Disk(s, log)) && Base(s) && GateRefusal(s, log, stepId, e).None?
    ensures stepId in s.rt.steps
    ensures var n := Append(WithStep(s.rt, stepId, Passed(s.rt.steps[stepId])), log,
                            EventInput(Some(stepId), s.rt.steps[stepId].assignmentId, GatePassed(e), Anonymous), uuid);
            n.Noted? ==> StepIds(s.def.steps) <= n.rt.steps.Keys && GateEnds(s, log, n.rt, n.log, uuid)
  {
    hide SnapshotOk, Fit, DerivedOk, Append, PromoteFrom, CloseTask, Sound, UniqueIds, StepIds, PromotedFrom;
    var rt := WithStep(s.rt, stepId, Passed(s.rt.steps[stepId]));
    var input := EventInput(Some(stepId), s.rt.steps[stepId].assignmentId, GatePassed(e), Anonymous);
    AppendKeeps(rt, log, input, uuid);
    var n := Append(rt, log, input, uuid);
    if n.Noted? {
      GateTail(s, log, stepId, n.rt, n.log, uuid);
    }
  }

  lemma GateTail(s: Snapshot, log: seq<Event>, stepId: Id, rt: Runtime, log': seq<Event>, uuid: Uuids)
    requires Base(s) && stepId in s.rt.steps && s.rt.steps[stepId].status == Verifying
    requires Sound(log') && SequencesOk(rt, |log'|) && log <= log'
    requires SameRuntime(WithStep(s.rt, stepId, Passed(s.rt.steps[stepId])), rt)
    ensures StepIds(s.def.steps) <= rt.steps.Keys
    ensures GateEnds(s, log, rt, log', uuid)
  {
    hide SnapshotOk, StepsOk, BooksOk, ClosedOk, PromoteFrom, CloseTask, Sound, SequencesOk, UniqueIds, StepIds, Passed,
      DerivedOk;
    PromoteShape(s.def.steps, 0, rt, log', uuid);
    var p := PromoteFrom(s.def.steps, 0, rt, log', uuid);
    if p.Ran? {
      PassedSteps(s, stepId, rt.steps, p.rt.steps);
      CloseShape(s, p.rt, p.log, uuid);
      var r := CloseTask(s, p.rt, p.log, uuid);
      if r.Wrote? { ClosedFromInv(s, p.rt, r.snap); }
    }
  }

  // ----- every call, every run

  lemma ExecGood(d: Disk, op: Op, uuid: Uuids)
    requires DiskInv(d)
    ensures Good(d.log, Exec(d, op, uuid))
  {
    hide SnapshotOk, DerivedOk, Fit, Sound, SequencesOk, Good, AddSteps, ReconcileReadiness, TransitionStep, GatePass,
      Settle, ChangeOf;
    SnapshotBase(d.snap);
    HaltedGood(d.log);
    match op
    case AddStepsOp(additions) => AddStepsGood(d.snap, d.log, additions, uuid);
    case ReconcileOp => ReconcileIsIdle(d, uuid); WroteGood(d.snap, d.log);
    case TransitionStepOp(id, to, why, identity) => TransitionGood(d.snap, d.log, id, to, why, identity, uuid);
    case GatePassOp(id, evidence) => GatePassGood(d.snap, d.log, id, evidence, uuid);
    case _ =>
      ChangeFit(d.snap, op);
      SettleGood(d.snap, d.log, ChangeOf(d.snap, op), uuid);
  }
}
