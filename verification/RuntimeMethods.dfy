/** The runtime of one task (execution-runtime/runtime.ts): each method computes an operation of Engine.dfy by the
    steps of the source, on the stored snapshot and the event file. A file that does not parse into a sound
    sequence of events is found out at different points by different operations, so nothing is said about it
    beyond what each method needs; Invariants.dfy shows that no run produces one. */
module RuntimeMethods {
  import opened Wrappers
  import opened Contracts
  import opened StateMachine
  import opened Dag
  import opened Scheduler
  import opened EventLedger
  import opened Store
  import opened Engine
  import opened Operations

  type State = Runtime

  ghost predicate Did(was: Disk, r: Result, now: Disk, why: Option<Refusal>) {
    now == After(was, r) && why == (if r.Halted? then Some(r.why) else None)
  }

  function AsNoted(now: Option<State>, log: seq<Event>): Noted {
    if now.None? then Refused else Noted(now.value, log)
  }

  lemma ExecSingle(d: Disk, op: Op, uuid: Uuids)
    requires SingleEvent(op)
    ensures SnapshotOk(d.snap) ==> d.snap.rt.steps.Keys == StepIds(d.snap.def.steps)
    ensures SnapshotOk(d.snap) && Sound(d.log) ==>
              Exec(d, op, uuid) == Settle(d.snap, d.log, ChangeOf(d.snap, op), uuid)
    ensures !SnapshotOk(d.snap) ==> Exec(d, op, uuid) == Halted(d.log, CorruptStore)
  {
    hide ValidDag, DefinitionFieldsOk, Sound, Settle, ChangeOf;
  }

  lemma ExecSeveral(d: Disk, op: Op, uuid: Uuids)
    ensures SnapshotOk(d.snap) ==> d.snap.rt.steps.Keys == StepIds(d.snap.def.steps) && d.snap.def.maxParallelSteps >= 1
                                   && ValidDag(d.snap.def.steps)
    ensures SnapshotOk(d.snap) && Sound(d.log) ==>
              (op.AddStepsOp? ==> Exec(d, op, uuid) == Engine.AddSteps(d.snap, d.log, op.additions, uuid))
              && (op.ReconcileOp? ==> Exec(d, op, uuid) == Engine.ReconcileReadiness(d.snap, d.log, uuid))
              && (op.TransitionStepOp? ==>
                    Exec(d, op, uuid)
                      == Engine.TransitionStep(d.snap, d.log, op.stepId, op.to, op.why, op.identity, uuid))
              && (op.GatePassOp? ==> Exec(d, op, uuid) == GatePass(d.snap, d.log, op.stepId, op.evidence, uuid))
    ensures !SnapshotOk(d.snap) ==> Exec(d, op, uuid) == Halted(d.log, CorruptStore)
  {
    hide ValidDag, Sound, Engine.AddSteps, Engine.ReconcileReadiness, Engine.TransitionStep, GatePass;
  }

  class ExecutionRuntime {
    const store: ExecutionStore

    ghost function OnDisk(): Disk reads store, store.events { Disk(store.snapshot, store.events.lines) }

    constructor (store: ExecutionStore)
      ensures this.store == store
    {
      this.store := store;
    }

    // ----- appendEvent, and the lines that end most operations

    method AppendEvent(rt: State, input: EventInput, uuid: Uuids) returns (now: Option<State>)
      modifies store.events
      ensures Sound(old(store.events.lines)) ==>
                AsNoted(now, store.events.lines) == Engine.Append(rt, old(store.events.lines), input, uuid)
                && Sound(store.events.lines)
      ensures now.None? ==> store.events.lines == old(store.events.lines)
      ensures now.Some? ==> now.value.steps.Keys == rt.steps.Keys
    {
      var log := store.events.Read();
      if log.None? { return None; }
      if input.identity.eventId.Some? {
        var existing := Find(log.value, input.identity.eventId.value);
        if existing.Some? {
          if !SameContent(existing.value, input) { return None; }
          var n := existing.value.sequence;
          return Some(Stamp(rt, input.stepId, Max(rt.task.lastEventSequence, n),
                            Max(StepSequence(rt, input.stepId), n)));
        }
      }
      var sequence := |log.value| + 1;
      var id := if input.identity.eventId.Some? then input.identity.eventId.value else uuid(sequence);
      var outcome := store.events.Append(
        Event(id, sequence, input.stepId, input.assignmentId, input.body, input.identity.report));
      if outcome != Appended { return None; }
      now := Some(Stamp(rt, input.stepId, sequence, sequence));
    }

    method Finish(s: Snapshot, def: Workflow, rt: State) returns (why: Option<Refusal>)
      requires SnapshotOk(s) && s == store.snapshot
      modifies store`snapshot
      ensures Did(old(OnDisk()), Engine.Write(s, def, rt, store.events.lines), OnDisk(), why)
    {
      var ok := store.WriteSnapshot(def, rt);
      why := if ok then None else Some(SnapshotRefused);
    }

    method Commit(s: Snapshot, rt: State, input: EventInput, uuid: Uuids) returns (why: Option<Refusal>)
      requires SnapshotOk(s) && s == store.snapshot && StepIds(s.def.steps) <= rt.steps.Keys
      modifies store`snapshot, store.events
      ensures Sound(old(store.events.lines)) ==>
                Did(old(OnDisk()), Engine.Commit(s, old(store.events.lines), rt, input, uuid), OnDisk(), why)
    {
      var recorded := AppendEvent(rt, input, uuid);
      if recorded.None? { return Some(EventRefused); }
      why := Finish(s, s.def, RefreshDerived(s.def, recorded.value));
    }

    // ----- createTask

    /** `null` stands for a definition the store refuses to initialise a task with. */
    static method CreateTask(def: Workflow, uuid: Uuids) returns (runtime: ExecutionRuntime?, why: Option<Refusal>)
      ensures runtime == null <==> !Creatable(def)
      ensures runtime != null ==>
                && fresh(runtime) && fresh(runtime.store) && fresh(runtime.store.events)
                && Did(Disk(InitialSnapshot(def), []), Engine.CreateTask(def, uuid), runtime.OnDisk(), why)
                && runtime.OnDisk() == Born(def, uuid, Whole)
    {
      var s := InitialSnapshot(def);
      var store := new ExecutionStore(s);
      var ok := store.CheckSnapshot(s);
      if !ok || def.revision != 1 { return null, Some(InvalidDefinition); }
      runtime := new ExecutionRuntime(store);
      var recorded := runtime.AppendEvent(s.rt, CreatedInput(def), uuid);
      if recorded.None? { return runtime, Some(EventRefused); }
      why := runtime.Finish(s, def, recorded.value);
    }

    // ----- addSteps

    method AddSteps(additions: seq<StepDef>, uuid: Uuids) returns (why: Option<Refusal>)
      modifies store`snapshot, store.events
      ensures Sound(old(store.events.lines)) ==>
                Did(old(OnDisk()), Exec(old(OnDisk()), AddStepsOp(additions), uuid), OnDisk(), why)
    {
      hide Exec, ValidDag, DefinitionFieldsOk, Sound, TaskProgress, ActiveList, InitialSteps, DistinctAssignments,
        DistinctBindings, Engine.Append, UniqueIds, Write;
      ExecSeveral(OnDisk(), AddStepsOp(additions), uuid);
      var loaded := store.LoadSnapshot();
      if loaded.None? { return Some(CorruptStore); }
      var s := loaded.value;
      if additions == [] { return None; }
      if s.rt.task.status in {TCompleted, TCancelled} { return Some(TaskIsTerminal); }
      if !UniqueIds(s.def.steps + additions) { return Some(StepExists); }
      var def := s.def.(revision := s.def.revision + 1, steps := s.def.steps + additions);
      AddedKeys(s.def.steps, s.rt.steps, additions, s.rt.steps + InitialSteps(additions, CompletedIds(s.rt.steps)));
      var rt := RefreshDerived(def, s.rt.(steps := s.rt.steps + InitialSteps(additions, CompletedIds(s.rt.steps))));
      ghost var log0, rt0 := store.events.lines, rt;
      for i := 0 to |additions|
        invariant rt.steps.Keys == rt0.steps.Keys && store.snapshot == s
        invariant Sound(log0) ==> Sound(store.events.lines)
        invariant Sound(log0) ==>
          Engine.AppendAdded(rt0, log0, additions, 0, uuid)
            == Engine.AppendAdded(rt, store.events.lines, additions, i, uuid)
      {
        var step := additions[i];
        var recorded := AppendEvent(rt, EventInput(Some(step.stepId), None, StepAdded(step), Anonymous), uuid);
        if recorded.None? { return Some(EventRefused); }
        rt := recorded.value;
      }
      why := Finish(s, def, RefreshDerived(def, rt));
    }

    // ----- transitionTask

    method TransitionTask(to: TaskStatus, reason: Option<string>, uuid: Uuids) returns (why: Option<Refusal>)
      modifies store`snapshot, store.events
      ensures Sound(old(store.events.lines)) ==>
                Did(old(OnDisk()), Exec(old(OnDisk()), TransitionTaskOp(to, reason), uuid), OnDisk(), why)
    {
      hide Exec, SnapshotOk, Sound, Engine.Commit;
      ExecSingle(OnDisk(), TransitionTaskOp(to, reason), uuid);
      var loaded := store.LoadSnapshot();
      if loaded.None? { return Some(CorruptStore); }
      var s := loaded.value;
      var from := s.rt.task.status;
      if !ValidTaskTransition(from, to) { return Some(IllegalTaskTransition); }
      var blockers := if to == TBlocked && reason.Some? then [reason.value] else s.rt.task.blockers;
      var rt := s.rt.(task := s.rt.task.(status := to, blockers := blockers));
      why := Commit(s, rt, EventInput(None, None, TaskStateChanged(from, to, reason), Anonymous), uuid);
    }

    // ----- reconcileReadiness

    /** The loop over the definition; `None` when an append is refused. */
    method ReconcileSteps(defs: seq<StepDef>, rt0: State, uuid: Uuids) returns (now: Option<State>)
      requires StepIds(defs) <= rt0.steps.Keys
      modifies store.events
      ensures Sound(old(store.events.lines)) ==>
                (if now.None? then Stopped(store.events.lines) else Ran(now.value, store.events.lines))
                  == Engine.ReconcileFrom(defs, 0, rt0, old(store.events.lines), uuid)
      ensures Sound(old(store.events.lines)) ==> Sound(store.events.lines)
      ensures now.Some? ==> now.value.steps.Keys == rt0.steps.Keys
    {
      hide Sound, Engine.Append, DependencyReady;
      var rt := rt0;
      ghost var log0 := store.events.lines;
      for i := 0 to |defs|
        invariant rt.steps.Keys == rt0.steps.Keys
        invariant Sound(log0) ==> Sound(store.events.lines)
        invariant Sound(log0) ==>
          Engine.ReconcileFrom(defs, 0, rt0, log0, uuid) == Engine.ReconcileFrom(defs, i, rt, store.events.lines, uuid)
      {
        var id := defs[i].stepId;
        assert id in StepIds(defs);
        var current := rt.steps[id];
        if current.status != Pending && current.status != WaitingDependency { continue; }
        var next := if DependencyReady(defs[i], rt.steps) then Ready else WaitingDependency;
        if next == current.status { continue; }
        rt := rt.(steps := rt.steps[id := current.(status := next)]);
        var input := EventInput(Some(id), None, StepStateChanged(current.status, next, Some("dependency_reconcile")),
                                Anonymous);
        var recorded := AppendEvent(rt, input, uuid);
        if recorded.None? { return None; }
        rt := recorded.value;
      }
      now := Some(rt);
    }

    method ReconcileReadiness(uuid: Uuids) returns (why: Option<Refusal>, plan: SchedulePlan)
      modifies store`snapshot, store.events
      ensures Sound(old(store.events.lines)) ==>
                Did(old(OnDisk()), Exec(old(OnDisk()), ReconcileOp, uuid), OnDisk(), why)
      ensures why.None? ==>
                var s := store.snapshot;
                plan.valid && plan.dispatchable == Dispatchable(s.def.steps, s.rt.steps, s.def.maxParallelSteps)
    {
      hide Exec, SnapshotOk, ValidDag, Sound, TaskProgress, ActiveList, Engine.Append, Engine.ReconcileFrom,
        DependencyReady, Dispatchable, ActiveCount;
      ExecSeveral(OnDisk(), ReconcileOp, uuid);
      plan := NoPlan;
      var loaded := store.LoadSnapshot();
      if loaded.None? { return Some(CorruptStore), plan; }
      var s := loaded.value;
      var now := ReconcileSteps(s.def.steps, s.rt, uuid);
      if now.None? { return Some(EventRefused), plan; }
      var rt := RefreshDerived(s.def, now.value);
      why := Finish(s, s.def, rt);
      if why.None? { plan := PlanExecutionSchedule(s.def.steps, rt.steps, Some(s.def.maxParallelSteps)); }
    }

    // ----- recordSkillPreflight

    method RecordSkillPreflight(stepId: Id, p: SkillPreflight, uuid: Uuids) returns (why: Option<Refusal>)
      modifies store`snapshot, store.events
      ensures Sound(old(store.events.lines)) ==>
                Did(old(OnDisk()), Exec(old(OnDisk()), PreflightOp(stepId, p), uuid), OnDisk(), why)
    {
      hide Exec, SnapshotOk, Sound, Engine.Commit;
      ExecSingle(OnDisk(), PreflightOp(stepId, p), uuid);
      var loaded := store.LoadSnapshot();
      if loaded.None? { return Some(CorruptStore); }
      var s := loaded.value;
      if stepId !in s.rt.steps { return Some(StepNotFound); }
      var step, x := DefOf(s.def.steps, stepId), s.rt.steps[stepId];
      if step.requiredSkills != p.requiredSkills || step.optionalSkills != p.optionalSkills {
        return Some(SkillContractMismatch);
      }
      if p.state == SkillsReady && |p.missingRequiredSkills| > 0 { return Some(SkillsNotReady); }
      var blocker := x.blocker;
      if |p.missingRequiredSkills| > 0 {
        blocker := Some(MissingSkills(p.missingRequiredSkills));
      } else if blocker.Some? && blocker.value.MissingSkills? {
        blocker := None;
      }
      var rt := s.rt.(steps := s.rt.steps[stepId := x.(skillPreflight := Some(p), blocker := blocker)]);
      why := Commit(s, rt, EventInput(Some(stepId), x.assignmentId, SkillPreflightRecorded(p), Anonymous), uuid);
    }

    // ----- createAssignment

    method CheckAssignment(s: Snapshot, stepId: Id, executor: Executor) returns (why: Option<Refusal>)
      requires s.rt.steps.Keys == StepIds(s.def.steps)
      ensures why == AssignmentRefusal(s, stepId, executor)
      ensures why.None? ==> stepId in s.rt.steps
    {
      hide DependencyReady;
      if stepId !in s.rt.steps { return Some(StepNotFound); }
      var step, x := DefOf(s.def.steps, stepId), s.rt.steps[stepId];
      if s.rt.task.status in {TCompleted, TCancelled, TFailed} { return Some(TaskIsTerminal); }
      if |step.requiredSkills| > 0 {
        var p := x.skillPreflight;
        if p.None? || p.value.state != SkillsReady || |p.value.missingRequiredSkills| > 0 {
          return Some(SkillsNotReady);
        }
        if p.value.executor != Some(executor) { return Some(WrongExecutor); }
      }
      if x.status != Ready && x.status != FixRequired { return Some(NotAssignable); }
      if x.attempt >= step.maxAttempts { return Some(AttemptsExhausted); }
      if !DependencyReady(step, s.rt.steps) { return Some(DependenciesOpen); }
      var active := CountActive(s.rt.steps);
      if active >= s.def.maxParallelSteps { return Some(CapacityExhausted); }
      if executor == Auto { return Some(WrongExecutor); }
      if step.executor != Auto && step.executor != executor { return Some(WrongExecutor); }
      why := None;
    }

    method CreateAssignment(stepId: Id, executor: Executor, executorId: Option<string>, assignmentId: Id, uuid: Uuids)
      returns (why: Option<Refusal>)
      modifies store`snapshot, store.events
      ensures Sound(old(store.events.lines)) ==>
                Did(old(OnDisk()), Exec(old(OnDisk()), AssignOp(stepId, executor, executorId, assignmentId), uuid),
                    OnDisk(), why)
    {
      hide Exec, SnapshotOk, Sound, Engine.Commit, AssignmentRefusal;
      ExecSingle(OnDisk(), AssignOp(stepId, executor, executorId, assignmentId), uuid);
      var loaded := store.LoadSnapshot();
      if loaded.None? { return Some(CorruptStore); }
      var s := loaded.value;
      why := CheckAssignment(s, stepId, executor);
      if why.Some? { return; }
      var x := s.rt.steps[stepId];
      var assignment := Assignment(assignmentId, stepId, x.attempt + 1, executor, executorId);
      var rt := s.rt.(
        task := if s.rt.task.status == TReady then s.rt.task.(status := TRunning) else s.rt.task,
        steps := s.rt.steps[stepId :=
          x.(status := Dispatching, attempt := assignment.attempt,
             assignmentId := Some(assignmentId), blocker := None)],
        assignments := s.rt.assignments + [assignment]);
      var body := AssignmentCreated(executor, executorId, assignment.attempt);
      why := Commit(s, rt, EventInput(Some(stepId), Some(assignmentId), body, Anonymous), uuid);
    }

    // ----- bindSession, updateSessionBindingState

    method BindSession(assignmentId: Id, logicalSessionId: string, state: BindingState, bindingId: Id, uuid: Uuids)
      returns (why: Option<Refusal>)
      modifies store`snapshot, store.events
      ensures Sound(old(store.events.lines)) ==>
                Did(old(OnDisk()), Exec(old(OnDisk()), BindOp(assignmentId, logicalSessionId, state, bindingId), uuid),
                    OnDisk(), why)
    {
      hide Exec, SnapshotOk, Sound, Engine.Commit;
      ExecSingle(OnDisk(), BindOp(assignmentId, logicalSessionId, state, bindingId), uuid);
      var loaded := store.LoadSnapshot();
      if loaded.None? { return Some(CorruptStore); }
      var s := loaded.value;
      var found := FindAssignment(s.rt.assignments, assignmentId);
      if found.None? { return Some(AssignmentNotFound); }
      var assignment := found.value;
      if OpenBinding(s.rt.bindings, assignmentId) { return Some(AlreadyBound); }
      if logicalSessionId == "" { return Some(SessionIdRequired); }
      var binding := SessionBinding(bindingId, assignment.stepId, assignmentId, assignment.executor, logicalSessionId,
                                    state);
      var rt := s.rt.(bindings := s.rt.bindings + [binding]);
      var bound := SessionBound(bindingId, logicalSessionId);
      why := Commit(s, rt, EventInput(Some(assignment.stepId), Some(assignmentId), bound, Anonymous), uuid);
    }

    method UpdateSessionBindingState(bindingId: Id, state: BindingState, uuid: Uuids) returns (why: Option<Refusal>)
      modifies store`snapshot, store.events
      ensures Sound(old(store.events.lines)) ==>
                Did(old(OnDisk()), Exec(old(OnDisk()), UpdateBindingOp(bindingId, state), uuid), OnDisk(), why)
    {
      hide Exec, SnapshotOk, Sound, Engine.Commit;
      ExecSingle(OnDisk(), UpdateBindingOp(bindingId, state), uuid);
      var loaded := store.LoadSnapshot();
      if loaded.None? { return Some(CorruptStore); }
      var s := loaded.value;
      var k := BindingIndex(s.rt.bindings, bindingId);
      if k.None? { return Some(BindingNotFound); }
      var binding := s.rt.bindings[k.value];
      if !ValidBindingTransition(binding.state, state) { return Some(IllegalBindingTransition); }
      var rt := s.rt.(bindings := s.rt.bindings[k.value := binding.(state := state)]);
      var body := SessionStateChanged(bindingId, binding.state, state);
      why := Commit(s, rt, EventInput(Some(binding.stepId), Some(binding.assignmentId), body, Anonymous), uuid);
    }

    // ----- transitionStep

    method CheckTransition(s: Snapshot, stepId: Id, to: StepStatus) returns (why: Option<Refusal>)
      requires s.rt.steps.Keys == StepIds(s.def.steps)
      ensures why == TransitionRefusal(s, stepId, to)
      ensures why.None? ==> stepId in s.rt.steps
    {
      hide DependencyReady;
      if stepId !in s.rt.steps { return Some(StepNotFound); }
      var x := s.rt.steps[stepId];
      if !ValidStepTransition(x.status, to) { return Some(IllegalStepTransition); }
      if to == Ready && !DependencyReady(DefOf(s.def.steps, stepId), s.rt.steps) { return Some(DependenciesOpen); }
      if Active(to) && !Active(x.status) {
        if x.assignmentId.None? { return Some(NotAssigned); }
        var active := CountActive(s.rt.steps);
        if active >= s.def.maxParallelSteps { return Some(CapacityExhausted); }
      }
      why := None;
    }

    method FinishCancelled(s: Snapshot, rt0: State, uuid: Uuids) returns (why: Option<Refusal>)
      requires SnapshotOk(s) && s == store.snapshot && StepIds(s.def.steps) <= rt0.steps.Keys
      modifies store`snapshot, store.events
      ensures Sound(old(store.events.lines)) ==>
                Did(old(OnDisk()), CancelWhenClosed(s, rt0, old(store.events.lines), uuid), OnDisk(), why)
    {
      hide SnapshotOk, Sound, Engine.Append, AllClosed, SomeCancelled;
      var rt := rt0;
      if rt.task.status != TCancelled && SomeCancelled(rt.steps) && AllClosed(rt.steps) {
        var from := rt.task.status;
        if !ValidTaskTransition(from, TCancelled) { return Some(IllegalTaskTransition); }
        rt := rt.(task := rt.task.(status := TCancelled));
        var closed := TaskStateChanged(from, TCancelled, Some("all_steps_terminal"));
        var recorded := AppendEvent(rt, EventInput(None, None, closed, Anonymous), uuid);
        if recorded.None? { return Some(EventRefused); }
        rt := recorded.value;
      }
      why := Finish(s, s.def, rt);
    }

    method TransitionStep(stepId: Id, to: StepStatus, reason: Option<string>, identity: Identity, uuid: Uuids)
      returns (why: Option<Refusal>)
      modifies store`snapshot, store.events
      ensures Sound(old(store.events.lines)) && SnapshotOk(old(store.snapshot)) ==>
                Did(old(OnDisk()), Exec(old(OnDisk()), TransitionStepOp(stepId, to, reason, identity), uuid), OnDisk(),
                    why)
    {
      hide Exec, SnapshotOk, ValidDag, Sound, TaskProgress, ActiveList, Engine.Append, CancelWhenClosed,
        TransitionRefusal, Settle, RequestChange;
      ExecSeveral(OnDisk(), TransitionStepOp(stepId, to, reason, identity), uuid);
      ExecSingle(OnDisk(), RequestCompletionOp(stepId, reason, identity), uuid);
      if to == Completed { return Some(CompletionNeedsGate); }
      if to == Verifying {
        why := RequestCompletion(stepId, reason, identity, uuid);
        return;
      }
      var loaded := store.LoadSnapshot();
      if loaded.None? { return Some(CorruptStore); }
      var s := loaded.value;
      why := CheckTransition(s, stepId, to);
      if why.Some? { return; }
      var x := s.rt.steps[stepId];
      var blocker := None;
      if to in {Blocked, OutcomeUnknown, Failed, WaitingHuman} {
        blocker := if reason.Some? then Some(Reason(reason.value)) else x.blocker;
      }
      var rt := s.rt.(steps := s.rt.steps[stepId := x.(status := to, blocker := blocker)]);
      var changed := StepStateChanged(x.status, to, reason);
      var recorded := AppendEvent(rt, EventInput(Some(stepId), x.assignmentId, changed, identity), uuid);
      if recorded.None? { return Some(EventRefused); }
      rt := RefreshDerived(s.def, recorded.value);
      why := FinishCancelled(s, rt, uuid);
    }

    // ----- recordProgress, recordArtifact, requestCompletion

    method RecordProgress(stepId: Id, progress: Option<real>, activity: Option<string>, identity: Identity, uuid: Uuids)
      returns (why: Option<Refusal>)
      modifies store`snapshot, store.events
      ensures Sound(old(store.events.lines)) ==>
                Did(old(OnDisk()), Exec(old(OnDisk()), ProgressOp(stepId, progress, activity, identity), uuid),
                    OnDisk(), why)
    {
      hide Exec, SnapshotOk, Sound, Engine.Commit;
      ExecSingle(OnDisk(), ProgressOp(stepId, progress, activity, identity), uuid);
      var loaded := store.LoadSnapshot();
      if loaded.None? { return Some(CorruptStore); }
      var s := loaded.value;
      if stepId !in s.rt.steps { return Some(StepNotFound); }
      var x := s.rt.steps[stepId];
      if x.status !in {Dispatching, Running, WaitingReport, FixRequired} { return Some(NotReportable); }
      if progress.None? { return Some(ProgressNotFinite); }
      var normalized := Clamp01(progress.value);
      assert ValidStepTransition(x.status, Running);
      var rt := s.rt.(steps := s.rt.steps[stepId :=
        x.(status := Running, progress := normalized, currentActivity := activity, blocker := None)]);
      var updated := ProgressUpdated(normalized, activity, x.status);
      why := Commit(s, rt, EventInput(Some(stepId), x.assignmentId, updated, identity), uuid);
    }

    method RecordArtifact(stepId: Id, logicalName: string, artifactId: Option<Id>, identity: Identity, uuid: Uuids)
      returns (why: Option<Refusal>)
      modifies store`snapshot, store.events
      ensures Sound(old(store.events.lines)) ==>
                Did(old(OnDisk()), Exec(old(OnDisk()), ArtifactOp(stepId, logicalName, artifactId, identity), uuid),
                    OnDisk(), why)
    {
      hide Exec, SnapshotOk, Sound, Engine.Commit;
      ExecSingle(OnDisk(), ArtifactOp(stepId, logicalName, artifactId, identity), uuid);
      var loaded := store.LoadSnapshot();
      if loaded.None? { return Some(CorruptStore); }
      var s := loaded.value;
      if stepId !in s.rt.steps { return Some(StepNotFound); }
      var body := ArtifactProduced(logicalName, artifactId);
      why := Commit(s, s.rt, EventInput(Some(stepId), s.rt.steps[stepId].assignmentId, body, identity), uuid);
    }

    method RequestCompletion(stepId: Id, note: Option<string>, identity: Identity, uuid: Uuids)
      returns (why: Option<Refusal>)
      modifies store`snapshot, store.events
      ensures Sound(old(store.events.lines)) ==>
                Did(old(OnDisk()), Exec(old(OnDisk()), RequestCompletionOp(stepId, note, identity), uuid), OnDisk(),
                    why)
    {
      hide Exec, SnapshotOk, Sound, Engine.Commit;
      ExecSingle(OnDisk(), RequestCompletionOp(stepId, note, identity), uuid);
      var loaded := store.LoadSnapshot();
      if loaded.None? { return Some(CorruptStore); }
      var s := loaded.value;
      if stepId !in s.rt.steps { return Some(StepNotFound); }
      var x := s.rt.steps[stepId];
      if x.assignmentId.None? { return Some(NotAssigned); }
      var active := CountActive(s.rt.steps);
      if !Active(x.status) && active >= s.def.maxParallelSteps { return Some(CapacityExhausted); }
      if !ValidStepTransition(x.status, Verifying) { return Some(IllegalStepTransition); }
      var progress := if x.progress < 0.95 then 0.95 else x.progress;
      var rt := s.rt.(steps := s.rt.steps[stepId := x.(status := Verifying, progress := progress)]);
      why := Commit(s, rt, EventInput(Some(stepId), x.assignmentId, CompletionRequested(x.status, note), identity),
                    uuid);
    }

    // ----- gatePassed, gateFailed

    method CheckGate(s: Snapshot, log: seq<Event>, stepId: Id, e: Evidence) returns (why: Option<Refusal>)
      requires s.rt.steps.Keys == StepIds(s.def.steps)
      ensures why == GateRefusal(s, log, stepId, e)
    {
      hide Artifacts;
      if stepId !in s.rt.steps { return Some(StepNotFound); }
      var step, x := DefOf(s.def.steps, stepId), s.rt.steps[stepId];
      if x.status != Verifying { return Some(NotVerifying); }
      if e.humanReview {
        if e.assignmentId != x.assignmentId { return Some(StaleReview); }
        if e.note.None? { return Some(ReviewNeedsNote); }
      }
      if "required_outputs" in step.completionGate || e.humanReview {
        for i := 0 to |step.expectedOutputs|
          invariant forall o :: o in step.expectedOutputs[..i] && o.required ==>
                    OutputPresent(log, stepId, x.assignmentId, o)
        {
          var output := step.expectedOutputs[i];
          if output.required {
            var ids := Artifacts(log, stepId, x.assignmentId, output.logicalName);
            if |ids| < (if output.minCount.Some? then output.minCount.value else 1) { return Some(MissingOutput); }
          }
        }
        assert step.expectedOutputs[..|step.expectedOutputs|] == step.expectedOutputs;
      }
      why := None;
    }

    /** The loop that readies the steps a completion has freed; `None` when an append is refused. */
    method Promote(defs: seq<StepDef>, rt0: State, uuid: Uuids) returns (now: Option<State>)
      requires StepIds(defs) <= rt0.steps.Keys
      modifies store.events
      ensures Sound(old(store.events.lines)) ==>
                (if now.None? then Stopped(store.events.lines) else Ran(now.value, store.events.lines))
                  == PromoteFrom(defs, 0, rt0, old(store.events.lines), uuid)
      ensures Sound(old(store.events.lines)) ==> Sound(store.events.lines)
      ensures now.Some? ==> now.value.steps.Keys == rt0.steps.Keys
    {
      hide Sound, Engine.Append, DependencyReady;
      var rt := rt0;
      ghost var log0 := store.events.lines;
      for i := 0 to |defs|
        invariant rt.steps.Keys == rt0.steps.Keys
        invariant Sound(log0) ==> Sound(store.events.lines)
        invariant Sound(log0) ==>
                  PromoteFrom(defs, 0, rt0, log0, uuid) == PromoteFrom(defs, i, rt, store.events.lines, uuid)
      {
        var id := defs[i].stepId;
        assert id in StepIds(defs);
        if rt.steps[id].status != WaitingDependency || !DependencyReady(defs[i], rt.steps) { continue; }
        rt := rt.(steps := rt.steps[id := rt.steps[id].(status := Ready)]);
        var input := EventInput(Some(id), None,
                                StepStateChanged(WaitingDependency, Ready, Some("dependency_completed")), Anonymous);
        var recorded := AppendEvent(rt, input, uuid);
        if recorded.None? { return None; }
        rt := recorded.value;
      }
      now := Some(rt);
    }

    method FinishClosed(s: Snapshot, rt0: State, uuid: Uuids) returns (why: Option<Refusal>)
      requires SnapshotOk(s) && s == store.snapshot && StepIds(s.def.steps) <= rt0.steps.Keys
      modifies store`snapshot, store.events
      ensures Sound(old(store.events.lines)) ==>
                Did(old(OnDisk()), CloseTask(s, rt0, old(store.events.lines), uuid), OnDisk(), why)
    {
      hide SnapshotOk, Sound, Engine.Append, TaskProgress, ActiveList;
      var rt, from := rt0, rt0.task.status;
      if |rt.steps| > 0 && AllCompleted(rt.steps) {
        if !ValidTaskTransition(from, TCompleted) { return Some(IllegalTaskTransition); }
        rt := rt.(task := rt.task.(status := TCompleted));
        var recorded := AppendEvent(rt, EventInput(None, None, TaskCompleted(IdList(s.def.steps)), Anonymous), uuid);
        if recorded.None? { return Some(EventRefused); }
        rt := recorded.value;
      } else if AllClosed(rt.steps) {
        if !ValidTaskTransition(from, TCancelled) { return Some(IllegalTaskTransition); }
        rt := rt.(task := rt.task.(status := TCancelled));
        var closed := TaskStateChanged(from, TCancelled, Some("all_steps_terminal"));
        var recorded := AppendEvent(rt, EventInput(None, None, closed, Anonymous), uuid);
        if recorded.None? { return Some(EventRefused); }
        rt := recorded.value;
      }
      why := Finish(s, s.def, RefreshDerived(s.def, rt));
    }

    method GatePassed(stepId: Id, e: Evidence, uuid: Uuids) returns (why: Option<Refusal>)
      modifies store`snapshot, store.events
      ensures Sound(old(store.events.lines)) ==>
                Did(old(OnDisk()), Exec(old(OnDisk()), GatePassOp(stepId, e), uuid), OnDisk(), why)
    {
      hide Exec, SnapshotOk, ValidDag, Sound, Engine.Append, GateRefusal, PromoteFrom, CloseTask, StepIds;
      ExecSeveral(OnDisk(), GatePassOp(stepId, e), uuid);
      var loaded := store.LoadSnapshot();
      if loaded.None? { return Some(CorruptStore); }
      var s := loaded.value;
      var log := store.events.Read();
      if log.None? { return Some(CorruptStore); }
      why := CheckGate(s, log.value, stepId, e);
      if why.Some? { return; }
      GateStep(s, log.value, stepId, e);
      var x := s.rt.steps[stepId];
      var rt :=
        s.rt.(steps := s.rt.steps[stepId := x.(status := Completed, progress := 1.0,
                                          currentActivity := None, blocker := None)]);
      var recorded := AppendEvent(rt, EventInput(Some(stepId), x.assignmentId, Body.GatePassed(e), Anonymous), uuid);
      if recorded.None? { return Some(EventRefused); }
      var promoted := Promote(s.def.steps, recorded.value, uuid);
      if promoted.None? { return Some(EventRefused); }
      why := FinishClosed(s, promoted.value, uuid);
    }

    method GateFailed(stepId: Id, reason: Option<string>, uuid: Uuids) returns (why: Option<Refusal>)
      modifies store`snapshot, store.events
      ensures Sound(old(store.events.lines)) ==>
                Did(old(OnDisk()), Exec(old(OnDisk()), GateFailOp(stepId, reason), uuid), OnDisk(), why)
    {
      hide Exec, SnapshotOk, Sound, Engine.Commit;
      ExecSingle(OnDisk(), GateFailOp(stepId, reason), uuid);
      var loaded := store.LoadSnapshot();
      if loaded.None? { return Some(CorruptStore); }
      var s := loaded.value;
      if stepId !in s.rt.steps { return Some(StepNotFound); }
      var x := s.rt.steps[stepId];
      if x.status != Verifying { return Some(NotVerifying); }
      var text := if reason.Some? then reason.value else "completion gate failed";
      var rt := s.rt.(steps := s.rt.steps[stepId := x.(status := FixRequired, blocker := Some(Reason(text)))]);
      why := Commit(s, rt, EventInput(Some(stepId), x.assignmentId, Body.GateFailed(text), Anonymous), uuid);
    }
  }

  lemma GateStep(s: Snapshot, log: seq<Event>, stepId: Id, e: Evidence)
    requires s.rt.steps.Keys == StepIds(s.def.steps) && GateRefusal(s, log, stepId, e).None?
    ensures stepId in s.rt.steps
  {}
}
