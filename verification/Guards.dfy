/** When a call on a task completes, and what it leaves of each step, in terms of the stored fields
    (execution-runtime/runtime.ts:219-578). */
module Guards {
  import opened Wrappers
  import opened Contracts
  import opened StateMachine
  import opened Scheduler
  import opened EventLedger
  import opened Store
  import opened Engine
  import opened Gates
  import opened Invariants
  import opened Operations
  import opened Effects
  import opened History
  import opened Capacity
  import opened Success
  import opened Losses
  import opened Recovery
  import opened Outputs

  // ----- the conditions

  const Busy := {Dispatching, StepStatus.Running, WaitingReport, Verifying}

  /** Fewer steps are under way than the cap allows. */
  predicate Room(s: Snapshot) {
    |set id | id in s.rt.steps && s.rt.steps[id].status in Busy| < s.def.maxParallelSteps
  }

  predicate DoneFirst(step: StepDef, steps: map<Id, StepRuntime>) {
    forall k :: k in step.dependsOn ==> k in steps && steps[k].status == Completed
  }

  /** The required skills were found, all of them, for this executor. */
  predicate Skilled(step: StepDef, x: StepRuntime, executor: Executor) {
    step.requiredSkills == [] ||
    match x.skillPreflight
    case None => false
    case Some(p) => p.state == SkillsReady && p.missingRequiredSkills == [] && p.executor == Some(executor)
  }

  predicate MayAssign(s: Snapshot, id: Id, executor: Executor, assignmentId: Id)
    requires s.rt.steps.Keys == StepIds(s.def.steps)
  {
    && id in s.rt.steps && s.rt.task.status !in {TCompleted, TCancelled, TFailed}
    && (forall a :: a in s.rt.assignments ==> a.assignmentId != assignmentId)
    && var step, x := DefOf(s.def.steps, id), s.rt.steps[id];
    && x.status in {Ready, FixRequired} && x.attempt < step.maxAttempts && DoneFirst(step, s.rt.steps) && Room(s)
    && executor != Auto && step.executor in {Auto, executor} && Skilled(step, x, executor)
  }

  predicate MayBind(s: Snapshot, assignmentId: Id, session: string, bindingId: Id) {
    && (exists a :: a in s.rt.assignments && a.assignmentId == assignmentId) && session != ""
    && (forall b :: b in s.rt.bindings ==>
          b.bindingId != bindingId && (b.assignmentId == assignmentId ==> b.state == BClosed))
  }

  predicate MayVerify(s: Snapshot, id: Id) {
    && id in s.rt.steps && s.rt.steps[id].assignmentId.Some?
    && s.rt.steps[id].status in Busy + {FixRequired, StepStatus.WaitingHuman}
    && (s.rt.steps[id].status !in Busy ==> Room(s))
  }

  predicate MayMove(s: Snapshot, id: Id, to: StepStatus)
    requires s.rt.steps.Keys == StepIds(s.def.steps)
  {
    && id in s.rt.steps && to != Completed
    && var x := s.rt.steps[id];
    && (to == x.status || to in StepTransitions(x.status))
    && (to == Ready ==> DoneFirst(DefOf(s.def.steps, id), s.rt.steps))
    && (to in Busy && x.status !in Busy ==> x.assignmentId.Some? && Room(s))
    && !(to == Cancelled && LastOpen(s.rt.steps, id) && s.rt.task.status == TCompleted)
  }

  /** What a call needs in order to complete. */
  ghost predicate May(d: Disk, op: Op)
    requires d.snap.rt.steps.Keys == StepIds(d.snap.def.steps)
  {
    var s, steps, status := d.snap, d.snap.rt.steps, d.snap.rt.task.status;
    match op
    case AddStepsOp(more) =>
      more == [] || (status !in {TCompleted, TCancelled} && UniqueIds(s.def.steps + more)
                     && DefinitionOk(s.def.(revision := s.def.revision + 1, steps := s.def.steps + more)))
    case TransitionTaskOp(to, _) => to == status || to in TaskTransitions(status)
    case ReconcileOp => true
    case PreflightOp(id, p) =>
      && id in steps && p.requiredSkills == DefOf(s.def.steps, id).requiredSkills
      && p.optionalSkills == DefOf(s.def.steps, id).optionalSkills
      && (p.state == SkillsReady ==> p.missingRequiredSkills == [])
    case AssignOp(id, executor, _, assignmentId) => MayAssign(s, id, executor, assignmentId)
    case BindOp(assignmentId, session, _, bindingId) => MayBind(s, assignmentId, session, bindingId)
    case UpdateBindingOp(bindingId, state) =>
      exists b :: b in s.rt.bindings && b.bindingId == bindingId
                  && (state == b.state || state in BindingTransitions(b.state))
    case TransitionStepOp(id, to, _, _) => if to == Verifying then MayVerify(s, id) else MayMove(s, id, to)
    case ProgressOp(id, p, _, _) =>
      id in steps && steps[id].status in {Dispatching, Running, WaitingReport, FixRequired} && p.Some?
    case ArtifactOp(id, _, _, _) => id in steps
    case RequestCompletionOp(id, _, _) => MayVerify(s, id)
    case GatePassOp(id, e) =>
      GateMet(s, d.log, id, e) && (LastOpen(steps, id) ==> ValidTaskTransition(status, EndStatus(steps)))
    case GateFailOp(id, _) => id in steps && steps[id].status == Verifying
  }

  /** The generator stays clear of the file and of the id the call brings, which is new. */
  ghost predicate NewIds(log: seq<Event>, op: Op, uuid: Uuids) {
    FreshIds(uuid, log)
    && (IdentityOf(op).eventId.Some? ==>
          && !EventLedger.Recorded(log, IdentityOf(op).eventId.value)
          && forall n: nat :: uuid(n) != IdentityOf(op).eventId.value)
  }

  // ----- they are what the operations check

  lemma SameCap(s: Snapshot)
    ensures Room(s) <==> ActiveCount(s.rt.steps) < s.def.maxParallelSteps
  {
    assert ActiveIds(s.rt.steps) == set id | id in s.rt.steps && s.rt.steps[id].status in Busy;
  }

  lemma AssignGuard(s: Snapshot, op: Op)
    requires s.rt.steps.Keys == StepIds(s.def.steps) && op.AssignOp?
    ensures ChangeOf(s, op).Replace? && !IsAssignment(s.rt.assignments, op.assignmentId)
            <==> MayAssign(s, op.stepId, op.executor, op.assignmentId)
  {
    hide ActiveCount, Room;
    SameCap(s);
    assert IsAssignment(s.rt.assignments, op.assignmentId) <==>
             exists a :: a in s.rt.assignments && a.assignmentId == op.assignmentId;
  }

  lemma BindGuard(s: Snapshot, op: Op)
    requires s.rt.steps.Keys == StepIds(s.def.steps) && op.BindOp?
    ensures ChangeOf(s, op).Replace? && BindingIndex(s.rt.bindings, op.bindingId).None?
            <==> MayBind(s, op.assignmentId, op.logicalSessionId, op.bindingId)
  {
    assert IsAssignment(s.rt.assignments, op.assignmentId) <==>
             exists a :: a in s.rt.assignments && a.assignmentId == op.assignmentId;
    assert OpenBinding(s.rt.bindings, op.assignmentId) <==>
             exists b :: b in s.rt.bindings && b.assignmentId == op.assignmentId && b.state != BClosed;
  }

  lemma UpdateGuard(s: Snapshot, op: Op)
    requires s.rt.steps.Keys == StepIds(s.def.steps) && op.UpdateBindingOp? && DistinctBindings(s.rt.bindings)
    ensures ChangeOf(s, op).Replace? <==>
              exists b :: b in s.rt.bindings && b.bindingId == op.bindingId
                          && (op.state == b.state || op.state in BindingTransitions(b.state))
  {
    var k := BindingIndex(s.rt.bindings, op.bindingId);
    if b :| b in s.rt.bindings && b.bindingId == op.bindingId {
      var j :| 0 <= j < |s.rt.bindings| && s.rt.bindings[j] == b;
      assert j == k.value;
    }
  }

  lemma VerifyGuard(s: Snapshot, id: Id, why: Option<string>, identity: Identity)
    requires s.rt.steps.Keys == StepIds(s.def.steps)
    ensures RequestChange(s, id, why, identity).Replace? <==> MayVerify(s, id)
  {
    hide ActiveCount, Room;
    SameCap(s);
  }

  lemma MoveGuard(s: Snapshot, id: Id, to: StepStatus)
    requires s.rt.steps.Keys == StepIds(s.def.steps) && to != Completed
    ensures MayMove(s, id, to) <==>
              TransitionRefusal(s, id, to).None?
              && !(to == Cancelled && LastOpen(s.rt.steps, id) && s.rt.task.status == TCompleted)
  {
    hide ActiveCount, Room, LastOpen;
    SameCap(s);
  }

  lemma RestGuard(d: Disk, op: Op)
    requires d.snap.rt.steps.Keys == StepIds(d.snap.def.steps)
    requires op.TransitionTaskOp? || op.PreflightOp? || op.ProgressOp? || op.ArtifactOp? || op.GateFailOp?
    ensures ChangeOf(d.snap, op).Replace? <==> May(d, op)
  {
    hide ActiveCount;
  }

  lemma SingleGuard(d: Disk, op: Op)
    requires DiskInv(d) && d.snap.rt.steps.Keys == StepIds(d.snap.def.steps) && SingleEvent(op)
    ensures May(d, op) <==>
              && ChangeOf(d.snap, op).Replace?
              && (op.AssignOp? ==> !IsAssignment(d.snap.rt.assignments, op.assignmentId))
              && (op.BindOp? ==> BindingIndex(d.snap.rt.bindings, op.bindingId).None?)
  {
    hide DiskInv, MayAssign, MayBind, MayVerify, AssignmentRefusal, ActiveCount;
    DiskValid(d);
    SnapRuntimeOk(d.snap);
    if op.AssignOp? { AssignGuard(d.snap, op); }
    else if op.BindOp? { BindGuard(d.snap, op); }
    else if op.UpdateBindingOp? { UpdateGuard(d.snap, op); }
    else if op.RequestCompletionOp? { VerifyGuard(d.snap, op.stepId, op.why, op.identity); }
    else { RestGuard(d, op); }
  }

  /** A second assignment or binding under an identifier in use is appended and then refused by the store. */
  lemma TakenIsRefused(d: Disk, op: Op, uuid: Uuids)
    requires DiskInv(d) && SingleEvent(op) && Exec(d, op, uuid).Wrote?
    ensures d.snap.rt.steps.Keys == StepIds(d.snap.def.steps) && ChangeOf(d.snap, op).Replace?
    ensures op.AssignOp? ==> !IsAssignment(d.snap.rt.assignments, op.assignmentId)
    ensures op.BindOp? ==> BindingIndex(d.snap.rt.bindings, op.bindingId).None?
  {
    hide *;
    DiskValid(d);
    SingleSettles(d, op, uuid);
    SnapOf(d.snap, d.log);
    ChangeFit'(d.snap, op);
    var c := ChangeOf(d.snap, op);
    ChangeNumbers(d.snap, c, |d.log|);
    SettleShape(d.snap, d.log, c, uuid);
    WrittenOk(d.snap, c.rt, Exec(d, op, uuid).snap);
    if op.AssignOp? { AssignmentIsNew(d.snap, op); }
    if op.BindOp? { BindingIsNew(d.snap, op); }
  }

  lemma SingleSettles(d: Disk, op: Op, uuid: Uuids)
    requires DiskInv(d) && SingleEvent(op) && d.snap.rt.steps.Keys == StepIds(d.snap.def.steps)
    ensures Exec(d, op, uuid) == Settle(d.snap, d.log, ChangeOf(d.snap, op), uuid)
  {
    hide SnapshotOk, Fit, DerivedOk, Sound, SequencesOk, Settle, ChangeOf;
  }

  lemma WrittenOk(s: Snapshot, rt: Runtime, now: Snapshot)
    requires Written(s, rt, now)
    ensures DistinctAssignments(rt.assignments) && DistinctBindings(rt.bindings)
  {
    hide DefinitionOk, DerivedOk;
  }

  lemma AssignmentIsNew(s: Snapshot, op: Op)
    requires s.rt.steps.Keys == StepIds(s.def.steps) && op.AssignOp? && ChangeOf(s, op).Replace?
    requires DistinctAssignments(ChangeOf(s, op).rt.assignments)
    ensures !IsAssignment(s.rt.assignments, op.assignmentId)
  {
    hide AssignmentRefusal;
    var a, t := s.rt.assignments, ChangeOf(s, op).rt.assignments;
    assert t[|a|].assignmentId == op.assignmentId;
    forall k | 0 <= k < |a| ensures a[k].assignmentId != op.assignmentId { assert t[k] == a[k]; }
  }

  lemma BindingIsNew(s: Snapshot, op: Op)
    requires s.rt.steps.Keys == StepIds(s.def.steps) && op.BindOp? && ChangeOf(s, op).Replace?
    requires DistinctBindings(ChangeOf(s, op).rt.bindings)
    ensures BindingIndex(s.rt.bindings, op.bindingId).None?
  {
    hide OpenBinding;
    var b, t := s.rt.bindings, ChangeOf(s, op).rt.bindings;
    assert t[|b|].bindingId == op.bindingId;
    forall k | 0 <= k < |b| ensures b[k].bindingId != op.bindingId { assert t[k] == b[k]; }
  }

  lemma SingleExactly(d: Disk, op: Op, uuid: Uuids)
    requires DiskInv(d) && NewIds(d.log, op, uuid) && SingleEvent(op)
    requires d.snap.rt.steps.Keys == StepIds(d.snap.def.steps)
    ensures Exec(d, op, uuid).Wrote? <==> May(d, op)
  {
    hide DiskInv, May, Exec, ChangeOf, IdentityOf, NewEvent;
    SingleGuard(d, op);
    if Exec(d, op, uuid).Wrote? { TakenIsRefused(d, op, uuid); }
    if May(d, op) {
      InputIdentity(d.snap, op);
      NewInput(d.log, op, ChangeOf(d.snap, op).input, uuid);
      SingleSucceeds(d, op, uuid);
    }
  }

  lemma NewInput(log: seq<Event>, op: Op, input: EventInput, uuid: Uuids)
    requires NewIds(log, op, uuid) && input.identity == IdentityOf(op)
    ensures NewlyRecorded(log, input, uuid)
  {
    hide IdentityOf;
    if input.identity.eventId.None? { AnonymousIsNew(log, input, uuid); }
    else {
      var t := log + [NewEvent(log, input, uuid)];
      forall n, k | n > |t| && 0 <= k < |t| ensures uuid(n) != t[k].eventId {
        if k < |log| { assert t[k] == log[k]; }
      }
    }
  }

  lemma MoveExactly(d: Disk, op: Op, uuid: Uuids)
    requires DiskInv(d) && NewIds(d.log, op, uuid) && op.TransitionStepOp?
    requires d.snap.rt.steps.Keys == StepIds(d.snap.def.steps)
    ensures Exec(d, op, uuid).Wrote? <==> May(d, op)
  {
    hide DiskInv, Exec, IdentityOf, NewIds, MayMove, MayVerify, NewlyRecorded, TransitionRefusal, LastOpen;
    DiskValid(d);
    if op.to == Verifying {
      var ask := RequestCompletionOp(op.stepId, op.why, op.identity);
      VerifyingIsRequest(d, op, uuid);
      SameIdentity(d.log, op, ask, uuid);
      SingleExactly(d, ask, uuid);
    } else if op.to == Completed {
      NeverCompletes(d, op, uuid);
    } else {
      MoveGuard(d.snap, op.stepId, op.to);
      if TransitionRefusal(d.snap, op.stepId, op.to).None? {
        TransitionKnown(d.snap, op.stepId, op.to);
        MoveInput(d, op, uuid);
        CancelThrowsAfterAppend(d, op.stepId, op.to, op.why, op.identity, uuid);
      } else {
        RefusedMove(d, op, uuid);
      }
    }
  }

  lemma SameIdentity(log: seq<Event>, op: Op, ask: Op, uuid: Uuids)
    requires NewIds(log, op, uuid) && op.TransitionStepOp?
    requires ask.RequestCompletionOp? && ask.identity == op.identity
    ensures NewIds(log, ask, uuid)
  {
    hide FreshIds;
  }

  lemma NeverCompletes(d: Disk, op: Op, uuid: Uuids)
    requires op.TransitionStepOp? && op.to == Completed
    ensures Exec(d, op, uuid).Halted?
    ensures d.snap.rt.steps.Keys == StepIds(d.snap.def.steps) ==> !MayMove(d.snap, op.stepId, op.to)
  {
    hide SnapshotOk, Sound;
  }

  lemma MoveInput(d: Disk, op: Op, uuid: Uuids)
    requires NewIds(d.log, op, uuid) && op.TransitionStepOp? && op.stepId in d.snap.rt.steps
    ensures NewlyRecorded(d.log, TransitionInput(d.snap, op.stepId, op.to, op.why, op.identity), uuid)
  {
    hide NewIds, NewlyRecorded;
    NewInput(d.log, op, TransitionInput(d.snap, op.stepId, op.to, op.why, op.identity), uuid);
  }

  lemma RefusedMove(d: Disk, op: Op, uuid: Uuids)
    requires op.TransitionStepOp? && op.to !in {Completed, Verifying}
    requires SnapshotOk(d.snap) && d.snap.rt.steps.Keys == StepIds(d.snap.def.steps)
    requires TransitionRefusal(d.snap, op.stepId, op.to).Some?
    ensures Exec(d, op, uuid).Halted?
  {
    hide SnapshotOk, Sound, TransitionRefusal;
  }

  /** With new identifiers a call completes if and only if the stored fields allow it. */
  lemma CompletesExactly(d: Disk, op: Op, uuid: Uuids)
    requires DiskInv(d) && NewIds(d.log, op, uuid)
    ensures d.snap.rt.steps.Keys == StepIds(d.snap.def.steps)
    ensures Exec(d, op, uuid).Wrote? <==> May(d, op)
  {
    hide DiskInv, May, Exec;
    DiskValid(d);
    match op
    case AddStepsOp(_) => AdditionExactly(d, op, uuid);
    case ReconcileOp => ReconcileIsIdle(d, uuid); IdleMay(d);
    case TransitionStepOp(_, _, _, _) => MoveExactly(d, op, uuid);
    case GatePassOp(id, e) => GateExactly(d, id, e, uuid); GateMay(d, op);
    case _ => SingleExactly(d, op, uuid);
  }

  lemma IdleMay(d: Disk)
    requires d.snap.rt.steps.Keys == StepIds(d.snap.def.steps)
    ensures May(d, ReconcileOp)
  {}

  lemma GateMay(d: Disk, op: Op)
    requires d.snap.rt.steps.Keys == StepIds(d.snap.def.steps) && op.GatePassOp?
    ensures May(d, op) <==>
              GateMet(d.snap, d.log, op.stepId, op.evidence)
              && (LastOpen(d.snap.rt.steps, op.stepId) ==>
                    ValidTaskTransition(d.snap.rt.task.status, EndStatus(d.snap.rt.steps)))
  {}

  lemma AdditionExactly(d: Disk, op: Op, uuid: Uuids)
    requires DiskInv(d) && FreshIds(uuid, d.log) && op.AddStepsOp?
    requires d.snap.rt.steps.Keys == StepIds(d.snap.def.steps)
    ensures Exec(d, op, uuid).Wrote? <==> May(d, op)
  {
    hide FreshIds, DefinitionOk, AppendAdded, UniqueIds, Fit, DerivedOk, SequencesOk, RefreshDerived;
    var s := d.snap;
    if op.additions != [] && s.rt.task.status !in {TCompleted, TCancelled} && UniqueIds(s.def.steps + op.additions) {
      AdditionThrowsAfterAppend(d, op.additions, uuid);
    }
  }

  // ----- what a call leaves

  /** The step after the call, event numbers aside. */
  function Left(s: Snapshot, op: Op, id: Id): StepRuntime
    requires s.rt.steps.Keys == StepIds(s.def.steps) && id in s.rt.steps
  {
    var x := s.rt.steps[id];
    match op
    case PreflightOp(k, p) =>
      if k != id then x
      else if p.missingRequiredSkills != [] then
        x.(skillPreflight := Some(p), blocker := Some(MissingSkills(p.missingRequiredSkills)))
      else if x.blocker.Some? && x.blocker.value.MissingSkills? then x.(skillPreflight := Some(p), blocker := None)
      else x.(skillPreflight := Some(p))
    case AssignOp(k, _, _, a) =>
      if k != id then x
      else x.(status := Dispatching, attempt := x.attempt + 1, assignmentId := Some(a), blocker := None)
    case TransitionStepOp(k, to, why, _) =>
      if k != id then x
      else if to == Verifying then Asking(x)
      else if to !in {StepStatus.Blocked, OutcomeUnknown, StepStatus.Failed, StepStatus.WaitingHuman} then
        x.(status := to, blocker := None)
      else (match why case None => x.(status := to) case Some(text) => x.(status := to, blocker := Some(Reason(text))))
    case ProgressOp(k, p, activity, _) =>
      if k != id || p.None? then x
      else x.(status := StepStatus.Running, progress := Within(p.value), currentActivity := activity, blocker := None)
    case RequestCompletionOp(k, _, _) => if k == id then Asking(x) else x
    case GatePassOp(k, _) =>
      if k == id then x.(status := Completed, progress := 1.0, currentActivity := None, blocker := None)
      else if x.status == WaitingDependency && Freed(s, k, id) then x.(status := Ready)
      else x
    case GateFailOp(k, why) =>
      if k != id then x
      else x.(status := FixRequired,
              blocker := Some(Reason(match why case None => "completion gate failed" case Some(text) => text)))
    case _ => x
  }

  function Asking(x: StepRuntime): StepRuntime {
    if x.progress >= 0.95 then x.(status := Verifying) else x.(status := Verifying, progress := 0.95)
  }

  /** A share is stored as it is, what lies outside as the nearer end. */
  function Within(p: real): (r: real)
    ensures 0.0 <= r <= 1.0 && (0.0 <= p <= 1.0 ==> r == p)
  {
    if p < 0.0 then 0.0 else if p > 1.0 then 1.0 else p
  }

  /** All dependencies of the step are completed once `done` is. */
  predicate Freed(s: Snapshot, done: Id, id: Id)
    requires id in StepIds(s.def.steps)
  {
    forall k :: k in DefOf(s.def.steps, id).dependsOn ==>
      k == done || (k in s.rt.steps && s.rt.steps[k].status == Completed)
  }

  lemma LeftIsNew(s: Snapshot, log: seq<Event>, op: Op, id: Id)
    requires s.rt.steps.Keys == StepIds(s.def.steps) && id in s.rt.steps && Permitted(s, log, op)
    ensures NewStep(s, op, id) == Left(s, op, id)
  {
    hide SkillsOpen, ActiveCount, OutputPresent, DefOf;
    if op.GatePassOp? {
      CompletesKnown(s, log, op);
      PassedOpens(s, op.stepId, id);
    }
  }

  lemma PassedOpens(s: Snapshot, done: Id, id: Id)
    requires s.rt.steps.Keys == StepIds(s.def.steps) && id in s.rt.steps && done in s.rt.steps
    ensures DependencyReady(DefOf(s.def.steps, id), s.rt.steps[done := Passed(s.rt.steps[done])])
            <==> Freed(s, done, id)
  {}

  /** The task is over when none of its steps is open, cancelled as soon as one of them is. */
  function Closing(t: TaskStatus, steps: map<Id, StepRuntime>): TaskStatus {
    if steps == map[] || exists id :: id in steps && steps[id].status !in {Completed, Cancelled} then t
    else if exists id :: id in steps && steps[id].status == Cancelled then TCancelled
    else TCompleted
  }

  /** A completed call leaves every step as described, adds the steps it was given, ready or waiting as their
      dependencies are, and one assignment or binding when that is what it was for. */
  lemma CallLeaves(d: Disk, op: Op, uuid: Uuids)
    requires DiskInv(d) && Exec(d, op, uuid).Wrote?
    ensures d.snap.rt.steps.Keys == StepIds(d.snap.def.steps)
    ensures var s, now := d.snap, Exec(d, op, uuid).snap;
            && (forall id :: id in s.rt.steps ==> id in now.rt.steps && Like(Left(s, op, id), now.rt.steps[id]))
            && now.def.steps == s.def.steps + (if op.AddStepsOp? then op.additions else [])
            && (forall id :: id in now.rt.steps && id !in s.rt.steps ==>
                  && op.AddStepsOp? && id in StepIds(op.additions)
                  && var x := now.rt.steps[id];
                  && x.status == (if DoneFirst(DefOf(op.additions, id), s.rt.steps) then Ready else WaitingDependency)
                  && x.attempt == 0 && x.assignmentId.None? && x.progress == 0.0)
            && (op.AssignOp? ==>
                  op.stepId in s.rt.steps
                  && now.rt.assignments == s.rt.assignments
                     + [Assignment(op.assignmentId, op.stepId, s.rt.steps[op.stepId].attempt + 1, op.executor,
                                   op.executorId)])
            && (!op.AssignOp? ==> now.rt.assignments == s.rt.assignments)
            && now.rt.task.status == (match op
                 case TransitionTaskOp(to, _) => to
                 case AssignOp(_, _, _, _) => if s.rt.task.status == TReady then TRunning else s.rt.task.status
                 case TransitionStepOp(_, _, _, _) => Closing(s.rt.task.status, now.rt.steps)
                 case GatePassOp(_, _) => Closing(s.rt.task.status, now.rt.steps)
                 case _ => s.rt.task.status)
  {
    hide DiskInv, Exec, NewStep, Left, Permitted, DoneFirst, InitialStep, Closing, ClosingStatus;
    DiskValid(d);
    ExecEffect(d, op, uuid);
    WroteWasPermitted(d, op, uuid);
    var s, now := d.snap, Exec(d, op, uuid).snap;
    forall id | id in s.rt.steps ensures id in now.rt.steps && Like(Left(s, op, id), now.rt.steps[id]) {
      LeftIsNew(s, d.log, op, id);
      assert Like(NewStep(s, op, id), now.rt.steps[id]);
    }
    forall id | id in now.rt.steps && id !in s.rt.steps
      ensures op.AddStepsOp? && id in StepIds(op.additions)
      ensures Like(InitialStep(DefOf(op.additions, id), CompletedIds(s.rt.steps)), now.rt.steps[id]) {}
    forall step: StepDef { StartsAs(step, s.rt.steps); }
    ClosesAs(s.rt.task.status, now.rt.steps);
    if op.AssignOp? { AssignedKnown(s, d.log, op); }
  }

  lemma ClosesAs(t: TaskStatus, steps: map<Id, StepRuntime>)
    ensures ClosingStatus(t, steps) == Closing(t, steps)
  {
    if steps.Keys == {} { assert steps == map[]; }
  }

  lemma StartsAs(step: StepDef, steps: map<Id, StepRuntime>)
    ensures var x := InitialStep(step, CompletedIds(steps));
            && x.status == (if DoneFirst(step, steps) then Ready else WaitingDependency)
            && x.attempt == 0 && x.assignmentId.None? && x.progress == 0.0
  {}

  lemma AssignedKnown(s: Snapshot, log: seq<Event>, op: Op)
    requires s.rt.steps.Keys == StepIds(s.def.steps) && op.AssignOp? && Permitted(s, log, op)
    ensures op.stepId in s.rt.steps
  {
    hide SkillsOpen, ActiveCount, DependencyReady;
  }

  /** A completed binding is appended for the step and the executor of its assignment; an update changes the state of
      one binding. */
  lemma BindingLeft(d: Disk, op: Op, uuid: Uuids)
    requires DiskInv(d) && (op.BindOp? || op.UpdateBindingOp?) && Exec(d, op, uuid).Wrote?
    ensures var old_, now := d.snap.rt.bindings, Exec(d, op, uuid).snap.rt.bindings;
            if op.BindOp? then
              exists a :: a in d.snap.rt.assignments && a.assignmentId == op.assignmentId
                && now == old_ + [SessionBinding(op.bindingId, a.stepId, a.assignmentId, a.executor,
                                                 op.logicalSessionId, op.state)]
            else
              |now| == |old_| && forall k :: 0 <= k < |now| ==>
                now[k] == if old_[k].bindingId == op.bindingId then old_[k].(state := op.state) else old_[k]
  {
    hide *;
    DiskValid(d);
    BindingsAreSingle(op);
    SingleSettles(d, op, uuid);
    SnapOf(d.snap, d.log);
    ChangeFit'(d.snap, op);
    var c := ChangeOf(d.snap, op);
    ChangeNumbers(d.snap, c, |d.log|);
    SettleShape(d.snap, d.log, c, uuid);
    WrittenBindings(d.snap, c.rt, Exec(d, op, uuid).snap);
    DiskBindings(d);
    BindingChanged(d.snap, op);
  }

  lemma BindingsAreSingle(op: Op)
    ensures op.BindOp? || op.UpdateBindingOp? ==> SingleEvent(op)
  {}

  lemma WrittenBindings(s: Snapshot, rt: Runtime, now: Snapshot)
    requires Written(s, rt, now)
    ensures now.rt.bindings == rt.bindings
  {
    hide SnapshotOk, DerivedOk;
  }

  lemma DiskBindings(d: Disk)
    requires DiskInv(d)
    ensures DistinctBindings(d.snap.rt.bindings)
  {}

  lemma BindingChanged(s: Snapshot, op: Op)
    requires s.rt.steps.Keys == StepIds(s.def.steps) && (op.BindOp? || op.UpdateBindingOp?)
    requires ChangeOf(s, op).Replace? && DistinctBindings(s.rt.bindings)
    ensures var old_, now := s.rt.bindings, ChangeOf(s, op).rt.bindings;
            if op.BindOp? then
              exists a :: a in s.rt.assignments && a.assignmentId == op.assignmentId
                && now == old_ + [SessionBinding(op.bindingId, a.stepId, a.assignmentId, a.executor,
                                                 op.logicalSessionId, op.state)]
            else
              |now| == |old_| && forall k :: 0 <= k < |now| ==>
                now[k] == if old_[k].bindingId == op.bindingId then old_[k].(state := op.state) else old_[k]
  {
    hide OpenBinding, IsAssignment;
    if op.BindOp? { assert FindAssignment(s.rt.assignments, op.assignmentId).Some?; }
  }

  /** The text a task is blocked with is kept until it is blocked with another. */
  lemma BlockersLeft(d: Disk, op: Op, uuid: Uuids)
    requires DiskInv(d) && SingleEvent(op) && Exec(d, op, uuid).Wrote?
    ensures Exec(d, op, uuid).snap.rt.task.blockers
            == if op.TransitionTaskOp? && op.toTask == TBlocked && op.why.Some? then [op.why.value]
               else d.snap.rt.task.blockers
  {
    hide *;
    DiskValid(d);
    SingleSettles(d, op, uuid);
    SnapOf(d.snap, d.log);
    ChangeFit'(d.snap, op);
    var c := ChangeOf(d.snap, op);
    ChangeNumbers(d.snap, c, |d.log|);
    SettleShape(d.snap, d.log, c, uuid);
    WrittenBlockers(d.snap, c.rt, Exec(d, op, uuid).snap);
    BlockersChanged(d.snap, op);
  }

  lemma WrittenBlockers(s: Snapshot, rt: Runtime, now: Snapshot)
    requires Written(s, rt, now)
    ensures now.rt.task.blockers == rt.task.blockers
  {
    hide SnapshotOk, DerivedOk;
  }

  lemma BlockersChanged(s: Snapshot, op: Op)
    requires s.rt.steps.Keys == StepIds(s.def.steps) && SingleEvent(op) && ChangeOf(s, op).Replace?
    ensures ChangeOf(s, op).rt.task.blockers
            == if op.TransitionTaskOp? && op.toTask == TBlocked && op.why.Some? then [op.why.value]
               else s.rt.task.blockers
  {
    hide ActiveCount, DependencyReady, SkillsOpen, OpenBinding, PreflightBlocker;
  }

  // ----- what a call records

  /** The step, the assignment and the content of the one event of a single-event call. */
  ghost predicate Tells(s: Snapshot, op: Op, e: Event) {
    match op
    case TransitionTaskOp(to, why) =>
      e.stepId.None? && e.assignmentId.None? && e.body == TaskStateChanged(s.rt.task.status, to, why)
    case PreflightOp(id, p) => About(s, id, e) && e.body == SkillPreflightRecorded(p)
    case AssignOp(id, executor, executorId, assignmentId) =>
      && id in s.rt.steps && e.stepId == Some(id) && e.assignmentId == Some(assignmentId)
      && e.body == AssignmentCreated(executor, executorId, s.rt.steps[id].attempt + 1)
    case BindOp(assignmentId, session, _, bindingId) =>
      && e.assignmentId == Some(assignmentId) && e.body == SessionBound(bindingId, session)
      && exists a :: a in s.rt.assignments && a.assignmentId == assignmentId && e.stepId == Some(a.stepId)
    case UpdateBindingOp(bindingId, state) =>
      exists b :: b in s.rt.bindings && b.bindingId == bindingId && e.stepId == Some(b.stepId)
                  && e.assignmentId == Some(b.assignmentId) && e.body == SessionStateChanged(bindingId, b.state, state)
    case ProgressOp(id, p, activity, _) =>
      About(s, id, e) && p.Some? && e.body == ProgressUpdated(Within(p.value), activity, s.rt.steps[id].status)
    case ArtifactOp(id, name, artifactId, _) => About(s, id, e) && e.body == ArtifactProduced(name, artifactId)
    case RequestCompletionOp(id, note, _) =>
      About(s, id, e) && e.body == CompletionRequested(s.rt.steps[id].status, note)
    case GateFailOp(id, why) =>
      About(s, id, e)
      && e.body == GateFailed(match why case None => "completion gate failed" case Some(text) => text)
    case _ => true
  }

  predicate About(s: Snapshot, id: Id, e: Event) {
    id in s.rt.steps && e.stepId == Some(id) && e.assignmentId == s.rt.steps[id].assignmentId
  }

  /** A single-event call that completes with new identifiers records what it did under the next number, with the id and
      the report it came with. */
  lemma CallTells(d: Disk, op: Op, uuid: Uuids)
    requires DiskInv(d) && NewIds(d.log, op, uuid) && SingleEvent(op) && Exec(d, op, uuid).Wrote?
    ensures var r := Exec(d, op, uuid);
            && |r.log| == |d.log| + 1 && d.log <= r.log
            && var e := r.log[|d.log|];
            && Tells(d.snap, op, e) && e.sequence == |d.log| + 1 && e.report == IdentityOf(op).report
            && (IdentityOf(op).eventId.Some? ==> IdentityOf(op).eventId == Some(e.eventId))
  {
    hide *;
    DiskValid(d);
    TakenIsRefused(d, op, uuid);
    InputIdentity(d.snap, op);
    var input := ChangeOf(d.snap, op).input;
    NewInput(d.log, op, input, uuid);
    NewRecord(d.log, input, uuid);
    SingleSucceeds(d, op, uuid);
    InputTells(d.snap, op, NewEvent(d.log, input, uuid));
  }

  lemma NewRecord(log: seq<Event>, input: EventInput, uuid: Uuids)
    requires NewlyRecorded(log, input, uuid)
    ensures var e := NewEvent(log, input, uuid);
            && !EventLedger.Recorded(log, e.eventId) && SameContent(e, input) && e.sequence == |log| + 1
            && e.report == input.identity.report
            && (input.identity.eventId.Some? ==> input.identity.eventId == Some(e.eventId))
  {}

  lemma InputTells(s: Snapshot, op: Op, e: Event)
    requires s.rt.steps.Keys == StepIds(s.def.steps) && SingleEvent(op) && ChangeOf(s, op).Replace?
    requires SameContent(e, ChangeOf(s, op).input)
    ensures Tells(s, op, e)
  {
    hide ActiveCount, DependencyReady, SkillsOpen, OpenBinding, PreflightBlocker;
    if op.BindOp? { assert FindAssignment(s.rt.assignments, op.assignmentId).Some?; }
    if op.UpdateBindingOp? { assert BindingIndex(s.rt.bindings, op.bindingId).Some?; }
  }

  // ----- creation

  /** With new identifiers a task is created if and only if its definition is valid and of revision one; its steps are
      then ready or waiting as they depend on others, and not yet attempted. */
  lemma CreationExactly(def: Workflow, uuid: Uuids)
    requires FreshIds(uuid, [])
    ensures CreateTask(def, uuid).Wrote? <==> def.revision == 1 && DefinitionOk(def)
    ensures var r := CreateTask(def, uuid);
            r.Wrote? ==>
              && |r.log| == 1 && r.log[0].body == TaskCreated(IdList(def.steps)) && r.snap.def == def
              && r.snap.rt.task.status == TReady && r.snap.rt.assignments == [] && r.snap.rt.bindings == []
              && r.snap.rt.steps.Keys == StepIds(def.steps)
              && forall id :: id in r.snap.rt.steps ==> Starts(DefOf(def.steps, id), r.snap.rt.steps[id])
  {
    hide DefinitionOk, TaskProgress, ActiveList;
    if def.revision == 1 && DefinitionOk(def) {
      var s := InitialSnapshot(def);
      assert RuntimeOk(def, s.rt);
      FreshNext(uuid, [], CreatedInput(def));
      forall step: StepDef { InitialStarts(step); }
    }
  }

  lemma InitialStarts(step: StepDef)
    ensures Starts(step, InitialStep(step, {}))
  {
    if step.dependsOn != [] { assert step.dependsOn[0] in step.dependsOn; }
  }

  predicate Starts(step: StepDef, x: StepRuntime) {
    && x.status == (if step.dependsOn == [] then Ready else WaitingDependency)
    && x.attempt == 0 && x.assignmentId.None? && x.progress == 0.0 && x.blocker.None? && x.currentActivity.None?
    && (x.skillPreflight.Some? <==> step.requiredSkills == [] && step.optionalSkills == [])
  }
}
