/** When calls do complete: with fresh identifiers, exactly when the guards of the operation hold. */
module Success {
  import opened Wrappers
  import opened Contracts
  import opened Dag
  import opened Scheduler
  import opened EventLedger
  import opened Store
  import opened Engine
  import opened Gates
  import opened Invariants

  /** The generator never repeats an identifier of the file, nor itself. */
  ghost predicate FreshIds(uuid: Uuids, log: seq<Event>) {
    && (forall n, k :: n > |log| && 0 <= k < |log| ==> uuid(n) != log[k].eventId)
    && (forall m, n :: |log| < m < n ==> uuid(m) != uuid(n))
  }

  lemma FreshNext(uuid: Uuids, log: seq<Event>, input: EventInput)
    requires FreshIds(uuid, log) && input.identity.eventId.None?
    ensures !Replayed(log, input) && !EventLedger.Recorded(log, NewEvent(log, input, uuid).eventId)
    ensures FreshIds(uuid, log + [NewEvent(log, input, uuid)])
  {
    var t := log + [NewEvent(log, input, uuid)];
    forall n, k | n > |t| && 0 <= k < |t| ensures uuid(n) != t[k].eventId {
      if k == |log| { assert t[k].eventId == uuid(|log| + 1); } else { assert t[k] == log[k]; }
    }
  }

  ghost predicate Grew(uuid: Uuids, log: seq<Event>, r: Result) {
    r.Wrote? && log <= r.log && FreshIds(uuid, r.log)
  }

  /** The validity of a runtime does not depend on event numbers, derived fields or statuses. */
  lemma RuntimeOkLike(def: Workflow, a: Runtime, b: Runtime)
    requires RuntimeOk(def, a) && b.steps.Keys == a.steps.Keys && b.assignments == a.assignments
    requires b.bindings == a.bindings
    ensures RuntimeOk(def, b)
  {}

  lemma SettleSucceeds(s: Snapshot, log: seq<Event>, c: Change, uuid: Uuids)
    requires DiskInv(Disk(s, log)) && c.Replace? && c.rt.steps.Keys == s.rt.steps.Keys && RuntimeOk(s.def, c.rt)
    requires !EventLedger.Recorded(log, NewEvent(log, c.input, uuid).eventId)
    ensures var r := Settle(s, log, c, uuid); r.Wrote? && r.log == log + [NewEvent(log, c.input, uuid)]
  {
    hide ValidDag, DefinitionFieldsOk, RuntimeOk, Fit, Sound, SequencesOk, DerivedOk, TaskProgress, ActiveList;
    ReplayedIsRecorded(log, c.input, uuid);
    SnapRuntimeOk(s);
    var r := Settle(s, log, c, uuid);
    var n := Append(c.rt, log, c.input, uuid);
    assert RefreshDerived(s.def, n.rt).steps.Keys == c.rt.steps.Keys;
    RuntimeOkLike(s.def, c.rt, RefreshDerived(s.def, n.rt));
  }

  lemma ReplayedIsRecorded(log: seq<Event>, input: EventInput, uuid: Uuids)
    ensures Replayed(log, input) ==> EventLedger.Recorded(log, NewEvent(log, input, uuid).eventId)
  {}

  /** A single-event operation completes when its guards hold and the identifiers it brings are new. */
  lemma SingleSucceeds(d: Disk, op: Op, uuid: Uuids)
    requires DiskInv(d) && SingleEvent(op) && d.snap.rt.steps.Keys == StepIds(d.snap.def.steps)
    requires ChangeOf(d.snap, op).Replace?
    requires !EventLedger.Recorded(d.log, NewEvent(d.log, ChangeOf(d.snap, op).input, uuid).eventId)
    requires op.AssignOp? ==> !IsAssignment(d.snap.rt.assignments, op.assignmentId)
    requires op.BindOp? ==> BindingIndex(d.snap.rt.bindings, op.bindingId).None?
    ensures var r := Exec(d, op, uuid); r.Wrote? && r.log == d.log + [NewEvent(d.log, ChangeOf(d.snap, op).input, uuid)]
  {
    hide Fit, DerivedOk, Sound, SequencesOk, ChangeOf, Settle, DefinitionOk, RuntimeOk, AddSteps, TransitionStep,
      GatePass, ReconcileReadiness;
    SnapRuntimeOk(d.snap);
    ChangeRuntimeOk(d.snap, op);
    SettleSucceeds(d.snap, d.log, ChangeOf(d.snap, op), uuid);
  }

  /** The append is not refused: the event is new, or is in the file under the id the call brings. */
  predicate Appendable(log: seq<Event>, input: EventInput, uuid: Uuids) {
    if Replayed(log, input) then SameContent(Find(log, input.identity.eventId.value).value, input)
    else !EventLedger.Recorded(log, NewEvent(log, input, uuid).eventId)
  }

  /** Whether a single-event operation that draws no identifier completes is known before the call. */
  lemma SingleCompletes(d: Disk, op: Op, uuid: Uuids)
    requires DiskInv(d) && SingleEvent(op) && !op.AssignOp? && !op.BindOp?
    ensures d.snap.rt.steps.Keys == StepIds(d.snap.def.steps)
    ensures Exec(d, op, uuid).Wrote?
            <==> ChangeOf(d.snap, op).Replace? && Appendable(d.log, ChangeOf(d.snap, op).input, uuid)
  {
    hide Fit, DerivedOk, Sound, SequencesOk, ChangeOf, DefinitionOk, RuntimeOk, AddSteps, TransitionStep, GatePass,
      ReconcileReadiness, Replayed, TaskProgress, ActiveList;
    SnapRuntimeOk(d.snap);
    var c := ChangeOf(d.snap, op);
    if c.Replace? {
      ChangeRuntimeOk(d.snap, op);
      var n := Append(c.rt, d.log, c.input, uuid);
      if n.Noted? { RuntimeOkLike(d.snap.def, c.rt, RefreshDerived(d.snap.def, n.rt)); }
    }
  }

  lemma SnapRuntimeOk(s: Snapshot)
    requires SnapshotOk(s)
    ensures RuntimeOk(s.def, s.rt) && s.rt.steps.Keys == StepIds(s.def.steps)
  {}

  lemma ChangeRuntimeOk(s: Snapshot, op: Op)
    requires s.rt.steps.Keys == StepIds(s.def.steps) && RuntimeOk(s.def, s.rt) && SingleEvent(op)
    requires ChangeOf(s, op).Replace?
    requires op.AssignOp? ==> !IsAssignment(s.rt.assignments, op.assignmentId)
    requires op.BindOp? ==> BindingIndex(s.rt.bindings, op.bindingId).None?
    ensures ChangeOf(s, op).rt.steps.Keys == s.rt.steps.Keys && RuntimeOk(s.def, ChangeOf(s, op).rt)
  {
    if op.AssignOp? {
      AssignRuntimeOk(s, op);
    } else if op.BindOp? {
      BindRuntimeOk(s, op);
    } else if op.UpdateBindingOp? {
      BindingRuntimeOk(s, op.bindingId, op.state);
    } else {
      hide RuntimeOk, ChangeOf;
      RestUnchanged(s, op);
      RuntimeOkLike(s.def, s.rt, ChangeOf(s, op).rt);
    }
  }

  lemma RestUnchanged(s: Snapshot, op: Op)
    requires s.rt.steps.Keys == StepIds(s.def.steps) && SingleEvent(op) && ChangeOf(s, op).Replace?
    requires !op.AssignOp? && !op.BindOp? && !op.UpdateBindingOp?
    ensures ChangeOf(s, op).rt.assignments == s.rt.assignments && ChangeOf(s, op).rt.bindings == s.rt.bindings
  {
    hide ActiveCount, AtLeast, PreflightBlocker, SkillsOpen;
  }

  lemma AssignRuntimeOk(s: Snapshot, op: Op)
    requires s.rt.steps.Keys == StepIds(s.def.steps) && RuntimeOk(s.def, s.rt) && op.AssignOp?
    requires ChangeOf(s, op).Replace?
    requires !IsAssignment(s.rt.assignments, op.assignmentId)
    ensures RuntimeOk(s.def, ChangeOf(s, op).rt)
  {
    hide ActiveCount, SkillsOpen, DependencyReady;
    var old_, now := s.rt.assignments, ChangeOf(s, op).rt.assignments;
    assert |now| == |old_| + 1 && now[..|old_|] == old_;
    forall b | b in s.rt.bindings ensures IsAssignment(now, b.assignmentId) {
      assert IsAssignment(old_, b.assignmentId);
      var i :| 0 <= i < |old_| && old_[i].assignmentId == b.assignmentId;
      assert now[i] == old_[i];
    }
  }

  lemma BindRuntimeOk(s: Snapshot, op: Op)
    requires s.rt.steps.Keys == StepIds(s.def.steps) && RuntimeOk(s.def, s.rt) && op.BindOp? && ChangeOf(s, op).Replace?
    requires BindingIndex(s.rt.bindings, op.bindingId).None?
    ensures RuntimeOk(s.def, ChangeOf(s, op).rt)
  {}

  lemma BindingRuntimeOk(s: Snapshot, bindingId: Id, state: BindingState)
    requires s.rt.steps.Keys == StepIds(s.def.steps) && RuntimeOk(s.def, s.rt)
    requires BindingChange(s, bindingId, state).Replace?
    ensures RuntimeOk(s.def, BindingChange(s, bindingId, state).rt)
  {
    hide IsAssignment, StepIds, DistinctAssignments;
    var k := BindingIndex(s.rt.bindings, bindingId).value;
    var old_, now := s.rt.bindings, BindingChange(s, bindingId, state).rt.bindings;
    assert forall i :: 0 <= i < |now| ==> now[i].bindingId == old_[i].bindingId && now[i].stepId == old_[i].stepId
                                          && now[i].assignmentId == old_[i].assignmentId;
    forall b | b in now ensures b.stepId in StepIds(s.def.steps) && IsAssignment(s.rt.assignments, b.assignmentId) {
      var i :| 0 <= i < |now| && now[i] == b;
      assert old_[i] in old_;
    }
  }

  // ----- transitions that do not close the task

  lemma TransitionSucceeds(d: Disk, stepId: Id, to: StepStatus, reason: Option<string>, uuid: Uuids)
    requires DiskInv(d) && FreshIds(uuid, d.log) && d.snap.rt.steps.Keys == StepIds(d.snap.def.steps)
    requires TransitionRefusal(d.snap, stepId, to).None? && to !in {Completed, Cancelled, Verifying}
    ensures Grew(uuid, d.log, Exec(d, TransitionStepOp(stepId, to, reason, Anonymous), uuid))
  {
    hide Fit, DerivedOk, Sound, SequencesOk, DefinitionOk, RuntimeOk, AddSteps, GatePass, ReconcileReadiness, Settle,
      FreshIds, TransitionRefusal, TaskProgress, ActiveList;
    var s := d.snap;
    TransitionKnown(s, stepId, to);
    var input := TransitionInput(s, stepId, to, reason, Anonymous);
    var rt := WithStep(s.rt, stepId, Transitioned(s.rt.steps[stepId], to, reason));
    FreshNext(uuid, d.log, input);
    var n := Append(rt, d.log, input, uuid);
    assert n.Noted? && n.log == d.log + [NewEvent(d.log, input, uuid)];
    assert n.rt.steps[stepId].status == to;
    var rt1 := RefreshDerived(s.def, n.rt);
    assert !AllClosed(rt1.steps);
    SnapRuntimeOk(s);
    RuntimeOkLike(s.def, s.rt, rt1);
  }

  lemma TransitionKnown(s: Snapshot, stepId: Id, to: StepStatus)
    requires s.rt.steps.Keys == StepIds(s.def.steps) && TransitionRefusal(s, stepId, to).None?
    ensures stepId in s.rt.steps
  {}

  // ----- gatePassed

  lemma {:induction false} PromoteSucceeds(defs: seq<StepDef>, i: nat, rt: Runtime, log: seq<Event>, uuid: Uuids)
    requires i <= |defs| && StepIds(defs) <= rt.steps.Keys && FreshIds(uuid, log)
    ensures var r := PromoteFrom(defs, i, rt, log, uuid);
            && r.Ran? && log <= r.log && FreshIds(uuid, r.log) && r.rt.assignments == rt.assignments
            && r.rt.bindings == rt.bindings
            && r.rt.task.status == rt.task.status
    decreases |defs| - i
  {
    hide FreshIds, DependencyReady;
    if i < |defs| {
      assert defs[i].stepId in StepIds(defs);
      if !Promotable(defs[i], rt.steps) {
        PromoteSucceeds(defs, i + 1, rt, log, uuid);
      } else {
        var id := defs[i].stepId;
        var input := EventInput(Some(id), None,
                                StepStateChanged(WaitingDependency, Ready, Some("dependency_completed")), Anonymous);
        FreshNext(uuid, log, input);
        var n := Append(WithStep(rt, id, rt.steps[id].(status := Ready)), log, input, uuid);
        PromoteSucceeds(defs, i + 1, n.rt, n.log, uuid);
      }
    }
  }

  lemma CloseSucceeds(s: Snapshot, rt: Runtime, log: seq<Event>, uuid: Uuids)
    requires SnapshotOk(s) && FreshIds(uuid, log) && rt.steps.Keys == s.rt.steps.Keys
    requires rt.assignments == s.rt.assignments && rt.bindings == s.rt.bindings && rt.task.status == TRunning
    requires StepIds(s.def.steps) <= rt.steps.Keys
    ensures Grew(uuid, log, CloseTask(s, rt, log, uuid))
  {
    hide FreshIds, DefinitionOk, RuntimeOk, TaskProgress, ActiveList;
    SnapRuntimeOk(s);
    if AllClosed(rt.steps) {
      var to := if rt.steps.Keys != {} && AllCompleted(rt.steps) then TCompleted else TCancelled;
      var body := if to == TCompleted then TaskCompleted(IdList(s.def.steps))
                  else TaskStateChanged(rt.task.status, TCancelled, Some("all_steps_terminal"));
      var input := EventInput(None, None, body, Anonymous);
      FreshNext(uuid, log, input);
      var n := Append(rt.(task := rt.task.(status := to)), log, input, uuid);
      RuntimeOkLike(s.def, s.rt, RefreshDerived(s.def, n.rt));
    } else {
      RuntimeOkLike(s.def, s.rt, RefreshDerived(s.def, rt));
    }
  }

  /** In a running task a gate passes when all it asks for is there, whatever it frees or closes. */
  lemma GatePassSucceeds(d: Disk, stepId: Id, e: Evidence, uuid: Uuids)
    requires DiskInv(d) && FreshIds(uuid, d.log) && d.snap.rt.steps.Keys == StepIds(d.snap.def.steps)
    requires GateMet(d.snap, d.log, stepId, e) && d.snap.rt.task.status == TRunning
    ensures Grew(uuid, d.log, Exec(d, GatePassOp(stepId, e), uuid))
  {
    hide Fit, DerivedOk, Sound, SequencesOk, SnapshotOk, AddSteps, TransitionStep, ReconcileReadiness, Settle, FreshIds,
      PromoteFrom, CloseTask, GateRefusal, GateMet;
    var s := d.snap;
    GateMetExactly(s, d.log, stepId, e);
    GateKnown(s, d.log, stepId, e);
    var input := EventInput(Some(stepId), s.rt.steps[stepId].assignmentId, GatePassed(e), Anonymous);
    FreshNext(uuid, d.log, input);
    var n := Append(WithStep(s.rt, stepId, Passed(s.rt.steps[stepId])), d.log, input, uuid);
    PromoteSucceeds(s.def.steps, 0, n.rt, n.log, uuid);
    var p := PromoteFrom(s.def.steps, 0, n.rt, n.log, uuid);
    CloseSucceeds(s, p.rt, p.log, uuid);
  }

  lemma GateKnown(s: Snapshot, log: seq<Event>, stepId: Id, e: Evidence)
    requires s.rt.steps.Keys == StepIds(s.def.steps) && GateRefusal(s, log, stepId, e).None?
    ensures stepId in s.rt.steps && s.rt.steps[stepId].status == Verifying
  {
    hide OutputPresent;
  }
}
