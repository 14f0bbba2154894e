/** Calls that append events and then throw, so that the event file says more than the snapshot: exactly when. */
module Losses {
  import opened Wrappers
  import opened Contracts
  import opened StateMachine
  import opened Scheduler
  import opened EventLedger
  import opened Store
  import opened Engine
  import opened Gates
  import opened Invariants
  import opened Operations
  import opened Success

  /** All steps but one have left the run. */
  predicate LastOpen(steps: map<Id, StepRuntime>, id: Id) {
    forall k :: k in steps && k != id ==> steps[k].status in {Completed, Cancelled}
  }

  // ----- gatePassed

  function EndStatus(steps: map<Id, StepRuntime>): TaskStatus {
    if SomeCancelled(steps) then TCancelled else TCompleted
  }

  lemma {:induction false} NothingToPromote(defs: seq<StepDef>, i: nat, rt: Runtime, log: seq<Event>, uuid: Uuids)
    requires i <= |defs| && StepIds(defs) <= rt.steps.Keys
    requires forall id :: id in rt.steps ==> rt.steps[id].status != WaitingDependency
    ensures PromoteFrom(defs, i, rt, log, uuid) == Ran(rt, log)
    decreases |defs| - i
  {
    if i < |defs| {
      assert defs[i].stepId in StepIds(defs);
      NothingToPromote(defs, i + 1, rt, log, uuid);
    }
  }

  lemma CloseExact(s: Snapshot, rt: Runtime, log: seq<Event>, uuid: Uuids)
    requires SnapshotOk(s) && FreshIds(uuid, log) && rt.steps.Keys == s.rt.steps.Keys && rt.steps.Keys != {}
    requires rt.assignments == s.rt.assignments && rt.bindings == s.rt.bindings && StepIds(s.def.steps) <= rt.steps.Keys
    ensures var r := CloseTask(s, rt, log, uuid);
            if AllClosed(rt.steps) && !ValidTaskTransition(rt.task.status, EndStatus(rt.steps))
            then r == Halted(log, IllegalTaskTransition) else Grew(uuid, log, r)
  {
    hide FreshIds, DefinitionOk, RuntimeOk, TaskProgress, ActiveList;
    SnapRuntimeOk(s);
    if AllClosed(rt.steps) {
      assert AllCompleted(rt.steps) <==> !SomeCancelled(rt.steps);
      var to := EndStatus(rt.steps);
      var body := if to == TCompleted then TaskCompleted(IdList(s.def.steps))
                  else TaskStateChanged(rt.task.status, TCancelled, Some("all_steps_terminal"));
      var input := EventInput(None, None, body, Anonymous);
      FreshNext(uuid, log, input);
      var n := Append(rt.(task := rt.task.(status := to)), log, input, uuid);
      RuntimeOkLike(s.def, s.rt, RefreshDerived(s.def, n.rt));
    } else {
      RuntimeOkLike(s.def, s.rt, RefreshDerived(s.def, rt));
    }
  }

  function GateInput(s: Snapshot, stepId: Id, e: Evidence): EventInput
    requires stepId in s.rt.steps
  {
    EventInput(Some(stepId), s.rt.steps[stepId].assignmentId, GatePassed(e), Anonymous)
  }

  /** A gate that has all it asks for throws after its append exactly when it closes the task from a status that does
      not allow the closing one; then the file says that the gate passed and the snapshot still verifies. */
  lemma GateThrowsAfterAppend(d: Disk, stepId: Id, e: Evidence, uuid: Uuids)
    requires DiskInv(d) && FreshIds(uuid, d.log) && d.snap.rt.steps.Keys == StepIds(d.snap.def.steps)
    requires GateMet(d.snap, d.log, stepId, e)
    ensures stepId in d.snap.rt.steps
    ensures var r := Exec(d, GatePassOp(stepId, e), uuid);
            && (r.Halted? <==> LastOpen(d.snap.rt.steps, stepId)
                               && !ValidTaskTransition(d.snap.rt.task.status, EndStatus(d.snap.rt.steps)))
            && (r.Halted? ==>
                  r == Halted(d.log + [NewEvent(d.log, GateInput(d.snap, stepId, e), uuid)], IllegalTaskTransition))
  {
    hide Fit, DerivedOk, SnapshotOk, AddSteps, TransitionStep, ReconcileReadiness, Settle, FreshIds, PromoteFrom,
      CloseTask, GateRefusal, GateMet, Sound, SequencesOk, AllClosed, LastOpen, EndStatus, Passed;
    var s := d.snap;
    GateMetExactly(s, d.log, stepId, e);
    GateKnown(s, d.log, stepId, e);
    DiskUnique(d);
    var input := GateInput(s, stepId, e);
    FreshNext(uuid, d.log, input);
    var rt := WithStep(s.rt, stepId, Passed(s.rt.steps[stepId]));
    PassedNumbers(s.rt, |d.log|, stepId);
    AppendKeeps(rt, d.log, input, uuid);
    var n := Append(rt, d.log, input, uuid);
    PromoteSucceeds(s.def.steps, 0, n.rt, n.log, uuid);
    PromoteShape(s.def.steps, 0, n.rt, n.log, uuid);
    var p := PromoteFrom(s.def.steps, 0, n.rt, n.log, uuid);
    SameKeys(rt.steps, n.rt.steps);
    PromotedEnds(s, stepId, n.rt, p.rt);
    CloseExact(s, p.rt, p.log, uuid);
    if LastOpen(s.rt.steps, stepId) {
      NothingWaits(s, stepId, n.rt);
      NothingToPromote(s.def.steps, 0, n.rt, n.log, uuid);
    }
  }

  lemma PassedNumbers(rt: Runtime, n: nat, stepId: Id)
    requires SequencesOk(rt, n) && stepId in rt.steps
    ensures SequencesOk(WithStep(rt, stepId, Passed(rt.steps[stepId])), n)
  {}

  lemma DiskUnique(d: Disk)
    requires DiskInv(d)
    ensures UniqueIds(d.snap.def.steps) && SnapshotOk(d.snap)
  {}

  lemma NothingWaits(s: Snapshot, stepId: Id, rt: Runtime)
    requires stepId in s.rt.steps && LastOpen(s.rt.steps, stepId)
    requires SameSteps(s.rt.steps[stepId := Passed(s.rt.steps[stepId])], rt.steps)
    ensures forall id :: id in rt.steps ==> rt.steps[id].status != WaitingDependency
  {
    var passed := s.rt.steps[stepId := Passed(s.rt.steps[stepId])];
    forall id | id in rt.steps ensures rt.steps[id].status != WaitingDependency {
      assert Like(passed[id], rt.steps[id]);
    }
  }

  lemma PromotedEnds(s: Snapshot, stepId: Id, mid: Runtime, now: Runtime)
    requires s.rt.steps.Keys == StepIds(s.def.steps) && stepId in s.rt.steps && s.rt.steps[stepId].status == Verifying
    requires SameSteps(s.rt.steps[stepId := Passed(s.rt.steps[stepId])], mid.steps)
    requires PromotedFrom(s.def.steps, 0, mid.steps, now.steps)
    ensures now.steps.Keys == s.rt.steps.Keys
    ensures AllClosed(now.steps) <==> LastOpen(s.rt.steps, stepId)
    ensures EndStatus(now.steps) == EndStatus(s.rt.steps)
  {
    var passed := s.rt.steps[stepId := Passed(s.rt.steps[stepId])];
    hide DependencyReady;
    forall k | k in s.rt.steps
      ensures k in now.steps
      ensures (now.steps[k].status in {Completed, Cancelled} <==>
                  k == stepId || s.rt.steps[k].status in {Completed, Cancelled})
      ensures now.steps[k].status == Cancelled <==> s.rt.steps[k].status == Cancelled
    {
      var j :| 0 <= j < |s.def.steps| && s.def.steps[j].stepId == k;
      assert Promoted(s.def.steps[j], mid.steps, now.steps) && Like(passed[k], mid.steps[k]);
    }
    assert stepId in now.steps;
  }

  // ----- transitionStep

  /** A permitted transition that records a new event, under an event id of its own or not, throws after that append
      exactly when it cancels the last open step of a task that was already declared completed. */
  lemma CancelThrowsAfterAppend(d: Disk, stepId: Id, to: StepStatus, reason: Option<string>, identity: Identity,
                                uuid: Uuids)
    requires DiskInv(d) && d.snap.rt.steps.Keys == StepIds(d.snap.def.steps) && stepId in d.snap.rt.steps
    requires TransitionRefusal(d.snap, stepId, to).None? && to !in {Completed, Verifying}
    requires NewlyRecorded(d.log, TransitionInput(d.snap, stepId, to, reason, identity), uuid)
    ensures var r := Exec(d, TransitionStepOp(stepId, to, reason, identity), uuid);
            && (r.Halted? <==>
                  to == Cancelled && LastOpen(d.snap.rt.steps, stepId) && d.snap.rt.task.status == TCompleted)
            && (r.Halted? ==>
                  r == Halted(d.log + [NewEvent(d.log, TransitionInput(d.snap, stepId, to, reason, identity), uuid)],
                              IllegalTaskTransition))
            && (r.Wrote? ==> Grew(uuid, d.log, r))
  {
    hide Fit, DerivedOk, Sound, SequencesOk, SnapshotOk, AddSteps, GatePass, ReconcileReadiness, Settle, NewlyRecorded,
      TransitionRefusal, RefreshDerived, CancelWhenClosed, Transitioned, LastOpen, TransitionInput;
    var s := d.snap;
    var input := TransitionInput(s, stepId, to, reason, identity);
    RecordsNew(WithStep(s.rt, stepId, Transitioned(s.rt.steps[stepId], to, reason)), d.log, input, uuid);
    var n := Append(WithStep(s.rt, stepId, Transitioned(s.rt.steps[stepId], to, reason)), d.log, input, uuid);
    CancelTail(d, stepId, to, reason, identity, n, uuid);
  }

  /** The event is new, and the generator stays clear of it. */
  ghost predicate NewlyRecorded(log: seq<Event>, input: EventInput, uuid: Uuids) {
    var e := NewEvent(log, input, uuid);
    !EventLedger.Recorded(log, e.eventId) && FreshIds(uuid, log + [e])
  }

  lemma AnonymousIsNew(log: seq<Event>, input: EventInput, uuid: Uuids)
    requires FreshIds(uuid, log) && input.identity.eventId.None?
    ensures NewlyRecorded(log, input, uuid)
  {
    FreshNext(uuid, log, input);
  }

  lemma RecordsNew(rt: Runtime, log: seq<Event>, input: EventInput, uuid: Uuids)
    requires NewlyRecorded(log, input, uuid)
    ensures !Replayed(log, input)
    ensures var n := Append(rt, log, input, uuid);
            n.Noted? && n.log == log + [NewEvent(log, input, uuid)] && FreshIds(uuid, n.log)
  {
    hide FreshIds;
  }

  lemma CancelTail(d: Disk, stepId: Id, to: StepStatus, reason: Option<string>, identity: Identity, n: Noted,
                   uuid: Uuids)
    requires DiskInv(d) && d.snap.rt.steps.Keys == StepIds(d.snap.def.steps) && stepId in d.snap.rt.steps
    requires to != Completed
    requires n.Noted? && FreshIds(uuid, n.log)
    requires n == Append(WithStep(d.snap.rt, stepId, Transitioned(d.snap.rt.steps[stepId], to, reason)), d.log,
                         TransitionInput(d.snap, stepId, to, reason, identity), uuid)
    ensures n.rt.steps.Keys == d.snap.rt.steps.Keys
    ensures var r := CancelWhenClosed(d.snap, RefreshDerived(d.snap.def, n.rt), n.log, uuid);
            && (r.Halted? <==>
                  to == Cancelled && LastOpen(d.snap.rt.steps, stepId) && d.snap.rt.task.status == TCompleted)
            && (if r.Halted? then r == Halted(n.log, IllegalTaskTransition) else Grew(uuid, n.log, r))
  {
    hide Fit, DerivedOk, Sound, FreshIds, Append, TaskProgress, ActiveList, CancelWhenClosed, LastOpen, AllClosed,
      SomeCancelled, SnapshotOk;
    var s := d.snap;
    var rt := WithStep(s.rt, stepId, Transitioned(s.rt.steps[stepId], to, reason));
    AppendKeeps(rt, d.log, TransitionInput(s, stepId, to, reason, identity), uuid);
    var rt1 := RefreshDerived(s.def, n.rt);
    ClosedByMove(s, stepId, to, reason, rt1.steps);
    CancelExact(s, rt1, n.log, uuid);
  }

  lemma ClosedByMove(s: Snapshot, stepId: Id, to: StepStatus, reason: Option<string>, now: map<Id, StepRuntime>)
    requires stepId in s.rt.steps && to != Completed
    requires SameSteps(s.rt.steps[stepId := Transitioned(s.rt.steps[stepId], to, reason)], now)
    ensures SomeCancelled(now) && AllClosed(now) <==> to == Cancelled && LastOpen(s.rt.steps, stepId)
  {
    var moved := s.rt.steps[stepId := Transitioned(s.rt.steps[stepId], to, reason)];
    SameStepsFacts([], moved, now);
    assert moved[stepId].status == to;
    forall k | k in s.rt.steps && k != stepId ensures moved[k] == s.rt.steps[k] {}
    if to == Cancelled && LastOpen(s.rt.steps, stepId) {
      assert AllClosed(moved);
    }
    if AllClosed(moved) {
      assert moved[stepId].status in {Completed, Cancelled};
      forall k | k in s.rt.steps && k != stepId
        ensures s.rt.steps[k].status in {Completed, Cancelled} { assert k in moved; }
    }
  }

  lemma CancelExact(s: Snapshot, rt: Runtime, log: seq<Event>, uuid: Uuids)
    requires SnapshotOk(s) && FreshIds(uuid, log) && StepIds(s.def.steps) <= rt.steps.Keys
    requires rt.steps.Keys == s.rt.steps.Keys
    requires rt.assignments == s.rt.assignments && rt.bindings == s.rt.bindings
    ensures var r := CancelWhenClosed(s, rt, log, uuid);
            if rt.task.status == TCompleted && SomeCancelled(rt.steps) && AllClosed(rt.steps)
            then r == Halted(log, IllegalTaskTransition) else Grew(uuid, log, r)
  {
    hide FreshIds, DefinitionOk, RuntimeOk, TaskProgress, ActiveList, AllClosed, SomeCancelled;
    SnapRuntimeOk(s);
    if rt.task.status != TCancelled && SomeCancelled(rt.steps) && AllClosed(rt.steps) {
      var input := EventInput(None, None, TaskStateChanged(rt.task.status, TCancelled, Some("all_steps_terminal")),
                              Anonymous);
      var rt1 := rt.(task := rt.task.(status := TCancelled));
      FreshNext(uuid, log, input);
      var n := Append(rt1, log, input, uuid);
      RuntimeOkLike(s.def, s.rt, n.rt);
    } else {
      RuntimeOkLike(s.def, s.rt, rt);
    }
  }

  // ----- addSteps

  lemma {:induction false} AddedAll(rt: Runtime, log: seq<Event>, additions: seq<StepDef>, i: nat, uuid: Uuids)
    requires i <= |additions| && FreshIds(uuid, log)
    ensures var r := AppendAdded(rt, log, additions, i, uuid);
            r.Ran? && log <= r.log && |r.log| == |log| + |additions| - i
            && (forall k :: i <= k < |additions| ==> r.log[|log| + k - i].body == StepAdded(additions[k]))
            && r.rt.assignments == rt.assignments && r.rt.bindings == rt.bindings
    decreases |additions| - i
  {
    hide FreshIds;
    if i < |additions| {
      var input := EventInput(Some(additions[i].stepId), None, StepAdded(additions[i]), Anonymous);
      FreshNext(uuid, log, input);
      var n := Append(rt, log, input, uuid);
      AddedAll(n.rt, n.log, additions, i + 1, uuid);
      var r := AppendAdded(n.rt, n.log, additions, i + 1, uuid);
      assert r.log[|log|] == n.log[|log|];
    }
  }

  /** An addition that is not refused at once records all its steps, and then throws exactly when the extended
      definition is invalid. */
  lemma AdditionThrowsAfterAppend(d: Disk, additions: seq<StepDef>, uuid: Uuids)
    requires DiskInv(d) && FreshIds(uuid, d.log)
    requires additions != [] && d.snap.rt.task.status !in {TCompleted, TCancelled}
    requires UniqueIds(d.snap.def.steps + additions)
    ensures var r := Exec(d, AddStepsOp(additions), uuid);
            && (r.Halted? <==>
                  !DefinitionOk(d.snap.def.(revision := d.snap.def.revision + 1,
                                              steps := d.snap.def.steps + additions)))
            && d.log <= r.log && |r.log| == |d.log| + |additions|
            && (forall k :: 0 <= k < |additions| ==> r.log[|d.log| + k].body == StepAdded(additions[k]))
  {
    hide Fit, DerivedOk, Sound, SequencesOk, DefinitionOk, AppendAdded, GatePass, TransitionStep, ReconcileReadiness,
      Settle, FreshIds, TaskProgress, ActiveList, UniqueIds, InitialSteps, StepIds, RuntimeOk;
    var s := d.snap;
    var def := s.def.(revision := s.def.revision + 1, steps := s.def.steps + additions);
    SnapRuntimeOk(s);
    ExtendedFacts(s.def.steps, s.rt.steps, additions);
    var steps := s.rt.steps + InitialSteps(additions, CompletedIds(s.rt.steps));
    AddedKeys(s.def.steps, s.rt.steps, additions, steps);
    var rt := RefreshDerived(def, s.rt.(steps := steps));
    AddedAll(rt, d.log, additions, 0, uuid);
    var r := AppendAdded(rt, d.log, additions, 0, uuid);
    AddedRuntimeOk(s, def, RefreshDerived(def, r.rt));
  }

  lemma AddedRuntimeOk(s: Snapshot, def: Workflow, rt: Runtime)
    requires RuntimeOk(s.def, s.rt) && s.def.steps <= def.steps && rt.steps.Keys == StepIds(def.steps)
    requires rt.assignments == s.rt.assignments && rt.bindings == s.rt.bindings
    ensures RuntimeOk(def, rt)
  {
    assert forall x :: x in s.def.steps ==> x in def.steps;
    assert StepIds(s.def.steps) <= StepIds(def.steps);
  }
}
