/** Gates over whole calls and runs: which one passes, and what a completed step has delivered. */
module Outputs {
  import opened Wrappers
  import opened Contracts
  import opened StateMachine
  import opened Scheduler
  import opened EventLedger
  import opened Store
  import opened Engine
  import opened Gates
  import opened Invariants
  import opened Runs
  import opened Effects
  import opened Capacity
  import opened History
  import opened Success
  import opened Losses

  // ----- one gate

  /** A gate that completes had all it asks for, whatever identifiers were drawn. */
  lemma PassedGateWasMet(d: Disk, stepId: Id, e: Evidence, uuid: Uuids)
    requires DiskInv(d) && Exec(d, GatePassOp(stepId, e), uuid).Wrote?
    ensures d.snap.rt.steps.Keys == StepIds(d.snap.def.steps) && GateMet(d.snap, d.log, stepId, e)
  {
    hide DiskInv, Exec, GateMet, GateRefusal;
    DiskValid(d);
    WroteWasPermitted(d, GatePassOp(stepId, e), uuid);
    GateMetExactly(d.snap, d.log, stepId, e);
  }

  /** With new identifiers a gate passes if and only if it has all it asks for, and the task, when no other step is
      open, may take the status its steps then give it. */
  lemma GateExactly(d: Disk, stepId: Id, e: Evidence, uuid: Uuids)
    requires DiskInv(d) && FreshIds(uuid, d.log)
    ensures d.snap.rt.steps.Keys == StepIds(d.snap.def.steps)
    ensures Exec(d, GatePassOp(stepId, e), uuid).Wrote? <==>
              && GateMet(d.snap, d.log, stepId, e)
              && (LastOpen(d.snap.rt.steps, stepId) ==>
                    ValidTaskTransition(d.snap.rt.task.status, EndStatus(d.snap.rt.steps)))
  {
    hide DiskInv, Exec, GateMet, FreshIds, LastOpen, EndStatus;
    DiskValid(d);
    if Exec(d, GatePassOp(stepId, e), uuid).Wrote? { PassedGateWasMet(d, stepId, e, uuid); }
    if GateMet(d.snap, d.log, stepId, e) { GateThrowsAfterAppend(d, stepId, e, uuid); }
  }

  /** The gate of the last open step records that it passed and then how the task ended: completed, with its steps in
      definition order, or cancelled if a step was. */
  lemma ClosingIsTold(d: Disk, stepId: Id, e: Evidence, uuid: Uuids)
    requires DiskInv(d) && FreshIds(uuid, d.log) && LastOpen(d.snap.rt.steps, stepId)
    requires Exec(d, GatePassOp(stepId, e), uuid).Wrote?
    ensures stepId in d.snap.rt.steps
    ensures var log, n := Exec(d, GatePassOp(stepId, e), uuid).log, |d.log|;
            && |log| == n + 2 && log[..n] == d.log
            && log[n].stepId == Some(stepId) && log[n].assignmentId == d.snap.rt.steps[stepId].assignmentId
            && log[n].body == GatePassed(e)
            && log[n+1].stepId.None? && log[n+1].assignmentId.None?
            && if exists k :: k in d.snap.rt.steps && d.snap.rt.steps[k].status == Cancelled
               then log[n+1].body == TaskStateChanged(d.snap.rt.task.status, TCancelled, Some("all_steps_terminal"))
               else log[n+1].body.TaskCompleted? && Names(d.snap.def.steps, log[n+1].body.completedStepIds)
  {
    hide DiskInv, Exec, Append, CloseTask, GateMet, GateInput, FreshIds, AllClosed, SomeCancelled, Names, NewEvent,
      LastOpen;
    PassedGateWasMet(d, stepId, e, uuid);
    var n := LastGate(d, stepId, e, uuid);
    InputOfLast(d.snap, d.log, stepId, e, uuid);
    ClosingEvent(d.snap, n.rt, n.log, uuid);
  }

  lemma InputOfLast(s: Snapshot, log: seq<Event>, stepId: Id, e: Evidence, uuid: Uuids)
    requires stepId in s.rt.steps
    ensures var ev := NewEvent(log, GateInput(s, stepId, e), uuid);
            ev.stepId == Some(stepId) && ev.assignmentId == s.rt.steps[stepId].assignmentId && ev.body == GatePassed(e)
  {}

  /** With no other step open nothing is promoted: the gate is recorded and the task closed. */
  lemma LastGate(d: Disk, stepId: Id, e: Evidence, uuid: Uuids) returns (n: Noted)
    requires DiskInv(d) && FreshIds(uuid, d.log) && d.snap.rt.steps.Keys == StepIds(d.snap.def.steps)
    requires GateMet(d.snap, d.log, stepId, e) && LastOpen(d.snap.rt.steps, stepId)
    ensures stepId in d.snap.rt.steps && n.Noted?
    ensures n.log == d.log + [NewEvent(d.log, GateInput(d.snap, stepId, e), uuid)] && FreshIds(uuid, n.log)
    ensures StepIds(d.snap.def.steps) <= n.rt.steps.Keys && AllClosed(n.rt.steps) && n.rt.steps.Keys != {}
    ensures n.rt.task.status == d.snap.rt.task.status
    ensures SomeCancelled(n.rt.steps) <==> exists k :: k in d.snap.rt.steps && d.snap.rt.steps[k].status == Cancelled
    ensures Exec(d, GatePassOp(stepId, e), uuid) == CloseTask(d.snap, n.rt, n.log, uuid)
  {
    hide DiskInv, Exec, Append, CloseTask, PromoteFrom, GateMet, GateRefusal, GateInput, FreshIds, AllClosed,
      SomeCancelled, LastOpen, Passed, SequencesOk, Sound;
    var s := d.snap;
    GateMetExactly(s, d.log, stepId, e);
    GateKnown(s, d.log, stepId, e);
    DiskUnique(d);
    DiskNumbers(d);
    var input := GateInput(s, stepId, e);
    InputOfGate(s, stepId, e);
    FreshNext(uuid, d.log, input);
    var rt := WithStep(s.rt, stepId, Passed(s.rt.steps[stepId]));
    PassedNumbers(s.rt, |d.log|, stepId);
    AppendKeeps(rt, d.log, input, uuid);
    NewlyAppended(rt, d.log, input, uuid);
    n := Append(rt, d.log, input, uuid);
    SameKeys(rt.steps, n.rt.steps);
    NothingWaits(s, stepId, n.rt);
    NothingToPromote(s.def.steps, 0, n.rt, n.log, uuid);
    AllAreClosed(s, stepId, n.rt);
    GateUnfolds(d, stepId, e, n, uuid);
  }

  lemma DiskNumbers(d: Disk)
    requires DiskInv(d)
    ensures Sound(d.log) && SequencesOk(d.snap.rt, |d.log|)
  {}

  lemma InputOfGate(s: Snapshot, stepId: Id, e: Evidence)
    requires stepId in s.rt.steps
    ensures GateInput(s, stepId, e).identity == Anonymous
  {}

  lemma NewlyAppended(rt: Runtime, log: seq<Event>, input: EventInput, uuid: Uuids)
    requires !Replayed(log, input) && !EventLedger.Recorded(log, NewEvent(log, input, uuid).eventId)
    ensures Append(rt, log, input, uuid).Noted?
    ensures Append(rt, log, input, uuid).log == log + [NewEvent(log, input, uuid)]
  {}

  lemma GateUnfolds(d: Disk, stepId: Id, e: Evidence, n: Noted, uuid: Uuids)
    requires DiskInv(d) && stepId in d.snap.rt.steps && d.snap.rt.steps.Keys == StepIds(d.snap.def.steps)
    requires GateRefusal(d.snap, d.log, stepId, e).None? && n.Noted? && StepIds(d.snap.def.steps) <= n.rt.steps.Keys
    requires n == Append(WithStep(d.snap.rt, stepId, Passed(d.snap.rt.steps[stepId])), d.log,
                         GateInput(d.snap, stepId, e), uuid)
    requires PromoteFrom(d.snap.def.steps, 0, n.rt, n.log, uuid) == Ran(n.rt, n.log)
    ensures Exec(d, GatePassOp(stepId, e), uuid) == CloseTask(d.snap, n.rt, n.log, uuid)
  {
    hide Fit, DerivedOk, SnapshotOk, Sound, SequencesOk, Append, CloseTask, PromoteFrom, GateRefusal, Passed;
  }

  /** The identifiers of the definitions, in order. */
  predicate Names(defs: seq<StepDef>, ids: seq<Id>) {
    |ids| == |defs| && forall i :: 0 <= i < |ids| ==> ids[i] == defs[i].stepId
  }

  lemma AllAreClosed(s: Snapshot, stepId: Id, rt: Runtime)
    requires stepId in s.rt.steps && LastOpen(s.rt.steps, stepId) && s.rt.steps[stepId].status == Verifying
    requires SameSteps(s.rt.steps[stepId := Passed(s.rt.steps[stepId])], rt.steps)
    ensures AllClosed(rt.steps) && rt.steps.Keys != {}
    ensures SomeCancelled(rt.steps) <==> exists k :: k in s.rt.steps && s.rt.steps[k].status == Cancelled
  {
    var passed := s.rt.steps[stepId := Passed(s.rt.steps[stepId])];
    assert forall k :: k in rt.steps ==> Like(passed[k], rt.steps[k]);
    assert stepId in rt.steps;
    if k :| k in s.rt.steps && s.rt.steps[k].status == Cancelled { assert k in rt.steps && passed[k] == s.rt.steps[k]; }
  }

  lemma ClosingEvent(s: Snapshot, rt: Runtime, log: seq<Event>, uuid: Uuids)
    requires StepIds(s.def.steps) <= rt.steps.Keys && AllClosed(rt.steps) && rt.steps.Keys != {}
    requires CloseTask(s, rt, log, uuid).Wrote? && FreshIds(uuid, log)
    ensures var r := CloseTask(s, rt, log, uuid);
            && |r.log| == |log| + 1 && r.log[..|log|] == log
            && var e := r.log[|log|];
            && e.stepId.None? && e.assignmentId.None?
            && if SomeCancelled(rt.steps)
               then e.body == TaskStateChanged(rt.task.status, TCancelled, Some("all_steps_terminal"))
               else e.body.TaskCompleted? && Names(s.def.steps, e.body.completedStepIds)
  {
    hide SnapshotOk, RefreshDerived, FreshIds;
    assert AllCompleted(rt.steps) <==> !SomeCancelled(rt.steps);
    var to := if AllCompleted(rt.steps) then TCompleted else TCancelled;
    var body := if to == TCompleted then TaskCompleted(IdList(s.def.steps))
                else TaskStateChanged(rt.task.status, TCancelled, Some("all_steps_terminal"));
    FreshNext(uuid, log, EventInput(None, None, body, Anonymous));
  }

  // ----- completed steps

  /** A completed step whose gate asks for outputs has delivered them under the assignment it has now. */
  ghost predicate StepDelivered(s: Snapshot, log: seq<Event>, id: Id)
    requires s.rt.steps.Keys == StepIds(s.def.steps) && id in s.rt.steps
  {
    var step, x := DefOf(s.def.steps, id), s.rt.steps[id];
    x.status == Completed && "required_outputs" in step.completionGate ==>
      AllDelivered(log, id, x.assignmentId, step.expectedOutputs)
  }

  ghost predicate DoneDelivered(d: Disk)
    requires d.snap.rt.steps.Keys == StepIds(d.snap.def.steps)
  {
    forall id :: id in d.snap.rt.steps ==> StepDelivered(d.snap, d.log, id)
  }

  /** Only an assignment changes the assignment of a step, and never that of a completed one. */
  lemma AssignmentOfDone(s: Snapshot, log: seq<Event>, op: Op, id: Id)
    requires s.rt.steps.Keys == StepIds(s.def.steps) && id in s.rt.steps && Permitted(s, log, op)
    requires s.rt.steps[id].status in {Completed, Verifying}
    ensures NewStep(s, op, id).assignmentId == s.rt.steps[id].assignmentId
  {
    hide DependencyReady, SkillsOpen, ActiveCount, OutputPresent, PreflightBlocker, AtLeast;
  }

  lemma {:induction false} DefOfPrefix(defs: seq<StepDef>, more: seq<StepDef>, id: Id)
    requires id in StepIds(defs)
    ensures id in StepIds(defs + more) && DefOf(defs + more, id) == DefOf(defs, id)
  {
    var first := DefOf(defs, id);
    assert first in defs + more;
    assert (defs + more)[0] == defs[0] && (defs + more)[1..] == defs[1..] + more;
    if defs[0].stepId != id {
      assert first in defs[1..] by { assert defs == [defs[0]] + defs[1..]; }
      DefOfPrefix(defs[1..], more, id);
    }
  }

  lemma DeliveredCall(d: Disk, op: Op, uuid: Uuids, id: Id)
    requires DiskInv(d) && d.snap.rt.steps.Keys == StepIds(d.snap.def.steps) && DoneDelivered(d)
    requires Exec(d, op, uuid).Wrote? && d.log <= Exec(d, op, uuid).log
    requires var now := Exec(d, op, uuid).snap; now.rt.steps.Keys == StepIds(now.def.steps) && id in now.rt.steps
    ensures StepDelivered(Exec(d, op, uuid).snap, Exec(d, op, uuid).log, id)
  {
    hide DiskInv, Exec, Effect, StepDelivered, Permitted, GateMet;
    var s, r := d.snap, Exec(d, op, uuid);
    DiskValid(d);
    ExecEffect(d, op, uuid);
    WroteWasPermitted(d, op, uuid);
    if op.GatePassOp? { PassedGateWasMet(d, op.stepId, op.evidence, uuid); }
    if id in s.rt.steps {
      assert StepDelivered(s, d.log, id);
      DeliveredMore(s, d.log, r.log, id);
      OldDelivered(s, d.log, op, r.snap, r.log, id);
    } else {
      NewUndone(s, op, r.snap, r.log, id);
    }
  }

  lemma OldDelivered(s: Snapshot, log: seq<Event>, op: Op, now: Snapshot, more: seq<Event>, id: Id)
    requires s.rt.steps.Keys == StepIds(s.def.steps) && now.rt.steps.Keys == StepIds(now.def.steps)
    requires id in s.rt.steps && id in now.rt.steps && Permitted(s, log, op) && Effect(s, op, now) && log <= more
    requires StepDelivered(s, more, id) && (op.GatePassOp? ==> GateMet(s, log, op.stepId, op.evidence))
    ensures StepDelivered(now, more, id)
  {
    hide NewStep, Permitted, AllDelivered, GateMet, DefOf;
    assert Like(NewStep(s, op, id), now.rt.steps[id]);
    NewStatus(s, log, op, id);
    DefOfPrefix(s.def.steps, Added(op), id);
    if now.rt.steps[id].status == Completed {
      CompletesKnown(s, log, op);
      AssignmentOfDone(s, log, op, id);
      if op.GatePassOp? && id == op.stepId { GateAsked(s, log, op); }
      AllLater(log, more, id, s.rt.steps[id].assignmentId, DefOf(s.def.steps, id).expectedOutputs);
    }
  }

  lemma NewUndone(s: Snapshot, op: Op, now: Snapshot, log: seq<Event>, id: Id)
    requires s.rt.steps.Keys == StepIds(s.def.steps) && now.rt.steps.Keys == StepIds(now.def.steps)
    requires Effect(s, op, now) && id in now.rt.steps && id !in s.rt.steps
    ensures StepDelivered(now, log, id)
  {
    hide NewStep, AllDelivered, DefOf;
    assert Like(InitialStep(DefOf(Added(op), id), CompletedIds(s.rt.steps)), now.rt.steps[id]);
  }

  lemma GateAsked(s: Snapshot, log: seq<Event>, op: Op)
    requires s.rt.steps.Keys == StepIds(s.def.steps) && op.GatePassOp? && GateMet(s, log, op.stepId, op.evidence)
    ensures var step := DefOf(s.def.steps, op.stepId);
            "required_outputs" in step.completionGate ==>
              AllDelivered(log, op.stepId, s.rt.steps[op.stepId].assignmentId, step.expectedOutputs)
  {}

  lemma AllLater(log: seq<Event>, more: seq<Event>, stepId: Id, assignmentId: Option<Id>, outputs: seq<ExpectedOutput>)
    requires log <= more
    ensures AllDelivered(log, stepId, assignmentId, outputs) ==> AllDelivered(more, stepId, assignmentId, outputs)
  {
    hide Delivered;
    forall o | Delivered(log, stepId, assignmentId, o) ensures Delivered(more, stepId, assignmentId, o) {
      DeliveredLater(log, more, stepId, assignmentId, o);
    }
  }

  lemma DeliveredStep(d: Disk, m: Move)
    requires DiskInv(d) && d.snap.rt.steps.Keys == StepIds(d.snap.def.steps) && DoneDelivered(d)
    ensures var now := Step(d, m); now.snap.rt.steps.Keys == StepIds(now.snap.def.steps) && DoneDelivered(now)
  {
    hide DiskInv, Exec, StepDelivered;
    StepInv(d, m);
    var now := Step(d, m);
    DiskValid(now);
    forall id | id in now.snap.rt.steps ensures StepDelivered(now.snap, now.log, id) {
      if m.Call? && Exec(d, m.op, m.uuid).Wrote? {
        DeliveredCall(d, m.op, m.uuid, id);
      } else {
        assert now.snap == d.snap && StepDelivered(d.snap, d.log, id);
        DeliveredMore(d.snap, d.log, now.log, id);
      }
    }
  }

  lemma DeliveredMore(s: Snapshot, log: seq<Event>, more: seq<Event>, id: Id)
    requires s.rt.steps.Keys == StepIds(s.def.steps) && id in s.rt.steps && log <= more && StepDelivered(s, log, id)
    ensures StepDelivered(s, more, id)
  {
    hide AllDelivered;
    AllLater(log, more, id, s.rt.steps[id].assignmentId, DefOf(s.def.steps, id).expectedOutputs);
  }

  lemma {:induction false} RunDelivered(d: Disk, moves: seq<Move>)
    requires DiskInv(d) && d.snap.rt.steps.Keys == StepIds(d.snap.def.steps) && DoneDelivered(d)
    ensures var now := Run(d, moves); now.snap.rt.steps.Keys == StepIds(now.snap.def.steps) && DoneDelivered(now)
  {
    hide DiskInv, Step, DoneDelivered;
    if moves != [] {
      var n := |moves| - 1;
      RunDelivered(d, moves[..n]);
      RunInv(d, moves[..n]);
      DeliveredStep(Run(d, moves[..n]), moves[n]);
    }
  }

  /** In every reachable state a completed step whose gate asks for outputs has each required one: under its present
      assignment the event file has as many differently named artifacts of that name as the output asks for. */
  lemma CompletedHaveDelivered(d: Disk)
    requires Reachable(d)
    ensures d.snap.rt.steps.Keys == StepIds(d.snap.def.steps) && DoneDelivered(d)
  {
    hide DiskInv, Run, Born, Creatable, DoneDelivered;
    var def, uuid, b, moves :| Creatable(def) && d == Run(Born(def, uuid, b), moves);
    var first := Born(def, uuid, b);
    BornInv(def, uuid, b);
    DiskValid(first);
    BornUndone(def, uuid, b);
    assert DoneDelivered(first) by { NoneDone(first); }
    RunDelivered(first, moves);
  }

  lemma NoneDone(d: Disk)
    requires d.snap.rt.steps.Keys == StepIds(d.snap.def.steps) && CompletedIds(d.snap.rt.steps) == {}
    ensures DoneDelivered(d)
  {
    hide DefOf, AllDelivered;
    forall id | id in d.snap.rt.steps ensures d.snap.rt.steps[id].status != Completed {
      assert id !in CompletedIds(d.snap.rt.steps);
    }
  }
}
