/** The exact effect of a completed call on every step state, assignment and the task status. */
module Effects {
  import opened Wrappers
  import opened Contracts
  import opened StateMachine
  import opened Dag
  import opened Scheduler
  import opened EventLedger
  import opened Store
  import opened Engine
  import opened Invariants
  import opened Operations

  /** The state a call gives to a step that exists before it, event numbers aside. */
  function NewStep(s: Snapshot, op: Op, id: Id): StepRuntime
    requires s.rt.steps.Keys == StepIds(s.def.steps) && id in s.rt.steps
  {
    var x := s.rt.steps[id];
    match op
    case PreflightOp(k, p) => if k == id then Preflighted(x, p) else x
    case AssignOp(k, _, _, a) => if k == id then Dispatched(x, a) else x
    case TransitionStepOp(k, to, why, _) =>
      if k != id then x else if to == Verifying then Requested(x) else Transitioned(x, to, why)
    case ProgressOp(k, p, activity, _) => if k == id && p.Some? then Progressed(x, Clamp01(p.value), activity) else x
    case RequestCompletionOp(k, _, _) => if k == id then Requested(x) else x
    case GatePassOp(k, _) =>
      if k == id then Passed(x)
      else if k in s.rt.steps && Promotable(DefOf(s.def.steps, id), s.rt.steps[k := Passed(s.rt.steps[k])])
      then x.(status := Ready)
      else x
    case GateFailOp(k, why) => if k == id then SentBack(x, GateText(why)) else x
    case _ => x
  }

  function Added(op: Op): seq<StepDef> {
    if op.AddStepsOp? then op.additions else []
  }

  ghost predicate StepEffect(s: Snapshot, op: Op, now: map<Id, StepRuntime>)
    requires s.rt.steps.Keys == StepIds(s.def.steps)
  {
    && now.Keys == s.rt.steps.Keys + StepIds(Added(op))
    && (forall id :: id in s.rt.steps ==> id in now && Like(NewStep(s, op, id), now[id]))
    && (forall id :: id in StepIds(Added(op)) && id !in s.rt.steps ==>
          id in now && Like(InitialStep(DefOf(Added(op), id), CompletedIds(s.rt.steps)), now[id]))
  }

  /** The status of the task after its steps became `now`. */
  function ClosingStatus(t: TaskStatus, now: map<Id, StepRuntime>): TaskStatus {
    if !AllClosed(now) || now.Keys == {} then t
    else if SomeCancelled(now) then TCancelled
    else TCompleted
  }

  function NewTaskStatus(s: Snapshot, op: Op, now: map<Id, StepRuntime>): TaskStatus {
    var t := s.rt.task.status;
    match op
    case TransitionTaskOp(to, _) => to
    case AssignOp(_, _, _, _) => if t == TReady then TRunning else t
    case TransitionStepOp(_, _, _, _) => ClosingStatus(t, now)
    case GatePassOp(_, _) => ClosingStatus(t, now)
    case _ => t
  }

  function NewAssignments(s: Snapshot, op: Op): seq<Assignment> {
    match op
    case AssignOp(k, executor, executorId, a) =>
      if k in s.rt.steps then s.rt.assignments + [Assignment(a, k, s.rt.steps[k].attempt + 1, executor, executorId)]
      else s.rt.assignments
    case _ => s.rt.assignments
  }

  ghost predicate Effect(s: Snapshot, op: Op, now: Snapshot)
    requires s.rt.steps.Keys == StepIds(s.def.steps)
  {
    && now.def.maxParallelSteps == s.def.maxParallelSteps && now.def.steps == s.def.steps + Added(op)
    && StepEffect(s, op, now.rt.steps)
    && now.rt.task.status == NewTaskStatus(s, op, now.rt.steps)
    && now.rt.assignments == NewAssignments(s, op)
  }

  lemma ChangeEffect(s: Snapshot, op: Op)
    requires s.rt.steps.Keys == StepIds(s.def.steps) && SingleEvent(op)
    ensures var c := ChangeOf(s, op); c.Replace? ==>
              && c.rt.steps.Keys == s.rt.steps.Keys
              && (forall id :: id in s.rt.steps ==> c.rt.steps[id] == NewStep(s, op, id))
              && c.rt.task.status == NewTaskStatus(s, op, c.rt.steps)
              && c.rt.assignments == NewAssignments(s, op)
  {
    hide DependencyReady, ActiveCount, SkillsOpen, PreflightBlocker, AtLeast, ValidStepTransition, ValidTaskTransition;
  }

  lemma SingleEffect(s: Snapshot, log: seq<Event>, op: Op, uuid: Uuids)
    requires DiskInv(Disk(s, log)) && SingleEvent(op) && s.rt.steps.Keys == StepIds(s.def.steps)
    ensures var r := Settle(s, log, ChangeOf(s, op), uuid); r.Wrote? ==> Effect(s, op, r.snap)
  {
    hide *;
    var c := ChangeOf(s, op);
    SnapOf(s, log);
    ChangeFit'(s, op);
    ChangeEffect(s, op);
    ChangeNumbers(s, c, |log|);
    SettleShape(s, log, c, uuid);
    var r := Settle(s, log, c, uuid);
    if r.Wrote? { WrittenEffect(s, op, c.rt, r.snap); }
  }

  lemma SnapOf(s: Snapshot, log: seq<Event>)
    requires DiskInv(Disk(s, log))
    ensures SnapInv(s) && Sound(log) && SequencesOk(s.rt, |log|)
  {}

  lemma ChangeNumbers(s: Snapshot, c: Change, n: nat)
    requires SequencesOk(s.rt, n) && ChangeOk(s, c) && s.rt.steps.Keys == StepIds(s.def.steps)
    ensures c.Replace? ==> SequencesOk(c.rt, n) && StepIds(s.def.steps) <= c.rt.steps.Keys
  {
    hide Fit, StepIds;
    SequencesKept(s.rt, c, n);
  }

  lemma SingleKeepsStatus(s: Snapshot, op: Op, a: map<Id, StepRuntime>, b: map<Id, StepRuntime>)
    requires SingleEvent(op)
    ensures NewTaskStatus(s, op, a) == NewTaskStatus(s, op, b) && Added(op) == []
  {
    hide ClosingStatus;
  }

  lemma WrittenEffect(s: Snapshot, op: Op, rt: Runtime, now: Snapshot)
    requires s.rt.steps.Keys == StepIds(s.def.steps) && SingleEvent(op) && Written(s, rt, now)
    requires rt.steps.Keys == s.rt.steps.Keys
    requires forall id :: id in s.rt.steps ==> rt.steps[id] == NewStep(s, op, id)
    requires rt.task.status == NewTaskStatus(s, op, rt.steps) && rt.assignments == NewAssignments(s, op)
    ensures Effect(s, op, now)
  {
    hide NewStep, SnapshotOk, DerivedOk, NewAssignments, NewTaskStatus;
    SingleKeepsStatus(s, op, rt.steps, now.rt.steps);
    assert s.def.steps + [] == s.def.steps;
    forall id | id in s.rt.steps ensures Like(NewStep(s, op, id), now.rt.steps[id]) {
      assert Like(rt.steps[id], now.rt.steps[id]);
    }
  }

  lemma ChangeFit'(s: Snapshot, op: Op)
    requires SnapInv(s) && SingleEvent(op)
    ensures s.rt.steps.Keys == StepIds(s.def.steps) && ChangeOk(s, ChangeOf(s, op))
  {
    hide SnapInv, ChangeOf, ChangeOk, Fit, UniqueIds;
    SnapshotBase(s);
    ChangeFit(s, op);
  }

  lemma SequencesKept(rt: Runtime, c: Change, n: nat)
    requires SequencesOk(rt, n) && (c.Replace? ==> SameNumbers(rt, c.rt))
    ensures c.Replace? ==> SequencesOk(c.rt, n)
  {}

  // ----- transitionStep

  /** The cancellation of a closed task keeps the steps and sets the status. */
  lemma CancelEffect(s: Snapshot, rt: Runtime, log: seq<Event>, uuid: Uuids)
    requires Sound(log) && SequencesOk(rt, |log|) && StepIds(s.def.steps) <= rt.steps.Keys
    requires !AllCompleted(rt.steps)
    ensures var r := CancelWhenClosed(s, rt, log, uuid); r.Wrote? ==>
              SameSteps(rt.steps, r.snap.rt.steps) && r.snap.def == s.def && r.snap.rt.assignments == rt.assignments
              && r.snap.rt.task.status == ClosingStatus(rt.task.status, rt.steps)
  {
    hide Append, SnapshotOk, Sound;
    var r := CancelWhenClosed(s, rt, log, uuid);
    if rt.task.status != TCancelled && SomeCancelled(rt.steps) && AllClosed(rt.steps) {
      var rt1 := rt.(task := rt.task.(status := TCancelled));
      var input := EventInput(None, None, TaskStateChanged(rt.task.status, TCancelled, Some("all_steps_terminal")),
                              Anonymous);
      AppendKeeps(rt1, log, input, uuid);
    }
  }

  lemma TransitionEffect(s: Snapshot, log: seq<Event>, stepId: Id, to: StepStatus, reason: Option<string>,
                         identity: Identity, uuid: Uuids)
    requires DiskInv(Disk(s, log)) && s.rt.steps.Keys == StepIds(s.def.steps) && to !in {Completed, Verifying}
    requires TransitionRefusal(s, stepId, to).None?
    ensures stepId in s.rt.steps
    ensures var steps := s.rt.steps[stepId := Transitioned(s.rt.steps[stepId], to, reason)];
            var r := TransitionStep(s, log, stepId, to, reason, identity, uuid); r.Wrote? ==>
              SameSteps(steps, r.snap.rt.steps) && r.snap.def == s.def && r.snap.rt.assignments == s.rt.assignments
              && r.snap.rt.task.status == ClosingStatus(s.rt.task.status, steps)
  {
    hide SnapshotOk, Fit, DerivedOk, TransitionRefusal, Transitioned, Append, CancelWhenClosed, SequencesOk, Sound,
      AllCompleted, SomeCancelled, AllClosed;
    TransitionNumbers(s, |log|, stepId, to, reason);
    SnapshotBase(s);
    TransitionSteps(s, stepId, to, reason);
    var rt := WithStep(s.rt, stepId, Transitioned(s.rt.steps[stepId], to, reason));
    var input := TransitionInput(s, stepId, to, reason, identity);
    AppendKeeps(rt, log, input, uuid);
    var n := Append(rt, log, input, uuid);
    if n.Noted? {
      TransitionEffectTail(s, rt, n.rt, n.log, uuid);
    }
  }

  lemma TransitionEffectTail(s: Snapshot, rt: Runtime, noted: Runtime, log: seq<Event>, uuid: Uuids)
    requires Sound(log) && SequencesOk(noted, |log|) && StepIds(s.def.steps) <= rt.steps.Keys && SameRuntime(rt, noted)
    requires !AllCompleted(rt.steps)
    ensures noted.steps.Keys == rt.steps.Keys
    ensures var r := CancelWhenClosed(s, RefreshDerived(s.def, noted), log, uuid); r.Wrote? ==>
              SameSteps(rt.steps, r.snap.rt.steps) && r.snap.def == s.def && r.snap.rt.assignments == rt.assignments
              && r.snap.rt.task.status == ClosingStatus(rt.task.status, rt.steps)
  {
    hide CancelWhenClosed, Sound, AllCompleted, SomeCancelled, AllClosed, TaskProgress, ActiveList;
    var rt1 := RefreshDerived(s.def, noted);
    SameStepsFacts([], rt.steps, noted.steps);
    CancelEffect(s, rt1, log, uuid);
    var r := CancelWhenClosed(s, rt1, log, uuid);
    if r.Wrote? { SameStepsTransitive(rt.steps, rt1.steps, r.snap.rt.steps); }
  }

  // ----- gatePassed

  lemma CloseEffect(s: Snapshot, rt: Runtime, log: seq<Event>, uuid: Uuids)
    requires Sound(log) && SequencesOk(rt, |log|) && StepIds(s.def.steps) <= rt.steps.Keys && rt.steps.Keys != {}
    ensures var r := CloseTask(s, rt, log, uuid); r.Wrote? ==>
              SameSteps(rt.steps, r.snap.rt.steps) && r.snap.def == s.def && r.snap.rt.assignments == rt.assignments
              && r.snap.rt.task.status == ClosingStatus(rt.task.status, rt.steps)
  {
    hide SnapshotOk, Sound, Append, TaskProgress, ActiveList;
    if AllClosed(rt.steps) {
      var to := if rt.steps.Keys != {} && AllCompleted(rt.steps) then TCompleted else TCancelled;
      var body := if to == TCompleted then TaskCompleted(IdList(s.def.steps))
                  else TaskStateChanged(rt.task.status, TCancelled, Some("all_steps_terminal"));
      AppendKeeps(rt.(task := rt.task.(status := to)), log, EventInput(None, None, body, Anonymous), uuid);
    }
  }

  lemma GateEffect(s: Snapshot, log: seq<Event>, stepId: Id, e: Evidence, uuid: Uuids)
    requires DiskInv(Disk(s, log)) && Base(s) && GateRefusal(s, log, stepId, e).None?
    ensures stepId in s.rt.steps && s.rt.steps[stepId].status == Verifying
    ensures var r := GatePass(s, log, stepId, e, uuid); r.Wrote? ==> Effect(s, GatePassOp(stepId, e), r.snap)
  {
    hide SnapshotOk, Fit, DerivedOk, Append, PromoteFrom, CloseTask, Sound, UniqueIds, StepIds, PromotedFrom, Effect;
    var rt := WithStep(s.rt, stepId, Passed(s.rt.steps[stepId]));
    var input := EventInput(Some(stepId), s.rt.steps[stepId].assignmentId, GatePassed(e), Anonymous);
    AppendKeeps(rt, log, input, uuid);
    var n := Append(rt, log, input, uuid);
    if n.Noted? { GateEffectTail(s, log, stepId, e, n.rt, n.log, uuid); }
  }

  lemma GateEffectTail(s: Snapshot, log0: seq<Event>, stepId: Id, e: Evidence, rt: Runtime, log: seq<Event>,
                       uuid: Uuids)
    requires Base(s) && stepId in s.rt.steps && s.rt.steps[stepId].status == Verifying
    requires Sound(log) && SequencesOk(rt, |log|)
    requires SameRuntime(WithStep(s.rt, stepId, Passed(s.rt.steps[stepId])), rt)
    ensures StepIds(s.def.steps) <= rt.steps.Keys
    ensures var p := PromoteFrom(s.def.steps, 0, rt, log, uuid); p.Ran? ==>
              var r := CloseTask(s, p.rt, p.log, uuid); r.Wrote? ==> Effect(s, GatePassOp(stepId, e), r.snap)
  {
    hide Fit, PromoteFrom, CloseTask, Sound, SequencesOk, UniqueIds, StepEffect, PromotedFrom, Passed, ClosingStatus,
      StepIds;
    PromoteShape(s.def.steps, 0, rt, log, uuid);
    var p := PromoteFrom(s.def.steps, 0, rt, log, uuid);
    if p.Ran? {
      PromotedKeys(s.def.steps, rt.steps, p.rt.steps);
      CloseEffect(s, p.rt, p.log, uuid);
      var r := CloseTask(s, p.rt, p.log, uuid);
      if r.Wrote? {
        PromotionEffect(s, stepId, e, rt.steps, p.rt.steps, r.snap.rt.steps);
        ClosingLike(s.rt.task.status, p.rt.steps, r.snap.rt.steps);
      }
    }
  }

  lemma PromotedKeys(defs: seq<StepDef>, was: map<Id, StepRuntime>, now: map<Id, StepRuntime>)
    requires PromotedFrom(defs, 0, was, now)
    ensures now.Keys == was.Keys && StepIds(defs) <= now.Keys
  {}

  lemma ClosingLike(t: TaskStatus, a: map<Id, StepRuntime>, b: map<Id, StepRuntime>)
    requires SameSteps(a, b)
    ensures ClosingStatus(t, a) == ClosingStatus(t, b)
  {
    SameStepsFacts([], a, b);
  }

  lemma PromotionEffect(s: Snapshot, stepId: Id, e: Evidence, mid: map<Id, StepRuntime>, done: map<Id, StepRuntime>,
                        now: map<Id, StepRuntime>)
    requires UniqueIds(s.def.steps) && s.rt.steps.Keys == StepIds(s.def.steps)
    requires stepId in s.rt.steps && s.rt.steps[stepId].status == Verifying
    requires SameSteps(s.rt.steps[stepId := Passed(s.rt.steps[stepId])], mid)
    requires PromotedFrom(s.def.steps, 0, mid, done) && SameSteps(done, now)
    ensures StepEffect(s, GatePassOp(stepId, e), now)
  {
    hide DependencyReady, Passed;
    var was := s.rt.steps;
    var passed := was[stepId := Passed(was[stepId])];
    SameStepsFacts([], passed, mid);
    forall id | id in was ensures id in now && Like(NewStep(s, GatePassOp(stepId, e), id), now[id]) {
      var j :| 0 <= j < |s.def.steps| && s.def.steps[j] == DefOf(s.def.steps, id);
      assert Promoted(s.def.steps[j], mid, done);
      PromotionStep(s, stepId, e, id, passed, mid, done, now);
    }
  }

  lemma PromotionStep(s: Snapshot, stepId: Id, e: Evidence, id: Id, passed: map<Id, StepRuntime>,
                      mid: map<Id, StepRuntime>, done: map<Id, StepRuntime>, now: map<Id, StepRuntime>)
    requires s.rt.steps.Keys == StepIds(s.def.steps) && id in s.rt.steps && stepId in s.rt.steps
    requires passed == s.rt.steps[stepId := Passed(s.rt.steps[stepId])]
    requires SameSteps(passed, mid) && SameSteps(done, now) && id in done
    requires var x := DefOf(s.def.steps, id);
            Promoted(x, mid, done) && DependencyReady(x, passed) == DependencyReady(x, mid)
    ensures id in now && Like(NewStep(s, GatePassOp(stepId, e), id), now[id])
  {
    hide DependencyReady;
    assert Like(passed[id], mid[id]) && Like(done[id], now[id]);
  }

  // ----- addSteps

  lemma AddEffect(s: Snapshot, log: seq<Event>, additions: seq<StepDef>, uuid: Uuids)
    requires DiskInv(Disk(s, log)) && Base(s)
    ensures var r := AddSteps(s, log, additions, uuid); r.Wrote? ==> Effect(s, AddStepsOp(additions), r.snap)
  {
    hide SequencesOk, Sound, AppendAdded, Fit, ValidDag, DefinitionFieldsOk, TaskProgress, ActiveList, StepEffect,
      RuntimeOk, UniqueIds;
    var r := AddSteps(s, log, additions, uuid);
    if additions == [] {
      NothingAdded(s);
    } else if r.Wrote? {
      var def := s.def.(revision := s.def.revision + 1, steps := s.def.steps + additions);
      ExtendedFacts(s.def.steps, s.rt.steps, additions);
      var steps := s.rt.steps + InitialSteps(additions, CompletedIds(s.rt.steps));
      var rt := RefreshDerived(def, s.rt.(steps := steps));
      AddedNumbers(s.rt, |log|, additions, rt);
      AddedShape(rt, log, additions, 0, uuid);
      AddedStepEffect(s, additions, steps, r.snap.rt.steps);
    }
  }

  lemma NothingAdded(s: Snapshot)
    requires s.rt.steps.Keys == StepIds(s.def.steps)
    ensures StepEffect(s, AddStepsOp([]), s.rt.steps)
  {}

  lemma AddedStepEffect(s: Snapshot, additions: seq<StepDef>, steps: map<Id, StepRuntime>, now: map<Id, StepRuntime>)
    requires s.rt.steps.Keys == StepIds(s.def.steps)
    requires Extended(s.def.steps, s.rt.steps, additions, steps) && SameSteps(steps, now)
    ensures StepEffect(s, AddStepsOp(additions), now)
  {
    forall id | id in s.rt.steps ensures id in now && Like(NewStep(s, AddStepsOp(additions), id), now[id]) {
      assert steps[id] == s.rt.steps[id] && Like(steps[id], now[id]);
    }
    forall id | id in StepIds(additions) && id !in s.rt.steps
      ensures id in now && Like(InitialStep(DefOf(additions, id), CompletedIds(s.rt.steps)), now[id]) {
      assert Like(steps[id], now[id]);
    }
  }

  // ----- all operations

  /** A call that completes has exactly the effect described above. */
  lemma ExecEffect(d: Disk, op: Op, uuid: Uuids)
    requires DiskInv(d)
    ensures d.snap.rt.steps.Keys == StepIds(d.snap.def.steps)
    ensures var r := Exec(d, op, uuid); r.Wrote? ==> Effect(d.snap, op, r.snap)
  {
    hide SnapshotOk, DerivedOk, Fit, Sound, SequencesOk, AddSteps, ReconcileReadiness, TransitionStep, GatePass, Settle,
      ChangeOf, Effect;
    SnapshotBase(d.snap);
    match op
    case AddStepsOp(additions) => AddEffect(d.snap, d.log, additions, uuid);
    case ReconcileOp => ReconcileIsIdle(d, uuid); NoEffect(d.snap);
    case TransitionStepOp(id, to, why, identity) => TransitionStepEffect(d.snap, d.log, id, to, why, identity, uuid);
    case GatePassOp(id, evidence) => GatePassEffect(d.snap, d.log, id, evidence, uuid);
    case _ => SingleEffect(d.snap, d.log, op, uuid);
  }

  lemma NoEffect(s: Snapshot)
    requires s.rt.steps.Keys == StepIds(s.def.steps)
    ensures Effect(s, ReconcileOp, s)
  {}

  lemma GatePassEffect(s: Snapshot, log: seq<Event>, stepId: Id, e: Evidence, uuid: Uuids)
    requires DiskInv(Disk(s, log)) && Base(s)
    ensures var r := GatePass(s, log, stepId, e, uuid); r.Wrote? ==>
              Effect(s, GatePassOp(stepId, e), r.snap) && stepId in s.rt.steps && s.rt.steps[stepId].status == Verifying
  {
    hide SnapshotOk, DerivedOk, Fit, Sound, SequencesOk, Append, PromoteFrom, CloseTask, Effect;
    if GateRefusal(s, log, stepId, e).None? { GateEffect(s, log, stepId, e, uuid); }
  }

  lemma TransitionStepEffect(s: Snapshot, log: seq<Event>, stepId: Id, to: StepStatus, reason: Option<string>,
                             identity: Identity, uuid: Uuids)
    requires DiskInv(Disk(s, log)) && Base(s)
    ensures var r := TransitionStep(s, log, stepId, to, reason, identity, uuid); r.Wrote? ==>
              Effect(s, TransitionStepOp(stepId, to, reason, identity), r.snap)
  {
    if to == Verifying {
      RequestEffect(s, log, stepId, reason, identity, uuid);
    } else {
      hide SnapshotOk, DerivedOk, Fit, Sound, SequencesOk, Append, CancelWhenClosed, ClosingStatus, Transitioned,
        Effect, TransitionRefusal;
      if to != Completed && TransitionRefusal(s, stepId, to).None? {
        TransitionEffect(s, log, stepId, to, reason, identity, uuid);
        var r := TransitionStep(s, log, stepId, to, reason, identity, uuid);
        if r.Wrote? { TransitionAsEffect(s, stepId, to, reason, identity, r.snap); }
      }
    }
  }

  lemma TransitionAsEffect(s: Snapshot, stepId: Id, to: StepStatus, reason: Option<string>, identity: Identity,
                           now: Snapshot)
    requires s.rt.steps.Keys == StepIds(s.def.steps) && stepId in s.rt.steps && to != Verifying
    requires var steps := s.rt.steps[stepId := Transitioned(s.rt.steps[stepId], to, reason)];
             SameSteps(steps, now.rt.steps) && now.def == s.def && now.rt.assignments == s.rt.assignments
             && now.rt.task.status == ClosingStatus(s.rt.task.status, steps)
    ensures Effect(s, TransitionStepOp(stepId, to, reason, identity), now)
  {
    hide ClosingStatus, Transitioned;
    var steps := s.rt.steps[stepId := Transitioned(s.rt.steps[stepId], to, reason)];
    ClosingLike(s.rt.task.status, steps, now.rt.steps);
    assert forall id :: id in s.rt.steps ==> Like(steps[id], now.rt.steps[id]);
  }

  lemma SettleWrites(s: Snapshot, log: seq<Event>, c: Change, uuid: Uuids)
    requires c.Replace? ==> StepIds(s.def.steps) <= c.rt.steps.Keys
    ensures Settle(s, log, c, uuid).Wrote? ==> c.Replace?
  {}

  lemma RequestEffect(s: Snapshot, log: seq<Event>, stepId: Id, reason: Option<string>, identity: Identity, uuid: Uuids)
    requires DiskInv(Disk(s, log)) && Base(s)
    ensures var r := Settle(s, log, RequestChange(s, stepId, reason, identity), uuid); r.Wrote? ==>
              Effect(s, TransitionStepOp(stepId, Verifying, reason, identity), r.snap)
  {
    hide SnapshotOk, DerivedOk, Fit, Sound, SequencesOk, Settle, Requested, StepIds;
    SingleEffect(s, log, RequestCompletionOp(stepId, reason, identity), uuid);
    var r := Settle(s, log, RequestChange(s, stepId, reason, identity), uuid);
    SettleWrites(s, log, RequestChange(s, stepId, reason, identity), uuid);
    if r.Wrote? { RequestOpen(s, stepId, r.snap.rt.steps, reason, identity); }
  }

  lemma RequestOpen(s: Snapshot, stepId: Id, now: map<Id, StepRuntime>, reason: Option<string>, identity: Identity)
    requires s.rt.steps.Keys == StepIds(s.def.steps) && RequestChange(s, stepId, reason, identity).Replace?
    requires StepEffect(s, RequestCompletionOp(stepId, reason, identity), now)
    ensures StepEffect(s, TransitionStepOp(stepId, Verifying, reason, identity), now)
    ensures !AllClosed(now)
  {
    assert Like(Requested(s.rt.steps[stepId]), now[stepId]);
    assert forall id :: id in s.rt.steps ==>
      NewStep(s, TransitionStepOp(stepId, Verifying, reason, identity), id)
        == NewStep(s, RequestCompletionOp(stepId, reason, identity), id);
  }
}
