/** How the fold of the event file and the stored snapshot come to differ, and what hides it. */
module Divergence {
  import opened Wrappers
  import opened Contracts
  import opened StateMachine
  import opened Dag
  import opened Scheduler
  import opened EventLedger
  import opened Store
  import opened Engine
  import opened Invariants
  import opened Operations
  import opened Effects
  import opened Capacity
  import opened Success
  import opened Replay
  import Driver
  import opened Recovery

  // ----- what is lost stays lost, and the numbers hide it

  /** Once the file says more than the snapshot, a later recorded artifact brings the stored event number up to the
      length of the file while the fold and the snapshot still differ: equal numbers do not mean equal states. */
  lemma NumbersHideLoss(defs: seq<StepDef>, d: Disk, stepId: Id, name: string, uuid: Uuids)
    requires DiskInv(d) && FreshIds(uuid, d.log) && stepId in d.snap.rt.steps
    requires ViewOf(d.snap.rt) != Folded(defs, d.log)
    ensures var r := Exec(d, ArtifactOp(stepId, name, None, Anonymous), uuid);
            r.Wrote? && r.snap.rt.task.lastEventSequence == |r.log| && ViewOf(r.snap.rt) != Folded(defs, r.log)
  {
    hide Fit, DerivedOk, SnapshotOk, Sound, SequencesOk, AddSteps, TransitionStep, ReconcileReadiness, GatePass,
      FreshIds, LookAll, RefreshDerived, Folded;
    var op := ArtifactOp(stepId, name, None, Anonymous);
    DiskReads(d);
    var c := ChangeOf(d.snap, op);
    FreshNext(uuid, d.log, c.input);
    SingleSucceeds(d, op, uuid);
    var n := Append(c.rt, d.log, c.input, uuid);
    RefreshedTask(d.snap.def, n.rt);
    LookLike(d.snap.rt.steps, n.rt.steps);
    var e := NewEvent(d.log, c.input, uuid);
    FoldedSnoc(defs, d.log, e);
    QuietEvent(defs, Folded(defs, d.log), e);
  }

  lemma QuietEvent(defs: seq<StepDef>, v: View, e: Event)
    requires e.body.ArtifactProduced?
    ensures Apply(defs, v, e) == v
  {
    if e.stepId.Some? && e.stepId.value in v.steps {
      assert v.steps[e.stepId.value := v.steps[e.stepId.value]] == v.steps;
    }
  }

  /** The call would leave the status, attempt, assignment and progress of every step as they are, and the task
      status. */
  predicate Silent(s: Snapshot, op: Op) {
    match op
    case TransitionTaskOp(to, _) => to == s.rt.task.status
    case AssignOp(_, _, _, _) => false
    case ProgressOp(k, p, _, _) =>
      k in s.rt.steps && p.Some? && s.rt.steps[k].status == Running && s.rt.steps[k].progress == Clamp01(p.value)
    case RequestCompletionOp(k, _, _) =>
      k in s.rt.steps && s.rt.steps[k].status == Verifying && s.rt.steps[k].progress >= 0.95
    case GateFailOp(_, _) => false
    case _ => true
  }

  lemma TouchedStep(s: Snapshot, op: Op)
    requires s.rt.steps.Keys == StepIds(s.def.steps) && SingleEvent(op) && ChangeOf(s, op).Replace?
    ensures var c := ChangeOf(s, op); var k := Target(op);
            if k.None? then LookAll(c.rt.steps) == LookAll(s.rt.steps) &&
                                     (c.rt.task.status == s.rt.task.status <==> Silent(s, op))
            else k.value in s.rt.steps && c.rt.steps == s.rt.steps[k.value := c.rt.steps[k.value]]
                 && (Look(c.rt.steps[k.value]) == Look(s.rt.steps[k.value]) <==> Silent(s, op))
                 && (Silent(s, op) ==> c.rt.task.status == s.rt.task.status)
  {
    hide ActiveCount, SkillsOpen, DependencyReady, OpenBinding, ValidTaskTransition, ValidBindingTransition, LookAll,
      PreflightBlocker;
    if op.PreflightOp? {
      var c := ChangeOf(s, op);
      LookUpdate(s.rt.steps, op.stepId, c.rt.steps[op.stepId]);
      LookSame(s.rt.steps, op.stepId);
    }
  }

  /** The view of the steps and the task changes exactly when the call is not silent. */
  lemma ViewKept(s: Snapshot, op: Op)
    requires s.rt.steps.Keys == StepIds(s.def.steps) && SingleEvent(op) && ChangeOf(s, op).Replace?
    ensures ViewOf(s.rt) == ViewOf(ChangeOf(s, op).rt) <==> Silent(s, op)
  {
    hide ChangeOf, Silent, LookAll, Look, Target;
    TouchedStep(s, op);
    var c := ChangeOf(s, op);
    if Target(op).Some? {
      var k := Target(op).value;
      LookUpdate(s.rt.steps, k, c.rt.steps[k]);
      LookAt(s.rt.steps, k);
      LookSame(s.rt.steps, k);
      LookAt(s.rt.steps[k := c.rt.steps[k]], k);
    }
  }

  /** A crash of a single-event call behind its append makes the file and the snapshot differ exactly when the call
      would have changed something. */
  lemma CrashLosesCall(defs: seq<StepDef>, d: Disk, op: Op, uuid: Uuids, kept: nat)
    requires DiskInv(d) && SingleEvent(op) && !Reuses(d.log, op) && Exec(d, op, uuid).Wrote? && kept >= 1
    requires ViewOf(d.snap.rt) == Folded(defs, d.log)
    ensures var crashed := Step(d, Crash(op, uuid, kept));
            crashed.snap == d.snap && |crashed.log| == |d.log| + 1
            && (ViewOf(crashed.snap.rt) == Folded(defs, crashed.log) <==> Silent(d.snap, op))
  {
    hide SnapInv, Sound, SnapshotOk, AddSteps, TransitionStep, GatePass, ReconcileReadiness, SequencesOk, Reuses,
      StepIds, Folded, Apply, LookAll, Look, Settle, ChangeOf, Silent, ViewOf;
    DiskReads(d);
    var c := ChangeOf(d.snap, op);
    SingleNumbers(d, op);
    SettleWrites(d.snap, d.log, c, uuid);
    ReplayedOrReused(d.snap, d.log, op);
    SingleLog(d.snap, d.log, c, uuid);
    var e := NewEvent(d.log, c.input, uuid);
    assert Step(d, Crash(op, uuid, kept)) == Disk(d.snap, d.log + [e]);
    FoldedSnoc(defs, d.log, e);
    EventTellsChange(defs, d.snap, op, e);
    ViewKept(d.snap, op);
  }

  /** A single-event call delivered a second time, its event being in the file, completes without a new event; the
      snapshot is the fold afterwards exactly when the call changes nothing. */
  lemma LateDuplicate(defs: seq<StepDef>, d: Disk, op: Op, uuid: Uuids)
    requires DiskInv(d) && SingleEvent(op) && Reuses(d.log, op) && Exec(d, op, uuid).Wrote?
    requires ViewOf(d.snap.rt) == Folded(defs, d.log)
    ensures d.snap.rt.steps.Keys == StepIds(d.snap.def.steps) && ChangeOf(d.snap, op).Replace?
    ensures var r := Exec(d, op, uuid);
            && r.log == d.log && ViewOf(r.snap.rt) == ViewOf(ChangeOf(d.snap, op).rt)
            && (ViewOf(r.snap.rt) == Folded(defs, r.log) <==> Silent(d.snap, op))
  {
    hide SnapInv, Sound, SnapshotOk, AddSteps, TransitionStep, GatePass, ReconcileReadiness, SequencesOk, Reuses,
      StepIds, Folded, Settle, ViewOf, ChangeOf, Silent;
    DiskReads(d);
    var c := ChangeOf(d.snap, op);
    SingleNumbers(d, op);
    SettleWrites(d.snap, d.log, c, uuid);
    ReplayedOrReused(d.snap, d.log, op);
    SettleShape(d.snap, d.log, c, uuid);
    SettleReplayed(d.snap, d.log, c, uuid);
    WrittenView(d.snap, c.rt, Exec(d, op, uuid).snap);
    ViewKept(d.snap, op);
  }

  lemma SettleReplayed(s: Snapshot, log: seq<Event>, c: Change, uuid: Uuids)
    requires c.Replace? && StepIds(s.def.steps) <= c.rt.steps.Keys && Replayed(log, c.input)
    requires Settle(s, log, c, uuid).Wrote?
    ensures Settle(s, log, c, uuid).log == log
  {
    hide SnapshotOk, RefreshDerived;
  }

  lemma WrittenView(s: Snapshot, rt: Runtime, now: Snapshot)
    requires Written(s, rt, now)
    ensures ViewOf(now.rt) == ViewOf(rt)
  {
    hide SnapshotOk, DerivedOk;
    LookLike(rt.steps, now.rt.steps);
  }

  // ----- a call that appends brings the stored number to the end of the file

  predicate Level(rt: Runtime, log: seq<Event>) {
    rt.task.lastEventSequence == |log|
  }

  lemma AppendLevels(rt: Runtime, log: seq<Event>, input: EventInput, uuid: Uuids)
    requires !Replayed(log, input)
    ensures var n := Append(rt, log, input, uuid); n.Noted? ==> Level(n.rt, n.log)
  {}

  lemma {:induction false} PromoteLevels(defs: seq<StepDef>, i: nat, rt: Runtime, log: seq<Event>, uuid: Uuids)
    requires i <= |defs| && StepIds(defs) <= rt.steps.Keys && Level(rt, log)
    ensures var r := PromoteFrom(defs, i, rt, log, uuid); r.Ran? ==> Level(r.rt, r.log)
    decreases |defs| - i
  {
    hide DependencyReady;
    if i < |defs| {
      assert defs[i].stepId in StepIds(defs);
      var id := defs[i].stepId;
      if !Promotable(defs[i], rt.steps) { PromoteLevels(defs, i + 1, rt, log, uuid); }
      else {
        var n := Append(WithStep(rt, id, rt.steps[id].(status := Ready)), log,
                        EventInput(Some(id), None,
                                   StepStateChanged(WaitingDependency, Ready, Some("dependency_completed")),
                                   Anonymous), uuid);
        if n.Noted? { PromoteLevels(defs, i + 1, n.rt, n.log, uuid); }
      }
    }
  }

  lemma {:induction false} AddedLevels(rt: Runtime, log: seq<Event>, additions: seq<StepDef>, i: nat, uuid: Uuids)
    requires i <= |additions| && (i < |additions| || Level(rt, log))
    ensures var r := AppendAdded(rt, log, additions, i, uuid); r.Ran? ==> Level(r.rt, r.log)
    decreases |additions| - i
  {
    if i < |additions| {
      var n := Append(rt, log, EventInput(Some(additions[i].stepId), None, StepAdded(additions[i]), Anonymous), uuid);
      if n.Noted? { AddedLevels(n.rt, n.log, additions, i + 1, uuid); }
    }
  }

  lemma CancelLevels(s: Snapshot, rt: Runtime, log: seq<Event>, uuid: Uuids)
    requires StepIds(s.def.steps) <= rt.steps.Keys
    ensures var r := CancelWhenClosed(s, rt, log, uuid);
            r.Wrote? && (r.log != log || Level(rt, log)) ==> Level(r.snap.rt, r.log)
  {
    hide SnapshotOk, AllClosed, SomeCancelled;
  }

  lemma CloseLevels(s: Snapshot, rt: Runtime, log: seq<Event>, uuid: Uuids)
    requires StepIds(s.def.steps) <= rt.steps.Keys && Level(rt, log)
    ensures var r := CloseTask(s, rt, log, uuid); r.Wrote? ==> Level(r.snap.rt, r.log)
  {
    hide SnapshotOk, AllClosed, AllCompleted, TaskProgress, ActiveList;
  }

  lemma SettleLevels(s: Snapshot, log: seq<Event>, c: Change, uuid: Uuids)
    requires c.Replace? ==> StepIds(s.def.steps) <= c.rt.steps.Keys
    ensures var r := Settle(s, log, c, uuid); r.Wrote? && r.log != log ==> Level(r.snap.rt, r.log)
  {
    hide SnapshotOk, TaskProgress, ActiveList, EventLedger.Recorded;
  }

  lemma TransitionLevels(s: Snapshot, log: seq<Event>, op: Op, uuid: Uuids)
    requires SnapshotOk(s) && op.TransitionStepOp?
    ensures var r := TransitionStep(s, log, op.stepId, op.to, op.why, op.identity, uuid);
            r.Wrote? && r.log != log ==> Level(r.snap.rt, r.log)
  {
    hide SnapshotOk, RefreshDerived, CancelWhenClosed, TransitionRefusal, Transitioned, RequestChange, Settle, Append,
      Replayed;
    SnapshotFacts(s);
    RequestKeys(s, op);
    if op.to == Verifying { SettleLevels(s, log, RequestChange(s, op.stepId, op.why, op.identity), uuid); }
    else if op.to != Completed && TransitionRefusal(s, op.stepId, op.to).None? {
      TransitionKnown(s, op.stepId, op.to);
      var rt := WithStep(s.rt, op.stepId, Transitioned(s.rt.steps[op.stepId], op.to, op.why));
      var input := TransitionInput(s, op.stepId, op.to, op.why, op.identity);
      var n := Append(rt, log, input, uuid);
      AppendShape(rt, log, input, uuid);
      if n.Noted? {
        RefreshedRest(s.def, n.rt);
        CancelLevels(s, RefreshDerived(s.def, n.rt), n.log, uuid);
      }
    }
  }

  lemma RequestKeys(s: Snapshot, op: Op)
    requires s.rt.steps.Keys == StepIds(s.def.steps) && op.TransitionStepOp?
    ensures var c := RequestChange(s, op.stepId, op.why, op.identity);
            c.Replace? ==> StepIds(s.def.steps) <= c.rt.steps.Keys
  {
    hide ActiveCount;
  }

  lemma AppendShape(rt: Runtime, log: seq<Event>, input: EventInput, uuid: Uuids)
    ensures var n := Append(rt, log, input, uuid);
            n.Noted? ==> n.rt.steps.Keys == rt.steps.Keys && (n.log == log || Level(n.rt, n.log))
  {
    hide EventLedger.Recorded;
  }

  lemma GateLevels(s: Snapshot, log: seq<Event>, stepId: Id, e: Evidence, uuid: Uuids)
    requires SnapshotOk(s)
    ensures var r := GatePass(s, log, stepId, e, uuid); r.Wrote? ==> Level(r.snap.rt, r.log)
  {
    hide SnapshotOk, PromoteFrom, CloseTask, GateRefusal, Append, Replayed;
    SnapshotFacts(s);
    if GateRefusal(s, log, stepId, e).None? {
      GateKnown(s, log, stepId, e);
      var rt := WithStep(s.rt, stepId, Passed(s.rt.steps[stepId]));
      var input := EventInput(Some(stepId), s.rt.steps[stepId].assignmentId, GatePassed(e), Anonymous);
      NeverReplayed(log, input);
      AppendLevels(rt, log, input, uuid);
      AppendShape(rt, log, input, uuid);
      var n := Append(rt, log, input, uuid);
      if n.Noted? {
        PromoteLevels(s.def.steps, 0, n.rt, n.log, uuid);
        var p := PromoteFrom(s.def.steps, 0, n.rt, n.log, uuid);
        if p.Ran? { CloseLevels(s, p.rt, p.log, uuid); }
      }
    }
  }

  lemma NeverReplayed(log: seq<Event>, input: EventInput)
    requires input.identity == Anonymous
    ensures !Replayed(log, input)
  {}

  lemma AddLevels(s: Snapshot, log: seq<Event>, additions: seq<StepDef>, uuid: Uuids)
    requires SnapshotOk(s) && Base(s)
    ensures var r := AddSteps(s, log, additions, uuid); r.Wrote? && r.log != log ==> Level(r.snap.rt, r.log)
  {
    hide AppendAdded, Fit, ValidDag, DefinitionFieldsOk, TaskProgress, ActiveList, RuntimeOk, UniqueIds, InitialSteps,
      StepIds;
    if additions != [] && s.rt.task.status !in {TCompleted, TCancelled} && UniqueIds(s.def.steps + additions) {
      var def := s.def.(revision := s.def.revision + 1, steps := s.def.steps + additions);
      SnapshotFacts(s);
      AddedKeys(s.def.steps, s.rt.steps, additions, s.rt.steps + InitialSteps(additions, CompletedIds(s.rt.steps)));
      var rt := RefreshDerived(def, s.rt.(steps := s.rt.steps + InitialSteps(additions, CompletedIds(s.rt.steps))));
      AddedLevels(rt, log, additions, 0, uuid);
    }
  }

  /** Whatever the file said more than the snapshot before it: a completed call that appends leaves the stored event
      number at the end of the file, so that the two numbers never tell of a loss again. */
  lemma AppendingCatchesUp(d: Disk, op: Op, uuid: Uuids)
    requires DiskInv(d) && Exec(d, op, uuid).Wrote? && Exec(d, op, uuid).log != d.log
    ensures Level(Exec(d, op, uuid).snap.rt, Exec(d, op, uuid).log)
  {
    hide SnapInv, SnapshotOk, Sound, SequencesOk, AddSteps, ReconcileReadiness, TransitionStep, GatePass, Settle,
      ChangeOf, Level;
    DiskReads(d);
    Driver.DiskBase(d);
    match op
    case AddStepsOp(additions) => AddLevels(d.snap, d.log, additions, uuid);
    case ReconcileOp => ReconcileIsIdle(d, uuid);
    case TransitionStepOp(_, _, _, _) => TransitionLevels(d.snap, d.log, op, uuid);
    case GatePassOp(id, e) => GateLevels(d.snap, d.log, id, e, uuid);
    case _ => SingleNumbers(d, op); SettleLevels(d.snap, d.log, ChangeOf(d.snap, op), uuid);
  }
}
