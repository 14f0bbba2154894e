/** The event file as the source of truth, exactly: which moves of a run make the fold of the file and the stored
    snapshot disagree. */
module Agreement {
  import opened Wrappers
  import opened Contracts
  import opened Scheduler
  import opened EventLedger
  import opened Store
  import opened Engine
  import opened Invariants
  import opened Operations
  import opened Runs
  import opened Effects
  import opened Success
  import opened Replay
  import opened Losses
  import opened Recovery
  import opened Divergence

  /** The fold of the file is what the snapshot shows of the steps and the task. */
  ghost predicate Agrees(defs: seq<StepDef>, d: Disk) {
    ViewOf(d.snap.rt) == Folded(defs, d.log)
  }

  /** Calls that leave what the snapshot shows as it is. */
  predicate Mute(s: Snapshot, op: Op) {
    match op
    case AddStepsOp(_) => false
    case GatePassOp(_, _) => false
    case ReconcileOp => true
    case TransitionStepOp(k, to, why, identity) =>
      if to == Verifying then Silent(s, RequestCompletionOp(k, why, identity))
      else k in s.rt.steps && s.rt.steps[k].status == to
    case _ => Silent(s, op)
  }

  /** Events of a call that is not mute stay in the file while the snapshot is not written, be it for a crash or for a
      refusal; or the snapshot is written while the event, which is in the file already, is not appended again. */
  ghost predicate Loses(d: Disk, m: Move) {
    && !Mute(d.snap, m.op)
    && if m.Call? && Exec(d, m.op, m.uuid).Wrote? then Reuses(d.log, m.op) else Step(d, m).log != d.log
  }

  // ----- what later events cannot hide

  predicate Leaves(e: Event, k: Id) {
    !e.body.TaskCreated? && !e.body.StepAdded? && e.stepId != Some(k)
  }

  lemma {:induction false} FoldLeaves(defs: seq<StepDef>, log: seq<Event>, more: seq<Event>, k: Id)
    requires log <= more && k in Folded(defs, log).steps && forall j :: |log| <= j < |more| ==> Leaves(more[j], k)
    ensures k in Folded(defs, more).steps && Folded(defs, more).steps[k] == Folded(defs, log).steps[k]
    decreases |more|
  {
    hide OnStep, OnTask;
    if |more| > |log| {
      var front, last := more[..|more|-1], more[|more|-1];
      FoldLeaves(defs, log, front, k);
      assert more == front + [last] && Leaves(last, k);
      FoldedSnoc(defs, front, last);
    } else {
      assert more == log;
    }
  }

  lemma {:induction false} FoldKeeps(defs: seq<StepDef>, log: seq<Event>, more: seq<Event>, k: Id)
    requires log <= more && k in Folded(defs, log).steps
    requires forall j :: |log| <= j < |more| ==> !more[j].body.TaskCreated?
    ensures k in Folded(defs, more).steps
    decreases |more|
  {
    hide OnStep, OnTask;
    if |more| > |log| {
      var front, last := more[..|more|-1], more[|more|-1];
      FoldKeeps(defs, log, front, k);
      assert more == front + [last];
      FoldedSnoc(defs, front, last);
    } else {
      assert more == log;
    }
  }

  lemma ViewStep(rt: Runtime, k: Id)
    ensures k in ViewOf(rt).steps <==> k in rt.steps
    ensures k in rt.steps ==> ViewOf(rt).steps[k] == Look(rt.steps[k])
  {}

  // ----- single events

  lemma SettleLog(s: Snapshot, log: seq<Event>, c: Change, uuid: Uuids)
    requires c.Replace? ==> StepIds(s.def.steps) <= c.rt.steps.Keys
    ensures var r := Settle(s, log, c, uuid);
            r.log == log || (c.Replace? && r.log == log + [NewEvent(log, c.input, uuid)])
  {
    hide SnapshotOk, RefreshDerived, EventLedger.Recorded;
  }

  lemma SingleLost(defs: seq<StepDef>, d: Disk, op: Op, uuid: Uuids)
    requires DiskInv(d) && SingleEvent(op) && Agrees(defs, d) && Exec(d, op, uuid).log != d.log
    ensures |Exec(d, op, uuid).log| == |d.log| + 1
    ensures ViewOf(d.snap.rt) == Folded(defs, Exec(d, op, uuid).log) <==> Silent(d.snap, op)
  {
    hide SnapInv, Sound, SnapshotOk, AddSteps, TransitionStep, GatePass, ReconcileReadiness, SequencesOk, StepIds,
      Folded, Apply, LookAll, Look, Settle, ChangeOf, Silent, ViewOf;
    DiskReads(d);
    var c := ChangeOf(d.snap, op);
    SingleNumbers(d, op);
    SettleLog(d.snap, d.log, c, uuid);
    var e := NewEvent(d.log, c.input, uuid);
    FoldedSnoc(defs, d.log, e);
    EventTellsChange(defs, d.snap, op, e);
    ViewKept(d.snap, op);
  }

  // ----- gatePassed

  lemma {:induction false} PromoteLeaves(defs: seq<StepDef>, i: nat, rt: Runtime, log: seq<Event>, uuid: Uuids, k: Id)
    requires i <= |defs| && StepIds(defs) <= rt.steps.Keys && k in rt.steps && rt.steps[k].status != WaitingDependency
    ensures var r := PromoteFrom(defs, i, rt, log, uuid);
            log <= r.log && forall j :: |log| <= j < |r.log| ==> Leaves(r.log[j], k)
    decreases |defs| - i
  {
    hide DependencyReady;
    if i < |defs| {
      assert defs[i].stepId in StepIds(defs);
      var id := defs[i].stepId;
      if !Promotable(defs[i], rt.steps) { PromoteLeaves(defs, i + 1, rt, log, uuid, k); }
      else {
        var n := Append(WithStep(rt, id, rt.steps[id].(status := Ready)), log,
                        EventInput(Some(id), None,
                                   StepStateChanged(WaitingDependency, Ready, Some("dependency_completed")),
                                   Anonymous), uuid);
        if n.Noted? { PromoteLeaves(defs, i + 1, n.rt, n.log, uuid, k); }
      }
    }
  }

  lemma CloseLeaves(s: Snapshot, rt: Runtime, log: seq<Event>, uuid: Uuids, k: Id)
    requires StepIds(s.def.steps) <= rt.steps.Keys
    ensures var r := CloseTask(s, rt, log, uuid);
            log <= r.log && forall j :: |log| <= j < |r.log| ==> Leaves(r.log[j], k)
  {
    hide SnapshotOk, AllClosed, AllCompleted, RefreshDerived;
  }

  lemma GateEvents(d: Disk, stepId: Id, e: Evidence, uuid: Uuids)
    requires DiskInv(d)
    ensures d.snap.rt.steps.Keys == StepIds(d.snap.def.steps)
    ensures var full := Exec(d, GatePassOp(stepId, e), uuid).log; full != d.log ==>
              && stepId in d.snap.rt.steps && d.snap.rt.steps[stepId].status == Verifying
              && d.log + [NewEvent(d.log, GateInput(d.snap, stepId, e), uuid)] <= full
              && forall j :: |d.log| + 1 <= j < |full| ==> Leaves(full[j], stepId)
  {
    hide SnapInv, SnapshotOk, Sound, SequencesOk, AddSteps, TransitionStep, ReconcileReadiness, Settle, PromoteFrom,
      CloseTask, GateRefusal, Replayed, EventLedger.Recorded, Passed, Leaves;
    DiskReads(d);
    if GateRefusal(d.snap, d.log, stepId, e).None? {
      GateKnown(d.snap, d.log, stepId, e);
      var input := GateInput(d.snap, stepId, e);
      NeverReplayed(d.log, input);
      PassedStatus(d.snap.rt.steps[stepId]);
      var n := Append(WithStep(d.snap.rt, stepId, Passed(d.snap.rt.steps[stepId])), d.log, input, uuid);
      if n.Noted? {
        PromoteLeaves(d.snap.def.steps, 0, n.rt, n.log, uuid, stepId);
        var p := PromoteFrom(d.snap.def.steps, 0, n.rt, n.log, uuid);
        if p.Ran? { CloseLeaves(d.snap, p.rt, p.log, uuid, stepId); }
      }
    }
  }

  lemma PassedStatus(x: StepRuntime)
    ensures Passed(x).status == Completed
  {}

  /** The first event says that the step is completed, and none of the others takes that back. */
  lemma GateLost(defs: seq<StepDef>, d: Disk, stepId: Id, e: Evidence, uuid: Uuids, left: seq<Event>)
    requires DiskInv(d) && Agrees(defs, d) && d.log <= left <= Exec(d, GatePassOp(stepId, e), uuid).log && left != d.log
    ensures ViewOf(d.snap.rt) != Folded(defs, left)
  {
    hide DiskInv, Exec, Folded, ViewOf, Look, GateInput;
    GateEvents(d, stepId, e, uuid);
    var ev := NewEvent(d.log, GateInput(d.snap, stepId, e), uuid);
    var first := d.log + [ev];
    assert first <= left;
    FoldedSnoc(defs, d.log, ev);
    GateTells(defs, d, stepId, e, uuid);
    FoldLeaves(defs, first, left, stepId);
    ViewStep(d.snap.rt, stepId);
    LookedAt(d.snap.rt.steps[stepId]);
  }

  lemma LookedAt(x: StepRuntime)
    ensures Look(x).status == x.status
  {}

  lemma GateTells(defs: seq<StepDef>, d: Disk, stepId: Id, e: Evidence, uuid: Uuids)
    requires stepId in d.snap.rt.steps
    ensures var v := Apply(defs, ViewOf(d.snap.rt), NewEvent(d.log, GateInput(d.snap, stepId, e), uuid));
            stepId in v.steps && v.steps[stepId].status == Completed
  {
    hide Look;
  }

  // ----- addSteps

  lemma {:induction false} AddedEvents(rt: Runtime, log: seq<Event>, additions: seq<StepDef>, i: nat, uuid: Uuids)
    requires i <= |additions|
    ensures var r := AppendAdded(rt, log, additions, i, uuid);
            && log <= r.log && (forall j :: |log| <= j < |r.log| ==> r.log[j].body.StepAdded?)
            && (r.log != log ==> i < |additions| && r.log[|log|].body == StepAdded(additions[i]))
    decreases |additions| - i
  {
    if i < |additions| {
      var n := Append(rt, log, EventInput(Some(additions[i].stepId), None, StepAdded(additions[i]), Anonymous), uuid);
      if n.Noted? { AddedEvents(n.rt, n.log, additions, i + 1, uuid); }
    }
  }

  lemma AddEvents(d: Disk, additions: seq<StepDef>, uuid: Uuids)
    requires DiskInv(d)
    ensures d.snap.rt.steps.Keys == StepIds(d.snap.def.steps)
    ensures var full := Exec(d, AddStepsOp(additions), uuid).log;
            && d.log <= full && (forall j :: |d.log| <= j < |full| ==> full[j].body.StepAdded?)
            && (full != d.log ==>
                  && additions != [] && full[|d.log|].body == StepAdded(additions[0])
                  && additions[0].stepId !in d.snap.rt.steps)
  {
    hide SnapInv, SnapshotOk, Sound, SequencesOk, GatePass, TransitionStep, ReconcileReadiness, Settle, AppendAdded,
      UniqueIds, StepIds, InitialSteps, RefreshDerived;
    DiskReads(d);
    if additions != [] && d.snap.rt.task.status !in {TCompleted, TCancelled}
       && UniqueIds(d.snap.def.steps + additions)
    {
      SnapshotFacts(d.snap);
      var def := d.snap.def.(revision := d.snap.def.revision + 1, steps := d.snap.def.steps + additions);
      AddedKeys(d.snap.def.steps, d.snap.rt.steps, additions,
                d.snap.rt.steps + InitialSteps(additions, CompletedIds(d.snap.rt.steps)));
      var rt := RefreshDerived(def,
                               d.snap.rt.(steps := d.snap.rt.steps +
                                                       InitialSteps(additions, CompletedIds(d.snap.rt.steps))));
      AddedEvents(rt, d.log, additions, 0, uuid);
      FirstIsUnknown(d.snap.def.steps, additions);
    }
  }

  lemma FirstIsUnknown(defs: seq<StepDef>, additions: seq<StepDef>)
    requires additions != [] && UniqueIds(defs + additions)
    ensures additions[0].stepId !in StepIds(defs)
  {
    assert (defs + additions)[|defs|] == additions[0];
    assert forall i :: 0 <= i < |defs| ==> (defs + additions)[i] == defs[i];
  }

  lemma AdditionLost(defs: seq<StepDef>, d: Disk, additions: seq<StepDef>, uuid: Uuids, left: seq<Event>)
    requires DiskInv(d) && Agrees(defs, d) && d.log <= left <= Exec(d, AddStepsOp(additions), uuid).log && left != d.log
    ensures ViewOf(d.snap.rt) != Folded(defs, left)
  {
    hide DiskInv, Exec, Folded, ViewOf, Look, FirstView;
    AddEvents(d, additions, uuid);
    var first := d.log + [left[|d.log|]];
    assert first <= left;
    FoldedSnoc(defs, d.log, left[|d.log|]);
    FoldKeeps(defs, first, left, additions[0].stepId);
    ViewStep(d.snap.rt, additions[0].stepId);
  }

  // ----- transitionStep

  /** The events of a transition: its own unless that is in the file already, and the cancellation of a task it
      closes. */
  lemma TransitionEvents(d: Disk, op: Op, uuid: Uuids)
    requires DiskInv(d) && op.TransitionStepOp? && op.to !in {Completed, Verifying} && Exec(d, op, uuid).log != d.log
    ensures op.stepId in d.snap.rt.steps
    ensures var full := Exec(d, op, uuid).log;
            var e := NewEvent(d.log, TransitionInput(d.snap, op.stepId, op.to, op.why, op.identity), uuid);
            var first := if Replayed(d.log, TransitionInput(d.snap, op.stepId, op.to, op.why, op.identity)) then d.log
                         else d.log + [e];
            full == first
            || (|full| == |first| + 1 && first <= full && Cancels(full[|first|])
                && d.snap.rt.task.status != TCancelled
                              && d.snap.rt.steps[op.stepId].status != op.to)
  {
    hide SnapInv, SnapshotOk, Sound, SequencesOk, CancelWhenClosed, RefreshDerived, Transitioned, TransitionRefusal,
      AddSteps, GatePass, ReconcileReadiness, Settle, StepIds, Replayed, EventLedger.Recorded, Cancels;
    DiskReads(d);
    if TransitionRefusal(d.snap, op.stepId, op.to).None? {
      TransitionKnown(d.snap, op.stepId, op.to);
      var rt := WithStep(d.snap.rt, op.stepId, Transitioned(d.snap.rt.steps[op.stepId], op.to, op.why));
      var n := Append(rt, d.log, TransitionInput(d.snap, op.stepId, op.to, op.why, op.identity), uuid);
      if n.Noted? {
        StampedSteps(rt, d.log, TransitionInput(d.snap, op.stepId, op.to, op.why, op.identity), uuid);
        RefreshedRest(d.snap.def, n.rt);
        CancelEvents(d, op, RefreshDerived(d.snap.def, n.rt), n.log, uuid);
      }
    }
  }

  predicate Cancels(e: Event) {
    e.stepId.None? && e.body.TaskStateChanged? && e.body.toTask == TCancelled
  }

  lemma StampedSteps(rt: Runtime, log: seq<Event>, input: EventInput, uuid: Uuids)
    ensures var n := Append(rt, log, input, uuid);
            n.Noted? ==> SameSteps(rt.steps, n.rt.steps) && n.rt.task.status == rt.task.status
  {
    hide Replayed, EventLedger.Recorded;
  }

  lemma CancelEvents(d: Disk, op: Op, rt: Runtime, log: seq<Event>, uuid: Uuids)
    requires DiskInv(d) && op.TransitionStepOp? && op.stepId in d.snap.rt.steps
    requires StepIds(d.snap.def.steps) <= rt.steps.Keys
    requires SameSteps(d.snap.rt.steps[op.stepId := Transitioned(d.snap.rt.steps[op.stepId], op.to, op.why)], rt.steps)
    requires rt.task.status == d.snap.rt.task.status
    ensures var full := CancelWhenClosed(d.snap, rt, log, uuid).log;
            full == log
            || (|full| == |log| + 1 && log <= full && Cancels(full[|log|])
                && d.snap.rt.task.status != TCancelled
                            && d.snap.rt.steps[op.stepId].status != op.to)
  {
    hide SnapshotOk, DerivedOk, StepsOk, BooksOk, OneOpenBinding, Sound, SequencesOk, EventLedger.Recorded;
    if d.snap.rt.steps[op.stepId].status == op.to {
      SameStatuses(d.snap.rt.steps, op.stepId, Transitioned(d.snap.rt.steps[op.stepId], op.to, op.why), rt.steps);
    }
  }

  lemma SameStatuses(steps: map<Id, StepRuntime>, id: Id, y: StepRuntime, now: map<Id, StepRuntime>)
    requires id in steps && y.status == steps[id].status && SameSteps(steps[id := y], now)
    ensures AllClosed(now) == AllClosed(steps) && SomeCancelled(now) == SomeCancelled(steps)
    ensures AllCompleted(now) == AllCompleted(steps)
  {
    var t := steps[id := y];
    assert forall k :: k in steps ==> k in now && Like(t[k], now[k]);
    assert forall k :: k in steps ==> now[k].status == steps[k].status;
    assert now.Keys == steps.Keys;
    if SomeCancelled(steps) { var k :| k in steps && steps[k].status == Cancelled; assert now[k].status == Cancelled; }
    if SomeCancelled(now) { var k :| k in now && now[k].status == Cancelled; assert steps[k].status == Cancelled; }
  }

  lemma TransitionTells(defs: seq<StepDef>, d: Disk, op: Op, uuid: Uuids)
    requires op.TransitionStepOp? && op.stepId in d.snap.rt.steps
    ensures var v := Apply(defs, ViewOf(d.snap.rt), NewEvent(d.log,
                          TransitionInput(d.snap, op.stepId, op.to, op.why, op.identity),
                          uuid));
            && op.stepId in v.steps && v.steps[op.stepId].status == op.to
            && (v == ViewOf(d.snap.rt) <==> d.snap.rt.steps[op.stepId].status == op.to)
  {
    hide LookAll;
    LookAt(d.snap.rt.steps, op.stepId);
    LookKeys(d.snap.rt.steps);
    var x := Look(d.snap.rt.steps[op.stepId]);
    if x.status == op.to {
      assert x.(status := op.to) == x;
      assert LookAll(d.snap.rt.steps)[op.stepId := x] == LookAll(d.snap.rt.steps);
    }
  }

  lemma CancelTells(defs: seq<StepDef>, log: seq<Event>, e: Event)
    requires Cancels(e)
    ensures Folded(defs, log + [e]) == Folded(defs, log).(task := TCancelled)
  {
    FoldedSnoc(defs, log, e);
  }

  lemma TransitionLost(defs: seq<StepDef>, d: Disk, op: Op, uuid: Uuids, left: seq<Event>)
    requires DiskInv(d) && Agrees(defs, d) && op.TransitionStepOp? && op.to !in {Completed, Verifying}
    requires d.log <= left <= Exec(d, op, uuid).log && left != d.log
    ensures op.stepId in d.snap.rt.steps
    ensures ViewOf(d.snap.rt) == Folded(defs, left) <==> d.snap.rt.steps[op.stepId].status == op.to
  {
    hide DiskInv, Exec, Folded, ViewOf, Look, Apply, TransitionInput, Replayed, Cancels, NewEvent;
    TransitionEvents(d, op, uuid);
    var full := Exec(d, op, uuid).log;
    var input := TransitionInput(d.snap, op.stepId, op.to, op.why, op.identity);
    var e := NewEvent(d.log, input, uuid);
    var first := if Replayed(d.log, input) then d.log else d.log + [e];
    FoldedSnoc(defs, d.log, e);
    TransitionTells(defs, d, op, uuid);
    ViewStep(d.snap.rt, op.stepId);
    LookedAt(d.snap.rt.steps[op.stepId]);
    TaskSeen(d.snap.rt);
    if left != first {
      assert left == first + [full[|first|]];
      CancelTells(defs, first, full[|first|]);
    }
  }

  lemma TaskSeen(rt: Runtime)
    ensures ViewOf(rt).task == rt.task.status
  {}

  /** A transition delivered again, its event being in the file: the snapshot is written without it. */
  lemma TransitionReused(defs: seq<StepDef>, d: Disk, op: Op, uuid: Uuids)
    requires DiskInv(d) && Agrees(defs, d) && op.TransitionStepOp? && op.to !in {Completed, Verifying}
    requires Reuses(d.log, op)
    requires Exec(d, op, uuid).Wrote?
    ensures op.stepId in d.snap.rt.steps
    ensures ViewOf(Exec(d, op, uuid).snap.rt) == Folded(defs, Exec(d, op, uuid).log)
            <==> d.snap.rt.steps[op.stepId].status == op.to
  {
    hide DiskInv, Exec, Folded, ViewOf, Look, TransitionInput, Replayed, Cancels, NewEvent, Effect, TransitionRefusal,
      Reuses;
    WroteTransition(d, op, uuid);
    ExecEffect(d, op, uuid);
    var r := Exec(d, op, uuid);
    ReusedIsReplayed(d.snap, d.log, op);
    if r.log != d.log {
      TransitionEvents(d, op, uuid); CancelTells(defs, d.log, r.log[|d.log|]); assert r.log == d.log + [r.log[|d.log|]];
    }
    TransitionSeen(d, op, r.snap);
  }

  lemma ReusedIsReplayed(s: Snapshot, log: seq<Event>, op: Op)
    requires op.TransitionStepOp? && op.stepId in s.rt.steps && Reuses(log, op)
    ensures Replayed(log, TransitionInput(s, op.stepId, op.to, op.why, op.identity))
  {
    hide EventLedger.Recorded;
  }

  lemma TransitionSeen(d: Disk, op: Op, now: Snapshot)
    requires DiskInv(d) && d.snap.rt.steps.Keys == StepIds(d.snap.def.steps) && op.TransitionStepOp?
    requires op.to !in {Completed, Verifying}
    requires op.stepId in d.snap.rt.steps && Effect(d.snap, op, now)
    ensures op.stepId in ViewOf(now.rt).steps && ViewOf(now.rt).steps[op.stepId].status == op.to
    ensures op.stepId in ViewOf(d.snap.rt).steps
    ensures ViewOf(d.snap.rt).steps[op.stepId].status == d.snap.rt.steps[op.stepId].status
    ensures d.snap.rt.steps[op.stepId].status == op.to ==> ViewOf(now.rt) == ViewOf(d.snap.rt)
  {
    hide DiskInv, ViewOf, Look, Transitioned, StepIds, ClosingStatus;
    TransitionAs(d.snap, op, now);
    var y := Transitioned(d.snap.rt.steps[op.stepId], op.to, op.why);
    StatusAfter(d.snap.rt.steps[op.stepId], op.to, op.why);
    assert Like(d.snap.rt.steps[op.stepId := y][op.stepId], now.rt.steps[op.stepId]);
    ViewStep(now.rt, op.stepId); ViewStep(d.snap.rt, op.stepId);
    LookedAt(now.rt.steps[op.stepId]); LookedAt(d.snap.rt.steps[op.stepId]);
    if d.snap.rt.steps[op.stepId].status == op.to {
      ClosedAlready(d);
      SameStatuses(d.snap.rt.steps, op.stepId, y, now.rt.steps);
      SameView(d.snap.rt, op.stepId, y, now.rt);
    }
  }

  lemma TransitionAs(s: Snapshot, op: Op, now: Snapshot)
    requires s.rt.steps.Keys == StepIds(s.def.steps) && op.TransitionStepOp? && op.to !in {Completed, Verifying}
    requires op.stepId in s.rt.steps && Effect(s, op, now)
    ensures SameSteps(s.rt.steps[op.stepId := Transitioned(s.rt.steps[op.stepId], op.to, op.why)], now.rt.steps)
    ensures now.rt.task.status == ClosingStatus(s.rt.task.status, now.rt.steps)
  {
    hide Transitioned, ClosingStatus;
    assert forall k :: k in s.rt.steps ==> Like(NewStep(s, op, k), now.rt.steps[k]);
  }

  lemma StatusAfter(x: StepRuntime, to: StepStatus, why: Option<string>)
    ensures var y := Transitioned(x, to, why); y.status == to && (x.status == to ==> Look(y) == Look(x))
  {}

  /** A task whose steps are all closed has its closing status already. */
  lemma ClosedAlready(d: Disk)
    requires DiskInv(d)
    ensures ClosingStatus(d.snap.rt.task.status, d.snap.rt.steps) == d.snap.rt.task.status
  {
    hide SnapshotOk, DerivedOk, StepsOk, BooksOk, OneOpenBinding, Sound, SequencesOk;
  }

  lemma SameView(a: Runtime, id: Id, y: StepRuntime, b: Runtime)
    requires id in a.steps && Look(y) == Look(a.steps[id]) && SameSteps(a.steps[id := y], b.steps)
    requires AllClosed(b.steps) == AllClosed(a.steps) && SomeCancelled(b.steps) == SomeCancelled(a.steps)
    requires ClosingStatus(a.task.status, a.steps) == a.task.status
    requires b.task.status == ClosingStatus(a.task.status, b.steps)
    ensures ViewOf(b) == ViewOf(a)
  {
    hide AllClosed, SomeCancelled, Look;
    LookLike(a.steps[id := y], b.steps);
    LookUpdate(a.steps, id, y);
    LookSame(a.steps, id);
  }

  // ----- one move, and runs

  /** A transition to verifying is a request, and so it is in every respect here. */
  lemma VerifyingAlike(d: Disk, op: Op, uuid: Uuids)
    requires op.TransitionStepOp? && op.to == Verifying
    ensures var q := RequestCompletionOp(op.stepId, op.why, op.identity);
            && Exec(d, op, uuid) == Exec(d, q, uuid) && Reuses(d.log, op) == Reuses(d.log, q)
            && Mute(d.snap, op) == Silent(d.snap, q)
  {
    hide Exec, Reuses, Silent;
    VerifyingIsRequest(d, op, uuid);
    SameReuse(d.log, op);
  }

  lemma LeftBehind(defs: seq<StepDef>, d: Disk, op: Op, uuid: Uuids, left: seq<Event>)
    requires DiskInv(d) && Agrees(defs, d) && d.log <= left <= Exec(d, op, uuid).log && left != d.log
    ensures ViewOf(d.snap.rt) == Folded(defs, left) <==> Mute(d.snap, op)
  {
    hide DiskInv, Exec, Folded, ViewOf, Silent;
    match op
    case AddStepsOp(additions) => AdditionLost(defs, d, additions, uuid, left);
    case GatePassOp(id, e) => GateLost(defs, d, id, e, uuid, left);
    case ReconcileOp => ReconcileIsIdle(d, uuid); assert false;
    case TransitionStepOp(id, to, why, identity) =>
      if to == Verifying {
        VerifyingAlike(d, op, uuid);
        SingleLost(defs, d, RequestCompletionOp(id, why, identity), uuid);
        assert left == Exec(d, op, uuid).log;
      } else {
        NotToCompleted(d, op, uuid);
        TransitionLost(defs, d, op, uuid, left);
      }
    case _ => SingleLost(defs, d, op, uuid); assert left == Exec(d, op, uuid).log;
  }

  lemma NotToCompleted(d: Disk, op: Op, uuid: Uuids)
    requires DiskInv(d) && op.TransitionStepOp? && Exec(d, op, uuid).log != d.log
    ensures op.to != Completed
  {
    hide SnapInv, Sound;
    DiskReads(d);
  }

  lemma WrittenAgain(defs: seq<StepDef>, d: Disk, op: Op, uuid: Uuids)
    requires DiskInv(d) && Agrees(defs, d) && Exec(d, op, uuid).Wrote? && Reuses(d.log, op)
    ensures ViewOf(Exec(d, op, uuid).snap.rt) == Folded(defs, Exec(d, op, uuid).log) <==> Mute(d.snap, op)
  {
    hide DiskInv, Exec, Folded, ViewOf, Silent;
    if op.TransitionStepOp? {
      if op.to == Verifying {
        VerifyingAlike(d, op, uuid);
        LateDuplicate(defs, d, RequestCompletionOp(op.stepId, op.why, op.identity), uuid);
      } else {
        NeverToCompleted(d, op, uuid);
        TransitionReused(defs, d, op, uuid);
      }
    } else {
      LateDuplicate(defs, d, op, uuid);
    }
  }

  /** Where file and snapshot agree, a move makes them disagree if and only if it loses something. */
  lemma AgreementStep(defs: seq<StepDef>, d: Disk, m: Move)
    requires DiskInv(d) && Agrees(defs, d)
    ensures Agrees(defs, Step(d, m)) <==> !Loses(d, m)
  {
    hide DiskInv, Exec, Folded, ViewOf, Mute, Reuses;
    ExecGood(d, m.op, m.uuid);
    var r := Exec(d, m.op, m.uuid);
    if m.Call? && r.Wrote? {
      if Reuses(d.log, m.op) { WrittenAgain(defs, d, m.op, m.uuid); } else { CallFolds(defs, d, m.op, m.uuid); }
    } else if Step(d, m).log != d.log {
      LeftBehind(defs, d, m.op, m.uuid, Step(d, m).log);
    }
  }

  ghost predicate AlwaysAgrees(defs: seq<StepDef>, d: Disk, moves: seq<Move>) {
    Agrees(defs, Run(d, moves)) && (moves != [] ==> AlwaysAgrees(defs, d, moves[..|moves|-1]))
  }

  ghost predicate NeverLoses(d: Disk, moves: seq<Move>) {
    moves != [] ==> NeverLoses(d, moves[..|moves|-1]) && !Loses(Run(d, moves[..|moves|-1]), moves[|moves|-1])
  }

  lemma {:induction false} AgreementOverRuns(defs: seq<StepDef>, d: Disk, moves: seq<Move>)
    requires DiskInv(d) && Agrees(defs, d)
    ensures AlwaysAgrees(defs, d, moves) <==> NeverLoses(d, moves)
  {
    hide DiskInv, Agrees, Loses, Step;
    if moves != [] {
      var front := moves[..|moves|-1];
      AgreementOverRuns(defs, d, front);
      RunInv(d, front);
      if Agrees(defs, Run(d, front)) { AgreementStep(defs, Run(d, front), moves[|moves|-1]); }
    }
  }

  /** In a run of a new task, crashes, repeated events and failing calls included, the fold of the event file is at
      every moment what the snapshot shows, if and only if no move of the run loses something. */
  lemma FoldIsTheSnapshotExactly(def: Workflow, uuid: Uuids, moves: seq<Move>)
    requires Creatable(def)
    ensures AlwaysAgrees(def.steps, Born(def, uuid, Whole), moves) <==> NeverLoses(Born(def, uuid, Whole), moves)
  {
    hide Born, Creatable, ViewOf, Folded;
    BornFolds(def, uuid);
    BornInv(def, uuid, Whole);
    AgreementOverRuns(def.steps, Born(def, uuid, Whole), moves);
  }
}
