/** The cap on parallel steps, and the one call that can break it. */
module Capacity {
  import opened Wrappers
  import opened Contracts
  import opened StateMachine
  import opened Scheduler
  import opened Store
  import opened Engine
  import opened Invariants
  import opened Runs
  import opened Effects
  import opened History
  import opened Success

  predicate WithinCap(s: Snapshot) {
    ActiveCount(s.rt.steps) <= s.def.maxParallelSteps
  }

  predicate ActiveAssigned(s: Snapshot) {
    forall id :: id in s.rt.steps && Active(s.rt.steps[id].status) ==> s.rt.steps[id].assignmentId.Some?
  }

  /** A progress report on a step that was sent back: it becomes running without an assignment or capacity check. */
  predicate Gap(s: Snapshot, op: Op) {
    op.ProgressOp? && op.stepId in s.rt.steps && s.rt.steps[op.stepId].status == FixRequired
  }

  /** The step whose status the call sets, if any. */
  function Target(op: Op): Option<Id> {
    match op
    case AssignOp(k, _, _, _) => Some(k)
    case TransitionStepOp(k, _, _, _) => Some(k)
    case ProgressOp(k, _, _, _) => Some(k)
    case RequestCompletionOp(k, _, _) => Some(k)
    case GatePassOp(k, _) => Some(k)
    case GateFailOp(k, _) => Some(k)
    case _ => None
  }

  lemma OnlyTargetMoves(s: Snapshot, op: Op, id: Id)
    requires s.rt.steps.Keys == StepIds(s.def.steps) && id in s.rt.steps && Target(op) != Some(id)
    ensures Active(NewStep(s, op, id).status) <==> Active(s.rt.steps[id].status)
    ensures NewStep(s, op, id).assignmentId == s.rt.steps[id].assignmentId
  {
    hide DependencyReady, PreflightBlocker, Passed;
  }

  /** A step becomes active only with capacity to spare and an assignment, except through the gap. */
  lemma ActivationGuarded(s: Snapshot, log: seq<Event>, op: Op, k: Id)
    requires s.rt.steps.Keys == StepIds(s.def.steps) && Permitted(s, log, op) && Target(op) == Some(k)
    ensures k in s.rt.steps
    ensures var x, y := s.rt.steps[k], NewStep(s, op, k);
            && (Active(y.status) && !Active(x.status) && !Gap(s, op) ==>
                  ActiveCount(s.rt.steps) < s.def.maxParallelSteps && y.assignmentId.Some?)
            && (Gap(s, op) ==> Active(y.status) && !Active(x.status))
            && (Gap(s, op) || !op.AssignOp? ==> y.assignmentId == x.assignmentId)
  {
    hide DependencyReady, SkillsOpen, OutputPresent, PreflightBlocker, AtLeast, ActiveCount;
  }

  lemma ActiveAfter(s: Snapshot, op: Op, now: Snapshot)
    requires s.rt.steps.Keys == StepIds(s.def.steps) && StepEffect(s, op, now.rt.steps)
    requires Target(op).Some? ==> Target(op).value in s.rt.steps
    ensures var was := ActiveIds(s.rt.steps);
            ActiveIds(now.rt.steps) ==
              match Target(op)
              case None => was
              case Some(k) => was - {k} + if Active(NewStep(s, op, k).status) then {k} else {}
  {
    hide NewStep;
    forall id | id in now.rt.steps && Target(op) != Some(id)
      ensures Active(now.rt.steps[id].status) <==> id in ActiveIds(s.rt.steps) {
      if id in s.rt.steps {
        OnlyTargetMoves(s, op, id);
        assert Like(NewStep(s, op, id), now.rt.steps[id]);
      } else {
        assert id in StepIds(Added(op));
        assert Like(InitialStep(DefOf(Added(op), id), CompletedIds(s.rt.steps)), now.rt.steps[id]);
      }
    }
    if Target(op).Some? {
      var k := Target(op).value;
      assert Like(NewStep(s, op, k), now.rt.steps[k]);
    }
  }

  lemma Counts(was: set<Id>, k: Id)
    ensures |was - {k}| == |was| - if k in was then 1 else 0
    ensures |was - {k} + {k}| == |was| + if k in was then 0 else 1
  {
    if k in was { assert was - {k} + {k} == was; }
    else { assert was - {k} == was; }
  }

  lemma TargetKnown(s: Snapshot, log: seq<Event>, op: Op)
    requires s.rt.steps.Keys == StepIds(s.def.steps) && Permitted(s, log, op)
    ensures Target(op).Some? ==> Target(op).value in s.rt.steps
  {
    hide Permitted;
    if Target(op).Some? { ActivationGuarded(s, log, op, Target(op).value); }
  }

  lemma CapArithmetic(was: set<Id>, now: set<Id>, k: Id, on: bool, cap: int, gap: bool)
    requires now == was - {k} + (if on then {k} else {}) && |was| <= cap
    requires on && k !in was && !gap ==> |was| < cap
    requires gap ==> on && k !in was
    ensures |now| <= cap <==> !(gap && |was| == cap)
  {
    Counts(was, k);
    assert was - {k} + {} == was - {k};
  }

  lemma CapAfter(s: Snapshot, log: seq<Event>, op: Op, now: Snapshot)
    requires s.rt.steps.Keys == StepIds(s.def.steps) && Permitted(s, log, op) && Effect(s, op, now) && WithinCap(s)
    ensures WithinCap(now) <==> !(Gap(s, op) && ActiveCount(s.rt.steps) == s.def.maxParallelSteps)
  {
    hide Permitted, NewStep, StepEffect, ActiveIds, Gap, Target, NewTaskStatus, NewAssignments, StepIds;
    TargetKnown(s, log, op);
    ActiveAfter(s, op, now);
    GapHasTarget(s, op);
    if Target(op).Some? {
      var k := Target(op).value;
      ActivationGuarded(s, log, op, k);
      ActiveMember(s.rt.steps, k);
      CapArithmetic(ActiveIds(s.rt.steps), ActiveIds(now.rt.steps), k, Active(NewStep(s, op, k).status),
                    s.def.maxParallelSteps, Gap(s, op));
    }
  }

  lemma GapHasTarget(s: Snapshot, op: Op)
    ensures Gap(s, op) ==> Target(op).Some?
  {}

  lemma ActiveMember(steps: map<Id, StepRuntime>, k: Id)
    requires k in steps
    ensures k in ActiveIds(steps) <==> Active(steps[k].status)
  {}

  lemma AssignedAfter(s: Snapshot, log: seq<Event>, op: Op, now: Snapshot)
    requires s.rt.steps.Keys == StepIds(s.def.steps) && Permitted(s, log, op) && Effect(s, op, now) && ActiveAssigned(s)
    ensures ActiveAssigned(now) <==> !(Gap(s, op) && s.rt.steps[op.stepId].assignmentId.None?)
  {
    hide Permitted, NewStep;
    TargetKnown(s, log, op);
    forall id | id in now.rt.steps && Target(op) != Some(id)
      ensures Active(now.rt.steps[id].status) ==> now.rt.steps[id].assignmentId.Some? {
      if id in s.rt.steps {
        OnlyTargetMoves(s, op, id);
        assert Like(NewStep(s, op, id), now.rt.steps[id]);
      } else {
        NewStepIdle(s, op, now.rt.steps, id);
      }
    }
    if Target(op).Some? {
      var k := Target(op).value;
      ActivationGuarded(s, log, op, k);
      assert Like(NewStep(s, op, k), now.rt.steps[k]);
      AssignedTarget(s, log, op, k);
    }
  }

  lemma NewStepIdle(s: Snapshot, op: Op, now: map<Id, StepRuntime>, id: Id)
    requires s.rt.steps.Keys == StepIds(s.def.steps) && StepEffect(s, op, now) && id in now && id !in s.rt.steps
    ensures !Active(now[id].status)
  {
    assert id in StepIds(Added(op));
    assert Like(InitialStep(DefOf(Added(op), id), CompletedIds(s.rt.steps)), now[id]);
  }

  lemma AssignedTarget(s: Snapshot, log: seq<Event>, op: Op, k: Id)
    requires s.rt.steps.Keys == StepIds(s.def.steps) && Permitted(s, log, op) && Target(op) == Some(k)
    requires k in s.rt.steps
    ensures op.AssignOp? ==> NewStep(s, op, k).assignmentId.Some?
  {
    hide Permitted;
  }

  // ----- single calls

  /** From a state within the cap, a call that completes leaves the cap exceeded exactly when it reports progress
      on a step that was sent back while the cap is already reached. */
  lemma CapKeptUnlessGap(d: Disk, op: Op, uuid: Uuids)
    requires DiskInv(d) && WithinCap(d.snap) && Exec(d, op, uuid).Wrote?
    ensures WithinCap(Exec(d, op, uuid).snap) <==>
              !(Gap(d.snap, op) && ActiveCount(d.snap.rt.steps) == d.snap.def.maxParallelSteps)
  {
    hide Exec, Effect, Permitted, DiskInv, WithinCap, Gap;
    DiskValid(d);
    ExecEffect(d, op, uuid);
    WroteWasPermitted(d, op, uuid);
    CapAfter(d.snap, d.log, op, Exec(d, op, uuid).snap);
  }

  lemma DiskValid(d: Disk)
    requires DiskInv(d)
    ensures SnapshotOk(d.snap) && d.snap.rt.steps.Keys == StepIds(d.snap.def.steps)
  {}

  /** The same for the rule that an active step has an assignment. */
  lemma AssignedKeptUnlessGap(d: Disk, op: Op, uuid: Uuids)
    requires DiskInv(d) && ActiveAssigned(d.snap) && Exec(d, op, uuid).Wrote?
    ensures ActiveAssigned(Exec(d, op, uuid).snap)
            <==> !(Gap(d.snap, op) && d.snap.rt.steps[op.stepId].assignmentId.None?)
  {
    hide Exec, Effect, Permitted, DiskInv, ActiveAssigned, Gap;
    DiskValid(d);
    ExecEffect(d, op, uuid);
    WroteWasPermitted(d, op, uuid);
    AssignedAfter(d.snap, d.log, op, Exec(d, op, uuid).snap);
  }

  // ----- runs

  /** A progress report on a step that was sent back, at the cap, whose number is finite and whose event is not
      refused. */
  predicate Overflows(d: Disk, m: Move) {
    && m.Call? && Gap(d.snap, m.op) && ActiveCount(d.snap.rt.steps) == d.snap.def.maxParallelSteps
    && m.op.progress.Some? && Appendable(d.log, ReportInput(d.snap, m.op), m.uuid)
  }

  /** The event of a progress report. */
  function ReportInput(s: Snapshot, op: Op): EventInput
    requires op.ProgressOp? && op.stepId in s.rt.steps && op.progress.Some?
  {
    var x := s.rt.steps[op.stepId];
    EventInput(Some(op.stepId), x.assignmentId, ProgressUpdated(Clamp01(op.progress.value), op.activity, x.status),
               op.identity)
  }

  lemma OverflowCompletes(d: Disk, m: Move)
    requires DiskInv(d) && m.Call? && Gap(d.snap, m.op) && ActiveCount(d.snap.rt.steps) == d.snap.def.maxParallelSteps
    ensures Exec(d, m.op, m.uuid).Wrote? <==> Overflows(d, m)
  {
    hide DiskInv, Exec, Appendable, ActiveCount;
    SingleCompletes(d, m.op, m.uuid);
  }

  ghost predicate StaysWithinCap(d: Disk, moves: seq<Move>) {
    WithinCap(Run(d, moves).snap) && (moves != [] ==> StaysWithinCap(d, moves[..|moves|-1]))
  }

  ghost predicate NeverOverflows(d: Disk, moves: seq<Move>) {
    moves != [] ==> NeverOverflows(d, moves[..|moves|-1]) && !Overflows(Run(d, moves[..|moves|-1]), moves[|moves|-1])
  }

  ghost predicate GapFree(d: Disk, moves: seq<Move>) {
    moves != [] ==> GapFree(d, moves[..|moves|-1]) && !Gap(Run(d, moves[..|moves|-1]).snap, moves[|moves|-1].op)
  }

  lemma CapStep(d: Disk, m: Move)
    requires DiskInv(d) && WithinCap(d.snap)
    ensures WithinCap(Step(d, m).snap) <==> !Overflows(d, m)
  {
    hide Exec, DiskInv, WithinCap;
    if m.Call? && Exec(d, m.op, m.uuid).Wrote? { CapKeptUnlessGap(d, m.op, m.uuid); }
    if m.Call? && Gap(d.snap, m.op) && ActiveCount(d.snap.rt.steps) == d.snap.def.maxParallelSteps {
      OverflowCompletes(d, m);
    }
  }

  /** A run stays within the cap at every moment exactly when none of its moves overflows it. */
  lemma {:induction false} CapOverRuns(d: Disk, moves: seq<Move>)
    requires DiskInv(d) && WithinCap(d.snap)
    ensures StaysWithinCap(d, moves) <==> NeverOverflows(d, moves)
  {
    hide DiskInv, WithinCap, Overflows, Step;
    if moves != [] {
      var front := moves[..|moves|-1];
      CapOverRuns(d, front);
      RunInv(d, front);
      if WithinCap(Run(d, front).snap) { CapStep(Run(d, front), moves[|moves|-1]); }
    }
  }

  /** In runs that never report progress on a step that was sent back, active steps are assigned and within the cap. */
  lemma {:induction false} WithoutGapAllIsWell(d: Disk, moves: seq<Move>)
    requires DiskInv(d) && WithinCap(d.snap) && ActiveAssigned(d.snap) && GapFree(d, moves)
    ensures WithinCap(Run(d, moves).snap) && ActiveAssigned(Run(d, moves).snap)
  {
    hide DiskInv, WithinCap, ActiveAssigned, Gap, Exec;
    if moves != [] {
      var front := moves[..|moves|-1];
      WithoutGapAllIsWell(d, front);
      RunInv(d, front);
      var e, m := Run(d, front), moves[|moves|-1];
      CapStep(e, m);
      if m.Call? && Exec(e, m.op, m.uuid).Wrote? { AssignedKeptUnlessGap(e, m.op, m.uuid); }
    }
  }

  lemma NothingActive(s: Snapshot, steps: map<Id, StepRuntime>)
    requires SameSteps(steps, s.rt.steps) && s.def.maxParallelSteps >= 1
    requires forall id :: id in steps ==> !Active(steps[id].status)
    ensures WithinCap(s) && ActiveAssigned(s)
  {
    assert forall id :: id in steps ==> Like(steps[id], s.rt.steps[id]);
    assert ActiveIds(s.rt.steps) == {};
  }

  lemma BornIdle(def: Workflow, uuid: Uuids, b: Birth)
    requires Creatable(def)
    ensures WithinCap(Born(def, uuid, b).snap) && ActiveAssigned(Born(def, uuid, b).snap)
  {
    hide *;
    BornInv(def, uuid, b);
    BornLike(def, uuid, b);
    CapPositive(Born(def, uuid, b));
    InitiallyIdle(def.steps);
    NothingActive(Born(def, uuid, b).snap, InitialSteps(def.steps, {}));
  }

  lemma InitiallyIdle(defs: seq<StepDef>)
    ensures forall id :: id in InitialSteps(defs, {}) ==> !Active(InitialSteps(defs, {})[id].status)
  {}

  lemma CapPositive(d: Disk)
    requires DiskInv(d)
    ensures d.snap.def.maxParallelSteps >= 1
  {}
}
