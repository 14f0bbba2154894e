/** The loop reconcile, plan, assign, deliver, request completion, pass the gate: it never stalls, never exceeds
    the cap and completes the task after one passed gate per open step. */
module Driver {
  import opened Wrappers
  import opened Contracts
  import opened StateMachine
  import opened Scheduler
  import opened Store
  import opened Engine
  import opened Invariants
  import opened Operations
  import opened Runs
  import opened Effects
  import opened Capacity
  import opened Success

  // ----- runs in which every call completes

  ghost predicate Smooth(d: Disk, moves: seq<Move>) {
    moves != [] ==>
      var n := |moves| - 1;
      && Smooth(d, moves[..n]) && moves[n].Call? && !moves[n].op.ProgressOp?
      && Exec(Run(d, moves[..n]), moves[n].op, moves[n].uuid).Wrote?
  }

  /** The steps whose gates the moves pass, in order. */
  function Passes(moves: seq<Move>): seq<Id> {
    if moves == [] then []
    else Passes(moves[..|moves|-1]) + if moves[|moves|-1].op.GatePassOp? then [moves[|moves|-1].op.stepId] else []
  }

  lemma NoMoves(d: Disk)
    ensures Run(d, []) == d && Smooth(d, []) && Passes([]) == []
  {}

  /** One more move. */
  lemma JoinLast(d: Disk, front: seq<Move>, m: Move, all: seq<Move>)
    requires all == front + [m]
    ensures Run(d, all) == Step(Run(d, front), m)
    ensures Smooth(d, all) <==>
              Smooth(d, front) && m.Call? && !m.op.ProgressOp? && Exec(Run(d, front), m.op, m.uuid).Wrote?
    ensures Passes(all) == Passes(front) + if m.op.GatePassOp? then [m.op.stepId] else []
  {
    hide Exec, Step;
    assert all[..|all|-1] == front && all[|all|-1] == m;
  }

  lemma {:induction false} Join(d: Disk, a: seq<Move>, b: seq<Move>)
    requires Smooth(d, a) && Smooth(Run(d, a), b)
    ensures Smooth(d, a + b) && Run(d, a + b) == Run(Run(d, a), b) && Passes(a + b) == Passes(a) + Passes(b)
  {
    hide Exec, Step, Run, Smooth, Passes;
    if b == [] {
      assert a + b == a;
      NoMoves(Run(d, a));
    } else {
      var n := |b| - 1;
      JoinLast(Run(d, a), b[..n], b[n], b);
      Join(d, a, b[..n]);
      JoinLast(d, a + b[..n], b[n], a + b);
    }
  }

  lemma One(d: Disk, op: Op, uuid: Uuids)
    requires Exec(d, op, uuid).Wrote? && !op.ProgressOp?
    ensures var m := [Call(op, uuid)];
            Smooth(d, m) && Run(d, m) == Disk(Exec(d, op, uuid).snap, Exec(d, op, uuid).log)
            && Passes(m) == if op.GatePassOp? then [op.stepId] else []
  {
    hide Exec;
    var m := [Call(op, uuid)];
    assert m[..0] == [];
    assert Run(d, m[..0]) == d;
    assert Smooth(d, m[..0]);
    assert Passes(m[..0]) == [];
  }

  lemma {:induction false} SmoothStaysWithinCap(d: Disk, moves: seq<Move>)
    requires DiskInv(d) && WithinCap(d.snap) && Smooth(d, moves)
    ensures StaysWithinCap(d, moves)
  {
    hide DiskInv, WithinCap, Exec, Step;
    if moves != [] {
      var front := moves[..|moves|-1];
      SmoothStaysWithinCap(d, front);
      RunInv(d, front);
      CapStep(Run(d, front), moves[|moves|-1]);
    }
  }

  // ----- tasks the loop can drive

  /** An executor exists that the skills and the definition of a step allow. */
  predicate Staffed(step: StepDef, x: StepRuntime) {
    !SkillsOpen(step, x) &&
    (step.requiredSkills != [] ==>
      x.skillPreflight.value.executor.Some? && x.skillPreflight.value.executor != Some(Auto)
      && (step.executor == Auto || Some(step.executor) == x.skillPreflight.value.executor))
  }

  function Chosen(step: StepDef, x: StepRuntime): Executor
    requires Staffed(step, x)
  {
    if step.requiredSkills != [] then x.skillPreflight.value.executor.value
    else if step.executor == Auto then Codex else step.executor
  }

  /** A step that is done, dispatched, or waiting for its turn with an attempt left and staff. */
  predicate Drivable(step: StepDef, x: StepRuntime) {
    || x.status == Completed
    || (x.status == Dispatching && x.assignmentId.Some?)
    || (x.status in {WaitingDependency, Ready} && x.attempt < step.maxAttempts && Staffed(step, x))
  }

  predicate Driving(s: Snapshot) {
    && (forall step :: step in s.def.steps ==> step.stepId in s.rt.steps && Drivable(step, s.rt.steps[step.stepId]))
    && (s.rt.task.status in {TReady, TRunning} || AllCompleted(s.rt.steps))
    && (ActiveIds(s.rt.steps) != {} ==> s.rt.task.status == TRunning)
  }

  ghost predicate FreshAssignments(asg: nat -> Id, a: seq<Assignment>) {
    && (forall n, k :: n >= |a| && 0 <= k < |a| ==> asg(n) != a[k].assignmentId)
    && (forall m, n :: |a| <= m < n ==> asg(m) != asg(n))
  }

  ghost predicate Steady(d: Disk, uuid: Uuids, asg: nat -> Id) {
    && DiskInv(d) && WithinCap(d.snap) && Driving(d.snap) && FreshIds(uuid, d.log)
    && FreshAssignments(asg, d.snap.rt.assignments)
  }

  // ----- one assignment

  function AssignFor(s: Snapshot, id: Id, asg: nat -> Id): Op
    requires id in StepIds(s.def.steps) && id in s.rt.steps && Staffed(DefOf(s.def.steps, id), s.rt.steps[id])
  {
    AssignOp(id, Chosen(DefOf(s.def.steps, id), s.rt.steps[id]), None, asg(|s.rt.assignments|))
  }

  /** A ready step with an attempt left and an executor that its definition and its skills allow. */
  predicate Assignable(s: Snapshot, id: Id) {
    && id in StepIds(s.def.steps) && id in s.rt.steps && s.rt.steps[id].status == Ready
    && s.rt.steps[id].attempt < DefOf(s.def.steps, id).maxAttempts && Staffed(DefOf(s.def.steps, id), s.rt.steps[id])
  }

  /** Any state of a task that is not over, whatever its other steps are doing. */
  ghost predicate Ongoing(d: Disk, uuid: Uuids, asg: nat -> Id) {
    && DiskInv(d) && FreshIds(uuid, d.log) && FreshAssignments(asg, d.snap.rt.assignments)
    && d.snap.rt.task.status !in {TCompleted, TCancelled, TFailed}
  }

  lemma NotRefused(s: Snapshot, id: Id)
    requires Base(s) && Assignable(s, id) && s.rt.task.status !in {TCompleted, TCancelled, TFailed}
    requires ActiveCount(s.rt.steps) < s.def.maxParallelSteps
    ensures AssignmentRefusal(s, id, Chosen(DefOf(s.def.steps, id), s.rt.steps[id])).None?
  {
    hide BooksOk, OneOpenBinding, ClosedOk, ActiveIds, ActiveCount, SkillsOpen, DependencyReady;
    StepOkAt(s.def.steps, s.rt.steps, id);
  }

  lemma AssignOne(d: Disk, id: Id, uuid: Uuids, asg: nat -> Id) returns (op: Op)
    requires Ongoing(d, uuid, asg) && Assignable(d.snap, id)
    requires ActiveCount(d.snap.rt.steps) < d.snap.def.maxParallelSteps
    ensures op.AssignOp? && op.stepId == id && d.snap.rt.steps.Keys == StepIds(d.snap.def.steps)
    ensures Exec(d, op, uuid).Wrote? && Effect(d.snap, op, Exec(d, op, uuid).snap)
    ensures Ongoing(Disk(Exec(d, op, uuid).snap, Exec(d, op, uuid).log), uuid, asg)
  {
    hide DiskInv, Exec, Effect, FreshIds, FreshAssignments, Staffed, Chosen, AssignmentRefusal, ChangeOf, NewEvent,
      IsAssignment, Base, SnapshotOk, Replayed, EventLedger.Recorded, ActiveCount;
    DiskBase(d);
    BaseKeys(d.snap);
    NotRefused(d.snap, id);
    op := AssignFor(d.snap, id, asg);
    AssignNew(d.snap, op, asg);
    FreshNext(uuid, d.log, ChangeOf(d.snap, op).input);
    SingleSucceeds(d, op, uuid);
    ExecEffect(d, op, uuid);
    ExecGood(d, op, uuid);
    var now := Exec(d, op, uuid).snap;
    AssignedFresh(d.snap, op, now, asg);
    AssignedTask(d.snap, op, now);
  }

  lemma AssignedTask(s: Snapshot, op: Op, now: Snapshot)
    requires s.rt.steps.Keys == StepIds(s.def.steps) && op.AssignOp? && Effect(s, op, now)
    ensures now.rt.task.status == if s.rt.task.status == TReady then TRunning else s.rt.task.status
  {
    hide StepEffect;
  }

  lemma DiskBase(d: Disk)
    requires DiskInv(d)
    ensures Base(d.snap) && SnapshotOk(d.snap)
  {
    hide SnapshotOk, Fit;
    SnapshotBase(d.snap);
  }

  lemma NoGap(s: Snapshot, op: Op)
    requires !op.ProgressOp?
    ensures !Gap(s, op)
  {}

  lemma AssignNew(s: Snapshot, op: Op, asg: nat -> Id)
    requires s.rt.steps.Keys == StepIds(s.def.steps) && op.AssignOp?
    requires AssignmentRefusal(s, op.stepId, op.executor).None?
    requires FreshAssignments(asg, s.rt.assignments) && op.assignmentId == asg(|s.rt.assignments|)
    ensures ChangeOf(s, op).Replace? && ChangeOf(s, op).input.identity.eventId.None?
    ensures !IsAssignment(s.rt.assignments, op.assignmentId)
  {
    hide AssignmentRefusal;
  }

  lemma AssignedFresh(s: Snapshot, op: Op, now: Snapshot, asg: nat -> Id)
    requires s.rt.steps.Keys == StepIds(s.def.steps) && op.AssignOp? && op.stepId in s.rt.steps && Effect(s, op, now)
    requires FreshAssignments(asg, s.rt.assignments) && op.assignmentId == asg(|s.rt.assignments|)
    ensures FreshAssignments(asg, now.rt.assignments)
  {
    hide StepEffect;
    var a, t := s.rt.assignments, now.rt.assignments;
    forall n, k | n >= |t| && 0 <= k < |t| ensures asg(n) != t[k].assignmentId {
      if k < |a| { assert t[k] == a[k]; }
    }
  }

  // ----- a whole plan

  predicate DispatchedIf(x: StepRuntime, chosen: bool, y: StepRuntime) {
    if chosen then y.status == Dispatching && y.assignmentId.Some? && y.attempt == x.attempt + 1 else Like(x, y)
  }

  /** The steps of `ids` became dispatched, each with an assignment and one attempt more; the others are as they
      were. */
  predicate DispatchedAll(was: map<Id, StepRuntime>, ids: seq<Id>, now: map<Id, StepRuntime>) {
    && now.Keys == was.Keys
    && (forall id :: id in was ==> id in now && DispatchedIf(was[id], id in ids, now[id]))
  }

  lemma AssignEffect(s: Snapshot, op: Op, now: Snapshot)
    requires s.rt.steps.Keys == StepIds(s.def.steps) && op.AssignOp? && op.stepId in s.rt.steps && Effect(s, op, now)
    requires !Active(s.rt.steps[op.stepId].status)
    ensures DispatchedAll(s.rt.steps, [op.stepId], now.rt.steps)
    ensures now.def.maxParallelSteps == s.def.maxParallelSteps && now.def.steps == s.def.steps
    ensures ActiveCount(now.rt.steps) == ActiveCount(s.rt.steps) + 1
  {
    hide NewStep, ActiveIds, Active;
    assert s.def.steps + [] == s.def.steps;
    ActiveAfter(s, op, now);
    AssignedStep(s, op);
    Counts(ActiveIds(s.rt.steps), op.stepId);
    IdleIsOut(s.rt.steps, op.stepId);
    forall id | id in s.rt.steps
      ensures id in now.rt.steps && (id != op.stepId ==> Like(s.rt.steps[id], now.rt.steps[id])) {
      assert Like(NewStep(s, op, id), now.rt.steps[id]);
    }
  }

  lemma AssignedStep(s: Snapshot, op: Op)
    requires s.rt.steps.Keys == StepIds(s.def.steps) && op.AssignOp? && op.stepId in s.rt.steps
    ensures Target(op) == Some(op.stepId) && NewStep(s, op, op.stepId).status == Dispatching && Active(Dispatching)
    ensures NewStep(s, op, op.stepId).assignmentId.Some?
    ensures NewStep(s, op, op.stepId).attempt == s.rt.steps[op.stepId].attempt + 1
    ensures forall id :: id in s.rt.steps && id != op.stepId ==> NewStep(s, op, id) == s.rt.steps[id]
  {}

  lemma IdleIsOut(steps: map<Id, StepRuntime>, id: Id)
    requires id in steps && !Active(steps[id].status)
    ensures id !in ActiveIds(steps)
  {}

  /** Ready steps that fit the remaining capacity can all be assigned, in any order, without a refusal, whatever the
      other steps are doing. */
  lemma {:induction false} AssignAll(d: Disk, ids: seq<Id>, uuid: Uuids, asg: nat -> Id) returns (moves: seq<Move>)
    requires Ongoing(d, uuid, asg) && Distinct(ids) && (forall id :: id in ids ==> Assignable(d.snap, id))
    requires ids != [] ==> ActiveCount(d.snap.rt.steps) + |ids| <= d.snap.def.maxParallelSteps
    ensures Smooth(d, moves) && Ongoing(Run(d, moves), uuid, asg) && |moves| == |ids| && Passes(moves) == []
    ensures DispatchedAll(d.snap.rt.steps, ids, Run(d, moves).snap.rt.steps)
    ensures Run(d, moves).snap.def.steps == d.snap.def.steps
    ensures ids != [] || d.snap.rt.task.status != TReady ==>
              Run(d, moves).snap.rt.task.status == AfterAssigning(d.snap.rt.task.status)
    ensures ids == [] ==> Run(d, moves) == d
    ensures forall k :: 0 <= k < |ids| ==> moves[k].Call? && moves[k].op.AssignOp? && moves[k].op.stepId == ids[k]
    decreases |ids|
  {
    hide Ongoing, Exec, Effect, ActiveCount, Step, Run, Smooth, Passes, DispatchedAll, Distinct, Assignable;
    if ids == [] {
      moves := [];
      NoMoves(d);
      NoneDispatched(d.snap.rt.steps);
    } else {
      AssignableReady(d.snap, ids);
      var op := AssignOne(d, ids[0], uuid, asg);
      var d1 := Disk(Exec(d, op, uuid).snap, Exec(d, op, uuid).log);
      AssignEffect(d.snap, op, d1.snap);
      AssignedTask(d.snap, op, d1.snap);
      One(d, op, uuid);
      StillAssignable(d.snap, ids, d1.snap);
      var rest := AssignAll(d1, ids[1..], uuid, asg);
      moves := [Call(op, uuid)] + rest;
      Join(d, [Call(op, uuid)], rest);
      DispatchedMore(d.snap.rt.steps, ids, d1.snap.rt.steps, Run(d, moves).snap.rt.steps);
    }
  }

  function AfterAssigning(t: TaskStatus): TaskStatus { if t == TReady then TRunning else t }

  lemma AssignableReady(s: Snapshot, ids: seq<Id>)
    requires forall id :: id in ids ==> Assignable(s, id)
    ensures forall id :: id in ids ==> id in s.rt.steps && s.rt.steps[id].status == Ready && !Active(Ready)
  {}

  lemma NoneDispatched(steps: map<Id, StepRuntime>)
    ensures DispatchedAll(steps, [], steps)
  {}

  lemma StillAssignable(s: Snapshot, ids: seq<Id>, now: Snapshot)
    requires ids != [] && Distinct(ids) && DispatchedAll(s.rt.steps, [ids[0]], now.rt.steps)
    requires now.def.steps == s.def.steps
    requires forall id :: id in ids ==> Assignable(s, id)
    ensures Distinct(ids[1..]) && forall id :: id in ids[1..] ==> Assignable(now, id)
  {
    hide Staffed;
    forall id | id in ids[1..] ensures Assignable(now, id) {
      var k :| 0 <= k < |ids[1..]| && ids[1..][k] == id;
      assert ids[0] != ids[k+1] && id in ids && Assignable(s, id);
      StaffedAlike(DefOf(s.def.steps, id), s.rt.steps[id], now.rt.steps[id]);
    }
  }

  lemma StaffedAlike(step: StepDef, x: StepRuntime, y: StepRuntime)
    requires Like(x, y)
    ensures Staffed(step, x) == Staffed(step, y)
  {}

  lemma DispatchedMore(was: map<Id, StepRuntime>, ids: seq<Id>, mid: map<Id, StepRuntime>, now: map<Id, StepRuntime>)
    requires ids != [] && Distinct(ids) && DispatchedAll(was, [ids[0]], mid) && DispatchedAll(mid, ids[1..], now)
    ensures DispatchedAll(was, ids, now)
  {
    assert ids == [ids[0]] + ids[1..];
    forall id | id in was ensures id in now && DispatchedIf(was[id], id in ids, now[id]) {
      assert DispatchedIf(was[id], id in [ids[0]], mid[id]) && DispatchedIf(mid[id], id in ids[1..], now[id]);
    }
  }

  /** An attempt and an executor are left for the step. */
  predicate Provided(step: StepDef, steps: map<Id, StepRuntime>) {
    step.stepId in steps ==> steps[step.stepId].attempt < step.maxAttempts && Staffed(step, steps[step.stepId])
  }

  predicate AllProvided(s: Snapshot, ids: seq<Id>) {
    forall step :: step in s.def.steps && step.stepId in ids ==> Provided(step, s.rt.steps)
  }

  /** What a plan that was computed for any state of an ongoing task dispatches can be assigned, in plan order, without
      a refusal, given an attempt and an executor for each of its steps. */
  lemma PlanCanBeAssigned(d: Disk, uuid: Uuids, asg: nat -> Id) returns (moves: seq<Move>)
    requires Ongoing(d, uuid, asg)
    requires AllProvided(d.snap, Dispatchable(d.snap.def.steps, d.snap.rt.steps, d.snap.def.maxParallelSteps))
    ensures var plan := Dispatchable(d.snap.def.steps, d.snap.rt.steps, d.snap.def.maxParallelSteps);
            && Smooth(d, moves) && |moves| == |plan|
            && DispatchedAll(d.snap.rt.steps, plan, Run(d, moves).snap.rt.steps)
            && (forall k :: 0 <= k < |plan| ==>
                  moves[k].Call? && moves[k].op.AssignOp? && moves[k].op.stepId == plan[k])
            && (WithinCap(d.snap) ==> StaysWithinCap(d, moves))
  {
    hide DiskInv, Exec, FreshIds, FreshAssignments, Staffed, Smooth, Run, DispatchedAll, Dispatchable, WithinCap,
      StaysWithinCap;
    DiskBase(d);
    PlanReady(d.snap);
    var plan := Dispatchable(d.snap.def.steps, d.snap.rt.steps, d.snap.def.maxParallelSteps);
    forall id | id in plan ensures Assignable(d.snap, id) {
      assert Provided(DefOf(d.snap.def.steps, id), d.snap.rt.steps);
    }
    moves := AssignAll(d, plan, uuid, asg);
    if WithinCap(d.snap) { SmoothStaysWithinCap(d, moves); }
  }

  lemma PlanReady(s: Snapshot)
    requires Base(s)
    ensures var plan := Dispatchable(s.def.steps, s.rt.steps, s.def.maxParallelSteps);
            && Distinct(plan) && (plan != [] ==> ActiveCount(s.rt.steps) + |plan| <= s.def.maxParallelSteps)
            && forall id :: id in plan ==>
              id in s.rt.steps && id in StepIds(s.def.steps) && s.rt.steps[id].status == Ready
  {
    hide Fit;
    FilterDistinct(s.def.steps, DispatchList, s.rt.steps);
    var all := Filter(s.def.steps, DispatchList, s.rt.steps);
    var plan := Dispatchable(s.def.steps, s.rt.steps, s.def.maxParallelSteps);
    assert plan <= all;
    forall id | id in plan ensures id in all {
      var i :| 0 <= i < |plan| && plan[i] == id;
      assert all[i] == id;
    }
  }

  // ----- the same for a task the loop can drive

  lemma SteadyOngoing(d: Disk, uuid: Uuids, asg: nat -> Id, ids: seq<Id>)
    requires Steady(d, uuid, asg) && ids != []
    requires forall id :: id in ids ==> id in d.snap.rt.steps && d.snap.rt.steps[id].status == Ready
    ensures Ongoing(d, uuid, asg) && forall id :: id in ids ==> Assignable(d.snap, id)
  {
    hide DiskInv, FreshIds, FreshAssignments, WithinCap, Staffed, ActiveIds;
    DiskBase(d);
    BaseKeys(d.snap);
    forall id | id in ids ensures Assignable(d.snap, id) {
      assert Drivable(DefOf(d.snap.def.steps, id), d.snap.rt.steps[id]);
    }
    assert ids[0] in ids && !AllCompleted(d.snap.rt.steps);
  }

  lemma AssignedDriving(s: Snapshot, ids: seq<Id>, now: Snapshot)
    requires Base(s) && Driving(s) && ids != [] && DispatchedAll(s.rt.steps, ids, now.rt.steps)
    requires now.def.steps == s.def.steps
    requires forall id :: id in ids ==> id in s.rt.steps && s.rt.steps[id].status == Ready
    requires now.rt.task.status == AfterAssigning(s.rt.task.status)
    ensures Driving(now)
  {
    hide Fit, Staffed;
    forall step | step in now.def.steps
      ensures step.stepId in now.rt.steps && Drivable(step, now.rt.steps[step.stepId]) {
      assert Drivable(step, s.rt.steps[step.stepId]);
      if step.stepId !in ids { StaffedAlike(step, s.rt.steps[step.stepId], now.rt.steps[step.stepId]); }
    }
    assert ids[0] in ids && !AllCompleted(s.rt.steps);
  }

  lemma AssignSteady(d: Disk, ids: seq<Id>, uuid: Uuids, asg: nat -> Id) returns (moves: seq<Move>)
    requires Steady(d, uuid, asg) && Distinct(ids)
    requires forall id :: id in ids ==> id in d.snap.rt.steps && d.snap.rt.steps[id].status == Ready
    requires ActiveCount(d.snap.rt.steps) + |ids| <= d.snap.def.maxParallelSteps
    ensures Smooth(d, moves) && Steady(Run(d, moves), uuid, asg) && |moves| == |ids| && Passes(moves) == []
    ensures DispatchedAll(d.snap.rt.steps, ids, Run(d, moves).snap.rt.steps)
    ensures Run(d, moves).snap.def.steps == d.snap.def.steps
    ensures forall k :: 0 <= k < |ids| ==> moves[k].Call? && moves[k].op.AssignOp? && moves[k].op.stepId == ids[k]
  {
    hide DiskInv, Exec, FreshIds, FreshAssignments, WithinCap, Driving, Smooth, Run, DispatchedAll, ActiveCount,
      Assignable, Passes;
    if ids == [] {
      moves := [];
      NoMoves(d);
      NoneDispatched(d.snap.rt.steps);
    } else {
      SteadyOngoing(d, uuid, asg, ids);
      moves := AssignAll(d, ids, uuid, asg);
      DiskBase(d);
      AssignedDriving(d.snap, ids, Run(d, moves).snap);
      SmoothStaysWithinCap(d, moves);
      EndsWithinCap(d, moves);
    }
  }

  lemma EndsWithinCap(d: Disk, moves: seq<Move>)
    requires StaysWithinCap(d, moves)
    ensures WithinCap(Run(d, moves).snap)
  {
    hide WithinCap, Run;
  }

  // ----- delivering what the gate requires

  lemma FreshName(s: set<Id>) returns (x: Id)
    ensures x !in s
  {
    x := Longer(s);
  }

  lemma Longer(s: set<Id>) returns (x: Id)
    ensures forall y :: y in s ==> |y| < |x|
    decreases s
  {
    if s == {} { x := "a"; }
    else {
      var y :| y in s;
      x := Longer(s - {y});
      if |x| <= |y| { x := y + "a"; }
    }
  }

  lemma ArtifactsGrow(log: seq<Event>, more: seq<Event>, stepId: Id, a: Option<Id>, name: string)
    requires log <= more
    ensures Artifacts(log, stepId, a, name) <= Artifacts(more, stepId, a, name)
    ensures |Artifacts(log, stepId, a, name)| <= |Artifacts(more, stepId, a, name)|
  {
    assert forall e :: e in log ==> e in more;
    SubsetIsSmaller(Artifacts(log, stepId, a, name), Artifacts(more, stepId, a, name));
  }

  /** Nothing but event numbers changed. */
  ghost predicate Untouched(d: Disk, now: Disk) {
    && d.log <= now.log && now.snap.def.steps == d.snap.def.steps
    && SameSteps(d.snap.rt.steps, now.snap.rt.steps) && now.snap.rt.task.status == d.snap.rt.task.status
  }

  lemma Deliver1(d: Disk, stepId: Id, name: string, uuid: Uuids, asg: nat -> Id) returns (op: Op)
    requires Steady(d, uuid, asg) && stepId in d.snap.rt.steps
    ensures op.ArtifactOp? && Exec(d, op, uuid).Wrote?
    ensures var now := Disk(Exec(d, op, uuid).snap, Exec(d, op, uuid).log);
            var a := d.snap.rt.steps[stepId].assignmentId;
            Steady(now, uuid, asg) && Untouched(d, now)
            && |Artifacts(now.log, stepId, a, name)| > |Artifacts(d.log, stepId, a, name)|
  {
    hide DiskInv, Exec, Effect, Driving, FreshIds, FreshAssignments, WithinCap, Artifacts, ChangeOf, NewEvent,
      SameSteps, Base, Gap;
    var a := d.snap.rt.steps[stepId].assignmentId;
    var x := FreshName(Artifacts(d.log, stepId, a, name));
    op := ArtifactOp(stepId, name, Some(x), Anonymous);
    DiskBase(d);
    BaseKeys(d.snap);
    ArtifactInput(d.snap, d.log, op, uuid);
    var input := ChangeOf(d.snap, op).input;
    FreshNext(uuid, d.log, input);
    SingleSucceeds(d, op, uuid);
    ExecEffect(d, op, uuid);
    ExecGood(d, op, uuid);
    var now := Disk(Exec(d, op, uuid).snap, Exec(d, op, uuid).log);
    QuietEffect(d.snap, op, now.snap);
    CapKeptUnlessGap(d, op, uuid);
    NoGap(d.snap, op);
    DrivingUntouched(d.snap, now.snap);
    ArtifactAdded(d.log, NewEvent(d.log, input, uuid), stepId, a, name, x);
  }

  lemma BaseKeys(s: Snapshot)
    requires Base(s)
    ensures s.rt.steps.Keys == StepIds(s.def.steps)
  {}

  lemma ArtifactInput(s: Snapshot, log: seq<Event>, op: Op, uuid: Uuids)
    requires s.rt.steps.Keys == StepIds(s.def.steps) && op.ArtifactOp? && op.stepId in s.rt.steps
    requires op.identity == Anonymous
    ensures ChangeOf(s, op).Replace? && ChangeOf(s, op).input.identity.eventId.None?
    ensures var e := NewEvent(log, ChangeOf(s, op).input, uuid);
            e.stepId == Some(op.stepId) && e.assignmentId == s.rt.steps[op.stepId].assignmentId
            && e.body == ArtifactProduced(op.logicalName, op.artifactId)
  {}

  lemma ArtifactAdded(log: seq<Event>, e: Event, stepId: Id, a: Option<Id>, name: string, x: Id)
    requires e.stepId == Some(stepId) && e.assignmentId == a && e.body == ArtifactProduced(name, Some(x))
    requires x !in Artifacts(log, stepId, a, name)
    ensures |Artifacts(log + [e], stepId, a, name)| > |Artifacts(log, stepId, a, name)|
  {
    var t := log + [e];
    assert e in t;
    assert forall y :: y in log ==> y in t;
    assert x in Artifacts(t, stepId, a, name);
    SubsetIsSmaller(Artifacts(log, stepId, a, name) + {x}, Artifacts(t, stepId, a, name));
  }

  lemma QuietEffect(s: Snapshot, op: Op, now: Snapshot)
    requires s.rt.steps.Keys == StepIds(s.def.steps) && op.ArtifactOp? && Effect(s, op, now)
    ensures now.def.steps == s.def.steps && SameSteps(s.rt.steps, now.rt.steps)
    ensures now.rt.task.status == s.rt.task.status && now.rt.assignments == s.rt.assignments
  {
    assert s.def.steps + [] == s.def.steps;
    assert forall id :: id in s.rt.steps ==> Like(NewStep(s, op, id), now.rt.steps[id]);
  }

  lemma DrivingUntouched(s: Snapshot, now: Snapshot)
    requires Driving(s) && now.def.steps == s.def.steps && SameSteps(s.rt.steps, now.rt.steps)
    requires now.rt.task.status == s.rt.task.status
    ensures Driving(now)
  {
    SameStepsFacts([], s.rt.steps, now.rt.steps);
    hide AllCompleted, ActiveIds;
    forall step | step in now.def.steps
      ensures step.stepId in now.rt.steps && Drivable(step, now.rt.steps[step.stepId]) {
      assert Like(s.rt.steps[step.stepId], now.rt.steps[step.stepId]);
    }
  }

  function Needed(o: ExpectedOutput): nat {
    if o.minCount.Some? then o.minCount.value else 1
  }

  lemma UntouchedTransitive(a: Disk, b: Disk, c: Disk)
    requires Untouched(a, b) && Untouched(b, c)
    ensures Untouched(a, c)
  {
    SameStepsTransitive(a.snap.rt.steps, b.snap.rt.steps, c.snap.rt.steps);
    assert a.log <= c.log;
  }

  lemma SameAssignment(d: Disk, now: Disk, id: Id)
    requires Untouched(d, now) && id in d.snap.rt.steps
    ensures id in now.snap.rt.steps && now.snap.rt.steps[id].assignmentId == d.snap.rt.steps[id].assignmentId
    ensures now.snap.rt.steps[id].status == d.snap.rt.steps[id].status
  {
    assert Like(d.snap.rt.steps[id], now.snap.rt.steps[id]);
  }

  lemma {:induction false} DeliverOne(d: Disk, stepId: Id, o: ExpectedOutput, uuid: Uuids, asg: nat -> Id)
    returns (moves: seq<Move>)
    requires Steady(d, uuid, asg) && stepId in d.snap.rt.steps
    ensures var now := Run(d, moves);
            Smooth(d, moves) && Passes(moves) == [] && Steady(now, uuid, asg) && Untouched(d, now)
            && OutputPresent(now.log, stepId, d.snap.rt.steps[stepId].assignmentId, o)
    decreases Needed(o) - |Artifacts(d.log, stepId, d.snap.rt.steps[stepId].assignmentId, o.logicalName)|
  {
    hide Steady, Exec, Step, Artifacts;
    var a := d.snap.rt.steps[stepId].assignmentId;
    if OutputPresent(d.log, stepId, a, o) {
      moves := [];
    } else {
      var op := Deliver1(d, stepId, o.logicalName, uuid, asg);
      var d1 := Disk(Exec(d, op, uuid).snap, Exec(d, op, uuid).log);
      One(d, op, uuid);
      SameAssignment(d, d1, stepId);
      var rest := DeliverOne(d1, stepId, o, uuid, asg);
      moves := [Call(op, uuid)] + rest;
      Join(d, [Call(op, uuid)], rest);
      UntouchedTransitive(d, d1, Run(d, moves));
    }
  }

  lemma {:induction false} DeliverAll(d: Disk, stepId: Id, outputs: seq<ExpectedOutput>, uuid: Uuids,
                                      asg: nat -> Id) returns (moves: seq<Move>)
    requires Steady(d, uuid, asg) && stepId in d.snap.rt.steps
    ensures var now := Run(d, moves);
            Smooth(d, moves) && Passes(moves) == [] && Steady(now, uuid, asg) && Untouched(d, now)
            && forall o :: o in outputs ==> OutputPresent(now.log, stepId, d.snap.rt.steps[stepId].assignmentId, o)
    decreases |outputs|
  {
    hide Steady, Exec, Step, Artifacts;
    if outputs == [] {
      moves := [];
    } else {
      var first := DeliverOne(d, stepId, outputs[0], uuid, asg);
      var d1 := Run(d, first);
      SameAssignment(d, d1, stepId);
      var rest := DeliverAll(d1, stepId, outputs[1..], uuid, asg);
      moves := first + rest;
      Join(d, first, rest);
      UntouchedTransitive(d, d1, Run(d, moves));
      ArtifactsGrow(d1.log, Run(d, moves).log, stepId, d.snap.rt.steps[stepId].assignmentId, outputs[0].logicalName);
      assert outputs == [outputs[0]] + outputs[1..];
    }
  }
}
