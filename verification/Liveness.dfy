/** Rounds of the driving loop: each follows the plan of the state it starts in, and after at most one round per
    open step the task is completed. */
module Liveness {
  import opened Wrappers
  import opened Contracts
  import opened StateMachine
  import opened Dag
  import opened Scheduler
  import opened Store
  import opened Engine
  import opened Gates
  import opened Invariants
  import opened Operations
  import opened Runs
  import opened Effects
  import opened Capacity
  import opened Success
  import opened Driver

  // ----- one step: its output delivered, its completion requested, its gate passed

  /** A dispatched step under verification, everything else as the loop leaves it. */
  ghost predicate Verified(d: Disk, id: Id, now: Disk) {
    && d.log <= now.log && now.snap.def.steps == d.snap.def.steps
    && now.snap.def.maxParallelSteps == d.snap.def.maxParallelSteps
    && now.snap.rt.steps.Keys == d.snap.rt.steps.Keys && id in d.snap.rt.steps
    && Like(Requested(d.snap.rt.steps[id]), now.snap.rt.steps[id])
    && (forall k :: k in d.snap.rt.steps && k != id ==>
          k in now.snap.rt.steps && Like(d.snap.rt.steps[k], now.snap.rt.steps[k]))
    && now.snap.rt.assignments == d.snap.rt.assignments && now.snap.rt.task.status == d.snap.rt.task.status
  }

  lemma Requestable(s: Snapshot, op: Op)
    requires s.rt.steps.Keys == StepIds(s.def.steps) && op.RequestCompletionOp? && op.stepId in s.rt.steps
    requires s.rt.steps[op.stepId].status == Dispatching && s.rt.steps[op.stepId].assignmentId.Some?
    requires op.identity == Anonymous
    ensures ChangeOf(s, op).Replace? && ChangeOf(s, op).input.identity.eventId.None?
  {
    hide ActiveCount, AtLeast;
  }

  lemma DispatchedAssigned(s: Snapshot, id: Id)
    requires Driving(s) && id in StepIds(s.def.steps) && id in s.rt.steps && s.rt.steps[id].status == Dispatching
    ensures s.rt.steps[id].assignmentId.Some? && s.rt.task.status == TRunning
  {
    hide Staffed;
    var step := DefOf(s.def.steps, id);
    assert Drivable(step, s.rt.steps[id]);
    assert id in ActiveIds(s.rt.steps);
    assert !AllCompleted(s.rt.steps);
  }

  lemma RequestOne(d: Disk, id: Id, uuid: Uuids, asg: nat -> Id) returns (op: Op)
    requires Steady(d, uuid, asg) && id in d.snap.rt.steps && d.snap.rt.steps[id].status == Dispatching
    ensures op.RequestCompletionOp? && Exec(d, op, uuid).Wrote? && d.snap.rt.task.status == TRunning
    ensures var now := Disk(Exec(d, op, uuid).snap, Exec(d, op, uuid).log);
            DiskInv(now) && WithinCap(now.snap) && FreshIds(uuid, now.log) && Verified(d, id, now)
  {
    hide DiskInv, Exec, Effect, Driving, FreshIds, FreshAssignments, WithinCap;
    DiskBase(d);
    DispatchedAssigned(d.snap, id);
    op := RequestCompletionOp(id, None, Anonymous);
    Requestable(d.snap, op);
    FreshNext(uuid, d.log, ChangeOf(d.snap, op).input);
    SingleSucceeds(d, op, uuid);
    ExecEffect(d, op, uuid);
    ExecGood(d, op, uuid);
    var now := Disk(Exec(d, op, uuid).snap, Exec(d, op, uuid).log);
    RequestedEffect(d, op, now);
    CapKeptUnlessGap(d, op, uuid);
    NoGap(d.snap, op);
  }

  lemma RequestedEffect(d: Disk, op: Op, now: Disk)
    requires d.snap.rt.steps.Keys == StepIds(d.snap.def.steps) && op.RequestCompletionOp?
    requires op.stepId in d.snap.rt.steps
    requires Effect(d.snap, op, now.snap) && d.log <= now.log
    ensures Verified(d, op.stepId, now)
  {
    hide Requested;
    assert d.snap.def.steps + [] == d.snap.def.steps;
    assert forall k :: k in d.snap.rt.steps ==> Like(NewStep(d.snap, op, k), now.snap.rt.steps[k]);
  }

  /** The steps after one of them passed its gate: it is completed, and some that waited are ready. */
  predicate PassedOne(was: map<Id, StepRuntime>, id: Id, now: map<Id, StepRuntime>) {
    && now.Keys == was.Keys && id in was && now[id].status == Completed
    && (forall k :: k in was && k != id ==>
          && k in now
          && (Like(was[k], now[k]) || (was[k].status == WaitingDependency && Like(was[k].(status := Ready), now[k]))))
  }

  lemma GateEffectOn(s: Snapshot, id: Id, e: Evidence, now: Snapshot)
    requires s.rt.steps.Keys == StepIds(s.def.steps) && id in s.rt.steps && Effect(s, GatePassOp(id, e), now)
    ensures PassedOne(s.rt.steps, id, now.rt.steps) && now.def.steps == s.def.steps
    ensures now.rt.assignments == s.rt.assignments
    ensures now.rt.task.status == ClosingStatus(s.rt.task.status, now.rt.steps)
  {
    hide DependencyReady, AllClosed, SomeCancelled;
    assert s.def.steps + [] == s.def.steps;
    var op := GatePassOp(id, e);
    forall k | k in s.rt.steps && k != id
      ensures k in now.rt.steps
      ensures Like(s.rt.steps[k], now.rt.steps[k])
              || (s.rt.steps[k].status == WaitingDependency && Like(s.rt.steps[k].(status := Ready), now.rt.steps[k])) {
      assert Like(NewStep(s, op, k), now.rt.steps[k]);
    }
    assert Like(NewStep(s, op, id), now.rt.steps[id]);
  }

  lemma PassedThrough(was: map<Id, StepRuntime>, id: Id, mid: map<Id, StepRuntime>, now: map<Id, StepRuntime>)
    requires mid.Keys == was.Keys && PassedOne(mid, id, now)
    requires forall k :: k in was && k != id ==> k in mid && Like(was[k], mid[k])
    ensures PassedOne(was, id, now)
  {
    forall k | k in was && k != id
      ensures k in now
      ensures Like(was[k], now[k]) || (was[k].status == WaitingDependency && Like(was[k].(status := Ready), now[k])) {
      assert Like(was[k], mid[k]);
    }
  }

  lemma PassedSets(was: map<Id, StepRuntime>, id: Id, now: map<Id, StepRuntime>)
    requires PassedOne(was, id, now)
    ensures CompletedIds(now) == CompletedIds(was) + {id} && ActiveIds(now) == ActiveIds(was) - {id}
  {
    forall k | k in was && k != id
      ensures k in now && (now[k].status == Completed <==> was[k].status == Completed)
      ensures (Active(now[k].status) <==> Active(was[k].status)) {}
  }

  lemma PassedDriving(s: Snapshot, id: Id, now: Snapshot)
    requires Driving(s) && PassedOne(s.rt.steps, id, now.rt.steps) && now.def.steps == s.def.steps
    requires s.rt.steps.Keys == StepIds(s.def.steps)
    requires now.rt.task.status == ClosingStatus(TRunning, now.rt.steps)
    ensures Driving(now)
  {
    hide Staffed, SkillsOpen;
    forall step | step in now.def.steps
      ensures step.stepId in now.rt.steps && Drivable(step, now.rt.steps[step.stepId]) {
      assert Drivable(step, s.rt.steps[step.stepId]);
      var k := step.stepId;
      if k != id {
        StaffedLike(step, s.rt.steps[k], now.rt.steps[k]);
      }
    }
    DrivingOpen(now);
  }

  lemma StaffedLike(step: StepDef, x: StepRuntime, y: StepRuntime)
    requires y.skillPreflight == x.skillPreflight
    ensures Staffed(step, x) == Staffed(step, y)
  {}

  lemma DrivingOpen(s: Snapshot)
    requires forall step :: step in s.def.steps ==> step.stepId in s.rt.steps && Drivable(step, s.rt.steps[step.stepId])
    requires s.rt.steps.Keys == StepIds(s.def.steps) && s.rt.task.status == ClosingStatus(TRunning, s.rt.steps)
    ensures s.rt.task.status == TRunning || AllCompleted(s.rt.steps)
    ensures ActiveIds(s.rt.steps) != {} ==> s.rt.task.status == TRunning
  {
    hide Staffed;
    forall id | id in s.rt.steps ensures s.rt.steps[id].status != Cancelled {
      assert Drivable(DefOf(s.def.steps, id), s.rt.steps[id]);
    }
  }

  /** A gate without human review passes once the required outputs are there. */
  lemma GateOpen(s: Snapshot, log: seq<Event>, id: Id)
    requires s.rt.steps.Keys == StepIds(s.def.steps) && id in s.rt.steps && s.rt.steps[id].status == Verifying
    requires forall o :: o in DefOf(s.def.steps, id).expectedOutputs ==>
              OutputPresent(log, id, s.rt.steps[id].assignmentId, o)
    ensures GateRefusal(s, log, id, Evidence(false, None, None, "")).None?
  {
    hide OutputPresent;
  }

  lemma OutputsKept(log: seq<Event>, more: seq<Event>, id: Id, a: Option<Id>, outputs: seq<ExpectedOutput>)
    requires log <= more && forall o :: o in outputs ==> OutputPresent(log, id, a, o)
    ensures forall o :: o in outputs ==> OutputPresent(more, id, a, o)
  {
    forall o | o in outputs ensures OutputPresent(more, id, a, o) {
      assert OutputPresent(log, id, a, o);
      ArtifactsGrow(log, more, id, a, o.logicalName);
    }
  }

  lemma PassOne(d: Disk, id: Id, mid: Disk, uuid: Uuids, asg: nat -> Id) returns (op: Op)
    requires Steady(d, uuid, asg) && Verified(d, id, mid) && d.snap.rt.steps[id].status == Dispatching
    requires DiskInv(mid) && WithinCap(mid.snap) && FreshIds(uuid, mid.log) && mid.snap.rt.task.status == TRunning
    requires mid.snap.rt.steps.Keys == StepIds(d.snap.def.steps)
    requires forall o :: o in DefOf(d.snap.def.steps, id).expectedOutputs ==>
              OutputPresent(d.log, id, d.snap.rt.steps[id].assignmentId, o)
    ensures op.GatePassOp? && op.stepId == id && Exec(mid, op, uuid).Wrote?
    ensures var now := Disk(Exec(mid, op, uuid).snap, Exec(mid, op, uuid).log);
            && Steady(now, uuid, asg) && PassedOne(d.snap.rt.steps, id, now.snap.rt.steps)
            && now.snap.def.steps == d.snap.def.steps
  {
    hide DiskInv, Exec, Effect, Driving, FreshIds, FreshAssignments, WithinCap, PassedOne, OutputPresent, StepIds,
      GateRefusal, GateMet;
    op := GatePassOp(id, Evidence(false, None, None, ""));
    OutputsKept(d.log, mid.log, id, d.snap.rt.steps[id].assignmentId, DefOf(d.snap.def.steps, id).expectedOutputs);
    GateOpen(mid.snap, mid.log, id);
    GateMetExactly(mid.snap, mid.log, id, op.evidence);
    GatePassSucceeds(mid, id, op.evidence, uuid);
    ExecEffect(mid, op, uuid);
    ExecGood(mid, op, uuid);
    var now := Disk(Exec(mid, op, uuid).snap, Exec(mid, op, uuid).log);
    GateEffectOn(mid.snap, id, op.evidence, now.snap);
    PassedThrough(d.snap.rt.steps, id, mid.snap.rt.steps, now.snap.rt.steps);
    PassedDriving(d.snap, id, now.snap);
    CapKeptUnlessGap(mid, op, uuid);
    NoGap(mid.snap, op);
  }

  lemma FinishOne(d: Disk, id: Id, uuid: Uuids, asg: nat -> Id) returns (moves: seq<Move>)
    requires Steady(d, uuid, asg) && id in d.snap.rt.steps && d.snap.rt.steps[id].status == Dispatching
    ensures var now := Run(d, moves);
            Smooth(d, moves) && Passes(moves) == [id] && Steady(now, uuid, asg)
            && PassedOne(d.snap.rt.steps, id, now.snap.rt.steps) && now.snap.def.steps == d.snap.def.steps
  {
    hide Steady, Exec, Step, PassedOne, OutputPresent, StepIds, Verified, Untouched;
    SteadyBase(d, uuid, asg);
    var outputs := DefOf(d.snap.def.steps, id).expectedOutputs;
    var deliver := DeliverAll(d, id, outputs, uuid, asg);
    var d1 := Run(d, deliver);
    SteadyBase(d1, uuid, asg);
    UntouchedSteps(d, d1, id);
    SameAssignment(d, d1, id);
    var ask := RequestOne(d1, id, uuid, asg);
    var d2 := Disk(Exec(d1, ask, uuid).snap, Exec(d1, ask, uuid).log);
    VerifiedStatus(d1, id, d2);
    var pass := PassOne(d1, id, d2, uuid, asg);
    One(d1, ask, uuid);
    One(d2, pass, uuid);
    Join(d1, [Call(ask, uuid)], [Call(pass, uuid)]);
    moves := deliver + ([Call(ask, uuid)] + [Call(pass, uuid)]);
    Join(d, deliver, [Call(ask, uuid)] + [Call(pass, uuid)]);
    PassedUntouched(d, d1, id, Run(d, moves));
  }

  lemma SteadyBase(d: Disk, uuid: Uuids, asg: nat -> Id)
    requires Steady(d, uuid, asg)
    ensures d.snap.rt.steps.Keys == StepIds(d.snap.def.steps) && DiskInv(d)
  {
    hide FreshIds, FreshAssignments, WithinCap, Driving;
    DiskValid(d);
  }

  lemma UntouchedSteps(d: Disk, now: Disk, id: Id)
    requires Untouched(d, now)
    ensures now.snap.rt.steps.Keys == d.snap.rt.steps.Keys && now.snap.def.steps == d.snap.def.steps
    ensures id in d.snap.rt.steps ==> Like(d.snap.rt.steps[id], now.snap.rt.steps[id])
  {}

  lemma VerifiedStatus(d: Disk, id: Id, now: Disk)
    requires Verified(d, id, now)
    ensures now.snap.rt.task.status == d.snap.rt.task.status && now.snap.rt.steps.Keys == d.snap.rt.steps.Keys
  {}

  lemma PassedUntouched(d: Disk, mid: Disk, id: Id, now: Disk)
    requires Untouched(d, mid) && PassedOne(mid.snap.rt.steps, id, now.snap.rt.steps)
    ensures PassedOne(d.snap.rt.steps, id, now.snap.rt.steps)
  {
    PassedThrough(d.snap.rt.steps, id, mid.snap.rt.steps, now.snap.rt.steps);
  }

  // ----- all dispatched steps

  function SetOf(ids: seq<Id>): set<Id> {
    set id | id in ids
  }

  lemma {:induction false} FinishAll(d: Disk, ids: seq<Id>, uuid: Uuids, asg: nat -> Id) returns (moves: seq<Move>)
    requires Steady(d, uuid, asg) && Distinct(ids)
    requires forall id :: id in ids ==> id in d.snap.rt.steps && d.snap.rt.steps[id].status == Dispatching
    ensures var now := Run(d, moves);
            Smooth(d, moves) && Passes(moves) == ids && Steady(now, uuid, asg) && now.snap.def.steps == d.snap.def.steps
            && now.snap.rt.steps.Keys == d.snap.rt.steps.Keys
            && CompletedIds(now.snap.rt.steps) == CompletedIds(d.snap.rt.steps) + SetOf(ids)
            && ActiveIds(now.snap.rt.steps) == ActiveIds(d.snap.rt.steps) - SetOf(ids)
    decreases |ids|
  {
    hide Steady, Exec, Step, CompletedIds, ActiveIds;
    if ids == [] {
      moves := [];
    } else {
      var first := FinishOne(d, ids[0], uuid, asg);
      var d1 := Run(d, first);
      forall id | id in ids[1..] ensures id in d1.snap.rt.steps && d1.snap.rt.steps[id].status == Dispatching {
        assert id != ids[0];
      }
      PassedSets(d.snap.rt.steps, ids[0], d1.snap.rt.steps);
      var rest := FinishAll(d1, ids[1..], uuid, asg);
      moves := first + rest;
      Join(d, first, rest);
      assert ids == [ids[0]] + ids[1..];
      assert SetOf(ids) == {ids[0]} + SetOf(ids[1..]);
    }
  }

  // ----- one round

  /** The round reconciles, assigns exactly the planned steps in plan order, and then passes exactly their gates. */
  ghost predicate RoundOf(d: Disk, round: seq<Move>) {
    var plan := Dispatchable(d.snap.def.steps, d.snap.rt.steps, d.snap.def.maxParallelSteps);
    && Plannable(d.snap.def.steps, d.snap.rt.steps, Some(d.snap.def.maxParallelSteps))
    && |plan| >= 1 && |round| > |plan| && Smooth(d, round) && Passes(round) == plan
    && round[0].op == ReconcileOp
    && (forall k :: 0 <= k < |plan| ==> round[k+1].op.AssignOp? && round[k+1].op.stepId == plan[k])
  }

  function OpenIds(steps: map<Id, StepRuntime>): set<Id> {
    steps.Keys - CompletedIds(steps)
  }

  /** While steps are open and none is active, the plan is not empty. */
  lemma PlanNotEmpty(s: Snapshot)
    requires Base(s) && Driving(s) && ValidDag(s.def.steps) && s.def.maxParallelSteps >= 1
    requires ActiveIds(s.rt.steps) == {} && OpenIds(s.rt.steps) != {}
    ensures Dispatchable(s.def.steps, s.rt.steps, s.def.maxParallelSteps) != []
  {
    hide Staffed, BooksOk, OneOpenBinding, ClosedOk, UniqueIds, AllCompleted;
    var m := MinimalStep(s.def.steps, OpenIds(s.rt.steps));
    var step := DefOf(s.def.steps, m);
    assert StepOk(step, s.rt.steps) && Drivable(step, s.rt.steps[m]);
    assert DependencyReady(step, s.rt.steps) by {
      forall k | k in step.dependsOn ensures k in s.rt.steps && s.rt.steps[k].status == Completed {
        assert Edge(s.def.steps, m, k);
      }
    }
    assert m !in ActiveIds(s.rt.steps);
    StaffedOpen(step, s.rt.steps[m]);
    assert Selected(DispatchList, step, s.rt.steps);
    assert m in Filter(s.def.steps, DispatchList, s.rt.steps);
  }

  lemma StaffedOpen(step: StepDef, x: StepRuntime)
    requires Staffed(step, x)
    ensures !SkillsOpen(step, x)
  {}

  lemma PlanFacts(s: Snapshot)
    requires Base(s) && ActiveCount(s.rt.steps) <= s.def.maxParallelSteps
    ensures var plan := Dispatchable(s.def.steps, s.rt.steps, s.def.maxParallelSteps);
            && Distinct(plan) && ActiveCount(s.rt.steps) + |plan| <= s.def.maxParallelSteps
            && forall id :: id in plan ==> id in s.rt.steps && s.rt.steps[id].status == Ready
  {
    hide Dispatchable, Base, ActiveCount;
    PlanReady(s);
  }

  lemma DispatchedSets(was: map<Id, StepRuntime>, ids: seq<Id>, now: map<Id, StepRuntime>)
    requires DispatchedAll(was, ids, now) && ActiveIds(was) == {}
    requires forall id :: id in ids ==> id in was && was[id].status == Ready
    ensures ActiveIds(now) == SetOf(ids) && CompletedIds(now) == CompletedIds(was)
  {
    forall id | id in was ensures id in now && (id !in ids ==> !Active(now[id].status)) {
      assert id !in ActiveIds(was);
    }
  }

  lemma Round(d: Disk, uuid: Uuids, asg: nat -> Id) returns (round: seq<Move>)
    requires Steady(d, uuid, asg) && ActiveIds(d.snap.rt.steps) == {} && OpenIds(d.snap.rt.steps) != {}
    ensures RoundOf(d, round)
    ensures var now := Run(d, round);
            && Steady(now, uuid, asg) && ActiveIds(now.snap.rt.steps) == {}
            && now.snap.rt.steps.Keys == d.snap.rt.steps.Keys
            && now.snap.def.steps == d.snap.def.steps
            && CompletedIds(now.snap.rt.steps) == CompletedIds(d.snap.rt.steps) + SetOf(Passes(round))
  {
    hide *;
    SteadyFacts(d, uuid, asg);
    PlanNotEmpty(d.snap);
    PlanFacts(d.snap);
    var plan := Dispatchable(d.snap.def.steps, d.snap.rt.steps, d.snap.def.maxParallelSteps);
    ReconcileIsIdle(d, uuid);
    One(d, ReconcileOp, uuid);
    var assign := AssignSteady(d, plan, uuid, asg);
    var d1 := Run(d, assign);
    DispatchedSets(d.snap.rt.steps, plan, d1.snap.rt.steps);
    DispatchedStatus(d.snap.rt.steps, plan, d1.snap.rt.steps);
    var finish := FinishAll(d1, plan, uuid, asg);
    Join(d, assign, finish);
    var start := [Call(ReconcileOp, uuid)];
    round := start + (assign + finish);
    Join(d, start, assign + finish);
    RoundShape(d, plan, assign, finish, round, uuid);
    assert Passes(round) == plan;
  }

  lemma RoundShape(d: Disk, plan: seq<Id>, assign: seq<Move>, finish: seq<Move>, round: seq<Move>, uuid: Uuids)
    requires plan == Dispatchable(d.snap.def.steps, d.snap.rt.steps, d.snap.def.maxParallelSteps) && |plan| >= 1
    requires ValidDag(d.snap.def.steps) && d.snap.def.maxParallelSteps >= 1
    requires d.snap.rt.steps.Keys == StepIds(d.snap.def.steps)
    requires round == [Call(ReconcileOp, uuid)] + (assign + finish) && |assign| == |plan| && Smooth(d, round)
    requires forall k :: 0 <= k < |plan| ==> assign[k].Call? && assign[k].op.AssignOp? && assign[k].op.stepId == plan[k]
    requires Passes(assign) == [] && Passes(finish) == plan
    requires Passes(round) == [] + (Passes(assign) + Passes(finish))
    ensures RoundOf(d, round) && Passes(round) == plan
  {
    hide Smooth, Passes, ValidDag, Dispatchable;
    forall k | 0 <= k < |plan| ensures round[k+1] == assign[k] {}
  }

  lemma DispatchedStatus(was: map<Id, StepRuntime>, ids: seq<Id>, now: map<Id, StepRuntime>)
    requires DispatchedAll(was, ids, now)
    requires forall id :: id in ids ==> id in was
    ensures now.Keys == was.Keys && forall id :: id in ids ==> id in now && now[id].status == Dispatching
  {}

  lemma SteadyFacts(d: Disk, uuid: Uuids, asg: nat -> Id)
    requires Steady(d, uuid, asg)
    ensures DiskInv(d) && Base(d.snap) && Driving(d.snap) && ValidDag(d.snap.def.steps)
    ensures d.snap.def.maxParallelSteps >= 1
    ensures UniqueIds(d.snap.def.steps) && d.snap.rt.steps.Keys == StepIds(d.snap.def.steps)
    ensures d.snap == Disk(d.snap, d.log).snap && ActiveCount(d.snap.rt.steps) <= d.snap.def.maxParallelSteps
  {
    hide FreshIds, FreshAssignments, Driving, ValidDag, Fit;
    DiskBase(d);
  }

  // ----- the whole loop

  function Flat(rounds: seq<seq<Move>>): seq<Move> {
    if rounds == [] then [] else rounds[0] + Flat(rounds[1..])
  }

  ghost predicate RoundsOf(d: Disk, rounds: seq<seq<Move>>)
    decreases |rounds|
  {
    rounds != [] ==> RoundOf(d, rounds[0]) && RoundsOf(Run(d, rounds[0]), rounds[1..])
  }

  /** Every call of the run completes, the cap is kept at every moment, the gate of each step of `open` is passed
      exactly once, and at the end all steps and the task are completed. */
  ghost predicate DrivenToEnd(d: Disk, run: seq<Move>, open: set<Id>) {
    var end := Run(d, run).snap.rt;
    && Smooth(d, run) && StaysWithinCap(d, run)
    && |Passes(run)| == |open| && SetOf(Passes(run)) == open
    && AllCompleted(end.steps) && end.task.status == TCompleted
  }

  /** From a state in which nothing is active, every step is staffed with an attempt left and identifiers are fresh,
      the loop never stalls: every round's plan is nonempty and every call of the round completes; at most one round
      per open step completes the task, passing the gate of each open step exactly once and never exceeding the cap. */
  lemma {:induction false} Drive(d: Disk, uuid: Uuids, asg: nat -> Id) returns (rounds: seq<seq<Move>>)
    requires Steady(d, uuid, asg) && ActiveIds(d.snap.rt.steps) == {} && d.snap.rt.steps.Keys != {}
    ensures RoundsOf(d, rounds) && |rounds| <= |OpenIds(d.snap.rt.steps)|
    ensures DrivenToEnd(d, Flat(rounds), OpenIds(d.snap.rt.steps))
    decreases |OpenIds(d.snap.rt.steps)|
  {
    hide Steady, Exec, Step, CompletedIds, ActiveIds, OpenIds, RoundOf, AllCompleted;
    if OpenIds(d.snap.rt.steps) == {} {
      rounds := [];
      AllDone(d, uuid, asg);
    } else {
      var round := Round(d, uuid, asg);
      var d1 := Run(d, round);
      OpenShrinks(d, round, d1, uuid, asg);
      var rest := Drive(d1, uuid, asg);
      rounds := [round] + rest;
      assert rounds[1..] == rest;
      RoundSmooth(d, round);
      Join(d, round, Flat(rest));
      OpenSplit(d.snap.rt.steps, Passes(round), d1.snap.rt.steps, Passes(Flat(rest)), Passes(Flat(rounds)));
    }
    SteadyCap(d, uuid, asg);
    SmoothStaysWithinCap(d, Flat(rounds));
  }

  lemma SteadyCap(d: Disk, uuid: Uuids, asg: nat -> Id)
    requires Steady(d, uuid, asg)
    ensures DiskInv(d) && WithinCap(d.snap)
  {}

  lemma RoundSmooth(d: Disk, round: seq<Move>)
    requires RoundOf(d, round)
    ensures Smooth(d, round)
  {}

  lemma AllDone(d: Disk, uuid: Uuids, asg: nat -> Id)
    requires Steady(d, uuid, asg) && OpenIds(d.snap.rt.steps) == {} && d.snap.rt.steps.Keys != {}
    ensures AllCompleted(d.snap.rt.steps) && d.snap.rt.task.status == TCompleted && SetOf([]) == {}
  {
    hide FreshIds, FreshAssignments, Driving, SnapshotOk, StepsOk, BooksOk;
    forall id | id in d.snap.rt.steps ensures d.snap.rt.steps[id].status == Completed {
      assert id !in OpenIds(d.snap.rt.steps);
    }
  }

  /** The planned steps were open. */
  lemma OpenShrinks(d: Disk, round: seq<Move>, now: Disk, uuid: Uuids, asg: nat -> Id)
    requires Steady(d, uuid, asg) && RoundOf(d, round) && now.snap.rt.steps.Keys == d.snap.rt.steps.Keys
    requires CompletedIds(now.snap.rt.steps) == CompletedIds(d.snap.rt.steps) + SetOf(Passes(round))
    ensures |Passes(round)| >= 1 && SetOf(Passes(round)) <= OpenIds(d.snap.rt.steps)
    ensures OpenIds(now.snap.rt.steps) == OpenIds(d.snap.rt.steps) - SetOf(Passes(round))
    ensures |OpenIds(now.snap.rt.steps)| == |OpenIds(d.snap.rt.steps)| - |Passes(round)|
  {
    hide Steady, Dispatchable, Base, ValidDag, Driving, Smooth, OpenIds, CompletedIds, ActiveCount;
    SteadyFacts(d, uuid, asg);
    PlanFacts(d.snap);
    PlanIsOpen(d.snap.rt.steps, Passes(round), now.snap.rt.steps);
  }

  lemma PlanIsOpen(was: map<Id, StepRuntime>, plan: seq<Id>, now: map<Id, StepRuntime>)
    requires Distinct(plan) && now.Keys == was.Keys && CompletedIds(now) == CompletedIds(was) + SetOf(plan)
    requires forall id :: id in plan ==> id in was && was[id].status == Ready
    ensures SetOf(plan) <= OpenIds(was) && OpenIds(now) == OpenIds(was) - SetOf(plan)
    ensures |OpenIds(now)| == |OpenIds(was)| - |plan|
  {
    SizeOf(plan);
  }

  lemma SizeOf(ids: seq<Id>)
    requires Distinct(ids)
    ensures |SetOf(ids)| == |ids|
  {
    if ids != [] {
      var front, last := ids[..|ids|-1], ids[|ids|-1];
      SizeOf(front);
      assert SetOf(ids) == SetOf(front) + {last};
      assert last !in front;
    }
  }

  lemma OpenSplit(was: map<Id, StepRuntime>, first: seq<Id>, mid: map<Id, StepRuntime>, rest: seq<Id>, all: seq<Id>)
    requires all == first + rest && SetOf(first) <= OpenIds(was) && OpenIds(mid) == OpenIds(was) - SetOf(first)
    requires SetOf(rest) == OpenIds(mid) && |rest| == |OpenIds(mid)| && |OpenIds(mid)| == |OpenIds(was)| - |first|
    ensures SetOf(all) == OpenIds(was) && |all| == |OpenIds(was)|
  {
    hide OpenIds;
    assert SetOf(all) == SetOf(first) + SetOf(rest);
  }

  // ----- from the creation of a task

  /** A task no step of which was started, the first `i` steps being staffed. */
  ghost predicate Preparing(d: Disk, uuid: Uuids, i: nat) {
    && DiskInv(d) && FreshIds(uuid, d.log) && d.snap.rt.assignments == [] && d.snap.rt.task.status == TReady
    && (forall k :: 0 <= k < |d.snap.def.steps| ==> Unstarted(d.snap.def.steps[k], d.snap.rt.steps, k < i))
  }

  predicate Unstarted(step: StepDef, steps: map<Id, StepRuntime>, staffed: bool) {
    && step.stepId in steps && steps[step.stepId].status in {WaitingDependency, Ready}
    && steps[step.stepId].attempt == 0
    && (staffed ==> Staffed(step, steps[step.stepId]))
  }

  /** The report that the skills of a step are there. */
  function SkillReport(step: StepDef): SkillPreflight {
    SkillPreflight(SkillsReady, Some(if step.executor == Auto then Codex else step.executor),
                   step.requiredSkills, step.optionalSkills, [])
  }

  lemma Reportable(s: Snapshot, step: StepDef)
    requires s.rt.steps.Keys == StepIds(s.def.steps) && UniqueIds(s.def.steps) && step in s.def.steps
    ensures step.stepId in s.rt.steps
    ensures var c := ChangeOf(s, PreflightOp(step.stepId, SkillReport(step)));
            c.Replace? && c.input.identity.eventId.None?
  {
    var i :| 0 <= i < |s.def.steps| && s.def.steps[i] == step;
    DefOfIndex(s.def.steps, i);
  }

  lemma PrepareOne(d: Disk, i: nat, uuid: Uuids) returns (op: Op)
    requires Preparing(d, uuid, i) && i < |d.snap.def.steps|
    ensures op.PreflightOp? && Exec(d, op, uuid).Wrote?
    ensures var now := Disk(Exec(d, op, uuid).snap, Exec(d, op, uuid).log);
            && Preparing(now, uuid, i + 1) && now.snap.def.steps == d.snap.def.steps
            && now.snap.rt.steps.Keys == d.snap.rt.steps.Keys
  {
    hide DiskInv, Exec, Effect, FreshIds, Unstarted;
    DiskBase(d);
    var step := d.snap.def.steps[i];
    op := PreflightOp(step.stepId, SkillReport(step));
    Reportable(d.snap, step);
    FreshNext(uuid, d.log, ChangeOf(d.snap, op).input);
    SingleSucceeds(d, op, uuid);
    ExecEffect(d, op, uuid);
    ExecGood(d, op, uuid);
    PreparedEffect(d.snap, i, op, Exec(d, op, uuid).snap);
  }

  lemma PreparedEffect(s: Snapshot, i: nat, op: Op, now: Snapshot)
    requires s.rt.steps.Keys == StepIds(s.def.steps) && UniqueIds(s.def.steps) && i < |s.def.steps|
    requires op == PreflightOp(s.def.steps[i].stepId, SkillReport(s.def.steps[i])) && Effect(s, op, now)
    requires forall k :: 0 <= k < |s.def.steps| ==> Unstarted(s.def.steps[k], s.rt.steps, k < i)
    ensures now.def.steps == s.def.steps && now.rt.steps.Keys == s.rt.steps.Keys
    ensures now.rt.assignments == s.rt.assignments && now.rt.task.status == s.rt.task.status
    ensures forall k :: 0 <= k < |s.def.steps| ==> Unstarted(s.def.steps[k], now.rt.steps, k < i + 1)
  {
    hide Staffed;
    assert s.def.steps + [] == s.def.steps;
    forall k | 0 <= k < |s.def.steps| ensures Unstarted(s.def.steps[k], now.rt.steps, k < i + 1) {
      var step := s.def.steps[k];
      assert step.stepId in s.rt.steps && Like(NewStep(s, op, step.stepId), now.rt.steps[step.stepId]);
      if k == i { StaffedByReport(step, now.rt.steps[step.stepId]); }
      else { StaffedLike(step, s.rt.steps[step.stepId], now.rt.steps[step.stepId]); }
    }
  }

  lemma StaffedByReport(step: StepDef, x: StepRuntime)
    requires x.skillPreflight == Some(SkillReport(step))
    ensures Staffed(step, x)
  {}

  lemma {:induction false} PrepareAll(d: Disk, i: nat, uuid: Uuids) returns (moves: seq<Move>)
    requires Preparing(d, uuid, i) && i <= |d.snap.def.steps|
    ensures var now := Run(d, moves);
            Smooth(d, moves) && Passes(moves) == [] && now.snap.def.steps == d.snap.def.steps
            && now.snap.rt.steps.Keys == d.snap.rt.steps.Keys && Preparing(now, uuid, |d.snap.def.steps|)
    decreases |d.snap.def.steps| - i
  {
    hide Preparing, Exec, Step;
    if i == |d.snap.def.steps| {
      moves := [];
    } else {
      var op := PrepareOne(d, i, uuid);
      One(d, op, uuid);
      var rest := PrepareAll(Run(d, [Call(op, uuid)]), i + 1, uuid);
      moves := [Call(op, uuid)] + rest;
      Join(d, [Call(op, uuid)], rest);
    }
  }

  lemma Prepared(d: Disk, uuid: Uuids, asg: nat -> Id)
    requires Preparing(d, uuid, |d.snap.def.steps|) && FreshAssignments(asg, [])
    ensures Steady(d, uuid, asg) && ActiveIds(d.snap.rt.steps) == {} && CompletedIds(d.snap.rt.steps) == {}
  {
    hide DiskInv, FreshIds, Staffed, SnapshotOk, Fit, AllCompleted, UniqueIds;
    DiskBase(d);
    DiskCap(d);
    forall id | id in d.snap.rt.steps ensures d.snap.rt.steps[id].status in {WaitingDependency, Ready} {
      var step := DefOf(d.snap.def.steps, id);
      var k :| 0 <= k < |d.snap.def.steps| && d.snap.def.steps[k] == step;
      assert Unstarted(d.snap.def.steps[k], d.snap.rt.steps, true);
    }
    forall step | step in d.snap.def.steps
      ensures step.stepId in d.snap.rt.steps && Drivable(step, d.snap.rt.steps[step.stepId]) {
      var k :| 0 <= k < |d.snap.def.steps| && d.snap.def.steps[k] == step;
      assert Unstarted(d.snap.def.steps[k], d.snap.rt.steps, true);
      AttemptsLeft(d.snap, step);
    }
    assert ActiveIds(d.snap.rt.steps) == {};
  }

  lemma DiskCap(d: Disk)
    requires DiskInv(d)
    ensures d.snap.def.maxParallelSteps >= 1
  {}

  lemma AttemptsLeft(s: Snapshot, step: StepDef)
    requires SnapshotOk(s) && step in s.def.steps
    ensures step.maxAttempts >= 1
  {}

  lemma BornWhole(def: Workflow, uuid: Uuids)
    requires Creatable(def) && FreshIds(uuid, [])
    ensures var d := Born(def, uuid, Whole);
            && DiskInv(d) && FreshIds(uuid, d.log) && d.snap.def == def && d.snap.rt.assignments == []
            && d.snap.rt.task.status == TReady
            && SameSteps(InitialSteps(def.steps, {}), d.snap.rt.steps)
  {
    hide Fit, DefinitionOk, TaskProgress, ActiveList, FreshIds, DerivedOk;
    BornInv(def, uuid, Whole);
    FreshNext(uuid, [], CreatedInput(def));
    var s := InitialSnapshot(def);
    var n := Append(s.rt, [], CreatedInput(def), uuid);
    RuntimeOkLike(def, s.rt, n.rt);
  }

  lemma BornPreparing(def: Workflow, uuid: Uuids)
    requires Creatable(def) && FreshIds(uuid, [])
    ensures Preparing(Born(def, uuid, Whole), uuid, 0) && Born(def, uuid, Whole).snap.def == def
    ensures Born(def, uuid, Whole).snap.rt.steps.Keys == StepIds(def.steps)
  {
    hide DiskInv, Creatable, FreshIds, Born, Staffed;
    BornWhole(def, uuid);
    var d := Born(def, uuid, Whole);
    DiskBase(d);
    forall k | 0 <= k < |def.steps| ensures Unstarted(def.steps[k], d.snap.rt.steps, false) {
      var id := def.steps[k].stepId;
      assert id in StepIds(def.steps);
      assert Like(InitialSteps(def.steps, {})[id], d.snap.rt.steps[id]);
    }
  }

  /** Any task that can be created with at least one step is completed by the loop, once its skills are reported:
      one passed gate per step, at most as many rounds, every call succeeding and the cap kept throughout. */
  lemma NewTaskCompletes(def: Workflow, uuid: Uuids, asg: nat -> Id)
    returns (reports: seq<Move>, rounds: seq<seq<Move>>)
    requires Creatable(def) && def.steps != [] && FreshIds(uuid, []) && FreshAssignments(asg, [])
    ensures var d := Born(def, uuid, Whole);
            && Smooth(d, reports) && RoundsOf(Run(d, reports), rounds) && |rounds| <= |StepIds(def.steps)|
            && DrivenToEnd(d, reports + Flat(rounds), StepIds(def.steps))
  {
    hide *;
    var d := Born(def, uuid, Whole);
    BornPreparing(def, uuid);
    reports := PrepareAll(d, 0, uuid);
    var d1 := Run(d, reports);
    Prepared(d1, uuid, asg);
    FirstStep(def.steps);
    AllOpen(d1.snap.rt.steps);
    rounds := Drive(d1, uuid, asg);
    BornIdle(def, uuid, Whole);
    BornInv(def, uuid, Whole);
    DrivenJoin(d, reports, Flat(rounds), StepIds(def.steps));
  }

  lemma AllOpen(steps: map<Id, StepRuntime>)
    requires CompletedIds(steps) == {}
    ensures OpenIds(steps) == steps.Keys
  {}

  lemma DrivenJoin(d: Disk, first: seq<Move>, rest: seq<Move>, open: set<Id>)
    requires DiskInv(d) && WithinCap(d.snap) && Smooth(d, first) && Passes(first) == []
    requires DrivenToEnd(Run(d, first), rest, open)
    ensures DrivenToEnd(d, first + rest, open)
  {
    hide DiskInv, WithinCap, Smooth, StaysWithinCap, Run, AllCompleted;
    Join(d, first, rest);
    assert [] + Passes(rest) == Passes(rest);
    SmoothStaysWithinCap(d, first + rest);
  }

  lemma FirstStep(defs: seq<StepDef>)
    requires defs != []
    ensures StepIds(defs) != {}
  {
    assert defs[0].stepId in StepIds(defs);
  }
}
