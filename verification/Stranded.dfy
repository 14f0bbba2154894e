/** Runs from a new task to a call that appends its event and then throws, one for each way in which a call can. */
module Stranded {
  import opened Wrappers
  import opened Contracts
  import opened StateMachine
  import opened Dag
  import opened Scheduler
  import opened Engine
  import opened Invariants
  import opened Operations
  import opened Effects
  import opened Capacity
  import opened Success
  import opened Driver
  import opened Liveness
  import opened Losses
  import opened Loopholes

  /** After completed calls only, the call `op` appends and then throws. */
  ghost predicate Strands(d: Disk, moves: seq<Move>, op: Op, uuid: Uuids) {
    var now := Run(d, moves);
    && AllComplete(d, moves) && Exec(now, op, uuid).Halted? && |Exec(now, op, uuid).log| > |now.log|
    && now.log <= Exec(now, op, uuid).log
  }

  // ----- one call of each kind

  lemma TaskMoves(d: Disk, to: TaskStatus, uuid: Uuids)
    requires Live(d, uuid) && ValidTaskTransition(d.snap.rt.task.status, to)
    ensures var r := Exec(d, TransitionTaskOp(to, None), uuid);
            && r.Wrote? && Live(Disk(r.snap, r.log), uuid) && SameSteps(d.snap.rt.steps, r.snap.rt.steps)
            && r.snap.rt.task.status == to && r.snap.def == d.snap.def
  {
    hide DiskInv, Exec, FreshIds, Effect, ValidTaskTransition;
    var op := TransitionTaskOp(to, None);
    DiskValid(d);
    FreshNext(uuid, d.log, ChangeOf(d.snap, op).input);
    SingleSucceeds(d, op, uuid);
    ExecGood(d, op, uuid);
    ExecEffect(d, op, uuid);
    DecreeEffect(d.snap, op, Exec(d, op, uuid).snap);
    SameDefinition(d, op, uuid);
  }

  lemma CancelAllowed(s: Snapshot, id: Id)
    requires s.rt.steps.Keys == StepIds(s.def.steps) && id in s.rt.steps && s.rt.steps[id].status == Ready
    ensures TransitionRefusal(s, id, Cancelled).None?
  {
    hide ActiveCount;
  }

  /** A ready step that is not the last open one is cancelled. */
  lemma CancelOne(d: Disk, id: Id, other: Id, uuid: Uuids)
    requires Live(d, uuid) && id in d.snap.rt.steps && other in d.snap.rt.steps && id != other
    requires d.snap.rt.steps[id].status == Ready && d.snap.rt.steps[other].status == Ready
    ensures var op := TransitionStepOp(id, Cancelled, None, Anonymous); var r := Exec(d, op, uuid);
            && r.Wrote? && Live(Disk(r.snap, r.log), uuid) && r.snap.def == d.snap.def
            && r.snap.rt.task.status == d.snap.rt.task.status
            && r.snap.rt.steps.Keys == d.snap.rt.steps.Keys && r.snap.rt.steps[id].status == Cancelled
            && forall k :: k in d.snap.rt.steps && k != id ==>
              k in r.snap.rt.steps && Like(d.snap.rt.steps[k], r.snap.rt.steps[k])
  {
    hide DiskInv, Exec, FreshIds, Effect, TransitionRefusal;
    var op := TransitionStepOp(id, Cancelled, None, Anonymous);
    DiskValid(d);
    CancelAllowed(d.snap, id);
    AnonymousIsNew(d.log, TransitionInput(d.snap, id, Cancelled, None, Anonymous), uuid);
    CancelThrowsAfterAppend(d, id, Cancelled, None, Anonymous, uuid);
    ExecGood(d, op, uuid);
    ExecEffect(d, op, uuid);
    SameDefinition(d, op, uuid);
    CancelledEffect(d.snap, op, other, Exec(d, op, uuid).snap);
  }

  lemma CancelledEffect(s: Snapshot, op: Op, other: Id, now: Snapshot)
    requires s.rt.steps.Keys == StepIds(s.def.steps) && op.TransitionStepOp? && op.to == Cancelled
    requires op.stepId in s.rt.steps
    requires Effect(s, op, now) && other in s.rt.steps && other != op.stepId && s.rt.steps[other].status == Ready
    ensures now.rt.task.status == s.rt.task.status && now.rt.steps.Keys == s.rt.steps.Keys
    ensures now.rt.steps[op.stepId].status == Cancelled
    ensures forall k :: k in s.rt.steps && k != op.stepId ==> k in now.rt.steps && Like(s.rt.steps[k], now.rt.steps[k])
  {
    hide Transitioned;
    assert forall k :: k in s.rt.steps ==> Like(NewStep(s, op, k), now.rt.steps[k]);
    assert Transitioned(s.rt.steps[op.stepId], Cancelled, op.why).status == Cancelled by {
      CancelledNow(s.rt.steps[op.stepId], op.why);
    }
    assert !AllClosed(now.rt.steps) by { assert now.rt.steps[other].status == Ready; }
  }

  lemma CancelledNow(x: StepRuntime, why: Option<string>)
    ensures Transitioned(x, Cancelled, why).status == Cancelled
  {}

  // ----- cancelling the last step of a task declared completed

  /** Running, declared completed, one step cancelled: then cancelling the other one throws behind its event. */
  lemma CancelStrands(uuid: Uuids) returns (moves: seq<Move>)
    requires FreshIds(uuid, [])
    ensures Strands(Born(Pair, uuid, Whole), moves, TransitionStepOp("b", Cancelled, None, Anonymous), uuid)
  {
    hide Live, Creatable, Born, AllComplete, Run, Exec, TransitionRefusal, DiskInv, FreshIds;
    var d := Born(Pair, uuid, Whole);
    PairBorn(uuid);
    TaskMoves(d, TRunning, uuid);
    moves := Begin(d, TransitionTaskOp(TRunning, None), uuid);
    var d1 := Run(d, moves);
    TaskMoves(d1, TCompleted, uuid);
    moves := Then(d, moves, TransitionTaskOp(TCompleted, None), uuid);
    var d2 := Run(d, moves);
    StillReady(d.snap.rt.steps, d1.snap.rt.steps, "a"); StillReady(d.snap.rt.steps, d1.snap.rt.steps, "b");
    StillReady(d1.snap.rt.steps, d2.snap.rt.steps, "a"); StillReady(d1.snap.rt.steps, d2.snap.rt.steps, "b");
    CancelOne(d2, "a", "b", uuid);
    moves := Then(d, moves, TransitionStepOp("a", Cancelled, None, Anonymous), uuid);
    LastCancelHalts(Run(d, moves), uuid);
  }

  lemma StillReady(a: map<Id, StepRuntime>, b: map<Id, StepRuntime>, id: Id)
    requires SameSteps(a, b) && id in a && a[id].status == Ready
    ensures id in b && b[id].status == Ready && b.Keys == a.Keys
  {
    assert Like(a[id], b[id]);
  }

  lemma Begin(d: Disk, op: Op, uuid: Uuids) returns (moves: seq<Move>)
    requires Exec(d, op, uuid).Wrote?
    ensures AllComplete(d, moves) && Run(d, moves) == Disk(Exec(d, op, uuid).snap, Exec(d, op, uuid).log)
  {
    hide Exec;
    assert Run(d, []) == d && AllComplete(d, []);
    moves := Then(d, [], op, uuid);
  }

  lemma LastCancelHalts(d: Disk, uuid: Uuids)
    requires Live(d, uuid) && d.snap.rt.task.status == TCompleted && d.snap.rt.steps.Keys == {"a", "b"}
    requires d.snap.rt.steps["a"].status == Cancelled && d.snap.rt.steps["b"].status == Ready
    ensures var r := Exec(d, TransitionStepOp("b", Cancelled, None, Anonymous), uuid);
            r.Halted? && |r.log| > |d.log| && d.log <= r.log
  {
    hide DiskInv, Exec, FreshIds, TransitionRefusal;
    DiskValid(d);
    CancelAllowed(d.snap, "b");
    AnonymousIsNew(d.log, TransitionInput(d.snap, "b", Cancelled, None, Anonymous), uuid);
    CancelThrowsAfterAppend(d, "b", Cancelled, None, Anonymous, uuid);
  }

  // ----- passing the last gate of a task that waits for a human

  lemma PairSteady(uuid: Uuids, asg: nat -> Id) returns (moves: seq<Move>)
    requires FreshIds(uuid, []) && FreshAssignments(asg, [])
    ensures var d := Born(Pair, uuid, Whole); var now := Run(d, moves);
            && Smooth(d, moves) && Steady(now, uuid, asg) && now.snap.def.steps == Pair.steps
            && now.snap.rt.steps.Keys == StepIds(Pair.steps)
            && ActiveIds(now.snap.rt.steps) == {} && CompletedIds(now.snap.rt.steps) == {}
  {
    hide *;
    var d := Born(Pair, uuid, Whole);
    PairCreatable();
    BornPreparing(Pair, uuid);
    moves := PrepareAll(d, 0, uuid);
    Prepared(Run(d, moves), uuid, asg);
  }

  /** In a state the loop can be in, an open step without dependencies that is not active is ready. */
  lemma FreeIsReady(d: Disk, uuid: Uuids, asg: nat -> Id, id: Id)
    requires Steady(d, uuid, asg) && id in d.snap.rt.steps && id in StepIds(d.snap.def.steps)
    requires DefOf(d.snap.def.steps, id).dependsOn == []
    requires id !in ActiveIds(d.snap.rt.steps) && id !in CompletedIds(d.snap.rt.steps)
    ensures d.snap.rt.steps[id].status == Ready
  {
    hide FreshIds, FreshAssignments, WithinCap, Staffed, DiskInv, BooksOk, OneOpenBinding, ClosedOk;
    DiskBase(d);
    StepOkAt(d.snap.def.steps, d.snap.rt.steps, id);
    assert Drivable(DefOf(d.snap.def.steps, id), d.snap.rt.steps[id]);
  }

  lemma {:induction false} SmoothCompletes(d: Disk, moves: seq<Move>)
    requires Smooth(d, moves)
    ensures AllComplete(d, moves)
  {
    hide Exec;
    if moves != [] { SmoothCompletes(d, moves[..|moves|-1]); }
  }

  /** One step dispatched and finished, the other untouched. */
  lemma FinishFirst(d: Disk, uuid: Uuids, asg: nat -> Id) returns (moves: seq<Move>)
    requires Steady(d, uuid, asg) && d.snap.def.steps == Pair.steps && d.snap.rt.steps.Keys == StepIds(Pair.steps)
    requires ActiveIds(d.snap.rt.steps) == {} && CompletedIds(d.snap.rt.steps) == {} && d.snap.def.maxParallelSteps >= 1
    ensures var now := Run(d, moves);
            && Smooth(d, moves) && Steady(now, uuid, asg) && now.snap.def.steps == Pair.steps
            && now.snap.rt.steps.Keys == StepIds(Pair.steps)
            && ActiveIds(now.snap.rt.steps) == {} && CompletedIds(now.snap.rt.steps) == {"a"}
  {
    hide Steady, Smooth, Run, PassedOne, DispatchedAll, ActiveIds, CompletedIds, ActiveCount, Passes;
    PairIds();
    FreeIsReady(d, uuid, asg, "a");
    NoneActive(d.snap.rt.steps);
    OneIsDistinct("a");
    var assign := AssignSteady(d, ["a"], uuid, asg);
    var d1 := Run(d, assign);
    DispatchedSets(d.snap.rt.steps, ["a"], d1.snap.rt.steps);
    DispatchedStatus(d.snap.rt.steps, ["a"], d1.snap.rt.steps);
    var finish := FinishOne(d1, "a", uuid, asg);
    PassedSets(d1.snap.rt.steps, "a", Run(d1, finish).snap.rt.steps);
    PassedKeys(d1.snap.rt.steps, "a", Run(d1, finish).snap.rt.steps);
    moves := assign + finish;
    Join(d, assign, finish);
    assert SetOf(["a"]) == {"a"};
  }

  lemma PassedKeys(was: map<Id, StepRuntime>, id: Id, now: map<Id, StepRuntime>)
    requires PassedOne(was, id, now)
    ensures now.Keys == was.Keys
  {}

  lemma OneIsDistinct(id: Id)
    ensures Distinct([id])
  {}

  lemma NoneActive(steps: map<Id, StepRuntime>)
    requires ActiveIds(steps) == {}
    ensures ActiveCount(steps) == 0
  {}

  lemma PairIds()
    ensures StepIds(Pair.steps) == {"a", "b"}
    ensures forall id :: id in {"a", "b"} ==> id in StepIds(Pair.steps) && DefOf(Pair.steps, id) == Plain(id)
  {
    assert Pair.steps[0] == Plain("a") && Pair.steps[1] == Plain("b");
    assert StepIds(Pair.steps) == {"a", "b"};
  }

  /** The second step under verification, the first completed. */
  lemma VerifySecond(d: Disk, uuid: Uuids, asg: nat -> Id) returns (moves: seq<Move>)
    requires Steady(d, uuid, asg) && d.snap.def.steps == Pair.steps && d.snap.rt.steps.Keys == StepIds(Pair.steps)
    requires ActiveIds(d.snap.rt.steps) == {} && CompletedIds(d.snap.rt.steps) == {"a"}
    requires d.snap.def.maxParallelSteps >= 1
    ensures var now := Run(d, moves);
            && Smooth(d, moves) && Live(now, uuid) && now.snap.def.steps == Pair.steps
            && now.snap.rt.steps.Keys == StepIds(Pair.steps)
            && now.snap.rt.task.status == TRunning && {"a", "b"} <= now.snap.rt.steps.Keys
            && now.snap.rt.steps["a"].status == Completed && now.snap.rt.steps["b"].status == Verifying
  {
    hide Steady, Smooth, Run, Exec, DispatchedAll, ActiveIds, CompletedIds, ActiveCount, Passes, DiskInv, FreshIds,
      WithinCap, Verified;
    PairIds();
    NotCompleted(d.snap.rt.steps, "b");
    IdleEverywhere(d.snap.rt.steps, "b");
    FreeIsReady(d, uuid, asg, "b");
    NoneActive(d.snap.rt.steps);
    OneIsDistinct("b");
    var assign := AssignSteady(d, ["b"], uuid, asg);
    var d1 := Run(d, assign);
    DispatchedSets(d.snap.rt.steps, ["b"], d1.snap.rt.steps);
    DispatchedStatus(d.snap.rt.steps, ["b"], d1.snap.rt.steps);
    var ask := RequestOne(d1, "b", uuid, asg);
    One(d1, ask, uuid);
    moves := assign + [Call(ask, uuid)];
    Join(d, assign, [Call(ask, uuid)]);
    SecondVerified(d1, Run(d, moves));
  }

  lemma NotCompleted(steps: map<Id, StepRuntime>, id: Id)
    requires CompletedIds(steps) == {"a"} && id == "b"
    ensures id !in CompletedIds(steps)
  {}

  lemma IdleEverywhere(steps: map<Id, StepRuntime>, id: Id)
    requires ActiveIds(steps) == {}
    ensures id !in ActiveIds(steps)
  {}

  lemma SecondVerified(d: Disk, now: Disk)
    requires Verified(d, "b", now) && CompletedIds(d.snap.rt.steps) == {"a"} && d.snap.rt.steps.Keys == {"a", "b"}
    ensures now.snap.rt.steps.Keys == {"a", "b"} && now.snap.rt.steps["a"].status == Completed
    ensures now.snap.rt.steps["b"].status == Verifying
    ensures now.snap.rt.task.status == d.snap.rt.task.status && now.snap.def.steps == d.snap.def.steps
  {
    hide AtLeast;
    assert "a" in CompletedIds(d.snap.rt.steps);
    assert Like(d.snap.rt.steps["a"], now.snap.rt.steps["a"]);
  }

  lemma LastGateHalts(d: Disk, e: Evidence, uuid: Uuids)
    requires Live(d, uuid) && d.snap.rt.task.status == TWaitingHuman && d.snap.def.steps == Pair.steps
    requires d.snap.rt.steps.Keys == {"a", "b"}
    requires d.snap.rt.steps["a"].status == Completed && d.snap.rt.steps["b"].status == Verifying && !e.humanReview
    ensures var r := Exec(d, GatePassOp("b", e), uuid); r.Halted? && |r.log| > |d.log| && d.log <= r.log
  {
    hide DiskInv, Exec, FreshIds;
    DiskValid(d);
    PairIds();
    GateThrowsAfterAppend(d, "b", e, uuid);
  }

  /** Both steps driven as intended, the task set waiting for a human while the second one is verified: then its gate,
      which nothing refuses, throws behind its event. */
  lemma GateStrands(uuid: Uuids, asg: nat -> Id) returns (moves: seq<Move>)
    requires FreshIds(uuid, []) && FreshAssignments(asg, [])
    ensures Strands(Born(Pair, uuid, Whole), moves, GatePassOp("b", Evidence(false, None, None, "")), uuid)
  {
    hide Live, Creatable, Born, AllComplete, Run, Exec, Steady, Smooth, ActiveIds, CompletedIds, FreshIds,
      FreshAssignments, SameSteps;
    var d := Born(Pair, uuid, Whole);
    var first := PairSteady(uuid, asg);
    var d1 := Run(d, first);
    SteadyRoom(d1, uuid, asg);
    var second := FinishFirst(d1, uuid, asg);
    var d2 := Run(d1, second);
    SteadyRoom(d2, uuid, asg);
    var third := VerifySecond(d2, uuid, asg);
    var d3 := Run(d2, third);
    Join(d, first, second);
    Join(d, first + second, third);
    moves := (first + second) + third;
    SmoothCompletes(d, moves);
    TaskMoves(d3, TWaitingHuman, uuid);
    moves := Then(d, moves, TransitionTaskOp(TWaitingHuman, None), uuid);
    PairIds();
    SameTwo(d3.snap.rt.steps, Run(d, moves).snap.rt.steps);
    LastGateHalts(Run(d, moves), Evidence(false, None, None, ""), uuid);
  }

  lemma SameTwo(a: map<Id, StepRuntime>, b: map<Id, StepRuntime>)
    requires SameSteps(a, b) && a.Keys == {"a", "b"}
    ensures b.Keys == {"a", "b"} && b["a"].status == a["a"].status && b["b"].status == a["b"].status
  {
    assert Like(a["a"], b["a"]) && Like(a["b"], b["b"]);
  }

  lemma SteadyRoom(d: Disk, uuid: Uuids, asg: nat -> Id)
    requires Steady(d, uuid, asg)
    ensures d.snap.def.maxParallelSteps >= 1
  {
    hide FreshIds, FreshAssignments, WithinCap, Driving;
    DiskCap(d);
  }

  // ----- a completed task with open steps

  /** Two completed calls from a new task. */
  lemma DecreeReached(uuid: Uuids) returns (moves: seq<Move>)
    requires FreshIds(uuid, [])
    ensures var d := Born(Pair, uuid, Whole); AllComplete(d, moves) && !Decreed(d.snap) && Decreed(Run(d, moves).snap)
  {
    hide Live, Creatable, Born, AllComplete, Run, Exec, DiskInv, FreshIds;
    var d := Born(Pair, uuid, Whole);
    PairBorn(uuid);
    TaskMoves(d, TRunning, uuid);
    moves := Begin(d, TransitionTaskOp(TRunning, None), uuid);
    var d1 := Run(d, moves);
    TaskMoves(d1, TCompleted, uuid);
    moves := Then(d, moves, TransitionTaskOp(TCompleted, None), uuid);
    StillReady(d.snap.rt.steps, d1.snap.rt.steps, "a");
    StillReady(d1.snap.rt.steps, Run(d, moves).snap.rt.steps, "a");
  }

  // ----- adding steps that make the graph invalid

  function After(id: Id, on: Id): StepDef {
    Plain(id).(dependsOn := [on])
  }

  /** On a new task, two steps that wait for each other, and a step that waits for an unknown one, are recorded and
      then refused. */
  lemma AdditionStrands(uuid: Uuids)
    requires FreshIds(uuid, [])
    ensures Strands(Born(Pair, uuid, Whole), [], AddStepsOp([After("c", "e"), After("e", "c")]), uuid)
    ensures Strands(Born(Pair, uuid, Whole), [], AddStepsOp([After("c", "e")]), uuid)
  {
    hide Live, Creatable, Born, Exec, FreshIds;
    var d := Born(Pair, uuid, Whole);
    assert Run(d, []) == d && AllComplete(d, []);
    PairBorn(uuid);
    AdditionHalts(d, [After("c", "e"), After("e", "c")], uuid) by {
      var steps := Pair.steps + [After("c", "e"), After("e", "c")];
      assert steps[2] in steps && steps[3] in steps;
      assert Edge(steps, "c", "e") && Edge(steps, "e", "c");
      assert Cycle(steps, ["c", "e", "c"]);
    }
    AdditionHalts(d, [After("c", "e")], uuid) by {
      var steps := Pair.steps + [After("c", "e")];
      assert steps[2] in steps && "e" in steps[2].dependsOn;
      assert "e" !in StepIds(steps);
    }
  }

  lemma AdditionHalts(d: Disk, additions: seq<StepDef>, uuid: Uuids)
    requires Live(d, uuid) && d.snap.def == Pair && d.snap.rt.task.status == TReady
    requires additions != [] && UniqueIds(Pair.steps + additions) && !ValidDag(Pair.steps + additions)
    ensures var r := Exec(d, AddStepsOp(additions), uuid); r.Halted? && |r.log| > |d.log| && d.log <= r.log
  {
    hide DiskInv, FreshIds, Exec, ValidDag, UniqueIds;
    AdditionThrowsAfterAppend(d, additions, uuid);
  }

  /** The three kinds of loss are reached from a new task, with generators that exist. */
  lemma EveryLossIsReached() returns (cancel: seq<Move>, gate: seq<Move>)
    ensures var d := Born(Pair, Tally, Whole);
            && Creatable(Pair)
            && Strands(d, cancel, TransitionStepOp("b", Cancelled, None, Anonymous), Tally)
            && Strands(d, gate, GatePassOp("b", Evidence(false, None, None, "")), Tally)
            && Strands(d, [], AddStepsOp([After("c", "e"), After("e", "c")]), Tally)
  {
    hide Born, Strands, Creatable, FreshIds, FreshAssignments;
    TallyIsFresh();
    PairCreatable();
    cancel := CancelStrands(Tally);
    gate := GateStrands(Tally, Tally);
    AdditionStrands(Tally);
  }
}
