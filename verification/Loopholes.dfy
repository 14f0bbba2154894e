/** Calls that complete although a reader of the other guards would not expect them to, each with a run that shows
    it. */
module Loopholes {
  import opened Wrappers
  import opened Contracts
  import opened StateMachine
  import opened Dag
  import opened Scheduler
  import opened EventLedger
  import opened Store
  import opened Engine
  import opened Invariants
  import opened Operations
  import opened Runs
  import opened Effects
  import opened History
  import opened Capacity
  import opened Success
  import Driver
  import Liveness

  ghost predicate AllComplete(d: Disk, moves: seq<Move>) {
    moves != [] ==>
      var n := |moves| - 1;
      AllComplete(d, moves[..n]) && moves[n].Call? && Exec(Run(d, moves[..n]), moves[n].op, moves[n].uuid).Wrote?
  }

  lemma Then(d: Disk, moves: seq<Move>, op: Op, uuid: Uuids) returns (more: seq<Move>)
    requires AllComplete(d, moves) && Exec(Run(d, moves), op, uuid).Wrote?
    ensures more == moves + [Call(op, uuid)] && AllComplete(d, more)
    ensures Run(d, more) == Disk(Exec(Run(d, moves), op, uuid).snap, Exec(Run(d, moves), op, uuid).log)
  {
    hide Exec;
    more := moves + [Call(op, uuid)];
    assert more[..|more|-1] == moves;
  }

  // ----- the gap

  /** Only step `id` changed, to status `to`. */
  ghost predicate MovedTo(d: Disk, id: Id, to: StepStatus, now: Disk) {
    && now.snap.def == d.snap.def && now.snap.rt.steps.Keys == d.snap.rt.steps.Keys && id in d.snap.rt.steps
    && now.snap.rt.steps[id].status == to && now.snap.rt.steps[id].assignmentId == d.snap.rt.steps[id].assignmentId
    && forall k :: k in d.snap.rt.steps && k != id ==>
      k in now.snap.rt.steps && Like(d.snap.rt.steps[k], now.snap.rt.steps[k])
  }

  ghost predicate Live(d: Disk, uuid: Uuids) {
    DiskInv(d) && FreshIds(uuid, d.log)
  }

  lemma MoveStep(d: Disk, id: Id, to: StepStatus, uuid: Uuids)
    requires Live(d, uuid) && id in d.snap.rt.steps && to in {Blocked, FixRequired}
    requires to in StepTransitions(d.snap.rt.steps[id].status)
    ensures var op := TransitionStepOp(id, to, None, Anonymous); var r := Exec(d, op, uuid);
            r.Wrote? && Live(Disk(r.snap, r.log), uuid) && MovedTo(d, id, to, Disk(r.snap, r.log))
  {
    hide DiskInv, Exec, FreshIds, Effect, TransitionRefusal;
    var op := TransitionStepOp(id, to, None, Anonymous);
    DiskValid(d);
    Allowed(d.snap, id, to);
    TransitionSucceeds(d, id, to, None, uuid);
    ExecGood(d, op, uuid);
    ExecEffect(d, op, uuid);
    MovedEffect(d, op, id, Disk(Exec(d, op, uuid).snap, Exec(d, op, uuid).log));
    SameDefinition(d, op, uuid);
  }

  lemma Allowed(s: Snapshot, id: Id, to: StepStatus)
    requires s.rt.steps.Keys == StepIds(s.def.steps) && id in s.rt.steps && to in {Blocked, FixRequired}
    requires to in StepTransitions(s.rt.steps[id].status)
    ensures TransitionRefusal(s, id, to).None?
  {
    hide ActiveCount;
  }

  lemma MovedEffect(d: Disk, op: Op, id: Id, now: Disk)
    requires d.snap.rt.steps.Keys == StepIds(d.snap.def.steps) && id in d.snap.rt.steps && Effect(d.snap, op, now.snap)
    requires (op.TransitionStepOp? && op.to in {Blocked, FixRequired}) || (op.ProgressOp? && op.progress.Some?)
    requires op.stepId == id
    ensures now.snap.def == d.snap.def ==> MovedTo(d, id, if op.ProgressOp? then Running else op.to, now)
  {
    assert forall k :: k in d.snap.rt.steps ==> Like(NewStep(d.snap, op, k), now.snap.rt.steps[k]);
  }

  lemma SameDefinition(d: Disk, op: Op, uuid: Uuids)
    requires SnapshotOk(d.snap) && !op.AddStepsOp? && Exec(d, op, uuid).Wrote?
    ensures Exec(d, op, uuid).snap.def == d.snap.def
  {
    hide ValidDag, DefinitionFieldsOk, Sound, Append, PromoteFrom, ReconcileFrom, AddSteps, ChangeOf, RequestChange,
      TransitionRefusal, GateRefusal, TaskProgress, ActiveList;
    SnapshotFacts(d.snap);
  }

  lemma ReportOn(d: Disk, id: Id, uuid: Uuids)
    requires Live(d, uuid) && id in d.snap.rt.steps && d.snap.rt.steps[id].status == FixRequired
    ensures var op := ProgressOp(id, Some(0.5), None, Anonymous); var r := Exec(d, op, uuid);
            r.Wrote? && Live(Disk(r.snap, r.log), uuid) && MovedTo(d, id, Running, Disk(r.snap, r.log))
  {
    hide DiskInv, Exec, FreshIds, Effect;
    var op := ProgressOp(id, Some(0.5), None, Anonymous);
    DiskValid(d);
    var input := ChangeOf(d.snap, op).input;
    FreshNext(uuid, d.log, input);
    SingleSucceeds(d, op, uuid);
    ExecGood(d, op, uuid);
    ExecEffect(d, op, uuid);
    MovedEffect(d, op, id, Disk(Exec(d, op, uuid).snap, Exec(d, op, uuid).log));
    SameDefinition(d, op, uuid);
  }

  lemma MovedTwice(a: Disk, b: Disk, c: Disk, id: Id, to: StepStatus, then_: StepStatus)
    requires MovedTo(a, id, to, b) && MovedTo(b, id, then_, c)
    ensures MovedTo(a, id, then_, c)
  {
    forall k | k in a.snap.rt.steps && k != id
      ensures k in c.snap.rt.steps && Like(a.snap.rt.steps[k], c.snap.rt.steps[k]) {
      assert Like(a.snap.rt.steps[k], b.snap.rt.steps[k]) && Like(b.snap.rt.steps[k], c.snap.rt.steps[k]);
    }
  }

  /** In every state, whatever the cap, three completed calls set a ready step running without assigning it:
      blocked, fix required, progress reported. */
  lemma ReadyStepEscapes(d: Disk, id: Id, uuid: Uuids) returns (moves: seq<Move>)
    requires Live(d, uuid) && id in d.snap.rt.steps && d.snap.rt.steps[id].status == Ready
    ensures |moves| == 3 && AllComplete(d, moves) && Live(Run(d, moves), uuid) && MovedTo(d, id, Running, Run(d, moves))
  {
    hide Live, Exec, MovedTo, Step;
    MoveStep(d, id, Blocked, uuid);
    assert Run(d, []) == d;
    moves := Then(d, [], TransitionStepOp(id, Blocked, None, Anonymous), uuid);
    var d1 := Run(d, moves);
    AtStep(d, id, Blocked, d1);
    MoveStep(d1, id, FixRequired, uuid);
    moves := Then(d, moves, TransitionStepOp(id, FixRequired, None, Anonymous), uuid);
    var d2 := Run(d, moves);
    AtStep(d1, id, FixRequired, d2);
    ReportOn(d2, id, uuid);
    moves := Then(d, moves, ProgressOp(id, Some(0.5), None, Anonymous), uuid);
    MovedTwice(d, d1, d2, id, Blocked, FixRequired);
    MovedTwice(d, d2, Run(d, moves), id, FixRequired, Running);
  }

  lemma AtStep(d: Disk, id: Id, to: StepStatus, now: Disk)
    requires MovedTo(d, id, to, now)
    ensures id in now.snap.rt.steps && now.snap.rt.steps[id].status == to
  {}

  // ----- a workflow of two independent steps, one at a time

  /** Identifiers told apart by their length. */
  function Tally(n: nat): (s: string)
    ensures |s| == n
  {
    if n == 0 then "" else Tally(n - 1) + "1"
  }

  function Plain(id: Id): StepDef {
    StepDef(id, Codex, [], [], [], [], [], 3)
  }

  const Pair := Workflow(1, 1, [Plain("a"), Plain("b")])

  lemma PairCreatable()
    ensures Creatable(Pair)
  {
    hide TaskProgress, ActiveList;
    var s := InitialSnapshot(Pair);
    assert forall x :: x in Pair.steps ==> x.dependsOn == [] && x.expectedOutputs == [];
    forall p ensures !Cycle(Pair.steps, p) {
      if |p| >= 2 { assert !Edge(Pair.steps, p[0], p[1]); }
    }
    assert s.rt.steps.Keys == StepIds(Pair.steps);
    assert s.rt.assignments == [] && s.rt.bindings == [];
  }

  lemma PairBorn(uuid: Uuids)
    requires FreshIds(uuid, [])
    ensures var d := Born(Pair, uuid, Whole);
            Live(d, uuid) && d.snap.def == Pair && d.snap.rt.steps.Keys == {"a", "b"}
            && (forall id :: id in d.snap.rt.steps ==>
                  d.snap.rt.steps[id].status == Ready && d.snap.rt.steps[id].assignmentId.None?)
            && d.snap.rt.task.status == TReady
  {
    hide TaskProgress, ActiveList, DiskInv, FreshIds, Creatable, SnapshotOk, Write;
    PairCreatable();
    BornInv(Pair, uuid, Whole);
    FreshNext(uuid, [], CreatedInput(Pair));
    PairWritten(uuid);
    assert StepIds(Pair.steps) == {"a", "b"} by {
      assert Pair.steps[0].stepId == "a" && Pair.steps[1].stepId == "b";
    }
  }

  lemma PairWritten(uuid: Uuids)
    requires FreshIds(uuid, [])
    ensures var s := InitialSnapshot(Pair);
            var n := Append(s.rt, [], CreatedInput(Pair), uuid);
            n.Noted? && CreateTask(Pair, uuid) == Wrote(n.log, Snapshot(Pair, n.rt))
  {
    hide TaskProgress, ActiveList, FreshIds, DefinitionOk;
    PairCreatable();
    FreshNext(uuid, [], CreatedInput(Pair));
    var s := InitialSnapshot(Pair);
    var n := Append(s.rt, [], CreatedInput(Pair), uuid);
    RuntimeOkLike(Pair, s.rt, n.rt);
  }

  /** Six completed calls bring a task limited to one parallel step to two running steps, neither assigned. */
  lemma CapBroken(uuid: Uuids) returns (moves: seq<Move>)
    requires FreshIds(uuid, [])
    ensures var d := Born(Pair, uuid, Whole);
            Creatable(Pair) && AllComplete(d, moves)
            && ActiveCount(Run(d, moves).snap.rt.steps) == 2 && Run(d, moves).snap.def.maxParallelSteps == 1
            && !ActiveAssigned(Run(d, moves).snap)
  {
    hide Live, Creatable, Born, AllComplete, Run;
    PairCreatable();
    PairBorn(uuid);
    var d := Born(Pair, uuid, Whole);
    var first := ReadyStepEscapes(d, "a", uuid);
    var d1 := Run(d, first);
    assert Like(d.snap.rt.steps["b"], d1.snap.rt.steps["b"]);
    var rest := ReadyStepEscapes(d1, "b", uuid);
    moves := first + rest;
    CompleteJoin(d, first, rest);
    var now := Run(d, moves).snap.rt.steps;
    assert Like(d1.snap.rt.steps["a"], now["a"]);
    assert ActiveIds(now) == {"a", "b"};
  }

  lemma {:induction false} CompleteJoin(d: Disk, a: seq<Move>, b: seq<Move>)
    requires AllComplete(d, a) && AllComplete(Run(d, a), b)
    ensures AllComplete(d, a + b) && Run(d, a + b) == Run(Run(d, a), b)
  {
    hide Exec, Step;
    if b == [] {
      assert a + b == a;
    } else {
      var n := |b| - 1;
      CompleteJoin(d, a, b[..n]);
      assert (a + b)[..|a + b|-1] == a + b[..n];
    }
  }

  // ----- the status of the task is not tied to the steps

  lemma DecreeEffect(s: Snapshot, op: Op, now: Snapshot)
    requires s.rt.steps.Keys == StepIds(s.def.steps) && op.TransitionTaskOp? && Effect(s, op, now)
    ensures now.rt.task.status == op.toTask && SameSteps(s.rt.steps, now.rt.steps)
  {
    assert forall k :: k in s.rt.steps ==> Like(NewStep(s, op, k), now.rt.steps[k]);
  }

  /** The task counts as completed while a step is not. */
  predicate Decreed(s: Snapshot) {
    s.rt.task.status == TCompleted && !AllCompleted(s.rt.steps)
  }

  predicate Decrees(s: Snapshot, op: Op) {
    op.TransitionTaskOp? && op.toTask == TCompleted && !AllCompleted(s.rt.steps)
  }

  /** Declaring a task completed over open steps is the only way to a completed task with an open step. */
  lemma CompletedByDecree(d: Disk, op: Op, uuid: Uuids)
    requires DiskInv(d) && !Decreed(d.snap) && Exec(d, op, uuid).Wrote?
    ensures Decreed(Exec(d, op, uuid).snap) <==> Decrees(d.snap, op)
  {
    hide DiskInv, Exec, Effect, Permitted, AllCompleted;
    DiskValid(d);
    ExecEffect(d, op, uuid);
    WroteWasPermitted(d, op, uuid);
    NotOverWhenAdded(d, op, uuid);
    DecreedAfter(d.snap, d.log, op, Exec(d, op, uuid).snap);
  }

  lemma NotOverWhenAdded(d: Disk, op: Op, uuid: Uuids)
    requires SnapshotOk(d.snap) && Exec(d, op, uuid).Wrote?
    ensures Added(op) != [] ==> d.snap.rt.task.status != TCompleted
  {
    hide SnapshotOk, Sound, UniqueIds, Settle, TransitionStep, GatePass, ReconcileReadiness, AppendAdded;
  }

  lemma DecreedAfter(s: Snapshot, log: seq<Event>, op: Op, now: Snapshot)
    requires s.rt.steps.Keys == StepIds(s.def.steps) && Permitted(s, log, op) && Effect(s, op, now) && !Decreed(s)
    requires Added(op) != [] ==> s.rt.task.status != TCompleted
    ensures Decreed(now) <==> Decrees(s, op)
  {
    hide Permitted, NewStep, StepEffect, NewAssignments;
    if op.TransitionTaskOp? {
      DecreeEffect(s, op, now);
      SameStepsFacts([], s.rt.steps, now.rt.steps);
    } else if s.rt.task.status == TCompleted {
      StillAllCompleted(s, log, op, now);
      assert !Decreed(now);
    } else {
      ClosedIsCompleted(now.rt.steps);
    }
  }

  lemma ClosedIsCompleted(steps: map<Id, StepRuntime>)
    ensures AllClosed(steps) && !SomeCancelled(steps) ==> AllCompleted(steps)
  {}

  lemma StillAllCompleted(s: Snapshot, log: seq<Event>, op: Op, now: Snapshot)
    requires s.rt.steps.Keys == StepIds(s.def.steps) && Permitted(s, log, op) && StepEffect(s, op, now.rt.steps)
    requires AllCompleted(s.rt.steps) && Added(op) == []
    ensures AllCompleted(now.rt.steps)
  {
    hide Permitted, NewStep;
    forall id | id in now.rt.steps ensures now.rt.steps[id].status == Completed {
      NewStatus(s, log, op, id);
      assert Like(NewStep(s, op, id), now.rt.steps[id]);
    }
  }

  /** A call that declares the task completed over an open step, from a status that allows it and with a new event
      id. */
  predicate DecreeMove(d: Disk, m: Move) {
    && m.Call? && Decrees(d.snap, m.op) && ValidTaskTransition(d.snap.rt.task.status, TCompleted)
    && !EventLedger.Recorded(d.log, m.uuid(|d.log| + 1))
  }

  /** These are the declarations that complete. */
  lemma DecreeCompletes(d: Disk, m: Move)
    requires DiskInv(d) && m.Call? && Decrees(d.snap, m.op)
    ensures Exec(d, m.op, m.uuid).Wrote? <==> DecreeMove(d, m)
  {
    hide DiskInv, Exec, AllCompleted, EventLedger.Recorded;
    SingleCompletes(d, m.op, m.uuid);
  }

  lemma DecreeStep(d: Disk, m: Move)
    requires DiskInv(d) && !Decreed(d.snap)
    ensures Decreed(Step(d, m).snap) <==> DecreeMove(d, m)
  {
    hide DiskInv, Decreed, Exec, AllCompleted, EventLedger.Recorded;
    if m.Call? && Decrees(d.snap, m.op) { DecreeCompletes(d, m); }
    if m.Call? && Exec(d, m.op, m.uuid).Wrote? { CompletedByDecree(d, m.op, m.uuid); }
  }

  ghost predicate NeverDecreed(d: Disk, moves: seq<Move>) {
    !Decreed(Run(d, moves).snap) && (moves != [] ==> NeverDecreed(d, moves[..|moves|-1]))
  }

  ghost predicate NoDecree(d: Disk, moves: seq<Move>) {
    moves != [] ==> NoDecree(d, moves[..|moves|-1]) && !DecreeMove(Run(d, moves[..|moves|-1]), moves[|moves|-1])
  }

  /** In a run a completed task has all its steps completed, at every moment, if and only if no call of the run declares
      the task completed while a step is open. */
  lemma {:induction false} DecreeOverRuns(d: Disk, moves: seq<Move>)
    requires DiskInv(d) && !Decreed(d.snap)
    ensures NeverDecreed(d, moves) <==> NoDecree(d, moves)
  {
    hide DiskInv, Decreed, Step, DecreeMove;
    if moves != [] {
      var front, m := moves[..|moves|-1], moves[|moves|-1];
      DecreeOverRuns(d, front);
      RunInv(d, front);
      if !Decreed(Run(d, front).snap) { DecreeStep(Run(d, front), m); }
    }
  }

  /** The same from the birth of a task, whole or interrupted. */
  lemma DecreeFromBirth(def: Workflow, uuid: Uuids, b: Birth, moves: seq<Move>)
    requires Creatable(def)
    ensures NeverDecreed(Born(def, uuid, b), moves) <==> NoDecree(Born(def, uuid, b), moves)
  {
    hide Born, Creatable, DiskInv, Decreed;
    BornInv(def, uuid, b);
    BornUndecreed(def, uuid, b);
    DecreeOverRuns(Born(def, uuid, b), moves);
  }

  lemma BornUndecreed(def: Workflow, uuid: Uuids, b: Birth)
    ensures !Decreed(Born(def, uuid, b).snap)
  {
    hide SnapshotOk, TaskProgress, ActiveList, InitialSteps, CreatedInput;
  }

  // ----- the hypotheses are met

  lemma TallyIsFresh()
    ensures FreshIds(Tally, []) && Driver.FreshAssignments(Tally, [])
  {
  }

  /** One concrete run of each kind: with generators that exist, the two-step task above goes wrong by six calls, and
      driven as intended it completes, never exceeding its cap of one. */
  lemma BothRunsExist() returns (wrong: seq<Move>, right: seq<Move>)
    ensures var d := Born(Pair, Tally, Whole);
            && AllComplete(d, wrong) && ActiveCount(Run(d, wrong).snap.rt.steps) == 2
            && Liveness.DrivenToEnd(d, right, StepIds(Pair.steps))
  {
    hide Born, AllComplete, Run, Creatable, FreshIds, Driver.FreshAssignments, ActiveCount;
    TallyIsFresh();
    PairCreatable();
    wrong := CapBroken(Tally);
    var reports, rounds := Liveness.NewTaskCompletes(Pair, Tally, Tally);
    right := reports + Liveness.Flat(rounds);
  }
}
