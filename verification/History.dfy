/** Completion over time: nothing completed is ever undone, and steps complete in an order the graph allows. */
module History {
  import opened Wrappers
  import opened Contracts
  import opened Dag
  import opened Scheduler
  import opened EventLedger
  import opened Store
  import opened Engine
  import opened Invariants
  import opened Operations
  import opened Runs
  import opened Effects

  /** The guards a completed call has passed. */
  predicate Permitted(s: Snapshot, log: seq<Event>, op: Op)
    requires s.rt.steps.Keys == StepIds(s.def.steps)
  {
    match op
    case AddStepsOp(_) => true
    case ReconcileOp => true
    case TransitionStepOp(k, to, why, identity) =>
      && to != Completed
      && if to == Verifying then RequestChange(s, k, why, identity).Replace? else TransitionRefusal(s, k, to).None?
    case GatePassOp(k, e) => GateRefusal(s, log, k, e).None?
    case _ => ChangeOf(s, op).Replace?
  }

  lemma WroteWasPermitted(d: Disk, op: Op, uuid: Uuids)
    requires SnapshotOk(d.snap) && Exec(d, op, uuid).Wrote?
    ensures Permitted(d.snap, d.log, op)
  {
    hide ValidDag, DefinitionFieldsOk, Sound, Append, CancelWhenClosed, PromoteFrom, CloseTask, AddSteps,
      ReconcileReadiness, ChangeOf, RequestChange, TransitionRefusal, GateRefusal, Commit;
    SnapshotFacts(d.snap);
  }

  /** The step a passed gate completes; no other call completes a step. */
  function Completes(op: Op): set<Id> {
    if op.GatePassOp? then {op.stepId} else {}
  }

  lemma NewStatus(s: Snapshot, log: seq<Event>, op: Op, id: Id)
    requires s.rt.steps.Keys == StepIds(s.def.steps) && id in s.rt.steps && Permitted(s, log, op)
    ensures NewStep(s, op, id).status == Completed <==> s.rt.steps[id].status == Completed || id in Completes(op)
    ensures NewStep(s, op, id).attempt == s.rt.steps[id].attempt + if op.AssignOp? && op.stepId == id then 1 else 0
    ensures s.rt.steps[id].status == Cancelled ==> NewStep(s, op, id).status == Cancelled
  {
    hide DependencyReady, SkillsOpen, ActiveCount, OutputPresent, PreflightBlocker, AtLeast;
  }

  ghost predicate Forward(s: Snapshot, op: Op, now: Snapshot) {
    && s.def.steps <= now.def.steps && now.def.maxParallelSteps == s.def.maxParallelSteps
    && s.rt.steps.Keys <= now.rt.steps.Keys && s.rt.assignments <= now.rt.assignments
    && CompletedIds(now.rt.steps) == CompletedIds(s.rt.steps) + Completes(op)
    && (forall id :: id in s.rt.steps ==> id in now.rt.steps && s.rt.steps[id].attempt <= now.rt.steps[id].attempt)
    && (forall id :: id in s.rt.steps && s.rt.steps[id].status == Cancelled ==>
          id in now.rt.steps && now.rt.steps[id].status == Cancelled)
  }

  lemma CompletedAfter(s: Snapshot, log: seq<Event>, op: Op, now: Snapshot)
    requires s.rt.steps.Keys == StepIds(s.def.steps) && Permitted(s, log, op) && Effect(s, op, now)
    ensures Forward(s, op, now)
  {
    hide NewStep, Permitted, DependencyReady;
    forall id | id in s.rt.steps
      ensures id in now.rt.steps && Like(NewStep(s, op, id), now.rt.steps[id])
      ensures now.rt.steps[id].status == Completed <==> s.rt.steps[id].status == Completed || id in Completes(op)
      ensures s.rt.steps[id].attempt <= now.rt.steps[id].attempt
      ensures s.rt.steps[id].status == Cancelled ==> now.rt.steps[id].status == Cancelled
    {
      NewStatus(s, log, op, id);
    }
    CompletesKnown(s, log, op);
    forall id | id in now.rt.steps && id !in s.rt.steps ensures now.rt.steps[id].status != Completed {
      assert id in StepIds(Added(op));
      assert Like(InitialStep(DefOf(Added(op), id), CompletedIds(s.rt.steps)), now.rt.steps[id]);
    }
  }

  lemma CompletesKnown(s: Snapshot, log: seq<Event>, op: Op)
    requires s.rt.steps.Keys == StepIds(s.def.steps) && Permitted(s, log, op)
    ensures forall id :: id in Completes(op) ==> id in s.rt.steps && s.rt.steps[id].status == Verifying
  {
    hide OutputPresent;
  }

  lemma CallForward(d: Disk, op: Op, uuid: Uuids)
    requires DiskInv(d)
    ensures var r := Exec(d, op, uuid); r.Wrote? ==> Forward(d.snap, op, r.snap)
    ensures forall id :: Exec(d, op, uuid).Wrote? && id in Completes(op) ==>
              id in d.snap.rt.steps && d.snap.rt.steps[id].status == Verifying
  {
    hide Exec, Effect, Forward, Permitted, SnapshotOk, Fit, DerivedOk, Sound, SequencesOk, Completes;
    ExecEffect(d, op, uuid);
    var r := Exec(d, op, uuid);
    if r.Wrote? {
      WroteWasPermitted(d, op, uuid);
      CompletedAfter(d.snap, d.log, op, r.snap);
      CompletesKnown(d.snap, d.log, op);
    }
  }

  // ----- the order of completions

  /** The steps completed by the calls of a run, in the order in which the completions were stored. */
  ghost function Completions(d: Disk, moves: seq<Move>): seq<Id> {
    if moves == [] then [] else
      var n := |moves| - 1;
      Completions(d, moves[..n]) + Completed1(Run(d, moves[..n]), moves[n])
  }

  ghost function Completed1(d: Disk, m: Move): seq<Id> {
    if m.Call? && m.op.GatePassOp? && Exec(d, m.op, m.uuid).Wrote? then [m.op.stepId] else []
  }

  /** `order` lists each step of `done` once, after all its dependencies. */
  ghost predicate LinearExtension(defs: seq<StepDef>, done: set<Id>, order: seq<Id>) {
    && (forall id :: id in order <==> id in done)
    && (forall i, j :: 0 <= i < j < |order| ==> order[i] != order[j])
    && Topological(defs, order)
  }

  lemma Extend(defs: seq<StepDef>, done: set<Id>, order: seq<Id>, more: seq<StepDef>, id: Id)
    requires LinearExtension(defs, done, order) && id !in done && defs <= more
    requires forall k :: k in done ==> k in StepIds(defs)
    requires UniqueIds(more) && forall b :: Edge(more, id, b) ==> b in done
    ensures LinearExtension(more, done + {id}, order + [id])
  {
    Regrow(defs, done, order, more);
    var t := order + [id];
    forall i, b | 0 <= i < |t| && Edge(more, t[i], b) ensures b in t[..i] {
      if i < |order| { assert t[..i] == order[..i]; } else { assert t[..i] == order; }
    }
  }

  lemma Regrow(defs: seq<StepDef>, done: set<Id>, order: seq<Id>, more: seq<StepDef>)
    requires LinearExtension(defs, done, order) && defs <= more && UniqueIds(more)
    requires forall k :: k in done ==> k in StepIds(defs)
    ensures LinearExtension(more, done, order)
  {
    forall i, b | 0 <= i < |order| && Edge(more, order[i], b) ensures b in order[..i] {
      assert order[i] in done;
      var s :| s in more && s.stepId == order[i] && b in s.dependsOn;
      var j :| 0 <= j < |more| && more[j] == s;
      var k :| 0 <= k < |defs| && defs[k].stepId == order[i];
      assert more[k] == defs[k] && j == k;
      assert Edge(defs, order[i], b);
    }
  }

  lemma CompletionsStep(d: Disk, m: Move, order: seq<Id>)
    requires DiskInv(d) && LinearExtension(d.snap.def.steps, CompletedIds(d.snap.rt.steps), order)
    ensures var now := Step(d, m).snap;
            LinearExtension(now.def.steps, CompletedIds(now.rt.steps), order + Completed1(d, m))
  {
    hide Exec, LinearExtension, ValidDag, DefinitionFieldsOk, BooksOk, OneOpenBinding, ClosedOk, Sound, SequencesOk,
      DerivedOk, CompletedIds;
    var s, r := d.snap, Exec(d, m.op, m.uuid);
    if m.Call? && r.Wrote? {
      CallForward(d, m.op, m.uuid);
      ExecGood(d, m.op, m.uuid);
      SnapshotFacts(s); SnapshotFacts(r.snap);
      DoneKnown(s);
      if m.op.GatePassOp? {
        VerifyingIsFree(s, r.snap, m.op.stepId);
        Extend(s.def.steps, CompletedIds(s.rt.steps), order, r.snap.def.steps, m.op.stepId);
      } else {
        Regrow(s.def.steps, CompletedIds(s.rt.steps), order, r.snap.def.steps);
        assert CompletedIds(s.rt.steps) + {} == CompletedIds(s.rt.steps);
        assert order + [] == order;
      }
    } else {
      assert order + [] == order;
    }
  }

  lemma DoneKnown(s: Snapshot)
    requires s.rt.steps.Keys == StepIds(s.def.steps)
    ensures forall k :: k in CompletedIds(s.rt.steps) ==> k in StepIds(s.def.steps)
  {}

  /** The dependencies of a step under verification are completed. */
  lemma VerifyingIsFree(s: Snapshot, now: Snapshot, id: Id)
    requires Base(s) && id in s.rt.steps && s.rt.steps[id].status == Verifying
    requires s.def.steps <= now.def.steps && UniqueIds(now.def.steps)
    ensures id !in CompletedIds(s.rt.steps)
    ensures forall b :: Edge(now.def.steps, id, b) ==> b in CompletedIds(s.rt.steps)
  {
    hide BooksOk, OneOpenBinding, ClosedOk;
    StepOkAt(s.def.steps, s.rt.steps, id);
    forall b | Edge(now.def.steps, id, b) ensures b in CompletedIds(s.rt.steps) {
      var x :| x in now.def.steps && x.stepId == id && b in x.dependsOn;
      var j :| 0 <= j < |now.def.steps| && now.def.steps[j] == x;
      var y := DefOf(s.def.steps, id);
      var k :| 0 <= k < |s.def.steps| && s.def.steps[k] == y;
      assert now.def.steps[k] == y && j == k;
    }
  }

  lemma {:induction false} CompletionsFollowGraph(d: Disk, moves: seq<Move>)
    requires DiskInv(d) && CompletedIds(d.snap.rt.steps) == {}
    ensures var now := Run(d, moves).snap;
            LinearExtension(now.def.steps, CompletedIds(now.rt.steps), Completions(d, moves))
  {
    hide DiskInv, Step, LinearExtension, Completed1;
    if moves == [] {
      NothingDone(d.snap);
    } else {
      var n := |moves| - 1;
      CompletionsFollowGraph(d, moves[..n]);
      RunInv(d, moves[..n]);
      CompletionsStep(Run(d, moves[..n]), moves[n], Completions(d, moves[..n]));
    }
  }

  lemma NothingDone(s: Snapshot)
    requires CompletedIds(s.rt.steps) == {}
    ensures LinearExtension(s.def.steps, CompletedIds(s.rt.steps), [])
  {}

  /** In every run of a new task, crashes and failed calls included, the stored completions form a linear
      extension of the step graph. */
  lemma CompletionOrder(def: Workflow, uuid: Uuids, b: Birth, moves: seq<Move>)
    requires Creatable(def)
    ensures var d := Born(def, uuid, b);
            var now := Run(d, moves).snap;
            LinearExtension(now.def.steps, CompletedIds(now.rt.steps), Completions(d, moves))
  {
    hide DiskInv, Creatable, Run, Completions, LinearExtension;
    BornInv(def, uuid, b);
    BornUndone(def, uuid, b);
    CompletionsFollowGraph(Born(def, uuid, b), moves);
  }

  lemma BornUndone(def: Workflow, uuid: Uuids, b: Birth)
    requires Creatable(def)
    ensures CompletedIds(Born(def, uuid, b).snap.rt.steps) == {}
  {
    hide CompletedIds, InitialSteps, SameSteps;
    BornLike(def, uuid, b);
    CompletedLike(InitialSteps(def.steps, {}), Born(def, uuid, b).snap.rt.steps);
    InitiallyUndone(def.steps);
  }

  lemma InitiallyUndone(defs: seq<StepDef>)
    ensures CompletedIds(InitialSteps(defs, {})) == {}
  {}

  lemma CompletedLike(a: map<Id, StepRuntime>, b: map<Id, StepRuntime>)
    requires SameSteps(a, b)
    ensures CompletedIds(a) == CompletedIds(b)
  {
    assert forall id :: id in a ==> Like(a[id], b[id]);
  }

  // ----- nothing is undone

  ghost predicate Later(s: Snapshot, now: Snapshot) {
    && s.def.steps <= now.def.steps
    && CompletedIds(s.rt.steps) <= CompletedIds(now.rt.steps)
    && s.rt.assignments <= now.rt.assignments
    && (forall id :: id in s.rt.steps ==> id in now.rt.steps && s.rt.steps[id].attempt <= now.rt.steps[id].attempt)
    && (forall id :: id in s.rt.steps && s.rt.steps[id].status == Cancelled ==>
          id in now.rt.steps && now.rt.steps[id].status == Cancelled)
  }

  lemma {:induction false} RunOnlyMovesOn(d: Disk, moves: seq<Move>)
    requires DiskInv(d)
    ensures Later(d.snap, Run(d, moves).snap)
  {
    hide DiskInv, Exec;
    if moves != [] {
      var n := |moves| - 1;
      RunOnlyMovesOn(d, moves[..n]);
      RunInv(d, moves[..n]);
      var e := Run(d, moves[..n]);
      CallForward(e, moves[n].op, moves[n].uuid);
    }
  }
}
