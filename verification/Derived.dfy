/** What the derived fields of a task mean in every reachable state (execution-runtime/runtime.ts:80-87,
    scheduler.ts:102-106). */
module Derived {
  import opened Wrappers
  import opened Contracts
  import opened Scheduler
  import opened Engine
  import opened Invariants
  import opened Runs
  import opened History
  import opened Capacity
  import opened Guards

  /** The progress of a step is a share, all of it once the step is completed. */
  predicate ProgressOk(steps: map<Id, StepRuntime>) {
    forall id :: id in steps ==>
      0.0 <= steps[id].progress <= 1.0 && (steps[id].status == Completed ==> steps[id].progress == 1.0)
  }

  lemma LeftProgress(s: Snapshot, log: seq<Event>, op: Op, id: Id)
    requires s.rt.steps.Keys == StepIds(s.def.steps) && id in s.rt.steps && Permitted(s, log, op)
    requires ProgressOk(s.rt.steps)
    ensures var y := Left(s, op, id);
            0.0 <= y.progress <= 1.0 && (y.status == Completed ==> y.progress == 1.0)
  {
    hide SkillsOpen, ActiveCount, OutputPresent, DefOf, Freed, DependencyReady;
  }

  lemma ProgressStep(d: Disk, m: Move)
    requires DiskInv(d) && ProgressOk(d.snap.rt.steps)
    ensures ProgressOk(Step(d, m).snap.rt.steps)
  {
    hide DiskInv, Exec, Left, Permitted;
    if m.Call? && Exec(d, m.op, m.uuid).Wrote? {
      DiskValid(d);
      CallLeaves(d, m.op, m.uuid);
      WroteWasPermitted(d, m.op, m.uuid);
      var s, now := d.snap, Exec(d, m.op, m.uuid).snap;
      forall id | id in now.rt.steps
        ensures var x := now.rt.steps[id];
                0.0 <= x.progress <= 1.0 && (x.status == Completed ==> x.progress == 1.0) {
        if id in s.rt.steps {
          LeftProgress(s, d.log, m.op, id);
          assert Like(Left(s, m.op, id), now.rt.steps[id]);
        }
      }
    }
  }

  lemma {:induction false} RunProgress(d: Disk, moves: seq<Move>)
    requires DiskInv(d) && ProgressOk(d.snap.rt.steps)
    ensures ProgressOk(Run(d, moves).snap.rt.steps)
  {
    hide DiskInv, Step, ProgressOk;
    if moves != [] {
      var n := |moves| - 1;
      RunProgress(d, moves[..n]);
      RunInv(d, moves[..n]);
      ProgressStep(Run(d, moves[..n]), moves[n]);
    }
  }

  lemma ReachableProgress(d: Disk)
    requires Reachable(d)
    ensures ProgressOk(d.snap.rt.steps)
  {
    hide DiskInv, Run, Born, Creatable, SameSteps, InitialSteps;
    var def, uuid, b, moves :| Creatable(def) && d == Run(Born(def, uuid, b), moves);
    var first := Born(def, uuid, b);
    BornInv(def, uuid, b);
    BornLike(def, uuid, b);
    BornProgress(def.steps, first.snap.rt.steps);
    RunProgress(first, moves);
  }

  lemma BornProgress(defs: seq<StepDef>, steps: map<Id, StepRuntime>)
    requires SameSteps(InitialSteps(defs, {}), steps)
    ensures ProgressOk(steps)
  {
    forall id | id in steps ensures steps[id].progress == 0.0 && steps[id].status != Completed {
      assert Like(InitialSteps(defs, {})[id], steps[id]);
    }
  }

  // ----- the derived fields

  function Sum(defs: seq<StepDef>, steps: map<Id, StepRuntime>): real
    requires StepIds(defs) <= steps.Keys
  {
    if defs == [] then 0.0
    else
      var n := |defs| - 1;
      assert forall s :: s in defs[..n] ==> s in defs && s.stepId in StepIds(defs);
      assert defs[n] in defs && defs[n].stepId in StepIds(defs);
      Sum(defs[..n], steps) + steps[defs[n].stepId].progress
  }

  lemma {:induction false} TotalIsSum(defs: seq<StepDef>, steps: map<Id, StepRuntime>)
    requires StepIds(defs) <= steps.Keys && ProgressOk(steps)
    ensures TotalProgress(defs, steps) == Sum(defs, steps)
  {
    if defs != [] {
      var n := |defs| - 1;
      assert forall s :: s in defs[..n] ==> s in defs && s.stepId in StepIds(defs);
      assert defs[n] in defs && defs[n].stepId in StepIds(defs);
      TotalIsSum(defs[..n], steps);
    }
  }

  lemma {:induction false} ActiveExactly(defs: seq<StepDef>, steps: map<Id, StepRuntime>)
    requires StepIds(defs) <= steps.Keys
    ensures forall id :: id in ActiveList(defs, steps) <==> id in StepIds(defs) && steps[id].status in Busy
  {
    if defs != [] {
      var n := |defs| - 1;
      assert forall s :: s in defs[..n] ==> s in defs && s.stepId in StepIds(defs);
      assert defs[n] in defs && defs[n].stepId in StepIds(defs);
      ActiveExactly(defs[..n], steps);
      assert defs == defs[..n] + [defs[n]];
    }
  }

  lemma RoundedNear(x: real)
    ensures x - 0.00005 <= Round4(x) <= x + 0.00005
  {}

  /** In every reachable state the progress of the task is the mean of those of its steps, rounded to four places, and
      its active list names exactly the steps under way. */
  lemma DerivedFieldsMean(d: Disk)
    requires Reachable(d)
    ensures d.snap.rt.steps.Keys == StepIds(d.snap.def.steps) && ProgressOk(d.snap.rt.steps)
    ensures var defs, mine := d.snap.def.steps, d.snap.rt.task.progress;
            if defs == [] then mine == 0.0
            else var mean := Sum(defs, d.snap.rt.steps) / |defs| as real; mean - 0.00005 <= mine <= mean + 0.00005
    ensures forall id :: id in d.snap.rt.task.activeStepIds <==>
              id in d.snap.rt.steps && d.snap.rt.steps[id].status in Busy
  {
    hide Reachable, ActiveList, TotalProgress, Sum, Round4;
    ReachableProgress(d);
    DerivedFieldsCurrent(d);
    var defs, steps := d.snap.def.steps, d.snap.rt.steps;
    TotalIsSum(defs, steps);
    ActiveExactly(defs, steps);
    if defs != [] { RoundedNear(Sum(defs, steps) / |defs| as real); }
  }
}
