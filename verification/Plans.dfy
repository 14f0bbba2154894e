/** What a plan lists, step by step (execution-runtime/scheduler.ts:76-99). */
module Plans {
  import opened Wrappers
  import opened Contracts
  import opened Scheduler
  import opened Guards

  predicate SkillsFound(step: StepDef, x: StepRuntime) {
    step.requiredSkills == [] ||
    match x.skillPreflight
    case None => false
    case Some(p) => p.state == SkillsReady && p.missingRequiredSkills == []
  }

  /** The step has not been started, and nothing keeps it from being started. */
  predicate Startable(step: StepDef, steps: map<Id, StepRuntime>) {
    && step.stepId in steps && steps[step.stepId].status == Ready && DoneFirst(step, steps)
    && SkillsFound(step, steps[step.stepId])
  }

  /** The startable steps before the one at `i`. */
  function Earlier(defs: seq<StepDef>, steps: map<Id, StepRuntime>, i: nat): set<nat>
    requires i <= |defs|
  {
    set j: nat | j < i && Startable(defs[j], steps)
  }

  function UnderWay(steps: map<Id, StepRuntime>): set<Id> {
    set id | id in steps && steps[id].status in Busy
  }

  lemma StartableExactly(step: StepDef, steps: map<Id, StepRuntime>)
    ensures Startable(step, steps) <==> Selected(DispatchList, step, steps)
  {}

  lemma EarlierOne(defs: seq<StepDef>, steps: map<Id, StepRuntime>, i: nat)
    requires i < |defs|
    ensures |Earlier(defs, steps, i + 1)| == |Earlier(defs, steps, i)| + if Startable(defs[i], steps) then 1 else 0
  {
    hide Startable;
    assert Earlier(defs, steps, i + 1) == Earlier(defs, steps, i) + if Startable(defs[i], steps) then {i} else {};
  }

  lemma {:induction false} FilterRank(defs: seq<StepDef>, steps: map<Id, StepRuntime>, n: nat)
    requires n <= |defs|
    ensures |Filter(defs[..n], DispatchList, steps)| == |Earlier(defs, steps, n)|
    ensures forall i :: 0 <= i < n && Startable(defs[i], steps) ==>
              |Earlier(defs, steps, i)| < |Earlier(defs, steps, n)|
              && Filter(defs[..n], DispatchList, steps)[|Earlier(defs, steps, i)|] == defs[i].stepId
  {
    hide Startable, Selected;
    if n > 0 {
      FilterRank(defs, steps, n - 1);
      FilterSnoc(defs, n - 1, steps);
      EarlierOne(defs, steps, n - 1);
      StartableExactly(defs[n-1], steps);
    } else {
      assert Earlier(defs, steps, 0) == {};
    }
  }

  /** A step is dispatched if and only if it is startable and fewer startable steps come before it than places are free;
      it then stands at its rank among them. */
  lemma DispatchedExactly(defs: seq<StepDef>, steps: map<Id, StepRuntime>, cap: int, i: nat)
    requires UniqueIds(defs) && i < |defs|
    ensures defs[i].stepId in Dispatchable(defs, steps, cap) <==>
              Startable(defs[i], steps) && |Earlier(defs, steps, i)| + |UnderWay(steps)| < cap
    ensures defs[i].stepId in Dispatchable(defs, steps, cap) ==>
              |Earlier(defs, steps, i)| < |Dispatchable(defs, steps, cap)|
              && Dispatchable(defs, steps, cap)[|Earlier(defs, steps, i)|] == defs[i].stepId
  {
    hide Selected, UniqueIds, Startable, Earlier;
    var all, plan := Filter(defs, DispatchList, steps), Dispatchable(defs, steps, cap);
    assert defs[..|defs|] == defs;
    FilterRank(defs, steps, |defs|);
    FilterDistinct(defs, DispatchList, steps);
    StartableExactly(defs[i], steps);
    assert UnderWay(steps) == ActiveIds(steps);
    if defs[i].stepId in plan {
      var p :| 0 <= p < |plan| && plan[p] == defs[i].stepId;
      assert all[p] == defs[i].stepId;
      StartableHere(defs, steps, i);
    }
    if Startable(defs[i], steps) && |Earlier(defs, steps, i)| + |UnderWay(steps)| < cap {
      assert plan[|Earlier(defs, steps, i)|] == defs[i].stepId;
    }
  }

  lemma StartableHere(defs: seq<StepDef>, steps: map<Id, StepRuntime>, i: nat)
    requires UniqueIds(defs) && i < |defs| && defs[i].stepId in Filter(defs, DispatchList, steps)
    ensures Startable(defs[i], steps)
  {
    hide Startable, Selected;
    var s :| s in defs && s.stepId == defs[i].stepId && Selected(DispatchList, s, steps);
    var j :| 0 <= j < |defs| && defs[j] == s;
    assert i == j;
    StartableExactly(s, steps);
  }

  /** The other lists: what could start as far as dependencies go, what waits, and what lacks skills. */
  lemma ListedExactly(defs: seq<StepDef>, steps: map<Id, StepRuntime>, i: nat)
    requires UniqueIds(defs) && i < |defs|
    ensures var step := defs[i];
            var unstarted := step.stepId in steps && steps[step.stepId].status in {Pending, WaitingDependency, Ready};
            && (step.stepId in Filter(defs, ReadyList, steps) <==> unstarted && DoneFirst(step, steps))
            && (step.stepId in Filter(defs, WaitingList, steps) <==> unstarted && !DoneFirst(step, steps))
            && (step.stepId in Filter(defs, BlockedList, steps) <==>
                  unstarted && DoneFirst(step, steps) && !SkillsFound(step, steps[step.stepId]))
  {
    hide UniqueIds, DoneFirst, DependencyReady;
    var step := defs[i];
    SameReady(step, steps);
    forall list, s | s in defs && s.stepId == step.stepId && Selected(list, s, steps) ensures s == step {
      var j :| 0 <= j < |defs| && defs[j] == s;
      OnlyOne(defs, i, j);
    }
    assert step in defs;
  }

  lemma SameReady(step: StepDef, steps: map<Id, StepRuntime>)
    ensures DoneFirst(step, steps) == DependencyReady(step, steps)
  {}

  lemma OnlyOne(defs: seq<StepDef>, i: nat, j: nat)
    requires UniqueIds(defs) && i < |defs| && j < |defs| && defs[i].stepId == defs[j].stepId
    ensures i == j
  {}
}
