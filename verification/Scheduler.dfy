/** Readiness, the capacity-bounded plan and the task progress (execution-runtime/scheduler.ts). */
module Scheduler {
  import opened Wrappers
  import opened Contracts
  import opened StateMachine
  import opened Dag

  predicate DependencyReady(step: StepDef, steps: map<Id, StepRuntime>) {
    forall d :: d in step.dependsOn ==> d in steps && steps[d].status == Completed
  }

  function ActiveIds(steps: map<Id, StepRuntime>): set<Id> {
    set id | id in steps && Active(steps[id].status)
  }

  function ActiveCount(steps: map<Id, StepRuntime>): nat {
    |ActiveIds(steps)|
  }

  // ----- the lists of a plan, each in definition order

  predicate Considered(step: StepDef, steps: map<Id, StepRuntime>) {
    step.stepId in steps && steps[step.stepId].status in {Pending, WaitingDependency, Ready}
  }

  predicate IsReady(step: StepDef, steps: map<Id, StepRuntime>) {
    Considered(step, steps) && DependencyReady(step, steps)
  }

  predicate SkillsOpen(step: StepDef, x: StepRuntime) {
    step.requiredSkills != [] &&
    (x.skillPreflight.None? || x.skillPreflight.value.state != SkillsReady
     || x.skillPreflight.value.missingRequiredSkills != [])
  }

  predicate IsCapabilityBlocked(step: StepDef, steps: map<Id, StepRuntime>) {
    IsReady(step, steps) && SkillsOpen(step, steps[step.stepId])
  }

  predicate IsDispatchable(step: StepDef, steps: map<Id, StepRuntime>) {
    IsReady(step, steps) && steps[step.stepId].status == Ready && !SkillsOpen(step, steps[step.stepId])
  }

  datatype List = ReadyList | WaitingList | BlockedList | DispatchList

  predicate Selected(list: List, step: StepDef, steps: map<Id, StepRuntime>) {
    match list
    case ReadyList => IsReady(step, steps)
    case WaitingList => Considered(step, steps) && !DependencyReady(step, steps)
    case BlockedList => IsCapabilityBlocked(step, steps)
    case DispatchList => IsDispatchable(step, steps)
  }

  /** The ids of the selected definitions, in definition order. */
  function Filter(defs: seq<StepDef>, list: List, steps: map<Id, StepRuntime>): (ids: seq<Id>)
    ensures forall id :: id in ids <==> exists s :: s in defs && s.stepId == id && Selected(list, s, steps)
  {
    if defs == [] then [] else
      var n := |defs| - 1;
      assert defs == defs[..n] + [defs[n]];
      var front := Filter(defs[..n], list, steps);
      if Selected(list, defs[n], steps) then front + [defs[n].stepId] else front
  }

  predicate Distinct(ids: seq<Id>) {
    forall i, j :: 0 <= i < j < |ids| ==> ids[i] != ids[j]
  }

  lemma {:induction false} FilterDistinct(defs: seq<StepDef>, list: List, steps: map<Id, StepRuntime>)
    requires UniqueIds(defs)
    ensures Distinct(Filter(defs, list, steps))
  {
    if defs != [] {
      var n := |defs| - 1;
      FilterDistinct(defs[..n], list, steps);
      assert forall s :: s in defs[..n] ==> s.stepId != defs[n].stepId;
      assert defs[n].stepId !in Filter(defs[..n], list, steps);
    }
  }

  lemma FilterSnoc(defs: seq<StepDef>, i: nat, steps: map<Id, StepRuntime>)
    requires i < |defs|
    ensures forall list :: Filter(defs[..i+1], list, steps)
              == Filter(defs[..i], list, steps) + if Selected(list, defs[i], steps) then [defs[i].stepId] else []
  {
    assert defs[..i+1][..i] == defs[..i];
  }

  function Min(a: int, b: int): int { if a < b then a else b }

  datatype SchedulePlan = SchedulePlan(
    valid: bool,
    activeCount: nat,
    capacity: nat,
    dispatchable: seq<Id>,
    dependencyReady: seq<Id>,
    waiting: seq<Id>,
    capabilityBlocked: seq<Id>)

  const NoPlan := SchedulePlan(false, 0, 0, [], [], [], [])

  function Capacity(steps: map<Id, StepRuntime>, maxParallelSteps: int): nat {
    if maxParallelSteps > ActiveCount(steps) then maxParallelSteps - ActiveCount(steps) else 0
  }

  function Dispatchable(defs: seq<StepDef>, steps: map<Id, StepRuntime>, maxParallelSteps: int): seq<Id> {
    var all := Filter(defs, DispatchList, steps);
    all[..Min(Capacity(steps, maxParallelSteps), |all|)]
  }

  /** A plan is refused for an invalid graph, for step states that do not match the definitions and for a
      parallelism below one; `maxParallelSteps` is `None` when it is not an integer. */
  ghost predicate Plannable(defs: seq<StepDef>, steps: map<Id, StepRuntime>, maxParallelSteps: Option<int>) {
    ValidDag(defs) && StepIds(defs) == steps.Keys && maxParallelSteps.Some? && maxParallelSteps.value >= 1
  }

  method CountActive(steps: map<Id, StepRuntime>) returns (n: nat)
    ensures n == ActiveCount(steps)
  {
    n := |set id | id in steps && Active(steps[id].status)|;
  }

  lemma SelectedMeans(step: StepDef, steps: map<Id, StepRuntime>)
    requires step.stepId in steps
    ensures var x := steps[step.stepId];
            var open, ready := x.status in {Pending, WaitingDependency, Ready}, DependencyReady(step, steps);
            && Selected(ReadyList, step, steps) == (open && ready)
            && Selected(WaitingList, step, steps) == (open && !ready)
            && Selected(BlockedList, step, steps) == (open && ready && SkillsOpen(step, x))
            && Selected(DispatchList, step, steps) == (open && ready && !SkillsOpen(step, x) && x.status == Ready)
  {
    hide DependencyReady, SkillsOpen;
  }

  method PlanExecutionSchedule(defs: seq<StepDef>, steps: map<Id, StepRuntime>, maxParallelSteps: Option<int>)
    returns (plan: SchedulePlan)
    ensures plan.valid <==> Plannable(defs, steps, maxParallelSteps)
    ensures !plan.valid ==> plan == NoPlan
    ensures plan.valid ==>
              && plan.activeCount == ActiveCount(steps)
              && plan.capacity == Capacity(steps, maxParallelSteps.value)
              && plan.dependencyReady == Filter(defs, ReadyList, steps)
              && plan.waiting == Filter(defs, WaitingList, steps)
              && plan.capabilityBlocked == Filter(defs, BlockedList, steps)
              && plan.dispatchable == Dispatchable(defs, steps, maxParallelSteps.value)
  {
    hide Selected, Acyclic, KnownDeps, UniqueIds, ActiveCount;
    var errors := ValidateExecutionDag(defs);
    if errors != {} || StepIds(defs) != steps.Keys || maxParallelSteps.None? || maxParallelSteps.value < 1 {
      return NoPlan;
    }
    var active := CountActive(steps);
    var capacity := if maxParallelSteps.value > active then maxParallelSteps.value - active else 0;
    var ready: seq<Id>, waiting: seq<Id>, blocked: seq<Id>, free: seq<Id> := [], [], [], [];
    for i := 0 to |defs|
      invariant ready == Filter(defs[..i], ReadyList, steps)
      invariant waiting == Filter(defs[..i], WaitingList, steps)
      invariant blocked == Filter(defs[..i], BlockedList, steps)
      invariant free == Filter(defs[..i], DispatchList, steps)
    {
      var step := defs[i];
      FilterSnoc(defs, i, steps);
      assert step.stepId in StepIds(defs);
      SelectedMeans(step, steps);
      var x := steps[step.stepId];
      if x.status in {Pending, WaitingDependency, Ready} {
        if DependencyReady(step, steps) {
          ready := ready + [step.stepId];
          if SkillsOpen(step, x) {
            blocked := blocked + [step.stepId];
          } else if x.status == Ready {
            free := free + [step.stepId];
          }
        } else {
          waiting := waiting + [step.stepId];
        }
      }
    }
    assert defs[..|defs|] == defs;
    plan := SchedulePlan(true, active, capacity, free[..Min(capacity, |free|)], ready, waiting, blocked);
  }

  // ----- progress

  function Clamp01(x: real): real {
    if x < 0.0 then 0.0 else if x > 1.0 then 1.0 else x
  }

  function Contribution(x: StepRuntime): (r: real)
    ensures 0.0 <= r <= 1.0
  {
    if x.status == Completed then 1.0 else Clamp01(x.progress)
  }

  function TotalProgress(defs: seq<StepDef>, steps: map<Id, StepRuntime>): (r: real)
    requires StepIds(defs) <= steps.Keys
    ensures 0.0 <= r <= |defs| as real
    ensures (forall s :: s in defs ==> steps[s.stepId].status == Completed) ==> r == |defs| as real
  {
    if defs == [] then 0.0
    else
      var n := |defs| - 1;
      assert forall s :: s in defs[..n] ==> s in defs && s.stepId in StepIds(defs);
      assert defs[n] in defs && defs[n].stepId in StepIds(defs);
      TotalProgress(defs[..n], steps) + Contribution(steps[defs[n].stepId])
  }

  /** Four decimals, halves rounded up. */
  function Round4(x: real): real {
    (x * 10000.0 + 0.5).Floor as real / 10000.0
  }

  function TaskProgress(defs: seq<StepDef>, steps: map<Id, StepRuntime>): real
    requires StepIds(defs) <= steps.Keys
  {
    if defs == [] then 0.0 else Round4(TotalProgress(defs, steps) / |defs| as real)
  }

  lemma Quotient(t: real, n: real)
    requires n > 0.0 && 0.0 <= t <= n
    ensures 0.0 <= t / n <= 1.0
    ensures t == n ==> t / n == 1.0
  {
    if t == n { assert n / n == 1.0; }
    assert t / n * n == t;
  }

  lemma TaskProgressRange(defs: seq<StepDef>, steps: map<Id, StepRuntime>)
    requires StepIds(defs) <= steps.Keys
    ensures 0.0 <= TaskProgress(defs, steps) <= 1.0
    ensures defs != [] && (forall s :: s in defs ==> steps[s.stepId].status == Completed) ==>
              TaskProgress(defs, steps) == 1.0
  {
    if defs != [] {
      var t, n := TotalProgress(defs, steps), |defs| as real;
      Quotient(t, n);
    }
  }
}
