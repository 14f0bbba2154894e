/** What every reachable state of a task satisfies, whatever calls fail, crash or repeat an event id. */
module Invariants {
  import opened Wrappers
  import opened Contracts
  import opened Scheduler
  import opened EventLedger
  import opened Store
  import opened Engine

  // ----- the invariant

  /** The condition on one step state; `ready` says that all dependencies of the step are completed. */
  predicate LocalOk(step: StepDef, x: StepRuntime, ready: bool) {
    && x.status != Pending
    && (x.assignmentId.Some? ==> ready)
    && (x.status in {Verifying, Completed} ==> x.assignmentId.Some?)
    && (x.status == WaitingDependency ==> !ready)
    && (x.status == Ready ==> ready)
    && x.attempt <= step.maxAttempts
  }

  predicate StepOk(step: StepDef, steps: map<Id, StepRuntime>) {
    step.stepId in steps && LocalOk(step, steps[step.stepId], DependencyReady(step, steps))
  }

  predicate StepsOk(defs: seq<StepDef>, steps: map<Id, StepRuntime>) {
    forall s :: s in defs ==> StepOk(s, steps)
  }

  /** The assignments of one step, oldest first. */
  function AssignmentsOf(a: seq<Assignment>, stepId: Id): seq<Assignment> {
    if a == [] then [] else
      AssignmentsOf(a[..|a|-1], stepId) + if a[|a|-1].stepId == stepId then [a[|a|-1]] else []
  }

  /** The attempts of a step are its assignments, numbered from one, and its assignment is the newest. */
  predicate Books(a: seq<Assignment>, stepId: Id, x: StepRuntime) {
    var own := AssignmentsOf(a, stepId);
    && |own| == x.attempt
    && (forall k :: 0 <= k < |own| ==> own[k].attempt == k + 1)
    && x.assignmentId == (if own == [] then None else Some(own[|own|-1].assignmentId))
  }

  predicate BooksOk(a: seq<Assignment>, steps: map<Id, StepRuntime>) {
    forall id :: id in steps ==> Books(a, id, steps[id])
  }

  predicate OneOpenBinding(b: seq<SessionBinding>) {
    forall i, j :: 0 <= i < j < |b| && b[i].assignmentId == b[j].assignmentId ==>
      b[i].state == BClosed || b[j].state == BClosed
  }

  predicate DerivedOk(s: Snapshot)
    requires StepIds(s.def.steps) <= s.rt.steps.Keys
  {
    s.rt == RefreshDerived(s.def, s.rt)
  }

  /** A task all of whose steps left the run has the matching status. */
  predicate ClosedOk(rt: Runtime) {
    && (rt.steps.Keys != {} && AllCompleted(rt.steps) ==> rt.task.status == TCompleted)
    && (SomeCancelled(rt.steps) && AllClosed(rt.steps) ==> rt.task.status == TCancelled)
  }

  /** The conditions on a runtime that do not mention event numbers or derived fields. */
  predicate Fit(defs: seq<StepDef>, rt: Runtime) {
    StepsOk(defs, rt.steps) && BooksOk(rt.assignments, rt.steps) && OneOpenBinding(rt.bindings) && ClosedOk(rt)
  }

  predicate Base(s: Snapshot) {
    UniqueIds(s.def.steps) && s.rt.steps.Keys == StepIds(s.def.steps) && Fit(s.def.steps, s.rt)
  }

  ghost predicate SnapInv(s: Snapshot) {
    SnapshotOk(s) && DerivedOk(s) && Fit(s.def.steps, s.rt)
  }

  predicate SequencesOk(rt: Runtime, n: nat) {
    rt.task.lastEventSequence <= n && forall id :: id in rt.steps ==> rt.steps[id].lastEventSequence <= n
  }

  ghost predicate DiskInv(d: Disk) {
    SnapInv(d.snap) && Sound(d.log) && SequencesOk(d.snap.rt, |d.log|)
  }

  // ----- appending changes nothing but event numbers

  predicate Like(x: StepRuntime, y: StepRuntime) {
    y == x.(lastEventSequence := y.lastEventSequence)
  }

  predicate SameSteps(a: map<Id, StepRuntime>, b: map<Id, StepRuntime>) {
    a.Keys == b.Keys && forall id :: id in a ==> Like(a[id], b[id])
  }

  /** Equal up to event numbers. */
  predicate SameRuntime(a: Runtime, b: Runtime) {
    && SameSteps(a.steps, b.steps)
    && a.assignments == b.assignments
    && a.bindings == b.bindings
    && b.task == a.task.(lastEventSequence := b.task.lastEventSequence)
  }

  lemma AppendKeeps(rt: Runtime, log: seq<Event>, input: EventInput, uuid: Uuids)
    requires Sound(log) && SequencesOk(rt, |log|)
    ensures var r := Append(rt, log, input, uuid);
            r.Noted? ==>
              && SameRuntime(rt, r.rt) && Sound(r.log) && SequencesOk(r.rt, |r.log|)
              && log <= r.log && |r.log| <= |log| + 1
              && (r.log == log <==> Replayed(log, input))
  {
    if Replayed(log, input) {
      var e := Find(log, input.identity.eventId.value).value;
      var k :| 0 <= k < |log| && log[k] == e;
      assert e.sequence == k + 1;
    } else {
      var e := NewEvent(log, input, uuid);
      if !EventLedger.Recorded(log, e.eventId) { SoundSnoc(log, e); }
    }
  }

  lemma SameKeys(a: map<Id, StepRuntime>, b: map<Id, StepRuntime>)
    requires SameSteps(a, b)
    ensures a.Keys == b.Keys
  {}

  lemma SameStepsTransitive(a: map<Id, StepRuntime>, b: map<Id, StepRuntime>, c: map<Id, StepRuntime>)
    requires SameSteps(a, b) && SameSteps(b, c)
    ensures SameSteps(a, c)
  {
    forall id | id in a ensures Like(a[id], c[id]) { assert Like(a[id], b[id]) && Like(b[id], c[id]); }
  }

  lemma SameStepsFacts(defs: seq<StepDef>, a: map<Id, StepRuntime>, b: map<Id, StepRuntime>)
    requires SameSteps(a, b)
    ensures forall s :: DependencyReady(s, a) == DependencyReady(s, b)
    ensures ActiveIds(a) == ActiveIds(b)
    ensures AllCompleted(a) == AllCompleted(b) && AllClosed(a) == AllClosed(b) && SomeCancelled(a) == SomeCancelled(b)
    ensures StepsOk(defs, a) ==> StepsOk(defs, b)
    ensures forall x :: BooksOk(x, a) ==> BooksOk(x, b)
  {
    assert forall id :: id in a ==> id in b && Like(a[id], b[id]);
    forall s ensures DependencyReady(s, a) == DependencyReady(s, b) {}
    if SomeCancelled(a) { var id :| id in a && a[id].status == Cancelled; assert b[id].status == Cancelled; }
    if SomeCancelled(b) { var id :| id in b && b[id].status == Cancelled; assert a[id].status == Cancelled; }
    if StepsOk(defs, a) {
      forall s | s in defs ensures StepOk(s, b) { assert StepOk(s, a); }
    }
    forall x | BooksOk(x, a) ensures BooksOk(x, b) {
      forall id | id in b ensures Books(x, id, b[id]) { assert Books(x, id, a[id]); }
    }
  }

  lemma {:induction false} DerivedFromSteps(defs: seq<StepDef>, a: map<Id, StepRuntime>, b: map<Id, StepRuntime>)
    requires SameSteps(a, b) && StepIds(defs) <= a.Keys
    ensures ActiveList(defs, a) == ActiveList(defs, b) && TotalProgress(defs, a) == TotalProgress(defs, b)
  {
    if defs != [] {
      var n := |defs| - 1;
      assert forall s :: s in defs[..n] ==> s in defs && s.stepId in StepIds(defs);
      assert defs[n] in defs && defs[n].stepId in StepIds(defs);
      DerivedFromSteps(defs[..n], a, b);
      assert Like(a[defs[n].stepId], b[defs[n].stepId]);
    }
  }

  lemma DerivedStable(def: Workflow, a: Runtime, b: Runtime)
    requires StepIds(def.steps) <= a.steps.Keys && SameSteps(a.steps, b.steps) && a == RefreshDerived(def, a)
    requires b.task.progress == a.task.progress && b.task.activeStepIds == a.task.activeStepIds
    ensures b == RefreshDerived(def, b)
  {
    DerivedFromSteps(def.steps, a.steps, b.steps);
  }

  lemma FitLike(defs: seq<StepDef>, a: Runtime, b: Runtime)
    requires Fit(defs, a) && SameSteps(a.steps, b.steps)
    requires b.assignments == a.assignments && b.bindings == a.bindings && b.task.status == a.task.status
    ensures Fit(defs, b)
  {
    SameStepsFacts(defs, a.steps, b.steps);
  }

  // ----- replacing one step state

  lemma UpdateStep(defs: seq<StepDef>, steps: map<Id, StepRuntime>, id: Id, y: StepRuntime)
    requires UniqueIds(defs) && StepsOk(defs, steps) && id in StepIds(defs) && id in steps
    requires y.status == Completed <==> steps[id].status == Completed
    requires LocalOk(DefOf(defs, id), y, DependencyReady(DefOf(defs, id), steps))
    ensures StepsOk(defs, steps[id := y])
  {
    var t := steps[id := y];
    forall s | s in defs ensures StepOk(s, t) {
      assert StepOk(s, steps);
      assert DependencyReady(s, t) == DependencyReady(s, steps);
      if s.stepId == id {
        var i :| 0 <= i < |defs| && defs[i] == s;
        DefOfIndex(defs, i);
      }
    }
  }

  lemma StepOkAt(defs: seq<StepDef>, steps: map<Id, StepRuntime>, id: Id)
    requires StepsOk(defs, steps) && id in StepIds(defs)
    ensures StepOk(DefOf(defs, id), steps)
  {}

  lemma ClosedAfterUpdate(rt: Runtime, id: Id, y: StepRuntime)
    requires ClosedOk(rt) && id in rt.steps
    requires y.status == rt.steps[id].status || y.status !in {Completed, Cancelled}
    ensures ClosedOk(WithStep(rt, id, y))
  {
    var t := rt.steps[id := y];
    assert t[id] == y;
    if y.status == rt.steps[id].status {
      assert forall k :: k in t <==> k in rt.steps;
      assert forall k :: k in t ==> t[k].status == rt.steps[k].status;
      if AllCompleted(t) { assert forall k :: k in rt.steps ==> t[k].status == rt.steps[k].status; }
      if SomeCancelled(t) {
        var k :| k in t && t[k].status == Cancelled;
        assert k in rt.steps && rt.steps[k].status == Cancelled;
      }
      assert AllClosed(t) ==> AllClosed(rt.steps);
    }
  }

  lemma BooksReplaced(a: seq<Assignment>, steps: map<Id, StepRuntime>, id: Id, y: StepRuntime)
    requires BooksOk(a, steps) && id in steps
    requires y.attempt == steps[id].attempt && y.assignmentId == steps[id].assignmentId
    ensures BooksOk(a, steps[id := y])
  {
    var t := steps[id := y];
    forall k | k in t ensures Books(a, k, t[k]) { assert Books(a, k, steps[k]); }
  }

  predicate Unassigning(x: StepRuntime, y: StepRuntime) {
    && y.attempt == x.attempt && y.assignmentId == x.assignmentId && y.lastEventSequence == x.lastEventSequence
    && (y.status == Completed <==> x.status == Completed)
    && (y.status == x.status || y.status != Cancelled)
  }

  lemma StepFit(s: Snapshot, id: Id, y: StepRuntime)
    requires Base(s) && id in s.rt.steps && Unassigning(s.rt.steps[id], y)
    requires LocalOk(DefOf(s.def.steps, id), y, DependencyReady(DefOf(s.def.steps, id), s.rt.steps))
    ensures Fit(s.def.steps, WithStep(s.rt, id, y))
  {
    UpdateStep(s.def.steps, s.rt.steps, id, y);
    BooksReplaced(s.rt.assignments, s.rt.steps, id, y);
    ClosedAfterUpdate(s.rt, id, y);
  }

  // ----- appending and writing

  lemma SnapshotFacts(s: Snapshot)
    requires SnapshotOk(s)
    ensures UniqueIds(s.def.steps) && s.rt.steps.Keys == StepIds(s.def.steps)
  {}

  /** `now` is `rt`, refreshed and up to event numbers, in a valid snapshot with the old definition. */
  ghost predicate Written(s: Snapshot, rt: Runtime, now: Snapshot) {
    && SnapshotOk(now) && DerivedOk(now) && now.def == s.def
    && SameSteps(rt.steps, now.rt.steps)
    && now.rt.assignments == rt.assignments && now.rt.bindings == rt.bindings
    && now.rt.task.status == rt.task.status && now.rt.task.blockers == rt.task.blockers
  }

  ghost predicate LogOk(log: seq<Event>, r: Result) {
    log <= r.log && Sound(r.log) && (r.Wrote? ==> SequencesOk(r.snap.rt, |r.log|))
  }

  /** The file only grows, stays sound, and whatever is written satisfies the invariant. */
  ghost predicate Good(log: seq<Event>, r: Result) {
    log <= r.log && Sound(r.log) && (r.Wrote? ==> DiskInv(Disk(r.snap, r.log)))
  }

  lemma HaltedGood(log: seq<Event>)
    requires Sound(log)
    ensures forall why :: Good(log, Halted(log, why))
  {}

  lemma SettleShape(s: Snapshot, log: seq<Event>, c: Change, uuid: Uuids)
    requires Sound(log) && (c.Replace? ==> StepIds(s.def.steps) <= c.rt.steps.Keys && SequencesOk(c.rt, |log|))
    ensures var r := Settle(s, log, c, uuid); LogOk(log, r) && (r.Wrote? ==> c.Replace? && Written(s, c.rt, r.snap))
  {
    if c.Replace? { AppendKeeps(c.rt, log, c.input, uuid); }
  }

  predicate SameNumbers(a: Runtime, b: Runtime) {
    && b.task.lastEventSequence == a.task.lastEventSequence && b.steps.Keys == a.steps.Keys
    && forall id :: id in a.steps ==> b.steps[id].lastEventSequence == a.steps[id].lastEventSequence
  }

  ghost predicate ChangeOk(s: Snapshot, c: Change) {
    c.Replace? ==> SameNumbers(s.rt, c.rt) && Fit(s.def.steps, c.rt)
  }

  lemma SettleGood(s: Snapshot, log: seq<Event>, c: Change, uuid: Uuids)
    requires DiskInv(Disk(s, log)) && ChangeOk(s, c)
    ensures Good(log, Settle(s, log, c, uuid))
  {
    assert c.Replace? ==> StepIds(s.def.steps) <= c.rt.steps.Keys && SequencesOk(c.rt, |log|);
    SettleShape(s, log, c, uuid);
    var r := Settle(s, log, c, uuid);
    hide SnapshotOk, Settle, Sound, DerivedOk, SequencesOk;
    if r.Wrote? { FitLike(s.def.steps, c.rt, r.snap.rt); }
  }
}
