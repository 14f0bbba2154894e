/** The durable snapshot and its validation (execution-runtime/store.ts, validators.ts). */
module Store {
  import opened Wrappers
  import opened Contracts
  import opened Dag
  import opened EventLedger

  predicate DistinctAssignments(a: seq<Assignment>) {
    forall i, j :: 0 <= i < j < |a| ==> a[i].assignmentId != a[j].assignmentId
  }

  predicate DistinctBindings(b: seq<SessionBinding>) {
    forall i, j :: 0 <= i < j < |b| ==> b[i].bindingId != b[j].bindingId
  }

  predicate IsAssignment(a: seq<Assignment>, id: Id) {
    exists i :: 0 <= i < |a| && a[i].assignmentId == id
  }

  predicate OutputOk(o: ExpectedOutput) {
    o.minCount.Some? && o.maxCount.Some? ==> o.minCount.value <= o.maxCount.value
  }

  predicate StepDefOk(s: StepDef) {
    && 1 <= s.maxAttempts <= 100
    && (forall i, j :: 0 <= i < j < |s.dependsOn| ==> s.dependsOn[i] != s.dependsOn[j])
    && (forall o :: o in s.expectedOutputs ==> OutputOk(o))
  }

  predicate DefinitionFieldsOk(def: Workflow) {
    && def.revision >= 1
    && 1 <= def.maxParallelSteps <= 256
    && (forall s :: s in def.steps ==> StepDefOk(s))
  }

  ghost predicate DefinitionOk(def: Workflow) {
    DefinitionFieldsOk(def) && ValidDag(def.steps)
  }

  predicate RuntimeOk(def: Workflow, rt: Runtime) {
    && rt.steps.Keys == StepIds(def.steps)
    && (forall a :: a in rt.assignments ==> a.stepId in StepIds(def.steps))
    && DistinctAssignments(rt.assignments)
    && (forall b :: b in rt.bindings ==> b.stepId in StepIds(def.steps) && IsAssignment(rt.assignments, b.assignmentId))
    && DistinctBindings(rt.bindings)
  }

  ghost predicate SnapshotOk(s: Snapshot) {
    DefinitionOk(s.def) && RuntimeOk(s.def, s.rt)
  }

  /** A revision never moves back, and one revision has one definition. */
  predicate RevisionOk(was: Workflow, now: Workflow) {
    now.revision >= was.revision && (now.revision == was.revision ==> now == was)
  }

  datatype Reconciliation =
    | CorruptSnapshot
    | CorruptLedger
    | SnapshotAhead
    | Consistent(eventCount: nat, stateEventSequence: nat, needsSemanticReplay: bool)

  class ExecutionStore {
    var snapshot: Snapshot
    const events: EventFile

    constructor (snapshot: Snapshot)
      ensures this.snapshot == snapshot && fresh(events) && events.lines == []
    {
      this.snapshot := snapshot;
      events := new EventFile();
    }

    method CheckSnapshot(s: Snapshot) returns (ok: bool)
      ensures ok <==> SnapshotOk(s)
    {
      var errors := ValidateExecutionDag(s.def.steps);
      ok := errors == {} && DefinitionFieldsOk(s.def) && RuntimeOk(s.def, s.rt);
    }

    method LoadSnapshot() returns (s: Option<Snapshot>)
      ensures s == if SnapshotOk(snapshot) then Some(snapshot) else None
    {
      var ok := CheckSnapshot(snapshot);
      s := if ok then Some(snapshot) else None;
    }

    method WriteSnapshot(def: Workflow, rt: Runtime) returns (ok: bool)
      modifies this`snapshot
      ensures ok <==> SnapshotOk(Snapshot(def, rt)) && SnapshotOk(old(snapshot)) && RevisionOk(old(snapshot).def, def)
      ensures snapshot == if ok then Snapshot(def, rt) else old(snapshot)
    {
      var valid := CheckSnapshot(Snapshot(def, rt));
      if !valid { return false; }
      var current := LoadSnapshot();
      if current.None? || !RevisionOk(current.value.def, def) { return false; }
      snapshot := Snapshot(def, rt);
      ok := true;
    }

    method Reconcile() returns (r: Reconciliation)
      ensures r.CorruptSnapshot? <==> !SnapshotOk(snapshot)
      ensures r.CorruptLedger? <==> SnapshotOk(snapshot) && !Sound(events.lines)
      ensures r.SnapshotAhead? <==> SnapshotOk(snapshot) && Sound(events.lines) &&
                                    snapshot.rt.task.lastEventSequence > |events.lines|
      ensures r.Consistent? ==> r == Consistent(|events.lines|, snapshot.rt.task.lastEventSequence,
                                                snapshot.rt.task.lastEventSequence < |events.lines|)
    {
      var s := LoadSnapshot();
      if s.None? { return CorruptSnapshot; }
      var log := events.Read();
      if log.None? { return CorruptLedger; }
      var seen := s.value.rt.task.lastEventSequence;
      if seen > |log.value| { return SnapshotAhead; }
      r := Consistent(|log.value|, seen, seen < |log.value|);
    }
  }
}
