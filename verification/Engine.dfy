/** What each operation of the runtime does (execution-runtime/runtime.ts), as a function of the stored
    snapshot and the event file. The class in RuntimeMethods.dfy is proved to compute these functions. */
module Engine {
  import opened Wrappers
  import opened Contracts
  import opened StateMachine
  import opened Scheduler
  import opened EventLedger
  import opened Store

  datatype Refusal =
    | CorruptStore | StepNotFound | AssignmentNotFound | BindingNotFound | InvalidDefinition
    | IllegalTaskTransition | IllegalStepTransition | IllegalBindingTransition
    | TaskIsTerminal | StepExists | SkillContractMismatch | SkillsNotReady | WrongExecutor
    | NotAssignable | AttemptsExhausted | DependenciesOpen | CapacityExhausted | NotAssigned
    | AlreadyBound | SessionIdRequired | CompletionNeedsGate | NotReportable | ProgressNotFinite
    | NotVerifying | StaleReview | ReviewNeedsNote | MissingOutput | EventRefused | SnapshotRefused

  /** An operation either throws, leaving whatever it had appended by then, or writes a snapshot. */
  datatype Result =
    | Halted(log: seq<Event>, why: Refusal)
    | Wrote(log: seq<Event>, snap: Snapshot)

  datatype Identity = Identity(eventId: Option<Id>, report: Option<Mark>)

  const Anonymous := Identity(None, None)

  /** The generator of event identifiers: the one drawn for a given sequence number. */
  type Uuids = nat -> Id

  // ----- appendEvent

  datatype EventInput = EventInput(stepId: Option<Id>, assignmentId: Option<Id>, body: Body, identity: Identity)

  datatype Noted = Refused | Noted(rt: Runtime, log: seq<Event>)

  predicate SameContent(e: Event, input: EventInput) {
    e.stepId == input.stepId && e.assignmentId == input.assignmentId && e.body == input.body
    && e.report == input.identity.report
  }

  function Max(a: nat, b: nat): nat { if a < b then b else a }

  /** Records an event number on the task and on the step the event is about. */
  function Stamp(rt: Runtime, stepId: Option<Id>, taskSequence: nat, stepSequence: nat): Runtime {
    rt.(task := rt.task.(lastEventSequence := taskSequence),
        steps := if stepId.Some? && stepId.value in rt.steps
                 then rt.steps[stepId.value := rt.steps[stepId.value].(lastEventSequence := stepSequence)]
                 else rt.steps)
  }

  function StepSequence(rt: Runtime, stepId: Option<Id>): nat {
    if stepId.Some? && stepId.value in rt.steps then rt.steps[stepId.value].lastEventSequence else 0
  }

  function NewEvent(log: seq<Event>, input: EventInput, uuid: Uuids): Event {
    var n := |log| + 1;
    Event(if input.identity.eventId.Some? then input.identity.eventId.value else uuid(n),
          n, input.stepId, input.assignmentId, input.body, input.identity.report)
  }

  /** Whether the event id was supplied by the caller and is already in the file. */
  predicate Replayed(log: seq<Event>, input: EventInput) {
    input.identity.eventId.Some? && EventLedger.Recorded(log, input.identity.eventId.value)
  }

  function Append(rt: Runtime, log: seq<Event>, input: EventInput, uuid: Uuids): Noted {
    if Replayed(log, input) then
      var e := Find(log, input.identity.eventId.value).value;
      if SameContent(e, input)
      then Noted(Stamp(rt, input.stepId, Max(rt.task.lastEventSequence, e.sequence),
                       Max(StepSequence(rt, input.stepId), e.sequence)), log)
      else Refused
    else
      var e := NewEvent(log, input, uuid);
      if EventLedger.Recorded(log, e.eventId) then Refused
      else Noted(Stamp(rt, input.stepId, e.sequence, e.sequence), log + [e])
  }

  // ----- shared pieces

  function ActiveList(defs: seq<StepDef>, steps: map<Id, StepRuntime>): seq<Id>
    requires StepIds(defs) <= steps.Keys
  {
    if defs == [] then [] else
      var n := |defs| - 1;
      assert forall s :: s in defs[..n] ==> s in defs && s.stepId in StepIds(defs);
      assert defs[n] in defs && defs[n].stepId in StepIds(defs);
      ActiveList(defs[..n], steps) + if Active(steps[defs[n].stepId].status) then [defs[n].stepId] else []
  }

  function RefreshDerived(def: Workflow, rt: Runtime): Runtime
    requires StepIds(def.steps) <= rt.steps.Keys
  {
    rt.(task := rt.task.(progress := TaskProgress(def.steps, rt.steps),
                          activeStepIds := ActiveList(def.steps, rt.steps)))
  }

  ghost function Write(old_: Snapshot, def: Workflow, rt: Runtime, log: seq<Event>): Result {
    if SnapshotOk(Snapshot(def, rt)) && RevisionOk(old_.def, def) then Wrote(log, Snapshot(def, rt))
    else Halted(log, SnapshotRefused)
  }

  /** A single-event operation is refused, or proposes a new runtime and the event that says so. */
  datatype Change = Refuse(why: Refusal) | Replace(rt: Runtime, input: EventInput)

  /** Append, refresh, write. */
  ghost function Commit(s: Snapshot, log: seq<Event>, rt: Runtime, input: EventInput, uuid: Uuids): Result
    requires StepIds(s.def.steps) <= rt.steps.Keys
  {
    match Append(rt, log, input, uuid)
    case Refused => Halted(log, EventRefused)
    case Noted(rt', log') => Write(s, s.def, RefreshDerived(s.def, rt'), log')
  }

  ghost function Settle(s: Snapshot, log: seq<Event>, c: Change, uuid: Uuids): Result
    requires c.Replace? ==> StepIds(s.def.steps) <= c.rt.steps.Keys
  {
    match c
    case Refuse(why) => Halted(log, why)
    case Replace(rt, input) => Commit(s, log, rt, input, uuid)
  }

  function WithStep(rt: Runtime, id: Id, x: StepRuntime): Runtime {
    rt.(steps := rt.steps[id := x])
  }

  predicate AllCompleted(steps: map<Id, StepRuntime>) {
    forall id :: id in steps ==> steps[id].status == Completed
  }

  predicate AllClosed(steps: map<Id, StepRuntime>) {
    forall id :: id in steps ==> steps[id].status in {Completed, Cancelled}
  }

  predicate SomeCancelled(steps: map<Id, StepRuntime>) {
    exists id :: id in steps && steps[id].status == Cancelled
  }

  /** A loop of appends: stopped by a refused append, or run to the end. */
  datatype Loop = Stopped(log: seq<Event>) | Ran(rt: Runtime, log: seq<Event>)

  // ----- createTask

  function InitialPreflight(step: StepDef): Option<SkillPreflight> {
    if step.requiredSkills != [] || step.optionalSkills != [] then None
    else Some(SkillPreflight(NotRequired, if step.executor == Auto then None else Some(step.executor), [], [], []))
  }

  function InitialStep(step: StepDef, completed: set<Id>): StepRuntime {
    StepRuntime(if forall d :: d in step.dependsOn ==> d in completed then Ready else WaitingDependency,
                InitialPreflight(step), 0, None, 0.0, None, None, 0)
  }

  function InitialSteps(steps: seq<StepDef>, completed: set<Id>): map<Id, StepRuntime> {
    map id | id in StepIds(steps) :: InitialStep(DefOf(steps, id), completed)
  }

  function InitialSnapshot(def: Workflow): Snapshot {
    var rt := Runtime(TaskRuntime(TReady, 0.0, [], [], 0), InitialSteps(def.steps, {}), [], []);
    Snapshot(def, RefreshDerived(def, rt))
  }

  function IdList(steps: seq<StepDef>): seq<Id> {
    seq(|steps|, i requires 0 <= i < |steps| => steps[i].stepId)
  }

  function CreatedInput(def: Workflow): EventInput {
    EventInput(None, None, TaskCreated(IdList(def.steps)), Anonymous)
  }

  /** `createTask` on a task directory that does not exist yet. */
  ghost function CreateTask(def: Workflow, uuid: Uuids): Result {
    var s := InitialSnapshot(def);
    if def.revision != 1 || !SnapshotOk(s) then Halted([], InvalidDefinition)
    else match Append(s.rt, [], CreatedInput(def), uuid)
      case Refused => Halted([], EventRefused)
      case Noted(rt, log) => Write(s, def, rt, log)
  }

  // ----- addSteps

  function CompletedIds(steps: map<Id, StepRuntime>): set<Id> {
    set id | id in steps && steps[id].status == Completed
  }

  function AppendAdded(rt: Runtime, log: seq<Event>, additions: seq<StepDef>, i: nat, uuid: Uuids): (r: Loop)
    requires i <= |additions|
    ensures r.Ran? ==> r.rt.steps.Keys == rt.steps.Keys
    decreases |additions| - i
  {
    if i == |additions| then Ran(rt, log) else
      match Append(rt, log, EventInput(Some(additions[i].stepId), None, StepAdded(additions[i]), Anonymous), uuid)
      case Refused => Stopped(log)
      case Noted(rt', log') => AppendAdded(rt', log', additions, i + 1, uuid)
  }

  ghost function AddSteps(s: Snapshot, log: seq<Event>, additions: seq<StepDef>, uuid: Uuids): Result
    requires SnapshotOk(s)
  {
    if additions == [] then Wrote(log, s)
    else if s.rt.task.status in {TCompleted, TCancelled} then Halted(log, TaskIsTerminal)
    else if !UniqueIds(s.def.steps + additions) then Halted(log, StepExists)
    else
      var def := s.def.(revision := s.def.revision + 1, steps := s.def.steps + additions);
      var rt := RefreshDerived(def, s.rt.(steps := s.rt.steps + InitialSteps(additions, CompletedIds(s.rt.steps))));
      match AppendAdded(rt, log, additions, 0, uuid)
      case Stopped(log') => Halted(log', EventRefused)
      case Ran(rt', log') => Write(s, def, RefreshDerived(def, rt'), log')
  }

  // ----- transitionTask

  function TaskChange(s: Snapshot, to: TaskStatus, reason: Option<string>): Change {
    if !ValidTaskTransition(s.rt.task.status, to) then Refuse(IllegalTaskTransition)
    else
      var rt := s.rt.(task := s.rt.task.(status := to,
        blockers := if to == TBlocked && reason.Some? then [reason.value] else s.rt.task.blockers));
      Replace(rt, EventInput(None, None, TaskStateChanged(s.rt.task.status, to, reason), Anonymous))
  }

  // ----- reconcileReadiness

  /** The status the reconciliation gives to a step, if it differs from the present one. */
  function Reconciled(step: StepDef, steps: map<Id, StepRuntime>): Option<StepStatus>
    requires step.stepId in steps
  {
    var now := steps[step.stepId].status;
    var next := if DependencyReady(step, steps) then Ready else WaitingDependency;
    if now in {Pending, WaitingDependency} && next != now then Some(next) else None
  }

  function ReconcileFrom(defs: seq<StepDef>, i: nat, rt: Runtime, log: seq<Event>, uuid: Uuids): (r: Loop)
    requires i <= |defs| && StepIds(defs) <= rt.steps.Keys
    ensures r.Ran? ==> r.rt.steps.Keys == rt.steps.Keys
    decreases |defs| - i
  {
    if i == |defs| then Ran(rt, log) else
      assert defs[i].stepId in StepIds(defs);
      var id := defs[i].stepId;
      var next := Reconciled(defs[i], rt.steps);
      if next.None? then ReconcileFrom(defs, i + 1, rt, log, uuid)
      else
        var body := StepStateChanged(rt.steps[id].status, next.value, Some("dependency_reconcile"));
        match Append(WithStep(rt, id, rt.steps[id].(status := next.value)), log,
                     EventInput(Some(id), None, body, Anonymous), uuid)
        case Refused => Stopped(log)
        case Noted(rt', log') => ReconcileFrom(defs, i + 1, rt', log', uuid)
  }

  ghost function ReconcileReadiness(s: Snapshot, log: seq<Event>, uuid: Uuids): Result
    requires SnapshotOk(s)
  {
    match ReconcileFrom(s.def.steps, 0, s.rt, log, uuid)
    case Stopped(log') => Halted(log', EventRefused)
    case Ran(rt, log') => Write(s, s.def, RefreshDerived(s.def, rt), log')
  }

  // ----- recordSkillPreflight

  function PreflightBlocker(x: StepRuntime, p: SkillPreflight): Option<Blocker> {
    if p.missingRequiredSkills != [] then Some(MissingSkills(p.missingRequiredSkills))
    else if x.blocker.Some? && x.blocker.value.MissingSkills? then None
    else x.blocker
  }

  function Preflighted(x: StepRuntime, p: SkillPreflight): StepRuntime {
    x.(skillPreflight := Some(p), blocker := PreflightBlocker(x, p))
  }

  function PreflightChange(s: Snapshot, stepId: Id, p: SkillPreflight): (c: Change)
    requires s.rt.steps.Keys == StepIds(s.def.steps)
    ensures c.Replace? ==> c.rt.steps.Keys == s.rt.steps.Keys
  {
    if stepId !in s.rt.steps then Refuse(StepNotFound)
    else
      var step, x := DefOf(s.def.steps, stepId), s.rt.steps[stepId];
      if step.requiredSkills != p.requiredSkills || step.optionalSkills != p.optionalSkills
      then Refuse(SkillContractMismatch)
      else if p.state == SkillsReady && p.missingRequiredSkills != [] then Refuse(SkillsNotReady)
      else Replace(WithStep(s.rt, stepId, Preflighted(x, p)),
                   EventInput(Some(stepId), x.assignmentId, SkillPreflightRecorded(p), Anonymous))
  }

  // ----- createAssignment

  function AssignmentRefusal(s: Snapshot, stepId: Id, executor: Executor): Option<Refusal>
    requires s.rt.steps.Keys == StepIds(s.def.steps)
  {
    if stepId !in s.rt.steps then Some(StepNotFound)
    else
      var step, x := DefOf(s.def.steps, stepId), s.rt.steps[stepId];
      if s.rt.task.status in {TCompleted, TCancelled, TFailed} then Some(TaskIsTerminal)
      else if SkillsOpen(step, x) then Some(SkillsNotReady)
      else if step.requiredSkills != [] && x.skillPreflight.value.executor != Some(executor) then Some(WrongExecutor)
      else if x.status != Ready && x.status != FixRequired then Some(NotAssignable)
      else if x.attempt >= step.maxAttempts then Some(AttemptsExhausted)
      else if !DependencyReady(step, s.rt.steps) then Some(DependenciesOpen)
      else if ActiveCount(s.rt.steps) >= s.def.maxParallelSteps then Some(CapacityExhausted)
      else if executor == Auto then Some(WrongExecutor)
      else if step.executor != Auto && step.executor != executor then Some(WrongExecutor)
      else None
  }

  function Dispatched(x: StepRuntime, assignmentId: Id): StepRuntime {
    x.(status := Dispatching, attempt := x.attempt + 1, assignmentId := Some(assignmentId), blocker := None)
  }

  function Assigned(s: Snapshot, stepId: Id, executor: Executor, executorId: Option<string>, assignmentId: Id): Runtime
    requires stepId in s.rt.steps
  {
    var x := s.rt.steps[stepId];
    Runtime(if s.rt.task.status == TReady then s.rt.task.(status := TRunning) else s.rt.task,
            s.rt.steps[stepId := Dispatched(x, assignmentId)],
            s.rt.assignments + [Assignment(assignmentId, stepId, x.attempt + 1, executor, executorId)],
            s.rt.bindings)
  }

  function AssignChange(s: Snapshot, stepId: Id, executor: Executor, executorId: Option<string>,
                        assignmentId: Id): (c: Change)
    requires s.rt.steps.Keys == StepIds(s.def.steps)
    ensures c.Replace? ==> c.rt.steps.Keys == s.rt.steps.Keys
  {
    var refusal := AssignmentRefusal(s, stepId, executor);
    if refusal.Some? then Refuse(refusal.value)
    else Replace(Assigned(s, stepId, executor, executorId, assignmentId),
                 EventInput(Some(stepId), Some(assignmentId),
                            AssignmentCreated(executor, executorId, s.rt.steps[stepId].attempt + 1), Anonymous))
  }

  // ----- bindSession, updateSessionBindingState

  function FindAssignment(a: seq<Assignment>, id: Id): (r: Option<Assignment>)
    ensures r.None? <==> !IsAssignment(a, id)
    ensures r.Some? ==> r.value in a && r.value.assignmentId == id
  {
    if a == [] then None
    else if a[0].assignmentId == id then Some(a[0])
    else
      assert forall i :: 0 <= i < |a[1..]| ==> a[1..][i] == a[i+1];
      FindAssignment(a[1..], id)
  }

  predicate OpenBinding(b: seq<SessionBinding>, assignmentId: Id) {
    exists i :: 0 <= i < |b| && b[i].assignmentId == assignmentId && b[i].state != BClosed
  }

  function BindChange(s: Snapshot, assignmentId: Id, logicalSessionId: string, state: BindingState,
                      bindingId: Id): Change {
    var a := FindAssignment(s.rt.assignments, assignmentId);
    if a.None? then Refuse(AssignmentNotFound)
    else if OpenBinding(s.rt.bindings, assignmentId) then Refuse(AlreadyBound)
    else if logicalSessionId == "" then Refuse(SessionIdRequired)
    else
      var b := SessionBinding(bindingId, a.value.stepId, assignmentId, a.value.executor, logicalSessionId, state);
      Replace(s.rt.(bindings := s.rt.bindings + [b]),
              EventInput(Some(b.stepId), Some(assignmentId), SessionBound(bindingId, logicalSessionId), Anonymous))
  }

  function BindingIndex(b: seq<SessionBinding>, id: Id): (r: Option<nat>)
    ensures r.None? <==> forall i :: 0 <= i < |b| ==> b[i].bindingId != id
    ensures r.Some? ==> r.value < |b| && b[r.value].bindingId == id
  {
    if b == [] then None
    else if b[0].bindingId == id then Some(0)
    else
      assert forall i :: 0 <= i < |b[1..]| ==> b[1..][i] == b[i+1];
      var r := BindingIndex(b[1..], id);
      assert r.None? ==> forall i :: 0 < i < |b| ==> b[i] == b[1..][i-1];
      if r.None? then None else Some(r.value + 1)
  }

  function BindingChange(s: Snapshot, bindingId: Id, state: BindingState): Change {
    var k := BindingIndex(s.rt.bindings, bindingId);
    if k.None? then Refuse(BindingNotFound)
    else
      var b := s.rt.bindings[k.value];
      if !ValidBindingTransition(b.state, state) then Refuse(IllegalBindingTransition)
      else Replace(s.rt.(bindings := s.rt.bindings[k.value := b.(state := state)]),
                   EventInput(Some(b.stepId), Some(b.assignmentId),
                              SessionStateChanged(bindingId, b.state, state),
                              Anonymous))
  }

  // ----- transitionStep

  function TransitionRefusal(s: Snapshot, stepId: Id, to: StepStatus): Option<Refusal>
    requires s.rt.steps.Keys == StepIds(s.def.steps)
  {
    if stepId !in s.rt.steps then Some(StepNotFound)
    else
      var x := s.rt.steps[stepId];
      if !ValidStepTransition(x.status, to) then Some(IllegalStepTransition)
      else if to == Ready && !DependencyReady(DefOf(s.def.steps, stepId), s.rt.steps) then Some(DependenciesOpen)
      else if Active(to) && !Active(x.status) && x.assignmentId.None? then Some(NotAssigned)
      else if Active(to) && !Active(x.status) && ActiveCount(s.rt.steps) >= s.def.maxParallelSteps
      then Some(CapacityExhausted)
      else None
  }

  function Transitioned(x: StepRuntime, to: StepStatus, reason: Option<string>): StepRuntime {
    x.(status := to,
       blocker := if to in {Blocked, OutcomeUnknown, Failed, WaitingHuman}
                  then if reason.Some? then Some(Reason(reason.value)) else x.blocker
                  else None)
  }

  function TransitionInput(s: Snapshot, stepId: Id, to: StepStatus, reason: Option<string>,
                           identity: Identity): EventInput
    requires stepId in s.rt.steps
  {
    EventInput(Some(stepId), s.rt.steps[stepId].assignmentId, StepStateChanged(s.rt.steps[stepId].status, to, reason),
               identity)
  }

  /** After a step left the run: a task whose steps are all completed or cancelled is cancelled. */
  ghost function CancelWhenClosed(s: Snapshot, rt: Runtime, log: seq<Event>, uuid: Uuids): Result
    requires StepIds(s.def.steps) <= rt.steps.Keys
  {
    if rt.task.status != TCancelled && SomeCancelled(rt.steps) && AllClosed(rt.steps) then
      if !ValidTaskTransition(rt.task.status, TCancelled) then Halted(log, IllegalTaskTransition)
      else
        match Append(rt.(task := rt.task.(status := TCancelled)), log,
                     EventInput(None, None, TaskStateChanged(rt.task.status, TCancelled, Some("all_steps_terminal")),
                                Anonymous), uuid)
        case Refused => Halted(log, EventRefused)
        case Noted(rt', log') => Write(s, s.def, rt', log')
    else Write(s, s.def, rt, log)
  }

  ghost function TransitionStep(s: Snapshot, log: seq<Event>, stepId: Id, to: StepStatus, reason: Option<string>,
                                identity: Identity, uuid: Uuids): Result
    requires SnapshotOk(s)
  {
    if to == Completed then Halted(log, CompletionNeedsGate)
    else if to == Verifying then Settle(s, log, RequestChange(s, stepId, reason, identity), uuid)
    else
      var refusal := TransitionRefusal(s, stepId, to);
      if refusal.Some? then Halted(log, refusal.value)
      else
        var rt := WithStep(s.rt, stepId, Transitioned(s.rt.steps[stepId], to, reason));
        match Append(rt, log, TransitionInput(s, stepId, to, reason, identity), uuid)
        case Refused => Halted(log, EventRefused)
        case Noted(rt', log') => CancelWhenClosed(s, RefreshDerived(s.def, rt'), log', uuid)
  }

  // ----- recordProgress, recordArtifact, requestCompletion

  function Progressed(x: StepRuntime, p: real, activity: Option<string>): StepRuntime {
    x.(status := Running, progress := p, currentActivity := activity, blocker := None)
  }

  /** `None` is a number that is not finite. */
  function ProgressChange(s: Snapshot, stepId: Id, progress: Option<real>, activity: Option<string>,
                          identity: Identity): (c: Change)
    requires s.rt.steps.Keys == StepIds(s.def.steps)
    ensures c.Replace? ==> c.rt.steps.Keys == s.rt.steps.Keys
  {
    if stepId !in s.rt.steps then Refuse(StepNotFound)
    else
      var x := s.rt.steps[stepId];
      if x.status !in {Dispatching, Running, WaitingReport, FixRequired} then Refuse(NotReportable)
      else if progress.None? then Refuse(ProgressNotFinite)
      else
        var p := Clamp01(progress.value);
        Replace(WithStep(s.rt, stepId, Progressed(x, p, activity)),
                EventInput(Some(stepId), x.assignmentId, ProgressUpdated(p, activity, x.status), identity))
  }

  function ArtifactChange(s: Snapshot, stepId: Id, logicalName: string, artifactId: Option<Id>,
                          identity: Identity): Change {
    if stepId !in s.rt.steps then Refuse(StepNotFound)
    else Replace(s.rt, EventInput(Some(stepId), s.rt.steps[stepId].assignmentId,
                                 ArtifactProduced(logicalName, artifactId),
                                 identity))
  }

  function AtLeast(x: real, low: real): real { if x < low then low else x }

  function Requested(x: StepRuntime): StepRuntime {
    x.(status := Verifying, progress := AtLeast(x.progress, 0.95))
  }

  function RequestChange(s: Snapshot, stepId: Id, note: Option<string>, identity: Identity): (c: Change)
    requires s.rt.steps.Keys == StepIds(s.def.steps)
    ensures c.Replace? ==> c.rt.steps.Keys == s.rt.steps.Keys
  {
    if stepId !in s.rt.steps then Refuse(StepNotFound)
    else
      var x := s.rt.steps[stepId];
      if x.assignmentId.None? then Refuse(NotAssigned)
      else if !Active(x.status) && ActiveCount(s.rt.steps) >= s.def.maxParallelSteps then Refuse(CapacityExhausted)
      else if !ValidStepTransition(x.status, Verifying) then Refuse(IllegalStepTransition)
      else Replace(WithStep(s.rt, stepId, Requested(x)),
                   EventInput(Some(stepId), x.assignmentId, CompletionRequested(x.status, note), identity))
  }

  // ----- gatePassed, gateFailed

  /** The distinct artifacts of one logical name that the current assignment of a step has produced. */
  function Artifacts(log: seq<Event>, stepId: Id, assignmentId: Option<Id>, logicalName: string): set<Id> {
    set e | e in log && e.body.ArtifactProduced? && e.stepId == Some(stepId) && e.assignmentId == assignmentId
            && e.body.logicalName == logicalName
         :: if e.body.artifactId.Some? then e.body.artifactId.value else e.eventId
  }

  predicate OutputPresent(log: seq<Event>, stepId: Id, assignmentId: Option<Id>, o: ExpectedOutput) {
    |Artifacts(log, stepId, assignmentId, o.logicalName)| >= if o.minCount.Some? then o.minCount.value else 1
  }

  function GateRefusal(s: Snapshot, log: seq<Event>, stepId: Id, e: Evidence): Option<Refusal>
    requires s.rt.steps.Keys == StepIds(s.def.steps)
  {
    if stepId !in s.rt.steps then Some(StepNotFound)
    else
      var step, x := DefOf(s.def.steps, stepId), s.rt.steps[stepId];
      if x.status != Verifying then Some(NotVerifying)
      else if e.humanReview && e.assignmentId != x.assignmentId then Some(StaleReview)
      else if e.humanReview && e.note.None? then Some(ReviewNeedsNote)
      else if ("required_outputs" in step.completionGate || e.humanReview)
        && (exists o :: o in step.expectedOutputs && o.required && !OutputPresent(log, stepId, x.assignmentId, o))
  then Some(MissingOutput)
      else None
  }

  predicate Promotable(step: StepDef, steps: map<Id, StepRuntime>)
    requires step.stepId in steps
  {
    steps[step.stepId].status == WaitingDependency && DependencyReady(step, steps)
  }

  function PromoteFrom(defs: seq<StepDef>, i: nat, rt: Runtime, log: seq<Event>, uuid: Uuids): (r: Loop)
    requires i <= |defs| && StepIds(defs) <= rt.steps.Keys
    ensures r.Ran? ==> r.rt.steps.Keys == rt.steps.Keys
    decreases |defs| - i
  {
    if i == |defs| then Ran(rt, log) else
      assert defs[i].stepId in StepIds(defs);
      var id := defs[i].stepId;
      if !Promotable(defs[i], rt.steps) then PromoteFrom(defs, i + 1, rt, log, uuid)
      else
        match Append(WithStep(rt, id, rt.steps[id].(status := Ready)), log,
                     EventInput(Some(id), None,
                                StepStateChanged(WaitingDependency, Ready, Some("dependency_completed")),
                                Anonymous), uuid)
        case Refused => Stopped(log)
        case Noted(rt', log') => PromoteFrom(defs, i + 1, rt', log', uuid)
  }

  ghost function CloseTask(s: Snapshot, rt: Runtime, log: seq<Event>, uuid: Uuids): Result
    requires StepIds(s.def.steps) <= rt.steps.Keys
  {
    if !AllClosed(rt.steps) then Write(s, s.def, RefreshDerived(s.def, rt), log)
    else
      var to := if rt.steps.Keys != {} && AllCompleted(rt.steps) then TCompleted else TCancelled;
      var body := if to == TCompleted then TaskCompleted(IdList(s.def.steps))
                  else TaskStateChanged(rt.task.status, TCancelled, Some("all_steps_terminal"));
      if !ValidTaskTransition(rt.task.status, to) then Halted(log, IllegalTaskTransition)
      else
        match Append(rt.(task := rt.task.(status := to)), log, EventInput(None, None, body, Anonymous), uuid)
        case Refused => Halted(log, EventRefused)
        case Noted(rt', log') => Write(s, s.def, RefreshDerived(s.def, rt'), log')
  }

  function Passed(x: StepRuntime): StepRuntime {
    x.(status := Completed, progress := 1.0, currentActivity := None, blocker := None)
  }

  ghost function GatePass(s: Snapshot, log: seq<Event>, stepId: Id, e: Evidence, uuid: Uuids): Result
    requires SnapshotOk(s)
  {
    var refusal := GateRefusal(s, log, stepId, e);
    if refusal.Some? then Halted(log, refusal.value)
    else
      var rt := WithStep(s.rt, stepId, Passed(s.rt.steps[stepId]));
      match Append(rt, log, EventInput(Some(stepId), s.rt.steps[stepId].assignmentId, GatePassed(e), Anonymous), uuid)
      case Refused => Halted(log, EventRefused)
      case Noted(rt', log') =>
        match PromoteFrom(s.def.steps, 0, rt', log', uuid)
        case Stopped(log'') => Halted(log'', EventRefused)
        case Ran(rt'', log'') => CloseTask(s, rt'', log'', uuid)
  }

  function GateText(reason: Option<string>): string {
    if reason.Some? then reason.value else "completion gate failed"
  }

  function SentBack(x: StepRuntime, text: string): StepRuntime {
    x.(status := FixRequired, blocker := Some(Reason(text)))
  }

  function GateFailChange(s: Snapshot, stepId: Id, reason: Option<string>): (c: Change)
    requires s.rt.steps.Keys == StepIds(s.def.steps)
    ensures c.Replace? ==> c.rt.steps.Keys == s.rt.steps.Keys
  {
    if stepId !in s.rt.steps then Refuse(StepNotFound)
    else
      var x := s.rt.steps[stepId];
      var text := GateText(reason);
      if x.status != Verifying then Refuse(NotVerifying)
      else Replace(WithStep(s.rt, stepId, SentBack(x, text)),
                   EventInput(Some(stepId), x.assignmentId, GateFailed(text), Anonymous))
  }

  // ----- all operations on an existing task

  datatype Op =
    | AddStepsOp(additions: seq<StepDef>)
    | TransitionTaskOp(toTask: TaskStatus, why: Option<string>)
    | ReconcileOp
    | PreflightOp(stepId: Id, preflight: SkillPreflight)
    | AssignOp(stepId: Id, executor: Executor, executorId: Option<string>, assignmentId: Id)
    | BindOp(assignmentId: Id, logicalSessionId: string, state: BindingState, bindingId: Id)
    | UpdateBindingOp(bindingId: Id, state: BindingState)
    | TransitionStepOp(stepId: Id, to: StepStatus, why: Option<string>, identity: Identity)
    | ProgressOp(stepId: Id, progress: Option<real>, activity: Option<string>, identity: Identity)
    | ArtifactOp(stepId: Id, logicalName: string, artifactId: Option<Id>, identity: Identity)
    | RequestCompletionOp(stepId: Id, why: Option<string>, identity: Identity)
    | GatePassOp(stepId: Id, evidence: Evidence)
    | GateFailOp(stepId: Id, why: Option<string>)

  datatype Disk = Disk(snap: Snapshot, log: seq<Event>)

  /** One call: the stored snapshot and the file are validated when they are read. */
  ghost function Exec(d: Disk, op: Op, uuid: Uuids): Result {
    var s, log := d.snap, d.log;
    if !SnapshotOk(s) || !Sound(log) then Halted(log, CorruptStore)
    else match op
      case AddStepsOp(additions) => AddSteps(s, log, additions, uuid)
      case ReconcileOp => ReconcileReadiness(s, log, uuid)
      case TransitionStepOp(id, to, why, identity) => TransitionStep(s, log, id, to, why, identity, uuid)
      case GatePassOp(id, evidence) => GatePass(s, log, id, evidence, uuid)
      case _ => Settle(s, log, ChangeOf(s, op), uuid)
  }

  predicate SingleEvent(op: Op) {
    !op.AddStepsOp? && !op.ReconcileOp? && !op.TransitionStepOp? && !op.GatePassOp?
  }

  /** The operations that append exactly one event. */
  function ChangeOf(s: Snapshot, op: Op): (c: Change)
    requires s.rt.steps.Keys == StepIds(s.def.steps) && SingleEvent(op)
    ensures c.Replace? ==> c.rt.steps.Keys == s.rt.steps.Keys
  {
    match op
    case TransitionTaskOp(to, why) => TaskChange(s, to, why)
    case PreflightOp(id, p) => PreflightChange(s, id, p)
    case AssignOp(id, executor, executorId, assignmentId) => AssignChange(s, id, executor, executorId, assignmentId)
    case BindOp(assignmentId, session, state, bindingId) => BindChange(s, assignmentId, session, state, bindingId)
    case UpdateBindingOp(bindingId, state) => BindingChange(s, bindingId, state)
    case ProgressOp(id, p, activity, identity) => ProgressChange(s, id, p, activity, identity)
    case ArtifactOp(id, name, artifactId, identity) => ArtifactChange(s, id, name, artifactId, identity)
    case RequestCompletionOp(id, why, identity) => RequestChange(s, id, why, identity)
    case GateFailOp(id, why) => GateFailChange(s, id, why)
  }

  function After(d: Disk, r: Result): Disk {
    match r
    case Halted(log, _) => Disk(d.snap, log)
    case Wrote(log, snap) => Disk(snap, log)
  }

  // ----- runs

  /** A crash keeps the first `kept` of the events the call appends and never reaches the snapshot. */
  datatype Move =
    | Call(op: Op, uuid: Uuids)
    | Crash(op: Op, uuid: Uuids, kept: nat)

  ghost function Step(d: Disk, m: Move): Disk {
    var r := Exec(d, m.op, m.uuid);
    match m
    case Call(_, _) => After(d, r)
    case Crash(_, _, kept) => Disk(d.snap, if |d.log| + kept <= |r.log| then r.log[..|d.log| + kept] else r.log)
  }

  datatype Birth = Whole | CrashedBeforeAppend | CrashedBeforeWrite

  /** A new task, its creation interrupted or not. */
  ghost function Born(def: Workflow, uuid: Uuids, b: Birth): Disk {
    var s := InitialSnapshot(def);
    match b
    case Whole => After(Disk(s, []), CreateTask(def, uuid))
    case CrashedBeforeAppend => Disk(s, [])
    case CrashedBeforeWrite => Disk(s, CreateTask(def, uuid).log)
  }

  ghost predicate Creatable(def: Workflow) {
    def.revision == 1 && SnapshotOk(InitialSnapshot(def))
  }

  ghost function Run(d: Disk, moves: seq<Move>): Disk {
    if moves == [] then d else Step(Run(d, moves[..|moves|-1]), moves[|moves|-1])
  }
}
