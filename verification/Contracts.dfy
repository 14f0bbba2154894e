/** Records of the workflow engine (execution-runtime/contracts.ts).
    One task is modelled at a time, so the task identifier that every record repeats is dropped,
    and so are timestamps. Optional text is already trimmed, the empty text being `None`. */
module Contracts {
  import opened Wrappers

  datatype Executor =
    GptWeb | GeminiWeb | Codex | Claude | Antigravity | Zero3 | RemoteCompute | Human | Auto

  datatype TaskStatus =
    TDraft | TReady | TRunning | TWaitingHuman | TBlocked | TOutcomeUnknown | TCompleted | TCancelled | TFailed

  datatype StepStatus =
    Pending | WaitingDependency | Ready | Dispatching | Running | WaitingReport | Verifying | FixRequired
  | WaitingHuman | Blocked | Failed | Completed | Cancelled | OutcomeUnknown

  datatype BindingState = BCreated | BActive | BSuspended | BClosed | BLost

  datatype ExpectedOutput =
    ExpectedOutput(logicalName: string, required: bool, minCount: Option<nat>, maxCount: Option<nat>)

  datatype StepDef = StepDef(
    stepId: Id,
    executor: Executor,
    dependsOn: seq<Id>,
    requiredSkills: seq<string>,
    optionalSkills: seq<string>,
    expectedOutputs: seq<ExpectedOutput>,
    completionGate: seq<string>,
    maxAttempts: int)

  /** A task definition together with its ordered steps. */
  datatype Workflow = Workflow(revision: int, maxParallelSteps: int, steps: seq<StepDef>)

  datatype PreflightState = NotRequired | SkillsReady | SkillsBlocked

  datatype SkillPreflight = SkillPreflight(
    state: PreflightState,
    executor: Option<Executor>,
    requiredSkills: seq<string>,
    optionalSkills: seq<string>,
    missingRequiredSkills: seq<string>)

  /** The text shown on a stuck step; the skill blocker is the one that starts with "Missing required Skills:". */
  datatype Blocker = MissingSkills(skills: seq<string>) | Reason(text: string)

  datatype StepRuntime = StepRuntime(
    status: StepStatus,
    skillPreflight: Option<SkillPreflight>,
    attempt: nat,
    assignmentId: Option<Id>,
    progress: real,
    currentActivity: Option<string>,
    blocker: Option<Blocker>,
    lastEventSequence: nat)

  datatype TaskRuntime = TaskRuntime(
    status: TaskStatus,
    progress: real,
    activeStepIds: seq<Id>,
    blockers: seq<string>,
    lastEventSequence: nat)

  datatype Assignment = Assignment(
    assignmentId: Id, stepId: Id, attempt: nat, executor: Executor, executorId: Option<string>)

  datatype SessionBinding = SessionBinding(
    bindingId: Id, stepId: Id, assignmentId: Id, executor: Executor, logicalSessionId: string, state: BindingState)

  /** The store rejects two step states with one id (store.ts:53-55), so the array of step states is a map. */
  datatype Runtime = Runtime(
    task: TaskRuntime,
    steps: map<Id, StepRuntime>,
    assignments: seq<Assignment>,
    bindings: seq<SessionBinding>)

  datatype Snapshot = Snapshot(def: Workflow, rt: Runtime)

  datatype Evidence = Evidence(humanReview: bool, assignmentId: Option<Id>, note: Option<string>, detail: string)

  /** The type of an event together with its payload. */
  datatype Body =
    | TaskCreated(stepIds: seq<Id>)
    | TaskStateChanged(fromTask: TaskStatus, toTask: TaskStatus, why: Option<string>)
    | TaskCompleted(completedStepIds: seq<Id>)
    | StepAdded(step: StepDef)
    | StepStateChanged(fromStep: StepStatus, toStep: StepStatus, reason: Option<string>)
    | AssignmentCreated(executor: Executor, executorId: Option<string>, attempt: nat)
    | SkillPreflightRecorded(preflight: SkillPreflight)
    | SessionBound(bindingId: Id, logicalSessionId: string)
    | SessionStateChanged(boundId: Id, fromState: BindingState, toState: BindingState)
    | ProgressUpdated(progress: real, activity: Option<string>, fromStatus: StepStatus)
    | ArtifactProduced(logicalName: string, artifactId: Option<Id>)
    | CompletionRequested(wasStatus: StepStatus, note: Option<string>)
    | GatePassed(evidence: Evidence)
    | GateFailed(gateReason: string)

  /** The payload of a report; `None` is a field that is missing or malformed. */
  datatype Content =
    | SessionReport
    | ProgressReport(value: Option<real>, activity: Option<string>)
    | ArtifactReport(logicalName: Option<string>, artifactId: Option<Id>, pathOrUri: Option<string>)
    | BlockedReport(reason: Option<string>)
    | HumanReport(reason: Option<string>)
    | CompletionReport

  /** The fields a reporter adds to the payload of an event (reporter.ts:244-253), none of which is a field of the
      payload itself. The hash of a report is injective, so the hashed assignment and content stand for it. */
  datatype Mark = Mark(reportId: string, assignmentId: Id, content: Content, ticketId: Id, sentAt: Option<string>)

  datatype Event = Event(
    eventId: Id, sequence: nat, stepId: Option<Id>, assignmentId: Option<Id>, body: Body, report: Option<Mark>)

  function StepIds(steps: seq<StepDef>): set<Id> {
    set s | s in steps :: s.stepId
  }

  predicate UniqueIds(steps: seq<StepDef>) {
    forall i, j :: 0 <= i < j < |steps| ==> steps[i].stepId != steps[j].stepId
  }

  /** The first definition with the given id, as `find` returns it. */
  function DefOf(steps: seq<StepDef>, id: Id): (s: StepDef)
    requires id in StepIds(steps)
    ensures s in steps && s.stepId == id
  {
    if steps[0].stepId == id then steps[0]
    else
      assert StepIds(steps) == {steps[0].stepId} + StepIds(steps[1..]) by {
        assert steps == [steps[0]] + steps[1..];
      }
      DefOf(steps[1..], id)
  }

  lemma DefOfIndex(steps: seq<StepDef>, i: nat)
    requires UniqueIds(steps) && i < |steps|
    ensures steps[i].stepId in StepIds(steps) && DefOf(steps, steps[i].stepId) == steps[i]
  {
    var s := DefOf(steps, steps[i].stepId);
    var j :| 0 <= j < |steps| && steps[j] == s;
    if j < i { assert steps[j].stepId != steps[i].stepId; }
    if i < j { assert steps[i].stepId != steps[j].stepId; }
  }
}
