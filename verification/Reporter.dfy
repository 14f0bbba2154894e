/** Reports from executors (execution-runtime/reporter.ts). A ticket is taken as verified and unexpired; the check of
    its scope and the call that follows are one step. */
module Reporter {
  import opened Wrappers
  import opened Contracts
  import opened EventLedger
  import opened Store
  import opened Engine
  import opened RuntimeMethods

  datatype Kind = SessionStarted | ProgressUpdate | ArtifactProduction | BlockedNotice | HumanNotice | CompletionNotice

  function KindOf(c: Content): Kind {
    match c
    case SessionReport => SessionStarted
    case ProgressReport(_, _) => ProgressUpdate
    case ArtifactReport(_, _, _) => ArtifactProduction
    case BlockedReport(_) => BlockedNotice
    case HumanReport(_) => HumanNotice
    case CompletionReport => CompletionNotice
  }

  datatype Ticket = Ticket(
    ticketId: Id, stepId: Id, assignmentId: Id, executor: Executor, attempt: nat,
    bindingId: Option<Id>, logicalSessionId: Option<string>, allowed: set<Kind>)

  datatype Report = Report(reportId: string, assignmentId: Id, content: Content, sentAt: Option<string>)

  datatype NextAction = WaitForGate | WaitForHuman | FixIt | Stop | Continue

  datatype ReportRefusal =
    | Unreadable | AssignmentMismatch | NotAllowed | UnknownAssignment | ScopeChanged | StaleAssignment | BindingGone
    | ReusedReportId | NeedsRecovery | NotAccepting | InvalidContent | Failed(why: Refusal)

  datatype Answer =
    | Rejected(refusal: ReportRefusal)
    | Accepted(duplicate: bool, taskStatus: TaskStatus, stepStatus: StepStatus, progress: real,
               activity: Option<string>, next: NextAction)

  function NextActionFor(s: StepStatus): NextAction {
    match s
    case Verifying => WaitForGate
    case WaitingHuman => WaitForHuman
    case FixRequired => FixIt
    case Blocked => Stop
    case Failed => Stop
    case Cancelled => Stop
    case Completed => Stop
    case OutcomeUnknown => Stop
    case _ => Continue
  }

  function ResultFor(s: Snapshot, stepId: Id, duplicate: bool): Answer
    requires stepId in s.rt.steps
  {
    var x := s.rt.steps[stepId];
    Accepted(duplicate, s.rt.task.status, x.status, x.progress, x.currentActivity, NextActionFor(x.status))
  }

  function EventIdOf(reportId: string): Id { "report-" + reportId }

  function MarkOf(t: Ticket, r: Report): Mark {
    Mark(r.reportId, r.assignmentId, r.content, t.ticketId, r.sentAt)
  }

  /** The recorded event carries the same hash and type. */
  predicate SameReport(e: Event, r: Report) {
    e.report.Some? && e.report.value.assignmentId == r.assignmentId && e.report.value.content == r.content
  }

  predicate BindingUsable(b: SessionBinding, t: Ticket) {
    && b.assignmentId == t.assignmentId && Some(b.logicalSessionId) == t.logicalSessionId && b.state != BClosed
    && b.state != BLost
  }

  /** Whether the ticket still belongs to the current assignment of its step. */
  function ScopeRefusal(s: Snapshot, t: Ticket): (refusal: Option<ReportRefusal>)
    ensures refusal.None? ==> t.stepId in s.rt.steps && s.rt.steps[t.stepId].assignmentId == Some(t.assignmentId)
  {
    var found := FindAssignment(s.rt.assignments, t.assignmentId);
    if found.None? then Some(UnknownAssignment)
    else
      var a := found.value;
      if a.stepId != t.stepId || a.executor != t.executor || a.attempt != t.attempt then Some(ScopeChanged)
      else if t.stepId !in s.rt.steps then Some(UnknownAssignment)
      else if s.rt.steps[t.stepId].assignmentId != Some(t.assignmentId) then Some(StaleAssignment)
      else if t.bindingId.None? then None
      else
        var k := BindingIndex(s.rt.bindings, t.bindingId.value);
        if k.None? || !BindingUsable(s.rt.bindings[k.value], t) then Some(BindingGone) else None
  }

  /** The runtime call a report stands for, unless its content is malformed. */
  function CallFor(t: Ticket, r: Report): Option<Op> {
    var identity := Identity(Some(EventIdOf(r.reportId)), Some(MarkOf(t, r)));
    match r.content
    case SessionReport => Some(TransitionStepOp(t.stepId, Running, None, identity))
    case ProgressReport(p, activity) =>
      if p.None? || p.value < 0.0 || p.value > 1.0 then None else Some(ProgressOp(t.stepId, p, activity, identity))
    case ArtifactReport(name, artifactId, path) =>
      if name.None? || (artifactId.None? && path.None?) then None
      else Some(ArtifactOp(t.stepId, name.value, artifactId, identity))
    case BlockedReport(reason) =>
      if reason.None? then None else Some(TransitionStepOp(t.stepId, Blocked, reason, identity))
    case HumanReport(reason) =>
      if reason.None? then None else Some(TransitionStepOp(t.stepId, WaitingHuman, reason, identity))
    case CompletionReport => Some(RequestCompletionOp(t.stepId, None, identity))
  }

  datatype Delivery = Delivery(answer: Answer, disk: Disk)

  ghost function Deliver(d: Disk, t: Ticket, r: Report, uuid: Uuids): Delivery {
    if !SnapshotOk(d.snap) || !Sound(d.log) then Delivery(Rejected(Unreadable), d)
    else if t.assignmentId != r.assignmentId then Delivery(Rejected(AssignmentMismatch), d)
    else if KindOf(r.content) !in t.allowed then Delivery(Rejected(NotAllowed), d)
    else
      var refusal := ScopeRefusal(d.snap, t);
      if refusal.Some? then Delivery(Rejected(refusal.value), d)
      else
        var existing := Find(d.log, EventIdOf(r.reportId));
        if existing.Some? then
          if !SameReport(existing.value, r) then Delivery(Rejected(ReusedReportId), d)
          else if d.snap.rt.task.lastEventSequence < existing.value.sequence then Delivery(Rejected(NeedsRecovery), d)
          else Delivery(ResultFor(d.snap, t.stepId, true), d)
        else if d.snap.rt.steps[t.stepId].status in {Verifying, Completed, Cancelled, StepStatus.Failed, OutcomeUnknown}
        then Delivery(Rejected(NotAccepting), d)
        else
          var op := CallFor(t, r);
          if op.None? then Delivery(Rejected(InvalidContent), d)
          else
            var result := Exec(d, op.value, uuid);
            var answer := match result
              case Halted(_, why) => Rejected(ReportRefusal.Failed(why))
              case Wrote(_, snap) =>
                if t.stepId in snap.rt.steps then ResultFor(snap, t.stepId, false) else Rejected(Unreadable);
            Delivery(answer, After(d, result))
  }

  // ----- the reporter, on top of the runtime

  class ExecutionReporter {
    const runtime: ExecutionRuntime

    constructor (runtime: ExecutionRuntime)
      ensures this.runtime == runtime
    {
      this.runtime := runtime;
    }

    method Report(t: Ticket, r: Report, uuid: Uuids) returns (answer: Answer)
      modifies runtime.store`snapshot, runtime.store.events
      ensures Delivery(answer, runtime.OnDisk()) == Deliver(old(runtime.OnDisk()), t, r, uuid)
    {
      hide SnapshotOk, Sound, Exec, ScopeRefusal;
      var loaded := runtime.store.LoadSnapshot();
      if loaded.None? { return Rejected(Unreadable); }
      var log := runtime.store.events.Read();
      if log.None? { return Rejected(Unreadable); }
      if t.assignmentId != r.assignmentId { return Rejected(AssignmentMismatch); }
      if KindOf(r.content) !in t.allowed { return Rejected(NotAllowed); }
      var s := loaded.value;
      var refusal := ScopeRefusal(s, t);
      if refusal.Some? { return Rejected(refusal.value); }
      var existing := Find(log.value, EventIdOf(r.reportId));
      if existing.Some? {
        if !SameReport(existing.value, r) { return Rejected(ReusedReportId); }
        if s.rt.task.lastEventSequence < existing.value.sequence { return Rejected(NeedsRecovery); }
        return ResultFor(s, t.stepId, true);
      }
      if s.rt.steps[t.stepId].status in {Verifying, Completed, Cancelled, StepStatus.Failed, OutcomeUnknown} {
        return Rejected(NotAccepting);
      }
      var op := CallFor(t, r);
      if op.None? { return Rejected(InvalidContent); }
      var why := Forward(op.value, uuid);
      if why.Some? { return Rejected(ReportRefusal.Failed(why.value)); }
      if t.stepId !in runtime.store.snapshot.rt.steps { return Rejected(Unreadable); }
      answer := ResultFor(runtime.store.snapshot, t.stepId, false);
    }

    method Forward(op: Op, uuid: Uuids) returns (why: Option<Refusal>)
      requires op.TransitionStepOp? || op.ProgressOp? || op.ArtifactOp? || op.RequestCompletionOp?
      requires Sound(runtime.store.events.lines) && SnapshotOk(runtime.store.snapshot)
      modifies runtime.store`snapshot, runtime.store.events
      ensures Did(old(runtime.OnDisk()), Exec(old(runtime.OnDisk()), op, uuid), runtime.OnDisk(), why)
    {
      hide SnapshotOk, Sound, Exec;
      match op
      case TransitionStepOp(id, to, reason, identity) => why := runtime.TransitionStep(id, to, reason, identity, uuid);
      case ProgressOp(id, p, activity, identity) => why := runtime.RecordProgress(id, p, activity, identity, uuid);
      case ArtifactOp(id, name, artifactId, identity) =>
        why := runtime.RecordArtifact(id, name, artifactId, identity, uuid);
      case RequestCompletionOp(id, note, identity) => why := runtime.RequestCompletion(id, note, identity, uuid);
    }
  }
}
