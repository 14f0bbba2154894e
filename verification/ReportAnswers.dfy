/** Which reports are accepted, in terms of the ticket, the report and the stored fields, and what the answer says
    (execution-runtime/reporter.ts). */
module ReportAnswers {
  import opened Wrappers
  import opened Contracts
  import opened EventLedger
  import opened Store
  import opened Engine
  import opened Invariants
  import opened Success
  import opened Recovery
  import opened Guards
  import opened Reporter

  /** The ticket names the present assignment of its step as it was made, and an open session of it, if any. */
  predicate InScope(s: Snapshot, t: Ticket) {
    && (exists a :: a in s.rt.assignments && a.assignmentId == t.assignmentId && a.stepId == t.stepId
                    && a.executor == t.executor && a.attempt == t.attempt)
    && t.stepId in s.rt.steps && s.rt.steps[t.stepId].assignmentId == Some(t.assignmentId)
    && (t.bindingId.Some? ==>
          exists b :: b in s.rt.bindings && b.bindingId == t.bindingId.value && b.assignmentId == t.assignmentId
                      && Some(b.logicalSessionId) == t.logicalSessionId && b.state in {BCreated, BActive, BSuspended})
  }

  lemma ScopeExactly(s: Snapshot, t: Ticket)
    requires DistinctAssignments(s.rt.assignments) && DistinctBindings(s.rt.bindings)
    ensures ScopeRefusal(s, t).None? <==> InScope(s, t)
  {
    if a :| a in s.rt.assignments && a.assignmentId == t.assignmentId { FoundAssignment(s.rt.assignments, a); }
    if t.bindingId.Some? {
      if b :| b in s.rt.bindings && b.bindingId == t.bindingId.value { FoundBinding(s.rt.bindings, b); }
    }
  }

  lemma FoundAssignment(all: seq<Assignment>, a: Assignment)
    requires DistinctAssignments(all) && a in all
    ensures FindAssignment(all, a.assignmentId) == Some(a)
  {
    var i :| 0 <= i < |all| && all[i] == a;
    assert IsAssignment(all, a.assignmentId);
    var found := FindAssignment(all, a.assignmentId).value;
    var j :| 0 <= j < |all| && all[j] == found;
    assert i == j;
  }

  lemma FoundBinding(all: seq<SessionBinding>, b: SessionBinding)
    requires DistinctBindings(all) && b in all
    ensures BindingIndex(all, b.bindingId).Some? && all[BindingIndex(all, b.bindingId).value] == b
  {
    var i :| 0 <= i < |all| && all[i] == b;
    assert BindingIndex(all, b.bindingId).value == i;
  }

  /** Nothing is missing, and a progress is a share. */
  predicate WellFormed(c: Content) {
    match c
    case ProgressReport(p, _) => p.Some? && 0.0 <= p.value <= 1.0
    case ArtifactReport(name, artifactId, path) => name.Some? && (artifactId.Some? || path.Some?)
    case BlockedReport(reason) => reason.Some?
    case HumanReport(reason) => reason.Some?
    case _ => true
  }

  /** The call a report means, on the step of its ticket, under the id and with the mark of the report. */
  predicate Means(t: Ticket, r: Report, op: Op) {
    var identity := Identity(Some("report-" + r.reportId),
                             Some(Mark(r.reportId, r.assignmentId, r.content, t.ticketId, r.sentAt)));
    match r.content
    case SessionReport => op == TransitionStepOp(t.stepId, StepStatus.Running, None, identity)
    case ProgressReport(p, activity) => op == ProgressOp(t.stepId, p, activity, identity)
    case ArtifactReport(name, artifactId, _) =>
      name.Some? && op == ArtifactOp(t.stepId, name.value, artifactId, identity)
    case BlockedReport(reason) => op == TransitionStepOp(t.stepId, StepStatus.Blocked, reason, identity)
    case HumanReport(reason) => op == TransitionStepOp(t.stepId, StepStatus.WaitingHuman, reason, identity)
    case CompletionReport => op == RequestCompletionOp(t.stepId, None, identity)
  }

  lemma CallExactly(t: Ticket, r: Report)
    ensures CallFor(t, r).Some? <==> WellFormed(r.content)
    ensures CallFor(t, r).Some? ==> Means(t, r, CallFor(t, r).value)
  {}

  /** What the executor is to do next is decided by the state of its step. */
  predicate Advises(s: StepStatus, next: NextAction) {
    && (next == WaitForGate <==> s == Verifying) && (next == WaitForHuman <==> s == StepStatus.WaitingHuman)
    && (next == FixIt <==> s == FixRequired)
    && (next == Stop <==>
          s in {StepStatus.Blocked, StepStatus.Failed, Cancelled, Completed, StepStatus.OutcomeUnknown})
  }

  /** An accepted answer, to a first delivery or a repeated one, tells the states of the task and the step as they are
      stored after it. */
  lemma AnswerIsCurrent(d: Disk, t: Ticket, r: Report, uuid: Uuids)
    requires Deliver(d, t, r, uuid).answer.Accepted?
    ensures var a, now := Deliver(d, t, r, uuid).answer, Deliver(d, t, r, uuid).disk.snap;
            && t.stepId in now.rt.steps
            && var x := now.rt.steps[t.stepId];
            && a.taskStatus == now.rt.task.status && a.stepStatus == x.status && a.progress == x.progress
            && a.activity == x.currentActivity && Advises(x.status, a.next)
  {
    hide Exec, SnapshotOk, Sound, ScopeRefusal, CallFor;
  }

  /** A report under a new id is accepted if and only if it is well formed and allowed, its ticket is in scope, its step
      still takes reports, and the call it means may complete; then that call is what it does. */
  lemma ReportExactly(d: Disk, t: Ticket, r: Report, op: Op, uuid: Uuids)
    requires DiskInv(d) && FreshIds(uuid, d.log) && (WellFormed(r.content) ==> Means(t, r, op))
    requires !EventLedger.Recorded(d.log, "report-" + r.reportId) && forall n: nat :: uuid(n) != "report-" + r.reportId
    ensures d.snap.rt.steps.Keys == StepIds(d.snap.def.steps)
    ensures Deliver(d, t, r, uuid).answer.Accepted? <==>
              && t.assignmentId == r.assignmentId && KindOf(r.content) in t.allowed && InScope(d.snap, t)
              && d.snap.rt.steps[t.stepId].status
                 !in {Verifying, Completed, Cancelled, StepStatus.Failed, StepStatus.OutcomeUnknown}
              && WellFormed(r.content) && May(d, op)
    ensures Deliver(d, t, r, uuid).answer.Accepted? ==>
              && Exec(d, op, uuid).Wrote? && !Deliver(d, t, r, uuid).answer.duplicate
              && Deliver(d, t, r, uuid).disk == After(d, Exec(d, op, uuid))
  {
    hide DiskInv, Exec, May, SnapshotOk, Sound, ScopeRefusal, InScope, CallFor, WellFormed, FreshIds;
    DiskReads(d);
    DiskLists(d);
    ScopeExactly(d.snap, t);
    CallExactly(t, r);
    if CallFor(t, r).Some? {
      MeansOne(t, r, CallFor(t, r).value, op);
      NewReport(d.log, t, r, op, uuid);
      CompletesExactly(d, op, uuid);
      if Exec(d, op, uuid).Wrote? && ScopeRefusal(d.snap, t).None? { StepsStay(d, op, uuid, t.stepId); }
    }
  }

  /** A report whose id is in the file changes nothing: it is a duplicate if the recorded one was of the same assignment
      and content and the snapshot has caught up with it, and is refused otherwise. */
  lemma KnownReportExactly(d: Disk, t: Ticket, r: Report, uuid: Uuids, e: Event)
    requires DiskInv(d) && e in d.log && e.eventId == "report-" + r.reportId
    requires t.assignmentId == r.assignmentId && KindOf(r.content) in t.allowed && InScope(d.snap, t)
    ensures Deliver(d, t, r, uuid).disk == d
    ensures var a := Deliver(d, t, r, uuid).answer;
            var same := e.report.Some? && e.report.value.assignmentId == r.assignmentId
                        && e.report.value.content == r.content;
            && (a.Accepted? <==> same && e.sequence <= d.snap.rt.task.lastEventSequence)
            && (a.Accepted? ==> a.duplicate)
            && (!same ==> a == Rejected(ReusedReportId))
            && (same && e.sequence > d.snap.rt.task.lastEventSequence ==> a == Rejected(NeedsRecovery))
  {
    hide DiskInv, Exec, SnapshotOk, Sound, ScopeRefusal, InScope, CallFor;
    DiskReads(d);
    DiskLists(d);
    ScopeExactly(d.snap, t);
    OneEvent(d, e);
  }

  lemma OneEvent(d: Disk, e: Event)
    requires DiskInv(d) && e in d.log
    ensures Find(d.log, e.eventId) == Some(e)
  {
    hide SnapInv, SequencesOk;
    var k :| 0 <= k < |d.log| && d.log[k] == e;
    assert EventLedger.Recorded(d.log, e.eventId);
  }

  lemma DiskLists(d: Disk)
    requires DiskInv(d)
    ensures DistinctAssignments(d.snap.rt.assignments) && DistinctBindings(d.snap.rt.bindings)
    ensures d.snap.rt.steps.Keys == StepIds(d.snap.def.steps)
  {}

  lemma MeansOne(t: Ticket, r: Report, a: Op, b: Op)
    requires Means(t, r, a) && Means(t, r, b)
    ensures a == b
  {}

  lemma NewReport(log: seq<Event>, t: Ticket, r: Report, op: Op, uuid: Uuids)
    requires FreshIds(uuid, log) && Means(t, r, op)
    requires !EventLedger.Recorded(log, "report-" + r.reportId) && forall n: nat :: uuid(n) != "report-" + r.reportId
    ensures NewIds(log, op, uuid)
  {
    hide FreshIds;
  }

  lemma StepsStay(d: Disk, op: Op, uuid: Uuids, id: Id)
    requires DiskInv(d) && Exec(d, op, uuid).Wrote? && id in d.snap.rt.steps
    ensures id in Exec(d, op, uuid).snap.rt.steps
  {
    hide DiskInv, Exec, Left;
    CallLeaves(d, op, uuid);
  }
}
