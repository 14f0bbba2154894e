/** What the reporter promises over runs: a repeated report changes nothing, a superseded assignment never reports
    again. */
module Reports {
  import opened Wrappers
  import opened Contracts
  import opened Scheduler
  import opened EventLedger
  import opened Store
  import opened Engine
  import opened Invariants
  import opened Operations
  import opened Runs
  import opened Effects
  import opened History
  import opened Capacity
  import opened Success
  import opened Replay
  import opened Recovery
  import opened Divergence
  import opened Reporter

  /** The operations a report can stand for. */
  predicate Reported(op: Op) {
    (op.TransitionStepOp? && op.to in {Running, Blocked, WaitingHuman}) || op.ProgressOp?
    || op.ArtifactOp? || op.RequestCompletionOp?
  }

  lemma CallIsReported(t: Ticket, r: Report)
    ensures var op := CallFor(t, r); op.Some? ==>
              Reported(op.value) && IdentityOf(op.value) == Identity(Some(EventIdOf(r.reportId)), Some(MarkOf(t, r)))
              && Target(op.value) in {None, Some(t.stepId)}
  {}

  // ----- a completed report

  /** The call recorded its event under its own id and left assignments and bindings alone. */
  ghost predicate Took(d: Disk, op: Op, r: Result) {
    && r.Wrote? && |r.log| > |d.log| && d.log <= r.log
    && IdentityOf(op).eventId == Some(r.log[|d.log|].eventId) && r.log[|d.log|].report == IdentityOf(op).report
    && r.snap.rt.task.lastEventSequence == |r.log|
    && r.snap.rt.bindings == d.snap.rt.bindings && r.snap.rt.assignments == d.snap.rt.assignments
  }

  lemma AppendTakes(rt: Runtime, log: seq<Event>, input: EventInput, uuid: Uuids)
    requires !Replayed(log, input)
    ensures var n := Append(rt, log, input, uuid); n.Noted? ==>
              && n.log == log + [NewEvent(log, input, uuid)] && n.rt.task.lastEventSequence == |n.log|
              && n.rt.bindings == rt.bindings && n.rt.assignments == rt.assignments && n.rt.steps.Keys == rt.steps.Keys
  {}

  lemma SettleTakes(d: Disk, op: Op, uuid: Uuids)
    requires DiskInv(d) && SingleEvent(op) && Reported(op) && IdentityOf(op).eventId.Some? && !Reuses(d.log, op)
    requires d.snap.rt.steps.Keys == StepIds(d.snap.def.steps)
    ensures var r := Settle(d.snap, d.log, ChangeOf(d.snap, op), uuid); r.Wrote? ==> Took(d, op, r)
  {
    hide DiskInv, ChangeOf, Append, Reuses, SnapshotOk, RefreshDerived, StepIds;
    var c := ChangeOf(d.snap, op);
    if c.Replace? {
      ReplayedOrReused(d.snap, d.log, op);
      InputIdentity(d.snap, op);
      ReportedKeepsBooks(d.snap, op);
      AppendTakes(c.rt, d.log, c.input, uuid);
      var n := Append(c.rt, d.log, c.input, uuid);
      if n.Noted? { RefreshedRest(d.snap.def, n.rt); }
    }
  }

  lemma ReportedKeepsBooks(s: Snapshot, op: Op)
    requires s.rt.steps.Keys == StepIds(s.def.steps) && SingleEvent(op) && Reported(op)
    ensures var c := ChangeOf(s, op); c.Replace? ==>
              && c.rt.assignments == s.rt.assignments && c.rt.bindings == s.rt.bindings
              && c.rt.steps.Keys == s.rt.steps.Keys
  {
    hide ActiveCount, AtLeast;
  }

  lemma CancelTakes(s: Snapshot, rt: Runtime, log: seq<Event>, uuid: Uuids)
    requires StepIds(s.def.steps) <= rt.steps.Keys && rt.task.lastEventSequence == |log|
    ensures var r := CancelWhenClosed(s, rt, log, uuid); r.Wrote? ==>
              && log <= r.log && r.snap.rt.task.lastEventSequence == |r.log|
              && r.snap.rt.bindings == rt.bindings && r.snap.rt.assignments == rt.assignments
  {
    hide SnapshotOk, AllClosed, SomeCancelled, Append;
    if rt.task.status != TCancelled && SomeCancelled(rt.steps) && AllClosed(rt.steps) {
      AppendTakes(rt.(task := rt.task.(status := TCancelled)), log,
                  EventInput(None, None, TaskStateChanged(rt.task.status, TCancelled, Some("all_steps_terminal")),
                             Anonymous), uuid);
    }
  }

  lemma TransitionTakes(d: Disk, op: Op, uuid: Uuids)
    requires DiskInv(d) && op.TransitionStepOp? && op.to !in {Completed, Verifying} && op.identity.eventId.Some?
    requires !Reuses(d.log, op)
    requires d.snap.rt.steps.Keys == StepIds(d.snap.def.steps) && TransitionRefusal(d.snap, op.stepId, op.to).None?
    ensures var r := TransitionStep(d.snap, d.log, op.stepId, op.to, op.why, op.identity, uuid);
            r.Wrote? ==> Took(d, op, r)
  {
    hide DiskInv, Append, Reuses, SnapshotOk, RefreshDerived, StepIds, CancelWhenClosed, Transitioned,
      TransitionRefusal, Replayed, EventLedger.Recorded;
    TransitionKnown(d.snap, op.stepId, op.to);
    var input := TransitionInput(d.snap, op.stepId, op.to, op.why, op.identity);
    NotReplayed(d.log, op, input);
    var rt := WithStep(d.snap.rt, op.stepId, Transitioned(d.snap.rt.steps[op.stepId], op.to, op.why));
    AppendTakes(rt, d.log, input, uuid);
    var n := Append(rt, d.log, input, uuid);
    if n.Noted? {
      RefreshedRest(d.snap.def, n.rt);
      CancelTakes(d.snap, RefreshDerived(d.snap.def, n.rt), n.log, uuid);
    }
  }

  lemma CallTakes(d: Disk, op: Op, uuid: Uuids)
    requires DiskInv(d) && Reported(op) && IdentityOf(op).eventId.Some? && !Reuses(d.log, op)
    requires Exec(d, op, uuid).Wrote?
    ensures Took(d, op, Exec(d, op, uuid))
  {
    hide SnapInv, Reuses, SnapshotOk, Sound, Settle, ChangeOf, TransitionStep, GatePass, AddSteps, ReconcileReadiness,
      Took;
    DiskReads(d);
    if op.TransitionStepOp? {
      WroteTransition(d, op, uuid);
      TransitionTakes(d, op, uuid);
    } else {
      SettleTakes(d, op, uuid);
    }
  }

  // ----- repeated reports

  lemma AcceptedCall(d: Disk, t: Ticket, r: Report, uuid: Uuids)
    requires Deliver(d, t, r, uuid).answer.Accepted? && !Deliver(d, t, r, uuid).answer.duplicate
    ensures CallFor(t, r).Some? && t.assignmentId == r.assignmentId && KindOf(r.content) in t.allowed
    ensures ScopeRefusal(d.snap, t).None?
    ensures var op := CallFor(t, r).value; var res := Exec(d, op, uuid);
            && res.Wrote? && t.stepId in res.snap.rt.steps && !EventLedger.Recorded(d.log, EventIdOf(r.reportId))
            && Deliver(d, t, r, uuid) == Delivery(ResultFor(res.snap, t.stepId, false), Disk(res.snap, res.log))
  {
    hide Exec, SnapshotOk, Sound, ScopeRefusal, CallFor;
  }

  lemma ScopeKept(s: Snapshot, now: Snapshot, t: Ticket)
    requires ScopeRefusal(s, t).None? && now.rt.assignments == s.rt.assignments && now.rt.bindings == s.rt.bindings
    requires t.stepId in now.rt.steps && now.rt.steps[t.stepId].assignmentId == s.rt.steps[t.stepId].assignmentId
    ensures ScopeRefusal(now, t).None?
  {}

  lemma AssignmentKept(s: Snapshot, op: Op, now: Snapshot, id: Id)
    requires s.rt.steps.Keys == StepIds(s.def.steps) && Reported(op) && Effect(s, op, now) && id in s.rt.steps
    ensures id in now.rt.steps && now.rt.steps[id].assignmentId == s.rt.steps[id].assignmentId
  {
    assert Like(NewStep(s, op, id), now.rt.steps[id]);
  }

  lemma FoundAgain(d: Disk, op: Op, r: Result)
    requires Took(d, op, r) && Sound(r.log) && IdentityOf(op).eventId.Some?
    ensures Find(r.log, IdentityOf(op).eventId.value) == Some(r.log[|d.log|])
  {
    assert r.log[|d.log|] in r.log;
  }

  /** A report that was accepted is acknowledged when it is delivered again: same result, no change, no event. */
  lemma AcceptedReportRepeats(d: Disk, t: Ticket, r: Report, uuid: Uuids, again: Uuids)
    requires DiskInv(d) && Deliver(d, t, r, uuid).answer.Accepted? && !Deliver(d, t, r, uuid).answer.duplicate
    ensures var first := Deliver(d, t, r, uuid);
            Deliver(first.disk, t, r, again) == Delivery(first.answer.(duplicate := true), first.disk)
  {
    hide SnapInv, Exec, SnapshotOk, Sound, SequencesOk, ScopeRefusal, CallFor, Effect, IdentityOf, Reuses, Reported,
      Deliver;
    AcceptedCall(d, t, r, uuid);
    CallIsReported(t, r);
    var op := CallFor(t, r).value;
    NotReused(d.log, op, r, t);
    CallTakes(d, op, uuid);
    ExecEffect(d, op, uuid);
    ExecGood(d, op, uuid);
    var res := Exec(d, op, uuid);
    DiskReads(Disk(res.snap, res.log));
    AssignmentKept(d.snap, op, res.snap, t.stepId);
    ScopeKept(d.snap, res.snap, t);
    FoundAgain(d, op, res);
    Numbered'(res.log, |d.log|);
    Acknowledged(Disk(res.snap, res.log), t, r, again, res.log[|d.log|]);
  }

  lemma Numbered'(log: seq<Event>, k: nat)
    requires Sound(log) && k < |log|
    ensures log[k].sequence == k + 1
  {}

  lemma NotReused(log: seq<Event>, op: Op, r: Report, t: Ticket)
    requires IdentityOf(op).eventId == Some(EventIdOf(r.reportId)) && !EventLedger.Recorded(log, EventIdOf(r.reportId))
    ensures !Reuses(log, op)
  {
    hide EventLedger.Recorded;
  }

  lemma Acknowledged(d: Disk, t: Ticket, r: Report, uuid: Uuids, e: Event)
    requires SnapshotOk(d.snap) && Sound(d.log) && t.assignmentId == r.assignmentId && KindOf(r.content) in t.allowed
    requires ScopeRefusal(d.snap, t).None? && Find(d.log, EventIdOf(r.reportId)) == Some(e)
    requires e.report == Some(MarkOf(t, r))
    requires e.sequence <= d.snap.rt.task.lastEventSequence
    ensures Deliver(d, t, r, uuid) == Delivery(ResultFor(d.snap, t.stepId, true), d)
  {
    hide Exec, SnapshotOk, Sound, ScopeRefusal, CallFor;
  }

  // ----- superseded assignments

  lemma {:induction false} OwnGrow(a: seq<Assignment>, b: seq<Assignment>, id: Id)
    requires a <= b
    ensures AssignmentsOf(a, id) <= AssignmentsOf(b, id)
    ensures AssignmentsOf(b, id) == AssignmentsOf(a, id)
            || exists j :: |a| <= j < |b| && AssignmentsOf(b, id)[|AssignmentsOf(b, id)|-1] == b[j]
  {
    if |b| > |a| {
      var c := b[..|b|-1];
      OwnGrow(a, c, id);
      if b[|b|-1].stepId != id && AssignmentsOf(c, id) != AssignmentsOf(a, id) {
        var j :| |a| <= j < |c| && AssignmentsOf(c, id)[|AssignmentsOf(c, id)|-1] == c[j];
        assert b[j] == c[j];
      }
    } else {
      assert a == b;
    }
  }

  /** The assignment exists, and its step has another one by now. */
  predicate Superseded(s: Snapshot, assignmentId: Id) {
    exists k :: 0 <= k < |s.rt.assignments| && s.rt.assignments[k].assignmentId == assignmentId
      && s.rt.assignments[k].stepId in s.rt.steps
      && s.rt.steps[s.rt.assignments[k].stepId].assignmentId != Some(assignmentId)
  }

  lemma SupersededLater(s: Snapshot, now: Snapshot, assignmentId: Id, k: nat)
    requires k < |s.rt.assignments| && s.rt.assignments[k].assignmentId == assignmentId
    requires var id := s.rt.assignments[k].stepId;
             && id in s.rt.steps && s.rt.steps[id].assignmentId != Some(assignmentId) && id in now.rt.steps
             && Books(s.rt.assignments, id, s.rt.steps[id]) && Books(now.rt.assignments, id, now.rt.steps[id])
    requires s.rt.assignments <= now.rt.assignments && DistinctAssignments(now.rt.assignments)
    ensures now.rt.assignments[k].assignmentId == assignmentId
    ensures now.rt.assignments[k].stepId == s.rt.assignments[k].stepId
    ensures now.rt.steps[s.rt.assignments[k].stepId].assignmentId != Some(assignmentId)
  {
    var id := s.rt.assignments[k].stepId;
    OwnGrow(s.rt.assignments, now.rt.assignments, id);
    var own := AssignmentsOf(now.rt.assignments, id);
    if own != AssignmentsOf(s.rt.assignments, id) {
      var j :| |s.rt.assignments| <= j < |now.rt.assignments| && own[|own|-1] == now.rt.assignments[j];
      assert now.rt.assignments[k].assignmentId != now.rt.assignments[j].assignmentId;
    }
  }

  lemma StaysSuperseded(d: Disk, moves: seq<Move>, assignmentId: Id)
    requires DiskInv(d) && Superseded(d.snap, assignmentId)
    ensures Superseded(Run(d, moves).snap, assignmentId) && DiskInv(Run(d, moves))
  {
    hide SnapshotOk, DerivedOk, StepsOk, OneOpenBinding, ClosedOk, Run, Sound, SequencesOk, Books;
    var k :| 0 <= k < |d.snap.rt.assignments| && d.snap.rt.assignments[k].assignmentId == assignmentId
      && d.snap.rt.assignments[k].stepId in d.snap.rt.steps
      && d.snap.rt.steps[d.snap.rt.assignments[k].stepId].assignmentId != Some(assignmentId);
    RunOnlyMovesOn(d, moves);
    RunInv(d, moves);
    var now := Run(d, moves);
    DiskAssignments(now);
    var id := d.snap.rt.assignments[k].stepId;
    assert Books(d.snap.rt.assignments, id, d.snap.rt.steps[id]);
    assert Books(now.snap.rt.assignments, id, now.snap.rt.steps[id]);
    SupersededLater(d.snap, now.snap, assignmentId, k);
  }

  lemma DiskAssignments(d: Disk)
    requires DiskInv(d)
    ensures DistinctAssignments(d.snap.rt.assignments)
  {}

  /** Once a step has a newer assignment, no report under a ticket of the old one is ever accepted or changes anything,
      in whatever run follows. */
  lemma StaleForever(d: Disk, moves: seq<Move>, t: Ticket, r: Report, uuid: Uuids)
    requires DiskInv(d) && Superseded(d.snap, t.assignmentId)
    ensures var now := Run(d, moves); Deliver(now, t, r, uuid).answer.Rejected? && Deliver(now, t, r, uuid).disk == now
  {
    hide DiskInv, Run, Exec, SnapshotOk, Sound, Superseded, ScopeRefusal, CallFor;
    StaysSuperseded(d, moves, t.assignmentId);
    DiskAssignments(Run(d, moves));
    OutOfScope(Run(d, moves).snap, t);
  }

  lemma OutOfScope(s: Snapshot, t: Ticket)
    requires Superseded(s, t.assignmentId) && DistinctAssignments(s.rt.assignments)
    ensures ScopeRefusal(s, t).Some?
  {
    var a := FindAssignment(s.rt.assignments, t.assignmentId);
    var k :| 0 <= k < |s.rt.assignments| && s.rt.assignments[k].assignmentId == t.assignmentId
      && s.rt.assignments[k].stepId in s.rt.steps
      && s.rt.steps[s.rt.assignments[k].stepId].assignmentId != Some(t.assignmentId);
    assert IsAssignment(s.rt.assignments, t.assignmentId);
    var j :| 0 <= j < |s.rt.assignments| && s.rt.assignments[j] == a.value;
    assert j == k;
  }

  // ----- what a report can and cannot do

  /** A delivery either changes nothing but the file, or makes one of the four calls on the step of the ticket. */
  lemma DeliveryIsCall(d: Disk, t: Ticket, r: Report, uuid: Uuids)
    ensures var now := Deliver(d, t, r, uuid).disk;
            || now.snap == d.snap
            || (CallFor(t, r).Some? && ScopeRefusal(d.snap, t).None? && Exec(d, CallFor(t, r).value, uuid).Wrote?
                && now == After(d, Exec(d, CallFor(t, r).value, uuid)))
  {
    hide Exec, SnapshotOk, Sound, ScopeRefusal, CallFor;
  }

  /** No report completes a step, and none makes an unassigned step active: the gap in progress reports is closed to
      reporters, whose step is assigned. */
  lemma ReportsStayInBounds(d: Disk, t: Ticket, r: Report, uuid: Uuids)
    requires DiskInv(d)
    ensures var now := Deliver(d, t, r, uuid).disk;
            && CompletedIds(now.snap.rt.steps) == CompletedIds(d.snap.rt.steps)
            && (ActiveAssigned(d.snap) ==> ActiveAssigned(now.snap))
  {
    hide DiskInv, Exec, ActiveAssigned, CompletedIds, ScopeRefusal, CallFor, Deliver;
    DeliveryIsCall(d, t, r, uuid);
    CallIsReported(t, r);
    if CallFor(t, r).Some? && ScopeRefusal(d.snap, t).None? && Exec(d, CallFor(t, r).value, uuid).Wrote? {
      var op := CallFor(t, r).value;
      CallForward(d, op, uuid);
      NothingCompleted(op, CompletedIds(d.snap.rt.steps));
      AssignedTicket(d.snap, t, op);
      if ActiveAssigned(d.snap) { AssignedKeptUnlessGap(d, op, uuid); }
    }
  }

  lemma NothingCompleted(op: Op, s: set<Id>)
    requires Reported(op)
    ensures s + Completes(op) == s
  {}

  lemma AssignedTicket(s: Snapshot, t: Ticket, op: Op)
    requires ScopeRefusal(s, t).None? && Target(op) in {None, Some(t.stepId)}
    ensures Gap(s, op) ==> op.ProgressOp? && op.stepId == t.stepId && s.rt.steps[t.stepId].assignmentId.Some?
  {}

  // ----- a lost report

  lemma Refused(d: Disk, t: Ticket, r: Report, uuid: Uuids, e: Event)
    requires SnapshotOk(d.snap) && Sound(d.log) && t.assignmentId == r.assignmentId && KindOf(r.content) in t.allowed
    requires ScopeRefusal(d.snap, t).None? && Find(d.log, EventIdOf(r.reportId)) == Some(e)
    requires e.report == Some(MarkOf(t, r))
    requires e.sequence > d.snap.rt.task.lastEventSequence
    ensures Deliver(d, t, r, uuid) == Delivery(Rejected(NeedsRecovery), d)
  {
    hide Exec, SnapshotOk, Sound, ScopeRefusal, CallFor;
  }

  /** The event a crash behind the first append leaves in the file. */
  lemma ReportLeft(d: Disk, t: Ticket, r: Report, uuid: Uuids) returns (e: Event)
    requires DiskInv(d) && Deliver(d, t, r, uuid).answer.Accepted? && !Deliver(d, t, r, uuid).answer.duplicate
    ensures CallFor(t, r).Some? && t.assignmentId == r.assignmentId && KindOf(r.content) in t.allowed
    ensures ScopeRefusal(d.snap, t).None?
    ensures Step(d, Crash(CallFor(t, r).value, uuid, 1)) == Disk(d.snap, d.log + [e])
    ensures e.eventId == EventIdOf(r.reportId) && e.report == Some(MarkOf(t, r)) && e.sequence == |d.log| + 1
    ensures d.snap.rt.task.lastEventSequence < e.sequence
  {
    hide SnapInv, Exec, SnapshotOk, Sound, SequencesOk, ScopeRefusal, CallFor, IdentityOf, Reuses, Reported, Deliver;
    AcceptedCall(d, t, r, uuid);
    CallIsReported(t, r);
    var op := CallFor(t, r).value;
    NotReused(d.log, op, r, t);
    CallTakes(d, op, uuid);
    ExecGood(d, op, uuid);
    var res := Exec(d, op, uuid);
    e := res.log[|d.log|];
    DiskReads(Disk(res.snap, res.log));
    Numbered'(res.log, |d.log|);
    NotAhead(d);
    assert res.log[..|d.log| + 1] == d.log + [e];
  }

  /** A report whose call crashed behind its first append is refused as long as the snapshot stays as it was, whatever
      is appended meanwhile. The next call that completes with an event has the effect it would have had without the
      report, and from then on the report is acknowledged as a duplicate, as far as its ticket is still in scope. */
  lemma LostReportIsAcknowledged(d: Disk, t: Ticket, r: Report, uuid: Uuids, still: Disk, next: Op, later: Uuids)
    requires DiskInv(d) && Deliver(d, t, r, uuid).answer.Accepted? && !Deliver(d, t, r, uuid).answer.duplicate
    requires CallFor(t, r).Some? && Step(d, Crash(CallFor(t, r).value, uuid, 1)).log <= still.log
    requires still.snap == d.snap && DiskInv(still)
    requires Exec(still, next, later).Wrote? && Exec(still, next, later).log != still.log
    ensures Deliver(still, t, r, uuid) == Delivery(Rejected(NeedsRecovery), still)
    ensures d.snap.rt.steps.Keys == StepIds(d.snap.def.steps) && Effect(d.snap, next, Exec(still, next, later).snap)
    ensures var now := Disk(Exec(still, next, later).snap, Exec(still, next, later).log);
            var refusal := ScopeRefusal(now.snap, t);
            Deliver(now, t, r, uuid)
              == Delivery(if refusal.None? then ResultFor(now.snap, t.stepId, true) else Rejected(refusal.value), now)
  {
    hide SnapInv, Exec, SnapshotOk, Sound, SequencesOk, ScopeRefusal, CallFor, Effect, Deliver;
    var e := ReportLeft(d, t, r, uuid);
    DiskReads(still);
    FoundEarlier(d.log + [e], still.log, e);
    Refused(still, t, r, uuid, e);
    ExecEffect(still, next, later);
    ExecGood(still, next, later);
    AppendingCatchesUp(still, next, later);
    var now := Disk(Exec(still, next, later).snap, Exec(still, next, later).log);
    DiskReads(now);
    FoundEarlier(d.log + [e], now.log, e);
    if ScopeRefusal(now.snap, t).None? { Acknowledged(now, t, r, uuid, e); }
    else { OutOfScopeNow(now, t, r, uuid); }
  }

  lemma OutOfScopeNow(d: Disk, t: Ticket, r: Report, uuid: Uuids)
    requires SnapshotOk(d.snap) && Sound(d.log) && t.assignmentId == r.assignmentId && KindOf(r.content) in t.allowed
    requires ScopeRefusal(d.snap, t).Some?
    ensures Deliver(d, t, r, uuid) == Delivery(Rejected(ScopeRefusal(d.snap, t).value), d)
  {
    hide Exec, SnapshotOk, Sound, ScopeRefusal, CallFor;
  }

  lemma NotAhead(d: Disk)
    requires DiskInv(d)
    ensures d.snap.rt.task.lastEventSequence <= |d.log|
  {}
}
