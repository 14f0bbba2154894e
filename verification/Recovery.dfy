/** Crashes between an append and the snapshot, and the retries that follow. */
module Recovery {
  import opened Wrappers
  import opened Contracts
  import opened StateMachine
  import opened Scheduler
  import opened EventLedger
  import opened Store
  import opened Engine
  import opened Gates
  import opened Invariants
  import opened Operations
  import opened Runs
  import opened Effects
  import opened Success
  import opened Losses
  import opened Replay

  function IdentityOf(op: Op): Identity {
    match op
    case TransitionStepOp(_, _, _, identity) => identity
    case ProgressOp(_, _, _, identity) => identity
    case ArtifactOp(_, _, _, identity) => identity
    case RequestCompletionOp(_, _, identity) => identity
    case _ => Anonymous
  }

  lemma InputIdentity(s: Snapshot, op: Op)
    requires s.rt.steps.Keys == StepIds(s.def.steps) && SingleEvent(op) && ChangeOf(s, op).Replace?
    ensures ChangeOf(s, op).input.identity == IdentityOf(op)
  {
    hide ActiveCount, AtLeast, SkillsOpen, DependencyReady, PreflightBlocker, ValidStepTransition, ValidTaskTransition,
      ValidBindingTransition;
  }

  /** Appending again an event that made it to the file before the crash. */
  lemma AppendAgain(rt: Runtime, log: seq<Event>, input: EventInput, uuid: Uuids, again: Uuids)
    requires SequencesOk(rt, |log|) && input.identity.eventId.Some? && !Replayed(log, input)
    ensures var n := Append(rt, log, input, uuid);
            n.Noted? && n.log == log + [NewEvent(log, input, uuid)] && Append(rt, n.log, input, again) == n
  {
    var e := NewEvent(log, input, uuid);
    FindSnoc(log, e);
  }

  lemma SettleAgain(s: Snapshot, log: seq<Event>, c: Change, uuid: Uuids, again: Uuids)
    requires c.Replace? && StepIds(s.def.steps) <= c.rt.steps.Keys && SequencesOk(c.rt, |log|)
    requires c.input.identity.eventId.Some? && !Replayed(log, c.input)
    ensures var r := Settle(s, log, c, uuid);
            && (r.Wrote? ==> r.log == log + [NewEvent(log, c.input, uuid)])
            && Settle(s, log + [NewEvent(log, c.input, uuid)], c, again) == r
  {
    hide SnapshotOk, RefreshDerived, RevisionOk;
    AppendAgain(c.rt, log, c.input, uuid, again);
  }

  /** A single-event operation that carries a new event id: whether it crashed before or after its append, an immediate
      retry ends exactly where an uncrashed call would have, with no second event. */
  lemma RetryAfterCrash(d: Disk, op: Op, uuid: Uuids, kept: nat, again: Uuids)
    requires DiskInv(d) && SingleEvent(op) && IdentityOf(op).eventId.Some? && !Reuses(d.log, op)
    requires Exec(d, op, uuid).Wrote?
    ensures Step(Step(d, Crash(op, uuid, kept)), Call(op, again)) == Step(d, Call(op, uuid))
    ensures Exec(Step(d, Crash(op, uuid, kept)), op, again) == Exec(d, op, uuid)
    ensures |Exec(d, op, uuid).log| == |d.log| + 1
  {
    hide SnapInv, Settle, ChangeOf, Sound, SnapshotOk, AddSteps, TransitionStep, GatePass, ReconcileReadiness,
      SequencesOk, Reuses, ChangeOk, StepIds;
    StepInv(d, Crash(op, uuid, kept));
    RetrySettled(d, op, uuid, again);
    var r := Exec(d, op, uuid);
    var crashed := Step(d, Crash(op, uuid, kept));
    assert crashed.snap == d.snap;
    CrashedLog(d.log, NewEvent(d.log, ChangeOf(d.snap, op).input, uuid), r.log, kept, crashed.log);
    DiskReads(d); DiskReads(crashed);
  }

  lemma CrashedLog(log: seq<Event>, e: Event, full: seq<Event>, kept: nat, left: seq<Event>)
    requires full == log + [e] && left == if |log| + kept <= |full| then full[..|log| + kept] else full
    ensures left == log || left == log + [e]
  {
    if kept == 0 { assert full[..|log|] == log; }
  }

  lemma DiskReads(d: Disk)
    requires DiskInv(d)
    ensures SnapshotOk(d.snap) && Sound(d.log) && d.snap.rt.steps.Keys == StepIds(d.snap.def.steps)
  {}

  lemma RetrySettled(d: Disk, op: Op, uuid: Uuids, again: Uuids)
    requires DiskInv(d) && SingleEvent(op) && IdentityOf(op).eventId.Some? && !Reuses(d.log, op)
    requires Exec(d, op, uuid).Wrote?
    ensures d.snap.rt.steps.Keys == StepIds(d.snap.def.steps) && ChangeOf(d.snap, op).Replace?
    ensures var c := ChangeOf(d.snap, op); var e := NewEvent(d.log, c.input, uuid); var r := Exec(d, op, uuid);
            && r == Settle(d.snap, d.log, c, uuid) && r.log == d.log + [e]
            && Settle(d.snap, d.log + [e], c, again) == r && Settle(d.snap, d.log, c, again) == r
  {
    hide DiskInv, Settle, ChangeOf, Sound, SnapshotOk, AddSteps, TransitionStep, GatePass, ReconcileReadiness,
      SequencesOk, Reuses, ChangeOk, StepIds;
    DiskReads(d);
    var c := ChangeOf(d.snap, op);
    SettleWrites(d.snap, d.log, c, uuid);
    ReplayedOrReused(d.snap, d.log, op);
    InputIdentity(d.snap, op);
    SingleNumbers(d, op);
    SettleAgain(d.snap, d.log, c, uuid, again);
    SettleAgain(d.snap, d.log, c, again, again);
    UuidUnused(d.log, c.input, uuid, again);
    SettleUuid(d.snap, d.log, c, uuid, again);
  }

  lemma UuidUnused(log: seq<Event>, input: EventInput, uuid: Uuids, again: Uuids)
    requires input.identity.eventId.Some?
    ensures NewEvent(log, input, uuid) == NewEvent(log, input, again)
  {}

  lemma SettleUuid(s: Snapshot, log: seq<Event>, c: Change, uuid: Uuids, again: Uuids)
    requires c.Replace? && StepIds(s.def.steps) <= c.rt.steps.Keys && c.input.identity.eventId.Some?
    ensures Settle(s, log, c, uuid) == Settle(s, log, c, again)
  {
    hide SnapshotOk, RefreshDerived, RevisionOk;
  }

  lemma SingleNumbers(d: Disk, op: Op)
    requires DiskInv(d) && SingleEvent(op)
    ensures d.snap.rt.steps.Keys == StepIds(d.snap.def.steps)
    ensures var c := ChangeOf(d.snap, op);
            c.Replace? ==> SequencesOk(c.rt, |d.log|) && StepIds(d.snap.def.steps) <= c.rt.steps.Keys
  {
    hide SnapInv, ChangeOf, Fit, Sound;
    ChangeFit'(d.snap, op);
    SequencesKept(d.snap.rt, ChangeOf(d.snap, op), |d.log|);
  }

  // ----- a transition, which may append a second event

  /** Appending again an event that is anywhere in the file. */
  lemma AppendReplays(rt: Runtime, log: seq<Event>, longer: seq<Event>, input: EventInput, uuid: Uuids, again: Uuids)
    requires SequencesOk(rt, |log|) && input.identity.eventId.Some? && !Replayed(log, input)
    requires Sound(longer) && log + [NewEvent(log, input, uuid)] <= longer
    ensures var n := Append(rt, log, input, uuid); n.Noted? && Append(rt, longer, input, again) == Noted(n.rt, longer)
  {
    hide Sound;
    var e := NewEvent(log, input, uuid);
    assert longer[|log|] == e;
    FoundEarlier(log + [e], longer, e);
  }

  lemma FoundEarlier(log: seq<Event>, more: seq<Event>, e: Event)
    requires log <= more && e in log && Sound(more)
    ensures Find(more, e.eventId) == Some(e)
  {
    var k :| 0 <= k < |log| && log[k] == e;
    assert more[k] == e;
    assert EventLedger.Recorded(more, e.eventId);
  }

  /** The runtime of a transition after its first event, which a repeated call brings back from the file. */
  ghost function AfterFirst(s: Snapshot, log: seq<Event>, op: Op, uuid: Uuids): Noted
    requires op.TransitionStepOp? && op.stepId in s.rt.steps
  {
    Append(WithStep(s.rt, op.stepId, Transitioned(s.rt.steps[op.stepId], op.to, op.why)), log,
           TransitionInput(s, op.stepId, op.to, op.why, op.identity), uuid)
  }

  /** A transition whose first event is in the file goes straight to the closing of the task. */
  lemma TransitionAgain(d: Disk, op: Op, uuid: Uuids, longer: seq<Event>, again: Uuids)
    requires DiskInv(d) && op.TransitionStepOp? && op.to !in {Completed, Verifying} && op.identity.eventId.Some?
    requires !Reuses(d.log, op) && d.snap.rt.steps.Keys == StepIds(d.snap.def.steps)
    requires TransitionRefusal(d.snap, op.stepId, op.to).None?
    requires op.stepId in d.snap.rt.steps && Sound(longer)
    requires d.log + [NewEvent(d.log, TransitionInput(d.snap, op.stepId, op.to, op.why, op.identity), uuid)] <= longer
    ensures var n := AfterFirst(d.snap, d.log, op, uuid);
            && n.Noted? && n.rt.steps.Keys == d.snap.rt.steps.Keys && n.rt.task.status == d.snap.rt.task.status
            && n.rt.assignments == d.snap.rt.assignments && n.rt.bindings == d.snap.rt.bindings
            && n.log == d.log + [NewEvent(d.log, TransitionInput(d.snap, op.stepId, op.to, op.why, op.identity), uuid)]
            && TransitionStep(d.snap, longer, op.stepId, op.to, op.why, op.identity, again)
               == CancelWhenClosed(d.snap, RefreshDerived(d.snap.def, n.rt), longer, again)
            && TransitionStep(d.snap, d.log, op.stepId, op.to, op.why, op.identity, uuid)
               == CancelWhenClosed(d.snap, RefreshDerived(d.snap.def, n.rt), n.log, uuid)
  {
    hide Fit, DerivedOk, SnapshotOk, Sound, SequencesOk, CancelWhenClosed, RefreshDerived, Transitioned, Replayed,
      EventLedger.Recorded, ActiveCount, DependencyReady, Append;
    TransitionNumbers(d.snap, |d.log|, op.stepId, op.to, op.why);
    var input := TransitionInput(d.snap, op.stepId, op.to, op.why, op.identity);
    var rt := WithStep(d.snap.rt, op.stepId, Transitioned(d.snap.rt.steps[op.stepId], op.to, op.why));
    NotReplayed(d.log, op, input);
    AppendReplays(rt, d.log, longer, input, uuid, again);
    AppendAgain(rt, d.log, input, uuid, uuid);
    AppendKeeps(rt, d.log, input, uuid);
    SameKeys(rt.steps, Append(rt, d.log, input, uuid).rt.steps);
  }

  lemma NotReplayed(log: seq<Event>, op: Op, input: EventInput)
    requires op.TransitionStepOp? && !Reuses(log, op) && input.identity == op.identity
    ensures !Replayed(log, input)
  {
    hide EventLedger.Recorded;
  }

  lemma WroteTransition(d: Disk, op: Op, uuid: Uuids)
    requires DiskInv(d) && op.TransitionStepOp? && op.to !in {Completed, Verifying} && Exec(d, op, uuid).Wrote?
    ensures d.snap.rt.steps.Keys == StepIds(d.snap.def.steps) && TransitionRefusal(d.snap, op.stepId, op.to).None?
    ensures op.stepId in d.snap.rt.steps
    ensures var input := TransitionInput(d.snap, op.stepId, op.to, op.why, op.identity);
            !Replayed(d.log, input) ==> d.log + [NewEvent(d.log, input, uuid)] <= Exec(d, op, uuid).log
  {
    hide Fit, DerivedOk, Sound, SequencesOk, CancelWhenClosed, RefreshDerived, Transitioned, ActiveCount,
      DependencyReady, DefinitionOk, AddSteps, GatePass, ReconcileReadiness, Settle, StepIds, Replayed;
    SnapRuntimeOk(d.snap);
    TransitionNumbers(d.snap, |d.log|, op.stepId, op.to, op.why);
    var input := TransitionInput(d.snap, op.stepId, op.to, op.why, op.identity);
    var rt := WithStep(d.snap.rt, op.stepId, Transitioned(d.snap.rt.steps[op.stepId], op.to, op.why));
    var n := Append(rt, d.log, input, uuid);
    AppendKeeps(rt, d.log, input, uuid);
    if n.Noted? {
      SameKeys(rt.steps, n.rt.steps);
      RefreshedTask(d.snap.def, n.rt);
      CancelGrows(d.snap, RefreshDerived(d.snap.def, n.rt), n.log, uuid);
    }
  }

  lemma CancelGrows(s: Snapshot, rt: Runtime, log: seq<Event>, uuid: Uuids)
    requires StepIds(s.def.steps) <= rt.steps.Keys
    ensures log <= CancelWhenClosed(s, rt, log, uuid).log && |CancelWhenClosed(s, rt, log, uuid).log| <= |log| + 1
  {
    hide SnapshotOk, AllClosed, SomeCancelled;
  }

  /** The end of a transition under another generator, on a file that has `|log|` or more events. */
  lemma CancelElsewhere(s: Snapshot, rt: Runtime, log: seq<Event>, uuid: Uuids, longer: seq<Event>, again: Uuids)
    requires SnapshotOk(s) && StepIds(s.def.steps) <= rt.steps.Keys && rt.steps.Keys == s.rt.steps.Keys
    requires rt.assignments == s.rt.assignments && rt.bindings == s.rt.bindings
    requires CancelWhenClosed(s, rt, log, uuid).Wrote? && FreshIds(again, longer)
    ensures var r, r' := CancelWhenClosed(s, rt, log, uuid), CancelWhenClosed(s, rt, longer, again);
            && r'.Wrote? && r'.snap.def == r.snap.def && SameRuntime(r.snap.rt, r'.snap.rt)
            && (|longer| == |log| ==> r'.snap == r.snap)
            && ((r.log == log && r'.log == longer && r'.snap == r.snap)
                || (|r.log| == |log| + 1 && r.log[..|log|] == log
                    && |r'.log| == |longer| + 1 && r'.log[..|longer|] == longer
                    && SameEvent(r.log[|log|], r'.log[|longer|])
                    && (|longer| == |log| && again == uuid && longer == log ==> r'.log == r.log)))
  {
    hide FreshIds, DefinitionOk, RuntimeOk, TaskProgress, ActiveList, AllClosed, SomeCancelled;
    SnapRuntimeOk(s);
    if rt.task.status != TCancelled && SomeCancelled(rt.steps) && AllClosed(rt.steps) {
      var input := EventInput(None, None, TaskStateChanged(rt.task.status, TCancelled, Some("all_steps_terminal")),
                              Anonymous);
      FreshNext(again, longer, input);
      var rt1 := rt.(task := rt.task.(status := TCancelled));
      var n, n' := Append(rt1, log, input, uuid), Append(rt1, longer, input, again);
      RuntimeOkLike(s.def, s.rt, n.rt);
      RuntimeOkLike(s.def, s.rt, n'.rt);
    } else {
      RuntimeOkLike(s.def, s.rt, rt);
    }
  }

  /** The same content, under a number and an id of its own. */
  predicate SameEvent(a: Event, b: Event) {
    b == a.(eventId := b.eventId, sequence := b.sequence)
  }

  /** A transition that carries a new event id crashed after any of its events and is retried, drawing from any fresh
      generator. Unless the cancellation of its task was already appended, the retry ends in the very snapshot of an
      uncrashed call, with as many events of the same contents; else the cancellation is appended a second time, and the
      snapshot is that of the uncrashed call up to event numbers. */
  lemma RetryTransition(d: Disk, op: Op, uuid: Uuids, kept: nat, again: Uuids)
    requires DiskInv(d) && op.TransitionStepOp? && op.identity.eventId.Some? && !Reuses(d.log, op)
    requires Exec(d, op, uuid).Wrote?
    requires StaysClear(again, |d.log| + 1, Exec(d, op, uuid).log)
    ensures Retried(d, Exec(d, op, uuid), kept, Exec(Step(d, Crash(op, uuid, kept)), op, again))
    ensures again == uuid && kept < 2 ==> Exec(Step(d, Crash(op, uuid, kept)), op, again) == Exec(d, op, uuid)
  {
    hide DiskInv, Reuses, Exec, Step, StaysClear, Retried;
    NeverToCompleted(d, op, uuid);
    if op.to == Verifying {
      RetryVerifying(d, op, uuid, kept, again);
    } else {
      RetryCancelling(d, op, uuid, kept, again);
    }
  }

  /** What the generator has yet to draw is not in the file, nor in its first `n` events. */
  ghost predicate StaysClear(again: Uuids, n: nat, log: seq<Event>) {
    n <= |log| ==> FreshIds(again, log[..n]) && FreshIds(again, log)
  }

  /** `r` is the uncrashed call and `r'` the retry after a crash that kept the first `kept` events. */
  ghost predicate Retried(d: Disk, r: Result, kept: nat, r': Result) {
    var n := |d.log|;
    && r.Wrote? && r'.Wrote? && n + 1 <= |r.log| <= n + 2 && r.log[..n+1] <= r'.log
    && (if kept >= 2 && |r.log| == n + 2
        then r.log <= r'.log && |r'.log| == n + 3 && SameEvent(r.log[n+1], r'.log[n+2])
             && r'.snap.def == r.snap.def && SameRuntime(r.snap.rt, r'.snap.rt)
        else r'.snap == r.snap && |r'.log| == |r.log| && (|r.log| == n + 2 ==> SameEvent(r.log[n+1], r'.log[n+1])))
  }

  lemma VerifyingIsRequest(d: Disk, op: Op, uuid: Uuids)
    requires op.TransitionStepOp? && op.to == Verifying
    ensures Exec(d, op, uuid) == Exec(d, RequestCompletionOp(op.stepId, op.why, op.identity), uuid)
  {
    hide SnapshotOk, Sound, Settle, RequestChange;
  }

  lemma SameReuse(log: seq<Event>, op: Op)
    requires op.TransitionStepOp?
    ensures Reuses(log, op) == Reuses(log, RequestCompletionOp(op.stepId, op.why, op.identity))
    ensures IdentityOf(RequestCompletionOp(op.stepId, op.why, op.identity)) == op.identity
  {
    hide EventLedger.Recorded;
  }

  lemma RetryVerifying(d: Disk, op: Op, uuid: Uuids, kept: nat, again: Uuids)
    requires DiskInv(d) && op.TransitionStepOp? && op.to == Verifying && op.identity.eventId.Some? && !Reuses(d.log, op)
    requires Exec(d, op, uuid).Wrote?
    ensures Retried(d, Exec(d, op, uuid), kept, Exec(Step(d, Crash(op, uuid, kept)), op, again))
    ensures Exec(Step(d, Crash(op, uuid, kept)), op, again) == Exec(d, op, uuid)
  {
    hide DiskInv, Reuses, Exec, IdentityOf;
    var request := RequestCompletionOp(op.stepId, op.why, op.identity);
    VerifyingIsRequest(d, op, uuid);
    SameReuse(d.log, op);
    RetryAfterCrash(d, request, uuid, kept, again);
    assert Step(d, Crash(op, uuid, kept)) == Step(d, Crash(request, uuid, kept));
    VerifyingIsRequest(Step(d, Crash(op, uuid, kept)), op, again);
  }

  lemma SameFirst(s: Snapshot, log: seq<Event>, op: Op, uuid: Uuids, again: Uuids)
    requires op.TransitionStepOp? && op.stepId in s.rt.steps && op.identity.eventId.Some?
    ensures AfterFirst(s, log, op, uuid) == AfterFirst(s, log, op, again)
    ensures var input := TransitionInput(s, op.stepId, op.to, op.why, op.identity);
            NewEvent(log, input, uuid) == NewEvent(log, input, again)
  {
    hide Transitioned, Replayed, EventLedger.Recorded;
  }

  lemma ExecTransition(d: Disk, op: Op, uuid: Uuids)
    requires DiskInv(d) && op.TransitionStepOp?
    ensures Exec(d, op, uuid) == TransitionStep(d.snap, d.log, op.stepId, op.to, op.why, op.identity, uuid)
  {
    hide SnapInv, Sound, TransitionStep;
    DiskReads(d);
  }

  lemma RetryCancelling(d: Disk, op: Op, uuid: Uuids, kept: nat, again: Uuids)
    requires DiskInv(d) && op.TransitionStepOp? && op.to !in {Completed, Verifying} && op.identity.eventId.Some?
    requires !Reuses(d.log, op) && Exec(d, op, uuid).Wrote? && StaysClear(again, |d.log| + 1, Exec(d, op, uuid).log)
    ensures Retried(d, Exec(d, op, uuid), kept, Exec(Step(d, Crash(op, uuid, kept)), op, again))
    ensures again == uuid && kept < 2 ==> Exec(Step(d, Crash(op, uuid, kept)), op, again) == Exec(d, op, uuid)
  {
    hide DiskInv, Reuses, TransitionStep, TransitionRefusal, TransitionInput, SnapshotOk, Sound, NewEvent, StepIds,
      Replayed, AfterFirst, CancelWhenClosed, RefreshDerived, FreshIds, Exec, SameRuntime, SameEvent;
    DiskReads(d);
    WroteTransition(d, op, uuid);
    InputOfTransition(d.snap, op);
    NotReplayed(d.log, op, TransitionInput(d.snap, op.stepId, op.to, op.why, op.identity));
    var e := NewEvent(d.log, TransitionInput(d.snap, op.stepId, op.to, op.why, op.identity), uuid);
    StepInv(d, Crash(op, uuid, kept));
    var r, crashed := Exec(d, op, uuid), Step(d, Crash(op, uuid, kept));
    ExecTransition(d, op, uuid); ExecTransition(crashed, op, again);
    DiskReads(crashed);
    var first := d.log + [e];
    var longer := if kept == 0 then first else crashed.log;
    CrashKeeps(d.log, e, r.log, kept, crashed.log);
    FirstIsSound(d, op, uuid, e);
    SameFirst(d.snap, d.log, op, uuid, again);
    TransitionAgain(d, op, uuid, longer, again);
    TransitionAgain(d, op, again, first, uuid);
    var n := AfterFirst(d.snap, d.log, op, uuid);
    RefreshedRest(d.snap.def, n.rt);
    CancelGrows(d.snap, RefreshDerived(d.snap.def, n.rt), first, uuid);
    assert first == r.log[..|d.log|+1] && (longer == first || longer == r.log);
    CancelElsewhere(d.snap, RefreshDerived(d.snap.def, n.rt), first, uuid, longer, again);
  }

  lemma FirstIsSound(d: Disk, op: Op, uuid: Uuids, e: Event)
    requires DiskInv(d) && Exec(d, op, uuid).Wrote? && d.log + [e] <= Exec(d, op, uuid).log
    ensures Sound(d.log + [e])
  {
    hide Exec, SnapInv;
    ExecGood(d, op, uuid);
    SoundPrefix(Exec(d, op, uuid).log, |d.log| + 1);
    assert Exec(d, op, uuid).log[..|d.log|+1] == d.log + [e];
  }

  lemma CrashKeeps(log: seq<Event>, e: Event, full: seq<Event>, kept: nat, left: seq<Event>)
    requires log + [e] <= full && left == if |log| + kept <= |full| then full[..|log| + kept] else full
    ensures kept == 0 ==> left == log
    ensures kept >= 1 ==> log + [e] <= left
    ensures kept == 1 ==> left == log + [e]
    ensures kept >= 1 && |full| == |log| + 1 ==> left == full
    ensures kept >= 2 && |full| == |log| + 2 ==> left == full
  {}

  lemma RefreshedRest(def: Workflow, rt: Runtime)
    requires StepIds(def.steps) <= rt.steps.Keys
    ensures var now := RefreshDerived(def, rt);
            && now.task.lastEventSequence == rt.task.lastEventSequence && now.task.status == rt.task.status
            && now.steps == rt.steps && now.assignments == rt.assignments && now.bindings == rt.bindings
  {}

  lemma InputOfTransition(s: Snapshot, op: Op)
    requires op.TransitionStepOp? && op.stepId in s.rt.steps
    ensures TransitionInput(s, op.stepId, op.to, op.why, op.identity).identity == op.identity
  {}

  lemma NeverToCompleted(d: Disk, op: Op, uuid: Uuids)
    requires DiskInv(d) && op.TransitionStepOp? && Exec(d, op, uuid).Wrote?
    ensures op.to != Completed
  {
    hide SnapInv, Sound;
    DiskReads(d);
  }

  // ----- operations that draw their own event ids

  /** A change appended after another one whose event made it to the file. */
  lemma SettleTwice(s: Snapshot, log: seq<Event>, lost: EventInput, c: Change, uuid: Uuids)
    requires c.Replace? && StepIds(s.def.steps) <= c.rt.steps.Keys && FreshIds(uuid, log)
    requires c.input.identity.eventId.None? && lost.identity.eventId.None? && Settle(s, log, c, uuid).Wrote?
    ensures var e := NewEvent(log, lost, uuid); var r := Settle(s, log, c, uuid);
            var r' := Settle(s, log + [e], c, uuid);
            && r.log == log + [NewEvent(log, c.input, uuid)] && r'.Wrote?
            && r'.log == log + [e] + [NewEvent(log + [e], c.input, uuid)]
            && r'.snap.def == r.snap.def && SameRuntime(r.snap.rt, r'.snap.rt)
  {
    hide DefinitionOk, Replayed, EventLedger.Recorded, FreshIds;
    FreshNext(uuid, log, lost);
    FreshNext(uuid, log, c.input);
    var e := NewEvent(log, lost, uuid);
    FreshNext(uuid, log + [e], c.input);
    var a, b := Append(c.rt, log, c.input, uuid), Append(c.rt, log + [e], c.input, uuid);
    assert SameSteps(a.rt.steps, b.rt.steps);
    DerivedFromSteps(s.def.steps, a.rt.steps, b.rt.steps);
  }

  /** The call `lost` crashed behind its append, and `op` is called next: both events are in the file, and the snapshot
      is that of `op` alone up to event numbers. */
  lemma RetryBehindEvent(d: Disk, lost: Op, op: Op, uuid: Uuids)
    requires DiskInv(d) && SingleEvent(lost) && SingleEvent(op) && IdentityOf(lost).eventId.None?
    requires IdentityOf(op).eventId.None?
    requires FreshIds(uuid, d.log) && Exec(d, lost, uuid).Wrote? && Exec(d, op, uuid).Wrote?
    ensures d.snap.rt.steps.Keys == StepIds(d.snap.def.steps) && ChangeOf(d.snap, lost).Replace?
    ensures ChangeOf(d.snap, op).Replace?
    ensures var r, r' := Exec(d, op, uuid), Exec(Step(d, Crash(lost, uuid, 1)), op, uuid);
            && r'.Wrote? && r'.snap.def == r.snap.def && SameRuntime(r.snap.rt, r'.snap.rt)
            && |r'.log| == |d.log| + 2 && Exec(d, lost, uuid).log <= r'.log && |Exec(d, lost, uuid).log| == |d.log| + 1
            && SameContent(r'.log[|d.log|], ChangeOf(d.snap, lost).input)
            && SameContent(r'.log[|d.log| + 1], ChangeOf(d.snap, op).input)
  {
    hide SnapInv, Settle, ChangeOf, Sound, SnapshotOk, AddSteps, TransitionStep, GatePass, ReconcileReadiness,
      SequencesOk, ChangeOk, StepIds, SameRuntime, FreshIds;
    StepInv(d, Crash(lost, uuid, 1));
    DiskReads(d);
    var l, c := ChangeOf(d.snap, lost), ChangeOf(d.snap, op);
    SettleWrites(d.snap, d.log, l, uuid); SettleWrites(d.snap, d.log, c, uuid);
    InputIdentity(d.snap, lost); InputIdentity(d.snap, op);
    SingleNumbers(d, lost); SingleNumbers(d, op);
    SettleTwice(d.snap, d.log, l.input, l, uuid);
    SettleTwice(d.snap, d.log, l.input, c, uuid);
    var crashed := Step(d, Crash(lost, uuid, 1));
    assert crashed == Disk(d.snap, d.log + [NewEvent(d.log, l.input, uuid)]);
    DiskReads(crashed);
  }

  /** A single-event operation that draws nothing and has no event id of its own: the retry after a crash that kept its
      event appends a second event with the same content; the snapshot is that of the uncrashed call up to event
      numbers. */
  lemma RetryRepeatsEvent(d: Disk, op: Op, uuid: Uuids)
    requires DiskInv(d) && SingleEvent(op) && !op.AssignOp? && !op.BindOp?
    requires IdentityOf(op).eventId.None? && FreshIds(uuid, d.log) && Exec(d, op, uuid).Wrote?
    ensures d.snap.rt.steps.Keys == StepIds(d.snap.def.steps)
    ensures var r, r' := Exec(d, op, uuid), Exec(Step(d, Crash(op, uuid, 1)), op, uuid);
            && r'.Wrote? && r'.snap.def == r.snap.def && SameRuntime(r.snap.rt, r'.snap.rt)
            && |r.log| == |d.log| + 1 && |r'.log| == |d.log| + 2 && r.log <= r'.log
            && SameContent(r'.log[|d.log|], ChangeOf(d.snap, op).input)
            && SameContent(r'.log[|d.log| + 1], ChangeOf(d.snap, op).input)
  {
    hide *;
    RetryBehindEvent(d, op, op, uuid);
  }

  /** `again` is the call `op` repeated: an assignment or a binding whose identifier is drawn anew. */
  predicate DrawnAnew(s: Snapshot, op: Op, again: Op) {
    match op
    case AssignOp(k, executor, executorId, a) =>
      && again.AssignOp? && again == AssignOp(k, executor, executorId, again.assignmentId) && again.assignmentId != a
      && !IsAssignment(s.rt.assignments, again.assignmentId)
    case BindOp(a, session, state, b) =>
      && again.BindOp? && again == BindOp(a, session, state, again.bindingId) && again.bindingId != b
      && BindingIndex(s.rt.bindings, again.bindingId).None?
    case _ => false
  }

  lemma AgainProposed(s: Snapshot, op: Op, again: Op)
    requires s.rt.steps.Keys == StepIds(s.def.steps) && DrawnAnew(s, op, again) && ChangeOf(s, op).Replace?
    ensures ChangeOf(s, again).Replace? && ChangeOf(s, again).input.identity == Anonymous
    ensures again.AssignOp? ==> op.AssignOp? && op.stepId in s.rt.steps
  {
    hide AssignmentRefusal;
    if op.AssignOp? { AssignKnown(s, op.stepId, op.executor); }
  }

  /** A retry of an assignment or a binding that crashed behind its append draws a new identifier: the file then tells
      of two assignments of the same step and attempt, or of two bindings of the same assignment and session, with
      different identifiers; the snapshot knows the second alone and is that of the uncrashed second call up to event
      numbers. */
  lemma RetryDrawsAnew(d: Disk, op: Op, again: Op, uuid: Uuids)
    requires DiskInv(d) && FreshIds(uuid, d.log) && Exec(d, op, uuid).Wrote? && DrawnAnew(d.snap, op, again)
    ensures Exec(d, again, uuid).Wrote?
    ensures var r, r' := Exec(d, again, uuid), Exec(Step(d, Crash(op, uuid, 1)), again, uuid);
            && r'.Wrote? && |r'.log| == |d.log| + 2 && r'.snap.def == r.snap.def && SameRuntime(r.snap.rt, r'.snap.rt)
            && ToldTwice(d.snap, op, again, r'.log[|d.log|], r'.log[|d.log| + 1], r'.snap)
  {
    hide DiskInv, FreshIds, Exec, DrawnAnew, ChangeOf, SameRuntime, ToldTwice, IdentityOf, IsAssignment, SnapshotOk;
    DiskReads(d);
    AgainIsNew(d.snap, op, again);
    WroteProposes(d, op, uuid);
    AgainProposed(d.snap, op, again);
    FreshNext(uuid, d.log, ChangeOf(d.snap, again).input);
    SingleSucceeds(d, again, uuid);
    RetryBehindEvent(d, op, again, uuid);
    var r, r' := Exec(d, again, uuid), Exec(Step(d, Crash(op, uuid, 1)), again, uuid);
    ExecBooks(d, again, uuid);
    AgainTold(d.snap, op, again, r'.log[|d.log|], r'.log[|d.log| + 1], r.snap, r'.snap);
  }

  lemma WroteProposes(d: Disk, op: Op, uuid: Uuids)
    requires DiskInv(d) && (op.AssignOp? || op.BindOp?) && Exec(d, op, uuid).Wrote?
    ensures d.snap.rt.steps.Keys == StepIds(d.snap.def.steps) && ChangeOf(d.snap, op).Replace?
  {
    hide SnapInv, Settle, Sound, SnapshotOk, AssignmentRefusal;
    DiskReads(d);
    SingleNumbers(d, op);
    SettleWrites(d.snap, d.log, ChangeOf(d.snap, op), uuid);
  }

  lemma AgainIsNew(s: Snapshot, op: Op, again: Op)
    requires DrawnAnew(s, op, again)
    ensures (op.AssignOp? && again.AssignOp?) || (op.BindOp? && again.BindOp?)
    ensures SingleEvent(op) && SingleEvent(again) && IdentityOf(op).eventId.None? && IdentityOf(again).eventId.None?
    ensures again.AssignOp? ==> !IsAssignment(s.rt.assignments, again.assignmentId)
    ensures again.BindOp? ==> BindingIndex(s.rt.bindings, again.bindingId).None?
  {}

  lemma ExecBooks(d: Disk, op: Op, uuid: Uuids)
    requires DiskInv(d) && SingleEvent(op) && Exec(d, op, uuid).Wrote?
    ensures d.snap.rt.steps.Keys == StepIds(d.snap.def.steps)
    ensures var c := ChangeOf(d.snap, op); var now := Exec(d, op, uuid).snap.rt;
            c.Replace? && now.assignments == c.rt.assignments && now.bindings == c.rt.bindings
  {
    hide SnapInv, Settle, Sound, SnapshotOk, SequencesOk, ChangeOf, DerivedOk, AddSteps, GatePass, TransitionStep,
      ReconcileReadiness;
    DiskReads(d);
    SingleNumbers(d, op);
    SettleShape(d.snap, d.log, ChangeOf(d.snap, op), uuid);
  }

  /** What the two events say, and what the snapshot holds. */
  predicate ToldTwice(s: Snapshot, op: Op, again: Op, e: Event, f: Event, now: Snapshot) {
    if op.AssignOp? && again.AssignOp? then
      && op.stepId in s.rt.steps && e.stepId == f.stepId == Some(op.stepId)
      && e.body == f.body == AssignmentCreated(op.executor, op.executorId, s.rt.steps[op.stepId].attempt + 1)
      && e.assignmentId == Some(op.assignmentId) && f.assignmentId == Some(again.assignmentId)
      && now.rt.assignments == s.rt.assignments
                               + [Assignment(again.assignmentId, op.stepId, s.rt.steps[op.stepId].attempt + 1,
                                             op.executor, op.executorId)]
    else if op.BindOp? && again.BindOp? then
      && e.stepId == f.stepId && e.assignmentId == f.assignmentId == Some(op.assignmentId)
      && e.body == SessionBound(op.bindingId, op.logicalSessionId)
      && f.body == SessionBound(again.bindingId, op.logicalSessionId)
      && |now.rt.bindings| == |s.rt.bindings| + 1 && s.rt.bindings <= now.rt.bindings
      && now.rt.bindings[|s.rt.bindings|].bindingId == again.bindingId
    else false
  }

  lemma AgainTold(s: Snapshot, op: Op, again: Op, e: Event, f: Event, r: Snapshot, now: Snapshot)
    requires s.rt.steps.Keys == StepIds(s.def.steps) && DrawnAnew(s, op, again)
    requires ChangeOf(s, op).Replace? && ChangeOf(s, again).Replace?
    requires SameContent(e, ChangeOf(s, op).input) && SameContent(f, ChangeOf(s, again).input)
    requires r.rt.assignments == ChangeOf(s, again).rt.assignments && r.rt.bindings == ChangeOf(s, again).rt.bindings
    requires SameRuntime(r.rt, now.rt)
    ensures ToldTwice(s, op, again, e, f, now)
  {
    hide AssignmentRefusal, SameSteps, OpenBinding;
    if op.AssignOp? { AssignKnown(s, op.stepId, op.executor); }
  }

  /** A passed gate interrupted after its first event is recorded as passed a second time by the retry. */
  lemma GatePassedTwice(d: Disk, stepId: Id, e: Evidence, uuid: Uuids)
    requires DiskInv(d) && FreshIds(uuid, d.log) && d.snap.rt.steps.Keys == StepIds(d.snap.def.steps)
    requires GateMet(d.snap, d.log, stepId, e) && d.snap.rt.task.status == TRunning
    ensures stepId in d.snap.rt.steps
    ensures var op := GatePassOp(stepId, e); var r' := Exec(Step(d, Crash(op, uuid, 1)), op, uuid);
            && r'.Wrote? && |r'.log| >= |d.log| + 2
            && SameContent(r'.log[|d.log|], GateInput(d.snap, stepId, e))
            && SameContent(r'.log[|d.log| + 1], GateInput(d.snap, stepId, e))
  {
    hide SnapInv, Exec, FreshIds, GateRefusal, GateMet, GateInput;
    var op := GatePassOp(stepId, e);
    StepInv(d, Crash(op, uuid, 1));
    GateMetExactly(d.snap, d.log, stepId, e);
    GateKnown(d.snap, d.log, stepId, e);
    GatePassSucceeds(d, stepId, e, uuid);
    GateStarts(d, stepId, e, uuid);
    var input := GateInput(d.snap, stepId, e);
    InputOfGate(d.snap, stepId, e);
    var ev := NewEvent(d.log, input, uuid);
    var crashed := Step(d, Crash(op, uuid, 1));
    assert crashed == Disk(d.snap, d.log + [ev]);
    FreshNext(uuid, d.log, input);
    GateStillMet(d.snap, d.log, crashed.log, stepId, e);
    GateMetExactly(d.snap, crashed.log, stepId, e);
    GatePassSucceeds(crashed, stepId, e, uuid);
    GateStarts(crashed, stepId, e, uuid);
  }

  lemma InputOfGate(s: Snapshot, stepId: Id, e: Evidence)
    requires stepId in s.rt.steps
    ensures GateInput(s, stepId, e).identity == Anonymous
  {}

  lemma GateStarts(d: Disk, stepId: Id, e: Evidence, uuid: Uuids)
    requires DiskInv(d) && FreshIds(uuid, d.log) && d.snap.rt.steps.Keys == StepIds(d.snap.def.steps)
    requires stepId in d.snap.rt.steps
    requires GateRefusal(d.snap, d.log, stepId, e).None?
    ensures d.log + [NewEvent(d.log, GateInput(d.snap, stepId, e), uuid)] <= Exec(d, GatePassOp(stepId, e), uuid).log
  {
    hide Fit, DerivedOk, SnapshotOk, Sound, SequencesOk, AddSteps, TransitionStep, ReconcileReadiness, Settle,
      PromoteFrom, CloseTask, GateRefusal, FreshIds, Passed;
    var input := GateInput(d.snap, stepId, e);
    FreshNext(uuid, d.log, input);
    var n := Append(WithStep(d.snap.rt, stepId, Passed(d.snap.rt.steps[stepId])), d.log, input, uuid);
    PromoteGrows(d.snap.def.steps, 0, n.rt, n.log, uuid);
    var p := PromoteFrom(d.snap.def.steps, 0, n.rt, n.log, uuid);
    if p.Ran? { CloseGrows(d.snap, p.rt, p.log, uuid); }
  }

  lemma {:induction false} PromoteGrows(defs: seq<StepDef>, i: nat, rt: Runtime, log: seq<Event>, uuid: Uuids)
    requires i <= |defs| && StepIds(defs) <= rt.steps.Keys
    ensures log <= PromoteFrom(defs, i, rt, log, uuid).log
    decreases |defs| - i
  {
    hide DependencyReady;
    if i < |defs| {
      assert defs[i].stepId in StepIds(defs);
      var id := defs[i].stepId;
      if !Promotable(defs[i], rt.steps) { PromoteGrows(defs, i + 1, rt, log, uuid); }
      else {
        var n := Append(WithStep(rt, id, rt.steps[id].(status := Ready)), log,
                        EventInput(Some(id), None,
                                   StepStateChanged(WaitingDependency, Ready, Some("dependency_completed")),
                                   Anonymous), uuid);
        if n.Noted? { PromoteGrows(defs, i + 1, n.rt, n.log, uuid); }
      }
    }
  }

  lemma CloseGrows(s: Snapshot, rt: Runtime, log: seq<Event>, uuid: Uuids)
    requires StepIds(s.def.steps) <= rt.steps.Keys
    ensures log <= CloseTask(s, rt, log, uuid).log
  {
    hide SnapshotOk, AllClosed, AllCompleted, RefreshDerived;
  }

  lemma GateStillMet(s: Snapshot, log: seq<Event>, more: seq<Event>, stepId: Id, e: Evidence)
    requires s.rt.steps.Keys == StepIds(s.def.steps) && log <= more && GateMet(s, log, stepId, e)
    ensures GateMet(s, more, stepId, e)
  {
    hide Delivered;
    var step, x := DefOf(s.def.steps, stepId), s.rt.steps[stepId];
    forall o | Delivered(log, stepId, x.assignmentId, o) ensures Delivered(more, stepId, x.assignmentId, o) {
      DeliveredLater(log, more, stepId, x.assignmentId, o);
    }
  }

  lemma RefreshedTask(def: Workflow, rt: Runtime)
    requires StepIds(def.steps) <= rt.steps.Keys
    ensures RefreshDerived(def, rt).task.lastEventSequence == rt.task.lastEventSequence
    ensures RefreshDerived(def, rt).task.status == rt.task.status && RefreshDerived(def, rt).steps == rt.steps
  {}

  lemma SingleLog(s: Snapshot, log: seq<Event>, c: Change, uuid: Uuids)
    requires c.Replace? && StepIds(s.def.steps) <= c.rt.steps.Keys && !Replayed(log, c.input)
    requires Settle(s, log, c, uuid).Wrote?
    ensures Settle(s, log, c, uuid).log == log + [NewEvent(log, c.input, uuid)]
  {
    hide SnapshotOk, RefreshDerived;
  }
}
