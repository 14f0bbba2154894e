/** The event file as the source of truth: folding it over the step definitions gives the stored step states. */
module Replay {
  import opened Wrappers
  import opened Contracts
  import opened StateMachine
  import opened Scheduler
  import opened EventLedger
  import opened Store
  import opened Engine
  import opened Invariants
  import opened Operations
  import opened Runs
  import opened Effects
  import opened Success

  // ----- the fold

  datatype StepView = StepView(status: StepStatus, attempt: nat, assignmentId: Option<Id>, progress: real)

  datatype View = View(task: TaskStatus, steps: map<Id, StepView>)

  const Blank := View(TDraft, map[])

  function Look(x: StepRuntime): StepView {
    StepView(x.status, x.attempt, x.assignmentId, x.progress)
  }

  function LookAll(steps: map<Id, StepRuntime>): map<Id, StepView> {
    map id | id in steps :: Look(steps[id])
  }

  function ViewOf(rt: Runtime): View {
    View(rt.task.status, LookAll(rt.steps))
  }

  function FirstView(step: StepDef, steps: map<Id, StepView>): StepView {
    StepView(if forall d :: d in step.dependsOn ==> d in steps && steps[d].status == Completed
             then Ready else WaitingDependency,
             0, None, 0.0)
  }

  function OnStep(x: StepView, e: Event): StepView {
    match e.body
    case StepStateChanged(_, to, _) => x.(status := to)
    case AssignmentCreated(_, _, attempt) =>
      x.(status := Dispatching, attempt := attempt, assignmentId := e.assignmentId)
    case ProgressUpdated(p, _, _) => x.(status := Running, progress := p)
    case CompletionRequested(_, _) => x.(status := Verifying, progress := AtLeast(x.progress, 0.95))
    case GatePassed(_) => x.(status := Completed, progress := 1.0)
    case GateFailed(_) => x.(status := FixRequired)
    case _ => x
  }

  function OnTask(t: TaskStatus, e: Event): TaskStatus {
    match e.body
    case TaskStateChanged(_, to, _) => to
    case TaskCompleted(_) => TCompleted
    case AssignmentCreated(_, _, _) => if t == TReady then TRunning else t
    case _ => t
  }

  /** `defs` are the steps the task was created with; a step added later is described by its own event. */
  function Apply(defs: seq<StepDef>, v: View, e: Event): View {
    match e.body
    case TaskCreated(ids) =>
      View(TReady, map id | id in ids && id in StepIds(defs) :: FirstView(DefOf(defs, id), map[]))
    case StepAdded(step) => v.(steps := v.steps[step.stepId := FirstView(step, v.steps)])
    case _ =>
      View(OnTask(v.task, e),
           if e.stepId.Some? && e.stepId.value in v.steps
           then v.steps[e.stepId.value := OnStep(v.steps[e.stepId.value], e)] else v.steps)
  }

  function Folded(defs: seq<StepDef>, log: seq<Event>): View {
    if log == [] then Blank else Apply(defs, Folded(defs, log[..|log|-1]), log[|log|-1])
  }

  lemma FoldedSnoc(defs: seq<StepDef>, log: seq<Event>, e: Event)
    ensures Folded(defs, log + [e]) == Apply(defs, Folded(defs, log), e)
  {
    assert (log + [e])[..|log + [e]|-1] == log;
  }

  // ----- single events

  lemma LookLike(a: map<Id, StepRuntime>, b: map<Id, StepRuntime>)
    requires SameSteps(a, b)
    ensures LookAll(a) == LookAll(b)
  {
    assert forall id :: id in a ==> Like(a[id], b[id]);
  }

  lemma LookUpdate(steps: map<Id, StepRuntime>, id: Id, y: StepRuntime)
    ensures LookAll(steps[id := y]) == LookAll(steps)[id := Look(y)]
  {}

  lemma LookSame(steps: map<Id, StepRuntime>, id: Id)
    requires id in steps
    ensures LookAll(steps)[id := Look(steps[id])] == LookAll(steps)
  {}

  /** The recorded event says exactly what the call did to the step states and the task. */
  lemma EventTellsChange(defs: seq<StepDef>, s: Snapshot, op: Op, e: Event)
    requires s.rt.steps.Keys == StepIds(s.def.steps) && SingleEvent(op) && ChangeOf(s, op).Replace?
    requires SameContent(e, ChangeOf(s, op).input)
    ensures Apply(defs, ViewOf(s.rt), e) == ViewOf(ChangeOf(s, op).rt)
  {
    hide ActiveCount, AtLeast, SkillsOpen, DependencyReady, LookAll, Look, PreflightBlocker, ValidStepTransition,
      ValidTaskTransition, ValidBindingTransition, OpenBinding;
    TellsStep(s, op, e);
    var c := ChangeOf(s, op);
    if c.input.stepId.Some? && c.input.stepId.value in s.rt.steps {
      var id := c.input.stepId.value;
      LookUpdate(s.rt.steps, id, c.rt.steps[id]);
      LookSame(s.rt.steps, id);
      LookAt(s.rt.steps, id);
    }
    LookKeys(s.rt.steps);
  }

  lemma LookKeys(steps: map<Id, StepRuntime>)
    ensures LookAll(steps).Keys == steps.Keys
  {}

  lemma LookAt(steps: map<Id, StepRuntime>, id: Id)
    requires id in steps
    ensures id in LookAll(steps) && LookAll(steps)[id] == Look(steps[id])
  {}

  lemma TellsStep(s: Snapshot, op: Op, e: Event)
    requires s.rt.steps.Keys == StepIds(s.def.steps) && SingleEvent(op) && ChangeOf(s, op).Replace?
    requires SameContent(e, ChangeOf(s, op).input)
    ensures !e.body.TaskCreated? && !e.body.StepAdded?
    ensures var c := ChangeOf(s, op);
            && OnTask(s.rt.task.status, e) == c.rt.task.status
            && (c.input.stepId.Some? && c.input.stepId.value in s.rt.steps ==>
                  var id := c.input.stepId.value;
                  && c.rt.steps == s.rt.steps[id := c.rt.steps[id]]
                  && OnStep(Look(s.rt.steps[id]), e) == Look(c.rt.steps[id]))
            && (c.input.stepId.Some? && c.input.stepId.value !in s.rt.steps ==> c.rt.steps == s.rt.steps)
            && (c.input.stepId.None? ==> c.rt.steps == s.rt.steps)
  {
    hide ActiveCount, AtLeast, SkillsOpen, DependencyReady, PreflightBlocker, ValidStepTransition, ValidTaskTransition,
      ValidBindingTransition;
  }

  /** Appending one event that is not a repetition. */
  lemma AppendFolds(defs: seq<StepDef>, rt: Runtime, log: seq<Event>, input: EventInput, uuid: Uuids)
    requires Sound(log) && SequencesOk(rt, |log|) && !Replayed(log, input)
    requires forall e :: SameContent(e, input) ==> Apply(defs, Folded(defs, log), e) == ViewOf(rt)
    ensures var n := Append(rt, log, input, uuid); n.Noted? ==> Folded(defs, n.log) == ViewOf(n.rt)
  {
    hide Sound, SequencesOk, Apply, Folded, LookAll;
    AppendKeeps(rt, log, input, uuid);
    var n := Append(rt, log, input, uuid);
    if n.Noted? {
      FoldedSnoc(defs, log, NewEvent(log, input, uuid));
      assert SameContent(NewEvent(log, input, uuid), input);
      LookLike(rt.steps, n.rt.steps);
    }
  }

  /** Whether the call carries an event id that is in the file already. */
  predicate Reuses(log: seq<Event>, op: Op) {
    var id := match op
      case TransitionStepOp(_, _, _, identity) => identity.eventId
      case ProgressOp(_, _, _, identity) => identity.eventId
      case ArtifactOp(_, _, _, identity) => identity.eventId
      case RequestCompletionOp(_, _, identity) => identity.eventId
      case _ => None;
    id.Some? && EventLedger.Recorded(log, id.value)
  }

  lemma ReplayedOrReused(s: Snapshot, log: seq<Event>, op: Op)
    requires s.rt.steps.Keys == StepIds(s.def.steps) && SingleEvent(op) && ChangeOf(s, op).Replace?
    ensures Replayed(log, ChangeOf(s, op).input) == Reuses(log, op)
  {
    hide ActiveCount, AtLeast, SkillsOpen, DependencyReady, PreflightBlocker, ValidStepTransition, ValidTaskTransition,
      ValidBindingTransition, EventLedger.Recorded;
  }

  lemma SingleFolds(defs: seq<StepDef>, d: Disk, op: Op, uuid: Uuids)
    requires DiskInv(d) && SingleEvent(op) && d.snap.rt.steps.Keys == StepIds(d.snap.def.steps)
    requires ViewOf(d.snap.rt) == Folded(defs, d.log) && !Reuses(d.log, op)
    ensures var r := Settle(d.snap, d.log, ChangeOf(d.snap, op), uuid);
            r.Wrote? ==> ViewOf(r.snap.rt) == Folded(defs, r.log)
  {
    hide Fit, DerivedOk, SnapshotOk, Sound, ChangeOf, ViewOf, Apply, Folded, Append, Reuses, RefreshDerived;
    var c := ChangeOf(d.snap, op);
    if c.Replace? {
      ReplayedOrReused(d.snap, d.log, op);
      ChangeFit'(d.snap, op);
      SequencesKept(d.snap.rt, c, |d.log|);
      forall e | SameContent(e, c.input) ensures Apply(defs, Folded(defs, d.log), e) == ViewOf(c.rt) {
        EventTellsChange(defs, d.snap, op, e);
      }
      AppendFolds(defs, c.rt, d.log, c.input, uuid);
      AppendKeeps(c.rt, d.log, c.input, uuid);
      var n := Append(c.rt, d.log, c.input, uuid);
      if n.Noted? { SameKeys(c.rt.steps, n.rt.steps); RefreshedView(d.snap.def, n.rt); }
    }
  }

  lemma RefreshedView(def: Workflow, rt: Runtime)
    requires StepIds(def.steps) <= rt.steps.Keys
    ensures ViewOf(RefreshDerived(def, rt)) == ViewOf(rt)
  {}

  // ----- transitionStep

  /** A change of one step status by a state_changed event. */
  lemma TellsStatus(defs: seq<StepDef>, rt: Runtime, id: Id, y: StepRuntime, e: Event)
    requires id in rt.steps && e.stepId == Some(id) && e.body.StepStateChanged? && e.body.toStep == y.status
    requires y.attempt == rt.steps[id].attempt && y.assignmentId == rt.steps[id].assignmentId
    requires y.progress == rt.steps[id].progress
    ensures Apply(defs, ViewOf(rt), e) == ViewOf(WithStep(rt, id, y))
  {
    LookUpdate(rt.steps, id, y);
  }

  lemma TellsTask(defs: seq<StepDef>, rt: Runtime, to: TaskStatus, e: Event)
    requires e.stepId.None?
    requires (e.body.TaskStateChanged? && e.body.toTask == to) || (e.body.TaskCompleted? && to == TCompleted)
    ensures Apply(defs, ViewOf(rt), e) == ViewOf(rt.(task := rt.task.(status := to)))
  {}

  lemma CancelFolds(defs: seq<StepDef>, s: Snapshot, rt: Runtime, log: seq<Event>, uuid: Uuids)
    requires StepIds(s.def.steps) <= rt.steps.Keys && Sound(log) && SequencesOk(rt, |log|)
    requires ViewOf(rt) == Folded(defs, log)
    ensures var r := CancelWhenClosed(s, rt, log, uuid); r.Wrote? ==> ViewOf(r.snap.rt) == Folded(defs, r.log)
  {
    hide SnapshotOk, Sound, ViewOf, Apply, Folded, Append, AllClosed, SomeCancelled;
    if rt.task.status != TCancelled && SomeCancelled(rt.steps) && AllClosed(rt.steps) {
      var rt1 := rt.(task := rt.task.(status := TCancelled));
      var input := EventInput(None, None, TaskStateChanged(rt.task.status, TCancelled, Some("all_steps_terminal")),
                              Anonymous);
      forall e | SameContent(e, input)
        ensures Apply(defs, Folded(defs, log), e) == ViewOf(rt1) { TellsTask(defs, rt, TCancelled, e); }
      AppendFolds(defs, rt1, log, input, uuid);
    }
  }

  lemma TransitionFolds(defs: seq<StepDef>, d: Disk, op: Op, uuid: Uuids)
    requires DiskInv(d) && op.TransitionStepOp? && op.to !in {Completed, Verifying}
    requires d.snap.rt.steps.Keys == StepIds(d.snap.def.steps) && TransitionRefusal(d.snap, op.stepId, op.to).None?
    requires ViewOf(d.snap.rt) == Folded(defs, d.log) && !Reuses(d.log, op)
    ensures var r := TransitionStep(d.snap, d.log, op.stepId, op.to, op.why, op.identity, uuid);
            r.Wrote? ==> ViewOf(r.snap.rt) == Folded(defs, r.log)
  {
    hide Fit, DerivedOk, SnapshotOk, Sound, SequencesOk, ViewOf, Apply, Folded, Append, TransitionRefusal,
      CancelWhenClosed, RefreshDerived, EventLedger.Recorded;
    var s := d.snap;
    TransitionNumbers(s, |d.log|, op.stepId, op.to, op.why);
    var y := Transitioned(s.rt.steps[op.stepId], op.to, op.why);
    var rt, input := WithStep(s.rt, op.stepId, y), TransitionInput(s, op.stepId, op.to, op.why, op.identity);
    forall e | SameContent(e, input) ensures Apply(defs, Folded(defs, d.log), e) == ViewOf(rt) {
      TellsStatus(defs, s.rt, op.stepId, y, e);
    }
    AppendKeeps(rt, d.log, input, uuid);
    AppendFolds(defs, rt, d.log, input, uuid);
    var n := Append(rt, d.log, input, uuid);
    if n.Noted? {
      RefreshedView(s.def, n.rt);
      RefreshedNumbers(s.def, n.rt, |n.log|);
      CancelFolds(defs, s, RefreshDerived(s.def, n.rt), n.log, uuid);
    }
  }

  lemma RefreshedNumbers(def: Workflow, rt: Runtime, n: nat)
    requires StepIds(def.steps) <= rt.steps.Keys && SequencesOk(rt, n)
    ensures SequencesOk(RefreshDerived(def, rt), n) && RefreshDerived(def, rt).steps.Keys == rt.steps.Keys
  {}

  // ----- gatePassed

  lemma {:induction false} PromoteFolds(defs: seq<StepDef>, all: seq<StepDef>, i: nat, rt: Runtime, log: seq<Event>,
                                        uuid: Uuids)
    requires i <= |all| && StepIds(all) <= rt.steps.Keys && Sound(log) && SequencesOk(rt, |log|)
    requires ViewOf(rt) == Folded(defs, log)
    ensures var r := PromoteFrom(all, i, rt, log, uuid);
            r.Ran? ==> ViewOf(r.rt) == Folded(defs, r.log) && Sound(r.log) && SequencesOk(r.rt, |r.log|)
    decreases |all| - i
  {
    hide Sound, SequencesOk, ViewOf, Apply, Folded, Append, DependencyReady;
    if i < |all| {
      var id := all[i].stepId;
      assert id in StepIds(all);
      if !Promotable(all[i], rt.steps) {
        PromoteFolds(defs, all, i + 1, rt, log, uuid);
      } else {
        var y := rt.steps[id].(status := Ready);
        var rt1 := WithStep(rt, id, y);
        var input := EventInput(Some(id), None,
                                StepStateChanged(WaitingDependency, Ready, Some("dependency_completed")), Anonymous);
        ReadyNumbers(rt, |log|, id);
        forall e | SameContent(e, input)
          ensures Apply(defs, Folded(defs, log), e) == ViewOf(rt1) { TellsStatus(defs, rt, id, y, e); }
        AppendKeeps(rt1, log, input, uuid);
        AppendFolds(defs, rt1, log, input, uuid);
        var n := Append(rt1, log, input, uuid);
        if n.Noted? { PromoteFolds(defs, all, i + 1, n.rt, n.log, uuid); }
      }
    }
  }

  lemma ReadyNumbers(rt: Runtime, n: nat, id: Id)
    requires SequencesOk(rt, n) && id in rt.steps
    ensures SequencesOk(WithStep(rt, id, rt.steps[id].(status := Ready)), n)
    ensures SequencesOk(WithStep(rt, id, Passed(rt.steps[id])), n)
  {}

  lemma CloseFolds(defs: seq<StepDef>, s: Snapshot, rt: Runtime, log: seq<Event>, uuid: Uuids)
    requires StepIds(s.def.steps) <= rt.steps.Keys && Sound(log) && SequencesOk(rt, |log|)
    requires ViewOf(rt) == Folded(defs, log)
    ensures var r := CloseTask(s, rt, log, uuid); r.Wrote? ==> ViewOf(r.snap.rt) == Folded(defs, r.log)
  {
    hide SnapshotOk, Sound, ViewOf, Apply, Folded, Append, AllClosed, AllCompleted, RefreshDerived;
    RefreshedView(s.def, rt);
    if AllClosed(rt.steps) {
      var to := if rt.steps.Keys != {} && AllCompleted(rt.steps) then TCompleted else TCancelled;
      var body := if to == TCompleted then TaskCompleted(IdList(s.def.steps))
                  else TaskStateChanged(rt.task.status, TCancelled, Some("all_steps_terminal"));
      var rt1, input := rt.(task := rt.task.(status := to)), EventInput(None, None, body, Anonymous);
      forall e | SameContent(e, input)
        ensures Apply(defs, Folded(defs, log), e) == ViewOf(rt1) { TellsTask(defs, rt, to, e); }
      AppendFolds(defs, rt1, log, input, uuid);
      AppendKeeps(rt1, log, input, uuid);
      var n := Append(rt1, log, input, uuid);
      if n.Noted? { SameKeys(rt1.steps, n.rt.steps); RefreshedView(s.def, n.rt); }
    }
  }

  lemma TellsPass(defs: seq<StepDef>, rt: Runtime, id: Id, e: Event)
    requires id in rt.steps && e.stepId == Some(id) && e.body.GatePassed?
    ensures Apply(defs, ViewOf(rt), e) == ViewOf(WithStep(rt, id, Passed(rt.steps[id])))
  {
    LookUpdate(rt.steps, id, Passed(rt.steps[id]));
  }

  lemma GateFolds(defs: seq<StepDef>, d: Disk, stepId: Id, e: Evidence, uuid: Uuids)
    requires DiskInv(d) && d.snap.rt.steps.Keys == StepIds(d.snap.def.steps)
    requires GateRefusal(d.snap, d.log, stepId, e).None?
    requires ViewOf(d.snap.rt) == Folded(defs, d.log)
    ensures var r := GatePass(d.snap, d.log, stepId, e, uuid); r.Wrote? ==> ViewOf(r.snap.rt) == Folded(defs, r.log)
  {
    hide Fit, DerivedOk, SnapshotOk, Sound, SequencesOk, ViewOf, Apply, Folded, Append, GateRefusal, PromoteFrom,
      CloseTask, Passed;
    var s := d.snap;
    GateKnown(s, d.log, stepId, e);
    var rt := WithStep(s.rt, stepId, Passed(s.rt.steps[stepId]));
    var input := EventInput(Some(stepId), s.rt.steps[stepId].assignmentId, GatePassed(e), Anonymous);
    ReadyNumbers(s.rt, |d.log|, stepId);
    forall ev | SameContent(ev, input)
      ensures Apply(defs, Folded(defs, d.log), ev) == ViewOf(rt) { TellsPass(defs, s.rt, stepId, ev); }
    AppendKeeps(rt, d.log, input, uuid);
    AppendFolds(defs, rt, d.log, input, uuid);
    var n := Append(rt, d.log, input, uuid);
    if n.Noted? {
      SameKeys(rt.steps, n.rt.steps);
      PromoteFolds(defs, s.def.steps, 0, n.rt, n.log, uuid);
      var p := PromoteFrom(s.def.steps, 0, n.rt, n.log, uuid);
      if p.Ran? { CloseFolds(defs, s, p.rt, p.log, uuid); }
    }
  }

  // ----- addSteps

  /** The views after the events of the first `i` additions. */
  function AddedViews(v: map<Id, StepView>, additions: seq<StepDef>, i: nat): map<Id, StepView>
    requires i <= |additions|
  {
    if i == 0 then v else
      var w := AddedViews(v, additions, i - 1);
      w[additions[i-1].stepId := FirstView(additions[i-1], w)]
  }

  lemma {:induction false} AddedFolds(defs: seq<StepDef>, v: View, rt: Runtime, log: seq<Event>,
                                      additions: seq<StepDef>, i: nat, uuid: Uuids)
    requires i <= |additions| && Folded(defs, log) == View(v.task, AddedViews(v.steps, additions, i))
    ensures var r := AppendAdded(rt, log, additions, i, uuid);
            r.Ran? ==> Folded(defs, r.log) == View(v.task, AddedViews(v.steps, additions, |additions|))
    decreases |additions| - i
  {
    if i < |additions| {
      var input := EventInput(Some(additions[i].stepId), None, StepAdded(additions[i]), Anonymous);
      var n := Append(rt, log, input, uuid);
      if n.Noted? {
        FoldedSnoc(defs, log, NewEvent(log, input, uuid));
        AddedFolds(defs, v, n.rt, n.log, additions, i + 1, uuid);
      }
    }
  }

  /** The views of the old steps, and those of the first `i` additions as the call initialises them. */
  predicate AddedAs(was: map<Id, StepRuntime>, additions: seq<StepDef>, i: nat, now: map<Id, StepView>) {
    && (forall id :: id in was ==> id in now && now[id] == Look(was[id]))
    && (forall k :: 0 <= k < i && k < |additions| ==>
          additions[k].stepId in now && now[additions[k].stepId] == Look(InitialStep(additions[k], CompletedIds(was))))
    && (forall id :: id in now && id !in was ==> exists k :: 0 <= k < i && k < |additions| && additions[k].stepId == id)
  }

  predicate NewIds(was: map<Id, StepRuntime>, additions: seq<StepDef>) {
    && (forall k :: 0 <= k < |additions| ==> additions[k].stepId !in was)
    && (forall i, k :: 0 <= i < k < |additions| ==> additions[i].stepId != additions[k].stepId)
  }

  lemma DoneUnchanged(was: map<Id, StepRuntime>, additions: seq<StepDef>, i: nat, now: map<Id, StepView>, id: Id)
    requires AddedAs(was, additions, i, now)
    ensures id in now && now[id].status == Completed <==> id in CompletedIds(was)
  {
    if id in now && id !in was {
      var k :| 0 <= k < i && k < |additions| && additions[k].stepId == id;
      assert now[id] == Look(InitialStep(additions[k], CompletedIds(was)));
    }
  }

  lemma FirstViewAs(was: map<Id, StepRuntime>, additions: seq<StepDef>, i: nat, now: map<Id, StepView>, step: StepDef)
    requires AddedAs(was, additions, i, now)
    ensures FirstView(step, now) == Look(InitialStep(step, CompletedIds(was)))
  {
    hide AddedAs, CompletedIds;
    forall d | d in step.dependsOn ensures d in now && now[d].status == Completed <==> d in CompletedIds(was) {
      DoneUnchanged(was, additions, i, now, d);
    }
  }

  lemma AddOne(was: map<Id, StepRuntime>, additions: seq<StepDef>, i: nat, now: map<Id, StepView>, x: StepView)
    requires AddedAs(was, additions, i, now) && i < |additions| && NewIds(was, additions)
    requires x == Look(InitialStep(additions[i], CompletedIds(was)))
    ensures AddedAs(was, additions, i + 1, now[additions[i].stepId := x])
  {
    hide CompletedIds, Look, InitialStep;
    var t := now[additions[i].stepId := x];
    forall k | 0 <= k < i + 1
      ensures additions[k].stepId in t && t[additions[k].stepId] == Look(InitialStep(additions[k], CompletedIds(was))) {
      if k < i { assert additions[k].stepId != additions[i].stepId; }
    }
    forall id | id in t && id !in was
      ensures exists k :: 0 <= k < i + 1 && k < |additions| && additions[k].stepId == id {
      if id != additions[i].stepId { var k :| 0 <= k < i && k < |additions| && additions[k].stepId == id; }
    }
  }

  lemma NoneAdded(was: map<Id, StepRuntime>, additions: seq<StepDef>)
    ensures AddedAs(was, additions, 0, LookAll(was))
  {}

  /** Fresh steps, seen one at a time, are the steps the call initialised together. */
  lemma {:induction false} AddedTogether(was: map<Id, StepRuntime>, additions: seq<StepDef>, i: nat)
    requires i <= |additions| && NewIds(was, additions)
    ensures AddedAs(was, additions, i, AddedViews(LookAll(was), additions, i))
  {
    hide AddedAs, NewIds, LookAll, FirstView;
    if i == 0 {
      NoneAdded(was, additions);
    } else {
      AddedTogether(was, additions, i - 1);
      var w := AddedViews(LookAll(was), additions, i - 1);
      FirstViewAs(was, additions, i - 1, w, additions[i-1]);
      AddOne(was, additions, i - 1, w, FirstView(additions[i-1], w));
    }
  }

  lemma AdditionsNew(defs: seq<StepDef>, was: map<Id, StepRuntime>, additions: seq<StepDef>)
    requires was.Keys == StepIds(defs) && UniqueIds(defs + additions)
    ensures NewIds(was, additions) && UniqueIds(additions)
  {
    var all := defs + additions;
    forall j, k | 0 <= j < |defs| && 0 <= k < |additions| ensures defs[j].stepId != additions[k].stepId {
      assert all[j] == defs[j] && all[|defs| + k] == additions[k];
    }
    forall i, j | 0 <= i < j < |additions| ensures additions[i].stepId != additions[j].stepId {
      assert all[|defs| + i] == additions[i] && all[|defs| + j] == additions[j];
    }
  }

  lemma AdditionViews(defs: seq<StepDef>, was: map<Id, StepRuntime>, additions: seq<StepDef>)
    requires was.Keys == StepIds(defs) && UniqueIds(defs + additions)
    ensures AddedViews(LookAll(was), additions, |additions|)
            == LookAll(was + InitialSteps(additions, CompletedIds(was)))
  {
    AdditionsNew(defs, was, additions);
    AddedTogether(was, additions, |additions|);
    ViewsAgree(was, additions, AddedViews(LookAll(was), additions, |additions|));
  }

  lemma ViewsAgree(was: map<Id, StepRuntime>, additions: seq<StepDef>, a: map<Id, StepView>)
    requires AddedAs(was, additions, |additions|, a) && NewIds(was, additions) && UniqueIds(additions)
    ensures a == LookAll(was + InitialSteps(additions, CompletedIds(was)))
  {
    hide Look, InitialStep, CompletedIds;
    var b := LookAll(was + InitialSteps(additions, CompletedIds(was)));
    forall id | id in a ensures id in b && a[id] == b[id] {
      if id !in was {
        var k :| 0 <= k < |additions| && additions[k].stepId == id;
        DefOfIndex(additions, k);
      } else {
        assert id !in InitialSteps(additions, CompletedIds(was)) by { AdditionUnknown(was, additions, id); }
      }
    }
    forall id | id in b ensures id in a {
      if id !in was { AdditionKnown(additions, id); }
    }
  }

  lemma AdditionUnknown(was: map<Id, StepRuntime>, additions: seq<StepDef>, id: Id)
    requires NewIds(was, additions) && id in was
    ensures id !in StepIds(additions)
  {}

  lemma AdditionKnown(additions: seq<StepDef>, id: Id)
    requires id in StepIds(additions)
    ensures exists k :: 0 <= k < |additions| && additions[k].stepId == id
  {}

  lemma AdditionsFold(defs: seq<StepDef>, d: Disk, additions: seq<StepDef>, uuid: Uuids)
    requires DiskInv(d) && Base(d.snap) && ViewOf(d.snap.rt) == Folded(defs, d.log)
    ensures var r := AddSteps(d.snap, d.log, additions, uuid); r.Wrote? ==> ViewOf(r.snap.rt) == Folded(defs, r.log)
  {
    hide Fit, DerivedOk, DefinitionOk, RuntimeOk, Folded, AppendAdded, AddedViews, LookAll, TaskProgress, ActiveList,
      InitialSteps, UniqueIds, Sound, SequencesOk;
    var s := d.snap;
    var r := AddSteps(s, d.log, additions, uuid);
    if additions != [] && r.Wrote? {
      var def := s.def.(revision := s.def.revision + 1, steps := s.def.steps + additions);
      ExtendedFacts(s.def.steps, s.rt.steps, additions);
      var steps := s.rt.steps + InitialSteps(additions, CompletedIds(s.rt.steps));
      AddedKeys(s.def.steps, s.rt.steps, additions, steps);
      var rt := RefreshDerived(def, s.rt.(steps := steps));
      AddedNumbers(s.rt, |d.log|, additions, rt);
      NoViewsAdded(LookAll(s.rt.steps), additions);
      AddedFolds(defs, ViewOf(s.rt), rt, d.log, additions, 0, uuid);
      AddedShape(rt, d.log, additions, 0, uuid);
      AdditionViews(s.def.steps, s.rt.steps, additions);
      var n := AppendAdded(rt, d.log, additions, 0, uuid);
      LookLike(steps, n.rt.steps);
    }
  }

  lemma NoViewsAdded(v: map<Id, StepView>, additions: seq<StepDef>)
    ensures AddedViews(v, additions, 0) == v
  {}

  // ----- all operations

  lemma CallFolds(defs: seq<StepDef>, d: Disk, op: Op, uuid: Uuids)
    requires DiskInv(d) && ViewOf(d.snap.rt) == Folded(defs, d.log) && !Reuses(d.log, op)
    ensures var r := Exec(d, op, uuid); r.Wrote? ==> ViewOf(r.snap.rt) == Folded(defs, r.log)
  {
    hide SnapshotOk, DerivedOk, Fit, Sound, SequencesOk, AddSteps, ReconcileReadiness, GatePass, Settle, ChangeOf,
      ViewOf, Folded, Reuses, Append, CancelWhenClosed, TransitionRefusal, RequestChange, GateRefusal;
    SnapshotBase(d.snap);
    match op
    case AddStepsOp(additions) => AdditionsFold(defs, d, additions, uuid);
    case ReconcileOp => ReconcileIsIdle(d, uuid);
    case TransitionStepOp(id, to, why, identity) =>
      if to == Verifying { VerifyFolds(defs, d, id, why, identity, to, uuid); }
      else if to != Completed && TransitionRefusal(d.snap, id, to).None? { TransitionFolds(defs, d, op, uuid); }
    case GatePassOp(id, evidence) => GatePassFolds(defs, d, id, evidence, uuid);
    case _ => SingleFolds(defs, d, op, uuid);
  }

  lemma GatePassFolds(defs: seq<StepDef>, d: Disk, stepId: Id, e: Evidence, uuid: Uuids)
    requires DiskInv(d) && Base(d.snap) && ViewOf(d.snap.rt) == Folded(defs, d.log)
    ensures var r := GatePass(d.snap, d.log, stepId, e, uuid); r.Wrote? ==> ViewOf(r.snap.rt) == Folded(defs, r.log)
  {
    hide SnapshotOk, DerivedOk, Fit, Sound, SequencesOk, Append, PromoteFrom, CloseTask, ViewOf, Folded, GateRefusal;
    if GateRefusal(d.snap, d.log, stepId, e).None? { GateFolds(defs, d, stepId, e, uuid); }
  }

  lemma VerifyFolds(defs: seq<StepDef>, d: Disk, id: Id, why: Option<string>, identity: Identity, to: StepStatus,
                    uuid: Uuids)
    requires DiskInv(d) && d.snap.rt.steps.Keys == StepIds(d.snap.def.steps) && ViewOf(d.snap.rt) == Folded(defs, d.log)
    requires !Reuses(d.log, TransitionStepOp(id, to, why, identity))
    ensures var r := Settle(d.snap, d.log, RequestChange(d.snap, id, why, identity), uuid);
            r.Wrote? ==> ViewOf(r.snap.rt) == Folded(defs, r.log)
  {
    hide DiskInv, Settle, ViewOf, Folded;
    SingleFolds(defs, d, RequestCompletionOp(id, why, identity), uuid);
  }

  // ----- runs

  lemma BornFolds(def: Workflow, uuid: Uuids)
    requires Creatable(def)
    ensures var d := Born(def, uuid, Whole); ViewOf(d.snap.rt) == Folded(def.steps, d.log)
  {
    hide SnapshotOk, RefreshDerived, Folded, LookAll, Append, NewEvent, CreatedInput;
    var s := InitialSnapshot(def);
    var e := NewEvent([], CreatedInput(def), uuid);
    FirstAppend(def, uuid);
    var n := Append(s.rt, [], CreatedInput(def), uuid);
    RefreshedInitial(def);
    NotedOk(def, n.rt);
    assert [] + [e] == [e];
    FoldedSnoc(def.steps, [], e);
    FirstEvent(def, e, Folded(def.steps, []), s, n.rt);
  }

  lemma FirstAppend(def: Workflow, uuid: Uuids)
    ensures var e := NewEvent([], CreatedInput(def), uuid);
            Append(InitialSnapshot(def).rt, [], CreatedInput(def), uuid)
              == Noted(Stamp(InitialSnapshot(def).rt, None, 1, 1), [e])
    ensures NewEvent([], CreatedInput(def), uuid).body == TaskCreated(IdList(def.steps))
  {
    hide RefreshDerived, InitialSteps;
  }

  lemma RefreshedInitial(def: Workflow)
    ensures var s := InitialSnapshot(def);
            && s.def == def && s.rt.steps == InitialSteps(def.steps, {}) && s.rt.task.status == TReady
            && s.rt.assignments == [] && s.rt.bindings == []
  {}

  lemma NotedOk(def: Workflow, rt: Runtime)
    requires SnapshotOk(InitialSnapshot(def)) && rt == Stamp(InitialSnapshot(def).rt, None, 1, 1)
    ensures SnapshotOk(Snapshot(def, rt)) && RevisionOk(def, def)
  {
    hide DefinitionOk, RuntimeOk, RefreshDerived;
    SnapRuntimeOk(InitialSnapshot(def));
    RuntimeOkLike(def, InitialSnapshot(def).rt, rt);
  }

  lemma FirstEvent(def: Workflow, e: Event, v: View, s: Snapshot, rt: Runtime)
    requires e.body == TaskCreated(IdList(def.steps)) && s.rt.steps == InitialSteps(def.steps, {})
    requires s.rt.task.status == TReady
    requires rt == Stamp(s.rt, None, 1, 1)
    ensures Apply(def.steps, v, e) == ViewOf(rt)
  {
    hide InitialSteps, IdList, DefOf, FirstView, LookAll;
    FirstViews(def);
  }

  lemma FirstViews(def: Workflow)
    ensures (map id | id in IdList(def.steps) && id in StepIds(def.steps) :: FirstView(DefOf(def.steps, id), map[]))
            == LookAll(InitialSteps(def.steps, {}))
  {
    var ids := IdList(def.steps);
    forall id | id in StepIds(def.steps) ensures id in ids {
      var x := DefOf(def.steps, id);
      var k :| 0 <= k < |def.steps| && def.steps[k] == x;
      assert ids[k] == id;
    }
  }

  /** A call without a crash that either completes without reusing an event id or throws before it appends. */
  ghost predicate Clean(d: Disk, m: Move) {
    var r := Exec(d, m.op, m.uuid);
    m.Call? && if r.Wrote? then !Reuses(d.log, m.op) else r.log == d.log
  }

  ghost predicate CleanRun(d: Disk, moves: seq<Move>) {
    moves != [] ==> CleanRun(d, moves[..|moves|-1]) && Clean(Run(d, moves[..|moves|-1]), moves[|moves|-1])
  }

  lemma {:induction false} RunFolds(defs: seq<StepDef>, d: Disk, moves: seq<Move>)
    requires DiskInv(d) && ViewOf(d.snap.rt) == Folded(defs, d.log) && CleanRun(d, moves)
    ensures var now := Run(d, moves); ViewOf(now.snap.rt) == Folded(defs, now.log)
  {
    hide DiskInv, Exec, ViewOf, Folded, Reuses;
    if moves != [] {
      var n := |moves| - 1;
      RunFolds(defs, d, moves[..n]);
      RunInv(d, moves[..n]);
      var e, m := Run(d, moves[..n]), moves[n];
      if Exec(e, m.op, m.uuid).Wrote? { CallFolds(defs, e, m.op, m.uuid); }
    }
  }

  /** In every run without a crash, a reused event id or a call that throws after an append, the event file folds to
      the stored status, attempt, assignment and progress of every step and to the stored task status. */
  lemma SnapshotIsTheFold(def: Workflow, uuid: Uuids, moves: seq<Move>)
    requires Creatable(def) && CleanRun(Born(def, uuid, Whole), moves)
    ensures var now := Run(Born(def, uuid, Whole), moves); ViewOf(now.snap.rt) == Folded(def.steps, now.log)
  {
    hide *;
    BornInv(def, uuid, Whole);
    BornFolds(def, uuid);
    RunFolds(def.steps, Born(def, uuid, Whole), moves);
  }
}
