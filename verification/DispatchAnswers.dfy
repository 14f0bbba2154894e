/** A dispatch whose messages all get through: when it succeeds
    (apps/zero3-desktop/control-runtime/control-client.ts:190-222). */
module DispatchAnswers {
  import opened Wrappers
  import opened CanonicalJson
  import opened TaskExtensions
  import opened Dispatch

  /** No sidecar is stored for the task, or the very one of this dispatch. */
  predicate SidecarFits(sidecars: map<Id, Sidecar>, task: RemoteTask, extension: Option<Fields>) {
    match extension
    case None => true
    case Some(fields) =>
      task.taskId in sidecars ==>
        sidecars[task.taskId].executionId == task.executionId && SameFields(sidecars[task.taskId].fields, fields)
  }

  /** The task is stored already, or neither its id nor its execution is taken. */
  ghost predicate TaskFits(p: Plane, task: RemoteTask) {
    if task.taskId in p.tasks then p.tasks[task.taskId].task == task
    else forall k :: k in p.tasks ==> p.tasks[k].task.executionId != task.executionId
  }

  /** The attempt is at the given point of an exchange in which nothing was lost. */
  ghost predicate At(w: World, n: World, i: nat, task: RemoteTask, extension: Option<Fields>, phase: Phase) {
    && i == |w.attempts| && |n.attempts| == i + 1 && n.attempts[i] == Attempt(task, extension, phase)
  }

  lemma Begun(w: World, task: RemoteTask, extension: Option<Fields>, ttl: int)
    ensures var n := Next(w, Begin(task, extension), ttl); var x := Normalized(extension);
            && At(w, n, |w.attempts|, task, x, if x.Some? then AwaitPut else AwaitCreate)
            && (|w.attempts|, if x.Some? then PutSidecar else CreateTask) in n.sent
            && n.sidecars == w.sidecars && n.plane == w.plane
  {}

  /** The sidecar is put and the answer read. */
  lemma PutThrough(w: World, i: nat, now: int, ttl: int) returns (answer: Step)
    requires i < |w.attempts| && w.attempts[i].phase == AwaitPut && (i, PutSidecar) in w.sent
    requires w.attempts[i].extension.Some? && SidecarsOk(w.sidecars) && SomeField(w.attempts[i].extension.value)
    ensures answer.Receive? && answer.i == i
    ensures var x := w.attempts[i]; var n := Next(Next(w, Arrive(i, PutSidecar, now, true), ttl), answer, ttl);
            var fits := SidecarFits(w.sidecars, x.task, x.extension);
            && n.attempts == w.attempts[i := x.(phase := if fits then AwaitCreate else AwaitGet)]
            && (i, if fits then CreateTask else GetSidecar) in n.sent && n.plane == w.plane
            && (if fits then x.task.taskId in n.sidecars else n.sidecars == w.sidecars)
  {
    hide SameFields, SomeField;
    var x := w.attempts[i];
    var fields := x.extension.value;
    PutExactly(w.sidecars, x.task.taskId, x.task.executionId, Some(0), fields, true);
    var (records, reply) := PutOutcome(w.sidecars, x.task.taskId, x.task.executionId, Some(0), fields, true);
    NeverFailing(w.sidecars, x.task.taskId, x.task.executionId, fields);
    answer := Receive(i, PutAnswer(reply));
  }

  lemma NeverFailing(sidecars: map<Id, Sidecar>, taskId: Id, executionId: Id, fields: Fields)
    requires SomeField(fields)
    ensures var (_, reply) := PutOutcome(sidecars, taskId, executionId, Some(0), fields, true);
            reply.Stored? || reply.Conflict?
  {
    hide SameFields, SomeField;
    PutExactly(sidecars, taskId, executionId, Some(0), fields, true);
    HasField(fields);
  }

  lemma HasField(fields: Fields)
    ensures SomeField(fields) <==> !NoField(fields)
  {
    var all := [fields.projectContext, fields.handoff, fields.provider, fields.review];
    assert all[0] in all && all[1] in all && all[2] in all && all[3] in all;
  }

  /** The stored sidecar is fetched after a conflict: the task is posted if it is the sidecar of this dispatch after
      all. */
  lemma GetThrough(w: World, i: nat, now: int, ttl: int) returns (answer: Step)
    requires i < |w.attempts| && w.attempts[i].phase == AwaitGet && (i, GetSidecar) in w.sent
    requires w.attempts[i].extension.Some? && SidecarsOk(w.sidecars) && ProperFields(w.attempts[i].extension.value)
    ensures answer.Receive? && answer.i == i
    ensures var n := Next(Next(w, Arrive(i, GetSidecar, now, true), ttl), answer, ttl);
            var x := w.attempts[i];
            var own := x.task.taskId in w.sidecars && SidecarFits(w.sidecars, x.task, x.extension);
            && n.attempts == w.attempts[i := x.(phase := if own then AwaitCreate else Failed)]
            && (own ==> (i, CreateTask) in n.sent) && n.plane == w.plane && n.sidecars == w.sidecars
  {
    hide ReplayMatches, SameFields, ProperFields;
    var x := w.attempts[i];
    var stored := if x.task.taskId in w.sidecars then Some(w.sidecars[x.task.taskId]) else None;
    if stored.Some? { ClientAgreesWithServer(stored.value, x.task.executionId, x.extension.value); }
    else { NothingMatches(x.task.executionId, x.extension.value); }
    answer := Receive(i, GetAnswer(stored));
  }

  lemma NothingMatches(executionId: Id, fields: Fields)
    ensures !ReplayMatches(None, executionId, fields)
  {
    hide Print, Blank;
  }

  /** The task is posted and the answer read. */
  lemma CreateThrough(w: World, i: nat, now: int, ttl: int) returns (answer: Step)
    requires i < |w.attempts| && w.attempts[i].phase == AwaitCreate && (i, CreateTask) in w.sent
    ensures answer.Receive? && answer.i == i
    ensures var x := w.attempts[i]; var n := Next(Next(w, Arrive(i, CreateTask, now, true), ttl), answer, ttl);
            && n.attempts == w.attempts[i := x.(phase := if TaskFits(w.plane, x.task) then Done else Failed)]
            && n.sidecars == w.sidecars && (i, CreateTask) in n.sent
            && (TaskFits(w.plane, x.task) ==>
                  x.task.taskId in n.plane.tasks && n.plane.tasks[x.task.taskId].task == x.task)
  {
    var t := w.attempts[i].task;
    var o := ControlPlane.Handle(w.plane, ControlPlane.Request.CreateTask(t), now, 0, true);
    answer := Receive(i, CreateAnswer(o.reply));
  }

  /** From any reachable state a dispatch whose messages get through ends; it succeeds if and only if no other sidecar
      is stored for its task, nor another task under its id or its execution; then its sidecar and its task are
      stored. */
  lemma DispatchExactly(ttl: int, steps: seq<Step>, task: RemoteTask, extension: Option<Fields>, now: int)
    returns (more: seq<Step>)
    requires StepsOk(steps) && StepOk(Begin(task, extension))
    ensures 1 <= |more| <= 5 && more[0] == Begin(task, extension) && StepsOk(steps + more)
    ensures forall k :: 1 <= k < |more| ==>
              (more[k].Arrive? || more[k].Receive?) && more[k].i == |Run(Start, ttl, steps).attempts|
    ensures var w, e := Run(Start, ttl, steps), Run(Start, ttl, steps + more);
            var i, x := |w.attempts|, Normalized(extension);
            && |e.attempts| == i + 1 && e.attempts[i].phase in {Done, Failed}
            && (e.attempts[i].phase == Done <==> SidecarFits(w.sidecars, task, x) && TaskFits(w.plane, task))
            && (e.attempts[i].phase == Done ==>
                  && task.taskId in e.plane.tasks && e.plane.tasks[task.taskId].task == task
                  && (x.Some? ==> task.taskId in e.sidecars
                                  && MatchesPayload(e.sidecars[task.taskId], task.executionId, x.value)))
  {
    hide Run, Next, Inv, SidecarFits, TaskFits, MatchesPayload, ProperFields, SomeField, Normalized;
    var w, x := Run(Start, ttl, steps), Normalized(extension);
    var i := |w.attempts|;
    NormalizedFields(extension);
    Begun(w, task, extension, ttl);
    RunSnoc(Start, ttl, steps, Begin(task, extension));
    more := [Begin(task, extension)];
    RunOk(ttl, steps); InvSidecars(w);
    NoExtensionFits(w.sidecars, task, x);
    var n := Run(Start, ttl, steps + more);
    if x.Some? {
      var put := PutThrough(n, i, now, ttl);
      more := Through(ttl, steps, more, Arrive(i, PutSidecar, now, true), put);
      n := Run(Start, ttl, steps + more);
      if !SidecarFits(w.sidecars, task, x) {
        var get := GetThrough(n, i, now, ttl);
        more := Through(ttl, steps, more, Arrive(i, GetSidecar, now, true), get);
      }
    }
    if SidecarFits(w.sidecars, task, x) {
      var made := CreateThrough(n, i, now, ttl);
      more := Through(ttl, steps, more, Arrive(i, CreateTask, now, true), made);
      RunOk(ttl, steps + more);
      CoveredAtEnd(Run(Start, ttl, steps + more), i);
    }
  }

  lemma NormalizedFields(extension: Option<Fields>)
    requires extension.Some? ==> ProperFields(extension.value)
    ensures Normalized(extension) == if extension.Some? && SomeField(extension.value) then extension else None
  {
    hide SomeField, ProperFields;
    if extension.Some? { HasField(extension.value); }
  }

  lemma InvSidecars(w: World)
    requires Inv(w)
    ensures SidecarsOk(w.sidecars)
  {}

  lemma NoExtensionFits(sidecars: map<Id, Sidecar>, task: RemoteTask, x: Option<Fields>)
    ensures x.None? ==> SidecarFits(sidecars, task, x)
  {}

  lemma CoveredAtEnd(w: World, i: nat)
    requires Inv(w) && i < |w.attempts| && (i, CreateTask) in w.sent
    ensures var x := w.attempts[i];
            x.extension.Some? ==> x.task.taskId in w.sidecars
                                  && MatchesPayload(w.sidecars[x.task.taskId], x.task.executionId, x.extension.value)
  {
    hide MatchesPayload, SidecarsOk, AttemptsOk, AnswersOk, RecordsOk, Fencing.PlaneOk;
    if w.attempts[i].extension.Some? {
      var p := (i, CreateTask);
      assert p in w.sent && Covered(w.sidecars, w.attempts[p.0]);
    }
  }

  lemma RunSnoc(w: World, ttl: int, steps: seq<Step>, s: Step)
    ensures Run(w, ttl, steps + [s]) == Next(Run(w, ttl, steps), s, ttl)
  {
    hide Next;
    assert (steps + [s])[..|steps|] == steps;
  }

  /** A request arrives and its answer is read. */
  lemma Through(ttl: int, steps: seq<Step>, more: seq<Step>, arrive: Step, receive: Step) returns (all: seq<Step>)
    requires arrive.Arrive? && receive.Receive? && StepsOk(steps + more)
    ensures all == more + [arrive, receive] && StepsOk(steps + all)
    ensures Run(Start, ttl, steps + all) == Next(Next(Run(Start, ttl, steps + more), arrive, ttl), receive, ttl)
  {
    hide Next;
    all := more + [arrive, receive];
    RunSnoc(Start, ttl, steps + more, arrive);
    RunSnoc(Start, ttl, steps + more + [arrive], receive);
    assert steps + all == steps + more + [arrive] + [receive];
  }
}
