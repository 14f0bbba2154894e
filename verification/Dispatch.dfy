/** Sidecar first, then the task: the two-write dispatch of the control client
    (control-runtime/control-client.ts:190-222) over a network that loses, repeats and delays requests, against the two
    stores it writes to. */
module Dispatch {
  import opened Wrappers
  import opened CanonicalJson
  import opened TaskExtensions
  import ControlPlane
  import Fencing

  type RemoteTask = ControlPlane.RemoteTask
  type Plane = ControlPlane.Plane

  /** Where one call of `dispatchCodex` stands. */
  datatype Phase = AwaitPut | AwaitGet | AwaitCreate | Done | Failed

  datatype Attempt = Attempt(task: RemoteTask, extension: Option<Fields>, phase: Phase)

  /** A request an attempt has sent; it can reach the server any number of times, at any later moment, or never. */
  datatype Message = PutSidecar | GetSidecar | CreateTask

  /** What the server may have answered to an attempt; an answer, too, can be lost. */
  datatype Answer =
    | PutAnswer(reply: PutReply)
    | GetAnswer(existing: Option<Sidecar>)
    | CreateAnswer(created: ControlPlane.Reply)

  datatype World = World(
    sidecars: map<Id, Sidecar>,
    plane: Plane,
    attempts: seq<Attempt>,
    sent: set<(nat, Message)>,
    answers: set<(nat, Answer)>)

  const Start := World(map[], ControlPlane.EmptyPlane, [], {}, {})

  datatype Step =
    | Begin(task: RemoteTask, extension: Option<Fields>)
    | Arrive(i: nat, m: Message, now: int, ok: bool)
    | Receive(i: nat, a: Answer)
    | GiveUp(i: nat)
    | Host(request: ControlPlane.Request, now: int, ok: bool)

  /** An extension without any field counts as none. */
  function Normalized(extension: Option<Fields>): Option<Fields> {
    if extension.Some? && NoField(extension.value) then None else extension
  }

  /** The server handles one request of attempt `i`; a sidecar is always put with expected version 0. */
  ghost function Served(w: World, i: nat, m: Message, now: int, ok: bool): World
    requires i < |w.attempts|
  {
    var t := w.attempts[i].task;
    match m
    case PutSidecar =>
      if w.attempts[i].extension.None? then w else
        var (records, reply) := PutOutcome(w.sidecars, t.taskId, t.executionId, Some(0),
                                              w.attempts[i].extension.value, ok);
        w.(sidecars := records, answers := w.answers + {(i, PutAnswer(reply))})
    case GetSidecar =>
      w.(answers := w.answers + {(i, GetAnswer(if t.taskId in w.sidecars then Some(w.sidecars[t.taskId]) else None))})
    case CreateTask =>
      var o := ControlPlane.Handle(w.plane, ControlPlane.Request.CreateTask(t), now, 0, ok);
      w.(plane := o.plane, answers := w.answers + {(i, CreateAnswer(o.reply))})
  }

  function SetPhase(w: World, i: nat, phase: Phase): World
    requires i < |w.attempts|
  {
    w.(attempts := w.attempts[i := w.attempts[i].(phase := phase)])
  }

  function Send(w: World, i: nat, phase: Phase, m: Message): World
    requires i < |w.attempts|
  {
    var n := SetPhase(w, i, phase);
    n.(sent := n.sent + {(i, m)})
  }

  /** The attempt reads an answer to the request it waits for. */
  function Continued(w: World, i: nat, a: Answer): World
    requires i < |w.attempts|
  {
    var x := w.attempts[i];
    match (x.phase, a)
    case (AwaitPut, PutAnswer(reply)) =>
      if reply.Stored? then Send(w, i, AwaitCreate, CreateTask)
      else if reply.Conflict? then Send(w, i, AwaitGet, GetSidecar)
      else SetPhase(w, i, Failed)
    case (AwaitGet, GetAnswer(existing)) =>
      if x.extension.Some? && ReplayMatches(existing, x.task.executionId, x.extension.value)
      then Send(w, i, AwaitCreate, CreateTask)
      else SetPhase(w, i, Failed)
    case (AwaitCreate, CreateAnswer(created)) => SetPhase(w, i, if created.Task? then Done else Failed)
    case _ => w
  }

  ghost function Next(w: World, s: Step, ttl: int): World {
    match s
    case Begin(task, extension) =>
      var x := Normalized(extension);
      var n := w.(attempts := w.attempts + [Attempt(task, x, if x.Some? then AwaitPut else AwaitCreate)]);
      n.(sent := n.sent + {(|w.attempts|, if x.Some? then PutSidecar else CreateTask)})
    case Arrive(i, m, now, ok) => if (i, m) in w.sent && i < |w.attempts| then Served(w, i, m, now, ok) else w
    case Receive(i, a) => if (i, a) in w.answers && i < |w.attempts| then Continued(w, i, a) else w
    case GiveUp(i) => if i < |w.attempts| && w.attempts[i].phase != Done then SetPhase(w, i, Failed) else w
    case Host(q, now, ok) =>
      if q.CreateTask? then w else w.(plane := ControlPlane.Handle(w.plane, q, now, ttl, ok).plane)
  }

  ghost function Run(w: World, ttl: int, steps: seq<Step>): World {
    if steps == [] then w else Next(Run(w, ttl, steps[..|steps|-1]), steps[|steps|-1], ttl)
  }

  // ----- the invariant

  /** The sidecar of the task of an attempt is stored and is the extension of the attempt. */
  predicate Covered(sidecars: map<Id, Sidecar>, x: Attempt) {
    && x.extension.Some? && x.task.taskId in sidecars
    && MatchesPayload(sidecars[x.task.taskId], x.task.executionId, x.extension.value)
  }

  predicate SidecarsOk(sidecars: map<Id, Sidecar>) {
    forall id :: id in sidecars ==>
      sidecars[id].taskId == id && sidecars[id].version == 1 && ProperFields(sidecars[id].fields)
  }

  predicate AttemptsOk(attempts: seq<Attempt>) {
    forall i :: 0 <= i < |attempts| && attempts[i].extension.Some? ==> ProperFields(attempts[i].extension.value)
  }

  /** Every request to create a task, and every answer that leads to one, came after the sidecar was stored. */
  predicate SentOk(w: World) {
    && (forall p :: p in w.sent ==> p.0 < |w.attempts|)
    && (forall p :: p in w.sent && p.1 == CreateTask && w.attempts[p.0].extension.Some? ==>
          Covered(w.sidecars, w.attempts[p.0]))
  }

  predicate AnswersOk(w: World) {
    && (forall p :: p in w.answers ==> p.0 < |w.attempts|)
    && (forall p :: p in w.answers && p.1.PutAnswer? && p.1.reply.Stored? ==> Covered(w.sidecars, w.attempts[p.0]))
    && (forall p :: p in w.answers && p.1.GetAnswer? && p.1.existing.Some? ==>
          var t := w.attempts[p.0].task; t.taskId in w.sidecars && p.1.existing.value == w.sidecars[t.taskId])
  }

  /** Every task record was created for an attempt that had asked for it. */
  ghost predicate RecordsOk(w: World) {
    forall id :: id in w.plane.tasks ==>
      id == w.plane.tasks[id].task.taskId && exists i :: Asked(w, i, w.plane.tasks[id].task)
  }

  /** Attempt `i` has asked for the task to be created. */
  predicate Asked(w: World, i: int, task: RemoteTask) {
    0 <= i < |w.attempts| && (i, CreateTask) in w.sent && w.attempts[i].task == task
  }

  ghost predicate Inv(w: World) {
    && SidecarsOk(w.sidecars) && AttemptsOk(w.attempts) && SentOk(w) && AnswersOk(w) && RecordsOk(w)
    && Fencing.PlaneOk(w.plane)
  }

  predicate StepOk(s: Step) {
    s.Begin? && s.extension.Some? ==> ProperFields(s.extension.value)
  }

  // ----- each step keeps it

  /** With expected version 0 a stored sidecar of version 1 never changes. */
  lemma PutKeeps(records: map<Id, Sidecar>, taskId: Id, executionId: Id, fields: Fields, ok: bool)
    requires SidecarsOk(records) && ProperFields(fields)
    ensures var (now, reply) := PutOutcome(records, taskId, executionId, Some(0), fields, ok);
            && SidecarsOk(now) && (forall id :: id in records ==> id in now && now[id] == records[id])
            && (reply.Stored? ==> taskId in now && MatchesPayload(now[taskId], executionId, fields))
  {
    hide Proper, Similar;
    SameFieldsReflexive(fields);
  }

  lemma CoveredGrows(a: map<Id, Sidecar>, b: map<Id, Sidecar>, x: Attempt)
    requires Covered(a, x) && forall id :: id in a ==> id in b && b[id] == a[id]
    ensures Covered(b, x)
  {
    hide SameFields;
  }

  lemma ServedOk(w: World, i: nat, m: Message, now: int, ok: bool)
    requires Inv(w) && i < |w.attempts| && (i, m) in w.sent
    ensures Inv(Served(w, i, m, now, ok))
  {
    hide Fencing.PlaneOk, MatchesPayload, ProperFields, PutOutcome, ControlPlane.Handle;
    var x := w.attempts[i];
    match m
    case PutSidecar =>
      if x.extension.Some? {
        PutKeeps(w.sidecars, x.task.taskId, x.task.executionId, x.extension.value, ok);
        SidecarsGrow(w, Served(w, i, m, now, ok));
      }
    case GetSidecar => RecordsKept(w, Served(w, i, m, now, ok));
    case CreateTask => CreateServed(w, i, now, ok);
  }

  /** Sidecars were only added, and one more true answer. */
  lemma SidecarsGrow(w: World, n: World)
    requires Inv(w) && SidecarsOk(n.sidecars)
    requires (forall id :: id in w.sidecars ==> id in n.sidecars && n.sidecars[id] == w.sidecars[id])
    requires n.plane == w.plane && n.attempts == w.attempts && n.sent == w.sent
    requires forall p :: p in n.answers && p !in w.answers ==>
               p.0 < |w.attempts| && p.1.PutAnswer? && (p.1.reply.Stored? ==> Covered(n.sidecars, w.attempts[p.0]))
    ensures Inv(n)
  {
    hide Fencing.PlaneOk, MatchesPayload, ProperFields, Covered;
    forall x | Covered(w.sidecars, x) ensures Covered(n.sidecars, x) { CoveredGrows(w.sidecars, n.sidecars, x); }
    assert RecordsOk(n) by { RecordsKept(w, n); }
  }

  lemma RecordsKept(w: World, n: World)
    requires RecordsOk(w) && n.plane.tasks == w.plane.tasks && |n.attempts| >= |w.attempts| && w.sent <= n.sent
    requires forall i :: 0 <= i < |w.attempts| ==> n.attempts[i].task == w.attempts[i].task
    ensures RecordsOk(n)
  {
    forall id | id in n.plane.tasks ensures exists i :: Asked(n, i, n.plane.tasks[id].task) {
      var i :| Asked(w, i, w.plane.tasks[id].task);
      assert Asked(n, i, n.plane.tasks[id].task);
    }
  }

  lemma CreateServed(w: World, i: nat, now: int, ok: bool)
    requires Inv(w) && i < |w.attempts| && (i, CreateTask) in w.sent
    ensures Inv(Served(w, i, CreateTask, now, ok))
  {
    hide Fencing.PlaneOk, MatchesPayload, ProperFields, Covered;
    var t := w.attempts[i].task;
    Fencing.HandleOk(w.plane, ControlPlane.Request.CreateTask(t), now, 0, ok);
    var n := Served(w, i, CreateTask, now, ok);
    CreateAdds(w.plane, t, now, ok);
    forall id | id in n.plane.tasks ensures exists j :: Asked(n, j, n.plane.tasks[id].task) {
      if id in w.plane.tasks {
        var j :| Asked(w, j, w.plane.tasks[id].task);
        assert Asked(n, j, n.plane.tasks[id].task);
      } else {
        assert Asked(n, i, t);
      }
    }
  }

  lemma CreateAdds(p: Plane, t: RemoteTask, now: int, ok: bool)
    ensures var n := ControlPlane.Handle(p, ControlPlane.Request.CreateTask(t), now, 0, ok).plane;
            && (forall id :: id in p.tasks ==> id in n.tasks && n.tasks[id] == p.tasks[id])
            && (forall id :: id in n.tasks && id !in p.tasks ==> id == t.taskId && n.tasks[id].task == t)
  {}

  /** Reading an answer, sending the next request. */
  lemma ContinuedOk(w: World, i: nat, a: Answer)
    requires Inv(w) && i < |w.attempts| && (i, a) in w.answers
    ensures Inv(Continued(w, i, a))
  {
    hide Fencing.PlaneOk, MatchesPayload, ProperFields, Covered, ReplayMatches;
    var n := Continued(w, i, a);
    CoveredNow(w, i, a);
    ContinuedShape(w, i, a);
    forall p | p in n.sent && p.1 == CreateTask && n.attempts[p.0].extension.Some?
      ensures Covered(n.sidecars, n.attempts[p.0]) {
      CoveredSame(w.sidecars, w.attempts[p.0], n.attempts[p.0]);
    }
    forall p | p in n.answers && p.1.PutAnswer? && p.1.reply.Stored? ensures Covered(n.sidecars, n.attempts[p.0]) {
      CoveredSame(w.sidecars, w.attempts[p.0], n.attempts[p.0]);
    }
    RecordsKept(w, n);
  }

  lemma ContinuedShape(w: World, i: nat, a: Answer)
    requires i < |w.attempts|
    ensures var n := Continued(w, i, a);
            && n.sidecars == w.sidecars && n.plane == w.plane && n.answers == w.answers && |n.attempts| == |w.attempts|
            && (forall j :: 0 <= j < |w.attempts| ==>
                  n.attempts[j].task == w.attempts[j].task && n.attempts[j].extension == w.attempts[j].extension)
            && w.sent <= n.sent && (forall p :: p in n.sent && p !in w.sent ==> p.0 == i)
            && ((i, CreateTask) in n.sent && (i, CreateTask) !in w.sent ==>
                 (a.PutAnswer? && a.reply.Stored?)
                 || (a.GetAnswer? && w.attempts[i].extension.Some?
                     && ReplayMatches(a.existing, w.attempts[i].task.executionId, w.attempts[i].extension.value)))
  {
    hide ReplayMatches;
  }

  lemma CoveredSame(sidecars: map<Id, Sidecar>, x: Attempt, y: Attempt)
    requires y.task == x.task && y.extension == x.extension
    ensures Covered(sidecars, x) == Covered(sidecars, y)
  {
    hide MatchesPayload;
  }

  /** An answer that makes an attempt go on to the task says that the sidecar is stored and is its own. */
  lemma CoveredNow(w: World, i: nat, a: Answer)
    requires Inv(w) && i < |w.attempts| && (i, a) in w.answers
    ensures a.PutAnswer? && a.reply.Stored? ==> Covered(w.sidecars, w.attempts[i])
    ensures var x := w.attempts[i];
            a.GetAnswer? && x.extension.Some? && ReplayMatches(a.existing, x.task.executionId, x.extension.value) ==>
              Covered(w.sidecars, x)
  {
    hide Fencing.PlaneOk, Proper, Similar, Print, RecordsOk, SentOk;
    var x := w.attempts[i];
    if a.GetAnswer? && x.extension.Some? && ReplayMatches(a.existing, x.task.executionId, x.extension.value) {
      ClientAgreesWithServer(a.existing.value, x.task.executionId, x.extension.value);
    }
  }

  lemma BeginOk(w: World, task: RemoteTask, extension: Option<Fields>, ttl: int)
    requires Inv(w) && (extension.Some? ==> ProperFields(extension.value))
    ensures Inv(Next(w, Begin(task, extension), ttl))
  {
    hide Fencing.PlaneOk, MatchesPayload, ProperFields, Covered;
    var n := Next(w, Begin(task, extension), ttl);
    assert forall j :: 0 <= j < |w.attempts| ==> n.attempts[j] == w.attempts[j];
    RecordsKept(w, n);
  }

  lemma GiveUpOk(w: World, i: nat)
    requires Inv(w) && i < |w.attempts|
    ensures Inv(SetPhase(w, i, Failed))
  {
    hide Fencing.PlaneOk, MatchesPayload, ProperFields, Covered;
    var n := SetPhase(w, i, Failed);
    forall j | 0 <= j < |w.attempts| ensures Covered(w.sidecars, w.attempts[j]) == Covered(w.sidecars, n.attempts[j]) {
      CoveredSame(w.sidecars, w.attempts[j], n.attempts[j]);
    }
    RecordsKept(w, n);
  }

  /** Hosts change records but never create one or rebind its task. */
  lemma HostOk(w: World, q: ControlPlane.Request, now: int, ok: bool, ttl: int)
    requires Inv(w) && !q.CreateTask?
    ensures Inv(Next(w, Host(q, now, ok), ttl))
  {
    hide MatchesPayload, ProperFields, Covered, ControlPlane.Handle;
    Fencing.HandleOk(w.plane, q, now, ttl, ok);
    var n := Next(w, Host(q, now, ok), ttl);
    HostKeepsTasks(w.plane, q, now, ttl, ok);
    forall id | id in n.plane.tasks ensures exists i :: Asked(n, i, n.plane.tasks[id].task) {
      var i :| Asked(w, i, w.plane.tasks[id].task);
      assert Asked(n, i, n.plane.tasks[id].task);
    }
  }

  lemma HostKeepsTasks(p: Plane, q: ControlPlane.Request, now: int, ttl: int, ok: bool)
    requires Fencing.PlaneOk(p) && !q.CreateTask?
    ensures var n := ControlPlane.Handle(p, q, now, ttl, ok).plane;
            n.tasks.Keys == p.tasks.Keys && forall id :: id in p.tasks ==> n.tasks[id].task == p.tasks[id].task
  {
    hide Fencing.TokensOk, Fencing.EventsOk, Fencing.PrintsOk, Fencing.TerminalOk;
    var n := ControlPlane.Handle(p, q, now, ttl, ok).plane;
    forall id | id in p.tasks ensures id in n.tasks && n.tasks[id].task == p.tasks[id].task {
      Fencing.HandleChanges(p, q, now, ttl, ok, id);
    }
    forall id | id !in p.tasks ensures id !in n.tasks { Fencing.NoNewTask(p, q, now, ttl, ok, id); }
  }

  lemma NextOk(w: World, s: Step, ttl: int)
    requires Inv(w) && StepOk(s)
    ensures Inv(Next(w, s, ttl))
  {
    hide Inv, Served, Continued, SetPhase, ProperFields;
    match s
    case Begin(task, extension) => BeginOk(w, task, extension, ttl);
    case Arrive(i, m, now, ok) => if (i, m) in w.sent && i < |w.attempts| { ServedOk(w, i, m, now, ok); }
    case Receive(i, a) => if (i, a) in w.answers && i < |w.attempts| { ContinuedOk(w, i, a); }
    case GiveUp(i) => if i < |w.attempts| { GiveUpOk(w, i); }
    case Host(q, now, ok) => if !q.CreateTask? { HostOk(w, q, now, ok, ttl); }
  }

  predicate StepsOk(steps: seq<Step>) {
    forall i :: 0 <= i < |steps| ==> StepOk(steps[i])
  }

  lemma {:induction false} RunOk(ttl: int, steps: seq<Step>)
    requires StepsOk(steps)
    ensures Inv(Run(Start, ttl, steps))
  {
    hide Next, StepOk;
    if steps == [] {
      assert Run(Start, ttl, steps) == Start;
    } else {
      hide Inv;
      RunOk(ttl, steps[..|steps|-1]);
      NextOk(Run(Start, ttl, steps[..|steps|-1]), steps[|steps|-1], ttl);
    }
  }

  // ----- the promise

  /** Every dispatch of the task carries an extension. */
  predicate Carried(attempts: seq<Attempt>, id: Id) {
    forall i :: 0 <= i < |attempts| && attempts[i].task.taskId == id ==> attempts[i].extension.Some?
  }

  /** Whatever is lost, repeated, delayed or competing, and whatever other tasks are dispatched: when every dispatch of
      a task carries an extension, its record exists, and so can be leased, only if its sidecar is stored, at version 1,
      and is the extension of a dispatch of exactly that task; and no two records share an execution. */
  lemma TaskOnlyWithItsSidecar(ttl: int, steps: seq<Step>, id: Id)
    requires StepsOk(steps) && Carried(Run(Start, ttl, steps).attempts, id)
    ensures var w := Run(Start, ttl, steps);
            id in w.plane.tasks ==>
              && id in w.sidecars && w.sidecars[id].version == 1
              && (exists i :: 0 <= i < |w.attempts| && w.attempts[i].task == w.plane.tasks[id].task
                    && w.attempts[i].extension.Some?
                    && MatchesPayload(w.sidecars[id], w.attempts[i].task.executionId, w.attempts[i].extension.value))
              && (forall k :: k in w.plane.tasks && k != id ==>
                    w.plane.tasks[k].task.executionId != w.plane.tasks[id].task.executionId)
  {
    hide Run, StepsOk, MatchesPayload, ProperFields, Fencing.RecordOk;
    RunOk(ttl, steps);
    var w := Run(Start, ttl, steps);
    if id in w.plane.tasks {
      var i :| Asked(w, i, w.plane.tasks[id].task);
      assert Covered(w.sidecars, w.attempts[i]);
    }
  }

  /** A sidecar, once stored, is never rewritten. */
  lemma {:induction false} SidecarsNeverChange(ttl: int, first: seq<Step>, steps: seq<Step>, id: Id)
    requires StepsOk(first + steps) && id in Run(Start, ttl, first).sidecars
    ensures id in Run(Start, ttl, first + steps).sidecars
    ensures Run(Start, ttl, first + steps).sidecars[id] == Run(Start, ttl, first).sidecars[id]
    decreases |steps|
  {
    hide Next, StepOk, Inv;
    if steps == [] {
      assert first + steps == first;
    } else {
      var n := |steps| - 1;
      var front := first + steps[..n];
      assert (first + steps)[..|first + steps|-1] == front;
      SidecarsNeverChange(ttl, first, steps[..n], id);
      RunOk(ttl, front);
      SidecarKept(Run(Start, ttl, front), steps[n], ttl, id);
    }
  }

  lemma SidecarKept(w: World, s: Step, ttl: int, id: Id)
    requires Inv(w) && id in w.sidecars
    ensures id in Next(w, s, ttl).sidecars && Next(w, s, ttl).sidecars[id] == w.sidecars[id]
  {
    hide Fencing.PlaneOk, RecordsOk, AnswersOk, SentOk, ControlPlane.Handle, SameFields, ReplayMatches, ProperFields;
  }

  /** The hypothesis is needed: one dispatch without an extension creates a task that has no sidecar. */
  lemma BareDispatchNeedsNoSidecar(task: RemoteTask, ttl: int) returns (steps: seq<Step>)
    ensures StepsOk(steps) && task.taskId in Run(Start, ttl, steps).plane.tasks
    ensures Run(Start, ttl, steps).sidecars == map[]
  {
    steps := [Begin(task, None), Arrive(0, CreateTask, 0, true)];
    assert steps[..1] == [Begin(task, None)] && steps[..1][..0] == [];
    assert Run(Start, ttl, steps[..1][..0]) == Start;
    assert Run(Start, ttl, steps[..1]) == Next(Start, Begin(task, None), ttl);
  }
}
