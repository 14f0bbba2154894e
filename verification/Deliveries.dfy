/** What the control plane answers: which lease, event and terminal outcome it accepts, in terms of the stored record,
    how long a lease can be used, and what a delivery that comes again is told (apps/web/src/control_plane.rs:459-691,
    1040-1076). */
module Deliveries {
  import opened Wrappers
  import opened KeyOrder
  import opened ControlPlane
  import opened Fencing

  // ----- a new delivery

  /** The node holds the lease of the task, under this id and the newest token, at this time. */
  predicate Holds(r: TaskRecord, nodeId: Id, leaseId: Id, token: nat, now: int) {
    match r.lease
    case None => false
    case Some(lease) =>
      lease == Lease(nodeId, leaseId, r.token, lease.expiresAt) && r.token == token && now < lease.expiresAt
  }

  /** No accepted delivery of the task has this id. */
  predicate NewId(r: TaskRecord, deliveryId: Id) {
    && (forall e :: e in r.events ==> e.deliveryId != deliveryId)
    && (r.terminal.Some? ==> r.terminal.value.deliveryId != deliveryId)
  }

  /** Numbered from one, above every accepted event. */
  predicate NextInOrder(r: TaskRecord, sequence: nat) {
    sequence >= 1 && forall e :: e in r.events ==> e.sequence < sequence
  }

  /** The task was put in place of its record, in memory and on disk, and nothing else changed. */
  predicate Replaced(p: Plane, id: Id, r: TaskRecord, now: Plane) {
    now == p.(tasks := p.tasks[id := r], taskFiles := p.taskFiles[id := r])
  }

  lemma NewIdExactly(r: TaskRecord, deliveryId: Id)
    requires PrintsOk(r)
    ensures NewId(r, deliveryId) <==> deliveryId !in r.prints
  {
    if deliveryId in DeliveryIds(r.events) {
      var e :| e in r.events && e.deliveryId == deliveryId;
    }
    forall e | e in r.events ensures e.deliveryId in DeliveryIds(r.events) {}
  }

  lemma NextInOrderExactly(r: TaskRecord, sequence: nat)
    requires EventsOk(r)
    ensures NextInOrder(r, sequence) <==> sequence > r.lastSequence
  {
    if r.events != [] {
      var n := |r.events| - 1;
      assert r.events[n] in r.events;
      forall e | e in r.events ensures e.sequence <= r.events[n].sequence {
        var i :| 0 <= i < |r.events| && r.events[i] == e;
      }
    }
  }

  lemma HoldsExactly(r: TaskRecord, nodeId: Id, leaseId: Id, token: nat, now: int)
    ensures Holds(r, nodeId, leaseId, token, now) <==>
              LeaseRefusal(r, nodeId, r.task.executionId, leaseId, token, now).None?
  {}

  /** An event under a new delivery id is accepted if and only if the task is open, the delivery names its execution and
      comes from the holder of its lease, the sequence number is above all accepted ones, and the write succeeds; then
      it is appended, the task runs if it is the first acceptance of the host, and nothing else changes. */
  lemma EventExactly(p: Plane, q: Request, now: int, ttl: int, ok: bool)
    requires PlaneOk(p) && q.AcceptEvent? && (q.taskId in p.tasks ==> NewId(p.tasks[q.taskId], q.event.deliveryId))
    ensures var o := Handle(p, q, now, ttl, ok); var b := q.event;
            o.reply.Task? <==>
              && ok && q.taskId in p.tasks
              && var r := p.tasks[q.taskId];
              && r.terminal.None? && b.executionId == r.task.executionId
              && Holds(r, q.nodeId, b.leaseId, b.token, now) && NextInOrder(r, b.sequence)
    ensures var o := Handle(p, q, now, ttl, ok); var b := q.event;
            if o.reply.Task? then
              var r := p.tasks[q.taskId];
              var n := r.(events := r.events + [b], lastSequence := b.sequence, prints := o.reply.record.prints,
                          state := if b.eventType == "host.accepted" then Running else r.state);
              o.reply == Task(n) && Replaced(p, q.taskId, n, o.plane)
              && n.prints == r.prints[b.deliveryId := EventPrint(b)]
            else o.reply.Refused? && o.plane == p
  {
    hide Holds, NextInOrder, NewId, EventsOk, PrintsOk, LeaseRefusal;
    if q.taskId in p.tasks {
      var r, b := p.tasks[q.taskId], q.event;
      assert RecordOk(q.taskId, r);
      NewIdExactly(r, b.deliveryId);
      NextInOrderExactly(r, b.sequence);
      HoldsExactly(r, q.nodeId, b.leaseId, b.token, now);
      WrongExecutionRefused(r, q.nodeId, b.executionId, b.leaseId, b.token, now);
    }
  }

  lemma WrongExecutionRefused(r: TaskRecord, nodeId: Id, executionId: Id, leaseId: Id, token: nat, now: int)
    ensures LeaseRefusal(r, nodeId, executionId, leaseId, token, now).None? ==> executionId == r.task.executionId
  {}

  /** The outcomes each of the three routes takes. */
  const Routed := {
    (Succeeded, Complete), (Blocked, BlockedRoute), (Failed, Fail), (Cancelled, Fail), (OutcomeUnknown, Fail),
    (Quarantined, Fail)}

  lemma RoutedExactly(state: TaskState, route: Route)
    ensures RouteAllows(state, route) <==> (state, route) in Routed
  {}

  /** The same for a terminal outcome: it has no sequence number, but has to fit its route; it closes the task and ends
      the lease. */
  lemma TerminalExactly(p: Plane, q: Request, now: int, ttl: int, ok: bool)
    requires PlaneOk(p) && q.AcceptTerminal?
    requires q.taskId in p.tasks ==> NewId(p.tasks[q.taskId], q.terminal.deliveryId)
    ensures var o := Handle(p, q, now, ttl, ok); var b := q.terminal;
            o.reply.Task? <==>
              && ok && q.taskId in p.tasks && (b.state, q.route) in Routed
              && var r := p.tasks[q.taskId];
              && r.terminal.None? && b.executionId == r.task.executionId
              && Holds(r, q.nodeId, b.leaseId, b.token, now)
    ensures var o := Handle(p, q, now, ttl, ok); var b := q.terminal;
            if o.reply.Task? then
              var r := p.tasks[q.taskId];
              var n := r.(state := b.state, terminal := Some(b), lease := None, prints := o.reply.record.prints);
              o.reply == Task(n) && Replaced(p, q.taskId, n, o.plane)
              && n.prints == r.prints[b.deliveryId := TerminalPrint(b)]
            else o.reply.Refused? && o.plane == p
  {
    hide Holds, NewId, EventsOk, PrintsOk, LeaseRefusal, RouteAllows;
    RoutedExactly(q.terminal.state, q.route);
    if q.taskId in p.tasks {
      var r, b := p.tasks[q.taskId], q.terminal;
      assert RecordOk(q.taskId, r);
      NewIdExactly(r, b.deliveryId);
      HoldsExactly(r, q.nodeId, b.leaseId, b.token, now);
      WrongExecutionRefused(r, q.nodeId, b.executionId, b.leaseId, b.token, now);
    }
  }

  // ----- a delivery that comes again

  /** The delivery is among the accepted ones of its task. */
  predicate Delivered(p: Plane, q: Request)
    requires q.AcceptEvent? || q.AcceptTerminal?
  {
    && q.taskId in p.tasks
    && if q.AcceptEvent? then q.event in p.tasks[q.taskId].events else p.tasks[q.taskId].terminal == Some(q.terminal)
  }

  /** Another delivery was accepted under the id of this one. */
  predicate Clashes(p: Plane, q: Request)
    requires q.AcceptEvent? || q.AcceptTerminal?
  {
    q.taskId in p.tasks && !NewId(p.tasks[q.taskId], DeliveryOf(q)) && !Delivered(p, q)
  }

  predicate OnItsRoute(q: Request) {
    q.AcceptTerminal? ==> (q.terminal.state, q.route) in Routed
  }

  lemma PrintOfEvent(r: TaskRecord, b: EventBody)
    requires PrintsOk(r)
    ensures b in r.events <==> b.deliveryId in r.prints && r.prints[b.deliveryId] == EventPrint(b)
  {
    if b in r.events { var i :| 0 <= i < |r.events| && r.events[i] == b; }
    if b.deliveryId in r.prints && b.deliveryId in DeliveryIds(r.events) {
      var e :| e in r.events && e.deliveryId == b.deliveryId;
      var i :| 0 <= i < |r.events| && r.events[i] == e;
    }
  }

  lemma PrintOfTerminal(r: TaskRecord, b: TerminalBody)
    requires PrintsOk(r)
    ensures r.terminal == Some(b) <==> b.deliveryId in r.prints && r.prints[b.deliveryId] == TerminalPrint(b)
  {
    if b.deliveryId in r.prints && b.deliveryId in DeliveryIds(r.events) {
      var e :| e in r.events && e.deliveryId == b.deliveryId;
      var i :| 0 <= i < |r.events| && r.events[i] == e;
    }
  }

  function PrintOf(q: Request): Fingerprint
    requires q.AcceptEvent? || q.AcceptTerminal?
  {
    if q.AcceptEvent? then EventPrint(q.event) else TerminalPrint(q.terminal)
  }

  lemma PrintOfDelivered(p: Plane, q: Request)
    requires PlaneOk(p) && (q.AcceptEvent? || q.AcceptTerminal?) && q.taskId in p.tasks
    ensures var r := p.tasks[q.taskId];
            Delivered(p, q) <==> DeliveryOf(q) in r.prints && r.prints[DeliveryOf(q)] == PrintOf(q)
  {
    hide RecordOk, PrintsOk;
    RecordPrints(p, q.taskId);
    if q.AcceptEvent? { PrintOfEvent(p.tasks[q.taskId], q.event); }
    else { PrintOfTerminal(p.tasks[q.taskId], q.terminal); }
  }

  /** An accepted delivery that is posted again gets the record, one that reuses its id is refused for that; neither
      changes anything, whoever posts it and whatever became of the lease. */
  lemma RepeatsAreAnswered(p: Plane, q: Request, now: int, ttl: int, ok: bool)
    requires PlaneOk(p) && (q.AcceptEvent? || q.AcceptTerminal?) && OnItsRoute(q)
    ensures Delivered(p, q) ==> Handle(p, q, now, ttl, ok) == Outcome(p, Task(p.tasks[q.taskId]))
    ensures Clashes(p, q) ==> Handle(p, q, now, ttl, ok) == Outcome(p, Refused(DeliveryBound))
  {
    hide RecordOk, LeaseRefusal, WithEvent, WithTerminal, RouteAllows, NewId, Delivered, PrintsOk;
    if Delivered(p, q) { DeliveredThere(p, q); }
    if q.AcceptTerminal? { RoutedExactly(q.terminal.state, q.route); }
    if q.taskId in p.tasks {
      PrintOfDelivered(p, q);
      RecordPrints(p, q.taskId);
      NewIdExactly(p.tasks[q.taskId], DeliveryOf(q));
    }
  }

  lemma DeliveredThere(p: Plane, q: Request)
    requires (q.AcceptEvent? || q.AcceptTerminal?) && Delivered(p, q)
    ensures q.taskId in p.tasks
  {}

  lemma RecordPrints(p: Plane, id: Id)
    requires PlaneOk(p) && id in p.tasks
    ensures PrintsOk(p.tasks[id])
  {}

  lemma NewlyDelivered(p: Plane, q: Request, now: int, ttl: int, ok: bool)
    requires PlaneOk(p) && (q.AcceptEvent? || q.AcceptTerminal?) && Handle(p, q, now, ttl, ok).reply.Task?
    requires q.taskId in p.tasks && DeliveryOf(q) !in p.tasks[q.taskId].prints
    ensures Delivered(Handle(p, q, now, ttl, ok).plane, q)
  {
    hide LeaseRefusal, TokensOk, EventsOk, TerminalOk, PrintsOk;
    assert RecordOk(q.taskId, p.tasks[q.taskId]);
    if q.AcceptEvent? { assert q.event in (p.tasks[q.taskId].events + [q.event]); }
  }

  lemma AcceptedIsDelivered(p: Plane, q: Request, now: int, ttl: int, ok: bool)
    requires PlaneOk(p) && (q.AcceptEvent? || q.AcceptTerminal?) && Handle(p, q, now, ttl, ok).reply.Task?
    ensures Delivered(Handle(p, q, now, ttl, ok).plane, q) && OnItsRoute(q)
  {
    hide RecordOk, LeaseRefusal, Delivered;
    if q.AcceptTerminal? { RoutedExactly(q.terminal.state, q.route); }
    if DeliveryOf(q) in p.tasks[q.taskId].prints {
      PrintOfDelivered(p, q);
    } else {
      NewlyDelivered(p, q, now, ttl, ok);
    }
  }

  /** A delivery that was answered with success is answered with the record as it is by then whenever it is posted
      again, after any further run; another one under its id is always refused. */
  lemma RedeliveryIsAnswered(p: Plane, q: Request, first: Move, ttl: int, moves: seq<Move>, again: Request, now: int,
                             ok: bool)
    requires PlaneOk(p) && (q.AcceptEvent? || q.AcceptTerminal?) && first.request == q
    requires Handle(p, q, first.now, ttl, first.ok).reply.Task?
    requires (again.AcceptEvent? || again.AcceptTerminal?) && again.taskId == q.taskId && OnItsRoute(again)
    requires DeliveryOf(again) == DeliveryOf(q)
    ensures var e := Run(Handle(p, q, first.now, ttl, first.ok).plane, ttl, moves);
            && q.taskId in e.tasks
            && Handle(e, again, now, ttl, ok)
               == Outcome(e, if SameBody(again, q) then Task(e.tasks[q.taskId]) else Refused(DeliveryBound))
  {
    hide PlaneOk, Handle, Run, Delivered, NewId, OnItsRoute;
    var p1 := Handle(p, q, first.now, ttl, first.ok).plane;
    AcceptedIsDelivered(p, q, first.now, ttl, first.ok);
    HandleOk(p, q, first.now, ttl, first.ok);
    RunOk(p1, ttl, moves);
    var e := Run(p1, ttl, moves);
    StaysDelivered(p1, q, ttl, moves);
    DeliveredThere(e, q);
    OneBody(e, q, again);
    RepeatsAreAnswered(e, again, now, ttl, ok);
  }

  lemma StaysDelivered(p: Plane, q: Request, ttl: int, moves: seq<Move>)
    requires PlaneOk(p) && (q.AcceptEvent? || q.AcceptTerminal?) && Delivered(p, q)
    ensures Delivered(Run(p, ttl, moves), q)
  {
    hide RecordOk, Run;
    RunMovesOn(p, ttl, moves, q.taskId);
  }

  lemma OneBody(p: Plane, q: Request, again: Request)
    requires PlaneOk(p) && (q.AcceptEvent? || q.AcceptTerminal?) && Delivered(p, q)
    requires (again.AcceptEvent? || again.AcceptTerminal?) && again.taskId == q.taskId
    requires DeliveryOf(again) == DeliveryOf(q)
    ensures if SameBody(again, q) then Delivered(p, again) else Clashes(p, again)
  {
    hide RecordOk, NewId;
    PrintOfDelivered(p, q);
    PrintOfDelivered(p, again);
    RecordPrints(p, q.taskId);
    NewIdExactly(p.tasks[q.taskId], DeliveryOf(q));
  }

  predicate SameBody(a: Request, b: Request)
    requires (a.AcceptEvent? || a.AcceptTerminal?) && (b.AcceptEvent? || b.AcceptTerminal?)
  {
    if a.AcceptEvent? then b.AcceptEvent? && a.event == b.event else b.AcceptTerminal? && a.terminal == b.terminal
  }

  // ----- creating a task

  /** A task that was stored is answered with its record whenever it is posted again, after any further run; another
      task under its id, or a new one for its execution, is always refused. */
  lemma CreationIsAnswered(p: Plane, task: RemoteTask, first: Move, ttl: int, moves: seq<Move>, again: RemoteTask,
                           now: int, ok: bool)
    requires PlaneOk(p) && first.request == Request.CreateTask(task)
    requires Handle(p, first.request, first.now, ttl, first.ok).reply.Task?
    ensures var e := Run(Handle(p, first.request, first.now, ttl, first.ok).plane, ttl, moves);
            var o := Handle(e, Request.CreateTask(again), now, ttl, ok);
            && task.taskId in e.tasks && e.tasks[task.taskId].task == task
            && (again == task ==> o == Outcome(e, Task(e.tasks[task.taskId])))
            && (again != task && again.taskId == task.taskId ==> o == Outcome(e, Refused(TaskBound)))
            && (again.taskId !in e.tasks && again.executionId == task.executionId ==>
                  o == Outcome(e, Refused(ExecutionBound)))
  {
    hide PlaneOk, RecordOk, Run;
    var p1 := Handle(p, first.request, first.now, ttl, first.ok).plane;
    HandleOk(p, first.request, first.now, ttl, first.ok);
    SameTaskInRun(p1, ttl, moves, task.taskId);
  }

  lemma {:induction false} SameTaskInRun(p: Plane, ttl: int, moves: seq<Move>, id: Id)
    requires PlaneOk(p) && id in p.tasks
    ensures id in Run(p, ttl, moves).tasks && Run(p, ttl, moves).tasks[id].task == p.tasks[id].task
  {
    hide PlaneOk, Handle, WithLease, WithEvent, WithTerminal;
    if moves != [] {
      var n := |moves| - 1;
      SameTaskInRun(p, ttl, moves[..n], id);
      RunOk(p, ttl, moves[..n]);
      var e, m := Run(p, ttl, moves[..n]), moves[n];
      HandleChanges(e, m.request, m.now, ttl, m.ok, id);
      SameTaskInRecord(e.tasks[id], m.request, m.now, ttl);
    }
  }

  lemma SameTaskInRecord(r: TaskRecord, q: Request, now: int, ttl: int)
    ensures q.TryLease? ==> WithLease(r, q.nodeId, q.leaseId, now, ttl).task == r.task
    ensures q.AcceptEvent? ==> WithEvent(r, q.event).task == r.task
    ensures q.AcceptTerminal? ==> WithTerminal(r, q.terminal).task == r.task
  {}

  // ----- leases

  /** The task is open, no lease on it is running, and no other node has had it. */
  predicate Free(r: TaskRecord, nodeId: Id, now: int) {
    && r.terminal.None?
    && (match r.lease case None => true case Some(lease) => lease.expiresAt <= now)
    && (match r.sticky case None => true case Some(other) => other == nodeId)
  }

  /** A registered node that can do the work. */
  predicate Able(p: Plane, nodeId: Id, capabilities: set<string>) {
    REQUIRED <= capabilities && nodeId in p.nodes && REQUIRED <= p.nodes[nodeId].capabilities
  }

  ghost predicate FirstFree(p: Plane, nodeId: Id, now: int, id: Id) {
    && id in p.tasks && Free(p.tasks[id], nodeId, now)
    && forall k :: k in p.tasks && k != id && Free(p.tasks[k], nodeId, now) ==> Before(id, k)
  }

  lemma FreeExactly(p: Plane, nodeId: Id, now: int)
    requires PlaneOk(p)
    ensures forall id :: id in LeasableIds(p, nodeId, now) <==> id in p.tasks && Free(p.tasks[id], nodeId, now)
  {
    hide TokensOk, EventsOk, PrintsOk;
    forall id | id in p.tasks ensures Leasable(p.tasks[id], nodeId, now) <==> Free(p.tasks[id], nodeId, now) {
      assert RecordOk(id, p.tasks[id]);
    }
  }

  /** A request for work is granted the first free task in key order, if there is one, its tokens are not used up and
      the write succeeds: under the next token, until `ttl` from now. An able node is told that there is nothing to do
      exactly when no task is free for it. */
  lemma LeaseExactly(p: Plane, q: Request, now: int, ttl: int, ok: bool, id: Id)
    requires PlaneOk(p) && q.TryLease? && FirstFree(p, q.nodeId, now, id)
    ensures var o := Handle(p, q, now, ttl, ok); var r := p.tasks[id];
            if ok && Able(p, q.nodeId, q.capabilities) && r.token < MAX_U64 then
              var lease := Lease(q.nodeId, q.leaseId, r.token + 1, now + ttl);
              && o.reply == Granted(lease, r.task)
              && Replaced(p, id, r.(token := r.token + 1, lease := Some(lease), sticky := Some(q.nodeId),
                                    state := Leased), o.plane)
            else o.reply.Refused? && o.plane == p
  {
    hide RecordOk, Free;
    FreeExactly(p, q.nodeId, now);
    if Able(p, q.nodeId, q.capabilities) {
      FirstIsLeased(p, q.nodeId, q.capabilities, q.leaseId, now, ttl, ok, id);
      TaskIdOf(p, id);
    }
  }

  lemma TaskIdOf(p: Plane, id: Id)
    requires PlaneOk(p) && id in p.tasks
    ensures p.tasks[id].task.taskId == id
  {}

  lemma NothingExactly(p: Plane, q: Request, now: int, ttl: int, ok: bool)
    requires PlaneOk(p) && q.TryLease? && Able(p, q.nodeId, q.capabilities)
    ensures Handle(p, q, now, ttl, ok).reply.NothingToLease? <==>
              forall id :: id in p.tasks ==> !Free(p.tasks[id], q.nodeId, now)
    ensures Handle(p, q, now, ttl, ok).reply.NothingToLease? ==> Handle(p, q, now, ttl, ok).plane == p
  {
    hide PlaneOk, Free;
    FreeExactly(p, q.nodeId, now);
    var free := LeasableIds(p, q.nodeId, now);
    if free != {} {
      var id := FirstExists(free);
      FirstIsLeased(p, q.nodeId, q.capabilities, q.leaseId, now, ttl, ok, id);
    }
  }

  /** The holder of a lease, and no one else, can extend it to `ttl` from now. */
  lemma RenewExactly(p: Plane, q: Request, now: int, ttl: int, ok: bool)
    requires PlaneOk(p) && q.Renew?
    ensures var o := Handle(p, q, now, ttl, ok);
            if ok && q.taskId in p.tasks && Holds(p.tasks[q.taskId], q.nodeId, q.leaseId, q.token, now) then
              var r, lease := p.tasks[q.taskId], Lease(q.nodeId, q.leaseId, q.token, now + ttl);
              o.reply == Granted(lease, r.task) && Replaced(p, q.taskId, r.(lease := Some(lease)), o.plane)
            else o.reply.Refused? && o.plane == p
  {
    hide TokensOk, EventsOk, PrintsOk, TerminalOk;
    if q.taskId in p.tasks {
      HoldsExactly(p.tasks[q.taskId], q.nodeId, q.leaseId, q.token, now);
      TaskIdOf(p, q.taskId);
    }
  }

  // ----- how long a lease can be used

  predicate Between(moves: seq<Move>, from: int, until: int) {
    forall k :: 0 <= k < |moves| ==> from <= moves[k].now < until
  }

  /** The task is closed, or the lease is still there, at least as long as it was granted. */
  predicate Kept(r: TaskRecord, lease: Lease) {
    r.terminal.Some? || match r.lease
      case None => false
      case Some(held) =>
        held == lease.(expiresAt := held.expiresAt) && r.token == lease.token && held.expiresAt >= lease.expiresAt
  }

  lemma KeptStep(p: Plane, m: Move, ttl: int, id: Id, lease: Lease, from: int)
    requires PlaneOk(p) && id in p.tasks && Kept(p.tasks[id], lease)
    requires from <= m.now < lease.expiresAt == from + ttl
    ensures var e := Handle(p, m.request, m.now, ttl, m.ok).plane; id in e.tasks && Kept(e.tasks[id], lease)
  {
    hide Handle, PlaneOk, EventVerdict, TerminalVerdict;
    HandleChanges(p, m.request, m.now, ttl, m.ok, id);
    RecordTerminal(p, id);
  }

  lemma RecordTerminal(p: Plane, id: Id)
    requires PlaneOk(p) && id in p.tasks
    ensures TerminalOk(p.tasks[id])
  {}

  lemma {:induction false} KeptInRun(p: Plane, ttl: int, moves: seq<Move>, id: Id, lease: Lease, from: int)
    requires PlaneOk(p) && id in p.tasks && Kept(p.tasks[id], lease)
    requires lease.expiresAt == from + ttl && Between(moves, from, from + ttl)
    ensures id in Run(p, ttl, moves).tasks && Kept(Run(p, ttl, moves).tasks[id], lease)
  {
    hide PlaneOk, Handle, Kept;
    if moves != [] {
      var n := |moves| - 1;
      KeptInRun(p, ttl, moves[..n], id, lease, from);
      RunOk(p, ttl, moves[..n]);
      KeptStep(Run(p, ttl, moves[..n]), moves[n], ttl, id, lease, from);
    }
  }

  /** Until a lease expires its holder can deliver, whatever anyone else asks for meanwhile: as long as the task is not
      closed, any event with a new id and a higher number is accepted, and so is any outcome with a new id on its
      route. */
  lemma LeaseholderCanDeliver(p: Plane, ask: Request, from: int, ttl: int, ok: bool, moves: seq<Move>, q: Request,
                              now: int)
    requires PlaneOk(p) && IsGrant(ask, Handle(p, ask, from, ttl, ok).reply)
    requires Between(moves, from, from + ttl) && from <= now < from + ttl
    requires q.AcceptEvent? || q.AcceptTerminal?
    requires var reply := Handle(p, ask, from, ttl, ok).reply;
             && q.taskId == reply.task.taskId && q.nodeId == reply.lease.nodeId
             && if q.AcceptEvent? then q.event.executionId == reply.task.executionId
                                       && q.event.leaseId == reply.lease.leaseId && q.event.token == reply.lease.token
                else q.terminal.executionId == reply.task.executionId && (q.terminal.state, q.route) in Routed
                     && q.terminal.leaseId == reply.lease.leaseId && q.terminal.token == reply.lease.token
    ensures var e := Run(Handle(p, ask, from, ttl, ok).plane, ttl, moves);
            && q.taskId in e.tasks
            && var r := e.tasks[q.taskId];
            r.terminal.None? && NewId(r, DeliveryOf(q)) && (q.AcceptEvent? ==> NextInOrder(r, q.event.sequence)) ==>
              Handle(e, q, now, ttl, true).reply.Task?
  {
    hide PlaneOk, Handle, Run, NewId, NextInOrder;
    var o := Handle(p, ask, from, ttl, ok);
    var id := q.taskId;
    GrantKept(p, ask, from, ttl, ok);
    HandleOk(p, ask, from, ttl, ok);
    KeptInRun(o.plane, ttl, moves, id, o.reply.lease, from);
    SameTaskInRun(o.plane, ttl, moves, id);
    var e := Run(o.plane, ttl, moves);
    RunOk(o.plane, ttl, moves);
    if e.tasks[id].terminal.None? && NewId(e.tasks[id], DeliveryOf(q)) {
      if q.AcceptEvent? { EventExactly(e, q, now, ttl, true); } else { TerminalExactly(e, q, now, ttl, true); }
    }
  }

  lemma GrantKept(p: Plane, ask: Request, now: int, ttl: int, ok: bool)
    requires PlaneOk(p) && IsGrant(ask, Handle(p, ask, now, ttl, ok).reply)
    ensures var o := Handle(p, ask, now, ttl, ok);
            && o.reply.task.taskId in o.plane.tasks && o.plane.tasks[o.reply.task.taskId].task == o.reply.task
            && Kept(o.plane.tasks[o.reply.task.taskId], o.reply.lease) && o.reply.lease.expiresAt == now + ttl
  {
    hide PlaneOk, Free;
    FreeExactly(p, ask.nodeId, now);
    var free := LeasableIds(p, ask.nodeId, now);
    FirstThere(free);
    var id :| First(free, id);
    LeaseExactly(p, ask, now, ttl, ok, id);
    TaskIdOf(p, id);
  }

  // ----- nodes

  /** A registration that names what is needed is stored if the write succeeds; what the node was doing stays. A
      heartbeat of a registered node records what it does and changes nothing else. */
  lemma NodeExactly(p: Plane, q: Request, now: int, ttl: int, ok: bool)
    requires PlaneOk(p) && (q.RegisterNode? || q.Heartbeat?)
    ensures var o := Handle(p, q, now, ttl, ok);
            o.reply.Node? <==> ok && if q.RegisterNode? then REQUIRED <= q.capabilities else q.nodeId in p.nodes
    ensures var o := Handle(p, q, now, ttl, ok);
            if !o.reply.Node? then o.plane == p
            else
              && o.reply.node.nodeId == q.nodeId
              && o.plane == p.(nodes := p.nodes[q.nodeId := o.reply.node],
                               nodeFiles := p.nodeFiles[q.nodeId := o.reply.node])
              && (q.RegisterNode? ==>
                    && o.reply.node.capabilities == q.capabilities
                    && (q.nodeId in p.nodes ==> o.reply.node == p.nodes[q.nodeId].(capabilities := q.capabilities)))
              && (q.Heartbeat? ==>
                    o.reply.node == p.nodes[q.nodeId].(activeTaskId := q.active, pendingDeliveries := q.pending))
  {
    hide RecordOk;
  }

  lemma NodeKept(p: Plane, m: Move, ttl: int, nodeId: Id)
    requires PlaneOk(p) && nodeId in p.nodes && REQUIRED <= p.nodes[nodeId].capabilities
    ensures var e := Handle(p, m.request, m.now, ttl, m.ok).plane;
            nodeId in e.nodes && REQUIRED <= e.nodes[nodeId].capabilities
  {
    hide RecordOk, EventVerdict, TerminalVerdict, LeaseRefusal, WithLease, WithEvent, WithTerminal;
    if m.request.RegisterNode? || m.request.Heartbeat? { NodeExactly(p, m.request, m.now, ttl, m.ok); }
  }

  /** A node that was registered can ask for work ever after, whatever it or anyone else does. */
  lemma {:induction false} RegisteredStaysAble(p: Plane, first: Move, ttl: int, moves: seq<Move>,
                                               capabilities: set<string>)
    requires PlaneOk(p) && first.request.RegisterNode? && REQUIRED <= capabilities
    requires Handle(p, first.request, first.now, ttl, first.ok).reply.Node?
    ensures Able(Run(Handle(p, first.request, first.now, ttl, first.ok).plane, ttl, moves), first.request.nodeId,
                 capabilities)
  {
    hide PlaneOk, Handle;
    var p1 := Handle(p, first.request, first.now, ttl, first.ok).plane;
    NodeExactly(p, first.request, first.now, ttl, first.ok);
    HandleOk(p, first.request, first.now, ttl, first.ok);
    if moves != [] {
      var n := |moves| - 1;
      RegisteredStaysAble(p, first, ttl, moves[..n], capabilities);
      RunOk(p1, ttl, moves[..n]);
      NodeKept(Run(p1, ttl, moves[..n]), moves[n], ttl, first.request.nodeId);
    }
  }
}
