/** Fencing, one terminal outcome and at-least-once delivery over all runs of the control plane. */
module Fencing {
  import opened Wrappers
  import opened KeyOrder
  import opened ControlPlane

  // ----- the condition on one record

  predicate Increasing(events: seq<EventBody>) {
    forall i, j :: 0 <= i < j < |events| ==>
      events[i].sequence < events[j].sequence && events[i].token <= events[j].token
  }

  predicate TokensOk(r: TaskRecord) {
    && r.token <= MAX_U64
    && (r.sticky.Some? <==> r.token > 0)
    && (r.lease.Some? ==> r.lease.value.token == r.token && Some(r.lease.value.nodeId) == r.sticky)
  }

  predicate EventsOk(r: TaskRecord) {
    && Increasing(r.events)
    && (forall i :: 0 <= i < |r.events| ==>
          1 <= r.events[i].token <= r.token && r.events[i].executionId == r.task.executionId)
    && r.lastSequence == (if r.events == [] then 0 else r.events[|r.events|-1].sequence)
  }

  predicate TerminalOk(r: TaskRecord) {
    && (r.terminal.Some? <==> IsTerminal(r.state))
    && (r.terminal.Some? ==>
          r.lease.None? && r.terminal.value.state == r.state && 1 <= r.terminal.value.token <= r.token)
  }

  function DeliveryIds(events: seq<EventBody>): set<Id> {
    set e | e in events :: e.deliveryId
  }

  function TerminalIds(t: Option<TerminalBody>): set<Id> {
    if t.Some? then {t.value.deliveryId} else {}
  }

  /** One fingerprint for each accepted delivery, and no other. */
  predicate PrintsOk(r: TaskRecord) {
    && r.prints.Keys == DeliveryIds(r.events) + TerminalIds(r.terminal)
    && |r.prints| == |r.events| + (if r.terminal.Some? then 1 else 0)
    && (forall i :: 0 <= i < |r.events| ==>
          r.events[i].deliveryId in r.prints && r.prints[r.events[i].deliveryId] == EventPrint(r.events[i]))
    && (r.terminal.Some? ==> r.terminal.value.deliveryId in r.prints
                             && r.prints[r.terminal.value.deliveryId] == TerminalPrint(r.terminal.value))
  }

  predicate RecordOk(id: Id, r: TaskRecord) {
    r.task.taskId == id && TokensOk(r) && EventsOk(r) && TerminalOk(r) && PrintsOk(r)
  }

  predicate PlaneOk(p: Plane) {
    && (forall id :: id in p.tasks ==> RecordOk(id, p.tasks[id]))
    && (forall id :: id in p.nodes ==> p.nodes[id].nodeId == id)
    && p.taskFiles == p.tasks && p.nodeFiles == p.nodes
    && (forall a, b :: a in p.tasks && b in p.tasks && p.tasks[a].task.executionId == p.tasks[b].task.executionId ==>
          a == b)
  }

  // ----- each change of a record keeps it

  lemma NewOk(task: RemoteTask)
    ensures RecordOk(task.taskId, NewRecord(task))
  {}

  lemma LeaseOk(id: Id, r: TaskRecord, nodeId: Id, leaseId: Id, now: int, ttl: int)
    requires RecordOk(id, r) && Leasable(r, nodeId, now) && r.token < MAX_U64
    ensures RecordOk(id, WithLease(r, nodeId, leaseId, now, ttl))
  {}

  lemma RenewOk(id: Id, r: TaskRecord, lease: Lease)
    requires RecordOk(id, r) && r.lease.Some? && lease == r.lease.value.(expiresAt := lease.expiresAt)
    ensures RecordOk(id, r.(lease := Some(lease)))
  {}

  lemma Admitted(r: TaskRecord, nodeId: Id, body: Fingerprint, deliveryId: Id, executionId: Id, leaseId: Id, token: nat,
                 now: int)
    requires Admission(r, nodeId, body, deliveryId, executionId, leaseId, token, now) == Fine
    ensures deliveryId !in r.prints && !Closed(r) && r.lease.Some? && executionId == r.task.executionId
    ensures token == r.token && r.lease.value.token == token && r.lease.value.nodeId == nodeId
    ensures r.lease.value.expiresAt > now
  {}

  lemma EventAppended(r: TaskRecord, b: EventBody)
    requires EventsOk(r) && b.token == r.token && r.token >= 1 && b.executionId == r.task.executionId
    requires b.sequence > r.lastSequence
    ensures EventsOk(WithEvent(r, b))
  {
    var n := WithEvent(r, b);
    forall i, j | 0 <= i < j < |n.events|
      ensures n.events[i].sequence < n.events[j].sequence && n.events[i].token <= n.events[j].token {
      if j == |r.events| && i < |r.events| - 1 { assert r.events[i].sequence < r.events[|r.events|-1].sequence; }
    }
  }

  lemma IdsSnoc(events: seq<EventBody>, b: EventBody)
    ensures DeliveryIds(events + [b]) == DeliveryIds(events) + {b.deliveryId}
  {
    assert forall e :: e in events + [b] <==> e in events || e == b;
  }

  lemma PrintAdded(prints: map<Id, Fingerprint>, id: Id, body: Fingerprint)
    requires id !in prints
    ensures prints[id := body].Keys == prints.Keys + {id} && |prints[id := body]| == |prints| + 1
    ensures forall k :: k in prints ==> k in prints[id := body] && prints[id := body][k] == prints[k]
  {
    assert |prints.Keys + {id}| == |prints.Keys| + 1;
    assert prints[id := body].Keys == prints.Keys + {id};
  }

  lemma EventPrinted(r: TaskRecord, b: EventBody)
    requires PrintsOk(r) && b.deliveryId !in r.prints
    ensures PrintsOk(WithEvent(r, b))
  {
    hide DeliveryIds;
    IdsSnoc(r.events, b);
    PrintAdded(r.prints, b.deliveryId, EventPrint(b));
    var n := WithEvent(r, b);
    forall i | 0 <= i < |n.events|
      ensures n.events[i].deliveryId in n.prints && n.prints[n.events[i].deliveryId] == EventPrint(n.events[i]) {
      if i < |r.events| { assert r.events[i].deliveryId in r.prints; }
    }
  }

  lemma TerminalPrinted(r: TaskRecord, b: TerminalBody)
    requires PrintsOk(r) && b.deliveryId !in r.prints && r.terminal.None?
    ensures PrintsOk(WithTerminal(r, b))
  {
    hide DeliveryIds;
    PrintAdded(r.prints, b.deliveryId, TerminalPrint(b));
  }

  lemma EventOk(id: Id, r: TaskRecord, nodeId: Id, b: EventBody, now: int)
    requires RecordOk(id, r) && EventVerdict(r, nodeId, b, now) == Fine
    ensures RecordOk(id, WithEvent(r, b))
  {
    hide EventsOk, PrintsOk, Admission;
    Admitted(r, nodeId, EventPrint(b), b.deliveryId, b.executionId, b.leaseId, b.token, now);
    EventAppended(r, b);
    EventPrinted(r, b);
  }

  lemma TerminalKept(id: Id, r: TaskRecord, nodeId: Id, b: TerminalBody, now: int)
    requires RecordOk(id, r) && TerminalVerdict(r, nodeId, b, now) == Fine && IsTerminal(b.state)
    ensures RecordOk(id, WithTerminal(r, b))
  {
    hide PrintsOk, Admission;
    Admitted(r, nodeId, TerminalPrint(b), b.deliveryId, b.executionId, b.leaseId, b.token, now);
    TerminalPrinted(r, b);
  }

  lemma StoreOk(p: Plane, r: TaskRecord, ok: bool, reply: Reply)
    requires PlaneOk(p) && RecordOk(r.task.taskId, r)
    requires r.task.taskId in p.tasks ==> r.task.executionId == p.tasks[r.task.taskId].task.executionId
    requires r.task.taskId !in p.tasks ==> !ExecutionTaken(p, r.task.executionId)
    ensures PlaneOk(StoreTask(p, r, ok, reply).plane)
  {
    hide RecordOk;
  }

  lemma HandleOk(p: Plane, q: Request, now: int, ttl: int, ok: bool)
    requires PlaneOk(p)
    ensures PlaneOk(Handle(p, q, now, ttl, ok).plane)
  {
    hide RecordOk, WithLease, WithEvent, WithTerminal, EventVerdict, TerminalVerdict, LeaseRefusal;
    match q
    case CreateTask(task) =>
      NewOk(task);
      if task.taskId !in p.tasks && !ExecutionTaken(p, task.executionId) {
        StoreOk(p, NewRecord(task), ok, Task(NewRecord(task)));
      }
    case RegisterNode(_, _) =>
    case Heartbeat(_, _, _) =>
    case TryLease(nodeId, capabilities, leaseId) => LeaseHandled(p, nodeId, capabilities, leaseId, now, ttl, ok);
    case Renew(taskId, nodeId, leaseId, token) => RenewHandled(p, q, now, ttl, ok);
    case AcceptEvent(taskId, nodeId, b) =>
      if taskId in p.tasks && EventVerdict(p.tasks[taskId], nodeId, b, now) == Fine {
        EventOk(taskId, p.tasks[taskId], nodeId, b, now);
        SameTask(p.tasks[taskId], taskId, b);
        StoreOk(p, WithEvent(p.tasks[taskId], b), ok, Task(WithEvent(p.tasks[taskId], b)));
      }
    case AcceptTerminal(taskId, nodeId, b, route) =>
      if taskId in p.tasks && RouteAllows(b.state, route) && TerminalVerdict(p.tasks[taskId], nodeId, b, now) == Fine {
        TerminalKept(taskId, p.tasks[taskId], nodeId, b, now);
        SameTask'(p.tasks[taskId], taskId, b);
        StoreOk(p, WithTerminal(p.tasks[taskId], b), ok, Task(WithTerminal(p.tasks[taskId], b)));
      }
  }

  lemma SameTask(r: TaskRecord, id: Id, b: EventBody)
    requires RecordOk(id, r)
    ensures r.task.taskId == id && WithEvent(r, b).task == r.task
  {}

  lemma SameTask'(r: TaskRecord, id: Id, b: TerminalBody)
    requires RecordOk(id, r)
    ensures r.task.taskId == id && WithTerminal(r, b).task == r.task
  {}

  lemma LeaseHandled(p: Plane, nodeId: Id, capabilities: set<string>, leaseId: Id, now: int, ttl: int, ok: bool)
    requires PlaneOk(p)
    ensures PlaneOk(TryLeaseOutcome(p, nodeId, capabilities, leaseId, now, ttl, ok).plane)
  {
    hide TokensOk, EventsOk, TerminalOk, PrintsOk;
    var free := LeasableIds(p, nodeId, now);
    FirstThere(free);
    if REQUIRED <= capabilities && nodeId in p.nodes && REQUIRED <= p.nodes[nodeId].capabilities && free != {} {
      var id :| First(free, id);
      forall k | First(free, k) ensures k == id { FirstUnique(free, k, id); }
      var r := p.tasks[id];
      if r.token < MAX_U64 {
        LeaseOk(id, r, nodeId, leaseId, now, ttl);
        var n := WithLease(r, nodeId, leaseId, now, ttl);
        StoreOk(p, n, ok, Granted(n.lease.value, r.task));
      }
    }
  }

  lemma RenewHandled(p: Plane, q: Request, now: int, ttl: int, ok: bool)
    requires PlaneOk(p) && q.Renew?
    ensures PlaneOk(Handle(p, q, now, ttl, ok).plane)
  {
    hide TokensOk, EventsOk, TerminalOk, PrintsOk;
    if q.taskId in p.tasks {
      var r := p.tasks[q.taskId];
      if LeaseRefusal(r, q.nodeId, r.task.executionId, q.leaseId, q.token, now).None? {
        var lease := r.lease.value.(expiresAt := now + ttl);
        RenewOk(q.taskId, r, lease);
        StoreOk(p, r.(lease := Some(lease)), ok, Granted(lease, r.task));
      }
    }
  }

  // ----- runs

  datatype Move = Move(request: Request, now: int, ok: bool)

  ghost function Run(p: Plane, ttl: int, moves: seq<Move>): Plane {
    if moves == [] then p else
      var n := |moves| - 1;
      Handle(Run(p, ttl, moves[..n]), moves[n].request, moves[n].now, ttl, moves[n].ok).plane
  }

  lemma {:induction false} RunOk(p: Plane, ttl: int, moves: seq<Move>)
    requires PlaneOk(p)
    ensures PlaneOk(Run(p, ttl, moves))
  {
    hide PlaneOk, Handle;
    if moves != [] {
      var n := |moves| - 1;
      RunOk(p, ttl, moves[..n]);
      HandleOk(Run(p, ttl, moves[..n]), moves[n].request, moves[n].now, ttl, moves[n].ok);
    }
  }

  /** In every run from an empty server: the accepted events of a task have strictly increasing sequence numbers and
      tokens that never fall, a terminal record is there exactly when the state is terminal, and the fingerprints
      number the accepted deliveries; reopening from disk gives the state in memory. */
  lemma EveryRecordInOrder(ttl: int, moves: seq<Move>, id: Id)
    ensures var p := Run(EmptyPlane, ttl, moves);
            && p.taskFiles == p.tasks && p.nodeFiles == p.nodes
            && (id in p.tasks ==>
                  var r := p.tasks[id];
                  && (forall i, j :: 0 <= i < j < |r.events| ==>
                        && r.events[i].sequence < r.events[j].sequence
                        && r.events[i].token <= r.events[j].token <= r.token)
                  && (r.terminal.Some? <==> IsTerminal(r.state))
                  && |r.prints| == |r.events| + (if r.terminal.Some? then 1 else 0)
                  && (forall k :: k in p.tasks && p.tasks[k].task.executionId == r.task.executionId ==> k == id))
  {
    hide Run;
    RunOk(EmptyPlane, ttl, moves);
  }

  // ----- what a single request can do to a record

  predicate IsGrant(q: Request, reply: Reply) {
    q.TryLease? && reply.Granted?
  }

  /** Everything but one record stays; on that record the request does exactly one of the five changes. */
  ghost predicate Changed(p: Plane, q: Request, now: int, ttl: int, id: Id, was: TaskRecord, n: TaskRecord,
                          granted: bool) {
    if granted then q.TryLease? && Leasable(was, q.nodeId, now) && was.token < MAX_U64
                 && n == WithLease(was, q.nodeId, q.leaseId, now, ttl)
    else
      || n == was
      || (q.Renew? && !Closed(was) && was.lease.Some? && was.lease.value.nodeId == q.nodeId && was.token == q.token
          && n == was.(lease := Some(was.lease.value.(expiresAt := now + ttl))))
      || (q.AcceptEvent? && EventVerdict(was, q.nodeId, q.event, now) == Fine && n == WithEvent(was, q.event))
      || (q.AcceptTerminal? && TerminalVerdict(was, q.nodeId, q.terminal, now) == Fine && IsTerminal(q.terminal.state)
          && n == WithTerminal(was, q.terminal))
  }

  lemma HandleChanges(p: Plane, q: Request, now: int, ttl: int, ok: bool, id: Id)
    requires PlaneOk(p) && id in p.tasks
    ensures var o := Handle(p, q, now, ttl, ok);
            && id in o.plane.tasks
            && Changed(p, q, now, ttl, id, p.tasks[id], o.plane.tasks[id],
                       IsGrant(q, o.reply) && o.reply.task.taskId == id)
  {
    hide WithLease, WithEvent, WithTerminal, EventVerdict, TerminalVerdict, TokensOk, EventsOk, PrintsOk;
    if q.TryLease? {
      LeaseChanges(p, q, now, ttl, ok, id);
    } else if q.AcceptEvent? || q.AcceptTerminal? {
      DeliveryChanges(p, q, now, ttl, ok, id);
    } else if q.Renew? {
      RenewChanges(p, q, now, ttl, ok, id);
    }
  }

  lemma DeliveryChanges(p: Plane, q: Request, now: int, ttl: int, ok: bool, id: Id)
    requires PlaneOk(p) && id in p.tasks && (q.AcceptEvent? || q.AcceptTerminal?)
    ensures var o := Handle(p, q, now, ttl, ok);
            id in o.plane.tasks && Changed(p, q, now, ttl, id, p.tasks[id], o.plane.tasks[id], false)
  {
    hide EventVerdict, TerminalVerdict, TokensOk, EventsOk, PrintsOk, TerminalOk;
  }

  lemma RenewChanges(p: Plane, q: Request, now: int, ttl: int, ok: bool, id: Id)
    requires PlaneOk(p) && id in p.tasks && q.Renew?
    ensures var o := Handle(p, q, now, ttl, ok);
            id in o.plane.tasks && Changed(p, q, now, ttl, id, p.tasks[id], o.plane.tasks[id], false)
  {
    hide TokensOk, EventsOk, PrintsOk;
  }

  lemma LeaseChanges(p: Plane, q: Request, now: int, ttl: int, ok: bool, id: Id)
    requires PlaneOk(p) && id in p.tasks && q.TryLease?
    ensures var o := Handle(p, q, now, ttl, ok);
            && id in o.plane.tasks
            && Changed(p, q, now, ttl, id, p.tasks[id], o.plane.tasks[id],
                       o.reply.Granted? && o.reply.task.taskId == id)
  {
    hide WithLease, TokensOk, EventsOk, PrintsOk, TerminalOk;
    var free := LeasableIds(p, q.nodeId, now);
    FirstThere(free);
    if REQUIRED <= q.capabilities && q.nodeId in p.nodes && REQUIRED <= p.nodes[q.nodeId].capabilities && free != {} {
      var k :| First(free, k);
      FirstIsLeased(p, q.nodeId, q.capabilities, q.leaseId, now, ttl, ok, k);
      LeasedTask(p.tasks[k], q.nodeId, q.leaseId, now, ttl);
    }
  }

  lemma LeasedTask(r: TaskRecord, nodeId: Id, leaseId: Id, now: int, ttl: int)
    ensures WithLease(r, nodeId, leaseId, now, ttl).task == r.task
    ensures WithLease(r, nodeId, leaseId, now, ttl).lease.Some?
  {}

  /** Only a request to create a task adds a record. */
  lemma NoNewTask(p: Plane, q: Request, now: int, ttl: int, ok: bool, id: Id)
    requires PlaneOk(p) && !q.CreateTask? && id !in p.tasks
    ensures id !in Handle(p, q, now, ttl, ok).plane.tasks
  {
    hide TokensOk, EventsOk, PrintsOk, TerminalOk, EventVerdict, TerminalVerdict;
    if q.TryLease? { LeaseAddsNothing(p, Move(q, now, ok), ttl, id); }
  }

  // ----- leases

  /** The leases granted on a task, in order. */
  ghost function Grants(p: Plane, ttl: int, moves: seq<Move>, id: Id): seq<Lease> {
    if moves == [] then [] else
      var n := |moves| - 1;
      var m := moves[n];
      var reply := Handle(Run(p, ttl, moves[..n]), m.request, m.now, ttl, m.ok).reply;
      Grants(p, ttl, moves[..n], id) +
      if IsGrant(m.request, reply) && reply.task.taskId == id then [reply.lease] else []
  }

  lemma GrantStep(p: Plane, m: Move, ttl: int, id: Id, grants: seq<Lease>)
    requires PlaneOk(p) && id in p.tasks && Numbered(p.tasks[id], grants)
    ensures var o := Handle(p, m.request, m.now, ttl, m.ok);
            id in o.plane.tasks
            && Numbered(o.plane.tasks[id],
                        grants + if IsGrant(m.request, o.reply) && o.reply.task.taskId == id then [o.reply.lease]
                                 else [])
  {
    hide Handle, EventVerdict, TerminalVerdict, EventsOk, PrintsOk, TerminalOk;
    HandleChanges(p, m.request, m.now, ttl, m.ok, id);
    GrantedLease(p, m.request, m.now, ttl, m.ok, id);
  }

  lemma GrantedLease(p: Plane, q: Request, now: int, ttl: int, ok: bool, id: Id)
    requires PlaneOk(p) && id in p.tasks
    ensures var o := Handle(p, q, now, ttl, ok);
            IsGrant(q, o.reply) && o.reply.task.taskId == id ==>
              id in o.plane.tasks && o.plane.tasks[id].lease == Some(o.reply.lease)
  {
    hide TokensOk, EventsOk, PrintsOk, TerminalOk, WithLease;
    if q.TryLease? {
      var free := LeasableIds(p, q.nodeId, now);
      FirstThere(free);
      if REQUIRED <= q.capabilities && q.nodeId in p.nodes && REQUIRED <= p.nodes[q.nodeId].capabilities && free != {} {
        var k :| First(free, k);
        FirstIsLeased(p, q.nodeId, q.capabilities, q.leaseId, now, ttl, ok, k);
        LeasedTask(p.tasks[k], q.nodeId, q.leaseId, now, ttl);
      }
    }
  }

  /** The leases carry the tokens 1, 2, 3, ... up to the token of the record, all of them to its sticky node. */
  predicate Numbered(r: TaskRecord, grants: seq<Lease>) {
    |grants| == r.token && forall k :: 0 <= k < |grants| ==>
      grants[k].token == k + 1 && Some(grants[k].nodeId) == r.sticky
  }

  lemma CreatedUnleased(p: Plane, m: Move, ttl: int, id: Id)
    requires PlaneOk(p) && id !in p.tasks
    ensures var o := Handle(p, m.request, m.now, ttl, m.ok);
            && (id in o.plane.tasks ==> Numbered(o.plane.tasks[id], []))
            && !(IsGrant(m.request, o.reply) && o.reply.task.taskId == id)
  {
    hide TokensOk, EventsOk, PrintsOk, TerminalOk, EventVerdict, TerminalVerdict, WithLease;
    if m.request.TryLease? {
      var q := m.request;
      var free := LeasableIds(p, q.nodeId, m.now);
      FirstThere(free);
      if REQUIRED <= q.capabilities && q.nodeId in p.nodes && REQUIRED <= p.nodes[q.nodeId].capabilities && free != {} {
        var k :| First(free, k);
        FirstIsLeased(p, q.nodeId, q.capabilities, q.leaseId, m.now, ttl, m.ok, k);
        LeasedTask(p.tasks[k], q.nodeId, q.leaseId, m.now, ttl);
      }
    }
  }

  lemma {:induction false} LeasesAreFenced(p: Plane, ttl: int, moves: seq<Move>, id: Id)
    requires PlaneOk(p) && id !in p.tasks
    ensures var now := Run(p, ttl, moves); var grants := Grants(p, ttl, moves, id);
            if id in now.tasks then Numbered(now.tasks[id], grants) else grants == []
  {
    hide PlaneOk, Handle, Numbered, IsGrant;
    if moves != [] {
      var n := |moves| - 1;
      LeasesAreFenced(p, ttl, moves[..n], id);
      RunOk(p, ttl, moves[..n]);
      var e := Run(p, ttl, moves[..n]);
      if id in e.tasks { GrantStep(e, moves[n], ttl, id, Grants(p, ttl, moves[..n], id)); }
      else {
        CreatedUnleased(e, moves[n], ttl, id);
        assert Grants(p, ttl, moves[..n], id) + [] == [];
      }
    }
  }

  // ----- what later requests cannot undo

  /** Tokens only grow, accepted events stay, and a record with a terminal outcome never changes again. */
  predicate MovedOn(was: TaskRecord, n: TaskRecord) {
    && was.token <= n.token && was.events <= n.events && was.prints.Keys <= n.prints.Keys
    && (Closed(was) ==> n == was)
    && (was.sticky.Some? ==> n.sticky == was.sticky)
  }

  lemma StepMovesOn(p: Plane, m: Move, ttl: int, id: Id)
    requires PlaneOk(p) && id in p.tasks
    ensures var now := Handle(p, m.request, m.now, ttl, m.ok).plane;
            id in now.tasks && MovedOn(p.tasks[id], now.tasks[id])
  {
    hide Handle, EventsOk, PrintsOk;
    HandleChanges(p, m.request, m.now, ttl, m.ok, id);
  }

  lemma {:induction false} RunMovesOn(p: Plane, ttl: int, moves: seq<Move>, id: Id)
    requires PlaneOk(p) && id in p.tasks
    ensures id in Run(p, ttl, moves).tasks && MovedOn(p.tasks[id], Run(p, ttl, moves).tasks[id])
  {
    hide PlaneOk, Handle;
    if moves != [] {
      var n := |moves| - 1;
      RunMovesOn(p, ttl, moves[..n], id);
      RunOk(p, ttl, moves[..n]);
      StepMovesOn(Run(p, ttl, moves[..n]), moves[n], ttl, id);
    }
  }

  /** The token a delivery carries. */
  function TokenOf(q: Request): nat
    requires q.AcceptEvent? || q.AcceptTerminal?
  {
    if q.AcceptEvent? then q.event.token else q.terminal.token
  }

  /** A delivery under a token older than the newest one never changes anything again, whatever happens before it. */
  lemma OldTokenNeverWrites(p: Plane, ttl: int, moves: seq<Move>, q: Request, now: int, ok: bool)
    requires PlaneOk(p) && (q.AcceptEvent? || q.AcceptTerminal?) && q.taskId in p.tasks
    requires TokenOf(q) < p.tasks[q.taskId].token
    ensures Handle(Run(p, ttl, moves), q, now, ttl, ok).plane == Run(p, ttl, moves)
  {
    hide Run, PlaneOk, WithEvent, WithTerminal;
    RunMovesOn(p, ttl, moves, q.taskId);
  }

  /** A lease is granted only when no other lease on the task is still running. */
  lemma GrantAfterExpiry(p: Plane, q: Request, now: int, ttl: int, ok: bool)
    requires PlaneOk(p) && IsGrant(q, Handle(p, q, now, ttl, ok).reply)
    ensures var id := Handle(p, q, now, ttl, ok).reply.task.taskId;
            && id in p.tasks && !Closed(p.tasks[id])
            && (p.tasks[id].lease.Some? ==> p.tasks[id].lease.value.expiresAt <= now)
  {
    hide TokensOk, EventsOk, PrintsOk, TerminalOk, WithLease;
    var free := LeasableIds(p, q.nodeId, now);
    FirstThere(free);
    if REQUIRED <= q.capabilities && q.nodeId in p.nodes && REQUIRED <= p.nodes[q.nodeId].capabilities && free != {} {
      var k :| First(free, k);
      FirstIsLeased(p, q.nodeId, q.capabilities, q.leaseId, now, ttl, ok, k);
      LeasedTask(p.tasks[k], q.nodeId, q.leaseId, now, ttl);
    }
  }

  // ----- repeated and conflicting deliveries

  function DeliveryOf(q: Request): Id
    requires q.AcceptEvent? || q.AcceptTerminal?
  {
    if q.AcceptEvent? then q.event.deliveryId else q.terminal.deliveryId
  }

  predicate Delivers(q: Request, id: Id) {
    (q.AcceptEvent? || q.AcceptTerminal?) && q.taskId == id
  }

  /** The delivery ids of the deliveries for a task that a run has accepted so far. */
  ghost function Accepted(p: Plane, ttl: int, moves: seq<Move>, id: Id): set<Id> {
    if moves == [] then {} else
      var n := |moves| - 1;
      var m := moves[n];
      Accepted(p, ttl, moves[..n], id) +
        if Delivers(m.request, id) && Handle(Run(p, ttl, moves[..n]), m.request, m.now, ttl, m.ok).reply.Task?
        then {DeliveryOf(m.request)}
        else {}
  }

  lemma AcceptedDelivery(p: Plane, m: Move, ttl: int, id: Id)
    requires PlaneOk(p) && (m.request.AcceptEvent? || m.request.AcceptTerminal?)
    ensures var o := Handle(p, m.request, m.now, ttl, m.ok);
            PrintsAt(o.plane, id) ==
              PrintsAt(p, id) + if Delivers(m.request, id) && o.reply.Task? then {DeliveryOf(m.request)}
                                else {}
  {
    hide TokensOk, EventsOk, PrintsOk, TerminalOk, LeaseRefusal, RouteAllows;
  }

  lemma AcceptedStep(p: Plane, m: Move, ttl: int, id: Id)
    requires PlaneOk(p)
    ensures var o := Handle(p, m.request, m.now, ttl, m.ok);
            PrintsAt(o.plane, id) ==
              PrintsAt(p, id) + if Delivers(m.request, id) && o.reply.Task? then {DeliveryOf(m.request)}
                                else {}
  {
    hide TokensOk, EventsOk, PrintsOk, TerminalOk, EventVerdict, TerminalVerdict, WithEvent, WithTerminal;
    if m.request.AcceptEvent? || m.request.AcceptTerminal? {
      AcceptedDelivery(p, m, ttl, id);
    } else if m.request.TryLease? {
      if id in p.tasks {
        HandleChanges(p, m.request, m.now, ttl, m.ok, id);
      } else {
        CreatedUnleased(p, m, ttl, id); LeaseAddsNothing(p, m, ttl, id);
      }
    }
  }

  lemma LeaseAddsNothing(p: Plane, m: Move, ttl: int, id: Id)
    requires PlaneOk(p) && m.request.TryLease? && id !in p.tasks
    ensures id !in Handle(p, m.request, m.now, ttl, m.ok).plane.tasks
  {
    hide TokensOk, EventsOk, PrintsOk, TerminalOk, WithLease;
    var q := m.request;
    var free := LeasableIds(p, q.nodeId, m.now);
    FirstThere(free);
    if REQUIRED <= q.capabilities && q.nodeId in p.nodes && REQUIRED <= p.nodes[q.nodeId].capabilities && free != {} {
      var k :| First(free, k);
      FirstIsLeased(p, q.nodeId, q.capabilities, q.leaseId, m.now, ttl, m.ok, k);
      LeasedTask(p.tasks[k], q.nodeId, q.leaseId, m.now, ttl);
    }
  }

  function PrintsAt(p: Plane, id: Id): set<Id> {
    if id in p.tasks then p.tasks[id].prints.Keys else {}
  }

  lemma {:induction false} FingerprintsAreAccepted(p: Plane, ttl: int, moves: seq<Move>, id: Id)
    requires PlaneOk(p) && id !in p.tasks
    ensures PrintsAt(Run(p, ttl, moves), id) == Accepted(p, ttl, moves, id)
  {
    hide PlaneOk, Handle;
    if moves != [] {
      var n := |moves| - 1;
      FingerprintsAreAccepted(p, ttl, moves[..n], id);
      RunOk(p, ttl, moves[..n]);
      AcceptedStep(Run(p, ttl, moves[..n]), moves[n], ttl, id);
    }
  }

  /** The run without the deliveries whose id was accepted before, be their content the same or not. */
  ghost function WithoutRepeats(p: Plane, ttl: int, moves: seq<Move>): seq<Move> {
    if moves == [] then [] else
      var n := |moves| - 1;
      var q := moves[n].request;
      WithoutRepeats(p, ttl, moves[..n]) +
        if (q.AcceptEvent? || q.AcceptTerminal?) && DeliveryOf(q) in Accepted(p, ttl, moves[..n], q.taskId) then []
        else [moves[n]]
  }

  lemma RepeatIsInert(p: Plane, q: Request, now: int, ttl: int, ok: bool)
    requires (q.AcceptEvent? || q.AcceptTerminal?) && DeliveryOf(q) in PrintsAt(p, q.taskId)
    ensures Handle(p, q, now, ttl, ok).plane == p
  {
    hide LeaseRefusal, WithEvent, WithTerminal;
  }

  /** A run with repeated or conflicting deliveries ends in exactly the state of the run without them. */
  lemma {:induction false} RepeatsCanBeErased(ttl: int, moves: seq<Move>)
    ensures Run(EmptyPlane, ttl, WithoutRepeats(EmptyPlane, ttl, moves)) == Run(EmptyPlane, ttl, moves)
  {
    hide Handle, Accepted;
    if moves != [] {
      var n := |moves| - 1;
      var q := moves[n].request;
      RepeatsCanBeErased(ttl, moves[..n]);
      var kept := WithoutRepeats(EmptyPlane, ttl, moves[..n]);
      if (q.AcceptEvent? || q.AcceptTerminal?) && DeliveryOf(q) in Accepted(EmptyPlane, ttl, moves[..n], q.taskId) {
        FingerprintsAreAccepted(EmptyPlane, ttl, moves[..n], q.taskId);
        RepeatIsInert(Run(EmptyPlane, ttl, moves[..n]), q, moves[n].now, ttl, moves[n].ok);
        assert kept + [] == kept;
      } else {
        assert (kept + [moves[n]])[..|kept|] == kept;
      }
    }
  }
}
