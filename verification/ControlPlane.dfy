/** The remote-task control plane (apps/web/src/control_plane.rs): leases with fencing tokens, at-least-once deliveries,
    one terminal outcome. Time is a parameter of each call, as is whether the write to disk succeeds; a failed write
    fails before the rename. Field checks, other timestamps and bearer tokens are left out. */
module ControlPlane {
  import opened Wrappers
  import opened KeyOrder

  const MAX_U64: nat := 0xFFFF_FFFF_FFFF_FFFF

  datatype TaskState =
    Queued | Leased | Running | Succeeded | Failed | Cancelled | Blocked | OutcomeUnknown | Quarantined

  predicate IsTerminal(s: TaskState) {
    s in {Succeeded, Failed, Cancelled, Blocked, OutcomeUnknown, Quarantined}
  }

  /** `rest` stands for the objective, target, constraints and the other fields that are only compared. */
  datatype RemoteTask = RemoteTask(taskId: Id, executionId: Id, rest: string)

  datatype Lease = Lease(nodeId: Id, leaseId: Id, token: nat, expiresAt: int)

  /** An event delivery; an accepted event keeps exactly these fields. */
  datatype EventBody = EventBody(
    deliveryId: Id, executionId: Id, leaseId: Id, token: nat, sequence: nat, eventType: string, rest: string)

  datatype TerminalBody = TerminalBody(
    deliveryId: Id, executionId: Id, leaseId: Id, token: nat, state: TaskState, rest: string)

  /** The serialised body of a delivery; the two kinds of body have different fields, so their texts differ. */
  datatype Fingerprint = EventPrint(event: EventBody) | TerminalPrint(terminal: TerminalBody)

  datatype TaskRecord = TaskRecord(
    task: RemoteTask,
    state: TaskState,
    sticky: Option<Id>,
    token: nat,
    lease: Option<Lease>,
    lastSequence: nat,
    events: seq<EventBody>,
    terminal: Option<TerminalBody>,
    prints: map<Id, Fingerprint>)

  datatype NodeRecord = NodeRecord(nodeId: Id, capabilities: set<string>,
                                   activeTaskId: Option<Id>, pendingDeliveries: nat)

  datatype Route = Complete | Fail | BlockedRoute

  const REQUIRED := {"codex", "thread", "turn"}

  datatype Refusal =
    | MissingCapability | NodeUnknown | TaskUnknown | TaskBound | ExecutionBound | TokensExhausted
    | DeliveryBound | AlreadyTerminal | WrongRoute | SequenceTooLow
    | WrongExecution | NoLease | StaleLease | StaleToken | LeaseExpired | NotPersisted

  datatype Reply =
    | Refused(why: Refusal)
    | NothingToLease
    | Granted(lease: Lease, task: RemoteTask)
    | Task(record: TaskRecord)
    | Node(node: NodeRecord)

  // ----- what one call does to one record

  function NewRecord(task: RemoteTask): TaskRecord {
    TaskRecord(task, Queued, None, 0, None, 0, [], None, map[])
  }

  predicate Closed(r: TaskRecord) {
    IsTerminal(r.state) || r.terminal.Some?
  }

  predicate Leasable(r: TaskRecord, nodeId: Id, now: int) {
    !Closed(r) && (r.lease.Some? ==> r.lease.value.expiresAt <= now) && (r.sticky.Some? ==> r.sticky.value == nodeId)
  }

  function WithLease(r: TaskRecord, nodeId: Id, leaseId: Id, now: int, ttl: int): TaskRecord {
    r.(token := r.token + 1, lease := Some(Lease(nodeId, leaseId, r.token + 1, now + ttl)),
       sticky := Some(nodeId), state := Leased)
  }

  function LeaseRefusal(r: TaskRecord, nodeId: Id, executionId: Id, leaseId: Id, token: nat,
                        now: int): Option<Refusal> {
    if r.task.executionId != executionId then Some(WrongExecution)
    else if r.lease.None? then Some(NoLease)
    else if r.lease.value.nodeId != nodeId || r.lease.value.leaseId != leaseId then Some(StaleLease)
    else if r.lease.value.token != token || r.token != token then Some(StaleToken)
    else if r.lease.value.expiresAt <= now then Some(LeaseExpired)
    else None
  }

  /** What a delivery meets: already known, known with other content, refused, or acceptable. */
  datatype Verdict = Known | Bad(why: Refusal) | Fine

  function Admission(r: TaskRecord, nodeId: Id, body: Fingerprint, deliveryId: Id, executionId: Id, leaseId: Id,
                     token: nat, now: int): Verdict {
    if deliveryId in r.prints then if r.prints[deliveryId] == body then Known else Bad(DeliveryBound)
    else if Closed(r) then Bad(AlreadyTerminal)
    else
      var refusal := LeaseRefusal(r, nodeId, executionId, leaseId, token, now);
      if refusal.Some? then Bad(refusal.value) else Fine
  }

  function EventVerdict(r: TaskRecord, nodeId: Id, b: EventBody, now: int): Verdict {
    var v := Admission(r, nodeId, EventPrint(b), b.deliveryId, b.executionId, b.leaseId, b.token, now);
    if v == Fine && b.sequence <= r.lastSequence then Bad(SequenceTooLow) else v
  }

  function WithEvent(r: TaskRecord, b: EventBody): TaskRecord {
    r.(lastSequence := b.sequence, events := r.events + [b], prints := r.prints[b.deliveryId := EventPrint(b)],
       state := if b.eventType == "host.accepted" then Running else r.state)
  }

  function TerminalVerdict(r: TaskRecord, nodeId: Id, b: TerminalBody, now: int): Verdict {
    Admission(r, nodeId, TerminalPrint(b), b.deliveryId, b.executionId, b.leaseId, b.token, now)
  }

  function WithTerminal(r: TaskRecord, b: TerminalBody): TaskRecord {
    r.(state := b.state, terminal := Some(b), prints := r.prints[b.deliveryId := TerminalPrint(b)], lease := None)
  }

  predicate RouteAllows(state: TaskState, route: Route) {
    match route
    case Complete => state == Succeeded
    case BlockedRoute => state == Blocked
    case Fail => state in {Failed, Cancelled, OutcomeUnknown, Quarantined}
  }

  // ----- the plane

  datatype Plane = Plane(
    tasks: map<Id, TaskRecord>, nodes: map<Id, NodeRecord>,
    taskFiles: map<Id, TaskRecord>, nodeFiles: map<Id, NodeRecord>)

  const EmptyPlane := Plane(map[], map[], map[], map[])

  datatype Request =
    | CreateTask(task: RemoteTask)
    | RegisterNode(nodeId: Id, capabilities: set<string>)
    | Heartbeat(nodeId: Id, active: Option<Id>, pending: nat)
    | TryLease(nodeId: Id, capabilities: set<string>, leaseId: Id)
    | Renew(taskId: Id, nodeId: Id, leaseId: Id, token: nat)
    | AcceptEvent(taskId: Id, nodeId: Id, event: EventBody)
    | AcceptTerminal(taskId: Id, nodeId: Id, terminal: TerminalBody, route: Route)

  datatype Outcome = Outcome(plane: Plane, reply: Reply)

  function Unchanged(p: Plane, why: Refusal): Outcome {
    Outcome(p, Refused(why))
  }

  function StoreTask(p: Plane, r: TaskRecord, ok: bool, reply: Reply): Outcome {
    if ok then Outcome(p.(tasks := p.tasks[r.task.taskId := r], taskFiles := p.taskFiles[r.task.taskId := r]), reply)
    else Unchanged(p, NotPersisted)
  }

  function StoreNode(p: Plane, n: NodeRecord, ok: bool): Outcome {
    if ok then Outcome(p.(nodes := p.nodes[n.nodeId := n], nodeFiles := p.nodeFiles[n.nodeId := n]), Node(n))
    else Unchanged(p, NotPersisted)
  }

  function LeasableIds(p: Plane, nodeId: Id, now: int): set<Id> {
    set id | id in p.tasks && Leasable(p.tasks[id], nodeId, now)
  }

  predicate ExecutionTaken(p: Plane, executionId: Id) {
    exists id :: id in p.tasks && p.tasks[id].task.executionId == executionId
  }

  function Registered(p: Plane, nodeId: Id, capabilities: set<string>): NodeRecord {
    if nodeId in p.nodes then p.nodes[nodeId].(nodeId := nodeId, capabilities := capabilities)
    else NodeRecord(nodeId, capabilities, None, 0)
  }

  ghost function TryLeaseOutcome(p: Plane, nodeId: Id, capabilities: set<string>, leaseId: Id, now: int, ttl: int,
                                 ok: bool): Outcome {
    if !(REQUIRED <= capabilities) then Unchanged(p, MissingCapability)
    else if nodeId !in p.nodes then Unchanged(p, NodeUnknown)
    else if !(REQUIRED <= p.nodes[nodeId].capabilities) then Unchanged(p, MissingCapability)
    else
      var free := LeasableIds(p, nodeId, now);
      FirstThere(free);
      if free == {} then Outcome(p, NothingToLease)
      else
        var id :| First(free, id);
        var r := p.tasks[id];
        if r.token >= MAX_U64 then Unchanged(p, TokensExhausted)
        else
          var now_ := WithLease(r, nodeId, leaseId, now, ttl);
          StoreTask(p, now_, ok, Granted(now_.lease.value, r.task))
  }

  lemma FirstIsLeased(p: Plane, nodeId: Id, capabilities: set<string>, leaseId: Id, now: int, ttl: int, ok: bool,
                      id: Id)
    requires REQUIRED <= capabilities && nodeId in p.nodes && REQUIRED <= p.nodes[nodeId].capabilities
    requires First(LeasableIds(p, nodeId, now), id)
    ensures id in p.tasks
    ensures var r := p.tasks[id]; var n := WithLease(r, nodeId, leaseId, now, ttl);
            TryLeaseOutcome(p, nodeId, capabilities, leaseId, now, ttl, ok) ==
              if r.token >= MAX_U64 then Unchanged(p, TokensExhausted)
              else StoreTask(p, n, ok, Granted(n.lease.value, r.task))
  {
    hide StoreTask, WithLease;
    var free := LeasableIds(p, nodeId, now);
    forall k | First(free, k) ensures k == id { FirstUnique(free, k, id); }
  }

  /** What the server does with a request at time `now`; `ok` says whether its write succeeds. */
  ghost function Handle(p: Plane, q: Request, now: int, ttl: int, ok: bool): Outcome {
    match q
    case CreateTask(task) =>
      if task.taskId in p.tasks then
        if p.tasks[task.taskId].task == task then Outcome(p, Task(p.tasks[task.taskId])) else Unchanged(p, TaskBound)
      else if ExecutionTaken(p, task.executionId) then Unchanged(p, ExecutionBound)
      else StoreTask(p, NewRecord(task), ok, Task(NewRecord(task)))
    case RegisterNode(nodeId, capabilities) =>
      if !(REQUIRED <= capabilities) then Unchanged(p, MissingCapability)
      else StoreNode(p, Registered(p, nodeId, capabilities), ok)
    case Heartbeat(nodeId, active, pending) =>
      if nodeId !in p.nodes then Unchanged(p, NodeUnknown)
      else StoreNode(p, p.nodes[nodeId].(nodeId := nodeId, activeTaskId := active, pendingDeliveries := pending), ok)
    case TryLease(nodeId, capabilities, leaseId) => TryLeaseOutcome(p, nodeId, capabilities, leaseId, now, ttl, ok)
    case Renew(taskId, nodeId, leaseId, token) =>
      if taskId !in p.tasks then Unchanged(p, TaskUnknown)
      else
        var r := p.tasks[taskId];
        var refusal := LeaseRefusal(r, nodeId, r.task.executionId, leaseId, token, now);
        if refusal.Some? then Unchanged(p, refusal.value)
        else
          var lease := r.lease.value.(expiresAt := now + ttl);
          StoreTask(p, r.(lease := Some(lease)), ok, Granted(lease, r.task))
    case AcceptEvent(taskId, nodeId, b) =>
      if taskId !in p.tasks then Unchanged(p, TaskUnknown)
      else
        var r := p.tasks[taskId];
        (match EventVerdict(r, nodeId, b, now)
         case Known => Outcome(p, Task(r))
         case Bad(why) => Unchanged(p, why)
         case Fine => StoreTask(p, WithEvent(r, b), ok, Task(WithEvent(r, b))))
    case AcceptTerminal(taskId, nodeId, b, route) =>
      if !RouteAllows(b.state, route) then Unchanged(p, WrongRoute)
      else if taskId !in p.tasks then Unchanged(p, TaskUnknown)
      else
        var r := p.tasks[taskId];
        (match TerminalVerdict(r, nodeId, b, now)
         case Known => Outcome(p, Task(r))
         case Bad(why) => Unchanged(p, why)
         case Fine => StoreTask(p, WithTerminal(r, b), ok, Task(WithTerminal(r, b))))
  }

  // ----- the server: its records, in memory and on disk

  class Server {
    var tasks: map<Id, TaskRecord>
    var nodes: map<Id, NodeRecord>
    var taskFiles: map<Id, TaskRecord>
    var nodeFiles: map<Id, NodeRecord>
    const ttl: int

    ghost function State(): Plane reads this { Plane(tasks, nodes, taskFiles, nodeFiles) }

    ghost predicate Keyed() reads this {
      && (forall id :: id in tasks ==> tasks[id].task.taskId == id)
      && (forall id :: id in nodes ==> nodes[id].nodeId == id)
    }

    /** Reads back every record from disk. */
    constructor Open(taskFiles: map<Id, TaskRecord>, nodeFiles: map<Id, NodeRecord>, ttl: int)
      requires forall id :: id in taskFiles ==> taskFiles[id].task.taskId == id
      requires forall id :: id in nodeFiles ==> nodeFiles[id].nodeId == id
      ensures State() == Plane(taskFiles, nodeFiles, taskFiles, nodeFiles) && this.ttl == ttl && Keyed()
    {
      var tasks := ReadTasks(taskFiles);
      var nodes := ReadNodes(nodeFiles);
      this.tasks, this.nodes, this.taskFiles, this.nodeFiles, this.ttl := tasks, nodes, taskFiles, nodeFiles, ttl;
    }

    /** A record is entered under the id it carries, not under its file name. */
    static method ReadTasks(files: map<Id, TaskRecord>) returns (read: map<Id, TaskRecord>)
      requires forall id :: id in files ==> files[id].task.taskId == id
      ensures read == files
    {
      read := map[];
      var left := files.Keys;
      while left != {}
        invariant left <= files.Keys && read.Keys == files.Keys - left
        invariant forall id :: id in read ==> read[id] == files[id]
        decreases |left|
      {
        var file :| file in left;
        read := read[files[file].task.taskId := files[file]];
        left := left - {file};
      }
    }

    static method ReadNodes(files: map<Id, NodeRecord>) returns (read: map<Id, NodeRecord>)
      requires forall id :: id in files ==> files[id].nodeId == id
      ensures read == files
    {
      read := map[];
      var left := files.Keys;
      while left != {}
        invariant left <= files.Keys && read.Keys == files.Keys - left
        invariant forall id :: id in read ==> read[id] == files[id]
        decreases |left|
      {
        var file :| file in left;
        read := read[files[file].nodeId := files[file]];
        left := left - {file};
      }
    }

    method PersistTask(r: TaskRecord, ok: bool)
      modifies this`taskFiles
      ensures taskFiles == if ok then old(taskFiles)[r.task.taskId := r] else old(taskFiles)
    {
      if ok { taskFiles := taskFiles[r.task.taskId := r]; }
    }

    method PersistNode(n: NodeRecord, ok: bool)
      modifies this`nodeFiles
      ensures nodeFiles == if ok then old(nodeFiles)[n.nodeId := n] else old(nodeFiles)
    {
      if ok { nodeFiles := nodeFiles[n.nodeId := n]; }
    }

    method CreateTask(task: RemoteTask, ok: bool) returns (reply: Reply)
      requires Keyed()
      modifies this
      ensures Keyed()
      ensures Outcome(State(), reply) == Handle(old(State()), Request.CreateTask(task), 0, ttl, ok)
    {
      if task.taskId in tasks {
        if tasks[task.taskId].task == task { return Task(tasks[task.taskId]); }
        return Refused(TaskBound);
      }
      if exists id :: id in tasks && tasks[id].task.executionId == task.executionId { return Refused(ExecutionBound); }
      var record := TaskRecord(task, Queued, None, 0, None, 0, [], None, map[]);
      PersistTask(record, ok);
      if !ok { return Refused(NotPersisted); }
      tasks := tasks[task.taskId := record];
      reply := Task(record);
    }

    method RegisterNode(nodeId: Id, capabilities: set<string>, ok: bool) returns (reply: Reply)
      requires Keyed()
      modifies this
      ensures Keyed()
      ensures Outcome(State(), reply) == Handle(old(State()), Request.RegisterNode(nodeId, capabilities), 0, ttl, ok)
    {
      if !(REQUIRED <= capabilities) { return Refused(MissingCapability); }
      var record := NodeRecord(nodeId, capabilities,
        if nodeId in nodes then nodes[nodeId].activeTaskId else None,
        if nodeId in nodes then nodes[nodeId].pendingDeliveries else 0);
      PersistNode(record, ok);
      if !ok { return Refused(NotPersisted); }
      nodes := nodes[nodeId := record];
      reply := Node(record);
    }

    method Heartbeat(nodeId: Id, active: Option<Id>, pending: nat, ok: bool) returns (reply: Reply)
      requires Keyed()
      modifies this
      ensures Keyed()
      ensures Outcome(State(), reply) == Handle(old(State()), Request.Heartbeat(nodeId, active, pending), 0, ttl, ok)
    {
      if nodeId !in nodes { return Refused(NodeUnknown); }
      var record := nodes[nodeId].(activeTaskId := active, pendingDeliveries := pending);
      PersistNode(record, ok);
      if !ok { return Refused(NotPersisted); }
      nodes := nodes[nodeId := record];
      reply := Node(record);
    }

    /** The first record, in key order, that the node may lease. */
    method Select(nodeId: Id, now: int) returns (selected: Option<Id>)
      ensures selected.None? <==> LeasableIds(State(), nodeId, now) == {}
      ensures selected.Some? ==> First(LeasableIds(State(), nodeId, now), selected.value)
    {
      var rest := tasks.Keys;
      while rest != {}
        invariant rest <= tasks.Keys
        invariant forall id :: id in tasks && id !in rest ==> !Leasable(tasks[id], nodeId, now)
        decreases |rest|
      {
        FirstThere(rest);
        var id :| First(rest, id);
        if Leasable(tasks[id], nodeId, now) {
          assert id in LeasableIds(State(), nodeId, now);
          return Some(id);
        }
        rest := rest - {id};
      }
      selected := None;
    }

    method Grant(id: Id, nodeId: Id, leaseId: Id, now: int, ok: bool) returns (reply: Reply)
      requires Keyed() && id in tasks && Leasable(tasks[id], nodeId, now)
      modifies this
      ensures Keyed()
      ensures var r := old(tasks[id]); var n := WithLease(r, nodeId, leaseId, now, ttl);
              Outcome(State(), reply) ==
                if r.token >= MAX_U64 then Unchanged(old(State()), TokensExhausted)
                else StoreTask(old(State()), n, ok, Granted(n.lease.value, r.task))
    {
      var before := tasks[id];
      if before.token >= MAX_U64 { return Refused(TokensExhausted); }
      var record := before.(token := before.token + 1);
      var lease := Lease(nodeId, leaseId, record.token, now + ttl);
      if record.sticky.None? { record := record.(sticky := Some(nodeId)); }
      record := record.(lease := Some(lease), state := Leased);
      tasks := tasks[id := record];
      PersistTask(record, ok);
      if !ok {
        tasks := tasks[id := before];
        return Refused(NotPersisted);
      }
      reply := Granted(lease, record.task);
    }

    method TryLease(nodeId: Id, capabilities: set<string>, leaseId: Id, now: int, ok: bool) returns (reply: Reply)
      requires Keyed()
      modifies this
      ensures Keyed()
      ensures Outcome(State(), reply)
              == Handle(old(State()), Request.TryLease(nodeId, capabilities, leaseId), now, ttl, ok)
    {
      hide First, WithLease, StoreTask;
      if !(REQUIRED <= capabilities) { return Refused(MissingCapability); }
      if nodeId !in nodes { return Refused(NodeUnknown); }
      if !(REQUIRED <= nodes[nodeId].capabilities) { return Refused(MissingCapability); }
      var selected := Select(nodeId, now);
      if selected.None? { return NothingToLease; }
      var id := selected.value;
      FirstIsLeased(State(), nodeId, capabilities, leaseId, now, ttl, ok, id);
      reply := Grant(id, nodeId, leaseId, now, ok);
    }

    method Renew(taskId: Id, nodeId: Id, leaseId: Id, token: nat, now: int, ok: bool) returns (reply: Reply)
      requires Keyed()
      modifies this
      ensures Keyed()
      ensures Outcome(State(), reply)
              == Handle(old(State()), Request.Renew(taskId, nodeId, leaseId, token), now, ttl, ok)
    {
      if taskId !in tasks { return Refused(TaskUnknown); }
      var before := tasks[taskId];
      var refusal := LeaseRefusal(before, nodeId, before.task.executionId, leaseId, token, now);
      if refusal.Some? { return Refused(refusal.value); }
      var lease := before.lease.value.(expiresAt := now + ttl);
      var record := before.(lease := Some(lease));
      tasks := tasks[taskId := record];
      PersistTask(record, ok);
      if !ok {
        tasks := tasks[taskId := before];
        return Refused(NotPersisted);
      }
      reply := Granted(lease, record.task);
    }

    method AcceptEvent(taskId: Id, nodeId: Id, b: EventBody, now: int, ok: bool) returns (reply: Reply)
      requires Keyed()
      modifies this
      ensures Keyed()
      ensures Outcome(State(), reply) == Handle(old(State()), Request.AcceptEvent(taskId, nodeId, b), now, ttl, ok)
    {
      if taskId !in tasks { return Refused(TaskUnknown); }
      var before := tasks[taskId];
      if b.deliveryId in before.prints {
        if before.prints[b.deliveryId] == EventPrint(b) { return Task(before); }
        return Refused(DeliveryBound);
      }
      if IsTerminal(before.state) || before.terminal.Some? { return Refused(AlreadyTerminal); }
      var refusal := LeaseRefusal(before, nodeId, b.executionId, b.leaseId, b.token, now);
      if refusal.Some? { return Refused(refusal.value); }
      if b.sequence <= before.lastSequence { return Refused(SequenceTooLow); }
      var record := before.(lastSequence := b.sequence, events := before.events + [b]);
      if b.eventType == "host.accepted" { record := record.(state := Running); }
      record := record.(prints := record.prints[b.deliveryId := EventPrint(b)]);
      tasks := tasks[taskId := record];
      PersistTask(record, ok);
      if !ok {
        tasks := tasks[taskId := before];
        return Refused(NotPersisted);
      }
      reply := Task(record);
    }

    method AcceptTerminal(taskId: Id, nodeId: Id, b: TerminalBody, route: Route, now: int, ok: bool)
      returns (reply: Reply)
      requires Keyed()
      modifies this
      ensures Keyed()
      ensures Outcome(State(), reply)
              == Handle(old(State()), Request.AcceptTerminal(taskId, nodeId, b, route), now, ttl, ok)
    {
      if !RouteAllows(b.state, route) { return Refused(WrongRoute); }
      if taskId !in tasks { return Refused(TaskUnknown); }
      var before := tasks[taskId];
      if b.deliveryId in before.prints {
        if before.prints[b.deliveryId] == TerminalPrint(b) { return Task(before); }
        return Refused(DeliveryBound);
      }
      if before.terminal.Some? || IsTerminal(before.state) { return Refused(AlreadyTerminal); }
      var refusal := LeaseRefusal(before, nodeId, b.executionId, b.leaseId, b.token, now);
      if refusal.Some? { return Refused(refusal.value); }
      var record := before.(state := b.state, terminal := Some(b));
      record := record.(prints := record.prints[b.deliveryId := TerminalPrint(b)], lease := None);
      tasks := tasks[taskId := record];
      PersistTask(record, ok);
      if !ok {
        tasks := tasks[taskId := before];
        return Refused(NotPersisted);
      }
      reply := Task(record);
    }
  }
}
