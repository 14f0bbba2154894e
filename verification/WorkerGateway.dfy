/** The queue of worker requests (apps/web/src/worker_gateway.rs:315-660, 1077-1154). Time is a parameter of each call;
    `broken` are the requests whose file cannot be written or removed during the call. Fields that are only stored are
    kept in `rest`; arguments are an object, their fingerprint is taken to be injective. */
module WorkerGateway {
  import opened Wrappers
  import opened KeyOrder

  const MAX_U64: nat := 0xFFFF_FFFF_FFFF_FFFF
  const MAX_ACTIVE: nat := 1024
  const WORKER_CAPABILITY := "worker-protocol-v1"
  const SKILL_CAPABILITY := "codex-native-skills-v1"
  const REMOTE_CAPABILITY := "zero3-capability-v1"
  const REMOTE_TOOLS := {"list_capabilities", "describe_capability", "invoke_capability", "get_operation",
      "cancel_operation"}
  const SKILL_TOOLS := {"list_skills", "search_skills", "get_skill", "invoke_skill"}
  const WORKER_TOOLS := {
    "register_worker", "claim_work", "report_progress", "complete_and_claim_next", "report_failure", "get_task_context",
    "session_start", "context_resolve", "task_claim", "event_record", "artifact_register", "task_complete",
    "memory_commit", "handoff_create", "task_bootstrap", "dispatch_codex_task", "dispatch_agent_task", "verify_commit",
    "bootstrap_worker", "commit_and_claim_next", "report_blocked", "recover_worker"}

  predicate KnownTool(capability: string, tool: string) {
    || (capability == WORKER_CAPABILITY && tool in WORKER_TOOLS)
    || (capability == SKILL_CAPABILITY && tool in SKILL_TOOLS)
    || (capability == REMOTE_CAPABILITY && tool in REMOTE_TOOLS)
  }

  predicate LongRunning(capability: string, tool: string) {
    capability == SKILL_CAPABILITY || tool in {"verify_commit", "dispatch_agent_task"}
  }

  function LeaseTtl(capability: string, tool: string): int {
    if LongRunning(capability, tool) then 900 else 30
  }

  function RequestTtl(capability: string, tool: string): int {
    if LongRunning(capability, tool) then 1200 else 120
  }

  /** The string fields the idempotency key is made of, the key itself trimmed; `rest` is everything else. */
  datatype Arguments = Arguments(
    key: Option<string>, taskId: Option<string>, stepId: Option<string>, assignmentId: Option<string>,
    workerId: Option<string>, sessionId: Option<string>, claimId: Option<string>, rest: string)

  datatype RequestState = Queued | Leased | Completed | Failed | Expired

  predicate IsTerminal(s: RequestState) {
    s in {Completed, Failed, Expired}
  }

  datatype RpcRecord = RpcRecord(
    requestId: Id, capability: string, nodeId: Id, tool: string, arguments: Arguments, dedupeKey: Option<string>,
    state: RequestState, leaseId: Option<Id>, token: nat, leaseExpiresAt: Option<int>,
    result: Option<string>, error: Option<string>, createdAt: int, expiresAt: int)

  type Requests = map<Id, RpcRecord>

  function Text(s: Option<string>): string {
    if s.Some? then s.value else ""
  }

  /** The part of the key after the capability and the tool. */
  function KeyTail(a: Arguments): string
    requires a.key.Some?
  {
    Text(a.taskId) + ":" + (Text(a.stepId) + ":" + (Text(a.assignmentId) + ":" + (Text(a.workerId) + ":" +
    (Text(a.sessionId) + ":" + (Text(a.claimId) + ":" + a.key.value)))))
  }

  function DedupeKey(capability: string, tool: string, a: Arguments): Option<string> {
    if a.key.None? || a.key.value == "" then None else Some(capability + ":" + tool + ":" + KeyTail(a))
  }

  // ----- the sweep that starts every call

  predicate Purged(r: RpcRecord, now: int) {
    IsTerminal(r.state) && r.expiresAt <= now
  }

  const EXPIRED_TEXT := "worker RPC request expired before completion"

  /** A request past its time expires; a lease past its time goes back to the queue. */
  function Aged(r: RpcRecord, now: int): RpcRecord {
    if !IsTerminal(r.state) && r.expiresAt <= now then
      r.(state := Expired, error := Some(EXPIRED_TEXT), leaseId := None, leaseExpiresAt := None)
    else if r.state == Leased && r.leaseExpiresAt.Some? && r.leaseExpiresAt.value <= now then
      r.(state := Queued, leaseId := None, leaseExpiresAt := None)
    else r
  }

  predicate NeedsWrite(r: RpcRecord, now: int) {
    Purged(r, now) || Aged(r, now).state != r.state
  }

  /** The requests once those of `done` have been swept. */
  function SweptOf(q: Requests, now: int, done: set<Id>): Requests {
    map id | id in q && !(id in done && Purged(q[id], now)) :: if id in done then Aged(q[id], now) else q[id]
  }

  function Failing(q: Requests, now: int, broken: set<Id>): set<Id> {
    set id | id in q && id in broken && NeedsWrite(q[id], now)
  }

  /** The sweep goes through the requests in key order and stops at the first write that fails. */
  ghost function Reached(q: Requests, now: int, broken: set<Id>): set<Id> {
    var failing := Failing(q, now, broken);
    FirstThere(failing);
    if failing == {} then q.Keys else var bad :| First(failing, bad); set id | id in q && Before(id, bad)
  }

  ghost function Swept(q: Requests, now: int, broken: set<Id>): Requests {
    SweptOf(q, now, Reached(q, now, broken))
  }

  // ----- the operations

  datatype Refusal =
    | UnknownTool | NotPersisted | KeyReused | QueueFull | WrongNode | TokensExhausted | NotFound
    | OtherOutcome | LeaseStale | LeaseIdStale | TokenStale | LeaseExpired

  datatype Reply = Refused(why: Refusal) | NothingQueued | Record(record: RpcRecord)

  datatype RpcOutcome = RpcOutcome(state: RequestState, result: Option<string>, error: Option<string>)

  datatype Call =
    | Submit(capability: string, tool: string, arguments: Arguments, newId: Id)
    | TryLease(nodeId: Id, capabilities: set<string>, leaseId: Id)
    | Finish(requestId: Id, nodeId: Id, leaseId: Id, token: nat, outcome: RpcOutcome)
    | Get(requestId: Id)

  datatype After = After(requests: Requests, reply: Reply)

  function Holders(q: Requests, key: Option<string>): set<Id> {
    set id | id in q && key.Some? && q[id].dedupeKey == key
  }

  function ActiveIds(q: Requests): set<Id> {
    set id | id in q && !IsTerminal(q[id].state)
  }

  function NewRecord(capability: string, tool: string, a: Arguments, newId: Id, node: Id, now: int): RpcRecord {
    RpcRecord(newId, capability, node, tool, a, DedupeKey(capability, tool, a), Queued, None, 0, None, None, None,
              now, now + RequestTtl(capability, tool))
  }

  ghost function Submitted(q: Requests, c: Call, node: Id, now: int, broken: set<Id>): After
    requires c.Submit?
  {
    var holders := Holders(q, DedupeKey(c.capability, c.tool, c.arguments));
    FirstThere(holders);
    if holders != {} then
      var id :| First(holders, id);
      if q[id].arguments == c.arguments then After(q, Record(q[id])) else After(q, Refused(KeyReused))
    else if |ActiveIds(q)| >= MAX_ACTIVE then After(q, Refused(QueueFull))
    else if c.newId in broken then After(q, Refused(NotPersisted))
    else
      var r := NewRecord(c.capability, c.tool, c.arguments, c.newId, node, now);
      After(q[c.newId := r], Record(r))
  }

  function Candidates(q: Requests, nodeId: Id, capabilities: set<string>): set<Id> {
    set id | id in q && q[id].state == Queued && q[id].nodeId == nodeId && q[id].capability in capabilities
  }

  predicate Earlier(a: RpcRecord, b: RpcRecord) {
    a.createdAt < b.createdAt || (a.createdAt == b.createdAt && Before(a.requestId, b.requestId))
  }

  predicate Oldest(q: Requests, s: set<Id>, id: Id)
    requires s <= q.Keys
  {
    id in s && forall k :: k in s && k != id ==> Earlier(q[id], q[k])
  }

  predicate Keyed(q: Requests) {
    forall id :: id in q ==> q[id].requestId == id
  }

  lemma {:induction false} OldestExists(q: Requests, s: set<Id>) returns (id: Id)
    requires Keyed(q) && s <= q.Keys && s != {}
    ensures Oldest(q, s, id)
    decreases s
  {
    var x :| x in s;
    if s == {x} { id := x; }
    else {
      var y := OldestExists(q, s - {x});
      BeforeTotal(x, y);
      id := if Earlier(q[x], q[y]) then x else y;
      forall k | k in s && k != id ensures Earlier(q[id], q[k]) {
        if id == x && k != y { EarlierTransitive(q[x], q[y], q[k]); }
      }
    }
  }

  lemma EarlierTransitive(a: RpcRecord, b: RpcRecord, c: RpcRecord)
    requires Earlier(a, b) && Earlier(b, c)
    ensures Earlier(a, c)
  {
    if a.createdAt == b.createdAt == c.createdAt { BeforeTransitive(a.requestId, b.requestId, c.requestId); }
  }

  lemma OldestUnique(q: Requests, s: set<Id>, a: Id, b: Id)
    requires Keyed(q) && s <= q.Keys && Oldest(q, s, a) && Oldest(q, s, b)
    ensures a == b
  {
    BeforeTotal(a, b);
  }

  function WithLease(r: RpcRecord, leaseId: Id, now: int): RpcRecord {
    r.(state := Leased, leaseId := Some(leaseId), token := r.token + 1,
       leaseExpiresAt := Some(now + LeaseTtl(r.capability, r.tool)))
  }

  /** What a lease on the request `id` comes to. */
  function LeasedOn(q: Requests, id: Id, leaseId: Id, now: int, broken: set<Id>): After
    requires id in q
  {
    if q[id].token >= MAX_U64 then After(q, Refused(TokensExhausted))
    else if id in broken then After(q, Refused(NotPersisted))
    else After(q[id := WithLease(q[id], leaseId, now)], Record(WithLease(q[id], leaseId, now)))
  }

  ghost function LeaseOutcome(q: Requests, c: Call, now: int, broken: set<Id>): After
    requires c.TryLease?
  {
    var s := Candidates(q, c.nodeId, c.capabilities);
    if s == {} || !(exists id :: Oldest(q, s, id)) then After(q, NothingQueued)
    else var id :| Oldest(q, s, id); LeasedOn(q, id, c.leaseId, now, broken)
  }

  function LeaseRefusal(r: RpcRecord, nodeId: Id, leaseId: Id, token: nat, now: int): Option<Refusal> {
    if r.nodeId != nodeId || r.state != Leased then Some(LeaseStale)
    else if r.leaseId != Some(leaseId) then Some(LeaseIdStale)
    else if r.token != token then Some(TokenStale)
    else if r.leaseExpiresAt.None? || r.leaseExpiresAt.value <= now then Some(LeaseExpired)
    else None
  }

  function WithOutcome(r: RpcRecord, o: RpcOutcome): RpcRecord {
    r.(state := o.state, result := o.result, error := o.error, leaseExpiresAt := None)
  }

  function FinishOutcome(q: Requests, c: Call, now: int, broken: set<Id>): After
    requires c.Finish?
  {
    if c.requestId !in q then After(q, Refused(NotFound))
    else
      var r := q[c.requestId];
      if IsTerminal(r.state) then
        if r.state == c.outcome.state && r.result == c.outcome.result && r.error == c.outcome.error
        then After(q, Record(r))
        else After(q, Refused(OtherOutcome))
      else
        var refusal := LeaseRefusal(r, c.nodeId, c.leaseId, c.token, now);
        if refusal.Some? then After(q, Refused(refusal.value))
        else if c.requestId in broken then After(q, Refused(NotPersisted))
        else After(q[c.requestId := WithOutcome(r, c.outcome)], Record(WithOutcome(r, c.outcome)))
  }

  /** One call on the gateway of `node`. */
  ghost function Handle(q: Requests, c: Call, node: Id, now: int, broken: set<Id>): After {
    if c.Submit? && !KnownTool(c.capability, c.tool) then After(q, Refused(UnknownTool))
    else if c.TryLease? && c.nodeId != node then After(q, Refused(WrongNode))
    else
      var s := Swept(q, now, broken);
      if Failing(q, now, broken) != {} then After(s, Refused(NotPersisted))
      else match c
        case Submit(_, _, _, _) => Submitted(s, c, node, now, broken)
        case TryLease(_, _, _) => LeaseOutcome(s, c, now, broken)
        case Finish(_, _, _, _, _) => FinishOutcome(s, c, now, broken)
        case Get(id) => if id in s then After(s, Record(s[id])) else After(s, Refused(NotFound))
  }

  // ----- the gateway: its requests, in memory and on disk

  class Gateway {
    var requests: Requests
    var files: Requests
    const node: Id

    constructor (node: Id)
      ensures requests == map[] && files == map[] && this.node == node
    {
      this.node, requests, files := node, map[], map[];
    }

    /** In memory as on disk, each request under its own id. */
    ghost predicate Valid() reads this { files == requests && Keyed(requests) }

    method Persist(r: RpcRecord, broken: set<Id>) returns (ok: bool)
      modifies this`files
      ensures ok <==> r.requestId !in broken
      ensures files == if ok then old(files)[r.requestId := r] else old(files)
    {
      ok := r.requestId !in broken;
      if ok { files := files[r.requestId := r]; }
    }

    /** The sweep, one request at a time. */
    method Refresh(now: int, broken: set<Id>) returns (ok: bool)
      requires Valid()
      modifies this`requests, this`files
      ensures Valid() && requests == Swept(old(requests), now, broken)
      ensures ok <==> Failing(old(requests), now, broken) == {}
    {
      hide SweptOf, Failing, Reached, Purged, Aged, First;
      ghost var was := requests;
      var rest := requests.Keys;
      SweptNone(was, now);
      while rest != {}
        invariant rest <= was.Keys && Keyed(was)
        invariant requests == SweptOf(was, now, was.Keys - rest) && files == requests
        invariant forall id :: id in was && id !in rest ==> id !in Failing(was, now, broken)
        invariant forall id, k :: id in was && id !in rest && k in rest ==> Before(id, k)
        decreases |rest|
      {
        FirstThere(rest);
        var id :| First(rest, id);
        FirstIn(rest, id);
        KeptKeyed(was, now, was.Keys - rest);
        NotFailing(was, now, broken, id);
        SweptNext(was, now, was.Keys - rest, id);
        var record := requests[id];
        assert was.Keys - (rest - {id}) == (was.Keys - rest) + {id};
        if NeedsWrite(record, now) && id in broken {
          Stopped(was, now, broken, rest, id);
          KeptKeyed(was, now, was.Keys - rest);
          return false;
        }
        if Purged(record, now) {
          files := files - {id};
          requests := requests - {id};
        } else {
          record := Aged(record, now);
          if record.state != requests[id].state {
            files := files[id := record];
            requests := requests[id := record];
          }
        }
        rest := rest - {id};
      }
      assert was.Keys - rest == was.Keys;
      NoneFailing(was, now, broken);
      KeptKeyed(was, now, was.Keys);
      ok := true;
    }

    method Submit(capability: string, tool: string, arguments: Arguments, newId: Id, now: int, broken: set<Id>)
      returns (reply: Reply)
      requires Valid()
      modifies this`requests, this`files
      ensures Valid()
      ensures After(requests, reply)
              == Handle(old(requests), Call.Submit(capability, tool, arguments, newId), node, now, broken)
    {
      hide Swept, Failing, NewRecord, KnownTool, DedupeKey;
      if !KnownTool(capability, tool) { return Refused(UnknownTool); }
      var key := DedupeKey(capability, tool, arguments);
      var ok := Refresh(now, broken);
      if !ok { return Refused(NotPersisted); }
      var existing := FindKey(key);
      if existing.Some? {
        FirstIsFound(requests, key, existing.value);
        if requests[existing.value].arguments == arguments { return Record(requests[existing.value]); }
        return Refused(KeyReused);
      }
      var active := |set id | id in requests && !IsTerminal(requests[id].state)|;
      if active >= MAX_ACTIVE { return Refused(QueueFull); }
      var record := NewRecord(capability, tool, arguments, newId, node, now);
      NewIsKeyed(capability, tool, arguments, newId, node, now);
      ok := Persist(record, broken);
      if !ok { return Refused(NotPersisted); }
      requests := requests[newId := record];
      reply := Record(record);
    }

    /** The first request, in key order, with the given idempotency key. */
    method FindKey(key: Option<string>) returns (found: Option<Id>)
      ensures found.None? <==> Holders(requests, key) == {}
      ensures found.Some? ==> First(Holders(requests, key), found.value)
    {
      if key.None? { return None; }
      var rest := requests.Keys;
      while rest != {}
        invariant rest <= requests.Keys
        invariant forall id :: id in requests && id !in rest ==> requests[id].dedupeKey != key
        decreases |rest|
      {
        FirstThere(rest);
        var id :| First(rest, id);
        if requests[id].dedupeKey == key {
          assert id in Holders(requests, key);
          return Some(id);
        }
        rest := rest - {id};
      }
      found := None;
    }

    method TryLease(nodeId: Id, capabilities: set<string>, leaseId: Id, now: int, broken: set<Id>)
      returns (reply: Reply)
      requires Valid()
      modifies this`requests, this`files
      ensures Valid()
      ensures After(requests, reply)
              == Handle(old(requests), Call.TryLease(nodeId, capabilities, leaseId), node, now, broken)
    {
      hide Swept, Failing, Candidates, Oldest, WithLease;
      if nodeId != node { return Refused(WrongNode); }
      var ok := Refresh(now, broken);
      if !ok { return Refused(NotPersisted); }
      var candidate := MinByAge(nodeId, capabilities);
      if candidate.None? { return NothingQueued; }
      var id := candidate.value;
      OldestIsLeased(requests, Call.TryLease(nodeId, capabilities, leaseId), now, broken, id);
      var record := requests[id];
      if record.token >= MAX_U64 { return Refused(TokensExhausted); }
      LeaseShape(record, leaseId, now);
      record := record.(state := Leased, leaseId := Some(leaseId), token := record.token + 1);
      record := record.(leaseExpiresAt := Some(now + LeaseTtl(record.capability, record.tool)));
      ok := Persist(record, broken);
      if !ok { return Refused(NotPersisted); }
      requests := requests[id := record];
      reply := Record(record);
    }

    /** The oldest queued request the node can serve. */
    method MinByAge(nodeId: Id, capabilities: set<string>) returns (best: Option<Id>)
      requires Keyed(requests)
      ensures best.None? <==> Candidates(requests, nodeId, capabilities) == {}
      ensures best.Some? ==>
                best.value in requests && Oldest(requests, Candidates(requests, nodeId, capabilities), best.value)
    {
      hide Earlier;
      best := None;
      var rest := Candidates(requests, nodeId, capabilities);
      ghost var all := rest;
      while rest != {}
        invariant rest <= all
        invariant best.None? <==> rest == all
        invariant best.Some? ==> best.value in all - rest
        invariant best.Some? ==>
                  forall k :: k in all - rest && k != best.value ==> Earlier(requests[best.value], requests[k])
        decreases |rest|
      {
        var id :| id in rest;
        if best.None? {
          best := Some(id);
        } else {
          EarlierTotal(requests, id, best.value);
          if Earlier(requests[id], requests[best.value]) {
            forall k | k in all - rest && k != best.value ensures Earlier(requests[id], requests[k]) {
              EarlierTransitive(requests[id], requests[best.value], requests[k]);
            }
            best := Some(id);
          }
        }
        rest := rest - {id};
      }
    }

    method Finish(requestId: Id, nodeId: Id, leaseId: Id, token: nat, outcome: RpcOutcome, now: int,
                  broken: set<Id>) returns (reply: Reply)
      requires Valid()
      modifies this`requests, this`files
      ensures Valid()
      ensures After(requests, reply)
              == Handle(old(requests), Call.Finish(requestId, nodeId, leaseId, token, outcome), node, now, broken)
    {
      hide Swept, Failing;
      var ok := Refresh(now, broken);
      if !ok { return Refused(NotPersisted); }
      if requestId !in requests { return Refused(NotFound); }
      var record := requests[requestId];
      if IsTerminal(record.state) {
        if record.state == outcome.state && record.result == outcome.result && record.error == outcome.error {
          return Record(record);
        }
        return Refused(OtherOutcome);
      }
      var refusal := LeaseRefusal(record, nodeId, leaseId, token, now);
      if refusal.Some? { return Refused(refusal.value); }
      record := record.(state := outcome.state, result := outcome.result, error := outcome.error);
      record := record.(leaseExpiresAt := None);
      ok := Persist(record, broken);
      if !ok { return Refused(NotPersisted); }
      requests := requests[requestId := record];
      reply := Record(record);
    }

    method Get(requestId: Id, now: int, broken: set<Id>) returns (reply: Reply)
      requires Valid()
      modifies this`requests, this`files
      ensures Valid()
      ensures After(requests, reply) == Handle(old(requests), Call.Get(requestId), node, now, broken)
    {
      hide Swept, Failing;
      var ok := Refresh(now, broken);
      if !ok { return Refused(NotPersisted); }
      if requestId !in requests { return Refused(NotFound); }
      reply := Record(requests[requestId]);
    }
  }

  lemma FirstIsFound(q: Requests, key: Option<string>, found: Id)
    requires First(Holders(q, key), found)
    ensures forall k :: First(Holders(q, key), k) ==> k == found
  {
    forall k | First(Holders(q, key), k) ensures k == found { FirstUnique(Holders(q, key), k, found); }
  }

  lemma NewIsKeyed(capability: string, tool: string, a: Arguments, newId: Id, node: Id, now: int)
    ensures NewRecord(capability, tool, a, newId, node, now).requestId == newId
  {}

  lemma LeaseShape(r: RpcRecord, leaseId: Id, now: int)
    ensures WithLease(r, leaseId, now) == r.(state := Leased, leaseId := Some(leaseId), token := r.token + 1,
                                             leaseExpiresAt := Some(now + LeaseTtl(r.capability, r.tool)))
  {}

  lemma EarlierTotal(q: Requests, a: Id, b: Id)
    requires Keyed(q) && a in q && b in q && a != b
    ensures Earlier(q[a], q[b]) || Earlier(q[b], q[a])
  {
    BeforeTotal(a, b);
  }

  lemma OldestIsLeased(q: Requests, c: Call, now: int, broken: set<Id>, id: Id)
    requires Keyed(q) && c.TryLease? && id in q && Oldest(q, Candidates(q, c.nodeId, c.capabilities), id)
    ensures LeaseOutcome(q, c, now, broken) == LeasedOn(q, id, c.leaseId, now, broken)
  {
    hide LeasedOn;
    var s := Candidates(q, c.nodeId, c.capabilities);
    forall k | Oldest(q, s, k) ensures k == id { OldestUnique(q, s, k, id); }
  }

  lemma FirstIn(s: set<Id>, m: Id)
    requires First(s, m)
    ensures m in s && forall k :: k in s && k != m ==> Before(m, k)
  {}

  lemma KeptKeyed(q: Requests, now: int, done: set<Id>)
    requires Keyed(q)
    ensures Keyed(SweptOf(q, now, done))
  {}

  lemma NotFailing(q: Requests, now: int, broken: set<Id>, id: Id)
    requires id in q
    ensures id in Failing(q, now, broken) <==> id in broken && NeedsWrite(q[id], now)
    ensures Aged(q[id], now).requestId == q[id].requestId
  {}

  lemma NoneFailing(q: Requests, now: int, broken: set<Id>)
    requires forall id :: id in q ==> id !in Failing(q, now, broken)
    ensures Failing(q, now, broken) == {} && Reached(q, now, broken) == q.Keys
  {
    assert Failing(q, now, broken) == {};
  }

  lemma SweptNone(q: Requests, now: int)
    ensures SweptOf(q, now, {}) == q && q.Keys - q.Keys == {}
  {}

  lemma AgedSame(r: RpcRecord, now: int)
    ensures Aged(r, now).state == r.state ==> Aged(r, now) == r
    ensures Aged(r, now).requestId == r.requestId
  {}

  lemma SweptNext(q: Requests, now: int, done: set<Id>, id: Id)
    requires id in q && id !in done
    ensures id in SweptOf(q, now, done) && SweptOf(q, now, done)[id] == q[id]
    ensures SweptOf(q, now, done + {id}) ==
              if Purged(q[id], now) then SweptOf(q, now, done) - {id}
              else if Aged(q[id], now).state != q[id].state then SweptOf(q, now, done)[id := Aged(q[id], now)]
              else SweptOf(q, now, done)
  {
    AgedSame(q[id], now);
  }

  lemma Stopped(q: Requests, now: int, broken: set<Id>, rest: set<Id>, bad: Id)
    requires rest <= q.Keys && First(rest, bad) && bad in broken && NeedsWrite(q[bad], now)
    requires forall id :: id in q && id !in rest ==> id !in Failing(q, now, broken)
    requires forall id, k :: id in q && id !in rest && k in rest ==> Before(id, k)
    ensures Failing(q, now, broken) != {} && Reached(q, now, broken) == q.Keys - rest
  {
    var failing := Failing(q, now, broken);
    assert bad in failing;
    assert First(failing, bad);
    forall b | First(failing, b) ensures b == bad { FirstUnique(failing, b, bad); }
    forall id | id in q ensures Before(id, bad) <==> id !in rest { BeforeTotal(id, bad); }
  }
}
