/** What the worker gateway answers, in terms of the stored requests: which submission, lease and outcome it accepts,
    and how long a lease can be used (apps/web/src/worker_gateway.rs:333-612, 1103-1131). */
module Outcomes {
  import opened Wrappers
  import opened KeyOrder
  import opened WorkerGateway
  import opened Queue

  // ----- the stored requests at a time

  /** Neither finished nor past its time. */
  predicate Open(r: RpcRecord, now: int) {
    r.state in {Queued, Leased} && r.expiresAt > now
  }

  /** Open, and not under a lease that is still running. */
  predicate Waiting(r: RpcRecord, now: int) {
    Open(r, now) && (r.state == Leased ==> r.leaseExpiresAt.Some? && r.leaseExpiresAt.value <= now)
  }

  /** The request is removed when it is met: it is finished and past its time. */
  predicate Gone(r: RpcRecord, now: int) {
    r.state in {Completed, Failed, Expired} && r.expiresAt <= now
  }

  /** No request that the passing of time changes has a file that cannot be written. */
  predicate Quiet(q: Requests, now: int, broken: set<Id>) {
    forall id :: id in q && id in broken ==>
      if q[id].state in {Queued, Leased} then Open(q[id], now) && (q[id].state == Leased ==> !Waiting(q[id], now))
      else !Gone(q[id], now)
  }

  lemma QuietExactly(q: Requests, now: int, broken: set<Id>)
    ensures Quiet(q, now, broken) <==> Failing(q, now, broken) == {}
  {
    if Quiet(q, now, broken) {
      assert Failing(q, now, broken) == {};
    } else {
      var id :| id in q && id in broken &&
        !(if q[id].state in {Queued, Leased} then Open(q[id], now) && (q[id].state == Leased ==> !Waiting(q[id], now))
          else !Gone(q[id], now));
      assert id in Failing(q, now, broken);
    }
  }

  /** What time makes of a request: past its time an open one expires, one without a running lease is queued. */
  function Timed(r: RpcRecord, now: int): RpcRecord {
    if Waiting(r, now) then r.(state := Queued, leaseId := None, leaseExpiresAt := None)
    else if r.state in {Completed, Failed, Expired} || Open(r, now) then r
    else r.(state := Expired, error := Some("worker RPC request expired before completion"), leaseId := None,
            leaseExpiresAt := None)
  }

  lemma SweptExactly(q: Requests, node: Id, now: int, broken: set<Id>)
    requires QueueOk(q, node) && Quiet(q, now, broken)
    ensures var s := Swept(q, now, broken);
            && s.Keys == (set id | id in q && !Gone(q[id], now))
            && (forall id :: id in s ==> s[id] == Timed(q[id], now))
  {
    hide KnownTool, DedupeKey, DistinctKeys;
    QuietExactly(q, now, broken);
    assert Reached(q, now, broken) == q.Keys by { NoneFailing(q, now, broken); }
    assert forall id :: id in q ==> RecordOk(id, q[id], node);
  }

  // ----- submit

  /** The request is stored and has the idempotency key of the submission. */
  predicate Holder(q: Requests, c: Call, now: int, id: Id)
    requires c.Submit?
  {
    && id in q && !Gone(q[id], now)
    && c.arguments.key.Some? && c.arguments.key.value != ""
    && q[id].dedupeKey == DedupeKey(c.capability, c.tool, c.arguments)
  }

  function OpenIds(q: Requests, now: int): set<Id> {
    set id | id in q && Open(q[id], now)
  }

  /** How long a request is kept: twenty minutes for what runs long, else two. */
  function RequestTime(capability: string, tool: string): int {
    if capability == "codex-native-skills-v1" || tool == "verify_commit" || tool == "dispatch_agent_task" then 1200
    else 120
  }

  lemma HoldersExactly(q: Requests, node: Id, c: Call, now: int, broken: set<Id>)
    requires QueueOk(q, node) && Quiet(q, now, broken) && c.Submit?
    ensures forall id :: id in Holders(Swept(q, now, broken), DedupeKey(c.capability, c.tool, c.arguments))
                         <==> Holder(q, c, now, id)
    ensures ActiveIds(Swept(q, now, broken)) == OpenIds(q, now)
  {
    hide QueueOk, SweptOf, Reached;
    SweptExactly(q, node, now, broken);
    var s := Swept(q, now, broken);
    assert forall id :: id in q && !Gone(q[id], now) ==> id in s;
    forall id | id in q ensures id in ActiveIds(s) <==> id in OpenIds(q, now) {}
  }

  /** A submission whose key is stored is answered with that request if the arguments are the same, and refused
      otherwise. */
  lemma SubmitAgain(q: Requests, node: Id, c: Call, now: int, broken: set<Id>, id: Id)
    requires QueueOk(q, node) && Quiet(q, now, broken) && c.Submit? && KnownTool(c.capability, c.tool)
    requires Holder(q, c, now, id)
    ensures var s := Swept(q, now, broken);
            && id in s && s[id].arguments == q[id].arguments
            && Handle(q, c, node, now, broken)
               == After(s, if q[id].arguments == c.arguments then Record(s[id]) else Refused(KeyReused))
  {
    hide QueueOk, KnownTool, SweptOf, Reached, DedupeKey;
    QuietExactly(q, now, broken);
    SweptExactly(q, node, now, broken);
    HoldersExactly(q, node, c, now, broken);
    var s := Swept(q, now, broken);
    var holders := Holders(s, DedupeKey(c.capability, c.tool, c.arguments));
    SweepOk(q, node, now, Reached(q, now, broken));
    forall k | First(holders, k) ensures k == id { OneHolder(s, node, c, k, id); }
    FirstThere(holders);
  }

  lemma OneHolder(q: Requests, node: Id, c: Call, a: Id, b: Id)
    requires QueueOk(q, node) && c.Submit?
    requires a in Holders(q, DedupeKey(c.capability, c.tool, c.arguments))
    requires b in Holders(q, DedupeKey(c.capability, c.tool, c.arguments))
    ensures a == b
  {
    hide RecordOk, DedupeKey;
  }

  /** A submission whose key is not stored makes a new request if and only if fewer than 1024 are open and the write
      succeeds. */
  lemma SubmitNew(q: Requests, node: Id, c: Call, now: int, broken: set<Id>)
    requires QueueOk(q, node) && Quiet(q, now, broken) && c.Submit? && KnownTool(c.capability, c.tool)
    requires forall id :: id in q ==> !Holder(q, c, now, id)
    ensures var n := RpcRecord(c.newId, c.capability, node, c.tool, c.arguments,
                               DedupeKey(c.capability, c.tool, c.arguments), Queued, None, 0, None, None, None, now,
                               now + RequestTime(c.capability, c.tool));
            var a := Handle(q, c, node, now, broken);
            if |OpenIds(q, now)| < 1024 && c.newId !in broken
            then a == After(Swept(q, now, broken)[c.newId := n], Record(n))
            else a.requests == Swept(q, now, broken) && a.reply.Refused?
  {
    hide QueueOk, KnownTool, SweptOf, Reached, DedupeKey;
    QuietExactly(q, now, broken);
    HoldersExactly(q, node, c, now, broken);
    var holders := Holders(Swept(q, now, broken), DedupeKey(c.capability, c.tool, c.arguments));
    FirstThere(holders);
  }

  // ----- finish

  /** An outcome for an open request is accepted if and only if the request is leased to this node under this lease id
      and token, the lease is running and the write succeeds; the answer is the request with the outcome in it, and
      nothing else changes. */
  lemma FinishExactly(q: Requests, node: Id, c: Call, now: int, broken: set<Id>)
    requires QueueOk(q, node) && Quiet(q, now, broken) && c.Finish? && c.requestId in q && Open(q[c.requestId], now)
    ensures var a := Handle(q, c, node, now, broken); var r := q[c.requestId];
            var n := r.(state := c.outcome.state, result := c.outcome.result, error := c.outcome.error,
                        leaseExpiresAt := None);
            if && r.state == Leased && r.leaseExpiresAt.Some? && now < r.leaseExpiresAt.value
               && c.nodeId == r.nodeId && Some(c.leaseId) == r.leaseId && c.token == r.token
               && c.requestId !in broken
            then a == After(Swept(q, now, broken)[c.requestId := n], Record(n))
            else a.requests == Swept(q, now, broken) && a.reply.Refused?
  {
    hide QueueOk, SweptOf, Reached;
    SweptExactly(q, node, now, broken);
    QuietExactly(q, now, broken);
  }

  /** An outcome for a finished request that is still stored is answered with the request if it is the outcome the
      request has, and refused otherwise. */
  lemma FinishedExactly(q: Requests, node: Id, c: Call, now: int, broken: set<Id>)
    requires QueueOk(q, node) && Quiet(q, now, broken) && c.Finish? && c.requestId in q
    requires q[c.requestId].state in {Completed, Failed, Expired} && !Gone(q[c.requestId], now)
    ensures var r := q[c.requestId];
            Handle(q, c, node, now, broken)
            == After(Swept(q, now, broken),
                     if c.outcome == RpcOutcome(r.state, r.result, r.error) then Record(r) else Refused(OtherOutcome))
  {
    hide QueueOk, SweptOf, Reached;
    SweptExactly(q, node, now, broken);
    QuietExactly(q, now, broken);
  }

  // ----- lease

  /** The requests that are waiting for a node with these capabilities. */
  predicate Servable(q: Requests, capabilities: set<string>, now: int, id: Id) {
    id in q && Waiting(q[id], now) && q[id].capability in capabilities
  }

  /** Of the waiting requests the one submitted first, the smallest id deciding between equals. */
  ghost predicate Next(q: Requests, capabilities: set<string>, now: int, id: Id) {
    && Servable(q, capabilities, now, id)
    && forall k :: Servable(q, capabilities, now, k) && k != id ==>
         q[id].createdAt < q[k].createdAt || (q[id].createdAt == q[k].createdAt && Before(id, k))
  }

  /** How long a lease runs: fifteen minutes for what runs long, else thirty seconds. */
  function LeaseTime(r: RpcRecord): int {
    if r.capability == "codex-native-skills-v1" || r.tool == "verify_commit" || r.tool == "dispatch_agent_task" then 900
    else 30
  }

  lemma ServableExactly(q: Requests, node: Id, capabilities: set<string>, now: int, broken: set<Id>)
    requires QueueOk(q, node) && Quiet(q, now, broken)
    ensures forall id :: id in Candidates(Swept(q, now, broken), node, capabilities)
                         <==> Servable(q, capabilities, now, id)
  {
    hide KnownTool, DedupeKey, DistinctKeys, SweptOf, Reached;
    SweptExactly(q, node, now, broken);
    var s := Swept(q, now, broken);
    forall id ensures id in Candidates(s, node, capabilities) <==> Servable(q, capabilities, now, id) {
      if id in q { assert RecordOk(id, q[id], node); }
    }
  }

  /** The node is given the next waiting request, if its tokens are not used up and the write succeeds: under the next
      token, for thirty seconds or fifteen minutes. It is told that nothing waits exactly when nothing does. */
  lemma LeaseExactly(q: Requests, node: Id, c: Call, now: int, broken: set<Id>, id: Id)
    requires QueueOk(q, node) && Quiet(q, now, broken) && c.TryLease? && c.nodeId == node
    requires Next(q, c.capabilities, now, id)
    ensures var a := Handle(q, c, node, now, broken); var r := q[id];
            var n := r.(state := Leased, leaseId := Some(c.leaseId), token := r.token + 1,
                        leaseExpiresAt := Some(now + LeaseTime(r)));
            if r.token < MAX_U64 && id !in broken then a == After(Swept(q, now, broken)[id := n], Record(n))
            else a.requests == Swept(q, now, broken) && a.reply.Refused?
  {
    hide QueueOk, SweptOf, Reached, LeaseOutcome;
    QuietExactly(q, now, broken);
    SweptExactly(q, node, now, broken);
    ServableExactly(q, node, c.capabilities, now, broken);
    var s := Swept(q, now, broken);
    SweepOk(q, node, now, Reached(q, now, broken));
    QueueKeyed(s, node); QueueKeyed(q, node);
    OldestIsLeased(s, c, now, broken, id);
  }

  lemma NothingExactly(q: Requests, node: Id, c: Call, now: int, broken: set<Id>)
    requires QueueOk(q, node) && Quiet(q, now, broken) && c.TryLease? && c.nodeId == node
    ensures Handle(q, c, node, now, broken).reply.NothingQueued? <==>
              forall id :: id in q ==> !Servable(q, c.capabilities, now, id)
  {
    hide QueueOk, SweptOf, Reached, LeaseOutcome;
    QuietExactly(q, now, broken);
    ServableExactly(q, node, c.capabilities, now, broken);
    var s := Swept(q, now, broken);
    SweepOk(q, node, now, Reached(q, now, broken));
    QueueKeyed(s, node);
    var id := Oldest1(s, c, now, broken);
    if id.None? { NoneToServe(s, c, now, broken); }
    else { assert id.value in Candidates(s, node, c.capabilities) && Servable(q, c.capabilities, now, id.value); }
    assert forall k :: Servable(q, c.capabilities, now, k) ==> k in Candidates(s, node, c.capabilities);
  }

  lemma NoneToServe(q: Requests, c: Call, now: int, broken: set<Id>)
    requires Keyed(q) && c.TryLease? && LeaseOutcome(q, c, now, broken) == After(q, NothingQueued)
    ensures Candidates(q, c.nodeId, c.capabilities) == {}
  {
    hide LeasedOn;
    var s := Candidates(q, c.nodeId, c.capabilities);
    if s != {} {
      var k := OldestExists(q, s);
      OldestIsLeased(q, c, now, broken, k);
      LeasedOnAnswers(q, k, c.leaseId, now, broken);
    }
  }

  lemma LeasedOnAnswers(q: Requests, id: Id, leaseId: Id, now: int, broken: set<Id>)
    requires id in q
    ensures !LeasedOn(q, id, leaseId, now, broken).reply.NothingQueued?
  {}

  // ----- how long a lease can be used

  /** The request is as it was leased, or an outcome was accepted for it. */
  predicate Held(q: Requests, id: Id, r: RpcRecord) {
    && id in q
    && (q[id] == r || (q[id].state in {Completed, Failed} && q[id].token == r.token && q[id].expiresAt == r.expiresAt))
  }

  predicate AllBefore(moves: seq<Move>, until: int) {
    forall k :: 0 <= k < |moves| ==> moves[k].now < until
  }

  lemma HeldSweep(q: Requests, now: int, done: set<Id>, id: Id, r: RpcRecord)
    requires Held(q, id, r) && r.state == Leased && r.leaseExpiresAt.Some?
    requires now < r.expiresAt && now < r.leaseExpiresAt.value
    ensures Held(SweptOf(q, now, done), id, r)
  {}

  lemma HeldStep(q: Requests, node: Id, m: Move, id: Id, r: RpcRecord)
    requires QueueOk(q, node) && CallOk(q, m.call) && Held(q, id, r) && r.state == Leased && r.leaseExpiresAt.Some?
    requires m.now < r.expiresAt && m.now < r.leaseExpiresAt.value
    ensures Held(Handle(q, m.call, node, m.now, m.broken).requests, id, r)
  {
    hide QueueOk, KnownTool, DedupeKey, SweptOf, Reached, LeaseOutcome, NewRecord;
    var done := Reached(q, m.now, m.broken);
    HeldSweep(q, m.now, done, id, r);
    SweepOk(q, node, m.now, done);
    var s := Swept(q, m.now, m.broken);
    if m.call.TryLease? {
      QueueKeyed(s, node);
      var k := Oldest1(s, m.call, m.now, m.broken);
    }
  }

  lemma {:induction false} HeldInRun(q: Requests, node: Id, moves: seq<Move>, id: Id, r: RpcRecord)
    requires QueueOk(q, node) && FreshRun(q, node, moves) && Held(q, id, r)
    requires r.state == Leased && r.leaseExpiresAt.Some?
    requires AllBefore(moves, r.expiresAt) && AllBefore(moves, r.leaseExpiresAt.value)
    ensures Held(Run(q, node, moves), id, r)
  {
    hide QueueOk, Handle, CallOk, Held;
    if moves != [] {
      var n := |moves| - 1;
      HeldInRun(q, node, moves[..n], id, r);
      QueueStaysOk(q, node, moves[..n]);
      HeldStep(Run(q, node, moves[..n]), node, moves[n], id, r);
    }
  }

  /** Until a lease or its request expires the node can finish the request, whatever else is asked for meanwhile: either
      an outcome was accepted under this lease, or the node's outcome is. */
  lemma LeaseholderCanFinish(q: Requests, node: Id, ask: Move, moves: seq<Move>, c: Call, now: int, broken: set<Id>)
    requires QueueOk(q, node) && ask.call.TryLease? && c.Finish?
    requires Handle(q, ask.call, node, ask.now, ask.broken).reply.Record?
    requires var a := Handle(q, ask.call, node, ask.now, ask.broken); var r := a.reply.record;
             && r.leaseExpiresAt.Some? && FreshRun(a.requests, node, moves)
             && AllBefore(moves, r.expiresAt) && AllBefore(moves, r.leaseExpiresAt.value)
             && now < r.expiresAt && now < r.leaseExpiresAt.value
             && c.requestId == r.requestId && c.nodeId == node && Some(c.leaseId) == r.leaseId && c.token == r.token
             && Quiet(Run(a.requests, node, moves), now, broken) && c.requestId !in broken
    ensures var a := Handle(q, ask.call, node, ask.now, ask.broken); var r := a.reply.record;
            var e := Run(a.requests, node, moves);
            && r.requestId in e
            && (if e[r.requestId].state in {Completed, Failed} then e[r.requestId].token == r.token
                else Handle(e, c, node, now, broken).reply
                     == Record(r.(state := c.outcome.state, result := c.outcome.result, error := c.outcome.error,
                                  leaseExpiresAt := None)))
  {
    hide QueueOk, Handle, Run, Quiet;
    var a := Handle(q, ask.call, node, ask.now, ask.broken);
    var r := a.reply.record;
    LeasedNow(q, node, ask);
    HandleOk(q, ask.call, node, ask.now, ask.broken);
    HeldInRun(a.requests, node, moves, r.requestId, r);
    var e := Run(a.requests, node, moves);
    QueueStaysOk(a.requests, node, moves);
    if e[r.requestId] == r { FinishExactly(e, node, c, now, broken); }
  }

  lemma LeasedNow(q: Requests, node: Id, ask: Move)
    requires QueueOk(q, node) && ask.call.TryLease?
    requires Handle(q, ask.call, node, ask.now, ask.broken).reply.Record?
    ensures var a := Handle(q, ask.call, node, ask.now, ask.broken); var r := a.reply.record;
            && r.state == Leased && r.nodeId == node && Held(a.requests, r.requestId, r)
            && r.leaseExpiresAt == Some(ask.now + LeaseTime(r)) && r.leaseId == Some(ask.call.leaseId)
            && CallOk(q, ask.call)
  {
    hide KnownTool, DedupeKey, DistinctKeys, SweptOf, Reached, LeaseOutcome;
    SweepOk(q, node, ask.now, Reached(q, ask.now, ask.broken));
    var s := Swept(q, ask.now, ask.broken);
    QueueKeyed(s, node);
    var k := Oldest1(s, ask.call, ask.now, ask.broken);
    if k.Some? { assert RecordOk(k.value, s[k.value], node); }
  }

  // ----- get

  /** A request that is not gone is shown as time has made it. */
  lemma GetExactly(q: Requests, node: Id, c: Call, now: int, broken: set<Id>)
    requires QueueOk(q, node) && Quiet(q, now, broken) && c.Get?
    ensures Handle(q, c, node, now, broken)
            == After(Swept(q, now, broken),
                     if c.requestId in q && !Gone(q[c.requestId], now) then Record(Timed(q[c.requestId], now))
                     else Refused(NotFound))
  {
    hide QueueOk, SweptOf, Reached;
    SweptExactly(q, node, now, broken);
    QuietExactly(q, now, broken);
  }
}
