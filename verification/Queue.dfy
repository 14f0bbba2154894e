/** What the worker queue keeps over all runs, and when its idempotency keys can be trusted. */
module Queue {
  import opened Wrappers
  import opened KeyOrder
  import opened WorkerGateway

  // ----- the condition on one request and on the queue

  predicate RecordOk(id: Id, r: RpcRecord, node: Id) {
    && r.requestId == id && r.nodeId == node && KnownTool(r.capability, r.tool)
    && r.dedupeKey == DedupeKey(r.capability, r.tool, r.arguments)
    && r.token <= MAX_U64
    && (r.state == Leased ==> r.leaseId.Some? && r.leaseExpiresAt.Some? && r.token >= 1)
    && (r.state in {Queued, Expired} ==> r.leaseId.None? && r.leaseExpiresAt.None?)
    && (r.state in {Completed, Failed} ==> r.token >= 1)
  }

  predicate DistinctKeys(q: Requests) {
    forall a, b :: a in q && b in q && q[a].dedupeKey.Some? && q[a].dedupeKey == q[b].dedupeKey ==> a == b
  }

  predicate QueueOk(q: Requests, node: Id) {
    (forall id :: id in q ==> RecordOk(id, q[id], node)) && DistinctKeys(q) && |ActiveIds(q)| <= MAX_ACTIVE
  }

  lemma AgedOk(id: Id, r: RpcRecord, node: Id, now: int)
    requires RecordOk(id, r, node)
    ensures RecordOk(id, Aged(r, now), node)
    ensures Aged(r, now).dedupeKey == r.dedupeKey && Aged(r, now).arguments == r.arguments
    ensures Aged(r, now).token == r.token
    ensures IsTerminal(r.state) ==> Aged(r, now) == r
    ensures !IsTerminal(Aged(r, now).state) ==> !IsTerminal(r.state)
  {
    hide KnownTool, DedupeKey;
  }

  lemma SweepOk(q: Requests, node: Id, now: int, done: set<Id>)
    requires QueueOk(q, node)
    ensures QueueOk(SweptOf(q, now, done), node)
  {
    hide RecordOk, Aged, Purged;
    var s := SweptOf(q, now, done);
    forall id | id in s
      ensures RecordOk(id, s[id], node) && s[id].dedupeKey == q[id].dedupeKey
      ensures !IsTerminal(s[id].state) ==> !IsTerminal(q[id].state) { AgedOk(id, q[id], node, now); }
    assert ActiveIds(s) <= ActiveIds(q);
    SubsetIsSmaller(ActiveIds(s), ActiveIds(q));
  }

  lemma NewRecordOk(node: Id, c: Call, now: int)
    requires c.Submit? && KnownTool(c.capability, c.tool)
    ensures var r := NewRecord(c.capability, c.tool, c.arguments, c.newId, node, now);
            && RecordOk(c.newId, r, node) && r.state == Queued
            && r.dedupeKey == DedupeKey(c.capability, c.tool, c.arguments)
  {
    hide KnownTool, DedupeKey, RequestTtl;
  }

  lemma NewOk(q: Requests, node: Id, c: Call, now: int)
    requires QueueOk(q, node) && c.Submit? && KnownTool(c.capability, c.tool) && c.newId !in q
    requires Holders(q, DedupeKey(c.capability, c.tool, c.arguments)) == {} && |ActiveIds(q)| < MAX_ACTIVE
    ensures QueueOk(q[c.newId := NewRecord(c.capability, c.tool, c.arguments, c.newId, node, now)], node)
  {
    hide RecordOk, KnownTool, DedupeKey, NewRecord;
    NewRecordOk(node, c, now);
    var r := NewRecord(c.capability, c.tool, c.arguments, c.newId, node, now);
    var n := q[c.newId := r];
    assert ActiveIds(n) == ActiveIds(q) + {c.newId};
    forall a | a in q && r.dedupeKey.Some? ensures q[a].dedupeKey != r.dedupeKey {
      assert a !in Holders(q, r.dedupeKey);
    }
  }

  lemma UpdateOk(q: Requests, node: Id, id: Id, r: RpcRecord)
    requires QueueOk(q, node) && id in q && RecordOk(id, r, node) && r.dedupeKey == q[id].dedupeKey
    requires !IsTerminal(r.state) ==> !IsTerminal(q[id].state)
    ensures QueueOk(q[id := r], node)
  {
    hide RecordOk;
    assert ActiveIds(q[id := r]) <= ActiveIds(q);
    SubsetIsSmaller(ActiveIds(q[id := r]), ActiveIds(q));
  }

  /** The outcomes the two reporting routes pass on. */
  predicate CallOk(q: Requests, c: Call) {
    && (c.Submit? ==> c.newId !in q)
    && (c.Finish? ==> c.outcome.state in {Completed, Failed})
  }

  lemma Oldest1(q: Requests, c: Call, now: int, broken: set<Id>) returns (id: Option<Id>)
    requires Keyed(q) && c.TryLease?
    ensures id.None? ==> LeaseOutcome(q, c, now, broken) == After(q, NothingQueued)
    ensures id.Some? ==>
              && id.value in q && q[id.value].state == Queued && q[id.value].nodeId == c.nodeId
              && q[id.value].capability in c.capabilities
                         && LeaseOutcome(q, c, now, broken) == LeasedOn(q, id.value, c.leaseId, now, broken)
  {
    hide LeasedOn;
    var s := Candidates(q, c.nodeId, c.capabilities);
    if s == {} {
      id := None;
    } else {
      var k := OldestExists(q, s);
      OldestIsLeased(q, c, now, broken, k);
      id := Some(k);
    }
  }

  lemma QueueKeyed(q: Requests, node: Id)
    requires QueueOk(q, node)
    ensures Keyed(q)
  {}

  lemma LeaseOk(q: Requests, node: Id, c: Call, now: int, broken: set<Id>)
    requires QueueOk(q, node) && c.TryLease?
    ensures QueueOk(LeaseOutcome(q, c, now, broken).requests, node)
  {
    hide KnownTool, DedupeKey, DistinctKeys, LeaseOutcome;
    QueueKeyed(q, node);
    var id := Oldest1(q, c, now, broken);
    if id.Some? && q[id.value].token < MAX_U64 { UpdateOk(q, node, id.value, WithLease(q[id.value], c.leaseId, now)); }
  }

  lemma FinishOk(q: Requests, node: Id, c: Call, now: int, broken: set<Id>)
    requires QueueOk(q, node) && c.Finish? && c.outcome.state in {Completed, Failed}
    ensures QueueOk(FinishOutcome(q, c, now, broken).requests, node)
  {
    hide KnownTool, DedupeKey, DistinctKeys;
    if c.requestId in q {
      var r := q[c.requestId];
      if !IsTerminal(r.state) && LeaseRefusal(r, c.nodeId, c.leaseId, c.token, now).None? {
        UpdateOk(q, node, c.requestId, WithOutcome(r, c.outcome));
      }
    }
  }

  lemma SubmitOk(q: Requests, node: Id, c: Call, now: int, broken: set<Id>)
    requires QueueOk(q, node) && c.Submit? && KnownTool(c.capability, c.tool) && c.newId !in q
    ensures QueueOk(Submitted(q, c, node, now, broken).requests, node)
  {
    hide QueueOk, KnownTool, DedupeKey, NewRecord;
    if Holders(q, DedupeKey(c.capability, c.tool, c.arguments)) == {} && |ActiveIds(q)| < MAX_ACTIVE {
      NewOk(q, node, c, now);
    }
  }

  lemma HandleOk(q: Requests, c: Call, node: Id, now: int, broken: set<Id>)
    requires QueueOk(q, node) && CallOk(q, c)
    ensures QueueOk(Handle(q, c, node, now, broken).requests, node)
  {
    hide QueueOk, KnownTool, Submitted, LeaseOutcome, FinishOutcome, SweptOf, Reached;
    SweepOk(q, node, now, Reached(q, now, broken));
    var s := Swept(q, now, broken);
    SweepKeys(q, now, broken);
    if c.Submit? && KnownTool(c.capability, c.tool) { SubmitOk(s, node, c, now, broken); }
    if c.TryLease? { LeaseOk(s, node, c, now, broken); }
    if c.Finish? { FinishOk(s, node, c, now, broken); }
  }

  lemma SweepKeys(q: Requests, now: int, broken: set<Id>)
    ensures Swept(q, now, broken).Keys <= q.Keys
  {
    hide Reached, Aged, Purged;
  }

  // ----- idempotency keys

  lemma Cancel(a: string, b: string, t: string)
    requires a + t == b + t
    ensures a == b
  {
    assert |a| == |b|;
    assert a == (a + t)[..|a|] == (b + t)[..|b|] == b;
  }

  lemma CancelFront(p: string, a: string, b: string)
    requires p + a == p + b
    ensures a == b
  {
    assert a == (p + a)[|p|..] == (p + b)[|p|..] == b;
  }

  /** The three capabilities start with different letters. */
  lemma CapabilityStarts(capability: string, tool: string)
    requires KnownTool(capability, tool)
    ensures capability in {WORKER_CAPABILITY, SKILL_CAPABILITY, REMOTE_CAPABILITY} && |capability| >= 1
    ensures capability == WORKER_CAPABILITY <==> capability[0] == 'w'
    ensures capability == SKILL_CAPABILITY <==> capability[0] == 'c'
    ensures capability == REMOTE_CAPABILITY <==> capability[0] == 'z'
  {
    assert WORKER_CAPABILITY[0] == 'w' && SKILL_CAPABILITY[0] == 'c' && REMOTE_CAPABILITY[0] == 'z';
  }

  lemma PrefixDecides(c1: string, t1: string, c2: string, t2: string, tail: string)
    requires KnownTool(c1, t1) && KnownTool(c2, t2) && c1 + ":" + t1 + ":" + tail == c2 + ":" + t2 + ":" + tail
    ensures c1 == c2 && t1 == t2
  {
    hide KnownTool;
    CapabilityStarts(c1, t1); CapabilityStarts(c2, t2);
    assert c1 + ":" + t1 + ":" + tail == (c1 + ":" + t1) + (":" + tail);
    assert c2 + ":" + t2 + ":" + tail == (c2 + ":" + t2) + (":" + tail);
    Cancel(c1 + ":" + t1, c2 + ":" + t2, ":" + tail);
    assert (c1 + ":" + t1)[0] == c1[0] && (c2 + ":" + t2)[0] == c2[0];
    assert c1 == c2;
    CancelFront(c1 + ":", t1, t2);
  }

  /** A submission is answered with a request for the same capability, tool and arguments, be it new or an earlier one,
      although the key it is found by does not determine them. */
  lemma AnswerIsForTheSameRequest(q: Requests, c: Call, node: Id, now: int, broken: set<Id>)
    requires QueueOk(q, node) && c.Submit? && Handle(q, c, node, now, broken).reply.Record?
    ensures var r := Handle(q, c, node, now, broken).reply.record;
            && r.capability == c.capability && r.tool == c.tool && r.arguments == c.arguments
            && (r.requestId == c.newId || Handle(q, c, node, now, broken).requests == Swept(q, now, broken))
  {
    hide QueueOk, KnownTool, SweptOf, Reached;
    SweepOk(q, node, now, Reached(q, now, broken));
    var s := Swept(q, now, broken);
    var key := DedupeKey(c.capability, c.tool, c.arguments);
    var holders := Holders(s, key);
    FirstThere(holders);
    if holders != {} {
      var id :| First(holders, id);
      forall k | First(holders, k) ensures k == id { FirstUnique(holders, k, id); }
      HolderIsKnown(s, node, id);
      if s[id].arguments == c.arguments {
        PrefixDecides(s[id].capability, s[id].tool, c.capability, c.tool, KeyTail(c.arguments));
      }
    }
  }

  lemma HolderIsKnown(q: Requests, node: Id, id: Id)
    requires QueueOk(q, node) && id in q
    ensures KnownTool(q[id].capability, q[id].tool)
    ensures q[id].dedupeKey == DedupeKey(q[id].capability, q[id].tool, q[id].arguments)
  {
    hide KnownTool, DedupeKey;
  }

  // ----- runs

  datatype Move = Move(call: Call, now: int, broken: set<Id>)

  ghost function Run(q: Requests, node: Id, moves: seq<Move>): Requests {
    if moves == [] then q else
      var n := |moves| - 1;
      Handle(Run(q, node, moves[..n]), moves[n].call, node, moves[n].now, moves[n].broken).requests
  }

  /** No submission draws the id of a request that is in the queue, and outcomes are those of the two routes. */
  ghost predicate FreshRun(q: Requests, node: Id, moves: seq<Move>) {
    moves != [] ==>
      var n := |moves| - 1;
      FreshRun(q, node, moves[..n]) && CallOk(Run(q, node, moves[..n]), moves[n].call)
  }

  /** In every run the idempotency keys of the stored requests are pairwise distinct and at most 1024 are open. */
  lemma {:induction false} QueueStaysOk(q: Requests, node: Id, moves: seq<Move>)
    requires QueueOk(q, node) && FreshRun(q, node, moves)
    ensures QueueOk(Run(q, node, moves), node)
  {
    hide QueueOk, Handle, CallOk;
    if moves != [] {
      var n := |moves| - 1;
      QueueStaysOk(q, node, moves[..n]);
      HandleOk(Run(q, node, moves[..n]), moves[n].call, node, moves[n].now, moves[n].broken);
    }
  }

  /** What a call can do to a request other than making it. */
  predicate MovedOn(was: RpcRecord, n: RpcRecord) {
    && was.token <= n.token && n.arguments == was.arguments && n.capability == was.capability && n.tool == was.tool
    && n.createdAt == was.createdAt && n.expiresAt == was.expiresAt
    && (IsTerminal(was.state) ==> n == was)
  }

  predicate Reissues(c: Call, id: Id) {
    c.Submit? && c.newId == id
  }

  predicate NotSubmitted(moves: seq<Move>, id: Id) {
    forall k :: 0 <= k < |moves| ==> !Reissues(moves[k].call, id)
  }

  lemma NotSubmittedBefore(moves: seq<Move>, id: Id)
    requires moves != [] && NotSubmitted(moves, id)
    ensures NotSubmitted(moves[..|moves|-1], id) && !Reissues(moves[|moves|-1].call, id)
  {
    hide Reissues;
  }

  lemma SweepMovesOn(q: Requests, node: Id, now: int, broken: set<Id>, id: Id)
    requires QueueOk(q, node)
    ensures var s := Swept(q, now, broken); id in s ==> id in q && MovedOn(q[id], s[id]) && s[id].token == q[id].token
    ensures id in q && id !in Swept(q, now, broken) ==> Purged(q[id], now)
  {
    hide SweptOf, Reached, QueueOk;
    var done := Reached(q, now, broken);
    SweptMovesOn(q, node, now, done, id);
  }

  lemma SweptMovesOn(q: Requests, node: Id, now: int, done: set<Id>, id: Id)
    ensures var s := SweptOf(q, now, done); id in s ==> id in q && MovedOn(q[id], s[id]) && s[id].token == q[id].token
    ensures id in q && id !in SweptOf(q, now, done) ==> Purged(q[id], now)
  {}

  lemma CallMovesOn(q: Requests, c: Call, node: Id, now: int, broken: set<Id>, id: Id)
    requires QueueOk(q, node) && !Reissues(c, id)
    ensures var n := Handle(q, c, node, now, broken).requests; id in n ==> id in q && MovedOn(q[id], n[id])
    ensures id in q && id !in Handle(q, c, node, now, broken).requests ==> Purged(q[id], now)
  {
    hide KnownTool, DedupeKey, QueueOk, SweptOf, Reached, LeaseOutcome, NewRecord, Purged;
    SweepOk(q, node, now, Reached(q, now, broken));
    SweepMovesOn(q, node, now, broken, id);
    var s := Swept(q, now, broken);
    if c.TryLease? {
      QueueKeyed(s, node);
      var k := Oldest1(s, c, now, broken);
    }
  }

  /** A finished request never changes until it is purged, whatever is called; while it is there its token never
      falls. */
  lemma {:induction false} RequestsMoveOn(q: Requests, node: Id, moves: seq<Move>, id: Id)
    requires QueueOk(q, node) && FreshRun(q, node, moves) && NotSubmitted(moves, id)
    ensures id in Run(q, node, moves) ==> id in q && MovedOn(q[id], Run(q, node, moves)[id])
  {
    hide QueueOk, Handle, Reissues, CallOk, NotSubmitted;
    if moves != [] {
      var n := |moves| - 1;
      NotSubmittedBefore(moves, id);
      RequestsMoveOn(q, node, moves[..n], id);
      QueueStaysOk(q, node, moves[..n]);
      CallMovesOn(Run(q, node, moves[..n]), moves[n].call, node, moves[n].now, moves[n].broken, id);
    }
  }

  /** An outcome reported under a token older than the newest lease never takes effect: nothing but the sweep
      happens. */
  lemma OldTokenNeverFinishes(q: Requests, node: Id, moves: seq<Move>, c: Call, now: int, broken: set<Id>)
    requires QueueOk(q, node) && FreshRun(q, node, moves) && c.Finish? && c.requestId in q
    requires c.token < q[c.requestId].token
    requires NotSubmitted(moves, c.requestId)
    ensures var p := Run(q, node, moves); Handle(p, c, node, now, broken).requests == Swept(p, now, broken)
  {
    hide QueueOk, Run, SweptOf, Reached, Reissues, NotSubmitted;
    RequestsMoveOn(q, node, moves, c.requestId);
    QueueStaysOk(q, node, moves);
    SweepMovesOn(Run(q, node, moves), node, now, broken, c.requestId);
  }

  /** The tokens of the leases granted on a request, in order. */
  ghost function Grants(q: Requests, node: Id, moves: seq<Move>, id: Id): seq<nat> {
    if moves == [] then [] else
      var n := |moves| - 1;
      var reply := Handle(Run(q, node, moves[..n]), moves[n].call, node, moves[n].now, moves[n].broken).reply;
      Grants(q, node, moves[..n], id) +
        if moves[n].call.TryLease? && reply.Record? && reply.record.requestId == id then [reply.record.token] else []
  }

  /** The numbers from `first` on, without a gap. */
  ghost predicate Consecutive(g: seq<nat>, first: nat) {
    forall k :: 0 <= k < |g| ==> g[k] == first + k
  }

  lemma NoneYet(first: nat)
    ensures Consecutive([], first)
  {}

  lemma OneMore(g: seq<nat>, first: nat, token: nat)
    requires Consecutive(g, first) && token == first + |g|
    ensures Consecutive(g + [token], first)
  {}

  lemma GrantStep(q: Requests, c: Call, node: Id, now: int, broken: set<Id>, id: Id)
    requires QueueOk(q, node) && !Reissues(c, id)
    ensures var a := Handle(q, c, node, now, broken);
            var granted := c.TryLease? && a.reply.Record? && a.reply.record.requestId == id;
            && (granted ==>
                  && id in q && id in a.requests && a.reply.record.token == q[id].token + 1
                  && a.requests[id].token == q[id].token + 1)
            && (!granted && id in a.requests ==> id in q && a.requests[id].token == q[id].token)
  {
    hide KnownTool, DedupeKey, QueueOk, SweptOf, Reached, LeaseOutcome, NewRecord;
    SweepOk(q, node, now, Reached(q, now, broken));
    SweepMovesOn(q, node, now, broken, id);
    var s := Swept(q, now, broken);
    if c.TryLease? {
      QueueKeyed(s, node);
      var k := Oldest1(s, c, now, broken);
    }
  }

  /** The leases of a request carry consecutive tokens, the first one more than the token it starts with. */
  lemma {:induction false} TokensAreConsecutive(q: Requests, node: Id, moves: seq<Move>, id: Id)
    requires QueueOk(q, node) && FreshRun(q, node, moves) && id in q && NotSubmitted(moves, id)
    ensures var g := Grants(q, node, moves, id);
            && Consecutive(g, q[id].token + 1)
            && (id in Run(q, node, moves) ==> Run(q, node, moves)[id].token == q[id].token + |g|)
  {
    hide QueueOk, Handle, Reissues, CallOk, NotSubmitted, Consecutive;
    if moves == [] {
      NoneYet(q[id].token + 1);
    } else {
      var n := |moves| - 1;
      NotSubmittedBefore(moves, id);
      TokensAreConsecutive(q, node, moves[..n], id);
      QueueStaysOk(q, node, moves[..n]);
      GrantStep(Run(q, node, moves[..n]), moves[n].call, node, moves[n].now, moves[n].broken, id);
      var before := Grants(q, node, moves[..n], id);
      OneMore(before, q[id].token + 1, q[id].token + 1 + |before|);
      assert before + [] == before;
    }
  }

  // ----- from the submission on

  /** The identifier of a request is drawn for one submission only. */
  predicate SubmittedOnce(moves: seq<Move>, id: Id) {
    forall i, j :: 0 <= i < j < |moves| ==> !(Reissues(moves[i].call, id) && Reissues(moves[j].call, id))
  }

  lemma NewlySubmitted(q: Requests, c: Call, node: Id, now: int, broken: set<Id>, id: Id)
    requires Reissues(c, id) && id !in q
    ensures var n := Handle(q, c, node, now, broken).requests; id in n ==> n[id].token == 0 && n[id].state == Queued
  {
    hide KnownTool, DedupeKey, SweptOf, Reached;
    SweepKeys(q, now, broken);
  }

  lemma {:induction false} NeverSubmitted(node: Id, moves: seq<Move>, id: Id)
    requires FreshRun(map[], node, moves) && NotSubmitted(moves, id)
    ensures id !in Run(map[], node, moves) && Grants(map[], node, moves, id) == []
  {
    hide QueueOk, Handle, Reissues, CallOk, NotSubmitted;
    if moves != [] {
      var n := |moves| - 1;
      NotSubmittedBefore(moves, id);
      NeverSubmitted(node, moves[..n], id);
      EmptyQueueOk(node);
      QueueStaysOk(map[], node, moves[..n]);
      CallMovesOn(Run(map[], node, moves[..n]), moves[n].call, node, moves[n].now, moves[n].broken, id);
      GrantStep(Run(map[], node, moves[..n]), moves[n].call, node, moves[n].now, moves[n].broken, id);
    }
  }

  lemma EmptyQueueOk(node: Id)
    ensures QueueOk(map[], node)
  {
    assert ActiveIds(map[]) == {};
  }

  /** The leases a request was ever granted carry the tokens 1, 2, 3, ..., and its token is their number. */
  lemma {:induction false} TokenCountsLeases(node: Id, moves: seq<Move>, id: Id)
    requires FreshRun(map[], node, moves) && SubmittedOnce(moves, id)
    ensures var g := Grants(map[], node, moves, id);
            && Consecutive(g, 1)
            && (id in Run(map[], node, moves) ==> Run(map[], node, moves)[id].token == |g|)
  {
    hide QueueOk, Handle, Reissues, CallOk, SubmittedOnce, NotSubmitted, Consecutive;
    if moves == [] {
      NoneYet(1);
    } else {
      var n := |moves| - 1;
      var front, m := moves[..n], moves[n];
      OnceBefore(moves, id);
      TokenCountsLeases(node, front, id);
      var before := Grants(map[], node, front, id);
      OneMore(before, 1, 1 + |before|);
      assert before + [] == before;
      EmptyQueueOk(node);
      QueueStaysOk(map[], node, front);
      if Reissues(m.call, id) {
        NeverSubmitted(node, front, id);
        NewlySubmitted(Run(map[], node, front), m.call, node, m.now, m.broken, id);
        NoLease(m.call, id);
        NoneYet(1);
      } else {
        GrantStep(Run(map[], node, front), m.call, node, m.now, m.broken, id);
      }
    }
  }

  lemma NoLease(c: Call, id: Id)
    requires Reissues(c, id)
    ensures !c.TryLease? && !c.Finish?
  {}

  lemma OnceBefore(moves: seq<Move>, id: Id)
    requires moves != [] && SubmittedOnce(moves, id)
    ensures SubmittedOnce(moves[..|moves|-1], id)
    ensures Reissues(moves[|moves|-1].call, id) ==> NotSubmitted(moves[..|moves|-1], id)
  {
    hide Reissues;
    var front := moves[..|moves|-1];
    assert forall i :: 0 <= i < |front| ==> front[i] == moves[i];
  }

  /** Only an outcome under the current token finishes an open request with an outcome, and it records that outcome. */
  lemma FinishStep(q: Requests, c: Call, node: Id, now: int, broken: set<Id>, id: Id)
    requires QueueOk(q, node) && CallOk(q, c) && id in q && !IsTerminal(q[id].state)
    requires var n := Handle(q, c, node, now, broken).requests; id in n && n[id].state in {Completed, Failed}
    ensures var a := Handle(q, c, node, now, broken);
            && c.Finish? && c.requestId == id && c.token == q[id].token == a.requests[id].token
            && a.reply == Record(a.requests[id])
            && a.requests[id].state == c.outcome.state && a.requests[id].result == c.outcome.result
            && a.requests[id].error == c.outcome.error
  {
    hide KnownTool, DedupeKey, QueueOk, SweptOf, Reached, LeaseOutcome, NewRecord;
    SweepOk(q, node, now, Reached(q, now, broken));
    SweepMovesOn(q, node, now, broken, id);
    SweepNeverFinishes(q, now, broken, id);
    var s := Swept(q, now, broken);
    if c.TryLease? {
      QueueKeyed(s, node);
      var k := Oldest1(s, c, now, broken);
    }
  }

  lemma SweepNeverFinishes(q: Requests, now: int, broken: set<Id>, id: Id)
    ensures var s := Swept(q, now, broken);
            id in s ==> id in q && (s[id].state in {Completed, Failed} <==> q[id].state in {Completed, Failed})
  {
    hide Reached;
  }

  /** The call that finished a request: an outcome under the newest token, which is what the request holds. */
  ghost predicate FinishedAt(node: Id, moves: seq<Move>, id: Id, r: RpcRecord, leases: nat, k: nat) {
    && k < |moves| && moves[k].call.Finish? && moves[k].call.requestId == id && moves[k].call.token == leases
    && moves[k].call.outcome == RpcOutcome(r.state, r.result, r.error)
    && Handle(Run(map[], node, moves[..k]), moves[k].call, node, moves[k].now, moves[k].broken).reply == Record(r)
  }

  /** A request that is finished by an outcome was finished under the token of the last lease it was ever granted. */
  lemma {:induction false} NewestTokenFinishes(node: Id, moves: seq<Move>, id: Id) returns (k: nat)
    requires FreshRun(map[], node, moves) && SubmittedOnce(moves, id)
    requires id in Run(map[], node, moves) && Run(map[], node, moves)[id].state in {Completed, Failed}
    ensures FinishedAt(node, moves, id, Run(map[], node, moves)[id], |Grants(map[], node, moves, id)|, k)
  {
    hide QueueOk, Handle, Reissues, CallOk, SubmittedOnce, NotSubmitted;
    var n := |moves| - 1;
    var front, m := moves[..n], moves[n];
    OnceBefore(moves, id);
    TokenCountsLeases(node, moves, id);
    TokenCountsLeases(node, front, id);
    EmptyQueueOk(node);
    QueueStaysOk(map[], node, front);
    var q := Run(map[], node, front);
    if Reissues(m.call, id) {
      NeverSubmitted(node, front, id);
      NewlySubmitted(q, m.call, node, m.now, m.broken, id);
      assert false;
    } else {
      GrantStep(q, m.call, node, m.now, m.broken, id);
      CallMovesOn(q, m.call, node, m.now, m.broken, id);
      if IsTerminal(q[id].state) {
        k := NewestTokenFinishes(node, front, id);
        assert moves[..k] == front[..k] && moves[k] == front[k];
      } else {
        FinishStep(q, m.call, node, m.now, m.broken, id);
        k := n;
      }
    }
  }
}
