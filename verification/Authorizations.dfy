/** Who gets tokens: an exchange is answered with tokens only for what the owner approved, and then it is answered with
    them (apps/web/src/oauth.rs:293-480; sections 4.1.3 and 6 of RFC 6749, section 4.6 of RFC 7636). */
module Authorizations {
  import opened Wrappers
  import opened OAuth
  import opened Families

  // ----- one exchange

  /** What a code is exchanged for is decided by its record: with a write that succeeds, the exchange gets tokens if and
      only if the code is stored, unused and not expired and the request has its client, redirect address and
      challenge; then these are tokens of its scope, and the code is used up. */
  lemma CodeExactly(memory: State, disk: State, q: Request, now: int, ok: bool)
    requires q.ExchangeCode?
    ensures var a := Handle(memory, disk, q, now, ok);
            a.reply.Issued? <==>
              && ok && q.code in memory.codes
              && var c := memory.codes[q.code];
              && !c.used && now < c.expiresAt
              && q.clientId == c.clientId && q.redirectUri == c.redirectUri && q.challenge == c.challenge
    ensures var a := Handle(memory, disk, q, now, ok);
            a.reply.Issued? ==>
              var scope := memory.codes[q.code].scope;
              && a.reply == Issued(q.access, if "offline_access" in scope then Some(q.refresh) else None, scope)
              && q.access in a.memory.access
              && a.memory.access[q.access] == TokenRecord(q.clientId, scope, now + 3600, false)
              && ("offline_access" in scope ==>
                    q.refresh in a.memory.refresh
                    && a.memory.refresh[q.refresh] == TokenRecord(q.clientId, scope, now + 2592000, false))
              && q.code in a.memory.codes && a.memory.codes[q.code].used && a.disk == a.memory
  {}

  /** A refresh token is rotated if and only if it is stored, neither revoked nor expired, and presented by its client;
      the new tokens have its scope, and it is revoked. */
  lemma RefreshExactly(memory: State, disk: State, q: Request, now: int, ok: bool)
    requires q.ExchangeRefresh? && q.refresh != q.token
    ensures var a := Handle(memory, disk, q, now, ok);
            a.reply.Issued? <==>
              && ok && q.token in memory.refresh
              && var r := memory.refresh[q.token];
              !r.revoked && now < r.expiresAt && q.clientId == r.clientId
    ensures var a := Handle(memory, disk, q, now, ok);
            a.reply.Issued? ==>
              var scope := memory.refresh[q.token].scope;
              && a.reply == Issued(q.access, if "offline_access" in scope then Some(q.refresh) else None, scope)
              && q.access in a.memory.access
              && a.memory.access[q.access] == TokenRecord(q.clientId, scope, now + 3600, false)
              && ("offline_access" in scope ==>
                    q.refresh in a.memory.refresh
                    && a.memory.refresh[q.refresh] == TokenRecord(q.clientId, scope, now + 2592000, false))
              && q.token in a.memory.refresh && a.memory.refresh[q.token].revoked && a.disk == a.memory
  {}

  /** A request for authorization is stored if and only if its scope is known, the client is registered with the
      redirect address and the write succeeds; it can be approved for ten minutes. */
  lemma BeginExactly(memory: State, disk: State, q: Request, now: int, ok: bool)
    requires q.Begin?
    ensures var a := Handle(memory, disk, q, now, ok);
            a.reply == Begun(q.requestId) || a.reply.Refused?
    ensures var a := Handle(memory, disk, q, now, ok);
            a.reply.Begun? <==>
              && ok && KnownWords(q.rawScope)
              && q.clientId in memory.clients && q.redirectUri in memory.clients[q.clientId].redirectUris
    ensures var a := Handle(memory, disk, q, now, ok);
            a.reply.Begun? ==>
              && q.requestId in a.memory.pending && a.disk == a.memory
              && var p := a.memory.pending[q.requestId];
              && p.clientId == q.clientId && p.redirectUri == q.redirectUri && p.challenge == q.challenge
              && Some(p.scope) == NormalizeScope(q.rawScope) && p.expiresAt == now + 600
  {
    hide KnownWords, AddWords;
    ScopeNormal(q.rawScope);
  }

  /** An approval by the owner is answered with a code if and only if the request is stored and not expired and the
      write succeeds; the request is consumed, and the code takes over what it asked for, for five minutes. */
  lemma ApproveExactly(memory: State, disk: State, q: Request, now: int, ok: bool)
    requires q.Approve?
    ensures var a := Handle(memory, disk, q, now, ok);
            a.reply.Redirected? <==>
              ok && q.ownerOk && q.requestId in memory.pending && now < memory.pending[q.requestId].expiresAt
    ensures var a := Handle(memory, disk, q, now, ok);
            a.reply.Redirected? ==>
              var p := memory.pending[q.requestId];
              && a.reply == Redirected(p.redirectUri, q.code) && q.requestId !in a.memory.pending
              && q.code in a.memory.codes && a.disk == a.memory
              && a.memory.codes[q.code]
                 == CodeRecord(p.clientId, p.redirectUri, p.challenge, p.scope, now + 300, false)
  {
    hide NormalizeScope;
  }

  /** The sweep drops exactly what has expired and the codes that are used up, and keeps the rest as it is. */
  lemma CleanedExactly(s: State, now: int)
    ensures var t := Cleaned(s, now);
            && t.clients == s.clients
            && (forall k :: k in t.pending <==> k in s.pending && now < s.pending[k].expiresAt)
            && (forall k :: k in t.codes <==> k in s.codes && now < s.codes[k].expiresAt && !s.codes[k].used)
            && (forall k :: k in t.access <==> k in s.access && now < s.access[k].expiresAt)
            && (forall k :: k in t.refresh <==> k in s.refresh && now < s.refresh[k].expiresAt)
            && (forall k :: k in t.pending ==> t.pending[k] == s.pending[k])
            && (forall k :: k in t.codes ==> t.codes[k] == s.codes[k])
            && (forall k :: k in t.access ==> t.access[k] == s.access[k])
            && (forall k :: k in t.refresh ==> t.refresh[k] == s.refresh[k])
  {}

  /** A revocation marks the stored tokens of this value, of the named client if one is named, and touches nothing
      else. */
  lemma RevokeExactly(memory: State, disk: State, q: Request, now: int, ok: bool)
    requires q.Revoke?
    ensures var a := Handle(memory, disk, q, now, ok); var m := a.memory;
            && (a.reply == if ok then Revoked else Refused(ServerError))
            && m.clients == memory.clients && m.pending == memory.pending && m.codes == memory.codes
            && m.access.Keys == memory.access.Keys && m.refresh.Keys == memory.refresh.Keys
            && (forall k :: k in m.access ==>
                  m.access[k] == if k == q.token && Concerns(q, memory.access[k])
                                 then memory.access[k].(revoked := true) else memory.access[k])
            && (forall k :: k in m.refresh ==>
                  m.refresh[k] == if k == q.token && Concerns(q, memory.refresh[k])
                                  then memory.refresh[k].(revoked := true) else memory.refresh[k])
  {}

  predicate Concerns(q: Request, r: TokenRecord)
    requires q.Revoke?
  {
    match q.onlyFor case None => true case Some(clientId) => clientId == r.clientId
  }

  // ----- where clients, requests, codes and tokens come from

  predicate RegisteredAt(moves: seq<Move>, h: int, c: Client) {
    0 <= h < |moves| && moves[h].Serve? && moves[h].request == Register(c.clientId, c.redirectUris)
  }

  /** Move `i` asked for what the pending request holds, and named a redirect address registered by move `h`. */
  predicate BegunAt(moves: seq<Move>, h: int, i: int, requestId: Id, p: Pending) {
    && 0 <= h < i < |moves| && moves[h].Serve? && moves[h].request.Register?
    && moves[h].request.clientId == p.clientId && p.redirectUri in moves[h].request.redirectUris
    && moves[i].Serve? && moves[i].request.Begin? && moves[i].request.requestId == requestId
    && moves[i].request.clientId == p.clientId && moves[i].request.redirectUri == p.redirectUri
    && moves[i].request.challenge == p.challenge && NormalizeScope(moves[i].request.rawScope) == Some(p.scope)
    && p.expiresAt == moves[i].now + 600
  }

  /** The owner approved, by move `j` and in time, what move `i` had asked for, and the code was drawn for that. */
  predicate ApprovedAt(moves: seq<Move>, h: int, i: int, j: int, code: Id, c: CodeRecord) {
    && 0 <= i < j < |moves| && moves[i].Serve? && moves[j].Serve?
    && moves[j].request.Approve? && moves[j].request.ownerOk && moves[j].request.code == code
    && moves[j].now < moves[i].now + 600
    && BegunAt(moves, h, i, moves[j].request.requestId,
               Pending(c.clientId, c.redirectUri, c.challenge, c.scope, moves[i].now + 600))
    && c.expiresAt == moves[j].now + 300
  }

  /** The refresh token was drawn by an exchange of its client, thirty days before it expires. */
  predicate DrawnAt(moves: seq<Move>, k: int, token: Id, r: TokenRecord) {
    && 0 <= k < |moves| && moves[k].Serve? && (moves[k].request.ExchangeCode? || moves[k].request.ExchangeRefresh?)
    && moves[k].request.refresh == token && moves[k].request.clientId == r.clientId
    && r.expiresAt == moves[k].now + 2592000
  }

  ghost predicate ClientTraced(moves: seq<Move>, c: Client) { exists h :: RegisteredAt(moves, h, c) }

  ghost predicate RequestTraced(moves: seq<Move>, id: Id, p: Pending) { exists h, i :: BegunAt(moves, h, i, id, p) }

  ghost predicate CodeTraced(moves: seq<Move>, code: Id, c: CodeRecord) {
    exists h, i, j :: ApprovedAt(moves, h, i, j, code, c)
  }

  /** The owner approved this scope for this client. */
  ghost predicate ScopeApproved(moves: seq<Move>, clientId: Id, scope: Scope) {
    exists code, c :: CodeTraced(moves, code, c) && c.clientId == clientId && c.scope == scope
  }

  ghost predicate TokenTraced(moves: seq<Move>, token: Id, r: TokenRecord) {
    exists k :: DrawnAt(moves, k, token, r) && ScopeApproved(moves[..k], r.clientId, r.scope)
  }

  ghost predicate Traced(moves: seq<Move>, s: State) {
    && (forall id :: id in s.clients ==> s.clients[id].clientId == id && ClientTraced(moves, s.clients[id]))
    && (forall id :: id in s.pending ==> RequestTraced(moves, id, s.pending[id]))
    && (forall code :: code in s.codes ==> CodeTraced(moves, code, s.codes[code]))
    && (forall token :: token in s.refresh ==> TokenTraced(moves, token, s.refresh[token]))
  }

  /** A longer run has the same origins. */
  lemma TracedLater(moves: seq<Move>, m: Move, s: State)
    requires Traced(moves, s)
    ensures Traced(moves + [m], s)
  {
    var more := moves + [m];
    assert forall k :: 0 <= k < |moves| ==> more[k] == moves[k];
    forall id | id in s.clients ensures ClientTraced(more, s.clients[id]) {
      var h :| RegisteredAt(moves, h, s.clients[id]);
      assert RegisteredAt(more, h, s.clients[id]);
    }
    forall id | id in s.pending ensures RequestTraced(more, id, s.pending[id]) {
      var h, i :| BegunAt(moves, h, i, id, s.pending[id]);
      assert BegunAt(more, h, i, id, s.pending[id]);
    }
    forall code | code in s.codes ensures CodeTraced(more, code, s.codes[code]) {
      var h, i, j :| ApprovedAt(moves, h, i, j, code, s.codes[code]);
      assert ApprovedAt(more, h, i, j, code, s.codes[code]);
    }
    forall token | token in s.refresh ensures TokenTraced(more, token, s.refresh[token]) {
      var r := s.refresh[token];
      var k :| DrawnAt(moves, k, token, r) && ScopeApproved(moves[..k], r.clientId, r.scope);
      assert DrawnAt(more, k, token, r) && more[..k] == moves[..k];
    }
  }

  /** Fewer entries, codes used up, tokens revoked: nothing new to trace. */
  predicate Fewer(s: State, t: State) {
    && (forall id :: id in t.clients ==> id in s.clients && t.clients[id] == s.clients[id])
    && (forall id :: id in t.pending ==> id in s.pending && t.pending[id] == s.pending[id])
    && (forall c :: c in t.codes ==> c in s.codes && t.codes[c] == s.codes[c].(used := t.codes[c].used))
    && (forall k :: k in t.refresh ==> k in s.refresh && t.refresh[k] == s.refresh[k].(revoked := t.refresh[k].revoked))
  }

  lemma FewerTraced(moves: seq<Move>, s: State, t: State)
    requires Traced(moves, s) && Fewer(s, t)
    ensures Traced(moves, t)
  {
    forall code | code in t.codes ensures CodeTraced(moves, code, t.codes[code]) {
      var h, i, j :| ApprovedAt(moves, h, i, j, code, s.codes[code]);
      assert ApprovedAt(moves, h, i, j, code, t.codes[code]);
    }
    forall token | token in t.refresh ensures TokenTraced(moves, token, t.refresh[token]) {
      var r := s.refresh[token];
      var k :| DrawnAt(moves, k, token, r) && ScopeApproved(moves[..k], r.clientId, r.scope);
      assert DrawnAt(moves, k, token, t.refresh[token]);
    }
  }

  lemma CleanedFewer(s: State, now: int)
    ensures Fewer(s, Cleaned(s, now))
  {}

  lemma EffectTraced(moves: seq<Move>, m: Move, s: State)
    requires Traced(moves, s) && m.Serve?
    ensures Traced(moves + [m], EffectOf(s, m.request, m.now).memory)
  {
    hide Traced, Cleaned, WithTokens, NormalizeScope;
    var all, n := moves + [m], |moves|;
    var q, now := m.request, m.now;
    var t := Cleaned(s, now);
    TracedLater(moves, m, s);
    CleanedFewer(s, now);
    FewerTraced(all, s, t);
    match q
    case Register(_, _) => RegisterTraced(moves, m, s);
    case Begin(_, _, _, _, _) =>
      FewerTraced(moves, s, t);
      if EffectOf(s, q, now).writes { BeginTraced(moves, m, t, NormalizeScope(q.rawScope).value); }
    case Approve(_, _, _) =>
      FewerTraced(moves, s, t);
      if EffectOf(s, q, now).writes {
        StillPending(s, now, q.requestId); ApproveTraced(moves, m, t, t.pending[q.requestId]);
      }
    case ExchangeCode(_, _, _, _, _, _) =>
      FewerTraced(moves, s, t);
      if EffectOf(s, q, now).writes { CodeExchangeTraced(moves, m, t); }
    case ExchangeRefresh(_, _, _, _) =>
      FewerTraced(moves, s, t);
      if EffectOf(s, q, now).writes { RotationTraced(moves, m, t); }
    case Revoke(_, _) => FewerTraced(all, s, EffectOf(s, q, now).memory);
  }

  lemma CodeExchangeTraced(moves: seq<Move>, m: Move, t: State)
    requires Traced(moves, t) && Traced(moves + [m], t) && m.Serve? && m.request.ExchangeCode?
    requires m.request.code in t.codes && t.codes[m.request.code].clientId == m.request.clientId
    ensures var q, c := m.request, t.codes[m.request.code];
            var u := t.(codes := t.codes[q.code := c.(used := true)]);
            Traced(moves + [m], WithTokens(u, q.clientId, c.scope, q.access, q.refresh, m.now))
  {
    hide Traced, WithTokens, ScopeApproved;
    var c := t.codes[m.request.code];
    var u := t.(codes := t.codes[m.request.code := c.(used := true)]);
    FewerTraced(moves + [m], t, u);
    CodeApproved(moves, t, m.request.code);
    IssueTraced(moves, m, u, c.scope);
  }

  lemma RotationTraced(moves: seq<Move>, m: Move, t: State)
    requires Traced(moves, t) && Traced(moves + [m], t) && m.Serve? && m.request.ExchangeRefresh?
    requires m.request.token in t.refresh && t.refresh[m.request.token].clientId == m.request.clientId
    ensures var q, r := m.request, t.refresh[m.request.token];
            var u := t.(refresh := t.refresh[q.token := r.(revoked := true)]);
            Traced(moves + [m], WithTokens(u, q.clientId, r.scope, q.access, q.refresh, m.now))
  {
    hide Traced, WithTokens, ScopeApproved;
    var r := t.refresh[m.request.token];
    var u := t.(refresh := t.refresh[m.request.token := r.(revoked := true)]);
    FewerTraced(moves + [m], t, u);
    TokenApproved(moves, t, m.request.token);
    IssueTraced(moves, m, u, r.scope);
  }

  lemma RegisterTraced(moves: seq<Move>, m: Move, s: State)
    requires Traced(moves + [m], s) && m.Serve? && m.request.Register?
    ensures Traced(moves + [m], EffectOf(s, m.request, m.now).memory)
  {
    assert RegisteredAt(moves + [m], |moves|, Client(m.request.clientId, m.request.redirectUris));
  }

  lemma BeginTraced(moves: seq<Move>, m: Move, t: State, scope: Scope)
    requires Traced(moves, t) && Traced(moves + [m], t) && m.Serve? && m.request.Begin?
    requires NormalizeScope(m.request.rawScope) == Some(scope) && m.request.clientId in t.clients
    requires m.request.redirectUri in t.clients[m.request.clientId].redirectUris
    ensures var q := m.request; var p := Pending(q.clientId, q.redirectUri, q.challenge, scope, m.now + PENDING_TTL);
            Traced(moves + [m], t.(pending := t.pending[q.requestId := p]))
  {
    hide NormalizeScope, CodeTraced, TokenTraced;
    var q, all := m.request, moves + [m];
    var p := Pending(q.clientId, q.redirectUri, q.challenge, scope, m.now + PENDING_TTL);
    var h :| RegisteredAt(moves, h, t.clients[q.clientId]);
    assert all[h] == moves[h];
    assert BegunAt(all, h, |moves|, q.requestId, p);
  }

  lemma StillPending(s: State, now: int, requestId: Id)
    requires requestId in Cleaned(s, now).pending
    ensures Cleaned(s, now).pending[requestId].expiresAt > now
  {}

  lemma ApproveTraced(moves: seq<Move>, m: Move, t: State, p: Pending)
    requires Traced(moves, t) && Traced(moves + [m], t) && m.Serve? && m.request.Approve? && m.request.ownerOk
    requires m.request.requestId in t.pending && t.pending[m.request.requestId] == p && m.now < p.expiresAt
    ensures var c := CodeRecord(p.clientId, p.redirectUri, p.challenge, p.scope, m.now + CODE_TTL, false);
            Traced(moves + [m],
                   t.(pending := t.pending - {m.request.requestId}, codes := t.codes[m.request.code := c]))
  {
    hide NormalizeScope, TokenTraced, ClientTraced;
    var q, all := m.request, moves + [m];
    var c := CodeRecord(p.clientId, p.redirectUri, p.challenge, p.scope, m.now + CODE_TTL, false);
    assert RequestTraced(moves, q.requestId, p);
    var h, i :| BegunAt(moves, h, i, q.requestId, p);
    assert all[h] == moves[h] && all[i] == moves[i];
    assert ApprovedAt(all, h, i, |moves|, q.code, c);
  }

  lemma CodeApproved(moves: seq<Move>, t: State, code: Id)
    requires Traced(moves, t) && code in t.codes
    ensures ScopeApproved(moves, t.codes[code].clientId, t.codes[code].scope)
  {
    hide CodeTraced;
  }

  lemma TokenApproved(moves: seq<Move>, t: State, token: Id)
    requires Traced(moves, t) && token in t.refresh
    ensures ScopeApproved(moves, t.refresh[token].clientId, t.refresh[token].scope)
  {
    hide CodeTraced, ApprovedAt;
    var r := t.refresh[token];
    var k :| DrawnAt(moves, k, token, r) && ScopeApproved(moves[..k], r.clientId, r.scope);
    var code, c :| CodeTraced(moves[..k], code, c) && c.clientId == r.clientId && c.scope == r.scope;
    TracedByPrefix(moves, k, code, c);
  }

  lemma TracedByPrefix(moves: seq<Move>, k: nat, code: Id, c: CodeRecord)
    requires k <= |moves| && CodeTraced(moves[..k], code, c)
    ensures CodeTraced(moves, code, c)
  {
    var h, i, j :| ApprovedAt(moves[..k], h, i, j, code, c);
    assert ApprovedAt(moves, h, i, j, code, c);
  }

  lemma IssueTraced(moves: seq<Move>, m: Move, u: State, scope: Scope)
    requires Traced(moves + [m], u) && m.Serve? && (m.request.ExchangeCode? || m.request.ExchangeRefresh?)
    requires ScopeApproved(moves, m.request.clientId, scope)
    ensures Traced(moves + [m],
                   WithTokens(u, m.request.clientId, scope, m.request.access, m.request.refresh, m.now))
  {
    var r := TokenRecord(m.request.clientId, scope, m.now + REFRESH_TTL, false);
    assert (moves + [m])[..|moves|] == moves;
    assert DrawnAt(moves + [m], |moves|, m.request.refresh, r);
  }

  lemma {:induction false} RunTraced(moves: seq<Move>)
    ensures Traced(moves, Run(moves).memory) && Traced(moves, Run(moves).disk)
  {
    hide Traced, EffectOf, HistoryOf;
    if moves == [] {
      EmptyTraced();
    } else {
      var n := |moves| - 1;
      var front, m, w := moves[..n], moves[n], Run(moves[..n]);
      RunTraced(front);
      assert moves == front + [m];
      TracedLater(front, m, w.disk);
      if m.Serve? { EffectTraced(front, m, w.memory); }
    }
  }

  lemma EmptyTraced()
    ensures Traced([], Empty)
  {}

  // ----- what an exchange proves

  /** The owner approved, with move `j`, that the client gets tokens for what it asked for with move `i`: the same
      redirect address, one it had registered, and the same challenge, in time. */
  ghost predicate Authorized(moves: seq<Move>, q: Request, now: int, scope: Scope, h: int, i: int, j: int)
    requires q.ExchangeCode?
  {
    && 0 <= h < i < j < |moves| && moves[h].Serve? && moves[i].Serve? && moves[j].Serve?
    && moves[h].request.Register? && moves[h].request.clientId == q.clientId
    && q.redirectUri in moves[h].request.redirectUris
    && moves[i].request.Begin? && moves[i].request.clientId == q.clientId
    && moves[i].request.redirectUri == q.redirectUri && moves[i].request.challenge == q.challenge
    && NormalizeScope(moves[i].request.rawScope) == Some(scope)
    && moves[j].request == Approve(moves[i].request.requestId, true, q.code)
    && moves[j].now < moves[i].now + 600 && now < moves[j].now + 300
  }

  /** In every run, failed writes and restarts included, tokens are given for a code only to the client the owner
      approved, at the redirect address and with the challenge it had asked with, for the scope it had asked for, and
      within five minutes of the approval. */
  lemma IssuedWasAuthorized(moves: seq<Move>, q: Request, now: int, ok: bool) returns (h: int, i: int, j: int)
    requires q.ExchangeCode? && Handle(Run(moves).memory, Run(moves).disk, q, now, ok).reply.Issued?
    ensures Authorized(moves, q, now, Handle(Run(moves).memory, Run(moves).disk, q, now, ok).reply.scope, h, i, j)
  {
    hide Run, Handle, NormalizeScope;
    var w := Run(moves);
    CodeExactly(w.memory, w.disk, q, now, ok);
    RunTraced(moves);
    var c := w.memory.codes[q.code];
    assert CodeTraced(moves, q.code, c);
    h, i, j :| ApprovedAt(moves, h, i, j, q.code, c);
  }

  /** A refresh token is rotated only for the client it was drawn for, within thirty days, and the scope of the new
      tokens is one the owner had approved for that client. */
  lemma RotatedWasDrawn(moves: seq<Move>, q: Request, now: int, ok: bool) returns (k: int)
    requires q.ExchangeRefresh? && q.refresh != q.token
    requires Handle(Run(moves).memory, Run(moves).disk, q, now, ok).reply.Issued?
    ensures 0 <= k < |moves| && moves[k].Serve? && (moves[k].request.ExchangeCode? || moves[k].request.ExchangeRefresh?)
    ensures moves[k].request.refresh == q.token && moves[k].request.clientId == q.clientId
    ensures now < moves[k].now + 2592000
    ensures ScopeApproved(moves[..k], q.clientId,
                          Handle(Run(moves).memory, Run(moves).disk, q, now, ok).reply.scope)
  {
    hide Run, Handle, ScopeApproved;
    var w := Run(moves);
    RefreshExactly(w.memory, w.disk, q, now, ok);
    RunTraced(moves);
    var r := w.memory.refresh[q.token];
    assert TokenTraced(moves, q.token, r);
    k :| DrawnAt(moves, k, q.token, r) && ScopeApproved(moves[..k], r.clientId, r.scope);
  }

  // ----- an approved code can be exchanged

  /** Someone presents the code as its client does. */
  predicate Presents(q: Request, code: Id, c: CodeRecord) {
    q.ExchangeCode? && q.code == code && q.clientId == c.clientId && q.redirectUri == c.redirectUri
    && q.challenge == c.challenge
  }

  predicate Spares(m: Move, code: Id, c: CodeRecord) {
    m.Serve? ==> m.now < c.expiresAt && !Presents(m.request, code, c)
  }

  predicate Has(s: State, code: Id, c: CodeRecord) {
    code in s.codes && s.codes[code] == c
  }

  lemma EffectHas(s: State, q: Request, now: int, code: Id, c: CodeRecord)
    requires Has(s, code, c) && !c.used && now < c.expiresAt && !Presents(q, code, c) && code !in Draws(q)
    ensures Has(EffectOf(s, q, now).memory, code, c)
  {
    hide NormalizeScope;
    assert Has(Cleaned(s, now), code, c);
  }

  lemma HasStep(w: World, m: Move, code: Id, c: CodeRecord)
    requires Has(w.memory, code, c) && Has(w.disk, code, c) && !c.used && Spares(m, code, c)
    requires code in w.drawn && (m.Serve? ==> FreshDraws(w, m.request))
    ensures Has(Next(w, m).memory, code, c) && Has(Next(w, m).disk, code, c) && code in Next(w, m).drawn
  {
    hide EffectOf, Has, Recorded, Presents;
    if m.Serve? { EffectHas(w.memory, m.request, m.now, code, c); }
  }

  lemma ApprovedNow(w: World, m: Move)
    requires m.Serve? && m.request.Approve? && Handle(w.memory, w.disk, m.request, m.now, m.ok).reply.Redirected?
    ensures var n := Next(w, m); var code := m.request.code;
            && code in n.memory.codes && Has(n.disk, code, n.memory.codes[code]) && code in n.drawn
            && !n.memory.codes[code].used && n.memory.codes[code].expiresAt == m.now + 300
  {
    hide NormalizeScope;
  }

  lemma {:induction false} HasInRun(front: seq<Move>, rest: seq<Move>, code: Id, c: CodeRecord)
    requires FreshRun(front + rest) && !c.used && forall k :: 0 <= k < |rest| ==> Spares(rest[k], code, c)
    requires Has(Run(front).memory, code, c) && Has(Run(front).disk, code, c) && code in Run(front).drawn
    ensures var w := Run(front + rest); Has(w.memory, code, c) && Has(w.disk, code, c) && code in w.drawn
  {
    hide Has, Spares, Next, FreshDraws;
    if rest == [] {
      assert front + rest == front;
    } else {
      var n := |rest| - 1;
      var all := front + rest;
      assert all[..|all|-1] == front + rest[..n] && all[|all|-1] == rest[n];
      HasInRun(front, rest[..n], code, c);
      HasStep(Run(front + rest[..n]), rest[n], code, c);
    }
  }

  /** An approved code stays as it is, through failed writes and restarts, until it expires or its client presents it;
      presented then, with a write that succeeds, it is exchanged for the scope that was approved. */
  lemma ApprovedCodeWorks(front: seq<Move>, approve: Move, rest: seq<Move>, q: Request, now: int)
    requires approve.Serve? && approve.request.Approve? && q.ExchangeCode? && q.code == approve.request.code
    requires FreshRun(front + [approve] + rest)
    requires var w := Run(front);
             Handle(w.memory, w.disk, approve.request, approve.now, approve.ok).reply.Redirected?
    ensures q.code in Run(front + [approve]).memory.codes
    ensures var c := Run(front + [approve]).memory.codes[q.code];
            && c.expiresAt == approve.now + 300
            && ((forall k :: 0 <= k < |rest| ==> Spares(rest[k], q.code, c))
                && Presents(q, q.code, c) && now < c.expiresAt ==>
                  var w := Run(front + [approve] + rest);
                  && Handle(w.memory, w.disk, q, now, true).reply.Issued?
                  && Handle(w.memory, w.disk, q, now, true).reply.scope == c.scope)
  {
    hide Handle, Next, FreshRun, Spares, Run;
    var approved := front + [approve];
    RunOne(front, approve);
    ApprovedNow(Run(front), approve);
    var c := Run(approved).memory.codes[q.code];
    if (forall k :: 0 <= k < |rest| ==> Spares(rest[k], q.code, c)) && Presents(q, q.code, c) && now < c.expiresAt {
      HasInRun(approved, rest, q.code, c);
      var w := Run(approved + rest);
      CodeExactly(w.memory, w.disk, q, now, true);
    }
  }

  lemma RunOne(front: seq<Move>, m: Move)
    ensures Run(front + [m]) == Next(Run(front), m)
  {
    hide Next;
    assert (front + [m])[..|front|] == front;
  }

  // ----- a refresh token can be rotated

  /** The client of the token presents it, or it is revoked for that client or for any. */
  predicate Spends(q: Request, token: Id, r: TokenRecord) {
    || (q.ExchangeRefresh? && q.token == token && q.clientId == r.clientId)
    || (q.Revoke? && q.token == token && (q.onlyFor.None? || q.onlyFor.value == r.clientId))
  }

  predicate Passes(m: Move, token: Id, r: TokenRecord) {
    m.Serve? ==> m.now < r.expiresAt && !Spends(m.request, token, r)
  }

  predicate HasToken(s: State, token: Id, r: TokenRecord) {
    token in s.refresh && s.refresh[token] == r
  }

  lemma EffectHasToken(s: State, q: Request, now: int, token: Id, r: TokenRecord)
    requires HasToken(s, token, r) && now < r.expiresAt && !Spends(q, token, r) && token !in Draws(q)
    ensures HasToken(EffectOf(s, q, now).memory, token, r)
  {
    hide NormalizeScope;
    assert HasToken(Cleaned(s, now), token, r);
  }

  lemma HasTokenStep(w: World, m: Move, token: Id, r: TokenRecord)
    requires HasToken(w.memory, token, r) && HasToken(w.disk, token, r) && Passes(m, token, r)
    requires token in w.drawn && (m.Serve? ==> FreshDraws(w, m.request))
    ensures HasToken(Next(w, m).memory, token, r) && HasToken(Next(w, m).disk, token, r) && token in Next(w, m).drawn
  {
    hide EffectOf, HasToken, Recorded, Spends;
    if m.Serve? { EffectHasToken(w.memory, m.request, m.now, token, r); }
  }

  lemma {:induction false} HasTokenInRun(front: seq<Move>, rest: seq<Move>, token: Id, r: TokenRecord)
    requires FreshRun(front + rest) && forall k :: 0 <= k < |rest| ==> Passes(rest[k], token, r)
    requires HasToken(Run(front).memory, token, r) && HasToken(Run(front).disk, token, r) && token in Run(front).drawn
    ensures var w := Run(front + rest); HasToken(w.memory, token, r) && HasToken(w.disk, token, r) && token in w.drawn
  {
    hide HasToken, Passes, Next, FreshDraws;
    if rest == [] {
      assert front + rest == front;
    } else {
      var n := |rest| - 1;
      var all := front + rest;
      assert all[..|all|-1] == front + rest[..n] && all[|all|-1] == rest[n];
      HasTokenInRun(front, rest[..n], token, r);
      HasTokenStep(Run(front + rest[..n]), rest[n], token, r);
    }
  }

  lemma GivenNow(w: World, m: Move)
    requires m.Serve?
    requires (m.request.ExchangeCode? || (m.request.ExchangeRefresh? && m.request.refresh != m.request.token))
    requires var reply := Handle(w.memory, w.disk, m.request, m.now, m.ok).reply;
            reply.Issued? && reply.refreshToken.Some?
    ensures var n := Next(w, m); var token := m.request.refresh;
            && Handle(w.memory, w.disk, m.request, m.now, m.ok).reply.refreshToken == Some(token)
            && HasToken(n.memory, token, TokenRecord(m.request.clientId,
                        Handle(w.memory, w.disk, m.request, m.now, m.ok).reply.scope, m.now + 2592000, false))
            && n.disk == n.memory && token in n.drawn
  {
    hide Handle, Recorded;
    if m.request.ExchangeCode? { CodeExactly(w.memory, w.disk, m.request, m.now, m.ok); }
    else { RefreshExactly(w.memory, w.disk, m.request, m.now, m.ok); }
    DrawnNow(w, m);
  }

  lemma DrawnNow(w: World, m: Move)
    requires m.Serve?
    ensures Draws(m.request) <= Next(w, m).drawn
  {
    hide EffectOf, Draws;
  }

  /** A refresh token that was given out stays as it is, through failed writes and restarts, until it expires, its
      client presents it, or it is revoked; presented by its client, with a write that succeeds, it is rotated, for the
      same scope. */
  lemma GivenTokenWorks(front: seq<Move>, give: Move, rest: seq<Move>, q: Request, now: int)
    requires give.Serve?
    requires give.request.ExchangeCode? || (give.request.ExchangeRefresh? && give.request.refresh != give.request.token)
    requires var w := Run(front); var reply := Handle(w.memory, w.disk, give.request, give.now, give.ok).reply;
             reply.Issued? && reply.refreshToken.Some? && q.ExchangeRefresh? && reply.refreshToken.value == q.token
    requires FreshRun(front + [give] + rest) && q.refresh != q.token
    ensures var w := Run(front); var scope := Handle(w.memory, w.disk, give.request, give.now, give.ok).reply.scope;
            var r := TokenRecord(give.request.clientId, scope, give.now + 2592000, false);
            (forall k :: 0 <= k < |rest| ==> Passes(rest[k], q.token, r))
            && q.clientId == give.request.clientId && now < give.now + 2592000 ==>
              var e := Run(front + [give] + rest);
              && Handle(e.memory, e.disk, q, now, true).reply.Issued?
              && Handle(e.memory, e.disk, q, now, true).reply.scope == scope
  {
    hide Handle, Next, FreshRun, Passes, Run;
    var given := front + [give];
    RunOne(front, give);
    GivenNow(Run(front), give);
    var w := Run(front);
    var scope := Handle(w.memory, w.disk, give.request, give.now, give.ok).reply.scope;
    var r := TokenRecord(give.request.clientId, scope, give.now + 2592000, false);
    if (forall k :: 0 <= k < |rest| ==> Passes(rest[k], q.token, r)) && q.clientId == r.clientId && now < r.expiresAt {
      HasTokenInRun(given, rest, q.token, r);
      var e := Run(given + rest);
      RefreshExactly(e.memory, e.disk, q, now, true);
    }
  }

  // ----- a revoked token cannot be used

  predicate Dead(s: State, token: Id) {
    token in s.refresh ==> s.refresh[token].revoked
  }

  lemma EffectDead(s: State, q: Request, now: int, token: Id)
    requires Dead(s, token) && token !in Draws(q)
    ensures Dead(EffectOf(s, q, now).memory, token)
  {
    hide NormalizeScope;
    assert Dead(Cleaned(s, now), token);
  }

  lemma {:induction false} DeadInRun(front: seq<Move>, rest: seq<Move>, token: Id)
    requires FreshRun(front + rest) && token in Run(front).drawn
    requires Dead(Run(front).memory, token) && Dead(Run(front).disk, token)
    ensures var w := Run(front + rest); Dead(w.memory, token) && Dead(w.disk, token) && token in w.drawn
  {
    hide Dead, EffectOf, Recorded;
    if rest == [] {
      assert front + rest == front;
    } else {
      var n := |rest| - 1;
      var all, m := front + rest, rest[|rest|-1];
      assert all[..|all|-1] == front + rest[..n] && all[|all|-1] == m;
      DeadInRun(front, rest[..n], token);
      if m.Serve? { EffectDead(Run(front + rest[..n]).memory, m.request, m.now, token); }
    }
  }

  lemma RevokedNow(w: World, m: Move, token: Id)
    requires m.Serve? && m.request.Revoke? && m.request.token == token && m.ok && token in w.memory.refresh
    requires m.request.onlyFor.None? || m.request.onlyFor.value == w.memory.refresh[token].clientId
    ensures Dead(Next(w, m).memory, token) && Dead(Next(w, m).disk, token) && Next(w, m).drawn == w.drawn
  {}

  lemma TokensAreDrawn(w: World, token: Id)
    requires WorldOk(w) && token in w.memory.refresh
    ensures token in w.drawn
  {
    assert Belongs(w, token, w.memory.refresh[token]);
  }

  /** Once a stored refresh token is revoked, for its client or for any, with a write that succeeds, it is never rotated
      again, by whomever and after any run. */
  lemma RevokedNeverRotates(front: seq<Move>, revoke: Move, rest: seq<Move>, q: Request, now: int, ok: bool)
    requires revoke.Serve? && revoke.request.Revoke? && revoke.ok
    requires q.ExchangeRefresh? && q.token == revoke.request.token && q.refresh != q.token
    requires FreshRun(front + [revoke] + rest) && FreshRun(front) && q.token in Run(front).memory.refresh
    requires revoke.request.onlyFor.None?
             || revoke.request.onlyFor.value == Run(front).memory.refresh[q.token].clientId
    ensures var w := Run(front + [revoke] + rest); !Handle(w.memory, w.disk, q, now, ok).reply.Issued?
  {
    hide Run, FreshRun, WorldOk, Next, Handle;
    RunOk(front);
    TokensAreDrawn(Run(front), q.token);
    RunOne(front, revoke);
    RevokedNow(Run(front), revoke, q.token);
    DeadInRun(front + [revoke], rest, q.token);
    var w := Run(front + [revoke] + rest);
    RefreshExactly(w.memory, w.disk, q, now, ok);
  }
}
