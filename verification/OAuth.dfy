/** Authorization codes and refresh rotation (apps/web/src/oauth.rs:293-504, 604-680, 737-749). A token or code stands
    for its own hash, and a code verifier for its challenge, both taken to be injective; random values, the time and
    the success of the write are parameters. A failed write is reported, but the change stays in memory. */
module OAuth {
  import opened Wrappers

  const ACCESS_TTL := 3600
  const REFRESH_TTL := 2592000
  const CODE_TTL := 300
  const PENDING_TTL := 600
  const WORKER_SCOPE := "zero3.worker"
  const OFFLINE_SCOPE := "offline_access"

  /** A scope as the list of its words. */
  type Scope = seq<string>

  datatype Client = Client(clientId: Id, redirectUris: seq<string>)

  datatype Pending = Pending(clientId: Id, redirectUri: string, challenge: string, scope: Scope, expiresAt: int)

  datatype CodeRecord = CodeRecord(clientId: Id, redirectUri: string, challenge: string,
                                   scope: Scope, expiresAt: int, used: bool)

  datatype TokenRecord = TokenRecord(clientId: Id, scope: Scope, expiresAt: int, revoked: bool)

  datatype State = State(
    clients: map<Id, Client>, pending: map<Id, Pending>, codes: map<Id, CodeRecord>,
    access: map<Id, TokenRecord>, refresh: map<Id, TokenRecord>)

  const Empty := State(map[], map[], map[], map[], map[])

  datatype Refusal =
    | InvalidScope | UnknownClient | RedirectNotRegistered | OwnerRefused | RequestUnknown
    | CodeUnknown | CodeUnusable | PkceFailed | TokenUnknown | TokenUnusable | ServerError

  datatype Reply =
    | Refused(why: Refusal)
    | Registered(clientId: Id)
    | Begun(requestId: Id)
    | Redirected(redirectUri: string, code: Id)
    | Issued(accessToken: Id, refreshToken: Option<Id>, scope: Scope)
    | Revoked

  // ----- pure pieces

  /** Words other than the two known ones are refused, repeats are dropped, and the worker scope is put first if
      missing. */
  function AddWords(raw: seq<string>, known: Scope): Option<Scope> {
    if raw == [] then Some(known)
    else if raw[0] != WORKER_SCOPE && raw[0] != OFFLINE_SCOPE then None
    else AddWords(raw[1..], if raw[0] in known then known else known + [raw[0]])
  }

  function NormalizeScope(raw: seq<string>): Option<Scope> {
    if raw == [] then Some([WORKER_SCOPE])
    else
      var words := AddWords(raw, []);
      if words.Some? && WORKER_SCOPE !in words.value then Some([WORKER_SCOPE] + words.value) else words
  }

  predicate NoRepeats(s: Scope) {
    forall i, j :: 0 <= i < j < |s| ==> s[i] != s[j]
  }

  predicate KnownWords(s: Scope) {
    forall i :: 0 <= i < |s| ==> s[i] == WORKER_SCOPE || s[i] == OFFLINE_SCOPE
  }

  lemma {:induction false} WordsAdded(raw: seq<string>, known: Scope)
    requires NoRepeats(known) && KnownWords(known)
    ensures AddWords(raw, known).Some? <==> KnownWords(raw)
    ensures AddWords(raw, known).Some? ==> var s := AddWords(raw, known).value;
              NoRepeats(s) && KnownWords(s) && known <= s && forall x :: x in s <==> x in known || x in raw
  {
    if raw != [] && (raw[0] == WORKER_SCOPE || raw[0] == OFFLINE_SCOPE) {
      WordsAdded(raw[1..], if raw[0] in known then known else known + [raw[0]]);
      assert raw == [raw[0]] + raw[1..];
    }
  }

  /** A scope is accepted exactly when all its words are known; it always has the worker word, the offline word exactly
      when that was asked for, and no word twice; the word asked for first comes first, the worker word if it was not
      asked for. */
  lemma ScopeNormal(raw: seq<string>)
    ensures NormalizeScope(raw).Some? <==> KnownWords(raw)
    ensures NormalizeScope(raw).Some? ==> var s := NormalizeScope(raw).value;
              && NoRepeats(s) && KnownWords(s) && WORKER_SCOPE in s && (OFFLINE_SCOPE in s <==> OFFLINE_SCOPE in raw)
              && s[0] == if raw != [] && WORKER_SCOPE in raw then raw[0] else WORKER_SCOPE
  {
    hide AddWords, NoRepeats, KnownWords;
    assert WORKER_SCOPE != OFFLINE_SCOPE by { assert WORKER_SCOPE[0] == 'z' && OFFLINE_SCOPE[0] == 'o'; }
    FewWords();
    WordsAdded(raw, []);
    if raw != [] && KnownWords(raw) {
      FirstWord(raw);
      var words := AddWords(raw, []).value;
      if WORKER_SCOPE !in words { PutFirst(words); }
    }
  }

  lemma FewWords()
    ensures NoRepeats([]) && KnownWords([]) && NoRepeats([WORKER_SCOPE]) && KnownWords([WORKER_SCOPE])
  {}

  lemma PutFirst(words: Scope)
    requires NoRepeats(words) && KnownWords(words) && WORKER_SCOPE !in words
    ensures NoRepeats([WORKER_SCOPE] + words) && KnownWords([WORKER_SCOPE] + words)
  {}

  lemma FirstWord(raw: seq<string>)
    requires raw != [] && KnownWords(raw)
    ensures var words := AddWords(raw, []); words.Some? && words.value != [] && words.value[0] == raw[0]
  {
    hide KnownWords;
    KnownFirst(raw);
    WordsAdded(raw[1..], [raw[0]]);
    assert [] + [raw[0]] == [raw[0]];
  }

  lemma KnownFirst(raw: seq<string>)
    requires raw != [] && KnownWords(raw)
    ensures (raw[0] == WORKER_SCOPE || raw[0] == OFFLINE_SCOPE) && KnownWords(raw[1..])
    ensures NoRepeats([raw[0]]) && KnownWords([raw[0]])
  {}

  /** `cleanup_state`: what has expired goes, and so do used codes. */
  function Cleaned(s: State, now: int): State {
    s.(pending := map id | id in s.pending && s.pending[id].expiresAt > now :: s.pending[id],
       codes := map id | id in s.codes && s.codes[id].expiresAt > now && !s.codes[id].used :: s.codes[id],
       access := map id | id in s.access && s.access[id].expiresAt > now :: s.access[id],
       refresh := map id | id in s.refresh && s.refresh[id].expiresAt > now :: s.refresh[id])
  }

  /** `issue_tokens`: an access token, and a refresh token when the scope asks for one. */
  function WithTokens(s: State, clientId: Id, scope: Scope, access: Id, refresh: Id, now: int): State {
    s.(access := s.access[access := TokenRecord(clientId, scope, now + ACCESS_TTL, false)],
       refresh :=
         if OFFLINE_SCOPE in scope
         then s.refresh[refresh := TokenRecord(clientId, scope, now + REFRESH_TTL, false)] else s.refresh)
  }

  function TokensReply(scope: Scope, access: Id, refresh: Id): Reply {
    Issued(access, if OFFLINE_SCOPE in scope then Some(refresh) else None, scope)
  }

  // ----- the requests

  datatype Request =
    | Register(clientId: Id, redirectUris: seq<string>)
    | Begin(clientId: Id, redirectUri: string, challenge: string, rawScope: seq<string>, requestId: Id)
    | Approve(requestId: Id, ownerOk: bool, code: Id)
    | ExchangeCode(code: Id, clientId: Id, redirectUri: string, challenge: string, access: Id, refresh: Id)
    | ExchangeRefresh(token: Id, clientId: Id, access: Id, refresh: Id)
    | Revoke(token: Id, onlyFor: Option<Id>)

  /** What a request leaves in memory, whether it goes on to write the state to disk, and its answer if it does. */
  datatype Effect = Effect(memory: State, writes: bool, reply: Reply)

  function Stop(s: State, why: Refusal): Effect {
    Effect(s, false, Refused(why))
  }

  function RevokedIn(m: map<Id, TokenRecord>, token: Id, clientId: Option<Id>): map<Id, TokenRecord> {
    if token in m && (clientId.None? || clientId.value == m[token].clientId) then m[token := m[token].(revoked := true)]
    else m
  }

  function EffectOf(s: State, q: Request, now: int): Effect {
    match q
    case Register(clientId, uris) =>
      Effect(s.(clients := s.clients[clientId := Client(clientId, uris)]), true, Registered(clientId))
    case Begin(clientId, uri, challenge, raw, requestId) =>
      var scope := NormalizeScope(raw);
      if scope.None? then Stop(s, InvalidScope)
      else
        var t := Cleaned(s, now);
        if clientId !in t.clients then Stop(t, UnknownClient)
        else if uri !in t.clients[clientId].redirectUris then Stop(t, RedirectNotRegistered)
        else
          var p := Pending(clientId, uri, challenge, scope.value, now + PENDING_TTL);
          Effect(t.(pending := t.pending[requestId := p]), true, Begun(requestId))
    case Approve(requestId, ownerOk, code) =>
      if !ownerOk then Stop(s, OwnerRefused)
      else
        var t := Cleaned(s, now);
        if requestId !in t.pending then Stop(t, RequestUnknown)
        else
          var p := t.pending[requestId];
          var c := CodeRecord(p.clientId, p.redirectUri, p.challenge, p.scope, now + CODE_TTL, false);
          Effect(t.(pending := t.pending - {requestId}, codes := t.codes[code := c]), true,
                 Redirected(p.redirectUri, code))
    case ExchangeCode(code, clientId, uri, challenge, access, refresh) =>
      var t := Cleaned(s, now);
      if code !in t.codes then Stop(t, CodeUnknown)
      else
        var c := t.codes[code];
        if c.used || c.expiresAt <= now || c.clientId != clientId || c.redirectUri != uri then Stop(t, CodeUnusable)
        else if challenge != c.challenge then Stop(t, PkceFailed)
        else
          var u := t.(codes := t.codes[code := c.(used := true)]);
          Effect(WithTokens(u, clientId, c.scope, access, refresh, now), true, TokensReply(c.scope, access, refresh))
    case ExchangeRefresh(token, clientId, access, refresh) =>
      var t := Cleaned(s, now);
      if token !in t.refresh then Stop(t, TokenUnknown)
      else
        var r := t.refresh[token];
        if r.revoked || r.expiresAt <= now || r.clientId != clientId then Stop(t, TokenUnusable)
        else
          var u := t.(refresh := t.refresh[token := r.(revoked := true)]);
          Effect(WithTokens(u, clientId, r.scope, access, refresh, now), true, TokensReply(r.scope, access, refresh))
    case Revoke(token, onlyFor) =>
      Effect(s.(access := RevokedIn(s.access, token, onlyFor), refresh := RevokedIn(s.refresh, token, onlyFor)), true,
             Revoked)
  }

  /** Memory, disk and answer after a request whose write succeeds or not. */
  datatype After = After(memory: State, disk: State, reply: Reply)

  function Handle(memory: State, disk: State, q: Request, now: int, ok: bool): After {
    var e := EffectOf(memory, q, now);
    if !e.writes then After(e.memory, disk, e.reply)
    else if ok then After(e.memory, e.memory, e.reply)
    else After(e.memory, disk, Refused(ServerError))
  }

  // ----- the server: its maps, in memory and on disk

  class Server {
    var clients: map<Id, Client>
    var pending: map<Id, Pending>
    var codes: map<Id, CodeRecord>
    var access: map<Id, TokenRecord>
    var refresh: map<Id, TokenRecord>
    var disk: State

    ghost function Memory(): State reads this { State(clients, pending, codes, access, refresh) }

    /** Opens the state stored on disk. */
    constructor (stored: State)
      ensures Memory() == stored && disk == stored
    {
      clients, pending, codes, access, refresh, disk :=
        stored.clients, stored.pending, stored.codes, stored.access, stored.refresh, stored;
    }

    method Persist(ok: bool)
      modifies this`disk
      ensures disk == if ok then Memory() else old(disk)
    {
      if ok { disk := State(clients, pending, codes, access, refresh); }
    }

    method CleanupState(now: int)
      modifies this`pending, this`codes, this`access, this`refresh
      ensures Memory() == Cleaned(old(Memory()), now)
    {
      pending := map id | id in pending && pending[id].expiresAt > now :: pending[id];
      codes := map id | id in codes && codes[id].expiresAt > now && !codes[id].used :: codes[id];
      access := map id | id in access && access[id].expiresAt > now :: access[id];
      refresh := map id | id in refresh && refresh[id].expiresAt > now :: refresh[id];
    }

    method RegisterClient(clientId: Id, redirectUris: seq<string>, ok: bool) returns (reply: Reply)
      modifies this
      ensures After(Memory(), disk, reply) == Handle(old(Memory()), old(disk), Register(clientId, redirectUris), 0, ok)
    {
      clients := clients[clientId := Client(clientId, redirectUris)];
      Persist(ok);
      reply := if ok then Registered(clientId) else Refused(ServerError);
    }

    method BeginAuthorization(clientId: Id, redirectUri: string, challenge: string, rawScope: seq<string>,
                              requestId: Id, now: int, ok: bool)
      returns (reply: Reply)
      modifies this
      ensures After(Memory(), disk, reply)
              == Handle(old(Memory()), old(disk), Begin(clientId, redirectUri, challenge, rawScope, requestId), now, ok)
    {
      var scope := NormalizeScope(rawScope);
      if scope.None? { return Refused(InvalidScope); }
      CleanupState(now);
      if clientId !in clients { return Refused(UnknownClient); }
      if redirectUri !in clients[clientId].redirectUris { return Refused(RedirectNotRegistered); }
      pending := pending[requestId := Pending(clientId, redirectUri, challenge, scope.value, now + PENDING_TTL)];
      Persist(ok);
      reply := if ok then Begun(requestId) else Refused(ServerError);
    }

    method ApproveAuthorization(requestId: Id, ownerOk: bool, code: Id, now: int, ok: bool) returns (reply: Reply)
      modifies this
      ensures After(Memory(), disk, reply)
              == Handle(old(Memory()), old(disk), Approve(requestId, ownerOk, code), now, ok)
    {
      if !ownerOk { return Refused(OwnerRefused); }
      CleanupState(now);
      if requestId !in pending { return Refused(RequestUnknown); }
      var p := pending[requestId];
      pending := pending - {requestId};
      codes := codes[code := CodeRecord(p.clientId, p.redirectUri, p.challenge, p.scope, now + CODE_TTL, false)];
      Persist(ok);
      reply := if ok then Redirected(p.redirectUri, code) else Refused(ServerError);
    }

    method IssueTokens(clientId: Id, scope: Scope, newAccess: Id, newRefresh: Id, now: int) returns (reply: Reply)
      modifies this`access, this`refresh
      ensures Memory() == WithTokens(old(Memory()), clientId, scope, newAccess, newRefresh, now)
      ensures reply == TokensReply(scope, newAccess, newRefresh)
    {
      access := access[newAccess := TokenRecord(clientId, scope, now + ACCESS_TTL, false)];
      var given := None;
      if OFFLINE_SCOPE in scope {
        refresh := refresh[newRefresh := TokenRecord(clientId, scope, now + REFRESH_TTL, false)];
        given := Some(newRefresh);
      }
      reply := Issued(newAccess, given, scope);
    }

    method ExchangeAuthorizationCode(code: Id, clientId: Id, redirectUri: string, challenge: string,
                                     newAccess: Id, newRefresh: Id, now: int, ok: bool) returns (reply: Reply)
      modifies this
      ensures After(Memory(), disk, reply)
              == Handle(old(Memory()), old(disk),
                        ExchangeCode(code, clientId, redirectUri, challenge, newAccess, newRefresh),
                        now, ok)
    {
      CleanupState(now);
      if code !in codes { return Refused(CodeUnknown); }
      var record := codes[code];
      if record.used || record.expiresAt <= now || record.clientId != clientId || record.redirectUri != redirectUri {
        return Refused(CodeUnusable);
      }
      if challenge != record.challenge { return Refused(PkceFailed); }
      codes := codes[code := record.(used := true)];
      reply := IssueTokens(clientId, record.scope, newAccess, newRefresh, now);
      Persist(ok);
      if !ok { reply := Refused(ServerError); }
    }

    method ExchangeRefreshToken(token: Id, clientId: Id, newAccess: Id, newRefresh: Id, now: int, ok: bool)
      returns (reply: Reply)
      modifies this
      ensures After(Memory(), disk, reply)
              == Handle(old(Memory()), old(disk), ExchangeRefresh(token, clientId, newAccess, newRefresh), now, ok)
    {
      CleanupState(now);
      if token !in refresh { return Refused(TokenUnknown); }
      var record := refresh[token];
      if record.revoked || record.expiresAt <= now || record.clientId != clientId { return Refused(TokenUnusable); }
      refresh := refresh[token := record.(revoked := true)];
      reply := IssueTokens(clientId, record.scope, newAccess, newRefresh, now);
      Persist(ok);
      if !ok { reply := Refused(ServerError); }
    }

    method RevokeToken(token: Id, clientId: Option<Id>, ok: bool) returns (reply: Reply)
      modifies this
      ensures After(Memory(), disk, reply) == Handle(old(Memory()), old(disk), Revoke(token, clientId), 0, ok)
    {
      if token in access && (clientId.None? || clientId.value == access[token].clientId) {
        access := access[token := access[token].(revoked := true)];
      }
      if token in refresh && (clientId.None? || clientId.value == refresh[token].clientId) {
        refresh := refresh[token := refresh[token].(revoked := true)];
      }
      Persist(ok);
      reply := if ok then Revoked else Refused(ServerError);
    }
  }
}
