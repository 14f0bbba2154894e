/** Codes are exchanged once, refresh tokens rotate once, and the tokens of one approval form a family with a single
    live refresh token: over all runs, with failed writes and restarts. */
module Families {
  import opened Wrappers
  import opened OAuth

  /** What an approval allowed. */
  datatype Grant = Grant(clientId: Id, scope: Scope)

  /** The server together with the history of the run: which code each token descends from, what each code was approved
      for, the successful exchanges and rotations, and all values drawn at random so far. */
  datatype World = World(
    memory: State, disk: State,
    family: map<Id, Id>, grants: map<Id, Grant>,
    exchanged: multiset<Id>, rotated: multiset<Id>, drawn: set<Id>)

  const Start := World(Empty, Empty, map[], map[], multiset{}, multiset{}, {})

  datatype Move = Serve(request: Request, now: int, ok: bool) | Restart

  function Draws(q: Request): set<Id> {
    match q
    case Approve(_, _, code) => {code}
    case ExchangeCode(_, _, _, _, access, refresh) => {access, refresh}
    case ExchangeRefresh(_, _, access, refresh) => {access, refresh}
    case _ => {}
  }

  predicate FreshDraws(w: World, q: Request) {
    && Draws(q) !! w.drawn
    && (q.ExchangeCode? ==> q.access != q.refresh)
    && (q.ExchangeRefresh? ==> q.access != q.refresh)
  }

  /** The history after a request that changed the memory. */
  function Recorded(w: World, q: Request, now: int, ok: bool): World {
    match q
    case Approve(requestId, _, code) =>
      var t := Cleaned(w.memory, now);
      if requestId in t.pending then
        w.(grants := w.grants[code := Grant(t.pending[requestId].clientId, t.pending[requestId].scope)])
      else w
    case ExchangeCode(code, _, _, _, access, refresh) =>
      w.(family := w.family[access := code][refresh := code],
         exchanged := if ok then w.exchanged + multiset{code} else w.exchanged)
    case ExchangeRefresh(token, _, access, refresh) =>
      if token in w.family then
        w.(family := w.family[access := w.family[token]][refresh := w.family[token]],
           rotated := if ok then w.rotated + multiset{token} else w.rotated)
      else w
    case _ => w
  }

  function HistoryOf(w: World, q: Request, now: int, ok: bool): World {
    (if EffectOf(w.memory, q, now).writes then Recorded(w, q, now, ok) else w).(drawn := w.drawn + Draws(q))
  }

  function Next(w: World, m: Move): World {
    match m
    case Restart => w.(memory := w.disk)
    case Serve(q, now, ok) =>
      var a := Handle(w.memory, w.disk, q, now, ok);
      HistoryOf(w, q, now, ok).(memory := a.memory, disk := a.disk)
  }

  function Run(moves: seq<Move>): World {
    if moves == [] then Start else Next(Run(moves[..|moves|-1]), moves[|moves|-1])
  }

  /** Every value drawn at random is new. */
  predicate FreshRun(moves: seq<Move>) {
    moves != [] ==>
      var n := |moves| - 1;
      FreshRun(moves[..n]) && (moves[n].Serve? ==> FreshDraws(Run(moves[..n]), moves[n].request))
  }

  // ----- the invariant

  predicate Usable(s: State, code: Id) {
    code in s.codes && !s.codes[code].used
  }

  predicate LiveRefresh(s: State, token: Id) {
    token in s.refresh && !s.refresh[token].revoked
  }

  predicate CodesOk(w: World, s: State) {
    forall c :: c in s.codes ==>
      c in w.grants && s.codes[c].clientId == w.grants[c].clientId && s.codes[c].scope == w.grants[c].scope
  }

  predicate Belongs(w: World, token: Id, r: TokenRecord) {
    && token in w.family && w.family[token] in w.grants
    && r.clientId == w.grants[w.family[token]].clientId && r.scope == w.grants[w.family[token]].scope
  }

  predicate TokensOk(w: World, s: State) {
    && (forall t :: t in s.access ==> Belongs(w, t, s.access[t]))
    && (forall t :: t in s.refresh ==> Belongs(w, t, s.refresh[t]))
  }

  /** One live refresh token per approval, and none while its code can still be exchanged. */
  predicate OneLive(w: World, s: State) {
    && (forall a, b ::
          LiveRefresh(s, a) && LiveRefresh(s, b) && a in w.family && b in w.family && w.family[a] == w.family[b] ==>
          a == b)
    && (forall a :: LiveRefresh(s, a) && a in w.family ==> !Usable(s, w.family[a]))
  }

  /** What was exchanged or rotated with success is spent. */
  predicate SpentOk(w: World, s: State) {
    && (forall c :: c in w.exchanged ==> !Usable(s, c))
    && (forall t :: t in w.rotated ==> !LiveRefresh(s, t))
  }

  predicate StateOk(w: World, s: State) {
    CodesOk(w, s) && TokensOk(w, s) && OneLive(w, s) && SpentOk(w, s)
  }

  predicate HistoryOk(w: World) {
    && w.family.Keys <= w.drawn && w.grants.Keys <= w.drawn
    && (forall t :: t in w.family ==> w.family[t] in w.grants)
    && (forall c :: c in w.exchanged ==> c in w.drawn && w.exchanged[c] == 1)
    && (forall t :: t in w.rotated ==> t in w.drawn && w.rotated[t] == 1)
  }

  predicate WorldOk(w: World) {
    HistoryOk(w) && StateOk(w, w.memory) && StateOk(w, w.disk)
  }

  // ----- what keeps a state good

  /** A state that only lost entries, or whose codes and tokens were only spent, stays good. */
  predicate Weaker(s: State, t: State) {
    && (forall c :: c in t.codes ==>
          c in s.codes && t.codes[c].clientId == s.codes[c].clientId && t.codes[c].scope == s.codes[c].scope
                                     && (s.codes[c].used ==> t.codes[c].used))
    && (forall k :: k in t.access ==>
          k in s.access && t.access[k].clientId == s.access[k].clientId && t.access[k].scope == s.access[k].scope)
    && (forall k :: k in t.refresh ==>
          k in s.refresh && t.refresh[k].clientId == s.refresh[k].clientId && t.refresh[k].scope == s.refresh[k].scope
                                       && (s.refresh[k].revoked ==> t.refresh[k].revoked))
  }

  lemma WeakerOk(w: World, s: State, t: State)
    requires StateOk(w, s) && Weaker(s, t)
    ensures StateOk(w, t)
  {}

  lemma CleanedWeaker(s: State, now: int)
    ensures Weaker(s, Cleaned(s, now))
  {}

  lemma RevokedWeaker(s: State, token: Id, onlyFor: Option<Id>)
    ensures Weaker(s,
                   s.(access := RevokedIn(s.access, token, onlyFor), refresh := RevokedIn(s.refresh, token, onlyFor)))
  {}

  /** The history of `h` extends that of `w` by fresh values, without a new success. */
  predicate Extends(w: World, h: World) {
    && (forall t :: t in w.family ==> t in h.family && h.family[t] == w.family[t])
    && (forall c :: c in w.grants ==> c in h.grants && h.grants[c] == w.grants[c])
  }

  lemma StateKept(w: World, h: World, s: State)
    requires StateOk(w, s) && Extends(w, h) && h.exchanged == w.exchanged && h.rotated == w.rotated
    ensures StateOk(h, s)
  {}

  /** The history is good, and good states are what is in memory and, unless it was overwritten, what is on disk. */
  predicate Kept(w: World, h: World, memory: State, overwritten: bool) {
    HistoryOk(h) && StateOk(h, memory) && (!overwritten ==> StateOk(h, w.disk))
  }

  predicate Overwritten(w: World, q: Request, now: int, ok: bool) {
    EffectOf(w.memory, q, now).writes && ok
  }

  /** A request that records nothing new. */
  lemma QuietOk(w: World, h: World, memory: State, overwritten: bool)
    requires WorldOk(w) && StateOk(w, memory)
    requires h == w.(drawn := h.drawn) && w.drawn <= h.drawn
    ensures Kept(w, h, memory, overwritten)
  {
    hide CodesOk, TokensOk, OneLive, SpentOk;
    StateKept'(w, h, memory); StateKept'(w, h, w.disk);
  }

  lemma StateKept'(w: World, h: World, s: State)
    requires StateOk(w, s) && h == w.(drawn := h.drawn)
    ensures StateOk(h, s)
  {}

  // ----- a new code

  lemma NewCodeOk(w: World, s: State, h: World, code: Id, c: CodeRecord, p: map<Id, Pending>)
    requires HistoryOk(w) && StateOk(w, s) && code !in w.drawn && !c.used
    requires Extends(w, h) && h.family == w.family && h.exchanged == w.exchanged && h.rotated == w.rotated
    requires code in h.grants && h.grants[code] == Grant(c.clientId, c.scope)
    ensures StateOk(h, s.(pending := p, codes := s.codes[code := c]))
  {
    hide Belongs, HistoryOk;
    var t := s.(pending := p, codes := s.codes[code := c]);
    LiveSame(s, t);
    assert forall k :: k != code ==> (Usable(t, k) <==> Usable(s, k));
    NewCodeUnknown(w, code);
    forall k | k in s.access ensures Belongs(h, k, s.access[k]) { BelongsLater(w, h, k, s.access[k]); }
    forall k | k in s.refresh ensures Belongs(h, k, s.refresh[k]) { BelongsLater(w, h, k, s.refresh[k]); }
  }

  lemma NewCodeUnknown(w: World, code: Id)
    requires HistoryOk(w) && code !in w.drawn
    ensures code !in w.exchanged && code !in w.grants && forall t :: t in w.family ==> w.family[t] != code
  {}

  lemma BelongsLater(w: World, h: World, token: Id, r: TokenRecord)
    requires Belongs(w, token, r) && Extends(w, h)
    ensures Belongs(h, token, r)
  {}

  lemma ApproveOk(w: World, q: Request, now: int, ok: bool)
    requires WorldOk(w) && q.Approve? && FreshDraws(w, q)
    ensures Kept(w, HistoryOf(w, q, now, ok), EffectOf(w.memory, q, now).memory, Overwritten(w, q, now, ok))
  {
    hide StateOk, Cleaned;
    var h := HistoryOf(w, q, now, ok);
    CleanedWeaker(w.memory, now);
    var t := Cleaned(w.memory, now);
    WeakerOk(w, w.memory, t);
    if q.ownerOk && q.requestId in t.pending {
      var p := t.pending[q.requestId];
      NewCodeOk(w, t, h, q.code, CodeRecord(p.clientId, p.redirectUri, p.challenge, p.scope, now + CODE_TTL, false),
                t.pending - {q.requestId});
      StateKept(w, h, w.disk);
    } else {
      QuietOk(w, h, EffectOf(w.memory, q, now).memory, Overwritten(w, q, now, ok));
    }
  }

  // ----- new tokens

  /** Fresh tokens of the family of `code`, issued in a state where the family has nothing live. */
  lemma IssueOk(w: World, s: State, h: World, code: Id, clientId: Id, scope: Scope, access: Id, refresh: Id, now: int)
    requires HistoryOk(w) && CodesOk(w, s) && TokensOk(w, s) && OneLive(w, s) && SpentOk(h, s)
    requires access !in w.drawn && refresh !in w.drawn && access != refresh
    requires code in w.grants && w.grants[code] == Grant(clientId, scope) && !Usable(s, code)
    requires forall a :: LiveRefresh(s, a) && a in w.family ==> w.family[a] != code
    requires h.family == w.family[access := code][refresh := code] && h.grants == w.grants
    requires forall t :: t in h.rotated ==> t in w.drawn
    ensures StateOk(h, WithTokens(s, clientId, scope, access, refresh, now))
  {
    var t := WithTokens(s, clientId, scope, access, refresh, now);
    assert forall k :: Usable(t, k) <==> Usable(s, k);
    forall a | LiveRefresh(t, a) ensures a == refresh || LiveRefresh(s, a) {}
    IssuedTokens(w, s, h, code, clientId, scope, access, refresh, now);
    IssuedLive(w, s, h, code, clientId, scope, access, refresh, now);
  }

  lemma IssuedTokens(w: World, s: State, h: World, code: Id, clientId: Id, scope: Scope, access: Id, refresh: Id,
                     now: int)
    requires HistoryOk(w) && TokensOk(w, s) && access !in w.drawn && refresh !in w.drawn && access != refresh
    requires code in w.grants && w.grants[code] == Grant(clientId, scope)
    requires h.family == w.family[access := code][refresh := code] && h.grants == w.grants
    ensures TokensOk(h, WithTokens(s, clientId, scope, access, refresh, now))
  {
    var t := WithTokens(s, clientId, scope, access, refresh, now);
    forall k | k in t.access
      ensures Belongs(h, k, t.access[k]) { if k != access { assert Belongs(w, k, s.access[k]); } }
    forall k | k in t.refresh
      ensures Belongs(h, k, t.refresh[k]) { if k != refresh { assert Belongs(w, k, s.refresh[k]); } }
  }

  lemma IssuedLive(w: World, s: State, h: World, code: Id, clientId: Id, scope: Scope, access: Id, refresh: Id,
                   now: int)
    requires HistoryOk(w) && TokensOk(w, s) && OneLive(w, s) && access !in w.drawn && refresh !in w.drawn
    requires access != refresh
    requires !Usable(s, code) && forall a :: LiveRefresh(s, a) && a in w.family ==> w.family[a] != code
    requires h.family == w.family[access := code][refresh := code]
    ensures OneLive(h, WithTokens(s, clientId, scope, access, refresh, now))
  {
    var t := WithTokens(s, clientId, scope, access, refresh, now);
    assert forall k :: Usable(t, k) <==> Usable(s, k);
    forall a | LiveRefresh(t, a)
      ensures a == refresh || (LiveRefresh(s, a) && a in w.family && h.family[a] == w.family[a]) {
      if a != refresh { assert Belongs(w, a, s.refresh[a]); }
    }
  }

  lemma ExchangeCodeOk(w: World, q: Request, now: int, ok: bool)
    requires WorldOk(w) && q.ExchangeCode? && FreshDraws(w, q)
    ensures Kept(w, HistoryOf(w, q, now, ok), EffectOf(w.memory, q, now).memory, Overwritten(w, q, now, ok))
  {
    hide StateOk, Cleaned, HistoryOk, WithTokens;
    var h := HistoryOf(w, q, now, ok);
    CleanedWeaker(w.memory, now);
    var t := Cleaned(w.memory, now);
    WeakerOk(w, w.memory, t);
    if EffectOf(w.memory, q, now).writes {
      CodeSpent(w, t, h, q, now, ok);
    } else {
      QuietOk(w, h, EffectOf(w.memory, q, now).memory, Overwritten(w, q, now, ok));
    }
  }

  lemma CodeSpent(w: World, t: State, h: World, q: Request, now: int, ok: bool)
    requires HistoryOk(w) && StateOk(w, t) && StateOk(w, w.disk) && q.ExchangeCode? && FreshDraws(w, q)
    requires q.code in t.codes && !t.codes[q.code].used && t.codes[q.code].clientId == q.clientId
    requires h == w.(family := w.family[q.access := q.code][q.refresh := q.code], drawn := w.drawn + Draws(q),
                     exchanged := if ok then w.exchanged + multiset{q.code} else w.exchanged)
    ensures var c := t.codes[q.code]; var u := t.(codes := t.codes[q.code := c.(used := true)]);
            Kept(w, h, WithTokens(u, q.clientId, c.scope, q.access, q.refresh, now), ok)
  {
    hide Weaker, WithTokens, CodesOk, TokensOk, OneLive, SpentOk, HistoryOk, LiveRefresh;
    var c := t.codes[q.code];
    var u := t.(codes := t.codes[q.code := c.(used := true)]);
    UsedWeaker(t, q.code);
    WeakerOk(w, t, u);
    CodeIsLast(w, t, u, q.code);
    ExchangeHistory(w, t, h, q, ok);
    ExchangedSpent(w, u, h, q.code, ok);
    IssueOk(w, u, h, q.code, q.clientId, c.scope, q.access, q.refresh, now);
    if !ok { StateKept(w, h, w.disk); }
  }

  lemma CodeIsLast(w: World, t: State, u: State, code: Id)
    requires StateOk(w, t) && code in t.codes && !t.codes[code].used
    requires u == t.(codes := t.codes[code := t.codes[code].(used := true)])
    ensures code in w.grants && w.grants[code] == Grant(t.codes[code].clientId, t.codes[code].scope) && !Usable(u, code)
    ensures forall a :: LiveRefresh(u, a) && a in w.family ==> w.family[a] != code
    ensures code !in w.exchanged
  {
    assert Usable(t, code);
    LiveSame(t, u);
  }

  lemma ExchangeHistory(w: World, t: State, h: World, q: Request, ok: bool)
    requires HistoryOk(w) && q.ExchangeCode? && FreshDraws(w, q) && q.code in w.grants && q.code !in w.exchanged
    requires h == w.(family := w.family[q.access := q.code][q.refresh := q.code], drawn := w.drawn + Draws(q),
                     exchanged := if ok then w.exchanged + multiset{q.code} else w.exchanged)
    ensures HistoryOk(h) && Extends(w, h) && (forall k :: k in h.rotated ==> k in w.drawn)
  {}

  lemma ExchangedSpent(w: World, u: State, h: World, code: Id, ok: bool)
    requires SpentOk(w, u) && !Usable(u, code) && h.rotated == w.rotated
    requires h.exchanged == if ok then w.exchanged + multiset{code} else w.exchanged
    ensures SpentOk(h, u)
  {}

  lemma UsedWeaker(t: State, code: Id)
    requires code in t.codes
    ensures Weaker(t, t.(codes := t.codes[code := t.codes[code].(used := true)]))
  {}

  lemma LiveSame(s: State, t: State)
    requires t.refresh == s.refresh
    ensures forall a :: LiveRefresh(t, a) <==> LiveRefresh(s, a)
  {}

  lemma ExchangeRefreshOk(w: World, q: Request, now: int, ok: bool)
    requires WorldOk(w) && q.ExchangeRefresh? && FreshDraws(w, q)
    ensures Kept(w, HistoryOf(w, q, now, ok), EffectOf(w.memory, q, now).memory, Overwritten(w, q, now, ok))
  {
    hide StateOk, Cleaned, HistoryOk, WithTokens;
    var h := HistoryOf(w, q, now, ok);
    CleanedWeaker(w.memory, now);
    var t := Cleaned(w.memory, now);
    WeakerOk(w, w.memory, t);
    if EffectOf(w.memory, q, now).writes {
      KnownFamily(w, t, q.token);
      TokenSpent(w, t, h, q, now, ok);
    } else {
      QuietOk(w, h, EffectOf(w.memory, q, now).memory, Overwritten(w, q, now, ok));
    }
  }

  lemma KnownFamily(w: World, t: State, token: Id)
    requires StateOk(w, t) && token in t.refresh
    ensures Belongs(w, token, t.refresh[token])
  {}

  lemma TokenSpent(w: World, t: State, h: World, q: Request, now: int, ok: bool)
    requires HistoryOk(w) && StateOk(w, t) && StateOk(w, w.disk) && q.ExchangeRefresh? && FreshDraws(w, q)
    requires q.token in t.refresh && !t.refresh[q.token].revoked && t.refresh[q.token].clientId == q.clientId
    requires q.token in w.family
    requires h == w.(family := w.family[q.access := w.family[q.token]][q.refresh := w.family[q.token]],
                     drawn := w.drawn + Draws(q),
                     rotated := if ok then w.rotated + multiset{q.token} else w.rotated)
    ensures var r := t.refresh[q.token]; var u := t.(refresh := t.refresh[q.token := r.(revoked := true)]);
            Kept(w, h, WithTokens(u, q.clientId, r.scope, q.access, q.refresh, now), ok)
  {
    hide Weaker, WithTokens, CodesOk, TokensOk, OneLive, SpentOk, HistoryOk, LiveRefresh, Usable;
    var r := t.refresh[q.token];
    var u := t.(refresh := t.refresh[q.token := r.(revoked := true)]);
    RevokedOneWeaker(t, q.token);
    WeakerOk(w, t, u);
    TokenIsLast(w, t, u, q.token);
    RotationHistory(w, h, q, ok);
    RotatedSpent(w, t, u, h, q.token, ok);
    IssueOk(w, u, h, w.family[q.token], q.clientId, r.scope, q.access, q.refresh, now);
    if !ok { StateKept(w, h, w.disk); }
  }

  lemma TokenIsLast(w: World, t: State, u: State, token: Id)
    requires StateOk(w, t) && token in t.refresh && !t.refresh[token].revoked && token in w.family
    requires u == t.(refresh := t.refresh[token := t.refresh[token].(revoked := true)])
    ensures w.family[token] in w.grants
    ensures w.grants[w.family[token]] == Grant(t.refresh[token].clientId, t.refresh[token].scope)
    ensures !Usable(u, w.family[token]) && LiveRefresh(t, token) && token !in w.rotated
    ensures forall a :: LiveRefresh(u, a) ==> LiveRefresh(t, a) && a != token
    ensures forall a :: LiveRefresh(u, a) && a in w.family ==> w.family[a] != w.family[token]
    ensures forall k :: Usable(u, k) <==> Usable(t, k)
  {
    assert LiveRefresh(t, token);
    assert Belongs(w, token, t.refresh[token]);
  }

  lemma RotationHistory(w: World, h: World, q: Request, ok: bool)
    requires HistoryOk(w) && q.ExchangeRefresh? && FreshDraws(w, q) && q.token in w.family && q.token !in w.rotated
    requires h == w.(family := w.family[q.access := w.family[q.token]][q.refresh := w.family[q.token]],
                     drawn := w.drawn + Draws(q),
                     rotated := if ok then w.rotated + multiset{q.token} else w.rotated)
    ensures HistoryOk(h) && Extends(w, h) && (forall k :: k in h.rotated ==> k in w.drawn)
  {}

  lemma RotatedSpent(w: World, t: State, u: State, h: World, token: Id, ok: bool)
    requires SpentOk(w, t) && LiveRefresh(t, token)
    requires forall a :: LiveRefresh(u, a) ==> LiveRefresh(t, a) && a != token
    requires forall k :: Usable(u, k) <==> Usable(t, k)
    requires h.exchanged == w.exchanged && h.rotated == if ok then w.rotated + multiset{token} else w.rotated
    ensures SpentOk(h, u)
  {}

  lemma RevokedOneWeaker(t: State, token: Id)
    requires token in t.refresh
    ensures Weaker(t, t.(refresh := t.refresh[token := t.refresh[token].(revoked := true)]))
  {}

  // ----- all requests

  lemma RestOk(w: World, q: Request, now: int, ok: bool)
    requires WorldOk(w) && (q.Register? || q.Begin? || q.Revoke?)
    ensures Kept(w, HistoryOf(w, q, now, ok), EffectOf(w.memory, q, now).memory, Overwritten(w, q, now, ok))
  {
    hide StateOk, HistoryOk, NormalizeScope;
    CleanedWeaker(w.memory, now);
    if q.Revoke? { RevokedWeaker(w.memory, q.token, q.onlyFor); }
    WeakerOk(w, w.memory, EffectOf(w.memory, q, now).memory);
    QuietOk(w, HistoryOf(w, q, now, ok), EffectOf(w.memory, q, now).memory, Overwritten(w, q, now, ok));
  }

  lemma NextOk(w: World, m: Move)
    requires WorldOk(w) && (m.Serve? ==> FreshDraws(w, m.request))
    ensures WorldOk(Next(w, m))
  {
    hide EffectOf, HistoryOf;
    if m.Serve? {
      var q := m.request;
      if q.Approve? { ApproveOk(w, q, m.now, m.ok); }
      else if q.ExchangeCode? { ExchangeCodeOk(w, q, m.now, m.ok); }
      else if q.ExchangeRefresh? { ExchangeRefreshOk(w, q, m.now, m.ok); }
      else { RestOk(w, q, m.now, m.ok); }
      Stored(w, HistoryOf(w, q, m.now, m.ok), q, m.now, m.ok);
    } else {
      SameHistory(w, w.(memory := w.disk), w.disk);
    }
  }

  lemma SameHistory(w: World, n: World, s: State)
    requires StateOk(w, s) && n == w.(memory := n.memory, disk := n.disk)
    ensures StateOk(n, s)
  {}

  lemma Stored(w: World, h: World, q: Request, now: int, ok: bool)
    requires Kept(w, h, EffectOf(w.memory, q, now).memory, Overwritten(w, q, now, ok))
    ensures var a := Handle(w.memory, w.disk, q, now, ok); WorldOk(h.(memory := a.memory, disk := a.disk))
  {
    hide StateOk, EffectOf;
    var a := Handle(w.memory, w.disk, q, now, ok);
    var n := h.(memory := a.memory, disk := a.disk);
    SameHistory(h, n, a.memory);
    SameHistory(h, n, a.disk);
  }

  lemma {:induction false} RunOk(moves: seq<Move>)
    requires FreshRun(moves)
    ensures WorldOk(Run(moves))
  {
    hide Next, FreshDraws;
    if moves != [] {
      hide WorldOk;
      RunOk(moves[..|moves|-1]);
      NextOk(Run(moves[..|moves|-1]), moves[|moves|-1]);
    }
  }

  // ----- the promises

  /** In every run, failed writes and restarts included: a code is exchanged with success at most once, a refresh token
      rotates with success at most once; every token has the client and the scope its approval had; and of the refresh
      tokens that descend from one approval at most one is live. */
  lemma TokensFormFamilies(moves: seq<Move>)
    requires FreshRun(moves)
    ensures var w := Run(moves);
            && (forall c :: w.exchanged[c] <= 1) && (forall t :: w.rotated[t] <= 1)
            && (forall t :: t in w.memory.access ==> Belongs(w, t, w.memory.access[t]))
            && (forall t :: t in w.memory.refresh ==> Belongs(w, t, w.memory.refresh[t]))
            && (forall a, b :: LiveRefresh(w.memory, a) && LiveRefresh(w.memory, b) && w.family[a] == w.family[b] ==>
                  a == b)
  {
    hide Run, FreshRun;
    RunOk(moves);
    var w := Run(moves);
    forall c ensures w.exchanged[c] <= 1 { if c in w.exchanged { assert w.exchanged[c] == 1; } }
    forall t ensures w.rotated[t] <= 1 { if t in w.rotated { assert w.rotated[t] == 1; } }
  }

  // ----- a write that fails

  lemma RunSnoc(moves: seq<Move>, m: Move)
    requires FreshRun(moves) && (m.Serve? ==> FreshDraws(Run(moves), m.request))
    ensures Run(moves + [m]) == Next(Run(moves), m) && FreshRun(moves + [m])
  {
    hide Next, FreshDraws;
    assert (moves + [m])[..|moves|] == moves;
  }

  const Code := CodeRecord("client", "uri", "challenge", [WORKER_SCOPE], 300, false)

  const ToRegister := Serve(Register("client", ["uri"]), 0, true)
  const ToBegin := Serve(Begin("client", "uri", "challenge", [], "request"), 0, true)
  const ToApprove := Serve(Approve("request", true, "code"), 0, true)

  predicate Unapproved(w: World) {
    w.memory == w.disk && w.drawn == {} && w.exchanged == multiset{} && w.memory.codes == map[]
    && w.memory.clients == map["client" := Client("client", ["uri"])]
  }

  lemma Registers()
    ensures Unapproved(Next(Start, ToRegister))
  {}

  lemma Begins(w: World)
    requires Unapproved(w) && w.memory.pending == map[]
    ensures Unapproved(Next(w, ToBegin))
    ensures Next(w, ToBegin).memory.pending
            == map["request" := Pending("client", "uri", "challenge", [WORKER_SCOPE], 600)]
  {
    assert Cleaned(w.memory, 0).clients == w.memory.clients;
  }

  lemma Approves(w: World)
    requires Unapproved(w)
    requires w.memory.pending == map["request" := Pending("client", "uri", "challenge", [WORKER_SCOPE], 600)]
    ensures var n := Next(w, ToApprove);
            && n.memory == n.disk && n.drawn == {"code"} && n.exchanged == multiset{}
            && n.memory.codes == map["code" := Code]
  {
    assert "request" in Cleaned(w.memory, 0).pending;
  }

  /** A registered client with a code that was never exchanged, in memory and on file alike. */
  lemma CodeIssued() returns (moves: seq<Move>)
    ensures FreshRun(moves) && Run(moves).memory == Run(moves).disk && Run(moves).drawn == {"code"}
    ensures Run(moves).memory.codes == map["code" := Code] && Run(moves).exchanged == multiset{}
  {
    hide FreshDraws, Run, FreshRun, Next, Draws;
    EmptyRun();
    DrawsNothing(Start, ToRegister.request);
    RunSnoc([], ToRegister);
    Registers();
    var one := [] + [ToRegister];
    NothingPending();
    DrawsNothing(Run(one), ToBegin.request);
    RunSnoc(one, ToBegin);
    Begins(Run(one));
    var two := one + [ToBegin];
    DrawsCode(Run(two), ToApprove.request);
    RunSnoc(two, ToApprove);
    Approves(Run(two));
    moves := two + [ToApprove];
  }

  lemma NothingPending()
    ensures Next(Start, ToRegister).memory.pending == map[]
  {}

  lemma EmptyRun()
    ensures FreshRun([]) && Run([]) == Start
  {}

  lemma DrawsNothing(w: World, q: Request)
    requires q.Register? || q.Begin?
    ensures FreshDraws(w, q) && Draws(q) == {}
  {}

  lemma DrawsCode(w: World, q: Request)
    requires q.Approve? && q.code !in w.drawn
    ensures FreshDraws(w, q) && Draws(q) == {q.code}
  {}

  /** A run in which the write of a code exchange fails: the memory holds the code as used, the file as usable, and
      after a restart the same code is exchanged, for the first time with success. */
  lemma CodeComesBack() returns (failed: seq<Move>, again: Move)
    ensures FreshRun(failed + [Restart] + [again]) && again.Serve? && again.request.ExchangeCode?
    ensures again.request.code == "code"
    ensures var w := Run(failed); !Usable(w.memory, "code") && Usable(w.disk, "code") && w.exchanged["code"] == 0
    ensures Run(failed + [Restart] + [again]).exchanged["code"] == 1
  {
    hide FreshDraws, Run, FreshRun;
    var issued := CodeIssued();
    var m := Serve(ExchangeCode("code", "client", "uri", "challenge", "access", "refresh"), 0, false);
    assert FreshDraws(Run(issued), m.request) by { DrawsPair(Run(issued), m.request); }
    RunSnoc(issued, m);
    failed := issued + [m];
    RunSnoc(failed, Restart);
    again := Serve(ExchangeCode("code", "client", "uri", "challenge", "access2", "refresh2"), 0, true);
    assert Run(failed).drawn == {"code", "access", "refresh"};
    assert FreshDraws(Run(failed + [Restart]), again.request) by { DrawsPair(Run(failed + [Restart]), again.request); }
    RunSnoc(failed + [Restart], again);
  }

  lemma DrawsPair(w: World, q: Request)
    requires q.ExchangeCode? && q.access !in w.drawn && q.refresh !in w.drawn && q.access != q.refresh
    ensures FreshDraws(w, q) && Draws(q) == {q.access, q.refresh}
  {}
}
