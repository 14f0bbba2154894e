/** The scoring router (agent-routing-runtime/intelligent-router.ts). The latency factor is an input between 0 and 1. */
module Router {
  import opened Wrappers

  datatype Executor = Codex | Gemini | Claude | Zero3Api

  datatype TaskType = Design | Implement | Verify | Fix | Review | Integrate | Research

  datatype Status = Ready | Offline | Unauthenticated | RateLimited | QuotaExhausted | Overloaded | Unregistered

  datatype Mode = AutoMode | Pinned | Preferred

  type Capability = string

  datatype Candidate = Candidate(executor: Executor, capabilities: set<Capability>, status: Status,
                                 contextAffinity: real, costWeight: real)

  datatype Health = Health(status: Option<Status>, available: bool, authenticated: Option<bool>)

  datatype Stats = Stats(attempts: nat, successRate: real, verifications: nat, verificationPassRate: real)

  /** What the router sees of one executor. */
  datatype View = View(health: Health, stats: Option<Stats>, latency: real)

  datatype Request = Request(
    taskType: TaskType, mode: Mode, requested: Option<Executor>, extraCapabilities: set<Capability>,
    views: map<Executor, View>, exclusions: set<Executor>)

  // ----- factors and score

  function Affinity(e: Executor, t: TaskType): real {
    match e
    case Codex => (match t case Design => 0.6 case Implement => 0.9 case Verify => 0.8 case Fix => 0.9
      case Review => 0.6 case Integrate => 0.85 case Research => 0.55)
    case Gemini => (match t case Design => 0.9 case Implement => 0.6 case Verify => 0.6 case Fix => 0.55
      case Review => 0.8 case Integrate => 0.55 case Research => 0.85)
    case Claude => (match t case Design => 0.75 case Implement => 0.85 case Verify => 0.7 case Fix => 0.85
      case Review => 0.85 case Integrate => 0.8 case Research => 0.75)
    case Zero3Api => (match t case Design => 0.75 case Implement => 0.3 case Verify => 0.4 case Fix => 0.25
      case Review => 0.7 case Integrate => 0.25 case Research => 0.8)
  }

  function RequiredBy(t: TaskType): set<Capability> {
    match t
    case Design => {}
    case Implement => {"repository_read", "repository_write"}
    case Verify => {"repository_read"}
    case Fix => {"repository_read", "repository_write"}
    case Review => {"code_review"}
    case Integrate => {"repository_read", "repository_write"}
    case Research => {"research"}
  }

  function Clamp(x: real): real { if x < 0.0 then 0.0 else if x > 1.0 then 1.0 else x }

  /** Three decimals, halves rounded up. */
  function Round3(x: real): real { (x * 1000.0 + 0.5).Floor as real / 1000.0 }

  function ViewFor(q: Request, e: Executor): View {
    if e in q.views then q.views[e] else View(Health(None, false, None), None, 1.0)
  }

  /** A catalog status other than ready wins; otherwise the live probe decides. */
  function EffectiveStatus(c: Candidate, h: Health): Status {
    if c.status != Ready then c.status
    else if h.status.Some? && h.status.value != Ready then h.status.value
    else if !h.available then Offline
    else if h.authenticated == Some(false) then Unauthenticated
    else Ready
  }

  function AvailabilityFactor(h: Health): real {
    if h.authenticated == Some(true) then 1.0 else 0.7
  }

  function HistoricalFactor(s: Option<Stats>): real {
    if s.None? || s.value.attempts == 0 then 0.5
    else
      var verified := if s.value.verifications > 0 then s.value.verificationPassRate else s.value.successRate;
      Clamp(s.value.successRate * 0.6 + verified * 0.4)
  }

  /** The score of a candidate that is ready. */
  function Score(q: Request, c: Candidate): real {
    var v := ViewFor(q, c.executor);
    Round3(Round3(Affinity(c.executor, q.taskType)) * 0.28
           + Round3(HistoricalFactor(v.stats)) * 0.22
           + Round3(Clamp(c.contextAffinity)) * 0.18
           + Round3(AvailabilityFactor(v.health)) * 0.12
           + Round3(Clamp(v.latency)) * 0.1
           + Round3(Clamp(c.costWeight)) * 0.1)
  }

  lemma Round3Range(x: real)
    requires 0.0 <= x <= 1.0
    ensures 0.0 <= Round3(x) <= 1.0
  {}

  lemma ScoreRange(q: Request, c: Candidate)
    ensures 0.0 <= Score(q, c) <= 1.0
  {
    var v := ViewFor(q, c.executor);
    hide Round3, HistoricalFactor;
    AffinityRange(c.executor, q.taskType);
    HistoryRange(v.stats);
    Round3Range(Affinity(c.executor, q.taskType));
    Round3Range(HistoricalFactor(v.stats));
    Round3Range(Clamp(c.contextAffinity));
    Round3Range(AvailabilityFactor(v.health));
    Round3Range(Clamp(v.latency));
    Round3Range(Clamp(c.costWeight));
    Round3Range(Round3(Affinity(c.executor, q.taskType)) * 0.28
                + Round3(HistoricalFactor(v.stats)) * 0.22
                + Round3(Clamp(c.contextAffinity)) * 0.18
                + Round3(AvailabilityFactor(v.health)) * 0.12
                + Round3(Clamp(v.latency)) * 0.1
                + Round3(Clamp(c.costWeight)) * 0.1);
  }

  lemma AffinityRange(e: Executor, t: TaskType)
    ensures 0.0 <= Affinity(e, t) <= 1.0
  {}

  lemma HistoryRange(s: Option<Stats>)
    ensures 0.0 <= HistoricalFactor(s) <= 1.0
  {}

  lemma Round3Near(x: real)
    ensures x - 0.0005 <= Round3(x) <= x + 0.0005
  {}

  /** Success and verification, weighted three to two; one half as long as nothing is known. */
  function History(s: Option<Stats>): real {
    match s
    case None => 0.5
    case Some(t) =>
      if t.attempts == 0 then 0.5
      else t.successRate * 0.6 + (if t.verifications == 0 then t.successRate else t.verificationPassRate) * 0.4
  }

  predicate Share(x: real) { 0.0 <= x <= 1.0 }

  /** All rates and weights are shares, as the metrics and the catalog give them. */
  predicate InShares(q: Request, c: Candidate) {
    && Share(c.contextAffinity) && Share(c.costWeight)
    && (c.executor in q.views ==>
          var v := q.views[c.executor];
          && Share(v.latency)
          && (v.stats.Some? ==> Share(v.stats.value.successRate) && Share(v.stats.value.verificationPassRate)))
  }

  /** The weighted sum of the unrounded factors; without a view there is neither history nor proof of a login, and the
      latency counts in full. */
  function Weighted(q: Request, c: Candidate): real {
    Affinity(c.executor, q.taskType) * 0.28 + c.contextAffinity * 0.18 + c.costWeight * 0.1
    + if c.executor !in q.views then 0.5 * 0.22 + 0.7 * 0.12 + 0.1
      else
        var v := q.views[c.executor];
        History(v.stats) * 0.22 + (if v.health.authenticated == Some(true) then 1.0 else 0.7) * 0.12 + v.latency * 0.1
  }

  /** Rounding each factor and then the score moves it by at most a thousandth from the weighted sum of the factors. */
  lemma ScoreIsTheWeightedSum(q: Request, c: Candidate)
    requires InShares(q, c)
    ensures Weighted(q, c) - 0.001 <= Score(q, c) <= Weighted(q, c) + 0.001
  {
    hide Round3, Affinity, HistoricalFactor;
    var v := ViewFor(q, c.executor);
    HistoryInShares(v.stats);
    Round3Near(Affinity(c.executor, q.taskType));
    Round3Near(HistoricalFactor(v.stats));
    Round3Near(c.contextAffinity);
    Round3Near(AvailabilityFactor(v.health));
    Round3Near(v.latency);
    Round3Near(c.costWeight);
    Round3Near(Round3(Affinity(c.executor, q.taskType)) * 0.28
               + Round3(HistoricalFactor(v.stats)) * 0.22
               + Round3(Clamp(c.contextAffinity)) * 0.18
               + Round3(AvailabilityFactor(v.health)) * 0.12
               + Round3(Clamp(v.latency)) * 0.1
               + Round3(Clamp(c.costWeight)) * 0.1);
  }

  lemma HistoryInShares(s: Option<Stats>)
    requires s.Some? ==> Share(s.value.successRate) && Share(s.value.verificationPassRate)
    ensures HistoricalFactor(s) == History(s)
  {}

  // ----- eligibility and order

  datatype Reason = Excluded | NotReady(status: Status) | Missing(capabilities: set<Capability>)

  function Rejection(q: Request, c: Candidate): Option<Reason> {
    var required := RequiredBy(q.taskType) + q.extraCapabilities;
    var status := EffectiveStatus(c, ViewFor(q, c.executor).health);
    if c.executor in q.exclusions then Some(Excluded)
    else if status != Ready then Some(NotReady(status))
    else if !(required <= c.capabilities) then Some(Missing(required - c.capabilities))
    else None
  }

  /** Not excluded, ready in the catalog, seen by a probe as available and not known to be logged out, and able to do
      what the task type and the request ask for. */
  predicate Qualified(q: Request, c: Candidate) {
    && c.executor !in q.exclusions && c.status == Ready && c.executor in q.views
    && var h := q.views[c.executor].health;
    && h.status in {None, Some(Ready)} && h.available && h.authenticated != Some(false)
    && RequiredBy(q.taskType) <= c.capabilities && q.extraCapabilities <= c.capabilities
  }

  lemma QualifiedExactly(q: Request, c: Candidate)
    ensures Rejection(q, c).None? <==> Qualified(q, c)
  {}

  datatype Scored = Scored(candidate: Candidate, score: real)

  datatype Rejected = Rejected(executor: Executor, reason: Reason)

  function Eligible(q: Request, catalog: seq<Candidate>): seq<Scored> {
    if catalog == [] then [] else
      var n := |catalog| - 1;
      Eligible(q, catalog[..n]) +
      if Rejection(q, catalog[n]).None? then [Scored(catalog[n], Score(q, catalog[n]))] else []
  }

  function Refusals(q: Request, catalog: seq<Candidate>): seq<Rejected> {
    if catalog == [] then [] else
      var n := |catalog| - 1;
      Refusals(q, catalog[..n]) +
      if Rejection(q, catalog[n]).Some? then [Rejected(catalog[n].executor, Rejection(q, catalog[n]).value)]
      else []
  }

  /** After every entry with at least its score. */
  function Place(x: Scored, s: seq<Scored>): seq<Scored> {
    if s == [] || s[|s|-1].score >= x.score then s + [x] else Place(x, s[..|s|-1]) + [s[|s|-1]]
  }

  /** By falling score, equal scores in the order in which they came. */
  function ByScore(s: seq<Scored>): seq<Scored> {
    if s == [] then [] else Place(s[|s|-1], ByScore(s[..|s|-1]))
  }

  predicate Falling(s: seq<Scored>) {
    forall i, j :: 0 <= i < j < |s| ==> s[i].score >= s[j].score
  }

  lemma FallingSnoc(s: seq<Scored>, x: Scored)
    requires Falling(s) && forall i :: 0 <= i < |s| ==> s[i].score >= x.score
    ensures Falling(s + [x])
  {}

  lemma {:induction false} PlaceFalling(x: Scored, s: seq<Scored>)
    requires Falling(s)
    ensures Falling(Place(x, s)) && multiset(Place(x, s)) == multiset(s) + multiset{x}
    ensures forall y :: y in Place(x, s) <==> y in s || y == x
    ensures |Place(x, s)| == |s| + 1
  {
    if s != [] {
      var n := |s| - 1;
      assert s == s[..n] + [s[n]];
      if s[n].score < x.score {
        PlaceFalling(x, s[..n]);
        var p := Place(x, s[..n]);
        forall i | 0 <= i < |p| ensures p[i].score >= s[n].score { assert p[i] in p; }
        FallingSnoc(p, s[n]);
      } else {
        FallingSnoc(s, x);
      }
    }
  }

  lemma {:induction false} ByScoreFalling(s: seq<Scored>)
    ensures Falling(ByScore(s)) && multiset(ByScore(s)) == multiset(s)
    ensures forall x :: x in ByScore(s) <==> x in s
    ensures |ByScore(s)| == |s|
  {
    if s != [] {
      var n := |s| - 1;
      assert s == s[..n] + [s[n]];
      ByScoreFalling(s[..n]);
      PlaceFalling(s[n], ByScore(s[..n]));
    }
  }

  // ----- the decision

  function FindExecutor(s: seq<Scored>, e: Executor): (r: Option<Scored>)
    ensures r.Some? ==> r.value in s && r.value.candidate.executor == e
    ensures r.None? ==> forall x :: x in s ==> x.candidate.executor != e
  {
    if s == [] then None
    else if s[0].candidate.executor == e then Some(s[0])
    else
      assert s == [s[0]] + s[1..];
      FindExecutor(s[1..], e)
  }

  /** The other eligible executors, best first. */
  function Fallback(s: seq<Scored>, selected: Executor): seq<Executor> {
    if s == [] then [] else
      (if s[0].candidate.executor == selected then [] else [s[0].candidate.executor]) + Fallback(s[1..], selected)
  }

  datatype Decision =
    | Decision(selected: Executor, score: real, fallback: seq<Executor>, rejected: seq<Rejected>)
    | InvalidRequest
    | PinnedUnavailable(rejected: seq<Rejected>)
    | NoEligibleExecutor(rejected: seq<Rejected>)

  function Decide(scored: seq<Scored>, x: Scored, rejected: seq<Rejected>): Decision {
    Decision(x.candidate.executor, x.score, Fallback(scored, x.candidate.executor), rejected)
  }

  function Route(q: Request, catalog: seq<Candidate>): Decision {
    var scored, rejected := ByScore(Eligible(q, catalog)), Refusals(q, catalog);
    if q.mode != AutoMode && q.requested.None? then InvalidRequest
    else
      var asked := if q.mode != AutoMode then FindExecutor(scored, q.requested.value) else None;
      if asked.Some? then Decide(scored, asked.value, rejected)
      else if q.mode == Pinned then PinnedUnavailable(rejected)
      else if scored == [] then NoEligibleExecutor(rejected)
      else Decide(scored, scored[0], rejected)
  }

  lemma PlaceStep(x: Scored, s: seq<Scored>, j: nat)
    requires 0 < j <= |s| && s[j-1].score < x.score && Place(x, s) == Place(x, s[..j]) + s[j..]
    ensures Place(x, s) == Place(x, s[..j-1]) + s[j-1..]
  {
    assert s[..j][..j-1] == s[..j-1] && s[..j][j-1] == s[j-1];
    assert [s[j-1]] + s[j..] == s[j-1..];
  }

  lemma PlaceWhole(x: Scored, s: seq<Scored>)
    ensures Place(x, s) == Place(x, s[..|s|]) + s[|s|..]
  {
    assert s[..|s|] == s && s[|s|..] == [];
  }

  /** Room was made at `j`, and the new entry put there. */
  lemma Placed(x: Scored, s: seq<Scored>, j: nat, t: seq<Scored>)
    requires j <= |s| && Place(x, s) == Place(x, s[..j]) + s[j..] && (j == 0 || s[j-1].score >= x.score)
    requires |t| == |s| + 1 && t[j] == x
    requires (forall k :: 0 <= k < j ==> t[k] == s[k]) && (forall k :: j < k <= |s| ==> t[k] == s[k-1])
    ensures t == Place(x, s)
  {
    assert Place(x, s[..j]) == s[..j] + [x];
    assert t == s[..j] + [x] + s[j..];
  }

  /** Moves the entry at `i` down to its place among the sorted entries before it. */
  method InsertAt(a: array<Scored>, i: nat)
    requires i < a.Length
    modifies a
    ensures a[..i+1] == Place(old(a[i]), old(a[..i]))
    ensures forall k :: i < k < a.Length ==> a[k] == old(a[k])
  {
    hide Place;
    var x, j := a[i], i;
    ghost var s := a[..i];
    PlaceWhole(x, s);
    while j > 0 && a[j-1].score < x.score
      invariant 0 <= j <= i
      invariant forall k :: 0 <= k < j ==> a[k] == s[k]
      invariant forall k :: j < k <= i ==> a[k] == s[k-1]
      invariant forall k :: i < k < a.Length ==> a[k] == old(a[k])
      invariant Place(x, s) == Place(x, s[..j]) + s[j..]
    {
      PlaceStep(x, s, j);
      a[j] := a[j-1];
      j := j - 1;
    }
    a[j] := x;
    Placed(x, s, j, a[..i+1]);
  }

  lemma ByScoreSnoc(s: seq<Scored>, i: nat)
    requires i < |s|
    ensures ByScore(s[..i+1]) == Place(s[i], ByScore(s[..i]))
  {
    assert s[..i+1][..i] == s[..i] && s[..i+1][i] == s[i];
  }

  /** The library sort, stable and in place. */
  method SortByScore(a: array<Scored>)
    modifies a
    ensures a[..] == ByScore(old(a[..]))
  {
    hide Place, ByScore;
    ghost var was := a[..];
    NothingSorted();
    for i := 0 to a.Length
      invariant a[..i] == ByScore(was[..i])
      invariant forall k :: i <= k < a.Length ==> a[k] == was[k]
    {
      InsertAt(a, i);
      ByScoreSnoc(was, i);
    }
    assert a[..a.Length] == a[..] && was[..a.Length] == was;
  }

  lemma NothingSorted()
    ensures ByScore([]) == []
  {}

  method RouteTask(q: Request, catalog: seq<Candidate>) returns (d: Decision)
    ensures d == Route(q, catalog)
  {
    if q.mode != AutoMode && q.requested.None? { return InvalidRequest; }
    var scored: seq<Scored>, rejected: seq<Rejected> := [], [];
    for i := 0 to |catalog|
      invariant scored == Eligible(q, catalog[..i]) && rejected == Refusals(q, catalog[..i])
    {
      var c := catalog[i];
      assert catalog[..i+1][..i] == catalog[..i];
      var required := RequiredBy(q.taskType) + q.extraCapabilities;
      if c.executor in q.exclusions {
        rejected := rejected + [Rejected(c.executor, Excluded)];
        continue;
      }
      var status := EffectiveStatus(c, ViewFor(q, c.executor).health);
      if status != Ready {
        rejected := rejected + [Rejected(c.executor, NotReady(status))];
        continue;
      }
      var missing := required - c.capabilities;
      NothingMissing(required, c.capabilities);
      if missing != {} {
        rejected := rejected + [Rejected(c.executor, Missing(missing))];
        continue;
      }
      scored := scored + [Scored(c, Score(q, c))];
    }
    assert catalog[..|catalog|] == catalog;
    var a := new Scored[|scored|](i requires 0 <= i < |scored| => scored[i]);
    assert a[..] == scored;
    SortByScore(a);
    scored := a[..];
    if q.mode == Pinned {
      var pinned := FindExecutor(scored, q.requested.value);
      if pinned.None? { return PinnedUnavailable(rejected); }
      return Decide(scored, pinned.value, rejected);
    }
    if q.mode == Preferred {
      var preferred := FindExecutor(scored, q.requested.value);
      if preferred.Some? { return Decide(scored, preferred.value, rejected); }
    }
    if scored == [] { return NoEligibleExecutor(rejected); }
    d := Decide(scored, scored[0], rejected);
  }

  lemma NothingMissing(required: set<Capability>, have: set<Capability>)
    ensures required - have == {} <==> required <= have
  {
    assert forall x :: x in required && x !in have ==> x in required - have;
  }

  // ----- what a decision promises

  predicate DistinctExecutors(catalog: seq<Candidate>) {
    forall i, j :: 0 <= i < j < |catalog| ==> catalog[i].executor != catalog[j].executor
  }

  predicate IsEligible(q: Request, catalog: seq<Candidate>, e: Executor) {
    exists i :: 0 <= i < |catalog| && catalog[i].executor == e && Rejection(q, catalog[i]).None?
  }

  predicate IsIneligible(q: Request, catalog: seq<Candidate>, e: Executor) {
    exists i :: 0 <= i < |catalog| && catalog[i].executor == e && Rejection(q, catalog[i]).Some?
  }

  predicate InCatalog(catalog: seq<Candidate>, e: Executor) {
    exists i :: 0 <= i < |catalog| && catalog[i].executor == e
  }

  /** The entry of an eligible candidate. */
  predicate EntryOf(q: Request, catalog: seq<Candidate>, x: Scored) {
    exists i :: 0 <= i < |catalog| && catalog[i] == x.candidate && x.score == Score(q, catalog[i])
                        && Rejection(q, catalog[i]).None?
  }

  predicate IsRejected(rejected: seq<Rejected>, e: Executor) {
    exists i :: 0 <= i < |rejected| && rejected[i].executor == e
  }

  lemma {:induction false} EligibleExactly(q: Request, catalog: seq<Candidate>, x: Scored)
    ensures x in Eligible(q, catalog) <==> EntryOf(q, catalog, x)
  {
    hide Score, Rejection;
    if catalog != [] {
      var front := catalog[..|catalog|-1];
      EligibleExactly(q, front, x);
      if EntryOf(q, front, x) {
        var i :| 0 <= i < |front| && front[i] == x.candidate && x.score == Score(q, front[i])
                 && Rejection(q, front[i]).None?;
        assert catalog[i] == front[i];
      }
      if EntryOf(q, catalog, x) {
        var i :| 0 <= i < |catalog| && catalog[i] == x.candidate && x.score == Score(q, catalog[i])
                 && Rejection(q, catalog[i]).None?;
        if i < |front| { assert front[i] == catalog[i]; }
      }
    }
  }

  lemma {:induction false} RefusedExactly(q: Request, catalog: seq<Candidate>, e: Executor)
    ensures IsRejected(Refusals(q, catalog), e) <==> IsIneligible(q, catalog, e)
  {
    hide Rejection;
    if catalog != [] {
      var front := catalog[..|catalog|-1];
      RefusedExactly(q, front, e);
      RefusedMore(q, catalog, e);
      if IsIneligible(q, front, e) {
        var i :| 0 <= i < |front| && front[i].executor == e && Rejection(q, front[i]).Some?;
        assert catalog[i] == front[i];
      }
      if IsIneligible(q, catalog, e) {
        var i :| 0 <= i < |catalog| && catalog[i].executor == e && Rejection(q, catalog[i]).Some?;
        if i < |front| { assert front[i] == catalog[i]; }
      }
    }
  }

  lemma RefusedMore(q: Request, catalog: seq<Candidate>, e: Executor)
    requires catalog != []
    ensures var last := catalog[|catalog|-1];
            IsRejected(Refusals(q, catalog), e) <==>
              IsRejected(Refusals(q, catalog[..|catalog|-1]), e) || (last.executor == e && Rejection(q, last).Some?)
  {
    hide Rejection;
    var a, b := Refusals(q, catalog[..|catalog|-1]), Refusals(q, catalog);
    if IsRejected(a, e) {
      var k :| 0 <= k < |a| && a[k].executor == e;
      assert b[k].executor == e;
    }
    if IsRejected(b, e) {
      var k :| 0 <= k < |b| && b[k].executor == e;
      if k < |a| { assert a[k].executor == e; }
    }
    if Rejection(q, catalog[|catalog|-1]).Some? { assert b[|a|].executor == catalog[|catalog|-1].executor; }
  }

  lemma {:induction false} FallbackExactly(s: seq<Scored>, selected: Executor)
    ensures forall e :: e in Fallback(s, selected) <==>
              e != selected && exists i :: 0 <= i < |s| && s[i].candidate.executor == e
  {
    if s != [] {
      FallbackExactly(s[1..], selected);
      forall e
        ensures e in Fallback(s, selected)
                <==> e != selected && exists i :: 0 <= i < |s| && s[i].candidate.executor == e {
        if e in Fallback(s[1..], selected) {
          var i :| 0 <= i < |s[1..]| && s[1..][i].candidate.executor == e;
          assert s[i+1].candidate.executor == e;
        }
        if i :| 0 <= i < |s| && s[i].candidate.executor == e {
          if i > 0 { assert s[1..][i-1].candidate.executor == e; }
        }
      }
    }
  }

  /** The selected executor and the others are what the decision says they are. */
  lemma DecisionFacts(q: Request, catalog: seq<Candidate>)
    requires Route(q, catalog).Decision?
    ensures var d := Route(q, catalog);
            exists x :: EntryOf(q, catalog, x) && x.candidate.executor == d.selected && x.score == d.score
    ensures var d := Route(q, catalog);
            forall e :: e in d.fallback <==> e != d.selected && IsEligible(q, catalog, e)
    ensures 0.0 <= Route(q, catalog).score <= 1.0
  {
    hide Score, Rejection;
    var scored := ByScore(Eligible(q, catalog));
    ByScoreFalling(Eligible(q, catalog));
    var d := Route(q, catalog);
    var x :| x in scored && x.candidate.executor == d.selected && x.score == d.score;
    EligibleExactly(q, catalog, x);
    ScoreRange(q, x.candidate);
    FallbackExactly(scored, d.selected);
    forall e
      ensures (exists i :: 0 <= i < |scored| && scored[i].candidate.executor == e) <==> IsEligible(q, catalog, e) {
      EntryExists(q, catalog, scored, e);
    }
  }

  lemma EntryExists(q: Request, catalog: seq<Candidate>, scored: seq<Scored>, e: Executor)
    requires forall x :: x in scored <==> x in Eligible(q, catalog)
    ensures (exists i :: 0 <= i < |scored| && scored[i].candidate.executor == e) <==> IsEligible(q, catalog, e)
  {
    hide Score, Rejection;
    if i :| 0 <= i < |scored| && scored[i].candidate.executor == e {
      EligibleExactly(q, catalog, scored[i]);
      var k :| 0 <= k < |catalog| && catalog[k] == scored[i].candidate && Rejection(q, catalog[k]).None?;
    }
    if IsEligible(q, catalog, e) {
      var k :| 0 <= k < |catalog| && catalog[k].executor == e && Rejection(q, catalog[k]).None?;
      var x := Scored(catalog[k], Score(q, catalog[k]));
      EligibleExactly(q, catalog, x);
      var i :| 0 <= i < |scored| && scored[i] == x;
    }
  }

  /** Selected, fallback and rejected executors divide the catalog: each executor is in exactly one of the three. */
  lemma DecisionDividesCatalog(q: Request, catalog: seq<Candidate>, e: Executor)
    requires DistinctExecutors(catalog) && Route(q, catalog).Decision?
    ensures var d := Route(q, catalog);
            && (InCatalog(catalog, e) <==> e == d.selected || e in d.fallback || IsRejected(d.rejected, e))
            && !(e in d.fallback && IsRejected(d.rejected, e)) && d.selected !in d.fallback
            && !IsRejected(d.rejected, d.selected)
  {
    hide Score, Rejection, Route;
    DecisionFacts(q, catalog);
    var d := Route(q, catalog);
    RejectedList(q, catalog);
    RefusedExactly(q, catalog, e); RefusedExactly(q, catalog, d.selected);
    SelectedEligible(q, catalog);
    OneVerdict(q, catalog, e); OneVerdict(q, catalog, d.selected);
  }

  lemma RejectedList(q: Request, catalog: seq<Candidate>)
    requires Route(q, catalog).Decision?
    ensures Route(q, catalog).rejected == Refusals(q, catalog)
  {
    hide Score, Rejection, ByScore;
  }

  lemma SelectedEligible(q: Request, catalog: seq<Candidate>)
    requires Route(q, catalog).Decision?
    ensures IsEligible(q, catalog, Route(q, catalog).selected)
  {
    hide Score, Rejection, Route;
    DecisionFacts(q, catalog);
    var d := Route(q, catalog);
    var x :| EntryOf(q, catalog, x) && x.candidate.executor == d.selected && x.score == d.score;
  }

  lemma OneVerdict(q: Request, catalog: seq<Candidate>, e: Executor)
    requires DistinctExecutors(catalog)
    ensures InCatalog(catalog, e) <==> IsEligible(q, catalog, e) || IsIneligible(q, catalog, e)
    ensures !(IsEligible(q, catalog, e) && IsIneligible(q, catalog, e))
  {
    hide Rejection;
    if i :| 0 <= i < |catalog| && catalog[i].executor == e {
      assert Rejection(q, catalog[i]).None? || Rejection(q, catalog[i]).Some?;
    }
  }

  /** A request that names no executor gets an eligible executor of the highest score, and so does one that prefers an
      executor that is not eligible; a preferred or pinned executor that is eligible is taken; a pinned one that is not
      is never replaced. */
  lemma SelectionRule(q: Request, catalog: seq<Candidate>)
    requires q.mode == AutoMode || q.requested.Some?
    ensures var d := Route(q, catalog);
            && (d.Decision? <==>
                  if q.mode == Pinned then IsEligible(q, catalog, q.requested.value)
                  else exists e :: IsEligible(q, catalog, e))
            && (d.Decision? && q.mode != AutoMode && IsEligible(q, catalog, q.requested.value) ==>
                  d.selected == q.requested.value)
            && (d.Decision? && (q.mode == AutoMode || !IsEligible(q, catalog, q.requested.value)) ==>
                  forall x :: EntryOf(q, catalog, x) ==> x.score <= d.score)
            && (d.Decision? ==> d.selected !in q.exclusions)
  {
    hide Score, Rejection;
    var scored := ByScore(Eligible(q, catalog));
    ByScoreFalling(Eligible(q, catalog));
    forall e
      ensures (exists i :: 0 <= i < |scored| && scored[i].candidate.executor == e) <==> IsEligible(q, catalog, e) {
      EntryExists(q, catalog, scored, e);
    }
    forall x | EntryOf(q, catalog, x) ensures x in scored { EligibleExactly(q, catalog, x); }
    if scored != [] { assert IsEligible(q, catalog, scored[0].candidate.executor); }
    if Route(q, catalog).Decision? {
      SelectedEligible(q, catalog);
      NotExcluded(q, catalog, Route(q, catalog).selected);
    }
  }

  lemma NotExcluded(q: Request, catalog: seq<Candidate>, e: Executor)
    requires IsEligible(q, catalog, e)
    ensures e !in q.exclusions
  {}
}
