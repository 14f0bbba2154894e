/** The dispatch loop with its attempt and switch budgets (agent-routing-runtime/agent-runtime-orchestrator.ts:347-413,
    559-735). What an executor does with an attempt, and what the probes and metrics say before it, are inputs. */
module Failover {
  import opened Wrappers
  import opened Router

  datatype ResultStatus = CompleteResult | PartialResult | FailedResult | BlockedResult | UnknownResult

  datatype FailureClass = RetrySameExecutor | Reroute | WaitingHuman | Terminal | OutcomeUnknown

  /** An executor returns a result, which may declare its own failure, or throws; a thrown error is classed by its
      text. */
  datatype Outcome = Returned(status: ResultStatus, declared: Option<FailureClass>) | Threw(thrown: FailureClass)

  datatype Verdict = Verdict(switchEligible: bool, blameExecutor: bool, class_: Option<FailureClass>)

  function ClassifyFailure(o: Outcome): Verdict {
    match o
    case Threw(c) =>
      var class_ := if c == OutcomeUnknown || c == WaitingHuman then c else Reroute;
      Verdict(class_ == Reroute, class_ == Reroute, Some(class_))
    case Returned(status, declared) =>
      if declared.Some? then
        Verdict(declared.value == Reroute || declared.value == RetrySameExecutor, declared.value == Reroute, declared)
      else match status
        case CompleteResult => Verdict(false, false, None)
        case PartialResult => Verdict(false, false, None)
        case FailedResult => Verdict(true, true, Some(Reroute))
        case BlockedResult => Verdict(false, false, Some(WaitingHuman))
        case UnknownResult => Verdict(false, false, Some(OutcomeUnknown))
  }

  predicate Succeeded(o: Outcome) {
    o.Returned? && (o.status == CompleteResult || o.status == PartialResult)
  }

  /** The failures after which a task may be tried again: a result that declares itself so, a failed result that
      declares nothing, and an error that neither leaves the outcome unknown nor waits for a human. */
  predicate Retriable(o: Outcome) {
    || (o.Returned? && !Succeeded(o) && o.declared in {Some(Reroute), Some(RetrySameExecutor)})
    || o == Returned(FailedResult, None)
    || (o.Threw? && o.thrown !in {OutcomeUnknown, WaitingHuman})
  }

  /** The same failures but for a declared retry: the executor is not to be asked again. */
  predicate Blames(o: Outcome) {
    || (o.Returned? && o.declared == Some(Reroute))
    || o == Returned(FailedResult, None)
    || (o.Threw? && o.thrown !in {OutcomeUnknown, WaitingHuman})
  }

  /** What is stored with an attempt: a declared class is taken over, an outcome that may have happened stays
      unknown. */
  function StoredClass(o: Outcome): Option<FailureClass> {
    if Succeeded(o) then None
    else if o.Threw? then Some(if o.thrown in {OutcomeUnknown, WaitingHuman} then o.thrown else Reroute)
    else if o.declared.Some? then o.declared
    else if o.status == FailedResult then Some(Reroute)
    else if o.status == BlockedResult then Some(WaitingHuman)
    else Some(OutcomeUnknown)
  }

  /** The classification decides as the outcome says. */
  lemma Classified(o: Outcome)
    ensures !Succeeded(o) ==> (ClassifyFailure(o).switchEligible <==> Retriable(o))
    ensures ClassifyFailure(o).blameExecutor <==> Blames(o)
    ensures !Succeeded(o) ==> ClassifyFailure(o).class_ == StoredClass(o)
  {}

  datatype TaskState = Dispatched | Running | ResultReady | ReviewPending | Complete | Failed | Blocked | Unknown

  function StateForResult(s: ResultStatus, reviewRequired: bool): TaskState {
    match s
    case UnknownResult => Unknown
    case FailedResult => Failed
    case BlockedResult => Blocked
    case PartialResult => if reviewRequired then ReviewPending else ResultReady
    case CompleteResult => if reviewRequired then ReviewPending else Complete
  }

  datatype Routing = Routing(mode: Mode, requested: Option<Executor>)

  /** An explicit target is pinned unless the caller opts into preference; `None` is the refusal to pin nothing. */
  function ResolveRoutingMode(target: Option<Executor>, asked: Option<Mode>,
                              preferred: Option<Executor>): (r: Option<Routing>)
    ensures r.Some? ==> (r.value.mode == AutoMode <==> r.value.requested.None?)
    ensures r.None? <==> target.None? && asked == Some(Pinned)
    ensures r.Some? ==> (r.value.mode == Pinned <==> target.Some? && asked != Some(Preferred))
    ensures r.Some? ==> r.value.requested == if target.Some? then target else preferred
  {
    if target.Some? then Some(Routing(if asked == Some(Preferred) then Preferred else Pinned, target))
    else if asked == Some(Pinned) then None
    else if preferred.Some? then Some(Routing(Preferred, preferred))
    else Some(Routing(AutoMode, None))
  }

  /** `failedOver` says that another attempt was allowed to follow. */
  datatype Attempt =
    Attempt(number: nat, executor: Executor, outcome: Outcome, failureClass: Option<FailureClass>, failedOver: bool)

  /** The stored task: its state, the executor it is resolved to, its attempts. */
  datatype TaskRecord = TaskRecord(state: TaskState, target: Executor, attempts: seq<Attempt>)

  datatype End =
    | InvalidBudget | InvalidMode
    | NotRouted(decision: Decision)
    | FinishedWell
    | GaveResult
    | Raised
    | ExhaustedAttempts

  datatype Job = Job(
    taskType: TaskType, target: Option<Executor>, asked: Option<Mode>, preferred: Option<Executor>,
    reviewRequired: bool,
    maxAttempts: int, maxSwitches: int, catalog: seq<Candidate>,
    views: nat -> map<Executor, View>, acts: (nat, Executor) -> Outcome)

  /** The executors blamed by a chain of attempts. */
  function Blamed(attempts: seq<Attempt>): set<Executor> {
    set i | 0 <= i < |attempts| && Blames(attempts[i].outcome) :: attempts[i].executor
  }

  function RequestFor(j: Job, r: Routing, i: nat, exclusions: set<Executor>): Request {
    Request(j.taskType, r.mode, r.requested, {}, j.views(i), exclusions)
  }

  /** Whether another attempt may follow attempt number `i`, counted from zero. */
  predicate MayContinue(j: Job, r: Routing, i: nat, o: Outcome) {
    Retriable(o) && r.mode != Pinned && i < j.maxSwitches && i + 1 < j.maxAttempts
  }

  /** Each attempt went to the executor the router selects with the executors blamed before excluded; all but the last
      were followed because they were allowed to be. */
  predicate Chain(j: Job, r: Routing, attempts: seq<Attempt>) {
    forall i :: 0 <= i < |attempts| ==> Link(j, r, attempts, i)
  }

  predicate Link(j: Job, r: Routing, attempts: seq<Attempt>, i: nat)
    requires i < |attempts|
  {
    var d := Route(RequestFor(j, r, i, Blamed(attempts[..i])), j.catalog);
    var x := attempts[i];
    && d.Decision? && x.executor == d.selected && x.number == i + 1 && x.outcome == j.acts(i, x.executor)
    && x.failureClass == StoredClass(x.outcome) && x.failedOver == MayContinue(j, r, i, x.outcome)
    && (i < |attempts| - 1 ==> x.failedOver)
  }

  lemma ChainSnoc(j: Job, r: Routing, attempts: seq<Attempt>, x: Attempt)
    requires Chain(j, r, attempts) && (forall i :: 0 <= i < |attempts| ==> attempts[i].failedOver)
    requires Link(j, r, attempts + [x], |attempts|)
    ensures Chain(j, r, attempts + [x])
  {
    hide Route, MayContinue, Blamed, StoredClass;
    var t := attempts + [x];
    forall i | 0 <= i < |t| ensures Link(j, r, t, i) {
      if i < |attempts| {
        assert Link(j, r, attempts, i);
        assert t[..i] == attempts[..i] && t[i] == attempts[i];
      }
    }
  }

  lemma BlamedSnoc(attempts: seq<Attempt>, x: Attempt)
    ensures Blamed(attempts + [x])
            == Blamed(attempts) + if Blames(x.outcome) then {x.executor} else {}
  {
    hide Blames;
    var t := attempts + [x];
    forall e | e in Blamed(attempts) ensures e in Blamed(t) {
      var i :| 0 <= i < |attempts| && Blames(attempts[i].outcome) && attempts[i].executor == e;
      assert t[i] == attempts[i];
    }
    assert t[|attempts|] == x;
  }

  lemma NewLink(j: Job, r: Routing, before: seq<Attempt>, x: Attempt, exclusions: set<Executor>)
    requires exclusions == Blamed(before)
    requires var d := Route(RequestFor(j, r, |before|, exclusions), j.catalog);
             && d.Decision? && x.executor == d.selected && x.number == |before| + 1
             && x.outcome == j.acts(|before|, x.executor)
    requires x.failureClass == StoredClass(x.outcome) && x.failedOver == MayContinue(j, r, |before|, x.outcome)
    ensures Link(j, r, before + [x], |before|)
  {
    hide Route, Blamed, MayContinue, StoredClass;
    assert (before + [x])[..|before|] == before;
  }

  /** The attempts of a record, none when nothing was stored. */
  function AttemptsOf(record: Option<TaskRecord>): seq<Attempt> {
    if record.Some? then record.value.attempts else []
  }

  /** Between two attempts: each one made allowed the next to follow, and exactly the blamed executors are excluded. */
  ghost predicate Going(j: Job, r: Routing, a: seq<Attempt>, exclusions: set<Executor>) {
    Chain(j, r, a) && (forall i :: 0 <= i < |a| ==> a[i].failedOver) && exclusions == Blamed(a)
  }

  lemma NothingTried(j: Job, r: Routing)
    ensures Going(j, r, [], {})
  {}

  lemma SuccessIsFinal(o: Outcome)
    ensures Succeeded(o) ==> !Retriable(o) && StoredClass(o) == None
  {}

  /** What one attempt adds. */
  lemma Tried(j: Job, r: Routing, a: seq<Attempt>, exclusions: set<Executor>, x: Attempt)
    requires Going(j, r, a, exclusions)
    requires var d := Route(RequestFor(j, r, |a|, exclusions), j.catalog);
             && d.Decision?
             && var o := j.acts(|a|, d.selected);
             x == Attempt(|a| + 1, d.selected, o, StoredClass(o), MayContinue(j, r, |a|, o))
    ensures Chain(j, r, a + [x])
    ensures x.failedOver ==>
              Going(j, r, a + [x],
                    if Blames(x.outcome) then exclusions + {x.executor} else exclusions)
  {
    hide Route, MayContinue, Blames, StoredClass, Chain, Link, Blamed, RequestFor;
    NewLink(j, r, a, x, exclusions);
    ChainSnoc(j, r, a, x);
    BlamedSnoc(a, x);
  }

  lemma EndUnrouted(j: Job, r: Routing, record: Option<TaskRecord>, exclusions: set<Executor>, decision: Decision)
    requires Going(j, r, AttemptsOf(record), exclusions) && (record.Some? ==> TargetIsLast(record.value))
    requires decision == Route(RequestFor(j, r, |AttemptsOf(record)|, exclusions), j.catalog) && !decision.Decision?
    ensures Ended(j, r, NotRouted(decision), if record.Some? then Some(record.value.(state := Failed)) else None)
  {
    hide Route, Blamed, Chain, RequestFor;
  }

  lemma EndTried(j: Job, r: Routing, end: End, record: TaskRecord, x: Attempt)
    requires Chain(j, r, record.attempts) && TargetIsLast(record) && x == record.attempts[|record.attempts|-1]
    requires !x.failedOver
    requires end == if x.outcome.Threw? then Raised else if Succeeded(x.outcome) then FinishedWell else GaveResult
    requires record.state == if x.outcome.Returned? then StateForResult(x.outcome.status, j.reviewRequired) else Failed
    ensures Ended(j, r, end, Some(record))
  {
    hide Route, Blamed, Chain, StateForResult;
  }

  /** A fresh task is dispatched. The record is absent when nothing was ever stored. */
  method DispatchAgentTask(j: Job) returns (end: End, record: Option<TaskRecord>)
    ensures end.InvalidBudget? <==> j.maxAttempts < 1 || j.maxSwitches < 0
    ensures end.InvalidMode?
            <==> !(j.maxAttempts < 1 || j.maxSwitches < 0) && ResolveRoutingMode(j.target, j.asked, j.preferred).None?
    ensures end.InvalidBudget? || end.InvalidMode? ==> record.None?
    ensures !end.ExhaustedAttempts?
    ensures !end.InvalidBudget? && !end.InvalidMode? ==>
              Ended(j, ResolveRoutingMode(j.target, j.asked, j.preferred).value, end, record)
  {
    hide Route, Blamed, ClassifyFailure, Retriable, Blames, StoredClass, StateForResult, Chain, Link,
      ResolveRoutingMode, RequestFor, Going, Ended;
    if j.maxAttempts < 1 { return InvalidBudget, None; }
    if j.maxSwitches < 0 { return InvalidBudget, None; }
    var resolved := ResolveRoutingMode(j.target, j.asked, j.preferred);
    if resolved.None? { return InvalidMode, None; }
    var r := resolved.value;
    var exclusions: set<Executor> := {};
    var attempts, switches := 0, 0;
    record := None;
    NothingTried(j, r);
    while attempts < j.maxAttempts
      invariant 0 <= attempts == switches <= j.maxSwitches && attempts < j.maxAttempts
      invariant |AttemptsOf(record)| == attempts && (record.None? <==> attempts == 0)
      invariant Going(j, r, AttemptsOf(record), exclusions)
      invariant record.Some? ==> TargetIsLast(record.value)
      decreases j.maxAttempts - attempts
    {
      var decision := RouteTask(RequestFor(j, r, attempts, exclusions), j.catalog);
      if !decision.Decision? {
        EndUnrouted(j, r, record, exclusions, decision);
        if record.Some? { record := Some(record.value.(state := if attempts > 0 then Failed else Blocked)); }
        return NotRouted(decision), record;
      }
      var outcome := j.acts(attempts, decision.selected);
      var succeeded := Succeeded(outcome);
      var failure := ClassifyFailure(outcome);
      var canSwitch := failure.switchEligible && r.mode != Pinned && switches < j.maxSwitches &&
                       attempts + 1 < j.maxAttempts;
      var failureClass := if succeeded then None else failure.class_;
      var attempt := Attempt(attempts + 1, decision.selected, outcome, failureClass, !succeeded && canSwitch);
      Classified(outcome);
      SuccessIsFinal(outcome);
      Tried(j, r, AttemptsOf(record), exclusions, attempt);
      var state := if attempts == 0 then Dispatched else Running;
      record := Some(TaskRecord(state, decision.selected, AttemptsOf(record) + [attempt]));
      if outcome.Returned? {
        record := Some(record.value.(state := StateForResult(outcome.status, j.reviewRequired)));
      }
      if succeeded {
        EndTried(j, r, FinishedWell, record.value, attempt);
        return FinishedWell, record;
      }
      if !canSwitch {
        if outcome.Returned? {
          EndTried(j, r, GaveResult, record.value, attempt);
          return GaveResult, record;
        }
        record := Some(record.value.(state := Failed));
        EndTried(j, r, Raised, record.value, attempt);
        return Raised, record;
      }
      if failure.blameExecutor { exclusions := exclusions + {decision.selected}; }
      switches := switches + 1;
      attempts := attempts + 1;
    }
    end := ExhaustedAttempts;
  }

  predicate TargetIsLast(record: TaskRecord) {
    record.attempts != [] && record.target == record.attempts[|record.attempts|-1].executor
  }

  /** How a dispatch can end, and what is stored then. */
  ghost predicate Ended(j: Job, r: Routing, end: End, record: Option<TaskRecord>) {
    var attempts := AttemptsOf(record);
    && (record.Some? ==> TargetIsLast(record.value))
    && Chain(j, r, attempts)
    && (if end.NotRouted? then
          && (forall i :: 0 <= i < |attempts| ==> attempts[i].failedOver)
          && end.decision == Route(RequestFor(j, r, |attempts|, Blamed(attempts)), j.catalog) && !end.decision.Decision?
          && (record.Some? ==> record.value.state == Failed)
        else
          && record.Some? && !attempts[|attempts|-1].failedOver
          && var last := attempts[|attempts|-1].outcome;
          && (end.FinishedWell? <==> Succeeded(last))
          && (end.GaveResult? <==> !Succeeded(last) && last.Returned?)
          && (end.Raised? <==> last.Threw?)
          && record.value.state == if last.Returned? then StateForResult(last.status, j.reviewRequired) else Failed)
  }

  // ----- what every dispatch keeps

  ghost predicate AfterDispatch(j: Job, r: Routing, end: End, record: Option<TaskRecord>) {
    j.maxAttempts >= 1 && j.maxSwitches >= 0 && Ended(j, r, end, record)
  }

  /** At most the smaller of the attempt budget and one more than the switch budget. */
  lemma AttemptsAreBounded(j: Job, r: Routing, end: End, record: Option<TaskRecord>)
    requires AfterDispatch(j, r, end, record)
    ensures |AttemptsOf(record)| <= j.maxAttempts && |AttemptsOf(record)| <= j.maxSwitches + 1
  {
    hide Route, Blamed, Retriable, StoredClass;
    var a := AttemptsOf(record);
    if |a| >= 2 { assert Link(j, r, a, |a| - 2); }
  }

  /** A pinned task is attempted at most once, and only by the executor it is pinned to. */
  lemma PinnedIsTriedOnce(j: Job, r: Routing, end: End, record: Option<TaskRecord>)
    requires AfterDispatch(j, r, end, record) && r.mode == Pinned && r.requested.Some?
    ensures |AttemptsOf(record)| <= 1
    ensures AttemptsOf(record) != [] ==> Some(AttemptsOf(record)[0].executor) == r.requested
  {
    hide Route, Blamed, Retriable, StoredClass;
    var a := AttemptsOf(record);
    if |a| >= 1 {
      assert Link(j, r, a, 0);
      SelectionRule(RequestFor(j, r, 0, Blamed(a[..0])), j.catalog);
    }
  }

  /** An executor that was blamed is not selected again. */
  lemma BlamedIsNeverReselected(j: Job, r: Routing, end: End, record: Option<TaskRecord>, m: nat, n: nat)
    requires AfterDispatch(j, r, end, record) && m < n < |AttemptsOf(record)|
    requires (r.mode == AutoMode || r.requested.Some?)
    requires Blames(AttemptsOf(record)[m].outcome)
    ensures AttemptsOf(record)[n].executor != AttemptsOf(record)[m].executor
  {
    hide Route, Blames, StoredClass, MayContinue;
    var a := AttemptsOf(record);
    assert Link(j, r, a, n);
    assert a[..n][m] == a[m];
    assert a[m].executor in Blamed(a[..n]);
    SelectionRule(RequestFor(j, r, n, Blamed(a[..n])), j.catalog);
  }

  /** An attempt is followed by another, or by the search for one, if and only if the task is not pinned, both budgets
      allow it, and its outcome is one of the three that may be tried again; the class stored with it is then reroute or
      retry of the same executor. */
  lemma NextAttemptExactly(j: Job, r: Routing, end: End, record: Option<TaskRecord>, i: nat)
    requires AfterDispatch(j, r, end, record) && i < |AttemptsOf(record)|
    ensures var a := AttemptsOf(record);
            (i + 1 < |a| || end.NotRouted?) <==>
              Retriable(a[i].outcome) && r.mode != Pinned && i < j.maxSwitches && i + 1 < j.maxAttempts
    ensures var a := AttemptsOf(record);
            && a[i].failureClass == StoredClass(a[i].outcome)
            && (i + 1 < |a| || end.NotRouted? ==> a[i].failureClass in {Some(Reroute), Some(RetrySameExecutor)})
  {
    hide Route, Blamed;
    assert Link(j, r, AttemptsOf(record), i);
  }

  /** What is stored when no further executor is looked for: an error fails the task, an outcome that is not known stays
      so, a success that asks for a review waits for it. */
  lemma StoredState(j: Job, r: Routing, end: End, record: Option<TaskRecord>)
    requires AfterDispatch(j, r, end, record) && !end.NotRouted?
    ensures record.Some? && record.value.attempts != []
    ensures var last := record.value.attempts[|record.value.attempts|-1].outcome;
            && (record.value.state == Failed <==> last.Threw? || last.status == FailedResult)
            && (record.value.state == Blocked <==> last.Returned? && last.status == BlockedResult)
            && (record.value.state == Unknown <==> last.Returned? && last.status == UnknownResult)
            && (record.value.state == ReviewPending <==> Succeeded(last) && j.reviewRequired)
            && (record.value.state == Complete <==>
                  Succeeded(last) && !j.reviewRequired && last.status == CompleteResult)
            && (record.value.state == ResultReady <==>
                  Succeeded(last) && !j.reviewRequired && last.status == PartialResult)
  {
    hide Route, Blamed, Chain;
  }

  lemma BlamedMeans(a: seq<Attempt>, i: nat, e: Executor)
    requires i <= |a|
    ensures e in Blamed(a[..i]) <==> exists k :: 0 <= k < i && Blames(a[k].outcome) && a[k].executor == e
  {
    hide Blames;
    if k :| 0 <= k < i && Blames(a[k].outcome) && a[k].executor == e { assert a[..i][k] == a[k]; }
  }

  /** In automatic mode each attempt goes to an eligible executor of the highest score among those not blamed before. */
  lemma BestRemainingIsTried(j: Job, r: Routing, end: End, record: Option<TaskRecord>, i: nat)
    requires AfterDispatch(j, r, end, record) && r.mode == AutoMode && i < |AttemptsOf(record)|
    ensures var q := RequestFor(j, r, i, Blamed(AttemptsOf(record)[..i]));
            && (forall e :: e in q.exclusions <==>
                  exists k :: 0 <= k < i && Blames(AttemptsOf(record)[k].outcome)
                              && AttemptsOf(record)[k].executor == e)
            && Route(q, j.catalog).Decision? && AttemptsOf(record)[i].executor == Route(q, j.catalog).selected
            && forall x :: EntryOf(q, j.catalog, x) ==> x.score <= Route(q, j.catalog).score
  {
    hide Route, Blamed, Blames, StoredClass, MayContinue;
    assert Link(j, r, AttemptsOf(record), i);
    forall e ensures e in Blamed(AttemptsOf(record)[..i]) <==>
                       exists k :: 0 <= k < i && Blames(AttemptsOf(record)[k].outcome)
                                   && AttemptsOf(record)[k].executor == e {
      BlamedMeans(AttemptsOf(record), i, e);
    }
    SelectionRule(RequestFor(j, r, i, Blamed(AttemptsOf(record)[..i])), j.catalog);
  }

  /** A routing failure ends the task as failed when an attempt was made, and stores nothing when none was: the blocked
      state meant for a task that was never attempted is not reachable. */
  lemma RoutingFailureNeverBlocks(j: Job, r: Routing, end: End, record: Option<TaskRecord>)
    requires AfterDispatch(j, r, end, record) && end.NotRouted?
    ensures if AttemptsOf(record) == [] then record.None? else record.value.state == Failed
  {
    hide Route, Blamed, Chain;
  }
}
