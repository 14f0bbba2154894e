/** The memory server's event log and its paged catch-up (apps/memory-server/src/lib.rs:187-268, 896-961). The
    repository is the in-memory one, with an optional limit on the size of a page; validation of events is left out. */
module Catchup {
  import opened Wrappers

  datatype MemoryEvent = MemoryEvent(eventId: Id, project: Option<Id>, content: string)

  datatype Committed = Committed(sequence: nat, event: MemoryEvent)

  datatype AppendStatus = Accepted | Duplicate

  datatype AppendOutcome = AppendOutcome(status: AppendStatus, sequence: nat)

  predicate Numbered(events: seq<Committed>) {
    forall i :: 0 <= i < |events| ==> events[i].sequence == i + 1
  }

  predicate Subscribed(c: Committed, projects: set<Id>) {
    c.event.project.Some? && c.event.project.value in projects
  }

  /** The subscribed events numbered above `low` and up to `high`, in order. */
  function Select(events: seq<Committed>, low: int, high: int, projects: set<Id>): seq<Committed> {
    if events == [] then [] else
      var n := |events| - 1;
      Select(events[..n], low, high, projects)
      + if low < events[n].sequence <= high && Subscribed(events[n], projects) then [events[n]] else []
  }

  /** All subscribed events above a cursor. */
  function Wanted(events: seq<Committed>, cursor: int, projects: set<Id>): seq<Committed> {
    Select(events, cursor, |events|, projects)
  }

  function Page(events: seq<Committed>, cursor: int, projects: set<Id>, limit: Option<nat>): seq<Committed> {
    var all := Wanted(events, cursor, projects);
    if limit.Some? && limit.value < |all| then all[..limit.value] else all
  }

  // ----- selections

  predicate Increasing(s: seq<Committed>) {
    forall i, j :: 0 <= i < j < |s| ==> s[i].sequence < s[j].sequence
  }

  predicate Within(s: seq<Committed>, low: int, high: int) {
    forall i :: 0 <= i < |s| ==> low < s[i].sequence <= high
  }

  lemma {:induction false} SelectWithin(events: seq<Committed>, low: int, high: int, projects: set<Id>)
    requires Numbered(events)
    ensures Within(Select(events, low, high, projects), low, high)
    ensures Within(Select(events, low, high, projects), low, |events|)
  {
    hide Subscribed;
    if events != [] { SelectWithin(events[..|events|-1], low, high, projects); }
  }

  /** A selection is in order, in range, and complete. */
  lemma {:induction false} SelectFacts(events: seq<Committed>, low: int, high: int, projects: set<Id>)
    requires Numbered(events)
    ensures var s := Select(events, low, high, projects);
            && Within(s, low, high) && Increasing(s)
            && forall k :: 0 <= k < |events| && low < k + 1 <= high && Subscribed(events[k], projects) ==>
              events[k] in s
  {
    hide Subscribed;
    SelectWithin(events, low, high, projects);
    if events != [] {
      var front, x := events[..|events|-1], events[|events|-1];
      SelectFacts(front, low, high, projects);
      SelectWithin(front, low, high, projects);
      var s, t := Select(events, low, high, projects), Select(front, low, high, projects);
      assert s == t + if low < x.sequence <= high && Subscribed(x, projects) then [x] else [];
      forall k | 0 <= k < |events| && low < k + 1 <= high && Subscribed(events[k], projects) ensures events[k] in s {
        if k < |front| { assert front[k] == events[k] && events[k] in t; }
      }
    }
  }

  /** Exactly the events above `low` and up to `high` whose project is among those subscribed to. */
  lemma {:induction false} SelectedExactly(events: seq<Committed>, low: int, high: int, projects: set<Id>, c: Committed)
    ensures c in Select(events, low, high, projects) <==>
              c in events && low < c.sequence <= high
              && match c.event.project case None => false case Some(project) => project in projects
  {
    if events != [] {
      var n := |events| - 1;
      SelectedExactly(events[..n], low, high, projects, c);
      assert events == events[..n] + [events[n]];
    }
  }

  lemma {:induction false} SelectSplits(events: seq<Committed>, low: int, mid: int, high: int, projects: set<Id>)
    requires Numbered(events) && low <= mid <= high
    ensures Select(events, low, high, projects)
            == Select(events, low, mid, projects) + Select(events, mid, high, projects)
  {
    hide Subscribed;
    if events != [] {
      var front, x := events[..|events|-1], events[|events|-1];
      SelectSplits(front, low, mid, high, projects);
      SelectEmptyAbove(front, mid, high, projects);
      var a, b := Select(front, low, mid, projects), Select(front, mid, high, projects);
      assert (a + b) + [x] == a + (b + [x]);
      assert a + [] == a && b + [] == b && (a + b) + [] == a + b;
    }
  }

  lemma {:induction false} SelectEmptyAbove(events: seq<Committed>, low: int, high: int, projects: set<Id>)
    requires Numbered(events)
    ensures |events| <= low ==> Select(events, low, high, projects) == []
  {
    if events != [] {
      SelectEmptyAbove(events[..|events|-1], low, high, projects);
    }
  }

  /** Events appended later do not change a selection that ends before them. */
  lemma SelectStable(events: seq<Committed>, more: seq<Committed>, low: int, high: int, projects: set<Id>)
    requires Numbered(more) && events <= more && (high <= |events| || high <= low)
    ensures Select(more, low, high, projects) == Select(events, low, high, projects)
    decreases |more|
  {
    if |more| > |events| {
      SelectStable(events, more[..|more|-1], low, high, projects);
    } else {
      assert more == events;
    }
  }

  /** A nonempty page is everything wanted up to its last event, as much of it as the limit allows. */
  lemma PageIsSelection(events: seq<Committed>, cursor: int, projects: set<Id>, limit: Option<nat>)
    requires Numbered(events) && (limit.Some? ==> limit.value >= 1) && Page(events, cursor, projects, limit) != []
    ensures var p := Page(events, cursor, projects, limit); var next := p[|p|-1].sequence;
            && cursor < next <= |events| && p == Select(events, cursor, next, projects)
            && (match limit
                case None => p == Wanted(events, cursor, projects)
                case Some(n) => |p| <= n && (|p| < n ==> p == Wanted(events, cursor, projects)))
  {
    hide Select, Numbered;
    var all := Wanted(events, cursor, projects);
    var p := Page(events, cursor, projects, limit);
    SelectFacts(events, cursor, |events|, projects);
    var next := p[|p|-1].sequence;
    SelectSplits(events, cursor, next, |events|, projects);
    var a, b := Select(events, cursor, next, projects), Select(events, next, |events|, projects);
    SelectWithin(events, cursor, next, projects); SelectWithin(events, next, |events|, projects);
    CutPoint(all, a, b, |p|, next);
  }

  lemma OrderOf(s: seq<Committed>, i: nat, j: nat)
    requires Increasing(s) && i < |s| && j < |s|
    ensures s[i].sequence <= s[j].sequence <==> i <= j
  {}

  /** An increasing sequence is cut at a value in only one way. */
  lemma CutPoint(all: seq<Committed>, a: seq<Committed>, b: seq<Committed>, n: nat, next: nat)
    requires all == a + b && 1 <= n <= |all| && all[n-1].sequence == next && Increasing(all)
    requires (forall i :: 0 <= i < |a| ==> a[i].sequence <= next) && (forall i :: 0 <= i < |b| ==> b[i].sequence > next)
    ensures |a| == n && all[..n] == a
  {
    if a != [] { OrderOf(all, |a| - 1, n - 1); assert all[|a|-1] == a[|a|-1]; }
    if b != [] { OrderOf(all, |a|, n - 1); assert all[|a|] == b[0]; }
  }

  // ----- the repository

  /** The index knows the number of every recorded event id, and no other id. */
  predicate Indexed(events: seq<Committed>, byId: map<Id, nat>) {
    (forall i :: 0 <= i < |events| ==> Known(events, byId, i)) && (forall id :: id in byId ==> Points(events, byId, id))
  }

  predicate Known(events: seq<Committed>, byId: map<Id, nat>, i: nat)
    requires i < |events|
  {
    events[i].event.eventId in byId && byId[events[i].event.eventId] == i + 1
  }

  predicate Points(events: seq<Committed>, byId: map<Id, nat>, id: Id) {
    id in byId && 1 <= byId[id] <= |events| && events[byId[id]-1].event.eventId == id
  }

  predicate HasId(events: seq<Committed>, id: Id) {
    exists i :: 0 <= i < |events| && events[i].event.eventId == id
  }

  lemma IndexedIds(events: seq<Committed>, byId: map<Id, nat>, id: Id)
    requires Indexed(events, byId)
    ensures id in byId <==> HasId(events, id)
    ensures id in byId ==> 1 <= byId[id] <= |events| && events[byId[id]-1].event.eventId == id
  {
    if id in byId { assert Points(events, byId, id); }
    if HasId(events, id) {
      var i :| 0 <= i < |events| && events[i].event.eventId == id;
      assert Known(events, byId, i);
    }
  }

  lemma IndexedSnoc(events: seq<Committed>, byId: map<Id, nat>, c: Committed)
    requires Indexed(events, byId) && Numbered(events) && c.sequence == |events| + 1 && c.event.eventId !in byId
    ensures Indexed(events + [c], byId[c.event.eventId := c.sequence]) && Numbered(events + [c])
  {
    var t, m := events + [c], byId[c.event.eventId := c.sequence];
    forall i | 0 <= i < |t| ensures Known(t, m, i) {
      if i < |events| { assert Known(events, byId, i); }
    }
    forall id | id in m ensures Points(t, m, id) {
      if id != c.event.eventId { assert Points(events, byId, id); }
    }
  }

  class Repository {
    var sequence: nat
    var events: seq<Committed>
    var byId: map<Id, nat>

    ghost predicate Valid() reads this {
      sequence == |events| && Numbered(events) && Indexed(events, byId)
    }

    constructor ()
      ensures Valid() && events == []
    {
      sequence, events, byId := 0, [], map[];
    }

    /** An event id is recorded once; a repeated append is answered with the number of the first. */
    method Append(event: MemoryEvent) returns (outcome: AppendOutcome)
      requires Valid()
      modifies this
      ensures Valid() && old(events) <= events
      ensures outcome.status == Accepted <==> !HasId(old(events), event.eventId)
      ensures outcome.status == Accepted ==> events == old(events) + [Committed(|old(events)| + 1, event)]
      ensures outcome.status == Duplicate ==> events == old(events)
      ensures 1 <= outcome.sequence <= |events| && events[outcome.sequence-1].event.eventId == event.eventId
    {
      hide Numbered, Indexed, HasId;
      IndexedIds(events, byId, event.eventId);
      if event.eventId in byId {
        return AppendOutcome(Duplicate, byId[event.eventId]);
      }
      IndexedSnoc(events, byId, Committed(sequence + 1, event));
      sequence := sequence + 1;
      byId := byId[event.eventId := sequence];
      events := events + [Committed(sequence, event)];
      outcome := AppendOutcome(Accepted, sequence);
    }

    method EventsAfter(cursor: int, projects: set<Id>, limit: Option<nat>) returns (page: seq<Committed>)
      requires Valid()
      ensures page == Page(events, cursor, projects, limit)
    {
      page := [];
      for i := 0 to |events|
        invariant page == Select(events[..i], cursor, |events|, projects)
      {
        assert events[..i+1][..i] == events[..i];
        var item := events[i];
        if item.sequence > cursor && Subscribed(item, projects) { page := page + [item]; }
      }
      assert events[..|events|] == events;
      if limit.Some? && limit.value < |page| { page := page[..limit.value]; }
    }
  }

  // ----- one socket

  datatype Frame = Frame(fromSequence: nat, toSequence: nat, events: seq<Committed>)

  function Sent(frames: seq<Frame>): seq<Committed> {
    if frames == [] then [] else Sent(frames[..|frames|-1]) + frames[|frames|-1].events
  }

  predicate FramesOk(frames: seq<Frame>) {
    forall i :: 0 <= i < |frames| ==> FrameOk(frames[i])
  }

  predicate FrameOk(f: Frame) {
    f.events != [] && f.fromSequence == f.events[0].sequence && f.toSequence == f.events[|f.events|-1].sequence
  }

  lemma SentSnoc(frames: seq<Frame>, f: Frame)
    ensures Sent(frames + [f]) == Sent(frames) + f.events
  {
    assert (frames + [f])[..|frames|] == frames;
  }

  datatype CatchupEnd = CaughtUp | SendFailed | NonMonotonic

  class Session {
    const repo: Repository
    const projects: set<Id>
    const limit: Option<nat>
    const start: int
    var cursor: int
    var frames: seq<Frame>

    constructor (repo: Repository, projects: set<Id>, limit: Option<nat>, start: int)
      requires repo.Valid() && (limit.Some? ==> limit.value >= 1)
      ensures this.repo == repo && this.projects == projects && this.limit == limit && this.start == start
      ensures Valid() && frames == []
    {
      this.repo, this.projects, this.limit, this.start, cursor, frames := repo, projects, limit, start, start, [];
      new;
      NothingBetween(repo.events, start, projects);
    }

    /** What was sent so far is exactly what was subscribed to between the first cursor and the present one; this
        survives whatever is appended meanwhile. */
    ghost predicate Valid() reads this, repo {
      && repo.Valid() && (limit.Some? ==> limit.value >= 1)
      && (cursor == start || start < cursor <= |repo.events|)
      && Sent(frames) == Select(repo.events, start, cursor, projects) && FramesOk(frames)
    }

    /** `arrivals` are the events other clients append before each page is read; the send of page `failing` fails. */
    method SendCatchup(arrivals: seq<seq<MemoryEvent>>, failing: Option<nat>) returns (end: CatchupEnd)
      requires Valid()
      modifies this`cursor, this`frames, repo
      ensures Valid() && end != NonMonotonic
      ensures old(repo.events) <= repo.events && old(frames) <= frames
      ensures end == CaughtUp ==> Sent(frames) == Wanted(repo.events, start, projects)
      ensures end == SendFailed ==> failing.Some?
    {
      hide Select, Page, Wanted, Numbered, Sent;
      var k := 0;
      while true
        invariant Valid() && old(repo.events) <= repo.events && old(frames) <= frames
        decreases if k < |arrivals| then |arrivals| - k else 0,
                  if cursor < |repo.events| then |repo.events| - cursor else 0
      {
        if k < |arrivals| {
          PublishAll(arrivals[k]);
        }
        var page := repo.EventsAfter(cursor, projects, limit);
        if page == [] {
          AllSent(repo.events, start, cursor, projects, limit);
          return CaughtUp;
        }
        var next := page[|page|-1].sequence;
        PageIsSelection(repo.events, cursor, projects, limit);
        if next <= cursor { return NonMonotonic; }
        if failing == Some(k) { return SendFailed; }
        var frame := Frame(page[0].sequence, next, page);
        SentSnoc(frames, frame);
        SelectSplits(repo.events, start, cursor, next, projects);
        frames := frames + [frame];
        cursor := next;
        k := k + 1;
      }
    }

    method PublishAll(events: seq<MemoryEvent>)
      requires Valid()
      modifies repo
      ensures Valid() && old(repo.events) <= repo.events
    {
      hide Numbered, Indexed, Select, HasId, FramesOk, Sent;
      for i := 0 to |events|
        invariant Valid() && old(repo.events) <= repo.events
      {
        ghost var was := repo.events;
        var outcome := repo.Append(events[i]);
        SelectStable(was, repo.events, start, cursor, projects);
      }
    }
  }

  /** When nothing is wanted above the cursor, what lies between the first cursor and this one is all. */
  lemma AllSent(events: seq<Committed>, start: int, cursor: int, projects: set<Id>, limit: Option<nat>)
    requires Numbered(events) && (cursor == start || start < cursor <= |events|) && (limit.Some? ==> limit.value >= 1)
    requires Page(events, cursor, projects, limit) == []
    ensures Select(events, start, cursor, projects) == Wanted(events, start, projects)
  {
    assert Wanted(events, cursor, projects) == [];
    if cursor <= |events| {
      SelectSplits(events, start, cursor, |events|, projects);
    } else {
      SelectEmptyAbove(events, start, cursor, projects);
      SelectEmptyAbove(events, start, |events|, projects);
    }
  }

  lemma {:induction false} NothingBetween(events: seq<Committed>, cursor: int, projects: set<Id>)
    ensures Select(events, cursor, cursor, projects) == []
  {
    if events != [] { NothingBetween(events[..|events|-1], cursor, projects); }
  }

  // ----- the life of a socket

  datatype Feed = Feed(events: seq<Committed>, start: int, cursor: int, frames: seq<Frame>)

  /** An event is appended by anyone, or the socket is sent the next page. */
  datatype Step = Grow(event: MemoryEvent) | SendPage

  function Next(f: Feed, s: Step, projects: set<Id>, limit: Option<nat>): Feed {
    match s
    case Grow(event) => f.(events := f.events + [Committed(|f.events| + 1, event)])
    case SendPage =>
      var page := Page(f.events, f.cursor, projects, limit);
      if page == [] then f
      else
        var next := page[|page|-1].sequence;
        f.(cursor := next, frames := f.frames + [Frame(page[0].sequence, next, page)])
  }

  function Life(f: Feed, steps: seq<Step>, projects: set<Id>, limit: Option<nat>): Feed {
    if steps == [] then f else Next(Life(f, steps[..|steps|-1], projects, limit), steps[|steps|-1], projects, limit)
  }

  predicate FeedOk(f: Feed, projects: set<Id>) {
    Numbered(f.events) && (f.cursor == f.start || f.start < f.cursor <= |f.events|)
    && Sent(f.frames) == Select(f.events, f.start, f.cursor, projects)
  }

  lemma NextOk(f: Feed, s: Step, projects: set<Id>, limit: Option<nat>)
    requires FeedOk(f, projects) && (limit.Some? ==> limit.value >= 1)
    ensures FeedOk(Next(f, s, projects, limit), projects)
  {
    hide Select, Page, Sent;
    match s
    case Grow(event) => SelectStable(f.events, Next(f, s, projects, limit).events, f.start, f.cursor, projects);
    case SendPage =>
      var page := Page(f.events, f.cursor, projects, limit);
      if page != [] {
        PageIsSelection(f.events, f.cursor, projects, limit);
        var next := page[|page|-1].sequence;
        SentSnoc(f.frames, Frame(page[0].sequence, next, page));
        SelectSplits(f.events, f.start, f.cursor, next, projects);
      }
  }

  /** However appends and pages interleave, the pages sent so far are one selection, without gap or repeat; and whenever
      a page comes out empty they are exactly the subscribed events above the first cursor. */
  lemma {:induction false} PagesAreOneFilter(f: Feed, steps: seq<Step>, projects: set<Id>, limit: Option<nat>)
    requires Numbered(f.events) && f.cursor == f.start && f.frames == [] && (limit.Some? ==> limit.value >= 1)
    ensures var g := Life(f, steps, projects, limit);
            && FeedOk(g, projects) && g.start == f.start
            && Increasing(Sent(g.frames))
            && (Page(g.events, g.cursor, projects, limit) == [] ==>
                  Sent(g.frames) == Wanted(g.events, f.start, projects))
            && (Page(g.events, g.cursor, projects, limit) == [] ==>
                  forall c :: c in Sent(g.frames) <==>
                    c in g.events && f.start < c.sequence
                    && match c.event.project case None => false case Some(project) => project in projects)
  {
    hide Select, Page, Next, Numbered, Subscribed;
    if steps == [] {
      NothingBetween(f.events, f.start, projects);
    } else {
      var h := Life(f, steps[..|steps|-1], projects, limit);
      PagesAreOneFilter(f, steps[..|steps|-1], projects, limit);
      NextOk(h, steps[|steps|-1], projects, limit);
      StartKept(h, steps[|steps|-1], projects, limit);
    }
    var g := Life(f, steps, projects, limit);
    SelectFacts(g.events, g.start, g.cursor, projects);
    if Page(g.events, g.cursor, projects, limit) == [] {
      AllSent(g.events, g.start, g.cursor, projects, limit);
      forall c { SelectedExactly(g.events, g.start, |g.events|, projects, c); }
      NumberedUpTo(g.events);
    }
  }

  lemma NumberedUpTo(events: seq<Committed>)
    requires Numbered(events)
    ensures forall c :: c in events ==> 1 <= c.sequence <= |events|
  {}

  lemma StartKept(f: Feed, s: Step, projects: set<Id>, limit: Option<nat>)
    ensures Next(f, s, projects, limit).start == f.start
  {
    hide Page;
  }
}
