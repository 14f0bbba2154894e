/** The append-only event file (execution-runtime/event-ledger.ts). A torn or unparsable line is not modelled. */
module EventLedger {
  import opened Wrappers
  import opened Contracts

  predicate Numbered(log: seq<Event>) {
    forall i :: 0 <= i < |log| ==> log[i].sequence == i + 1
  }

  predicate DistinctIds(log: seq<Event>) {
    forall i, j :: 0 <= i < j < |log| ==> log[i].eventId != log[j].eventId
  }

  predicate Sound(log: seq<Event>) {
    Numbered(log) && DistinctIds(log)
  }

  predicate Recorded(log: seq<Event>, id: Id) {
    exists i :: 0 <= i < |log| && log[i].eventId == id
  }

  /** The first event with the given id, as `find` returns it. */
  function Find(log: seq<Event>, id: Id): (r: Option<Event>)
    ensures r.None? <==> !Recorded(log, id)
    ensures r.Some? ==> r.value in log && r.value.eventId == id
    ensures r.Some? ==> forall e :: e in log && e.eventId == id && DistinctIds(log) ==> e == r.value
  {
    if log == [] then None
    else if log[0].eventId == id then Some(log[0])
    else
      assert log == [log[0]] + log[1..];
      assert forall i :: 0 <= i < |log[1..]| ==> log[1..][i] == log[i+1];
      Find(log[1..], id)
  }

  lemma FindSnoc(log: seq<Event>, e: Event)
    requires !Recorded(log, e.eventId)
    ensures Recorded(log + [e], e.eventId) && Find(log + [e], e.eventId) == Some(e)
  {
    var t := log + [e];
    assert t[|log|].eventId == e.eventId;
    var found := Find(t, e.eventId).value;
    var k :| 0 <= k < |t| && t[k] == found;
    assert k == |log|;
  }

  lemma SoundSnoc(log: seq<Event>, e: Event)
    requires Sound(log) && e.sequence == |log| + 1 && !Recorded(log, e.eventId)
    ensures Sound(log + [e])
  {}

  lemma SoundPrefix(log: seq<Event>, n: nat)
    requires Sound(log) && n <= |log|
    ensures Sound(log[..n])
  {}

  datatype AppendOutcome = Appended | Duplicate | Corrupt

  class EventFile {
    var lines: seq<Event>

    constructor ()
      ensures lines == []
    {
      lines := [];
    }

    /** `None` stands for the corruption error. */
    method Read() returns (events: Option<seq<Event>>)
      ensures events == if Sound(lines) then Some(lines) else None
    {
      var ids: set<Id> := {};
      var expected := 1;
      for i := 0 to |lines|
        invariant expected == i + 1
        invariant Sound(lines[..i])
        invariant forall id :: id in ids <==> exists k :: 0 <= k < i && lines[k].eventId == id
      {
        var event := lines[i];
        if event.sequence != expected { return None; }
        if event.eventId in ids { return None; }
        ids := ids + {event.eventId};
        expected := expected + 1;
      }
      assert lines[..|lines|] == lines;
      events := Some(lines);
    }

    method Append(event: Event) returns (outcome: AppendOutcome)
      modifies this
      ensures lines == if outcome == Appended then old(lines) + [event] else old(lines)
      ensures outcome == Appended <==>
                Sound(old(lines)) && event.sequence == |old(lines)| + 1 && !Recorded(old(lines), event.eventId)
      ensures outcome == Duplicate <==> Sound(old(lines)) && event in old(lines)
      ensures Sound(old(lines)) ==> Sound(lines)
    {
      var events := Read();
      if events.None? { return Corrupt; }
      var existing := Find(events.value, event.eventId);
      if existing.Some? {
        return if existing.value == event then Duplicate else Corrupt;
      }
      if event.sequence != |events.value| + 1 { return Corrupt; }
      SoundSnoc(lines, event);
      lines := lines + [event];
      outcome := Appended;
    }
  }
}
