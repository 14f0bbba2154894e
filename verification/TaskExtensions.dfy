/** The sidecars of remote tasks (apps/web/src/control_extensions.rs). Field, size and token checks are left out. */
module TaskExtensions {
  import opened Wrappers
  import opened CanonicalJson

  const MAX_U64: nat := 0xFFFF_FFFF_FFFF_FFFF

  /** The four fields of a sidecar; an absent field is null. */
  datatype Fields = Fields(projectContext: Json, handoff: Json, provider: Json, review: Json)

  predicate ProperFields(f: Fields) {
    Proper(f.projectContext) && Proper(f.handoff) && Proper(f.provider) && Proper(f.review)
  }

  predicate NoField(f: Fields) {
    Blank(f.projectContext) == Null && Blank(f.handoff) == Null && Blank(f.provider) == Null && Blank(f.review) == Null
  }

  /** JSON values are compared field by field, object keys in any order. */
  predicate SameFields(a: Fields, b: Fields) {
    && Similar(a.projectContext, b.projectContext) && Similar(a.handoff, b.handoff)
    && Similar(a.provider, b.provider) && Similar(a.review, b.review)
  }

  datatype Sidecar = Sidecar(taskId: Id, executionId: Id, version: nat, fields: Fields)

  datatype PutReply = Stored(record: Sidecar) | EmptyExtension | Conflict | NotPersisted

  predicate MatchesPayload(s: Sidecar, executionId: Id, fields: Fields) {
    s.executionId == executionId && SameFields(s.fields, fields)
  }

  /** What `put` answers, and the records afterwards. */
  function PutOutcome(records: map<Id, Sidecar>, taskId: Id, executionId: Id, expected: Option<nat>, fields: Fields,
                      ok: bool): (map<Id, Sidecar>, PutReply) {
    var version := if taskId in records then records[taskId].version else 0;
    if NoField(fields) then (records, EmptyExtension)
    else if taskId in records && records[taskId].executionId != executionId then (records, Conflict)
    else if taskId in records && MatchesPayload(records[taskId], executionId, fields)
    then (records, Stored(records[taskId]))
    else if expected.Some? && expected.value != version then (records, Conflict)
    else if version >= MAX_U64 then (records, Conflict)
    else if !ok then (records, NotPersisted)
    else
      var record := Sidecar(taskId, executionId, version + 1, fields);
      (records[taskId := record], Stored(record))
  }

  class ExtensionStore {
    var records: map<Id, Sidecar>
    var files: map<Id, Sidecar>

    constructor ()
      ensures records == map[] && files == map[]
    {
      records, files := map[], map[];
    }

    method Persist(record: Sidecar, ok: bool)
      modifies this`files
      ensures files == if ok then old(files)[record.taskId := record] else old(files)
    {
      if ok { files := files[record.taskId := record]; }
    }

    method Put(taskId: Id, executionId: Id, expected: Option<nat>, fields: Fields, ok: bool) returns (reply: PutReply)
      modifies this
      ensures (records, reply) == PutOutcome(old(records), taskId, executionId, expected, fields, ok)
      ensures old(files) == old(records) ==> files == records
    {
      hide SameFields;
      if NoField(fields) { return EmptyExtension; }
      var version := 0;
      if taskId in records {
        var existing := records[taskId];
        if existing.executionId != executionId { return Conflict; }
        if MatchesPayload(existing, executionId, fields) { return Stored(existing); }
        version := existing.version;
      }
      if expected.Some? && expected.value != version { return Conflict; }
      if version >= MAX_U64 { return Conflict; }
      var record := Sidecar(taskId, executionId, version + 1, fields);
      Persist(record, ok);
      if !ok { return NotPersisted; }
      records := records[taskId := record];
      reply := Stored(record);
    }
  }

  // ----- what the store accepts

  predicate SomeField(f: Fields) {
    exists v :: v in [f.projectContext, f.handoff, f.provider, f.review] && v !in {Null, Undefined}
  }

  /** A sidecar is accepted if and only if it has a field and either is the stored one again, or no other execution has
      one for the task, the version is the expected one, if any, and the write succeeds; its version is then one more.
      Nothing else is ever changed. */
  lemma PutExactly(records: map<Id, Sidecar>, taskId: Id, executionId: Id, expected: Option<nat>, fields: Fields,
                   ok: bool)
    ensures var (now, reply) := PutOutcome(records, taskId, executionId, expected, fields, ok);
            var there := taskId in records;
            var again := there && records[taskId].executionId == executionId
                         && SameFields(records[taskId].fields, fields);
            var version := if there then records[taskId].version else 0;
            && (reply.Stored? <==>
                  SomeField(fields) && (again
                    || (ok && (there ==> records[taskId].executionId == executionId && version < MAX_U64)
                        && (match expected case None => true case Some(n) => n == version))))
            && (if !reply.Stored? then now == records
                else if again then now == records && reply.record == records[taskId]
                else reply.record == Sidecar(taskId, executionId, version + 1, fields)
                     && now == records[taskId := reply.record])
  {
    hide SameFields;
    assert NoField(fields) <==> !SomeField(fields) by {
      var all := [fields.projectContext, fields.handoff, fields.provider, fields.review];
      assert all[0] in all && all[1] in all && all[2] in all && all[3] in all;
    }
  }

  // ----- the comparison the client makes

  /** `None` is the answer for a task without a sidecar. */
  function ReplayMatches(existing: Option<Sidecar>, executionId: Id, fields: Fields): bool {
    && existing.Some? && existing.value.executionId == executionId
    && Print(Blank(existing.value.fields.projectContext)) == Print(Blank(fields.projectContext))
    && Print(Blank(existing.value.fields.handoff)) == Print(Blank(fields.handoff))
    && Print(Blank(existing.value.fields.provider)) == Print(Blank(fields.provider))
    && Print(Blank(existing.value.fields.review)) == Print(Blank(fields.review))
  }

  lemma BlankSimilar(v: Json, w: Json)
    requires Proper(v) && Proper(w)
    ensures Print(Blank(v)) == Print(Blank(w)) <==> Similar(v, w)
  {
    hide Proper;
    CanonicalText(v, w);
    assert Print(Blank(v)) == Print(v) && Print(Blank(w)) == Print(w);
  }

  /** The client's comparison of canonical texts agrees with the server's comparison of values. */
  lemma ClientAgreesWithServer(existing: Sidecar, executionId: Id, fields: Fields)
    requires ProperFields(existing.fields) && ProperFields(fields)
    ensures ReplayMatches(Some(existing), executionId, fields) <==> MatchesPayload(existing, executionId, fields)
  {
    hide Proper, Print, Similar, Blank;
    BlankSimilar(existing.fields.projectContext, fields.projectContext);
    BlankSimilar(existing.fields.handoff, fields.handoff);
    BlankSimilar(existing.fields.provider, fields.provider);
    BlankSimilar(existing.fields.review, fields.review);
  }

  lemma SameFieldsReflexive(f: Fields)
    requires ProperFields(f)
    ensures SameFields(f, f)
  {
    hide Proper, Print, Similar;
    CanonicalText(f.projectContext, f.projectContext);
    CanonicalText(f.handoff, f.handoff);
    CanonicalText(f.provider, f.provider);
    CanonicalText(f.review, f.review);
  }
}
