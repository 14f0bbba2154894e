/** What a completion gate asks for, in terms of the event file (execution-runtime/runtime.ts:511-536). */
module Gates {
  import opened Wrappers
  import opened Contracts
  import opened Engine

  /** An artifact event of the step under the given assignment, of the given logical name, calls its artifact `name`. */
  predicate Produced(log: seq<Event>, stepId: Id, assignmentId: Option<Id>, logicalName: string, name: Id) {
    exists k :: 0 <= k < |log| && log[k].body.ArtifactProduced? && log[k].body.logicalName == logicalName
      && log[k].stepId == Some(stepId) && log[k].assignmentId == assignmentId
      && name == if log[k].body.artifactId.Some? then log[k].body.artifactId.value else log[k].eventId
  }

  predicate AllProduced(log: seq<Event>, stepId: Id, assignmentId: Option<Id>, logicalName: string, names: set<Id>) {
    forall name :: name in names ==> Produced(log, stepId, assignmentId, logicalName, name)
  }

  /** As many differently named artifacts as the output asks for, one if it does not say. */
  ghost predicate Delivered(log: seq<Event>, stepId: Id, assignmentId: Option<Id>, o: ExpectedOutput) {
    exists names: set<Id> ::
      && AllProduced(log, stepId, assignmentId, o.logicalName, names)
      && |names| >= (match o.minCount case Some(n) => n case None => 1)
  }

  ghost predicate AllDelivered(log: seq<Event>, stepId: Id, assignmentId: Option<Id>, outputs: seq<ExpectedOutput>) {
    forall o :: o in outputs && o.required ==> Delivered(log, stepId, assignmentId, o)
  }

  /** The step is being verified; a human review is of its present assignment and has a note; the required outputs are
      there whenever the gate or the review asks for them. */
  ghost predicate GateMet(s: Snapshot, log: seq<Event>, stepId: Id, e: Evidence)
    requires s.rt.steps.Keys == StepIds(s.def.steps)
  {
    && stepId in s.rt.steps && s.rt.steps[stepId].status == Verifying
    && var assignmentId, step := s.rt.steps[stepId].assignmentId, DefOf(s.def.steps, stepId);
    && (e.humanReview ==> e.assignmentId == assignmentId && e.note.Some?)
    && ("required_outputs" in step.completionGate || e.humanReview ==>
          AllDelivered(log, stepId, assignmentId, step.expectedOutputs))
  }

  lemma DeliveredExactly(log: seq<Event>, stepId: Id, assignmentId: Option<Id>, o: ExpectedOutput)
    ensures OutputPresent(log, stepId, assignmentId, o) <==> Delivered(log, stepId, assignmentId, o)
  {
    var all := Artifacts(log, stepId, assignmentId, o.logicalName);
    forall name ensures name in all <==> Produced(log, stepId, assignmentId, o.logicalName, name) {
      if Produced(log, stepId, assignmentId, o.logicalName, name) {
        var k :| 0 <= k < |log| && log[k].body.ArtifactProduced? && log[k].body.logicalName == o.logicalName
          && log[k].stepId == Some(stepId) && log[k].assignmentId == assignmentId
          && name == if log[k].body.artifactId.Some? then log[k].body.artifactId.value else log[k].eventId;
        assert log[k] in log;
      }
    }
    assert AllProduced(log, stepId, assignmentId, o.logicalName, all);
    forall names: set<Id> | AllProduced(log, stepId, assignmentId, o.logicalName, names) ensures |names| <= |all| {
      SubsetIsSmaller(names, all);
    }
  }

  lemma GateMetExactly(s: Snapshot, log: seq<Event>, stepId: Id, e: Evidence)
    requires s.rt.steps.Keys == StepIds(s.def.steps)
    ensures GateRefusal(s, log, stepId, e).None? <==> GateMet(s, log, stepId, e)
  {
    hide OutputPresent, Delivered;
    if stepId in s.rt.steps {
      forall o ensures OutputPresent(log, stepId, s.rt.steps[stepId].assignmentId, o)
                       <==> Delivered(log, stepId, s.rt.steps[stepId].assignmentId, o) {
        DeliveredExactly(log, stepId, s.rt.steps[stepId].assignmentId, o);
      }
    }
  }

  /** What was delivered stays delivered as the file grows. */
  lemma DeliveredLater(log: seq<Event>, more: seq<Event>, stepId: Id, assignmentId: Option<Id>, o: ExpectedOutput)
    requires log <= more && Delivered(log, stepId, assignmentId, o)
    ensures Delivered(more, stepId, assignmentId, o)
  {
    forall name | Produced(log, stepId, assignmentId, o.logicalName, name)
      ensures Produced(more, stepId, assignmentId, o.logicalName, name) {
      var k :| 0 <= k < |log| && log[k].body.ArtifactProduced? && log[k].body.logicalName == o.logicalName
        && log[k].stepId == Some(stepId) && log[k].assignmentId == assignmentId
        && name == if log[k].body.artifactId.Some? then log[k].body.artifactId.value else log[k].eventId;
      assert more[k] == log[k];
    }
    var names :| AllProduced(log, stepId, assignmentId, o.logicalName, names)
      && |names| >= (match o.minCount case Some(n) => n case None => 1);
    assert AllProduced(more, stepId, assignmentId, o.logicalName, names);
  }
}
