/** The workflow graph and its depth-first validator (scheduler.ts:18-49). */
module Dag {
  import opened Wrappers
  import opened Contracts

  // ----- what a valid graph is, without reference to any traversal

  ghost predicate Edge(steps: seq<StepDef>, a: Id, b: Id) {
    exists s :: s in steps && s.stepId == a && b in s.dependsOn
  }

  ghost predicate Walk(steps: seq<StepDef>, p: seq<Id>) {
    forall i :: 0 <= i < |p| - 1 ==> Edge(steps, p[i], p[i+1])
  }

  ghost predicate Cycle(steps: seq<StepDef>, p: seq<Id>) {
    |p| >= 2 && Walk(steps, p) && p[0] == p[|p|-1]
  }

  ghost predicate Acyclic(steps: seq<StepDef>) {
    forall p :: !Cycle(steps, p)
  }

  predicate KnownDeps(steps: seq<StepDef>) {
    forall s :: s in steps ==> forall d :: d in s.dependsOn ==> d in StepIds(steps)
  }

  ghost predicate ValidDag(steps: seq<StepDef>) {
    UniqueIds(steps) && KnownDeps(steps) && Acyclic(steps)
  }

  /** Every step of `order` comes after all of its dependencies. */
  ghost predicate Topological(steps: seq<StepDef>, order: seq<Id>) {
    forall i, b :: 0 <= i < |order| && Edge(steps, order[i], b) ==> b in order[..i]
  }

  function Position(order: seq<Id>, id: Id): (k: nat)
    requires id in order
    ensures k < |order| && order[k] == id
    ensures forall j :: 0 <= j < |order| && order[j] == id ==> k <= j
  {
    if order[0] == id then 0 else
      assert order == [order[0]] + order[1..];
      var k := 1 + Position(order[1..], id);
      assert forall j :: 0 <= j < |order| && order[j] == id ==> j > 0 && order[1..][j-1] == id;
      k
  }

  /** Along a walk the rank given by a topological order strictly falls. */
  lemma {:induction false} RankFalls(steps: seq<StepDef>, order: seq<Id>, p: seq<Id>)
    requires Topological(steps, order) && Walk(steps, p) && |p| >= 2 && p[0] in order
    ensures p[|p|-1] in order && Position(order, p[|p|-1]) < Position(order, p[0])
  {
    var k := Position(order, p[0]);
    assert Edge(steps, order[k], p[1]);
    assert p[1] in order[..k];
    var j :| 0 <= j < k && order[j] == p[1];
    assert Position(order, p[1]) <= j;
    if |p| > 2 {
      forall i | 0 <= i < |p[1..]| - 1 ensures Edge(steps, p[1..][i], p[1..][i+1]) {
        assert Edge(steps, p[i+1], p[i+2]);
      }
      RankFalls(steps, order, p[1..]);
    }
  }

  lemma TopologicalIsAcyclic(steps: seq<StepDef>, order: seq<Id>)
    requires Topological(steps, order)
    requires forall id :: id in StepIds(steps) ==> id in order
    ensures Acyclic(steps)
  {
    forall p ensures !Cycle(steps, p) {
      if Cycle(steps, p) {
        assert Edge(steps, p[0], p[1]);
        RankFalls(steps, order, p);
      }
    }
  }

  /** In an acyclic graph every nonempty set of steps has a member none of whose dependencies is in the set. */
  lemma MinimalStep(steps: seq<StepDef>, s: set<Id>) returns (m: Id)
    requires Acyclic(steps) && s != {}
    ensures m in s && forall b :: b in s ==> !Edge(steps, m, b)
  {
    var a :| a in s;
    m := Descend(steps, s, [a]);
  }

  lemma {:induction false} Descend(steps: seq<StepDef>, s: set<Id>, p: seq<Id>) returns (m: Id)
    requires Acyclic(steps) && |p| >= 1 && Walk(steps, p)
    requires forall x :: x in p ==> x in s
    requires forall i, j :: 0 <= i < j < |p| ==> p[i] != p[j]
    ensures m in s && forall b :: b in s ==> !Edge(steps, m, b)
    decreases |s| - |p|
  {
    DistinctBound(p, s);
    var last := p[|p|-1];
    if b :| b in s && Edge(steps, last, b) {
      if b in p {
        var k :| 0 <= k < |p| && p[k] == b;
        assert Cycle(steps, p[k..] + [b]);
        assert false;
      } else {
        DistinctBound(p + [b], s);
        m := Descend(steps, s, p + [b]);
      }
    } else {
      m := last;
    }
  }

  lemma {:induction false} DistinctBound<T>(p: seq<T>, s: set<T>)
    requires forall x :: x in p ==> x in s
    requires forall i, j :: 0 <= i < j < |p| ==> p[i] != p[j]
    ensures |p| <= |s|
  {
    if p != [] {
      var q := p[..|p|-1];
      forall x | x in q ensures x in s - {p[|p|-1]} {
        var i :| 0 <= i < |q| && q[i] == x;
      }
      DistinctBound(q, s - {p[|p|-1]});
    }
  }

  // ----- the validator

  datatype DagError =
    | DuplicateStepId(id: Id)
    | SelfDependency(step: Id)
    | UnknownDependency(from: Id, dependency: Id)
    | CycleDetected(path: seq<Id>)

  ghost predicate Repeated(steps: seq<StepDef>, id: Id) {
    exists i, j :: 0 <= i < j < |steps| && steps[i].stepId == id && steps[j].stepId == id
  }

  /** What the two scans before the traversal must report, and nothing else apart from cycles. */
  ghost predicate Scanned(steps: seq<StepDef>, errors: seq<DagError>) {
    && (forall id :: DuplicateStepId(id) in errors <==> Repeated(steps, id))
    && (forall id :: SelfDependency(id) in errors <==> Edge(steps, id, id))
    && (forall a, b :: UnknownDependency(a, b) in errors <==> Edge(steps, a, b) && a != b && b !in StepIds(steps))
  }

  ghost predicate NoCycleFound(errors: seq<DagError>) {
    forall e :: e in errors ==> !e.CycleDetected?
  }

  ghost predicate CyclesAreReal(steps: seq<StepDef>, errors: seq<DagError>) {
    forall p :: CycleDetected(p) in errors ==> Cycle(steps, p)
  }

  /** `now` extends `was` by cycles only. */
  ghost predicate OnlyCyclesAdded(was: seq<DagError>, now: seq<DagError>) {
    && (NoCycleFound(now) ==> NoCycleFound(was))
    && (forall e: DagError :: !e.CycleDetected? ==> (e in now <==> e in was))
  }

  ghost predicate Indexed(steps: seq<StepDef>, byId: map<Id, StepDef>) {
    forall id :: id in byId ==> byId[id] in steps && byId[id].stepId == id
  }

  /** `finished` lists `visited`, every step after its known dependencies. */
  ghost predicate Ordered(byId: map<Id, StepDef>, finished: seq<Id>) {
    forall i, d :: 0 <= i < |finished| && finished[i] in byId && d in byId[finished[i]].dependsOn && d in byId ==>
      d in finished[..i]
  }

  lemma OrderedSnoc(byId: map<Id, StepDef>, finished: seq<Id>, id: Id)
    requires Ordered(byId, finished) && id in byId
    requires forall d :: d in byId[id].dependsOn && d in byId ==> d in finished
    ensures Ordered(byId, finished + [id])
  {
    var f := finished + [id];
    forall i, d | 0 <= i < |f| && f[i] in byId && d in byId[f[i]].dependsOn && d in byId ensures d in f[..i] {
      if i < |finished| { assert f[..i] == finished[..i]; } else { assert f[..i] == finished; }
    }
  }

  lemma CycleHere(steps: seq<StepDef>, path: seq<Id>, id: Id, start: nat)
    requires Walk(steps, path + [id]) && start < |path| && path[start] == id
    ensures Cycle(steps, path[start..] + [id])
  {
    var p, c := path + [id], path[start..] + [id];
    assert forall i :: 0 <= i < |c| ==> c[i] == p[start + i];
    forall i | 0 <= i < |c| - 1 ensures Edge(steps, c[i], c[i+1]) {
      assert Edge(steps, p[start + i], p[start + i + 1]);
    }
  }

  lemma WalkSnoc(steps: seq<StepDef>, p: seq<Id>, b: Id)
    requires Walk(steps, p) && |p| > 0 && Edge(steps, p[|p|-1], b)
    ensures Walk(steps, p + [b])
  {}

  /** One run of the validator: the closure variables `byId`, `errors`, `visiting` and `visited`. */
  class DagValidator {
    const steps: seq<StepDef>
    var byId: map<Id, StepDef>
    var errors: seq<DagError>
    var visiting: set<Id>
    var visited: set<Id>
    ghost var finished: seq<Id>  // the visited steps in the order in which their visit ended

    ghost predicate Sound()
      reads this
    {
      && Indexed(steps, byId)
      && visiting !! visited
      && visiting + visited <= byId.Keys
      && (forall id :: id in finished <==> id in visited)
      && CyclesAreReal(steps, errors)
      && (NoCycleFound(errors) ==> Ordered(byId, finished))
    }

    constructor (steps: seq<StepDef>)
      ensures this.steps == steps && byId == map[] && errors == [] && visiting == {} && visited == {} && finished == []
    {
      this.steps := steps;
      byId, errors, visiting, visited, finished := map[], [], {}, {}, [];
    }

    method ScanIds()
      requires byId == map[] && errors == []
      modifies this`byId, this`errors
      ensures byId.Keys == StepIds(steps) && Indexed(steps, byId)
      ensures forall e :: e in errors ==> e.DuplicateStepId?
      ensures forall id :: DuplicateStepId(id) in errors <==> Repeated(steps, id)
    {
      for i := 0 to |steps|
        invariant byId.Keys == StepIds(steps[..i]) && Indexed(steps, byId)
        invariant forall e :: e in errors ==> e.DuplicateStepId?
        invariant forall id :: DuplicateStepId(id) in errors <==> Repeated(steps[..i], id)
      {
        var step := steps[i];
        ghost var was := errors;
        assert steps[..i+1] == steps[..i] + [step];
        RepeatedSnoc(steps[..i], step);
        if step.stepId in byId {
          errors := errors + [DuplicateStepId(step.stepId)];
        } else {
          byId := byId[step.stepId := step];
        }
      }
      assert steps[..|steps|] == steps;
    }

    method ScanDependencies()
      requires byId.Keys == StepIds(steps)
      requires forall e :: e in errors ==> e.DuplicateStepId?
      requires forall id :: DuplicateStepId(id) in errors <==> Repeated(steps, id)
      modifies this`errors
      ensures Scanned(steps, errors) && NoCycleFound(errors)
    {
      ghost var dups := errors;
      for i := 0 to |steps|
        invariant NoCycleFound(errors)
        invariant forall id :: DuplicateStepId(id) in errors <==> DuplicateStepId(id) in dups
        invariant forall id :: SelfDependency(id) in errors <==> Edge(steps[..i], id, id)
        invariant forall a, b :: UnknownDependency(a, b) in errors <==>
                                   Edge(steps[..i], a, b) && a != b && b !in StepIds(steps)
      {
        ScanStep(steps[i], StepIds(steps));
        assert steps[..i+1] == steps[..i] + [steps[i]];
        EdgeSnoc(steps[..i], steps[i]);
      }
      assert steps[..|steps|] == steps;
    }

    method ScanStep(step: StepDef, ghost known: set<Id>)
      requires NoCycleFound(errors) && known == byId.Keys
      modifies this`errors
      ensures NoCycleFound(errors)
      ensures forall id :: DuplicateStepId(id) in errors <==> DuplicateStepId(id) in old(errors)
      ensures forall id :: SelfDependency(id) in errors <==>
                             SelfDependency(id) in old(errors) || (id == step.stepId && id in step.dependsOn)
      ensures forall a, b :: UnknownDependency(a, b) in errors <==>
                               UnknownDependency(a, b) in old(errors)
                               || (a == step.stepId && b in step.dependsOn && a != b && b !in known)
    {
      for j := 0 to |step.dependsOn|
        invariant NoCycleFound(errors)
        invariant forall id :: DuplicateStepId(id) in errors <==> DuplicateStepId(id) in old(errors)
        invariant forall id :: SelfDependency(id) in errors <==>
                                 SelfDependency(id) in old(errors) || (id == step.stepId && id in step.dependsOn[..j])
        invariant forall a, b :: UnknownDependency(a, b) in errors <==>
                                   UnknownDependency(a, b) in old(errors)
                                   || (a == step.stepId && b in step.dependsOn[..j] && a != b && b !in known)
      {
        var d := step.dependsOn[j];
        assert step.dependsOn[..j+1] == step.dependsOn[..j] + [d];
        if d == step.stepId {
          errors := errors + [SelfDependency(step.stepId)];
        } else if d !in byId {
          errors := errors + [UnknownDependency(step.stepId, d)];
        }
      }
      assert step.dependsOn[..|step.dependsOn|] == step.dependsOn;
    }

    method Visit(stepId: Id, path: seq<Id>)
      requires Sound() && stepId in byId
      requires visiting == (set x | x in path)
      requires Walk(steps, path + [stepId])
      modifies this`errors, this`visiting, this`visited, this`finished
      ensures Sound() && visiting == old(visiting) && old(visited) <= visited
      ensures OnlyCyclesAdded(old(errors), errors)
      ensures NoCycleFound(errors) ==> stepId in visited
      decreases byId.Keys - visiting
    {
      if stepId in visited { return; }
      if stepId in visiting {
        var start := Position(path, stepId);
        CycleHere(steps, path, stepId, start);
        errors := errors + [CycleDetected(path[start..] + [stepId])];
        assert CycleDetected(path[start..] + [stepId]) in errors;
        return;
      }
      visiting := visiting + {stepId};
      var deps := byId[stepId].dependsOn;
      var k := 0;
      while k < |deps|
        invariant 0 <= k <= |deps|
        invariant Sound() && visiting == old(visiting) + {stepId} && old(visited) <= visited
        invariant OnlyCyclesAdded(old(errors), errors)
        invariant NoCycleFound(errors) ==> forall d :: d in deps[..k] && d in byId ==> d in visited
      {
        assert deps[..k+1] == deps[..k] + [deps[k]];
        if deps[k] in byId {
          assert Edge(steps, stepId, deps[k]);
          WalkSnoc(steps, path + [stepId], deps[k]);
          Visit(deps[k], path + [stepId]);
        }
        k := k + 1;
      }
      assert deps[..k] == deps;
      visiting := visiting - {stepId};
      visited := visited + {stepId};
      if NoCycleFound(errors) { OrderedSnoc(byId, finished, stepId); }
      finished := finished + [stepId];
      assert visiting == old(visiting);
    }

    method Validate() returns (ghost order: seq<Id>)
      requires byId == map[] && errors == [] && visiting == {} && visited == {} && finished == []
      modifies this
      ensures Scanned(steps, errors) && CyclesAreReal(steps, errors)
      ensures errors == [] ==> Topological(steps, order) && forall id :: id in StepIds(steps) ==> id in order
    {
      ScanIds();
      ScanDependencies();
      assert visiting == set x: Id | x in [];
      ghost var scanned := errors;
      for i := 0 to |steps|
        invariant byId.Keys == StepIds(steps)
        invariant Sound() && visiting == {}
        invariant OnlyCyclesAdded(scanned, errors)
        invariant NoCycleFound(errors) ==> forall j :: 0 <= j < i ==> steps[j].stepId in visited
      {
        assert visiting == set x: Id | x in [];
        Visit(steps[i].stepId, []);
      }
      order := finished;
      if errors == [] { OrderedIsTopological(steps, byId, finished, errors); }
    }
  }

  lemma RepeatedSnoc(steps: seq<StepDef>, s: StepDef)
    ensures StepIds(steps + [s]) == StepIds(steps) + {s.stepId}
    ensures forall id :: Repeated(steps + [s], id) <==> Repeated(steps, id) || (id == s.stepId && id in StepIds(steps))
  {
    var t := steps + [s];
    assert t[|steps|] == s;
    forall id | Repeated(steps, id) ensures Repeated(t, id) {
      var i, j :| 0 <= i < j < |steps| && steps[i].stepId == id && steps[j].stepId == id;
      assert t[i].stepId == id && t[j].stepId == id;
    }
    if s.stepId in StepIds(steps) {
      var i :| 0 <= i < |steps| && steps[i].stepId == s.stepId;
      assert t[i].stepId == s.stepId && t[|steps|].stepId == s.stepId;
    }
  }

  lemma EdgeSnoc(steps: seq<StepDef>, s: StepDef)
    ensures forall a, b :: Edge(steps + [s], a, b) <==> Edge(steps, a, b) || (a == s.stepId && b in s.dependsOn)
  {
    forall a, b | Edge(steps, a, b) ensures Edge(steps + [s], a, b) {
      var x :| x in steps && x.stepId == a && b in x.dependsOn;
      assert x in steps + [s];
    }
    assert s in steps + [s];
  }

  lemma OrderedIsTopological(steps: seq<StepDef>, byId: map<Id, StepDef>, finished: seq<Id>, errors: seq<DagError>)
    requires Indexed(steps, byId) && byId.Keys == StepIds(steps) && Ordered(byId, finished)
    requires Scanned(steps, errors) && errors == []
    ensures Topological(steps, finished)
  {
    NothingReported(steps, errors);
    forall i, b | 0 <= i < |finished| && Edge(steps, finished[i], b) ensures b in finished[..i] {
      var s :| s in steps && s.stepId == finished[i] && b in s.dependsOn;
      var k :| 0 <= k < |steps| && steps[k] == s;
      var j :| 0 <= j < |steps| && steps[j] == byId[s.stepId];
      assert j == k;
    }
  }

  lemma NothingReported(steps: seq<StepDef>, errors: seq<DagError>)
    requires Scanned(steps, errors) && errors == []
    ensures UniqueIds(steps) && KnownDeps(steps)
  {
    forall i, j | 0 <= i < j < |steps| ensures steps[i].stepId != steps[j].stepId {
      assert !Repeated(steps, steps[i].stepId);
    }
    forall s, d | s in steps && d in s.dependsOn ensures d in StepIds(steps) {
      assert Edge(steps, s.stepId, d);
      assert UnknownDependency(s.stepId, d) !in errors;
    }
  }

  lemma NoErrorWhenValid(steps: seq<StepDef>, errors: seq<DagError>)
    requires ValidDag(steps) && Scanned(steps, errors) && CyclesAreReal(steps, errors)
    ensures errors == []
  {
    forall e: DagError ensures e !in errors {
      match e {
        case DuplicateStepId(id) => assert !Repeated(steps, id);
        case SelfDependency(id) => assert Edge(steps, id, id) ==> Cycle(steps, [id, id]);
        case UnknownDependency(a, b) => assert Edge(steps, a, b) ==> b in StepIds(steps);
        case CycleDetected(p) => assert !Cycle(steps, p);
      }
    }
    HeadMember(errors);
  }

  lemma HeadMember<T>(s: seq<T>)
    ensures s != [] ==> s[0] in s
  {}

  /** The repeated errors are dropped (`new Set`); the order in which the rest is reported is not modelled. */
  method ValidateExecutionDag(steps: seq<StepDef>) returns (errors: set<DagError>)
    ensures errors == {} <==> ValidDag(steps)
    ensures forall p :: CycleDetected(p) in errors ==> Cycle(steps, p)
    ensures forall id :: DuplicateStepId(id) in errors <==> Repeated(steps, id)
    ensures forall id :: SelfDependency(id) in errors <==> Edge(steps, id, id)
    ensures forall a, b :: UnknownDependency(a, b) in errors <==> Edge(steps, a, b) && a != b && b !in StepIds(steps)
  {
    var v := new DagValidator(steps);
    ghost var order := v.Validate();
    errors := set e | e in v.errors;
    HeadMember(v.errors);
    assert forall e :: e in errors <==> e in v.errors;
    if v.errors == [] {
      NothingReported(steps, v.errors);
      TopologicalIsAcyclic(steps, order);
    }
    if ValidDag(steps) { NoErrorWhenValid(steps, v.errors); }
  }
}
