// The depth-first prerequisite check of the catalogue validator.
module PrerequisiteCycles {
  import opened Sequences

  type ModuleId = nat

  datatype LearningModule = LearningModule(id: ModuleId, prerequisites: seq<ModuleId>)

  // The lookup table built from the module list: the last module of an id wins.
  function ById(modules: seq<LearningModule>): (table: map<ModuleId, LearningModule>)
    ensures forall m :: m in modules ==> m.id in table
    ensures forall id :: id in table ==> table[id] in modules && table[id].id == id
  {
    if modules == [] then map[]
    else ById(modules[..|modules| - 1])[modules[|modules| - 1].id := modules[|modules| - 1]]
  }

  lemma ByIdSnoc(front: seq<LearningModule>, last: LearningModule)
    ensures ById(front + [last]) == ById(front)[last.id := last]
  {
    assert (front + [last])[..|front|] == front;
  }

  // Of several modules with one identifier the table holds the last.
  lemma {:induction false} LastModuleWins(modules: seq<LearningModule>, i: nat)
    requires i < |modules| && forall j :: i < j < |modules| ==> modules[j].id != modules[i].id
    ensures ById(modules)[modules[i].id] == modules[i]
  {
    var n := |modules| - 1;
    var front, last := modules[..n], modules[n];
    assert modules == front + [last];
    ByIdSnoc(front, last);
    if i < n { LastModuleWins(front, i); }
  }

  // An edge to a prerequisite that is itself a known module.
  predicate Edge(table: map<ModuleId, LearningModule>, a: ModuleId, b: ModuleId) {
    a in table && b in table && b in table[a].prerequisites
  }

  predicate Walk(table: map<ModuleId, LearningModule>, p: seq<ModuleId>) {
    forall i :: 0 < i < |p| ==> Edge(table, p[i - 1], p[i])
  }

  // A closed walk; a module that is its own prerequisite gives one of length two.
  predicate Cycle(table: map<ModuleId, LearningModule>, p: seq<ModuleId>) {
    |p| >= 2 && p[0] == p[|p| - 1] && Walk(table, p)
  }

  ghost predicate OnCycle(table: map<ModuleId, LearningModule>, id: ModuleId) {
    exists p :: Cycle(table, p) && p[0] == id
  }

  // Every module stands after its prerequisites, the ones in `except` aside.
  ghost predicate Settled(table: map<ModuleId, LearningModule>, order: seq<ModuleId>, except: seq<ModuleId>) {
    forall i, b :: 0 <= i < |order| && Edge(table, order[i], b) ==> b in order[..i] || b in except
  }

  ghost predicate TopologicalOrder(table: map<ModuleId, LearningModule>, order: seq<ModuleId>) {
    && Distinct(order)
    && (forall id :: id in order <==> id in table)
    && Settled(table, order, [])
  }

  ghost predicate SameElements(s: seq<ModuleId>, elements: set<ModuleId>) {
    forall id :: id in s <==> id in elements
  }

  // What the search keeps: the active modules are the current path, the other visited ones are
  // finished in an order in which only edges into reported modules point forward.
  ghost predicate Consistent(
    table: map<ModuleId, LearningModule>, visited: set<ModuleId>, active: set<ModuleId>, errors: seq<ModuleId>,
    path: seq<ModuleId>, finished: seq<ModuleId>)
  {
    && visited <= table.Keys && active <= visited
    && SameElements(path, active) && Distinct(path) && Walk(table, path)
    && SameElements(finished, visited - active) && Distinct(finished)
    && Settled(table, finished, errors)
    && AllOnCycles(table, errors)
  }

  ghost predicate AllOnCycles(table: map<ModuleId, LearningModule>, errors: seq<ModuleId>) {
    forall e :: e in errors ==> OnCycle(table, e)
  }

  // The known prerequisites in the list are finished or reported.
  ghost predicate Handled(
    table: map<ModuleId, LearningModule>, prerequisites: seq<ModuleId>, finished: seq<ModuleId>, errors: seq<ModuleId>)
  {
    forall b :: b in prerequisites && b in table ==> b in finished || b in errors
  }

  ghost predicate Continues(table: map<ModuleId, LearningModule>, path: seq<ModuleId>, id: ModuleId) {
    id in table && (path != [] ==> Edge(table, path[|path| - 1], id))
  }

  class CycleSearch {
    const table: map<ModuleId, LearningModule>
    var visited: set<ModuleId>
    var active: set<ModuleId>
    var errors: seq<ModuleId>
    ghost var path: seq<ModuleId>
    ghost var finished: seq<ModuleId>

    ghost predicate Valid()
      reads this
    {
      Consistent(table, visited, active, errors, path, finished)
    }

    constructor (modules: seq<LearningModule>)
      ensures Valid()
      ensures table == ById(modules)
      ensures visited == {} && active == {} && errors == [] && path == [] && finished == []
    {
      table := ById(modules);
      visited, active, errors := {}, {}, [];
      path, finished := [], [];
    }

    // Visits a module from the last module of the current path.
    method Visit(moduleId: ModuleId)
      requires Valid()
      requires Continues(table, path, moduleId)
      modifies this
      ensures Valid()
      ensures active == old(active) && path == old(path)
      ensures old(visited) <= visited && moduleId in visited
      ensures old(errors) <= errors && old(finished) <= finished
      ensures if moduleId in old(active) then errors == old(errors) + [moduleId] else moduleId in finished
      decreases table.Keys - visited
    {
      if moduleId in active {
        BackEdge(table, visited, active, errors, path, finished, moduleId);
        errors := errors + [moduleId];
        return;
      }
      if moduleId in visited { return; }
      Entered(table, visited, active, errors, path, finished, moduleId);
      visited := visited + {moduleId};
      active := active + {moduleId};
      path := path + [moduleId];
      var prerequisites := table[moduleId].prerequisites;
      var i := 0;
      while i < |prerequisites|
        invariant 0 <= i <= |prerequisites|
        invariant Valid()
        invariant active == old(active) + {moduleId} && path == old(path) + [moduleId]
        invariant old(visited) <= visited && moduleId in visited
        invariant old(errors) <= errors && old(finished) <= finished
        invariant Handled(table, prerequisites[..i], finished, errors)
      {
        ghost var finishedBefore, errorsBefore := finished, errors;
        if prerequisites[i] in table { Visit(prerequisites[i]); }
        HandledOneMore(table, prerequisites, i, finishedBefore, finished, errorsBefore, errors);
        i := i + 1;
      }
      assert prerequisites[..i] == prerequisites;
      Leaving(table, visited, active, errors, path, finished, moduleId);
      assert active - {moduleId} == old(active) && path[..|path| - 1] == old(path);
      active := active - {moduleId};
      path := old(path);
      finished := finished + [moduleId];
    }

    // The outer loop: afterwards every known module is finished.
    method VisitAll(modules: seq<LearningModule>)
      requires Valid() && path == [] && active == {}
      requires table == ById(modules)
      modifies this
      ensures Distinct(finished) && Settled(table, finished, errors) && AllOnCycles(table, errors)
      ensures forall id :: id in finished <==> id in table
    {
      var i := 0;
      while i < |modules|
        invariant 0 <= i <= |modules|
        invariant Valid() && path == [] && active == {}
        invariant forall j :: 0 <= j < i ==> modules[j].id in finished
      {
        assert modules[i].id in table;
        Visit(modules[i].id);
        i := i + 1;
      }
    }
  }

  lemma Entered(
    table: map<ModuleId, LearningModule>, visited: set<ModuleId>, active: set<ModuleId>, errors: seq<ModuleId>,
    path: seq<ModuleId>, finished: seq<ModuleId>, id: ModuleId)
    requires Consistent(table, visited, active, errors, path, finished)
    requires Continues(table, path, id) && id !in visited
    ensures Consistent(table, visited + {id}, active + {id}, errors, path + [id], finished)
  {
    assert visited + {id} - (active + {id}) == visited - active;
    assert id !in path;
  }

  lemma BackEdge(
    table: map<ModuleId, LearningModule>, visited: set<ModuleId>, active: set<ModuleId>, errors: seq<ModuleId>,
    path: seq<ModuleId>, finished: seq<ModuleId>, id: ModuleId)
    requires Consistent(table, visited, active, errors, path, finished)
    requires Continues(table, path, id) && id in active
    ensures Consistent(table, visited, active, errors + [id], path, finished)
  {
    assert id in path;
    BackEdgeClosesACycle(table, path, id);
    assert Settled(table, finished, errors + [id]);
  }

  lemma HandledOneMore(
    table: map<ModuleId, LearningModule>, prerequisites: seq<ModuleId>, i: nat, finished: seq<ModuleId>,
    finished': seq<ModuleId>, errors: seq<ModuleId>, errors': seq<ModuleId>)
    requires i < |prerequisites| && finished <= finished' && errors <= errors'
    requires Handled(table, prerequisites[..i], finished, errors)
    requires prerequisites[i] in table ==> prerequisites[i] in finished' || prerequisites[i] in errors'
    ensures Handled(table, prerequisites[..i + 1], finished', errors')
  {
    assert prerequisites[..i + 1] == prerequisites[..i] + [prerequisites[i]];
  }

  lemma Leaving(
    table: map<ModuleId, LearningModule>, visited: set<ModuleId>, active: set<ModuleId>, errors: seq<ModuleId>,
    path: seq<ModuleId>, finished: seq<ModuleId>, id: ModuleId)
    requires Consistent(table, visited, active, errors, path, finished)
    requires path != [] && path[|path| - 1] == id && id in table
    requires Handled(table, table[id].prerequisites, finished, errors)
    ensures Consistent(table, visited, active - {id}, errors, path[..|path| - 1], finished + [id])
  {
    var front, order := path[..|path| - 1], finished + [id];
    assert path == front + [id] && id in path && id in active && id !in finished;
    assert id !in front;
    assert SameElements(front, active - {id});
    assert SameElements(order, visited - (active - {id}));
    forall i, b | 0 <= i < |order| && Edge(table, order[i], b)
      ensures b in order[..i] || b in errors
    {
      assert order[..i] == finished[..i];
      assert i == |finished| ==> finished[..i] == finished;
    }
  }

  lemma BackEdgeClosesACycle(table: map<ModuleId, LearningModule>, path: seq<ModuleId>, id: ModuleId)
    requires Walk(table, path) && id in path
    requires Edge(table, path[|path| - 1], id)
    ensures OnCycle(table, id)
  {
    var k :| 0 <= k < |path| && path[k] == id;
    assert Cycle(table, path[k..] + [id]);
  }

  ghost predicate Meets(p: seq<ModuleId>, reported: seq<ModuleId>) {
    exists e :: e in reported && e in p
  }

  // The whole check: visits every listed module and returns the modules the messages name.
  method ValidatePrerequisiteCycles(modules: seq<LearningModule>) returns (reported: seq<ModuleId>)
    ensures reported != [] <==> exists p :: Cycle(ById(modules), p)
    ensures forall e :: e in reported ==> OnCycle(ById(modules), e)
    ensures forall p :: Cycle(ById(modules), p) ==> Meets(p, reported)
    ensures reported == [] <==> exists order :: TopologicalOrder(ById(modules), order)
  {
    var search := new CycleSearch(modules);
    search.VisitAll(modules);
    reported := search.errors;
    SearchOutcome(ById(modules), search.finished, reported);
  }

  lemma SearchOutcome(table: map<ModuleId, LearningModule>, finished: seq<ModuleId>, reported: seq<ModuleId>)
    requires Settled(table, finished, reported) && Distinct(finished)
    requires forall id :: id in finished <==> id in table
    requires AllOnCycles(table, reported)
    ensures reported != [] <==> exists p :: Cycle(table, p)
    ensures forall p :: Cycle(table, p) ==> Meets(p, reported)
    ensures reported == [] <==> exists order :: TopologicalOrder(table, order)
  {
    forall p | Cycle(table, p) ensures Meets(p, reported) {
      EveryCycleIsReported(table, finished, reported, p);
    }
    if reported == [] {
      assert TopologicalOrder(table, finished);
    } else {
      assert OnCycle(table, reported[0]);
      var p :| Cycle(table, p);
      forall order | TopologicalOrder(table, order) ensures false {
        EveryCycleIsReported(table, order, [], p);
      }
    }
  }

  // Along a walk that avoids the excepted modules the position in the order only falls.
  lemma {:induction false} PositionFalls(
    table: map<ModuleId, LearningModule>, order: seq<ModuleId>, except: seq<ModuleId>, p: seq<ModuleId>, start: nat)
    requires Settled(table, order, except)
    requires Distinct(order)
    requires |p| >= 2 && Walk(table, p)
    requires forall e :: e in p ==> e !in except
    requires start < |order| && order[start] == p[0]
    ensures p[|p| - 1] in order[..start]
  {
    assert Edge(table, order[start], p[1]) && p[1] in p;
    var next :| 0 <= next < start && order[next] == p[1];
    if |p| > 2 {
      assert forall e :: e in p[1..] ==> e in p;
      PositionFalls(table, order, except, p[1..], next);
    }
  }

  lemma EveryCycleIsReported(
    table: map<ModuleId, LearningModule>, order: seq<ModuleId>, reported: seq<ModuleId>, p: seq<ModuleId>)
    requires Settled(table, order, reported)
    requires Distinct(order)
    requires forall id :: id in table ==> id in order
    requires Cycle(table, p)
    ensures Meets(p, reported)
  {
    if !Meets(p, reported) {
      assert Edge(table, p[0], p[1]);
      var start :| 0 <= start < |order| && order[start] == p[0];
      PositionFalls(table, order, reported, p, start);
    }
  }
}
