/** Validation of the mission's task graph, with its depth-first search for dependency cycles. */
module TaskGraph {
  import opened Wrappers
  import opened Sequences

  const MISSING := "<missing>"
  const MAX_IN_PROGRESS := 3

  const TASK_STATES := {"NOT_STARTED", "READY", "IN_PROGRESS", "BLOCKED", "VERIFYING", "COMPLETE", "SUPERSEDED", "REJECTED"}

  /** A graph entry: `taskId` and the listed parents are `None` unless they are non-empty strings, `parents` unless it is a list. */
  datatype Task = NotAnObject | Task(taskId: Option<string>, state: string, parents: Option<seq<Option<string>>>, handoff: bool)

  datatype GraphError =
    | TasksNotAnArray
    | EntryNotAnObject
    | EntryMissingId
    | InvalidState(id: string, state: string)
    | ParentsNotAnArray(id: string)
    | ParentsNotIds(id: string)
    | HandoffRequired(id: string)
    | DuplicateIds(ids: seq<string>)
    | ParentMissing(id: string, parent: string)
    | CycleDetected
    | TooManyInProgress

  // ---- Reading the entries ---------------------------------------------------------------

  function IdOf(t: Task): string
    requires t.Task?
  {
    t.taskId.GetOr(MISSING)
  }

  /** The usable parents of an entry. */
  function Named(parents: seq<Option<string>>): seq<string> {
    if |parents| == 0 then []
    else
      var before := Named(parents[..|parents| - 1]);
      var last := parents[|parents| - 1];
      if last.Some? then before + [last.value] else before
  }

  function ParentsOf(t: Task): seq<string>
    requires t.Task?
  {
    if t.parents.None? then [] else Named(t.parents.value)
  }

  function EntryErrors(t: Task): seq<GraphError> {
    if t.NotAnObject? then [EntryNotAnObject]
    else
      (if IdOf(t) == MISSING then [EntryMissingId] else [])
      + (if t.state !in TASK_STATES then [InvalidState(IdOf(t), t.state)] else [])
      + (if t.parents.None? then [ParentsNotAnArray(IdOf(t))]
         else if None in t.parents.value then [ParentsNotIds(IdOf(t))] else [])
      + (if t.state == "COMPLETE" && |ParentsOf(t)| > 0 && !t.handoff then [HandoffRequired(IdOf(t))] else [])
  }

  function AllEntryErrors(tasks: seq<Task>): seq<GraphError> {
    if |tasks| == 0 then [] else AllEntryErrors(tasks[..|tasks| - 1]) + EntryErrors(tasks[|tasks| - 1])
  }

  function Ids(tasks: seq<Task>): seq<string> {
    if |tasks| == 0 then []
    else
      var before := Ids(tasks[..|tasks| - 1]);
      if tasks[|tasks| - 1].Task? then before + [IdOf(tasks[|tasks| - 1])] else before
  }

  /** `parent_map`: the last entry of an id decides its parents. */
  function ParentMap(tasks: seq<Task>): map<string, seq<string>> {
    if |tasks| == 0 then map[]
    else
      var before := ParentMap(tasks[..|tasks| - 1]);
      var t := tasks[|tasks| - 1];
      if t.Task? then before[IdOf(t) := ParentsOf(t)] else before
  }

  function InProgress(tasks: seq<Task>): nat {
    if |tasks| == 0 then 0
    else
      InProgress(tasks[..|tasks| - 1])
      + (if tasks[|tasks| - 1].Task? && tasks[|tasks| - 1].state == "IN_PROGRESS" then 1 else 0)
  }

  /** Distinct members in order of first appearance, as a dictionary keeps its keys. */
  function Distinct(s: seq<string>): seq<string> {
    if |s| == 0 then []
    else
      var before := Distinct(s[..|s| - 1]);
      if s[|s| - 1] in before then before else before + [s[|s| - 1]]
  }

  function Count(s: seq<string>, x: string): nat {
    if |s| == 0 then 0 else Count(s[..|s| - 1], x) + (if s[|s| - 1] == x then 1 else 0)
  }

  function Repeated(ids: seq<string>): string -> bool { id => Count(ids, id) > 1 }

  function DuplicateErrors(ids: seq<string>): seq<GraphError> {
    var duplicates := StableSort(Filter(Distinct(ids), Repeated(ids)), StringLe);
    if |duplicates| > 0 then [DuplicateIds(duplicates)] else []
  }

  function ValidIds(ids: seq<string>): set<string> { (set id | id in ids) - {MISSING} }

  function MissingParents(id: string, parents: seq<string>, ids: set<string>): seq<GraphError> {
    if |parents| == 0 then []
    else
      var before := MissingParents(id, parents[..|parents| - 1], ids);
      var last := parents[|parents| - 1];
      if last in ids then before else before + [ParentMissing(id, last)]
  }

  function ParentErrors(order: seq<string>, parents: map<string, seq<string>>, ids: set<string>): seq<GraphError> {
    if |order| == 0 then []
    else
      var id := order[|order| - 1];
      ParentErrors(order[..|order| - 1], parents, ids) + (if id in parents then MissingParents(id, parents[id], ids) else [])
  }

  // ---- Cycles -------------------------------------------------------------------------------

  datatype Graph = Graph(parents: map<string, seq<string>>, ids: set<string>)

  function GraphOf(tasks: seq<Task>): Graph { Graph(ParentMap(tasks), ValidIds(Ids(tasks))) }

  /** The parent relation restricted to known ids. */
  ghost predicate Edge(g: Graph, a: string, b: string) { a in g.parents && b in g.parents[a] && b in g.ids }

  ghost predicate Path(g: Graph, path: seq<string>) {
    forall i :: 0 <= i < |path| - 1 ==> Edge(g, path[i], path[i + 1])
  }

  /** A way from a task back to itself; a task that is its own parent is one. */
  ghost predicate Cycle(g: Graph, path: seq<string>) {
    |path| >= 2 && Path(g, path) && path[0] == path[|path| - 1]
  }

  ghost predicate HasCycle(g: Graph) { exists path :: Cycle(g, path) }

  /** Every task comes after all the tasks it depends on, and only once. */
  ghost predicate Topological(g: Graph, order: seq<string>) {
    && (forall i, b :: 0 <= i < |order| && Edge(g, order[i], b) ==> b in order[..i])
    && forall i, j :: 0 <= i < j < |order| ==> order[i] != order[j]
  }

  ghost predicate Lists(order: seq<string>, ids: set<string>) { forall id :: id in order <==> id in ids }

  /** Walking along dependencies moves back in a topological order. */
  lemma {:induction false} PathsDescend(g: Graph, order: seq<string>, path: seq<string>, i: nat) returns (j: nat)
    requires Topological(g, order) && Path(g, path) && |path| > 0
    requires i < |order| && order[i] == path[0]
    ensures j + |path| - 1 <= i && order[j] == path[|path| - 1]
  {
    if |path| == 1 { return i; }
    assert Edge(g, path[0], path[1]);
    var k :| 0 <= k < i && order[..i][k] == path[1];
    forall n | 0 <= n < |path[1..]| - 1 ensures Edge(g, path[1..][n], path[1..][n + 1]) {
      assert Edge(g, path[n + 1], path[n + 2]);
    }
    j := PathsDescend(g, order, path[1..], k);
  }

  lemma OrderedHasNoCycle(g: Graph, order: seq<string>)
    requires Topological(g, order) && Lists(order, g.ids)
    ensures !HasCycle(g)
  {
    forall path | Cycle(g, path) ensures false {
      assert Edge(g, path[|path| - 2], path[|path| - 1]);
      var i :| 0 <= i < |order| && order[i] == path[0];
      var j := PathsDescend(g, order, path, i);
      assert false;
    }
  }

  /** The nested `visit` with the two sets it shares with its caller. */
  class Search {
    const graph: Graph
    var visiting: set<string>
    var visited: set<string>
    /** `visited` in the order in which the tasks were finished. */
    ghost var finished: seq<string>

    ghost predicate Valid()
      reads this
    {
      && visiting <= graph.ids && visited <= graph.ids && visiting * visited == {}
      && Lists(finished, visited) && Topological(graph, finished)
    }

    constructor (graph: Graph)
      ensures this.graph == graph && Valid() && visiting == {} && visited == {}
    {
      this.graph := graph;
      visiting, visited, finished := {}, {}, [];
    }

    /** The tasks being visited, as the way that leads to the next one. */
    ghost predicate Leads(trail: seq<string>, id: string)
      reads this
    {
      (forall x :: x in trail <==> x in visiting) && Path(graph, trail + [id])
    }

    method Visit(id: string, ghost trail: seq<string>) returns (cyclic: bool)
      requires Valid() && id in graph.ids && Leads(trail, id)
      modifies this
      ensures cyclic ==> HasCycle(graph)
      ensures !cyclic ==> Valid() && visiting == old(visiting) && old(visited) <= visited && id in visited
      decreases graph.ids - visiting
    {
      if id in visiting {
        ghost var k :| 0 <= k < |trail| && trail[k] == id;
        ghost var path := (trail + [id])[k..];
        assert Cycle(graph, path) by {
          forall i | 0 <= i < |path| - 1 ensures Edge(graph, path[i], path[i + 1]) {
            assert Edge(graph, (trail + [id])[k + i], (trail + [id])[k + i + 1]);
          }
        }
        return true;
      }
      if id in visited { return false; }
      visiting := visiting + {id};
      var parents := if id in graph.parents then graph.parents[id] else [];
      for n := 0 to |parents|
        invariant Valid() && visiting == old(visiting) + {id} && old(visited) <= visited
        invariant forall m :: 0 <= m < n && parents[m] in graph.ids ==> parents[m] in visited
      {
        if parents[n] in graph.ids {
          LeadsOn(trail, id, parents[n]);
          assert Leads(trail + [id], parents[n]) by {
            assert forall x :: x in trail + [id] <==> x in trail || x == id;
          }
          var found := Visit(parents[n], trail + [id]);
          if found { return true; }
        }
      }
      assert id !in visiting * visited && id in visiting;
      visiting := visiting - {id};
      assert visiting == old(visiting);
      visited := visited + {id};
      Finished(id);
      finished := finished + [id];
      return false;
    }

    lemma LeadsOn(trail: seq<string>, id: string, parent: string)
      requires Path(graph, trail + [id]) && Edge(graph, id, parent)
      ensures Path(graph, trail + [id] + [parent])
    {
      var path := trail + [id] + [parent];
      forall i | 0 <= i < |path| - 1 ensures Edge(graph, path[i], path[i + 1]) {
        if i < |trail| {
          assert Edge(graph, (trail + [id])[i], (trail + [id])[i + 1]);
        }
      }
    }

    /** A task whose parents are all finished may follow them. */
    lemma Finished(id: string)
      requires Topological(graph, finished) && id !in finished
      requires forall b :: Edge(graph, id, b) ==> b in finished
      ensures Topological(graph, finished + [id])
    {
      var order := finished + [id];
      forall i, b | 0 <= i < |order| && Edge(graph, order[i], b) ensures b in order[..i] {
        if i < |finished| {
          assert order[..i] == finished[..i];
        } else {
          assert order[..i] == finished;
        }
      }
    }
  }

  /** `any(visit(id) for id in valid_ids if id not in visited)`, whatever order the set yields. */
  method FindCycle(g: Graph) returns (cyclic: bool, ghost order: seq<string>)
    ensures cyclic <==> HasCycle(g)
    ensures !cyclic ==> Topological(g, order) && Lists(order, g.ids)
  {
    var search := new Search(g);
    var pending := g.ids;
    while pending != {}
      invariant search.Valid() && search.graph == g && search.visiting == {} && fresh(search)
      invariant pending <= g.ids && g.ids - pending <= search.visited
      decreases pending
    {
      var id :| id in pending;
      pending := pending - {id};
      if id !in search.visited {
        assert Path(g, [] + [id]);
        var found := search.Visit(id, []);
        if found { return true, []; }
      }
    }
    OrderedHasNoCycle(g, search.finished);
    return false, search.finished;
  }

  // ---- The validator -----------------------------------------------------------------------------

  function GraphErrors(tasks: seq<Task>): seq<GraphError> {
    AllEntryErrors(tasks) + DuplicateErrors(Ids(tasks))
    + ParentErrors(Distinct(Ids(tasks)), ParentMap(tasks), ValidIds(Ids(tasks)))
  }

  ghost function Verdict(tasks: seq<Task>): seq<GraphError> {
    GraphErrors(tasks)
    + (if HasCycle(GraphOf(tasks)) then [CycleDetected] else [])
    + (if InProgress(tasks) > MAX_IN_PROGRESS then [TooManyInProgress] else [])
  }

  method ValidateTaskGraph(tasks: Option<seq<Task>>) returns (errors: seq<GraphError>)
    ensures tasks.None? ==> errors == [TasksNotAnArray]
    ensures tasks.Some? ==> errors == Verdict(tasks.value)
  {
    if tasks.None? { return [TasksNotAnArray]; }
    var entries := tasks.value;
    errors := [];
    var inProgress := 0;
    var taskIds: seq<string> := [];
    var order: seq<string> := [];
    var parentMap: map<string, seq<string>> := map[];
    for i := 0 to |entries|
      invariant errors == AllEntryErrors(entries[..i]) && taskIds == Ids(entries[..i]) && inProgress == InProgress(entries[..i])
      invariant parentMap == ParentMap(entries[..i]) && order == Distinct(taskIds)
    {
      assert entries[..i + 1][..i] == entries[..i];
      var task := entries[i];
      errors := errors + EntryErrors(task);
      if task.NotAnObject? { continue; }
      var id := IdOf(task);
      assert (taskIds + [id])[..|taskIds|] == taskIds;
      taskIds := taskIds + [id];
      if id !in order { order := order + [id]; }
      if task.state == "IN_PROGRESS" { inProgress := inProgress + 1; }
      parentMap := parentMap[id := ParentsOf(task)];
    }
    assert entries[..|entries|] == entries;
    errors := errors + DuplicateErrors(taskIds);
    var validIds := ValidIds(taskIds);
    var missing := CheckParents(order, parentMap, validIds);
    errors := errors + missing;
    var cyclic, _ := FindCycle(Graph(parentMap, validIds));
    if cyclic { errors := errors + [CycleDetected]; }
    if inProgress > MAX_IN_PROGRESS { errors := errors + [TooManyInProgress]; }
  }

  method CheckParents(order: seq<string>, parents: map<string, seq<string>>, ids: set<string>) returns (errors: seq<GraphError>)
    ensures errors == ParentErrors(order, parents, ids)
  {
    errors := [];
    for i := 0 to |order|
      invariant errors == ParentErrors(order[..i], parents, ids)
    {
      assert order[..i + 1][..i] == order[..i];
      if order[i] in parents {
        var listed := parents[order[i]];
        ghost var before := errors;
        for k := 0 to |listed|
          invariant errors == before + MissingParents(order[i], listed[..k], ids)
        {
          assert listed[..k + 1][..k] == listed[..k];
          if listed[k] !in ids { errors := errors + [ParentMissing(order[i], listed[k])]; }
        }
        assert listed[..|listed|] == listed;
      }
    }
    assert order[..|order|] == order;
  }

  // ---- What an accepted graph is ----------------------------------------------------------------------

  predicate WellFormed(t: Task) {
    && t.Task? && IdOf(t) != MISSING && t.state in TASK_STATES && t.parents.Some? && None !in t.parents.value
    && (t.state == "COMPLETE" && |t.parents.value| > 0 ==> t.handoff)
  }

  lemma {:induction false} NamedAll(parents: seq<Option<string>>)
    requires None !in parents
    ensures |Named(parents)| == |parents| && forall i :: 0 <= i < |parents| ==> parents[i] == Some(Named(parents)[i])
  {
    if |parents| > 0 {
      assert parents[|parents| - 1] in parents;
      assert forall p :: p in parents[..|parents| - 1] ==> p in parents;
      NamedAll(parents[..|parents| - 1]);
    }
  }

  lemma EntryAccepted(t: Task)
    ensures EntryErrors(t) == [] <==> WellFormed(t)
  {
    if t.Task? && t.parents.Some? && None !in t.parents.value { NamedAll(t.parents.value); }
  }

  lemma {:induction false} EntriesAccepted(tasks: seq<Task>)
    ensures AllEntryErrors(tasks) == [] <==> forall i :: 0 <= i < |tasks| ==> WellFormed(tasks[i])
  {
    hide EntryErrors, WellFormed;
    if |tasks| > 0 {
      EntriesAccepted(tasks[..|tasks| - 1]);
      EntryAccepted(tasks[|tasks| - 1]);
    }
  }

  lemma {:induction false} CountPositive(s: seq<string>, x: string)
    ensures Count(s, x) >= 1 <==> x in s
  {
    if |s| > 0 {
      CountPositive(s[..|s| - 1], x);
      assert s == s[..|s| - 1] + [s[|s| - 1]];
    }
  }

  ghost predicate Unique(s: seq<string>) { forall i, j :: 0 <= i < j < |s| ==> s[i] != s[j] }

  lemma {:induction false} CountRepeats(s: seq<string>, x: string)
    ensures Count(s, x) > 1 <==> exists i, j :: 0 <= i < j < |s| && s[i] == x && s[j] == x
  {
    if |s| > 0 {
      var init := s[..|s| - 1];
      CountRepeats(init, x);
      CountPositive(init, x);
      if Count(init, x) > 1 {
        var i, j :| 0 <= i < j < |init| && init[i] == x && init[j] == x;
        assert s[i] == x && s[j] == x;
      } else if Count(s, x) > 1 {
        var i :| 0 <= i < |init| && init[i] == x;
        assert s[i] == x && s[|s| - 1] == x;
      }
      forall i, j | 0 <= i < j < |s| && s[i] == x && s[j] == x ensures Count(s, x) > 1 {
        assert init[i] == x;
        if j < |s| - 1 { assert init[j] == x; }
      }
    }
  }

  lemma {:induction false} DistinctMembers(s: seq<string>)
    ensures forall x :: x in Distinct(s) <==> x in s
  {
    if |s| > 0 {
      DistinctMembers(s[..|s| - 1]);
      assert s == s[..|s| - 1] + [s[|s| - 1]];
    }
  }

  lemma DuplicatesAccepted(ids: seq<string>)
    ensures DuplicateErrors(ids) == [] <==> Unique(ids)
  {
    var repeated := Filter(Distinct(ids), Repeated(ids));
    FilterMember(Distinct(ids), Repeated(ids));
    DistinctMembers(ids);
    StringOrder();
    StableSortMember(repeated, StringLe);
    if Unique(ids) {
      if |repeated| > 0 {
        assert repeated[0] in repeated;
        CountRepeats(ids, repeated[0]);
      }
    } else {
      var i, j :| 0 <= i < j < |ids| && ids[i] == ids[j];
      CountRepeats(ids, ids[i]);
      assert ids[i] in repeated;
    }
  }

  lemma {:induction false} MissingParentsAccepted(id: string, parents: seq<string>, ids: set<string>)
    ensures MissingParents(id, parents, ids) == [] <==> forall p :: p in parents ==> p in ids
  {
    if |parents| > 0 {
      MissingParentsAccepted(id, parents[..|parents| - 1], ids);
      assert parents == parents[..|parents| - 1] + [parents[|parents| - 1]];
    }
  }

  lemma {:induction false} ParentsAccepted(order: seq<string>, parents: map<string, seq<string>>, ids: set<string>)
    ensures ParentErrors(order, parents, ids) == [] <==>
            forall id, p {:trigger p in parents[id]} :: id in order && id in parents && p in parents[id] ==> p in ids
  {
    if |order| > 0 {
      ParentsAccepted(order[..|order| - 1], parents, ids);
      var id := order[|order| - 1];
      assert order == order[..|order| - 1] + [id];
      if id in parents { MissingParentsAccepted(id, parents[id], ids); }
    }
  }

  lemma {:induction false} ParentMapCovers(tasks: seq<Task>)
    ensures forall id :: id in ParentMap(tasks) <==> id in Ids(tasks)
  {
    if |tasks| > 0 { ParentMapCovers(tasks[..|tasks| - 1]); }
  }

  /** The entries that are in progress. */
  function Progressing(tasks: seq<Task>): set<int> {
    set i | 0 <= i < |tasks| && tasks[i].Task? && tasks[i].state == "IN_PROGRESS"
  }

  lemma {:induction false} ProgressIsCounted(tasks: seq<Task>)
    ensures InProgress(tasks) == |Progressing(tasks)|
  {
    if |tasks| == 0 {
      assert Progressing(tasks) == {};
    } else {
      var n := |tasks| - 1;
      ProgressIsCounted(tasks[..n]);
      assert Progressing(tasks) ==
             Progressing(tasks[..n]) + (if tasks[n].Task? && tasks[n].state == "IN_PROGRESS" then {n} else {});
    }
  }

  /** Every dependency of every task is itself a task of the graph. */
  ghost predicate ParentsKnown(g: Graph) {
    forall id, p {:trigger p in g.parents[id]} :: id in g.parents && p in g.parents[id] ==> p in g.ids
  }

  /**
   The validator accepts a graph exactly when its entries are well formed, ids are unique, every parent is a
   task, at most three tasks are in progress, and no task depends on itself, however indirectly.
   */
  lemma AcceptedExactly(tasks: seq<Task>)
    ensures Verdict(tasks) == [] <==>
            && (forall i :: 0 <= i < |tasks| ==> WellFormed(tasks[i]))
            && Unique(Ids(tasks)) && ParentsKnown(GraphOf(tasks))
            && |Progressing(tasks)| <= 3
            && !HasCycle(GraphOf(tasks))
  {
    var g := GraphOf(tasks);
    ProgressIsCounted(tasks);
    EntriesAccepted(tasks);
    DuplicatesAccepted(Ids(tasks));
    DistinctMembers(Ids(tasks));
    ParentMapCovers(tasks);
    ParentsAccepted(Distinct(Ids(tasks)), g.parents, g.ids);
  }
}
