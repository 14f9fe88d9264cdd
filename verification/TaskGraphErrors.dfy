/** Which errors the task graph validator reports, said of the entries themselves. */
module TaskGraphErrors {
  import opened Wrappers
  import opened Sequences
  import opened TaskGraph

  /** An entry without an id goes by `<missing>`. */
  predicate Called(t: Task, id: string) {
    t.Task? && if t.taskId.Some? then t.taskId.value == id else id == "<missing>"
  }

  /** The entry lists the parent, among whatever else it lists. */
  predicate Names(t: Task, parent: string) { t.Task? && t.parents.Some? && Some(parent) in t.parents.value }

  /** The entry has the error. */
  predicate Has(t: Task, e: GraphError) {
    match e
    case EntryNotAnObject => t.NotAnObject?
    case EntryMissingId => Called(t, "<missing>")
    case InvalidState(id, state) =>
      Called(t, id) && t.state == state && state !in {
        "NOT_STARTED", "READY", "IN_PROGRESS", "BLOCKED", "VERIFYING", "COMPLETE", "SUPERSEDED", "REJECTED"}
    case ParentsNotAnArray(id) => Called(t, id) && t.parents.None?
    case ParentsNotIds(id) => Called(t, id) && t.parents.Some? && None in t.parents.value
    case HandoffRequired(id) =>
      Called(t, id) && t.state == "COMPLETE" && !t.handoff && t.parents.Some? && exists p :: p in t.parents.value && p.Some?
    case _ => false
  }

  lemma {:induction false} NamedMeans(parents: seq<Option<string>>)
    ensures forall p :: p in Named(parents) <==> Some(p) in parents
  {
    if |parents| > 0 {
      NamedMeans(parents[..|parents| - 1]);
      assert parents == parents[..|parents| - 1] + [parents[|parents| - 1]];
    }
  }

  lemma ParentsMean(t: Task, parent: string)
    requires t.Task?
    ensures parent in ParentsOf(t) <==> Names(t, parent)
  {
    if t.parents.Some? { NamedMeans(t.parents.value); }
  }

  lemma EntryErrorsMean(t: Task, e: GraphError)
    ensures e in EntryErrors(t) <==> Has(t, e)
  {
    if t.Task? && t.parents.Some? {
      NamedMeans(t.parents.value);
      var named := Named(t.parents.value);
      if |named| > 0 { assert named[0] in named && Some(named[0]) in t.parents.value; }
    }
  }

  lemma {:induction false} AllEntryErrorsMean(tasks: seq<Task>, e: GraphError)
    ensures e in AllEntryErrors(tasks) <==> exists i :: 0 <= i < |tasks| && Has(tasks[i], e)
  {
    hide EntryErrors, Has;
    if |tasks| > 0 {
      AllEntryErrorsMean(tasks[..|tasks| - 1], e);
      EntryErrorsMean(tasks[|tasks| - 1], e);
    }
  }

  lemma {:induction false} IdsMean(tasks: seq<Task>, id: string)
    ensures id in Ids(tasks) <==> exists i :: 0 <= i < |tasks| && Called(tasks[i], id)
  {
    if |tasks| > 0 { IdsMean(tasks[..|tasks| - 1], id); }
  }

  // ---- Parents ------------------------------------------------------------------------------------

  /** Entry `i` is the last that goes by the id. */
  ghost predicate Decides(tasks: seq<Task>, id: string, i: int) {
    0 <= i < |tasks| && Called(tasks[i], id) && forall j :: i < j < |tasks| ==> !Called(tasks[j], id)
  }

  /** The last entry of the id lists the parent. */
  ghost predicate DependsOn(tasks: seq<Task>, id: string, parent: string) {
    exists i :: Decides(tasks, id, i) && Names(tasks[i], parent)
  }

  /** Some entry goes by the id, and it is not the stand-in for none. */
  ghost predicate Exists(tasks: seq<Task>, id: string) {
    id != "<missing>" && exists i :: 0 <= i < |tasks| && Called(tasks[i], id)
  }

  lemma {:induction false} ParentMapMeans(tasks: seq<Task>, id: string, parent: string)
    ensures id in ParentMap(tasks) && parent in ParentMap(tasks)[id] <==> DependsOn(tasks, id, parent)
  {
    hide Names;
    if |tasks| > 0 {
      var n := |tasks| - 1;
      var init, t := tasks[..n], tasks[n];
      ParentMapMeans(init, id, parent);
      if Called(t, id) {
        ParentsMean(t, parent);
        assert Decides(tasks, id, n);
      } else {
        forall i ensures Decides(tasks, id, i) <==> Decides(init, id, i) {}
      }
    }
  }

  lemma {:induction false} MissingParentsMean(id: string, parents: seq<string>, ids: set<string>, e: GraphError)
    ensures e in MissingParents(id, parents, ids) <==> e.ParentMissing? && e.id == id && e.parent in parents && e.parent !in ids
  {
    if |parents| > 0 {
      MissingParentsMean(id, parents[..|parents| - 1], ids, e);
      assert parents == parents[..|parents| - 1] + [parents[|parents| - 1]];
    }
  }

  lemma {:induction false} ParentErrorsMean(order: seq<string>, parents: map<string, seq<string>>, ids: set<string>, e: GraphError)
    ensures e in ParentErrors(order, parents, ids) <==>
            e.ParentMissing? && e.id in order && e.id in parents && e.parent in parents[e.id] && e.parent !in ids
  {
    if |order| > 0 {
      var id := order[|order| - 1];
      ParentErrorsMean(order[..|order| - 1], parents, ids, e);
      assert order == order[..|order| - 1] + [id];
      if id in parents { MissingParentsMean(id, parents[id], ids, e); }
    }
  }

  lemma ParentMissingMeans(tasks: seq<Task>, id: string, parent: string)
    ensures ParentMissing(id, parent) in ParentErrors(Distinct(Ids(tasks)), ParentMap(tasks), ValidIds(Ids(tasks))) <==>
            DependsOn(tasks, id, parent) && !Exists(tasks, parent)
  {
    hide DependsOn, Called;
    ParentErrorsMean(Distinct(Ids(tasks)), ParentMap(tasks), ValidIds(Ids(tasks)), ParentMissing(id, parent));
    DistinctMembers(Ids(tasks));
    ParentMapCovers(tasks);
    ParentMapMeans(tasks, id, parent);
    IdsMean(tasks, parent);
  }

  /** The cycles are those of the dependencies on tasks that exist. */
  lemma EdgeMeans(tasks: seq<Task>, id: string, parent: string)
    ensures Edge(GraphOf(tasks), id, parent) <==> DependsOn(tasks, id, parent) && Exists(tasks, parent)
  {
    hide DependsOn, Called;
    ParentMapMeans(tasks, id, parent);
    IdsMean(tasks, parent);
  }

  // ---- Repeated ids -------------------------------------------------------------------------------

  lemma {:induction false} DistinctOnce(s: seq<string>)
    ensures forall i, j :: 0 <= i < j < |Distinct(s)| ==> Distinct(s)[i] != Distinct(s)[j]
  {
    if |s| > 0 { DistinctOnce(s[..|s| - 1]); }
  }

  lemma {:induction false} FilterOnce(s: seq<string>, p: string -> bool)
    requires forall i, j :: 0 <= i < j < |s| ==> s[i] != s[j]
    ensures forall i, j :: 0 <= i < j < |Filter(s, p)| ==> Filter(s, p)[i] != Filter(s, p)[j]
  {
    if |s| > 0 {
      var init := s[..|s| - 1];
      FilterOnce(init, p);
      FilterMember(init, p);
      forall i | 0 <= i < |Filter(init, p)| ensures Filter(init, p)[i] != s[|s| - 1] {
        assert Filter(init, p)[i] in Filter(init, p);
        var k :| 0 <= k < |init| && init[k] == Filter(init, p)[i];
      }
    }
  }

  /** At most one error lists the ids that occur more than once, in order, and there is one if there are any. */
  lemma DuplicatesExactly(ids: seq<string>)
    ensures |DuplicateErrors(ids)| <= 1
    ensures DuplicateErrors(ids) == [] <==> Unique(ids)
    ensures forall e :: e in DuplicateErrors(ids) ==>
              && e.DuplicateIds? && Sorted(e.ids, StringLe)
              && forall id :: id in e.ids <==> exists i, j :: 0 <= i < j < |ids| && ids[i] == id && ids[j] == id
  {
    DuplicatesAccepted(ids);
    var repeated := Filter(Distinct(ids), Repeated(ids));
    StringOrder();
    StableSortSorts(repeated, StringLe);
    StableSortMember(repeated, StringLe);
    FilterMember(Distinct(ids), Repeated(ids));
    DistinctMembers(ids);
    forall id ensures id in StableSort(repeated, StringLe) <==> exists i, j :: 0 <= i < j < |ids| && ids[i] == id && ids[j] == id {
      CountRepeats(ids, id);
    }
  }

  // ---- All of them ------------------------------------------------------------------------------------

  lemma OtherErrors(tasks: seq<Task>, e: GraphError)
    ensures e in ParentErrors(Distinct(Ids(tasks)), ParentMap(tasks), ValidIds(Ids(tasks))) ==> e.ParentMissing?
    ensures e in DuplicateErrors(Ids(tasks)) ==> e.DuplicateIds?
    ensures (exists i :: 0 <= i < |tasks| && Has(tasks[i], e)) ==>
              !e.ParentMissing? && !e.DuplicateIds? && !e.CycleDetected? && !e.TooManyInProgress?
  {
    hide Has, Ids, Distinct, ParentMap, ParentErrors, DuplicateErrors;
    ParentErrorsMean(Distinct(Ids(tasks)), ParentMap(tasks), ValidIds(Ids(tasks)), e);
    DuplicatesExactly(Ids(tasks));
    forall t | Has(t, e) ensures !e.ParentMissing? && !e.DuplicateIds? && !e.CycleDetected? && !e.TooManyInProgress? {
      EntriesHave(t, e);
    }
  }

  lemma EntriesHave(t: Task, e: GraphError)
    requires Has(t, e)
    ensures !e.ParentMissing? && !e.DuplicateIds? && !e.CycleDetected? && !e.TooManyInProgress?
  {}

  ghost predicate Applies(tasks: seq<Task>, e: GraphError) {
    match e
    case ParentMissing(id, parent) => DependsOn(tasks, id, parent) && !Exists(tasks, parent)
    case CycleDetected => HasCycle(GraphOf(tasks))
    case TooManyInProgress => |Progressing(tasks)| > 3
    case DuplicateIds(_) => e in DuplicateErrors(Ids(tasks))
    case _ => exists i :: 0 <= i < |tasks| && Has(tasks[i], e)
  }

  /**
   The validator reports what the entries have, a parent that no entry goes by and the last entry of its child lists, the
   repeated ids, a cycle, and more than three tasks in progress -- and nothing else.
   */
  lemma ErrorsExactly(tasks: seq<Task>, e: GraphError)
    ensures e in Verdict(tasks) <==> Applies(tasks, e)
  {
    hide Has, EntryErrors, HasCycle, DependsOn, DuplicateErrors, ParentErrors, Exists, Progressing;
    AllEntryErrorsMean(tasks, e);
    ProgressIsCounted(tasks);
    OtherErrors(tasks, e);
    if e.ParentMissing? { ParentMissingMeans(tasks, e.id, e.parent); }
  }
}
