/** The terms of resuming a mission, in the words of its files: field names, capability states and scopes written out. */
module ResumeTerms {
  import opened Wrappers
  import opened Mission
  import opened Checkpoints
  import opened ResumeGuard

  // ---- Capabilities --------------------------------------------------------------------------

  /** An observed capability state is as much as the minimum asks for; no other text ever is. */
  predicate Reaches(observed: string, minimum: string) {
    || (minimum == "AVAILABLE" && (observed == "AVAILABLE" || observed == "AUTHORIZED_READ" || observed == "AUTHORIZED_WRITE"))
    || (minimum == "AUTHORIZED_READ" && (observed == "AUTHORIZED_READ" || observed == "AUTHORIZED_WRITE"))
    || (minimum == "AUTHORIZED_WRITE" && observed == "AUTHORIZED_WRITE")
  }

  lemma RanksMean(observed: string, minimum: string)
    ensures RankOf(observed).Some? && RankOf(minimum).Some? && RankOf(observed).value >= RankOf(minimum).value <==>
            Reaches(observed, minimum)
  {}

  /** The capability is observed, and at the minimum stated for it or above. */
  predicate Suffices(state: map<string, Json>, capabilities: Capabilities, name: string) {
    var minimums := Get(state, "required_capability_states");
    && name in capabilities && minimums.Object? && name in minimums.fields && minimums.fields[name].Text?
    && Reaches(capabilities[name], minimums.fields[name].text)
  }

  lemma GrantedMeans(state: map<string, Json>, capabilities: Capabilities, name: string)
    ensures Granted(state, capabilities, name) <==> Suffices(state, capabilities, name)
  {
    hide RankOf, Reaches;
    var minimums := Get(state, "required_capability_states");
    if name in capabilities && minimums.Object? && Get(minimums.fields, name).Text? {
      RanksMean(capabilities[name], Get(minimums.fields, name).text);
    }
  }

  ghost predicate EveryCapability(state: map<string, Json>, capabilities: Capabilities) {
    Get(state, "required_capabilities").List? ==>
      forall name :: Text(name) in Get(state, "required_capabilities").items ==> Suffices(state, capabilities, name)
  }

  /** The capability gate opens exactly when each required capability is observed at its minimum or above. */
  lemma CapabilitiesExactly(state: map<string, Json>, capabilities: Capabilities)
    requires StateValid(state)
    ensures CapabilityGate(state, capabilities).None? <==> EveryCapability(state, capabilities)
  {
    hide StateValid, Granted, Suffices;
    CapabilityGateOpens(state, capabilities);
    forall name ensures Granted(state, capabilities, name) <==> Suffices(state, capabilities, name) {
      GrantedMeans(state, capabilities, name);
    }
  }

  // ---- Identities ------------------------------------------------------------------------------

  /** The field is the text that was observed. */
  predicate Same(state: map<string, Json>, key: string, observed: Option<string>) {
    observed.Some? && key in state && state[key] == Text(observed.value)
  }

  predicate SameIdentities(state: map<string, Json>, o: Observation) {
    && Same(state, "current_main_sha", o.main)
    && Same(state, "production_sha", o.production)
    && Same(state, "active_branch_head", o.branchHead)
    && Same(state, "active_branch", o.branch)
    && Same(state, "active_worktree", o.worktree)
  }

  lemma ScopeMeans(state: map<string, Json>, scope: Scope, observed: Option<string>)
    requires StateValid(state) && !scope.Cleanliness?
    ensures TextOf(observed) == Expected(state, scope) <==> Same(state, FieldOf(scope), observed)
  {
    hide StateValid, FieldOf;
    ValidStateStatesScopes(state, scope);
  }

  lemma IdentitiesMean(state: map<string, Json>, o: Observation)
    requires StateValid(state)
    ensures IdentityAsSealed(state, o) <==> SameIdentities(state, o)
  {
    hide StateValid, Same;
    ScopeMeans(state, RepositoryMain, o.main);
    ScopeMeans(state, ProductionRevision, o.production);
    ScopeMeans(state, BranchHead, o.branchHead);
    ScopeMeans(state, ActiveBranch, o.branch);
    ScopeMeans(state, ActiveWorktree, o.worktree);
    if IdentityAsSealed(state, o) {
      assert Observed(o, RepositoryMain) == Expected(state, RepositoryMain);
      assert Observed(o, ProductionRevision) == Expected(state, ProductionRevision);
      assert Observed(o, BranchHead) == Expected(state, BranchHead);
      assert Observed(o, ActiveBranch) == Expected(state, ActiveBranch);
      assert Observed(o, ActiveWorktree) == Expected(state, ActiveWorktree);
    }
  }

  // ---- Preconditions ------------------------------------------------------------------------------

  /** What is observed under the name of a scope. */
  function Seen(o: Observation, name: string): Option<Json> {
    if name == "repository_main" then Some(TextOf(o.main))
    else if name == "production_revision" then Some(TextOf(o.production))
    else if name == "branch_head" then Some(TextOf(o.branchHead))
    else if name == "active_branch" then Some(TextOf(o.branch))
    else if name == "active_worktree" then Some(TextOf(o.worktree))
    else if name == "worktree_cleanliness" then Some(BoolOf(o.dirty))
    else None
  }

  /** The field that a scope's name stands for in the mission state. */
  function SealedUnder(name: string): string {
    if name == "repository_main" then "current_main_sha"
    else if name == "production_revision" then "production_sha"
    else if name == "branch_head" then "active_branch_head"
    else if name == "active_branch" then "active_branch"
    else if name == "active_worktree" then "active_worktree"
    else "active_worktree_dirty"
  }

  /** A field of the state, or an observation, is what the item expects; "checkpoint" stands for the sealed value. */
  predicate Holds(item: Json, state: map<string, Json>, o: Observation) {
    && item.Object?
    && var (kind, expected, field, scope) :=
         (Get(item.fields, "kind"), Get(item.fields, "expected"), Get(item.fields, "field"), Get(item.fields, "scope"));
       || (kind == Text("state_equals") && field.Text? && Get(state, field.text) == expected)
       || (kind == Text("observation_equals") && scope.Text? && Seen(o, scope.text).Some?
           && Seen(o, scope.text).value == if expected == Text("checkpoint") then Get(state, SealedUnder(scope.text)) else expected)
  }

  lemma ScopeNamesMean(state: map<string, Json>, o: Observation, name: string)
    ensures ScopeOf(name).Some? <==> Seen(o, name).Some?
    ensures ScopeOf(name).Some? ==>
              Observed(o, ScopeOf(name).value) == Seen(o, name).value
              && Expected(state, ScopeOf(name).value) == Get(state, SealedUnder(name))
  {
    hide Get;
  }

  lemma HoldsMeans(item: Json, state: map<string, Json>, o: Observation)
    ensures EvaluatePrecondition(item, state, o).Met? <==> Holds(item, state, o)
  {
    hide Seen, SealedUnder, ScopeOf, Observed, Expected, FieldOf;
    if item.Object? && Get(item.fields, "scope").Text? { ScopeNamesMean(state, o, Get(item.fields, "scope").text); }
  }

  /** No preconditions are stated, or a list of items that all hold. */
  ghost predicate EveryPrecondition(state: map<string, Json>, o: Observation) {
    "next_action_preconditions" in state ==>
      && state["next_action_preconditions"].List?
      && forall i :: 0 <= i < |state["next_action_preconditions"].items| ==>
           Holds(state["next_action_preconditions"].items[i], state, o)
  }

  lemma PreconditionsExactly(state: map<string, Json>, o: Observation)
    ensures PreconditionsHold(state, o) <==> EveryPrecondition(state, o)
  {
    hide EvaluatePrecondition, Holds;
    forall item ensures EvaluatePrecondition(item, state, o).Met? <==> Holds(item, state, o) {
      HoldsMeans(item, state, o);
    }
  }

  // ---- Loading ---------------------------------------------------------------------------------------

  /** The pointer leads to a sealed checkpoint of its digest, mission and number, and no recognised file has a higher one. */
  ghost predicate Leads(files: Files, p: Pointer, c: Checkpoint) {
    && LatestPointer in files && files[LatestPointer] == PointerJson(p)
    && p.path.Some? && p.path.value in files && files[p.path.value] == SealedJson(c)
    && p.sha == Some(Sha256(SealedJson(c))) && p.missionId == c.missionId && p.number == Some(c.number)
    && c.number <= 999_999 && forall n: nat :: n <= 999_999 && CheckpointFile(n) in files ==> n <= c.number
  }

  /** A checkpoint loads exactly when the pointer leads to it. */
  lemma LoadsExactly(files: Files, p: Pointer, c: Checkpoint)
    ensures Latest(files) == Ready(p, c) <==> Leads(files, p, c)
  {
    hide Highest;
    var h := Highest(files);
    assert h == 0 || (h <= 999_999 && CheckpointFile(h) in files) by { HighestIsThere(files); }
    forall n: nat | n <= 999_999 && CheckpointFile(n) in files ensures n <= h {
      HighestBounds(files, n);
    }
  }

  lemma HighestIsThere(files: Files)
    ensures Highest(files) == 0 || (Highest(files) <= 999_999 && CheckpointFile(Highest(files)) in files)
  {
    assert Highest(files) == 0 || Highest(files) in Numbers(files);
  }

  /** The pointer file names a path. */
  ghost predicate PointsTo(files: Files, p: Pointer) {
    LatestPointer in files && files[LatestPointer] == PointerJson(p) && p.path.Some?
  }

  /** Why nothing loads before a pointer is found. */
  lemma PointerAnswers(files: Files)
    ensures Latest(files) == Unloadable("latest_checkpoint_missing") <==> LatestPointer !in files
    ensures Latest(files) == Unloadable("latest_checkpoint_pointer_invalid") <==>
            LatestPointer in files && !exists p :: PointsTo(files, p)
  {
    if LatestPointer in files && files[LatestPointer].PointerJson? && files[LatestPointer].pointer.path.Some? {
      assert PointsTo(files, files[LatestPointer].pointer);
    }
  }

  /** Why nothing loads from the path in the pointer file. */
  lemma PathAnswers(files: Files, p: Pointer)
    requires PointsTo(files, p)
    ensures Latest(files) == Unloadable("checkpoint_missing") <==> p.path.value !in files
    ensures p.path.value in files ==>
              var file := files[p.path.value];
              && (Latest(files) == Unloadable("checkpoint_hash_mismatch") <==> p.sha != Some(Sha256(file)))
              && (Latest(files) == Unloadable("checkpoint_json_invalid") <==> p.sha == Some(Sha256(file)) && !file.SealedJson?)
  {}

  /** Why a sealed checkpoint found at that path, with the digest recorded for it, does not load. */
  lemma SequenceAnswers(files: Files, p: Pointer, c: Checkpoint)
    requires PointsTo(files, p) && p.path.value in files && files[p.path.value] == SealedJson(c)
    requires p.sha == Some(Sha256(SealedJson(c)))
    ensures Latest(files) == Unloadable("checkpoint_mission_mismatch") <==> p.missionId != c.missionId
    ensures p.missionId == c.missionId ==>
              && (Latest(files) == Unloadable("checkpoint_sequence_mismatch") <==> p.number != Some(c.number))
              && (p.number == Some(c.number) ==>
                    && (Latest(files) == Unloadable("checkpoint_sequence_invalid") <==> c.number > 999_999)
                    && (Latest(files) == Unloadable("checkpoint_sequence_regression") <==>
                        c.number <= 999_999 && exists n: nat :: c.number < n <= 999_999 && CheckpointFile(n) in files))
  {
    hide Highest;
    LoadsExactly(files, p, c);
  }

  // ---- The guard ---------------------------------------------------------------------------------------

  ghost predicate FilesUnchanged(files: Files, c: Checkpoint)
    requires c.stateFiles.Some?
  {
    forall name :: name in {
      "MISSION_STATE.json", "TASK_GRAPH.json", "EVIDENCE_LEDGER.json", "BRANCH_REGISTRY.json", "SCIENTIFIC_STATE.json",
      "DECISION_LOG.jsonl", "STEP_JOURNAL.json"} ==>
        name in c.stateFiles.value && StateFile(name) in files && c.stateFiles.value[name] == Some(Sha256(files[StateFile(name)]))
  }

  /** Everything the guard asks for, of the checkpoint and of what is observed. */
  ghost predicate Terms(files: Files, c: Checkpoint, o: Observation, capabilities: Capabilities)
    requires c.stateFiles.Some?
  {
    && (forall i :: 0 <= i < |c.journal.steps| ==> c.journal.steps[i].status != InProgress)
    && FilesUnchanged(files, c)
    && o.dirty == Some(false) && Get(c.state, "active_worktree_dirty") == Bool(false)
    && SameIdentities(c.state, o)
    && EveryCapability(c.state, capabilities)
    && EveryPrecondition(c.state, o)
  }

  /** The guard lets a mission resume from a proper checkpoint exactly on these terms. */
  lemma ResumesOnTheseTerms(files: Files, v: Validators, o: Observation, capabilities: Capabilities, p: Pointer, c: Checkpoint)
    requires Leads(files, p, c) && Proper(c, v)
    ensures Guard(files, o, capabilities).Resume? <==> Terms(files, c, o, capabilities)
    ensures Guard(files, o, capabilities).Resume? ==> Guard(files, o, capabilities) == Resume(p, c)
  {
    hide Guard, Leads, Latest, IdentityAsSealed, SameIdentities, CapabilitiesSuffice, EveryCapability, PreconditionsHold,
         EveryPrecondition, StateValid, JournalValid;
    LoadsExactly(files, p, c);
    ResumesExactly(files, v, o, capabilities);
    IdentitiesMean(c.state, o);
    CapabilitiesExactly(c.state, capabilities);
    CapabilityGateOpens(c.state, capabilities);
    PreconditionsExactly(c.state, o);
    assert FilesAsSealed(files, c) <==> FilesUnchanged(files, c);
  }

  /** Where nothing is led to, nobody resumes. */
  lemma NothingLoadedNothingResumed(files: Files, o: Observation, capabilities: Capabilities)
    ensures (forall p, c :: !Leads(files, p, c)) ==> Guard(files, o, capabilities).Blocked?
  {
    hide Leads, Latest, Decided;
    if forall p, c :: !Leads(files, p, c) {
      if Latest(files).Ready? { LoadsExactly(files, Latest(files).pointer, Latest(files).checkpoint); }
    }
  }

  // ---- What the guard says instead ---------------------------------------------------------------------

  /** The last step of the journal that is in progress. */
  ghost predicate LastOpen(steps: seq<Step>, s: Step) {
    exists i :: 0 <= i < |steps| && steps[i] == s && LastOpenAt(steps, i)
  }

  ghost predicate LastOpenAt(steps: seq<Step>, i: int) {
    0 <= i < |steps| && steps[i].status == InProgress && forall k :: i < k < |steps| ==> steps[k].status != InProgress
  }

  ghost predicate AnyOpen(steps: seq<Step>) { exists i :: 0 <= i < |steps| && steps[i].status == InProgress }

  /** The journal as it is now: none yet is an empty one, and one that is not a journal cannot be read. */
  function LiveSteps(files: Files): Option<seq<Step>> {
    if StateFile("STEP_JOURNAL.json") !in files then Some([])
    else if files[StateFile("STEP_JOURNAL.json")].JournalJson? then Some(files[StateFile("STEP_JOURNAL.json")].journal.steps)
    else None
  }

  /** A sealed file is no longer there. */
  ghost predicate FileMissing(files: Files, c: Checkpoint)
    requires c.stateFiles.Some?
  {
    exists name :: name in c.stateFiles.value && StateFile(name) !in files
  }

  /** The sealed files whose content is another now. */
  function ChangedFiles(files: Files, c: Checkpoint): set<string>
    requires c.stateFiles.Some?
  {
    set name | name in c.stateFiles.value && StateFile(name) in files
               && c.stateFiles.value[name] != Some(Sha256(files[StateFile(name)]))
  }

  /** Something was not observed. */
  predicate Unobserved(o: Observation) {
    o.main.None? || o.production.None? || o.branchHead.None? || o.branch.None? || o.worktree.None? || o.dirty.None?
  }

  /** An item that is neither of the two comparisons. */
  predicate IsNoComparison(item: Json, o: Observation) {
    || !item.Object?
    || (Get(item.fields, "kind") != Text("state_equals")
        && (Get(item.fields, "kind") != Text("observation_equals")
            || !Get(item.fields, "scope").Text? || Seen(o, Get(item.fields, "scope").text).None?))
  }

  ghost predicate PreconditionsReadable(state: map<string, Json>, o: Observation) {
    "next_action_preconditions" in state ==>
      && state["next_action_preconditions"].List?
      && forall i :: 0 <= i < |state["next_action_preconditions"].items| ==>
           !IsNoComparison(state["next_action_preconditions"].items[i], o)
  }

  /** The identities that are not as sealed, in the order in which they are compared. */
  function Drifts(state: map<string, Json>, o: Observation): seq<Scope> {
    DriftIn(state, "current_main_sha", o.main, RepositoryMain)
    + (DriftIn(state, "production_sha", o.production, ProductionRevision)
       + (DriftIn(state, "active_branch_head", o.branchHead, BranchHead)
          + (DriftIn(state, "active_branch", o.branch, ActiveBranch)
             + (DriftIn(state, "active_worktree", o.worktree, ActiveWorktree) + []))))
  }

  function DriftIn(state: map<string, Json>, key: string, observed: Option<string>, scope: Scope): seq<Scope> {
    if Same(state, key, observed) then [] else [scope]
  }

  /**
   The verdict is about the first thing that stands in the way: open steps, files gone or changed, a dirty worktree, an
   observation or a capability that is missing, preconditions, and at last identities that have drifted.
   */
  ghost predicate Answers(verdict: Verdict, files: Files, p: Pointer, c: Checkpoint, o: Observation, capabilities: Capabilities)
    requires c.stateFiles.Some?
  {
    var state := c.state;
    if LiveSteps(files).None? then verdict == Raised("step journal")
    else if AnyOpen(LiveSteps(files).value) then verdict.Interrupted? && LastOpen(LiveSteps(files).value, verdict.step)
    else if AnyOpen(c.journal.steps) then verdict.Interrupted? && LastOpen(c.journal.steps, verdict.step)
    else if FileMissing(files, c) then verdict == Blocked("checkpoint_state_file_missing")
    else if ChangedFiles(files, c) != {} then verdict == Reconcile("uncheckpointed_state_change", ChangedFiles(files, c))
    else if o.dirty == Some(true) then verdict == Reconcile("uncommitted_worktree_changes", {})
    else if o.dirty == Some(false) && Get(state, "active_worktree_dirty") == Bool(true)
      then verdict == Reconcile("worktree_cleanliness_changed_since_checkpoint", {})
    else if Unobserved(o) then verdict == Blocked("required_observation_unavailable")
    else if !EveryCapability(state, capabilities) then verdict == Blocked("required_capability_unavailable")
    else if !PreconditionsReadable(state, o) then verdict == Blocked("next_action_precondition_invalid")
    else if !EveryPrecondition(state, o) then verdict == Blocked("next_action_precondition_unmet")
    else if Drifts(state, o) != [] then verdict == Drift(Drifts(state, o))
    else verdict == Resume(p, c)
  }

  lemma {:induction false} OpenStepsMean(steps: seq<Step>)
    ensures OpenSteps(steps) == [] <==> !AnyOpen(steps)
    ensures OpenSteps(steps) != [] ==> LastOpen(steps, OpenSteps(steps)[|OpenSteps(steps)| - 1])
  {
    if |steps| > 0 {
      var init, n := steps[..|steps| - 1], |steps| - 1;
      OpenStepsMean(init);
      if steps[n].status.InProgress? {
        assert LastOpenAt(steps, n);
      } else if OpenSteps(init) != [] {
        var i :| 0 <= i < |init| && init[i] == OpenSteps(init)[|OpenSteps(init)| - 1] && LastOpenAt(init, i);
        assert steps[i] == init[i] && LastOpenAt(steps, i);
      }
    }
  }

  lemma InterruptedMeans(files: Files, c: Checkpoint)
    ensures var gate := InterruptedStepGate(files, c);
            if LiveSteps(files).None? then gate == Some(Raised("step journal"))
            else if AnyOpen(LiveSteps(files).value)
              then gate.Some? && gate.value.Interrupted? && LastOpen(LiveSteps(files).value, gate.value.step)
            else if AnyOpen(c.journal.steps)
              then gate.Some? && gate.value.Interrupted? && LastOpen(c.journal.steps, gate.value.step)
            else gate == None
  {
    hide OpenSteps, AnyOpen, LastOpen;
    if LiveSteps(files).Some? { OpenStepsMean(LiveSteps(files).value); }
    OpenStepsMean(c.journal.steps);
  }

  lemma FilesGateMeans(files: Files, c: Checkpoint, v: Validators)
    requires Proper(c, v)
    ensures StateFilesGate(files, c) ==
            if FileMissing(files, c) then Some(Blocked("checkpoint_state_file_missing"))
            else if ChangedFiles(files, c) != {} then Some(Reconcile("uncheckpointed_state_change", ChangedFiles(files, c)))
            else None
  {
    hide StateValid, JournalValid;
    var sealed := c.stateFiles.value;
    forall name ensures Gone(files, sealed, name) <==> name in sealed && StateFile(name) !in files {}
    assert (set name | name in sealed && Changed(files, sealed, name)) == ChangedFiles(files, c);
  }

  lemma ObservationGateMeans(state: map<string, Json>, o: Observation)
    requires StateValid(state)
    ensures ObservationGate(state, o) == if Unobserved(o) then Some(Blocked("required_observation_unavailable")) else None
  {
    hide StateValid;
    forall scope ensures !Expected(state, scope).Null? { ValidStateStatesScopes(state, scope); }
    assert Observed(o, RepositoryMain).Null? <==> o.main.None?;
    assert Observed(o, ProductionRevision).Null? <==> o.production.None?;
    assert Observed(o, BranchHead).Null? <==> o.branchHead.None?;
    assert Observed(o, ActiveBranch).Null? <==> o.branch.None?;
    assert Observed(o, ActiveWorktree).Null? <==> o.worktree.None?;
    assert Observed(o, Cleanliness).Null? <==> o.dirty.None?;
  }

  lemma CapabilityGateMeans(state: map<string, Json>, capabilities: Capabilities)
    requires StateValid(state)
    ensures CapabilityGate(state, capabilities) ==
            if EveryCapability(state, capabilities) then None else Some(Blocked("required_capability_unavailable"))
  {
    hide StateValid, EveryCapability, Granted;
    CapabilitiesExactly(state, capabilities);
    StatesMinimums(state);
  }

  lemma StatesMinimums(state: map<string, Json>)
    requires StateValid(state)
    ensures Get(state, "required_capability_states").Object?
  {}

  lemma ItemMeans(item: Json, state: map<string, Json>, o: Observation)
    ensures EvaluatePrecondition(item, state, o) ==
            if IsNoComparison(item, o) then Invalid else if Holds(item, state, o) then Met else Unmet
  {
    hide Seen, SealedUnder, ScopeOf, Observed, Expected, FieldOf;
    if item.Object? && Get(item.fields, "scope").Text? { ScopeNamesMean(state, o, Get(item.fields, "scope").text); }
  }

  lemma {:induction false} ItemsMean(items: seq<Json>, state: map<string, Json>, o: Observation)
    ensures EvaluateAll(items, state, o) ==
            if exists i :: 0 <= i < |items| && IsNoComparison(items[i], o) then Invalid
            else if forall i :: 0 <= i < |items| ==> Holds(items[i], state, o) then Met else Unmet
  {
    hide EvaluatePrecondition, IsNoComparison, Holds;
    if |items| > 0 {
      var init, n := items[..|items| - 1], |items| - 1;
      ItemsMean(init, state, o);
      ItemMeans(items[n], state, o);
      assert forall i :: 0 <= i < n ==> items[i] == init[i];
    }
  }

  lemma PreconditionGateMeans(state: map<string, Json>, o: Observation)
    ensures PreconditionGate(state, o) ==
            if !PreconditionsReadable(state, o) then Some(Blocked("next_action_precondition_invalid"))
            else if !EveryPrecondition(state, o) then Some(Blocked("next_action_precondition_unmet"))
            else None
  {
    hide EvaluateAll, IsNoComparison, Holds;
    if "next_action_preconditions" in state && state["next_action_preconditions"].List? {
      ItemsMean(state["next_action_preconditions"].items, state, o);
    } else {
      ItemsMean([], state, o);
    }
  }

  lemma DriftMeans(state: map<string, Json>, o: Observation)
    requires StateValid(state) && !Unobserved(o)
    ensures DriftOf(state, o, REVISION_SCOPES) == Drifts(state, o)
  {
    hide StateValid, Same, Drifted, DriftOf;
    DriftedMeans(state, o, RepositoryMain, o.main);
    DriftedMeans(state, o, ProductionRevision, o.production);
    DriftedMeans(state, o, BranchHead, o.branchHead);
    DriftedMeans(state, o, ActiveBranch, o.branch);
    DriftedMeans(state, o, ActiveWorktree, o.worktree);
    NoScopes(state, o);
    DriftStep(state, o, REVISION_SCOPES, 0);
    DriftStep(state, o, REVISION_SCOPES, 1);
    DriftStep(state, o, REVISION_SCOPES, 2);
    DriftStep(state, o, REVISION_SCOPES, 3);
    DriftStep(state, o, REVISION_SCOPES, 4);
    assert REVISION_SCOPES[0..] == REVISION_SCOPES && REVISION_SCOPES[5..] == [];
  }

  lemma NoScopes(state: map<string, Json>, o: Observation)
    ensures DriftOf(state, o, []) == []
  {}

  lemma DriftStep(state: map<string, Json>, o: Observation, scopes: seq<Scope>, i: nat)
    requires i < |scopes|
    ensures DriftOf(state, o, scopes[i..]) ==
            (if Drifted(state, o, scopes[i]) then [scopes[i]] else []) + DriftOf(state, o, scopes[i + 1..])
  {
    assert scopes[i..][1..] == scopes[i + 1..];
  }

  lemma DriftedMeans(state: map<string, Json>, o: Observation, scope: Scope, observed: Option<string>)
    requires StateValid(state) && !scope.Cleanliness? && observed.Some? && Observed(o, scope) == TextOf(observed)
    ensures Drifted(state, o, scope) <==> !Same(state, FieldOf(scope), observed)
  {
    hide StateValid, FieldOf, Same;
    ValidStateStatesScopes(state, scope);
    ScopeMeans(state, scope, observed);
  }

  /** Whatever the guard answers, it is about the first thing in the way. */
  lemma GuardAnswers(files: Files, v: Validators, o: Observation, capabilities: Capabilities, p: Pointer, c: Checkpoint)
    requires Leads(files, p, c) && Proper(c, v)
    ensures Answers(Guard(files, o, capabilities), files, p, c, o, capabilities)
  {
    hide Leads, Latest, Answers, Decided, Proper;
    ProperState(c, v);
    LoadsExactly(files, p, c);
    DecidedAnswers(files, v, o, capabilities, p, c);
  }

  lemma DecidedAnswers(files: Files, v: Validators, o: Observation, capabilities: Capabilities, p: Pointer, c: Checkpoint)
    requires Proper(c, v)
    ensures Answers(Decided(files, p, c, o, capabilities), files, p, c, o, capabilities)
  {
    hide Proper, Gates, InterruptedStepGate, StateFilesGate, CleanlinessGate, ObservationGate, CapabilityGate, PreconditionGate,
         DriftOf, Drifts, Unobserved, EveryCapability, EveryPrecondition, PreconditionsReadable, FileMissing,
         ChangedFiles, AnyOpen, LastOpen, LiveSteps, FirstOf, Get;
    ProperState(c, v);
    InterruptedMeans(files, c);
    FilesGateMeans(files, c, v);
    ObservationGateMeans(c.state, o);
    CapabilityGateMeans(c.state, capabilities);
    PreconditionGateMeans(c.state, o);
    CleanlinessGateMeans(c.state, o);
    if !Unobserved(o) { DriftMeans(c.state, o); }
    SixGatesInOrder(files, c, o, capabilities);
    var gate := FirstOf(Gates(files, c, o, capabilities));
    if InterruptedStepGate(files, c).Some? || StateFilesGate(files, c).Some? {
      assert gate.Some?;
    } else if gate.Some? {
      assert !Decided(files, p, c, o, capabilities).Interrupted?;
    }
  }

  lemma ProperState(c: Checkpoint, v: Validators)
    requires Proper(c, v)
    ensures StateValid(c.state) && c.stateFiles.Some?
  {
    hide StateValid, JournalValid;
  }

  lemma CleanlinessGateMeans(state: map<string, Json>, o: Observation)
    ensures CleanlinessGate(state, o.dirty) ==
            if o.dirty == Some(true) then Some(Reconcile("uncommitted_worktree_changes", {}))
            else if o.dirty == Some(false) && Get(state, "active_worktree_dirty") == Bool(true)
              then Some(Reconcile("worktree_cleanliness_changed_since_checkpoint", {}))
            else None
  {
    hide Get;
  }

  lemma SixGatesInOrder(files: Files, c: Checkpoint, o: Observation, capabilities: Capabilities)
    ensures FirstOf(Gates(files, c, o, capabilities)) ==
            if InterruptedStepGate(files, c).Some? then InterruptedStepGate(files, c)
            else if StateFilesGate(files, c).Some? then StateFilesGate(files, c)
            else if CleanlinessGate(c.state, o.dirty).Some? then CleanlinessGate(c.state, o.dirty)
            else if ObservationGate(c.state, o).Some? then ObservationGate(c.state, o)
            else if CapabilityGate(c.state, capabilities).Some? then CapabilityGate(c.state, capabilities)
            else PreconditionGate(c.state, o)
  {
    hide InterruptedStepGate, StateFilesGate, CleanlinessGate, ObservationGate, CapabilityGate, PreconditionGate, FirstOf;
    FirstOfSix(Gates(files, c, o, capabilities));
  }

  lemma FirstOfSix(gates: seq<Option<Verdict>>)
    requires |gates| == 6
    ensures FirstOf(gates) ==
            if gates[0].Some? then gates[0] else if gates[1].Some? then gates[1] else if gates[2].Some? then gates[2]
            else if gates[3].Some? then gates[3] else if gates[4].Some? then gates[4] else gates[5]
  {
    FirstStep(gates, 0);
    FirstStep(gates, 1);
    FirstStep(gates, 2);
    FirstStep(gates, 3);
    FirstStep(gates, 4);
    FirstStep(gates, 5);
    assert gates[0..] == gates && gates[6..] == [] && FirstOf([]) == None;
  }

  lemma FirstStep(gates: seq<Option<Verdict>>, i: nat)
    requires i < |gates|
    ensures FirstOf(gates[i..]) == if gates[i].Some? then gates[i] else FirstOf(gates[i + 1..])
  {
    assert gates[i..][1..] == gates[i + 1..];
  }
}
