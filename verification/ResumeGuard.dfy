/** The gates between a loaded checkpoint and permission to resume, and exactly when all of them open. */
module ResumeGuard {
  import opened Wrappers
  import opened Mission
  import opened Checkpoints

  /** What the caller observes now; `None` is an observation that was not made. */
  datatype Observation = Observation(
    main: Option<string>, production: Option<string>, branchHead: Option<string>, branch: Option<string>,
    worktree: Option<string>, dirty: Option<bool>)

  type Capabilities = map<string, string>

  datatype Verdict =
    | Resume(pointer: Pointer, checkpoint: Checkpoint)
    | Blocked(reason: string)
    | Reconcile(reason: string, names: set<string>)
    | Interrupted(step: Step)
    | Drift(scopes: seq<Scope>)
    | Raised(message: string)

  // ---- Gates -------------------------------------------------------------------------------

  function OpenSteps(steps: seq<Step>): seq<Step> {
    if |steps| == 0 then []
    else
      var before := OpenSteps(steps[..|steps| - 1]);
      if steps[|steps| - 1].status.InProgress? then before + [steps[|steps| - 1]] else before
  }

  function InterruptedStepGate(files: Files, c: Checkpoint): Option<Verdict> {
    var journal := LoadedJournal(files);
    if journal.None? then Some(Raised("step journal"))
    else
      var live, sealed := OpenSteps(journal.value.steps), OpenSteps(c.journal.steps);
      if |live| > 0 then Some(Interrupted(live[|live| - 1]))
      else if |sealed| > 0 then Some(Interrupted(sealed[|sealed| - 1]))
      else None
  }

  predicate Gone(files: Files, sealed: map<string, Option<Digest>>, name: string) {
    name in sealed && sealed[name].Some? && StateFile(name) !in files
  }

  predicate Changed(files: Files, sealed: map<string, Option<Digest>>, name: string) {
    name in sealed && StateFile(name) in files && sealed[name] != Some(Sha256(files[StateFile(name)]))
  }

  function StateFilesGate(files: Files, c: Checkpoint): Option<Verdict> {
    if c.stateFiles.None? || exists name :: name in DURABLE_FILES && name !in c.stateFiles.value
      then Some(Blocked("checkpoint_state_file_contract_incomplete"))
    else
      var sealed := c.stateFiles.value;
      var changed := set name | name in sealed && Changed(files, sealed, name);
      if exists name :: name in sealed && Gone(files, sealed, name) then Some(Blocked("checkpoint_state_file_missing"))
      else if changed != {} then Some(Reconcile("uncheckpointed_state_change", changed))
      else None
  }

  function CleanlinessGate(state: map<string, Json>, dirty: Option<bool>): Option<Verdict> {
    if dirty == Some(true) then Some(Reconcile("uncommitted_worktree_changes", {}))
    else if dirty == Some(false) && Get(state, "active_worktree_dirty") == Bool(true)
      then Some(Reconcile("worktree_cleanliness_changed_since_checkpoint", {}))
    else None
  }

  function TextOf(s: Option<string>): Json { if s.Some? then Text(s.value) else Null }

  function BoolOf(b: Option<bool>): Json { if b.Some? then Bool(b.value) else Null }

  /** The observation of a scope, as the JSON value it is compared as. */
  function Observed(o: Observation, scope: Scope): Json {
    match scope
    case RepositoryMain => TextOf(o.main)
    case ProductionRevision => TextOf(o.production)
    case BranchHead => TextOf(o.branchHead)
    case ActiveBranch => TextOf(o.branch)
    case ActiveWorktree => TextOf(o.worktree)
    case Cleanliness => BoolOf(o.dirty)
  }

  /** What the checkpoint expects of a scope. */
  function Expected(state: map<string, Json>, scope: Scope): Json { Get(state, FieldOf(scope)) }

  function ObservationGate(state: map<string, Json>, o: Observation): Option<Verdict> {
    if exists scope :: Expected(state, scope).Null?
      then Some(Blocked("checkpoint_observation_contract_incomplete"))
    else if exists scope :: Observed(o, scope).Null?
      then Some(Blocked("required_observation_unavailable"))
    else None
  }

  /** The minimum rank a checkpoint demands of a capability. */
  function MinimumOf(state: map<string, Json>, name: string): Option<nat> {
    var minimums := Get(state, "required_capability_states");
    if minimums.Object? && Get(minimums.fields, name).Text? then RankOf(Get(minimums.fields, name).text) else None
  }

  predicate Granted(state: map<string, Json>, capabilities: Capabilities, name: string) {
    && name in capabilities && RankOf(capabilities[name]).Some?
    && MinimumOf(state, name).Some? && RankOf(capabilities[name]).value >= MinimumOf(state, name).value
  }

  predicate RequiresName(state: map<string, Json>, name: string) {
    Get(state, "required_capabilities").List? && Text(name) in Get(state, "required_capabilities").items
  }

  function RequiredNames(state: map<string, Json>): set<string> {
    if Get(state, "required_capabilities").List?
    then set j | j in Get(state, "required_capabilities").items && j.Text? :: j.text
    else {}
  }

  function CapabilityGate(state: map<string, Json>, capabilities: Capabilities): Option<Verdict> {
    if !Get(state, "required_capability_states").Object? then Some(Blocked("capability_requirement_contract_incomplete"))
    else if exists name :: name in RequiredNames(state) && !Granted(state, capabilities, name)
      then Some(Blocked("required_capability_unavailable"))
    else None
  }

  datatype Evaluation = Met | Unmet | Invalid

  function Judged(met: bool): Evaluation { if met then Met else Unmet }

  function EvaluatePrecondition(item: Json, state: map<string, Json>, o: Observation): Evaluation {
    if !item.Object? then Invalid
    else
      var (kind, expected) := (Get(item.fields, "kind"), Get(item.fields, "expected"));
      if kind == Text("state_equals") then
        Judged(Get(item.fields, "field").Text? && Get(state, Get(item.fields, "field").text) == expected)
      else if kind != Text("observation_equals") then Invalid
      else
        var scope := Get(item.fields, "scope");
        if !scope.Text? || ScopeOf(scope.text).None? then Invalid
        else
          var s := ScopeOf(scope.text).value;
          Judged(Observed(o, s) == if expected == Text("checkpoint") then Expected(state, s) else expected)
  }

  /** The first invalid item, else whether any is unmet. */
  function EvaluateAll(items: seq<Json>, state: map<string, Json>, o: Observation): Evaluation {
    if |items| == 0 then Met
    else
      var before := EvaluateAll(items[..|items| - 1], state, o);
      var last := EvaluatePrecondition(items[|items| - 1], state, o);
      if before.Invalid? || last.Invalid? then Invalid
      else if before.Unmet? then Unmet else last
  }

  function Preconditions(state: map<string, Json>): Json {
    if "next_action_preconditions" in state then state["next_action_preconditions"] else List([])
  }

  function PreconditionGate(state: map<string, Json>, o: Observation): Option<Verdict> {
    var items := Preconditions(state);
    if !items.List? then Some(Blocked("next_action_precondition_invalid"))
    else
      match EvaluateAll(items.items, state, o)
      case Invalid => Some(Blocked("next_action_precondition_invalid"))
      case Unmet => Some(Blocked("next_action_precondition_unmet"))
      case Met => None
  }

  const REVISION_SCOPES := [RepositoryMain, ProductionRevision, BranchHead, ActiveBranch, ActiveWorktree]

  predicate Drifted(state: map<string, Json>, o: Observation, scope: Scope) {
    var (expected, observed) := (Expected(state, scope), Observed(o, scope));
    !observed.Null? && !expected.Null? && observed != expected
  }

  function DriftOf(state: map<string, Json>, o: Observation, scopes: seq<Scope>): seq<Scope> {
    if |scopes| == 0 then []
    else (if Drifted(state, o, scopes[0]) then [scopes[0]] else []) + DriftOf(state, o, scopes[1..])
  }

  // ---- The guard ---------------------------------------------------------------------------------

  function Gates(files: Files, c: Checkpoint, o: Observation, capabilities: Capabilities): seq<Option<Verdict>> {
    [InterruptedStepGate(files, c), StateFilesGate(files, c), CleanlinessGate(c.state, o.dirty),
     ObservationGate(c.state, o), CapabilityGate(c.state, capabilities), PreconditionGate(c.state, o)]
  }

  function FirstOf(gates: seq<Option<Verdict>>): Option<Verdict> {
    if |gates| == 0 then None else if gates[0].Some? then gates[0] else FirstOf(gates[1..])
  }

  function Decided(files: Files, p: Pointer, c: Checkpoint, o: Observation, capabilities: Capabilities): Verdict {
    var stopped := FirstOf(Gates(files, c, o, capabilities));
    if stopped.Some? then stopped.value
    else
      var drift := DriftOf(c.state, o, REVISION_SCOPES);
      if |drift| > 0 then Drift(drift) else Resume(p, c)
  }

  ghost function Guard(files: Files, o: Observation, capabilities: Capabilities): Verdict {
    match Latest(files)
    case Unloadable(reason) => Blocked(reason)
    case Ready(p, c) => Decided(files, p, c, o, capabilities)
  }

  method ResumeGuard(mission: MissionDirectory, o: Observation, capabilities: Capabilities) returns (v: Verdict)
    ensures v == Guard(mission.files, o, capabilities)
  {
    hide InterruptedStepGate, StateFilesGate, CleanlinessGate, ObservationGate, CapabilityGate,
         PreconditionGate, DriftOf, LatestVia;
    var loaded := mission.LoadLatestCheckpoint();
    if loaded.Unloadable? { return Blocked(loaded.reason); }
    var gates := Gates(mission.files, loaded.checkpoint, o, capabilities);
    for i := 0 to |gates|
      invariant FirstOf(gates) == FirstOf(gates[i..])
    {
      assert gates[i..][1..] == gates[i + 1..];
      if gates[i].Some? { return gates[i].value; }
    }
    var drift := DriftOf(loaded.checkpoint.state, o, REVISION_SCOPES);
    if |drift| > 0 { return Drift(drift); }
    return Resume(loaded.pointer, loaded.checkpoint);
  }

  // ---- Exactly when it resumes -----------------------------------------------------------------------

  /** A checkpoint as sealing produces it. */
  ghost predicate Proper(c: Checkpoint, v: Validators) {
    && StateValid(c.state) && v.secretFree(c.state) && JournalValid(c.journal) && c.missionId == Get(c.state, "mission_id")
    && c.stateFiles.Some? && c.stateFiles.value.Keys == DURABLE_FILES
    && (forall name :: name in DURABLE_FILES ==> c.stateFiles.value[name].Some?)
    && c.stateFiles.value[STEP_JOURNAL] == Some(Sha256(JournalJson(c.journal)))
    && c.stateFiles.value[MISSION_STATE] == Some(Sha256(StateJson(c.state)))
  }

  ghost predicate NoOpenStep(steps: seq<Step>) { forall i :: 0 <= i < |steps| ==> !steps[i].status.InProgress? }

  ghost predicate FilesAsSealed(files: Files, c: Checkpoint)
    requires c.stateFiles.Some?
  {
    forall name :: name in DURABLE_FILES ==>
      name in c.stateFiles.value && StateFile(name) in files && c.stateFiles.value[name] == Some(Sha256(files[StateFile(name)]))
  }

  /** Every identity is observed, and observed as sealed. */
  ghost predicate IdentityAsSealed(state: map<string, Json>, o: Observation) {
    forall scope: Scope :: !scope.Cleanliness? ==> Observed(o, scope) == Expected(state, scope)
  }

  ghost predicate CapabilitiesSuffice(state: map<string, Json>, capabilities: Capabilities) {
    forall name :: RequiresName(state, name) ==> Granted(state, capabilities, name)
  }

  /** Preconditions hold one by one; an explicit null in their place never does. */
  ghost predicate PreconditionsHold(state: map<string, Json>, o: Observation) {
    Preconditions(state).List?
    && forall i :: 0 <= i < |Preconditions(state).items| ==> EvaluatePrecondition(Preconditions(state).items[i], state, o).Met?
  }

  lemma {:induction false} OpenStepsNone(steps: seq<Step>)
    ensures OpenSteps(steps) == [] <==> NoOpenStep(steps)
  {
    if |steps| > 0 { OpenStepsNone(steps[..|steps| - 1]); }
  }

  lemma {:induction false} EvaluateAllMet(items: seq<Json>, state: map<string, Json>, o: Observation)
    ensures EvaluateAll(items, state, o).Met? <==> forall i :: 0 <= i < |items| ==> EvaluatePrecondition(items[i], state, o).Met?
  {
    if |items| > 0 { EvaluateAllMet(items[..|items| - 1], state, o); }
  }

  lemma InterruptedGateOpens(files: Files, c: Checkpoint)
    ensures InterruptedStepGate(files, c).None? <==>
            LoadedJournal(files).Some? && NoOpenStep(LoadedJournal(files).value.steps) && NoOpenStep(c.journal.steps)
  {
    OpenStepsNone(c.journal.steps);
    if LoadedJournal(files).Some? { OpenStepsNone(LoadedJournal(files).value.steps); }
  }

  lemma StateFilesGateOpens(files: Files, c: Checkpoint, v: Validators)
    requires Proper(c, v)
    ensures StateFilesGate(files, c).None? <==> FilesAsSealed(files, c)
  {
    hide StateValid, JournalValid;
    var sealed := c.stateFiles.value;
    var changed := set name | name in sealed && Changed(files, sealed, name);
    if FilesAsSealed(files, c) {
      assert changed == {};
    } else {
      var name :| name in DURABLE_FILES && !(StateFile(name) in files && sealed[name] == Some(Sha256(files[StateFile(name)])));
      if StateFile(name) in files {
        assert name in changed;
      } else {
        assert Gone(files, sealed, name);
      }
    }
  }

  lemma CapabilityGateOpens(state: map<string, Json>, capabilities: Capabilities)
    requires StateValid(state)
    ensures CapabilityGate(state, capabilities).None? <==> CapabilitiesSuffice(state, capabilities)
  {
    forall name ensures name in RequiredNames(state) <==> RequiresName(state, name) {
      if RequiresName(state, name) { assert Text(name).text in RequiredNames(state); }
    }
  }

  lemma PreconditionGateOpens(state: map<string, Json>, o: Observation)
    ensures PreconditionGate(state, o).None? <==> PreconditionsHold(state, o)
  {
    if Preconditions(state).List? { EvaluateAllMet(Preconditions(state).items, state, o); }
  }

  lemma {:induction false} NoDrift(state: map<string, Json>, o: Observation, scopes: seq<Scope>)
    ensures DriftOf(state, o, scopes) == [] <==> forall scope :: scope in scopes ==> !Drifted(state, o, scope)
  {
    if |scopes| > 0 {
      NoDrift(state, o, scopes[1..]);
      assert scopes == [scopes[0]] + scopes[1..];
    }
  }

  lemma ValidStateStatesScopes(state: map<string, Json>, scope: Scope)
    requires StateValid(state)
    ensures !Expected(state, scope).Null?
  {
    assert FieldOf(scope) in REQUIRED_NONEMPTY || scope.Cleanliness?;
  }

  lemma NoRevisionDrift(state: map<string, Json>, o: Observation)
    ensures DriftOf(state, o, REVISION_SCOPES) == [] <==> forall scope: Scope :: !scope.Cleanliness? ==> !Drifted(state, o, scope)
  {
    NoDrift(state, o, REVISION_SCOPES);
    forall scope: Scope ensures scope in REVISION_SCOPES <==> !scope.Cleanliness? {
      assert REVISION_SCOPES[0] == RepositoryMain && REVISION_SCOPES[1] == ProductionRevision && REVISION_SCOPES[2] == BranchHead
        && REVISION_SCOPES[3] == ActiveBranch && REVISION_SCOPES[4] == ActiveWorktree;
    }
  }

  /** Together, the cleanliness, observation and drift checks demand a full, clean and matching observation. */
  lemma ObservationsOpen(state: map<string, Json>, o: Observation)
    requires StateValid(state)
    ensures CleanlinessGate(state, o.dirty).None? && ObservationGate(state, o).None?
            && DriftOf(state, o, REVISION_SCOPES) == [] <==>
            ObservedAsSealed(state, o)
  {
    hide CapabilitiesValid, PreconditionsValid, IsSha;
    NoRevisionDrift(state, o);
    forall scope ensures !Expected(state, scope).Null? {
      ValidStateStatesScopes(state, scope);
    }
    assert Observed(o, Cleanliness) == BoolOf(o.dirty);
    if ObservationGate(state, o).None? && DriftOf(state, o, REVISION_SCOPES) == [] {
      forall scope: Scope | !scope.Cleanliness? ensures Observed(o, scope) == Expected(state, scope) {
        assert !Drifted(state, o, scope);
      }
    }
  }

  lemma AllGatesOpen(gates: seq<Option<Verdict>>)
    ensures FirstOf(gates).None? <==> forall i :: 0 <= i < |gates| ==> gates[i].None?
  {
    if |gates| > 0 {
      AllGatesOpen(gates[1..]);
      assert forall i :: 0 < i < |gates| ==> gates[i] == gates[1..][i - 1];
    }
  }

  lemma SixGates(gates: seq<Option<Verdict>>)
    requires |gates| == 6
    ensures FirstOf(gates).None? <==>
            gates[0].None? && gates[1].None? && gates[2].None? && gates[3].None? && gates[4].None? && gates[5].None?
  {
    AllGatesOpen(gates);
  }

  /** The worktree is clean now and was at sealing, and the identities are as sealed. */
  ghost predicate ObservedAsSealed(state: map<string, Json>, o: Observation) {
    o.dirty == Some(false) && Get(state, "active_worktree_dirty") == Bool(false) && IdentityAsSealed(state, o)
  }

  /** Everything resuming demands once a checkpoint has loaded. */
  ghost predicate MayResume(files: Files, c: Checkpoint, o: Observation, capabilities: Capabilities)
    requires c.stateFiles.Some?
  {
    && NoOpenStep(c.journal.steps)
    && FilesAsSealed(files, c)
    && ObservedAsSealed(c.state, o)
    && CapabilitiesSuffice(c.state, capabilities)
    && PreconditionsHold(c.state, o)
  }

  lemma DecidedExactly(files: Files, v: Validators, p: Pointer, c: Checkpoint, o: Observation, capabilities: Capabilities)
    requires Proper(c, v)
    ensures Decided(files, p, c, o, capabilities) == Resume(p, c) <==> MayResume(files, c, o, capabilities)
    ensures Decided(files, p, c, o, capabilities).Resume? ==> Decided(files, p, c, o, capabilities) == Resume(p, c)
  {
    hide InterruptedStepGate, StateFilesGate, CleanlinessGate, ObservationGate, CapabilityGate,
         PreconditionGate, DriftOf, ObservedAsSealed, CapabilitiesSuffice,
         PreconditionsHold, StateValid, JournalValid;
    var gates := Gates(files, c, o, capabilities);
    SixGates(gates);
    InterruptedGateOpens(files, c);
    StateFilesGateOpens(files, c, v);
    ObservationsOpen(c.state, o);
    CapabilityGateOpens(c.state, capabilities);
    PreconditionGateOpens(c.state, o);
    GatesNeverResume(files, c, o, capabilities);
    if FilesAsSealed(files, c) {
      assert STEP_JOURNAL in DURABLE_FILES;
      assert LoadedJournal(files) == Some(c.journal);
    }
  }

  /** A gate never hands out the permission itself. */
  ghost predicate Stops(gate: Option<Verdict>) { gate.Some? ==> !gate.value.Resume? }

  lemma {:induction false} FirstOfStops(gates: seq<Option<Verdict>>)
    requires forall i :: 0 <= i < |gates| ==> Stops(gates[i])
    ensures Stops(FirstOf(gates))
  {
    if |gates| > 0 && gates[0].None? { FirstOfStops(gates[1..]); }
  }

  lemma FileGatesStop(files: Files, c: Checkpoint)
    ensures Stops(InterruptedStepGate(files, c)) && Stops(StateFilesGate(files, c))
  {
    hide OpenSteps, LoadedJournal, Gone, Changed;
  }

  lemma StateGatesStop(state: map<string, Json>, o: Observation, capabilities: Capabilities)
    ensures Stops(CleanlinessGate(state, o.dirty)) && Stops(ObservationGate(state, o))
    ensures Stops(CapabilityGate(state, capabilities)) && Stops(PreconditionGate(state, o))
  {
    hide Get, Expected, Observed, Granted, EvaluateAll, RequiredNames;
  }

  lemma GatesNeverResume(files: Files, c: Checkpoint, o: Observation, capabilities: Capabilities)
    ensures Stops(FirstOf(Gates(files, c, o, capabilities)))
  {
    hide InterruptedStepGate, StateFilesGate, CleanlinessGate, ObservationGate, CapabilityGate, PreconditionGate, FirstOf;
    FileGatesStop(files, c);
    StateGatesStop(c.state, o, capabilities);
    FirstOfStops(Gates(files, c, o, capabilities));
  }

  /**
   The guard resumes exactly when the latest checkpoint loads, neither journal has an open step, the durable files
   are as sealed, the worktree is clean now and was at sealing, all five identities are as sealed, every required
   capability reaches its minimum, and every precondition holds.
   */
  lemma ResumesExactly(files: Files, v: Validators, o: Observation, capabilities: Capabilities)
    requires Latest(files).Ready? ==> Proper(Latest(files).checkpoint, v)
    ensures Guard(files, o, capabilities).Resume? <==>
            Latest(files).Ready? && MayResume(files, Latest(files).checkpoint, o, capabilities)
    ensures Guard(files, o, capabilities).Resume? ==>
              Guard(files, o, capabilities) == Resume(Latest(files).pointer, Latest(files).checkpoint)
  {
    hide Proper, Decided, MayResume, Latest;
    if Latest(files).Ready? {
      DecidedExactly(files, v, Latest(files).pointer, Latest(files).checkpoint, o, capabilities);
    }
  }

  /** Every capability observed is observed at least as strongly. */
  ghost predicate AtLeast(more: Capabilities, less: Capabilities) {
    forall name :: name in less && RankOf(less[name]).Some? ==>
      name in more && RankOf(more[name]).Some? && RankOf(more[name]).value >= RankOf(less[name]).value
  }

  /** Stronger capabilities never take away permission to resume. */
  lemma MoreCapabilitiesStillResume(files: Files, v: Validators, o: Observation, less: Capabilities, more: Capabilities)
    requires Latest(files).Ready? ==> Proper(Latest(files).checkpoint, v)
    requires AtLeast(more, less) && Guard(files, o, less).Resume?
    ensures Guard(files, o, more) == Guard(files, o, less)
  {
    ResumesExactly(files, v, o, less);
    ResumesExactly(files, v, o, more);
    var state := Latest(files).checkpoint.state;
    forall name | RequiresName(state, name) ensures Granted(state, more, name) {
      assert Granted(state, less, name);
    }
  }

  // ---- Which sealed missions can be resumed at all -----------------------------------------------------

  function TextIn(j: Json): Option<string> { if j.Text? then Some(j.text) else None }

  /** The observation that repeats what the checkpoint expects, with a clean worktree. */
  function AsSealed(state: map<string, Json>): Observation {
    Observation(TextIn(Expected(state, RepositoryMain)), TextIn(Expected(state, ProductionRevision)),
                TextIn(Expected(state, BranchHead)), TextIn(Expected(state, ActiveBranch)),
                TextIn(Expected(state, ActiveWorktree)), Some(false))
  }

  function FullRights(state: map<string, Json>): Capabilities {
    map name | name in RequiredNames(state) :: "AUTHORIZED_WRITE"
  }

  ghost predicate IdentitiesAreText(state: map<string, Json>) {
    forall scope: Scope :: !scope.Cleanliness? ==> Expected(state, scope).Text?
  }

  /** What a sealed mission state must be like for anybody ever to resume it. */
  ghost predicate Resumable(state: map<string, Json>) {
    && Get(state, "active_worktree_dirty") == Bool(false)
    && IdentitiesAreText(state)
    && PreconditionsHold(state, AsSealed(state))
  }

  lemma OnlyAsSealed(state: map<string, Json>, o: Observation)
    requires StateValid(state)
    ensures ObservedAsSealed(state, o) <==>
            Get(state, "active_worktree_dirty") == Bool(false) && IdentitiesAreText(state) && o == AsSealed(state)
  {
    hide StateValid, FieldOf;
    forall scope ensures !Expected(state, scope).Null? {
      ValidStateStatesScopes(state, scope);
    }
    if ObservedAsSealed(state, o) {
      assert Observed(o, RepositoryMain) == Expected(state, RepositoryMain);
      assert Observed(o, ProductionRevision) == Expected(state, ProductionRevision);
      assert Observed(o, BranchHead) == Expected(state, BranchHead);
      assert Observed(o, ActiveBranch) == Expected(state, ActiveBranch);
      assert Observed(o, ActiveWorktree) == Expected(state, ActiveWorktree);
    }
  }

  lemma WriteIsHighest()
    ensures RankOf("AUTHORIZED_WRITE").Some?
    ensures forall text :: RankOf(text).Some? ==> RankOf(text).value <= RankOf("AUTHORIZED_WRITE").value
  {}

  lemma FullRightsSuffice(state: map<string, Json>)
    requires CapabilitiesValid(state)
    ensures CapabilitiesSuffice(state, FullRights(state))
  {
    hide RankOf;
    WriteIsHighest();
    forall name | RequiresName(state, name) ensures Granted(state, FullRights(state), name) {
      var names := Get(state, "required_capabilities");
      assert Text(name).text in RequiredNames(state);
      var i :| 0 <= i < |names.items| && names.items[i] == Text(name);
      assert names.items[i].text in Get(state, "required_capability_states").fields;
    }
  }

  /**
   Somebody can resume a loaded checkpoint -- with the right observations and all rights -- if and only if no step of it
   is open, its files are as sealed, and its state is one that can be resumed: sealed clean, with all five identities as
   text, and with preconditions that hold when everything is observed as sealed.
   */
  lemma ResumableExactly(files: Files, v: Validators)
    requires Latest(files).Ready? && Proper(Latest(files).checkpoint, v)
    ensures var c := Latest(files).checkpoint;
            (exists o, capabilities :: Guard(files, o, capabilities).Resume?) <==>
            NoOpenStep(c.journal.steps) && FilesAsSealed(files, c) && Resumable(c.state)
  {
    hide Guard, Latest, FilesAsSealed, StateValid, JournalValid, ObservedAsSealed, CapabilitiesSuffice, PreconditionsHold;
    var c := Latest(files).checkpoint;
    forall o, capabilities ensures Guard(files, o, capabilities).Resume? <==> MayResume(files, c, o, capabilities) {
      ResumesExactly(files, v, o, capabilities);
    }
    forall o ensures ObservedAsSealed(c.state, o) <==>
      Get(c.state, "active_worktree_dirty") == Bool(false) && IdentitiesAreText(c.state) && o == AsSealed(c.state)
    {
      OnlyAsSealed(c.state, o);
    }
    ValidCapabilities(c.state);
    FullRightsSuffice(c.state);
    if NoOpenStep(c.journal.steps) && FilesAsSealed(files, c) && Resumable(c.state) {
      assert MayResume(files, c, AsSealed(c.state), FullRights(c.state));
      assert Guard(files, AsSealed(c.state), FullRights(c.state)).Resume?;
    }
  }

  lemma ValidCapabilities(state: map<string, Json>)
    requires StateValid(state)
    ensures CapabilitiesValid(state)
  {}

  /** A change of a field whose value only has to be there, to be true, or to be a Boolean is accepted. */
  lemma ChangedIsValid(state: map<string, Json>, key: string, value: Json)
    requires StateValid(state)
    requires key != "contract_version" && key != "project" && key != "repository" && key !in SHA_FIELDS
    requires key != "required_capabilities" && key != "required_capability_states"
    requires key in REQUIRED_NONEMPTY ==> Truthy(value)
    requires key == "active_worktree_dirty" ==> value.Bool?
    requires key == "next_action_preconditions" ==> value.Null?
    ensures StateValid(state[key := value])
  {
    hide Filled, CapabilitiesValid, PreconditionsValid, Get, Truthy;
    var changed := state[key := value];
    ChangedGet(state, key, value);
    StaysFilled(state, key, value);
    SameCapabilities(state, changed);
    SamePreconditions(state, changed);
  }

  lemma ChangedGet(state: map<string, Json>, key: string, value: Json)
    ensures forall other :: Get(state[key := value], other) == if other == key then value else Get(state, other)
  {
    var changed := state[key := value];
    forall other ensures Get(changed, other) == if other == key then value else Get(state, other) {}
  }

  lemma StaysFilled(state: map<string, Json>, key: string, value: Json)
    requires key !in SHA_FIELDS && (key in REQUIRED_NONEMPTY ==> Truthy(value))
    requires Filled(state)
    ensures Filled(state[key := value])
  {
    hide IsSha, Get, Truthy;
    ChangedGet(state, key, value);
    forall other | other in REQUIRED_NONEMPTY ensures Truthy(Get(state[key := value], other)) {}
    forall other | other in SHA_FIELDS ensures IsSha(Get(state[key := value], other)) {}
  }

  lemma SameCapabilities(state: map<string, Json>, changed: map<string, Json>)
    requires CapabilitiesValid(state)
    requires Get(changed, "required_capabilities") == Get(state, "required_capabilities")
    requires Get(changed, "required_capability_states") == Get(state, "required_capability_states")
    ensures CapabilitiesValid(changed)
  {}

  lemma SamePreconditions(state: map<string, Json>, changed: map<string, Json>)
    requires PreconditionsValid(state)
    requires var items := Get(changed, "next_action_preconditions"); items.Null? || items == Get(state, "next_action_preconditions")
    ensures PreconditionsValid(changed)
  {}

  /**
   Sealing accepts states nobody can ever resume: whatever valid state is edited to have its preconditions null, its
   worktree dirty or a number for its branch stays valid, and cannot be resumed.
   */
  lemma ValidYetNotResumable(state: map<string, Json>)
    requires StateValid(state)
    ensures var nulled := state["next_action_preconditions" := Null]; StateValid(nulled) && !Resumable(nulled)
    ensures var dirty := state["active_worktree_dirty" := Bool(true)]; StateValid(dirty) && !Resumable(dirty)
    ensures var numbered := state["active_branch" := Number(7)]; StateValid(numbered) && !Resumable(numbered)
  {
    hide StateValid;
    ChangedIsValid(state, "next_action_preconditions", Null);
    ChangedIsValid(state, "active_worktree_dirty", Bool(true));
    ChangedIsValid(state, "active_branch", Number(7));
    assert Expected(state["active_branch" := Number(7)], ActiveBranch) == Number(7);
  }
}
