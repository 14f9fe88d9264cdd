/** The mission directory: its files, what they say, and which contents the mission accepts. */
module Mission {
  import opened Wrappers

  datatype Json =
    Null | Bool(truth: bool) | Number(value: int) | Text(text: string)
    | List(items: seq<Json>) | Object(fields: map<string, Json>)

  /** `state.get(key)`. */
  function Get(m: map<string, Json>, key: string): Json { if key in m then m[key] else Null }

  predicate Truthy(j: Json) {
    match j
    case Null => false
    case Bool(b) => b
    case Number(n) => n != 0
    case Text(s) => s != ""
    case List(items) => |items| > 0
    case Object(fields) => |fields| > 0
  }

  // ---- Files --------------------------------------------------------------------------

  const MAX_NUMBER := 999_999
  const MISSION_STATE := "MISSION_STATE.json"
  const STEP_JOURNAL := "STEP_JOURNAL.json"

  const DURABLE_FILES := {
    MISSION_STATE, "TASK_GRAPH.json", "EVIDENCE_LEDGER.json", "BRANCH_REGISTRY.json",
    "SCIENTIFIC_STATE.json", "DECISION_LOG.jsonl", STEP_JOURNAL}

  /** `CheckpointFile(n)` is `checkpoints/CP-<n>.json`, padded to six digits and longer beyond. */
  datatype Path = StateFile(name: string) | CheckpointFile(number: nat) | LatestPointer | ResumeNote

  datatype Status = InProgress | Complete | OtherStatus(text: string)

  /** `details` stands for the fields of a record that are written once: task, action, procedure and the like. */
  datatype Step = Step(stepId: string, status: Status, details: map<string, Json>, completedAt: Option<string>)

  datatype Journal = Journal(versioned: bool, steps: seq<Step>)

  datatype Checkpoint = Checkpoint(
    missionId: Json, number: nat, createdAt: string, state: map<string, Json>, journal: Journal,
    stateFiles: Option<map<string, Option<Digest>>>)

  /** `path` is `None` when it is absent or leaves the mission directory, `number` when the id is not `CP-<digits>`. */
  datatype Pointer = Pointer(missionId: Json, number: Option<nat>, path: Option<Path>, sha: Option<Digest>)

  datatype Blob =
    | StateJson(fields: map<string, Json>)
    | JournalJson(journal: Journal)
    | SealedJson(checkpoint: Checkpoint)
    | PointerJson(pointer: Pointer)
    | ResumeText(checkpoint: Checkpoint)
    | Other(text: string)

  /** SHA-256 of a file: equal exactly for equal contents. */
  datatype Digest = Sha256(content: Blob)

  type Files = map<Path, Blob>

  // ---- Accepted mission states ----------------------------------------------------------

  const REQUIRED_NONEMPTY := {
    "contract_version", "mission_id", "mission_name", "project", "repository", "baseline_main_sha", "current_main_sha",
    "production_sha", "current_phase", "current_task", "next_action", "active_branch_head", "active_branch", "active_worktree"}
  const REQUIRED_PRESENT := {"active_worktree_dirty", "required_capabilities", "required_capability_states"}
  const SHA_FIELDS := {"baseline_main_sha", "current_main_sha", "production_sha", "active_branch_head"}
  const HEX := "0123456789abcdef"

  /** What a resume observes of the world. */
  datatype Scope = RepositoryMain | ProductionRevision | BranchHead | ActiveBranch | ActiveWorktree | Cleanliness

  function ScopeOf(name: string): Option<Scope> {
    if name == "repository_main" then Some(RepositoryMain)
    else if name == "production_revision" then Some(ProductionRevision)
    else if name == "branch_head" then Some(BranchHead)
    else if name == "active_branch" then Some(ActiveBranch)
    else if name == "active_worktree" then Some(ActiveWorktree)
    else if name == "worktree_cleanliness" then Some(Cleanliness)
    else None
  }

  /** The field of the mission state that records a scope. */
  function FieldOf(scope: Scope): string {
    match scope
    case RepositoryMain => "current_main_sha"
    case ProductionRevision => "production_sha"
    case BranchHead => "active_branch_head"
    case ActiveBranch => "active_branch"
    case ActiveWorktree => "active_worktree"
    case Cleanliness => "active_worktree_dirty"
  }

  predicate IsSha(j: Json) { j.Text? && |j.text| == 40 && forall i :: 0 <= i < 40 ==> j.text[i] in HEX }

  /** The authorisation a capability state stands for. */
  function RankOf(state: string): Option<nat> {
    if state == "AVAILABLE" then Some(0)
    else if state == "AUTHORIZED_READ" then Some(1)
    else if state == "AUTHORIZED_WRITE" then Some(2)
    else None
  }

  predicate Names(j: Json) {
    && j.List?
    && (forall i :: 0 <= i < |j.items| ==> j.items[i].Text? && j.items[i].text != "")
    && forall i, k :: 0 <= i < k < |j.items| ==> j.items[i] != j.items[k]
  }

  predicate CapabilitiesValid(state: map<string, Json>) {
    var (names, minimums) := (Get(state, "required_capabilities"), Get(state, "required_capability_states"));
    && Names(names) && minimums.Object?
    && (forall name :: name in minimums.fields ==>
          && Text(name) in names.items
          && minimums.fields[name].Text? && RankOf(minimums.fields[name].text).Some?)
    && forall i :: 0 <= i < |names.items| ==> names.items[i].text in minimums.fields
  }

  predicate PreconditionValid(item: Json) {
    && item.Object? && "expected" in item.fields
    && (Get(item.fields, "kind") == Text("state_equals") || Get(item.fields, "kind") == Text("observation_equals"))
    && (Get(item.fields, "kind") == Text("state_equals") ==>
          var field := Get(item.fields, "field"); field.Text? && field.text != "")
    && (Get(item.fields, "kind") == Text("observation_equals") ==>
          var scope := Get(item.fields, "scope"); scope.Text? && ScopeOf(scope.text).Some?)
    && ("description" in item.fields ==> item.fields["description"].Text?)
  }

  /** A null list of preconditions passes as no preconditions. */
  predicate PreconditionsValid(state: map<string, Json>) {
    var items := Get(state, "next_action_preconditions");
    items.Null? || (items.List? && forall i :: 0 <= i < |items.items| ==> PreconditionValid(items.items[i]))
  }

  /** Every required field is there, and those that must say something do. */
  predicate Filled(state: map<string, Json>) {
    && (forall key :: key in REQUIRED_NONEMPTY ==> Truthy(Get(state, key)))
    && (forall key :: key in REQUIRED_PRESENT ==> key in state)
    && (forall key :: key in SHA_FIELDS ==> IsSha(Get(state, key)))
  }

  predicate StateValid(state: map<string, Json>) {
    && Filled(state)
    && Get(state, "contract_version") == Text("wfh_mission_continuity_v1")
    && Get(state, "project") == Text("TWFH") && Get(state, "repository") == Text("cavack/WFH-ORG")
    && Get(state, "active_worktree_dirty").Bool?
    && CapabilitiesValid(state) && PreconditionsValid(state)
  }

  const JOINED := {"completed_tasks", "do_not_repeat", "blocked_tasks", "open_defects", "do_not"}

  /** `", ".join(state.get(key, []))` does not raise. */
  predicate Joins(state: map<string, Json>, key: string) {
    key in state ==>
      match state[key]
      case Text(_) => true
      case Object(_) => true
      case List(items) => forall i :: 0 <= i < |items| ==> items[i].Text?
      case _ => false
  }

  /** The resume note of the state can be written; validation does not ask for that. */
  predicate Projectable(state: map<string, Json>) { forall key :: key in JOINED ==> Joins(state, key) }

  predicate UniqueSteps(steps: seq<Step>) { forall i, j :: 0 <= i < j < |steps| ==> steps[i].stepId != steps[j].stepId }

  predicate JournalValid(j: Journal) {
    && j.versioned && UniqueSteps(j.steps)
    && forall i :: 0 <= i < |j.steps| ==> j.steps[i].stepId != "" && !j.steps[i].status.OtherStatus?
  }

  /**
   The checks whose content is not modelled: the scan of the mission state for secrets, and the validators of the
   other five control files.
   */
  datatype Validators = Validators(secretFree: map<string, Json> -> bool, controlFilesValid: map<string, Blob> -> bool)
}
