/** What sealing accepts, in the words of the mission files: every required field, format and list written out. */
module MissionTerms {
  import opened Wrappers
  import opened Mission
  import opened Checkpoints

  /** The field is there and says something. */
  predicate Says(state: map<string, Json>, key: string) {
    key in state &&
      match state[key]
      case Null => false
      case Bool(truth) => truth
      case Number(value) => value != 0
      case Text(text) => |text| > 0
      case List(items) => |items| > 0
      case Object(fields) => |fields| > 0
  }

  /** Forty lower-case hexadecimal digits. */
  predicate IsRevision(state: map<string, Json>, key: string) {
    key in state && state[key].Text? && |state[key].text| == 40
    && forall i :: 0 <= i < 40 ==> '0' <= state[key].text[i] <= '9' || 'a' <= state[key].text[i] <= 'f'
  }

  predicate Filled(state: map<string, Json>) {
    && Says(state, "contract_version") && Says(state, "mission_id") && Says(state, "mission_name") && Says(state, "project")
    && Says(state, "repository") && Says(state, "current_phase") && Says(state, "current_task") && Says(state, "next_action")
    && Says(state, "active_branch") && Says(state, "active_worktree")
    && IsRevision(state, "baseline_main_sha") && IsRevision(state, "current_main_sha")
    && IsRevision(state, "production_sha") && IsRevision(state, "active_branch_head")
  }

  predicate IsOneOf(j: Json, a: string, b: string, c: string) { j == Text(a) || j == Text(b) || j == Text(c) }

  /** A list of different names, and for exactly those a minimum that is one of the three capability states. */
  ghost predicate StatesCapabilities(state: map<string, Json>) {
    && "required_capabilities" in state && "required_capability_states" in state
    && state["required_capabilities"].List? && state["required_capability_states"].Object?
    && var (items, minimums) := (state["required_capabilities"].items, state["required_capability_states"].fields);
       && (forall i :: 0 <= i < |items| ==> items[i].Text? && items[i].text != "")
       && (forall i, j :: 0 <= i < j < |items| ==> items[i] != items[j])
       && (forall name :: name in minimums <==> exists i :: 0 <= i < |items| && items[i] == Text(name))
       && forall name :: name in minimums ==> IsOneOf(minimums[name], "AVAILABLE", "AUTHORIZED_READ", "AUTHORIZED_WRITE")
  }

  predicate ComparesField(fields: map<string, Json>)
    requires "kind" in fields
  {
    fields["kind"] == Text("state_equals") && "field" in fields && fields["field"].Text? && fields["field"].text != ""
  }

  predicate ComparesScope(fields: map<string, Json>)
    requires "kind" in fields
  {
    && fields["kind"] == Text("observation_equals") && "scope" in fields && fields["scope"].Text?
    && fields["scope"].text in {
      "repository_main", "production_revision", "branch_head", "active_branch", "active_worktree", "worktree_cleanliness"}
  }

  /** An item that compares a named field, or the observation of one of six scopes, with what it expects. */
  predicate IsPrecondition(item: Json) {
    && item.Object? && "expected" in item.fields && "kind" in item.fields
    && ("description" in item.fields ==> item.fields["description"].Text?)
    && (ComparesField(item.fields) || ComparesScope(item.fields))
  }

  ghost predicate StatesPreconditions(state: map<string, Json>) {
    "next_action_preconditions" in state && !state["next_action_preconditions"].Null? ==>
      && state["next_action_preconditions"].List?
      && forall i :: 0 <= i < |state["next_action_preconditions"].items| ==>
           IsPrecondition(state["next_action_preconditions"].items[i])
  }

  lemma SaysMeans(state: map<string, Json>, key: string)
    ensures Truthy(Get(state, key)) <==> Says(state, key)
  {}

  lemma RevisionMeans(state: map<string, Json>, key: string)
    ensures IsSha(Get(state, key)) <==> IsRevision(state, key)
    ensures IsRevision(state, key) ==> Says(state, key)
  {
    forall c: char ensures c in HEX <==> '0' <= c <= '9' || 'a' <= c <= 'f' {
      HexMeans(c);
    }
  }

  lemma HexMeans(c: char)
    ensures c in HEX <==> '0' <= c <= '9' || 'a' <= c <= 'f'
  {
    assert forall d :: d in HEX <==> d in ['0', '1', '2', '3', '4', '5', '6', '7', '8', '9', 'a', 'b', 'c', 'd', 'e', 'f'];
  }

  lemma FilledMeans(state: map<string, Json>)
    ensures Mission.Filled(state) <==>
            && Filled(state)
            && "active_worktree_dirty" in state && "required_capabilities" in state && "required_capability_states" in state
  {
    hide Says, IsRevision, IsSha, Truthy;
    forall key ensures Truthy(Get(state, key)) <==> Says(state, key) { SaysMeans(state, key); }
    forall key ensures (IsSha(Get(state, key)) <==> IsRevision(state, key)) && (IsRevision(state, key) ==> Says(state, key)) {
      RevisionMeans(state, key);
    }
  }

  lemma CapabilitiesMean(state: map<string, Json>)
    requires "required_capabilities" in state && "required_capability_states" in state
    ensures CapabilitiesValid(state) <==> StatesCapabilities(state)
  {
    hide RankOf;
    forall text ensures RankOf(text).Some? <==> IsOneOf(Text(text), "AVAILABLE", "AUTHORIZED_READ", "AUTHORIZED_WRITE") {
      RankedTexts(text);
    }
    hide IsOneOf;
    var (names, minimums) := (Get(state, "required_capabilities"), Get(state, "required_capability_states"));
    assert names == state["required_capabilities"] && minimums == state["required_capability_states"];
    if StatesCapabilities(state) {
      OneOfIsText();
      assert forall i :: 0 <= i < |names.items| ==> names.items[i].Text?;
      forall i | 0 <= i < |names.items| ensures names.items[i].text in minimums.fields {
        assert names.items[i] == Text(names.items[i].text);
      }
    }
  }

  lemma OneOfIsText()
    ensures forall j, a, b, c :: IsOneOf(j, a, b, c) ==> j.Text?
  {}

  lemma RankedTexts(text: string)
    ensures RankOf(text).Some? <==> IsOneOf(Text(text), "AVAILABLE", "AUTHORIZED_READ", "AUTHORIZED_WRITE")
  {}

  lemma PreconditionMeans(item: Json)
    ensures PreconditionValid(item) <==> IsPrecondition(item)
  {
    hide ScopeOf;
    forall name ensures ScopeOf(name).Some? <==> name in {
      "repository_main", "production_revision", "branch_head", "active_branch", "active_worktree", "worktree_cleanliness"}
    {
      ScopesNamed(name);
    }
  }

  lemma ScopesNamed(name: string)
    ensures ScopeOf(name).Some? <==> name in {
      "repository_main", "production_revision", "branch_head", "active_branch", "active_worktree", "worktree_cleanliness"}
  {}

  lemma PreconditionsMean(state: map<string, Json>)
    ensures PreconditionsValid(state) <==> StatesPreconditions(state)
  {
    hide PreconditionValid, IsPrecondition;
    forall item ensures PreconditionValid(item) <==> IsPrecondition(item) { PreconditionMeans(item); }
  }

  /** The mission states that sealing accepts, but for the scan for secrets. */
  lemma StatesExactly(state: map<string, Json>)
    ensures StateValid(state) <==>
            && Filled(state) && StatesCapabilities(state) && StatesPreconditions(state)
            && state["contract_version"] == Text("wfh_mission_continuity_v1")
            && state["project"] == Text("TWFH") && state["repository"] == Text("cavack/WFH-ORG")
            && "active_worktree_dirty" in state && state["active_worktree_dirty"].Bool?
  {
    hide Mission.Filled, CapabilitiesValid, StatesCapabilities, PreconditionsValid, StatesPreconditions, IsRevision;
    FilledMeans(state);
    PreconditionsMean(state);
    if "required_capabilities" in state && "required_capability_states" in state { CapabilitiesMean(state); }
    CapabilitiesAreThere(state);
  }

  lemma CapabilitiesAreThere(state: map<string, Json>)
    ensures StatesCapabilities(state) ==> "required_capabilities" in state && "required_capability_states" in state
  {}

  /** The journals that sealing accepts: versioned, with different ids, each in progress or complete. */
  lemma JournalsExactly(j: Journal)
    ensures JournalValid(j) <==>
            && j.versioned
            && (forall i, k :: 0 <= i < k < |j.steps| ==> j.steps[i].stepId != j.steps[k].stepId)
            && forall i :: 0 <= i < |j.steps| ==>
                 |j.steps[i].stepId| > 0 && (j.steps[i].status == InProgress || j.steps[i].status == Complete)
  {
    assert forall i :: 0 <= i < |j.steps| ==> (j.steps[i].stepId != "" <==> |j.steps[i].stepId| > 0);
  }

  /** A mission is sealed when its seven files are there, state and journal are accepted, and so are the others. */
  lemma SealsExactly(files: Files, v: Validators)
    ensures Sealable(files, v) <==>
            && StateFile("MISSION_STATE.json") in files && StateFile("TASK_GRAPH.json") in files
            && StateFile("EVIDENCE_LEDGER.json") in files && StateFile("BRANCH_REGISTRY.json") in files
            && StateFile("SCIENTIFIC_STATE.json") in files && StateFile("DECISION_LOG.jsonl") in files
            && StateFile("STEP_JOURNAL.json") in files
            && files[StateFile("MISSION_STATE.json")].StateJson? && files[StateFile("STEP_JOURNAL.json")].JournalJson?
            && StateValid(files[StateFile("MISSION_STATE.json")].fields)
            && v.secretFree(files[StateFile("MISSION_STATE.json")].fields)
            && JournalValid(files[StateFile("STEP_JOURNAL.json")].journal)
            && AllPresent(files) && v.controlFilesValid(Durable(files))
  {
    hide StateValid, JournalValid;
  }
}
