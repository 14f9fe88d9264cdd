/** Sealing checkpoints, finding the latest one, and the step journal, over a directory of atomically replaced files. */
module Checkpoints {
  import opened Wrappers
  import opened Mission

  // ---- Numbers ---------------------------------------------------------------------------

  /** The numbers the directory listing recognises: six digits, no more. */
  function Numbers(files: Files): set<nat> {
    set p | p in files.Keys && p.CheckpointFile? && p.number <= MAX_NUMBER :: p.number
  }

  ghost function MaxOf(s: set<nat>): (m: nat)
    ensures forall n :: n in s ==> n <= m
    ensures m == 0 || m in s
  {
    if s == {} then 0
    else
      var n :| n in s;
      var rest := MaxOf(s - {n});
      assert forall m :: m in s ==> m == n || m in s - {n};
      if n > rest then n else rest
  }

  ghost function Highest(files: Files): nat { MaxOf(Numbers(files)) }

  lemma HighestIs(files: Files, n: nat)
    requires n <= MAX_NUMBER && (n == 0 || CheckpointFile(n) in files)
    requires forall m: nat :: m <= MAX_NUMBER && CheckpointFile(m) in files ==> m <= n
    ensures Highest(files) == n
  {
    var h := Highest(files);
    assert h == 0 || CheckpointFile(h) in files;
    assert n == 0 || n in Numbers(files) by {
      if n > 0 { assert CheckpointFile(n).number in Numbers(files); }
    }
  }

  lemma HighestBounds(files: Files, n: nat)
    requires n <= MAX_NUMBER && CheckpointFile(n) in files
    ensures n <= Highest(files)
  {
    assert CheckpointFile(n).number in Numbers(files);
  }

  // ---- Journal -----------------------------------------------------------------------------

  const EMPTY_JOURNAL := Journal(true, [])

  /** `None` where loading raises. */
  function LoadedJournal(files: Files): Option<Journal> {
    if StateFile(STEP_JOURNAL) !in files then Some(EMPTY_JOURNAL)
    else if files[StateFile(STEP_JOURNAL)].JournalJson? then Some(files[StateFile(STEP_JOURNAL)].journal)
    else None
  }

  predicate Knows(steps: seq<Step>, id: string) { exists i :: 0 <= i < |steps| && steps[i].stepId == id }

  /** The first record of the id is completed. */
  function Completed(steps: seq<Step>, id: string, at: string): seq<Step> {
    if |steps| == 0 then []
    else if steps[0].stepId == id then [steps[0].(status := Complete, completedAt := Some(at))] + steps[1..]
    else [steps[0]] + Completed(steps[1..], id, at)
  }

  function WithJournal(files: Files, j: Journal): Files { files[StateFile(STEP_JOURNAL) := JournalJson(j)] }

  function StepOf(id: string, details: map<string, Json>): Step { Step(id, InProgress, details, None) }

  predicate Starts(files: Files, id: string) {
    LoadedJournal(files).Some? && !Knows(LoadedJournal(files).value.steps, id)
  }

  function AfterStart(files: Files, id: string, details: map<string, Json>): Files {
    if !Starts(files, id) then files
    else var j := LoadedJournal(files).value; WithJournal(files, j.(steps := j.steps + [StepOf(id, details)]))
  }

  predicate Completes(files: Files, id: string) {
    LoadedJournal(files).Some? && Knows(LoadedJournal(files).value.steps, id)
  }

  function AfterComplete(files: Files, id: string, at: string): Files {
    if !Completes(files, id) then files
    else var j := LoadedJournal(files).value; WithJournal(files, j.(steps := Completed(j.steps, id, at)))
  }

  // ---- Sealing -------------------------------------------------------------------------------

  predicate AllPresent(files: Files) { forall name :: name in DURABLE_FILES ==> StateFile(name) in files }

  /** The durable files are there, the mission state and the journal readable. */
  predicate Readable(files: Files) {
    AllPresent(files) && files[StateFile(MISSION_STATE)].StateJson? && files[StateFile(STEP_JOURNAL)].JournalJson?
  }

  /** The durable files by name: all that sealing validates. */
  function Durable(files: Files): map<string, Blob>
    requires AllPresent(files)
  {
    map name | name in DURABLE_FILES :: files[StateFile(name)]
  }

  predicate Validated(files: Files, v: Validators)
    requires Readable(files)
  {
    && StateValid(files[StateFile(MISSION_STATE)].fields) && v.secretFree(files[StateFile(MISSION_STATE)].fields)
    && JournalValid(files[StateFile(STEP_JOURNAL)].journal) && v.controlFilesValid(Durable(files))
  }

  /** The mission state and the control files pass validation. */
  predicate Sealable(files: Files, v: Validators) { Readable(files) && Validated(files, v) }

  function Digests(files: Files): map<string, Option<Digest>>
    requires AllPresent(files)
  {
    map name | name in DURABLE_FILES :: Some(Sha256(files[StateFile(name)]))
  }

  function CheckpointOf(files: Files, number: nat, createdAt: string): Checkpoint
    requires Readable(files)
  {
    var state := files[StateFile(MISSION_STATE)].fields;
    Checkpoint(Get(state, "mission_id"), number, createdAt, state, files[StateFile(STEP_JOURNAL)].journal, Some(Digests(files)))
  }

  function PointerTo(c: Checkpoint): Pointer {
    Pointer(c.missionId, Some(c.number), Some(CheckpointFile(c.number)), Some(Sha256(SealedJson(c))))
  }

  /** The three replacements of a sealing, cut off after `writes` of them, or when the resume note cannot be put together. */
  function Sealing(files: Files, c: Checkpoint, writes: nat): Files {
    if writes == 0 then files
    else
      var one := files[CheckpointFile(c.number) := SealedJson(c)];
      if writes == 1 then one
      else
        var two := one[LatestPointer := PointerJson(PointerTo(c))];
        if writes == 2 || !Projectable(c.state) then two else two[ResumeNote := ResumeText(c)]
  }

  ghost function NextCheckpoint(files: Files, createdAt: string): Checkpoint
    requires Readable(files)
  {
    CheckpointOf(files, Highest(files) + 1, createdAt)
  }

  ghost function AfterCheckpoint(files: Files, v: Validators, createdAt: string, writes: nat): Files {
    if Sealable(files, v) then Sealing(files, NextCheckpoint(files, createdAt), writes) else files
  }

  // ---- Loading -------------------------------------------------------------------------------

  datatype Loaded = Unloadable(reason: string) | Ready(pointer: Pointer, checkpoint: Checkpoint)

  ghost function Latest(files: Files): Loaded {
    if LatestPointer !in files then Unloadable("latest_checkpoint_missing")
    else if !files[LatestPointer].PointerJson? || files[LatestPointer].pointer.path.None?
      then Unloadable("latest_checkpoint_pointer_invalid")
    else LatestVia(files, files[LatestPointer].pointer)
  }

  ghost function LatestVia(files: Files, p: Pointer): Loaded
    requires p.path.Some?
  {
    if p.path.value !in files then Unloadable("checkpoint_missing")
    else if p.sha != Some(Sha256(files[p.path.value])) then Unloadable("checkpoint_hash_mismatch")
    else if !files[p.path.value].SealedJson? then Unloadable("checkpoint_json_invalid")
    else Sequenced(p, files[p.path.value].checkpoint, Highest(files))
  }

  function Sequenced(p: Pointer, c: Checkpoint, highest: nat): Loaded {
    if c.missionId != p.missionId then Unloadable("checkpoint_mission_mismatch")
    else if p.number != Some(c.number) then Unloadable("checkpoint_sequence_mismatch")
    else if c.number > MAX_NUMBER then Unloadable("checkpoint_sequence_invalid")
    else if c.number < highest then Unloadable("checkpoint_sequence_regression")
    else Ready(p, c)
  }

  // ---- The directory ---------------------------------------------------------------------------

  datatype Failure = Refused(reason: string) | Crashed

  class MissionDirectory {
    var files: Files

    constructor (files: Files)
      ensures this.files == files
    {
      this.files := files;
    }

    /** `os.replace` of a synced temporary file: all of the new content or none of it. */
    method AtomicWrite(path: Path, content: Blob)
      modifies this
      ensures files == old(files)[path := content]
    {
      files := files[path := content];
    }

    method HighestCheckpointNumber() returns (highest: nat)
      ensures highest == Highest(files)
    {
      highest := 0;
      var listing := files.Keys;
      while listing != {}
        invariant listing <= files.Keys
        invariant highest <= MAX_NUMBER && (highest == 0 || CheckpointFile(highest) in files)
        invariant forall m: nat :: m <= MAX_NUMBER && CheckpointFile(m) in files && CheckpointFile(m) !in listing ==> m <= highest
        decreases listing
      {
        var path :| path in listing;
        listing := listing - {path};
        if path.CheckpointFile? && path.number <= MAX_NUMBER && path.number > highest {
          highest := path.number;
        }
      }
      HighestIs(files, highest);
    }

    /** `alive` is how many replacements happen before the process dies, if it dies. */
    method CreateCheckpoint(v: Validators, createdAt: string, alive: nat) returns (r: Result<Pointer, Failure>)
      modifies this
      ensures files == AfterCheckpoint(old(files), v, createdAt, alive)
      ensures r.Ok? <==> Sealable(old(files), v) && alive >= 3 && Projectable(old(files)[StateFile(MISSION_STATE)].fields)
      ensures r.Ok? ==> r.value == PointerTo(NextCheckpoint(old(files), createdAt))
    {
      hide Readable, Validated, Digests, Highest, Projectable;
      if !Sealable(files, v) { return Err(Refused("validation")); }
      var highest := HighestCheckpointNumber();
      var checkpoint := CheckpointOf(files, highest + 1, createdAt);
      if alive == 0 { return Err(Crashed); }
      AtomicWrite(CheckpointFile(checkpoint.number), SealedJson(checkpoint));
      var pointer := PointerTo(checkpoint);
      if alive == 1 { return Err(Crashed); }
      AtomicWrite(LatestPointer, PointerJson(pointer));
      if alive == 2 { return Err(Crashed); }
      if !Projectable(checkpoint.state) { return Err(Refused("resume note")); }
      AtomicWrite(ResumeNote, ResumeText(checkpoint));
      return Ok(pointer);
    }

    method LoadLatestCheckpoint() returns (loaded: Loaded)
      ensures loaded == Latest(files)
    {
      if LatestPointer !in files { return Unloadable("latest_checkpoint_missing"); }
      if !files[LatestPointer].PointerJson? { return Unloadable("latest_checkpoint_pointer_invalid"); }
      var pointer := files[LatestPointer].pointer;
      if pointer.path.None? { return Unloadable("latest_checkpoint_pointer_invalid"); }
      if pointer.path.value !in files { return Unloadable("checkpoint_missing"); }
      var payload := files[pointer.path.value];
      if pointer.sha != Some(Sha256(payload)) { return Unloadable("checkpoint_hash_mismatch"); }
      if !payload.SealedJson? { return Unloadable("checkpoint_json_invalid"); }
      var highest := HighestCheckpointNumber();
      return Sequenced(pointer, payload.checkpoint, highest);
    }

    method JournalStepStart(id: string, details: map<string, Json>) returns (r: Result<Step, Failure>)
      modifies this
      ensures files == AfterStart(old(files), id, details)
      ensures r.Ok? <==> Starts(old(files), id)
      ensures r.Ok? ==> r.value == StepOf(id, details)
    {
      var journal := LoadedJournal(files);
      if journal.None? { return Err(Refused("step journal steps must be an array")); }
      var steps := journal.value.steps;
      for i := 0 to |steps|
        invariant forall k :: 0 <= k < i ==> steps[k].stepId != id
      {
        if steps[i].stepId == id { return Err(Refused("duplicate step_id")); }
      }
      AtomicWrite(StateFile(STEP_JOURNAL), JournalJson(journal.value.(steps := steps + [StepOf(id, details)])));
      return Ok(StepOf(id, details));
    }

    method JournalStepComplete(id: string, at: string) returns (r: Result<Step, Failure>)
      modifies this
      ensures files == AfterComplete(old(files), id, at)
      ensures r.Ok? <==> Completes(old(files), id)
      ensures r.Ok? ==> r.value.stepId == id && r.value.status == Complete && r.value.completedAt == Some(at)
    {
      var journal := LoadedJournal(files);
      if journal.None? { return Err(Refused("step journal steps must be an array")); }
      var steps := journal.value.steps;
      for i := 0 to |steps|
        invariant forall k :: 0 <= k < i ==> steps[k].stepId != id
      {
        if steps[i].stepId == id {
          var done := steps[i].(status := Complete, completedAt := Some(at));
          CompletedAt(steps, id, at, i);
          AtomicWrite(StateFile(STEP_JOURNAL), JournalJson(journal.value.(steps := steps[i := done])));
          return Ok(done);
        }
      }
      return Err(Refused("unknown step_id"));
    }
  }

  lemma {:induction false} CompletedAt(steps: seq<Step>, id: string, at: string, i: nat)
    requires i < |steps| && steps[i].stepId == id && forall k :: 0 <= k < i ==> steps[k].stepId != id
    ensures Completed(steps, id, at) == steps[i := steps[i].(status := Complete, completedAt := Some(at))]
  {
    if i > 0 {
      CompletedAt(steps[1..], id, at, i - 1);
      assert steps[i := steps[i].(status := Complete, completedAt := Some(at))] ==
             [steps[0]] + steps[1..][i - 1 := steps[i].(status := Complete, completedAt := Some(at))];
    }
  }
}
