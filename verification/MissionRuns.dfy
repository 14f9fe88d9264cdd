/** Runs of the mission directory: sealings cut off after any replacement, journal steps, and edits of the durable files. */
module MissionRuns {
  import opened Wrappers
  import opened Mission
  import opened Checkpoints
  import opened ResumeGuard

  datatype Event =
    | Seal(createdAt: string, alive: nat)
    | Start(id: string, details: map<string, Json>)
    | Finish(id: string, at: string)
    | Edit(name: string, content: Option<Blob>)

  ghost function Next(files: Files, v: Validators, e: Event): Files {
    match e
    case Seal(createdAt, alive) => AfterCheckpoint(files, v, createdAt, alive)
    case Start(id, details) => AfterStart(files, id, details)
    case Finish(id, at) => AfterComplete(files, id, at)
    case Edit(name, content) => if content.Some? then files[StateFile(name) := content.value] else files - {StateFile(name)}
  }

  ghost function After(files: Files, v: Validators, run: seq<Event>): Files {
    if |run| == 0 then files else Next(After(files, v, run[..|run| - 1]), v, run[|run| - 1])
  }

  lemma {:induction false} AfterConcat(files: Files, v: Validators, a: seq<Event>, b: seq<Event>)
    ensures After(files, v, a + b) == After(After(files, v, a), v, b)
  {
    if |b| == 0 {
      assert a + b == a;
    } else {
      assert (a + b)[..|a + b| - 1] == a + b[..|b| - 1];
      AfterConcat(files, v, a, b[..|b| - 1]);
    }
  }

  // ---- What every run keeps ---------------------------------------------------------------

  ghost predicate NoCheckpoints(files: Files) {
    LatestPointer !in files && forall n: nat :: CheckpointFile(n) !in files
  }

  ghost predicate SoundCheckpoint(files: Files, v: Validators, n: nat) {
    CheckpointFile(n) in files ==>
      files[CheckpointFile(n)].SealedJson? && files[CheckpointFile(n)].checkpoint.number == n
      && Proper(files[CheckpointFile(n)].checkpoint, v)
  }

  /** The pointer is the one written when `c` was sealed, and `c` is still there, unless its number has seven digits. */
  ghost predicate PointsTo(files: Files, c: Checkpoint) {
    && LatestPointer in files && files[LatestPointer] == PointerJson(PointerTo(c))
    && CheckpointFile(c.number) in files
    && (c.number <= MAX_NUMBER ==> files[CheckpointFile(c.number)] == SealedJson(c))
  }

  ghost predicate Consistent(files: Files, v: Validators) {
    && (forall n: nat :: SoundCheckpoint(files, v, n))
    && (LatestPointer in files ==> exists c :: PointsTo(files, c) && Proper(c, v))
  }

  lemma NextIsProper(files: Files, v: Validators, createdAt: string)
    requires Sealable(files, v)
    ensures Proper(NextCheckpoint(files, createdAt), v)
  {}

  lemma SealingKeepsConsistency(files: Files, v: Validators, c: Checkpoint, alive: nat)
    requires Consistent(files, v) && Proper(c, v) && c.number == Highest(files) + 1
    ensures Consistent(Sealing(files, c, alive), v)
  {
    hide Proper, Highest;
    var after := Sealing(files, c, alive);
    forall n: nat ensures SoundCheckpoint(after, v, n) {
      assert SoundCheckpoint(files, v, n);
    }
    if alive >= 2 {
      assert PointsTo(after, c);
    } else if LatestPointer in files {
      var d :| PointsTo(files, d) && Proper(d, v);
      if d.number <= MAX_NUMBER { HighestBounds(files, d.number); }
      assert PointsTo(after, d);
    }
  }

  lemma SameCheckpointsConsistent(files: Files, after: Files, v: Validators)
    requires Consistent(files, v)
    requires forall p: Path :: !p.StateFile? ==> (p in after <==> p in files) && (p in files ==> after[p] == files[p])
    ensures Consistent(after, v) && Numbers(after) == Numbers(files)
  {
    hide Proper;
    forall n: nat ensures SoundCheckpoint(after, v, n) {
      assert SoundCheckpoint(files, v, n);
    }
    if LatestPointer in after {
      var d :| PointsTo(files, d) && Proper(d, v);
      assert PointsTo(after, d);
    }
    forall n ensures n in Numbers(after) <==> n in Numbers(files) {
      if n in Numbers(after) { assert CheckpointFile(n) in files && CheckpointFile(n).number in Numbers(files); }
      if n in Numbers(files) { assert CheckpointFile(n) in after && CheckpointFile(n).number in Numbers(after); }
    }
  }

  lemma NextKeepsConsistency(files: Files, v: Validators, e: Event)
    requires Consistent(files, v)
    ensures Consistent(Next(files, v, e), v)
  {
    hide Consistent, Readable, Validated, Sealing;
    if e.Seal? {
      if Sealable(files, v) {
        NextIsProper(files, v, e.createdAt);
        SealingKeepsConsistency(files, v, NextCheckpoint(files, e.createdAt), e.alive);
      }
    } else {
      SameCheckpointsConsistent(files, Next(files, v, e), v);
    }
  }

  lemma {:induction false} RunKeepsConsistency(files: Files, v: Validators, run: seq<Event>)
    requires Consistent(files, v)
    ensures Consistent(After(files, v, run), v)
  {
    hide Consistent, Next;
    if |run| > 0 {
      RunKeepsConsistency(files, v, run[..|run| - 1]);
      NextKeepsConsistency(After(files, v, run[..|run| - 1]), v, run[|run| - 1]);
    }
  }

  // ---- Crash safety ---------------------------------------------------------------------------

  lemma NoCheckpointsConsistent(files: Files, v: Validators)
    requires NoCheckpoints(files)
    ensures Consistent(files, v)
  {}

  /** A checkpoint that loads is the highest-numbered one, exactly as its file holds it. */
  lemma LoadsOnlyTheHighest(files: Files, v: Validators)
    requires Consistent(files, v) && Latest(files).Ready?
    ensures var c := Latest(files).checkpoint;
            && PointsTo(files, c) && Proper(c, v)
            && c.number == Highest(files) && files[CheckpointFile(Highest(files))] == SealedJson(c)
            && Latest(files).pointer == PointerTo(c)
  {
    hide Proper, Highest;
    var d :| PointsTo(files, d) && Proper(d, v);
    HighestBounds(files, d.number);
  }

  /** `c` was sealed by an event of the run, far enough for the pointer to be written. */
  ghost predicate SealedDuring(files: Files, v: Validators, run: seq<Event>, c: Checkpoint) {
    exists k :: 0 <= k < |run| && SealedAt(files, v, run, k, c)
  }

  ghost predicate SealedAt(files: Files, v: Validators, run: seq<Event>, k: nat, c: Checkpoint)
    requires k < |run|
  {
    SealedBy(After(files, v, run[..k]), v, run[k], c)
  }

  lemma SealedInLongerRun(files: Files, v: Validators, run: seq<Event>, k: nat, c: Checkpoint)
    requires k <= |run| && SealedDuring(files, v, run[..k], c)
    ensures SealedDuring(files, v, run, c)
  {
    hide SealedBy, After;
    var m :| 0 <= m < k && SealedAt(files, v, run[..k], m, c);
    assert run[..k][..m] == run[..m];
    assert SealedAt(files, v, run, m, c);
  }

  ghost predicate SealedBy(files: Files, v: Validators, e: Event, c: Checkpoint) {
    e.Seal? && e.alive >= 2 && Sealable(files, v) && c == NextCheckpoint(files, e.createdAt)
  }

  ghost predicate PointerNames(files: Files, c: Checkpoint) {
    LatestPointer in files && files[LatestPointer] == PointerJson(PointerTo(c))
  }

  /** A pointer after an event is the one the event wrote or the one that was there. */
  lemma PointerOrigin(files: Files, v: Validators, e: Event, c: Checkpoint)
    requires PointerNames(Next(files, v, e), c)
    ensures SealedBy(files, v, e, c) || PointerNames(files, c)
  {
    if e.Seal? && e.alive >= 2 && Sealable(files, v) {
      SameDigestSameCheckpoint(NextCheckpoint(files, e.createdAt), c);
    }
  }

  lemma {:induction false} PointerWasSealed(files: Files, v: Validators, run: seq<Event>, c: Checkpoint)
    requires NoCheckpoints(files)
    requires PointerNames(After(files, v, run), c)
    ensures SealedDuring(files, v, run, c)
  {
    hide SealedBy, Next;
    if |run| > 0 {
      var k := |run| - 1;
      var before := After(files, v, run[..k]);
      PointerOrigin(before, v, run[k], c);
      if SealedBy(before, v, run[k], c) {
        assert SealedAt(files, v, run, k, c);
      } else {
        PointerWasSealed(files, v, run[..k], c);
        SealedInLongerRun(files, v, run, k, c);
      }
    }
  }

  /** Pointers with the same digest were written for the same checkpoint. */
  lemma SameDigestSameCheckpoint(a: Checkpoint, b: Checkpoint)
    requires PointerTo(a) == PointerTo(b)
    ensures a == b
  {
    assert PointerTo(a).sha.value.content == SealedJson(a);
  }

  lemma NextKeepsFile(files: Files, v: Validators, e: Event, n: nat)
    requires n <= MAX_NUMBER && CheckpointFile(n) in files
    ensures CheckpointFile(n) in Next(files, v, e) && Next(files, v, e)[CheckpointFile(n)] == files[CheckpointFile(n)]
  {
    hide Readable, Validated, Digests, Highest, Completed;
    HighestBounds(files, n);
  }

  /** No recognised checkpoint file ever changes or disappears. */
  lemma {:induction false} NeverOverwritten(files: Files, v: Validators, run: seq<Event>, n: nat)
    requires n <= MAX_NUMBER && CheckpointFile(n) in files
    ensures CheckpointFile(n) in After(files, v, run) && After(files, v, run)[CheckpointFile(n)] == files[CheckpointFile(n)]
  {
    hide Next;
    if |run| > 0 {
      NeverOverwritten(files, v, run[..|run| - 1], n);
      NextKeepsFile(After(files, v, run[..|run| - 1]), v, run[|run| - 1], n);
    }
  }

  /**
   Starting without checkpoints, after any run -- sealings cut off anywhere, journal steps, edits -- either loading is
   refused, or it returns the highest-numbered checkpoint, exactly as one of the run's sealings wrote it.
   */
  lemma CrashSafety(files: Files, v: Validators, run: seq<Event>)
    requires NoCheckpoints(files)
    ensures var now := After(files, v, run);
            Latest(now).Ready? ==>
              && SealedDuring(files, v, run, Latest(now).checkpoint)
              && Latest(now).checkpoint.number == Highest(now)
              && now[CheckpointFile(Highest(now))] == SealedJson(Latest(now).checkpoint)
              && Proper(Latest(now).checkpoint, v)
  {
    var now := After(files, v, run);
    NoCheckpointsConsistent(files, v);
    RunKeepsConsistency(files, v, run);
    if Latest(now).Ready? {
      LoadsOnlyTheHighest(now, v);
      PointerWasSealed(files, v, run, Latest(now).checkpoint);
    }
  }

  /** The checkpoint that loads is never an earlier one than loaded before. */
  lemma LoadedNumbersNeverDecrease(files: Files, v: Validators, run: seq<Event>, later: seq<Event>)
    requires NoCheckpoints(files)
    requires Latest(After(files, v, run)).Ready? && Latest(After(files, v, run + later)).Ready?
    ensures Latest(After(files, v, run)).checkpoint.number <= Latest(After(files, v, run + later)).checkpoint.number
  {
    hide Consistent, Next, Latest;
    var now := After(files, v, run);
    NoCheckpointsConsistent(files, v);
    RunKeepsConsistency(files, v, run);
    RunKeepsConsistency(files, v, run + later);
    AfterConcat(files, v, run, later);
    LoadsOnlyTheHighest(now, v);
    LoadsOnlyTheHighest(After(files, v, run + later), v);
    NeverOverwritten(now, v, later, Highest(now));
    HighestBounds(After(files, v, run + later), Highest(now));
  }

  lemma HighestAfterSealing(files: Files, c: Checkpoint, alive: nat)
    requires c.number == Highest(files) + 1 && alive >= 1
    ensures Highest(Sealing(files, c, alive)) == if c.number <= MAX_NUMBER then c.number else Highest(files)
  {
    var after := Sealing(files, c, alive);
    var h := Highest(files);
    assert h == 0 || CheckpointFile(h) in files;
    forall m: nat | m <= MAX_NUMBER && CheckpointFile(m) in after ensures m <= h || m == c.number {
      if CheckpointFile(m) in files { HighestBounds(files, m); }
    }
    HighestIs(after, if c.number <= MAX_NUMBER then c.number else h);
  }

  /**
   One further sealing that gets as far as its pointer makes the mission loadable again, whatever crashes came
   before -- exactly while the highest number is below 999999, because a seven-digit id is not recognised.
   */
  lemma SealingRestoresLoading(files: Files, v: Validators, createdAt: string, alive: nat)
    requires Consistent(files, v) && Sealable(files, v) && alive >= 2
    ensures var c := NextCheckpoint(files, createdAt);
            Latest(AfterCheckpoint(files, v, createdAt, alive)) ==
            if Highest(files) < MAX_NUMBER then Ready(PointerTo(c), c) else Unloadable("checkpoint_sequence_invalid")
  {
    hide Proper, Readable, Validated, Consistent, Digests;
    HighestAfterSealing(files, NextCheckpoint(files, createdAt), alive);
    assert Highest(files) <= MAX_NUMBER by {
      assert Highest(files) == 0 || Highest(files) in Numbers(files);
    }
  }

  /** A sealing that dies before its pointer leaves the mission blocked, never on the older checkpoint. */
  lemma CrashBeforePointerBlocks(files: Files, v: Validators, createdAt: string)
    requires Consistent(files, v) && Sealable(files, v) && Highest(files) < MAX_NUMBER
    ensures Latest(AfterCheckpoint(files, v, createdAt, 1)).Unloadable?
    ensures Latest(files).Ready? ==>
              Latest(AfterCheckpoint(files, v, createdAt, 1)) == Unloadable("checkpoint_sequence_regression")
  {
    hide Proper, Readable, Validated, Digests, Highest;
    var c := NextCheckpoint(files, createdAt);
    HighestAfterSealing(files, c, 1);
    if LatestPointer in files {
      var d :| PointsTo(files, d) && Proper(d, v);
      if d.number <= MAX_NUMBER { HighestBounds(files, d.number); }
    }
  }

  /** A sealing writes over an existing file exactly when numbers have run out and the seven-digit file is there already. */
  lemma OverwritesExactly(files: Files, v: Validators, createdAt: string)
    requires Sealable(files, v)
    ensures CheckpointFile(NextCheckpoint(files, createdAt).number) in files <==>
            Highest(files) == MAX_NUMBER && CheckpointFile(MAX_NUMBER + 1) in files
  {
    hide Readable, Validated, Digests;
    var next := Highest(files) + 1;
    assert Highest(files) <= MAX_NUMBER by {
      assert Highest(files) == 0 || Highest(files) in Numbers(files);
    }
    if next <= MAX_NUMBER && CheckpointFile(next) in files { HighestBounds(files, next); }
  }

  // ---- Running out of numbers ---------------------------------------------------------------------

  /** Nothing but sealings, each of which gets as far as its checkpoint file. */
  ghost predicate OnlySealings(run: seq<Event>) {
    forall k :: 0 <= k < |run| ==> run[k].Seal? && run[k].alive >= 1
  }

  lemma SealingKeepsSealable(files: Files, v: Validators, c: Checkpoint, alive: nat)
    requires Sealable(files, v)
    ensures Sealable(Sealing(files, c, alive), v)
  {
    hide StateValid, JournalValid;
    var after := Sealing(files, c, alive);
    assert forall p: Path :: p.StateFile? ==> (p in after <==> p in files) && (p in files ==> after[p] == files[p]);
    assert Durable(after) == Durable(files);
  }

  /** The numbers count the sealings, up to the last one that six digits can hold. */
  lemma {:induction false} SealingsAreCounted(files: Files, v: Validators, run: seq<Event>)
    requires NoCheckpoints(files) && Sealable(files, v) && OnlySealings(run)
    ensures Sealable(After(files, v, run), v)
    ensures Highest(After(files, v, run)) == if |run| <= MAX_NUMBER then |run| else MAX_NUMBER
  {
    hide Validated, Sealing, Highest, Readable;
    if |run| == 0 {
      HighestIs(files, 0);
    } else {
      var before, e := After(files, v, run[..|run| - 1]), run[|run| - 1];
      SealingsAreCounted(files, v, run[..|run| - 1]);
      SealingKeepsSealable(before, v, NextCheckpoint(before, e.createdAt), e.alive);
      HighestAfterSealing(before, NextCheckpoint(before, e.createdAt), e.alive);
    }
  }

  /**
   A mission that does nothing but seal loads after a sealing that reached its pointer if and only if it has sealed
   at most 999999 times: the millionth sealing blocks it.
   */
  lemma MillionthSealingBlocks(files: Files, v: Validators, run: seq<Event>)
    requires NoCheckpoints(files) && Sealable(files, v) && OnlySealings(run) && |run| > 0 && run[|run| - 1].alive >= 2
    ensures var now := Latest(After(files, v, run));
            && (now.Ready? <==> |run| <= MAX_NUMBER)
            && (now.Ready? ==> now.checkpoint.number == |run|)
            && (!now.Ready? ==> now == Unloadable("checkpoint_sequence_invalid"))
  {
    hide Validated, Latest, Sealing, Highest, Readable;
    var before, e := After(files, v, run[..|run| - 1]), run[|run| - 1];
    SealingsAreCounted(files, v, run[..|run| - 1]);
    NoCheckpointsConsistent(files, v);
    RunKeepsConsistency(files, v, run[..|run| - 1]);
    SealingRestoresLoading(before, v, e.createdAt, e.alive);
  }

  // ---- Resuming what was just sealed ----------------------------------------------------------------

  /**
   Right after a sealing that reached its pointer, somebody can resume if and only if no step was open and the state
   is one that can be resumed: its files are as sealed by then.
   */
  lemma FreshSealResumableExactly(files: Files, v: Validators, createdAt: string, alive: nat)
    requires Consistent(files, v) && Sealable(files, v) && Highest(files) < MAX_NUMBER && alive >= 2
    ensures var (after, c) := (AfterCheckpoint(files, v, createdAt, alive), NextCheckpoint(files, createdAt));
            (exists o, capabilities :: Guard(after, o, capabilities).Resume?) <==> NoOpenStep(c.journal.steps) && Resumable(c.state)
  {
    hide Guard, Latest, Proper, Resumable, Consistent, Highest, Validated;
    var after, c := AfterCheckpoint(files, v, createdAt, alive), NextCheckpoint(files, createdAt);
    NextIsProper(files, v, createdAt);
    SealingRestoresLoading(files, v, createdAt, alive);
    ResumableExactly(after, v);
    assert forall name :: name in DURABLE_FILES ==> StateFile(name) in after && after[StateFile(name)] == files[StateFile(name)];
  }

  /**
   A sealing whose resume note cannot be put together raises with checkpoint and pointer written: the files are those of
   a sealing that died after its pointer, and the new checkpoint loads.
   */
  lemma FailedNoteStillSeals(files: Files, v: Validators, createdAt: string, alive: nat)
    requires Consistent(files, v) && Sealable(files, v) && Highest(files) < MAX_NUMBER && alive >= 2
    requires !Projectable(files[StateFile(MISSION_STATE)].fields)
    ensures var after := AfterCheckpoint(files, v, createdAt, alive);
            && after == AfterCheckpoint(files, v, createdAt, 2)
            && Latest(after) == Ready(PointerTo(NextCheckpoint(files, createdAt)), NextCheckpoint(files, createdAt))
  {
    hide Consistent, Highest, Latest, Validated, Projectable;
    SealingRestoresLoading(files, v, createdAt, alive);
  }

  /** Validation does not ask whether the note can be put together: any accepted state may lose its completed tasks to a null. */
  lemma NullTasksAreValid(state: map<string, Json>)
    requires StateValid(state)
    ensures var changed := state["completed_tasks" := Null]; StateValid(changed) && !Projectable(changed)
  {
    hide StateValid;
    ChangedIsValid(state, "completed_tasks", Null);
    assert "completed_tasks" in JOINED && !Joins(state["completed_tasks" := Null], "completed_tasks");
  }

  /** The mission with one field of its state edited. */
  function Edited(files: Files, key: string, value: Json): (edited: Files)
    requires Readable(files)
    ensures AllPresent(edited)
  {
    files[StateFile(MISSION_STATE) := StateJson(files[StateFile(MISSION_STATE)].fields[key := value])]
  }

  /**
   As long as the two validators that are not modelled accept the edited mission, it is sealable, and once sealed as far
   as the pointer it can be resumed by nobody.
   */
  ghost predicate SealsForNobody(files: Files, v: Validators, key: string, value: Json)
    requires Readable(files)
  {
    var edited := Edited(files, key, value);
    v.secretFree(edited[StateFile(MISSION_STATE)].fields) && v.controlFilesValid(Durable(edited)) ==>
      && Sealable(edited, v)
      && forall createdAt, alive: nat, o, capabilities :: alive >= 2 ==>
           !Guard(AfterCheckpoint(edited, v, createdAt, alive), o, capabilities).Resume?
  }

  lemma EditSealsForNobody(files: Files, v: Validators, key: string, value: Json)
    requires Consistent(files, v) && Sealable(files, v) && Highest(files) < MAX_NUMBER
    requires var state := files[StateFile(MISSION_STATE)].fields[key := value]; StateValid(state) && !Resumable(state)
    ensures SealsForNobody(files, v, key, value)
  {
    hide Guard, Consistent, Resumable, StateValid, JournalValid, Sealing, Highest;
    var edited := Edited(files, key, value);
    SameCheckpointsConsistent(files, edited, v);
    if v.secretFree(edited[StateFile(MISSION_STATE)].fields) && v.controlFilesValid(Durable(edited)) {
      assert Highest(edited) == Highest(files) by { SameHighest(files, edited); }
      forall createdAt, alive: nat, o, capabilities | alive >= 2
        ensures !Guard(AfterCheckpoint(edited, v, createdAt, alive), o, capabilities).Resume?
      {
        FreshSealResumableExactly(edited, v, createdAt, alive);
      }
    }
  }

  lemma SameHighest(files: Files, after: Files)
    requires Numbers(after) == Numbers(files)
    ensures Highest(after) == Highest(files)
  {}

  /**
   Sealing accepts missions nobody can ever resume: whatever mission it accepts, it accepts it with the preconditions
   null, the worktree dirty or a number for the branch -- given that the scan for secrets and the validators of the
   other control files do -- and what it seals lets nobody resume.
   */
  lemma SealedYetNotResumable(files: Files, v: Validators)
    requires Consistent(files, v) && Sealable(files, v) && Highest(files) < MAX_NUMBER
    ensures SealsForNobody(files, v, "next_action_preconditions", Null)
    ensures SealsForNobody(files, v, "active_worktree_dirty", Bool(true))
    ensures SealsForNobody(files, v, "active_branch", Number(7))
  {
    hide SealsForNobody, StateValid, Resumable, Consistent, Highest, JournalValid;
    ValidYetNotResumable(files[StateFile(MISSION_STATE)].fields);
    EditSealsForNobody(files, v, "next_action_preconditions", Null);
    EditSealsForNobody(files, v, "active_worktree_dirty", Bool(true));
    EditSealsForNobody(files, v, "active_branch", Number(7));
  }

  // ---- Journal steps ------------------------------------------------------------------------------

  ghost predicate LeavesJournal(run: seq<Event>) {
    forall k :: 0 <= k < |run| && run[k].Edit? ==> run[k].name != STEP_JOURNAL
  }

  /** The same step, possibly completed since. */
  ghost predicate Grown(before: Step, after: Step) {
    && after.stepId == before.stepId && after.details == before.details
    && (after.status == before.status || after.status.Complete?)
  }

  ghost predicate Extends(before: seq<Step>, after: seq<Step>) {
    |before| <= |after| && forall i :: 0 <= i < |before| ==> Grown(before[i], after[i])
  }

  lemma {:induction false} CompletedGrows(steps: seq<Step>, id: string, at: string)
    ensures |Completed(steps, id, at)| == |steps| && Extends(steps, Completed(steps, id, at))
    ensures forall i :: 0 <= i < |steps| && steps[i].stepId != id ==> Completed(steps, id, at)[i] == steps[i]
    ensures UniqueSteps(steps) ==> UniqueSteps(Completed(steps, id, at))
  {
    if |steps| > 0 && steps[0].stepId != id {
      CompletedGrows(steps[1..], id, at);
      var t := Completed(steps, id, at);
      forall i | 0 <= i < |steps| ensures Grown(steps[i], t[i]) && (steps[i].stepId != id ==> t[i] == steps[i]) {
        if i > 0 { assert steps[i] == steps[1..][i - 1]; }
      }
    }
  }

  ghost function StepsOf(files: Files): seq<Step>
    requires LoadedJournal(files).Some?
  {
    LoadedJournal(files).value.steps
  }

  lemma NextGrowsJournal(files: Files, v: Validators, e: Event)
    requires LoadedJournal(files).Some? && (e.Edit? ==> e.name != STEP_JOURNAL)
    ensures LoadedJournal(Next(files, v, e)).Some?
    ensures Extends(StepsOf(files), StepsOf(Next(files, v, e)))
    ensures UniqueSteps(StepsOf(files)) ==> UniqueSteps(StepsOf(Next(files, v, e)))
    ensures !e.Start? && !e.Finish? ==> LoadedJournal(Next(files, v, e)) == LoadedJournal(files)
  {
    hide Readable, Validated, Digests, Completed, Highest;
    if e.Finish? { CompletedGrows(StepsOf(files), e.id, e.at); }
  }

  lemma ExtendsItself(steps: seq<Step>)
    ensures Extends(steps, steps)
  {}

  lemma ExtendsTransitive(a: seq<Step>, b: seq<Step>, c: seq<Step>)
    requires Extends(a, b) && Extends(b, c)
    ensures Extends(a, c)
  {
    forall i | 0 <= i < |a| ensures Grown(a[i], c[i]) {
      assert Grown(a[i], b[i]) && Grown(b[i], c[i]);
    }
  }

  /** Journal steps are never lost, never reopened, and their ids stay unique, whatever else happens. */
  lemma {:induction false} StepsAreNeverLost(files: Files, v: Validators, run: seq<Event>)
    requires LoadedJournal(files).Some? && LeavesJournal(run)
    ensures LoadedJournal(After(files, v, run)).Some?
    ensures Extends(StepsOf(files), StepsOf(After(files, v, run)))
    ensures UniqueSteps(StepsOf(files)) ==> UniqueSteps(StepsOf(After(files, v, run)))
  {
    hide Next, Extends, UniqueSteps, LoadedJournal;
    if |run| > 0 {
      var before := After(files, v, run[..|run| - 1]);
      StepsAreNeverLost(files, v, run[..|run| - 1]);
      NextGrowsJournal(before, v, run[|run| - 1]);
      ExtendsTransitive(StepsOf(files), StepsOf(before), StepsOf(After(files, v, run)));
    } else {
      ExtendsItself(StepsOf(files));
    }
  }

  // ---- Interrupted work blocks resuming --------------------------------------------------------------

  /** What has happened to a started step: nothing, its completion, or its completion and then a sealing. */
  datatype Phase = Open | Done | Resealed

  ghost function PhaseAfter(files: Files, v: Validators, run: seq<Event>, id: string): Phase {
    if |run| == 0 then Open
    else
      var before := PhaseAfter(files, v, run[..|run| - 1], id);
      var e := run[|run| - 1];
      if before.Open? && e.Finish? && e.id == id then Done
      else if before.Done? && e.Seal? && e.alive >= 2 && Sealable(After(files, v, run[..|run| - 1]), v) then Resealed
      else before
  }

  /** All records of the id are in progress; there may be none. */
  ghost predicate NotCompleted(steps: seq<Step>, id: string) {
    forall i :: 0 <= i < |steps| && steps[i].stepId == id ==> steps[i].status.InProgress?
  }

  /** The checkpoint pointed to knows no step the live journal does not. */
  ghost predicate SealedStepsKnown(files: Files) {
    forall c, i :: PointsTo(files, c) && 0 <= i < |c.journal.steps| ==>
      LoadedJournal(files).Some? && Knows(LoadedJournal(files).value.steps, c.journal.steps[i].stepId)
  }

  ghost predicate SealedNotCompleted(files: Files, id: string) {
    forall c :: PointsTo(files, c) ==> NotCompleted(c.journal.steps, id)
  }

  lemma ExtendsKnows(a: seq<Step>, b: seq<Step>, id: string)
    requires Extends(a, b) && Knows(a, id)
    ensures Knows(b, id)
  {
    var i :| 0 <= i < |a| && a[i].stepId == id;
    assert Grown(a[i], b[i]);
  }

  lemma PointsToOrigin(files: Files, v: Validators, e: Event, c: Checkpoint)
    requires Consistent(files, v) && PointsTo(Next(files, v, e), c)
    ensures SealedBy(files, v, e, c) || PointsTo(files, c)
  {
    PointerOrigin(files, v, e, c);
    if PointerNames(files, c) {
      var d :| PointsTo(files, d) && Proper(d, v);
      SameDigestSameCheckpoint(c, d);
    }
  }

  lemma {:induction false} SealedStepsStayKnown(files: Files, v: Validators, run: seq<Event>)
    requires NoCheckpoints(files) && LoadedJournal(files).Some? && LeavesJournal(run)
    ensures SealedStepsKnown(After(files, v, run))
  {
    if |run| > 0 {
      var k := |run| - 1;
      var before, after := After(files, v, run[..k]), After(files, v, run);
      SealedStepsStayKnown(files, v, run[..k]);
      StepsAreNeverLost(files, v, run[..k]);
      NextGrowsJournal(before, v, run[k]);
      NoCheckpointsConsistent(files, v);
      RunKeepsConsistency(files, v, run[..k]);
      forall c, i | PointsTo(after, c) && 0 <= i < |c.journal.steps|
        ensures LoadedJournal(after).Some? && Knows(StepsOf(after), c.journal.steps[i].stepId)
      {
        PointsToOrigin(before, v, run[k], c);
        assert Knows(StepsOf(before), c.journal.steps[i].stepId);
        ExtendsKnows(StepsOf(before), StepsOf(after), c.journal.steps[i].stepId);
      }
    }
  }

  /** What keeps the guard closed in each phase. */
  ghost predicate Blocking(files: Files, id: string, phase: Phase) {
    && LoadedJournal(files).Some? && Knows(StepsOf(files), id)
    && (phase.Open? ==> NotCompleted(StepsOf(files), id))
    && (!phase.Resealed? ==> SealedNotCompleted(files, id))
  }

  lemma OpenStaysOpen(files: Files, v: Validators, e: Event, id: string)
    requires LoadedJournal(files).Some? && Knows(StepsOf(files), id) && NotCompleted(StepsOf(files), id)
    requires (e.Edit? ==> e.name != STEP_JOURNAL) && !(e.Finish? && e.id == id)
    ensures LoadedJournal(Next(files, v, e)).Some? && NotCompleted(StepsOf(Next(files, v, e)), id)
  {
    NextGrowsJournal(files, v, e);
    if e.Finish? { CompletedGrows(StepsOf(files), e.id, e.at); }
  }

  lemma {:induction false} StaysBlocking(files: Files, v: Validators, run: seq<Event>, id: string)
    requires Consistent(files, v) && LeavesJournal(run) && Blocking(files, id, Open)
    ensures Blocking(After(files, v, run), id, PhaseAfter(files, v, run, id))
  {
    if |run| > 0 {
      var k := |run| - 1;
      var before, after := After(files, v, run[..k]), After(files, v, run);
      var phase := PhaseAfter(files, v, run[..k], id);
      StaysBlocking(files, v, run[..k], id);
      RunKeepsConsistency(files, v, run[..k]);
      NextGrowsJournal(before, v, run[k]);
      ExtendsKnows(StepsOf(before), StepsOf(after), id);
      if PhaseAfter(files, v, run, id).Open? { OpenStaysOpen(before, v, run[k], id); }
      if !PhaseAfter(files, v, run, id).Resealed? {
        forall c | PointsTo(after, c) ensures NotCompleted(c.journal.steps, id) {
          PointsToOrigin(before, v, run[k], c);
        }
      }
    }
  }

  lemma BlockingClosesGuard(files: Files, v: Validators, id: string, phase: Phase, o: Observation, capabilities: Capabilities)
    requires Consistent(files, v) && Blocking(files, id, phase) && !phase.Resealed?
    ensures !Guard(files, o, capabilities).Resume?
  {
    if Latest(files).Ready? {
      LoadsOnlyTheHighest(files, v);
      var c := Latest(files).checkpoint;
      ResumesExactly(files, v, o, capabilities);
      assert STEP_JOURNAL in DURABLE_FILES;
    }
  }

  /**
   From the moment a step is started, and whatever happens next, the guard lets nobody resume until that step has been
   completed and a checkpoint has been sealed after its completion.
   */
  lemma InterruptedWorkBlocks(files: Files, v: Validators, earlier: seq<Event>, id: string, details: map<string, Json>,
                              later: seq<Event>, o: Observation, capabilities: Capabilities)
    requires NoCheckpoints(files) && LoadedJournal(files).Some? && LeavesJournal(earlier + later)
    requires Starts(After(files, v, earlier), id)
    ensures var started := Next(After(files, v, earlier), v, Start(id, details));
            Guard(After(started, v, later), o, capabilities).Resume? ==> PhaseAfter(started, v, later, id).Resealed?
  {
    var before := After(files, v, earlier);
    var started := Next(before, v, Start(id, details));
    assert forall k :: 0 <= k < |earlier| ==> (earlier + later)[k] == earlier[k];
    assert forall k :: 0 <= k < |later| ==> (earlier + later)[|earlier| + k] == later[k];
    NoCheckpointsConsistent(files, v);
    RunKeepsConsistency(files, v, earlier);
    NextKeepsConsistency(before, v, Start(id, details));
    SealedStepsStayKnown(files, v, earlier);
    StepStarts(before, v, id, details);
    StaysBlocking(started, v, later, id);
    RunKeepsConsistency(started, v, later);
    if !PhaseAfter(started, v, later, id).Resealed? {
      BlockingClosesGuard(After(started, v, later), v, id, PhaseAfter(started, v, later, id), o, capabilities);
    }
  }

  lemma StepStarts(before: Files, v: Validators, id: string, details: map<string, Json>)
    requires Consistent(before, v) && SealedStepsKnown(before) && Starts(before, id)
    ensures Blocking(Next(before, v, Start(id, details)), id, Open)
  {
    var started := Next(before, v, Start(id, details));
    assert StepsOf(started) == StepsOf(before) + [StepOf(id, details)];
    assert StepsOf(started)[|StepsOf(before)|].stepId == id;
    forall c | PointsTo(started, c) ensures NotCompleted(c.journal.steps, id) {
      assert PointsTo(before, c);
    }
  }

  // ---- Anything may happen to the durable files ------------------------------------------------------

  /** The durable files on which two directories differ. */
  ghost function Differing(a: Files, b: Files): set<string> {
    set p | p in a.Keys + b.Keys && p.StateFile? && ((p in a) != (p in b) || (p in a && a[p] != b[p])) :: p.name
  }

  /** Edits lead to whatever durable files there may be: what is proved of runs supposes nothing about the work between sealings. */
  lemma {:induction false} EditsReachEverything(files: Files, v: Validators, target: Files) returns (run: seq<Event>)
    requires forall p: Path :: !p.StateFile? ==> (p in target <==> p in files) && (p in files ==> target[p] == files[p])
    ensures (forall e :: e in run ==> e.Edit?) && After(files, v, run) == target
    decreases |Differing(files, target)|
  {
    if Differing(files, target) == {} {
      forall p: Path ensures (p in target <==> p in files) && (p in files ==> target[p] == files[p]) {
        if p.StateFile? && (p in target || p in files) { assert p.name !in Differing(files, target); }
      }
      assert target == files;
      run := [];
    } else {
      var name :| name in Differing(files, target);
      var edit := EditTowards(files, v, target, name);
      var rest := EditsReachEverything(Next(files, v, edit), v, target);
      AfterConcat(files, v, [edit], rest);
      assert After(files, v, [edit]) == Next(files, v, edit);
      run := [edit] + rest;
    }
  }

  lemma EditTowards(files: Files, v: Validators, target: Files, name: string) returns (edit: Event)
    requires name in Differing(files, target)
    ensures edit.Edit? && Differing(Next(files, v, edit), target) == Differing(files, target) - {name}
    ensures var after := Next(files, v, edit);
            forall p: Path :: !p.StateFile? ==> (p in after <==> p in files) && (p in files ==> after[p] == files[p])
  {
    edit := Edit(name, if StateFile(name) in target then Some(target[StateFile(name)]) else None);
  }
}
