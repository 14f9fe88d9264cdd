/** A mission directory and its GitHub mirror running together: whatever loads at the moment of an attempt is mirrored. */
module MirrorRuns {
  import opened Mission
  import opened Checkpoints
  import opened ResumeGuard
  import MissionRuns
  import GithubMirror

  /** Something happens in the mission directory, a synchronisation is attempted, or somebody comments on the issue. */
  datatype Moment =
    | Work(e: MissionRuns.Event)
    | Mirroring(initialize: bool, quoted: set<GithubMirror.Ref>)
    | Remark(mentions: set<GithubMirror.Ref>)

  function Worked(moments: seq<Moment>): seq<MissionRuns.Event> {
    if |moments| == 0 then []
    else
      var before := Worked(moments[..|moments| - 1]);
      if moments[|moments| - 1].Work? then before + [moments[|moments| - 1].e] else before
  }

  /** The attempts of the run, each with what the directory held at its moment. */
  ghost function Attempts(files: Files, v: Validators, moments: seq<Moment>): seq<GithubMirror.Attempt> {
    if |moments| == 0 then []
    else
      var init := moments[..|moments| - 1];
      match moments[|moments| - 1]
      case Work(_) => Attempts(files, v, init)
      case Remark(mentions) => Attempts(files, v, init) + [GithubMirror.Remark(mentions)]
      case Mirroring(initialize, quoted) =>
        Attempts(files, v, init) + [GithubMirror.Sync(Latest(MissionRuns.After(files, v, Worked(init))), initialize, quoted)]
  }

  /** `loaded` is what the directory held after the first `p` events. */
  ghost predicate LoadedAfter(files: Files, v: Validators, worked: seq<MissionRuns.Event>, p: nat, loaded: Loaded) {
    p <= |worked| && loaded == Latest(MissionRuns.After(files, v, worked[..p]))
  }

  lemma {:induction false} AttemptsLoadPrefixes(files: Files, v: Validators, moments: seq<Moment>)
    ensures forall i :: 0 <= i < |Attempts(files, v, moments)| && Attempts(files, v, moments)[i].Sync? ==>
              exists p: nat :: LoadedAfter(files, v, Worked(moments), p, Attempts(files, v, moments)[i].loaded)
  {
    hide Latest, MissionRuns.After;
    if |moments| > 0 {
      var init := moments[..|moments| - 1];
      AttemptsLoadPrefixes(files, v, init);
      var attempts, earlier := Attempts(files, v, moments), Attempts(files, v, init);
      forall i | 0 <= i < |attempts| && attempts[i].Sync?
        ensures exists p: nat :: LoadedAfter(files, v, Worked(moments), p, attempts[i].loaded)
      {
        if i < |earlier| {
          var p: nat :| LoadedAfter(files, v, Worked(init), p, earlier[i].loaded);
          assert Worked(moments)[..p] == Worked(init)[..p];
          assert LoadedAfter(files, v, Worked(moments), p, attempts[i].loaded);
        } else {
          assert Worked(init)[..|Worked(init)|] == Worked(init);
          assert LoadedAfter(files, v, Worked(moments), |Worked(init)|, attempts[i].loaded);
        }
      }
    }
  }

  /** The order of numbers that the mirror relies on is what a mission directory provides. */
  lemma {:induction false} AttemptsGoForward(files: Files, v: Validators, moments: seq<Moment>)
    requires MissionRuns.NoCheckpoints(files)
    ensures GithubMirror.Forward(Attempts(files, v, moments))
  {
    hide Latest, MissionRuns.After;
    if |moments| > 0 {
      var init := moments[..|moments| - 1];
      var attempts, earlier, worked := Attempts(files, v, moments), Attempts(files, v, init), Worked(init);
      AttemptsGoForward(files, v, init);
      if moments[|moments| - 1].Mirroring? {
        AttemptsLoadPrefixes(files, v, init);
        var now := attempts[|earlier|];
        forall i | 0 <= i < |earlier| && earlier[i].Sync? && earlier[i].loaded.Ready? && now.loaded.Ready?
          ensures earlier[i].loaded.checkpoint.number <= now.loaded.checkpoint.number
        {
          var p: nat :| LoadedAfter(files, v, worked, p, earlier[i].loaded);
          assert worked == worked[..p] + worked[p..];
          MissionRuns.LoadedNumbersNeverDecrease(files, v, worked[..p], worked[p..]);
        }
      }
    }
  }

  /** The pointer issue names only what some attempt loaded. */
  lemma {:induction false} PointerWasLoaded(m: GithubMirror.Mirror, net: GithubMirror.Network, run: seq<GithubMirror.Attempt>,
                                            r: GithubMirror.Ref)
    requires m.pointerBody.Unrelated? && GithubMirror.After(m, net, run).pointerBody == GithubMirror.PointerPage(r)
    ensures exists i :: 0 <= i < |run| && Loads(run[i], r)
  {
    if |run| > 0 {
      var k := |run| - 1;
      var before := GithubMirror.After(m, net, run[..k]);
      if before.pointerBody == GithubMirror.PointerPage(r) {
        PointerWasLoaded(m, net, run[..k], r);
        var i :| 0 <= i < k && Loads(run[..k][i], r);
        assert Loads(run[i], r);
      } else {
        SyncWritesItsOwn(before, net, run[k].loaded, run[k].initialize, run[k].quoted, r);
        assert Loads(run[k], r);
      }
    }
  }

  ghost predicate Loads(a: GithubMirror.Attempt, r: GithubMirror.Ref) {
    a.Sync? && a.loaded.Ready? && GithubMirror.RefOf(a.loaded.pointer, a.loaded.checkpoint) == r
  }

  lemma SyncWritesItsOwn(m: GithubMirror.Mirror, net: GithubMirror.Network, loaded: Loaded, initialize: bool,
                         quoted: set<GithubMirror.Ref>, r: GithubMirror.Ref)
    requires GithubMirror.Synchronised(m, net, loaded, initialize, quoted).0.pointerBody == GithubMirror.PointerPage(r)
    requires m.pointerBody != GithubMirror.PointerPage(r)
    ensures loaded.Ready? && GithubMirror.RefOf(loaded.pointer, loaded.checkpoint) == r
  {
    hide GithubMirror.Identified, GithubMirror.Recorded, GithubMirror.RefOf;
    if loaded.Ready? {
      var own := GithubMirror.RefOf(loaded.pointer, loaded.checkpoint);
      var fetched := GithubMirror.Called(GithubMirror.Called(m));
      var edited := fetched.(missionBody := GithubMirror.MissionPage(own));
      GithubMirror.ListingOnlyCalls(GithubMirror.Effected(fetched, net, edited), net, 0);
    }
  }

  /**
   However sealings crash, requests get lost and attempts fall between them: what the pointer issue names is a
   checkpoint the mission sealed, with its digest; it has a comment with its marker; the mission issue shows it or a
   newer one; and no checkpoint was posted for twice.
   */
  lemma MirrorShowsSealedCheckpoints(files: Files, v: Validators, m: GithubMirror.Mirror, net: GithubMirror.Network,
                                     moments: seq<Moment>, r: GithubMirror.Ref)
    requires MissionRuns.NoCheckpoints(files)
    requires m.pointerBody.Unrelated? && m.missionBody.Unrelated? && GithubMirror.Orderly(m.comments)
    ensures var after := GithubMirror.After(m, net, Attempts(files, v, moments));
            && GithubMirror.Posts(after.comments, r) <= 1
            && (after.pointerBody == GithubMirror.PointerPage(r) ==>
                  && GithubMirror.Recorded(after.comments, r) && GithubMirror.ShowsFrom(after, r.number)
                  && exists c :: MissionRuns.SealedDuring(files, v, Worked(moments), c) && r == RefTo(c))
  {
    hide Latest, GithubMirror.After, MissionRuns.SealedDuring;
    var run := Attempts(files, v, moments);
    var after := GithubMirror.After(m, net, run);
    AttemptsGoForward(files, v, moments);
    GithubMirror.PointerIsCommittedLast(m, net, run, r);
    if after.pointerBody == GithubMirror.PointerPage(r) {
      PointerWasLoaded(m, net, run, r);
      var i :| 0 <= i < |run| && Loads(run[i], r);
      AttemptsLoadPrefixes(files, v, moments);
      var p: nat :| LoadedAfter(files, v, Worked(moments), p, run[i].loaded);
      LoadedWasSealed(files, v, Worked(moments), p);
    }
  }

  /** The mission, number and digest of a sealed checkpoint. */
  function RefTo(c: Checkpoint): GithubMirror.Ref { GithubMirror.Ref(c.missionId, c.number, Sha256(SealedJson(c))) }

  lemma LoadedWasSealed(files: Files, v: Validators, worked: seq<MissionRuns.Event>, p: nat)
    requires MissionRuns.NoCheckpoints(files) && p <= |worked|
    ensures var loaded := Latest(MissionRuns.After(files, v, worked[..p]));
            loaded.Ready? ==>
              && MissionRuns.SealedDuring(files, v, worked, loaded.checkpoint)
              && GithubMirror.RefOf(loaded.pointer, loaded.checkpoint) == RefTo(loaded.checkpoint)
  {
    hide MissionRuns.After, MissionRuns.SealedDuring, Proper, Highest;
    var now := MissionRuns.After(files, v, worked[..p]);
    if Latest(now).Ready? {
      MissionRuns.CrashSafety(files, v, worked[..p]);
      MissionRuns.SealedInLongerRun(files, v, worked, p, Latest(now).checkpoint);
    }
  }
}
