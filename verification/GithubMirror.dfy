/**
 Mirroring the latest checkpoint to two GitHub issues. Any request may fail before it takes effect or after, and a
 synchronisation is retried from the top; the pointer issue is written last.
 */
module GithubMirror {
  import opened Wrappers
  import opened Mission
  import opened Checkpoints

  /** What a checkpoint marker names: mission, number and digest. */
  datatype Ref = Ref(missionId: Json, number: nat, sha: Digest)

  /** An issue body. `missions` are the missions whose identity marker a body of other origin carries. */
  datatype Body = Unrelated(missions: set<Json>) | MissionPage(mission: Ref) | PointerPage(pointer: Ref)

  /** `mentions` are the checkpoint markers in the text; `origin` is the checkpoint it was posted for, if by a synchronisation. */
  datatype Comment = Comment(mentions: set<Ref>, origin: Option<Ref>)

  /** A request works, never arrives, or takes effect with its reply lost. */
  datatype Outcome = Works | LostBefore | LostAfter

  /** How the `n`th request of all time goes. */
  type Network = nat -> Outcome

  datatype Mirror = Mirror(
    pointerTitled: bool, pointerBody: Body, missionTitle: (Json, Json), missionBody: Body, comments: seq<Comment>, calls: nat)

  datatype SyncResult = NotReady(reason: string) | Failed | Synced(number: nat, commentCreated: bool)

  const PER_PAGE := 100
  const MAX_PAGES := 100

  function RefOf(p: Pointer, c: Checkpoint): Ref { Ref(p.missionId, c.number, Sha256(SealedJson(c))) }

  // ---- Requests ----------------------------------------------------------------------------

  function Called(m: Mirror): Mirror { m.(calls := m.calls + 1) }

  function Answered(m: Mirror, net: Network): bool { net(m.calls).Works? }

  /** The mirror after a request that would turn it into `changed`. */
  function Effected(m: Mirror, net: Network, changed: Mirror): Mirror {
    if net(m.calls).LostBefore? then Called(m) else Called(changed)
  }

  /** The comments of a page, counted from zero. */
  function PageOf(comments: seq<Comment>, page: nat): seq<Comment> {
    if PER_PAGE * page >= |comments| then [] else comments[PER_PAGE * page..Min(PER_PAGE * (page + 1), |comments|)]
  }

  /** A page takes the comments read so far to the next full hundred, or to the end. */
  lemma PageExtends(comments: seq<Comment>, page: nat)
    requires PER_PAGE * page <= |comments|
    ensures |PageOf(comments, page)| <= PER_PAGE
    ensures |PageOf(comments, page)| < PER_PAGE ==> comments[..PER_PAGE * page] + PageOf(comments, page) == comments
    ensures |PageOf(comments, page)| == PER_PAGE ==>
              PER_PAGE * (page + 1) <= |comments|
              && comments[..PER_PAGE * page] + PageOf(comments, page) == comments[..PER_PAGE * (page + 1)]
  {}

  /** The mirror after listing the comments from `page` on, and whether the listing succeeds. */
  function Listing(m: Mirror, net: Network, page: nat): (Mirror, bool)
    requires page <= MAX_PAGES
    decreases MAX_PAGES - page
  {
    if page == MAX_PAGES then (m, false)
    else if !Answered(m, net) then (Called(m), false)
    else if |PageOf(m.comments, page)| < PER_PAGE then (Called(m), true)
    else Listing(Called(m), net, page + 1)
  }

  // ---- One synchronisation --------------------------------------------------------------------

  predicate Identifies(body: Body, missionId: Json, pointer: bool) {
    match body
    case Unrelated(missions) => missionId in missions
    case MissionPage(r) => !pointer && r.missionId == missionId
    case PointerPage(r) => pointer && r.missionId == missionId
  }

  predicate Identified(m: Mirror, c: Checkpoint, initialize: bool) {
    && m.pointerTitled && (initialize || Identifies(m.pointerBody, c.missionId, true))
    && m.missionTitle == (c.missionId, Get(c.state, "mission_name"))
    && (initialize || Identifies(m.missionBody, c.missionId, false))
  }

  predicate Recorded(comments: seq<Comment>, r: Ref) { exists i :: 0 <= i < |comments| && r in comments[i].mentions }

  /** The comment of a checkpoint carries its marker, and whatever markers its next action happens to quote. */
  function CommentFor(r: Ref, quoted: set<Ref>): Comment { Comment({r} + quoted, Some(r)) }

  function AfterPointer(m: Mirror, net: Network, r: Ref, created: bool): (Mirror, SyncResult) {
    (Effected(m, net, m.(pointerBody := PointerPage(r))), if Answered(m, net) then Synced(r.number, created) else Failed)
  }

  function AfterComment(m: Mirror, net: Network, r: Ref, quoted: set<Ref>): (Mirror, SyncResult) {
    if Recorded(m.comments, r) then AfterPointer(m, net, r, false)
    else
      var posted := Effected(m, net, m.(comments := m.comments + [CommentFor(r, quoted)]));
      if !Answered(m, net) then (posted, Failed) else AfterPointer(posted, net, r, true)
  }

  function AfterMission(m: Mirror, net: Network, r: Ref, quoted: set<Ref>): (Mirror, SyncResult) {
    var edited := Effected(m, net, m.(missionBody := MissionPage(r)));
    if !Answered(m, net) then (edited, Failed)
    else
      var (listed, ok) := Listing(edited, net, 0);
      if !ok then (listed, Failed) else AfterComment(listed, net, r, quoted)
  }

  function Synchronised(m: Mirror, net: Network, loaded: Loaded, initialize: bool, quoted: set<Ref>): (Mirror, SyncResult) {
    if loaded.Unloadable? then (m, NotReady(loaded.reason))
    else if !Answered(m, net) then (Called(m), Failed)
    else if !Answered(Called(m), net) then (Called(Called(m)), Failed)
    else if !Identified(m, loaded.checkpoint, initialize) then (Called(Called(m)), Failed)
    else AfterMission(Called(Called(m)), net, RefOf(loaded.pointer, loaded.checkpoint), quoted)
  }

  class Issues {
    const net: Network
    var m: Mirror

    constructor (net: Network, m: Mirror)
      ensures this.net == net && this.m == m
    {
      this.net := net;
      this.m := m;
    }

    method Fetch() returns (ok: bool)
      modifies this
      ensures m == Called(old(m)) && ok == Answered(old(m), net)
    {
      ok := net(m.calls).Works?;
      m := Called(m);
    }

    method EditMission(body: Body) returns (ok: bool)
      modifies this
      ensures m == Effected(old(m), net, old(m).(missionBody := body)) && ok == Answered(old(m), net)
    {
      var outcome := net(m.calls);
      if !outcome.LostBefore? { m := m.(missionBody := body); }
      m := Called(m);
      ok := outcome.Works?;
    }

    method EditPointer(body: Body) returns (ok: bool)
      modifies this
      ensures m == Effected(old(m), net, old(m).(pointerBody := body)) && ok == Answered(old(m), net)
    {
      var outcome := net(m.calls);
      if !outcome.LostBefore? { m := m.(pointerBody := body); }
      m := Called(m);
      ok := outcome.Works?;
    }

    method Post(c: Comment) returns (ok: bool)
      modifies this
      ensures m == Effected(old(m), net, old(m).(comments := old(m).comments + [c])) && ok == Answered(old(m), net)
    {
      var outcome := net(m.calls);
      if !outcome.LostBefore? { m := m.(comments := m.comments + [c]); }
      m := Called(m);
      ok := outcome.Works?;
    }

    /** A hundred comments a page, a hundred pages at most; a success has seen every comment. */
    method ListComments() returns (result: Option<seq<Comment>>)
      modifies this
      ensures (m, result.Some?) == Listing(old(m), net, 0)
      ensures result.Some? ==> result.value == old(m).comments
    {
      hide PageOf, Min;
      var comments: seq<Comment> := [];
      for page := 0 to MAX_PAGES
        invariant Listing(m, net, page) == Listing(old(m), net, 0) && m.comments == old(m).comments
        invariant PER_PAGE * page <= |m.comments| && comments == m.comments[..PER_PAGE * page]
      {
        var data := PageOf(m.comments, page);
        PageExtends(m.comments, page);
        var ok := Fetch();
        if !ok { return None; }
        comments := comments + data;
        if |data| < PER_PAGE { return Some(comments); }
      }
      return None;
    }

    method Sync(loaded: Loaded, initialize: bool, quoted: set<Ref>) returns (r: SyncResult)
      modifies this
      ensures (m, r) == Synchronised(old(m), net, loaded, initialize, quoted)
    {
      if loaded.Unloadable? { return NotReady(loaded.reason); }
      var ref := RefOf(loaded.pointer, loaded.checkpoint);
      var pointerOk := Fetch();
      if !pointerOk { return Failed; }
      var missionOk := Fetch();
      if !missionOk { return Failed; }
      if !Identified(m, loaded.checkpoint, initialize) { return Failed; }
      r := Publish(ref, quoted);
    }

    /** Evidence first: the mission issue, then what is still unrecorded. */
    method Publish(ref: Ref, quoted: set<Ref>) returns (r: SyncResult)
      modifies this
      ensures (m, r) == AfterMission(old(m), net, ref, quoted)
    {
      var edited := EditMission(MissionPage(ref));
      if !edited { return Failed; }
      var comments := ListComments();
      if comments.None? { return Failed; }
      ListingOnlyCalls(Effected(old(m), net, old(m).(missionBody := MissionPage(ref))), net, 0);
      r := Commit(ref, quoted, comments.value);
    }

    /** The comment, unless some comment carries the marker already, and the pointer issue last of all. */
    method Commit(ref: Ref, quoted: set<Ref>, comments: seq<Comment>) returns (r: SyncResult)
      requires comments == m.comments
      modifies this
      ensures (m, r) == AfterComment(old(m), net, ref, quoted)
    {
      var recorded := Recorded(comments, ref);
      if !recorded {
        var posted := Post(CommentFor(ref, quoted));
        if !posted { return Failed; }
      }
      var committed := EditPointer(PointerPage(ref));
      if !committed { return Failed; }
      return Synced(ref.number, !recorded);
    }
  }

  // ---- Runs ------------------------------------------------------------------------------------------

  /** A synchronisation attempt, or somebody else's comment on the mission issue. */
  datatype Attempt = Sync(loaded: Loaded, initialize: bool, quoted: set<Ref>) | Remark(mentions: set<Ref>)

  function Next(m: Mirror, net: Network, a: Attempt): Mirror {
    match a
    case Sync(loaded, initialize, quoted) => Synchronised(m, net, loaded, initialize, quoted).0
    case Remark(mentions) => m.(comments := m.comments + [Comment(mentions, None)])
  }

  function After(m: Mirror, net: Network, run: seq<Attempt>): Mirror {
    if |run| == 0 then m else Next(After(m, net, run[..|run| - 1]), net, run[|run| - 1])
  }

  /** How many comments were posted for a checkpoint. */
  function Posts(comments: seq<Comment>, r: Ref): nat {
    if |comments| == 0 then 0
    else Posts(comments[..|comments| - 1], r) + (if comments[|comments| - 1].origin == Some(r) then 1 else 0)
  }

  /** Every posted comment carries the marker of what it was posted for, and nothing is posted for twice. */
  ghost predicate Orderly(comments: seq<Comment>) {
    && (forall i :: 0 <= i < |comments| && comments[i].origin.Some? ==> comments[i].origin.value in comments[i].mentions)
    && forall r :: Posts(comments, r) <= 1
  }

  /** The mission page shows a checkpoint, and no older one than `number`. */
  ghost predicate ShowsFrom(m: Mirror, number: nat) { m.missionBody.MissionPage? && m.missionBody.mission.number >= number }

  /** Whatever the pointer page names has its comment, and the mission page shows it or a newer one. */
  ghost predicate Committed(m: Mirror) {
    m.pointerBody.PointerPage? ==> Recorded(m.comments, m.pointerBody.pointer) && ShowsFrom(m, m.pointerBody.pointer.number)
  }

  /** No page yet shows a checkpoint later than `number`. */
  ghost predicate UpTo(m: Mirror, number: nat) { m.missionBody.MissionPage? ==> m.missionBody.mission.number <= number }

  ghost predicate Kept(m: Mirror) { Orderly(m.comments) && Committed(m) }

  lemma {:induction false} UnrecordedUnposted(comments: seq<Comment>, r: Ref)
    requires !Recorded(comments, r)
    requires forall i :: 0 <= i < |comments| && comments[i].origin.Some? ==> comments[i].origin.value in comments[i].mentions
    ensures Posts(comments, r) == 0
  {
    if |comments| > 0 {
      var init := comments[..|comments| - 1];
      forall i | 0 <= i < |init| ensures r !in init[i].mentions {
        assert r !in comments[i].mentions;
      }
      UnrecordedUnposted(init, r);
    }
  }

  lemma CommentKeepsOrder(comments: seq<Comment>, c: Comment)
    requires Orderly(comments)
    requires c.origin.Some? ==> c.origin.value in c.mentions && !Recorded(comments, c.origin.value)
    ensures Orderly(comments + [c])
    ensures forall r :: Recorded(comments, r) || r in c.mentions ==> Recorded(comments + [c], r)
  {
    var longer := comments + [c];
    assert longer[..|comments|] == comments;
    forall r ensures Posts(longer, r) <= 1 {
      if c.origin == Some(r) { UnrecordedUnposted(comments, r); }
    }
    forall r | Recorded(comments, r) || r in c.mentions ensures Recorded(longer, r) {
      if r in c.mentions {
        assert r in longer[|comments|].mentions;
      } else {
        var i :| 0 <= i < |comments| && r in comments[i].mentions;
        assert r in longer[i].mentions;
      }
    }
  }

  lemma {:induction false} ListingOnlyCalls(m: Mirror, net: Network, page: nat)
    requires page <= MAX_PAGES
    ensures Listing(m, net, page).0 == m.(calls := Listing(m, net, page).0.calls)
    decreases MAX_PAGES - page
  {
    if page < MAX_PAGES { ListingOnlyCalls(Called(m), net, page + 1); }
  }

  /** The last request: the pointer page, when everything it commits is in place. */
  lemma PointerKeeps(m: Mirror, net: Network, r: Ref, created: bool)
    requires Kept(m) && Recorded(m.comments, r) && m.missionBody == MissionPage(r)
    ensures Kept(AfterPointer(m, net, r, created).0) && AfterPointer(m, net, r, created).0.missionBody == MissionPage(r)
  {}

  lemma CommentKeeps(m: Mirror, net: Network, r: Ref, quoted: set<Ref>)
    requires Kept(m) && m.missionBody == MissionPage(r)
    ensures Kept(AfterComment(m, net, r, quoted).0) && AfterComment(m, net, r, quoted).0.missionBody == MissionPage(r)
  {
    if Recorded(m.comments, r) {
      PointerKeeps(m, net, r, false);
    } else {
      CommentKeepsOrder(m.comments, CommentFor(r, quoted));
      var posted := Effected(m, net, m.(comments := m.comments + [CommentFor(r, quoted)]));
      if Answered(m, net) { PointerKeeps(posted, net, r, true); }
    }
  }

  lemma MissionKeeps(m: Mirror, net: Network, r: Ref, quoted: set<Ref>)
    requires Kept(m) && UpTo(m, r.number)
    ensures var after := AfterMission(m, net, r, quoted).0; Kept(after) && UpTo(after, r.number)
  {
    var edited := Effected(m, net, m.(missionBody := MissionPage(r)));
    if Answered(m, net) {
      ListingOnlyCalls(edited, net, 0);
      CommentKeeps(Listing(edited, net, 0).0, net, r, quoted);
    }
  }

  lemma SyncKeeps(m: Mirror, net: Network, loaded: Loaded, initialize: bool, quoted: set<Ref>)
    requires Kept(m) && (loaded.Ready? ==> UpTo(m, loaded.checkpoint.number))
    ensures var after := Synchronised(m, net, loaded, initialize, quoted).0;
            Kept(after) && (loaded.Ready? ==> UpTo(after, loaded.checkpoint.number)) && (loaded.Unloadable? ==> after == m)
  {
    if loaded.Ready? {
      MissionKeeps(Called(Called(m)), net, RefOf(loaded.pointer, loaded.checkpoint), quoted);
    }
  }

  /** Checkpoints are loaded in the order of their numbers, as a mission directory serves them. */
  ghost predicate Forward(run: seq<Attempt>) {
    forall i, j :: 0 <= i < j < |run| && run[i].Sync? && run[i].loaded.Ready? && run[j].Sync? && run[j].loaded.Ready? ==>
      run[i].loaded.checkpoint.number <= run[j].loaded.checkpoint.number
  }

  /** The highest number an attempt of the run has loaded. */
  function LoadedUpTo(run: seq<Attempt>, start: nat): nat {
    if |run| == 0 then start
    else
      var a := run[|run| - 1];
      if a.Sync? && a.loaded.Ready? then a.loaded.checkpoint.number else LoadedUpTo(run[..|run| - 1], start)
  }

  lemma {:induction false} LoadedUpToIsLast(run: seq<Attempt>, start: nat, number: nat)
    requires start <= number
    requires forall i :: 0 <= i < |run| && run[i].Sync? && run[i].loaded.Ready? ==> run[i].loaded.checkpoint.number <= number
    ensures LoadedUpTo(run, start) <= number
  {
    if |run| > 0 { LoadedUpToIsLast(run[..|run| - 1], start, number); }
  }

  lemma {:induction false} RunKeeps(m: Mirror, net: Network, run: seq<Attempt>, start: nat)
    requires Kept(m) && UpTo(m, start) && Forward(run)
    requires forall i :: 0 <= i < |run| && run[i].Sync? && run[i].loaded.Ready? ==> start <= run[i].loaded.checkpoint.number
    ensures Kept(After(m, net, run)) && UpTo(After(m, net, run), LoadedUpTo(run, start))
  {
    if |run| > 0 {
      var k := |run| - 1;
      var before, a := After(m, net, run[..k]), run[k];
      RunKeeps(m, net, run[..k], start);
      if a.Remark? {
        CommentKeepsOrder(before.comments, Comment(a.mentions, None));
      } else {
        if a.loaded.Ready? { LoadedUpToIsLast(run[..k], start, a.loaded.checkpoint.number); }
        SyncKeeps(before, net, a.loaded, a.initialize, a.quoted);
      }
    }
  }

  /**
   From issues that know no checkpoint, after any number of attempts with any failures: a checkpoint the pointer issue
   names has a comment with its marker and the mission issue shows it or a newer one, and no checkpoint was
   ever posted for twice.
   */
  lemma PointerIsCommittedLast(m: Mirror, net: Network, run: seq<Attempt>, r: Ref)
    requires m.pointerBody.Unrelated? && m.missionBody.Unrelated? && Orderly(m.comments) && Forward(run)
    ensures var after := After(m, net, run);
            && Posts(after.comments, r) <= 1
            && (after.pointerBody == PointerPage(r) ==> Recorded(after.comments, r) && ShowsFrom(after, r.number))
  {
    RunKeeps(m, net, run, 0);
  }

  /** An attempt that reports success has left both issues on the checkpoint, with its comment. */
  lemma SuccessMeansMirrored(m: Mirror, net: Network, loaded: Loaded, initialize: bool, quoted: set<Ref>)
    requires Synchronised(m, net, loaded, initialize, quoted).1.Synced?
    ensures loaded.Ready?
    ensures var (after, r) := (Synchronised(m, net, loaded, initialize, quoted).0, RefOf(loaded.pointer, loaded.checkpoint));
            after.pointerBody == PointerPage(r) && after.missionBody == MissionPage(r) && Recorded(after.comments, r)
    ensures var (p, c) := (loaded.pointer, loaded.checkpoint);
            var r := Ref(p.missionId, c.number, Sha256(SealedJson(c)));
            var known := exists i :: 0 <= i < |m.comments| && r in m.comments[i].mentions;
            && Synchronised(m, net, loaded, initialize, quoted).1 == Synced(c.number, !known)
            && Synchronised(m, net, loaded, initialize, quoted).0.comments ==
               if known then m.comments else m.comments + [Comment({r} + quoted, Some(r))]
  {
    var r := RefOf(loaded.pointer, loaded.checkpoint);
    var edited := Effected(Called(Called(m)), net, Called(Called(m)).(missionBody := MissionPage(r)));
    ListingOnlyCalls(edited, net, 0);
    var listed := Listing(edited, net, 0).0;
    if !Recorded(listed.comments, r) {
      assert r in (listed.comments + [CommentFor(r, quoted)])[|listed.comments|].mentions;
    }
  }

  // ---- How many comments are too many ---------------------------------------------------------------

  const MAX_COMMENTS := PER_PAGE * MAX_PAGES

  lemma {:induction false} ListingEnds(m: Mirror, net: Network, page: nat)
    requires page <= MAX_PAGES && PER_PAGE * page <= |m.comments|
    ensures Listing(m, net, page).1 ==> |m.comments| < MAX_COMMENTS
    ensures (forall n :: net(n).Works?) && |m.comments| < MAX_COMMENTS ==> Listing(m, net, page).1
    decreases MAX_PAGES - page
  {
    hide PageOf;
    if page < MAX_PAGES {
      PageExtends(m.comments, page);
      if |PageOf(m.comments, page)| == PER_PAGE { ListingEnds(Called(m), net, page + 1); }
    }
  }

  /** The body is the other page, or one of other origin that carries the mission's identity. */
  predicate PointerIssueOf(body: Body, missionId: Json) {
    (body.PointerPage? && body.pointer.missionId == missionId) || (body.Unrelated? && missionId in body.missions)
  }

  predicate MissionIssueOf(body: Body, missionId: Json) {
    (body.MissionPage? && body.mission.missionId == missionId) || (body.Unrelated? && missionId in body.missions)
  }

  /** Both issues are titled for the mission, and their bodies are its own -- unless they are only being set up. */
  predicate IssuesOf(m: Mirror, c: Checkpoint, initialize: bool) {
    && m.pointerTitled && m.missionTitle.0 == c.missionId && m.missionTitle.1 == Get(c.state, "mission_name")
    && (initialize || (PointerIssueOf(m.pointerBody, c.missionId) && MissionIssueOf(m.missionBody, c.missionId)))
  }

  lemma IdentifiedMeans(m: Mirror, c: Checkpoint, initialize: bool)
    ensures Identified(m, c, initialize) <==> IssuesOf(m, c, initialize)
  {}

  /** From ten thousand comments on, no network lets a synchronisation succeed. */
  lemma TooManyComments(m: Mirror, net: Network, loaded: Loaded, initialize: bool, quoted: set<Ref>)
    requires |m.comments| >= 10_000
    ensures !Synchronised(m, net, loaded, initialize, quoted).1.Synced?
  {
    hide Listing;
    if loaded.Ready? {
      var r := RefOf(loaded.pointer, loaded.checkpoint);
      ListingEnds(Effected(Called(Called(m)), net, Called(Called(m)).(missionBody := MissionPage(r))), net, 0);
    }
  }

  /**
   When every request works, a synchronisation succeeds if and only if the checkpoint loads, the issues are the
   mission's, and the mission issue has fewer than ten thousand comments.
   */
  lemma SyncsExactly(m: Mirror, net: Network, loaded: Loaded, initialize: bool, quoted: set<Ref>)
    requires forall n :: net(n).Works?
    ensures Synchronised(m, net, loaded, initialize, quoted).1.Synced? <==>
            loaded.Ready? && IssuesOf(m, loaded.checkpoint, initialize) && |m.comments| < 10_000
  {
    hide Listing, Identified, IssuesOf;
    if loaded.Ready? {
      IdentifiedMeans(m, loaded.checkpoint, initialize);
      var r := RefOf(loaded.pointer, loaded.checkpoint);
      ListingEnds(Effected(Called(Called(m)), net, Called(Called(m)).(missionBody := MissionPage(r))), net, 0);
    }
  }

  /** Others may leave any comments, each without the origin of a synchronisation. */
  lemma {:induction false} RemarksReachEverything(m: Mirror, net: Network, mentions: seq<set<Ref>>) returns (run: seq<Attempt>)
    ensures |run| == |mentions| && forall i :: 0 <= i < |run| ==> run[i] == Remark(mentions[i])
    ensures After(m, net, run) ==
            m.(comments := m.comments + seq(|mentions|, i requires 0 <= i < |mentions| => Comment(mentions[i], None)))
  {
    if |mentions| == 0 {
      run := [];
    } else {
      var k := |mentions| - 1;
      var before := RemarksReachEverything(m, net, mentions[..k]);
      run := before + [Remark(mentions[k])];
      assert run[..k] == before;
      assert seq(|mentions|, i requires 0 <= i < |mentions| => Comment(mentions[i], None)) ==
             seq(k, i requires 0 <= i < k => Comment(mentions[..k][i], None)) + [Comment(mentions[k], None)];
    }
  }
}
