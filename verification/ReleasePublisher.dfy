/**
 Publishing a backup as a draft release: create, find it again by its ownership marker, upload, publish. Any request may
 be lost before or after it takes effect; cleaning up may delete only what this publication owns.
 */
module ReleasePublisher {
  import opened Wrappers
  import opened Sequences

  const VISIBILITY_ATTEMPTS := 8
  const PAGE := 100

  /** `marker` is the ownership marker when the notes are exactly those this tool writes. */
  datatype Release = Release(id: int, tag: string, draft: bool, marker: Option<string>, assets: set<string>)

  datatype Command =
    Create(tag: string) | Upload(tag: string) | Publish(tag: string)
    | DeleteRelease(id: int) | DeleteTag(tag: string)

  datatype Outcome = Works | LostBefore | LostAfter

  /** How the `n`th request goes, and which releases it does not get to see. */
  datatype Network = Network(outcome: nat -> Outcome, hidden: nat -> set<int>)

  /** The remote repository, the requests made so far, and the changing commands among them. */
  datatype Remote = Remote(releases: seq<Release>, tags: set<string>, nextId: int, calls: nat, log: seq<Command>)

  datatype Failure = TagUnavailable | CreateFailed | IdentityInvalid | UploadFailed | PublicationUncertain

  // ---- Requests ------------------------------------------------------------------------

  function Called(r: Remote): Remote { r.(calls := r.calls + 1) }

  predicate Answered(r: Remote, net: Network) { net.outcome(r.calls).Works? }

  function Shown(hidden: set<int>): Release -> bool { (x: Release) => x.id !in hidden }

  function Visible(r: Remote, net: Network): seq<Release> { Filter(r.releases, Shown(net.hidden(r.calls))) }

  /** The remote after a command that would turn it into `changed`. */
  function Commanded(r: Remote, net: Network, c: Command, changed: Remote): Remote {
    Called((if net.outcome(r.calls).LostBefore? then r else changed).(log := r.log + [c]))
  }

  function WithTag(tag: string): Release -> bool { (x: Release) => x.tag == tag }

  function Created(r: Remote, tag: string, marker: string): Remote {
    r.(releases := r.releases + [Release(r.nextId, tag, true, Some(marker), {})], nextId := r.nextId + 1)
  }

  /** A command that names a release by its tag changes the first one of that tag it sees. */
  function ByTag(r: Remote, net: Network, tag: string, change: Release -> Release): seq<Release> {
    var target := Filter(Visible(r, net), WithTag(tag));
    if |target| == 0 then r.releases
    else Map(r.releases, (x: Release) => if x.id == target[0].id then change(x) else x)
  }

  function Attaching(names: set<string>): Release -> Release { (x: Release) => x.(assets := x.assets + names) }

  function Publishing(): Release -> Release { (x: Release) => x.(draft := false) }

  function Uploaded(r: Remote, net: Network, tag: string, names: set<string>): Remote {
    r.(releases := ByTag(r, net, tag, Attaching(names)))
  }

  function PublishedAs(r: Remote, net: Network, tag: string): Remote {
    r.(releases := ByTag(r, net, tag, Publishing()), tags := r.tags + {tag})
  }

  function NotId(id: int): Release -> bool { (x: Release) => x.id != id }

  function WithoutRelease(r: Remote, id: int): Remote { r.(releases := Filter(r.releases, NotId(id))) }

  function WithoutTag(r: Remote, tag: string): Remote { r.(tags := r.tags - {tag}) }

  // ---- Finding one's own draft --------------------------------------------------------------

  predicate Owned(x: Release, tag: string, marker: string) { x.id >= 1 && x.tag == tag && x.draft && x.marker == Some(marker) }

  function OwnedBy(tag: string, marker: string): Release -> bool { (x: Release) => Owned(x, tag, marker) }

  function FirstPage(releases: seq<Release>): seq<Release> { if |releases| <= PAGE then releases else releases[..PAGE] }

  function TheOnly(matches: seq<Release>): Option<int> { if |matches| == 1 then Some(matches[0].id) else None }

  function Listed(r: Remote, net: Network, tag: string, marker: string, attempt: nat): (Remote, Option<int>)
    requires attempt <= VISIBILITY_ATTEMPTS
    decreases VISIBILITY_ATTEMPTS - attempt
  {
    if attempt == VISIBILITY_ATTEMPTS then (r, None)
    else if !Answered(r, net) then (Called(r), None)
    else
      var matches := Filter(FirstPage(Visible(r, net)), OwnedBy(tag, marker));
      if |matches| > 0 then (Called(r), TheOnly(matches)) else Listed(Called(r), net, tag, marker, attempt + 1)
  }

  function Found(r: Remote, net: Network, tag: string, marker: string): (Remote, Option<int>) {
    var named := Filter(Visible(r, net), WithTag(tag));
    if Answered(r, net) && |named| > 0 then (Called(r), if Owned(named[0], tag, marker) then Some(named[0].id) else None)
    else Listed(Called(r), net, tag, marker, 0)
  }

  function Cleaned(r: Remote, net: Network, tag: string, marker: string, deleteTag: bool): Remote {
    var (found, id) := Found(r, net, tag, marker);
    if id.None? then found
    else
      var deleted := Commanded(found, net, DeleteRelease(id.value), WithoutRelease(found, id.value));
      if !Answered(found, net) || !deleteTag then deleted
      else Commanded(deleted, net, DeleteTag(tag), WithoutTag(deleted, tag))
  }

  // ---- Publishing ----------------------------------------------------------------------------

  function AfterUpload(r: Remote, net: Network, tag: string, id: int): (Remote, Result<int, Failure>) {
    (Commanded(r, net, Publish(tag), PublishedAs(r, net, tag)), if Answered(r, net) then Ok(id) else Err(PublicationUncertain))
  }

  function AfterFound(r: Remote, net: Network, tag: string, marker: string, names: set<string>, deleteTag: bool, id: int)
    : (Remote, Result<int, Failure>)
  {
    var uploaded := Commanded(r, net, Upload(tag), Uploaded(r, net, tag, names));
    if Answered(r, net) then AfterUpload(uploaded, net, tag, id)
    else (Cleaned(uploaded, net, tag, marker, deleteTag), Err(UploadFailed))
  }

  function AfterCreate(r: Remote, net: Network, tag: string, marker: string, names: set<string>, deleteTag: bool)
    : (Remote, Result<int, Failure>)
  {
    var (found, id) := Found(r, net, tag, marker);
    if id.None? then (Cleaned(found, net, tag, marker, deleteTag), Err(IdentityInvalid))
    else AfterFound(found, net, tag, marker, names, deleteTag, id.value)
  }

  function AfterTagCheck(r: Remote, net: Network, tag: string, marker: string, names: set<string>, deleteTag: bool)
    : (Remote, Result<int, Failure>)
  {
    var created := Commanded(r, net, Create(tag), Created(r, tag, marker));
    if Answered(r, net) then AfterCreate(created, net, tag, marker, names, deleteTag)
    else (Cleaned(created, net, tag, marker, deleteTag), Err(CreateFailed))
  }

  function Publication(r: Remote, net: Network, tag: string, marker: string, names: set<string>): (Remote, Result<int, Failure>) {
    if !Answered(r, net) then (Called(r), Err(TagUnavailable))
    else AfterTagCheck(Called(r), net, tag, marker, names, tag !in r.tags)
  }

  class Repository {
    const net: Network
    var remote: Remote

    constructor (net: Network, remote: Remote)
      ensures this.net == net && this.remote == remote
    {
      this.net := net;
      this.remote := remote;
    }

    /** A command goes out: it is logged, it may take effect, it may be answered. */
    method Send(c: Command, changed: Remote) returns (ok: bool)
      modifies this
      ensures remote == Commanded(old(remote), net, c, changed) && ok == Answered(old(remote), net)
    {
      var outcome := net.outcome(remote.calls);
      var log, calls := remote.log + [c], remote.calls + 1;
      if outcome.LostBefore? {
        remote := remote.(log := log, calls := calls);
      } else {
        remote := changed.(log := log, calls := changed.calls + 1);
      }
      ok := outcome.Works?;
    }

    method OwnedDraftReleaseId(tag: string, marker: string) returns (id: Option<int>)
      modifies this
      ensures (remote, id) == Found(old(remote), net, tag, marker)
    {
      var named := Filter(Visible(remote, net), WithTag(tag));
      var ok := net.outcome(remote.calls).Works?;
      remote := Called(remote);
      if ok && |named| > 0 {
        return if Owned(named[0], tag, marker) then Some(named[0].id) else None;
      }
      for attempt := 0 to VISIBILITY_ATTEMPTS
        invariant Found(old(remote), net, tag, marker) == Listed(remote, net, tag, marker, attempt)
      {
        var page := FirstPage(Visible(remote, net));
        var answered := net.outcome(remote.calls).Works?;
        if !answered {
          remote := Called(remote);
          return None;
        }
        var matches := Filter(page, OwnedBy(tag, marker));
        remote := Called(remote);
        if |matches| == 1 { return Some(matches[0].id); }
        if |matches| > 1 { return None; }
      }
      return None;
    }

    method DeleteOwnedDraftBestEffort(tag: string, marker: string, deleteTag: bool)
      modifies this
      ensures remote == Cleaned(old(remote), net, tag, marker, deleteTag)
    {
      var id := OwnedDraftReleaseId(tag, marker);
      if id.None? { return; }
      var deleted := Send(DeleteRelease(id.value), WithoutRelease(remote, id.value));
      if !deleted || !deleteTag { return; }
      var _ := Send(DeleteTag(tag), WithoutTag(remote, tag));
    }

    method PublishReleaseAssets(tag: string, marker: string, names: set<string>) returns (r: Result<int, Failure>)
      modifies this
      ensures (remote, r) == Publication(old(remote), net, tag, marker, names)
    {
      var answered := net.outcome(remote.calls).Works?;
      var preexisting := tag in remote.tags;
      remote := Called(remote);
      if !answered { return Err(TagUnavailable); }
      var created := Send(Create(tag), Created(remote, tag, marker));
      if !created {
        DeleteOwnedDraftBestEffort(tag, marker, !preexisting);
        return Err(CreateFailed);
      }
      r := UploadAndPublish(tag, marker, names, !preexisting);
    }

    method UploadAndPublish(tag: string, marker: string, names: set<string>, deleteTag: bool) returns (r: Result<int, Failure>)
      modifies this
      ensures (remote, r) == AfterCreate(old(remote), net, tag, marker, names, deleteTag)
    {
      var id := OwnedDraftReleaseId(tag, marker);
      if id.None? {
        DeleteOwnedDraftBestEffort(tag, marker, deleteTag);
        return Err(IdentityInvalid);
      }
      var uploaded := Send(Upload(tag), Uploaded(remote, net, tag, names));
      if !uploaded {
        DeleteOwnedDraftBestEffort(tag, marker, deleteTag);
        return Err(UploadFailed);
      }
      var published := Send(Publish(tag), PublishedAs(remote, net, tag));
      return if published then Ok(id.value) else Err(PublicationUncertain);
    }
  }

  // ---- What survives ---------------------------------------------------------------------------

  /** A release this publication must not delete: not a draft, or without its marker. */
  predicate Foreign(x: Release, tag: string, marker: string) { !Owned(x, tag, marker) }

  ghost predicate DistinctIds(releases: seq<Release>) {
    forall i, j :: 0 <= i < j < |releases| ==> releases[i].id != releases[j].id
  }

  ghost predicate Numbered(r: Remote) {
    DistinctIds(r.releases) && forall i :: 0 <= i < |r.releases| ==> r.releases[i].id < r.nextId
  }

  /** The release is still there, under the same id, tag and marker. */
  ghost predicate Kept(x: Release, releases: seq<Release>) {
    exists i :: 0 <= i < |releases| && Same(x, releases[i])
  }

  ghost predicate Same(x: Release, y: Release) { y.id == x.id && y.tag == x.tag && y.marker == x.marker && (!x.draft ==> !y.draft) }

  /** Every foreign release of `a` survives in `b`, still foreign, and those of other tags are as they were. */
  ghost predicate Preserves(a: Remote, b: Remote, tag: string, marker: string) {
    && Numbered(b)
    && (forall i :: 0 <= i < |a.releases| && Foreign(a.releases[i], tag, marker) ==> Kept(a.releases[i], b.releases))
    && forall x :: x in a.releases && x.tag != tag ==> x in b.releases
  }

  lemma PreservesTransitive(a: Remote, b: Remote, c: Remote, tag: string, marker: string)
    requires Preserves(a, b, tag, marker) && Preserves(b, c, tag, marker)
    ensures Preserves(a, c, tag, marker)
  {
    forall i | 0 <= i < |a.releases| && Foreign(a.releases[i], tag, marker) ensures Kept(a.releases[i], c.releases) {
      var j :| 0 <= j < |b.releases| && Same(a.releases[i], b.releases[j]);
      assert Foreign(b.releases[j], tag, marker);
      var k :| 0 <= k < |c.releases| && Same(b.releases[j], c.releases[k]);
      assert Same(a.releases[i], c.releases[k]);
    }
  }

  lemma SameReleasesPreserve(a: Remote, b: Remote, tag: string, marker: string)
    requires Numbered(a) && b.releases == a.releases && b.nextId == a.nextId
    ensures Preserves(a, b, tag, marker)
  {
    forall i | 0 <= i < |a.releases| ensures Kept(a.releases[i], b.releases) {
      assert Same(a.releases[i], b.releases[i]);
    }
  }

  lemma CreatedPreserves(a: Remote, tag: string, marker: string)
    requires Numbered(a)
    ensures Preserves(a, Created(a, tag, marker), tag, marker)
  {
    var b := Created(a, tag, marker);
    forall i | 0 <= i < |a.releases| ensures Kept(a.releases[i], b.releases) {
      assert Same(a.releases[i], b.releases[i]);
    }
  }

  lemma ByTagPreserves(a: Remote, net: Network, tag: string, marker: string, change: Release -> Release)
    requires Numbered(a) && forall x :: Same(x, change(x))
    ensures Preserves(a, a.(releases := ByTag(a, net, tag, change)), tag, marker)
  {
    var b := a.(releases := ByTag(a, net, tag, change));
    forall i | 0 <= i < |a.releases| ensures Kept(a.releases[i], b.releases) && b.releases[i].id == a.releases[i].id {
      assert Same(a.releases[i], b.releases[i]);
    }
    OtherTagsStay(a, net, tag, change);
  }

  lemma OtherTagsStay(a: Remote, net: Network, tag: string, change: Release -> Release)
    requires Numbered(a)
    ensures forall x :: x in a.releases && x.tag != tag ==> x in ByTag(a, net, tag, change)
  {
    hide ByTag, FirstSeen, Numbered;
    forall x | x in a.releases && x.tag != tag ensures x in ByTag(a, net, tag, change) {
      var i :| 0 <= i < |a.releases| && a.releases[i] == x;
      OnlyTheFirstSeen(a, net, tag, change, i);
      assert ByTag(a, net, tag, change)[i] == x;
    }
  }

  /** The release a command naming `tag` acts on. */
  function FirstSeen(r: Remote, net: Network, tag: string): Option<Release> {
    var target := Filter(Visible(r, net), WithTag(tag));
    if |target| == 0 then None else Some(target[0])
  }

  /** A command by tag changes the first release of the tag it sees, and no other. */
  lemma OnlyTheFirstSeen(a: Remote, net: Network, tag: string, change: Release -> Release, i: nat)
    requires Numbered(a) && i < |a.releases|
    ensures |ByTag(a, net, tag, change)| == |a.releases|
    ensures ByTag(a, net, tag, change)[i] ==
            if FirstSeen(a, net, tag) == Some(a.releases[i]) then change(a.releases[i]) else a.releases[i]
    ensures FirstSeen(a, net, tag).Some? ==> FirstSeen(a, net, tag).value in a.releases && FirstSeen(a, net, tag).value.tag == tag
  {
    var target := Filter(Visible(a, net), WithTag(tag));
    VisibleAreReal(a, net);
    FilterMember(Visible(a, net), WithTag(tag));
    if |target| > 0 {
      assert target[0] in target;
      var k :| 0 <= k < |a.releases| && a.releases[k] == target[0];
      assert k != i ==> a.releases[k].id != a.releases[i].id;
    }
  }

  /**
   An upload or a publish command leaves every foreign release as it was if and only if the first release of the tag
   it sees is none, an owned draft, or one the command would not change.
   */
  lemma LeavesForeignExactly(a: Remote, net: Network, tag: string, marker: string, change: Release -> Release)
    requires Numbered(a)
    ensures (forall i :: 0 <= i < |a.releases| && Foreign(a.releases[i], tag, marker) ==>
               ByTag(a, net, tag, change)[i] == a.releases[i])
            <==>
            var seen := FirstSeen(a, net, tag);
            seen.None? || Owned(seen.value, tag, marker) || change(seen.value) == seen.value
  {
    forall i | 0 <= i < |a.releases|
      ensures ByTag(a, net, tag, change)[i] ==
              if FirstSeen(a, net, tag) == Some(a.releases[i]) then change(a.releases[i]) else a.releases[i]
    {
      OnlyTheFirstSeen(a, net, tag, change, i);
    }
    if FirstSeen(a, net, tag).Some? {
      VisibleAreReal(a, net);
      FilterMember(Visible(a, net), WithTag(tag));
      assert FirstSeen(a, net, tag).value in Filter(Visible(a, net), WithTag(tag));
      var k :| 0 <= k < |a.releases| && a.releases[k] == FirstSeen(a, net, tag).value;
    }
  }

  lemma {:induction false} WithoutIdKeeps(releases: seq<Release>, id: int)
    requires DistinctIds(releases)
    ensures DistinctIds(Filter(releases, NotId(id)))
    ensures forall x :: x in Filter(releases, NotId(id)) <==> x in releases && x.id != id
  {
    FilterMember(releases, NotId(id));
    if |releases| > 0 {
      var init, last := releases[..|releases| - 1], releases[|releases| - 1];
      WithoutIdKeeps(init, id);
      var f := Filter(init, NotId(id));
      forall i | 0 <= i < |f| ensures f[i].id != last.id {
        assert f[i] in init;
        var k :| 0 <= k < |init| && init[k] == f[i];
        assert releases[k].id != releases[|releases| - 1].id;
      }
    }
  }

  /** Deleting the id of an owned draft deletes nothing foreign. */
  lemma WithoutOwnedPreserves(a: Remote, id: int, owned: Release, tag: string, marker: string)
    requires Numbered(a) && owned in a.releases && owned.id == id && Owned(owned, tag, marker)
    ensures Preserves(a, WithoutRelease(a, id), tag, marker)
  {
    var b := WithoutRelease(a, id);
    WithoutIdKeeps(a.releases, id);
    forall i | 0 <= i < |b.releases| ensures b.releases[i].id < b.nextId {
      assert b.releases[i] in a.releases;
    }
    var o :| 0 <= o < |a.releases| && a.releases[o] == owned;
    forall i | 0 <= i < |a.releases| && Foreign(a.releases[i], tag, marker) ensures Kept(a.releases[i], b.releases) {
      assert a.releases[i] != owned;
      assert i < o || o < i;
      assert a.releases[i].id != id;
      assert a.releases[i] in a.releases && a.releases[i] in b.releases;
      var k :| 0 <= k < |b.releases| && b.releases[k] == a.releases[i];
      assert Same(a.releases[i], b.releases[k]);
    }
  }

  lemma CommandedPreserves(a: Remote, net: Network, c: Command, changed: Remote, tag: string, marker: string)
    requires Numbered(a) && Preserves(a, changed, tag, marker)
    ensures Preserves(a, Commanded(a, net, c, changed), tag, marker)
  {
    SameReleasesPreserve(a, a, tag, marker);
  }

  // ---- Lookups only look, and find only what is owned --------------------------------------------

  /** Nothing but the number of requests differs. */
  ghost predicate OnlyLooked(a: Remote, b: Remote) { b == a.(calls := b.calls) }

  ghost predicate OwnsId(r: Remote, id: int, tag: string, marker: string) {
    exists x :: x in r.releases && x.id == id && Owned(x, tag, marker)
  }

  lemma VisibleAreReal(r: Remote, net: Network)
    ensures forall x :: x in Visible(r, net) ==> x in r.releases
  {
    FilterMember(r.releases, Shown(net.hidden(r.calls)));
  }

  lemma {:induction false} ListedLooks(r: Remote, net: Network, tag: string, marker: string, attempt: nat)
    requires attempt <= VISIBILITY_ATTEMPTS
    ensures var (after, id) := Listed(r, net, tag, marker, attempt);
            OnlyLooked(r, after) && (id.Some? ==> OwnsId(r, id.value, tag, marker))
    decreases VISIBILITY_ATTEMPTS - attempt
  {
    if attempt < VISIBILITY_ATTEMPTS && Answered(r, net) {
      var page := FirstPage(Visible(r, net));
      var matches := Filter(page, OwnedBy(tag, marker));
      VisibleAreReal(r, net);
      FilterMember(page, OwnedBy(tag, marker));
      if |matches| == 0 {
        ListedLooks(Called(r), net, tag, marker, attempt + 1);
      } else {
        assert matches[0] in page && matches[0] in r.releases;
      }
    }
  }

  lemma FoundLooks(r: Remote, net: Network, tag: string, marker: string)
    ensures var (after, id) := Found(r, net, tag, marker);
            OnlyLooked(r, after) && (id.Some? ==> OwnsId(r, id.value, tag, marker))
  {
    var named := Filter(Visible(r, net), WithTag(tag));
    VisibleAreReal(r, net);
    FilterMember(Visible(r, net), WithTag(tag));
    ListedLooks(Called(r), net, tag, marker, 0);
    if |named| > 0 { assert named[0] in r.releases; }
  }

  // ---- Safety ----------------------------------------------------------------------------------------

  /** What a publication may do to the world it started from. */
  ghost predicate Safe(a: Remote, b: Remote, tag: string, marker: string, deleteTag: bool) {
    && Preserves(a, b, tag, marker)
    && a.tags - (if deleteTag then {tag} else {}) <= b.tags
    && |a.log| <= |b.log| && b.log[..|a.log|] == a.log
    && PublishesLast(a, b)
  }

  /** Of the commands since `a`, only the very last may be the publish command. */
  ghost predicate PublishesLast(a: Remote, b: Remote) {
    forall i :: |a.log| <= i < |b.log| - 1 ==> !b.log[i].Publish?
  }

  ghost predicate NeverPublished(a: Remote, b: Remote) {
    |a.log| <= |b.log| && forall i :: |a.log| <= i < |b.log| ==> !b.log[i].Publish?
  }

  lemma SafeTransitive(a: Remote, b: Remote, c: Remote, tag: string, marker: string, deleteTag: bool)
    requires Safe(a, b, tag, marker, deleteTag) && NeverPublished(a, b) && Safe(b, c, tag, marker, deleteTag)
    ensures Safe(a, c, tag, marker, deleteTag)
    ensures NeverPublished(b, c) ==> NeverPublished(a, c)
  {
    PreservesTransitive(a, b, c, tag, marker);
    assert forall i :: 0 <= i < |b.log| ==> c.log[..|b.log|][i] == c.log[i];
    assert c.log[..|a.log|] == c.log[..|b.log|][..|a.log|];
  }

  lemma LookingIsSafe(a: Remote, b: Remote, tag: string, marker: string, deleteTag: bool)
    requires Numbered(a) && OnlyLooked(a, b)
    ensures Safe(a, b, tag, marker, deleteTag) && NeverPublished(a, b) && b.releases == a.releases && b.nextId == a.nextId
  {
    SameReleasesPreserve(a, b, tag, marker);
  }

  lemma CommandIsSafe(a: Remote, net: Network, c: Command, changed: Remote, tag: string, marker: string, deleteTag: bool)
    requires Numbered(a) && Preserves(a, changed, tag, marker)
    requires a.tags - (if deleteTag then {tag} else {}) <= changed.tags
    ensures Safe(a, Commanded(a, net, c, changed), tag, marker, deleteTag)
    ensures !c.Publish? ==> NeverPublished(a, Commanded(a, net, c, changed))
  {
    CommandedPreserves(a, net, c, changed, tag, marker);
  }

  lemma CleaningIsSafe(a: Remote, net: Network, tag: string, marker: string, deleteTag: bool)
    requires Numbered(a)
    ensures Safe(a, Cleaned(a, net, tag, marker, deleteTag), tag, marker, deleteTag)
    ensures NeverPublished(a, Cleaned(a, net, tag, marker, deleteTag))
  {
    var (found, id) := Found(a, net, tag, marker);
    FoundLooks(a, net, tag, marker);
    LookingIsSafe(a, found, tag, marker, deleteTag);
    if id.Some? {
      var owned :| owned in a.releases && owned.id == id.value && Owned(owned, tag, marker);
      WithoutOwnedPreserves(found, id.value, owned, tag, marker);
      var deleted := Commanded(found, net, DeleteRelease(id.value), WithoutRelease(found, id.value));
      CommandIsSafe(found, net, DeleteRelease(id.value), WithoutRelease(found, id.value), tag, marker, deleteTag);
      SafeTransitive(a, found, deleted, tag, marker, deleteTag);
      if Answered(found, net) && deleteTag {
        SameReleasesPreserve(deleted, WithoutTag(deleted, tag), tag, marker);
        CommandIsSafe(deleted, net, DeleteTag(tag), WithoutTag(deleted, tag), tag, marker, deleteTag);
        SafeTransitive(a, deleted, Commanded(deleted, net, DeleteTag(tag), WithoutTag(deleted, tag)), tag, marker, deleteTag);
      }
    }
  }

  lemma AfterUploadIsSafe(a: Remote, net: Network, tag: string, marker: string, deleteTag: bool, id: int)
    requires Numbered(a)
    ensures Safe(a, AfterUpload(a, net, tag, id).0, tag, marker, deleteTag)
  {
    ByTagPreserves(a, net, tag, marker, Publishing());
    SameReleasesPreserve(a.(releases := ByTag(a, net, tag, Publishing())), PublishedAs(a, net, tag), tag, marker);
    CommandIsSafe(a, net, Publish(tag), PublishedAs(a, net, tag), tag, marker, deleteTag);
  }

  lemma AfterFoundIsSafe(a: Remote, net: Network, tag: string, marker: string, names: set<string>, deleteTag: bool, id: int)
    requires Numbered(a)
    ensures Safe(a, AfterFound(a, net, tag, marker, names, deleteTag, id).0, tag, marker, deleteTag)
  {
    var uploaded := Commanded(a, net, Upload(tag), Uploaded(a, net, tag, names));
    ByTagPreserves(a, net, tag, marker, Attaching(names));
    CommandIsSafe(a, net, Upload(tag), Uploaded(a, net, tag, names), tag, marker, deleteTag);
    if Answered(a, net) {
      AfterUploadIsSafe(uploaded, net, tag, marker, deleteTag, id);
      SafeTransitive(a, uploaded, AfterUpload(uploaded, net, tag, id).0, tag, marker, deleteTag);
    } else {
      CleaningIsSafe(uploaded, net, tag, marker, deleteTag);
      SafeTransitive(a, uploaded, Cleaned(uploaded, net, tag, marker, deleteTag), tag, marker, deleteTag);
    }
  }

  lemma AfterCreateIsSafe(a: Remote, net: Network, tag: string, marker: string, names: set<string>, deleteTag: bool)
    requires Numbered(a)
    ensures Safe(a, AfterCreate(a, net, tag, marker, names, deleteTag).0, tag, marker, deleteTag)
  {
    var (found, id) := Found(a, net, tag, marker);
    FoundLooks(a, net, tag, marker);
    LookingIsSafe(a, found, tag, marker, deleteTag);
    if id.None? {
      CleaningIsSafe(found, net, tag, marker, deleteTag);
      SafeTransitive(a, found, Cleaned(found, net, tag, marker, deleteTag), tag, marker, deleteTag);
    } else {
      AfterFoundIsSafe(found, net, tag, marker, names, deleteTag, id.value);
      SafeTransitive(a, found, AfterFound(found, net, tag, marker, names, deleteTag, id.value).0, tag, marker, deleteTag);
    }
  }

  lemma AfterTagCheckIsSafe(a: Remote, net: Network, tag: string, marker: string, names: set<string>, deleteTag: bool)
    requires Numbered(a)
    ensures Safe(a, AfterTagCheck(a, net, tag, marker, names, deleteTag).0, tag, marker, deleteTag)
  {
    var created := Commanded(a, net, Create(tag), Created(a, tag, marker));
    CreatedPreserves(a, tag, marker);
    CommandIsSafe(a, net, Create(tag), Created(a, tag, marker), tag, marker, deleteTag);
    if Answered(a, net) {
      AfterCreateIsSafe(created, net, tag, marker, names, deleteTag);
      SafeTransitive(a, created, AfterCreate(created, net, tag, marker, names, deleteTag).0, tag, marker, deleteTag);
    } else {
      CleaningIsSafe(created, net, tag, marker, deleteTag);
      SafeTransitive(a, created, Cleaned(created, net, tag, marker, deleteTag), tag, marker, deleteTag);
    }
  }

  lemma PublicationStep(r: Remote, net: Network, tag: string, marker: string, names: set<string>)
    requires Numbered(r)
    ensures Safe(Called(r), Publication(r, net, tag, marker, names).0, tag, marker, tag !in r.tags)
  {
    LookingIsSafe(Called(r), Called(r), tag, marker, tag !in r.tags);
    if Answered(r, net) {
      AfterTagCheckIsSafe(Called(r), net, tag, marker, names, tag !in r.tags);
    }
  }

  /**
   However requests are lost and whatever the listings fail to show: every release that is not a draft carrying this
   publication's own marker survives, every release of another tag exactly as it was, every tag that existed
   survives, and once the publish command has gone out nothing else does.
   */
  lemma PublicationIsSafe(r: Remote, net: Network, tag: string, marker: string, names: set<string>)
    requires Numbered(r)
    ensures var after := Publication(r, net, tag, marker, names).0;
            && (forall x :: x in r.releases && !(x.draft && x.tag == tag && x.marker == Some(marker)) ==> Kept(x, after.releases))
            && (forall x :: x in r.releases && x.tag != tag ==> x in after.releases)
            && r.tags <= after.tags
            && PublishesLast(r, after)
  {
    SameReleasesPreserve(r, Called(r), tag, marker);
    var after := Publication(r, net, tag, marker, names).0;
    PublicationStep(r, net, tag, marker, names);
    forall x | x in r.releases && !(x.draft && x.tag == tag && x.marker == Some(marker)) ensures Kept(x, after.releases) {
      assert Foreign(x, tag, marker);
      var i :| 0 <= i < |r.releases| && r.releases[i] == x;
    }
  }

  /** With a marker nobody has used before, everything that was there before survives. */
  lemma FreshMarkerTouchesNothingOld(r: Remote, net: Network, tag: string, marker: string, names: set<string>)
    requires Numbered(r) && forall x :: x in r.releases ==> x.marker != Some(marker)
    ensures forall x :: x in r.releases ==> Kept(x, Publication(r, net, tag, marker, names).0.releases)
  {
    PublicationIsSafe(r, net, tag, marker, names);
  }

  /** A publication that may have happened is never cleaned up: no deletion goes out with or before it. */
  lemma UncertainPublicationDeletesNothing(r: Remote, net: Network, tag: string, marker: string, names: set<string>)
    requires var result := Publication(r, net, tag, marker, names).1; result.Ok? || result == Err(PublicationUncertain)
    ensures Publication(r, net, tag, marker, names).0.log == r.log + [Create(tag), Upload(tag), Publish(tag)]
  {
    hide Created, Cleaned, Found, PublishedAs, Uploaded;
    var created := Commanded(Called(r), net, Create(tag), Created(Called(r), tag, marker));
    FoundLooks(created, net, tag, marker);
  }
}
