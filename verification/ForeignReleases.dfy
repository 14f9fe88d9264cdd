/** Which earlier releases a publication may alter: uploads and the publish command name a release by its tag alone. */
module ForeignReleases {
  import opened Wrappers
  import opened Sequences
  import opened ReleasePublisher

  /** Uploading `names` and publishing would change nothing about the release. */
  predicate Finished(x: Release, names: set<string>) { names <= x.assets && !x.draft }

  /** Every release of the tag is an own draft or beyond change. */
  ghost predicate Harmless(releases: seq<Release>, tag: string, marker: string, names: set<string>) {
    forall x :: x in releases && x.tag == tag ==> Owned(x, tag, marker) || Finished(x, names)
  }

  /** Every foreign release of `a` is in `b` as it was. */
  ghost predicate Untouched(a: seq<Release>, b: seq<Release>, tag: string, marker: string) {
    forall x :: x in a && Foreign(x, tag, marker) ==> x in b
  }

  // ---- When the tag holds nothing to alter ------------------------------------------------------

  /** Between the steps of a publication: ids are sound and the tag holds nothing a command could alter. */
  ghost predicate Steady(r: Remote, tag: string, marker: string, names: set<string>) {
    Numbered(r) && r.nextId >= 1 && Harmless(r.releases, tag, marker, names)
  }

  ghost predicate Leads(a: Remote, b: Remote, tag: string, marker: string, names: set<string>) {
    Steady(b, tag, marker, names) && Untouched(a.releases, b.releases, tag, marker)
  }

  lemma CreateLeads(a: Remote, net: Network, tag: string, marker: string, names: set<string>)
    requires Steady(a, tag, marker, names)
    ensures Leads(a, Commanded(a, net, Create(tag), Created(a, tag, marker)), tag, marker, names)
  {}

  lemma FoundLeads(a: Remote, net: Network, tag: string, marker: string, names: set<string>)
    requires Steady(a, tag, marker, names)
    ensures Leads(a, Found(a, net, tag, marker).0, tag, marker, names)
  {
    FoundLooks(a, net, tag, marker);
  }

  /** A command by tag finds an own draft or a release it would not change. */
  lemma ByTagUntouched(a: Remote, net: Network, tag: string, marker: string, names: set<string>, change: Release -> Release)
    requires Steady(a, tag, marker, names) && forall x :: Finished(x, names) ==> change(x) == x
    ensures Untouched(a.releases, ByTag(a, net, tag, change), tag, marker)
  {
    hide ByTag, FirstSeen, Numbered;
    forall x | x in a.releases && Foreign(x, tag, marker) ensures x in ByTag(a, net, tag, change) {
      var i :| 0 <= i < |a.releases| && a.releases[i] == x;
      OnlyTheFirstSeen(a, net, tag, change, i);
      assert ByTag(a, net, tag, change)[i] == x;
    }
  }

  lemma ByTagLength(a: Remote, net: Network, tag: string, change: Release -> Release)
    ensures |ByTag(a, net, tag, change)| == |a.releases|
  {}

  lemma UploadLeads(a: Remote, net: Network, tag: string, marker: string, names: set<string>)
    requires Steady(a, tag, marker, names)
    ensures Leads(a, Commanded(a, net, Upload(tag), Uploaded(a, net, tag, names)), tag, marker, names)
  {
    hide ByTag, FirstSeen;
    var after := ByTag(a, net, tag, Attaching(names));
    ByTagLength(a, net, tag, Attaching(names));
    forall x | Finished(x, names) ensures Attaching(names)(x) == x {
      assert x.assets + names == x.assets;
    }
    ByTagUntouched(a, net, tag, marker, names, Attaching(names));
    ByTagPreserves(a, net, tag, marker, Attaching(names));
    forall y | y in after && y.tag == tag ensures Owned(y, tag, marker) || Finished(y, names) {
      var i :| 0 <= i < |after| && after[i] == y;
      OnlyTheFirstSeen(a, net, tag, Attaching(names), i);
    }
  }

  lemma PublishLeaves(a: Remote, net: Network, tag: string, marker: string, names: set<string>, id: int)
    requires Steady(a, tag, marker, names)
    ensures Untouched(a.releases, AfterUpload(a, net, tag, id).0.releases, tag, marker)
  {
    hide ByTag, FirstSeen;
    ByTagUntouched(a, net, tag, marker, names, Publishing());
  }

  lemma CleaningLeaves(a: Remote, net: Network, tag: string, marker: string, names: set<string>, deleteTag: bool)
    requires Steady(a, tag, marker, names)
    ensures Untouched(a.releases, Cleaned(a, net, tag, marker, deleteTag).releases, tag, marker)
  {
    hide Found;
    FoundLooks(a, net, tag, marker);
    var (found, id) := Found(a, net, tag, marker);
    if id.Some? {
      var owned :| owned in a.releases && owned.id == id.value && Owned(owned, tag, marker);
      DeletionLeaves(a.releases, owned, tag, marker);
    }
  }

  lemma DeletionLeaves(releases: seq<Release>, owned: Release, tag: string, marker: string)
    requires DistinctIds(releases) && owned in releases && Owned(owned, tag, marker)
    ensures Untouched(releases, Filter(releases, NotId(owned.id)), tag, marker)
  {
    WithoutIdKeeps(releases, owned.id);
    var o :| 0 <= o < |releases| && releases[o] == owned;
    forall x | x in releases && Foreign(x, tag, marker) ensures x.id != owned.id {
      var i :| 0 <= i < |releases| && releases[i] == x;
      assert i < o || o < i;
    }
  }

  /** Whatever gets lost or is not shown, such a publication leaves every foreign release as it was. */
  lemma SteadyPublicationLeaves(r: Remote, net: Network, tag: string, marker: string, names: set<string>)
    requires Steady(r, tag, marker, names)
    ensures Untouched(r.releases, Publication(r, net, tag, marker, names).0.releases, tag, marker)
  {
    hide Found, Cleaned, Created, Uploaded, Steady, AfterUpload;
    var a, deleteTag := Called(r), tag !in r.tags;
    assert Steady(a, tag, marker, names) by { CallingIsSteady(r, tag, marker, names); }
    if Answered(r, net) {
      CreateLeads(a, net, tag, marker, names);
      var created := Commanded(a, net, Create(tag), Created(a, tag, marker));
      CleaningLeaves(created, net, tag, marker, names, deleteTag);
      FoundLeads(created, net, tag, marker, names);
      var (found, id) := Found(created, net, tag, marker);
      CleaningLeaves(found, net, tag, marker, names, deleteTag);
      UploadLeads(found, net, tag, marker, names);
      var uploaded := Commanded(found, net, Upload(tag), Uploaded(found, net, tag, names));
      CleaningLeaves(uploaded, net, tag, marker, names, deleteTag);
      if id.Some? { PublishLeaves(uploaded, net, tag, marker, names, id.value); }
    }
  }

  lemma CallingIsSteady(r: Remote, tag: string, marker: string, names: set<string>)
    requires Steady(r, tag, marker, names)
    ensures Steady(Called(r), tag, marker, names)
  {}

  // ---- When it holds something ------------------------------------------------------------------------

  function Ids(releases: seq<Release>): set<int> { set x | x in releases :: x.id }

  /** Everything works; the lookup is shown only the new draft, and the later commands only the release `id`. */
  function Showing(r: Remote, id: int): Network {
    Network(n => Works, n => Ids(r.releases) + {r.nextId} - {if n <= r.calls + 2 then r.nextId else id})
  }

  /** Of distinct releases, hiding all but one shows that one. */
  lemma ShowsOnly(releases: seq<Release>, hidden: set<int>, x: Release)
    requires DistinctIds(releases) && x in releases && hidden == Ids(releases) - {x.id}
    ensures Filter(releases, Shown(hidden)) == [x]
  {
    hide Filter, DistinctIds;
    var k :| 0 <= k < |releases| && releases[k] == x;
    var before, after := releases[..k], releases[k + 1..];
    assert releases == before + [x] + after;
    FilterConcat(before + [x], after, Shown(hidden));
    FilterConcat(before, [x], Shown(hidden));
    OthersHidden(releases, k);
    FilterNone(before, Shown(hidden));
    FilterNone(after, Shown(hidden));
    FilterAll([x], Shown(hidden));
  }

  lemma OthersHidden(releases: seq<Release>, k: nat)
    requires DistinctIds(releases) && k < |releases|
    ensures forall y :: y in releases[..k] || y in releases[k + 1..] ==> y.id in Ids(releases) - {releases[k].id}
  {
    forall y | y in releases[..k] || y in releases[k + 1..] ensures y in releases && y.id != releases[k].id {
      if y in releases[..k] {
        var i :| 0 <= i < k && releases[i] == y;
      } else {
        var i :| 0 <= i < |releases[k + 1..]| && releases[k + 1..][i] == y;
        assert releases[k + 1 + i] == y;
      }
    }
  }

  /** A command by tag that is shown one release of the tag changes it. */
  lemma ChangesTheShown(a: Remote, net: Network, tag: string, change: Release -> Release, x: Release)
    requires Numbered(a) && x in a.releases && x.tag == tag && net.hidden(a.calls) == Ids(a.releases) - {x.id}
    requires forall y :: change(y).id == y.id
    ensures var after := ByTag(a, net, tag, change);
            && change(x) in after && Ids(after) == Ids(a.releases) && DistinctIds(after)
            && forall y :: y in after && y.id == x.id ==> y == change(x)
  {
    hide ByTag, FirstSeen;
    SeesTheShown(a, net, tag, x);
    var after := ByTag(a, net, tag, change);
    ByTagLength(a, net, tag, change);
    forall i | 0 <= i < |a.releases|
      ensures after[i] == if a.releases[i] == x then change(x) else a.releases[i]
      ensures after[i].id == a.releases[i].id
    {
      OnlyTheFirstSeen(a, net, tag, change, i);
    }
    SameIds(a.releases, after);
    var k :| 0 <= k < |a.releases| && a.releases[k] == x;
    assert after[k] == change(x);
    forall y | y in after && y.id == x.id ensures y == change(x) {
      var i :| 0 <= i < |after| && after[i] == y;
      assert i < k || i == k || k < i;
    }
  }

  lemma SeesTheShown(a: Remote, net: Network, tag: string, x: Release)
    requires Numbered(a) && x in a.releases && x.tag == tag && net.hidden(a.calls) == Ids(a.releases) - {x.id}
    ensures FirstSeen(a, net, tag) == Some(x)
  {
    ShowsOnly(a.releases, net.hidden(a.calls), x);
    FilterAll([x], WithTag(tag));
  }

  lemma SameIds(s: seq<Release>, t: seq<Release>)
    requires |s| == |t| && forall i :: 0 <= i < |s| ==> t[i].id == s[i].id
    ensures Ids(t) == Ids(s) && (DistinctIds(s) ==> DistinctIds(t))
  {
    forall y | y in s ensures y.id in Ids(t) {
      var i :| 0 <= i < |s| && s[i] == y;
      assert t[i] in t;
    }
    forall y | y in t ensures y.id in Ids(s) {
      var i :| 0 <= i < |t| && t[i] == y;
      assert s[i] in s;
    }
  }

  /** The release as a publication of `names` leaves it when uploads and publishing reach it. */
  function Overtaken(x: Release, names: set<string>): Release { x.(assets := x.assets + names, draft := false) }

  /** There is a network under which a publication that works uploads to, and publishes, the given release of its tag. */
  lemma PublicationReaches(r: Remote, tag: string, marker: string, names: set<string>, x: Release)
    requires Numbered(r) && r.nextId >= 1 && x in r.releases && x.tag == tag
    ensures var (after, result) := Publication(r, Showing(r, x.id), tag, marker, names);
            && result == Ok(r.nextId)
            && Overtaken(x, names) in after.releases
            && forall y :: y in after.releases && y.id == x.id ==> y == Overtaken(x, names)
  {
    hide ByTag, Cleaned, Listed, Found, DistinctIds, Filter;
    var net := Showing(r, x.id);
    var own := Release(r.nextId, tag, true, Some(marker), {});
    var created := Commanded(Called(r), net, Create(tag), Created(Called(r), tag, marker));
    CreatedIds(Called(r), tag, marker);
    assert own in created.releases && x in created.releases;
    FindsOwn(created, net, tag, marker, own);
    var found := Found(created, net, tag, marker).0;
    ChangesTheShown(found, net, tag, Attaching(names), x);
    var uploaded := Commanded(found, net, Upload(tag), Uploaded(found, net, tag, names));
    ReleasesKeepNumbers(found, uploaded);
    ChangesTheShown(uploaded, net, tag, Publishing(), Attaching(names)(x));
  }

  lemma CreatedIds(r: Remote, tag: string, marker: string)
    requires Numbered(r)
    ensures Ids(Created(r, tag, marker).releases) == Ids(r.releases) + {r.nextId} && Numbered(Created(r, tag, marker))
    ensures forall x :: x in r.releases ==> x.id < r.nextId
  {
    assert Created(r, tag, marker).releases == r.releases + [Release(r.nextId, tag, true, Some(marker), {})];
  }

  /** A lookup that is shown nothing but the own draft finds it at once. */
  lemma FindsOwn(a: Remote, net: Network, tag: string, marker: string, own: Release)
    requires Numbered(a) && own in a.releases && Owned(own, tag, marker)
    requires Answered(a, net) && net.hidden(a.calls) == Ids(a.releases) - {own.id}
    ensures Found(a, net, tag, marker) == (Called(a), Some(own.id))
  {
    ShowsOnly(a.releases, net.hidden(a.calls), own);
    FilterAll([own], WithTag(tag));
  }

  lemma ReleasesKeepNumbers(a: Remote, b: Remote)
    requires Numbered(a) && DistinctIds(b.releases) && Ids(b.releases) == Ids(a.releases) && b.nextId == a.nextId
    ensures Numbered(b)
  {
    forall i | 0 <= i < |b.releases| ensures b.releases[i].id < b.nextId {
      assert b.releases[i] in b.releases && b.releases[i].id in Ids(a.releases);
      var y :| y in a.releases && y.id == b.releases[i].id;
    }
  }

  /**
   Whatever the network does, a publication leaves every foreign release exactly as it was, if and only if beforehand
   each release of its tag is an own draft, or is published and has all the assets already.
   */
  lemma ForeignUntouchedExactly(r: Remote, tag: string, marker: string, names: set<string>)
    requires Numbered(r) && r.nextId >= 1
    ensures (forall net :: Untouched(r.releases, Publication(r, net, tag, marker, names).0.releases, tag, marker))
            <==> Harmless(r.releases, tag, marker, names)
  {
    hide Publication;
    if Harmless(r.releases, tag, marker, names) {
      forall net ensures Untouched(r.releases, Publication(r, net, tag, marker, names).0.releases, tag, marker) {
        SteadyPublicationLeaves(r, net, tag, marker, names);
      }
    } else {
      var x :| x in r.releases && x.tag == tag && !Owned(x, tag, marker) && !Finished(x, names);
      PublicationReaches(r, tag, marker, names, x);
      assert x != Overtaken(x, names);
      assert !Untouched(r.releases, Publication(r, Showing(r, x.id), tag, marker, names).0.releases, tag, marker);
    }
  }

  const STRANGER := Release(1, "t", true, None, {})

  /** One draft of somebody else's with the same tag: the upload and the publication may both go to it. */
  lemma StrangerIsPublished(marker: string)
    ensures var r := Remote([STRANGER], {}, 2, 0, []);
            exists net ::
              && Publication(r, net, "t", marker, {"a"}).1 == Ok(2)
              && STRANGER.(assets := {"a"}, draft := false) in Publication(r, net, "t", marker, {"a"}).0.releases
  {
    hide Publication;
    var r := Remote([STRANGER], {}, 2, 0, []);
    PublicationReaches(r, "t", marker, {"a"}, STRANGER);
    assert Overtaken(STRANGER, {"a"}) == STRANGER.(assets := {"a"}, draft := false);
  }
}
