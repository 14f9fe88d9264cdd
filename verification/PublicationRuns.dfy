/** How publications end when the remote shows everything, and how an own draft is found again when it does not. */
module PublicationRuns {
  import opened Wrappers
  import opened Sequences
  import opened ReleasePublisher

  // ---- One's own draft ---------------------------------------------------------------------------

  /** A draft of the tag with exactly this publication's marker. */
  predicate IsOwn(x: Release, tag: string, marker: string) {
    x.id >= 1 && x.tag == tag && x.draft && x.marker == Some(marker)
  }

  /** The own drafts among the first hundred releases that request `n` is shown. */
  function OwnShown(r: Remote, net: Network, tag: string, marker: string, n: nat): seq<Release> {
    var shown := Filter(r.releases, (x: Release) => x.id !in net.hidden(n));
    Filter(if |shown| > 100 then shown[..100] else shown, (x: Release) => IsOwn(x, tag, marker))
  }

  /** Request `n` is the first from the next on to show an own draft, it shows one only, and every one so far was answered. */
  ghost predicate FoundAt(r: Remote, net: Network, tag: string, marker: string, n: nat, id: int) {
    && r.calls <= n && (forall m: nat :: r.calls <= m <= n ==> net.outcome(m).Works?)
    && (forall m: nat :: r.calls <= m < n ==> OwnShown(r, net, tag, marker, m) == [])
    && |OwnShown(r, net, tag, marker, n)| == 1 && OwnShown(r, net, tag, marker, n)[0].id == id
  }

  lemma MatchesMean(r: Remote, net: Network, tag: string, marker: string)
    ensures Filter(FirstPage(Visible(r, net)), OwnedBy(tag, marker)) == OwnShown(r, net, tag, marker, r.calls)
  {
    hide Filter;
    FilterCongruent(r.releases, Shown(net.hidden(r.calls)), (x: Release) => x.id !in net.hidden(r.calls));
    FilterCongruent(FirstPage(Visible(r, net)), OwnedBy(tag, marker), (x: Release) => IsOwn(x, tag, marker));
  }

  /** From attempt `attempt` on. */
  lemma {:induction false} ListedExactly(r: Remote, net: Network, tag: string, marker: string, attempt: nat, id: int)
    requires attempt <= VISIBILITY_ATTEMPTS
    ensures Listed(r, net, tag, marker, attempt).1 == Some(id) <==>
            exists n: nat :: n < r.calls + 8 - attempt && FoundAt(r, net, tag, marker, n, id)
    decreases VISIBILITY_ATTEMPTS - attempt
  {
    hide OwnShown, Filter;
    if attempt < VISIBILITY_ATTEMPTS && Answered(r, net) {
      MatchesMean(r, net, tag, marker);
      var matches := OwnShown(r, net, tag, marker, r.calls);
      if |matches| > 0 {
        assert forall n: nat :: FoundAt(r, net, tag, marker, n, id) ==> n == r.calls;
        assert FoundAt(r, net, tag, marker, r.calls, id) <==> |matches| == 1 && matches[0].id == id;
      } else {
        ListedExactly(Called(r), net, tag, marker, attempt + 1, id);
        forall n: nat ensures FoundAt(r, net, tag, marker, n, id) <==> FoundAt(Called(r), net, tag, marker, n, id) {
          FoundLater(r, net, tag, marker, n, id);
        }
      }
    }
  }

  lemma FoundLater(r: Remote, net: Network, tag: string, marker: string, n: nat, id: int)
    requires net.outcome(r.calls).Works? && OwnShown(r, net, tag, marker, r.calls) == []
    ensures FoundAt(r, net, tag, marker, n, id) <==> FoundAt(Called(r), net, tag, marker, n, id)
  {
    hide Filter;
    forall m: nat ensures OwnShown(Called(r), net, tag, marker, m) == OwnShown(r, net, tag, marker, m) {}
  }

  /**
   The lookup takes the release it is shown under the tag, if that is its own draft; shown none, it lists up to eight
   times and takes an own draft that is the only one among the first hundred shown.
   */
  lemma FoundExactly(r: Remote, net: Network, tag: string, marker: string, id: int)
    ensures Found(r, net, tag, marker).1 == Some(id) <==>
            var shown := Filter(r.releases, (x: Release) => x.id !in net.hidden(r.calls) && x.tag == tag);
            if net.outcome(r.calls).Works? && |shown| > 0 then IsOwn(shown[0], tag, marker) && shown[0].id == id
            else exists n: nat :: n <= r.calls + 8 && FoundAt(Called(r), net, tag, marker, n, id)
  {
    hide Filter, Listed, FoundAt;
    var p := Shown(net.hidden(r.calls));
    FilterFilter(r.releases, WithTag(tag), p, (x: Release) => x.id !in net.hidden(r.calls) && x.tag == tag);
    ListedExactly(Called(r), net, tag, marker, 0, id);
  }

  // ---- Whole publications ----------------------------------------------------------------------------

  /** The tag is new, with its own id next. */
  ghost predicate NewTag(r: Remote, tag: string) {
    Numbered(r) && r.nextId >= 1 && tag !in r.tags && forall x :: x in r.releases ==> x.tag != tag
  }

  /** Nothing is hidden and every request is answered but request `n`, which goes as it goes. */
  ghost predicate AnswersAllBut(net: Network, n: nat) {
    (forall k: nat :: net.hidden(k) == {}) && forall k: nat :: k != n ==> net.outcome(k).Works?
  }

  function Draft(r: Remote, tag: string, marker: string, names: set<string>): Release {
    Release(r.nextId, tag, true, Some(marker), names)
  }

  lemma EverythingShown(r: Remote, net: Network)
    requires net.hidden(r.calls) == {}
    ensures Visible(r, net) == r.releases
  {
    FilterAll(r.releases, Shown({}));
  }

  /** With the tag's only release at the end, that is what the tag finds. */
  lemma OnlyOfItsTag(r: Remote, net: Network, tag: string, init: seq<Release>, x: Release)
    requires net.hidden(r.calls) == {} && r.releases == init + [x] && x.tag == tag && forall y :: y in init ==> y.tag != tag
    ensures Filter(Visible(r, net), WithTag(tag)) == [x]
  {
    EverythingShown(r, net);
    FilterNone(init, WithTag(tag));
    FilterAppend(init, x, WithTag(tag));
  }

  /** A command by tag changes the tag's only release. */
  lemma ByTagChangesIt(r: Remote, net: Network, tag: string, change: Release -> Release, init: seq<Release>, x: Release)
    requires net.hidden(r.calls) == {} && r.releases == init + [x] && x.tag == tag && forall y :: y in init ==> y.tag != tag
    requires forall y :: y in init ==> y.id != x.id
    ensures ByTag(r, net, tag, change) == init + [change(x)]
  {
    hide Filter;
    OnlyOfItsTag(r, net, tag, init, x);
    var after := ByTag(r, net, tag, change);
    forall i | 0 <= i < |init| ensures after[i] == init[i] {
      assert r.releases[i] == init[i] && init[i] in init;
    }
    assert after[|init|] == change(x);
  }

  lemma OldIdsBelow(r: Remote)
    requires Numbered(r)
    ensures forall y :: y in r.releases ==> y.id < r.nextId
  {
    forall y | y in r.releases ensures y.id < r.nextId {
      var i :| 0 <= i < |r.releases| && r.releases[i] == y;
    }
  }

  /** The remote once the draft is there, with the requests and commands so far. */
  function WithDraft(r: Remote, x: Release, calls: nat, log: seq<Command>): Remote {
    r.(releases := r.releases + [x], nextId := r.nextId + 1, calls := calls, log := log)
  }

  lemma FindsTheDraft(r: Remote, net: Network, tag: string, marker: string, x: Release, calls: nat, log: seq<Command>)
    requires NewTag(r, tag) && net.hidden(calls) == {} && net.outcome(calls).Works?
    requires IsOwn(x, tag, marker)
    ensures Found(WithDraft(r, x, calls, log), net, tag, marker) == (WithDraft(r, x, calls + 1, log), Some(x.id))
  {
    hide Listed, Filter;
    OnlyOfItsTag(WithDraft(r, x, calls, log), net, tag, r.releases, x);
  }

  /** Cleaning up deletes the draft and the tag. */
  lemma CleansTheDraft(r: Remote, net: Network, tag: string, marker: string, x: Release, calls: nat, log: seq<Command>)
    requires NewTag(r, tag) && (forall k: nat :: net.hidden(k) == {}) && (forall k: nat :: k >= calls ==> net.outcome(k).Works?)
    requires IsOwn(x, tag, marker) && x.id == r.nextId
    ensures Cleaned(WithDraft(r, x, calls, log), net, tag, marker, true) ==
            r.(nextId := r.nextId + 1, calls := calls + 3, log := log + [DeleteRelease(x.id)] + [DeleteTag(tag)])
  {
    hide Found, Filter;
    FindsTheDraft(r, net, tag, marker, x, calls, log);
    OldIdsBelow(r);
    FilterAll(r.releases, NotId(x.id));
    FilterAppend(r.releases, x, NotId(x.id));
    assert r.tags - {tag} == r.tags;
  }

  lemma TagCheckAndCreate(r: Remote, net: Network, tag: string, marker: string)
    requires net.outcome(r.calls).Works? && !net.outcome(r.calls + 1).LostBefore?
    ensures Commanded(Called(r), net, Create(tag), Created(Called(r), tag, marker)) ==
            WithDraft(r, Draft(r, tag, marker, {}), r.calls + 2, r.log + [Create(tag)])
  {}

  lemma UploadsTheAssets(r: Remote, net: Network, tag: string, marker: string, names: set<string>, calls: nat, log: seq<Command>)
    requires NewTag(r, tag) && net.hidden(calls) == {}
    ensures var a := WithDraft(r, Draft(r, tag, marker, {}), calls, log);
            Commanded(a, net, Upload(tag), Uploaded(a, net, tag, names)) ==
            WithDraft(r, Draft(r, tag, marker, if net.outcome(calls).LostBefore? then {} else names), calls + 1,
                      log + [Upload(tag)])
  {
    hide ByTag;
    var a := WithDraft(r, Draft(r, tag, marker, {}), calls, log);
    OldIdsBelow(r);
    ByTagChangesIt(a, net, tag, Attaching(names), r.releases, Draft(r, tag, marker, {}));
    assert {} + names == names;
  }

  lemma PublishesTheDraft(r: Remote, net: Network, tag: string, marker: string, names: set<string>, calls: nat, log: seq<Command>)
    requires NewTag(r, tag) && net.hidden(calls) == {} && net.outcome(calls).Works?
    ensures var a := WithDraft(r, Draft(r, tag, marker, names), calls, log);
            Commanded(a, net, Publish(tag), PublishedAs(a, net, tag)) ==
            WithDraft(r, Draft(r, tag, marker, names).(draft := false), calls + 1, log + [Publish(tag)]).(tags := r.tags + {tag})
  {
    hide ByTag;
    var a := WithDraft(r, Draft(r, tag, marker, names), calls, log);
    OldIdsBelow(r);
    ByTagChangesIt(a, net, tag, Publishing(), r.releases, Draft(r, tag, marker, names));
  }

  /** When everything works, a publication of a new tag ends with the one new release, published with exactly its assets. */
  lemma WorkingPublication(r: Remote, net: Network, tag: string, marker: string, names: set<string>)
    requires NewTag(r, tag) && (forall k: nat :: net.hidden(k) == {}) && forall k: nat :: net.outcome(k).Works?
    ensures Publication(r, net, tag, marker, names) ==
            (WithDraft(r, Release(r.nextId, tag, false, Some(marker), names), r.calls + 5,
                       r.log + [Create(tag)] + [Upload(tag)] + [Publish(tag)]).(tags := r.tags + {tag}),
             Ok(r.nextId))
  {
    hide Found, Cleaned, Commanded, Uploaded, PublishedAs, Created;
    TagCheckAndCreate(r, net, tag, marker);
    var log := r.log + [Create(tag)];
    FindsTheDraft(r, net, tag, marker, Draft(r, tag, marker, {}), r.calls + 2, log);
    UploadsTheAssets(r, net, tag, marker, names, r.calls + 3, log);
    PublishesTheDraft(r, net, tag, marker, names, r.calls + 4, log + [Upload(tag)]);
  }

  /** An upload that fails, whether or not it took effect, leaves nothing behind when the rest works. */
  lemma FailedUploadIsCleanedUp(r: Remote, net: Network, tag: string, marker: string, names: set<string>)
    requires NewTag(r, tag) && AnswersAllBut(net, r.calls + 3) && !net.outcome(r.calls + 3).Works?
    ensures var (after, result) := Publication(r, net, tag, marker, names);
            && result == Err(UploadFailed) && after.releases == r.releases && after.tags == r.tags
            && after.log == r.log + [Create(tag)] + [Upload(tag)] + [DeleteRelease(r.nextId)] + [DeleteTag(tag)]
  {
    hide Found, Cleaned, Commanded, Uploaded, PublishedAs, Created;
    TagCheckAndCreate(r, net, tag, marker);
    var log := r.log + [Create(tag)];
    FindsTheDraft(r, net, tag, marker, Draft(r, tag, marker, {}), r.calls + 2, log);
    UploadsTheAssets(r, net, tag, marker, names, r.calls + 3, log);
    var x := Draft(r, tag, marker, if net.outcome(r.calls + 3).LostBefore? then {} else names);
    CleansTheDraft(r, net, tag, marker, x, r.calls + 4, log + [Upload(tag)]);
  }

  /** A draft that was created although its creation failed is deleted again, with its tag. */
  lemma FailedCreationIsCleanedUp(r: Remote, net: Network, tag: string, marker: string, names: set<string>)
    requires NewTag(r, tag) && AnswersAllBut(net, r.calls + 1) && net.outcome(r.calls + 1).LostAfter?
    ensures var (after, result) := Publication(r, net, tag, marker, names);
            && result == Err(CreateFailed) && after.releases == r.releases && after.tags == r.tags
            && after.log == r.log + [Create(tag)] + [DeleteRelease(r.nextId)] + [DeleteTag(tag)]
  {
    hide Found, Cleaned, Commanded, Uploaded, PublishedAs, Created;
    TagCheckAndCreate(r, net, tag, marker);
    CleansTheDraft(r, net, tag, marker, Draft(r, tag, marker, {}), r.calls + 2, r.log + [Create(tag)]);
  }

  /** A draft that cannot be looked up after its creation, because both the tag and the list go unanswered, is deleted again. */
  lemma FailedLookupIsCleanedUp(r: Remote, net: Network, tag: string, marker: string, names: set<string>)
    requires NewTag(r, tag) && (forall k: nat :: net.hidden(k) == {})
    requires forall k: nat :: net.outcome(k).Works? <==> k != r.calls + 2 && k != r.calls + 3
    ensures var (after, result) := Publication(r, net, tag, marker, names);
            && result == Err(IdentityInvalid) && after.releases == r.releases && after.tags == r.tags
            && after.log == r.log + [Create(tag)] + [DeleteRelease(r.nextId)] + [DeleteTag(tag)]
  {
    hide Cleaned, Commanded, Uploaded, PublishedAs, Created, Filter;
    TagCheckAndCreate(r, net, tag, marker);
    CleansTheDraft(r, net, tag, marker, Draft(r, tag, marker, {}), r.calls + 4, r.log + [Create(tag)]);
  }
}
