/** What the funding history guarantees: complete retrieval, exact lookups, additive charges. */
module FundingProperties {
  import opened Wrappers
  import opened Sequences
  import opened Funding
  import Metrics

  // ---- Parsing keeps exactly the distinct events ----------------------------------------

  ghost predicate StrictlyOrdered(events: seq<Event>) {
    forall i, j :: 0 <= i < j < |events| ==> events[i].timestamp < events[j].timestamp
  }

  ghost predicate Sound(rows: seq<Raw>, url: int) {
    forall i :: 0 <= i < |rows| ==> Normalised(rows[i], url).Some?
  }

  /** No two rows tell different stories about one instant. */
  ghost predicate Consistent(rows: seq<Raw>, url: int)
    requires Sound(rows, url)
  {
    forall i, j :: 0 <= i < |rows| && 0 <= j < |rows| && rows[i].time == rows[j].time ==>
      Normalised(rows[i], url) == Normalised(rows[j], url)
  }

  ghost predicate Stems(e: Event, rows: seq<Raw>, url: int) {
    exists i :: 0 <= i < |rows| && Normalised(rows[i], url) == Some(e)
  }

  lemma {:induction false} AtFinds(events: seq<Event>, t: int)
    ensures At(events, t).Some? ==> At(events, t).value in events && At(events, t).value.timestamp == t
    ensures At(events, t).None? ==> forall i :: 0 <= i < |events| ==> events[i].timestamp != t
  {
    if |events| > 0 && events[|events| - 1].timestamp != t {
      AtFinds(events[..|events| - 1], t);
    }
  }

  ghost predicate Apart(events: seq<Event>) {
    forall i, j :: 0 <= i < j < |events| ==> events[i].timestamp != events[j].timestamp
  }

  lemma StemsLast(e: Event, rows: seq<Raw>, url: int)
    requires |rows| > 0 && Normalised(rows[|rows| - 1], url) == Some(e)
    ensures Stems(e, rows, url)
  {}

  lemma StemsLonger(e: Event, rows: seq<Raw>, url: int)
    requires |rows| > 0 && Stems(e, rows[..|rows| - 1], url)
    ensures Stems(e, rows, url)
  {
    hide Normalised;
    var i :| 0 <= i < |rows| - 1 && Normalised(rows[..|rows| - 1][i], url) == Some(e);
    assert Normalised(rows[i], url) == Some(e);
  }

  lemma {:induction false} DistinctKeeps(rows: seq<Raw>, url: int)
    requires Distinct(rows, url).Some?
    ensures Sound(rows, url) && Apart(Distinct(rows, url).value)
    ensures forall e :: e in Distinct(rows, url).value ==> Stems(e, rows, url)
    ensures forall i :: 0 <= i < |rows| ==> Normalised(rows[i], url).value in Distinct(rows, url).value
  {
    hide Normalised, Stems;
    if |rows| > 0 {
      var init, last := rows[..|rows| - 1], Normalised(rows[|rows| - 1], url).value;
      DistinctKeeps(init, url);
      var before, after := Distinct(init, url).value, Distinct(rows, url).value;
      AtFinds(before, last.timestamp);
      forall e | e in after ensures Stems(e, rows, url) {
        if e in before {
          StemsLonger(e, rows, url);
        } else {
          StemsLast(e, rows, url);
        }
      }
      forall i | 0 <= i < |rows| ensures Normalised(rows[i], url).Some? && Normalised(rows[i], url).value in after {
        if i < |init| {
          assert rows[i] == init[i];
          assert Normalised(init[i], url).value in before;
        }
      }
    }
  }

  lemma {:induction false} ConsistentParses(rows: seq<Raw>, url: int)
    requires Sound(rows, url) && Consistent(rows, url)
    ensures Distinct(rows, url).Some?
  {
    if |rows| > 0 {
      var init, last := rows[..|rows| - 1], Normalised(rows[|rows| - 1], url).value;
      assert forall i :: 0 <= i < |init| ==> init[i] == rows[i];
      ConsistentParses(init, url);
      DistinctKeeps(init, url);
      var before := Distinct(init, url).value;
      AtFinds(before, last.timestamp);
      var previous := At(before, last.timestamp);
      if previous.Some? {
        var i :| 0 <= i < |init| && Normalised(init[i], url) == Some(previous.value);
        assert Normalised(rows[i], url) == Normalised(rows[|rows| - 1], url);
      }
    }
  }

  lemma EventOrderIsTotal()
    ensures TotalPreorder(EventOrder)
  {
    forall a, b ensures Comparable(EventOrder, a, b) {}
    forall a, b, c ensures Chain(EventOrder, a, b, c) {}
  }

  lemma {:induction false} InsertApart(s: seq<Event>, x: Event)
    requires Apart(s) && forall i :: 0 <= i < |s| ==> s[i].timestamp != x.timestamp
    ensures Apart(Insert(s, x, EventOrder))
    ensures forall e :: e in Insert(s, x, EventOrder) <==> e in s || e == x
  {
    if |s| > 0 && !EventOrder(s[|s| - 1], x) {
      var init, last := s[..|s| - 1], s[|s| - 1];
      InsertApart(init, x);
      var t := Insert(init, x, EventOrder);
      assert s == init + [last];
      forall i | 0 <= i < |t| ensures t[i].timestamp != last.timestamp {
        assert t[i] in t;
        if t[i] in init {
          var k :| 0 <= k < |init| && init[k] == t[i];
          assert s[k].timestamp != s[|s| - 1].timestamp;
        }
      }
    }
  }

  lemma {:induction false} SortApart(s: seq<Event>)
    requires Apart(s)
    ensures Apart(StableSort(s, EventOrder)) && forall e :: e in StableSort(s, EventOrder) <==> e in s
  {
    if |s| > 0 {
      var init, last := s[..|s| - 1], s[|s| - 1];
      SortApart(init);
      var t := StableSort(init, EventOrder);
      forall i | 0 <= i < |t| ensures t[i].timestamp != last.timestamp {
        assert t[i] in t;
        var k :| 0 <= k < |init| && init[k] == t[i];
        assert s[k].timestamp != s[|s| - 1].timestamp;
      }
      InsertApart(t, last);
      assert s == init + [last];
    }
  }

  /**
   Rows parse exactly when each is usable and no two disagree about an instant; what they parse to
   is strictly ordered and contains exactly the events the rows stand for.
   */
  lemma ParsedExactly(rows: seq<Raw>, url: int)
    ensures Parsed(rows, url).Some? <==> Sound(rows, url) && Consistent(rows, url)
    ensures Parsed(rows, url).Some? ==>
              && StrictlyOrdered(Parsed(rows, url).value)
              && forall e :: e in Parsed(rows, url).value <==> Stems(e, rows, url)
  {
    if Distinct(rows, url).Some? {
      var distinct := Distinct(rows, url).value;
      DistinctKeeps(rows, url);
      SortApart(distinct);
      EventOrderIsTotal();
      StableSortSorts(distinct, EventOrder);
      forall i, j | 0 <= i < |rows| && 0 <= j < |rows| && rows[i].time == rows[j].time
        ensures Normalised(rows[i], url) == Normalised(rows[j], url)
      {
        var a, b := Normalised(rows[i], url).value, Normalised(rows[j], url).value;
        assert a in distinct && b in distinct;
      }
      var sorted := StableSort(distinct, EventOrder);
      forall i, j | 0 <= i < j < |sorted| ensures sorted[i].timestamp < sorted[j].timestamp {
        assert EventOrder(sorted[i], sorted[j]);
      }
    } else if Sound(rows, url) && Consistent(rows, url) {
      ConsistentParses(rows, url);
    }
  }

  // ---- Retrieval from a server that answers honestly --------------------------------------

  function InRange(from: int, end: int): Raw -> bool { (r: Raw) => r.time.Some? && from <= r.time.value <= end }

  /** The events an exchange has on record, one per instant. */
  ghost predicate Chronicle(events: seq<Raw>) {
    && (forall i :: 0 <= i < |events| ==> events[i].source.None? && Normalised(events[i], 0).Some?)
    && forall i, j :: 0 <= i < j < |events| ==> events[i].time.value < events[j].time.value
  }

  function Reported(events: seq<Raw>, from: int, end: int): seq<Raw> { Filter(events, InRange(from, end)) }

  function FirstPage(events: seq<Raw>): seq<Raw> { if |events| <= 1000 then events else events[..1000] }

  /** Every request is answered with the first thousand events from its start time on. */
  ghost predicate Honest(serve: Server, events: seq<Raw>, end: int) {
    forall n: nat, from: int :: HonestReply(serve, events, end, n, from)
  }

  ghost predicate HonestReply(serve: Server, events: seq<Raw>, end: int, n: nat, from: int) {
    serve(n, from) == Page(FirstPage(Reported(events, from, end)))
  }

  function Anonymous(rows: seq<Raw>): seq<Raw> { Map(rows, (r: Raw) => r.(source := None)) }

  predicate Ascending(a: Raw, b: Raw) { a.time.Some? && b.time.Some? && a.time.value < b.time.value }

  lemma ReportedAscends(events: seq<Raw>, from: int, end: int)
    requires Chronicle(events)
    ensures Sorted(Reported(events, from, end), Ascending)
    ensures forall i :: 0 <= i < |Reported(events, from, end)| ==> InRange(from, end)(Reported(events, from, end)[i])
    ensures Anonymous(Reported(events, from, end)) == Reported(events, from, end)
  {
    var s := Reported(events, from, end);
    FilterSorted(events, InRange(from, end), Ascending);
    forall i | 0 <= i < |s| ensures InRange(from, end)(s[i]) && s[i].source.None? {
      FilterOrigin(events, InRange(from, end), i);
    }
  }

  lemma {:induction false} LatestIsLast(rows: seq<Raw>, default: int)
    requires Sorted(rows, Ascending) && |rows| > 0 && rows[0].time.Some?
    ensures Latest(rows, default) == rows[|rows| - 1].time && rows[|rows| - 1].time.Some?
  {
    if |rows| > 1 {
      LatestIsLast(rows[..|rows| - 1], default);
      assert Ascending(rows[|rows| - 2], rows[|rows| - 1]);
    }
  }

  /** What a full page leaves is what there is to report after its last event. */
  lemma AfterPage(events: seq<Raw>, from: int, end: int, k: nat)
    requires Chronicle(events) && 0 < k <= |Reported(events, from, end)|
    ensures var s := Reported(events, from, end);
            s[k - 1].time.Some? && Reported(events, s[k - 1].time.value + 1, end) == s[k..]
  {
    var s := Reported(events, from, end);
    ReportedAscends(events, from, end);
    assert InRange(from, end)(s[k - 1]);
    var p := InRange(s[k - 1].time.value + 1, end);
    FilterFilter(events, p, InRange(from, end), p);
    forall i | 0 <= i < k ensures !p(s[i]) {
      assert i < k - 1 ==> Ascending(s[i], s[k - 1]);
    }
    forall i | k <= i < |s| ensures p(s[i]) {
      assert Ascending(s[k - 1], s[i]) && InRange(from, end)(s[i]);
    }
    FilterSuffix(s, k, p);
  }

  /** One round of the retrieval, given the page it receives. */
  lemma GatheredStep(serve: Server, n: nat, cursor: int, end: int, rows: seq<Raw>, page: seq<Raw>)
    requires cursor <= end && serve(n, cursor) == Page(page) && |page| > 0
    requires Sorted(page, Ascending) && page[0].time.Some? && cursor <= page[|page| - 1].time.GetOr(cursor - 1)
    ensures Gathered(serve, n, cursor, end, rows) ==
            if |page| < PAGE_LIMIT then Some(rows + Tagged(page, cursor))
            else Gathered(serve, n + 1, page[|page| - 1].time.value + 1, end, rows + Tagged(page, cursor))
  {
    LatestIsLast(page, cursor);
  }

  lemma TaggingForgotten(rows: seq<Raw>, page: seq<Raw>, source: int)
    ensures Anonymous(rows + Tagged(page, source)) == Anonymous(rows) + Anonymous(page)
  {}

  lemma {:induction false} GathersEverything(serve: Server, events: seq<Raw>, n: nat, cursor: int, end: int, rows: seq<Raw>)
    requires Chronicle(events) && Honest(serve, events, end)
    ensures Gathered(serve, n, cursor, end, rows).Some?
    ensures Anonymous(Gathered(serve, n, cursor, end, rows).value) == Anonymous(rows) + Reported(events, cursor, end)
    decreases if cursor > end then 0 else end - cursor + 1
  {
    hide Filter, Anonymous, Tagged, Chronicle, Latest;
    var s := Reported(events, cursor, end);
    ReportedAscends(events, cursor, end);
    if cursor > end {
      FilterNone(events, InRange(cursor, end));
      return;
    }
    assert HonestReply(serve, events, end, n, cursor);
    if |s| == 0 { return; }
    var page := FirstPage(s);
    var k := |page|;
    assert page == s[..k];
    assert InRange(cursor, end)(s[0]) && InRange(cursor, end)(s[k - 1]);
    GatheredStep(serve, n, cursor, end, rows, page);
    TaggingForgotten(rows, page, cursor);
    AnonymousPrefix(s, k);
    if k >= PAGE_LIMIT {
      AfterPage(events, cursor, end, k);
      GathersEverything(serve, events, n + 1, s[k - 1].time.value + 1, end, rows + Tagged(page, cursor));
      assert s == s[..k] + s[k..];
    } else {
      assert s[..k] == s;
    }
  }

  lemma AnonymousPrefix(s: seq<Raw>, k: nat)
    requires k <= |s| && Anonymous(s) == s
    ensures Anonymous(s[..k]) == s[..k]
  {
    forall i | 0 <= i < k ensures Anonymous(s[..k])[i] == s[..k][i] {
      assert Anonymous(s)[i] == s[i];
    }
  }

  /** A cache that knows the first so many events of the range, none of them wrong. */
  ghost predicate HoldsPrefix(cached: seq<Raw>, events: seq<Raw>, from: int, end: int) {
    |cached| <= |Reported(events, from, end)| && Anonymous(cached) == Reported(events, from, end)[..|cached|]
  }

  lemma LatestOfAnonymous(rows: seq<Raw>, default: int)
    ensures Latest(Anonymous(rows), default) == Latest(rows, default)
  {
    if |rows| > 0 {
      var init := rows[..|rows| - 1];
      LatestOfAnonymous(init, default);
      assert Anonymous(rows)[..|rows| - 1] == Anonymous(init);
    }
  }

  /** Where a retrieval resumes after a true prefix: exactly the rest is still to be reported. */
  lemma ResumesAfterPrefix(events: seq<Raw>, cached: seq<Raw>, from: int, end: int)
    requires Chronicle(events) && HoldsPrefix(cached, events, from, end)
    ensures Latest(cached, from - 1).Some?
    ensures Reported(events, Max(from, Latest(cached, from - 1).value + 1), end) == Reported(events, from, end)[|cached|..]
  {
    var s := Reported(events, from, end);
    var k := |cached|;
    ReportedAscends(events, from, end);
    LatestOfAnonymous(cached, from - 1);
    if k > 0 {
      assert InRange(from, end)(s[0]) && InRange(from, end)(s[k - 1]);
      LatestIsLast(s[..k], from - 1);
      AfterPage(events, from, end, k);
    }
  }

  lemma PrefixIsContinued(file: Cache, serve: Server, events: seq<Raw>, from: int, end: int)
    requires Chronicle(events) && Honest(serve, events, end)
    requires !Cached(file, from, end).1 && HoldsPrefix(Cached(file, from, end).0, events, from, end)
    ensures Complete(file, serve, from, end).Some?
    ensures Anonymous(Complete(file, serve, from, end).value) == Reported(events, from, end)
  {
    var cached := Cached(file, from, end).0;
    var s := Reported(events, from, end);
    ResumesAfterPrefix(events, cached, from, end);
    GathersEverything(serve, events, 0, Max(from, Latest(cached, from - 1).value + 1), end, cached);
    assert s == s[..|cached|] + s[|cached|..];
  }

  /** An event without the request it came from. */
  function Fact(e: Event): (int, real, Option<real>) { (e.timestamp, e.rate, e.mark) }

  lemma {:induction false} DistinctOfAscending(rows: seq<Raw>, url: int)
    requires Sorted(rows, Ascending) && Sound(rows, url)
    ensures Distinct(rows, url).Some? && |Distinct(rows, url).value| == |rows|
    ensures forall i :: 0 <= i < |rows| ==> Normalised(rows[i], url) == Some(Distinct(rows, url).value[i])
  {
    if |rows| > 0 {
      var init, last := rows[..|rows| - 1], Normalised(rows[|rows| - 1], url).value;
      DistinctOfAscending(init, url);
      var before := Distinct(init, url).value;
      forall i | 0 <= i < |before| ensures before[i].timestamp < last.timestamp {
        assert Normalised(init[i], url) == Some(before[i]);
        assert Ascending(rows[i], rows[|rows| - 1]);
      }
      AtFinds(before, last.timestamp);
    }
  }

  lemma AscendingParses(rows: seq<Raw>, url: int)
    requires Sorted(rows, Ascending) && Sound(rows, url)
    ensures Parsed(rows, url).Some? && |Parsed(rows, url).value| == |rows|
    ensures forall i :: 0 <= i < |rows| ==> Normalised(rows[i], url) == Some(Parsed(rows, url).value[i])
  {
    DistinctOfAscending(rows, url);
    var distinct := Distinct(rows, url).value;
    forall i, j | 0 <= i < j < |distinct| ensures EventOrder(distinct[i], distinct[j]) {
      assert Ascending(rows[i], rows[j]);
      assert Normalised(rows[i], url) == Some(distinct[i]) && Normalised(rows[j], url) == Some(distinct[j]);
    }
    SortOfSorted(distinct, EventOrder);
  }

  /** Exactly these facts, in this order. */
  ghost predicate States(rows: Option<seq<Event>>, events: seq<Raw>) {
    if |events| == 0 then rows == None
    else rows.Some? && |rows.value| == |events|
         && forall i :: 0 <= i < |events| && Normalised(events[i], 0).Some? ==>
              Fact(rows.value[i]) == Fact(Normalised(events[i], 0).value)
  }

  /** Rows a retrieval gathered all carry a time. */
  lemma {:induction false} GatheredRowsAreTimed(serve: Server, n: nat, cursor: int, end: int, rows: seq<Raw>)
    requires Gathered(serve, n, cursor, end, rows).Some? && Timed(rows)
    ensures Timed(Gathered(serve, n, cursor, end, rows).value)
    decreases if cursor > end then 0 else end - cursor + 1
  {
    if cursor <= end {
      var reply := serve(n, cursor);
      if reply.Page? && |reply.rows| > 0 {
        LatestNeedsTimes(reply.rows, cursor);
        var more := rows + Tagged(reply.rows, cursor);
        if |reply.rows| >= PAGE_LIMIT {
          GatheredRowsAreTimed(serve, n + 1, Latest(reply.rows, cursor).value + 1, end, more);
        }
      }
    }
  }

  ghost predicate Timed(rows: seq<Raw>) { forall i :: 0 <= i < |rows| ==> rows[i].time.Some? }

  lemma {:induction false} LatestNeedsTimes(rows: seq<Raw>, default: int)
    ensures Latest(rows, default).Some? <==> Timed(rows)
  {
    if |rows| > 0 {
      LatestNeedsTimes(rows[..|rows| - 1], default);
      assert rows == rows[..|rows| - 1] + [rows[|rows| - 1]];
    }
  }

  lemma SameFacts(r: Raw, fact: Raw, url: int)
    requires r.(source := None) == fact && Normalised(fact, 0).Some?
    ensures Normalised(r, url).Some? && Fact(Normalised(r, url).value) == Fact(Normalised(fact, 0).value)
  {}

  /** Rows that state `facts` in order parse to exactly them, whatever requests they came from. */
  lemma OrderedFactsParse(rows: seq<Raw>, facts: seq<Raw>, url: int)
    requires Anonymous(rows) == facts && Sorted(facts, Ascending) && Sound(facts, 0)
    ensures States(NonEmpty(Parsed(rows, url)), facts)
  {
    assert |rows| == |facts|;
    forall i | 0 <= i < |rows|
      ensures Normalised(rows[i], url).Some? && rows[i].time == facts[i].time
      ensures Fact(Normalised(rows[i], url).value) == Fact(Normalised(facts[i], 0).value)
    {
      assert Anonymous(rows)[i] == facts[i];
      SameFacts(rows[i], facts[i], url);
    }
    forall i, j | 0 <= i < j < |rows| ensures Ascending(rows[i], rows[j]) {
      assert Ascending(facts[i], facts[j]);
    }
    AscendingParses(rows, url);
  }

  lemma ReportedIsSound(events: seq<Raw>, from: int, end: int)
    requires Chronicle(events)
    ensures Sound(Reported(events, from, end), 0)
  {
    forall i | 0 <= i < |Reported(events, from, end)| ensures Normalised(Reported(events, from, end)[i], 0).Some? {
      FilterOrigin(events, InRange(from, end), i);
    }
  }

  lemma ParsedIsStrict(rows: seq<Raw>, url: int)
    ensures NonEmpty(Parsed(rows, url)).Some? ==> StrictlyOrdered(NonEmpty(Parsed(rows, url)).value)
  {
    ParsedExactly(rows, url);
  }

  /**
   Against an honest server, with no usable cache or one that holds a true prefix, the history is
   exactly the events of the requested range, strictly ordered.
   */
  lemma RetrievalIsComplete(file: Cache, serve: Server, events: seq<Raw>, start: int, end: int)
    requires Chronicle(events) && Honest(serve, events, end) && start < end
    requires !Cached(file, start - HISTORY, end).1 &&
             HoldsPrefix(Cached(file, start - HISTORY, end).0, events, start - HISTORY, end)
    ensures States(RowsOf(file, serve, Some(start), Some(end)), Reported(events, start - HISTORY, end))
    ensures RowsOf(file, serve, Some(start), Some(end)).Some? ==> StrictlyOrdered(RowsOf(file, serve, Some(start), Some(end)).value)
  {
    var from := start - HISTORY;
    PrefixIsContinued(file, serve, events, from, end);
    ReportedAscends(events, from, end);
    ReportedIsSound(events, from, end);
    OrderedFactsParse(Complete(file, serve, from, end).value, Reported(events, from, end), from);
    ParsedIsStrict(Complete(file, serve, from, end).value, from);
  }

  /** Once written, the cache file alone gives the same history, whatever the server would say, and is not written again. */
  lemma CacheRoundTrip(file: Cache, serve: Server, other: Server, start: Option<int>, end: Option<int>)
    requires Writes(file, serve, start, end)
    ensures RowsOf(Written(file, serve, start, end), other, start, end) == RowsOf(file, serve, start, end)
    ensures !Writes(Written(file, serve, start, end), other, start, end)
  {
    var from := start.value - HISTORY;
    var cached := Cached(file, from, end.value).0;
    LatestNeedsTimes(cached, from - 1);
    GatheredRowsAreTimed(serve, 0, Max(from, Latest(cached, from - 1).value + 1), end.value, cached);
    LatestNeedsTimes(Complete(file, serve, from, end.value).value, from - 1);
  }

  // ---- Lookups -----------------------------------------------------------------------------------

  lemma BisectCounts(rows: seq<Event>, t: int)
    requires StrictlyOrdered(rows)
    ensures forall i :: 0 <= i < |rows| ==> (i < BisectRight(Times(rows), t) <==> rows[i].timestamp <= t)
  {
    BisectCountsTimes(Times(rows), t);
  }

  lemma {:induction false} BisectCountsTimes(s: seq<int>, t: int)
    requires forall i, j :: 0 <= i < j < |s| ==> s[i] < s[j]
    ensures forall i :: 0 <= i < |s| ==> (i < BisectRight(s, t) <==> s[i] <= t)
  {
    if |s| > 0 && s[|s| - 1] > t { BisectCountsTimes(s[..|s| - 1], t); }
  }

  lemma {:induction false} BisectMonotone(s: seq<int>, a: int, b: int)
    requires a <= b
    ensures BisectRight(s, a) <= BisectRight(s, b)
  {
    if |s| > 0 { BisectMonotone(s[..|s| - 1], a, b); }
  }

  /**
   The standing is the latest event not after the instant, and it is refused exactly when there is
   none or it is more than eight hours old; the history is the events of the thirty days before.
   */
  lemma StandingIsLatest(rows: seq<Event>, t: int)
    requires StrictlyOrdered(rows)
    ensures StandingAt(rows, t).Some? <==> exists e :: e in rows && t - 28_800_000 <= e.timestamp <= t
    ensures StandingAt(rows, t).Some? ==>
              var standing := StandingAt(rows, t).value;
              && standing.current in rows && standing.current.timestamp <= t
              && (forall e :: e in rows && e.timestamp <= t ==> e.timestamp <= standing.current.timestamp)
              && forall e :: e in standing.history <==> e in rows && t - 2_592_000_000 <= e.timestamp <= t
  {
    BisectCounts(rows, t);
    PrefixIsPast(rows, BisectRight(Times(rows), t), t);
    FilterMember(rows[..BisectRight(Times(rows), t)], NotOlder(t - HISTORY));
  }

  /** The first `n` of the rows are those up to `t`, and the last of them is the latest. */
  lemma PrefixIsPast(rows: seq<Event>, n: nat, t: int)
    requires StrictlyOrdered(rows) && n <= |rows| && forall i :: 0 <= i < |rows| ==> (i < n <==> rows[i].timestamp <= t)
    ensures forall e :: e in rows[..n] <==> e in rows && e.timestamp <= t
    ensures forall e :: e in rows && e.timestamp <= t ==> n > 0 && e.timestamp <= rows[n - 1].timestamp
  {
    forall e | e in rows && e.timestamp <= t ensures n > 0 && e.timestamp <= rows[n - 1].timestamp && e in rows[..n] {
      var i :| 0 <= i < |rows| && rows[i] == e;
      assert rows[..n][i] == e;
    }
    forall e | e in rows[..n] ensures e in rows && e.timestamp <= t {
      var i :| 0 <= i < n && rows[..n][i] == e;
      assert rows[i] == e;
    }
  }

  lemma SliceBetween(rows: seq<Event>, m: nat, n: nat, a: int, b: int)
    requires m <= n <= |rows|
    requires forall i :: 0 <= i < |rows| ==> (i < m <==> rows[i].timestamp <= a) && (i < n <==> rows[i].timestamp <= b)
    ensures forall e :: e in rows[m..n] <==> e in rows && a < e.timestamp <= b
  {
    forall e | e in rows && a < e.timestamp <= b ensures e in rows[m..n] {
      var i :| 0 <= i < |rows| && rows[i] == e;
      assert rows[m..n][i - m] == e;
    }
    forall e | e in rows[m..n] ensures e in rows && a < e.timestamp <= b {
      var i :| 0 <= i < |rows[m..n]| && rows[m..n][i] == e;
      assert rows[m + i] == e;
    }
  }

  /** The charges of a window are the events after its start and no later than its end. */
  lemma ChargesAreInside(rows: seq<Event>, a: int, b: int)
    requires StrictlyOrdered(rows) && a <= b
    ensures forall e :: e in ChargesBetween(rows, a, b) <==> e in rows && a < e.timestamp <= b
    ensures StrictlyOrdered(ChargesBetween(rows, a, b))
  {
    hide StrictlyOrdered;
    BisectCounts(rows, a);
    BisectCounts(rows, b);
    BisectMonotone(Times(rows), a, b);
    SliceBetween(rows, BisectRight(Times(rows), a), BisectRight(Times(rows), b), a, b);
    SliceOrdered(rows, BisectRight(Times(rows), a), BisectRight(Times(rows), b));
  }

  lemma SliceOrdered(rows: seq<Event>, m: nat, n: nat)
    requires StrictlyOrdered(rows) && m <= n <= |rows|
    ensures StrictlyOrdered(rows[m..n])
  {}

  lemma SlicesJoin(rows: seq<Event>, l: nat, m: nat, n: nat)
    requires l <= m <= n <= |rows|
    ensures rows[l..m] + rows[m..n] == rows[l..n]
  {}

  /** Adjacent windows are charged as one: nothing twice, nothing missed. */
  lemma AdjacentWindowsJoin(rows: seq<Event>, a: int, b: int, c: int)
    requires a <= b <= c
    ensures ChargesBetween(rows, a, b) + ChargesBetween(rows, b, c) == ChargesBetween(rows, a, c)
  {
    BisectMonotone(Times(rows), a, b);
    BisectMonotone(Times(rows), b, c);
    var l, m, n := BisectRight(Times(rows), a), BisectRight(Times(rows), b), BisectRight(Times(rows), c);
    SlicesJoin(rows, l, m, n);
  }

  // ---- What a short pays ------------------------------------------------------------------------------

  /** Charges a short can be billed for: marked, after the epoch, strictly ordered. */
  ghost predicate Billable(events: seq<Event>) {
    && StrictlyOrdered(events)
    && forall i :: 0 <= i < |events| ==> events[i].timestamp > 0 && events[i].mark.Some? && events[i].mark.value > 0.0
  }

  /** The bill before scaling by the stop. */
  function Contribution(events: seq<Event>, entry: real): real
    requires entry > 0.0
  {
    if |events| == 0 then 0.0
    else Contribution(events[..|events| - 1], entry) + Charge(events[|events| - 1], entry)
  }

  function Charge(e: Event, entry: real): real
    requires entry > 0.0
  {
    e.rate * e.mark.GetOr(0.0) / entry
  }

  function Round10(x: real): real { Metrics.Round(x, 10000000000.0) }

  method HistoricalShortFundingR(events: seq<Event>, entry: real, stopPct: real) returns (r: Result<real, string>)
    ensures r.Ok? <==> entry > 0.0 && stopPct > 0.0 && Billable(events)
    ensures r.Ok? ==> r.value == Round10(Contribution(events, entry) / (stopPct / 100.0))
  {
    hide Charge;
    if entry <= 0.0 || stopPct <= 0.0 { return Err("invalid historical funding input"); }
    var contribution := 0.0;
    var last: Option<int> := None;
    for i := 0 to |events|
      invariant forall k :: 0 <= k < i ==> events[k].timestamp > 0 && events[k].mark.Some? && events[k].mark.value > 0.0
      invariant forall j, k :: 0 <= j < k < i ==> events[j].timestamp < events[k].timestamp
      invariant last == if i == 0 then None else Some(events[i - 1].timestamp)
      invariant contribution == Contribution(events[..i], entry)
    {
      var e := events[i];
      assert events[..i + 1][..i] == events[..i];
      if e.timestamp <= 0 || e.mark.None? || e.mark.value <= 0.0 { return Err("incomplete historical funding event"); }
      if last.Some? && e.timestamp <= last.value { return Err("historical funding events are not strictly ordered"); }
      last := Some(e.timestamp);
      contribution := contribution + Charge(e, entry);
    }
    assert events[..|events|] == events;
    return Ok(Round10(contribution / (stopPct / 100.0)));
  }

  lemma {:induction false} ContributionsAdd(x: seq<Event>, y: seq<Event>, entry: real)
    requires entry > 0.0
    ensures Contribution(x + y, entry) == Contribution(x, entry) + Contribution(y, entry)
  {
    if |y| == 0 {
      assert x + y == x;
    } else {
      assert (x + y)[..|x + y| - 1] == x + y[..|y| - 1];
      ContributionsAdd(x, y[..|y| - 1], entry);
    }
  }

  /** Holding a position through an intermediate instant costs what the two legs cost. */
  lemma FundingIsAdditive(rows: seq<Event>, a: int, b: int, c: int, entry: real)
    requires a <= b <= c && entry > 0.0
    ensures Contribution(ChargesBetween(rows, a, c), entry) ==
            Contribution(ChargesBetween(rows, a, b), entry) + Contribution(ChargesBetween(rows, b, c), entry)
  {
    AdjacentWindowsJoin(rows, a, b, c);
    ContributionsAdd(ChargesBetween(rows, a, b), ChargesBetween(rows, b, c), entry);
  }
}
