/** Funding in the words of its records: which rows stand for an event, when the exchange is asked, and what a short is billed. */
module FundingTerms {
  import opened Wrappers
  import opened Sequences
  import opened Funding
  import FundingProperties

  // ---- Rows ------------------------------------------------------------------------------------

  /** The row gives a time after the epoch and a rate; its mark is absent or positive; its source is named or the default. */
  predicate StandsFor(r: Raw, url: int, e: Event) {
    && r.time == Some(e.timestamp) && e.timestamp > 0 && r.rate == Some(e.rate)
    && e.source == (if r.source.Some? then r.source.value else url)
    && match r.mark
       case Unlisted => e.mark == None
       case Unusable => false
       case Price(p) => p > 0.0 && e.mark == Some(p)
  }

  lemma NormalisedMeans(r: Raw, url: int, e: Event)
    ensures Normalised(r, url) == Some(e) <==> StandsFor(r, url, e)
  {}

  /** Every row stands for an event. */
  ghost predicate AllStand(rows: seq<Raw>, url: int) { forall i :: 0 <= i < |rows| ==> Stands(rows[i], url) }

  ghost predicate Stands(r: Raw, url: int) { exists e :: StandsFor(r, url, e) }

  lemma StandsMeans(r: Raw, url: int)
    ensures Stands(r, url) <==> Normalised(r, url).Some?
  {
    if Normalised(r, url).Some? { NormalisedMeans(r, url, Normalised(r, url).value); }
    if Stands(r, url) {
      var e :| StandsFor(r, url, e);
      NormalisedMeans(r, url, e);
    }
  }

  /** Rows that give the same time stand for the same event. */
  ghost predicate Agree(rows: seq<Raw>, url: int) {
    forall i, j, d, e :: 0 <= i < |rows| && 0 <= j < |rows| && StandsFor(rows[i], url, d) && StandsFor(rows[j], url, e) ==>
      d.timestamp == e.timestamp ==> d == e
  }

  lemma AllStandMeans(rows: seq<Raw>, url: int)
    ensures AllStand(rows, url) <==> FundingProperties.Sound(rows, url)
    ensures forall e :: FundingProperties.Stems(e, rows, url) <==> exists i :: 0 <= i < |rows| && StandsFor(rows[i], url, e)
  {
    hide Normalised, StandsFor, Stands;
    forall r, e ensures Normalised(r, url) == Some(e) <==> StandsFor(r, url, e) { NormalisedMeans(r, url, e); }
    forall i | 0 <= i < |rows| ensures Normalised(rows[i], url).Some? <==> Stands(rows[i], url) {
      StandsMeans(rows[i], url);
    }
    forall e, i | 0 <= i < |rows| && StandsFor(rows[i], url, e) ensures FundingProperties.Stems(e, rows, url) {}
  }

  lemma AgreeMeans(rows: seq<Raw>, url: int)
    requires FundingProperties.Sound(rows, url)
    ensures Agree(rows, url) <==> FundingProperties.Consistent(rows, url)
  {
    hide Normalised, StandsFor;
    forall r, e ensures Normalised(r, url) == Some(e) <==> StandsFor(r, url, e) { NormalisedMeans(r, url, e); }
    forall r, d | StandsFor(r, url, d) ensures r.time == Some(d.timestamp) { StandingTime(r, url, d); }
    if Agree(rows, url) {
      forall i, j | 0 <= i < |rows| && 0 <= j < |rows| && rows[i].time == rows[j].time
        ensures Normalised(rows[i], url) == Normalised(rows[j], url)
      {
        var d, e := Normalised(rows[i], url).value, Normalised(rows[j], url).value;
        assert StandsFor(rows[i], url, d) && StandsFor(rows[j], url, e);
      }
    }
    if FundingProperties.Consistent(rows, url) {
      forall i, j, d, e | 0 <= i < |rows| && 0 <= j < |rows| && StandsFor(rows[i], url, d) && StandsFor(rows[j], url, e)
        ensures d.timestamp == e.timestamp ==> d == e
      {
        assert Normalised(rows[i], url) == Some(d) && Normalised(rows[j], url) == Some(e);
      }
    }
  }

  /**
   Rows parse to a history if and only if each stands for an event and no two that give the same time differ; the history
   is in strict order of time and holds exactly their events.
   */
  lemma HistoryMeans(rows: seq<Raw>, url: int)
    ensures Parsed(rows, url).Some? <==> AllStand(rows, url) && Agree(rows, url)
    ensures Parsed(rows, url).Some? ==>
              var events := Parsed(rows, url).value;
              && (forall i, j :: 0 <= i < j < |events| ==> events[i].timestamp < events[j].timestamp)
              && forall e :: e in events <==> exists i :: 0 <= i < |rows| && StandsFor(rows[i], url, e)
  {
    hide Normalised, StandsFor, Parsed, AllStand, Agree, FundingProperties.Sound, FundingProperties.Consistent,
         FundingProperties.Stems;
    FundingProperties.ParsedExactly(rows, url);
    AllStandMeans(rows, url);
    if AllStand(rows, url) { AgreeMeans(rows, url); }
  }

  lemma StandingTime(r: Raw, url: int, e: Event)
    requires StandsFor(r, url, e)
    ensures r.time == Some(e.timestamp)
  {}

  // ---- When the exchange is asked -----------------------------------------------------------------

  /** A document that was retrieved from the same start and reaches the end. */
  predicate Covers(file: Cache, from: int, end: int) {
    && file.Document? && file.rows.Some?
    && file.requestedStart == Some(from) && file.coverageEnd.Some? && file.coverageEnd.value >= end
  }

  function Silent(): Server { (n, from) => Unavailable }

  /**
   The exchange is not asked when the cache covers the thirty days before the start up to the end, or reaches past the
   end; otherwise there is no history without its answer.
   */
  lemma ExchangeIsAskedExactly(file: Cache, start: int, end: int)
    requires start < end
    ensures var from := start - 2_592_000_000;
            && (Covers(file, from, end) ==>
                  forall serve :: RowsOf(file, serve, Some(start), Some(end)) == RowsOf(file, Silent(), Some(start), Some(end)))
            && (!Covers(file, from, end) && (forall r :: r in Cached(file, from, end).0 ==> r.time.Some? && r.time.value < end) ==>
                  RowsOf(file, Silent(), Some(start), Some(end)) == None)
  {
    var from := start - 2_592_000_000;
    var (rows, covered) := Cached(file, from, end);
    assert covered <==> Covers(file, from, end);
    if forall r :: r in rows ==> r.time.Some? && r.time.value < end { LatestBefore(rows, from - 1, end); }
  }

  lemma {:induction false} LatestBefore(rows: seq<Raw>, default: int, end: int)
    requires default < end && forall r :: r in rows ==> r.time.Some? && r.time.value < end
    ensures Latest(rows, default).Some? && Latest(rows, default).value < end
  {
    if |rows| > 0 {
      LatestBefore(rows[..|rows| - 1], default, end);
      assert rows[|rows| - 1] in rows;
    }
  }

  /** The row came with the reply to the request from `cursor` on, which is the source it now names. */
  ghost predicate Received(serve: Server, r: Raw, from: int, end: int) {
    && r.source.Some? && from <= r.source.value <= end
    && exists n: nat :: Replied(serve, n, r)
  }

  ghost predicate Replied(serve: Server, n: nat, r: Raw)
    requires r.source.Some?
  {
    && serve(n, r.source.value).Page?
    && exists own :: own in serve(n, r.source.value).rows && r == own.(source := r.source)
  }

  /** A retrieval keeps the rows it starts from and adds rows that each name the request they came with. */
  lemma {:induction false} GatheredRowsNameTheirRequest(serve: Server, n: nat, cursor: int, end: int, rows: seq<Raw>,
                                                        gathered: seq<Raw>)
    requires Gathered(serve, n, cursor, end, rows) == Some(gathered)
    ensures rows <= gathered && forall i :: |rows| <= i < |gathered| ==> Received(serve, gathered[i], cursor, end)
    decreases if cursor > end then 0 else end - cursor + 1
  {
    hide Latest;
    if cursor <= end && |serve(n, cursor).rows| > 0 {
      var page := serve(n, cursor).rows;
      var more := rows + Tagged(page, cursor);
      forall k | 0 <= k < |page| ensures Received(serve, Tagged(page, cursor)[k], cursor, end) {
        assert page[k] in page && Tagged(page, cursor)[k] == page[k].(source := Some(cursor));
        assert Replied(serve, n, Tagged(page, cursor)[k]);
      }
      if |page| >= PAGE_LIMIT {
        GatheredRowsNameTheirRequest(serve, n + 1, Latest(page, cursor).value + 1, end, more, gathered);
      }
      forall i | |rows| <= i < |more| ensures gathered[i] == Tagged(page, cursor)[i - |rows|] {
        assert more[i] == Tagged(page, cursor)[i - |rows|];
      }
    }
  }

  // ---- The bill -------------------------------------------------------------------------------------

  /** What each event adds: the rate on the mark, per unit of the entry. */
  function Payments(events: seq<Event>, entry: real): (p: seq<real>)
    requires entry > 0.0 && forall i :: 0 <= i < |events| ==> events[i].mark.Some?
    ensures |p| == |events|
  {
    seq(|events|, i requires 0 <= i < |events| => Payment(events[i], entry))
  }

  function Payment(e: Event, entry: real): real
    requires entry > 0.0 && e.mark.Some?
  {
    e.rate * e.mark.value / entry
  }

  lemma ChargeMeans(e: Event, entry: real)
    requires entry > 0.0 && e.mark.Some?
    ensures FundingProperties.Charge(e, entry) == Payment(e, entry)
  {}

  /** A short receives the rate on the mark of each event: the bill is the sum, rounded, per unit of the stop. */
  lemma {:induction false} BillMeans(events: seq<Event>, entry: real)
    requires entry > 0.0 && forall i :: 0 <= i < |events| ==> events[i].mark.Some?
    ensures IsSum(Payments(events, entry), FundingProperties.Contribution(events, entry))
  {
    hide IsSum, Payment, FundingProperties.Charge;
    if |events| == 0 {
      NoTerms();
      assert Payments(events, entry) == [];
    } else {
      var init, last := events[..|events| - 1], events[|events| - 1];
      BillMeans(init, entry);
      ChargeMeans(last, entry);
      assert Payments(events, entry) == Payments(init, entry) + [Payment(last, entry)];
      OneMoreTerm(Payments(init, entry), FundingProperties.Contribution(init, entry), Payment(last, entry));
    }
  }
}
