/**
 Derivatives histories: daily metric archives and funding, looked up by time. No lookup sees anything after its instant,
 so the scan reads derivatives without looking ahead either.
 */
module Derivatives {
  import opened Wrappers
  import opened Sequences
  import Funding
  import FundingProperties
  import Candles
  import Scan
  import Evaluate
  import NoLookAhead

  const DAY := 86_400_000
  const ONE_HOUR := 3_600_000
  const TEN_MINUTES := 600_000

  datatype Metric = Metric(timestamp: int, openInterest: Option<real>, takerRatio: Option<real>, topRatio: Option<real>)

  /** The metrics of a symbol on a day, as cached or downloaded; `None` when that fails. */
  type Archive = (string, int) -> Option<seq<Metric>>

  predicate MetricOrder(a: Metric, b: Metric) { a.timestamp <= b.timestamp }

  lemma MetricOrderIsTotal()
    ensures TotalPreorder(MetricOrder)
  {
    forall a, b ensures Comparable(MetricOrder, a, b) {}
    forall a, b, c ensures Chain(MetricOrder, a, b, c) {}
  }

  // ---- Lookups ---------------------------------------------------------------------------------

  function DayOf(t: int): int { t / DAY }

  function OfDay(archive: Archive, symbol: string, day: int): seq<Metric> { archive(symbol, day).GetOr([]) }

  /** The metrics of the day of `t` and the day before. */
  function Gathered(archive: Archive, symbol: string, t: int): seq<Metric> {
    OfDay(archive, symbol, DayOf(t) - 1) + OfDay(archive, symbol, DayOf(t))
  }

  function Stamp(): Metric -> int { (m: Metric) => m.timestamp }

  function LatestOf(rows: seq<Metric>, t: int): Option<Metric> {
    var index := BisectRight(Map(rows, Stamp()), t) - 1;
    if index < 0 || t - rows[index].timestamp > TEN_MINUTES then None else Some(rows[index])
  }

  function MetricAt(archive: Archive, symbol: string, t: int): Option<Metric> {
    LatestOf(StableSort(Gathered(archive, symbol, t), MetricOrder), t)
  }

  /** `_days` of one run. */
  class HistoricalDerivatives {
    const archive: Archive
    var days: map<(string, int), Option<seq<Metric>>>

    ghost predicate Valid()
      reads this
    {
      forall key :: key in days ==> days[key] == archive(key.0, key.1)
    }

    constructor (archive: Archive)
      ensures Valid() && this.archive == archive
    {
      this.archive := archive;
      days := map[];
    }

    method RowsForEntry(symbol: string, timestamp: int) returns (rows: seq<Metric>)
      requires Valid()
      modifies this
      ensures Valid() && rows == StableSort(Gathered(archive, symbol, timestamp), MetricOrder)
    {
      rows := [];
      var today := DayOf(timestamp);
      for day := today - 1 to today + 1
        invariant Valid()
        invariant rows == if day == today - 1 then [] else if day == today then OfDay(archive, symbol, today - 1)
                          else Gathered(archive, symbol, timestamp)
      {
        if (symbol, day) !in days { days := days[(symbol, day) := archive(symbol, day)]; }
        if days[(symbol, day)].Some? { rows := rows + days[(symbol, day)].value; }
      }
      rows := StableSort(rows, MetricOrder);
    }

    method AtOrBefore(symbol: string, timestamp: int) returns (m: Option<Metric>)
      requires Valid()
      modifies this
      ensures Valid() && m == MetricAt(archive, symbol, timestamp)
    {
      var rows := RowsForEntry(symbol, timestamp);
      if |rows| == 0 { return None; }
      var index := BisectRight(Map(rows, Stamp()), timestamp) - 1;
      if index < 0 { return None; }
      return if timestamp - rows[index].timestamp <= TEN_MINUTES then Some(rows[index]) else None;
    }
  }

  // ---- A lookup is decided by what is not after it -----------------------------------------------------

  function UpTo<T>(time: T -> int, t: int): T -> bool { x => time(x) <= t }

  ghost predicate Timed<T>(rows: seq<T>, time: T -> int) { forall i, j :: 0 <= i < j < |rows| ==> time(rows[i]) <= time(rows[j]) }

  lemma AllUpToTheLast<T>(rows: seq<T>, time: T -> int)
    requires Timed(rows, time) && |rows| > 0
    ensures forall x :: x in rows ==> time(x) <= time(rows[|rows| - 1])
  {
    forall x | x in rows ensures time(x) <= time(rows[|rows| - 1]) {
      var k :| 0 <= k < |rows| && rows[k] == x;
      assert k < |rows| - 1 ==> time(rows[k]) <= time(rows[|rows| - 1]);
    }
  }

  /** Bisection in rows ordered by time selects those up to the instant. */
  lemma {:induction false} BisectUpTo<T>(rows: seq<T>, time: T -> int, t: int)
    requires Timed(rows, time)
    ensures rows[..BisectRight(Map(rows, time), t)] == Filter(rows, UpTo(time, t))
  {
    if |rows| > 0 {
      var init, last := rows[..|rows| - 1], rows[|rows| - 1];
      assert Map(rows, time)[..|rows| - 1] == Map(init, time);
      if time(last) <= t {
        AllUpToTheLast(rows, time);
        FilterAll(rows, UpTo(time, t));
      } else {
        BisectUpTo(init, time, t);
        var n := BisectRight(Map(init, time), t);
        assert init[..n] == rows[..n];
      }
    }
  }

  lemma SortedMetricsTimed(rows: seq<Metric>)
    ensures Timed(StableSort(rows, MetricOrder), Stamp())
  {
    MetricOrderIsTotal();
    StableSortSorts(rows, MetricOrder);
    var sorted := StableSort(rows, MetricOrder);
    forall i, j | 0 <= i < j < |sorted| ensures Stamp()(sorted[i]) <= Stamp()(sorted[j]) {
      assert MetricOrder(sorted[i], sorted[j]);
    }
  }

  /** The latest metric up to `t`, of rows already cut off there. */
  function LastWithin(past: seq<Metric>, t: int): Option<Metric> {
    if |past| == 0 || t - past[|past| - 1].timestamp > TEN_MINUTES then None else Some(past[|past| - 1])
  }

  lemma LookupReadsThePast(archive: Archive, symbol: string, t: int)
    ensures MetricAt(archive, symbol, t) ==
            LastWithin(StableSort(Filter(Gathered(archive, symbol, t), UpTo(Stamp(), t)), MetricOrder), t)
  {
    hide Gathered, StableSort, Filter;
    var rows := Gathered(archive, symbol, t);
    SortedMetricsTimed(rows);
    MetricOrderIsTotal();
    SortFilter(rows, UpTo(Stamp(), t), MetricOrder);
    LatestReadsThePast(StableSort(rows, MetricOrder), t);
  }

  lemma LatestReadsThePast(sorted: seq<Metric>, t: int)
    requires Timed(sorted, Stamp())
    ensures LatestOf(sorted, t) == LastWithin(Filter(sorted, UpTo(Stamp(), t)), t)
  {
    hide BisectRight, Filter, Timed;
    BisectUpTo(sorted, Stamp(), t);
    var n := BisectRight(Map(sorted, Stamp()), t);
    BisectInside(Map(sorted, Stamp()), t);
    if n > 0 { assert sorted[..n][n - 1] == sorted[n - 1]; }
  }

  /**
   A lookup finds a metric if and only if one of the day or the day before lies within the ten minutes up to the
   instant, and then none of them lies between it and the instant.
   */
  lemma MetricIsLatest(archive: Archive, symbol: string, t: int)
    ensures MetricAt(archive, symbol, t).Some? <==>
            exists m :: m in Gathered(archive, symbol, t) && t - 600_000 <= m.timestamp <= t
    ensures MetricAt(archive, symbol, t).Some? ==>
              var found := MetricAt(archive, symbol, t).value;
              && found in Gathered(archive, symbol, t) && t - 600_000 <= found.timestamp <= t
              && forall m :: m in Gathered(archive, symbol, t) && m.timestamp <= t ==> m.timestamp <= found.timestamp
  {
    hide MetricAt, Gathered;
    var rows := Gathered(archive, symbol, t);
    LookupReadsThePast(archive, symbol, t);
    FilterMember(rows, UpTo(Stamp(), t));
    MetricOrderIsTotal();
    LastIsLatest(Filter(rows, UpTo(Stamp(), t)));
    var past := StableSort(Filter(rows, UpTo(Stamp(), t)), MetricOrder);
    if |past| > 0 { assert past[|past| - 1] in past; }
  }

  lemma LastIsLatest(rows: seq<Metric>)
    ensures var sorted := StableSort(rows, MetricOrder);
            && (forall m :: m in sorted <==> m in rows)
            && forall m :: m in rows ==> |sorted| > 0 && m.timestamp <= sorted[|sorted| - 1].timestamp
  {
    MetricOrderIsTotal();
    StableSortMember(rows, MetricOrder);
    SortedMetricsTimed(rows);
    var sorted := StableSort(rows, MetricOrder);
    forall m | m in rows ensures |sorted| > 0 && m.timestamp <= sorted[|sorted| - 1].timestamp {
      assert m in sorted;
      var i :| 0 <= i < |sorted| && sorted[i] == m;
      assert i < |sorted| - 1 ==> Stamp()(sorted[i]) <= Stamp()(sorted[|sorted| - 1]);
    }
  }

  // ---- Histories that agree up to an instant -------------------------------------------------------------

  ghost predicate ArchivesAgree(a: Archive, b: Archive, symbol: string, t: int) {
    forall day :: Filter(OfDay(a, symbol, day), UpTo(Stamp(), t)) == Filter(OfDay(b, symbol, day), UpTo(Stamp(), t))
  }

  lemma MetricsAgree(a: Archive, b: Archive, symbol: string, t: int, u: int)
    requires ArchivesAgree(a, b, symbol, t) && u <= t
    ensures MetricAt(a, symbol, u) == MetricAt(b, symbol, u)
  {
    hide MetricAt, OfDay;
    LookupReadsThePast(a, symbol, u);
    LookupReadsThePast(b, symbol, u);
    var p := UpTo(Stamp(), u);
    FilterConcat(OfDay(a, symbol, DayOf(u) - 1), OfDay(a, symbol, DayOf(u)), p);
    FilterConcat(OfDay(b, symbol, DayOf(u) - 1), OfDay(b, symbol, DayOf(u)), p);
    forall day ensures Filter(OfDay(a, symbol, day), p) == Filter(OfDay(b, symbol, day), p) {
      FilterWithin(OfDay(a, symbol, day), OfDay(b, symbol, day), p, UpTo(Stamp(), t));
    }
  }

  function EventTime(): Funding.Event -> int { (e: Funding.Event) => e.timestamp }

  /** What a standing says, read from the events up to the instant alone. */
  function StandingOf(past: seq<Funding.Event>, t: int): Option<Funding.Standing> {
    if |past| == 0 || t - past[|past| - 1].timestamp > Funding.EIGHT_HOURS then None
    else Some(Funding.Standing(past[|past| - 1], Filter(past, Funding.NotOlder(t - Funding.HISTORY))))
  }

  lemma StandingReadsThePast(rows: seq<Funding.Event>, t: int)
    requires FundingProperties.StrictlyOrdered(rows)
    ensures Funding.StandingAt(rows, t) == StandingOf(Filter(rows, UpTo(EventTime(), t)), t)
  {
    hide FundingProperties.StrictlyOrdered, Timed, Filter, BisectRight;
    assert Funding.Times(rows) == Map(rows, EventTime());
    EventsTimed(rows);
    BisectUpTo(rows, EventTime(), t);
    BisectInside(Funding.Times(rows), t);
    var n := BisectRight(Funding.Times(rows), t);
    if n > 0 { assert rows[..n][n - 1] == rows[n - 1]; }
  }

  lemma EventsTimed(rows: seq<Funding.Event>)
    requires FundingProperties.StrictlyOrdered(rows)
    ensures Timed(rows, EventTime())
  {}

  lemma BisectInside(s: seq<int>, t: int)
    ensures BisectRight(s, t) <= |s|
  {}

  lemma StandingsAgree(a: seq<Funding.Event>, b: seq<Funding.Event>, t: int, u: int)
    requires FundingProperties.StrictlyOrdered(a) && FundingProperties.StrictlyOrdered(b) && u <= t
    requires Filter(a, UpTo(EventTime(), t)) == Filter(b, UpTo(EventTime(), t))
    ensures Funding.StandingAt(a, u) == Funding.StandingAt(b, u)
  {
    StandingReadsThePast(a, u);
    StandingReadsThePast(b, u);
    FilterWithin(a, b, UpTo(EventTime(), u), UpTo(EventTime(), t));
  }

  // ---- The scan over histories ------------------------------------------------------------------------

  /** `funding` is the remembered history of the symbol, `None` when there is none. */
  datatype Histories = Histories(archive: Archive, funding: Option<seq<Funding.Event>>)

  /** The numeric rules, as functions of what the lookups find. */
  datatype Formulas = Formulas(
    score: (Funding.Standing, Metric, Metric, int) -> Option<Scan.Derivatives>,
    context: (Metric, Metric) -> Option<Scan.Derivatives>)

  function ScoreV2At(h: Histories, f: Formulas, symbol: string, t: int): Option<Scan.Derivatives> {
    var funding := Funding.StandingAt(h.funding.GetOr([]), t);
    var current, previous := MetricAt(h.archive, symbol, t), MetricAt(h.archive, symbol, t - ONE_HOUR);
    if funding.None? || current.None? || previous.None? then None else f.score(funding.value, current.value, previous.value, t)
  }

  function ContextAt(h: Histories, f: Formulas, symbol: string, t: int): Option<Scan.Derivatives> {
    var current, previous := MetricAt(h.archive, symbol, t), MetricAt(h.archive, symbol, t - ONE_HOUR);
    if current.None? || previous.None? then None else f.context(current.value, previous.value)
  }

  /** A metric of the day of `t` or the day before, the latest up to `t` and within ten minutes of it. */
  ghost predicate LatestWithin(archive: Archive, symbol: string, t: int, m: Metric) {
    var rows := archive(symbol, t / 86_400_000 - 1).GetOr([]) + archive(symbol, t / 86_400_000).GetOr([]);
    && m in rows && t - 600_000 <= m.timestamp <= t
    && forall other :: other in rows && other.timestamp <= t ==> other.timestamp <= m.timestamp
  }

  ghost predicate HasLatest(archive: Archive, symbol: string, t: int) { exists m :: LatestWithin(archive, symbol, t, m) }

  /**
   Derivatives of Score V2 are computed from the funding standing and the latest metrics now and an hour ago; the others
   from the two metrics alone. If one of them is missing there are none.
   */
  lemma DerivativesRead(h: Histories, f: Formulas, symbol: string, t: int)
    ensures ScoreV2At(h, f, symbol, t).Some? ==> exists now, before ::
              && LatestWithin(h.archive, symbol, t, now) && LatestWithin(h.archive, symbol, t - 3_600_000, before)
              && Funding.StandingAt(h.funding.GetOr([]), t).Some?
              && ScoreV2At(h, f, symbol, t) == f.score(Funding.StandingAt(h.funding.GetOr([]), t).value, now, before, t)
    ensures ContextAt(h, f, symbol, t).Some? ==> exists now, before ::
              && LatestWithin(h.archive, symbol, t, now) && LatestWithin(h.archive, symbol, t - 3_600_000, before)
              && ContextAt(h, f, symbol, t) == f.context(now, before)
    ensures !HasLatest(h.archive, symbol, t) || !HasLatest(h.archive, symbol, t - 3_600_000) ==>
              ScoreV2At(h, f, symbol, t).None? && ContextAt(h, f, symbol, t).None?
  {
    hide Funding.StandingAt, MetricAt, LatestWithin;
    FoundIsLatest(h.archive, symbol, t);
    FoundIsLatest(h.archive, symbol, t - 3_600_000);
  }

  lemma FoundIsLatest(archive: Archive, symbol: string, t: int)
    ensures MetricAt(archive, symbol, t).Some? ==> LatestWithin(archive, symbol, t, MetricAt(archive, symbol, t).value)
  {
    hide MetricAt;
    MetricIsLatest(archive, symbol, t);
  }

  /** The rules reading these histories; without any, there are no derivatives. */
  function Reading(rules: Evaluate.Rules, h: Option<Histories>, f: Formulas, symbol: string): Evaluate.Rules {
    rules.(
      scoreV2Context := t => if h.None? then None else ScoreV2At(h.value, f, symbol, t),
      context := t => if h.None? then None else ContextAt(h.value, f, symbol, t))
  }

  /** Histories in which nothing differs up to `t`. */
  ghost predicate HistoriesAgree(x: Option<Histories>, y: Option<Histories>, symbol: string, t: int) {
    && (x.None? <==> y.None?)
    && (x.Some? ==>
          && ArchivesAgree(x.value.archive, y.value.archive, symbol, t)
          && FundingProperties.StrictlyOrdered(x.value.funding.GetOr([]))
          && FundingProperties.StrictlyOrdered(y.value.funding.GetOr([]))
          && Filter(x.value.funding.GetOr([]), UpTo(EventTime(), t)) == Filter(y.value.funding.GetOr([]), UpTo(EventTime(), t)))
  }

  lemma ReadingsAgree(rules: Evaluate.Rules, x: Option<Histories>, y: Option<Histories>, f: Formulas, symbol: string, t: int)
    requires HistoriesAgree(x, y, symbol, t)
    ensures NoLookAhead.RulesAgree(Reading(rules, x, f, symbol), Reading(rules, y, f, symbol), t)
  {
    hide MetricAt, Funding.StandingAt, ArchivesAgree, Filter;
    var p, q := Reading(rules, x, f, symbol), Reading(rules, y, f, symbol);
    if x.Some? {
      forall u | u <= t ensures p.scoreV2Context(u) == q.scoreV2Context(u) && p.context(u) == q.context(u) {
        MetricsAgree(x.value.archive, y.value.archive, symbol, t, u);
        MetricsAgree(x.value.archive, y.value.archive, symbol, t, u - ONE_HOUR);
        StandingsAgree(x.value.funding.GetOr([]), y.value.funding.GetOr([]), t, u);
      }
    }
  }

  /**
   Two equally long gapless series, with macro series, metric archives and funding histories, that agree up to row `i`
   yield the same decisions up to row `i`, in either mode: what any of them holds later is not looked at.
   */
  lemma ScanDoesNotLookAhead(a: seq<Candles.Row>, b: seq<Candles.Row>, ma: Option<seq<seq<Candles.Row>>>,
                             mb: Option<seq<seq<Candles.Row>>>, x: Option<Histories>, y: Option<Histories>, s: Scan.Settings,
                             mode: Scan.Mode, rules: Evaluate.Rules, f: Formulas, i: nat)
    requires Candles.Spaced(a) && Candles.Spaced(b) && |a| == |b| && i < |a| && a[..i + 1] == b[..i + 1]
    requires NoLookAhead.MacroAgrees(ma, mb, Evaluate.CloseTime(a[i])) && HistoriesAgree(x, y, s.symbol, Evaluate.CloseTime(a[i]))
    requires Evaluate.Evaluated(a, ma, s, mode, Reading(rules, x, f, s.symbol)).Ok?
    requires Evaluate.Evaluated(b, mb, s, mode, Reading(rules, y, f, s.symbol)).Ok?
    ensures var (p, q) := (Evaluate.Evaluated(a, ma, s, mode, Reading(rules, x, f, s.symbol)).value,
                           Evaluate.Evaluated(b, mb, s, mode, Reading(rules, y, f, s.symbol)).value);
            Filter(Map(p, NoLookAhead.DecisionOf()), NoLookAhead.DecidedBy(Evaluate.CloseTime(a[i]))) ==
            Filter(Map(q, NoLookAhead.DecisionOf()), NoLookAhead.DecidedBy(Evaluate.CloseTime(a[i])))
  {
    hide Evaluate.Evaluated, Reading, HistoriesAgree;
    ReadingsAgree(rules, x, y, f, s.symbol, Evaluate.CloseTime(a[i]));
    NoLookAhead.EvaluateDoesNotLookAhead(a, b, ma, mb, s, mode, Reading(rules, x, f, s.symbol), Reading(rules, y, f, s.symbol), i);
  }
}
