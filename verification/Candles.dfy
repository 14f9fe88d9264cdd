/** Five-minute candles, their aggregation into longer bars, and the bars closed by an instant. */
module Candles {
  import opened Wrappers
  import opened Sequences

  const FIVE_MINUTES := 300_000

  datatype Row = Row(ts: int, open: real, high: real, low: real, close: real, volume: real, quoteVolume: real)

  datatype Bar = Bar(start: int, open: real, high: real, low: real, close: real, volume: real)

  // ---- Validation --------------------------------------------------------------

  predicate Spaced(rows: seq<Row>) {
    forall i :: 0 <= i < |rows| - 1 ==> rows[i + 1].ts - rows[i].ts == FIVE_MINUTES
  }

  predicate SoundRow(r: Row) {
    && r.ts > 0 && r.open > 0.0 && r.high > 0.0 && r.low > 0.0 && r.close > 0.0
    && r.volume >= 0.0 && r.quoteVolume >= 0.0
    && r.high >= r.open && r.high >= r.close && r.low <= r.open && r.low <= r.close
  }

  function InsideWindow(start: int, end: int): Row -> bool {
    (r: Row) => start <= r.ts && r.ts + FIVE_MINUTES <= end
  }

  /** `None` for a series too short, with a gap, or with an impossible candle. */
  function ValidCandles(rows: seq<Row>, start: int, end: int): Option<seq<Row>> {
    var kept := Filter(rows, InsideWindow(start, end));
    if |kept| < 100 || !Spaced(kept) || exists r :: r in kept && !SoundRow(r) then None else Some(kept)
  }

  lemma {:induction false} ConsecutiveTimes(rows: seq<Row>, i: nat, j: nat)
    requires Spaced(rows) && i <= j < |rows|
    ensures rows[j].ts == rows[i].ts + (j - i) * FIVE_MINUTES
    decreases j - i
  {
    if i < j { ConsecutiveTimes(rows, i, j - 1); }
  }

  // ---- Aggregation ----------------------------------------------------------------

  function BucketStart(ts: int, period: int): int
    requires period > 0
  {
    ts - ts % period
  }

  function InBucket(start: int, period: int): Row -> bool
    requires period > 0
  {
    (r: Row) => BucketStart(r.ts, period) == start
  }

  function Bucket(rows: seq<Row>, period: int, start: int): seq<Row>
    requires period > 0
  {
    Filter(rows, InBucket(start, period))
  }

  /** The bucket starts in order of first appearance. */
  function Starts(rows: seq<Row>, period: int): seq<int>
    requires period > 0
  {
    if |rows| == 0 then []
    else
      var before := Starts(rows[..|rows| - 1], period);
      var start := BucketStart(rows[|rows| - 1].ts, period);
      if start in before then before else before + [start]
  }

  function Highest(rows: seq<Row>): real
    requires |rows| > 0
  {
    if |rows| == 1 then rows[0].high
    else var h := Highest(rows[..|rows| - 1]); if h < rows[|rows| - 1].high then rows[|rows| - 1].high else h
  }

  function Lowest(rows: seq<Row>): real
    requires |rows| > 0
  {
    if |rows| == 1 then rows[0].low
    else var l := Lowest(rows[..|rows| - 1]); if rows[|rows| - 1].low < l then rows[|rows| - 1].low else l
  }

  function Volume(rows: seq<Row>): real {
    if |rows| == 0 then 0.0 else Volume(rows[..|rows| - 1]) + rows[|rows| - 1].volume
  }

  /** The bar of a complete bucket; an incomplete one is dropped. */
  function BarOf(group: seq<Row>, start: int, multiplier: int): Option<Bar> {
    if |group| != multiplier || multiplier < 1 || group[0].ts != start || !Spaced(group) then None
    else Some(Bar(start, group[0].open, Highest(group), Lowest(group), group[|group| - 1].close, Volume(group)))
  }

  predicate IntOrder(a: int, b: int) { a <= b }

  function Bars(rows: seq<Row>, multiplier: int, starts: seq<int>): seq<Bar>
    requires multiplier > 0
  {
    if |starts| == 0 then []
    else
      var start := starts[|starts| - 1];
      var before := Bars(rows, multiplier, starts[..|starts| - 1]);
      var bar := BarOf(Bucket(rows, FIVE_MINUTES * multiplier, start), start, multiplier);
      if bar.Some? then before + [bar.value] else before
  }

  function Resampled(rows: seq<Row>, multiplier: int): seq<Bar>
    requires multiplier > 0
  {
    Bars(rows, multiplier, StableSort(Starts(rows, FIVE_MINUTES * multiplier), IntOrder))
  }

  /** `defaultdict(list)` keeps its keys in insertion order, here `order`. */
  method Resample(rows: seq<Row>, multiplier: int) returns (result: seq<Bar>)
    requires multiplier > 0
    ensures result == Resampled(rows, multiplier)
  {
    var period := FIVE_MINUTES * multiplier;
    var buckets: map<int, seq<Row>> := map[];
    var order: seq<int> := [];
    for i := 0 to |rows|
      invariant order == Starts(rows[..i], period)
      invariant forall s :: s in buckets <==> s in order
      invariant forall s :: s in buckets ==> buckets[s] == Bucket(rows[..i], period, s)
      invariant forall s :: s !in buckets ==> Bucket(rows[..i], period, s) == []
    {
      var start := BucketStart(rows[i].ts, period);
      assert rows[..i + 1][..i] == rows[..i];
      if start in buckets {
        buckets := buckets[start := buckets[start] + [rows[i]]];
      } else {
        buckets := buckets[start := [rows[i]]];
        order := order + [start];
      }
    }
    assert rows[..|rows|] == rows;
    IntOrderIsTotal();
    StableSortMember(order, IntOrder);
    var sorted := StableSort(order, IntOrder);
    result := [];
    for i := 0 to |sorted|
      invariant result == Bars(rows, multiplier, sorted[..i])
    {
      assert sorted[..i + 1][..i] == sorted[..i];
      var start := sorted[i];
      assert start in sorted;
      var group := buckets[start];
      if |group| != multiplier || group[0].ts != start || !Spaced(group) {
        continue;
      }
      result := result + [Bar(start, group[0].open, Highest(group), Lowest(group), group[|group| - 1].close, Volume(group))];
    }
    assert sorted[..|sorted|] == sorted;
  }

  lemma IntOrderIsTotal()
    ensures TotalPreorder(IntOrder)
  {
    forall a, b ensures Comparable(IntOrder, a, b) {}
    forall a, b, c ensures Chain(IntOrder, a, b, c) {}
  }

  // ---- Bars closed by an instant ------------------------------------------------------

  /** Bars that have closed by `t`. */
  function ClosedBy(t: int, multiplier: int): Bar -> bool {
    (b: Bar) => b.start + FIVE_MINUTES * multiplier <= t
  }

  function StartsBy(t: int, multiplier: int): int -> bool { s => s + FIVE_MINUTES * multiplier <= t }

  /** Candles that have opened before `t`. */
  function OpenedBefore(t: int): Row -> bool { (r: Row) => r.ts < t }

  lemma BucketSpan(ts: int, period: int)
    requires period > 0
    ensures BucketStart(ts, period) <= ts < BucketStart(ts, period) + period
  {}

  lemma {:induction false} StartsKnown(rows: seq<Row>, multiplier: int, t: int)
    requires multiplier > 0
    ensures var p := FIVE_MINUTES * multiplier;
            Filter(Starts(rows, p), StartsBy(t, multiplier)) ==
            Filter(Starts(Filter(rows, OpenedBefore(t)), p), StartsBy(t, multiplier))
  {
    if |rows| > 0 {
      var p, closing := FIVE_MINUTES * multiplier, StartsBy(t, multiplier);
      var init, last := rows[..|rows| - 1], rows[|rows| - 1];
      StartsKnown(init, multiplier, t);
      var known := Filter(init, OpenedBefore(t));
      var start := BucketStart(last.ts, p);
      BucketSpan(last.ts, p);
      FilterMember(Starts(init, p), closing);
      FilterMember(Starts(known, p), closing);
      FilterAppend(Starts(init, p), start, closing);
      FilterAppend(Starts(known, p), start, closing);
      if last.ts < t {
        assert (known + [last])[..|known|] == known;
        if closing(start) {
          assert start in Starts(init, p) <==> start in Filter(Starts(init, p), closing);
          assert start in Starts(known, p) <==> start in Filter(Starts(known, p), closing);
        }
      }
    }
  }

  lemma {:induction false} BarsKnown(rows: seq<Row>, multiplier: int, starts: seq<int>, t: int)
    requires multiplier > 0
    ensures Filter(Bars(rows, multiplier, starts), ClosedBy(t, multiplier)) ==
            Bars(Filter(rows, OpenedBefore(t)), multiplier, Filter(starts, StartsBy(t, multiplier)))
  {
    if |starts| > 0 {
      var p := FIVE_MINUTES * multiplier;
      var init, start := starts[..|starts| - 1], starts[|starts| - 1];
      BarsKnown(rows, multiplier, init, t);
      var bar := BarOf(Bucket(rows, p, start), start, multiplier);
      if bar.Some? { FilterAppend(Bars(rows, multiplier, init), bar.value, ClosedBy(t, multiplier)); }
      if StartsBy(t, multiplier)(start) {
        BucketKnown(rows, p, start, t);
        var f := Filter(init, StartsBy(t, multiplier));
        assert (f + [start])[..|f|] == f;
      }
    }
  }

  /** A bucket that ends by `t` holds only candles opened before `t`. */
  lemma BucketKnown(rows: seq<Row>, period: int, start: int, t: int)
    requires period > 0 && start + period <= t
    ensures Bucket(rows, period, start) == Bucket(Filter(rows, OpenedBefore(t)), period, start)
  {
    forall r | r in rows ensures InBucket(start, period)(r) ==> OpenedBefore(t)(r) {
      BucketSpan(r.ts, period);
    }
    FilterFilter(rows, InBucket(start, period), OpenedBefore(t), InBucket(start, period));
  }

  /** The bars closed by `t` are a function of the candles opened before `t`. */
  lemma ClosedBarsKnown(rows: seq<Row>, multiplier: int, t: int)
    requires multiplier > 0
    ensures Filter(Resampled(rows, multiplier), ClosedBy(t, multiplier)) ==
            Bars(Filter(rows, OpenedBefore(t)), multiplier,
                 StableSort(Filter(Starts(Filter(rows, OpenedBefore(t)), FIVE_MINUTES * multiplier),
                                   StartsBy(t, multiplier)), IntOrder))
  {
    var starts := Starts(rows, FIVE_MINUTES * multiplier);
    BarsKnown(rows, multiplier, StableSort(starts, IntOrder), t);
    IntOrderIsTotal();
    SortFilter(starts, StartsBy(t, multiplier), IntOrder);
    StartsKnown(rows, multiplier, t);
  }

  /** Series that agree on the candles opened before `t` have the same bars closed by `t`. */
  lemma ClosedBarsAgree(a: seq<Row>, b: seq<Row>, multiplier: int, t: int)
    requires multiplier > 0
    requires Filter(a, OpenedBefore(t)) == Filter(b, OpenedBefore(t))
    ensures Filter(Resampled(a, multiplier), ClosedBy(t, multiplier)) == Filter(Resampled(b, multiplier), ClosedBy(t, multiplier))
  {
    ClosedBarsKnown(a, multiplier, t);
    ClosedBarsKnown(b, multiplier, t);
  }

  // ---- Looking up by bisection ---------------------------------------------------------

  function CloseTimes(bars: seq<Bar>, multiplier: int): seq<int> {
    Map(bars, (b: Bar) => b.start + FIVE_MINUTES * multiplier)
  }

  predicate BarOrder(a: Bar, b: Bar) { a.start <= b.start }

  lemma {:induction false} BarsSorted(rows: seq<Row>, multiplier: int, starts: seq<int>)
    requires multiplier > 0 && Sorted(starts, IntOrder)
    ensures Sorted(Bars(rows, multiplier, starts), BarOrder)
    ensures forall b :: b in Bars(rows, multiplier, starts) ==> b.start in starts
  {
    if |starts| > 0 {
      var init, start := starts[..|starts| - 1], starts[|starts| - 1];
      BarsSorted(rows, multiplier, init);
      var before := Bars(rows, multiplier, init);
      forall i | 0 <= i < |before| ensures before[i].start <= start {
        assert before[i] in before;
        assert before[i].start in init;
        var k :| 0 <= k < |init| && init[k] == before[i].start;
        assert IntOrder(starts[k], starts[|starts| - 1]);
      }
      assert starts == init + [start];
    }
  }

  lemma ResampledSorted(rows: seq<Row>, multiplier: int)
    requires multiplier > 0
    ensures Sorted(Resampled(rows, multiplier), BarOrder)
  {
    IntOrderIsTotal();
    StableSortSorts(Starts(rows, FIVE_MINUTES * multiplier), IntOrder);
    BarsSorted(rows, multiplier, StableSort(Starts(rows, FIVE_MINUTES * multiplier), IntOrder));
  }

  lemma {:induction false} BisectSelects(bars: seq<Bar>, multiplier: int, t: int)
    requires Sorted(bars, BarOrder)
    ensures BisectRight(CloseTimes(bars, multiplier), t) <= |bars|
    ensures bars[..BisectRight(CloseTimes(bars, multiplier), t)] == Filter(bars, ClosedBy(t, multiplier))
  {
    if |bars| > 0 {
      var init, last := bars[..|bars| - 1], bars[|bars| - 1];
      assert CloseTimes(bars, multiplier)[..|bars| - 1] == CloseTimes(init, multiplier);
      if ClosedBy(t, multiplier)(last) {
        forall b | b in bars ensures ClosedBy(t, multiplier)(b) {
          var k :| 0 <= k < |bars| && bars[k] == b;
          assert k < |bars| - 1 ==> BarOrder(bars[k], bars[|bars| - 1]);
        }
        FilterAll(bars, ClosedBy(t, multiplier));
      } else {
        BisectSelects(init, multiplier, t);
        var n := BisectRight(CloseTimes(init, multiplier), t);
        assert init[..n] == bars[..n];
      }
    }
  }
}
