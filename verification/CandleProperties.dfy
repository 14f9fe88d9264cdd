/** What a resampled bar is: exactly one per complete aligned block of a gapless series, and a faithful summary of it. */
module CandleProperties {
  import opened Wrappers
  import opened Sequences
  import opened Candles

  /** What validation lets through: enough sound candles of the window, each exactly five minutes after the one before. */
  lemma ValidatedCandles(rows: seq<Row>, start: int, end: int, kept: seq<Row>)
    requires ValidCandles(rows, start, end) == Some(kept)
    ensures |kept| >= 100 && Spaced(kept) && forall i :: 0 <= i < |kept| ==> SoundRow(kept[i])
    ensures forall i :: 0 <= i < |kept| ==> kept[i].ts == kept[0].ts + i * FIVE_MINUTES
    ensures start <= kept[0].ts && kept[|kept| - 1].ts + FIVE_MINUTES <= end
    ensures forall r :: r in kept <==> r in rows && InsideWindow(start, end)(r)
  {
    FilterMember(rows, InsideWindow(start, end));
    assert kept[0] in kept && kept[|kept| - 1] in kept;
    forall i | 0 <= i < |kept| ensures kept[i].ts == kept[0].ts + i * FIVE_MINUTES && SoundRow(kept[i]) {
      assert kept[i] in kept;
      ConsecutiveTimes(kept, 0, i);
    }
  }

  /** Rows `i` and `j` are in the window and nothing between them is. */
  ghost predicate Neighbours(rows: seq<Row>, p: Row -> bool, i: int, j: int) {
    0 <= i < j < |rows| && p(rows[i]) && p(rows[j]) && forall k :: i < k < j ==> !p(rows[k])
  }

  ghost predicate NeighboursSpaced(rows: seq<Row>, p: Row -> bool) {
    forall i, j :: Neighbours(rows, p, i, j) ==> rows[j].ts - rows[i].ts == FIVE_MINUTES
  }

  /** The last row of the window, if any, is at an index after which there is none. */
  lemma {:induction false} LastInside(rows: seq<Row>, p: Row -> bool) returns (i: int)
    ensures Filter(rows, p) == [] ==> i == -1
    ensures Filter(rows, p) != [] ==> 0 <= i < |rows| && p(rows[i]) && rows[i] == Filter(rows, p)[|Filter(rows, p)| - 1]
    ensures forall k :: i < k < |rows| ==> !p(rows[k])
  {
    i := |rows| - 1;
    if |rows| > 0 && !p(rows[|rows| - 1]) { i := LastInside(rows[..|rows| - 1], p); }
  }

  lemma {:induction false} SpacedExactly(rows: seq<Row>, p: Row -> bool)
    ensures Spaced(Filter(rows, p)) <==> NeighboursSpaced(rows, p)
  {
    if |rows| > 0 {
      var init, n := rows[..|rows| - 1], |rows| - 1;
      SpacedExactly(init, p);
      assert forall i, j :: j < n ==> (Neighbours(rows, p, i, j) <==> Neighbours(init, p, i, j));
      if p(rows[n]) {
        var last := LastInside(init, p);
        var f := Filter(init, p);
        assert Filter(rows, p) == f + [rows[n]];
        assert Filter(rows, p)[..|f|] == f;
        SpacedAppend(f, rows[n]);
        assert forall i :: Neighbours(rows, p, i, n) ==> i == last;
        if last >= 0 { assert Neighbours(rows, p, last, n); }
      }
    }
  }

  lemma SpacedAppend(f: seq<Row>, r: Row)
    ensures Spaced(f + [r]) <==> Spaced(f) && (|f| > 0 ==> r.ts - f[|f| - 1].ts == FIVE_MINUTES)
  {
    assert forall i :: 0 <= i < |f| ==> (f + [r])[i] == f[i];
    if Spaced(f + [r]) && |f| > 0 { assert (f + [r])[|f| - 1 + 1] == r; }
  }

  /** After the epoch, prices positive with the low below and the high above open and close, volumes not negative. */
  predicate Plausible(r: Row) {
    && r.ts > 0 && 0.0 < r.low <= r.open <= r.high && r.low <= r.close <= r.high
    && r.volume >= 0.0 && r.quoteVolume >= 0.0
  }

  lemma PlausibleMeans(r: Row)
    ensures SoundRow(r) <==> Plausible(r)
  {}

  /**
   Validation succeeds if and only if at least a hundred rows are inside the window, all of them sound, and each one
   that follows another of them, with none of them between, follows it by exactly five minutes.
   */
  lemma ValidatesExactly(rows: seq<Row>, start: int, end: int)
    ensures var p := InsideWindow(start, end);
            ValidCandles(rows, start, end).Some? <==>
            && |Filter(rows, p)| >= 100
            && (forall r :: r in rows && p(r) ==> Plausible(r))
            && NeighboursSpaced(rows, p)
  {
    hide SoundRow, Plausible;
    FilterMember(rows, InsideWindow(start, end));
    forall r ensures SoundRow(r) <==> Plausible(r) { PlausibleMeans(r); }
    SpacedExactly(rows, InsideWindow(start, end));
  }

  /** Rows `i..i + m` fill the bucket that starts with row `i`. */
  ghost predicate AlignedBlock(rows: seq<Row>, i: int, m: int)
    requires m > 0
  {
    0 <= i && i + m <= |rows| && rows[i].ts % (FIVE_MINUTES * m) == 0
  }

  /** First open, last close, extreme prices actually reached, and total volume of the block. */
  ghost predicate Summarises(b: Bar, rows: seq<Row>, i: int, m: int)
    requires 0 <= i && 0 < m && i + m <= |rows|
  {
    && b.start == rows[i].ts && b.open == rows[i].open && b.close == rows[i + m - 1].close
    && (forall k :: i <= k < i + m ==> b.low <= rows[k].low && rows[k].high <= b.high)
    && (exists k :: i <= k < i + m && rows[k].high == b.high)
    && (exists k :: i <= k < i + m && rows[k].low == b.low)
    && b.volume == Volume(rows[i..i + m])
  }

  lemma {:induction false} ExtremesReached(group: seq<Row>)
    requires |group| > 0
    ensures forall k :: 0 <= k < |group| ==> Lowest(group) <= group[k].low && group[k].high <= Highest(group)
    ensures exists k :: 0 <= k < |group| && group[k].high == Highest(group)
    ensures exists k :: 0 <= k < |group| && group[k].low == Lowest(group)
  {
    var n := |group| - 1;
    if n == 0 {
      assert group[0].high == Highest(group) && group[0].low == Lowest(group);
    } else {
      var init := group[..n];
      ExtremesReached(init);
      var h :| 0 <= h < |init| && init[h].high == Highest(init);
      var l :| 0 <= l < |init| && init[l].low == Lowest(init);
      assert group[h].high == Highest(init) && group[l].low == Lowest(init);
      assert group[n].high == Highest(group) || group[h].high == Highest(group);
      assert group[n].low == Lowest(group) || group[l].low == Lowest(group);
    }
  }

  /** In a gapless series the bucket that starts with row `i` is the run of rows from `i` on. */
  lemma BucketIsRun(rows: seq<Row>, i: nat, m: int)
    requires Spaced(rows) && m > 0 && i < |rows| && rows[i].ts % (FIVE_MINUTES * m) == 0
    ensures Bucket(rows, FIVE_MINUTES * m, rows[i].ts) == rows[i..if i + m <= |rows| then i + m else |rows|]
  {
    hide Spaced, Filter;
    var period, start := FIVE_MINUTES * m, rows[i].ts;
    var end := if i + m <= |rows| then i + m else |rows|;
    var p := InBucket(start, period);
    forall k | 0 <= k < |rows| ensures p(rows[k]) <==> i <= k < end {
      if k < i {
        ConsecutiveTimes(rows, k, i);
      } else {
        ConsecutiveTimes(rows, i, k);
        assert (k - i) * FIVE_MINUTES < m * FIVE_MINUTES <==> k - i < m;
      }
      InsideBucket(rows[k].ts, start, period);
    }
    assert rows == rows[..end] + rows[end..];
    FilterSuffix(rows[..end], i, p);
    FilterConcat(rows[..end], rows[end..], p);
    FilterNone(rows[end..], p);
    assert rows[..end][i..] == rows[i..end];
  }

  lemma InsideBucket(ts: int, start: int, period: int)
    requires period > 0 && start % period == 0
    ensures BucketStart(ts, period) == start <==> start <= ts < start + period
  {
    BucketSpan(ts, period);
    if start <= ts < start + period { SameBucket(ts, start, period); }
  }

  lemma SameBucket(ts: int, start: int, period: int)
    requires period > 0 && start % period == 0 && start <= ts < start + period
    ensures ts - ts % period == start
  {
    var q := start / period;
    assert start == q * period;
    assert ts == (ts / period) * period + ts % period;
    QuotientIsUnique(period, q, ts - start, ts / period, ts % period);
  }

  lemma QuotientIsUnique(d: int, q: int, r: int, p: int, s: int)
    requires d > 0 && q * d + r == p * d + s && 0 <= r < d && 0 <= s < d
    ensures r == s
  {
    var n := p - q;
    assert n * d == p * d - q * d;
    MultipleIsLarge(n, d);
  }

  lemma MultipleIsLarge(n: int, d: int)
    requires d > 0
    ensures (n >= 1 ==> n * d >= d) && (n <= -1 ==> n * d <= -d)
  {}

  lemma {:induction false} BarsOrigin(rows: seq<Row>, m: int, starts: seq<int>, b: Bar)
    requires m > 0 && b in Bars(rows, m, starts)
    ensures b.start in starts && BarOf(Bucket(rows, FIVE_MINUTES * m, b.start), b.start, m) == Some(b)
  {
    hide BarOf, Bucket;
    if |starts| > 0 {
      var init, start := starts[..|starts| - 1], starts[|starts| - 1];
      assert starts == init + [start];
      if b in Bars(rows, m, init) {
        BarsOrigin(rows, m, init, b);
      } else {
        BarStart(Bucket(rows, FIVE_MINUTES * m, start), start, m);
      }
    }
  }

  lemma BarStart(group: seq<Row>, start: int, m: int)
    ensures BarOf(group, start, m).Some? ==> BarOf(group, start, m).value.start == start
  {}

  lemma {:induction false} BarsInclude(rows: seq<Row>, m: int, starts: seq<int>, start: int)
    requires m > 0 && start in starts && BarOf(Bucket(rows, FIVE_MINUTES * m, start), start, m).Some?
    ensures BarOf(Bucket(rows, FIVE_MINUTES * m, start), start, m).value in Bars(rows, m, starts)
  {
    hide BarOf, Bucket;
    var init := starts[..|starts| - 1];
    assert starts == init + [starts[|starts| - 1]];
    if start in init { BarsInclude(rows, m, init, start); }
  }

  lemma {:induction false} StartsInclude(rows: seq<Row>, period: int)
    requires period > 0
    ensures forall i :: 0 <= i < |rows| ==> BucketStart(rows[i].ts, period) in Starts(rows, period)
  {
    if |rows| > 0 { StartsInclude(rows[..|rows| - 1], period); }
  }

  /** Every bar summarises an aligned block of consecutive candles. */
  lemma BarsSummarise(rows: seq<Row>, m: int, b: Bar)
    requires Spaced(rows) && m > 0 && b in Resampled(rows, m)
    ensures exists i :: AlignedBlock(rows, i, m) && Summarises(b, rows, i, m)
  {
    hide Spaced;
    var period := FIVE_MINUTES * m;
    BarsOrigin(rows, m, StableSort(Starts(rows, period), IntOrder), b);
    var group := Bucket(rows, period, b.start);
    FilterOrigin(rows, InBucket(b.start, period), 0);
    var i :| 0 <= i < |rows| && rows[i] == group[0] && InBucket(b.start, period)(rows[i]);
    assert rows[i].ts % period == 0;
    BucketIsRun(rows, i, m);
    assert group == rows[i..i + m];
    ExtremesReached(group);
    BlockIsSummarised(rows, i, m, b);
  }

  lemma BlockIsSummarised(rows: seq<Row>, i: nat, m: int, b: Bar)
    requires m > 0 && AlignedBlock(rows, i, m) && BarOf(rows[i..i + m], b.start, m) == Some(b)
    ensures Summarises(b, rows, i, m)
  {
    hide Highest, Lowest, Volume;
    var group := rows[i..i + m];
    ExtremesReached(group);
    forall k | i <= k < i + m ensures b.low <= rows[k].low && rows[k].high <= b.high {
      assert group[k - i] == rows[k];
    }
    var h :| 0 <= h < m && group[h].high == Highest(group);
    var l :| 0 <= l < m && group[l].low == Lowest(group);
    assert rows[i + h].high == b.high && rows[i + l].low == b.low;
  }

  // ---- One bar per block ---------------------------------------------------------------------------

  ghost predicate Once(s: seq<int>) { forall x :: multiset(s)[x] <= 1 }

  lemma {:induction false} StartsOnce(rows: seq<Row>, period: int)
    requires period > 0
    ensures Once(Starts(rows, period))
  {
    if |rows| > 0 { StartsOnce(rows[..|rows| - 1], period); }
  }

  ghost predicate Increasing(s: seq<int>) { forall i, j :: 0 <= i < j < |s| ==> s[i] < s[j] }

  lemma SortedOnceIncreases(s: seq<int>)
    requires Sorted(s, IntOrder) && Once(s)
    ensures Increasing(s)
  {
    forall i, j | 0 <= i < j < |s| ensures s[i] < s[j] {
      assert IntOrder(s[i], s[j]);
      assert s == s[..j] + [s[j]] + s[j + 1..];
      assert s[i] in s[..j];
      assert multiset(s)[s[j]] == multiset(s[..j])[s[j]] + 1 + multiset(s[j + 1..])[s[j]];
    }
  }

  ghost predicate Chronological(bars: seq<Bar>) { forall i, j :: 0 <= i < j < |bars| ==> bars[i].start < bars[j].start }

  lemma {:induction false} BarsIncrease(rows: seq<Row>, m: int, starts: seq<int>)
    requires m > 0 && Increasing(starts)
    ensures Chronological(Bars(rows, m, starts))
  {
    hide BarOf, Bucket;
    if |starts| > 0 {
      var init, start := starts[..|starts| - 1], starts[|starts| - 1];
      assert Increasing(init) by { assert forall k :: 0 <= k < |init| ==> init[k] == starts[k]; }
      BarsIncrease(rows, m, init);
      var before := Bars(rows, m, init);
      BarStart(Bucket(rows, FIVE_MINUTES * m, start), start, m);
      forall i | 0 <= i < |before| ensures before[i].start < start {
        assert before[i] in before;
        BarsOrigin(rows, m, init, before[i]);
        var k :| 0 <= k < |init| && init[k] == before[i].start;
        assert starts[k] < starts[|init|];
      }
    }
  }

  /** Bars come in time order, and no block has two. */
  lemma BarsAreDistinct(rows: seq<Row>, m: int)
    requires m > 0
    ensures Chronological(Resampled(rows, m))
  {
    var starts := Starts(rows, FIVE_MINUTES * m);
    IntOrderIsTotal();
    StableSortSorts(starts, IntOrder);
    StartsOnce(rows, FIVE_MINUTES * m);
    SortedOnceIncreases(StableSort(starts, IntOrder));
    BarsIncrease(rows, m, StableSort(starts, IntOrder));
  }

  /** Every aligned block of consecutive candles has its bar; incomplete buckets at either end have none. */
  lemma BlocksHaveBars(rows: seq<Row>, m: int, i: int)
    requires Spaced(rows) && m > 0 && AlignedBlock(rows, i, m)
    ensures exists b :: b in Resampled(rows, m) && b.start == rows[i].ts
  {
    var period, start := FIVE_MINUTES * m, rows[i].ts;
    BucketIsRun(rows, i, m);
    var group := rows[i..i + m];
    assert Spaced(group) by {
      assert forall k :: 0 <= k < m ==> group[k] == rows[i + k];
    }
    StartsInclude(rows, period);
    IntOrderIsTotal();
    StableSortMember(Starts(rows, period), IntOrder);
    BarsInclude(rows, m, StableSort(Starts(rows, period), IntOrder), start);
    BarStart(group, start, m);
  }
}
