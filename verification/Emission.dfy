/**
 What the scan emits, said of the candles and the settings alone: which indices have a candidate, which candidates become
 signals, and how each of them is settled.
 */
module Emission {
  import opened Wrappers
  import opened Sequences
  import opened Trades
  import opened Candles
  import opened Outcomes
  import opened Scan
  import opened Evaluate
  import Metrics
  import NoLookAhead

  // ---- What a candidate is -----------------------------------------------------------------

  function ClosedAt(t: int, m: int): Bar -> bool { (b: Bar) => b.start + 300_000 * m <= t }

  /** The evidence of a timeframe: measured on the last hundred of at least twenty bars closed by `t`. */
  ghost predicate Measured(e: Evidence, rows: seq<Row>, rules: Rules, minimumStrength: int, m: int, t: int)
    requires m > 0
  {
    var closed := Filter(Resampled(rows, m), ClosedAt(t, m));
    |closed| >= 20 && e == rules.measure(if |closed| > 100 then closed[|closed| - 100..] else closed, minimumStrength)
  }

  /** The fifteen-minute and five-minute trigger of the two older strategies. */
  predicate Falling(c: Checks) {
    && c.m15.flags.twoBearish && c.m15.flags.lowerHigh && c.m15.flags.volumeAcceleration && c.m15.flags.bearishClose
    && c.m5.flags.lowerHigh && c.m5.flags.bearishClose
  }

  /** The strategy admits the evidence. */
  predicate Eligible(s: Settings, c: Checks) {
    match s.strategy
    case Legacy =>
      c.h1.passed && c.h4.passed && 2 + (if c.m5.passed then 1 else 0) + (if c.m15.passed then 1 else 0) >= s.minimumConfirmed
    case WaterfallV2 =>
      && c.h4.flags.lowerHigh && c.h4.flags.bearishClose && c.h4.flags.rsiRollover
      && c.h1.flags.twoBearish && c.h1.flags.lowerHigh && c.h1.flags.reclaimOrRepump && Falling(c)
    case PostHypeV1 =>
      c.h4.hypeContext && c.h4.supportBroken && c.h4.flags.lowerHigh && c.h4.failedPullback && Falling(c)
    case ChannelV1 =>
      && c.h4.hypeContext && c.h4.supportBroken && c.h4.flags.lowerHigh
      && (c.h4.failedPullback || (c.h4.flags.bearishClose && c.h4.flags.volumeAcceleration)
          || (c.h1.flags.twoBearish && c.h1.flags.lowerHigh && c.h1.flags.bearishClose))
      && c.m15.flags.lowerHigh && c.m15.flags.bearishClose && c.m5.flags.lowerHigh && c.m5.flags.bearishClose
  }

  /** A channel setup is named after the first of the three patterns that it shows. */
  predicate SetupNamed(s: Settings, c: Checks, name: Option<string>) {
    name == if !s.strategy.ChannelV1? then None
            else if c.h4.failedPullback then Some("FAILED_PULLBACK")
            else if c.h4.flags.bearishClose && c.h4.flags.volumeAcceleration then Some("BREAKDOWN")
            else Some("CONTINUATION")
  }

  /** Every macro series is in a bearish trend by the closes of its four-hour bars. */
  ghost predicate MacroBearish(macro: Option<seq<seq<Row>>>, rules: Rules, t: int) {
    macro.Some? ==> forall k :: 0 <= k < |macro.value| ==>
      rules.bearishTrend(Map(Filter(Resampled(macro.value[k], 48), ClosedAt(t, 48)), (b: Bar) => b.close))
  }

  function Quotes(day: seq<Row>): seq<real> { Map(day, (r: Row) => r.quoteVolume) }

  function Turnover(r: Row): real { r.close * r.volume }

  function Turnovers(day: seq<Row>): seq<real> { Map(day, (r: Row) => Turnover(r)) }

  function Volumes(day: seq<Row>): seq<real> { Map(day, (r: Row) => r.volume) }

  /** The price of the last candle against the volume-weighted average of the day, if there is one. */
  ghost predicate AgainstVwap(day: seq<Row>, under: Option<bool>)
    requires |day| > 0
  {
    exists turnover, volume ::
      && IsSum(Turnovers(day), turnover) && IsSum(Volumes(day), volume)
      && under == if volume == 0.0 then None else Some(day[|day| - 1].close < turnover / volume)
  }

  /** What the derivatives filter has found, if it lets the candidate pass. */
  ghost predicate Filtered(s: Settings, rules: Rules, d: Decision, day: seq<Row>)
    requires |day| > 0
  {
    match s.filter
    case Off => d.derivatives.None? && d.availableScore.None?
    case LongUnwind =>
      rules.longUnwind(rules.context(d.closeTime)) && d.derivatives == rules.context(d.closeTime) && d.availableScore.None?
    case ScoreV2 =>
      && d.derivatives.Some? && d.derivatives == rules.scoreV2Context(d.closeTime) && d.derivatives.value.takerRatio < 1.0
      && d.availableScore.Some?
      && exists under :: AgainstVwap(day, under) && d.availableScore == rules.availableScore(d.checks, d.derivatives.value, under)
  }

  /** `d` is the candidate at row `i`. */
  ghost predicate Admitted(rows: seq<Row>, macro: Option<seq<seq<Row>>>, s: Settings, rules: Rules, i: nat, d: Decision)
    requires i < |rows|
  {
    var (t, c) := (rows[i].ts + 300_000, d.checks);
    && d.closeTime == t
    && Measured(c.m5, rows, rules, s.minimumStrength, 1, t) && Measured(c.m15, rows, rules, s.minimumStrength, 3, t)
    && Measured(c.h1, rows, rules, s.minimumStrength, 12, t) && Measured(c.h4, rows, rules, s.minimumStrength, 48, t)
    && Eligible(s, c) && SetupNamed(s, c, d.stages.setupType) && d.stages == Stages(true, true, true, d.stages.setupType, true)
    && MacroBearish(macro, rules, t)
    && i >= 287
    && IsSum(Quotes(rows[i - 287..i + 1]), d.quoteVolume)
    && d.quoteVolume >= 0.0 && d.quoteVolume >= s.minimumQuoteVolume
    && d.score == (5.0 * c.m5.strength + 8.0 * c.m15.strength + 10.0 * c.h1.strength + 12.0 * c.h4.strength) / 100.0
    && Filtered(s, rules, d, rows[i - 287..i + 1])
  }

  lemma ClosedByMeans(bars: seq<Bar>, t: int, m: int)
    ensures Filter(bars, ClosedBy(t, m)) == Filter(bars, ClosedAt(t, m))
  {
    FilterCongruent(bars, ClosedBy(t, m), ClosedAt(t, m));
  }

  lemma EvidenceMeasured(rows: seq<Row>, rules: Rules, minimumStrength: int, frame: Timeframe, t: int, e: Evidence)
    ensures LatestEvidence(rows, rules, minimumStrength, frame, t) == Some(e) <==>
            Measured(e, rows, rules, minimumStrength, Multiplier(frame), t)
  {
    hide Resampled, Filter, BisectRight;
    var bars := Resampled(rows, Multiplier(frame));
    ResampledSorted(rows, Multiplier(frame));
    ClosedByMeans(bars, t, Multiplier(frame));
    var closed := Filter(bars, ClosedAt(t, Multiplier(frame)));
    NoLookAhead.EvidenceFromClosedBars(bars, closed, rules, minimumStrength, frame, t);
    assert |closed| <= 100 ==> closed[0..] == closed;
  }

  lemma ChecksMeasured(rows: seq<Row>, s: Settings, rules: Rules, t: int, c: Checks)
    ensures ChecksAt(rows, s, rules, t) == Some(c) <==>
            && ChannelContext(s, c.h4)
            && Measured(c.m5, rows, rules, s.minimumStrength, 1, t) && Measured(c.m15, rows, rules, s.minimumStrength, 3, t)
            && Measured(c.h1, rows, rules, s.minimumStrength, 12, t) && Measured(c.h4, rows, rules, s.minimumStrength, 48, t)
  {
    hide LatestEvidence, Measured;
    EvidenceMeasured(rows, rules, s.minimumStrength, M5, t, c.m5);
    EvidenceMeasured(rows, rules, s.minimumStrength, M15, t, c.m15);
    EvidenceMeasured(rows, rules, s.minimumStrength, H1, t, c.h1);
    EvidenceMeasured(rows, rules, s.minimumStrength, H4, t, c.h4);
  }

  lemma MacroMeans(macro: Option<seq<seq<Row>>>, rules: Rules, t: int)
    ensures MacroConfirmed(macro, rules, t) <==> MacroBearish(macro, rules, t)
  {
    hide Resampled, Filter, BisectRight;
    if macro.Some? {
      forall k | 0 <= k < |macro.value|
        ensures MarketRegimeAt(macro.value[k], rules, t) ==
                rules.bearishTrend(Map(Filter(Resampled(macro.value[k], 48), ClosedAt(t, 48)), (b: Bar) => b.close))
      {
        var bars := Resampled(macro.value[k], 48);
        ResampledSorted(macro.value[k], 48);
        BisectSelects(bars, 48, t);
        ClosedByMeans(bars, t, 48);
      }
    }
  }

  lemma EligibleMeans(s: Settings, c: Checks)
    ensures ChannelContext(s, c.h4) && Evaluate.Eligible(s, c) <==> Eligible(s, c)
    ensures Eligible(s, c) ==>
              var stages := StagesOf(s.strategy, c);
              SetupNamed(s, c, stages.setupType) && stages == Stages(true, true, true, stages.setupType, true)
    ensures forall a, b :: SetupNamed(s, c, a) && SetupNamed(s, c, b) ==> a == b
  {}

  lemma {:induction false} SumIsUnique(terms: seq<real>, a: real, b: real)
    requires IsSum(terms, a) && IsSum(terms, b)
    ensures a == b
  {
    var c :| SumsUp(c, terms) && c[|terms|] == a;
    var d :| SumsUp(d, terms) && d[|terms|] == b;
    SamePartialSums(c, d, terms, |terms|);
  }

  lemma {:induction false} SamePartialSums(c: seq<real>, d: seq<real>, terms: seq<real>, k: nat)
    requires SumsUp(c, terms) && SumsUp(d, terms) && k <= |terms|
    ensures c[k] == d[k]
  {
    if k > 0 { SamePartialSums(c, d, terms, k - 1); }
  }

  lemma {:induction false} DaySums(day: seq<Row>)
    ensures IsSum(Quotes(day), QuoteSum(day))
    ensures IsSum(Turnovers(day), TurnoverSum(day))
    ensures IsSum(Volumes(day), Volume(day))
  {
    hide IsSum, Quotes, Turnovers, Volumes;
    if |day| == 0 {
      NoTerms();
      NoDay();
    } else {
      var init, last := day[..|day| - 1], day[|day| - 1];
      DaySums(init);
      DayLast(day);
      OneMoreTerm(Quotes(init), QuoteSum(init), last.quoteVolume);
      OneMoreTerm(Turnovers(init), TurnoverSum(init), Turnover(last));
      assert TurnoverSum(day) == TurnoverSum(init) + Turnover(last);
      OneMoreTerm(Volumes(init), Volume(init), last.volume);
    }
  }

  lemma NoDay()
    ensures Quotes([]) == [] && Turnovers([]) == [] && Volumes([]) == []
  {}

  lemma DayLast(day: seq<Row>)
    requires |day| > 0
    ensures var (init, last) := (day[..|day| - 1], day[|day| - 1]);
            && Quotes(day) == Quotes(init) + [last.quoteVolume]
            && Turnovers(day) == Turnovers(init) + [Turnover(last)]
            && Volumes(day) == Volumes(init) + [last.volume]
  {}

  lemma VwapMeans(day: seq<Row>, under: Option<bool>)
    requires |day| == 288
    ensures AgainstVwap(day, under) <==> under == BelowVwap(day, 288)
  {
    hide Volume, TurnoverSum, QuoteSum, IsSum;
    DaySums(day);
    assert day[0..288] == day;
    var terms, weights := Turnovers(day), Volumes(day);
    forall turnover, volume | IsSum(terms, turnover) && IsSum(weights, volume)
      ensures turnover == TurnoverSum(day) && volume == Volume(day)
    {
      SumIsUnique(terms, turnover, TurnoverSum(day));
      SumIsUnique(weights, volume, Volume(day));
    }
  }

  /** The trailing day of row `i`, which is what volume and average are taken over. */
  lemma DayMeans(rows: seq<Row>, i: nat)
    requires i < |rows|
    ensures i < 287 ==> QuoteVolume(rows, i + 1).None?
    ensures i >= 287 ==>
              var day := rows[i - 287..i + 1];
              && QuoteVolume(rows, i + 1) == (if QuoteSum(day) >= 0.0 then Some(QuoteSum(day)) else None)
              && BelowVwap(rows, i + 1) == BelowVwap(day, 288)
              && forall total :: IsSum(Quotes(day), total) <==> total == QuoteSum(day)
  {
    hide Volume, TurnoverSum, QuoteSum, IsSum;
    if i >= 287 {
      var day := rows[i - 287..i + 1];
      assert LastDay(rows, i + 1) == Some(day) && day[0..288] == day;
      DaySums(day);
      forall total | IsSum(Quotes(day), total) ensures total == QuoteSum(day) {
        SumIsUnique(Quotes(day), total, QuoteSum(day));
      }
    }
  }

  lemma FilteredMeans(s: Settings, rules: Rules, d: Decision, day: seq<Row>)
    requires |day| == 288
    ensures Filtered(s, rules, d, day) <==>
            DerivativesAt(s, rules, d.checks, BelowVwap(day, 288), d.closeTime) == Accepted(d.derivatives, d.availableScore)
  {
    hide BelowVwap, AgainstVwap;
    forall under ensures AgainstVwap(day, under) <==> under == BelowVwap(day, 288) {
      VwapMeans(day, under);
    }
  }

  /** Which rows have a candidate, and what it is: the evidence, the strategy, the markets, the volume and the filter. */
  lemma CandidateExactly(rows: seq<Row>, macro: Option<seq<seq<Row>>>, s: Settings, rules: Rules, i: nat, d: Decision)
    requires i < |rows|
    ensures CandidateAt(rows, macro, s, rules, i) == Some(d) <==> Admitted(rows, macro, s, rules, i, d)
  {
    hide ChecksAt, MacroConfirmed, MacroBearish, Measured, Evaluate.Eligible, Eligible, SetupNamed, StagesOf, QuoteSum, IsSum,
         QuoteVolume, BelowVwap, Filtered, DerivativesAt;
    var t := CloseTime(rows[i]);
    ChecksMeasured(rows, s, rules, t, d.checks);
    MacroMeans(macro, rules, t);
    EligibleMeans(s, d.checks);
    DayMeans(rows, i);
    if i >= 287 { FilteredMeans(s, rules, d, rows[i - 287..i + 1]); }
  }

  // ---- Which candidates become signals ------------------------------------------------------------

  /** A row the scan stops at: the 960th or the 4800th candle, and every so many after it, with a horizon to follow. */
  ghost predicate Stop(s: Settings, length: int, i: int) {
    exists k: nat :: StopAt(s, length, i, k)
  }

  ghost predicate StopAt(s: Settings, length: int, i: int, k: nat) {
    && i == (if s.strategy.PostHypeV1? || s.strategy.ChannelV1? then 4799 else 959) + k * s.triggerInterval
    && i < length - 12 * s.holdHours
  }

  /** Signal `g` is the candidate at row `i`, past the signal start and, in a direct Score V2 run, at the threshold or above. */
  ghost predicate From(rows: seq<Row>, macro: Option<seq<seq<Row>>>, s: Settings, mode: Mode, rules: Rules, i: nat, d: Decision)
    requires i < |rows|
  {
    && Admitted(rows, macro, s, rules, i, d)
    && (s.signalStart.Some? ==> rows[i].ts + 300_000 >= s.signalStart.value)
    && (s.filter.ScoreV2? && !mode.emitPool ==> d.availableScore.Some? && d.availableScore.value >= mode.threshold)
  }

  ghost predicate Wanted(src: Source, s: Settings, mode: Mode, i: int, d: Decision) {
    && 0 <= i < src.limit && src.candidate(i) == Some(d)
    && (s.signalStart.Some? ==> src.closeTime(i) >= s.signalStart.value)
    && (s.filter.ScoreV2? && !mode.emitPool ==> d.availableScore.Some? && d.availableScore.value >= mode.threshold)
  }

  ghost predicate EmittedAt(src: Source, s: Settings, mode: Mode, i: int, g: Signal) {
    Wanted(src, s, mode, i, g.decision) && src.settle(i, g.decision).Ok?
    && g.trade == src.settle(i, g.decision).value.(poolEvent := mode.emitPool)
  }

  lemma {:induction false} SignalOrigin(src: Source, s: Settings, mode: Mode, k: nat, g: nat)
    requires s.triggerInterval >= 1 && Signals(src, s, mode, k).Ok? && g < |Signals(src, s, mode, k).value|
    ensures exists j: nat :: j < k && EmittedAt(src, s, mode, IndexAt(s, j), Signals(src, s, mode, k).value[g])
  {
    hide IndexAt;
    var before := Signals(src, s, mode, k - 1).value;
    IndexGrows(s, k - 1);
    if g < |before| {
      SignalOrigin(src, s, mode, k - 1, g);
      var j: nat :| j < k - 1 && EmittedAt(src, s, mode, IndexAt(s, j), before[g]);
      assert EmittedAt(src, s, mode, IndexAt(s, j), Signals(src, s, mode, k).value[g]);
    } else {
      assert EmittedAt(src, s, mode, IndexAt(s, k - 1), Signals(src, s, mode, k).value[g]);
    }
  }

  predicate CoolsDown(g: Signal, s: Settings, closeTime: int) {
    g.decision.closeTime < closeTime < g.decision.closeTime + s.cooldownHours * 3_600_000
  }

  /** A direct run waits for the cooldown after each signal; nothing else is passed over. */
  ghost predicate Accounted(signals: seq<Signal>, s: Settings, mode: Mode, closeTime: int, d: Decision) {
    || (exists g :: 0 <= g < |signals| && signals[g].decision == d)
    || (!mode.emitPool && closeTime < 0)
    || (!mode.emitPool && exists g :: 0 <= g < |signals| && CoolsDown(signals[g], s, closeTime))
  }

  ghost predicate Ordered(src: Source, s: Settings) {
    && (forall i, j {:trigger src.closeTime(i), src.closeTime(j)} :: 0 <= i < j < src.limit ==> src.closeTime(i) < src.closeTime(j))
    && (forall i {:trigger src.candidate(i)} :: 0 <= i < src.limit && src.candidate(i).Some? ==>
          src.candidate(i).value.closeTime == src.closeTime(i))
  }

  /** Signals so far are older than the index at hand, and in a direct run a cooldown apart. */
  ghost predicate Chronological(src: Source, s: Settings, mode: Mode, signals: seq<Signal>, i: int) {
    && (forall g {:trigger signals[g]} :: 0 <= g < |signals| && i < src.limit ==> signals[g].decision.closeTime < src.closeTime(i))
    && (forall g, h :: 0 <= g < h < |signals| ==> signals[g].decision.closeTime < signals[h].decision.closeTime)
    && (!mode.emitPool ==> forall g, h :: 0 <= g < h < |signals| ==>
          signals[g].decision.closeTime + s.cooldownHours * 3_600_000 <= signals[h].decision.closeTime)
  }

  lemma {:induction false} SignalsChronological(src: Source, s: Settings, mode: Mode, k: nat)
    requires Ordered(src, s) && s.triggerInterval >= 1 && Signals(src, s, mode, k).Ok? && s.cooldownHours >= 1
    ensures Chronological(src, s, mode, Signals(src, s, mode, k).value, IndexAt(s, k))
  {
    hide Visit, Ordered, Chronological;
    if k == 0 {
      NothingIsChronological(src, s, mode, IndexAt(s, 0));
    } else {
      SignalsChronological(src, s, mode, k - 1);
      NextIndex(s, k - 1);
      IndexGrows(s, k - 1);
      VisitChronological(src, s, mode, IndexAt(s, k - 1), IndexAt(s, k), Signals(src, s, mode, k - 1).value);
    }
  }

  lemma NothingIsChronological(src: Source, s: Settings, mode: Mode, i: int)
    ensures Chronological(src, s, mode, [], i)
  {}

  lemma VisitChronological(src: Source, s: Settings, mode: Mode, i: nat, next: nat, signals: seq<Signal>)
    requires Ordered(src, s) && s.cooldownHours >= 1 && i < next
    requires Chronological(src, s, mode, signals, i) && Visit(src, s, mode, i, signals).Ok?
    ensures Chronological(src, s, mode, Visit(src, s, mode, i, signals).value, next)
  {
    hide MeetsThreshold;
    var after := Visit(src, s, mode, i, signals).value;
    if next < src.limit { assert src.closeTime(i) < src.closeTime(next); }
    if |after| > |signals| && |signals| > 0 {
      var last := |signals| - 1;
      forall g | 0 <= g < |signals| ensures signals[g].decision.closeTime <= signals[last].decision.closeTime {}
    }
  }

  /** No wanted candidate is passed over but for a cooldown. */
  lemma {:induction false} NothingIsMissed(src: Source, s: Settings, mode: Mode, k: nat, j: nat, d: Decision)
    requires Ordered(src, s) && s.triggerInterval >= 1 && s.cooldownHours >= 1 && Signals(src, s, mode, k).Ok?
    requires j < k && Wanted(src, s, mode, IndexAt(s, j), d)
    ensures Accounted(Signals(src, s, mode, k).value, s, mode, src.closeTime(IndexAt(s, j)), d)
  {
    hide IndexAt;
    var before, after := Signals(src, s, mode, k - 1).value, Signals(src, s, mode, k).value;
    assert |before| <= |after| && after[..|before|] == before;
    if j < k - 1 {
      NothingIsMissed(src, s, mode, k - 1, j, d);
      AccountedLonger(before, after, s, mode, src.closeTime(IndexAt(s, j)), d);
    } else {
      SignalsChronological(src, s, mode, k - 1);
      IndexGrows(s, j);
      var i := IndexAt(s, j);
      if Waiting(s, mode, src.closeTime(i), CooldownUntil(before, s, mode)) {
        if |before| > 0 { assert before[|before| - 1].decision.closeTime < src.closeTime(i); }
        assert Accounted(before, s, mode, src.closeTime(i), d);
        AccountedLonger(before, after, s, mode, src.closeTime(i), d);
      } else {
        assert after[|after| - 1].decision == d;
      }
    }
  }

  lemma AccountedLonger(before: seq<Signal>, after: seq<Signal>, s: Settings, mode: Mode, closeTime: int, d: Decision)
    requires |before| <= |after| && after[..|before|] == before && Accounted(before, s, mode, closeTime, d)
    ensures Accounted(after, s, mode, closeTime, d)
  {
    assert forall g :: 0 <= g < |before| ==> after[g] == before[g];
  }

  // ---- How a signal is settled ----------------------------------------------------------------------

  /** The stop of a short entered at the open of the candle after row `i`. */
  function StopLevel(rows: seq<Row>, s: Settings, i: nat): real
    requires i + 1 < |rows|
  {
    rows[i + 1].open * (1.0 + s.stopPct / 100.0)
  }

  function TargetLevel(rows: seq<Row>, s: Settings, i: nat): real
    requires i + 1 < |rows|
  {
    rows[i + 1].open * (1.0 - s.targetPct / 100.0)
  }

  /** Neither level is reached after row `i` and before row `j`. */
  ghost predicate Quiet(rows: seq<Row>, s: Settings, i: nat, j: nat)
    requires i + 1 < |rows| && j <= |rows|
  {
    forall k :: i < k < j ==> rows[k].high < StopLevel(rows, s, i) && rows[k].low > TargetLevel(rows, s, i)
  }

  /** Candle `j` is the first after row `i` to reach a level, and it reaches the stop. */
  ghost predicate StoppedAt(rows: seq<Row>, s: Settings, i: nat, j: nat)
    requires i + 1 < |rows|
  {
    i < j < |rows| && j <= i + 12 * s.holdHours && Quiet(rows, s, i, j) && rows[j].high >= StopLevel(rows, s, i)
  }

  /** Candle `j` is the first after row `i` to reach a level, and it reaches the target only. */
  ghost predicate TargetAt(rows: seq<Row>, s: Settings, i: nat, j: nat)
    requires i + 1 < |rows|
  {
    && i < j < |rows| && j <= i + 12 * s.holdHours && Quiet(rows, s, i, j)
    && rows[j].low <= TargetLevel(rows, s, i) && rows[j].high < StopLevel(rows, s, i)
  }

  /** The trade says what settling at `r` says. */
  ghost predicate Says(t: Trade, rows: seq<Row>, s: Settings, rules: Rules, i: nat, r: Resolution)
    requires i + 1 < |rows|
  {
    && t.realizedR == Some(Metrics.Round6(r.realizedR)) && t.exitTimestamp == Some(r.exitTimestamp)
    && t.netRealizedR == rules.netReturn(rows[i].ts + 300_000, rows[i + 1], r)
    && t.executionCosts == rules.costs(rows[i].ts + 300_000, rows[i + 1], r)
  }

  /** Out at the stop: a return of minus one. */
  function Stopped(rows: seq<Row>, s: Settings, i: nat, j: nat): Resolution
    requires i + 1 < |rows| && j < |rows|
  {
    Resolution(Loss, -1.0, StopLevel(rows, s, i), rows[j].ts + 300_000, rows[j].ts,
               if rows[j].low <= TargetLevel(rows, s, i) then "same_candle_stop_and_target_conservative_loss" else "stop")
  }

  function Reached(rows: seq<Row>, s: Settings, i: nat, j: nat): Resolution
    requires i + 1 < |rows| && j < |rows| && s.stopPct != 0.0
  {
    Resolution(Win, s.targetPct / s.stopPct, TargetLevel(rows, s, i), rows[j].ts + 300_000, rows[j].ts, "target")
  }

  function Expired(rows: seq<Row>, s: Settings, i: nat, last: Row): Resolution
    requires i + 1 < |rows| && rows[i + 1].open != 0.0 && s.stopPct != 0.0
  {
    Resolution(Timeout, (rows[i + 1].open - last.close) / rows[i + 1].open / (s.stopPct / 100.0), last.close,
               last.ts + 300_000, last.ts + 300_000, "holding_horizon_mark_to_market")
  }

  /**
   The trade of a signal at row `i`: out at the stop on the first candle that reaches it unless the target came first, at
   the target on the first candle that reaches it before the stop, else at the close of the last candle of the horizon.
   */
  ghost predicate SettledAt(t: Trade, rows: seq<Row>, s: Settings, rules: Rules, i: nat)
    requires i + 12 * s.holdHours < |rows| && s.holdHours >= 1
  {
    && (forall j: nat :: StoppedAt(rows, s, i, j) ==> Says(t, rows, s, rules, i, Stopped(rows, s, i, j)))
    && (forall j: nat :: TargetAt(rows, s, i, j) ==> s.stopPct != 0.0 && Says(t, rows, s, rules, i, Reached(rows, s, i, j)))
    && (Quiet(rows, s, i, i + 12 * s.holdHours + 1) ==>
          rows[i + 1].open != 0.0 && s.stopPct != 0.0
          && Says(t, rows, s, rules, i, Expired(rows, s, i, rows[i + 12 * s.holdHours])))
  }

  lemma Levels(rows: seq<Row>, s: Settings, i: nat)
    requires i + 1 < |rows|
    ensures StopPrice(rows[i + 1].open, s.stopPct) == StopLevel(rows, s, i)
    ensures TargetPrice(rows[i + 1].open, s.targetPct) == TargetLevel(rows, s, i)
  {}

  /** The first candle in the horizon to reach a level decides. */
  lemma FirstCandleDecides(rows: seq<Row>, s: Settings, i: nat)
    requires i + 12 * s.holdHours < |rows| && s.holdHours >= 1
    ensures var end := i + 12 * s.holdHours + 1;
            var n := FirstTouch(rows, i + 1, end, StopLevel(rows, s, i), TargetLevel(rows, s, i));
            && (n == end <==> Quiet(rows, s, i, end))
            && (forall j: nat :: StoppedAt(rows, s, i, j) <==> j == n && n < end && rows[j].high >= StopLevel(rows, s, i))
            && (forall j: nat :: TargetAt(rows, s, i, j) <==> j == n && n < end && rows[j].high < StopLevel(rows, s, i))
  {
    hide StopLevel, TargetLevel;
    var end := i + 12 * s.holdHours + 1;
    var n := FirstTouch(rows, i + 1, end, StopLevel(rows, s, i), TargetLevel(rows, s, i));
    forall j: nat | i < j < end && Quiet(rows, s, i, j) ensures j <= n {}
    assert Quiet(rows, s, i, n);
  }

  /** Exactly one of the three happens, and once. */
  lemma OneWayOut(rows: seq<Row>, s: Settings, i: nat)
    requires i + 12 * s.holdHours < |rows| && s.holdHours >= 1
    ensures Quiet(rows, s, i, i + 12 * s.holdHours + 1) <==>
            !exists j: nat :: StoppedAt(rows, s, i, j) || TargetAt(rows, s, i, j)
    ensures forall j: nat, k: nat ::
              (StoppedAt(rows, s, i, j) || TargetAt(rows, s, i, j)) && (StoppedAt(rows, s, i, k) || TargetAt(rows, s, i, k)) ==>
                j == k
  {
    hide StopLevel, TargetLevel, Quiet, StoppedAt, TargetAt;
    FirstCandleDecides(rows, s, i);
    var end := i + 12 * s.holdHours + 1;
    var n := FirstTouch(rows, i + 1, end, StopLevel(rows, s, i), TargetLevel(rows, s, i));
    if n < end { assert StoppedAt(rows, s, i, n) || TargetAt(rows, s, i, n); }
  }

  lemma SettlesByCase(rows: seq<Row>, s: Settings, i: nat, r: Resolution)
    requires i + 12 * s.holdHours < |rows| && s.holdHours >= 1
    requires Settle(rows, i + 1, s.stopPct, s.targetPct, HorizonBars(s)) == Ok(r)
    ensures var end := i + 12 * s.holdHours + 1;
            var n := FirstTouch(rows, i + 1, end, StopLevel(rows, s, i), TargetLevel(rows, s, i));
            && (n < end && rows[n].high >= StopLevel(rows, s, i) ==> r == Stopped(rows, s, i, n))
            && (n < end && rows[n].high < StopLevel(rows, s, i) ==> s.stopPct != 0.0 && r == Reached(rows, s, i, n))
            && (n == end ==> rows[i + 1].open != 0.0 && s.stopPct != 0.0 && r == Expired(rows, s, i, rows[end - 1]))
  {
    hide StopLevel, TargetLevel, StopPrice, TargetPrice, TouchExit, TimeoutExit, Stopped, Reached, Expired, FirstTouch;
    Levels(rows, s, i);
    assert Min(HorizonBars(s), |rows| - (i + 1)) == 12 * s.holdHours;
    var end := i + 12 * s.holdHours + 1;
    var n := FirstTouch(rows, i + 1, end, StopLevel(rows, s, i), TargetLevel(rows, s, i));
    FirstTouchInside(rows, i + 1, end, StopLevel(rows, s, i), TargetLevel(rows, s, i));
    if n < end { TouchExits(rows, s, i, n, r); } else { TimeoutExits(rows, s, i, rows[end - 1], r); }
  }

  lemma FirstTouchInside(rows: seq<Row>, i: nat, end: nat, stop: real, target: real)
    requires i <= end <= |rows|
    ensures i <= FirstTouch(rows, i, end, stop, target) <= end
    ensures var n := FirstTouch(rows, i, end, stop, target); n < end ==> rows[n].high >= stop || rows[n].low <= target
  {}

  lemma TouchExits(rows: seq<Row>, s: Settings, i: nat, n: nat, r: Resolution)
    requires i + 1 < |rows| && n < |rows| && (rows[n].high >= StopLevel(rows, s, i) || rows[n].low <= TargetLevel(rows, s, i))
    requires TouchExit(rows[n], StopLevel(rows, s, i), TargetLevel(rows, s, i), s.stopPct, s.targetPct) == Ok(r)
    ensures rows[n].high >= StopLevel(rows, s, i) ==> r == Stopped(rows, s, i, n)
    ensures rows[n].high < StopLevel(rows, s, i) ==> s.stopPct != 0.0 && r == Reached(rows, s, i, n)
  {
    hide StopLevel, TargetLevel;
  }

  lemma TimeoutExits(rows: seq<Row>, s: Settings, i: nat, last: Row, r: Resolution)
    requires i + 1 < |rows| && TimeoutExit(rows[i + 1].open, last, s.stopPct) == Ok(r)
    ensures rows[i + 1].open != 0.0 && s.stopPct != 0.0 && r == Expired(rows, s, i, last)
  {}

  lemma SettlementMeans(rows: seq<Row>, s: Settings, rules: Rules, i: nat, d: Decision)
    requires i + 12 * s.holdHours < |rows| && s.holdHours >= 1 && d.closeTime == rows[i].ts + 300_000
    requires SettleAt(rows, s, rules, i, d).Ok?
    ensures SettledAt(SettleAt(rows, s, rules, i, d).value, rows, s, rules, i)
  {
    hide Settle, TradeOf, StopLevel, TargetLevel, Stopped, Reached, Expired, Quiet, StoppedAt, TargetAt, Says;
    var r := Settle(rows, i + 1, s.stopPct, s.targetPct, HorizonBars(s)).value;
    FirstCandleDecides(rows, s, i);
    SettlesByCase(rows, s, i, r);
    SettledSays(rows, s, rules, i, d, r);
  }

  lemma SettledSays(rows: seq<Row>, s: Settings, rules: Rules, i: nat, d: Decision, r: Resolution)
    requires i + 1 < |rows| && d.closeTime == rows[i].ts + 300_000
    ensures Says(TradeOf(rows[i + 1], s, rules, d, r), rows, s, rules, i, r)
  {
    hide Metrics.Round6;
  }

  // ---- When there is no settlement, and no scan --------------------------------------------------------

  /** Settling refuses an empty horizon, then an entry outside the candles, and a zero stop or entry it would divide by. */
  lemma SettlesExactly(rows: seq<Row>, entryIndex: int, stopPct: real, targetPct: real, horizonBars: int)
    ensures var r := Settle(rows, entryIndex, stopPct, targetPct, horizonBars);
            && (horizonBars < 1 ==> r == Err("outcome horizon must include at least one candle"))
            && (horizonBars >= 1 && !(0 <= entryIndex < |rows|) ==> r == Err("outcome entry is outside available candles"))
            && (horizonBars >= 1 && 0 <= entryIndex < |rows| && stopPct != 0.0 && rows[entryIndex].open != 0.0 ==> r.Ok?)
  {}

  /** A scan goes by five minutes, a quarter, one or four hours, with a cooldown, a holding time and a threshold of at most 75. */
  lemma ScansExactly(rows: seq<Row>, macro: Option<seq<seq<Row>>>, s: Settings, mode: Mode, rules: Rules)
    ensures var r := Evaluated(rows, macro, s, mode, rules);
            var goes := s.triggerInterval in {1, 3, 12, 48};
            && (!goes ==> r == Err("trigger interval must close a 5m, 15m, 1h, or 4h candle"))
            && (goes && s.cooldownHours < 1 ==> r == Err("cooldown hours must be at least one"))
            && (goes && s.cooldownHours >= 1 && s.holdHours < 1 ==> r == Err("hold hours must be at least one"))
            && (goes && s.cooldownHours >= 1 && s.holdHours >= 1 && !(0.0 <= mode.threshold <= 75.0) ==>
                  r == Err("invalid historical Score V2 available-component threshold"))
            && (goes && s.cooldownHours >= 1 && s.holdHours >= 1 && 0.0 <= mode.threshold <= 75.0 && Divisible(rows, s) ==> r.Ok?)
  {
    hide CandidateAt, SourceOf, Scanned, Divisible, SettingsError;
    SettingsMean(s, mode);
    if SettingsError(s, mode).None? && Divisible(rows, s) { DivisibleScans(rows, macro, s, mode, rules); }
  }

  lemma SettingsMean(s: Settings, mode: Mode)
    ensures SettingsError(s, mode) ==
            if !(s.triggerInterval in {1, 3, 12, 48}) then Some("trigger interval must close a 5m, 15m, 1h, or 4h candle")
            else if s.cooldownHours < 1 then Some("cooldown hours must be at least one")
            else if s.holdHours < 1 then Some("hold hours must be at least one")
            else if !(0.0 <= mode.threshold <= 75.0) then Some("invalid historical Score V2 available-component threshold")
            else None
  {}

  lemma DivisibleScans(rows: seq<Row>, macro: Option<seq<seq<Row>>>, s: Settings, mode: Mode, rules: Rules)
    requires SettingsError(s, mode).None? && Divisible(rows, s)
    ensures Scanned(SourceOf(rows, macro, s, rules), s, mode).Ok?
  {
    hide CandidateAt, Settle;
    var src := SourceOf(rows, macro, s, rules);
    forall i, d | 0 <= i < src.limit ensures src.settle(i, d).Ok? {
      SettlesExactly(rows, i + 1, s.stopPct, s.targetPct, HorizonBars(s));
    }
    ScansThrough(src, s, mode, Steps(src.limit));
  }

  /** Returns can be computed: no stop or entry is zero. */
  predicate Divisible(rows: seq<Row>, s: Settings) { s.stopPct != 0.0 && forall k :: 0 <= k < |rows| ==> rows[k].open != 0.0 }

  lemma {:induction false} ScansThrough(src: Source, s: Settings, mode: Mode, k: nat)
    requires s.triggerInterval >= 1 && forall i, d {:trigger src.settle(i, d)} :: 0 <= i < src.limit ==> src.settle(i, d).Ok?
    ensures Signals(src, s, mode, k).Ok?
  {
    if k > 0 {
      ScansThrough(src, s, mode, k - 1);
      IndexGrows(s, k - 1);
    }
  }

  // ---- The scan as a whole ----------------------------------------------------------------------------

  /** The trade carries the symbol, the time, the score and the flags of the evidence under their names. */
  ghost predicate Carries(t: Trade, s: Settings, mode: Mode, d: Decision) {
    && t.symbol == s.symbol && t.timestamp == d.closeTime && t.availableScore == d.availableScore && t.poolEvent == mode.emitPool
    && t.evidence.Some?
    && t.evidence.value.Keys == {"5m", "15m", "1h", "4h"}
    && Names(t.evidence.value["5m"], d.checks.m5.flags) && Names(t.evidence.value["15m"], d.checks.m15.flags)
    && Names(t.evidence.value["1h"], d.checks.h1.flags) && Names(t.evidence.value["4h"], d.checks.h4.flags)
  }

  ghost predicate Names(m: map<string, bool>, f: Flags) {
    && m.Keys == {"two_bearish", "lower_high", "volume_acceleration", "rsi_rollover", "reclaim_or_repump", "bearish_close"}
    && m["two_bearish"] == f.twoBearish && m["lower_high"] == f.lowerHigh && m["volume_acceleration"] == f.volumeAcceleration
    && m["rsi_rollover"] == f.rsiRollover && m["reclaim_or_repump"] == f.reclaimOrRepump && m["bearish_close"] == f.bearishClose
  }

  lemma SettlementCarries(rows: seq<Row>, s: Settings, mode: Mode, rules: Rules, i: nat, d: Decision)
    requires SettleAt(rows, s, rules, i, d).Ok?
    ensures Carries(SettleAt(rows, s, rules, i, d).value.(poolEvent := mode.emitPool), s, mode, d)
  {
    hide Settle, FlagMap;
    FlagsNamed(d.checks.m5.flags);
    FlagsNamed(d.checks.m15.flags);
    FlagsNamed(d.checks.h1.flags);
    FlagsNamed(d.checks.h4.flags);
  }

  lemma FlagsNamed(f: Flags)
    ensures Names(FlagMap(f), f)
  {}

  /** Where signal `g` of a scan comes from and what it says. */
  ghost predicate Explains(rows: seq<Row>, macro: Option<seq<seq<Row>>>, s: Settings, mode: Mode, rules: Rules, i: nat, g: Signal)
  {
    && s.holdHours >= 1 && i + 12 * s.holdHours < |rows| && Stop(s, |rows|, i)
    && From(rows, macro, s, mode, rules, i, g.decision)
    && SettledAt(g.trade, rows, s, rules, i) && Carries(g.trade, s, mode, g.decision)
  }

  /**
   Every signal of a scan is the candidate of a row the scan stops at, and its trade is settled from the next candle on by
   the stop and the target of the settings.
   */
  lemma SignalsAreSettled(rows: seq<Row>, macro: Option<seq<seq<Row>>>, s: Settings, mode: Mode, rules: Rules, g: nat)
    requires Evaluated(rows, macro, s, mode, rules).Ok? && g < |Evaluated(rows, macro, s, mode, rules).value|
    ensures exists i: nat :: Explains(rows, macro, s, mode, rules, i, Evaluated(rows, macro, s, mode, rules).value[g])
  {
    hide CandidateAt, SettleAt, SettledAt, Admitted, Carries;
    var src := SourceOf(rows, macro, s, rules);
    var n := Steps(src.limit);
    var signal := Evaluated(rows, macro, s, mode, rules).value[g];
    SignalOrigin(src, s, mode, n, g);
    var j: nat :| j < n && EmittedAt(src, s, mode, IndexAt(s, j), signal);
    var i := IndexAt(s, j);
    IndexGrows(s, j);
    StopsThere(s, |rows|, j);
    CandidateExactly(rows, macro, s, rules, i, signal.decision);
    CandidateShape(rows, macro, s, rules, i);
    SettlementMeans(rows, s, rules, i, signal.decision);
    PoolFlagIsNoMatter(SettleAt(rows, s, rules, i, signal.decision).value, rows, s, rules, i, mode.emitPool);
    SettlementCarries(rows, s, mode, rules, i, signal.decision);
    assert Explains(rows, macro, s, mode, rules, i, signal);
  }

  function Steps(limit: int): nat { if limit > 0 then limit else 0 }

  lemma StopsThere(s: Settings, length: int, k: nat)
    requires IndexAt(s, k) < length - HorizonBars(s)
    ensures Stop(s, length, IndexAt(s, k))
  {
    assert StopAt(s, length, IndexAt(s, k), k);
  }

  lemma PoolFlagIsNoMatter(t: Trade, rows: seq<Row>, s: Settings, rules: Rules, i: nat, flag: bool)
    requires i + 1 < |rows| && i + 12 * s.holdHours < |rows| && s.holdHours >= 1 && SettledAt(t, rows, s, rules, i)
    ensures SettledAt(t.(poolEvent := flag), rows, s, rules, i)
  {
    hide Metrics.Round6;
  }

  /**
   And every candidate of a row the scan stops at, past the signal start and at the threshold, is a signal -- in a direct
   run, unless an earlier signal is less than the cooldown before it. Signals of a direct run are a cooldown apart.
   */
  lemma NoCandidateIsMissed(rows: seq<Row>, macro: Option<seq<seq<Row>>>, s: Settings, mode: Mode, rules: Rules, i: nat,
                            d: Decision)
    requires Candles.Spaced(rows) && Evaluated(rows, macro, s, mode, rules).Ok?
    requires i < |rows| && Stop(s, |rows|, i) && From(rows, macro, s, mode, rules, i, d)
    ensures Accounted(Evaluated(rows, macro, s, mode, rules).value, s, mode, rows[i].ts + 300_000, d)
    ensures !mode.emitPool ==>
              var signals := Evaluated(rows, macro, s, mode, rules).value;
              forall g, h :: 0 <= g < h < |signals| ==>
                signals[g].decision.closeTime + s.cooldownHours * 3_600_000 <= signals[h].decision.closeTime
  {
    hide CandidateAt, SettleAt, Admitted, Candles.Spaced, Accounted;
    var src := SourceOf(rows, macro, s, rules);
    var n := Steps(src.limit);
    CandlesOrdered(rows, macro, s, rules);
    CandidateExactly(rows, macro, s, rules, i, d);
    var k: nat :| StopAt(s, |rows|, i, k);
    IndexGrows(s, k);
    assert i == IndexAt(s, k);
    NothingIsMissed(src, s, mode, n, k, d);
    SignalsChronological(src, s, mode, n);
  }

  lemma CandlesOrdered(rows: seq<Row>, macro: Option<seq<seq<Row>>>, s: Settings, rules: Rules)
    requires Candles.Spaced(rows) && s.holdHours >= 1
    ensures Ordered(SourceOf(rows, macro, s, rules), s)
  {
    hide CandidateAt, SettleAt, Candles.Spaced;
    var src := SourceOf(rows, macro, s, rules);
    forall i, j | 0 <= i < j < src.limit ensures src.closeTime(i) < src.closeTime(j) {
      ConsecutiveTimes(rows, i, j);
    }
    forall i | 0 <= i < src.limit && src.candidate(i).Some? ensures src.candidate(i).value.closeTime == src.closeTime(i) {
      CandidateShape(rows, macro, s, rules, i);
    }
  }
}
