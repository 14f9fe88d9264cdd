/**
 The historical scan: a trigger index walks along the candles, evidence is read from the bars
 closed by then through a memo, and admitted candidates are settled under a cooldown.
 */
module Evaluate {
  import opened Wrappers
  import opened Sequences
  import opened Trades
  import Metrics
  import opened Candles
  import opened Outcomes
  import opened Scan

  const DAY_BARS := 288
  datatype Timeframe = M5 | M15 | H1 | H4

  function Multiplier(t: Timeframe): (m: int)
    ensures m > 0
  {
    match t
    case M5 => 1
    case M15 => 3
    case H1 => 12
    case H4 => 48
  }

  /** The numeric rules, as functions of what the code hands them. */
  datatype Rules = Rules(
    measure: (seq<Bar>, int) -> Evidence,
    bearishTrend: seq<real> -> bool,
    scoreV2Context: int -> Option<Derivatives>,
    context: int -> Option<Derivatives>,
    longUnwind: Option<Derivatives> -> bool,
    availableScore: (Checks, Derivatives, Option<bool>) -> Option<real>,
    netReturn: (int, Row, Resolution) -> Option<real>,
    costs: (int, Row, Resolution) -> Option<Costs>)

  // ---- Evidence --------------------------------------------------------------------

  function Max0(x: int): nat { if x < 0 then 0 else x }

  function EvidenceOf(rules: Rules, bars: seq<Bar>, minimumStrength: int): Option<Evidence> {
    if |bars| < MINIMUM_BARS then None else Some(rules.measure(bars, minimumStrength))
  }

  /** Evidence from the last hundred bars before `endpoint`. */
  function EvidenceAt(rules: Rules, bars: seq<Bar>, endpoint: nat, minimumStrength: int): Option<Evidence>
    requires endpoint <= |bars|
  {
    EvidenceOf(rules, bars[Max0(endpoint - EVIDENCE_WINDOW)..endpoint], minimumStrength)
  }

  function EndpointOf(bars: seq<Bar>, t: Timeframe, closeTime: int): (n: nat)
    ensures n <= |bars|
  {
    BisectRight(CloseTimes(bars, Multiplier(t)), closeTime)
  }

  function LatestEvidence(rows: seq<Row>, rules: Rules, minimumStrength: int, t: Timeframe, closeTime: int): Option<Evidence> {
    var bars := Resampled(rows, Multiplier(t));
    EvidenceAt(rules, bars, EndpointOf(bars, t, closeTime), minimumStrength)
  }

  /** `grouped`, `close_times` and the evidence cache of one scan. */
  class EvidenceMemo {
    const rules: Rules
    const minimumStrength: int
    const grouped: map<Timeframe, seq<Bar>>
    const closeTimes: map<Timeframe, seq<int>>
    ghost const rows: seq<Row>
    var cache: map<(Timeframe, nat), Option<Evidence>>

    /** Every cached entry is what recomputing it would give. */
    ghost predicate Valid()
      reads this
    {
      && (forall t: Timeframe :: t in grouped && t in closeTimes
            && grouped[t] == Resampled(rows, Multiplier(t)) && closeTimes[t] == CloseTimes(grouped[t], Multiplier(t)))
      && forall t: Timeframe, n: nat :: (t, n) in cache ==>
           n <= |grouped[t]| && cache[(t, n)] == EvidenceAt(rules, grouped[t], n, minimumStrength)
    }

    constructor (rows: seq<Row>, rules: Rules, minimumStrength: int)
      ensures Valid() && this.rows == rows && this.rules == rules && this.minimumStrength == minimumStrength
    {
      var m5 := Resample(rows, 1);
      var m15 := Resample(rows, 3);
      var h1 := Resample(rows, 12);
      var h4 := Resample(rows, 48);
      this.rules := rules;
      this.minimumStrength := minimumStrength;
      this.rows := rows;
      grouped := map[M5 := m5, M15 := m15, H1 := h1, H4 := h4];
      closeTimes := map[M5 := CloseTimes(m5, 1), M15 := CloseTimes(m15, 3), H1 := CloseTimes(h1, 12), H4 := CloseTimes(h4, 48)];
      cache := map[];
      new;
      forall t: Timeframe
        ensures t in grouped && t in closeTimes
        ensures grouped[t] == Resampled(rows, Multiplier(t)) && closeTimes[t] == CloseTimes(grouped[t], Multiplier(t))
      {
        match t case M5 => case M15 => case H1 => case H4 =>
      }
    }

    method Latest(t: Timeframe, closeTime: int) returns (e: Option<Evidence>)
      requires Valid()
      modifies this
      ensures Valid()
      ensures e == LatestEvidence(rows, rules, minimumStrength, t, closeTime)
    {
      var endpoint := BisectRight(closeTimes[t], closeTime);
      if (t, endpoint) !in cache {
        cache := cache[(t, endpoint) := EvidenceAt(rules, grouped[t], endpoint, minimumStrength)];
      }
      e := cache[(t, endpoint)];
    }
  }

  function MarketRegimeAt(rows: seq<Row>, rules: Rules, closeTime: int): bool {
    var bars := Resampled(rows, Multiplier(H4));
    rules.bearishTrend(Map(bars[..EndpointOf(bars, H4, closeTime)], (b: Bar) => b.close))
  }

  predicate MacroConfirmed(macro: Option<seq<seq<Row>>>, rules: Rules, closeTime: int) {
    macro.None? || forall i :: 0 <= i < |macro.value| ==> MarketRegimeAt(macro.value[i], rules, closeTime)
  }

  // ---- Stages and eligibility ---------------------------------------------------------

  predicate StrongTrigger(c: Checks) {
    var f := c.m15.flags;
    && f.twoBearish && f.lowerHigh && f.volumeAcceleration && f.bearishClose
    && c.m5.flags.lowerHigh && c.m5.flags.bearishClose
  }

  function ChannelSetup(c: Checks): Option<string> {
    var damage := c.h4.supportBroken && c.h4.flags.lowerHigh;
    if c.h4.failedPullback then Some("FAILED_PULLBACK")
    else if damage && c.h4.flags.bearishClose && c.h4.flags.volumeAcceleration then Some("BREAKDOWN")
    else if damage && c.h1.flags.twoBearish && c.h1.flags.lowerHigh && c.h1.flags.bearishClose then Some("CONTINUATION")
    else None
  }

  function PassedCount(c: Checks): int {
    (if c.m5.passed then 1 else 0) + (if c.m15.passed then 1 else 0)
    + (if c.h1.passed then 1 else 0) + (if c.h4.passed then 1 else 0)
  }

  function StagesOf(strategy: Strategy, c: Checks): Stages {
    match strategy
    case Legacy => Stages(c.h4.passed, true, c.h1.passed, None, PassedCount(c) >= 2)
    case WaterfallV2 =>
      Stages(c.h4.flags.lowerHigh && c.h4.flags.bearishClose && c.h4.flags.rsiRollover, true,
             c.h1.flags.twoBearish && c.h1.flags.lowerHigh && c.h1.flags.reclaimOrRepump, None, StrongTrigger(c))
    case PostHypeV1 =>
      Stages(c.h4.hypeContext, c.h4.supportBroken && c.h4.flags.lowerHigh, c.h4.failedPullback, None, StrongTrigger(c))
    case ChannelV1 =>
      Stages(c.h4.hypeContext, c.h4.supportBroken && c.h4.flags.lowerHigh, ChannelSetup(c).Some?, ChannelSetup(c),
             c.m15.flags.lowerHigh && c.m15.flags.bearishClose && c.m5.flags.lowerHigh && c.m5.flags.bearishClose)
  }

  predicate Eligible(s: Settings, c: Checks) {
    if s.strategy.Legacy? then c.h1.passed && c.h4.passed && PassedCount(c) >= s.minimumConfirmed
    else var stages := StagesOf(s.strategy, c); stages.first && stages.damage && stages.setup && stages.trigger
  }

  function ScoreOf(c: Checks): real {
    5.0 * c.m5.strength / 100.0 + 8.0 * c.m15.strength / 100.0 + 10.0 * c.h1.strength / 100.0 + 12.0 * c.h4.strength / 100.0
  }

  /** The early exit of the channel strategy on its four-hour evidence. */
  predicate ChannelContext(s: Settings, h4: Evidence) {
    s.strategy.ChannelV1? ==> h4.hypeContext && h4.supportBroken && h4.flags.lowerHigh
  }

  // ---- Trailing-day measures --------------------------------------------------------------

  function QuoteSum(rows: seq<Row>): real {
    if |rows| == 0 then 0.0 else QuoteSum(rows[..|rows| - 1]) + rows[|rows| - 1].quoteVolume
  }

  function TurnoverSum(rows: seq<Row>): real {
    if |rows| == 0 then 0.0 else TurnoverSum(rows[..|rows| - 1]) + rows[|rows| - 1].close * rows[|rows| - 1].volume
  }

  /** The 288 candles before `end`, when there are that many. */
  function LastDay(rows: seq<Row>, end: nat): Option<seq<Row>>
    requires end <= |rows|
  {
    if end >= DAY_BARS then Some(rows[end - DAY_BARS..end]) else None
  }

  function QuoteVolume(rows: seq<Row>, end: nat): Option<real>
    requires end <= |rows|
  {
    var day := LastDay(rows, end);
    if day.Some? && QuoteSum(day.value) >= 0.0 then Some(QuoteSum(day.value)) else None
  }

  function BelowVwap(rows: seq<Row>, end: nat): Option<bool>
    requires end <= |rows|
  {
    var day := LastDay(rows, end);
    if day.None? || Volume(day.value) == 0.0 then None
    else Some(day.value[DAY_BARS - 1].close < TurnoverSum(day.value) / Volume(day.value))
  }

  // ---- One trigger index -----------------------------------------------------------------

  function CloseTime(r: Row): int { r.ts + FIVE_MINUTES }

  /** The four evidence packets at `closeTime`, or `None` when the scan skips the index for want of one. */
  function ChecksAt(rows: seq<Row>, s: Settings, rules: Rules, closeTime: int): Option<Checks> {
    var h4 := LatestEvidence(rows, rules, s.minimumStrength, H4, closeTime);
    if h4.None? || !ChannelContext(s, h4.value) then None
    else
      var m5 := LatestEvidence(rows, rules, s.minimumStrength, M5, closeTime);
      var m15 := LatestEvidence(rows, rules, s.minimumStrength, M15, closeTime);
      var h1 := LatestEvidence(rows, rules, s.minimumStrength, H1, closeTime);
      if m5.None? || m15.None? || h1.None? then None else Some(Checks(m5.value, m15.value, h1.value, h4.value))
  }

  datatype DerivativesVerdict = Refused | Accepted(derivatives: Option<Derivatives>, availableScore: Option<real>)

  function DerivativesAt(s: Settings, rules: Rules, c: Checks, belowVwap: Option<bool>, closeTime: int): DerivativesVerdict {
    match s.filter
    case Off => Accepted(None, None)
    case LongUnwind =>
      var data := rules.context(closeTime);
      if rules.longUnwind(data) then Accepted(data, None) else Refused
    case ScoreV2 =>
      var data := rules.scoreV2Context(closeTime);
      if data.None? || data.value.takerRatio >= 1.0 then Refused
      else
        var score := rules.availableScore(c, data.value, belowVwap);
        if score.None? then Refused else Accepted(data, score)
  }

  /** The candidate at index `i`, before threshold and cooldown. */
  function CandidateAt(rows: seq<Row>, macro: Option<seq<seq<Row>>>, s: Settings, rules: Rules, i: nat): Option<Decision>
    requires i + 1 <= |rows|
  {
    var closeTime := CloseTime(rows[i]);
    var checks := ChecksAt(rows, s, rules, closeTime);
    if checks.None? then None
    else Judge(s, rules, checks.value, MacroConfirmed(macro, rules, closeTime),
               QuoteVolume(rows, i + 1), BelowVwap(rows, i + 1), closeTime)
  }

  function Judge(s: Settings, rules: Rules, c: Checks, macroConfirmed: bool, quoteVolume: Option<real>, belowVwap: Option<bool>,
                 closeTime: int): Option<Decision> {
    if !(Eligible(s, c) && macroConfirmed) then None
    else if quoteVolume.None? || quoteVolume.value < s.minimumQuoteVolume then None
    else
      var verdict := DerivativesAt(s, rules, c, belowVwap, closeTime);
      if verdict.Refused? then None
      else Some(Decision(closeTime, ScoreOf(c), StagesOf(s.strategy, c), c,
                         verdict.derivatives, verdict.availableScore, quoteVolume.value))
  }

  function FlagMap(f: Flags): map<string, bool> {
    map["two_bearish" := f.twoBearish, "lower_high" := f.lowerHigh, "volume_acceleration" := f.volumeAcceleration,
        "rsi_rollover" := f.rsiRollover, "reclaim_or_repump" := f.reclaimOrRepump, "bearish_close" := f.bearishClose]
  }

  function SignalEvidence(c: Checks): map<string, map<string, bool>> {
    map["5m" := FlagMap(c.m5.flags), "15m" := FlagMap(c.m15.flags), "1h" := FlagMap(c.h1.flags), "4h" := FlagMap(c.h4.flags)]
  }

  // ---- Settlement ----------------------------------------------------------------------------

  function SettleAt(rows: seq<Row>, s: Settings, rules: Rules, i: int, d: Decision): Result<Trade, string> {
    var r := Settle(rows, i + 1, s.stopPct, s.targetPct, HorizonBars(s));
    if r.Err? then Err(r.error) else Ok(TradeOf(rows[i + 1], s, rules, d, r.value))
  }

  function TradeOf(entry: Row, s: Settings, rules: Rules, d: Decision, r: Resolution): Trade {
    Trade(
      s.symbol, d.closeTime, Some(r.exitTimestamp), Some(Metrics.Round6(r.realizedR)),
      rules.netReturn(d.closeTime, entry, r), rules.costs(d.closeTime, entry, r),
      Some(SignalEvidence(d.checks)), d.availableScore, false)
  }

  /** A candidate is stamped with the close of its candle, and scored only under the Score V2 filter. */
  lemma CandidateShape(rows: seq<Row>, macro: Option<seq<seq<Row>>>, s: Settings, rules: Rules, i: nat)
    requires i < |rows| && CandidateAt(rows, macro, s, rules, i).Some?
    ensures var d := CandidateAt(rows, macro, s, rules, i).value;
            d.closeTime == CloseTime(rows[i]) && (s.filter.ScoreV2? || d.availableScore.None?)
  {
    hide ChecksAt, MacroConfirmed, QuoteVolume, BelowVwap, Eligible, ScoreOf, StagesOf;
  }

  /** The source of candidates the candles and rules give. */
  function SourceOf(rows: seq<Row>, macro: Option<seq<seq<Row>>>, s: Settings, rules: Rules): Source {
    Source(
      |rows| - HorizonBars(s),
      i => if 0 <= i < |rows| then CloseTime(rows[i]) else 0,
      i => if 0 <= i < |rows| then CandidateAt(rows, macro, s, rules, i) else None,
      (i, d) => SettleAt(rows, s, rules, i, d))
  }

  function Evaluated(rows: seq<Row>, macro: Option<seq<seq<Row>>>, s: Settings, mode: Mode,
                     rules: Rules): Result<seq<Signal>, string> {
    var refused := SettingsError(s, mode);
    if refused.Some? then Err(refused.value) else Scanned(SourceOf(rows, macro, s, rules), s, mode)
  }

  // ---- The imperative scan ---------------------------------------------------------------------

  ghost predicate At(i: int) { true }

  /** `src` is what candles and rules give, unfolded only at an index marked with `At`. */
  ghost predicate Describes(src: Source, rows: seq<Row>, macro: Option<seq<seq<Row>>>, s: Settings, rules: Rules) {
    && src.limit == |rows| - HorizonBars(s)
    && forall i {:trigger At(i)} :: At(i) ==> 0 <= i < |rows| ==>
         && src.closeTime(i) == CloseTime(rows[i])
         && src.candidate(i) == CandidateAt(rows, macro, s, rules, i)
         && forall d :: src.settle(i, d) == SettleAt(rows, s, rules, i, d)
  }

  ghost predicate Serves(memo: EvidenceMemo, rows: seq<Row>, s: Settings, rules: Rules)
    reads memo
  {
    memo.Valid() && memo.rows == rows && memo.rules == rules && memo.minimumStrength == s.minimumStrength
  }

  method Evaluate(rows: seq<Row>, macro: Option<seq<seq<Row>>>, s: Settings, mode: Mode, rules: Rules)
    returns (r: Result<seq<Signal>, string>)
    ensures r == Evaluated(rows, macro, s, mode, rules)
  {
    var refused := SettingsError(s, mode);
    if refused.Some? { return Err(refused.value); }
    r := ScanCandles(rows, macro, s, mode, rules, SourceOf(rows, macro, s, rules));
  }

  method ScanCandles(rows: seq<Row>, macro: Option<seq<seq<Row>>>, s: Settings, mode: Mode, rules: Rules, ghost src: Source)
    returns (r: Result<seq<Signal>, string>)
    requires s.triggerInterval >= 1 && s.holdHours >= 1
    requires Describes(src, rows, macro, s, rules)
    ensures r == Scanned(src, s, mode)
  {
    var horizonBars := HorizonBars(s);
    var memo := new EvidenceMemo(rows, rules, s.minimumStrength);
    var signals: seq<Signal> := [];
    var cooldownUntil := 0;
    var i := FirstIndex(s);
    ghost var k: nat := 0;
    while i < |rows| - horizonBars
      invariant Serves(memo, rows, s, rules)
      invariant i == IndexAt(s, k) >= FirstIndex(s)
      invariant Signals(src, s, mode, k) == Ok(signals)
      invariant cooldownUntil == CooldownUntil(signals, s, mode)
      decreases |rows| - horizonBars - i
    {
      var error;
      signals, cooldownUntil, error := Consider(rows, macro, s, mode, rules, i, signals, cooldownUntil, memo, src);
      if error.Some? {
        ErrorsReachTheEnd(src, s, mode, k + 1);
        return Err(error.value);
      }
      NextIndex(s, k);
      i := i + s.triggerInterval;
      k := k + 1;
    }
    ScannedAt(src, s, mode, k);
    return Ok(signals);
  }

  lemma ErrorsReachTheEnd(src: Source, s: Settings, mode: Mode, k: nat)
    requires s.triggerInterval >= 1 && Signals(src, s, mode, k).Err?
    ensures Scanned(src, s, mode) == Signals(src, s, mode, k)
  {
    var n: nat := if src.limit > 0 then src.limit else 0;
    IndexGrows(s, n);
    if k <= n {
      ErrorsPersist(src, s, mode, k, n);
    } else {
      NothingAfterTheEnd(src, s, mode, n, k);
    }
  }

  /** The body of the scan at one trigger index. */
  method Consider(rows: seq<Row>, macro: Option<seq<seq<Row>>>, s: Settings, mode: Mode, rules: Rules, i: nat,
                  signals: seq<Signal>, cooldownUntil: int, memo: EvidenceMemo, ghost src: Source)
    returns (after: seq<Signal>, until: int, error: Option<string>)
    requires Describes(src, rows, macro, s, rules)
    requires i < src.limit && s.holdHours >= 1 && cooldownUntil == CooldownUntil(signals, s, mode)
    requires Serves(memo, rows, s, rules)
    modifies memo
    ensures Serves(memo, rows, s, rules)
    ensures Visit(src, s, mode, i, signals) == if error.Some? then Err(error.value) else Ok(after)
    ensures until == CooldownUntil(after, s, mode)
  {
    after, until, error := signals, cooldownUntil, None;
    var closeTime := CloseTime(rows[i]);
    assert closeTime == src.closeTime(i) by { assert At(i); }
    if s.signalStart.Some? && closeTime < s.signalStart.value { return; }
    if closeTime < cooldownUntil && !mode.emitPool { return; }
    var d := FindCandidate(rows, macro, s, rules, i, memo, src);
    if d.None? || !MeetsThreshold(s, mode, d.value) { return; }
    var t := SettleCandidate(rows, macro, s, rules, i, d.value, src);
    if t.Err? {
      error := Some(t.error);
      return;
    }
    after := signals + [Signal(d.value, Flagged(t.value, mode))];
    if !mode.emitPool { until := d.value.closeTime + HoursMs(s.cooldownHours); }
  }

  method SettleCandidate(rows: seq<Row>, ghost macro: Option<seq<seq<Row>>>, s: Settings, rules: Rules,
                         i: nat, d: Decision, ghost src: Source)
    returns (t: Result<Trade, string>)
    requires Describes(src, rows, macro, s, rules) && i < |rows|
    ensures t == src.settle(i, d)
  {
    hide TradeOf;
    assert At(i);
    var r := OutcomeDetails(rows, i + 1, s.stopPct, s.targetPct, HorizonBars(s));
    if r.Err? { return Err(r.error); }
    return Ok(TradeOf(rows[i + 1], s, rules, d, r.value));
  }

  method FindCandidate(rows: seq<Row>, macro: Option<seq<seq<Row>>>, s: Settings, rules: Rules,
                       i: nat, memo: EvidenceMemo, ghost src: Source)
    returns (d: Option<Decision>)
    requires Describes(src, rows, macro, s, rules) && i < |rows|
    requires Serves(memo, rows, s, rules)
    modifies memo
    ensures Serves(memo, rows, s, rules)
    ensures d == src.candidate(i)
  {
    assert At(i);
    var closeTime := CloseTime(rows[i]);
    var checks := GatherChecks(rows, s, rules, closeTime, memo);
    if checks.None? { return None; }
    d := Judge(s, rules, checks.value, MacroConfirmed(macro, rules, closeTime),
               QuoteVolume(rows, i + 1), BelowVwap(rows, i + 1), closeTime);
  }

  method GatherChecks(rows: seq<Row>, s: Settings, rules: Rules, closeTime: int, memo: EvidenceMemo) returns (c: Option<Checks>)
    requires Serves(memo, rows, s, rules)
    modifies memo
    ensures Serves(memo, rows, s, rules)
    ensures c == ChecksAt(rows, s, rules, closeTime)
  {
    var h4 := memo.Latest(H4, closeTime);
    if h4.None? || !ChannelContext(s, h4.value) { return None; }
    var m5 := memo.Latest(M5, closeTime);
    var m15 := memo.Latest(M15, closeTime);
    var h1 := memo.Latest(H1, closeTime);
    if m5.None? || m15.None? || h1.None? { return None; }
    return Some(Checks(m5.value, m15.value, h1.value, h4.value));
  }
}
