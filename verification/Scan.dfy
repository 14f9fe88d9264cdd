/**
 The scan over trigger indices, for any source of candidates: signal start, cooldown,
 threshold, settlement. Where candidates come from is the business of `Evaluate`.
 */
module Scan {
  import opened Wrappers
  import opened Trades

  const EVIDENCE_WINDOW := 100
  const MINIMUM_BARS := 20
  const AVAILABLE_MAXIMUM := 75.0

  datatype Strategy = Legacy | WaterfallV2 | PostHypeV1 | ChannelV1

  datatype DerivativesFilter = Off | LongUnwind | ScoreV2

  datatype Flags = Flags(
    twoBearish: bool, lowerHigh: bool, volumeAcceleration: bool, rsiRollover: bool, reclaimOrRepump: bool, bearishClose: bool)

  datatype Evidence = Evidence(
    strength: real, passed: bool, flags: Flags, supportBroken: bool, failedPullback: bool, hypeContext: bool)

  datatype Checks = Checks(m5: Evidence, m15: Evidence, h1: Evidence, h4: Evidence)

  /** `first` is the regime or hype stage; stages a strategy lacks hold. */
  datatype Stages = Stages(first: bool, damage: bool, setup: bool, setupType: Option<string>, trigger: bool)

  datatype Derivatives = Derivatives(takerRatio: real, rest: seq<real>)

  /** What the scan is configured with. */
  datatype Settings = Settings(
    symbol: string, minimumStrength: int, minimumConfirmed: int, stopPct: real, targetPct: real,
    strategy: Strategy, triggerInterval: int, cooldownHours: int, holdHours: int,
    filter: DerivativesFilter, signalStart: Option<int>, minimumQuoteVolume: real)

  /** Whether the pre-threshold, pre-cooldown pool is wanted, and the direct run's threshold. */
  datatype Mode = Mode(emitPool: bool, threshold: real)

  datatype Decision = Decision(
    closeTime: int, score: real, stages: Stages, checks: Checks, derivatives: Option<Derivatives>,
    availableScore: Option<real>, quoteVolume: real)

  datatype Signal = Signal(decision: Decision, trade: Trade)

  // ---- Trigger indices -----------------------------------------------------------------

  function HorizonBars(s: Settings): int { s.holdHours * 12 }

  function FirstIndex(s: Settings): nat {
    48 * (if s.strategy.PostHypeV1? || s.strategy.ChannelV1? then EVIDENCE_WINDOW else MINIMUM_BARS) - 1
  }

  function IndexAt(s: Settings, k: nat): int { FirstIndex(s) + k * s.triggerInterval }

  lemma NextIndex(s: Settings, k: nat)
    ensures IndexAt(s, k + 1) == IndexAt(s, k) + s.triggerInterval
  {}

  lemma IndexMonotone(s: Settings, k: nat, n: nat)
    requires s.triggerInterval >= 1 && k <= n
    ensures IndexAt(s, k) <= IndexAt(s, n)
  {
    assert k * s.triggerInterval <= n * s.triggerInterval;
  }

  lemma IndexGrows(s: Settings, k: nat)
    requires s.triggerInterval >= 1
    ensures IndexAt(s, k) >= FirstIndex(s) + k
  {}

  // ---- The scan -------------------------------------------------------------------------

  /** Per trigger index: its close time, its candidate before threshold and cooldown, its settlement. */
  datatype Source = Source(
    limit: int, closeTime: int -> int, candidate: int -> Option<Decision>, settle: (int, Decision) -> Result<Trade, string>)

  /** The direct run refuses scores below its threshold; the pool keeps them. */
  predicate MeetsThreshold(s: Settings, mode: Mode, d: Decision) {
    s.filter.ScoreV2? && !mode.emitPool ==> d.availableScore.Some? && d.availableScore.value >= mode.threshold
  }

  function CooldownUntil(signals: seq<Signal>, s: Settings, mode: Mode): int {
    if mode.emitPool || |signals| == 0 then 0 else signals[|signals| - 1].decision.closeTime + HoursMs(s.cooldownHours)
  }

  predicate Waiting(s: Settings, mode: Mode, closeTime: int, cooldownUntil: int) {
    || (s.signalStart.Some? && closeTime < s.signalStart.value)
    || (closeTime < cooldownUntil && !mode.emitPool)
  }

  function Flagged(t: Trade, mode: Mode): Trade { t.(poolEvent := mode.emitPool) }

  /** What the scan makes of index `i` after the signals so far. */
  function Visit(src: Source, s: Settings, mode: Mode, i: int, signals: seq<Signal>): Result<seq<Signal>, string> {
    if i >= src.limit || Waiting(s, mode, src.closeTime(i), CooldownUntil(signals, s, mode)) then Ok(signals)
    else
      var d := src.candidate(i);
      if d.None? || !MeetsThreshold(s, mode, d.value) then Ok(signals)
      else
        var t := src.settle(i, d.value);
        if t.Err? then Err(t.error) else Ok(signals + [Signal(d.value, Flagged(t.value, mode))])
  }

  /** The signals of the first `k` trigger indices. */
  function Signals(src: Source, s: Settings, mode: Mode, k: nat): Result<seq<Signal>, string> {
    if k == 0 then Ok([])
    else
      var before := Signals(src, s, mode, k - 1);
      if before.Err? then before else Visit(src, s, mode, IndexAt(s, k - 1), before.value)
  }

  /** All signals: as many steps as there are indices always reach the end of the scan. */
  function Scanned(src: Source, s: Settings, mode: Mode): Result<seq<Signal>, string> {
    Signals(src, s, mode, if src.limit > 0 then src.limit else 0)
  }

  lemma {:induction false} NothingAfterTheEnd(src: Source, s: Settings, mode: Mode, k: nat, n: nat)
    requires s.triggerInterval >= 1 && IndexAt(s, k) >= src.limit && k <= n
    ensures Signals(src, s, mode, n) == Signals(src, s, mode, k)
    decreases n
  {
    if k < n {
      NothingAfterTheEnd(src, s, mode, k, n - 1);
      IndexMonotone(s, k, n - 1);
    }
  }

  lemma ScannedAt(src: Source, s: Settings, mode: Mode, k: nat)
    requires s.triggerInterval >= 1 && IndexAt(s, k) >= src.limit
    ensures Signals(src, s, mode, k) == Scanned(src, s, mode)
  {
    var n: nat := if src.limit > 0 then src.limit else 0;
    IndexGrows(s, n);
    var top := if k < n then n else k;
    NothingAfterTheEnd(src, s, mode, k, top);
    NothingAfterTheEnd(src, s, mode, n, top);
  }

  lemma {:induction false} ErrorsPersist(src: Source, s: Settings, mode: Mode, k: nat, n: nat)
    requires k <= n && Signals(src, s, mode, k).Err?
    ensures Signals(src, s, mode, n) == Signals(src, s, mode, k)
    decreases n
  {
    if k < n { ErrorsPersist(src, s, mode, k, n - 1); }
  }

  function SettingsError(s: Settings, mode: Mode): Option<string> {
    if s.triggerInterval !in {1, 3, 12, 48} then Some("trigger interval must close a 5m, 15m, 1h, or 4h candle")
    else if s.cooldownHours < 1 then Some("cooldown hours must be at least one")
    else if s.holdHours < 1 then Some("hold hours must be at least one")
    else if !(0.0 <= mode.threshold <= AVAILABLE_MAXIMUM) then Some("invalid historical Score V2 available-component threshold")
    else None
  }
}
