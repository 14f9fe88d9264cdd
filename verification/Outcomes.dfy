/** First-touch settlement of a short entered at a candle's open. */
module Outcomes {
  import opened Wrappers
  import opened Candles

  datatype Kind = Win | Loss | Timeout

  datatype Resolution = Resolution(
    outcome: Kind, realizedR: real, exitPrice: real, exitTimestamp: int, fundingCutoff: int, reason: string)

  function StopPrice(entry: real, stopPct: real): real { entry * (1.0 + stopPct / 100.0) }

  function TargetPrice(entry: real, targetPct: real): real { entry * (1.0 - targetPct / 100.0) }

  predicate HitsStop(r: Row, stop: real) { r.high >= stop }

  predicate HitsTarget(r: Row, target: real) { r.low <= target }

  /** The first candle in `[i, end)` that touches a level, or `end`. */
  function FirstTouch(rows: seq<Row>, i: nat, end: nat, stop: real, target: real): (n: nat)
    requires i <= end <= |rows|
    ensures i <= n <= end
    ensures n < end ==> HitsStop(rows[n], stop) || HitsTarget(rows[n], target)
    ensures forall k :: i <= k < n ==> !HitsStop(rows[k], stop) && !HitsTarget(rows[k], target)
    decreases end - i
  {
    if i == end || HitsStop(rows[i], stop) || HitsTarget(rows[i], target) then i
    else FirstTouch(rows, i + 1, end, stop, target)
  }

  function StopExit(r: Row, stop: real, reason: string): Resolution {
    Resolution(Loss, -1.0, stop, r.ts + FIVE_MINUTES, r.ts, reason)
  }

  function TouchExit(r: Row, stop: real, target: real, stopPct: real, targetPct: real): Result<Resolution, string> {
    if HitsStop(r, stop) && HitsTarget(r, target) then Ok(StopExit(r, stop, "same_candle_stop_and_target_conservative_loss"))
    else if HitsStop(r, stop) then Ok(StopExit(r, stop, "stop"))
    else if stopPct == 0.0 then Err("ZeroDivisionError")
    else Ok(Resolution(Win, targetPct / stopPct, target, r.ts + FIVE_MINUTES, r.ts, "target"))
  }

  function TimeoutExit(entry: real, last: Row, stopPct: real): Result<Resolution, string> {
    if entry == 0.0 || stopPct == 0.0 then Err("ZeroDivisionError")
    else Ok(Resolution(Timeout, (entry - last.close) / entry / (stopPct / 100.0), last.close,
                       last.ts + FIVE_MINUTES, last.ts + FIVE_MINUTES, "holding_horizon_mark_to_market"))
  }

  function Settle(rows: seq<Row>, entryIndex: int, stopPct: real, targetPct: real, horizonBars: int): Result<Resolution, string> {
    if horizonBars < 1 then Err("outcome horizon must include at least one candle")
    else if entryIndex < 0 || entryIndex >= |rows| then Err("outcome entry is outside available candles")
    else
      var end := entryIndex + Min(horizonBars, |rows| - entryIndex);
      var entry := rows[entryIndex].open;
      var stop, target := StopPrice(entry, stopPct), TargetPrice(entry, targetPct);
      var n := FirstTouch(rows, entryIndex, end, stop, target);
      if n < end then TouchExit(rows[n], stop, target, stopPct, targetPct)
      else TimeoutExit(entry, rows[end - 1], stopPct)
  }

  method OutcomeDetails(rows: seq<Row>, entryIndex: int, stopPct: real, targetPct: real, horizonBars: int)
    returns (r: Result<Resolution, string>)
    ensures r == Settle(rows, entryIndex, stopPct, targetPct, horizonBars)
  {
    if horizonBars < 1 { return Err("outcome horizon must include at least one candle"); }
    if entryIndex < 0 || entryIndex >= |rows| { return Err("outcome entry is outside available candles"); }
    var availableHorizon := Min(horizonBars, |rows| - entryIndex);
    var entry := rows[entryIndex].open;
    var stop, target := StopPrice(entry, stopPct), TargetPrice(entry, targetPct);
    ghost var first := FirstTouch(rows, entryIndex, entryIndex + availableHorizon, stop, target);
    for i := entryIndex to entryIndex + availableHorizon
      invariant first == FirstTouch(rows, i, entryIndex + availableHorizon, stop, target)
    {
      var row := rows[i];
      var hitStop, hitTarget := HitsStop(row, stop), HitsTarget(row, target);
      if hitStop && hitTarget {
        return Ok(StopExit(row, stop, "same_candle_stop_and_target_conservative_loss"));
      }
      if hitStop { return Ok(StopExit(row, stop, "stop")); }
      if hitTarget { return TouchExit(row, stop, target, stopPct, targetPct); }
    }
    return TimeoutExit(entry, rows[entryIndex + availableHorizon - 1], stopPct);
  }

  /** The candles a settlement may look at. */
  ghost predicate InHorizon(rows: seq<Row>, entryIndex: nat, horizonBars: int, k: int) {
    entryIndex <= k < |rows| && k < entryIndex + horizonBars
  }

  /**
   Win: some candle in the horizon reaches the target and none up to and including it reaches the
   stop. Loss: some candle reaches the stop and none before it the target. Timeout: neither level
   is reached at all.
   */
  lemma FirstTouchDecides(rows: seq<Row>, entryIndex: nat, stopPct: real, targetPct: real, horizonBars: int, r: Resolution)
    requires Settle(rows, entryIndex, stopPct, targetPct, horizonBars) == Ok(r)
    ensures entryIndex < |rows|
    ensures var stop, target := StopPrice(rows[entryIndex].open, stopPct), TargetPrice(rows[entryIndex].open, targetPct);
            && (r.outcome.Win? <==>
                  exists j :: InHorizon(rows, entryIndex, horizonBars, j) && HitsTarget(rows[j], target)
                    && forall k :: entryIndex <= k <= j ==> !HitsStop(rows[k], stop))
            && (r.outcome.Loss? <==>
                  exists j :: InHorizon(rows, entryIndex, horizonBars, j) && HitsStop(rows[j], stop)
                    && forall k :: entryIndex <= k < j ==> !HitsTarget(rows[k], target))
            && (r.outcome.Timeout? <==>
                  forall j :: InHorizon(rows, entryIndex, horizonBars, j) ==>
                    !HitsStop(rows[j], stop) && !HitsTarget(rows[j], target))
  {
    var stop, target := StopPrice(rows[entryIndex].open, stopPct), TargetPrice(rows[entryIndex].open, targetPct);
    var end := entryIndex + Min(horizonBars, |rows| - entryIndex);
    var n := FirstTouch(rows, entryIndex, end, stop, target);
    assert forall k :: InHorizon(rows, entryIndex, horizonBars, k) <==> entryIndex <= k < end;
    if n < end {
      assert InHorizon(rows, entryIndex, horizonBars, n);
    }
  }

  /** With sound candles and positive levels the outcome fixes the range of the realised return. */
  lemma RealizedRange(rows: seq<Row>, entryIndex: nat, stopPct: real, targetPct: real, horizonBars: int, r: Resolution)
    requires Settle(rows, entryIndex, stopPct, targetPct, horizonBars) == Ok(r)
    requires stopPct > 0.0 && targetPct > 0.0 && forall k :: 0 <= k < |rows| ==> SoundRow(rows[k])
    ensures r.outcome.Win? ==> r.realizedR == targetPct / stopPct > 0.0
    ensures r.outcome.Loss? ==> r.realizedR == -1.0
    ensures r.outcome.Timeout? ==> -1.0 < r.realizedR < targetPct / stopPct
  {
    var entry := rows[entryIndex].open;
    var stop, target := StopPrice(entry, stopPct), TargetPrice(entry, targetPct);
    var end := entryIndex + Min(horizonBars, |rows| - entryIndex);
    var n := FirstTouch(rows, entryIndex, end, stop, target);
    assert targetPct / stopPct > 0.0;
    if n == end {
      var last := rows[end - 1];
      assert SoundRow(last);
      assert !HitsStop(last, stop) && !HitsTarget(last, target);
      MarkToMarketRange(entry, last.close, stopPct, targetPct);
    }
  }

  lemma MarkToMarketRange(entry: real, close: real, stopPct: real, targetPct: real)
    requires entry > 0.0 && stopPct > 0.0
    requires TargetPrice(entry, targetPct) < close < StopPrice(entry, stopPct)
    ensures -1.0 < (entry - close) / entry / (stopPct / 100.0) < targetPct / stopPct
  {
    var move := (entry - close) / entry;
    var s, t := stopPct / 100.0, targetPct / 100.0;
    assert move * entry == entry - close;
    assert StopPrice(entry, stopPct) == entry + entry * s;
    assert TargetPrice(entry, targetPct) == entry - entry * t;
    Cancel(-s, move, entry);
    Cancel(move, t, entry);
    DivideStrict(-s, move, s);
    DivideStrict(move, t, s);
    assert -s / s == -1.0;
    assert t / s == targetPct / stopPct;
  }

  lemma Cancel(a: real, b: real, x: real)
    requires x > 0.0 && a * x < b * x
    ensures a < b
  {}

  lemma DivideStrict(a: real, b: real, x: real)
    requires x > 0.0 && a < b
    ensures a / x < b / x
  {
    var p, q := a / x, b / x;
    assert p * x == a && q * x == b;
    Cancel(p, q, x);
  }

  /** Lengthening the horizon never changes a win or a loss, nor anything about its exit. */
  lemma LongerHorizonKeepsTouches(rows: seq<Row>, entryIndex: int, stopPct: real, targetPct: real,
                                  short: int, long: int, r: Resolution)
    requires Settle(rows, entryIndex, stopPct, targetPct, short) == Ok(r) && !r.outcome.Timeout? && short <= long
    ensures Settle(rows, entryIndex, stopPct, targetPct, long) == Ok(r)
  {
    var entry := rows[entryIndex].open;
    var stop, target := StopPrice(entry, stopPct), TargetPrice(entry, targetPct);
    TouchesEarly(rows, entryIndex, entryIndex + Min(short, |rows| - entryIndex),
                 entryIndex + Min(long, |rows| - entryIndex), stop, target);
  }

  lemma {:induction false} TouchesEarly(rows: seq<Row>, i: nat, near: nat, far: nat, stop: real, target: real)
    requires i <= near <= far <= |rows|
    ensures FirstTouch(rows, i, near, stop, target) < near ==>
              FirstTouch(rows, i, far, stop, target) == FirstTouch(rows, i, near, stop, target)
    decreases near - i
  {
    if i < near && !HitsStop(rows[i], stop) && !HitsTarget(rows[i], target) {
      TouchesEarly(rows, i + 1, near, far, stop, target);
    }
  }

  /** Every exit falls after the entry candle opens and within the holding horizon. */
  lemma ExitsWithinHorizon(rows: seq<Row>, entryIndex: nat, stopPct: real, targetPct: real, horizonBars: int, r: Resolution)
    requires Settle(rows, entryIndex, stopPct, targetPct, horizonBars) == Ok(r) && Spaced(rows)
    ensures entryIndex < |rows|
    ensures rows[entryIndex].ts + FIVE_MINUTES <= r.exitTimestamp <= rows[entryIndex].ts + horizonBars * FIVE_MINUTES
    ensures r.fundingCutoff <= r.exitTimestamp
  {
    hide Spaced;
    var end := entryIndex + Min(horizonBars, |rows| - entryIndex);
    var stop, target := StopPrice(rows[entryIndex].open, stopPct), TargetPrice(rows[entryIndex].open, targetPct);
    var n := FirstTouch(rows, entryIndex, end, stop, target);
    ConsecutiveTimes(rows, entryIndex, if n < end then n else end - 1);
  }
}
