/** The purge, end to end: trades the scan emits never straddle a split or a walk-forward window. */
module PurgedRuns {
  import opened Wrappers
  import opened Sequences
  import opened Trades
  import opened Candles
  import opened Outcomes
  import opened Scan
  import opened Evaluate
  import opened Splits
  import opened PoolReplay
  import Cooldown
  import V2 = CalibrateScoreV2

  datatype Run = Run(rows: seq<Row>, macro: Option<seq<seq<Row>>>, settings: Settings, mode: Mode, rules: Rules)

  function ResultOf(run: Run): Result<seq<Signal>, string> {
    Evaluated(run.rows, run.macro, run.settings, run.mode, run.rules)
  }

  /** One of `runs`, over gapless candles and holding for at most `holdHours`, emitted the trade. */
  ghost predicate Emitted(runs: seq<Run>, t: Trade, holdHours: int) {
    exists k :: 0 <= k < |runs| && Candles.Spaced(runs[k].rows) && runs[k].settings.holdHours <= holdHours
      && ResultOf(runs[k]).Ok? && t in TradesOf(ResultOf(runs[k]).value)
  }

  ghost predicate SettlesAll(src: Source, horizon: int) {
    forall i, d {:trigger src.settle(i, d)} :: 0 <= i < src.limit && src.candidate(i) == Some(d) && src.settle(i, d).Ok? ==>
      SettlesWithin(src.settle(i, d).value, horizon)
  }

  lemma {:induction false} SignalsSettle(src: Source, s: Settings, mode: Mode, k: nat, horizon: int)
    requires SettlesAll(src, horizon) && s.triggerInterval >= 1 && Signals(src, s, mode, k).Ok?
    ensures forall g :: 0 <= g < |Signals(src, s, mode, k).value| ==>
              SettlesWithin(Signals(src, s, mode, k).value[g].trade, horizon)
  {
    if k > 0 {
      SignalsSettle(src, s, mode, k - 1, horizon);
      IndexGrows(s, k - 1);
      var i := IndexAt(s, k - 1);
      if i < src.limit && src.candidate(i).Some? {
        assert src.candidate(i) == Some(src.candidate(i).value);
      }
    }
  }

  lemma SettlementTime(rows: seq<Row>, s: Settings, rules: Rules, i: nat, d: Decision)
    requires Candles.Spaced(rows) && i < |rows| && d.closeTime == CloseTime(rows[i]) && SettleAt(rows, s, rules, i, d).Ok?
    ensures SettlesWithin(SettleAt(rows, s, rules, i, d).value, HoursMs(s.holdHours))
  {
    var r := Settle(rows, i + 1, s.stopPct, s.targetPct, HorizonBars(s)).value;
    ExitsWithinHorizon(rows, i + 1, s.stopPct, s.targetPct, HorizonBars(s), r);
    assert rows[i + 1].ts - rows[i].ts == FIVE_MINUTES;
    HorizonInMs(s);
  }

  lemma HorizonInMs(s: Settings)
    ensures HorizonBars(s) * FIVE_MINUTES == HoursMs(s.holdHours)
  {}

  lemma CandlesSettleAll(rows: seq<Row>, macro: Option<seq<seq<Row>>>, s: Settings, rules: Rules)
    requires Candles.Spaced(rows) && s.holdHours >= 1
    ensures SettlesAll(SourceOf(rows, macro, s, rules), HoursMs(s.holdHours))
  {
    hide CandidateAt, SettleAt, Candles.Spaced;
    var src := SourceOf(rows, macro, s, rules);
    forall i, d | 0 <= i < src.limit && src.candidate(i) == Some(d) && src.settle(i, d).Ok?
      ensures SettlesWithin(src.settle(i, d).value, HoursMs(s.holdHours))
    {
      CandidateShape(rows, macro, s, rules, i);
      SettlementTime(rows, s, rules, i, d);
    }
  }

  /** Every trade a scan emits exits after its signal and within the holding horizon. */
  lemma EmittedTradesSettle(runs: seq<Run>, t: Trade, holdHours: int)
    requires Emitted(runs, t, holdHours)
    ensures SettlesWithin(t, HoursMs(holdHours))
  {
    var k :| 0 <= k < |runs| && Candles.Spaced(runs[k].rows) && runs[k].settings.holdHours <= holdHours
      && ResultOf(runs[k]).Ok? && t in TradesOf(ResultOf(runs[k]).value);
    var run := runs[k];
    var src := SourceOf(run.rows, run.macro, run.settings, run.rules);
    CandlesSettleAll(run.rows, run.macro, run.settings, run.rules);
    SignalsSettle(src, run.settings, run.mode, if src.limit > 0 then src.limit else 0, HoursMs(run.settings.holdHours));
    var signals := ResultOf(run).value;
    var g :| 0 <= g < |TradesOf(signals)| && TradesOf(signals)[g] == t;
    assert signals[g].trade == t;
  }

  /**
   Split any choice of emitted trades by the purge at their horizon: every train outcome precedes every
   validation and holdout signal, every validation outcome every holdout signal.
   */
  lemma NoOutcomeCrossesASplit(runs: seq<Run>, chosen: seq<Trade>, holdHours: int, start: int, end: int, split: Split)
    requires forall t :: t in chosen ==> Emitted(runs, t, holdHours)
    requires PurgedTimeSplits(chosen, start, end, HoursMs(holdHours)) == Ok(split)
    ensures forall a, b :: a in split.train && b in split.validation + split.holdout ==> SettledBefore(a, b)
    ensures forall a, b :: a in split.validation && b in split.holdout ==> SettledBefore(a, b)
  {
    forall t | t in chosen ensures SettlesWithin(t, HoursMs(holdHours)) {
      EmittedTradesSettle(runs, t, holdHours);
    }
    PurgeSeparates(chosen, start, end, HoursMs(holdHours), split);
  }

  /** In particular the trades a threshold replays from a report of emitted trades. */
  lemma ReplayedTradesAreEmitted(runs: seq<Run>, report: seq<Trade>, holdHours: int, threshold: real, cooldown: real)
    requires forall t :: t in report ==> Emitted(runs, t, holdHours)
    ensures forall t :: t in V2.TradesAbove(report, threshold, cooldown) ==> Emitted(runs, t, holdHours)
  {
    forall t | t in V2.TradesAbove(report, threshold, cooldown) ensures Emitted(runs, t, holdHours) {
      ReplayedFrom(report, threshold, cooldown, t);
    }
  }

  lemma ReplayedFrom(report: seq<Trade>, threshold: real, cooldown: real, t: Trade)
    requires t in V2.TradesAbove(report, threshold, cooldown)
    ensures t in report
  {
    var eligible := Filter(report, V2.Scores(threshold));
    Cooldown.ReplayMember(StableSort(eligible, ReplayOrder), cooldown);
    ReplayOrderIsTotal();
    StableSortMember(eligible, ReplayOrder);
    FilterMember(report, V2.Scores(threshold));
  }

  /** An emitted trade observed in a walk-forward window is settled before that window ends. */
  lemma NoOutcomeLeavesItsWindow(runs: seq<Run>, t: Trade, holdHours: int, start: int, end: int, folds: int, fraction: real,
                                 w: seq<Window>, i: nat)
    requires Emitted(runs, t, holdHours)
    requires Windows(start, end, HoursMs(holdHours), folds, fraction) == Ok(w) && i < |w| && InWindow(w[i])(t)
    ensures SettledInside(t, w[i]) && w[i].testEnd <= end
  {
    EmittedTradesSettle(runs, t, holdHours);
    WindowOutcomesSettle(start, end, HoursMs(holdHours), folds, fraction, w, i, t);
  }
}
