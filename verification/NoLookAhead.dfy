/** Decisions of the scan at an index depend on nothing that happens after that index. */
module NoLookAhead {
  import opened Wrappers
  import opened Sequences
  import opened Candles
  import opened Scan
  import opened Evaluate

  // ---- Bars and evidence --------------------------------------------------------------

  /** In a gapless series the candles opened before row `i` closes are rows `0..i`. */
  lemma OpenedBeforeClose(rows: seq<Row>, i: nat)
    requires Candles.Spaced(rows) && i < |rows|
    ensures Filter(rows, OpenedBefore(CloseTime(rows[i]))) == rows[..i + 1]
  {
    hide Filter, Candles.Spaced;
    var p := OpenedBefore(CloseTime(rows[i]));
    forall k | 0 <= k < |rows| ensures p(rows[k]) <==> k <= i {
      if k <= i { ConsecutiveTimes(rows, k, i); } else { ConsecutiveTimes(rows, i, k); }
    }
    FilterPrefix(rows, i + 1, p);
  }

  /** Evidence read from the last bars closed by `closeTime`, whatever follows them in `bars`. */
  lemma EvidenceFromClosedBars(bars: seq<Bar>, closed: seq<Bar>, rules: Rules, minimumStrength: int, t: Timeframe, closeTime: int)
    requires Sorted(bars, BarOrder) && closed == Filter(bars, ClosedBy(closeTime, Multiplier(t)))
    ensures EvidenceAt(rules, bars, EndpointOf(bars, t, closeTime), minimumStrength) ==
            EvidenceOf(rules, closed[Max0(|closed| - EVIDENCE_WINDOW)..], minimumStrength)
  {
    BisectSelects(bars, Multiplier(t), closeTime);
    var n := EndpointOf(bars, t, closeTime);
    assert bars[..n][Max0(n - EVIDENCE_WINDOW)..] == bars[Max0(n - EVIDENCE_WINDOW)..n];
  }

  /** The bars of the two series closed by `closeTime` carry the same evidence. */
  lemma EvidenceOfBarsAgrees(a: seq<Bar>, b: seq<Bar>, x: Rules, y: Rules, minimumStrength: int, t: Timeframe, closeTime: int)
    requires Sorted(a, BarOrder) && Sorted(b, BarOrder) && x.measure == y.measure
    requires Filter(a, ClosedBy(closeTime, Multiplier(t))) == Filter(b, ClosedBy(closeTime, Multiplier(t)))
    ensures EvidenceAt(x, a, EndpointOf(a, t, closeTime), minimumStrength) ==
            EvidenceAt(y, b, EndpointOf(b, t, closeTime), minimumStrength)
  {
    var closed := Filter(a, ClosedBy(closeTime, Multiplier(t)));
    EvidenceFromClosedBars(a, closed, x, minimumStrength, t, closeTime);
    EvidenceFromClosedBars(b, closed, y, minimumStrength, t, closeTime);
  }

  lemma EvidenceAgrees(a: seq<Row>, b: seq<Row>, x: Rules, y: Rules, minimumStrength: int, t: Timeframe, closeTime: int)
    requires Filter(a, OpenedBefore(closeTime)) == Filter(b, OpenedBefore(closeTime)) && x.measure == y.measure
    ensures LatestEvidence(a, x, minimumStrength, t, closeTime) == LatestEvidence(b, y, minimumStrength, t, closeTime)
  {
    ClosedBarsAgree(a, b, Multiplier(t), closeTime);
    ResampledSorted(a, Multiplier(t));
    ResampledSorted(b, Multiplier(t));
    EvidenceOfBarsAgrees(Resampled(a, Multiplier(t)), Resampled(b, Multiplier(t)), x, y, minimumStrength, t, closeTime);
  }

  lemma RegimeAgrees(a: seq<Row>, b: seq<Row>, x: Rules, y: Rules, closeTime: int)
    requires Filter(a, OpenedBefore(closeTime)) == Filter(b, OpenedBefore(closeTime)) && x.bearishTrend == y.bearishTrend
    ensures MarketRegimeAt(a, x, closeTime) == MarketRegimeAt(b, y, closeTime)
  {
    ClosedBarsAgree(a, b, Multiplier(H4), closeTime);
    ResampledSorted(a, Multiplier(H4));
    ResampledSorted(b, Multiplier(H4));
    BisectSelects(Resampled(a, Multiplier(H4)), Multiplier(H4), closeTime);
    BisectSelects(Resampled(b, Multiplier(H4)), Multiplier(H4), closeTime);
  }

  // ---- Agreement up to an instant ----------------------------------------------------------

  /** Macro series with the same candles opened before `t`. */
  ghost predicate MacroAgrees(a: Option<seq<seq<Row>>>, b: Option<seq<seq<Row>>>, t: int) {
    && (a.None? <==> b.None?)
    && (a.Some? ==>
          && |a.value| == |b.value|
          && forall k :: 0 <= k < |a.value| ==> Filter(a.value[k], OpenedBefore(t)) == Filter(b.value[k], OpenedBefore(t)))
  }

  /** The same rules, reading derivatives histories that agree up to `t`. */
  ghost predicate RulesAgree(x: Rules, y: Rules, t: int) {
    && y == x.(scoreV2Context := y.scoreV2Context, context := y.context)
    && forall u :: u <= t ==> x.scoreV2Context(u) == y.scoreV2Context(u) && x.context(u) == y.context(u)
  }

  lemma MacroAgreesEarlier(a: Option<seq<seq<Row>>>, b: Option<seq<seq<Row>>>, t: int, u: int)
    requires MacroAgrees(a, b, t) && u <= t
    ensures MacroAgrees(a, b, u)
  {
    if a.Some? {
      forall k | 0 <= k < |a.value| ensures Filter(a.value[k], OpenedBefore(u)) == Filter(b.value[k], OpenedBefore(u)) {
        FilterWithin(a.value[k], b.value[k], OpenedBefore(u), OpenedBefore(t));
      }
    }
  }

  lemma ChecksAgree(a: seq<Row>, b: seq<Row>, s: Settings, x: Rules, y: Rules, t: int)
    requires Filter(a, OpenedBefore(t)) == Filter(b, OpenedBefore(t)) && x.measure == y.measure
    ensures ChecksAt(a, s, x, t) == ChecksAt(b, s, y, t)
  {
    EvidenceAgrees(a, b, x, y, s.minimumStrength, H4, t);
    EvidenceAgrees(a, b, x, y, s.minimumStrength, H1, t);
    EvidenceAgrees(a, b, x, y, s.minimumStrength, M15, t);
    EvidenceAgrees(a, b, x, y, s.minimumStrength, M5, t);
  }

  lemma MacroConfirmedAgrees(ma: Option<seq<seq<Row>>>, mb: Option<seq<seq<Row>>>, x: Rules, y: Rules, t: int)
    requires MacroAgrees(ma, mb, t) && x.bearishTrend == y.bearishTrend
    ensures MacroConfirmed(ma, x, t) == MacroConfirmed(mb, y, t)
  {
    if ma.Some? {
      forall k | 0 <= k < |ma.value| ensures MarketRegimeAt(ma.value[k], x, t) == MarketRegimeAt(mb.value[k], y, t) {
        RegimeAgrees(ma.value[k], mb.value[k], x, y, t);
      }
    }
  }

  lemma LastDayAgrees(a: seq<Row>, b: seq<Row>, i: nat)
    requires i < |a| && i < |b| && a[..i + 1] == b[..i + 1]
    ensures LastDay(a, i + 1) == LastDay(b, i + 1)
  {
    if i + 1 >= DAY_BARS {
      assert a[i + 1 - DAY_BARS..i + 1] == a[..i + 1][i + 1 - DAY_BARS..];
      assert b[i + 1 - DAY_BARS..i + 1] == b[..i + 1][i + 1 - DAY_BARS..];
    }
  }

  lemma JudgeAgrees(s: Settings, x: Rules, y: Rules, c: Checks, macroConfirmed: bool, quoteVolume: Option<real>,
                    belowVwap: Option<bool>, t: int)
    requires RulesAgree(x, y, t)
    ensures Judge(s, x, c, macroConfirmed, quoteVolume, belowVwap, t) == Judge(s, y, c, macroConfirmed, quoteVolume, belowVwap, t)
  {}

  /** The candidate at an index is decided by the candles up to it. */
  lemma CandidateAgrees(a: seq<Row>, b: seq<Row>, ma: Option<seq<seq<Row>>>, mb: Option<seq<seq<Row>>>, s: Settings,
                        x: Rules, y: Rules, j: nat)
    requires Candles.Spaced(a) && Candles.Spaced(b) && j < |a| && j < |b| && a[..j + 1] == b[..j + 1]
    requires MacroAgrees(ma, mb, CloseTime(a[j])) && RulesAgree(x, y, CloseTime(a[j]))
    ensures CandidateAt(a, ma, s, x, j) == CandidateAt(b, mb, s, y, j)
  {
    hide ChecksAt, MacroConfirmed, Judge, LastDay, QuoteSum, TurnoverSum, Volume;
    var t := CloseTime(a[j]);
    assert a[j] == a[..j + 1][j] == b[..j + 1][j] == b[j];
    OpenedBeforeClose(a, j);
    OpenedBeforeClose(b, j);
    ChecksAgree(a, b, s, x, y, t);
    LastDayAgrees(a, b, j);
    MacroConfirmedAgrees(ma, mb, x, y, t);
    var checks := ChecksAt(a, s, x, t);
    if checks.Some? {
      JudgeAgrees(s, x, y, checks.value, MacroConfirmed(ma, x, t), QuoteVolume(a, j + 1), BelowVwap(a, j + 1), t);
    }
  }

  // ---- The scan -----------------------------------------------------------------------------

  function DecisionOf(): Signal -> Decision { (g: Signal) => g.decision }

  function DecidedBy(t: int): Decision -> bool { (d: Decision) => d.closeTime <= t }

  /** Sources with the same candidates up to index `i`, where `t` separates earlier from later decisions. */
  ghost predicate SourcesAgree(a: Source, b: Source, i: int, t: int) {
    && a.limit == b.limit
    && (forall j {:trigger a.candidate(j)} :: 0 <= j <= i && j < a.limit ==>
          a.closeTime(j) == b.closeTime(j) && a.candidate(j) == b.candidate(j))
    && (forall j {:trigger a.candidate(j)} :: i < j < a.limit && a.candidate(j).Some? ==> a.candidate(j).value.closeTime > t)
    && (forall j {:trigger b.candidate(j)} :: i < j < b.limit && b.candidate(j).Some? ==> b.candidate(j).value.closeTime > t)
  }

  lemma VisitDecides(src: Source, s: Settings, mode: Mode, i: int, signals: seq<Signal>)
    requires Visit(src, s, mode, i, signals).Ok?
    ensures var d := src.candidate(i);
            Map(Visit(src, s, mode, i, signals).value, DecisionOf()) ==
            if i < src.limit && !Waiting(s, mode, src.closeTime(i), CooldownUntil(signals, s, mode))
               && d.Some? && MeetsThreshold(s, mode, d.value)
            then Map(signals, DecisionOf()) + [d.value] else Map(signals, DecisionOf())
  {}

  lemma SameCooldown(x: seq<Signal>, y: seq<Signal>, s: Settings, mode: Mode)
    requires Map(x, DecisionOf()) == Map(y, DecisionOf())
    ensures CooldownUntil(x, s, mode) == CooldownUntil(y, s, mode)
  {
    assert |x| == |Map(x, DecisionOf())| == |y|;
    if |x| > 0 {
      assert Map(x, DecisionOf())[|x| - 1] == x[|x| - 1].decision;
      assert Map(y, DecisionOf())[|y| - 1] == y[|y| - 1].decision;
    }
  }

  /** Scans that stand alike and look at the same candidate still stand alike. */
  lemma VisitsAgree(a: Source, b: Source, s: Settings, mode: Mode, j: int, x: seq<Signal>, y: seq<Signal>)
    requires Map(x, DecisionOf()) == Map(y, DecisionOf())
    requires a.limit == b.limit && (j < a.limit ==> a.closeTime(j) == b.closeTime(j) && a.candidate(j) == b.candidate(j))
    requires Visit(a, s, mode, j, x).Ok? && Visit(b, s, mode, j, y).Ok?
    ensures Map(Visit(a, s, mode, j, x).value, DecisionOf()) == Map(Visit(b, s, mode, j, y).value, DecisionOf())
  {
    SameCooldown(x, y, s, mode);
    VisitDecides(a, s, mode, j, x);
    VisitDecides(b, s, mode, j, y);
  }

  /** A later candidate adds no decision by `t`. */
  lemma VisitLater(src: Source, s: Settings, mode: Mode, j: int, x: seq<Signal>, t: int)
    requires j < src.limit && src.candidate(j).Some? ==> src.candidate(j).value.closeTime > t
    requires Visit(src, s, mode, j, x).Ok?
    ensures Filter(Map(Visit(src, s, mode, j, x).value, DecisionOf()), DecidedBy(t)) == Filter(Map(x, DecisionOf()), DecidedBy(t))
  {
    VisitDecides(src, s, mode, j, x);
    if src.candidate(j).Some? { FilterAppend(Map(x, DecisionOf()), src.candidate(j).value, DecidedBy(t)); }
  }

  /** Through index `i` the two scans decide alike; afterwards neither adds a decision by `t`. */
  lemma {:induction false} DecisionsAgree(a: Source, b: Source, s: Settings, mode: Mode, i: int, t: int, k: nat)
    requires s.triggerInterval >= 1 && SourcesAgree(a, b, i, t)
    requires Signals(a, s, mode, k).Ok? && Signals(b, s, mode, k).Ok?
    ensures var (x, y) := (Map(Signals(a, s, mode, k).value, DecisionOf()), Map(Signals(b, s, mode, k).value, DecisionOf()));
            && (k == 0 || IndexAt(s, k - 1) <= i ==> x == y)
            && Filter(x, DecidedBy(t)) == Filter(y, DecidedBy(t))
  {
    hide Visit, Filter;
    if k > 0 {
      DecisionsAgree(a, b, s, mode, i, t, k - 1);
      var j := IndexAt(s, k - 1);
      if k > 1 { IndexMonotone(s, k - 2, k - 1); }
      IndexGrows(s, k - 1);
      var x, y := Signals(a, s, mode, k - 1).value, Signals(b, s, mode, k - 1).value;
      if j <= i {
        assert j < a.limit ==> a.candidate(j) == b.candidate(j);
        VisitsAgree(a, b, s, mode, j, x, y);
      } else {
        VisitLater(a, s, mode, j, x, t);
        VisitLater(b, s, mode, j, y, t);
      }
    }
  }

  lemma SourcesFromCandles(a: seq<Row>, b: seq<Row>, ma: Option<seq<seq<Row>>>, mb: Option<seq<seq<Row>>>, s: Settings,
                           x: Rules, y: Rules, i: nat)
    requires Candles.Spaced(a) && Candles.Spaced(b) && |a| == |b| && i < |a| && a[..i + 1] == b[..i + 1]
    requires MacroAgrees(ma, mb, CloseTime(a[i])) && RulesAgree(x, y, CloseTime(a[i])) && s.holdHours >= 1
    ensures SourcesAgree(SourceOf(a, ma, s, x), SourceOf(b, mb, s, y), i, CloseTime(a[i]))
  {
    hide CandidateAt, Candles.Spaced;
    var p, q := SourceOf(a, ma, s, x), SourceOf(b, mb, s, y);
    forall j | 0 <= j <= i && j < p.limit ensures p.closeTime(j) == q.closeTime(j) && p.candidate(j) == q.candidate(j) {
      assert a[..j + 1] == a[..i + 1][..j + 1] == b[..j + 1];
      assert a[j] == a[..j + 1][j] == b[..j + 1][j] == b[j];
      ConsecutiveTimes(a, j, i);
      MacroAgreesEarlier(ma, mb, CloseTime(a[i]), CloseTime(a[j]));
      CandidateAgrees(a, b, ma, mb, s, x, y, j);
    }
    assert a[i] == a[..i + 1][i] == b[..i + 1][i] == b[i];
    forall j | i < j < p.limit && p.candidate(j).Some? ensures p.candidate(j).value.closeTime > CloseTime(a[i]) {
      CandidateShape(a, ma, s, x, j);
      ConsecutiveTimes(a, i, j);
    }
    forall j | i < j < q.limit && q.candidate(j).Some? ensures q.candidate(j).value.closeTime > CloseTime(a[i]) {
      CandidateShape(b, mb, s, y, j);
      ConsecutiveTimes(b, i, j);
    }
  }

  /**
   Two equally long gapless series that agree on rows `0..i` -- with macro series and derivatives
   histories that agree by then -- yield the same decisions up to row `i`: same times, stages,
   scores, evidence and derivatives, admitted and skipped alike, in either mode.
   */
  lemma EvaluateDoesNotLookAhead(a: seq<Row>, b: seq<Row>, ma: Option<seq<seq<Row>>>, mb: Option<seq<seq<Row>>>, s: Settings,
                                 mode: Mode, x: Rules, y: Rules, i: nat)
    requires Candles.Spaced(a) && Candles.Spaced(b) && |a| == |b| && i < |a| && a[..i + 1] == b[..i + 1]
    requires MacroAgrees(ma, mb, CloseTime(a[i])) && RulesAgree(x, y, CloseTime(a[i]))
    requires Evaluated(a, ma, s, mode, x).Ok? && Evaluated(b, mb, s, mode, y).Ok?
    ensures Filter(Map(Evaluated(a, ma, s, mode, x).value, DecisionOf()), DecidedBy(CloseTime(a[i]))) ==
            Filter(Map(Evaluated(b, mb, s, mode, y).value, DecisionOf()), DecidedBy(CloseTime(a[i])))
  {
    var p, q := SourceOf(a, ma, s, x), SourceOf(b, mb, s, y);
    SourcesFromCandles(a, b, ma, mb, s, x, y, i);
    DecisionsAgree(p, q, s, mode, i, CloseTime(a[i]), if p.limit > 0 then p.limit else 0);
  }
}
