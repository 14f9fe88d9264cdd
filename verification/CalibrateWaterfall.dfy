/** Trigger calibration from an immutable candidate pool, with the holdout kept out of selection. */
module CalibrateWaterfall {
  import opened Wrappers
  import opened Sequences
  import opened Trades
  import opened Metrics
  import opened Splits
  import opened Cooldown
  import opened Selection
  import opened WalkForward

  datatype Configuration = Configuration(name: string, requirements: seq<(string, string)>, complexity: int)

  datatype Report = Report(
    trades: Option<seq<Trade>>,
    window: Option<(int, int)>,
    candidatePoolComplete: bool,
    promotionPermitted: Option<bool>,
    cooldownHours: real,
    maxHoldHours: Option<int>)

  const INNER_FOLDS := 3
  const INITIAL_TRAIN_FRACTION := 0.5

  // ---- Trades per configuration ---------------------------------------------

  predicate Confirms(evidence: map<string, map<string, bool>>, requirement: (string, string)) {
    && requirement.0 in evidence
    && requirement.1 in evidence[requirement.0]
    && evidence[requirement.0][requirement.1]
  }

  function Passes(requirements: seq<(string, string)>): Trade -> bool {
    (t: Trade) => t.evidence.Some? && forall r :: r in requirements ==> Confirms(t.evidence.value, r)
  }

  function TradesOf(trades: seq<Trade>, c: Configuration, cooldown: real): seq<Trade> {
    Replayed(Filter(trades, Passes(c.requirements)), cooldown)
  }

  /** Later configurations replace earlier ones of the same name. */
  function ByConfiguration(trades: seq<Trade>, cs: seq<Configuration>, cooldown: real): map<string, seq<Trade>> {
    if |cs| == 0 then map[]
    else ByConfiguration(trades, cs[..|cs| - 1], cooldown)[cs[|cs| - 1].name := TradesOf(trades, cs[|cs| - 1], cooldown)]
  }

  method TradesByConfiguration(report: Report, cs: seq<Configuration>) returns (r: Result<map<string, seq<Trade>>, string>)
    ensures r == if report.trades.None? then Err("report lacks historical trades")
                 else Ok(ByConfiguration(report.trades.value, cs, CooldownMs(report.cooldownHours)))
  {
    if report.trades.None? { return Err("report lacks historical trades"); }
    var cooldown := CooldownMs(report.cooldownHours);
    var result: map<string, seq<Trade>> := map[];
    for i := 0 to |cs|
      invariant result == ByConfiguration(report.trades.value, cs[..i], cooldown)
    {
      assert cs[..i + 1][..i] == cs[..i];
      var selected := Filter(report.trades.value, Passes(cs[i].requirements));
      var replayed := ReplayCooldown(selected, cooldown);
      result := result[cs[i].name := replayed];
    }
    assert cs[..|cs|] == cs;
    return Ok(result);
  }

  // ---- Inner validation -------------------------------------------------------

  datatype Inner = Inner(selected: Option<string>, rejected: map<string, string>)

  function Refusal(metrics: Packet, minimum: int): Option<string> {
    if !Sufficient(metrics, minimum) then Some("insufficient complete validation sample")
    else if metrics.expectancyR <= 0.0 || metrics.profitFactor.None?
      then Some("validation net performance is not positive and defined")
    else None
  }

  function Ranking(packets: map<string, Packet>, cs: seq<Configuration>, minimum: int): seq<Entry>
    requires forall c :: c in cs ==> c.name in packets
  {
    if |cs| == 0 then []
    else
      var c := cs[|cs| - 1];
      var before := Ranking(packets, cs[..|cs| - 1], minimum);
      if Refusal(packets[c.name], minimum).Some? then before
      else before + [Entry(KeyOf(packets[c.name], 1, 1, c.complexity as real), c.name, 0.0)]
  }

  function Rejections(packets: map<string, Packet>, cs: seq<Configuration>, minimum: int): map<string, string>
    requires forall c :: c in cs ==> c.name in packets
  {
    if |cs| == 0 then map[]
    else
      var c := cs[|cs| - 1];
      var before := Rejections(packets, cs[..|cs| - 1], minimum);
      var refusal := Refusal(packets[c.name], minimum);
      if refusal.Some? then before[c.name := refusal.value] else before
  }

  function SelectInner(score: Scoring, pools: map<string, seq<Trade>>, cs: seq<Configuration>, start: int, end: int,
                       horizon: int, minimum: int): Result<Inner, string>
    requires forall c :: c in cs ==> c.name in pools
  {
    if |cs| > 0 && (start >= end || horizon < 0) then Err("invalid research window")
    else
      var packets := ValidationPackets(score, pools, start, end, horizon);
      Ok(Inner(NameOf(Best(Ranking(packets, cs, minimum))), Rejections(packets, cs, minimum)))
  }

  method SelectDevelopmentValidation(score: Scoring, pools: map<string, seq<Trade>>, cs: seq<Configuration>, start: int,
                                     end: int, horizon: int, minimum: int) returns (inner: Result<Inner, string>)
    requires forall c :: c in cs ==> c.name in pools
    ensures inner == SelectInner(score, pools, cs, start, end, horizon, minimum)
  {
    hide Filter, StableSort, KeyOf, Best;
    var ranked: seq<Entry> := [];
    var rejected: map<string, string> := map[];
    ghost var packets := ValidationPackets(score, pools, start, end, horizon);
    for i := 0 to |cs|
      invariant i > 0 ==> start < end && horizon >= 0
      invariant ranked == Ranking(packets, cs[..i], minimum)
      invariant rejected == Rejections(packets, cs[..i], minimum)
    {
      var c := cs[i];
      assert cs[..i + 1][..i] == cs[..i];
      var split := PurgedTimeSplits(pools[c.name], start, end, horizon);
      if split.Err? { return Err(split.error); }
      var metrics := score(split.value.validation);
      assert packets[c.name] == metrics;
      if !Sufficient(metrics, minimum) {
        rejected := rejected[c.name := "insufficient complete validation sample"];
        continue;
      }
      if metrics.expectancyR <= 0.0 || metrics.profitFactor.None? {
        rejected := rejected[c.name := "validation net performance is not positive and defined"];
        continue;
      }
      ranked := ranked + [Entry(KeyOf(metrics, 1, 1, c.complexity as real), c.name, 0.0)];
    }
    assert cs[..|cs|] == cs;
    return Ok(Inner(NameOf(Best(ranked)), rejected));
  }

  // ---- Calibration ----------------------------------------------------------------

  datatype Calibration = Calibration(inner: Inner, walk: Outcome, selected: Option<string>, holdout: Option<Packet>)

  function Contenders(cs: seq<Configuration>): (r: seq<Contender>)
    ensures |r| == |cs| && forall i :: 0 <= i < |cs| ==> r[i].name == cs[i].name
  {
    seq(|cs|, i requires 0 <= i < |cs| => Contender(cs[i].name, cs[i].complexity))
  }

  lemma {:induction false} EveryConfigurationHasTrades(trades: seq<Trade>, cs: seq<Configuration>, cooldown: real)
    ensures forall c :: c in cs ==> c.name in ByConfiguration(trades, cs, cooldown)
  {
    if |cs| > 0 {
      EveryConfigurationHasTrades(trades, cs[..|cs| - 1], cooldown);
      assert cs == cs[..|cs| - 1] + [cs[|cs| - 1]];
    }
  }

  /** The check that refuses a report outright, or `None`. */
  function ReportError(report: Report): Option<string> {
    if report.window.None? then Some("report lacks an immutable window")
    else if report.window.value.0 >= report.window.value.1 || !report.candidatePoolComplete
      then Some("report is not a complete immutable candidate pool")
    else if report.promotionPermitted != Some(false) then Some("report lacks the research-only net-EV guardrail")
    else if report.maxHoldHours.None? || report.maxHoldHours.value < 1 then Some("report lacks an outcome horizon")
    else if report.trades.None? then Some("report lacks historical trades")
    else None
  }

  /** The two selections and their agreement; the holdout is scored afterwards. */
  function CalibrateWith(score: Scoring, pools: map<string, seq<Trade>>, cs: seq<Configuration>, start: int, end: int,
                         horizon: int, minimumValidation: int, minimumFold: int): Result<Calibration, string>
    requires forall c :: c in cs ==> c.name in pools
  {
    var inner := SelectInner(score, pools, cs, start, end, horizon, minimumValidation);
    if inner.Err? then Err(inner.error)
    else
      var walk := WalkForwardOf(score, pools, Contenders(cs), start, end, horizon, INNER_FOLDS,
                                INITIAL_TRAIN_FRACTION, minimumFold);
      if walk.Err? then Err(walk.error)
      else
        var selected := if inner.value.selected == walk.value.selected then inner.value.selected else None;
        var holdout := if selected.Some? && selected.value in pools
                       then Some(score(Filter(pools[selected.value], From(end)))) else None;
        Ok(Calibration(inner.value, walk.value, selected, holdout))
  }

  function Calibrated(report: Report, cs: seq<Configuration>, minimumValidation: int,
                      minimumFold: int): Result<Calibration, string> {
    var refused := ReportError(report);
    if refused.Some? then Err(refused.value)
    else
      CalibrateTrades(report.trades.value, cs, CooldownMs(report.cooldownHours), report.window.value.0,
                      DevelopmentEnd(report.window.value.0, report.window.value.1), HoursMs(report.maxHoldHours.value),
                      minimumValidation, minimumFold)
  }

  function CalibrateTrades(trades: seq<Trade>, cs: seq<Configuration>, cooldown: real, start: int, end: int, horizon: int,
                           minimumValidation: int, minimumFold: int): Result<Calibration, string> {
    EveryConfigurationHasTrades(trades, cs, cooldown);
    CalibrateWith(NetPerformance, ByConfiguration(trades, cs, cooldown), cs, start, end, horizon, minimumValidation, minimumFold)
  }

  method Calibrate(report: Report, cs: seq<Configuration>, minimumValidation: int, minimumFold: int)
    returns (r: Result<Calibration, string>)
    ensures r == Calibrated(report, cs, minimumValidation, minimumFold)
  {
    var refused := ReportError(report);
    if refused.Some? { return Err(refused.value); }
    var (start, end) := report.window.value;
    var horizon := HoursMs(report.maxHoldHours.value);
    var developmentEnd := DevelopmentEnd(start, end);
    var pools := TradesByConfiguration(report, cs);
    EveryConfigurationHasTrades(report.trades.value, cs, CooldownMs(report.cooldownHours));
    var inner := SelectDevelopmentValidation(NetPerformance, pools.value, cs, start, developmentEnd, horizon, minimumValidation);
    if inner.Err? { return Err(inner.error); }
    var walk := DevelopmentWalkForward(NetPerformance, pools.value, Contenders(cs), start, developmentEnd, horizon,
                                       INNER_FOLDS, INITIAL_TRAIN_FRACTION, minimumFold);
    if walk.Err? { return Err(walk.error); }
    var agreed := inner.value.selected.Some? && inner.value.selected == walk.value.selected;
    var selected := if agreed then inner.value.selected else None;
    var holdout: Option<Packet> := None;
    if selected.Some? && selected.value in pools.value {
      holdout := Some(NetPerformance(Filter(pools.value[selected.value], From(developmentEnd))));
    }
    return Ok(Calibration(inner.value, walk.value, selected, holdout));
  }

  // ---- The holdout is not used for selection ---------------------------------------

  lemma {:induction false} ConfigurationsAgree(a: seq<Trade>, b: seq<Trade>, cs: seq<Configuration>, cooldown: real, t: int)
    requires Filter(a, Before(t)) == Filter(b, Before(t))
    ensures PoolsAgree(ByConfiguration(a, cs, cooldown), ByConfiguration(b, cs, cooldown), t)
  {
    if |cs| > 0 {
      ConfigurationsAgree(a, b, cs[..|cs| - 1], cooldown, t);
      var passes := Passes(cs[|cs| - 1].requirements);
      FilterSwap(a, passes, Before(t));
      FilterSwap(b, passes, Before(t));
      ReplayedAgree(Filter(a, passes), Filter(b, passes), cooldown, t);
    }
  }

  lemma SelectionAgrees(score: Scoring, p: map<string, seq<Trade>>, q: map<string, seq<Trade>>, cs: seq<Configuration>,
                        start: int, end: int, horizon: int, minimumValidation: int, minimumFold: int)
    requires PoolsAgree(p, q, end - horizon)
    requires forall c :: c in cs ==> c.name in p
    ensures var x := CalibrateWith(score, p, cs, start, end, horizon, minimumValidation, minimumFold);
            var y := CalibrateWith(score, q, cs, start, end, horizon, minimumValidation, minimumFold);
            SameSelection(x, y)
  {
    ValidationAgrees(score, p, q, start, end, horizon, end - horizon);
    WalkForwardAgrees(score, p, q, Contenders(cs), start, end, horizon, INNER_FOLDS, INITIAL_TRAIN_FRACTION, minimumFold);
  }

  /** Equal but for the score of the holdout itself. */
  ghost predicate SameSelection(x: Result<Calibration, string>, y: Result<Calibration, string>) {
    match (x, y)
    case (Ok(c), Ok(d)) => c.inner == d.inner && c.walk == d.walk && c.selected == d.selected
    case (Err(e), Err(f)) => e == f
    case _ => false
  }

  /**
   Two reports with the same window, cooldown and horizon whose trades agree before the
   development end less the horizon are calibrated alike: same inner selection, same
   walk-forward packets, same selected name, same refusal. Everything later is the holdout.
   */
  lemma HoldoutNeverSelects(a: Report, b: Report, cs: seq<Configuration>, minimumValidation: int, minimumFold: int)
    requires b == a.(trades := b.trades) && (a.trades.Some? <==> b.trades.Some?)
    requires a.trades.Some? && a.window.Some? && a.maxHoldHours.Some? ==>
               var t := DevelopmentEnd(a.window.value.0, a.window.value.1) - HoursMs(a.maxHoldHours.value);
               Filter(a.trades.value, Before(t)) == Filter(b.trades.value, Before(t))
    ensures SameSelection(Calibrated(a, cs, minimumValidation, minimumFold), Calibrated(b, cs, minimumValidation, minimumFold))
  {
    hide CalibrateTrades;
    if ReportError(a).None? {
      TradesAgree(a.trades.value, b.trades.value, cs, CooldownMs(a.cooldownHours), a.window.value.0,
                  DevelopmentEnd(a.window.value.0, a.window.value.1), HoursMs(a.maxHoldHours.value),
                  minimumValidation, minimumFold);
    }
  }

  lemma TradesAgree(a: seq<Trade>, b: seq<Trade>, cs: seq<Configuration>, cooldown: real, start: int, end: int, horizon: int,
                    minimumValidation: int, minimumFold: int)
    requires Filter(a, Before(end - horizon)) == Filter(b, Before(end - horizon))
    ensures SameSelection(CalibrateTrades(a, cs, cooldown, start, end, horizon, minimumValidation, minimumFold),
                          CalibrateTrades(b, cs, cooldown, start, end, horizon, minimumValidation, minimumFold))
  {
    hide CalibrateWith, ByConfiguration, Filter;
    ConfigurationsAgree(a, b, cs, cooldown, end - horizon);
    EveryConfigurationHasTrades(a, cs, cooldown);
    SelectionAgrees(NetPerformance, ByConfiguration(a, cs, cooldown), ByConfiguration(b, cs, cooldown),
                    cs, start, end, horizon, minimumValidation, minimumFold);
  }

  // ---- What a selection guarantees ---------------------------------------------------

  lemma {:induction false} RankingMeaning(packets: map<string, Packet>, cs: seq<Configuration>, minimum: int)
    requires forall c :: c in cs ==> c.name in packets
    ensures forall e :: e in Ranking(packets, cs, minimum) ==>
              exists c :: c in cs && Refusal(packets[c.name], minimum).None?
                && e == Entry(KeyOf(packets[c.name], 1, 1, c.complexity as real), c.name, 0.0)
    ensures forall c :: c in cs && Refusal(packets[c.name], minimum).None? ==>
              Entry(KeyOf(packets[c.name], 1, 1, c.complexity as real), c.name, 0.0) in Ranking(packets, cs, minimum)
  {
    if |cs| > 0 {
      RankingMeaning(packets, cs[..|cs| - 1], minimum);
      assert cs == cs[..|cs| - 1] + [cs[|cs| - 1]];
    }
  }

  /** The walk-forward entry of a contender with the given assessment. */
  function EntryFor(c: Contender, a: Assessment): Entry {
    Entry(KeyOf(a.performance, a.folds, a.positiveFolds, c.complexity as real), c.name, 0.0)
  }

  lemma {:induction false} EligibleMeaning(assessments: map<string, Assessment>, cs: seq<Contender>)
    requires forall c :: c in cs ==> c.name in assessments
    ensures forall e :: e in Eligible(assessments, cs) ==>
              exists c :: c in cs && assessments[c.name].valid && e == EntryFor(c, assessments[c.name])
    ensures forall c :: c in cs && assessments[c.name].valid ==> EntryFor(c, assessments[c.name]) in Eligible(assessments, cs)
  {
    if |cs| > 0 {
      EligibleMeaning(assessments, cs[..|cs| - 1]);
      assert cs == cs[..|cs| - 1] + [cs[|cs| - 1]];
    }
  }

  /**
   A selected configuration has a profitable, large enough validation sample, ranks no worse than
   every other acceptable configuration, and every walk-forward fold of it is large enough with
   at least two thirds of them positive.
   */
  lemma SelectedIsSupported(score: Scoring, pools: map<string, seq<Trade>>, cs: seq<Configuration>, start: int, end: int,
                            horizon: int, minimumValidation: int, minimumFold: int, r: Calibration)
    requires forall c :: c in cs ==> c.name in pools
    requires CalibrateWith(score, pools, cs, start, end, horizon, minimumValidation, minimumFold) == Ok(r)
    requires r.selected.Some?
    ensures r.selected.value in pools
    ensures var packets := ValidationPackets(score, pools, start, end, horizon);
            exists c :: c in cs && c.name == r.selected.value
              && Refusal(packets[c.name], minimumValidation).None?
              && forall d :: d in cs && Refusal(packets[d.name], minimumValidation).None? ==>
                   EntryOrder(Entry(KeyOf(packets[c.name], 1, 1, c.complexity as real), c.name, 0.0),
                              Entry(KeyOf(packets[d.name], 1, 1, d.complexity as real), d.name, 0.0))
    ensures var w := Windows(start, end, horizon, INNER_FOLDS, INITIAL_TRAIN_FRACTION);
            && w.Ok?
            && forall i :: 0 <= i < |w.value| ==> Sufficient(FoldPacket(score, pools[r.selected.value], w.value[i]), minimumFold)
    ensures Assess(score, pools[r.selected.value],
                   Windows(start, end, horizon, INNER_FOLDS, INITIAL_TRAIN_FRACTION).value,
                   INNER_FOLDS, minimumFold).positiveFolds >= 2
  {
    hide Sorted, StableSort, Filter, WindowAt, WindowError, KeyLe;
    var packets := ValidationPackets(score, pools, start, end, horizon);
    var ranked := Ranking(packets, cs, minimumValidation);
    RankingMeaning(packets, cs, minimumValidation);
    BestIsLeast(ranked);
    var w := Windows(start, end, horizon, INNER_FOLDS, INITIAL_TRAIN_FRACTION);
    WindowsTile(start, end, horizon, INNER_FOLDS, INITIAL_TRAIN_FRACTION, w.value);
    var assessments := Assessments(score, pools, w.value, INNER_FOLDS, minimumFold);
    var eligible := Eligible(assessments, Contenders(cs));
    BestIsLeast(eligible);
    EligibleMeaning(assessments, Contenders(cs));
    var name := r.selected.value;
    var a := assessments[name];
    assert a.valid;
    CountsBound(a.foldPackets, minimumFold);
    forall i | 0 <= i < |w.value| ensures Sufficient(FoldPacket(score, pools[name], w.value[i]), minimumFold) {
      assert a.foldPackets[i] in a.foldPackets;
    }
  }
}
