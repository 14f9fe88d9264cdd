/** Threshold calibration for Score V2: one validation selector and one walk-forward, which must agree. */
module CalibrateScoreV2 {
  import opened Wrappers
  import opened Sequences
  import opened Trades
  import opened Metrics
  import opened Splits
  import opened Cooldown
  import opened Selection
  import opened WalkForward

  /** `threshold` is `None` for a value that is not a number. */
  datatype Configuration = Configuration(name: string, approvedWeights: bool, threshold: Option<real>, complexity: int)

  datatype Report = Report(
    trades: seq<Trade>,
    window: Option<(int, int)>,
    candidatePoolComplete: bool,
    cooldownHours: real,
    maxHoldHours: Option<int>)

  const AVAILABLE_MAXIMUM := 75.0
  const INITIAL_TRAIN_FRACTION := 0.5

  function ThresholdOf(c: Configuration): Option<real> {
    if c.threshold.Some? && 0.0 <= c.threshold.value <= AVAILABLE_MAXIMUM then c.threshold else None
  }

  predicate ValidCandidate(c: Configuration) { c.approvedWeights && ThresholdOf(c).Some? }

  // ---- Trades per threshold -----------------------------------------------------

  function Scores(threshold: real): Trade -> bool {
    (t: Trade) => t.availableScore.Some? && t.availableScore.value >= threshold
  }

  function TradesAbove(trades: seq<Trade>, threshold: real, cooldown: real): seq<Trade> {
    Replayed(Filter(trades, Scores(threshold)), cooldown)
  }

  function ByThreshold(trades: seq<Trade>, cs: seq<Configuration>, cooldown: real): map<string, seq<Trade>> {
    if |cs| == 0 then map[]
    else
      var before := ByThreshold(trades, cs[..|cs| - 1], cooldown);
      var threshold := ThresholdOf(cs[|cs| - 1]);
      if threshold.None? then before else before[cs[|cs| - 1].name := TradesAbove(trades, threshold.value, cooldown)]
  }

  method TradesByThreshold(report: Report, cs: seq<Configuration>) returns (selected: map<string, seq<Trade>>)
    ensures selected == ByThreshold(report.trades, cs, CooldownMs(report.cooldownHours))
  {
    selected := map[];
    for i := 0 to |cs|
      invariant selected == ByThreshold(report.trades, cs[..i], CooldownMs(report.cooldownHours))
    {
      assert cs[..i + 1][..i] == cs[..i];
      var threshold := ThresholdOf(cs[i]);
      if threshold.None? { continue; }
      var eligible := Filter(report.trades, Scores(threshold.value));
      var cooldown := CooldownMs(report.cooldownHours);
      var replayed := ReplayCooldown(eligible, cooldown);
      selected := selected[cs[i].name := replayed];
    }
    assert cs[..|cs|] == cs;
  }

  // ---- Validation selector --------------------------------------------------------

  datatype Inner = Inner(selected: Option<string>, threshold: Option<real>, rejected: map<string, string>)

  function Refusal(c: Configuration, net: Packet, minimum: int): Option<string> {
    if !ValidCandidate(c) then Some("weights must sum to 100 and match approved component maxima")
    else if !net.Available? then Some("validation costs are incomplete or unreconciled")
    else if net.sampleSize < minimum then Some("insufficient validation trades")
    else if net.expectancyR <= 0.0 then Some("validation net expectancy is not positive")
    else if net.profitFactor.None? then Some("validation profit factor is undefined without observed losses")
    else None
  }

  /** `validation.get(name, [])`, scored. */
  function PacketOf(score: Scoring, packets: map<string, Packet>, name: string): Packet {
    if name in packets then packets[name] else score([])
  }

  function EntryOf(c: Configuration, net: Packet): Entry {
    Entry(KeyOf(net, 1, 1, c.complexity as real), c.name, ThresholdOf(c).GetOr(0.0))
  }

  function Ranking(score: Scoring, packets: map<string, Packet>, cs: seq<Configuration>, minimum: int): seq<Entry> {
    if |cs| == 0 then []
    else
      var c := cs[|cs| - 1];
      var before := Ranking(score, packets, cs[..|cs| - 1], minimum);
      var net := PacketOf(score, packets, c.name);
      if Refusal(c, net, minimum).Some? then before else before + [EntryOf(c, net)]
  }

  function Rejections(score: Scoring, packets: map<string, Packet>, cs: seq<Configuration>, minimum: int): map<string, string> {
    if |cs| == 0 then map[]
    else
      var c := cs[|cs| - 1];
      var before := Rejections(score, packets, cs[..|cs| - 1], minimum);
      var refusal := Refusal(c, PacketOf(score, packets, c.name), minimum);
      if refusal.Some? then before[c.name := refusal.value] else before
  }

  function InnerOf(best: Option<Entry>, rejected: map<string, string>): Inner {
    if best.None? then Inner(None, None, rejected) else Inner(Some(best.value.name), Some(best.value.threshold), rejected)
  }

  method SelectWeights(score: Scoring, validation: map<string, seq<Trade>>, cs: seq<Configuration>, minimum: int,
                       ghost packets: map<string, Packet>) returns (inner: Inner)
    requires packets.Keys == validation.Keys && forall name :: name in validation ==> packets[name] == score(validation[name])
    ensures inner == SelectInner(score, packets, cs, minimum)
  {
    var ranked: seq<Entry> := [];
    var rejected: map<string, string> := map[];
    for i := 0 to |cs|
      invariant ranked == Ranking(score, packets, cs[..i], minimum)
      invariant rejected == Rejections(score, packets, cs[..i], minimum)
    {
      var c := cs[i];
      assert cs[..i + 1][..i] == cs[..i];
      if !ValidCandidate(c) {
        rejected := rejected[c.name := "weights must sum to 100 and match approved component maxima"];
        continue;
      }
      var net := score(if c.name in validation then validation[c.name] else []);
      assert net == PacketOf(score, packets, c.name);
      var refusal := Refusal(c, net, minimum);
      if refusal.Some? {
        rejected := rejected[c.name := refusal.value];
        continue;
      }
      ranked := ranked + [EntryOf(c, net)];
    }
    assert cs[..|cs|] == cs;
    inner := InnerOf(Best(ranked), rejected);
  }

  // ---- Calibration -------------------------------------------------------------------

  datatype Calibration = Calibration(inner: Inner, walk: Outcome, selected: Option<string>, holdout: Option<Packet>)

  function Contenders(cs: seq<Configuration>): (r: seq<Contender>)
    ensures |r| == |cs| && forall i :: 0 <= i < |cs| ==> r[i].name == cs[i].name
  {
    seq(|cs|, i requires 0 <= i < |cs| => Contender(cs[i].name, cs[i].complexity))
  }

  /** `by_configuration.get(name, [])` for every configuration. */
  function Complete(pools: map<string, seq<Trade>>, cs: seq<Configuration>): (r: map<string, seq<Trade>>)
    ensures forall c :: c in cs ==> c.name in r
  {
    var missing := map c | c in cs && c.name !in pools :: c.name := [];
    pools + missing
  }

  function HorizonOf(report: Report, override: Option<int>): Option<int> {
    if override.Some? then override
    else if report.maxHoldHours.Some? && report.maxHoldHours.value >= 1 then Some(HoursMs(report.maxHoldHours.value))
    else None
  }

  function ReportError(report: Report, override: Option<int>): Option<string> {
    if report.window.None? || report.window.value.0 >= report.window.value.1
      then Some("backtest report lacks a valid immutable window")
    else if !report.candidatePoolComplete then Some("backtest report lacks a complete pre-threshold candidate pool")
    else if HorizonOf(report, override).None? then Some("backtest report lacks a valid outcome horizon")
    else None
  }

  function SelectInner(score: Scoring, packets: map<string, Packet>, cs: seq<Configuration>, minimum: int): Inner {
    InnerOf(Best(Ranking(score, packets, cs, minimum)), Rejections(score, packets, cs, minimum))
  }

  predicate EveryNamePooled(names: set<string>, cs: seq<Configuration>) { forall c :: c in cs ==> c.name in names }

  function HoldoutPacket(score: Scoring, pools: map<string, seq<Trade>>, selected: Option<string>, from: int): Option<Packet> {
    if selected.Some? && selected.value in pools
    then Some(score(Filter(StableSort(pools[selected.value], TimeOrder), From(from)))) else None
  }

  /** Both selectors' verdicts put together; an unpooled configuration fails the final report. */
  function Conclude(inner: Inner, walk: Result<Outcome, string>, pooled: bool,
                    holdout: Option<string> -> Option<Packet>): Result<Calibration, string> {
    if walk.Err? then Err(walk.error)
    else if !pooled then Err("KeyError")
    else
      var selected := if inner.selected == walk.value.selected then inner.selected else None;
      Ok(Calibration(inner, walk.value, selected, holdout(selected)))
  }

  function CalibrateWith(score: Scoring, pools: map<string, seq<Trade>>, cs: seq<Configuration>, start: int, end: int,
                         horizon: int, minimumValidation: int, folds: int, minimumFold: int): Result<Calibration, string>
  {
    if pools.Keys != {} && (start >= end || horizon < 0) then Err("invalid research window")
    else
      Conclude(
        SelectInner(score, ValidationPackets(score, pools, start, end, horizon), cs, minimumValidation),
        WalkForwardOf(score, Complete(pools, cs), Contenders(cs), start, DevelopmentEnd(start, end), horizon,
                      folds, INITIAL_TRAIN_FRACTION, minimumFold),
        EveryNamePooled(pools.Keys, cs),
        selected => HoldoutPacket(score, pools, selected, DevelopmentEnd(start, end)))
  }

  function CalibrateTrades(trades: seq<Trade>, cs: seq<Configuration>, cooldown: real, start: int, end: int, horizon: int,
                           minimumValidation: int, folds: int, minimumFold: int): Result<Calibration, string> {
    CalibrateWith(NetPerformance, ByThreshold(trades, cs, cooldown), cs, start, end, horizon, minimumValidation, folds, minimumFold)
  }

  function Calibrated(report: Report, cs: seq<Configuration>, override: Option<int>, minimumValidation: int, folds: int,
                      minimumFold: int): Result<Calibration, string> {
    var refused := ReportError(report, override);
    if refused.Some? then Err(refused.value)
    else
      CalibrateTrades(report.trades, cs, CooldownMs(report.cooldownHours), report.window.value.0, report.window.value.1,
                      HorizonOf(report, override).value, minimumValidation, folds, minimumFold)
  }

  method Calibrate(report: Report, cs: seq<Configuration>, override: Option<int>, minimumValidation: int, folds: int,
                   minimumFold: int) returns (r: Result<Calibration, string>)
    ensures r == Calibrated(report, cs, override, minimumValidation, folds, minimumFold)
  {
    var refused := ReportError(report, override);
    if refused.Some? { return Err(refused.value); }
    var (start, end) := report.window.value;
    var horizon := HorizonOf(report, override).value;
    var pools := TradesByThreshold(report, cs);
    r := CalibratePools(NetPerformance, pools, cs, start, end, horizon, minimumValidation, folds, minimumFold);
  }

  method CalibratePools(score: Scoring, pools: map<string, seq<Trade>>, cs: seq<Configuration>, start: int, end: int,
                        horizon: int, minimumValidation: int, folds: int, minimumFold: int) returns (r: Result<Calibration, string>)
    ensures r == CalibrateWith(score, pools, cs, start, end, horizon, minimumValidation, folds, minimumFold)
  {
    if pools.Keys != {} && (start >= end || horizon < 0) { return Err("invalid research window"); }
    var splits := map name | name in pools :: PurgedTimeSplits(pools[name], start, end, horizon);
    assert forall name :: name in pools ==> splits[name].Ok?;
    var validation := map name | name in splits && splits[name].Ok? :: splits[name].value.validation;
    ghost var packets := ValidationPackets(score, pools, start, end, horizon);
    var inner := SelectWeights(score, validation, cs, minimumValidation, packets);
    var walk := DevelopmentWalkForward(score, Complete(pools, cs), Contenders(cs), start, DevelopmentEnd(start, end), horizon,
                                       folds, INITIAL_TRAIN_FRACTION, minimumFold);
    if walk.Err? { return Err(walk.error); }
    if !EveryNamePooled(pools.Keys, cs) { return Err("KeyError"); }
    var selected := if inner.selected == walk.value.selected then inner.selected else None;
    var holdout: Option<Packet> := None;
    if selected.Some? && selected.value in pools {
      assert splits[selected.value].Ok?;
      holdout := Some(score(splits[selected.value].value.holdout));
    }
    return Ok(Calibration(inner, walk.value, selected, holdout));
  }

  // ---- What a selection guarantees ---------------------------------------------------------

  lemma {:induction false} RankingMeaning(score: Scoring, packets: map<string, Packet>, cs: seq<Configuration>, minimum: int)
    ensures forall e :: e in Ranking(score, packets, cs, minimum) ==>
              exists c :: c in cs && Acceptable(score, packets, c, minimum) && e == EntryOf(c, PacketOf(score, packets, c.name))
    ensures forall c :: c in cs && Acceptable(score, packets, c, minimum) ==>
              EntryOf(c, PacketOf(score, packets, c.name)) in Ranking(score, packets, cs, minimum)
  {
    hide EntryOf, PacketOf, Refusal;
    if |cs| > 0 {
      RankingMeaning(score, packets, cs[..|cs| - 1], minimum);
      assert cs == cs[..|cs| - 1] + [cs[|cs| - 1]];
    }
  }

  predicate Acceptable(score: Scoring, packets: map<string, Packet>, c: Configuration, minimum: int) {
    Refusal(c, PacketOf(score, packets, c.name), minimum).None?
  }

  lemma {:induction false} EligibleAreValid(assessments: map<string, Assessment>, cs: seq<Contender>)
    requires forall c :: c in cs ==> c.name in assessments
    ensures forall e :: e in Eligible(assessments, cs) ==> e.name in assessments && assessments[e.name].valid
  {
    if |cs| > 0 { EligibleAreValid(assessments, cs[..|cs| - 1]); }
  }

  /**
   A selected configuration was acceptable in validation and ranks no worse than every other acceptable one; and
   whatever the number of folds, every fold of it is large enough with at least two thirds of them positive.
   */
  lemma SelectedIsSupported(score: Scoring, pools: map<string, seq<Trade>>, cs: seq<Configuration>, start: int, end: int,
                            horizon: int, minimumValidation: int, folds: int, minimumFold: int, r: Calibration)
    requires CalibrateWith(score, pools, cs, start, end, horizon, minimumValidation, folds, minimumFold) == Ok(r)
    requires r.selected.Some?
    ensures r.selected.value in pools && r.inner.selected == r.selected == r.walk.selected
    ensures var packets := ValidationPackets(score, pools, start, end, horizon);
            exists c :: c in cs && c.name == r.selected.value && ThresholdOf(c) == r.inner.threshold
              && Acceptable(score, packets, c, minimumValidation)
              && forall d :: d in cs && Acceptable(score, packets, d, minimumValidation) ==>
                   EntryOrder(EntryOf(c, PacketOf(score, packets, c.name)), EntryOf(d, PacketOf(score, packets, d.name)))
    ensures var w := Windows(start, DevelopmentEnd(start, end), horizon, folds, INITIAL_TRAIN_FRACTION);
            && w.Ok?
            && WellSupported(score, pools[r.selected.value], w.value, folds, minimumFold)
  {
    hide EntryOrder, KeyOf, Windows;
    var packets := ValidationPackets(score, pools, start, end, horizon);
    RankingMeaning(score, packets, cs, minimumValidation);
    BestIsLeast(Ranking(score, packets, cs, minimumValidation));
    WalkSelectsSupported(score, Complete(pools, cs), cs, start, DevelopmentEnd(start, end), horizon, folds, minimumFold);
  }

  /** Every fold is large enough, and at least two thirds of the folds are positive. */
  ghost predicate WellSupported(score: Scoring, trades: seq<Trade>, w: seq<Window>, folds: int, minimum: int) {
    && (forall i :: 0 <= i < |w| ==> Sufficient(FoldPacket(score, trades, w[i]), minimum))
    && 3 * PositiveCount(FoldPackets(score, trades, w), minimum) >= 2 * folds
  }

  lemma WalkSelectsSupported(score: Scoring, pools: map<string, seq<Trade>>, cs: seq<Configuration>, start: int, end: int,
                             horizon: int, folds: int, minimum: int)
    requires forall c :: c in cs ==> c.name in pools
    ensures var walk := WalkForwardOf(score, pools, Contenders(cs), start, end, horizon, folds, INITIAL_TRAIN_FRACTION, minimum);
            walk.Ok? && walk.value.selected.Some? ==>
              var w := Windows(start, end, horizon, folds, INITIAL_TRAIN_FRACTION);
              && w.Ok? && walk.value.selected.value in pools
              && WellSupported(score, pools[walk.value.selected.value], w.value, folds, minimum)
  {
    hide KeyOf, EntryOrder, FoldPacket, OutOfSample;
    var w := Windows(start, end, horizon, folds, INITIAL_TRAIN_FRACTION);
    if w.Ok? {
      WindowsTile(start, end, horizon, folds, INITIAL_TRAIN_FRACTION, w.value);
      var assessments := Assessments(score, pools, w.value, folds, minimum);
      var eligible := Eligible(assessments, Contenders(cs));
      BestIsLeast(eligible);
      EligibleAreValid(assessments, Contenders(cs));
      if Best(eligible).Some? {
        var name := Best(eligible).value.name;
        var packets := assessments[name].foldPackets;
        CountsBound(packets, minimum);
        forall i | 0 <= i < |w.value| ensures Sufficient(FoldPacket(score, pools[name], w.value[i]), minimum) {
          assert packets[i] in packets;
        }
      }
    }
  }

  // ---- The holdout is not used for selection -------------------------------------------

  lemma {:induction false} ThresholdsAgree(a: seq<Trade>, b: seq<Trade>, cs: seq<Configuration>, cooldown: real, t: int)
    requires Filter(a, Before(t)) == Filter(b, Before(t))
    ensures PoolsAgree(ByThreshold(a, cs, cooldown), ByThreshold(b, cs, cooldown), t)
  {
    if |cs| > 0 {
      ThresholdsAgree(a, b, cs[..|cs| - 1], cooldown, t);
      var threshold := ThresholdOf(cs[|cs| - 1]);
      if threshold.Some? {
        FilterSwap(a, Scores(threshold.value), Before(t));
        FilterSwap(b, Scores(threshold.value), Before(t));
        ReplayedAgree(Filter(a, Scores(threshold.value)), Filter(b, Scores(threshold.value)), cooldown, t);
      }
    }
  }

  ghost predicate SameSelection(x: Result<Calibration, string>, y: Result<Calibration, string>) {
    match (x, y)
    case (Ok(c), Ok(d)) => c.inner == d.inner && c.walk == d.walk && c.selected == d.selected
    case (Err(e), Err(f)) => e == f
    case _ => false
  }

  /** The holdout packet is all that two conclusions from the same verdicts may differ in. */
  lemma ConclusionsAgree(inner: Inner, walk: Result<Outcome, string>, pooled: bool, x: Option<string> -> Option<Packet>,
                         y: Option<string> -> Option<Packet>)
    ensures SameSelection(Conclude(inner, walk, pooled, x), Conclude(inner, walk, pooled, y))
  {}

  lemma SelectionAgrees(score: Scoring, p: map<string, seq<Trade>>, q: map<string, seq<Trade>>, cs: seq<Configuration>,
                        start: int, end: int, horizon: int, minimumValidation: int, folds: int, minimumFold: int)
    requires PoolsAgree(p, q, DevelopmentEnd(start, end) - horizon)
    ensures SameSelection(CalibrateWith(score, p, cs, start, end, horizon, minimumValidation, folds, minimumFold),
                          CalibrateWith(score, q, cs, start, end, horizon, minimumValidation, folds, minimumFold))
  {
    hide Complete, WalkForwardOf, SelectInner, ValidationPackets;
    var t := DevelopmentEnd(start, end) - horizon;
    ValidationAgrees(score, p, q, start, end, horizon, t);
    WalksAgree(score, p, q, cs, start, DevelopmentEnd(start, end), horizon, folds, minimumFold);
    ConclusionsAgree(
      SelectInner(score, ValidationPackets(score, p, start, end, horizon), cs, minimumValidation),
      WalkForwardOf(score, Complete(p, cs), Contenders(cs), start, DevelopmentEnd(start, end), horizon,
                    folds, INITIAL_TRAIN_FRACTION, minimumFold),
      EveryNamePooled(p.Keys, cs),
      selected => HoldoutPacket(score, p, selected, DevelopmentEnd(start, end)),
      selected => HoldoutPacket(score, q, selected, DevelopmentEnd(start, end)));
  }

  lemma WalksAgree(score: Scoring, p: map<string, seq<Trade>>, q: map<string, seq<Trade>>, cs: seq<Configuration>,
                   start: int, end: int, horizon: int, folds: int, minimumFold: int)
    requires PoolsAgree(p, q, end - horizon)
    ensures WalkForwardOf(score, Complete(p, cs), Contenders(cs), start, end, horizon,
                          folds, INITIAL_TRAIN_FRACTION, minimumFold) ==
            WalkForwardOf(score, Complete(q, cs), Contenders(cs), start, end, horizon, folds, INITIAL_TRAIN_FRACTION, minimumFold)
  {
    CompleteAgrees(p, q, cs, end - horizon);
    WalkForwardAgrees(score, Complete(p, cs), Complete(q, cs), Contenders(cs), start, end, horizon,
                      folds, INITIAL_TRAIN_FRACTION, minimumFold);
  }

  lemma CompleteAgrees(p: map<string, seq<Trade>>, q: map<string, seq<Trade>>, cs: seq<Configuration>, t: int)
    requires PoolsAgree(p, q, t)
    ensures PoolsAgree(Complete(p, cs), Complete(q, cs), t)
  {}

  lemma TradesAgree(a: seq<Trade>, b: seq<Trade>, cs: seq<Configuration>, cooldown: real, start: int, end: int, horizon: int,
                    minimumValidation: int, folds: int, minimumFold: int)
    requires var t := DevelopmentEnd(start, end) - horizon; Filter(a, Before(t)) == Filter(b, Before(t))
    ensures SameSelection(CalibrateTrades(a, cs, cooldown, start, end, horizon, minimumValidation, folds, minimumFold),
                          CalibrateTrades(b, cs, cooldown, start, end, horizon, minimumValidation, folds, minimumFold))
  {
    hide CalibrateWith, ByThreshold, Filter;
    ThresholdsAgree(a, b, cs, cooldown, DevelopmentEnd(start, end) - horizon);
    SelectionAgrees(NetPerformance, ByThreshold(a, cs, cooldown), ByThreshold(b, cs, cooldown), cs, start, end, horizon,
                    minimumValidation, folds, minimumFold);
  }

  /** The trades selection may read: those before the development end less the horizon. */
  function Selecting(report: Report, override: Option<int>): Trade -> bool
    requires report.window.Some? && HorizonOf(report, override).Some?
  {
    Before(DevelopmentEnd(report.window.value.0, report.window.value.1) - HorizonOf(report, override).value)
  }

  /** The Score V2 counterpart of the holdout claim, for any horizon override and fold count. */
  lemma HoldoutNeverSelects(a: Report, b: Report, cs: seq<Configuration>, override: Option<int>, minimumValidation: int,
                            folds: int, minimumFold: int)
    requires b == a.(trades := b.trades)
    requires a.window.Some? && HorizonOf(a, override).Some? ==>
               Filter(a.trades, Selecting(a, override)) == Filter(b.trades, Selecting(a, override))
    ensures SameSelection(Calibrated(a, cs, override, minimumValidation, folds, minimumFold),
                          Calibrated(b, cs, override, minimumValidation, folds, minimumFold))
  {
    hide CalibrateTrades;
    if ReportError(a, override).None? {
      TradesAgree(a.trades, b.trades, cs, CooldownMs(a.cooldownHours), a.window.value.0, a.window.value.1,
                  HorizonOf(a, override).value, minimumValidation, folds, minimumFold);
    }
  }
}
