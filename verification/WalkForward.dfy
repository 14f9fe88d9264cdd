/** The anchored walk-forward both calibrators run over the development period. */
module WalkForward {
  import opened Wrappers
  import opened Sequences
  import opened Trades
  import opened Metrics
  import opened Splits
  import opened Selection

  /** What the walk-forward reads of a configuration. */
  datatype Contender = Contender(name: string, complexity: int)

  // ---- Walk-forward assessment of one configuration -------------------------

  datatype Assessment = Assessment(
    folds: int, sufficientFolds: nat, positiveFolds: nat, requiredPositive: int,
    performance: Packet, foldPackets: seq<Packet>, valid: bool)

  function FoldPacket(score: Scoring, trades: seq<Trade>, w: Window): Packet { score(Filter(trades, InWindow(w))) }

  predicate Sufficient(packet: Packet, minimum: int) { packet.Available? && packet.sampleSize >= minimum }

  predicate Positive(packet: Packet, minimum: int) { Sufficient(packet, minimum) && packet.expectancyR > 0.0 }

  /** The out-of-sample trades of the first `n` folds that are large enough. */
  function OutOfSample(score: Scoring, trades: seq<Trade>, w: seq<Window>, minimum: int, n: nat): seq<Trade>
    requires n <= |w|
  {
    if n == 0 then []
    else
      var before := OutOfSample(score, trades, w, minimum, n - 1);
      if Sufficient(FoldPacket(score, trades, w[n - 1]), minimum) then before + Filter(trades, InWindow(w[n - 1])) else before
  }

  function SufficientCount(packets: seq<Packet>, minimum: int): nat {
    if |packets| == 0 then 0
    else SufficientCount(packets[..|packets| - 1], minimum) + (if Sufficient(packets[|packets| - 1], minimum) then 1 else 0)
  }

  function PositiveCount(packets: seq<Packet>, minimum: int): nat {
    if |packets| == 0 then 0
    else PositiveCount(packets[..|packets| - 1], minimum) + (if Positive(packets[|packets| - 1], minimum) then 1 else 0)
  }

  function FoldPackets(score: Scoring, trades: seq<Trade>, w: seq<Window>): (r: seq<Packet>)
    ensures |r| == |w|
  {
    seq(|w|, i requires 0 <= i < |w| => FoldPacket(score, trades, w[i]))
  }

  /** `math.ceil(folds * 2 / 3)`. */
  function RequiredPositive(folds: int): int { (folds * 2 + 2) / 3 }

  function Assess(score: Scoring, trades: seq<Trade>, w: seq<Window>, folds: int, minimum: int): Assessment {
    var packets := FoldPackets(score, trades, w);
    var aggregate := score(OutOfSample(score, trades, w, minimum, |w|));
    var sufficient, positive := SufficientCount(packets, minimum), PositiveCount(packets, minimum);
    Assessment(
      folds, sufficient, positive, RequiredPositive(folds), aggregate, packets,
      && sufficient == folds && positive >= RequiredPositive(folds)
      && aggregate.Available? && aggregate.profitFactor.Some?)
  }

  method AssessFolds(score: Scoring, trades: seq<Trade>, windows: seq<Window>, folds: int, minimum: int) returns (a: Assessment)
    ensures a == Assess(score, trades, windows, folds, minimum)
  {
    var foldPackets: seq<Packet> := [];
    var oos: seq<Trade> := [];
    for i := 0 to |windows|
      invariant foldPackets == FoldPackets(score, trades, windows)[..i]
      invariant oos == OutOfSample(score, trades, windows, minimum, i)
    {
      var selected := Filter(trades, InWindow(windows[i]));
      var metrics := score(selected);
      foldPackets := foldPackets + [metrics];
      if Sufficient(metrics, minimum) {
        oos := oos + selected;
      }
    }
    assert foldPackets == FoldPackets(score, trades, windows);
    var aggregate := score(oos);
    var sufficientFolds, positiveFolds := 0, 0;
    for i := 0 to |foldPackets|
      invariant sufficientFolds == SufficientCount(foldPackets[..i], minimum)
      invariant positiveFolds == PositiveCount(foldPackets[..i], minimum)
    {
      assert foldPackets[..i + 1][..i] == foldPackets[..i];
      if Sufficient(foldPackets[i], minimum) { sufficientFolds := sufficientFolds + 1; }
      if Positive(foldPackets[i], minimum) { positiveFolds := positiveFolds + 1; }
    }
    assert foldPackets[..|foldPackets|] == foldPackets;
    a := Assessment(
      folds, sufficientFolds, positiveFolds, RequiredPositive(folds), aggregate, foldPackets,
      && sufficientFolds == folds && positiveFolds >= RequiredPositive(folds)
      && aggregate.Available? && aggregate.profitFactor.Some?);
  }

  /** A configuration is assessed on its trades before the last test-signal end, and on no others. */
  lemma AssessAgrees(score: Scoring, a: seq<Trade>, b: seq<Trade>, w: seq<Window>, folds: int, minimum: int, t: int)
    requires Filter(a, Before(t)) == Filter(b, Before(t))
    requires forall i :: 0 <= i < |w| ==> w[i].testSignalEnd <= t
    ensures Assess(score, a, w, folds, minimum) == Assess(score, b, w, folds, minimum)
  {
    forall i | 0 <= i < |w| ensures Filter(a, InWindow(w[i])) == Filter(b, InWindow(w[i])) {
      FilterWithin(a, b, InWindow(w[i]), Before(t));
    }
    assert FoldPackets(score, a, w) == FoldPackets(score, b, w);
    OutOfSampleAgrees(score, a, b, w, minimum, |w|);
  }

  lemma {:induction false} OutOfSampleAgrees(score: Scoring, a: seq<Trade>, b: seq<Trade>, w: seq<Window>, minimum: int, n: nat)
    requires n <= |w|
    requires forall i :: 0 <= i < |w| ==> Filter(a, InWindow(w[i])) == Filter(b, InWindow(w[i]))
    ensures OutOfSample(score, a, w, minimum, n) == OutOfSample(score, b, w, minimum, n)
  {
    if n > 0 { OutOfSampleAgrees(score, a, b, w, minimum, n - 1); }
  }

  lemma {:induction false} CountsBound(packets: seq<Packet>, minimum: int)
    ensures PositiveCount(packets, minimum) <= SufficientCount(packets, minimum) <= |packets|
    ensures SufficientCount(packets, minimum) == |packets| <==> forall p :: p in packets ==> Sufficient(p, minimum)
  {
    if |packets| > 0 {
      CountsBound(packets[..|packets| - 1], minimum);
      assert packets == packets[..|packets| - 1] + [packets[|packets| - 1]];
    }
  }

  /** When every fold is large enough, the assessed sample is all test-window trades, fold by fold. */
  lemma {:induction false} ValidUsesEveryFold(score: Scoring, trades: seq<Trade>, w: seq<Window>, minimum: int, n: nat)
    requires n <= |w|
    requires forall i :: 0 <= i < |w| ==> Sufficient(FoldPacket(score, trades, w[i]), minimum)
    ensures forall t :: t in OutOfSample(score, trades, w, minimum, n) <==>
              t in trades && exists i :: 0 <= i < n && InWindow(w[i])(t)
  {
    if n > 0 {
      ValidUsesEveryFold(score, trades, w, minimum, n - 1);
      FilterMember(trades, InWindow(w[n - 1]));
    }
  }

  // ---- All configurations -------------------------------------------------

  datatype Outcome = Outcome(selected: Option<string>, configurations: map<string, Assessment>)

  function Assessments(score: Scoring, pools: map<string, seq<Trade>>, w: seq<Window>, folds: int,
                       minimum: int): map<string, Assessment> {
    map name | name in pools :: Assess(score, pools[name], w, folds, minimum)
  }

  function Eligible(assessments: map<string, Assessment>, cs: seq<Contender>): seq<Entry>
    requires forall c :: c in cs ==> c.name in assessments
  {
    if |cs| == 0 then []
    else
      var c := cs[|cs| - 1];
      var a := assessments[c.name];
      var before := Eligible(assessments, cs[..|cs| - 1]);
      if a.valid then before + [Entry(KeyOf(a.performance, a.folds, a.positiveFolds, c.complexity as real), c.name, 0.0)]
      else before
  }

  function Named(assessments: map<string, Assessment>, cs: seq<Contender>): map<string, Assessment>
    requires forall c :: c in cs ==> c.name in assessments
  {
    if |cs| == 0 then map[]
    else Named(assessments, cs[..|cs| - 1])[cs[|cs| - 1].name := assessments[cs[|cs| - 1].name]]
  }

  function WalkForwardOf(score: Scoring, pools: map<string, seq<Trade>>, cs: seq<Contender>, start: int, end: int,
                         horizon: int, folds: int, fraction: real, minimum: int): Result<Outcome, string>
    requires forall c :: c in cs ==> c.name in pools
  {
    var windows := Windows(start, end, horizon, folds, fraction);
    if windows.Err? then Err(windows.error)
    else
      var assessments := Assessments(score, pools, windows.value, folds, minimum);
      Ok(Outcome(NameOf(Best(Eligible(assessments, cs))), Named(assessments, cs)))
  }

  method DevelopmentWalkForward(score: Scoring, pools: map<string, seq<Trade>>, cs: seq<Contender>, start: int, end: int,
                                horizon: int, folds: int, fraction: real, minimum: int) returns (walk: Result<Outcome, string>)
    requires forall c :: c in cs ==> c.name in pools
    ensures walk == WalkForwardOf(score, pools, cs, start, end, horizon, folds, fraction, minimum)
  {
    var windows := ExpandingWalkForwardWindows(start, end, horizon, folds, fraction);
    if windows.Err? { return Err(windows.error); }
    ghost var assessments := Assessments(score, pools, windows.value, folds, minimum);
    var packets: map<string, Assessment> := map[];
    var eligible: seq<Entry> := [];
    for i := 0 to |cs|
      invariant eligible == Eligible(assessments, cs[..i])
      invariant packets == Named(assessments, cs[..i])
    {
      var c := cs[i];
      assert cs[..i + 1][..i] == cs[..i];
      var packet := AssessFolds(score, pools[c.name], windows.value, folds, minimum);
      assert assessments[c.name] == packet;
      packets := packets[c.name := packet];
      if packet.valid {
        eligible := eligible + [Entry(KeyOf(packet.performance, packet.folds, packet.positiveFolds, c.complexity as real),
                                     c.name, 0.0)];
      }
    }
    assert cs[..|cs|] == cs;
    return Ok(Outcome(NameOf(Best(eligible)), packets));
  }

  lemma AssessmentsAgree(score: Scoring, p: map<string, seq<Trade>>, q: map<string, seq<Trade>>, w: seq<Window>, folds: int,
                         minimum: int, t: int)
    requires PoolsAgree(p, q, t)
    requires forall i :: 0 <= i < |w| ==> w[i].testSignalEnd <= t
    ensures Assessments(score, p, w, folds, minimum) == Assessments(score, q, w, folds, minimum)
  {
    forall name | name in p
      ensures Assess(score, p[name], w, folds, minimum) == Assess(score, q[name], w, folds, minimum)
    {
      AssessAgrees(score, p[name], q[name], w, folds, minimum, t);
    }
  }

  lemma SignalsEndEarly(start: int, end: int, horizon: int, folds: int, fraction: real, w: seq<Window>)
    requires Windows(start, end, horizon, folds, fraction) == Ok(w)
    ensures forall i :: 0 <= i < |w| ==> w[i].testSignalEnd <= end - horizon
  {
    WindowsTile(start, end, horizon, folds, fraction, w);
  }

  /** The walk-forward over `[start, end]` reads no trade from `end - horizon` on. */
  lemma WalkForwardAgrees(score: Scoring, p: map<string, seq<Trade>>, q: map<string, seq<Trade>>, cs: seq<Contender>, start: int,
                          end: int, horizon: int, folds: int, fraction: real, minimum: int)
    requires PoolsAgree(p, q, end - horizon)
    requires forall c :: c in cs ==> c.name in p
    ensures WalkForwardOf(score, p, cs, start, end, horizon, folds, fraction, minimum) ==
            WalkForwardOf(score, q, cs, start, end, horizon, folds, fraction, minimum)
  {
    var windows := Windows(start, end, horizon, folds, fraction);
    if windows.Ok? {
      SignalsEndEarly(start, end, horizon, folds, fraction, windows.value);
      AssessmentsAgree(score, p, q, windows.value, folds, minimum, end - horizon);
    }
  }
}
