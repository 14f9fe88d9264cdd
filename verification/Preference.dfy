/** Which configuration the selectors prefer, said of the published figures, and that nothing better is passed over. */
module Preference {
  import opened Wrappers
  import opened Sequences
  import opened Trades
  import opened Metrics
  import opened Splits
  import opened Selection
  import opened WalkForward
  import Cooldown
  import W = CalibrateWaterfall
  import V2 = CalibrateScoreV2

  /** A packet with the out-of-sample folds it comes from, those of them that were positive, and what the configuration costs. */
  datatype Rated = Rated(packet: Packet, folds: int, positive: int, complexity: int)

  predicate Scorable(r: Rated) { r.packet.Available? && r.folds > 0 && 0 <= r.positive <= r.folds }

  function Share(r: Rated): real
    requires Scorable(r)
  {
    r.positive as real / r.folds as real
  }

  /** An undefined profit factor counts as none. */
  function Factor(r: Rated): real
    requires Scorable(r)
  {
    if r.packet.profitFactor.Some? then r.packet.profitFactor.value else 0.0
  }

  /**
   At the first difference: more positive folds, a greater share of them, a smaller drawdown, a greater profit factor, a
   greater expectancy, a larger sample, a smaller complexity.
   */
  predicate Better(a: Rated, b: Rated)
    requires Scorable(a) && Scorable(b)
  {
    if a.positive != b.positive then a.positive > b.positive
    else if Share(a) != Share(b) then Share(a) > Share(b)
    else if a.packet.maxDrawdownPct != b.packet.maxDrawdownPct then a.packet.maxDrawdownPct < b.packet.maxDrawdownPct
    else if Factor(a) != Factor(b) then Factor(a) > Factor(b)
    else if a.packet.expectancyR != b.packet.expectancyR then a.packet.expectancyR > b.packet.expectancyR
    else if a.packet.sampleSize != b.packet.sampleSize then a.packet.sampleSize > b.packet.sampleSize
    else a.complexity < b.complexity
  }

  function KeyFor(r: Rated): SelectionKey { KeyOf(r.packet, r.folds, r.positive, r.complexity as real) }

  lemma LexStep(x: real, a: seq<real>, y: real, b: seq<real>)
    ensures RealsLe([x] + a, [y] + b) <==> x < y || (x == y && RealsLe(a, b))
  {
    assert ([x] + a)[1..] == a && ([y] + b)[1..] == b;
  }

  /** `k` is the tuple of these seven numbers. */
  ghost predicate IsTuple(k: SelectionKey, n1: real, n2: real, n3: real, n4: real, n5: real, n6: real, n7: real) {
    k == Ranked([n1] + ([n2] + ([n3] + ([n4] + ([n5] + ([n6] + ([n7] + [])))))))
  }

  lemma TuplesCompare(k: SelectionKey, l: SelectionKey, a1: real, a2: real, a3: real, a4: real, a5: real, a6: real, a7: real,
                      b1: real, b2: real, b3: real, b4: real, b5: real, b6: real, b7: real)
    requires IsTuple(k, a1, a2, a3, a4, a5, a6, a7) && IsTuple(l, b1, b2, b3, b4, b5, b6, b7)
    ensures KeyLe(k, l) <==>
            if a1 != b1 then a1 < b1 else if a2 != b2 then a2 < b2 else if a3 != b3 then a3 < b3
            else if a4 != b4 then a4 < b4 else if a5 != b5 then a5 < b5 else if a6 != b6 then a6 < b6 else a7 <= b7
  {
    hide RealsLe;
    LexStep(a7, [], b7, []);
    assert RealsLe([], []) by { NothingToCompare(); }
    LexStep(a6, [a7] + [], b6, [b7] + []);
    LexStep(a5, [a6] + ([a7] + []), b5, [b6] + ([b7] + []));
    LexStep(a4, [a5] + ([a6] + ([a7] + [])), b4, [b5] + ([b6] + ([b7] + [])));
    LexStep(a3, [a4] + ([a5] + ([a6] + ([a7] + []))), b3, [b4] + ([b5] + ([b6] + ([b7] + []))));
    LexStep(a2, [a3] + ([a4] + ([a5] + ([a6] + ([a7] + [])))), b2, [b3] + ([b4] + ([b5] + ([b6] + ([b7] + [])))));
    LexStep(a1, [a2] + ([a3] + ([a4] + ([a5] + ([a6] + ([a7] + []))))), b1, [b2] + ([b3] + ([b4] + ([b5] + ([b6] + ([b7] + []))))));
  }

  lemma NothingToCompare()
    ensures RealsLe([], [])
  {}

  lemma KeyIsTuple(r: Rated)
    requires Scorable(r)
    ensures IsTuple(KeyFor(r), -(r.positive as real), -Share(r), r.packet.maxDrawdownPct, -Factor(r), -r.packet.expectancyR,
                    -(r.packet.sampleSize as real), r.complexity as real)
  {
    hide Share;
    ShareMeans(r);
    assert KeyFor(r).components == [-(r.positive as real)] + ([-Share(r)] + ([r.packet.maxDrawdownPct] + ([-Factor(r)] +
      ([-r.packet.expectancyR] + ([-(r.packet.sampleSize as real)] + ([r.complexity as real] + []))))));
  }

  lemma ShareMeans(r: Rated)
    requires Scorable(r)
    ensures Share(r) == r.positive as real / r.folds as real
  {}

  /** The key of one configuration strictly precedes that of another if and only if it is the better one. */
  lemma KeysPreferTheBetter(a: Rated, b: Rated)
    requires Scorable(a) && Scorable(b)
    ensures KeyLe(KeyFor(a), KeyFor(b)) && KeyFor(a) != KeyFor(b) <==> Better(a, b)
    ensures KeyLe(KeyFor(a), KeyFor(b)) <==> !Better(b, a)
  {
    hide KeyLe, KeyFor, Share, IsTuple;
    KeyIsTuple(a);
    KeyIsTuple(b);
    TuplesCompare(
      KeyFor(a), KeyFor(b),
      -(a.positive as real), -Share(a), a.packet.maxDrawdownPct, -Factor(a), -a.packet.expectancyR, -(a.packet.sampleSize as real),
      a.complexity as real,
      -(b.positive as real), -Share(b), b.packet.maxDrawdownPct, -Factor(b), -b.packet.expectancyR, -(b.packet.sampleSize as real),
      b.complexity as real);
    TuplesCompare(
      KeyFor(b), KeyFor(a),
      -(b.positive as real), -Share(b), b.packet.maxDrawdownPct, -Factor(b), -b.packet.expectancyR, -(b.packet.sampleSize as real),
      b.complexity as real,
      -(a.positive as real), -Share(a), a.packet.maxDrawdownPct, -Factor(a), -a.packet.expectancyR, -(a.packet.sampleSize as real),
      a.complexity as real);
    KeyOrder();
    assert Tie(KeyLe, KeyFor(a), KeyFor(b)) && Comparable(KeyLe, KeyFor(a), KeyFor(b));
  }

  // ---- What a selected configuration has to show -----------------------------------------------

  /** Enough reconciled trades with a positive expectancy and a defined profit factor. */
  predicate Acceptable(p: Packet, minimum: int) {
    p.Available? && p.sampleSize >= minimum && p.expectancyR > 0.0 && p.profitFactor.Some?
  }

  function Validated(p: Packet, complexity: int): Rated { Rated(p, 1, 1, complexity) }

  /** Signals observed in a test window. */
  function Observed(w: Window): Trade -> bool { (t: Trade) => w.testStart <= t.timestamp < w.testSignalEnd }

  /** The trades of the first `n` windows, window by window. */
  function Concatenated(trades: seq<Trade>, w: seq<Window>, n: nat): seq<Trade>
    requires n <= |w|
  {
    if n == 0 then [] else Concatenated(trades, w, n - 1) + Filter(trades, Observed(w[n - 1]))
  }

  predicate Enough(p: Packet, minimum: int) { p.Available? && p.sampleSize >= minimum }

  predicate Positive(p: Packet) { p.Available? && p.expectancyR > 0.0 }

  /**
   Over the windows, every fold has enough reconciled trades, at least two thirds of the folds have a positive
   expectancy, and the trades of all folds together have a defined profit factor.
   */
  ghost predicate Sturdy(score: Scoring, trades: seq<Trade>, w: seq<Window>, minimum: int) {
    var all := score(Concatenated(trades, w, |w|));
    && (forall i :: 0 <= i < |w| ==> Enough(score(Filter(trades, Observed(w[i]))), minimum))
    && 3 * |Profitable(score, trades, w)| >= 2 * |w|
    && all.Available? && all.profitFactor.Some?
  }

  function Profitable(score: Scoring, trades: seq<Trade>, w: seq<Window>): set<int> {
    set i | 0 <= i < |w| && Positive(score(Filter(trades, Observed(w[i]))))
  }

  /** The rating of a sturdy configuration. */
  function Walked(score: Scoring, trades: seq<Trade>, w: seq<Window>, complexity: int): Rated {
    Rated(score(Concatenated(trades, w, |w|)), |w|, |Profitable(score, trades, w)|, complexity)
  }

  lemma ObservedMeans(trades: seq<Trade>, w: Window)
    ensures Filter(trades, InWindow(w)) == Filter(trades, Observed(w))
  {
    FilterCongruent(trades, InWindow(w), Observed(w));
  }

  lemma {:induction false} AllSufficient(score: Scoring, trades: seq<Trade>, w: seq<Window>, minimum: int, n: nat)
    requires n <= |w| && forall i :: 0 <= i < |w| ==> Sufficient(FoldPacket(score, trades, w[i]), minimum)
    ensures OutOfSample(score, trades, w, minimum, n) == Concatenated(trades, w, n)
  {
    if n > 0 {
      AllSufficient(score, trades, w, minimum, n - 1);
      ObservedMeans(trades, w[n - 1]);
    }
  }

  lemma PositiveMeans(p: Packet, minimum: int)
    requires Sufficient(p, minimum)
    ensures WalkForward.Positive(p, minimum) <==> Positive(p)
  {}

  /** The positions of the profitable ones. */
  function Positives(packets: seq<Packet>): set<int> { set i | 0 <= i < |packets| && Positive(packets[i]) }

  lemma OneMorePacket(packets: seq<Packet>, p: Packet)
    ensures |Positives(packets + [p])| == |Positives(packets)| + if Positive(p) then 1 else 0
  {
    hide Positive;
    assert Positives(packets + [p]) == Positives(packets) + if Positive(p) then {|packets|} else {};
  }

  lemma {:induction false} PositivesAreCounted(packets: seq<Packet>, minimum: int)
    requires forall p :: p in packets ==> Sufficient(p, minimum)
    ensures PositiveCount(packets, minimum) == |Positives(packets)|
  {
    hide Positive, Sufficient, WalkForward.Positive;
    if |packets| == 0 {
      assert Positives(packets) == {};
    } else {
      var n := |packets| - 1;
      PositivesAreCounted(packets[..n], minimum);
      assert packets[n] in packets && packets[..n] + [packets[n]] == packets;
      PositiveMeans(packets[n], minimum);
      OneMorePacket(packets[..n], packets[n]);
    }
  }

  lemma FoldsMean(score: Scoring, trades: seq<Trade>, w: seq<Window>)
    ensures forall i :: 0 <= i < |w| ==> FoldPackets(score, trades, w)[i] == score(Filter(trades, Observed(w[i])))
  {
    forall i | 0 <= i < |w| ensures FoldPackets(score, trades, w)[i] == score(Filter(trades, Observed(w[i]))) {
      ObservedMeans(trades, w[i]);
    }
  }

  /** The assessment is valid exactly for sturdy configurations, and then rates them by all their folds. */
  lemma AssessmentMeans(score: Scoring, trades: seq<Trade>, w: seq<Window>, minimum: int)
    ensures var a := Assess(score, trades, w, |w|, minimum);
            && (a.valid <==> Sturdy(score, trades, w, minimum))
            && (a.valid ==> a.folds == |w| && a.positiveFolds == |Profitable(score, trades, w)|
                            && a.performance == score(Concatenated(trades, w, |w|)))
  {
    hide KeyOf, Positive, Filter;
    var packets := FoldPackets(score, trades, w);
    FoldsMean(score, trades, w);
    CountsBound(packets, minimum);
    if forall i :: 0 <= i < |w| ==> Sufficient(packets[i], minimum) {
      EveryFoldCounts(score, trades, w, minimum);
    } else {
      var i :| 0 <= i < |w| && !Sufficient(packets[i], minimum);
      assert packets[i] in packets && !Enough(score(Filter(trades, Observed(w[i]))), minimum);
    }
  }

  // ---- What is selected ---------------------------------------------------------------------------

  /** The better one comes first; of two equally good ones, the one whose name does. */
  predicate First(a: Rated, x: string, b: Rated, y: string)
    requires Scorable(a) && Scorable(b)
  {
    Better(a, b) || (!Better(b, a) && StringLe(x, y))
  }

  lemma EntriesInOrder(a: Rated, b: Rated, x: Entry, y: Entry)
    requires Scorable(a) && Scorable(b) && x.key == KeyFor(a) && y.key == KeyFor(b) && EntryOrder(x, y)
    ensures First(a, x.name, b, y.name)
  {
    hide KeyFor, Better;
    KeysPreferTheBetter(a, b);
    KeysPreferTheBetter(b, a);
    KeyOrder();
    StringOrder();
    assert Comparable(KeyLe, x.key, y.key) && Comparable(StringLe, x.name, x.name);
  }

  lemma WalkedIsScorable(score: Scoring, trades: seq<Trade>, w: seq<Window>, minimum: int, complexity: int)
    requires Sturdy(score, trades, w, minimum) && |w| > 0
    ensures Scorable(Walked(score, trades, w, complexity))
  {
    hide Sturdy, Filter;
    AssessmentMeans(score, trades, w, minimum);
    CountsBound(FoldPackets(score, trades, w), minimum);
  }

  /** The contender is sturdy, and comes first among the sturdy ones. */
  ghost predicate BestWalked(score: Scoring, pools: map<string, seq<Trade>>, cs: seq<Contender>, w: seq<Window>, minimum: int,
                             c: Contender)
    requires (forall d :: d in cs ==> d.name in pools) && |w| > 0
  {
    && c in cs && Sturdy(score, pools[c.name], w, minimum)
    && forall d :: d in cs && Sturdy(score, pools[d.name], w, minimum) ==>
         && Scorable(Walked(score, pools[c.name], w, c.complexity)) && Scorable(Walked(score, pools[d.name], w, d.complexity))
         && First(Walked(score, pools[c.name], w, c.complexity), c.name, Walked(score, pools[d.name], w, d.complexity), d.name)
  }

  /** Every contender's figures are published under its name: per fold, the counts, and over all folds. */
  ghost predicate Published(score: Scoring, pools: map<string, seq<Trade>>, cs: seq<Contender>, w: seq<Window>, minimum: int,
                            published: map<string, Assessment>)
    requires forall d :: d in cs ==> d.name in pools
  {
    && (forall name :: name in published <==> exists d :: d in cs && d.name == name)
    && forall d :: d in cs ==> Figures(score, pools[d.name], w, minimum, published[d.name])
  }

  ghost predicate Figures(score: Scoring, trades: seq<Trade>, w: seq<Window>, minimum: int, a: Assessment) {
    && a.folds == |w| && |a.foldPackets| == |w| && (a.valid <==> Sturdy(score, trades, w, minimum))
    && (forall i :: 0 <= i < |w| ==> a.foldPackets[i] == score(Filter(trades, Observed(w[i]))))
    && a.sufficientFolds <= |w| && (a.sufficientFolds == |w| <==> forall i :: 0 <= i < |w| ==> Enough(a.foldPackets[i], minimum))
    && a.positiveFolds <= a.sufficientFolds
    && (a.sufficientFolds == |w| ==>
          a.positiveFolds == |Profitable(score, trades, w)| && a.performance == score(Concatenated(trades, w, |w|)))
    && 2 * |w| <= 3 * a.requiredPositive < 2 * |w| + 3
  }

  lemma AssessmentFigures(score: Scoring, trades: seq<Trade>, w: seq<Window>, minimum: int)
    ensures Figures(score, trades, w, minimum, Assess(score, trades, w, |w|, minimum))
  {
    hide Positive, Filter, Sturdy, Profitable, Concatenated;
    var packets := FoldPackets(score, trades, w);
    AssessmentMeans(score, trades, w, minimum);
    FoldsMean(score, trades, w);
    CountsBound(packets, minimum);
    EveryFoldEnough(packets, minimum);
    if forall i :: 0 <= i < |w| ==> Enough(packets[i], minimum) { EveryFoldCounts(score, trades, w, minimum); }
  }

  lemma EveryFoldEnough(packets: seq<Packet>, minimum: int)
    ensures (forall i :: 0 <= i < |packets| ==> Enough(packets[i], minimum)) <==>
            forall p :: p in packets ==> Sufficient(p, minimum)
  {
    assert forall i :: 0 <= i < |packets| ==> packets[i] in packets;
  }

  /** When every fold has enough trades, the profitable ones are counted and all trades are scored together. */
  lemma EveryFoldCounts(score: Scoring, trades: seq<Trade>, w: seq<Window>, minimum: int)
    requires forall i :: 0 <= i < |w| ==> Enough(FoldPackets(score, trades, w)[i], minimum)
    ensures PositiveCount(FoldPackets(score, trades, w), minimum) == |Profitable(score, trades, w)|
    ensures OutOfSample(score, trades, w, minimum, |w|) == Concatenated(trades, w, |w|)
  {
    hide Positive, Filter, Concatenated;
    var packets := FoldPackets(score, trades, w);
    FoldsMean(score, trades, w);
    assert forall i :: 0 <= i < |w| ==> Sufficient(FoldPacket(score, trades, w[i]), minimum);
    AllSufficient(score, trades, w, minimum, |w|);
    EveryFoldEnough(packets, minimum);
    PositivesAreCounted(packets, minimum);
    assert (set i | 0 <= i < |packets| && Positive(packets[i])) == Profitable(score, trades, w);
  }

  lemma {:induction false} NamedMeans(score: Scoring, pools: map<string, seq<Trade>>, cs: seq<Contender>, w: seq<Window>,
                                      minimum: int)
    requires forall c :: c in cs ==> c.name in pools
    ensures Published(score, pools, cs, w, minimum, Named(Assessments(score, pools, w, |w|, minimum), cs))
  {
    hide Figures, Assess;
    if |cs| > 0 {
      var init, last := cs[..|cs| - 1], cs[|cs| - 1];
      assert cs == init + [last];
      NamedMeans(score, pools, init, w, minimum);
      AssessmentFigures(score, pools[last.name], w, minimum);
    }
  }

  /** The name is that of the contender that comes first among the sturdy ones, and there is none when there are none. */
  ghost predicate Outlasts(score: Scoring, pools: map<string, seq<Trade>>, cs: seq<Contender>, w: seq<Window>, minimum: int,
                           selected: Option<string>)
    requires (forall d :: d in cs ==> d.name in pools) && |w| > 0
  {
    match selected
    case None => forall c :: c in cs ==> !Sturdy(score, pools[c.name], w, minimum)
    case Some(name) => exists c :: BestWalked(score, pools, cs, w, minimum, c) && c.name == name
  }

  /** The walk-forward selects the contender that comes first among the sturdy ones, if there is any. */
  lemma WalkSelectsTheBest(score: Scoring, pools: map<string, seq<Trade>>, cs: seq<Contender>, start: int, end: int, horizon: int,
                           folds: int, fraction: real, minimum: int, walk: Outcome, w: seq<Window>)
    requires forall c :: c in cs ==> c.name in pools
    requires WalkForwardOf(score, pools, cs, start, end, horizon, folds, fraction, minimum) == Ok(walk)
    requires Windows(start, end, horizon, folds, fraction) == Ok(w)
    ensures |w| == folds >= 2
    ensures Outlasts(score, pools, cs, w, minimum, walk.selected)
    ensures Published(score, pools, cs, w, minimum, walk.configurations)
  {
    hide KeyOf, Sturdy, First, Walked, WindowAt, EntryOrder, Figures, Published, Assess;
    WindowsTile(start, end, horizon, folds, fraction, w);
    var assessments := Assessments(score, pools, w, folds, minimum);
    var eligible := Eligible(assessments, cs);
    W.EligibleMeaning(assessments, cs);
    BestIsLeast(eligible);
    NamedMeans(score, pools, cs, w, minimum);
    forall c | c in cs ensures assessments[c.name].valid <==> Sturdy(score, pools[c.name], w, minimum) {
      AssessmentMeans(score, pools[c.name], w, minimum);
    }
    if |eligible| > 0 {
      var best := Best(eligible).value;
      var c :| c in cs && assessments[c.name].valid && best == W.EntryFor(c, assessments[c.name]);
      forall d | d in cs && Sturdy(score, pools[d.name], w, minimum)
        ensures Scorable(Walked(score, pools[c.name], w, c.complexity)) && Scorable(Walked(score, pools[d.name], w, d.complexity))
        ensures First(Walked(score, pools[c.name], w, c.complexity), c.name, Walked(score, pools[d.name], w, d.complexity), d.name)
      {
        WalkedIsScorable(score, pools[c.name], w, minimum, c.complexity);
        WalkedIsScorable(score, pools[d.name], w, minimum, d.complexity);
        EntryIsWalked(score, pools[c.name], w, minimum, c);
        EntryIsWalked(score, pools[d.name], w, minimum, d);
        EntriesInOrder(Walked(score, pools[c.name], w, c.complexity), Walked(score, pools[d.name], w, d.complexity),
                       best, W.EntryFor(d, assessments[d.name]));
      }
      assert BestWalked(score, pools, cs, w, minimum, c);
    }
  }

  lemma EntryIsWalked(score: Scoring, trades: seq<Trade>, w: seq<Window>, minimum: int, c: Contender)
    requires Sturdy(score, trades, w, minimum)
    ensures var e := W.EntryFor(c, Assess(score, trades, w, |w|, minimum));
            e.key == KeyFor(Walked(score, trades, w, c.complexity)) && e.name == c.name
  {
    hide KeyOf;
    AssessmentMeans(score, trades, w, minimum);
  }

  /** The performance on the signals of the second to fifth sixth of the window, less the horizon, in the order of time. */
  function ValidatedOn(score: Scoring, trades: seq<Trade>, start: int, end: int, horizon: int): Packet {
    score(Filter(StableSort(trades, (a: Trade, b: Trade) => a.timestamp <= b.timestamp),
                 (t: Trade) => start + (end - start) / 2 <= t.timestamp < start + (end - start) * 5 / 6 - horizon))
  }

  lemma ValidationMeans(score: Scoring, trades: seq<Trade>, start: int, end: int, horizon: int)
    requires start < end && horizon >= 0
    ensures ValidationPacket(score, trades, start, end, horizon) == ValidatedOn(score, trades, start, end, horizon)
  {
    SortCongruent(trades, TimeOrder, (a: Trade, b: Trade) => a.timestamp <= b.timestamp);
    FilterCongruent(StableSort(trades, TimeOrder), Within(TrainBoundary(start, end), DevelopmentEnd(start, end) - horizon),
                    (t: Trade) => start + (end - start) / 2 <= t.timestamp < start + (end - start) * 5 / 6 - horizon);
  }

  lemma {:induction false} SortCongruent(s: seq<Trade>, le: (Trade, Trade) -> bool, other: (Trade, Trade) -> bool)
    requires forall a, b :: le(a, b) == other(a, b)
    ensures StableSort(s, le) == StableSort(s, other)
  {
    if |s| > 0 {
      SortCongruent(s[..|s| - 1], le, other);
      InsertCongruent(StableSort(s[..|s| - 1], le), s[|s| - 1], le, other);
    }
  }

  lemma {:induction false} InsertCongruent(s: seq<Trade>, x: Trade, le: (Trade, Trade) -> bool, other: (Trade, Trade) -> bool)
    requires forall a, b :: le(a, b) == other(a, b)
    ensures Insert(s, x, le) == Insert(s, x, other)
  {
    if |s| > 0 && !le(s[|s| - 1], x) { InsertCongruent(s[..|s| - 1], x, le, other); }
  }

  // ---- The trigger calibration ----------------------------------------------------------------------

  /** The configuration is acceptable in validation, and comes first among the acceptable ones. */
  ghost predicate BestValidated(score: Scoring, pools: map<string, seq<Trade>>, cs: seq<W.Configuration>, start: int, end: int,
                                horizon: int, minimum: int, c: W.Configuration)
    requires forall d :: d in cs ==> d.name in pools
  {
    && c in cs && Acceptable(ValidatedOn(score, pools[c.name], start, end, horizon), minimum)
    && forall d :: d in cs && Acceptable(ValidatedOn(score, pools[d.name], start, end, horizon), minimum) ==>
         First(Validated(ValidatedOn(score, pools[c.name], start, end, horizon), c.complexity), c.name,
               Validated(ValidatedOn(score, pools[d.name], start, end, horizon), d.complexity), d.name)
  }

  /** The name is that of the configuration that comes first among the acceptable ones, and there is none when there are none. */
  ghost predicate Validates(score: Scoring, pools: map<string, seq<Trade>>, cs: seq<W.Configuration>, start: int, end: int,
                            horizon: int, minimum: int, selected: Option<string>)
    requires forall d :: d in cs ==> d.name in pools
  {
    match selected
    case None => forall c :: c in cs ==> !Acceptable(ValidatedOn(score, pools[c.name], start, end, horizon), minimum)
    case Some(name) => exists c :: BestValidated(score, pools, cs, start, end, horizon, minimum, c) && c.name == name
  }

  /** Whatever was refused under a name. */
  function Reason(rejected: map<string, string>, name: string): Option<string> {
    if name in rejected then Some(rejected[name]) else None
  }

  function WhyNot(p: Packet, minimum: int): Option<string> {
    if Acceptable(p, minimum) then None
    else if p.Available? && p.sampleSize >= minimum then Some("validation net performance is not positive and defined")
    else Some("insufficient complete validation sample")
  }

  ghost predicate HasItsOwnName(cs: seq<W.Configuration>, i: int) {
    0 <= i < |cs| && forall j :: 0 <= j < |cs| && j != i ==> cs[j].name != cs[i].name
  }

  /** A configuration whose name is its own is rejected exactly when it is not acceptable, and told why. */
  lemma {:induction false} RejectionsMean(packets: map<string, Packet>, cs: seq<W.Configuration>, minimum: int, i: int)
    requires (forall c :: c in cs ==> c.name in packets) && HasItsOwnName(cs, i)
    ensures Reason(W.Rejections(packets, cs, minimum), cs[i].name) == WhyNot(packets[cs[i].name], minimum)
  {
    hide W.Refusal, WhyNot;
    var init := cs[..|cs| - 1];
    if i < |init| {
      RejectionsMean(packets, init, minimum, i);
    } else {
      NeverNamed(packets, init, minimum, cs[i].name);
      ReasonSays(packets[cs[i].name], minimum);
    }
  }

  lemma ReasonSays(p: Packet, minimum: int)
    ensures W.Refusal(p, minimum) == WhyNot(p, minimum)
  {}

  lemma {:induction false} NeverNamed(packets: map<string, Packet>, cs: seq<W.Configuration>, minimum: int, name: string)
    requires (forall c :: c in cs ==> c.name in packets) && forall j :: 0 <= j < |cs| ==> cs[j].name != name
    ensures name !in W.Rejections(packets, cs, minimum)
  {
    if |cs| > 0 { NeverNamed(packets, cs[..|cs| - 1], minimum, name); }
  }

  lemma RefusalMeans(p: Packet, minimum: int)
    ensures W.Refusal(p, minimum).None? <==> Acceptable(p, minimum)
  {}

  lemma ValidationSelectsTheBest(score: Scoring, pools: map<string, seq<Trade>>, cs: seq<W.Configuration>, start: int, end: int,
                                 horizon: int, minimum: int, inner: W.Inner)
    requires forall c :: c in cs ==> c.name in pools
    requires W.SelectInner(score, pools, cs, start, end, horizon, minimum) == Ok(inner)
    ensures Validates(score, pools, cs, start, end, horizon, minimum, inner.selected)
    ensures forall i :: 0 <= i < |cs| && HasItsOwnName(cs, i) ==>
              Reason(inner.rejected, cs[i].name) == WhyNot(ValidatedOn(score, pools[cs[i].name], start, end, horizon), minimum)
  {
    hide KeyOf, First, ValidatedOn, ValidationPacket, Acceptable, EntryOrder, W.Refusal;
    var packets := ValidationPackets(score, pools, start, end, horizon);
    var ranked := W.Ranking(packets, cs, minimum);
    W.RankingMeaning(packets, cs, minimum);
    BestIsLeast(ranked);
    forall i | 0 <= i < |cs| && HasItsOwnName(cs, i)
      ensures Reason(inner.rejected, cs[i].name) == WhyNot(ValidatedOn(score, pools[cs[i].name], start, end, horizon), minimum)
    {
      RejectionsMean(packets, cs, minimum, i);
      ValidationMeans(score, pools[cs[i].name], start, end, horizon);
    }
    forall c | c in cs
      ensures packets[c.name] == ValidatedOn(score, pools[c.name], start, end, horizon)
      ensures W.Refusal(packets[c.name], minimum).None? <==> Acceptable(packets[c.name], minimum)
    {
      ValidationMeans(score, pools[c.name], start, end, horizon);
      RefusalMeans(packets[c.name], minimum);
    }
    if |ranked| > 0 {
      var best := Best(ranked).value;
      var c :| c in cs && W.Refusal(packets[c.name], minimum).None?
               && best == Entry(KeyOf(packets[c.name], 1, 1, c.complexity as real), c.name, 0.0);
      forall d | d in cs && Acceptable(packets[d.name], minimum)
        ensures Scorable(Validated(packets[c.name], c.complexity)) && Scorable(Validated(packets[d.name], d.complexity))
        ensures First(Validated(packets[c.name], c.complexity), c.name, Validated(packets[d.name], d.complexity), d.name)
      {
        AcceptableIsScorable(packets[c.name], minimum, c.complexity);
        AcceptableIsScorable(packets[d.name], minimum, d.complexity);
        EntriesInOrder(Validated(packets[c.name], c.complexity), Validated(packets[d.name], d.complexity),
                       best, Entry(KeyOf(packets[d.name], 1, 1, d.complexity as real), d.name, 0.0));
      }
      assert BestValidated(score, pools, cs, start, end, horizon, minimum, c);
    }
  }

  lemma AcceptableIsScorable(p: Packet, minimum: int, complexity: int)
    requires Acceptable(p, minimum)
    ensures Scorable(Validated(p, complexity))
  {}

  /** What a calibration is made of: the two selections, their agreement, and the holdout scored for the name they agree on. */
  lemma CalibrationParts(score: Scoring, pools: map<string, seq<Trade>>, cs: seq<W.Configuration>, start: int, end: int,
                         horizon: int, minimumValidation: int, minimumFold: int, r: W.Calibration)
    requires forall c :: c in cs ==> c.name in pools
    requires W.CalibrateWith(score, pools, cs, start, end, horizon, minimumValidation, minimumFold) == Ok(r)
    ensures W.SelectInner(score, pools, cs, start, end, horizon, minimumValidation) == Ok(r.inner)
    ensures WalkForwardOf(score, pools, W.Contenders(cs), start, end, horizon, 3, 0.5, minimumFold) == Ok(r.walk)
    ensures r.selected == if r.inner.selected == r.walk.selected then r.inner.selected else None
    ensures r.holdout == if r.selected.Some? && r.selected.value in pools
                         then Some(score(Filter(pools[r.selected.value], (t: Trade) => t.timestamp >= end))) else None
  {
    hide W.SelectInner, WalkForwardOf, Filter;
    if r.selected.Some? && r.selected.value in pools {
      FilterCongruent(pools[r.selected.value], From(end), (t: Trade) => t.timestamp >= end);
    }
  }

  /** The walk-forward is run over the configurations, by name and complexity. */
  lemma ContendersMatch(cs: seq<W.Configuration>)
    ensures forall c :: c in cs ==> Contender(c.name, c.complexity) in W.Contenders(cs)
    ensures forall d :: d in W.Contenders(cs) ==> exists c :: c in cs && d == Contender(c.name, c.complexity)
  {
    forall c | c in cs ensures Contender(c.name, c.complexity) in W.Contenders(cs) {
      var i :| 0 <= i < |cs| && cs[i] == c;
      assert W.Contenders(cs)[i] in W.Contenders(cs);
    }
    forall d | d in W.Contenders(cs) ensures exists c :: c in cs && d == Contender(c.name, c.complexity) {
      var i :| 0 <= i < |cs| && W.Contenders(cs)[i] == d;
      assert cs[i] in cs;
    }
  }

  /**
   A calibration selects a name exactly when both selectors put it first: no acceptable configuration is better in
   validation, no sturdy one in the walk-forward.
   */
  lemma CalibrationSelectsTheBest(score: Scoring, pools: map<string, seq<Trade>>, cs: seq<W.Configuration>, start: int, end: int,
                                  horizon: int, minimumValidation: int, minimumFold: int, r: W.Calibration, w: seq<Window>)
    requires forall c :: c in cs ==> c.name in pools
    requires W.CalibrateWith(score, pools, cs, start, end, horizon, minimumValidation, minimumFold) == Ok(r)
    requires Windows(start, end, horizon, 3, 0.5) == Ok(w)
    ensures |w| == 3 && (forall d :: d in W.Contenders(cs) ==> d.name in pools)
    ensures Validates(score, pools, cs, start, end, horizon, minimumValidation, r.inner.selected)
    ensures Outlasts(score, pools, W.Contenders(cs), w, minimumFold, r.walk.selected)
    ensures Published(score, pools, W.Contenders(cs), w, minimumFold, r.walk.configurations)
    ensures r.selected == if r.inner.selected == r.walk.selected then r.inner.selected else None
  {
    hide Validates, Outlasts, W.SelectInner, WalkForwardOf, WindowAt, W.CalibrateWith, W.Contenders;
    CalibrationParts(score, pools, cs, start, end, horizon, minimumValidation, minimumFold, r);
    ValidationSelectsTheBest(score, pools, cs, start, end, horizon, minimumValidation, r.inner);
    ContendersMatch(cs);
    WalkSelectsTheBest(score, pools, W.Contenders(cs), start, end, horizon, 3, 0.5, minimumFold, r.walk, w);
  }

  // ---- The Score V2 calibration ------------------------------------------------------------------------

  /** Approved weights and a threshold among the available points. */
  predicate Offered(c: V2.Configuration) { c.approvedWeights && c.threshold.Some? && 0.0 <= c.threshold.value <= 75.0 }

  /** The configuration is offered and acceptable in validation. */
  predicate Stands(score: Scoring, trades: seq<Trade>, start: int, end: int, horizon: int, minimum: int, c: V2.Configuration) {
    Offered(c) && Acceptable(ValidatedOn(score, trades, start, end, horizon), minimum)
  }

  ghost predicate BestStanding(score: Scoring, pools: map<string, seq<Trade>>, cs: seq<V2.Configuration>, start: int, end: int,
                               horizon: int, minimum: int, c: V2.Configuration)
    requires forall d :: d in cs ==> d.name in pools
  {
    && c in cs && Stands(score, pools[c.name], start, end, horizon, minimum, c)
    && forall d :: d in cs && Stands(score, pools[d.name], start, end, horizon, minimum, d) ==>
         First(Validated(ValidatedOn(score, pools[c.name], start, end, horizon), c.complexity), c.name,
               Validated(ValidatedOn(score, pools[d.name], start, end, horizon), d.complexity), d.name)
  }

  /** Name and threshold are those of the configuration that comes first among the standing ones, if there are any. */
  ghost predicate Chooses(score: Scoring, pools: map<string, seq<Trade>>, cs: seq<V2.Configuration>, start: int, end: int,
                          horizon: int, minimum: int, inner: V2.Inner)
    requires forall d :: d in cs ==> d.name in pools
  {
    match inner.selected
    case None => forall c :: c in cs ==> !Stands(score, pools[c.name], start, end, horizon, minimum, c)
    case Some(name) =>
      exists c ::
        BestStanding(score, pools, cs, start, end, horizon, minimum, c) && c.name == name && c.threshold == inner.threshold
  }

  function WhyNotScored(c: V2.Configuration, p: Packet, minimum: int): Option<string> {
    if !Offered(c) then Some("weights must sum to 100 and match approved component maxima")
    else if Acceptable(p, minimum) then None
    else if !p.Available? then Some("validation costs are incomplete or unreconciled")
    else if p.sampleSize < minimum then Some("insufficient validation trades")
    else if p.expectancyR <= 0.0 then Some("validation net expectancy is not positive")
    else Some("validation profit factor is undefined without observed losses")
  }

  ghost predicate StandsAlone(cs: seq<V2.Configuration>, i: int) {
    0 <= i < |cs| && forall j :: 0 <= j < |cs| && j != i ==> cs[j].name != cs[i].name
  }

  lemma {:induction false} ThresholdRejectionsMean(score: Scoring, packets: map<string, Packet>, cs: seq<V2.Configuration>,
                                                   minimum: int, i: int)
    requires StandsAlone(cs, i) && cs[i].name in packets
    ensures Reason(V2.Rejections(score, packets, cs, minimum), cs[i].name) == WhyNotScored(cs[i], packets[cs[i].name], minimum)
  {
    hide V2.Refusal, WhyNotScored, Offered, Acceptable;
    var init := cs[..|cs| - 1];
    if i < |init| {
      ThresholdRejectionsMean(score, packets, init, minimum, i);
    } else {
      NeverScored(score, packets, init, minimum, cs[i].name);
      RefusalSays(cs[i], packets[cs[i].name], minimum);
    }
  }

  lemma RefusalSays(c: V2.Configuration, p: Packet, minimum: int)
    ensures V2.Refusal(c, p, minimum) == WhyNotScored(c, p, minimum)
  {}

  lemma {:induction false} NeverScored(score: Scoring, packets: map<string, Packet>, cs: seq<V2.Configuration>, minimum: int,
                                       name: string)
    requires forall j :: 0 <= j < |cs| ==> cs[j].name != name
    ensures name !in V2.Rejections(score, packets, cs, minimum)
  {
    if |cs| > 0 { NeverScored(score, packets, cs[..|cs| - 1], minimum, name); }
  }

  lemma ThresholdRefusalMeans(c: V2.Configuration, p: Packet, minimum: int)
    ensures V2.Refusal(c, p, minimum).None? <==> Offered(c) && Acceptable(p, minimum)
    ensures Offered(c) ==> V2.ThresholdOf(c) == c.threshold
  {}

  /** The validation selector takes the configuration that comes first among the standing ones, with its threshold. */
  lemma ThresholdSelectsTheBest(score: Scoring, pools: map<string, seq<Trade>>, cs: seq<V2.Configuration>, start: int, end: int,
                                horizon: int, minimum: int, inner: V2.Inner)
    requires (forall c :: c in cs ==> c.name in pools) && (|cs| > 0 ==> start < end && horizon >= 0)
    requires V2.SelectInner(score, ValidationPackets(score, pools, start, end, horizon), cs, minimum) == inner
    ensures Chooses(score, pools, cs, start, end, horizon, minimum, inner)
    ensures forall i :: 0 <= i < |cs| && StandsAlone(cs, i) ==>
              Reason(inner.rejected, cs[i].name) ==
              WhyNotScored(cs[i], ValidatedOn(score, pools[cs[i].name], start, end, horizon), minimum)
  {
    hide KeyOf, First, ValidatedOn, ValidationPacket, Acceptable, EntryOrder, V2.Refusal, Offered;
    var packets := ValidationPackets(score, pools, start, end, horizon);
    var ranked := V2.Ranking(score, packets, cs, minimum);
    V2.RankingMeaning(score, packets, cs, minimum);
    BestIsLeast(ranked);
    forall i | 0 <= i < |cs| && StandsAlone(cs, i)
      ensures Reason(inner.rejected, cs[i].name) ==
              WhyNotScored(cs[i], ValidatedOn(score, pools[cs[i].name], start, end, horizon), minimum)
    {
      ThresholdRejectionsMean(score, packets, cs, minimum, i);
      ValidationMeans(score, pools[cs[i].name], start, end, horizon);
    }
    forall c | c in cs
      ensures packets[c.name] == ValidatedOn(score, pools[c.name], start, end, horizon)
      ensures V2.Acceptable(score, packets, c, minimum) <==> Stands(score, pools[c.name], start, end, horizon, minimum, c)
    {
      ValidationMeans(score, pools[c.name], start, end, horizon);
      ThresholdRefusalMeans(c, packets[c.name], minimum);
    }
    if |ranked| > 0 {
      var best := Best(ranked).value;
      var c :| c in cs && V2.Acceptable(score, packets, c, minimum) && best == V2.EntryOf(c, V2.PacketOf(score, packets, c.name));
      ThresholdRefusalMeans(c, packets[c.name], minimum);
      forall d | d in cs && Stands(score, pools[d.name], start, end, horizon, minimum, d)
        ensures Scorable(Validated(packets[c.name], c.complexity)) && Scorable(Validated(packets[d.name], d.complexity))
        ensures First(Validated(packets[c.name], c.complexity), c.name, Validated(packets[d.name], d.complexity), d.name)
      {
        AcceptableIsScorable(packets[c.name], minimum, c.complexity);
        AcceptableIsScorable(packets[d.name], minimum, d.complexity);
        EntriesInOrder(Validated(packets[c.name], c.complexity), Validated(packets[d.name], d.complexity),
                       best, V2.EntryOf(d, packets[d.name]));
      }
      assert BestStanding(score, pools, cs, start, end, horizon, minimum, c);
      BestThreshold(best, c, packets[c.name]);
    }
  }

  lemma BestThreshold(best: Entry, c: V2.Configuration, p: Packet)
    requires Offered(c) && best == V2.EntryOf(c, p)
    ensures c.threshold == Some(best.threshold) && best.name == c.name
  {
    hide KeyOf;
  }

  /** The parts of a Score V2 calibration; it only ends well when every configuration has a pool. */
  lemma ThresholdParts(score: Scoring, pools: map<string, seq<Trade>>, cs: seq<V2.Configuration>, start: int, end: int,
                       horizon: int, minimumValidation: int, folds: int, minimumFold: int, r: V2.Calibration)
    requires V2.CalibrateWith(score, pools, cs, start, end, horizon, minimumValidation, folds, minimumFold) == Ok(r)
    ensures (forall c :: c in cs ==> c.name in pools) && (|cs| > 0 ==> start < end && horizon >= 0)
    ensures V2.SelectInner(score, ValidationPackets(score, pools, start, end, horizon), cs, minimumValidation) == r.inner
    ensures WalkForwardOf(score, V2.Complete(pools, cs), V2.Contenders(cs), start, start + (end - start) * 5 / 6, horizon,
                          folds, 0.5, minimumFold) == Ok(r.walk)
    ensures V2.Complete(pools, cs) == pools
    ensures r.selected == if r.inner.selected == r.walk.selected then r.inner.selected else None
  {
    hide V2.SelectInner, WalkForwardOf, ValidationPackets, V2.HoldoutPacket;
    if |cs| > 0 { assert cs[0] in cs && cs[0].name in pools; }
  }

  /** The published holdout: the selected configuration on the last sixth, in the order of time. */
  lemma ThresholdHoldout(score: Scoring, pools: map<string, seq<Trade>>, cs: seq<V2.Configuration>, start: int, end: int,
                         horizon: int, minimumValidation: int, folds: int, minimumFold: int, r: V2.Calibration)
    requires V2.CalibrateWith(score, pools, cs, start, end, horizon, minimumValidation, folds, minimumFold) == Ok(r)
    ensures r.holdout == if r.selected.Some? && r.selected.value in pools
                         then Some(score(Filter(StableSort(pools[r.selected.value], TimeOrder),
                                                (t: Trade) => t.timestamp >= start + (end - start) * 5 / 6))) else None
  {
    hide V2.SelectInner, WalkForwardOf, ValidationPackets, Filter, StableSort, V2.Complete;
    if r.selected.Some? && r.selected.value in pools {
      FilterCongruent(StableSort(pools[r.selected.value], TimeOrder), From(DevelopmentEnd(start, end)),
                      (t: Trade) => t.timestamp >= start + (end - start) * 5 / 6);
    }
  }

  lemma ThresholdContenders(cs: seq<V2.Configuration>)
    ensures forall c :: c in cs ==> Contender(c.name, c.complexity) in V2.Contenders(cs)
    ensures forall d :: d in V2.Contenders(cs) ==> exists c :: c in cs && d == Contender(c.name, c.complexity)
  {
    forall c | c in cs ensures Contender(c.name, c.complexity) in V2.Contenders(cs) {
      var i :| 0 <= i < |cs| && cs[i] == c;
      assert V2.Contenders(cs)[i] in V2.Contenders(cs);
    }
    forall d | d in V2.Contenders(cs) ensures exists c :: c in cs && d == Contender(c.name, c.complexity) {
      var i :| 0 <= i < |cs| && V2.Contenders(cs)[i] == d;
      assert cs[i] in cs;
    }
  }

  /** The Score V2 calibration selects a name exactly when both selectors put it first, for any number of folds. */
  lemma ThresholdCalibrationSelectsTheBest(score: Scoring, pools: map<string, seq<Trade>>, cs: seq<V2.Configuration>, start: int,
                                           end: int, horizon: int, minimumValidation: int, folds: int, minimumFold: int,
                                           r: V2.Calibration, w: seq<Window>)
    requires V2.CalibrateWith(score, pools, cs, start, end, horizon, minimumValidation, folds, minimumFold) == Ok(r)
    requires Windows(start, start + (end - start) * 5 / 6, horizon, folds, 0.5) == Ok(w)
    ensures |w| == folds >= 2 && forall c :: c in cs ==> c.name in pools
    ensures forall d :: d in V2.Contenders(cs) ==> d.name in pools
    ensures Chooses(score, pools, cs, start, end, horizon, minimumValidation, r.inner)
    ensures Outlasts(score, pools, V2.Contenders(cs), w, minimumFold, r.walk.selected)
    ensures Published(score, pools, V2.Contenders(cs), w, minimumFold, r.walk.configurations)
    ensures r.selected == if r.inner.selected == r.walk.selected then r.inner.selected else None
  {
    hide Chooses, Outlasts, V2.SelectInner, WalkForwardOf, WindowAt, V2.CalibrateWith, V2.Complete, ValidationPackets,
         V2.Contenders;
    ThresholdParts(score, pools, cs, start, end, horizon, minimumValidation, folds, minimumFold, r);
    ThresholdSelectsTheBest(score, pools, cs, start, end, horizon, minimumValidation, r.inner);
    ThresholdContenders(cs);
    WalkSelectsTheBest(score, pools, V2.Contenders(cs), start, start + (end - start) * 5 / 6, horizon, folds, 0.5, minimumFold,
                       r.walk, w);
  }

  // ---- From the report ---------------------------------------------------------------------------------

  /** The evidence names every required flag of every required timeframe, and each is set. */
  function Confirming(requirements: seq<(string, string)>): Trade -> bool {
    (t: Trade) =>
      t.evidence.Some?
      && forall k :: 0 <= k < |requirements| ==> Confirms(t.evidence.value, requirements[k].0, requirements[k].1)
  }

  predicate Confirms(evidence: map<string, map<string, bool>>, frame: string, flag: string) {
    frame in evidence && flag in evidence[frame] && evidence[frame][flag]
  }

  /** The pool of a configuration: the trades that confirm it, replayed. Later configurations of its name take its place. */
  lemma {:induction false} PoolMeans(trades: seq<Trade>, cs: seq<W.Configuration>, cooldown: real, i: nat)
    requires i < |cs| && forall j :: i < j < |cs| ==> cs[j].name != cs[i].name
    ensures cs[i].name in W.ByConfiguration(trades, cs, cooldown)
    ensures W.ByConfiguration(trades, cs, cooldown)[cs[i].name] ==
            Cooldown.Replayed(Filter(trades, Confirming(cs[i].requirements)), cooldown)
  {
    hide Filter, Cooldown.Replayed;
    if i < |cs| - 1 {
      PoolMeans(trades, cs[..|cs| - 1], cooldown, i);
    } else {
      ConfirmingMeans(cs[i].requirements);
      FilterCongruent(trades, W.Passes(cs[i].requirements), Confirming(cs[i].requirements));
    }
  }

  lemma ConfirmingMeans(requirements: seq<(string, string)>)
    ensures forall t :: W.Passes(requirements)(t) <==> Confirming(requirements)(t)
  {
    forall t: Trade ensures W.Passes(requirements)(t) <==> Confirming(requirements)(t) {
      if Confirming(requirements)(t) {
        forall r | r in requirements ensures W.Confirms(t.evidence.value, r) {
          var k :| 0 <= k < |requirements| && requirements[k] == r;
          assert Confirms(t.evidence.value, requirements[k].0, requirements[k].1);
        }
      } else if t.evidence.Some? {
        var k :| 0 <= k < |requirements| && !Confirms(t.evidence.value, requirements[k].0, requirements[k].1);
        assert requirements[k] in requirements && !W.Confirms(t.evidence.value, requirements[k]);
      }
    }
  }

  /** The pool of a threshold: the trades scored at it or above, replayed. */
  lemma {:induction false} ThresholdPoolMeans(trades: seq<Trade>, cs: seq<V2.Configuration>, cooldown: real, i: nat)
    requires i < |cs| && forall j :: i < j < |cs| ==> cs[j].name != cs[i].name
    requires cs[i].threshold.Some? && 0.0 <= cs[i].threshold.value <= 75.0
    ensures cs[i].name in V2.ByThreshold(trades, cs, cooldown)
    ensures V2.ByThreshold(trades, cs, cooldown)[cs[i].name] ==
            Cooldown.Replayed(Filter(trades, ScoredFrom(cs[i].threshold.value)), cooldown)
  {
    hide Filter, Cooldown.Replayed;
    if i < |cs| - 1 {
      ThresholdPoolMeans(trades, cs[..|cs| - 1], cooldown, i);
    } else {
      FilterCongruent(trades, V2.Scores(cs[i].threshold.value), ScoredFrom(cs[i].threshold.value));
    }
  }

  function ScoredFrom(threshold: real): Trade -> bool {
    (t: Trade) => t.availableScore.Some? && t.availableScore.value >= threshold
  }

  function CooldownOf(hours: real): real { if hours > 0.0 then hours * 3_600_000.0 else 0.0 }

  /**
   Calibrating a report: it must be a complete research pool with a window and a horizon; the first five sixths of the
   window are the development period, and packets are net of costs at one percent risk.
   */
  lemma ReportIsCalibrated(report: W.Report, cs: seq<W.Configuration>, minimumValidation: int, minimumFold: int, r: W.Calibration)
    requires W.Calibrated(report, cs, minimumValidation, minimumFold) == Ok(r)
    ensures report.window.Some? && report.trades.Some? && report.candidatePoolComplete && report.promotionPermitted == Some(false)
    ensures report.window.value.0 < report.window.value.1 && report.maxHoldHours.Some? && report.maxHoldHours.value >= 1
    ensures var (start, end) := report.window.value;
            var pools := W.ByConfiguration(report.trades.value, cs, CooldownOf(report.cooldownHours));
            && (forall c :: c in cs ==> c.name in pools)
            && W.CalibrateWith(NetPerformance, pools, cs, start, start + (end - start) * 5 / 6,
                               report.maxHoldHours.value * 3_600_000, minimumValidation, minimumFold) == Ok(r)
  {
    hide W.CalibrateWith, W.ByConfiguration;
    W.EveryConfigurationHasTrades(report.trades.value, cs, CooldownOf(report.cooldownHours));
  }

  /** The score of both calibrators: net of costs, at one percent risk a trade. */
  lemma ScoringMeans(trades: seq<Trade>)
    ensures NetPerformance(trades) == Performance(trades, NetField, 0.01)
  {}

  /** The same for Score V2, where the horizon may be overridden. */
  lemma ThresholdReportIsCalibrated(report: V2.Report, cs: seq<V2.Configuration>, override: Option<int>, minimumValidation: int,
                                    folds: int, minimumFold: int, r: V2.Calibration)
    requires V2.Calibrated(report, cs, override, minimumValidation, folds, minimumFold) == Ok(r)
    ensures report.window.Some? && report.window.value.0 < report.window.value.1 && report.candidatePoolComplete
    ensures override.Some? || (report.maxHoldHours.Some? && report.maxHoldHours.value >= 1)
    ensures var (start, end) := report.window.value;
            var horizon := if override.Some? then override.value else report.maxHoldHours.value * 3_600_000;
            V2.CalibrateWith(NetPerformance, V2.ByThreshold(report.trades, cs, CooldownOf(report.cooldownHours)), cs, start, end,
                             horizon, minimumValidation, folds, minimumFold) == Ok(r)
  {
    hide V2.CalibrateWith, V2.ByThreshold;
  }

  /** What a report is refused for, in order. */
  lemma RefusedReports(report: W.Report, cs: seq<W.Configuration>, minimumValidation: int, minimumFold: int)
    ensures var r := W.Calibrated(report, cs, minimumValidation, minimumFold);
            if report.window.None? then r == Err("report lacks an immutable window")
            else if report.window.value.0 >= report.window.value.1 || !report.candidatePoolComplete
              then r == Err("report is not a complete immutable candidate pool")
            else if report.promotionPermitted != Some(false) then r == Err("report lacks the research-only net-EV guardrail")
            else if report.maxHoldHours.None? || report.maxHoldHours.value < 1 then r == Err("report lacks an outcome horizon")
            else report.trades.None? ==> r == Err("report lacks historical trades")
  {
    hide W.CalibrateTrades;
  }

  lemma ThresholdRefusedReports(report: V2.Report, cs: seq<V2.Configuration>, override: Option<int>, minimumValidation: int,
                                folds: int, minimumFold: int)
    ensures var r := V2.Calibrated(report, cs, override, minimumValidation, folds, minimumFold);
            if report.window.None? || report.window.value.0 >= report.window.value.1
              then r == Err("backtest report lacks a valid immutable window")
            else if !report.candidatePoolComplete
              then r == Err("backtest report lacks a complete pre-threshold candidate pool")
            else override.None? && (report.maxHoldHours.None? || report.maxHoldHours.value < 1) ==>
                   r == Err("backtest report lacks a valid outcome horizon")
  {
    hide V2.CalibrateTrades;
  }

  /** Once the walk-forward is through, a calibration ends in an error exactly when a configuration has no pool. */
  lemma UnpooledFails(score: Scoring, pools: map<string, seq<Trade>>, cs: seq<V2.Configuration>, start: int, end: int,
                      horizon: int, minimumValidation: int, folds: int, minimumFold: int, walk: Outcome)
    requires start < end && horizon >= 0
    requires WalkForwardOf(score, V2.Complete(pools, cs), V2.Contenders(cs), start, start + (end - start) * 5 / 6, horizon,
                           folds, 0.5, minimumFold) == Ok(walk)
    ensures var r := V2.CalibrateWith(score, pools, cs, start, end, horizon, minimumValidation, folds, minimumFold);
            && (r.Err? <==> exists i :: 0 <= i < |cs| && cs[i].name !in pools)
            && (r.Err? ==> r == Err("KeyError"))
  {
    hide V2.SelectInner, WalkForwardOf, ValidationPackets, V2.HoldoutPacket, V2.Complete, V2.Contenders;
    assert V2.EveryNamePooled(pools.Keys, cs) <==> forall c :: c in cs ==> c.name in pools;
    forall c | c in cs && c.name !in pools ensures exists i :: 0 <= i < |cs| && cs[i].name !in pools {
      var i :| 0 <= i < |cs| && cs[i] == c;
    }
  }
}
