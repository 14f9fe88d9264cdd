/**
 Replaying the candidate pool is as good as running the scan: selecting the pool by a threshold
 and replaying the cooldown gives the trades the scan emits when it is run with that threshold.
 */
module PoolReplay {
  import opened Wrappers
  import opened Sequences
  import opened Trades
  import opened Candles
  import opened Scan
  import opened Evaluate
  import Cooldown
  import V2 = CalibrateScoreV2

  function TradeOfSignal(): Signal -> Trade { (g: Signal) => g.trade }

  /** A trade without its pool flag. */
  function Unpooled(): Trade -> Trade { (t: Trade) => t.(poolEvent := false) }

  /** A signal without the pool flag of its trade. */
  function UnpooledSignal(): Signal -> Signal { (g: Signal) => g.(trade := g.trade.(poolEvent := false)) }

  function TradesOf(signals: seq<Signal>): seq<Trade> { Map(signals, TradeOfSignal()) }

  /** Signals whose trade is among `trades`. */
  function WithTradeIn(trades: seq<Trade>): Signal -> bool { (g: Signal) => g.trade in trades }

  function CooldownOf(s: Settings): real { Cooldown.CooldownMs(s.cooldownHours as real) }

  const POOL := Mode(true, 0.0)

  function Direct(threshold: real): Mode { Mode(false, threshold) }

  /** Time moves forward with the index, and settlement keeps what the candidate says about the trade. */
  ghost predicate Clocked(src: Source, s: Settings) {
    && (forall i, j {:trigger src.closeTime(i), src.closeTime(j)} :: 0 <= i < j < src.limit ==> src.closeTime(i) < src.closeTime(j))
    && (forall i {:trigger src.candidate(i)} :: 0 <= i < src.limit && src.candidate(i).Some? ==>
          && src.candidate(i).value.closeTime == src.closeTime(i)
          && (s.filter.ScoreV2? || src.candidate(i).value.availableScore.None?))
    && (forall i, d {:trigger src.settle(i, d)} :: 0 <= i < src.limit && src.settle(i, d).Ok? ==>
          Reflects(src.settle(i, d).value, d, s))
  }

  ghost predicate Reflects(t: Trade, d: Decision, s: Settings) {
    t.symbol == s.symbol && t.timestamp == d.closeTime && t.availableScore == d.availableScore && !t.poolEvent
  }

  lemma SettlementReflects(rows: seq<Row>, s: Settings, rules: Rules, i: int, d: Decision)
    requires 0 <= i && SettleAt(rows, s, rules, i, d).Ok?
    ensures Reflects(SettleAt(rows, s, rules, i, d).value, d, s)
  {}

  lemma SourceIsClocked(rows: seq<Row>, macro: Option<seq<seq<Row>>>, s: Settings, rules: Rules)
    requires Candles.Spaced(rows) && s.holdHours >= 1
    ensures Clocked(SourceOf(rows, macro, s, rules), s)
  {
    hide CandidateAt, SettleAt, Candles.Spaced;
    var src := SourceOf(rows, macro, s, rules);
    forall i, j | 0 <= i < j < src.limit ensures src.closeTime(i) < src.closeTime(j) {
      ConsecutiveTimes(rows, i, j);
    }
    forall i | 0 <= i < src.limit && src.candidate(i).Some?
      ensures src.candidate(i).value.closeTime == src.closeTime(i)
      ensures s.filter.ScoreV2? || src.candidate(i).value.availableScore.None?
    {
      CandidateShape(rows, macro, s, rules, i);
    }
    forall i, d | 0 <= i < src.limit && src.settle(i, d).Ok? ensures Reflects(src.settle(i, d).value, d, s) {
      SettlementReflects(rows, s, rules, i, d);
    }
  }

  // ---- The pool is chronological -----------------------------------------------------------

  ghost predicate Ascending(trades: seq<Trade>) {
    forall i, j :: 0 <= i < j < |trades| ==> trades[i].timestamp < trades[j].timestamp
  }

  lemma {:induction false} PoolIsChronological(src: Source, s: Settings, k: nat)
    requires Clocked(src, s) && s.triggerInterval >= 1 && Signals(src, s, POOL, k).Ok?
    ensures var trades := TradesOf(Signals(src, s, POOL, k).value);
            && OneSymbol(trades, s.symbol)
            && Ascending(trades)
            && forall g, j {:trigger trades[g], src.closeTime(j)} ::
                 0 <= g < |trades| && IndexAt(s, k) <= j < src.limit ==> trades[g].timestamp < src.closeTime(j)
  {
    if k > 0 {
      PoolIsChronological(src, s, k - 1);
      NextIndex(s, k - 1);
      IndexGrows(s, k - 1);
    }
  }

  // ---- Lockstep ------------------------------------------------------------------------------

  /** The signals whose trades the replay of the pool so far keeps. */
  function Kept(pool: seq<Signal>, s: Settings, threshold: real): seq<Signal> {
    if |pool| == 0 then []
    else
      var before, g := Kept(pool[..|pool| - 1], s, threshold), pool[|pool| - 1];
      if V2.Scores(threshold)(g.trade) && Cooldown.Admits(TradesOf(before), g.trade, CooldownOf(s)) then before + [g] else before
  }

  lemma {:induction false} KeptIsReplayed(pool: seq<Signal>, s: Settings, threshold: real)
    ensures TradesOf(Kept(pool, s, threshold)) == Cooldown.Replay(Filter(TradesOf(pool), V2.Scores(threshold)), CooldownOf(s))
  {
    hide Cooldown.Replay, Cooldown.Admits, TradesOf, CooldownOf, V2.Scores, Filter;
    if |pool| > 0 {
      var init, g := pool[..|pool| - 1], pool[|pool| - 1];
      KeptIsReplayed(init, s, threshold);
      assert pool == init + [g];
      TradesAppend(init, g);
      TradesAppend(Kept(init, s, threshold), g);
      FilterAppend(TradesOf(init), g.trade, V2.Scores(threshold));
      Cooldown.ReplayAppend(Filter(TradesOf(init), V2.Scores(threshold)), g.trade, CooldownOf(s));
    } else {
      NoTrades(s, threshold);
    }
  }

  lemma NoTrades(s: Settings, threshold: real)
    ensures TradesOf([]) == Cooldown.Replay(Filter(TradesOf([]), V2.Scores(threshold)), CooldownOf(s))
  {}

  lemma TradesAppend(signals: seq<Signal>, g: Signal)
    ensures TradesOf(signals + [g]) == TradesOf(signals) + [g.trade]
  {}

  lemma {:induction false} KeptMembers(pool: seq<Signal>, s: Settings, threshold: real)
    ensures forall g :: g in Kept(pool, s, threshold) ==> g in pool
  {
    if |pool| > 0 {
      KeptMembers(pool[..|pool| - 1], s, threshold);
      assert pool == pool[..|pool| - 1] + [pool[|pool| - 1]];
    }
  }

  lemma TradesMembers(signals: seq<Signal>)
    ensures forall t :: t in TradesOf(signals) <==> exists g :: g in signals && g.trade == t
  {
    forall t | t in TradesOf(signals) ensures exists g :: g in signals && g.trade == t {
      var i :| 0 <= i < |signals| && TradesOf(signals)[i] == t;
      assert signals[i] in signals;
    }
    forall g | g in signals ensures g.trade in TradesOf(signals) {
      var i :| 0 <= i < |signals| && signals[i] == g;
      assert TradesOf(signals)[i] == g.trade;
    }
  }

  /** In a chronological pool the kept signals are those whose trade is kept. */
  lemma {:induction false} KeptByTrade(pool: seq<Signal>, s: Settings, threshold: real)
    requires Ascending(TradesOf(pool))
    ensures Kept(pool, s, threshold) == Filter(pool, WithTradeIn(TradesOf(Kept(pool, s, threshold))))
  {
    hide TradesOf, Cooldown.Admits, V2.Scores, CooldownOf;
    if |pool| > 0 {
      var init, g := pool[..|pool| - 1], pool[|pool| - 1];
      assert pool == init + [g];
      LaterThanTheRest(init, g);
      KeptByTrade(init, s, threshold);
      var before := Kept(init, s, threshold);
      var trades := TradesOf(Kept(pool, s, threshold));
      TradesAppend(before, g);
      KeptMembers(init, s, threshold);
      TradesMembers(before);
      FilterCongruent(init, WithTradeIn(TradesOf(before)), WithTradeIn(trades));
      FilterAppend(init, g, WithTradeIn(trades));
    }
  }

  lemma LaterThanTheRest(init: seq<Signal>, g: Signal)
    requires Ascending(TradesOf(init + [g]))
    ensures Ascending(TradesOf(init)) && forall x :: x in init ==> x.trade != g.trade
  {
    TradesAppend(init, g);
    assert forall i :: 0 <= i < |init| ==> TradesOf(init)[i] == TradesOf(init + [g])[i];
    forall x | x in init ensures x.trade != g.trade {
      var i :| 0 <= i < |init| && init[i] == x;
      assert TradesOf(init + [g])[i] == x.trade && TradesOf(init + [g])[|init|] == g.trade;
    }
  }

  /** The direct run's signals are the kept ones, each stamped with its decision's time. */
  ghost predicate Lockstep(direct: seq<Signal>, kept: seq<Signal>, s: Settings) {
    && direct == Map(kept, UnpooledSignal())
    && OneSymbol(TradesOf(kept), s.symbol)
    && forall g :: 0 <= g < |direct| ==> direct[g].trade.timestamp == direct[g].decision.closeTime
  }

  lemma SameRelease(direct: seq<Signal>, kept: seq<Signal>, s: Settings, threshold: real)
    requires Lockstep(direct, kept, s) && s.cooldownHours >= 1
    ensures Cooldown.Until(TradesOf(kept), s.symbol, CooldownOf(s)) == CooldownUntil(direct, s, Direct(threshold)) as real
  {
    if |kept| > 0 {
      var g := |kept| - 1;
      assert direct[g] == UnpooledSignal()(kept[g]) && direct[g].trade.timestamp == kept[g].trade.timestamp;
      assert TradesOf(kept)[g] == kept[g].trade && kept[g].trade.symbol == s.symbol;
    }
  }

  lemma LockstepGrows(direct: seq<Signal>, kept: seq<Signal>, s: Settings, d: Decision, t: Trade)
    requires Lockstep(direct, kept, s) && Reflects(t, d, s)
    ensures Lockstep(direct + [Signal(d, t)], kept + [Signal(d, t.(poolEvent := true))], s)
  {
    var g := Signal(d, t.(poolEvent := true));
    TradesAppend(kept, g);
    assert UnpooledSignal()(g) == Signal(d, t);
    assert Map(kept + [g], UnpooledSignal()) == Map(kept, UnpooledSignal()) + [Signal(d, t)];
  }

  /** One trigger index keeps the direct run and the replay of the pool together. */
  lemma VisitInLockstep(src: Source, s: Settings, threshold: real, i: nat, pool: seq<Signal>, direct: seq<Signal>)
    requires Clocked(src, s) && s.cooldownHours >= 1 && s.filter.ScoreV2?
    requires Lockstep(direct, Kept(pool, s, threshold), s)
    requires Visit(src, s, POOL, i, pool).Ok?
    ensures Visit(src, s, Direct(threshold), i, direct).Ok?
    ensures Lockstep(Visit(src, s, Direct(threshold), i, direct).value, Kept(Visit(src, s, POOL, i, pool).value, s, threshold), s)
  {
    SameRelease(direct, Kept(pool, s, threshold), s, threshold);
    if i < src.limit && !Waiting(s, POOL, src.closeTime(i), 0) && src.candidate(i).Some? {
      var d := src.candidate(i).value;
      var t := src.settle(i, d).value;
      assert Reflects(t, d, s);
      assert (pool + [Signal(d, Flagged(t, POOL))])[..|pool|] == pool;
      LockstepGrows(direct, Kept(pool, s, threshold), s, d, t);
      assert Flagged(t, Direct(threshold)) == t;
    }
  }

  lemma {:induction false} SignalsInLockstep(src: Source, s: Settings, threshold: real, k: nat)
    requires Clocked(src, s) && s.triggerInterval >= 1 && s.cooldownHours >= 1 && s.filter.ScoreV2?
    requires Signals(src, s, POOL, k).Ok?
    ensures Signals(src, s, Direct(threshold), k).Ok?
    ensures Lockstep(Signals(src, s, Direct(threshold), k).value, Kept(Signals(src, s, POOL, k).value, s, threshold), s)
  {
    if k > 0 {
      SignalsInLockstep(src, s, threshold, k - 1);
      IndexGrows(s, k - 1);
      VisitInLockstep(src, s, threshold, IndexAt(s, k - 1), Signals(src, s, POOL, k - 1).value,
                      Signals(src, s, Direct(threshold), k - 1).value);
    }
  }

  // ---- One symbol -----------------------------------------------------------------------------

  lemma SelectedPoolIsSorted(trades: seq<Trade>, threshold: real, cooldown: real)
    requires Sorted(trades, ReplayOrder)
    ensures V2.TradesAbove(trades, threshold, cooldown) == Cooldown.Replay(Filter(trades, V2.Scores(threshold)), cooldown)
  {
    FilterSorted(trades, V2.Scores(threshold), ReplayOrder);
    SortOfSorted(Filter(trades, V2.Scores(threshold)), ReplayOrder);
  }

  /**
   For every threshold, replaying the pool the scan emits gives the direct run, up to the pool flag: the same trades in
   the same order, each with the stages, score, evidence and derivatives of its signal in the pool; and the direct run
   succeeds when the pool run does.
   */
  lemma PoolReplayRefinesDirectRun(rows: seq<Row>, macro: Option<seq<seq<Row>>>, s: Settings, rules: Rules, threshold: real,
                                   pool: seq<Signal>)
    requires Candles.Spaced(rows) && s.filter.ScoreV2? && 0.0 <= threshold <= AVAILABLE_MAXIMUM
    requires Evaluated(rows, macro, s, POOL, rules) == Ok(pool)
    ensures Evaluated(rows, macro, s, Direct(threshold), rules).Ok?
    ensures var kept := V2.TradesAbove(TradesOf(pool), threshold, CooldownOf(s));
            && Evaluated(rows, macro, s, Direct(threshold), rules).value == Map(Filter(pool, WithTradeIn(kept)), UnpooledSignal())
            && TradesOf(Evaluated(rows, macro, s, Direct(threshold), rules).value) == Map(kept, Unpooled())
    ensures Sorted(TradesOf(pool), ReplayOrder) && OneSymbol(TradesOf(pool), s.symbol)
  {
    var src := SourceOf(rows, macro, s, rules);
    var n: nat := if src.limit > 0 then src.limit else 0;
    SourceIsClocked(rows, macro, s, rules);
    SignalsInLockstep(src, s, threshold, n);
    PoolIsChronological(src, s, n);
    SelectedPoolIsSorted(TradesOf(pool), threshold, CooldownOf(s));
    KeptIsReplayed(pool, s, threshold);
    KeptByTrade(pool, s, threshold);
    TradesOfUnpooled(Kept(pool, s, threshold));
  }

  lemma TradesOfUnpooled(signals: seq<Signal>)
    ensures TradesOf(Map(signals, UnpooledSignal())) == Map(TradesOf(signals), Unpooled())
  {}

  // ---- A report over many symbols ----------------------------------------------------------------

  /**
   In a report holding each symbol's pool in the order its scan emitted it, the calibrator's replay
   at a threshold contains, for each symbol, exactly that symbol's direct run, signal by signal.
   */
  lemma ReportReplayRefinesDirectRuns(report: seq<Trade>, rows: seq<Row>, macro: Option<seq<seq<Row>>>, s: Settings, rules: Rules,
                                      threshold: real, pool: seq<Signal>)
    requires Candles.Spaced(rows) && s.filter.ScoreV2? && 0.0 <= threshold <= AVAILABLE_MAXIMUM
    requires Evaluated(rows, macro, s, POOL, rules) == Ok(pool) && Filter(report, OfSymbol(s.symbol)) == TradesOf(pool)
    ensures Evaluated(rows, macro, s, Direct(threshold), rules).Ok?
    ensures var kept := Filter(V2.TradesAbove(report, threshold, CooldownOf(s)), OfSymbol(s.symbol));
            && Evaluated(rows, macro, s, Direct(threshold), rules).value == Map(Filter(pool, WithTradeIn(kept)), UnpooledSignal())
            && TradesOf(Evaluated(rows, macro, s, Direct(threshold), rules).value) == Map(kept, Unpooled())
  {
    PoolReplayRefinesDirectRun(rows, macro, s, rules, threshold, pool);
    ReplayOfOneSymbol(report, threshold, CooldownOf(s), s.symbol);
  }

  lemma ReplayOfOneSymbol(report: seq<Trade>, threshold: real, cooldown: real, symbol: string)
    ensures Filter(V2.TradesAbove(report, threshold, cooldown), OfSymbol(symbol)) ==
            V2.TradesAbove(Filter(report, OfSymbol(symbol)), threshold, cooldown)
  {
    var selected := Filter(report, V2.Scores(threshold));
    ReplayOrderIsTotal();
    Cooldown.ReplayOfSymbol(StableSort(selected, ReplayOrder), cooldown, symbol);
    SortFilter(selected, OfSymbol(symbol), ReplayOrder);
    FilterSwap(report, V2.Scores(threshold), OfSymbol(symbol));
  }

  // ---- When the pool carries no scores -------------------------------------------------------------

  lemma {:induction false} UnscoredPool(src: Source, s: Settings, k: nat)
    requires Clocked(src, s) && s.triggerInterval >= 1 && !s.filter.ScoreV2? && Signals(src, s, POOL, k).Ok?
    ensures forall t :: t in TradesOf(Signals(src, s, POOL, k).value) ==> t.availableScore.None?
  {
    if k > 0 {
      UnscoredPool(src, s, k - 1);
      IndexGrows(s, k - 1);
      var i := IndexAt(s, k - 1);
      var pool := Signals(src, s, POOL, k - 1).value;
      var after := Visit(src, s, POOL, i, pool).value;
      assert after == pool || (|after| == |pool| + 1 && after[..|pool|] == pool && after[|pool|].trade.availableScore.None?);
      forall t | t in TradesOf(after) ensures t.availableScore.None? {
        var g :| 0 <= g < |after| && after[g].trade == t;
        if g < |pool| {
          assert after[g] == pool[g];
          assert TradesOf(pool)[g] == t;
        }
      }
    }
  }

  /** The direct run has something to emit at index `i` when no signal is cooling down. */
  predicate Fires(src: Source, s: Settings, i: int) {
    src.closeTime(i) >= 0 && (s.signalStart.Some? ==> src.closeTime(i) >= s.signalStart.value) && src.candidate(i).Some?
  }

  /** A pool run that succeeds has settled whatever a direct run settles, and a direct run is empty until an index fires. */
  lemma {:induction false} UnscoredDirectRun(src: Source, s: Settings, threshold: real, k: nat)
    requires s.triggerInterval >= 1 && !s.filter.ScoreV2? && Signals(src, s, POOL, k).Ok?
    ensures Signals(src, s, Direct(threshold), k).Ok?
    ensures Signals(src, s, Direct(threshold), k).value == [] <==>
            forall j: nat :: j < k && IndexAt(s, j) < src.limit ==> !Fires(src, s, IndexAt(s, j))
  {
    if k > 0 {
      UnscoredDirectRun(src, s, threshold, k - 1);
      var i := IndexAt(s, k - 1);
      assert Signals(src, s, POOL, k - 1).Ok? && Visit(src, s, POOL, i, Signals(src, s, POOL, k - 1).value).Ok?;
      var direct := Signals(src, s, Direct(threshold), k - 1).value;
      assert Signals(src, s, Direct(threshold), k) == Visit(src, s, Direct(threshold), i, direct);
    }
  }

  /** Some trigger index from the signal start and the epoch on, with its horizon inside the candles, has a candidate. */
  ghost predicate HasCandidate(rows: seq<Row>, macro: Option<seq<seq<Row>>>, s: Settings, rules: Rules)
    requires s.holdHours >= 1
  {
    exists k: nat :: CandidateAtTrigger(rows, macro, s, rules, IndexAt(s, k))
  }

  ghost predicate CandidateAtTrigger(rows: seq<Row>, macro: Option<seq<seq<Row>>>, s: Settings, rules: Rules, i: int)
    requires s.holdHours >= 1
  {
    && 0 <= i < |rows| - HorizonBars(s)
    && CloseTime(rows[i]) >= 0
    && (s.signalStart.Some? ==> CloseTime(rows[i]) >= s.signalStart.value)
    && CandidateAt(rows, macro, s, rules, i).Some?
  }

  /**
   The direct run succeeds whenever the pool run does, for every filter. Its trades are the replayed pool exactly
   when the filter is Score V2, or no trigger index has a candidate at all: under any other filter the pool carries
   no available score and nothing passes a threshold.
   */
  lemma RefinementNeedsScores(rows: seq<Row>, macro: Option<seq<seq<Row>>>, s: Settings, rules: Rules, threshold: real,
                              pool: seq<Signal>)
    requires Candles.Spaced(rows) && 0.0 <= threshold <= AVAILABLE_MAXIMUM
    requires Evaluated(rows, macro, s, POOL, rules) == Ok(pool)
    ensures var direct := Evaluated(rows, macro, s, Direct(threshold), rules);
            && direct.Ok?
            && (TradesOf(direct.value) == Map(V2.TradesAbove(TradesOf(pool), threshold, CooldownOf(s)), Unpooled())
                <==> s.filter.ScoreV2? || !HasCandidate(rows, macro, s, rules))
  {
    if s.filter.ScoreV2? {
      PoolReplayRefinesDirectRun(rows, macro, s, rules, threshold, pool);
    } else {
      var src := SourceOf(rows, macro, s, rules);
      var n: nat := if src.limit > 0 then src.limit else 0;
      SourceIsClocked(rows, macro, s, rules);
      UnscoredPool(src, s, n);
      FilterNone(TradesOf(pool), V2.Scores(threshold));
      assert V2.TradesAbove(TradesOf(pool), threshold, CooldownOf(s)) == [];
      UnscoredDirectRun(src, s, threshold, n);
      FiresExactly(rows, macro, s, rules, n);
    }
  }

  lemma FiresExactly(rows: seq<Row>, macro: Option<seq<seq<Row>>>, s: Settings, rules: Rules, n: nat)
    requires s.holdHours >= 1 && s.triggerInterval >= 1 && n >= |rows| - HorizonBars(s)
    ensures var src := SourceOf(rows, macro, s, rules);
            HasCandidate(rows, macro, s, rules) <==>
            exists k: nat :: k < n && IndexAt(s, k) < src.limit && Fires(src, s, IndexAt(s, k))
  {
    hide CandidateAt, IndexAt;
    var src := SourceOf(rows, macro, s, rules);
    forall k: nat
      ensures CandidateAtTrigger(rows, macro, s, rules, IndexAt(s, k)) <==>
              k < n && IndexAt(s, k) < src.limit && Fires(src, s, IndexAt(s, k))
    {
      IndexGrows(s, k);
    }
  }
}
