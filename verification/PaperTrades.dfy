/** The paper-trade ledger: one open short per symbol, settled against live prices and recorded in a database. */
module PaperTrades {
  import opened Wrappers
  import opened Sequences

  const POSITION_USD := 30.0
  const MIN_LEVERAGE := 4
  const TIMEOUT_SECONDS := 86_400.0
  const ROUND_TRIP_FEE_PCT := 0.12

  /** Plan levels as the code reads them; zero for anything that is not a finite number. */
  datatype Plan = Plan(entry: real, stop: real, tp1: real, tp2: real)

  datatype Trade = Trade(symbol: string, entryTime: real, plan: Plan, leverage: int, shares: real)

  datatype Outcome = LossStop | WinTp2 | WinTp1 | Timeout

  datatype Row = Row(trade: Trade, exit: real, outcome: Outcome, netPct: real, pnlUsd: real)

  /** A candidate's prices; zero for anything that is not a positive finite number. */
  datatype Candidate = Candidate(last: real, bid: real, ask: real)

  // ---- Opening -------------------------------------------------------------------------

  predicate ShortGeometry(p: Plan) { 0.0 < p.tp2 < p.tp1 < p.entry < p.stop }

  /** A number as Python holds it: an `int`, or a finite `float`. */
  datatype Number = Whole(n: int) | Fraction(x: real)

  /** `leverage_advisory`; the leverage is `None` unless it is a finite number. */
  datatype Advisory = Advisory(status: string, leverage: Option<Number>)

  const MAX_LEVERAGE := 18

  function ValueOf(n: Number): real {
    match n
    case Whole(k) => k as real
    case Fraction(x) => x
  }

  /** What a decision keeps of the advice: available leverage of 4 to 18 -- as a `float` -- or no leverage, or nothing. */
  function Projected(a: Advisory): Option<Advisory> {
    if a.status == "AVAILABLE" then
      if a.leverage.None? then None
      else if ValueOf(a.leverage.value) < MIN_LEVERAGE as real || ValueOf(a.leverage.value) > MAX_LEVERAGE as real then None
      else Some(Advisory(a.status, Some(Fraction(ValueOf(a.leverage.value)))))
    else if a.status == "UNAVAILABLE" || a.status == "NOT_RECOMMENDED" then Some(Advisory(a.status, None))
    else None
  }

  /** The advised leverage when it is available and an `int`, else the policy minimum. */
  function LeverageOf(advised: Option<Advisory>): int {
    if advised.Some? && advised.value.status == "AVAILABLE" && advised.value.leverage.Some? && advised.value.leverage.value.Whole?
    then advised.value.leverage.value.n else MIN_LEVERAGE
  }

  function Opening(symbol: string, plan: Plan, advised: Option<Advisory>, now: real): Trade
    requires ShortGeometry(plan)
  {
    Trade(symbol, now, plan, LeverageOf(advised), POSITION_USD * LeverageOf(advised) as real / plan.entry)
  }

  predicate Holds(active: seq<Trade>, symbol: string) { exists i :: 0 <= i < |active| && active[i].symbol == symbol }

  // ---- Settling ------------------------------------------------------------------------

  function PriceOf(candidates: map<string, Candidate>, symbol: string): real {
    if symbol !in candidates then 0.0
    else
      var c := candidates[symbol];
      if c.last > 0.0 then c.last else if c.bid > 0.0 && c.ask > 0.0 then (c.bid + c.ask) / 2.0 else 0.0
  }

  predicate Overdue(t: Trade, now: real) { now - t.entryTime > TIMEOUT_SECONDS }

  /** Exit price and outcome, if the trade is to be settled; the stop is looked at before the targets. */
  function ExitOf(t: Trade, price: real, now: real): Option<(real, Outcome)> {
    if price <= 0.0 then if Overdue(t, now) then Some((t.plan.entry, Timeout)) else None
    else if price >= t.plan.stop then Some((t.plan.stop, LossStop))
    else if price <= t.plan.tp2 then Some((t.plan.tp2, WinTp2))
    else if price <= t.plan.tp1 then Some((t.plan.tp1, WinTp1))
    else if Overdue(t, now) then Some((price, Timeout))
    else None
  }

  function GrossPct(entry: real, exit: real): real
    requires entry != 0.0
  {
    (entry - exit) / entry * 100.0
  }

  function NetPct(t: Trade, exit: real): real
    requires t.plan.entry != 0.0
  {
    (GrossPct(t.plan.entry, exit) - ROUND_TRIP_FEE_PCT) * t.leverage as real
  }

  function RowOf(t: Trade, exit: real, outcome: Outcome): Row
    requires t.plan.entry != 0.0
  {
    Row(t, exit, outcome, NetPct(t, exit), POSITION_USD * (NetPct(t, exit) / 100.0))
  }

  function Exits(candidates: map<string, Candidate>, now: real): Trade -> bool {
    (t: Trade) => ExitOf(t, PriceOf(candidates, t.symbol), now).Some?
  }

  function Stays(candidates: map<string, Candidate>, now: real): Trade -> bool {
    (t: Trade) => ExitOf(t, PriceOf(candidates, t.symbol), now).None?
  }

  predicate Sound(active: seq<Trade>) {
    && (forall i :: 0 <= i < |active| ==> ShortGeometry(active[i].plan))
    && forall i, j :: 0 <= i < j < |active| ==> active[i].symbol != active[j].symbol
  }

  function RowsOf(active: seq<Trade>, candidates: map<string, Candidate>, now: real): seq<Row>
    requires forall i :: 0 <= i < |active| ==> active[i].plan.entry != 0.0
  {
    if |active| == 0 then []
    else
      var before, t := RowsOf(active[..|active| - 1], candidates, now), active[|active| - 1];
      var exit := ExitOf(t, PriceOf(candidates, t.symbol), now);
      if exit.Some? then before + [RowOf(t, exit.value.0, exit.value.1)] else before
  }

  /** How the write of the settled rows goes. */
  datatype Commit = Commits | Fails | CommitsUnreported

  /**
   `active` is the dictionary by symbol in insertion order, `entered` every trade ever opened, `forgotten` those that were
   active when a process ended.
   */
  datatype Ledger = Ledger(active: seq<Trade>, recorded: seq<Row>, entered: seq<Trade>, forgotten: seq<Trade>)

  const EMPTY := Ledger([], [], [], [])

  function Started(l: Ledger, symbol: string, plan: Plan, advised: Option<Advisory>, now: real): Ledger {
    if Holds(l.active, symbol) || !ShortGeometry(plan) then l
    else
      var t := Opening(symbol, plan, advised, now);
      l.(active := l.active + [t], entered := l.entered + [t])
  }

  function Checked(l: Ledger, candidates: map<string, Candidate>, now: real, commit: Commit): Ledger
    requires Sound(l.active)
  {
    var rows := RowsOf(l.active, candidates, now);
    match commit
    case Commits => l.(active := Filter(l.active, Stays(candidates, now)), recorded := l.recorded + rows)
    case Fails => l
    case CommitsUnreported => l.(recorded := l.recorded + rows)
  }

  /** A new process starts with an empty dictionary; the database is still there. */
  function Restarted(l: Ledger): Ledger { l.(active := [], forgotten := l.forgotten + l.active) }

  class Recorder {
    var active: seq<Trade>
    var recorded: seq<Row>
    ghost var entered: seq<Trade>
    ghost var forgotten: seq<Trade>

    ghost function AsLedger(): Ledger
      reads this
    {
      Ledger(active, recorded, entered, forgotten)
    }

    constructor ()
      ensures AsLedger() == EMPTY
    {
      active, recorded, entered, forgotten := [], [], [], [];
    }

    method Restart()
      modifies this
      ensures AsLedger() == Restarted(old(AsLedger()))
    {
      forgotten := forgotten + active;
      active := [];
    }

    method StartBacktestTrade(symbol: string, plan: Plan, advised: Option<Advisory>, now: real)
      modifies this
      ensures AsLedger() == Started(old(AsLedger()), symbol, plan, advised, now)
    {
      if Holds(active, symbol) || !ShortGeometry(plan) { return; }
      var leverage := MIN_LEVERAGE;
      if advised.Some? && advised.value.status == "AVAILABLE" {
        var candidate := advised.value.leverage;
        if candidate.Some? && candidate.value.Whole? { leverage := candidate.value.n; }
      }
      var trade := Trade(symbol, now, plan, leverage, POSITION_USD * leverage as real / plan.entry);
      active := active + [trade];
      entered := entered + [trade];
    }

    method CheckBacktestTrades(candidates: map<string, Candidate>, now: real, commit: Commit)
      requires Sound(active)
      modifies this
      ensures AsLedger() == Checked(old(AsLedger()), candidates, now, commit)
    {
      hide ExitOf, PriceOf, RowOf, NetPct;
      var rows: seq<Row> := [];
      var staying: seq<Trade> := [];
      for i := 0 to |active|
        invariant rows == RowsOf(active[..i], candidates, now) && staying == Filter(active[..i], Stays(candidates, now))
        invariant AsLedger() == old(AsLedger())
      {
        assert active[..i + 1][..i] == active[..i];
        var trade := active[i];
        var exit := ExitOf(trade, PriceOf(candidates, trade.symbol), now);
        if exit.Some? {
          rows := rows + [RowOf(trade, exit.value.0, exit.value.1)];
        } else {
          staying := staying + [trade];
        }
      }
      assert active[..|active|] == active;
      if |rows| == 0 {
        NothingSettles(active, candidates, now);
        return;
      }
      if commit.Fails? { return; }
      recorded := recorded + rows;
      if commit.CommitsUnreported? { return; }
      active := staying;
    }
  }

  lemma {:induction false} NothingSettles(active: seq<Trade>, candidates: map<string, Candidate>, now: real)
    requires Sound(active) && RowsOf(active, candidates, now) == []
    ensures Filter(active, Stays(candidates, now)) == active
  {
    hide ExitOf, PriceOf, NetPct;
    if |active| > 0 {
      NothingSettles(active[..|active| - 1], candidates, now);
      assert active == active[..|active| - 1] + [active[|active| - 1]];
    }
  }

  // ---- Runs -------------------------------------------------------------------------------------

  datatype Event =
    | Start(symbol: string, plan: Plan, advised: Option<Advisory>, now: real)
    | Check(candidates: map<string, Candidate>, now: real, commit: Commit)
    | Restart

  function Next(l: Ledger, e: Event): Ledger
    requires Sound(l.active)
  {
    match e
    case Start(symbol, plan, advised, now) => Started(l, symbol, plan, advised, now)
    case Check(candidates, now, commit) => Checked(l, candidates, now, commit)
    case Restart => Restarted(l)
  }

  lemma {:induction false} FilterSound(active: seq<Trade>, p: Trade -> bool)
    requires Sound(active)
    ensures Sound(Filter(active, p)) && forall i :: 0 <= i < |Filter(active, p)| ==> Filter(active, p)[i] in active
  {
    if |active| > 0 {
      var init, last := active[..|active| - 1], active[|active| - 1];
      FilterSound(init, p);
      var f := Filter(init, p);
      forall i | 0 <= i < |f| ensures f[i].symbol != last.symbol && f[i] in active {
        assert f[i] in init;
        var k :| 0 <= k < |init| && init[k] == f[i];
        assert active[k].symbol != active[|active| - 1].symbol;
      }
    }
  }

  lemma NextSound(l: Ledger, e: Event)
    requires Sound(l.active)
    ensures Sound(Next(l, e).active)
  {
    if e.Check? { FilterSound(l.active, Stays(e.candidates, e.now)); }
  }

  function AfterRun(run: seq<Event>): (l: Ledger)
    ensures Sound(l.active)
  {
    if |run| == 0 then EMPTY
    else
      var before := AfterRun(run[..|run| - 1]);
      NextSound(before, run[|run| - 1]);
      Next(before, run[|run| - 1])
  }

  function TradeOfRow(): Row -> Trade { (r: Row) => r.trade }

  /** Rows written although the write was reported as failed. */
  function Unreported(run: seq<Event>): nat {
    if |run| == 0 then 0
    else
      var before, e := AfterRun(run[..|run| - 1]), run[|run| - 1];
      Unreported(run[..|run| - 1])
      + (if e.Check? && e.commit.CommitsUnreported? then |RowsOf(before.active, e.candidates, e.now)| else 0)
  }

  /** The rows are for exactly the trades that exit, in order. */
  lemma {:induction false} RowsAreExits(active: seq<Trade>, candidates: map<string, Candidate>, now: real)
    requires Sound(active)
    ensures Map(RowsOf(active, candidates, now), TradeOfRow()) == Filter(active, Exits(candidates, now))
  {
    if |active| > 0 {
      var init, last := active[..|active| - 1], active[|active| - 1];
      RowsAreExits(init, candidates, now);
      if Exits(candidates, now)(last) {
        var exit := ExitOf(last, PriceOf(candidates, last.symbol), now).value;
        MapConcat(RowsOf(init, candidates, now), [RowOf(last, exit.0, exit.1)]);
      }
    }
  }

  lemma {:induction false} FilterSplits(s: seq<Trade>, p: Trade -> bool, q: Trade -> bool)
    requires forall t :: p(t) <==> !q(t)
    ensures multiset(s) == multiset(Filter(s, p)) + multiset(Filter(s, q)) && |s| == |Filter(s, p)| + |Filter(s, q)|
  {
    if |s| > 0 {
      var init, last := s[..|s| - 1], s[|s| - 1];
      FilterSplits(init, p, q);
      assert s == init + [last];
      assert multiset(s) == multiset(init) + multiset{last};
      if p(last) {
        assert multiset(Filter(s, p)) == multiset(Filter(init, p)) + multiset{last} && Filter(s, q) == Filter(init, q);
      } else {
        assert multiset(Filter(s, q)) == multiset(Filter(init, q)) + multiset{last} && Filter(s, p) == Filter(init, p);
      }
    }
  }

  lemma SettledOrStaying(active: seq<Trade>, candidates: map<string, Candidate>, now: real)
    requires Sound(active)
    ensures var rows := RowsOf(active, candidates, now);
            && multiset(active) == multiset(Filter(active, Stays(candidates, now))) + multiset(Map(rows, TradeOfRow()))
            && |active| == |Filter(active, Stays(candidates, now))| + |rows|
  {
    RowsAreExits(active, candidates, now);
    FilterSplits(active, Stays(candidates, now), Exits(candidates, now));
  }

  lemma MapConcat(a: seq<Row>, b: seq<Row>)
    ensures Map(a + b, TradeOfRow()) == Map(a, TradeOfRow()) + Map(b, TradeOfRow())
  {}

  /** What has been opened is active, recorded or forgotten, exactly once. */
  ghost predicate Balanced(l: Ledger) {
    multiset(l.entered) == multiset(l.active) + multiset(Map(l.recorded, TradeOfRow())) + multiset(l.forgotten)
  }

  /** The same without loss. */
  ghost predicate Complete(l: Ledger) {
    multiset(l.entered) == multiset(l.active) + multiset(Map(l.recorded, TradeOfRow()))
  }

  lemma CheckBalances(l: Ledger, candidates: map<string, Candidate>, now: real, commit: Commit)
    requires Sound(l.active)
    ensures commit != CommitsUnreported && Balanced(l) ==> Balanced(Checked(l, candidates, now, commit))
    ensures |Checked(l, candidates, now, commit).active| + |Checked(l, candidates, now, commit).recorded| ==
            |l.active| + |l.recorded| + if commit.CommitsUnreported? then |RowsOf(l.active, candidates, now)| else 0
  {
    SettledOrStaying(l.active, candidates, now);
    MapConcat(l.recorded, RowsOf(l.active, candidates, now));
  }

  lemma {:induction false} RunBalances(run: seq<Event>)
    ensures var l := AfterRun(run);
            && |l.active| + |l.recorded| + |l.forgotten| == |l.entered| + Unreported(run)
            && (Unreported(run) == 0 ==> Balanced(l))
  {
    if |run| > 0 {
      var l, e := AfterRun(run[..|run| - 1]), run[|run| - 1];
      RunBalances(run[..|run| - 1]);
      if e.Check? {
        CheckBalances(l, e.candidates, e.now, e.commit);
        if e.commit.CommitsUnreported? && RowsOf(l.active, e.candidates, e.now) == [] {
          assert l.recorded + [] == l.recorded;
        }
      } else if e.Start? {
        StartBalances(l, e.symbol, e.plan, e.advised, e.now);
      }
    }
  }

  lemma StartBalances(l: Ledger, symbol: string, plan: Plan, advised: Option<Advisory>, now: real)
    ensures Balanced(l) ==> Balanced(Started(l, symbol, plan, advised, now))
    ensures |Started(l, symbol, plan, advised, now).active| - |l.active| ==
            |Started(l, symbol, plan, advised, now).entered| - |l.entered|
  {}

  /**
   Over every run, the trades opened are exactly the active, the recorded and the forgotten ones, with multiplicity, if
   and only if no write of settled rows took effect and was then reported as failed; and then the active and the recorded
   ones are all there ever were if and only if no restart found a trade active.
   */
  lemma TradesAreConserved(run: seq<Event>)
    ensures Balanced(AfterRun(run)) <==> Unreported(run) == 0
    ensures Unreported(run) == 0 ==> (Complete(AfterRun(run)) <==> AfterRun(run).forgotten == [])
  {
    RunBalances(run);
    var l := AfterRun(run);
    assert |multiset(l.entered)| == |l.entered| && |multiset(l.active)| == |l.active|;
    assert |multiset(Map(l.recorded, TradeOfRow()))| == |l.recorded| && |multiset(l.forgotten)| == |l.forgotten|;
  }

  // ---- Which trades are opened -------------------------------------------------------------------------

  /** The leverage advised as an `int` while advice is available, else four. */
  function TakenLeverage(advised: Option<Advisory>): int {
    match advised
    case None => 4
    case Some(a) =>
      if a.status != "AVAILABLE" then 4
      else
        match a.leverage
        case Some(Whole(n)) => n
        case _ => 4
  }

  /**
   A start opens a short exactly when its levels are those of a short and its symbol has none open; it is entered at the
   plan's entry for thirty dollars times the leverage.
   */
  lemma StartsExactly(l: Ledger, symbol: string, plan: Plan, advised: Option<Advisory>, now: real)
    ensures var after := Started(l, symbol, plan, advised, now);
            if (forall i :: 0 <= i < |l.active| ==> l.active[i].symbol != symbol)
               && 0.0 < plan.tp2 < plan.tp1 < plan.entry < plan.stop then
              var t := Trade(symbol, now, plan, TakenLeverage(advised), 30.0 * TakenLeverage(advised) as real / plan.entry);
              after == l.(active := l.active + [t], entered := l.entered + [t])
            else after == l
  {}

  // ---- Which trades leave, and how --------------------------------------------------------------------

  /** The last price if there is one, else the middle of bid and ask. */
  function Quoted(candidates: map<string, Candidate>, symbol: string): Option<real> {
    if symbol !in candidates then None
    else if candidates[symbol].last > 0.0 then Some(candidates[symbol].last)
    else if candidates[symbol].bid > 0.0 && candidates[symbol].ask > 0.0
      then Some((candidates[symbol].bid + candidates[symbol].ask) / 2.0)
    else None
  }

  /**
   A short leaves at its stop when the price is at the stop or above, at the second target when it is there or below, at
   the first when it is there or below but above the second, and after a day at the price in between -- or at its entry,
   where there is no price.
   */
  predicate Leaves(t: Trade, quoted: Option<real>, now: real, exit: real, outcome: Outcome) {
    match outcome
    case LossStop => quoted.Some? && quoted.value >= t.plan.stop && exit == t.plan.stop
    case WinTp2 => quoted.Some? && quoted.value <= t.plan.tp2 && exit == t.plan.tp2
    case WinTp1 => quoted.Some? && t.plan.tp2 < quoted.value <= t.plan.tp1 && exit == t.plan.tp1
    case Timeout =>
      && now - t.entryTime > 86_400.0
      && if quoted.None? then exit == t.plan.entry else t.plan.tp1 < quoted.value < t.plan.stop && exit == quoted.value
  }

  /** The move from the entry in percent, less the fees, times the leverage; and that share of thirty dollars. */
  predicate Yields(r: Row) {
    && r.trade.plan.entry > 0.0
    && r.netPct == ((r.trade.plan.entry - r.exit) / r.trade.plan.entry * 100.0 - 0.12) * r.trade.leverage as real
    && r.pnlUsd == 30.0 * (r.netPct / 100.0)
  }

  /** The row of a trade that leaves. */
  predicate Settles(r: Row, t: Trade, candidates: map<string, Candidate>, now: real) {
    r.trade == t && Leaves(t, Quoted(candidates, t.symbol), now, r.exit, r.outcome) && Yields(r)
  }

  lemma ExitMeans(t: Trade, candidates: map<string, Candidate>, now: real, exit: real, outcome: Outcome)
    requires ShortGeometry(t.plan)
    ensures ExitOf(t, PriceOf(candidates, t.symbol), now) == Some((exit, outcome)) <==>
            Leaves(t, Quoted(candidates, t.symbol), now, exit, outcome)
  {}

  lemma RowMeans(t: Trade, candidates: map<string, Candidate>, now: real, r: Row)
    requires ShortGeometry(t.plan)
    ensures Settles(r, t, candidates, now) <==>
            ExitOf(t, PriceOf(candidates, t.symbol), now) == Some((r.exit, r.outcome)) && r == RowOf(t, r.exit, r.outcome)
  {
    hide ExitOf, PriceOf, Leaves, Quoted;
    ExitMeans(t, candidates, now, r.exit, r.outcome);
  }

  /** A trade has at most one row, and has one exactly when it exits. */
  lemma TradeSettles(t: Trade, candidates: map<string, Candidate>, now: real)
    requires ShortGeometry(t.plan)
    ensures var exit := ExitOf(t, PriceOf(candidates, t.symbol), now);
            && (exit.None? ==> forall r :: !Settles(r, t, candidates, now))
            && (exit.Some? ==> forall r :: Settles(r, t, candidates, now) <==> r == RowOf(t, exit.value.0, exit.value.1))
  {
    hide ExitOf, PriceOf, Settles, NetPct;
    forall r ensures Settles(r, t, candidates, now) <==>
      ExitOf(t, PriceOf(candidates, t.symbol), now) == Some((r.exit, r.outcome)) && r == RowOf(t, r.exit, r.outcome)
    {
      RowMeans(t, candidates, now, r);
    }
  }

  lemma SettlesItsTrade(r: Row, t: Trade, candidates: map<string, Candidate>, now: real)
    requires Settles(r, t, candidates, now)
    ensures r.trade == t
  {}

  /** The rows are those of the trades that leave, one for each, in the order of the trades. */
  lemma {:induction false} RowsExactly(active: seq<Trade>, candidates: map<string, Candidate>, now: real)
    requires Sound(active)
    ensures forall r :: r in RowsOf(active, candidates, now) <==> exists t :: t in active && Settles(r, t, candidates, now)
    ensures OnePerSymbol(RowsOf(active, candidates, now))
  {
    hide ExitOf, PriceOf, Settles, RowOf;
    if |active| > 0 {
      var init, top := active[..|active| - 1], active[|active| - 1];
      assert active == init + [top];
      RowsExactly(init, candidates, now);
      TradeSettles(top, candidates, now);
      var before := RowsOf(init, candidates, now);
      forall r | r in before ensures r.trade.symbol != top.symbol {
        var t :| t in init && Settles(r, t, candidates, now);
        SettlesItsTrade(r, t, candidates, now);
        var k :| 0 <= k < |init| && init[k] == t;
        assert active[k].symbol != active[|active| - 1].symbol;
      }
      forall r ensures r in RowsOf(active, candidates, now) <==> r in before || Settles(r, top, candidates, now) {}
      if ExitOf(top, PriceOf(candidates, top.symbol), now).Some? {
        var exit := ExitOf(top, PriceOf(candidates, top.symbol), now).value;
        SettlesItsTrade(RowOf(top, exit.0, exit.1), top, candidates, now);
        forall i | 0 <= i < |before| ensures before[i].trade.symbol != top.symbol {
          assert before[i] in before;
        }
      }
    }
  }

  ghost predicate OnePerSymbol(rows: seq<Row>) {
    forall i, j :: 0 <= i < j < |rows| ==> rows[i].trade.symbol != rows[j].trade.symbol
  }

  /**
   A committed settlement takes exactly the trades that leave, each with its one row, and keeps the others as they are and
   in order.
   */
  lemma SettlesExactly(l: Ledger, candidates: map<string, Candidate>, now: real)
    requires Sound(l.active)
    ensures var after := Checked(l, candidates, now, Commits);
            && |after.recorded| >= |l.recorded| && after.recorded[..|l.recorded|] == l.recorded
            && after.entered == l.entered && after.forgotten == l.forgotten
            && after.active == Filter(l.active, Remains(candidates, now))
            && var rows := after.recorded[|l.recorded|..];
               && OnePerSymbol(rows)
               && forall r :: r in rows <==> exists t :: t in l.active && Settles(r, t, candidates, now)
  {
    hide Settles;
    RowsExactly(l.active, candidates, now);
    var rows := RowsOf(l.active, candidates, now);
    assert (l.recorded + rows)[|l.recorded|..] == rows;
    forall t | t in l.active ensures Stays(candidates, now)(t) <==> Remains(candidates, now)(t) {
      RemainsMeans(t, candidates, now);
    }
    FilterCongruent(l.active, Stays(candidates, now), Remains(candidates, now));
  }

  /** No price at a level, and not yet a day old. */
  function Remains(candidates: map<string, Candidate>, now: real): Trade -> bool {
    (t: Trade) =>
      var quoted := Quoted(candidates, t.symbol);
      now - t.entryTime <= 86_400.0 && (quoted.Some? ==> t.plan.tp1 < quoted.value < t.plan.stop)
  }

  lemma RemainsMeans(t: Trade, candidates: map<string, Candidate>, now: real)
    requires ShortGeometry(t.plan)
    ensures Stays(candidates, now)(t) <==> Remains(candidates, now)(t)
  {}

  // ---- What a recorded row says ---------------------------------------------------------------------

  /** A row is the settlement of a well-formed short at its stop, at a target, or at the price of its timeout. */
  ghost predicate Faithful(r: Row) {
    && ShortGeometry(r.trade.plan)
    && r.netPct == NetPct(r.trade, r.exit) && r.pnlUsd == POSITION_USD * (r.netPct / 100.0)
    && (r.outcome.LossStop? ==> r.exit == r.trade.plan.stop)
    && (r.outcome.WinTp1? ==> r.exit == r.trade.plan.tp1)
    && (r.outcome.WinTp2? ==> r.exit == r.trade.plan.tp2)
    && (r.outcome.Timeout? ==> r.trade.plan.tp1 < r.exit < r.trade.plan.stop)
  }

  lemma {:induction false} RowsFaithful(active: seq<Trade>, candidates: map<string, Candidate>, now: real)
    requires Sound(active)
    ensures forall i :: 0 <= i < |RowsOf(active, candidates, now)| ==> Faithful(RowsOf(active, candidates, now)[i])
  {
    if |active| > 0 { RowsFaithful(active[..|active| - 1], candidates, now); }
  }

  lemma {:induction false} RecordedFaithful(run: seq<Event>)
    ensures forall i :: 0 <= i < |AfterRun(run).recorded| ==> Faithful(AfterRun(run).recorded[i])
  {
    if |run| > 0 {
      var l, e := AfterRun(run[..|run| - 1]), run[|run| - 1];
      RecordedFaithful(run[..|run| - 1]);
      if e.Check? { RowsFaithful(l.active, e.candidates, e.now); }
    }
  }

  lemma GrossOrder(entry: real, near: real, far: real)
    requires entry > 0.0 && far < near
    ensures GrossPct(entry, far) > GrossPct(entry, near)
  {
    var a, b := (entry - far) / entry, (entry - near) / entry;
    assert a * entry == entry - far && b * entry == entry - near;
    if a <= b { assert a * entry <= b * entry; }
  }

  lemma SignOfProduct(x: real, k: int)
    ensures x < 0.0 ==> (x * k as real < 0.0 <==> k > 0)
  {}

  lemma StrictProduct(x: real, y: real, k: int)
    requires x > y
    ensures x * k as real > y * k as real <==> k > 0
  {
    var d := x - y;
    assert x * k as real == y * k as real + d * k as real;
    if k > 0 { assert d * k as real > 0.0; } else { assert d * k as real <= 0.0; }
  }

  /** Advice as decisions carry it: if available, 4 to 18. */
  predicate Contracted(advised: Option<Advisory>) {
    advised.Some? && advised.value.status == "AVAILABLE" ==>
      advised.value.leverage.Some? && MIN_LEVERAGE as real <= ValueOf(advised.value.leverage.value) <= MAX_LEVERAGE as real
  }

  ghost predicate Advised(run: seq<Event>) { forall k :: 0 <= k < |run| && run[k].Start? ==> Contracted(run[k].advised) }

  /** Every trade a ledger knows has the leverage `p` asks for. */
  ghost predicate Levered(l: Ledger, p: int -> bool) {
    && (forall i :: 0 <= i < |l.active| ==> p(l.active[i].leverage))
    && (forall i :: 0 <= i < |l.recorded| ==> p(l.recorded[i].trade.leverage))
    && forall i :: 0 <= i < |l.entered| ==> p(l.entered[i].leverage)
  }

  lemma {:induction false} RowsLevered(active: seq<Trade>, candidates: map<string, Candidate>, now: real, p: int -> bool)
    requires Sound(active) && forall i :: 0 <= i < |active| ==> p(active[i].leverage)
    ensures forall i :: 0 <= i < |RowsOf(active, candidates, now)| ==> p(RowsOf(active, candidates, now)[i].trade.leverage)
  {
    hide ExitOf, PriceOf, NetPct;
    if |active| > 0 { RowsLevered(active[..|active| - 1], candidates, now, p); }
  }

  lemma CheckLevered(l: Ledger, candidates: map<string, Candidate>, now: real, commit: Commit, p: int -> bool)
    requires Sound(l.active) && Levered(l, p)
    ensures Levered(Checked(l, candidates, now, commit), p)
  {
    RowsLevered(l.active, candidates, now, p);
    FilterSound(l.active, Stays(candidates, now));
    forall i | 0 <= i < |Filter(l.active, Stays(candidates, now))| ensures p(Filter(l.active, Stays(candidates, now))[i].leverage) {
      assert Filter(l.active, Stays(candidates, now))[i] in l.active;
    }
  }

  lemma {:induction false} RunLevered(run: seq<Event>, p: int -> bool)
    requires forall k :: 0 <= k < |run| && run[k].Start? ==> p(LeverageOf(run[k].advised))
    ensures Levered(AfterRun(run), p)
  {
    hide Checked, LeverageOf;
    if |run| > 0 {
      var l, e := AfterRun(run[..|run| - 1]), run[|run| - 1];
      RunLevered(run[..|run| - 1], p);
      if e.Check? { CheckLevered(l, e.candidates, e.now, e.commit, p); }
    }
  }

  function InPolicy(): int -> bool { k => MIN_LEVERAGE <= k <= MAX_LEVERAGE }

  function AtMinimum(): int -> bool { k => k == MIN_LEVERAGE }

  lemma ContractedLeverage(advised: Option<Advisory>)
    requires Contracted(advised)
    ensures InPolicy()(LeverageOf(advised))
  {}

  /** Every stop-out any run records is a net loss. */
  lemma StopOutsAreLosses(run: seq<Event>, i: nat)
    requires Advised(run) && i < |AfterRun(run).recorded| && AfterRun(run).recorded[i].outcome.LossStop?
    ensures AfterRun(run).recorded[i].netPct < 0.0 && AfterRun(run).recorded[i].pnlUsd < 0.0
  {
    hide Projected, LeverageOf, GrossPct, Contracted;
    forall k | 0 <= k < |run| && run[k].Start? ensures InPolicy()(LeverageOf(run[k].advised)) {
      ContractedLeverage(run[k].advised);
    }
    RunLevered(run, InPolicy());
    RecordedFaithful(run);
    var r := AfterRun(run).recorded[i];
    GrossOrder(r.trade.plan.entry, r.exit, r.trade.plan.entry);
    NoMove(r.trade.plan.entry);
    SignOfProduct(GrossPct(r.trade.plan.entry, r.exit) - ROUND_TRIP_FEE_PCT, r.trade.leverage);
  }

  lemma NoMove(entry: real)
    requires entry > 0.0
    ensures GrossPct(entry, entry) == 0.0
  {}

  /** For every trade any run opens, leaving at the second target pays strictly more than leaving at the first. */
  lemma SecondTargetPaysMore(run: seq<Event>, i: nat)
    requires Advised(run) && i < |AfterRun(run).entered|
    ensures var t := AfterRun(run).entered[i];
            && ShortGeometry(t.plan)
            && RowOf(t, t.plan.tp2, WinTp2).netPct > RowOf(t, t.plan.tp1, WinTp1).netPct
            && RowOf(t, t.plan.tp2, WinTp2).pnlUsd > RowOf(t, t.plan.tp1, WinTp1).pnlUsd
  {
    hide Projected, LeverageOf, GrossPct, Contracted;
    forall k | 0 <= k < |run| && run[k].Start? ensures InPolicy()(LeverageOf(run[k].advised)) {
      ContractedLeverage(run[k].advised);
    }
    RunLevered(run, InPolicy());
    EnteredAreShorts(run);
    var t := AfterRun(run).entered[i];
    GrossOrder(t.plan.entry, t.plan.tp1, t.plan.tp2);
    StrictProduct(GrossPct(t.plan.entry, t.plan.tp2) - ROUND_TRIP_FEE_PCT,
                  GrossPct(t.plan.entry, t.plan.tp1) - ROUND_TRIP_FEE_PCT, t.leverage);
  }

  lemma {:induction false} EnteredAreShorts(run: seq<Event>)
    ensures forall i :: 0 <= i < |AfterRun(run).entered| ==> ShortGeometry(AfterRun(run).entered[i].plan)
  {
    if |run| > 0 { EnteredAreShorts(run[..|run| - 1]); }
  }

  /**
   Decisions carry their leverage as a `float`, which the ledger does not take for a leverage: every trade of every run
   opens at the policy minimum, whatever was advised.
   */
  lemma ProjectedAdviceIsIgnored(run: seq<Event>)
    requires forall k :: 0 <= k < |run| && run[k].Start? ==> run[k].advised.None? || exists a :: run[k].advised == Projected(a)
    ensures Advised(run)
    ensures forall i :: 0 <= i < |AfterRun(run).entered| ==> AfterRun(run).entered[i].leverage == 4
    ensures Projected(Advisory("AVAILABLE", Some(Whole(7)))) == Some(Advisory("AVAILABLE", Some(Fraction(7.0))))
  {
    forall k | 0 <= k < |run| && run[k].Start? ensures Contracted(run[k].advised) && AtMinimum()(LeverageOf(run[k].advised)) {
      if run[k].advised.Some? {
        var a :| run[k].advised == Projected(a);
      }
    }
    RunLevered(run, AtMinimum());
  }

  // ---- A row written twice ---------------------------------------------------------------------------

  lemma OneMoreEvent(run: seq<Event>, e: Event)
    ensures AfterRun(run + [e]) == Next(AfterRun(run), e)
    ensures Unreported(run + [e]) == Unreported(run) +
            if e.Check? && e.commit.CommitsUnreported? then |RowsOf(AfterRun(run).active, e.candidates, e.now)| else 0
  {
    assert (run + [e])[..|run|] == run;
  }

  /** A write that took effect although it was reported as failed is made again by the next one that commits. */
  lemma UnreportedRowsAreRepeated(run: seq<Event>, candidates: map<string, Candidate>, now: real)
    ensures var rows := RowsOf(AfterRun(run).active, candidates, now);
            var again := run + [Check(candidates, now, CommitsUnreported)] + [Check(candidates, now, Commits)];
            AfterRun(again).recorded == AfterRun(run).recorded + rows + rows
  {
    OneMoreEvent(run, Check(candidates, now, CommitsUnreported));
    OneMoreEvent(run + [Check(candidates, now, CommitsUnreported)], Check(candidates, now, Commits));
  }

  const SHORT := Start("X", Plan(10.0, 11.0, 9.0, 8.0), None, 0.0)
  const STOPPED := map["X" := Candidate(11.0, 0.0, 0.0)]

  /** One trade, stopped out, its row written unreported: there is one row too many. */
  lemma UnreportedWriteUnbalances()
    ensures !Balanced(AfterRun([SHORT] + [Check(STOPPED, 1.0, CommitsUnreported)]))
    ensures |AfterRun([SHORT] + [Check(STOPPED, 1.0, CommitsUnreported)]).recorded| == 1
  {
    hide Balanced, Complete, Checked, AfterRun, Unreported, RowsOf;
    OneShort();
    var l := AfterRun([SHORT]);
    assert l.active == [l.active[0]];
    StoppedRow(l.active[0]);
    OneMoreEvent([SHORT], Check(STOPPED, 1.0, CommitsUnreported));
    UnreportedRows(l, STOPPED, 1.0);
    TradesAreConserved([SHORT] + [Check(STOPPED, 1.0, CommitsUnreported)]);
  }

  lemma UnreportedRows(l: Ledger, candidates: map<string, Candidate>, now: real)
    requires Sound(l.active)
    ensures Checked(l, candidates, now, CommitsUnreported).recorded == l.recorded + RowsOf(l.active, candidates, now)
  {}

  lemma OneShort()
    ensures var l := AfterRun([SHORT]);
            && |l.active| == 1 && l.active[0].symbol == "X" && l.active[0].plan == SHORT.plan
            && l.recorded == [] && Unreported([SHORT]) == 0
  {
    hide AfterRun, Unreported, Started;
    NothingYet();
    OneMoreEvent([], SHORT);
    assert [] + [SHORT] == [SHORT];
    FirstTrade("X", SHORT.plan, None, 0.0);
  }

  lemma NothingYet()
    ensures AfterRun([]) == EMPTY && Unreported([]) == 0
  {}

  lemma FirstTrade(symbol: string, plan: Plan, advised: Option<Advisory>, now: real)
    requires ShortGeometry(plan)
    ensures var l := Started(EMPTY, symbol, plan, advised, now);
            |l.active| == 1 && l.active[0].symbol == symbol && l.active[0].plan == plan && l.recorded == []
  {
    assert !Holds(EMPTY.active, symbol);
  }

  lemma StoppedRow(t: Trade)
    requires t.symbol == "X" && t.plan.stop == 11.0 && ShortGeometry(t.plan)
    ensures |RowsOf([t], STOPPED, 1.0)| == 1
  {
    assert [t][..0] == [];
    assert RowsOf([], STOPPED, 1.0) == [];
  }

  /** After a settlement that commits, nothing active is older than a day, and nothing active has reached a level. */
  lemma NothingOverdueStays(l: Ledger, candidates: map<string, Candidate>, now: real, i: nat)
    requires Sound(l.active) && i < |Checked(l, candidates, now, Commits).active|
    ensures var t := Checked(l, candidates, now, Commits).active[i];
            && t in l.active && now - t.entryTime <= TIMEOUT_SECONDS
            && (PriceOf(candidates, t.symbol) > 0.0 ==> t.plan.tp1 < PriceOf(candidates, t.symbol) < t.plan.stop)
  {
    FilterOrigin(l.active, Stays(candidates, now), i);
  }
}
