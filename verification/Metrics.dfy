/**
 The performance packet of a list of settled trades: validation, chronological
 ordering, drawdowns, profit factor, and the key by which packets are ranked.
 */
module Metrics {
  import opened Wrappers
  import opened Sequences
  import opened Trades

  datatype ReturnField = RealizedField | NetField

  datatype Reason =
    MissingReturn | UnreconciledCosts | MissingBasis | InvalidTimestamps | MixedBases | NoTrades

  /** The tuple `(exit_timestamp, timestamp, symbol, value)` that is sorted. */
  datatype Row = Row(exit: int, entry: int, symbol: string, value: real)

  datatype Packet =
    | Unavailable(rejectedTrades: nat, reasons: set<Reason>)
    | Available(
        sampleSize: nat,
        expectancyR: real,
        grossProfitR: real,
        grossLossR: real,
        profitFactor: Option<real>,
        maxDrawdownR: real,
        maxDrawdownPct: real,
        endingEquityMultiple: real,
        costBasis: Option<Basis>)

  // ---- Validation of one trade --------------------------------------------

  function ReturnOf(t: Trade, field: ReturnField): Option<real> {
    if field.NetField? then t.netRealizedR else t.realizedR
  }

  function Abs(x: real): real { if x < 0.0 then -x else x }

  predicate CostsReconcile(t: Trade) {
    match t.executionCosts
    case None => false
    case Some(c) =>
      && c.complete
      && c.fee.Some? && c.funding.Some? && c.slippage.Some?
      && c.fee.value >= 0.0 && c.slippage.value >= 0.0
      && c.httpsProvenance
      && t.realizedR.Some? && t.netRealizedR.Some?
      && Abs(t.netRealizedR.value - (t.realizedR.value - c.fee.value - c.slippage.value + c.funding.value)) <= 0.000000001
  }

  function BasisOf(t: Trade): Basis {
    match t.executionCosts
    case Some(c) => c.basis.GetOr(Realized)
    case None => Unrecognised
  }

  function ExitOf(t: Trade): int { t.exitTimestamp.GetOr(t.timestamp) }

  /** The first check that `t` fails, in the order of the checks. */
  function Defect(t: Trade, field: ReturnField): Option<Reason> {
    if ReturnOf(t, field).None? then Some(MissingReturn)
    else if field.NetField? && !CostsReconcile(t) then Some(UnreconciledCosts)
    else if field.NetField? && BasisOf(t).Unrecognised? then Some(MissingBasis)
    else if ExitOf(t) < t.timestamp then Some(InvalidTimestamps)
    else None
  }

  /** Whether validation got far enough to note the trade's cost basis. */
  predicate NotesBasis(t: Trade, field: ReturnField) {
    && field.NetField?
    && (Defect(t, field).None? || Defect(t, field) == Some(InvalidTimestamps))
  }

  function Valid(field: ReturnField): Trade -> bool { (t: Trade) => Defect(t, field).None? }

  function RowOf(field: ReturnField): Trade -> Row {
    (t: Trade) => Row(ExitOf(t), t.timestamp, t.symbol, ReturnOf(t, field).GetOr(0.0))
  }

  function Rows(trades: seq<Trade>, field: ReturnField): seq<Row> {
    Map(Filter(trades, Valid(field)), RowOf(field))
  }

  function Reasons(trades: seq<Trade>, field: ReturnField): set<Reason> {
    set t | t in trades && Defect(t, field).Some? :: Defect(t, field).value
  }

  function Bases(trades: seq<Trade>, field: ReturnField): set<Basis> {
    set t | t in trades && NotesBasis(t, field) :: BasisOf(t)
  }

  // ---- Order --------------------------------------------------------------

  predicate RowOrder(a: Row, b: Row) {
    a.exit < b.exit || (a.exit == b.exit &&
      (a.entry < b.entry || (a.entry == b.entry &&
        (if a.symbol == b.symbol then a.value <= b.value else StringLe(a.symbol, b.symbol)))))
  }

  lemma RowOrderIsTotal()
    ensures TotalPreorder(RowOrder) && Antisymmetric(RowOrder)
  {
    StringOrder();
    forall a, b ensures Comparable(RowOrder, a, b) && Tie(RowOrder, a, b) {
      assert Comparable(StringLe, a.symbol, b.symbol) && Tie(StringLe, a.symbol, b.symbol);
    }
    forall a, b, c ensures Chain(RowOrder, a, b, c) {
      assert Chain(StringLe, a.symbol, b.symbol, c.symbol);
      assert Tie(StringLe, a.symbol, b.symbol);
    }
  }

  // ---- Aggregates over the ordered values ---------------------------------

  function MaxReal(a: real, b: real): real { if a < b then b else a }

  function Sum(v: seq<real>): real {
    if |v| == 0 then 0.0 else Sum(v[..|v| - 1]) + v[|v| - 1]
  }

  function Gains(v: seq<real>): real {
    if |v| == 0 then 0.0 else Gains(v[..|v| - 1]) + (if v[|v| - 1] > 0.0 then v[|v| - 1] else 0.0)
  }

  function Losses(v: seq<real>): real {
    if |v| == 0 then 0.0 else Losses(v[..|v| - 1]) + (if v[|v| - 1] < 0.0 then -v[|v| - 1] else 0.0)
  }

  function PeakR(v: seq<real>): real {
    if |v| == 0 then 0.0 else MaxReal(PeakR(v[..|v| - 1]), Sum(v))
  }

  function DrawdownR(v: seq<real>): real {
    if |v| == 0 then 0.0 else MaxReal(DrawdownR(v[..|v| - 1]), PeakR(v) - Sum(v))
  }

  function Equity(v: seq<real>, f: real): real {
    if |v| == 0 then 1.0 else Compound(Equity(v[..|v| - 1], f), v[|v| - 1], f)
  }

  /** Equity after risking the fraction `f` on a trade returning `value`; never below zero. */
  function Compound(equity: real, value: real, f: real): real { equity * MaxReal(0.0, 1.0 + value * f) }

  function PeakEquity(v: seq<real>, f: real): real {
    if |v| == 0 then 1.0 else MaxReal(PeakEquity(v[..|v| - 1], f), Equity(v, f))
  }

  function DrawdownFraction(v: seq<real>, f: real): real {
    if |v| == 0 then 0.0
    else
      WorseFall(DrawdownFraction(v[..|v| - 1], f), PeakEquity(v, f), Equity(v, f))
  }

  function WorseFall(before: real, peak: real, equity: real): real {
    if peak > 0.0 then MaxReal(before, (peak - equity) / peak) else before
  }

  /** Round half to even at `scale` units per one, as `round(x, n)` with `scale == 10^n`. */
  function Round(x: real, scale: real): real
    requires scale > 0.0
  {
    var low := (x * scale).Floor;
    var rest := x * scale - low as real;
    var nearest := if rest < 0.5 then low else if rest > 0.5 then low + 1 else if low % 2 == 0 then low else low + 1;
    nearest as real / scale
  }

  function Round6(x: real): real { Round(x, 1000000.0) }

  /** The published packet; every figure is rounded on the way out. */
  function Publish(n: nat, total: real, gains: real, losses: real, drawdownR: real, drawdownFraction: real,
                   equity: real, basis: Option<Basis>): Packet
    requires n > 0
  {
    Available(
      n,
      Round6(total / n as real),
      Round6(gains),
      Round6(losses),
      if losses > 0.0 then Some(Round6(gains / losses)) else None,
      Round6(drawdownR),
      Round6(drawdownFraction * 100.0),
      Round(equity, 100000000.0),
      basis)
  }

  function Summarise(v: seq<real>, f: real, basis: Option<Basis>): Packet
    requires |v| > 0
  {
    Publish(|v|, Sum(v), Gains(v), Losses(v), DrawdownR(v), DrawdownFraction(v, f), Equity(v, f), basis)
  }

  function ValueOf(): Row -> real { (r: Row) => r.value }

  function TheBasis(bases: set<Basis>, field: ReturnField): Option<Basis> {
    if field.RealizedField? then None else Some(if Realized in bases then Realized else Modeled)
  }

  const RISK_FRACTION := 0.01

  /** Any non-empty list of rows, scored in the order of their exits. */
  function Scored(rows: seq<Row>, f: real, basis: Option<Basis>): Packet
    requires |rows| > 0
  {
    Summarise(Map(StableSort(rows, RowOrder), ValueOf()), f, basis)
  }

  function AllReasons(reasons: set<Reason>, bases: set<Basis>): set<Reason> {
    reasons + (if |bases| > 1 then {MixedBases} else {})
  }

  /** The packet for `n` trades of which `rows` are usable. */
  function Packaged(n: nat, rows: seq<Row>, reasons: set<Reason>, basis: Option<Basis>, f: real): Packet {
    if reasons != {} || |rows| != n || n == 0 then
      Unavailable(if n >= |rows| then n - |rows| else 0, reasons + (if n == 0 then {NoTrades} else {}))
    else
      Scored(rows, f, basis)
  }

  function Performance(trades: seq<Trade>, field: ReturnField, f: real): Packet {
    Packaged(|trades|, Rows(trades, field), AllReasons(Reasons(trades, field), Bases(trades, field)),
             TheBasis(Bases(trades, field), field), f)
  }

  /** The packet every selector uses. */
  function NetPerformance(trades: seq<Trade>): Packet {
    Performance(trades, NetField, RISK_FRACTION)
  }

  // ---- The one-pass computation -------------------------------------------

  method Validate(trades: seq<Trade>, field: ReturnField)
    returns (reasons: set<Reason>, ordered: seq<Row>, costBases: set<Basis>)
    ensures reasons == Reasons(trades, field)
    ensures ordered == Rows(trades, field) && |ordered| <= |trades|
    ensures costBases == Bases(trades, field)
  {
    reasons, ordered, costBases := {}, [], {};
    for i := 0 to |trades|
      invariant reasons == Reasons(trades[..i], field)
      invariant costBases == Bases(trades[..i], field)
      invariant ordered == Rows(trades[..i], field)
      invariant |ordered| <= i
    {
      var trade := trades[i];
      ValidationStep(trades, i, field);
      var value := ReturnOf(trade, field);
      if value.None? {
        reasons := reasons + {MissingReturn};
        continue;
      }
      if field.NetField? && !CostsReconcile(trade) {
        reasons := reasons + {UnreconciledCosts};
        continue;
      }
      if field.NetField? {
        var basis := BasisOf(trade);
        if basis.Unrecognised? {
          reasons := reasons + {MissingBasis};
          continue;
        }
        costBases := costBases + {basis};
      }
      if ExitOf(trade) < trade.timestamp {
        reasons := reasons + {InvalidTimestamps};
        continue;
      }
      ordered := ordered + [Row(ExitOf(trade), trade.timestamp, trade.symbol, value.value)];
    }
    assert trades[..|trades|] == trades;
  }

  method PerformanceMetrics(trades: seq<Trade>, field: ReturnField, riskFraction: real)
    returns (packet: Result<Packet, string>)
    ensures packet.Err? <==> !(0.0 < riskFraction <= 1.0)
    ensures packet.Ok? ==> packet.value == Performance(trades, field, riskFraction)
  {
    if !(0.0 < riskFraction <= 1.0) {
      return Err("risk_fraction must be within (0, 1]");
    }
    var reasons, ordered, costBases := Validate(trades, field);
    if |costBases| > 1 {
      reasons := reasons + {MixedBases};
    }
    var summary := Package(|trades|, ordered, reasons, TheBasis(costBases, field), riskFraction);
    return Ok(summary);
  }

  method Package(n: nat, ordered: seq<Row>, defects: set<Reason>, basis: Option<Basis>, f: real) returns (packet: Packet)
    requires |ordered| <= n
    ensures packet == Packaged(n, ordered, defects, basis, f)
  {
    var reasons := defects;
    if reasons != {} || |ordered| != n || |ordered| == 0 {
      if n == 0 {
        reasons := reasons + {NoTrades};
      }
      return Unavailable(n - |ordered|, reasons);
    }
    packet := ScoreRows(ordered, f, basis);
  }

  method ScoreRows(rows: seq<Row>, f: real, basis: Option<Basis>) returns (packet: Packet)
    requires |rows| > 0
    ensures packet == Scored(rows, f, basis)
  {
    RowOrderIsTotal();
    StableSortSorts(rows, RowOrder);
    assert |multiset(StableSort(rows, RowOrder))| == |multiset(rows)|;
    var ordered := StableSort(rows, RowOrder);
    packet := Accumulate(Map(ordered, ValueOf()), f, basis);
  }

  method Accumulate(values: seq<real>, f: real, basis: Option<Basis>) returns (packet: Packet)
    requires |values| > 0
    ensures packet == Summarise(values, f, basis)
  {
    var equity, peakEquity, maxDrawdownFraction := 1.0, 1.0, 0.0;
    var cumulativeR, peakR, maxDrawdownR := 0.0, 0.0, 0.0;
    var grossProfit, grossLoss := 0.0, 0.0;
    for i := 0 to |values|
      invariant equity == Equity(values[..i], f) && peakEquity == PeakEquity(values[..i], f)
      invariant maxDrawdownFraction == DrawdownFraction(values[..i], f)
      invariant cumulativeR == Sum(values[..i]) && peakR == PeakR(values[..i])
      invariant maxDrawdownR == DrawdownR(values[..i])
      invariant grossProfit == Gains(values[..i]) && grossLoss == Losses(values[..i])
    {
      var value := values[i];
      AccumulationStep(values, i);
      CompoundingStep(values, i, f);
      if value > 0.0 { grossProfit := grossProfit + value; }
      if value < 0.0 { grossLoss := grossLoss + -value; }
      equity := Compound(equity, value, f);
      peakEquity := MaxReal(peakEquity, equity);
      maxDrawdownFraction := WorseFall(maxDrawdownFraction, peakEquity, equity);
      cumulativeR := cumulativeR + value;
      peakR := MaxReal(peakR, cumulativeR);
      maxDrawdownR := MaxReal(maxDrawdownR, peakR - cumulativeR);
    }
    assert values[..|values|] == values;
    packet := Publish(|values|, cumulativeR, grossProfit, grossLoss, maxDrawdownR, maxDrawdownFraction, equity, basis);
  }

  lemma AccumulationStep(v: seq<real>, i: nat)
    requires i < |v|
    ensures var (a, b, x) := (v[..i], v[..i + 1], v[i]);
            && Sum(b) == Sum(a) + x
            && Gains(b) == (if x > 0.0 then Gains(a) + x else Gains(a))
            && Losses(b) == (if x < 0.0 then Losses(a) + -x else Losses(a))
            && PeakR(b) == MaxReal(PeakR(a), Sum(b))
            && DrawdownR(b) == MaxReal(DrawdownR(a), PeakR(b) - Sum(b))
  {
    assert v[..i + 1][..i] == v[..i];
  }

  lemma CompoundingStep(v: seq<real>, i: nat, f: real)
    requires i < |v|
    ensures var (a, b, x) := (v[..i], v[..i + 1], v[i]);
            && Equity(b, f) == Compound(Equity(a, f), x, f)
            && PeakEquity(b, f) == MaxReal(PeakEquity(a, f), Equity(b, f))
            && DrawdownFraction(b, f) == WorseFall(DrawdownFraction(a, f), PeakEquity(b, f), Equity(b, f))
  {
    assert v[..i + 1][..i] == v[..i];
    assert v[..i + 1][i] == v[i];
  }

  lemma ValidationStep(trades: seq<Trade>, i: nat, field: ReturnField)
    requires i < |trades|
    ensures var (t, d) := (trades[i], Defect(trades[i], field));
            && Reasons(trades[..i + 1], field) == Reasons(trades[..i], field) + (if d.Some? then {d.value} else {})
            && Bases(trades[..i + 1], field) == Bases(trades[..i], field) + (if NotesBasis(t, field) then {BasisOf(t)} else {})
            && Rows(trades[..i + 1], field) == Rows(trades[..i], field) + (if d.None? then [RowOf(field)(t)] else [])
  {
    hide Defect, NotesBasis;
    assert trades[..i + 1] == trades[..i] + [trades[i]];
    FilterAppend(trades[..i], trades[i], Valid(field));
    if Defect(trades[i], field).None? {
      var f := Filter(trades[..i], Valid(field));
      assert Map(f + [trades[i]], RowOf(field)) == Map(f, RowOf(field)) + [RowOf(field)(trades[i])];
    }
  }

  // ---- Ranking ------------------------------------------------------------

  /** `Last` stands for the tuple starting with 1, which sorts after every ranked one. */
  datatype SelectionKey = Ranked(components: seq<real>) | Last

  predicate KeyLe(a: SelectionKey, b: SelectionKey) {
    match (a, b)
    case (_, Last) => true
    case (Last, _) => false
    case (Ranked(x), Ranked(y)) => RealsLe(x, y)
  }

  function KeyOf(packet: Packet, folds: int, positive: int, complexity: real): SelectionKey {
    if !packet.Available? || folds <= 0 || !(0 <= positive <= folds) then Last
    else Ranked([
      -(positive as real),
      -(positive as real / folds as real),
      packet.maxDrawdownPct,
      if packet.profitFactor.Some? then -packet.profitFactor.value else 0.0,
      -packet.expectancyR,
      -(packet.sampleSize as real),
      complexity])
  }

  lemma KeyOrder()
    ensures TotalPreorder(KeyLe) && Antisymmetric(KeyLe)
  {
    RealsOrder();
    forall a, b ensures Comparable(KeyLe, a, b) && Tie(KeyLe, a, b) {
      if a.Ranked? && b.Ranked? {
        assert Comparable(RealsLe, a.components, b.components) && Tie(RealsLe, a.components, b.components);
      }
    }
    forall a, b, c ensures Chain(KeyLe, a, b, c) {
      if a.Ranked? && b.Ranked? && c.Ranked? {
        assert Chain(RealsLe, a.components, b.components, c.components);
      }
    }
  }
}
