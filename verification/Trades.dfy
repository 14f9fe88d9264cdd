/** A settled historical signal as the reports carry it. */
module Trades {
  import opened Wrappers
  import opened Sequences

  const MS_PER_HOUR := 3_600_000

  function HoursMs(hours: int): int { hours * MS_PER_HOUR }

  datatype Basis = Realized | Modeled | Unrecognised

  /** `execution_costs`; a `None` number is a missing or non-finite field. */
  datatype Costs = Costs(
    complete: bool,
    fee: Option<real>,
    funding: Option<real>,
    slippage: Option<real>,
    httpsProvenance: bool,
    basis: Option<Basis>)

  datatype Trade = Trade(
    symbol: string,
    timestamp: int,
    exitTimestamp: Option<int>,
    realizedR: Option<real>,
    netRealizedR: Option<real>,
    executionCosts: Option<Costs>,
    evidence: Option<map<string, map<string, bool>>>,
    availableScore: Option<real>,
    poolEvent: bool)

  /** The key `(timestamp, symbol)` of both calibrators' replays. */
  predicate ReplayOrder(a: Trade, b: Trade) {
    a.timestamp < b.timestamp || (a.timestamp == b.timestamp && StringLe(a.symbol, b.symbol))
  }

  predicate TimeOrder(a: Trade, b: Trade) { a.timestamp <= b.timestamp }

  lemma ReplayOrderIsTotal()
    ensures TotalPreorder(ReplayOrder)
  {
    StringOrder();
    forall a, b ensures Comparable(ReplayOrder, a, b) {
      assert Comparable(StringLe, a.symbol, b.symbol);
    }
    forall a, b, c ensures Chain(ReplayOrder, a, b, c) {
      assert Chain(StringLe, a.symbol, b.symbol, c.symbol);
    }
  }

  lemma TimeOrderIsTotal()
    ensures TotalPreorder(TimeOrder)
  {
    forall a, b ensures Comparable(TimeOrder, a, b) {}
    forall a, b, c ensures Chain(TimeOrder, a, b, c) {}
  }

  /** Signals before `t`. */
  function Before(t: int): Trade -> bool { (x: Trade) => x.timestamp < t }

  /** Signals in `[lo, hi)`. */
  function Within(lo: int, hi: int): Trade -> bool { (x: Trade) => lo <= x.timestamp < hi }

  function From(t: int): Trade -> bool { (x: Trade) => x.timestamp >= t }

  function OfSymbol(symbol: string): Trade -> bool { (x: Trade) => x.symbol == symbol }

  ghost predicate OneSymbol(s: seq<Trade>, symbol: string) {
    forall i :: 0 <= i < |s| ==> s[i].symbol == symbol
  }
}
