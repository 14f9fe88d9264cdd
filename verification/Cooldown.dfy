/**
 The cooldown replay both calibrators run over a candidate pool: trades are taken
 in `(timestamp, symbol)` order and a trade is skipped while its symbol cools down.
 */
module Cooldown {
  import opened Sequences
  import opened Trades

  /** `max(float(cooldown_hours or 0.0), 0.0) * 3_600_000`. */
  function CooldownMs(hours: real): (ms: real)
    ensures ms >= 0.0
  {
    (if hours > 0.0 then hours else 0.0) * MS_PER_HOUR as real
  }

  /** The instant at which `symbol` may trade again after the trades in `kept`. */
  function Until(kept: seq<Trade>, symbol: string, cooldown: real): real {
    if |kept| == 0 then 0.0
    else if kept[|kept| - 1].symbol == symbol then kept[|kept| - 1].timestamp as real + cooldown
    else Until(kept[..|kept| - 1], symbol, cooldown)
  }

  predicate Admits(kept: seq<Trade>, trade: Trade, cooldown: real) {
    trade.timestamp as real >= Until(kept, trade.symbol, cooldown)
  }

  /** The trades of an already ordered list that survive the cooldown. */
  function Replay(ordered: seq<Trade>, cooldown: real): seq<Trade> {
    if |ordered| == 0 then []
    else
      var kept := Replay(ordered[..|ordered| - 1], cooldown);
      var trade := ordered[|ordered| - 1];
      if Admits(kept, trade, cooldown) then kept + [trade] else kept
  }

  function Replayed(trades: seq<Trade>, cooldown: real): seq<Trade> {
    Replay(StableSort(trades, ReplayOrder), cooldown)
  }

  lemma UntilNothing(cooldown: real)
    ensures forall s: string :: Until([], s, cooldown) == 0.0
  {}

  lemma UntilAppend(kept: seq<Trade>, trade: Trade, cooldown: real)
    ensures forall s: string :: Until(kept + [trade], s, cooldown) ==
              if s == trade.symbol then trade.timestamp as real + cooldown else Until(kept, s, cooldown)
  {
    assert (kept + [trade])[..|kept|] == kept;
  }

  method ReplayCooldown(selected: seq<Trade>, cooldown: real) returns (replayed: seq<Trade>)
    ensures replayed == Replayed(selected, cooldown)
  {
    hide Until, StableSort;
    replayed := [];
    var cooldownUntil: map<string, real> := map[];
    UntilNothing(cooldown);
    var ordered := StableSort(selected, ReplayOrder);
    for i := 0 to |ordered|
      invariant replayed == Replay(ordered[..i], cooldown)
      invariant forall s: string :: Until(replayed, s, cooldown) == if s in cooldownUntil then cooldownUntil[s] else 0.0
    {
      var trade := ordered[i];
      assert ordered[..i + 1][..i] == ordered[..i];
      var until := if trade.symbol in cooldownUntil then cooldownUntil[trade.symbol] else 0.0;
      assert until == Until(replayed, trade.symbol, cooldown);
      if trade.timestamp as real < until {
        continue;
      }
      UntilAppend(replayed, trade, cooldown);
      replayed := replayed + [trade];
      cooldownUntil := cooldownUntil[trade.symbol := trade.timestamp as real + cooldown];
    }
    assert ordered[..|ordered|] == ordered;
  }

  lemma ReplayAppend(s: seq<Trade>, t: Trade, cooldown: real)
    ensures Replay(s + [t], cooldown) ==
            if Admits(Replay(s, cooldown), t, cooldown) then Replay(s, cooldown) + [t] else Replay(s, cooldown)
  {
    assert (s + [t])[..|s|] == s;
  }

  lemma {:induction false} ReplayMember(s: seq<Trade>, cooldown: real)
    ensures forall t {:trigger t in Replay(s, cooldown)} :: t in Replay(s, cooldown) ==> t in s
  {
    if |s| > 0 {
      ReplayMember(s[..|s| - 1], cooldown);
      assert s == s[..|s| - 1] + [s[|s| - 1]];
    }
  }

  // ---- What happens before an instant does not depend on what follows ------

  /** The replay of the trades before `t` is the part of the whole replay before `t`. */
  lemma {:induction false} ReplayBefore(s: seq<Trade>, cooldown: real, t: int)
    requires Sorted(s, TimeOrder)
    ensures Filter(Replay(s, cooldown), Before(t)) == Replay(Filter(s, Before(t)), cooldown)
  {
    if |s| > 0 {
      var init, last := s[..|s| - 1], s[|s| - 1];
      ReplayBefore(init, cooldown, t);
      if last.timestamp < t {
        forall x | x in s ensures Before(t)(x) {
          var k :| 0 <= k < |s| && s[k] == x;
          assert k < |s| - 1 ==> TimeOrder(s[k], s[|s| - 1]);
        }
        FilterAll(s, Before(t));
        ReplayMember(s, cooldown);
        FilterAll(Replay(s, cooldown), Before(t));
      } else {
        FilterAppend(Replay(init, cooldown), last, Before(t));
      }
    }
  }

  lemma ReplayOrderRefinesTime(s: seq<Trade>)
    requires Sorted(s, ReplayOrder)
    ensures Sorted(s, TimeOrder)
  {}

  /** Two pools that agree before `t` are replayed alike before `t`. */
  lemma ReplayedAgree(a: seq<Trade>, b: seq<Trade>, cooldown: real, t: int)
    requires Filter(a, Before(t)) == Filter(b, Before(t))
    ensures Filter(Replayed(a, cooldown), Before(t)) == Filter(Replayed(b, cooldown), Before(t))
  {
    ReplayedBefore(a, cooldown, t);
    ReplayedBefore(b, cooldown, t);
  }

  lemma ReplayedBefore(a: seq<Trade>, cooldown: real, t: int)
    ensures Filter(Replayed(a, cooldown), Before(t)) == Replayed(Filter(a, Before(t)), cooldown)
  {
    ReplayOrderIsTotal();
    StableSortSorts(a, ReplayOrder);
    ReplayOrderRefinesTime(StableSort(a, ReplayOrder));
    ReplayBefore(StableSort(a, ReplayOrder), cooldown, t);
    SortFilter(a, Before(t), ReplayOrder);
  }

  // ---- Symbols are replayed independently ----------------------------------

  lemma {:induction false} UntilOfSymbol(kept: seq<Trade>, symbol: string, cooldown: real)
    ensures Until(Filter(kept, OfSymbol(symbol)), symbol, cooldown) == Until(kept, symbol, cooldown)
  {
    if |kept| > 0 {
      var init, last := kept[..|kept| - 1], kept[|kept| - 1];
      UntilOfSymbol(init, symbol, cooldown);
      if last.symbol == symbol {
        var f := Filter(init, OfSymbol(symbol));
        assert (f + [last])[|f + [last]| - 1] == last;
      }
    }
  }

  lemma {:induction false} ReplayOfSymbol(s: seq<Trade>, cooldown: real, symbol: string)
    ensures Filter(Replay(s, cooldown), OfSymbol(symbol)) == Replay(Filter(s, OfSymbol(symbol)), cooldown)
  {
    if |s| > 0 {
      var init, last := s[..|s| - 1], s[|s| - 1];
      ReplayOfSymbol(init, cooldown, symbol);
      var kept := Replay(init, cooldown);
      FilterAppend(kept, last, OfSymbol(symbol));
      if last.symbol == symbol {
        UntilOfSymbol(kept, symbol, cooldown);
        ReplayAppend(Filter(init, OfSymbol(symbol)), last, cooldown);
      }
    }
  }

  // ---- What the greedy replay keeps ----------------------------------------

  /** Same-symbol members are at least the cooldown apart. */
  ghost predicate Spaced(s: seq<Trade>, cooldown: real) {
    forall i, j :: 0 <= i < j < |s| && s[i].symbol == s[j].symbol ==>
      s[i].timestamp as real + cooldown <= s[j].timestamp as real
  }

  lemma {:induction false} ReplaySpaced(s: seq<Trade>, cooldown: real)
    requires Sorted(s, TimeOrder) && cooldown >= 0.0
    ensures Spaced(Replay(s, cooldown), cooldown)
    ensures forall i :: 0 <= i < |Replay(s, cooldown)| ==> Replay(s, cooldown)[i].timestamp >= 0
  {
    if |s| > 0 {
      var init, last := s[..|s| - 1], s[|s| - 1];
      ReplaySpaced(init, cooldown);
      UntilMeaning(Replay(init, cooldown), last.symbol, cooldown);
    }
  }

  /** `Until` is zero for a symbol never kept, else the last release over all kept trades. */
  lemma {:induction false} UntilMeaning(kept: seq<Trade>, symbol: string, cooldown: real)
    requires Spaced(kept, cooldown) && cooldown >= 0.0
    ensures forall i :: 0 <= i < |kept| && kept[i].symbol == symbol ==>
              kept[i].timestamp as real + cooldown <= Until(kept, symbol, cooldown)
    ensures Until(kept, symbol, cooldown) == 0.0 ||
            exists i :: 0 <= i < |kept| && kept[i].symbol == symbol &&
              Until(kept, symbol, cooldown) == kept[i].timestamp as real + cooldown
    ensures (forall i :: 0 <= i < |kept| ==> kept[i].timestamp >= 0) ==> Until(kept, symbol, cooldown) >= 0.0
  {
    if |kept| > 0 {
      var init, last := kept[..|kept| - 1], kept[|kept| - 1];
      if last.symbol == symbol {
        assert kept[|kept| - 1].symbol == symbol;
      } else {
        UntilMeaning(init, symbol, cooldown);
      }
    }
  }

  /**
   A trade is kept exactly when it does not predate the epoch and no earlier kept
   trade of its symbol is still cooling down. The first condition is a fact of the
   code: `cooldown_until.get(symbol, 0)` refuses negative timestamps.
   */
  lemma KeptExactly(s: seq<Trade>, k: nat, cooldown: real)
    requires k < |s| && Sorted(s, TimeOrder) && cooldown >= 0.0
    ensures var kept := Replay(s[..k], cooldown);
            Replay(s[..k + 1], cooldown) == (if Admits(kept, s[k], cooldown) then kept + [s[k]] else kept) &&
            (Admits(kept, s[k], cooldown) <==>
              s[k].timestamp >= 0 &&
              forall i :: 0 <= i < |kept| && kept[i].symbol == s[k].symbol ==>
                kept[i].timestamp as real + cooldown <= s[k].timestamp as real)
  {
    var kept := Replay(s[..k], cooldown);
    assert s[..k + 1] == s[..k] + [s[k]];
    ReplayAppend(s[..k], s[k], cooldown);
    ReplaySpaced(s[..k], cooldown);
    UntilMeaning(kept, s[k].symbol, cooldown);
  }

  /** No pool keeps a trade from before the epoch, and a pool of one trade keeps it exactly when it is from the epoch on. */
  lemma NothingBeforeTheEpoch(trades: seq<Trade>, cooldown: real, lone: Trade)
    requires cooldown >= 0.0
    ensures forall t :: t in Replayed(trades, cooldown) ==> t.timestamp >= 0
    ensures Replayed([lone], cooldown) == if lone.timestamp >= 0 then [lone] else []
  {
    ReplayOrderIsTotal();
    StableSortSorts(trades, ReplayOrder);
    ReplayOrderRefinesTime(StableSort(trades, ReplayOrder));
    ReplaySpaced(StableSort(trades, ReplayOrder), cooldown);
    SortOfSorted([lone], ReplayOrder);
    assert [lone] == [] + [lone];
    ReplayAppend([], lone, cooldown);
  }

  /** Whatever the order of the pool, trades are replayed by time, and by symbol at one time. */
  lemma ReplayedInOrder(trades: seq<Trade>, cooldown: real)
    ensures exists ordered: seq<Trade> ::
              && multiset(ordered) == multiset(trades) && Replayed(trades, cooldown) == Replay(ordered, cooldown)
              && forall i, j :: 0 <= i < j < |ordered| ==>
                   && ordered[i].timestamp <= ordered[j].timestamp
                   && (ordered[i].timestamp == ordered[j].timestamp ==> StringLe(ordered[i].symbol, ordered[j].symbol))
  {
    ReplayOrderIsTotal();
    StableSortSorts(trades, ReplayOrder);
    var ordered := StableSort(trades, ReplayOrder);
    assert forall i, j :: 0 <= i < j < |ordered| ==> ReplayOrder(ordered[i], ordered[j]);
  }

  /** `picked` names positions of `s`, in order, that are spaced by the cooldown and not before the epoch. */
  ghost predicate Selection(s: seq<Trade>, picked: seq<nat>, cooldown: real) {
    && (forall i :: 0 <= i < |picked| ==> picked[i] < |s| && s[picked[i]].timestamp >= 0)
    && (forall i, j :: 0 <= i < j < |picked| ==>
          picked[i] < picked[j] &&
          s[picked[i]].timestamp as real + cooldown <= s[picked[j]].timestamp as real)
  }

  /** The replay is never behind a selection, and when level it is free no later. */
  ghost predicate Ahead(s: seq<Trade>, picked: seq<nat>, kept: seq<Trade>) {
    && |picked| <= |kept|
    && (|picked| == |kept| > 0 && picked[|picked| - 1] < |s| ==>
          kept[|kept| - 1].timestamp <= s[picked[|picked| - 1]].timestamp)
  }

  lemma {:induction false} LastKept(s: seq<Trade>, symbol: string, cooldown: real)
    requires Sorted(s, TimeOrder) && OneSymbol(s, symbol) && cooldown >= 0.0
    ensures var kept := Replay(s, cooldown);
            |kept| > 0 ==>
              && kept[|kept| - 1].symbol == symbol
              && kept[|kept| - 1].timestamp <= s[|s| - 1].timestamp
  {
    var kept := Replay(s, cooldown);
    if |kept| > 0 {
      ReplayMember(s, cooldown);
      var top := kept[|kept| - 1];
      assert top in kept && top in s;
      var k :| 0 <= k < |s| && s[k] == top;
      assert k < |s| - 1 ==> TimeOrder(s[k], s[|s| - 1]);
    }
  }

  lemma NothingIsAhead(s: seq<Trade>, picked: seq<nat>, cooldown: real)
    requires |picked| == 0
    ensures Ahead(s, picked, Replay(s, cooldown))
  {}

  lemma SelectionInside(s: seq<Trade>, picked: seq<nat>, cooldown: real)
    requires Selection(s, picked, cooldown) && |picked| > 0
    ensures 0 <= picked[|picked| - 1] < |s|
  {}

  lemma InitOfOneSymbol(s: seq<Trade>, symbol: string)
    requires Sorted(s, TimeOrder) && OneSymbol(s, symbol) && |s| > 0
    ensures Sorted(s[..|s| - 1], TimeOrder) && OneSymbol(s[..|s| - 1], symbol)
    ensures forall t :: t in s[..|s| - 1] ==> t.timestamp <= s[|s| - 1].timestamp
    ensures s[|s| - 1].symbol == symbol
  {
    forall t | t in s[..|s| - 1] ensures t.timestamp <= s[|s| - 1].timestamp {
      var i :| 0 <= i < |s| - 1 && s[i] == t;
      assert TimeOrder(s[i], s[|s| - 1]);
    }
  }

  lemma {:induction false} GreedyStaysAhead(s: seq<Trade>, symbol: string, picked: seq<nat>, cooldown: real)
    requires Sorted(s, TimeOrder) && OneSymbol(s, symbol) && cooldown >= 0.0
    requires Selection(s, picked, cooldown)
    ensures Ahead(s, picked, Replay(s, cooldown))
  {
    hide Admits, Until, Ahead, Selection, OneSymbol, Sorted;
    if |picked| == 0 {
      NothingIsAhead(s, picked, cooldown);
    } else {
      SelectionInside(s, picked, cooldown);
      var n, m := |s| - 1, |picked| - 1;
      InitOfOneSymbol(s, symbol);
      LastKept(s[..n], symbol, cooldown);
      if picked[m] == n {
        SelectionInit(s, picked, cooldown);
        GreedyStaysAhead(s[..n], symbol, picked[..m], cooldown);
        AheadTaking(s, picked, Replay(s[..n], cooldown), cooldown);
      } else {
        SelectionShorter(s, picked, cooldown);
        GreedyStaysAhead(s[..n], symbol, picked, cooldown);
        AheadLeaving(s, picked, Replay(s[..n], cooldown), cooldown);
      }
    }
  }

  /** The selection takes the last trade. */
  lemma AheadTaking(s: seq<Trade>, picked: seq<nat>, kept: seq<Trade>, cooldown: real)
    requires |s| > 0 && |picked| > 0 && picked[|picked| - 1] == |s| - 1 && cooldown >= 0.0
    requires Selection(s, picked, cooldown)
    requires Ahead(s[..|s| - 1], picked[..|picked| - 1], kept)
    requires |kept| > 0 ==>
               && kept[|kept| - 1].symbol == s[|s| - 1].symbol
               && kept[|kept| - 1].timestamp <= s[|s| - 1].timestamp
    ensures Ahead(s, picked, if Admits(kept, s[|s| - 1], cooldown) then kept + [s[|s| - 1]] else kept)
  {
    var n, m := |s| - 1, |picked| - 1;
    if m > 0 {
      assert s[..n][picked[..m][m - 1]] == s[picked[m - 1]];
    }
  }

  /** The selection leaves the last trade out. */
  lemma AheadLeaving(s: seq<Trade>, picked: seq<nat>, kept: seq<Trade>, cooldown: real)
    requires |s| > 0 && |picked| > 0 && picked[|picked| - 1] < |s| - 1
    requires Ahead(s[..|s| - 1], picked, kept)
    ensures Ahead(s, picked, if Admits(kept, s[|s| - 1], cooldown) then kept + [s[|s| - 1]] else kept)
  {}

  lemma SelectionShorter(s: seq<Trade>, picked: seq<nat>, cooldown: real)
    requires |picked| > 0 && Selection(s, picked, cooldown) && picked[|picked| - 1] != |s| - 1
    ensures Selection(s[..|s| - 1], picked, cooldown)
  {
    assert forall i :: 0 <= i < |picked| ==> picked[i] <= picked[|picked| - 1];
  }

  lemma SelectionInit(s: seq<Trade>, picked: seq<nat>, cooldown: real)
    requires |s| > 0 && |picked| > 0 && Selection(s, picked, cooldown) && picked[|picked| - 1] == |s| - 1
    ensures Selection(s[..|s| - 1], picked[..|picked| - 1], cooldown)
  {}

  /** No spaced choice of a symbol's selected trades is larger than what the replay keeps. */
  lemma ReplayIsOptimal(trades: seq<Trade>, symbol: string, cooldown: real, picked: seq<nat>)
    requires cooldown >= 0.0
    requires Selection(Filter(StableSort(trades, ReplayOrder), OfSymbol(symbol)), picked, cooldown)
    ensures |picked| <= |Filter(Replayed(trades, cooldown), OfSymbol(symbol))|
    ensures Spaced(Replayed(trades, cooldown), cooldown)
  {
    ReplayOrderIsTotal();
    StableSortSorts(trades, ReplayOrder);
    var ordered := StableSort(trades, ReplayOrder);
    ReplayOrderRefinesTime(ordered);
    ReplaySpaced(ordered, cooldown);
    ReplayOfSymbol(ordered, cooldown, symbol);
    FilterSorted(ordered, OfSymbol(symbol), TimeOrder);
    var mine := Filter(ordered, OfSymbol(symbol));
    forall i | 0 <= i < |mine| ensures mine[i].symbol == symbol {
      FilterOrigin(ordered, OfSymbol(symbol), i);
    }
    GreedyStaysAhead(mine, symbol, picked, cooldown);
  }
}
