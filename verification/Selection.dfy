/** Choosing the best of several ranked configurations. */
module Selection {
  import opened Wrappers
  import opened Sequences
  import opened Trades
  import opened Metrics
  import opened Splits

  /** `(selection_key, name, ..)`; behind the name only a Score V2 threshold can tell entries apart. */
  datatype Entry = Entry(key: SelectionKey, name: string, threshold: real)

  predicate EntryOrder(a: Entry, b: Entry) {
    if a.key != b.key then KeyLe(a.key, b.key)
    else if a.name != b.name then StringLe(a.name, b.name)
    else a.threshold <= b.threshold
  }

  lemma EntryOrderIsTotal()
    ensures TotalPreorder(EntryOrder) && Antisymmetric(EntryOrder)
  {
    KeyOrder();
    StringOrder();
    forall a, b ensures Comparable(EntryOrder, a, b) && Tie(EntryOrder, a, b) {
      assert Comparable(KeyLe, a.key, b.key) && Tie(KeyLe, a.key, b.key);
      assert Comparable(StringLe, a.name, b.name) && Tie(StringLe, a.name, b.name);
    }
    forall a, b, c ensures Chain(EntryOrder, a, b, c) {
      assert Chain(KeyLe, a.key, b.key, c.key) && Tie(KeyLe, a.key, b.key);
      assert Chain(StringLe, a.name, b.name, c.name) && Tie(StringLe, a.name, b.name);
    }
  }

  /** `sorted(ranked)[0]`. */
  function Best(ranked: seq<Entry>): Option<Entry> {
    var ordered := StableSort(ranked, EntryOrder);
    if |ordered| == 0 then None else Some(ordered[0])
  }

  /** The best entry is the least one; there is one whenever anything is ranked. */
  lemma BestIsLeast(ranked: seq<Entry>)
    ensures Best(ranked).Some? <==> |ranked| > 0
    ensures Best(ranked).Some? ==>
              && Best(ranked).value in ranked
              && forall e :: e in ranked ==> EntryOrder(Best(ranked).value, e)
  {
    EntryOrderIsTotal();
    StableSortSorts(ranked, EntryOrder);
    StableSortMember(ranked, EntryOrder);
    var ordered := StableSort(ranked, EntryOrder);
    assert |multiset(ordered)| == |multiset(ranked)|;
    if |ordered| > 0 {
      assert ordered[0] in ordered;
      forall e | e in ranked ensures EntryOrder(ordered[0], e) {
        assert e in ordered;
        var k :| 0 <= k < |ordered| && ordered[k] == e;
        assert Comparable(EntryOrder, e, e);
      }
    }
  }

  function NameOf(best: Option<Entry>): Option<string> {
    if best.Some? then Some(best.value.name) else None
  }

  // ---- Scoring the validation part of every configuration --------------------

  /** How a list of trades is scored; the calibrators use `NetPerformance`. */
  type Scoring = seq<Trade> -> Packet

  /** The performance on one configuration's validation part. */
  function ValidationPacket(score: Scoring, trades: seq<Trade>, start: int, end: int, horizon: int): Packet {
    var split := PurgedTimeSplits(trades, start, end, horizon);
    if split.Ok? then score(split.value.validation) else score([])
  }

  /** Every configuration's validation packet. */
  function ValidationPackets(score: Scoring, pools: map<string, seq<Trade>>, start: int, end: int, horizon: int):
    map<string, Packet> {
    map name | name in pools :: ValidationPacket(score, pools[name], start, end, horizon)
  }

  /** Same configurations, trades agreeing before `t`. */
  ghost predicate PoolsAgree(p: map<string, seq<Trade>>, q: map<string, seq<Trade>>, t: int) {
    && p.Keys == q.Keys
    && forall name :: name in p ==> Filter(p[name], Before(t)) == Filter(q[name], Before(t))
  }

  lemma ValidationAgrees(score: Scoring, p: map<string, seq<Trade>>, q: map<string, seq<Trade>>,
                        start: int, end: int, horizon: int, t: int)
    requires PoolsAgree(p, q, t) && (start < end ==> DevelopmentEnd(start, end) - horizon <= t)
    ensures ValidationPackets(score, p, start, end, horizon) == ValidationPackets(score, q, start, end, horizon)
  {
    forall name | name in p
      ensures ValidationPacket(score, p[name], start, end, horizon) == ValidationPacket(score, q[name], start, end, horizon)
    {
      ValidationPacketAgrees(score, p[name], q[name], start, end, horizon, t);
    }
  }

  lemma ValidationPacketAgrees(score: Scoring, a: seq<Trade>, b: seq<Trade>, start: int, end: int, horizon: int, t: int)
    requires Filter(a, Before(t)) == Filter(b, Before(t)) && (start < end ==> DevelopmentEnd(start, end) - horizon <= t)
    ensures ValidationPacket(score, a, start, end, horizon) == ValidationPacket(score, b, start, end, horizon)
  {
    if start < end && horizon >= 0 {
      SortedPartAgrees(a, b, t, Within(TrainBoundary(start, end), DevelopmentEnd(start, end) - horizon));
    }
  }
}
