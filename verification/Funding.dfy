/**
 Funding history: paged retrieval with a cache file, de-duplication, lookups by time, and the
 funding a short position pays.
 */
module Funding {
  import opened Wrappers
  import opened Sequences

  const EIGHT_HOURS := 28_800_000
  const HISTORY := 90 * EIGHT_HOURS
  const PAGE_LIMIT := 1000

  datatype Mark = Unlisted | Unusable | Price(value: real)

  /** A row as received or cached; `None` for a field that is missing or is not the number it should be. */
  datatype Raw = Raw(time: Option<int>, rate: Option<real>, mark: Mark, source: Option<int>)

  /** `source` stands for a request URL by its start time. */
  datatype Event = Event(timestamp: int, rate: real, mark: Option<real>, source: int)

  /** What one request yields; a raised error and a reply that is not a list end the retrieval alike. */
  datatype Reply = Unavailable | Page(rows: seq<Raw>)

  /** The reply to the `n`th request, which asks for events from a start time on. */
  type Server = (nat, int) -> Reply

  /** The cache file; a document remembers which range it covers, an older bare list does not. */
  datatype Cache =
    Missing | Unreadable
    | Document(rows: Option<seq<Raw>>, requestedStart: Option<int>, coverageEnd: Option<int>)
    | BareList(list: seq<Raw>)

  // ---- Retrieval ---------------------------------------------------------------------

  /** The latest time of the rows, unless one of them has none. */
  function Latest(rows: seq<Raw>, default: int): Option<int> {
    if |rows| == 0 then Some(default)
    else
      var before := Latest(rows[..|rows| - 1], default);
      var time := rows[|rows| - 1].time;
      if before.None? || time.None? then None
      else if |rows| == 1 || before.value < time.value then time
      else before
  }

  function Tagged(rows: seq<Raw>, source: int): seq<Raw> {
    Map(rows, (r: Raw) => r.(source := Some(source)))
  }

  /** The rows after all pages from `cursor` on, or `None` when the retrieval breaks off. */
  function Gathered(serve: Server, n: nat, cursor: int, end: int, rows: seq<Raw>): Option<seq<Raw>>
    decreases if cursor > end then 0 else end - cursor + 1
  {
    if cursor > end then Some(rows)
    else
      match serve(n, cursor)
      case Unavailable => None
      case Page(page) =>
        var last := Latest(page, cursor);
        if |page| == 0 then Some(rows)
        else if last.None? || last.value < cursor then None
        else if |page| < PAGE_LIMIT then Some(rows + Tagged(page, cursor))
        else Gathered(serve, n + 1, last.value + 1, end, rows + Tagged(page, cursor))
  }

  /** The loop ends whatever the server answers: every request starts later than the one before. */
  method Gather(serve: Server, from: int, end: int, cached: seq<Raw>) returns (result: Option<seq<Raw>>, ghost asked: seq<int>)
    ensures result == Gathered(serve, 0, from, end, cached)
    ensures forall i, j :: 0 <= i < j < |asked| ==> from <= asked[i] < asked[j] <= end
  {
    var rows, cursor := cached, from;
    var n: nat := 0;
    asked := [];
    while cursor <= end
      invariant Gathered(serve, 0, from, end, cached) == Gathered(serve, n, cursor, end, rows)
      invariant n == |asked| && from <= cursor
      invariant forall i :: 0 <= i < |asked| ==> from <= asked[i] <= end && asked[i] < cursor
      invariant forall i, j :: 0 <= i < j < |asked| ==> asked[i] < asked[j]
      decreases end - cursor
    {
      var reply := serve(n, cursor);
      asked := asked + [cursor];
      if reply.Unavailable? { return None, asked; }
      if |reply.rows| == 0 { return Some(rows), asked; }
      var last := Latest(reply.rows, cursor);
      if last.None? || last.value < cursor { return None, asked; }
      rows := rows + Tagged(reply.rows, cursor);
      if |reply.rows| < PAGE_LIMIT { return Some(rows), asked; }
      cursor := last.value + 1;
      n := n + 1;
    }
    return Some(rows), asked;
  }

  // ---- Parsing -------------------------------------------------------------------------

  function Normalised(r: Raw, url: int): Option<Event> {
    if r.time.None? || r.rate.None? || r.time.value <= 0 then None
    else
      match r.mark
      case Unlisted => Some(Event(r.time.value, r.rate.value, None, r.source.GetOr(url)))
      case Unusable => None
      case Price(p) => if p <= 0.0 then None else Some(Event(r.time.value, r.rate.value, Some(p), r.source.GetOr(url)))
  }

  function At(events: seq<Event>, timestamp: int): Option<Event> {
    if |events| == 0 then None
    else if events[|events| - 1].timestamp == timestamp then Some(events[|events| - 1])
    else At(events[..|events| - 1], timestamp)
  }

  /** The distinct events in order of first appearance; `None` on a bad row or two that disagree about an instant. */
  function Distinct(rows: seq<Raw>, url: int): Option<seq<Event>> {
    if |rows| == 0 then Some([])
    else
      var before := Distinct(rows[..|rows| - 1], url);
      var e := Normalised(rows[|rows| - 1], url);
      if before.None? || e.None? then None
      else
        var previous := At(before.value, e.value.timestamp);
        if previous.None? then Some(before.value + [e.value])
        else if previous == e then before
        else None
  }

  predicate EventOrder(a: Event, b: Event) { a.timestamp <= b.timestamp }

  function Parsed(rows: seq<Raw>, url: int): Option<seq<Event>> {
    var distinct := Distinct(rows, url);
    if distinct.None? then None else Some(StableSort(distinct.value, EventOrder))
  }

  method Parse(rows: seq<Raw>, url: int) returns (parsed: Option<seq<Event>>)
    ensures parsed == Parsed(rows, url)
  {
    var seen: map<int, Event> := map[];
    var values: seq<Event> := [];
    for i := 0 to |rows|
      invariant Distinct(rows[..i], url) == Some(values)
      invariant forall t: int :: At(values, t) == if t in seen then Some(seen[t]) else None
    {
      assert rows[..i + 1][..i] == rows[..i];
      var normalised := Normalised(rows[i], url);
      if normalised.None? {
        DistinctBreaks(rows, i + 1, url);
        return None;
      }
      var e := normalised.value;
      if e.timestamp in seen {
        if seen[e.timestamp] != e {
          DistinctBreaks(rows, i + 1, url);
          return None;
        }
      } else {
        values := values + [e];
        assert values[..|values| - 1] + [e] == values;
        seen := seen[e.timestamp := e];
      }
    }
    assert rows[..|rows|] == rows;
    return Some(StableSort(values, EventOrder));
  }

  lemma {:induction false} DistinctBreaks(rows: seq<Raw>, k: nat, url: int)
    requires k <= |rows| && Distinct(rows[..k], url).None?
    ensures Distinct(rows, url).None?
  {
    if k < |rows| {
      assert rows[..|rows| - 1][..k] == rows[..k];
      DistinctBreaks(rows[..|rows| - 1], k, url);
    } else {
      assert rows[..k] == rows;
    }
  }

  // ---- The object -------------------------------------------------------------------------

  /** What the cache file contributes: rows, and whether they already cover the range. */
  function Cached(file: Cache, from: int, end: int): (seq<Raw>, bool) {
    match file
    case Missing => ([], false)
    case Unreadable => ([], false)
    case BareList(rows) => (rows, false)
    case Document(rows, requestedStart, coverageEnd) =>
      if rows.None? then ([], false)
      else (rows.value, requestedStart == Some(from) && coverageEnd.Some? && coverageEnd.value >= end)
  }

  /** All rows of the range: the cached ones when they cover it, else those and what the pages add. */
  function Complete(file: Cache, serve: Server, from: int, end: int): Option<seq<Raw>> {
    var (rows, covered) := Cached(file, from, end);
    var latest := Latest(rows, from - 1);
    if latest.None? then None
    else if covered then Some(rows)
    else Gathered(serve, 0, Max(from, latest.value + 1), end, rows)
  }

  /** `parsed or None`. */
  function NonEmpty(parsed: Option<seq<Event>>): Option<seq<Event>> {
    if parsed == Some([]) then None else parsed
  }

  function RowsOf(file: Cache, serve: Server, start: Option<int>, end: Option<int>): Option<seq<Event>> {
    if start.None? || end.None? || start.value >= end.value then None
    else
      var from := start.value - HISTORY;
      var rows := Complete(file, serve, from, end.value);
      if rows.None? then None else NonEmpty(Parsed(rows.value, from))
  }

  function Lookup<V>(m: map<string, V>, key: string, default: V): V { if key in m then m[key] else default }

  /** The memory once a symbol has been asked for: the answer it had, else what its cache file and the exchange give. */
  function Remembering(symbols: map<string, Option<seq<Event>>>, files: map<string, Cache>, symbol: string, serve: Server,
                       start: Option<int>, end: Option<int>): (after: map<string, Option<seq<Event>>>)
    ensures symbol in after && forall other :: other != symbol ==> (other in after <==> other in symbols)
  {
    if symbol in symbols then symbols else symbols[symbol := RowsOf(Lookup(files, symbol, Missing), serve, start, end)]
  }

  /** The cache files once a symbol has been asked for: only a first, completed retrieval is written. */
  function Storing(symbols: map<string, Option<seq<Event>>>, files: map<string, Cache>, symbol: string, serve: Server,
                   writable: bool, start: Option<int>, end: Option<int>): map<string, Cache> {
    var file := Lookup(files, symbol, Missing);
    if symbol !in symbols && writable && Writes(file, serve, start, end)
    then files[symbol := Written(file, serve, start, end)] else files
  }

  class HistoricalFunding {
    const start: Option<int>
    const end: Option<int>
    var symbols: map<string, Option<seq<Event>>>
    var files: map<string, Cache>

    constructor (start: Option<int>, end: Option<int>, files: map<string, Cache>)
      ensures this.start == start && this.end == end && this.files == files && symbols == map[]
    {
      this.start := start;
      this.end := end;
      this.files := files;
      symbols := map[];
    }

    /** The answer is remembered per symbol, failures included; a completed retrieval is written to the cache file if it can be. */
    method Rows(symbol: string, serve: Server, writable: bool) returns (r: Option<seq<Event>>)
      modifies this
      ensures symbols == Remembering(old(symbols), old(files), symbol, serve, start, end) && r == symbols[symbol]
      ensures files == Storing(old(symbols), old(files), symbol, serve, writable, start, end)
    {
      if symbol in symbols { return symbols[symbol]; }
      r := None;
      if start.None? || end.None? || start.value >= end.value {
        symbols := symbols[symbol := None];
        return;
      }
      var from := start.value - HISTORY;
      var (cached, covered) := Cached(Lookup(files, symbol, Missing), from, end.value);
      var latest := Latest(cached, from - 1);
      if latest.None? {
        symbols := symbols[symbol := None];
        return;
      }
      var rows := cached;
      if !covered {
        var gathered, _ := Gather(serve, Max(from, latest.value + 1), end.value, cached);
        if gathered.None? {
          symbols := symbols[symbol := None];
          return;
        }
        rows := gathered.value;
        if writable { files := files[symbol := Document(Some(rows), Some(from), end)]; }
      }
      var parsed := Parse(rows, from);
      r := NonEmpty(parsed);
      symbols := symbols[symbol := r];
    }

    method AtOrBefore(symbol: string, timestamp: int, serve: Server, writable: bool) returns (r: Option<Standing>)
      modifies this
      ensures symbols == Remembering(old(symbols), old(files), symbol, serve, start, end)
      ensures files == Storing(old(symbols), old(files), symbol, serve, writable, start, end)
      ensures r == if symbols[symbol].None? then None else StandingAt(symbols[symbol].value, timestamp)
    {
      var rows := Rows(symbol, serve, writable);
      if rows.None? { return None; }
      r := StandingAt(rows.value, timestamp);
    }

    method Between(symbol: string, startExclusive: int, endInclusive: int, serve: Server, writable: bool)
      returns (r: Result<Option<seq<Event>>, string>)
      modifies this
      ensures endInclusive < startExclusive ==>
        r == Err("funding window ends before entry") && symbols == old(symbols) && files == old(files)
      ensures endInclusive >= startExclusive ==>
        && symbols == Remembering(old(symbols), old(files), symbol, serve, start, end)
        && files == Storing(old(symbols), old(files), symbol, serve, writable, start, end)
        && r == Ok(if symbols[symbol].None? then None
             else Some(ChargesBetween(symbols[symbol].value, startExclusive, endInclusive)))
    {
      if endInclusive < startExclusive { return Err("funding window ends before entry"); }
      var rows := Rows(symbol, serve, writable);
      if rows.None? { return Ok(None); }
      return Ok(Some(ChargesBetween(rows.value, startExclusive, endInclusive)));
    }
  }

  /** Whether the retrieval completes over the network, and so rewrites the cache file. */
  predicate Writes(file: Cache, serve: Server, start: Option<int>, end: Option<int>) {
    && start.Some? && end.Some? && start.value < end.value
    && !Cached(file, start.value - HISTORY, end.value).1
    && Complete(file, serve, start.value - HISTORY, end.value).Some?
  }

  function Written(file: Cache, serve: Server, start: Option<int>, end: Option<int>): Cache
    requires Writes(file, serve, start, end)
  {
    Document(Complete(file, serve, start.value - HISTORY, end.value), Some(start.value - HISTORY), end)
  }

  // ---- Lookups --------------------------------------------------------------------------------

  datatype Standing = Standing(current: Event, history: seq<Event>)

  function Times(rows: seq<Event>): seq<int> { Map(rows, (e: Event) => e.timestamp) }

  function NotOlder(t: int): Event -> bool { (e: Event) => e.timestamp >= t }

  function StandingAt(rows: seq<Event>, timestamp: int): Option<Standing> {
    var index := BisectRight(Times(rows), timestamp) - 1;
    if index < 0 || timestamp - rows[index].timestamp > EIGHT_HOURS then None
    else Some(Standing(rows[index], Filter(rows[..index + 1], NotOlder(timestamp - HISTORY))))
  }

  function ChargesBetween(rows: seq<Event>, startExclusive: int, endInclusive: int): seq<Event> {
    var a, b := BisectRight(Times(rows), startExclusive), BisectRight(Times(rows), endInclusive);
    if a <= b then rows[a..b] else []
  }
}
