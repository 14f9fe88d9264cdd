/** Time splits purged by the outcome horizon, and the anchored walk-forward windows. */
module Splits {
  import opened Wrappers
  import opened Sequences
  import opened Trades

  // ---- Train / validation / holdout ---------------------------------------

  datatype Split = Split(train: seq<Trade>, validation: seq<Trade>, holdout: seq<Trade>)

  function TrainBoundary(start: int, end: int): int { start + (end - start) / 2 }

  /** Five sixths of the window; also where development ends and the holdout begins. */
  function DevelopmentEnd(start: int, end: int): int { start + (end - start) * 5 / 6 }

  function PurgedTimeSplits(trades: seq<Trade>, start: int, end: int, horizon: int): Result<Split, string> {
    if start >= end || horizon < 0 then Err("invalid research window")
    else
      var ordered := StableSort(trades, TimeOrder);
      Ok(Split(
        Filter(ordered, Before(TrainBoundary(start, end) - horizon)),
        Filter(ordered, Within(TrainBoundary(start, end), DevelopmentEnd(start, end) - horizon)),
        Filter(ordered, From(DevelopmentEnd(start, end)))))
  }

  /** A trade whose outcome is settled no later than the horizon after its signal. */
  ghost predicate SettlesWithin(t: Trade, horizon: int) {
    t.exitTimestamp.Some? && t.timestamp <= t.exitTimestamp.value <= t.timestamp + horizon
  }

  ghost predicate SettledBefore(a: Trade, b: Trade) {
    a.exitTimestamp.Some? && a.exitTimestamp.value < b.timestamp
  }

  /**
   No outcome of one split overlaps a signal of a later one, and no signal is in two splits.
   */
  lemma PurgeSeparates(trades: seq<Trade>, start: int, end: int, horizon: int, split: Split)
    requires PurgedTimeSplits(trades, start, end, horizon) == Ok(split)
    requires forall t :: t in trades ==> SettlesWithin(t, horizon)
    ensures forall a, b :: a in split.train && b in split.validation + split.holdout ==> SettledBefore(a, b)
    ensures forall a, b :: a in split.validation && b in split.holdout ==> SettledBefore(a, b)
    ensures forall t :: t in split.train + split.validation + split.holdout ==> t in trades
  {
    var ordered := StableSort(trades, TimeOrder);
    TimeOrderIsTotal();
    StableSortMember(trades, TimeOrder);
    FilterMember(ordered, Before(TrainBoundary(start, end) - horizon));
    FilterMember(ordered, Within(TrainBoundary(start, end), DevelopmentEnd(start, end) - horizon));
    FilterMember(ordered, From(DevelopmentEnd(start, end)));
    forall t | t in split.train ensures t in trades && t.timestamp + horizon < TrainBoundary(start, end) {}
    forall t | t in split.validation ensures t in trades && TrainBoundary(start, end) <= t.timestamp
      && t.timestamp + horizon < DevelopmentEnd(start, end) {}
    forall t | t in split.holdout ensures t in trades && DevelopmentEnd(start, end) <= t.timestamp {}
  }

  /** The train and validation parts do not read a trade the development period does not contain. */
  lemma SplitsAgree(a: seq<Trade>, b: seq<Trade>, start: int, end: int, horizon: int)
    requires horizon >= 0 && start < end
    requires var t := DevelopmentEnd(start, end) - horizon; Filter(a, Before(t)) == Filter(b, Before(t))
    ensures PurgedTimeSplits(a, start, end, horizon).value.train == PurgedTimeSplits(b, start, end, horizon).value.train
    ensures PurgedTimeSplits(a, start, end, horizon).value.validation == PurgedTimeSplits(b, start, end, horizon).value.validation
  {
    SortedPartAgrees(a, b, DevelopmentEnd(start, end) - horizon, Before(TrainBoundary(start, end) - horizon));
    SortedPartAgrees(a, b, DevelopmentEnd(start, end) - horizon,
                     Within(TrainBoundary(start, end), DevelopmentEnd(start, end) - horizon));
  }

  lemma SortedPartAgrees(a: seq<Trade>, b: seq<Trade>, t: int, part: Trade -> bool)
    requires Filter(a, Before(t)) == Filter(b, Before(t))
    requires forall x :: part(x) ==> x.timestamp < t
    ensures Filter(StableSort(a, TimeOrder), part) == Filter(StableSort(b, TimeOrder), part)
  {
    TimeOrderIsTotal();
    SortFilter(a, part, TimeOrder);
    SortFilter(b, part, TimeOrder);
    FilterWithin(a, b, part, Before(t));
  }

  // ---- Walk-forward windows -------------------------------------------------

  datatype Window = Window(
    fold: int, trainStart: int, selectionEnd: int, testStart: int, testSignalEnd: int, testEnd: int, purge: int)

  function FirstTest(start: int, end: int, fraction: real): int {
    start + ((end - start) as real * fraction).Floor
  }

  function WindowAt(start: int, end: int, horizon: int, folds: int, first: int, width: int, index: int): Window {
    var testStart := first + index * width;
    var testEnd := if index == folds - 1 then end else first + (index + 1) * width;
    Window(index + 1, start, testStart - horizon, testStart, testEnd - horizon, testEnd, horizon)
  }

  /** The check that guards the windows, or `None` when they exist. */
  function WindowError(start: int, end: int, horizon: int, folds: int, fraction: real): Option<string> {
    if start >= end then Some("invalid walk-forward window")
    else if horizon < 0 then Some("invalid outcome horizon")
    else if folds < 2 then Some("walk-forward requires at least two folds")
    else if !(0.0 < fraction < 1.0) then Some("invalid initial train fraction")
    else if (end - FirstTest(start, end, fraction)) / folds <= horizon
      then Some("walk-forward folds are shorter than the outcome horizon")
    else None
  }

  function Windows(start: int, end: int, horizon: int, folds: int, fraction: real): Result<seq<Window>, string> {
    var error := WindowError(start, end, horizon, folds, fraction);
    if error.Some? then Err(error.value)
    else
      var first := FirstTest(start, end, fraction);
      Ok(seq(folds, index => WindowAt(start, end, horizon, folds, first, (end - first) / folds, index)))
  }

  method ExpandingWalkForwardWindows(start: int, end: int, horizon: int, folds: int, fraction: real)
    returns (windows: Result<seq<Window>, string>)
    ensures windows == Windows(start, end, horizon, folds, fraction)
  {
    if start >= end { return Err("invalid walk-forward window"); }
    if horizon < 0 { return Err("invalid outcome horizon"); }
    if folds < 2 { return Err("walk-forward requires at least two folds"); }
    if !(0.0 < fraction < 1.0) { return Err("invalid initial train fraction"); }
    var firstTest := FirstTest(start, end, fraction);
    var width := (end - firstTest) / folds;
    if width <= horizon { return Err("walk-forward folds are shorter than the outcome horizon"); }
    var result: seq<Window> := [];
    for index := 0 to folds
      invariant result == seq(index, k => WindowAt(start, end, horizon, folds, firstTest, width, k))
    {
      var testStart := firstTest + index * width;
      var testEnd := if index == folds - 1 then end else firstTest + (index + 1) * width;
      result := result + [Window(index + 1, start, testStart - horizon, testStart, testEnd - horizon, testEnd, horizon)];
    }
    return Ok(result);
  }

  lemma FoldsFit(span: int, folds: int)
    requires folds > 0
    ensures folds * (span / folds) <= span
  {
    var width := span / folds;
    assert span == width * folds + span % folds;
  }

  lemma Distribute(index: int, width: int)
    ensures (index + 1) * width == index * width + width
  {}

  lemma MonotoneProduct(a: int, b: int, width: int)
    requires a <= b && width > 0
    ensures a * width <= b * width
  {}

  lemma WindowArithmetic(first: int, end: int, folds: int, index: int)
    requires folds >= 2 && 0 <= index < folds && (end - first) / folds > 0
    ensures var width := (end - first) / folds;
            first + (index + 1) * width <= end && (index + 1) * width == index * width + width
  {
    var width := (end - first) / folds;
    FoldsFit(end - first, folds);
    MonotoneProduct(index + 1, folds, width);
    Distribute(index, width);
  }

  /**
   The test windows tile `[first test, end)` edge to edge, each leaves room for signals,
   and training for a window stops a horizon before its first test signal.
   */
  lemma WindowsTile(start: int, end: int, horizon: int, folds: int, fraction: real, w: seq<Window>)
    requires Windows(start, end, horizon, folds, fraction) == Ok(w)
    ensures |w| == folds
    ensures w[0].testStart == start + ((end - start) as real * fraction).Floor && w[folds - 1].testEnd == end
    ensures forall i :: 0 <= i < folds - 1 ==> w[i].testEnd == w[i + 1].testStart
    ensures forall i :: 0 <= i < folds ==>
              && w[i].testStart < w[i].testSignalEnd <= w[i].testEnd - horizon <= end - horizon
              && w[i].selectionEnd + horizon == w[i].testStart
  {
    var first := FirstTest(start, end, fraction);
    var width := (end - first) / folds;
    forall i | 0 <= i < folds
      ensures w[i].testStart < w[i].testSignalEnd <= w[i].testEnd - horizon <= end - horizon
    {
      WindowArithmetic(first, end, folds, i);
    }
  }

  /** All windows but the last are equally long, longer than the horizon, and numbered from one. */
  lemma WindowsAreEven(start: int, end: int, horizon: int, folds: int, fraction: real, w: seq<Window>)
    requires Windows(start, end, horizon, folds, fraction) == Ok(w)
    ensures |w| == folds
    ensures forall i :: 0 <= i < folds - 1 ==> w[i].testEnd - w[i].testStart == (end - w[0].testStart) / folds > horizon
    ensures forall i :: 0 <= i < folds ==> w[i].fold == i + 1 && w[i].trainStart == start && w[i].purge == horizon
  {
    hide FirstTest;
    var first := FirstTest(start, end, fraction);
    var width := (end - first) / folds;
    assert w[0].testStart == first;
    forall i | 0 <= i < folds - 1 ensures w[i].testEnd - w[i].testStart == width {
      Distribute(i, width);
    }
  }

  /** There are windows exactly for a proper range, horizon and fraction, and two folds or more, all longer than the horizon. */
  lemma WindowsExist(start: int, end: int, horizon: int, folds: int, fraction: real)
    ensures Windows(start, end, horizon, folds, fraction).Ok? <==>
            && start < end && horizon >= 0 && folds >= 2 && 0.0 < fraction < 1.0
            && (end - (start + ((end - start) as real * fraction).Floor)) / folds > horizon
  {}

  /** Every instant of the test range belongs to exactly one window. */
  lemma WindowsPartition(start: int, end: int, horizon: int, folds: int, fraction: real, w: seq<Window>, t: int)
    requires Windows(start, end, horizon, folds, fraction) == Ok(w)
    requires start + ((end - start) as real * fraction).Floor <= t < end
    ensures exists i :: 0 <= i < |w| && w[i].testStart <= t < w[i].testEnd
    ensures forall i, j :: 0 <= i < j < |w| ==> w[i].testEnd <= w[j].testStart
  {
    WindowsTile(start, end, horizon, folds, fraction, w);
    var k := 0;
    while k < folds - 1 && w[k].testEnd <= t
      invariant 0 <= k < folds && w[k].testStart <= t
    {
      k := k + 1;
    }
    assert w[k].testStart <= t < w[k].testEnd;
    forall i, j | 0 <= i < j < |w| ensures w[i].testEnd <= w[j].testStart {
      WindowsOrdered(w, i, j);
    }
  }

  lemma {:induction false} WindowsOrdered(w: seq<Window>, i: int, j: int)
    requires 0 <= i < j < |w|
    requires forall k :: 0 <= k < |w| ==> w[k].testStart < w[k].testEnd
    requires forall k :: 0 <= k < |w| - 1 ==> w[k].testEnd == w[k + 1].testStart
    ensures w[i].testEnd <= w[j].testStart
    decreases j - i
  {
    assert w[i].testEnd == w[i + 1].testStart;
    if i + 1 < j { WindowsOrdered(w, i + 1, j); }
  }

  function InWindow(w: Window): Trade -> bool { Within(w.testStart, w.testSignalEnd) }

  /** Signalled after the window's first test instant and settled before its last. */
  ghost predicate SettledInside(t: Trade, w: Window) {
    w.testStart <= t.timestamp && t.exitTimestamp.Some? && t.timestamp <= t.exitTimestamp.value < w.testEnd
  }

  /** An outcome observed in a window is settled before that window ends. */
  lemma WindowOutcomesSettle(start: int, end: int, horizon: int, folds: int, fraction: real, w: seq<Window>, i: nat, t: Trade)
    requires Windows(start, end, horizon, folds, fraction) == Ok(w) && i < |w|
    requires InWindow(w[i])(t) && SettlesWithin(t, horizon)
    ensures SettledInside(t, w[i]) && w[i].testEnd <= end
  {
    WindowsTile(start, end, horizon, folds, fraction, w);
  }
}
