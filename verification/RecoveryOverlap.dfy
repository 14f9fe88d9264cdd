/** Which patterns of overlapping checks, lost files and failed saves keep recovery within its limits. */
module RecoveryOverlap {
  import opened Wrappers
  import opened Recovery
  import opened RecoveryLimits

  // ---- Where a state comes from ------------------------------------------------------------------

  /** The last of the first `n` turns that saved its state; -1 if none did. */
  function LastSaved(run: seq<Turn>, n: nat): (o: int)
    requires n <= |run|
    ensures -1 <= o < n && (o >= 0 ==> run[o].check.saved)
  {
    if n == 0 then -1 else if run[n - 1].check.saved then n - 1 else LastSaved(run, n - 1)
  }

  /** The turn whose state turn `k` has loaded; -1 for a fresh start. */
  function Origin(run: seq<Turn>, k: nat): (o: int)
    requires k < |run|
    ensures -1 <= o < k
  {
    LastSaved(run, Min(run[k].version, k))
  }

  /** Turn `k` has loaded a state that turn `j` had a part in. */
  predicate Builds(run: seq<Turn>, j: int, k: nat)
    requires k < |run|
  {
    Origin(run, k) >= 0 && (j == Origin(run, k) || Builds(run, j, Origin(run, k)))
  }

  /** How many turns had a part in the state turn `k` has loaded. */
  function Depth(run: seq<Turn>, k: nat): nat
    requires k < |run|
  {
    if Origin(run, k) < 0 then 0 else Depth(run, Origin(run, k)) + 1
  }

  /** Of any two turns that could have counted three failures, the later has loaded a state the earlier had a part in. */
  ghost predicate Linked(run: seq<Turn>) {
    forall j, k :: 0 <= j < k < |run| && Depth(run, j) >= 2 && Depth(run, k) >= 2 ==> Builds(run, j, k)
  }

  lemma {:induction false} FileOfPrefix(run: seq<Turn>, n: nat)
    requires n <= |run|
    ensures var o := LastSaved(run, n);
            FileAt(run[..n]) == if o < 0 then None else Some(Decided(LoadedBy(run, o), run[o].check))
  {
    hide Decided;
    if n > 0 {
      assert run[..n][..n - 1] == run[..n - 1];
      assert Seen(run[..n], n - 1) == Seen(run, n - 1) by { PrefixDecides(run[..n], run, n - 1); }
      if !run[n - 1].check.saved { FileOfPrefix(run, n - 1); }
    }
  }

  lemma LoadedFromOrigin(run: seq<Turn>, k: nat)
    requires k < |run|
    ensures var o := Origin(run, k);
            LoadedBy(run, k) == if o < 0 then INITIAL else Decided(LoadedBy(run, o), run[o].check)
  {
    FileOfPrefix(run, Min(run[k].version, k));
  }

  // ---- Linked turns keep the limits -----------------------------------------------------------------

  lemma {:induction false} CountsItsDepth(run: seq<Turn>, k: nat)
    requires k < |run|
    ensures LoadedBy(run, k).failures <= Depth(run, k)
  {
    hide Decided, Recovers, FileAt;
    var o := Origin(run, k);
    LoadedFromOrigin(run, k);
    if o >= 0 {
      CountsItsDepth(run, o);
      FailuresAfter(LoadedBy(run, o), run[o].check);
    }
  }

  lemma RecoveryIsDeep(run: seq<Turn>, k: nat)
    requires k < |run| && RecoversAt(run, k)
    ensures Depth(run, k) >= 2
  {
    hide Recovers;
    CountsItsDepth(run, k);
    FailuresAfter(LoadedBy(run, k), run[k].check);
  }

  /** The recoveries among the turns that had a part in what turn `k` has loaded. */
  function Along(run: seq<Turn>, k: nat): seq<real>
    requires k < |run|
  {
    var o := Origin(run, k);
    if o < 0 then [] else if RecoversAt(run, o) then Along(run, o) + [run[o].check.now] else Along(run, o)
  }

  lemma {:induction false} LoadedCoversAlong(run: seq<Turn>, k: nat)
    requires k < |run| && Timely(run)
    ensures Covers(LoadedBy(run, k), Along(run, k), run[k].check.now)
  {
    hide Covers, Recovers, Decided, FileAt;
    var o := Origin(run, k);
    LoadedFromOrigin(run, k);
    if o < 0 {
      InitialCovers(run[k].check.now);
    } else {
      LoadedCoversAlong(run, o);
      CoversDecision(LoadedBy(run, o), run[o].check, Along(run, o));
      CoversLater(LoadedBy(run, k), Along(run, k), run[o].check.now, run[k].check.now);
    }
  }

  /** When every recovery so far had a part in what turn `k` has loaded, those are the whole history. */
  lemma {:induction false} AlongIsHistory(run: seq<Turn>, k: nat)
    requires k < |run| && forall j :: 0 <= j < k && RecoversAt(run, j) ==> Builds(run, j, k)
    ensures Along(run, k) == History(run[..k])
  {
    hide RecoversAt;
    var o := Origin(run, k);
    var n := o + 1;
    forall j | 0 <= j < k ensures RecoversAt(run[..k], j) == RecoversAt(run, j) {
      PrefixDecides(run[..k], run, j);
    }
    forall j | n <= j < k ensures !RecoversAt(run, j) {
      BuildsEarlier(run, j, k);
    }
    HistoryUnchanged(run[..k], n);
    assert run[..k][..n] == run[..n];
    if o >= 0 {
      forall j | 0 <= j < o && RecoversAt(run, j) ensures Builds(run, j, o) {
        assert Builds(run, j, k);
      }
      AlongIsHistory(run, o);
      assert run[..n][..o] == run[..o];
      PrefixDecides(run[..n], run, o);
    }
  }

  lemma {:induction false} BuildsEarlier(run: seq<Turn>, j: int, k: nat)
    requires k < |run|
    ensures Builds(run, j, k) ==> 0 <= j <= Origin(run, k)
  {
    var o := Origin(run, k);
    if o >= 0 { BuildsEarlier(run, j, o); }
  }

  lemma {:induction false} LinkedIsBounded(run: seq<Turn>, n: nat)
    requires Timely(run) && Linked(run) && n <= |run|
    ensures Bounded(History(run[..n]))
  {
    hide RecoversAt, Bounded, Covers, Depth, Builds;
    if n == 0 {
      NothingIsBounded();
    } else {
      var k := n - 1;
      LinkedIsBounded(run, k);
      assert run[..n][..k] == run[..k];
      PrefixDecides(run[..n], run, k);
      if RecoversAt(run, k) {
        RecoveryIsDeep(run, k);
        forall j | 0 <= j < k && RecoversAt(run, j) ensures Builds(run, j, k) {
          RecoveryIsDeep(run, j);
        }
        AlongIsHistory(run, k);
        LoadedCoversAlong(run, k);
        HistoryIsPast(run[..k], run[k].check.now);
        RecoveryMeans(run, k);
        RecoveryIsBounded(History(run[..k]), LoadedBy(run, k), run[k].check);
      }
    }
  }

  lemma RecoveryMeans(run: seq<Turn>, k: nat)
    requires k < |run|
    ensures RecoversAt(run, k) == Recovers(LoadedBy(run, k), run[k].check)
  {}

  // ---- Turns that are not linked may recover together -------------------------------------------------

  /** The same loads and saves, with anything else different. */
  ghost predicate Alike(a: seq<Turn>, b: seq<Turn>) {
    |a| == |b| && forall i :: 0 <= i < |a| ==> b[i].version == a[i].version && b[i].check.saved == a[i].check.saved
  }

  lemma {:induction false} SameLastSaved(a: seq<Turn>, b: seq<Turn>, n: nat)
    requires Alike(a, b) && n <= |a|
    ensures LastSaved(b, n) == LastSaved(a, n)
  {
    if n > 0 { SameLastSaved(a, b, n - 1); }
  }

  lemma {:induction false} SameOrigins(a: seq<Turn>, b: seq<Turn>, k: nat)
    requires Alike(a, b) && k < |a|
    ensures Origin(b, k) == Origin(a, k) && Depth(b, k) == Depth(a, k)
    ensures forall j :: Builds(b, j, k) == Builds(a, j, k)
  {
    SameLastSaved(a, b, Min(a[k].version, k));
    if Origin(a, k) >= 0 { SameOrigins(a, b, Origin(a, k)); }
  }

  lemma LinkedAlike(a: seq<Turn>, b: seq<Turn>)
    requires Alike(a, b) && Linked(a)
    ensures Linked(b)
  {
    hide Builds, Depth;
    forall j, k | 0 <= j < k < |b| && Depth(b, j) >= 2 && Depth(b, k) >= 2 ensures Builds(b, j, k) {
      SameOrigins(a, b, j);
      SameOrigins(a, b, k);
    }
  }

  /** Everybody is unhealthy at the same moment, and only turns `j` and `k` find the deploy lock free. */
  function Clash(plan: seq<Turn>, j: nat, k: nat): (run: seq<Turn>)
    ensures |run| == |plan|
    ensures forall i :: 0 <= i < |run| ==>
              run[i] == Turn(Check(HOUR, false, i == j || i == k, true, plan[i].check.saved), plan[i].version)
  {
    seq(|plan|, i requires 0 <= i < |plan| =>
      Turn(Check(HOUR, false, i == j || i == k, true, plan[i].check.saved), plan[i].version))
  }

  /** Until one of the two has recovered, turns only count. */
  lemma {:induction false} ClashCounts(plan: seq<Turn>, j: nat, k: nat, i: nat)
    requires i < |plan|
    requires var run := Clash(plan, j, k); !Builds(run, j, i) && !Builds(run, k, i)
    ensures var run := Clash(plan, j, k); LoadedBy(run, i) == State(Depth(run, i), [], 0.0)
  {
    hide FileAt;
    var run := Clash(plan, j, k);
    var o := Origin(run, i);
    LoadedFromOrigin(run, i);
    if o >= 0 {
      ClashCounts(plan, j, k, o);
      assert !run[o].check.lockFree;
    }
  }

  lemma ClashRecovers(plan: seq<Turn>, j: nat, k: nat, i: nat)
    requires i < |plan| && (i == j || i == k)
    requires var run := Clash(plan, j, k); !Builds(run, j, i) && !Builds(run, k, i) && Depth(run, i) >= 2
    ensures RecoversAt(Clash(plan, j, k), i)
  {
    hide FileAt, Depth, Builds;
    ClashCounts(plan, j, k, i);
  }

  lemma {:induction false} HistoryGrows(run: seq<Turn>, m: nat, n: nat)
    requires m <= n <= |run|
    ensures |History(run[..m])| <= |History(run[..n])|
  {
    hide RecoversAt;
    if m < n {
      HistoryGrows(run, m, n - 1);
      assert run[..n][..n - 1] == run[..n - 1];
    }
  }

  lemma {:induction false} HistoryAtOnce(run: seq<Turn>, now: real)
    requires forall i :: 0 <= i < |run| ==> run[i].check.now == now
    ensures forall i :: 0 <= i < |History(run)| ==> History(run)[i] == now
  {
    hide RecoversAt;
    if |run| > 0 { HistoryAtOnce(run[..|run| - 1], now); }
  }

  lemma TwoAtOnce(run: seq<Turn>, now: real, j: nat, k: nat)
    requires j < k < |run| && RecoversAt(run, j) && RecoversAt(run, k)
    requires forall i :: 0 <= i < |run| ==> run[i].check.now == now
    ensures !Bounded(History(run))
  {
    hide RecoversAt;
    OneMoreRecovery(run, j);
    HistoryGrows(run, j + 1, k);
    OneMoreRecovery(run, k);
    HistoryGrows(run, k + 1, |run|);
    assert run[..|run|] == run;
    HistoryAtOnce(run, now);
    assert History(run)[1] - History(run)[0] == 0.0;
  }

  lemma OneMoreRecovery(run: seq<Turn>, k: nat)
    requires k < |run| && RecoversAt(run, k)
    ensures |History(run[..k + 1])| == |History(run[..k])| + 1
  {
    hide RecoversAt;
    PrefixDecides(run[..k + 1], run, k);
    assert run[..k + 1][..k] == run[..k];
  }

  lemma UnlinkedBreaks(plan: seq<Turn>, j: nat, k: nat)
    requires j < k < |plan| && Depth(plan, j) >= 2 && Depth(plan, k) >= 2 && !Builds(plan, j, k)
    ensures var run := Clash(plan, j, k); Alike(plan, run) && Timely(run) && !Bounded(History(run))
  {
    hide Builds, Depth, RecoversAt, Bounded;
    var run := Clash(plan, j, k);
    SameOrigins(plan, run, j);
    SameOrigins(plan, run, k);
    BuildsEarlier(run, j, j);
    BuildsEarlier(run, k, j);
    BuildsEarlier(run, k, k);
    ClashRecovers(plan, j, k, j);
    ClashRecovers(plan, j, k, k);
    TwoAtOnce(run, HOUR, j, k);
  }

  /**
   Given which file every check has loaded and which checks saved theirs -- overlapping, losing and failing in any way --
   recoveries keep the limits, whatever health, times, locks and commands do, if and only if of any two checks that
   could have counted three failures the later has loaded a state the earlier had a part in.
   */
  lemma OverlapExactly(plan: seq<Turn>)
    ensures Linked(plan) <==> forall run :: Alike(plan, run) && Timely(run) ==> Bounded(History(run))
  {
    hide Builds, Depth, Bounded, History, Timely;
    if Linked(plan) {
      forall run | Alike(plan, run) && Timely(run) ensures Bounded(History(run)) {
        LinkedAlike(plan, run);
        LinkedIsBounded(run, |run|);
        assert run[..|run|] == run;
      }
    } else {
      var j, k :| 0 <= j < k < |plan| && Depth(plan, j) >= 2 && Depth(plan, k) >= 2 && !Builds(plan, j, k);
      UnlinkedBreaks(plan, j, k);
    }
  }
}
