/** What each check of a run decides when checks take turns and save their state: a matter of the history alone. */
module RecoveryTerms {
  import opened Sequences
  import opened Recovery
  import opened RecoveryLimits

  ghost predicate AllSaved(run: seq<Turn>) { forall k :: 0 <= k < |run| ==> run[k].check.saved }

  /** The verdict after the recoveries `h` and `streak` unhealthy checks since the last healthy one or recovery. */
  function Judged(h: seq<real>, streak: nat, c: Check): Verdict {
    if c.healthy then Healthy
    else if streak < 2 then Failing(streak + 1)
    else if c.now - (if |h| == 0 then 0.0 else h[|h| - 1]) < 600.0 then CoolingDown
    else if |h| >= 3 && c.now - h[|h| - 3] < 3600.0 then Exhausted
    else if !c.lockFree then Deploying
    else if !c.commandOk then CommandFailed
    else Recovered
  }

  lemma {:induction false} CountIsStreak(run: seq<Turn>)
    requires InTurn(run) && AllSaved(run)
    ensures Loaded(FileAt(run)).failures == Streak(run)
  {
    hide Recovers, Decided;
    if |run| > 0 {
      var k := |run| - 1;
      CountIsStreak(run[..k]);
      FailuresAfter(LoadedBy(run, k), run[k].check);
    }
  }

  /** In a sorted history three lie within the hour exactly when the third last does. */
  lemma RecentThree(h: seq<real>, now: real)
    requires Sorted(h, RealOrder)
    ensures |Filter(h, Recent(now))| >= 3 <==> |h| >= 3 && now - h[|h| - 3] < 3600.0
  {
    if |h| < 3 {
      FilterShorter(h, Recent(now));
    } else if now - h[|h| - 3] < 3600.0 {
      LastThreeRecent(h, now);
    } else {
      var n := |h| - 2;
      assert h == h[..n] + h[n..];
      FilterConcat(h[..n], h[n..], Recent(now));
      forall x | x in h[..n] ensures !Recent(now)(x) {
        var i :| 0 <= i < n && h[i] == x;
        assert i < n - 1 ==> RealOrder(h[i], h[n - 1]);
      }
      FilterNone(h[..n], Recent(now));
      FilterShorter(h[n..], Recent(now));
    }
  }

  lemma PrefixIsSaved(run: seq<Turn>, k: nat)
    requires k < |run| && Orderly(run) && AllSaved(run[..k])
    ensures Orderly(run[..k]) && Fresh(run[..k]) && SavedFrom(run[..k], 0) && Seen(run, k) == run[..k]
    ensures forall i :: 0 <= i < k ==> run[..k][i].check.now <= run[k].check.now
  {
    hide RecoversAt;
    assert forall i :: 0 <= i < k ==> run[..k][i] == run[i];
    forall i | 0 <= i < k ensures FreshAt(run[..k], i) {}
  }

  /**
   A check finds the stack healthy, counts a failure, waits for ten minutes after the last recovery, for an hour after the
   third last, or for the deploy lock, and else issues the command -- by the true history, however the file is pruned.
   */
  lemma VerdictsExactly(run: seq<Turn>, k: nat)
    requires k < |run| && Orderly(run) && AllSaved(run[..k])
    ensures VerdictOf(Pruned(LoadedBy(run, k), run[k].check), run[k].check) ==
            Judged(History(run[..k]), Streak(run[..k]), run[k].check)
  {
    hide RecoversAt, FileAt, Decided, Orderly, Fresh, SavedFrom;
    var c, h := run[k].check, History(run[..k]);
    PrefixIsSaved(run, k);
    OrderlyMeans(run[..k]);
    FileCovers(run[..k], c.now);
    CountIsStreak(run[..k]);
    HistoryIsPast(run[..k], c.now);
    RecentThree(h, c.now);
  }

  lemma OrderlyMeans(run: seq<Turn>)
    requires Orderly(run)
    ensures Timely(run) && InTurn(run)
  {}

  /** So it recovers exactly at the third failure or later, within the limits, with the lock free and a command that works. */
  lemma RecoversExactly(run: seq<Turn>, k: nat)
    requires k < |run| && Orderly(run) && AllSaved(run[..k])
    ensures var (c, h) := (run[k].check, History(run[..k]));
            RecoversAt(run, k) <==>
            && !c.healthy && Streak(run[..k]) >= 2
            && c.now - (if |h| == 0 then 0.0 else h[|h| - 1]) >= 600.0 && (|h| >= 3 ==> c.now - h[|h| - 3] >= 3600.0)
            && c.lockFree && c.commandOk
  {
    hide VerdictOf, Pruned, LoadedBy, History, Streak, Orderly;
    VerdictsExactly(run, k);
  }
}
