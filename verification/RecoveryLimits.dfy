/** How often recovery may act over whole runs: what the limits need, and that they need all of it. */
module RecoveryLimits {
  import opened Wrappers
  import opened Sequences
  import opened Recovery

  // ---- What the file must say of the history -------------------------------------------------

  /** From time `t` on, the state says of the history all that the limits ask: the last recovery and those of the last hour. */
  ghost predicate Covers(s: State, h: seq<real>, t: real) {
    s.last == LastOf(h) && Filter(s.recoveries, Recent(t)) == Filter(h, Recent(t))
  }

  /** Pruning twice with a later clock is pruning once. */
  lemma PruneAgain(h: seq<real>, before: real, now: real)
    requires before <= now
    ensures Filter(Filter(h, Recent(before)), Recent(now)) == Filter(h, Recent(now))
  {
    FilterFilter(h, Recent(now), Recent(before), Recent(now));
  }

  lemma CoversLater(s: State, h: seq<real>, t: real, u: real)
    requires Covers(s, h, t) && t <= u
    ensures Covers(s, h, u)
  {
    PruneAgain(s.recoveries, t, u);
    PruneAgain(h, t, u);
  }

  function After(s: State, c: Check, h: seq<real>): seq<real> { if Recovers(s, c) then h + [c.now] else h }

  lemma CoversDecision(s: State, c: Check, h: seq<real>)
    requires Covers(s, h, c.now)
    ensures Covers(Decided(s, c), After(s, c, h), c.now)
  {
    PruneAgain(h, c.now, c.now);
    FilterAppend(h, c.now, Recent(c.now));
    FilterAppend(Filter(h, Recent(c.now)), c.now, Recent(c.now));
  }

  ghost predicate Past(h: seq<real>, now: real) { forall i :: 0 <= i < |h| ==> h[i] <= now }

  /** A sorted history with three entries in the last hour has its last three in the last hour. */
  lemma LastThreeRecent(h: seq<real>, now: real)
    requires Sorted(h, RealOrder) && |h| >= 3 && now - h[|h| - 3] < HOUR
    ensures |Filter(h, Recent(now))| >= 3
  {
    var n := |h| - 3;
    assert RealOrder(h[n], h[n + 1]) && RealOrder(h[n], h[n + 2]);
    assert h == h[..n] + [h[n], h[n + 1], h[n + 2]];
    FilterConcat(h[..n], [h[n], h[n + 1], h[n + 2]], Recent(now));
    FilterAll([h[n], h[n + 1], h[n + 2]], Recent(now));
  }

  /** One more recovery, decided on a state that covers the history. */
  lemma RecoveryIsBounded(h: seq<real>, s: State, c: Check)
    requires Bounded(h) && Sorted(h, RealOrder) && Recovers(s, c) && Covers(s, h, c.now)
    ensures Bounded(h + [c.now])
  {
    hide Filter;
    if |h| >= 3 && c.now - h[|h| - 3] < HOUR {
      LastThreeRecent(h, c.now);
    }
    forall i | 0 <= i < |h| ensures c.now - h[i] >= COOLDOWN_SECONDS && (i + 3 <= |h| ==> c.now - h[i] >= HOUR) {
      assert i < |h| - 1 ==> RealOrder(h[i], h[|h| - 1]);
      assert i + 3 < |h| ==> RealOrder(h[i], h[|h| - 3]);
    }
  }

  lemma {:induction false} HistoryIsPast(run: seq<Turn>, now: real)
    requires Timely(run) && forall k :: 0 <= k < |run| ==> run[k].check.now <= now
    ensures Sorted(History(run), RealOrder) && Past(History(run), now)
  {
    hide RecoversAt;
    if |run| > 0 {
      HistoryIsPast(run[..|run| - 1], run[|run| - 1].check.now);
    }
  }

  // ---- Overlapping checks: what suffices --------------------------------------------------------

  /** Turn `k`, if it recovers or leaves a file, has loaded a file that knows every recovery before it. */
  ghost predicate FreshAt(run: seq<Turn>, k: nat)
    requires k < |run|
  {
    run[k].check.saved || RecoversAt(run, k) ==>
      forall j :: 0 <= j < k && RecoversAt(run, j) ==> run[j].check.saved && j < run[k].version
  }

  ghost predicate Fresh(run: seq<Turn>) { forall k :: 0 <= k < |run| ==> FreshAt(run, k) }

  ghost predicate SavedFrom(run: seq<Turn>, n: nat) {
    forall j :: n <= j < |run| && RecoversAt(run, j) ==> run[j].check.saved
  }

  lemma FreshPrefix(run: seq<Turn>, n: nat)
    requires n <= |run| && Fresh(run)
    ensures Fresh(run[..n])
    ensures Timely(run) ==> Timely(run[..n])
  {
    hide RecoversAt;
    forall k | 0 <= k < n ensures FreshAt(run[..n], k) {
      assert FreshAt(run, k);
      PrefixDecides(run[..n], run, k);
      forall j | 0 <= j < k ensures RecoversAt(run[..n], j) == RecoversAt(run, j) {
        PrefixDecides(run[..n], run, j);
      }
    }
  }

  /** Turns that do not recover add nothing to the history. */
  lemma {:induction false} HistoryUnchanged(run: seq<Turn>, n: nat)
    requires n <= |run| && forall j :: n <= j < |run| ==> !RecoversAt(run, j)
    ensures History(run) == History(run[..n])
  {
    hide RecoversAt;
    if n < |run| {
      var init := run[..|run| - 1];
      forall j | n <= j < |init| ensures !RecoversAt(init, j) {
        PrefixDecides(init, run, j);
      }
      HistoryUnchanged(init, n);
      assert init[..n] == run[..n];
    } else {
      assert run[..n] == run;
    }
  }

  /** While every recovery is saved, the file covers the whole history at any later time. */
  lemma {:induction false} FileCovers(run: seq<Turn>, now: real)
    requires Timely(run) && Fresh(run) && SavedFrom(run, 0)
    requires forall k :: 0 <= k < |run| ==> run[k].check.now <= now
    ensures Covers(Loaded(FileAt(run)), History(run), now)
    decreases |run|, 0
  {
    hide Recovers, Covers, Decided;
    if |run| == 0 {
      InitialCovers(now);
    } else {
      var k := |run| - 1;
      var c := run[k].check;
      if c.saved {
        LoadCovers(run, k);
        CoversDecision(LoadedBy(run, k), c, History(run[..k]));
        CoversLater(Decided(LoadedBy(run, k), c), History(run), c.now, now);
      } else {
        FreshPrefix(run, k);
        SavedPrefix(run, k);
        FileCovers(run[..k], now);
      }
    }
  }

  lemma InitialCovers(now: real)
    ensures Covers(INITIAL, [], now)
  {}

  lemma SavedPrefix(run: seq<Turn>, n: nat)
    requires n <= |run| && forall j :: 0 <= j < n && RecoversAt(run, j) ==> run[j].check.saved
    ensures SavedFrom(run[..n], 0)
  {
    hide RecoversAt;
    forall j | 0 <= j < n ensures RecoversAt(run[..n], j) == RecoversAt(run, j) {
      PrefixDecides(run[..n], run, j);
    }
  }

  /** What a fresh turn has loaded covers everything before it. */
  lemma {:induction false} LoadCovers(run: seq<Turn>, k: nat)
    requires k < |run| && Timely(run) && Fresh(run) && (run[k].check.saved || RecoversAt(run, k))
    ensures Covers(LoadedBy(run, k), History(run[..k]), run[k].check.now)
    decreases k, 1
  {
    hide RecoversAt, Covers;
    var n := Min(run[k].version, k);
    assert FreshAt(run, k);
    FreshPrefix(run, n);
    SavedPrefix(run, n);
    FileCovers(run[..n], run[k].check.now);
    forall j | n <= j < k ensures !RecoversAt(run[..k], j) {
      PrefixDecides(run[..k], run, j);
    }
    HistoryUnchanged(run[..k], n);
    assert run[..k][..n] == run[..n];
  }

  /**
   Over every run with a clock that never goes back -- checks overlapping, files lost, saves failing -- recoveries are
   at least ten minutes apart and at most three an hour, as long as every check that recovers or leaves a file has
   loaded a file that knows all recoveries before it.
   */
  lemma {:induction false} FreshRecoveriesAreBounded(run: seq<Turn>)
    requires Timely(run) && Fresh(run)
    ensures Bounded(History(run))
  {
    hide Bounded, Covers;
    if |run| > 0 {
      var k := |run| - 1;
      FreshPrefix(run, k);
      FreshRecoveriesAreBounded(run[..k]);
      if RecoversAt(run, k) {
        LoadCovers(run, k);
        HistoryIsPast(run[..k], run[k].check.now);
        RecoveryIsBounded(History(run[..k]), LoadedBy(run, k), run[k].check);
      }
    } else {
      NothingIsBounded();
    }
  }

  lemma NothingIsBounded()
    ensures Bounded([])
  {}

  // ---- Checks in turn: exactly when ------------------------------------------------------------

  ghost predicate Orderly(run: seq<Turn>) { Timely(run) && InTurn(run) }

  /** Checks that take turns and save every recovery keep the limits. */
  lemma RecoveriesAreBounded(run: seq<Turn>)
    requires Orderly(run) && SavedFrom(run, 0)
    ensures Bounded(History(run))
  {
    hide RecoversAt, Bounded;
    assert forall k :: 0 <= k < |run| ==> FreshAt(run, k);
    FreshRecoveriesAreBounded(run);
  }

  /** An unhealthy check a second after `c`, with everything in its favour. */
  function Again(c: Check): Check { Check(c.now + 1.0, false, true, true, true) }

  lemma {:induction false} FilterShorter(s: seq<real>, p: real -> bool)
    ensures |Filter(s, p)| <= |s|
  {
    if |s| > 0 { FilterShorter(s[..|s| - 1], p); }
  }

  /** Whoever loads the state a command was issued on may issue it again, however soon. */
  lemma SameStateRecoversAgain(s: State, first: Check, second: Check)
    requires Commands(s, first) && first.now <= second.now && !second.healthy && second.lockFree && second.commandOk
    ensures Recovers(s, second)
  {
    PruneAgain(s.recoveries, first.now, second.now);
    FilterShorter(Filter(s.recoveries, Recent(first.now)), Recent(second.now));
  }

  /** A failed command uses up neither cooldown nor budget, even when its state is saved. */
  lemma FailedCommandsAreNotLimited(s: State, c: Check, next: Check)
    requires VerdictOf(Pruned(s, c), c).CommandFailed? && c.now <= next.now && !next.healthy && next.lockFree && next.commandOk
    ensures Recovers(Decided(s, c), next)
  {
    FilterShorter(Decided(s, c).recoveries, Recent(next.now));
  }

  /** The run with its turns from `n` on replaced by `later`. */
  function Onward(run: seq<Turn>, n: nat, later: seq<Turn>): seq<Turn>
    requires n <= |run|
  {
    run[..n] + later
  }

  lemma OnwardAgrees(run: seq<Turn>, n: nat, later: seq<Turn>, k: nat)
    requires k < n <= |run|
    ensures Onward(run, n, later)[k] == run[k]
    ensures RecoversAt(Onward(run, n, later), k) == RecoversAt(run, k)
    ensures IssuesAt(Onward(run, n, later), k) == IssuesAt(run, k)
  {
    assert Onward(run, n, later)[..n] == run[..n];
    PrefixDecides(run[..n], run, k);
    PrefixDecides(run[..n], Onward(run, n, later), k);
  }

  /** However it goes on after `n` turns, as long as later recoveries are saved, the limits hold. */
  ghost predicate StaysBounded(run: seq<Turn>, n: nat)
    requires n <= |run|
  {
    forall later :: Orderly(Onward(run, n, later)) && SavedFrom(Onward(run, n, later), n) ==>
      Bounded(History(Onward(run, n, later)))
  }

  lemma OneMoreTurn(run: seq<Turn>, k: nat, c: Check)
    requires k < |run| && Orderly(run) && run[k].check.now <= c.now
    ensures var x := Onward(run, k + 1, [Turn(c, k + 1)]);
            Orderly(x) && |x| == k + 2 && x[k + 1].check == c && x[..k + 1] == run[..k + 1] && Seen(x, k + 1) == run[..k + 1]
  {}

  lemma CloseTogether(h: seq<real>, j: nat)
    requires 0 < j < |h| && h[j] - h[j - 1] < COOLDOWN_SECONDS
    ensures !Bounded(h)
  {}

  lemma TwoInARowUnbounded(run: seq<Turn>, k: nat, x: seq<Turn>)
    requires k < |run| && RecoversAt(run, k) && |x| == k + 2 && x[..k + 1] == run[..k + 1]
    requires RecoversAt(x, k + 1) && x[k + 1].check.now == run[k].check.now + 1.0
    ensures !Bounded(History(x))
  {
    hide RecoversAt;
    PrefixDecides(run[..k + 1], run, k);
    var y := run[..k + 1];
    assert x[..|x| - 1] == y && y[|y| - 1] == run[k];
    assert History(y) == History(y[..k]) + [run[k].check.now];
    assert History(x) == History(y) + [run[k].check.now + 1.0];
    CloseTogether(History(x), |History(x)| - 1);
  }

  lemma UnsavedRecoveryBreaks(run: seq<Turn>, k: nat)
    requires k < |run| && Orderly(run) && RecoversAt(run, k) && !run[k].check.saved
    ensures !StaysBounded(run, k + 1)
  {
    hide Recovers, Bounded;
    var c := Again(run[k].check);
    var later := [Turn(c, k + 1)];
    var x := Onward(run, k + 1, later);
    OneMoreTurn(run, k, c);
    assert run[..k + 1][..k] == run[..k];
    assert FileAt(run[..k + 1]) == FileAt(run[..k]);
    assert LoadedBy(x, k + 1) == LoadedBy(run, k);
    RecoveryCommands(LoadedBy(run, k), run[k].check);
    SameStateRecoversAgain(LoadedBy(run, k), run[k].check, c);
    assert SavedFrom(x, k + 1);
    TwoInARowUnbounded(run, k, x);
  }

  lemma RecoveryCommands(s: State, c: Check)
    requires Recovers(s, c)
    ensures Commands(s, c)
  {}

  /**
   Checks that take turns keep the limits, whatever comes after any of them, if and only if every check that recovers
   saves its state. Nothing depends on the saves of the others.
   */
  lemma BoundedExactly(run: seq<Turn>)
    requires Orderly(run)
    ensures SavedFrom(run, 0) <==> forall n: nat :: n <= |run| ==> StaysBounded(run, n)
  {
    hide RecoversAt, Bounded;
    if SavedFrom(run, 0) {
      forall n: nat, later | n <= |run| && Orderly(Onward(run, n, later)) && SavedFrom(Onward(run, n, later), n)
        ensures Bounded(History(Onward(run, n, later)))
      {
        var x := Onward(run, n, later);
        forall j | 0 <= j < |x| && RecoversAt(x, j) ensures x[j].check.saved {
          if j < n { OnwardAgrees(run, n, later, j); }
        }
        RecoveriesAreBounded(x);
      }
    } else {
      var k :| 0 <= k < |run| && RecoversAt(run, k) && !run[k].check.saved;
      UnsavedRecoveryBreaks(run, k);
    }
  }

  // ---- The command itself ---------------------------------------------------------------------------

  /** A command that goes out succeeds, and its state is saved. */
  ghost predicate CommandsLastFrom(run: seq<Turn>, n: nat) {
    forall j :: n <= j < |run| && IssuesAt(run, j) ==> RecoversAt(run, j) && run[j].check.saved
  }

  ghost predicate CommandsStayBounded(run: seq<Turn>, n: nat)
    requires n <= |run|
  {
    forall later :: Orderly(Onward(run, n, later)) && CommandsLastFrom(Onward(run, n, later), n) ==>
      Bounded(Issued(Onward(run, n, later)))
  }

  lemma {:induction false} IssuedAreRecoveries(run: seq<Turn>)
    requires CommandsLastFrom(run, 0)
    ensures Issued(run) == History(run)
  {
    hide Recovers, Commands;
    if |run| > 0 {
      var k := |run| - 1;
      forall j | 0 <= j < k && IssuesAt(run[..k], j) ensures RecoversAt(run[..k], j) && run[..k][j].check.saved {
        PrefixDecides(run[..k], run, j);
      }
      IssuedAreRecoveries(run[..k]);
      if RecoversAt(run, k) { RecoveryCommands(LoadedBy(run, k), run[k].check); }
    }
  }

  lemma TwoCommandsUnbounded(run: seq<Turn>, k: nat, x: seq<Turn>)
    requires k < |run| && IssuesAt(run, k) && |x| == k + 2 && x[..k + 1] == run[..k + 1]
    requires IssuesAt(x, k + 1) && x[k + 1].check.now == run[k].check.now + 1.0
    ensures !Bounded(Issued(x))
  {
    hide IssuesAt;
    var y := run[..k + 1];
    PrefixDecides(y, run, k);
    assert x[..|x| - 1] == y && y[|y| - 1] == run[k];
    assert Issued(y) == Issued(y[..k]) + [run[k].check.now];
    assert Issued(x) == Issued(y) + [run[k].check.now + 1.0];
    CloseTogether(Issued(x), |Issued(x)| - 1);
  }

  lemma WastedCommandBreaks(run: seq<Turn>, k: nat)
    requires k < |run| && Orderly(run) && IssuesAt(run, k) && !(RecoversAt(run, k) && run[k].check.saved)
    ensures !CommandsStayBounded(run, k + 1)
  {
    hide Recovers, Commands, Bounded, Decided;
    var c := Again(run[k].check);
    var later := [Turn(c, k + 1)];
    var x := Onward(run, k + 1, later);
    OneMoreTurn(run, k, c);
    assert run[..k + 1][..k] == run[..k];
    var s := LoadedBy(run, k);
    if run[k].check.saved {
      assert Seen(run[..k + 1], k) == Seen(run, k);
      assert LoadedBy(x, k + 1) == Decided(s, run[k].check);
      WastedIsFailed(s, run[k].check);
      FailedCommandsAreNotLimited(s, run[k].check, c);
    } else {
      assert LoadedBy(x, k + 1) == s;
      SameStateRecoversAgain(s, run[k].check, c);
    }
    RecoveryCommands(LoadedBy(x, k + 1), c);
    TwoCommandsUnbounded(run, k, x);
  }

  lemma WastedIsFailed(s: State, c: Check)
    requires Commands(s, c) && !Recovers(s, c)
    ensures VerdictOf(Pruned(s, c), c).CommandFailed?
  {}

  /**
   Commands, too, stay within the limits whatever comes next if and only if none of them fails and each is saved: a
   failed one is issued again by the next unhealthy check.
   */
  lemma CommandsBoundedExactly(run: seq<Turn>)
    requires Orderly(run)
    ensures CommandsLastFrom(run, 0) <==> forall n: nat :: n <= |run| ==> CommandsStayBounded(run, n)
  {
    hide Recovers, Commands, Bounded;
    if CommandsLastFrom(run, 0) {
      forall n: nat, later | n <= |run| && Orderly(Onward(run, n, later)) && CommandsLastFrom(Onward(run, n, later), n)
        ensures Bounded(Issued(Onward(run, n, later)))
      {
        var x := Onward(run, n, later);
        forall j | 0 <= j < |x| && IssuesAt(x, j) ensures RecoversAt(x, j) && x[j].check.saved {
          if j < n { OnwardAgrees(run, n, later, j); }
        }
        IssuedAreRecoveries(x);
        forall j | 0 <= j < |x| && RecoversAt(x, j) ensures x[j].check.saved {
          RecoveryCommands(LoadedBy(x, j), x[j].check);
        }
        RecoveriesAreBounded(x);
      }
    } else {
      var k :| 0 <= k < |run| && IssuesAt(run, k) && !(RecoversAt(run, k) && run[k].check.saved);
      WastedCommandBreaks(run, k);
    }
  }

  // ---- Three failures in a row ----------------------------------------------------------------------

  /** A turn that starts the count over leaves a file that says so. */
  ghost predicate RestartsAt(run: seq<Turn>, k: nat)
    requires k < |run|
  {
    Resets(run, k) ==> run[k].check.saved || LoadedBy(run, k).failures <= 0
  }

  ghost predicate RestartsFrom(run: seq<Turn>, n: nat) { forall j :: n <= j < |run| ==> RestartsAt(run, j) }

  lemma FailuresAfter(s: State, c: Check)
    ensures Decided(s, c).failures == if c.healthy || Recovers(s, c) then 0 else s.failures + 1
    ensures Recovers(s, c) ==> !c.healthy && s.failures >= 2
  {
    hide Filter;
  }

  lemma {:induction false} CountNeverAhead(run: seq<Turn>)
    requires InTurn(run) && RestartsFrom(run, 0)
    ensures Loaded(FileAt(run)).failures <= Streak(run)
  {
    hide Recovers, Decided;
    if |run| > 0 {
      var k := |run| - 1;
      RestartsPrefix(run, k);
      CountNeverAhead(run[..k]);
      assert RestartsAt(run, k);
      FailuresAfter(LoadedBy(run, k), run[k].check);
    }
  }

  lemma ResetsAgree(run: seq<Turn>, longer: seq<Turn>, k: nat)
    requires k < |run| <= |longer| && longer[..|run|] == run
    ensures Resets(longer, k) == Resets(run, k)
  {
    hide Recovers;
    PrefixDecides(run, longer, k);
  }

  lemma {:induction false} StreakReaches(run: seq<Turn>, n: nat)
    requires n <= Streak(run)
    ensures n <= |run| && forall i :: |run| - n <= i < |run| ==> !Resets(run, i)
  {
    hide Recovers;
    if n > 0 {
      var init := run[..|run| - 1];
      StreakReaches(init, n - 1);
      forall i | |run| - n <= i < |run| ensures !Resets(run, i) {
        if i < |init| { ResetsAgree(init, run, i); }
      }
    }
  }

  /** Each recovery is the third or later unhealthy check in a row, if every restart of the count before it is remembered. */
  lemma RecoveryFollowsThreeFailures(run: seq<Turn>, k: nat)
    requires k < |run| && InTurn(run) && RecoversAt(run, k) && RestartsFrom(run[..k], 0)
    ensures FollowsThree(run, k)
  {
    hide Recovers, RestartsFrom;
    assert forall i :: 0 <= i < k ==> run[..k][i] == run[i];
    CountNeverAhead(run[..k]);
    FailuresAfter(LoadedBy(run, k), run[k].check);
    StreakReaches(run[..k], 2);
    forall i | k - 2 <= i < k ensures !Resets(run, i) {
      ResetsAgree(run[..k], run, i);
    }
  }

  ghost predicate AllFollowThree(run: seq<Turn>) { forall k :: 0 <= k < |run| && RecoversAt(run, k) ==> FollowsThree(run, k) }

  ghost predicate ThreeFrom(run: seq<Turn>, n: nat)
    requires n <= |run|
  {
    forall later :: Orderly(Onward(run, n, later)) && RestartsFrom(Onward(run, n, later), n) ==>
      AllFollowThree(Onward(run, n, later))
  }

  /** A time at which neither cooldown nor budget holds a state back. */
  function Rested(s: State, now: real): real
    decreases |s.recoveries|
  {
    if |s.recoveries| == 0 then if now < s.last + COOLDOWN_SECONDS then s.last + COOLDOWN_SECONDS else now
    else
      var r := Rested(s.(recoveries := s.recoveries[..|s.recoveries| - 1]), now);
      var x := s.recoveries[|s.recoveries| - 1] + HOUR;
      if r < x then x else r
  }

  lemma {:induction false} RestedIsRested(s: State, now: real)
    ensures Rested(s, now) >= now && Rested(s, now) - s.last >= COOLDOWN_SECONDS
    ensures forall x :: x in s.recoveries ==> Rested(s, now) - x >= HOUR
    decreases |s.recoveries|
  {
    if |s.recoveries| > 0 {
      var init := s.recoveries[..|s.recoveries| - 1];
      RestedIsRested(s.(recoveries := init), now);
      assert s.recoveries == init + [s.recoveries[|s.recoveries| - 1]];
    }
  }

  function Sick(t: real): Check { Check(t, false, true, true, true) }

  /** After a rest, a state with one or two failures to its name recovers at the second or first unhealthy check. */
  lemma RestedRecovers(s: State, now: real)
    ensures s.failures >= 2 ==> Recovers(s, Sick(Rested(s, now)))
    ensures s.failures == 1 ==>
              !Recovers(s, Sick(Rested(s, now))) && Recovers(Decided(s, Sick(Rested(s, now))), Sick(Rested(s, now)))
  {
    var t := Rested(s, now);
    RestedIsRested(s, now);
    FilterNone(s.recoveries, Recent(t));
  }

  lemma ForgottenRestartBreaks(run: seq<Turn>, k: nat)
    requires k < |run| && Orderly(run) && !RestartsAt(run, k)
    ensures !ThreeFrom(run, k + 1)
  {
    hide Recovers, Decided, Rested, FollowsThree;
    var s := LoadedBy(run, k);
    var c := Sick(Rested(s, run[k].check.now));
    RestedIsRested(s, run[k].check.now);
    RestedRecovers(s, run[k].check.now);
    assert run[..k + 1][..k] == run[..k];
    OneMoreTurn(run, k, c);
    var one := [Turn(c, k + 1)];
    var x := Onward(run, k + 1, one);
    assert LoadedBy(x, k + 1) == s;
    if s.failures >= 2 {
      assert RestartsFrom(x, k + 1);
      ResetSpoils(run, k, x, k + 1);
    } else {
      OneMoreTurn(x, k + 1, c);
      var two := [Turn(c, k + 1), Turn(c, k + 2)];
      var y := Onward(run, k + 1, two);
      assert y == Onward(x, k + 2, [Turn(c, k + 2)]);
      PrefixDecides(x, y, k + 1);
      assert LoadedBy(y, k + 2) == Decided(s, c) by {
        assert Seen(y, k + 2) == x;
      }
      assert RestartsFrom(y, k + 1);
      ResetSpoils(run, k, y, k + 2);
    }
  }

  /** A recovery one or two turns after the count was started over does not follow three failures. */
  lemma ResetSpoils(run: seq<Turn>, k: nat, x: seq<Turn>, r: nat)
    requires k < |run| && Resets(run, k) && k < r <= k + 2 && r < |x| && x[..k + 1] == run[..k + 1]
    ensures !FollowsThree(x, r)
  {
    hide Resets;
    ResetsAgree(run[..k + 1], run, k);
    ResetsAgree(run[..k + 1], x, k);
  }

  /**
   Among checks that take turns, every recovery follows three failures in a row, whatever comes next, if and only if
   each turn that starts the count over saves that, or had nothing to forget.
   */
  lemma ThreeFailuresExactly(run: seq<Turn>)
    requires Orderly(run)
    ensures RestartsFrom(run, 0) <==> forall n: nat :: n <= |run| ==> ThreeFrom(run, n)
  {
    hide Recovers, FollowsThree;
    if RestartsFrom(run, 0) {
      forall n: nat, later | n <= |run| && Orderly(Onward(run, n, later)) && RestartsFrom(Onward(run, n, later), n)
        ensures AllFollowThree(Onward(run, n, later))
      {
        var x := Onward(run, n, later);
        forall j | 0 <= j < |x| ensures RestartsAt(x, j) {
          if j < n {
            assert RestartsAt(run, j);
            RestartAgrees(run, n, later, j);
          }
        }
        forall k | 0 <= k < |x| && RecoversAt(x, k) ensures FollowsThree(x, k) {
          RestartsPrefix(x, k);
          RecoveryFollowsThreeFailures(x, k);
        }
      }
    } else {
      var k :| 0 <= k < |run| && !RestartsAt(run, k);
      ForgottenRestartBreaks(run, k);
    }
  }

  lemma RestartsPrefix(run: seq<Turn>, k: nat)
    requires k <= |run| && RestartsFrom(run, 0)
    ensures RestartsFrom(run[..k], 0)
  {
    hide Recovers;
    forall j | 0 <= j < k ensures RestartsAt(run[..k], j) {
      assert RestartsAt(run, j);
      PrefixDecides(run[..k], run, j);
    }
  }

  lemma RestartAgrees(run: seq<Turn>, n: nat, later: seq<Turn>, j: nat)
    requires j < n <= |run|
    ensures RestartsAt(Onward(run, n, later), j) == RestartsAt(run, j)
  {
    hide Recovers;
    assert Onward(run, n, later)[..n] == run[..n];
    PrefixDecides(run[..n], run, j);
    PrefixDecides(run[..n], Onward(run, n, later), j);
  }

  // ---- One overlapping check ----------------------------------------------------------------------------

  /** After any recovery, a check a second later that overlaps it -- it has loaded the same file -- breaks the limits. */
  lemma OverlapBreaks(run: seq<Turn>, k: nat)
    requires k < |run| && Timely(run) && RecoversAt(run, k)
    ensures var x := Onward(run, k + 1, [Turn(Again(run[k].check), |Seen(run, k)|)]);
            Timely(x) && RecoversAt(x, k + 1) && !Bounded(History(x))
  {
    hide Recovers, Bounded;
    var c := Again(run[k].check);
    var x := Onward(run, k + 1, [Turn(c, |Seen(run, k)|)]);
    assert Seen(x, k + 1) == Seen(run, k);
    RecoveryCommands(LoadedBy(run, k), run[k].check);
    SameStateRecoversAgain(LoadedBy(run, k), run[k].check, c);
    assert x[..k + 1] == run[..k + 1];
    TwoInARowUnbounded(run, k, x);
  }

  /** The file of any run holds at most three times. */
  lemma {:induction false} FileStaysSmall(run: seq<Turn>)
    ensures |Loaded(FileAt(run)).recoveries| <= MAX_PER_HOUR
    decreases |run|
  {
    if |run| > 0 {
      var k := |run| - 1;
      FileStaysSmall(run[..k]);
      FileStaysSmall(Seen(run, k));
      FilterShorter(LoadedBy(run, k).recoveries, Recent(run[k].check.now));
    }
  }

  function First(n: nat): seq<Turn>
    requires n <= 3
  {
    [Turn(Sick(1000.0), 0), Turn(Sick(1001.0), 1), Turn(Sick(1002.0).(saved := false), 2)][..n]
  }

  lemma TwoFailures()
    ensures FileAt(First(2)) == Some(State(2, [], 0.0))
  {
    assert First(2)[..1] == First(1) && First(1)[..0] == [];
    assert Seen(First(2), 1) == First(1) && Seen(First(1), 0) == [];
    assert FileAt(First(1)) == Some(State(1, [], 0.0));
  }

  /** The limits are lost within four checks: the third recovers without being saved, the fourth recovers a second later. */
  lemma UnsavedRecoveryIsForgotten()
    ensures Orderly(First(3)) && RecoversAt(First(3), 2) && !First(3)[2].check.saved && !StaysBounded(First(3), 3)
  {
    hide StaysBounded;
    var run := First(3);
    TwoFailures();
    assert Seen(run, 2) == First(2);
    assert RecoversAt(run, 2);
    UnsavedRecoveryBreaks(run, 2);
  }

  /** Two failures, and then a healthy check that is not saved. */
  function Interrupted(): seq<Turn> { First(2) + [Turn(Check(1002.0, true, true, true, false), 2)] }

  /** The healthy check is forgotten: the failure after it counts as the third in a row and recovers. */
  lemma HealthyCheckIsForgotten()
    ensures var run := Interrupted() + [Turn(Sick(1003.0), 3)]; Orderly(run) && RecoversAt(run, 3) && !FollowsThree(run, 3)
  {
    var run := Interrupted() + [Turn(Sick(1003.0), 3)];
    TwoFailures();
    assert Interrupted()[..2] == First(2);
    assert Seen(run, 3) == Interrupted();
    assert FileAt(Interrupted()) == Some(State(2, [], 0.0));
    assert Resets(run, 2);
  }
}
