/** Bounded automatic recovery: a health check that may restart the stack, remembered between runs in a small state file. */
module Recovery {
  import opened Wrappers
  import opened Sequences

  const FAILURES_BEFORE_RECOVERY := 3
  const COOLDOWN_SECONDS := 600.0
  const MAX_PER_HOUR := 3
  const HOUR := 3600.0

  datatype State = State(failures: int, recoveries: seq<real>, last: real)

  const INITIAL := State(0, [], 0.0)

  /**
   One invocation: the clock, the health found, whether the deploy lock is free, whether the command succeeds, whether
   the state is saved.
   */
  datatype Check = Check(now: real, healthy: bool, lockFree: bool, commandOk: bool, saved: bool)

  datatype Verdict = Healthy | Failing(failures: int) | CoolingDown | Exhausted | Deploying | CommandFailed | Recovered

  function Recent(now: real): real -> bool { x => now - x < HOUR }

  /** A missing or unreadable file is a fresh start. */
  function Loaded(file: Option<State>): State { file.GetOr(INITIAL) }

  /** `state.update(consecutive_failures=..., recoveries=...)`. */
  function Pruned(s: State, c: Check): State {
    State(if c.healthy then 0 else s.failures + 1, Filter(s.recoveries, Recent(c.now)), s.last)
  }

  function VerdictOf(p: State, c: Check): Verdict {
    if c.healthy then Healthy
    else if p.failures < FAILURES_BEFORE_RECOVERY then Failing(p.failures)
    else if c.now - p.last < COOLDOWN_SECONDS then CoolingDown
    else if |p.recoveries| >= MAX_PER_HOUR then Exhausted
    else if !c.lockFree then Deploying
    else if !c.commandOk then CommandFailed
    else Recovered
  }

  predicate Recovers(s: State, c: Check) { VerdictOf(Pruned(s, c), c).Recovered? }

  /** The state a check arrives at from the one it loaded. */
  function Decided(s: State, c: Check): State {
    var p := Pruned(s, c);
    if Recovers(s, c) then State(0, p.recoveries + [c.now], c.now) else p
  }

  // ---- The host ----------------------------------------------------------------------------

  datatype Holder = Free | Ours | Theirs

  class Host {
    var file: Option<State>
    var lock: Holder
    /** When the recovery command was issued. */
    ghost var issued: seq<real>

    constructor (file: Option<State>, lock: Holder)
      ensures this.file == file && this.lock == lock && issued == []
    {
      this.file := file;
      this.lock := lock;
      issued := [];
    }

    method TryAcquireDeployGuard() returns (ok: bool)
      requires !lock.Ours?
      modifies `lock
      ensures ok == old(lock).Free? && lock == if ok then Ours else old(lock)
    {
      ok := lock.Free?;
      if ok { lock := Ours; }
    }

    method ReleaseDeployGuard()
      requires lock.Ours?
      modifies `lock
      ensures lock.Free?
    {
      lock := Free;
    }

    /** The restart is issued only by whoever holds the deploy lock. */
    method Compose(now: real, commandOk: bool) returns (ok: bool)
      requires lock.Ours?
      modifies `issued
      ensures issued == old(issued) + [now] && ok == commandOk
    {
      issued := issued + [now];
      ok := commandOk;
    }

    method SaveState(s: State, works: bool)
      modifies `file
      ensures file == if works then Some(s) else old(file)
    {
      if works { file := Some(s); }
    }

    method MaybeRecover(c: Check) returns (v: Verdict)
      requires !lock.Ours? && c.lockFree == lock.Free?
      modifies this
      ensures lock == old(lock)
      ensures v == VerdictOf(Pruned(Loaded(old(file)), c), c)
      ensures file == if c.saved then Some(Decided(Loaded(old(file)), c)) else old(file)
      ensures issued == if v.Recovered? || v.CommandFailed? then old(issued) + [c.now] else old(issued)
    {
      var state := Loaded(file);
      var recoveries := Filter(state.recoveries, Recent(c.now));
      if c.healthy {
        SaveState(State(0, recoveries, state.last), c.saved);
        return Healthy;
      }
      var failures := state.failures + 1;
      var last := state.last;
      state := State(failures, recoveries, last);
      if failures < FAILURES_BEFORE_RECOVERY {
        SaveState(state, c.saved);
        return Failing(failures);
      }
      if c.now - last < COOLDOWN_SECONDS {
        SaveState(state, c.saved);
        return CoolingDown;
      }
      if |recoveries| >= MAX_PER_HOUR {
        SaveState(state, c.saved);
        return Exhausted;
      }
      var guarded := TryAcquireDeployGuard();
      if !guarded {
        SaveState(state, c.saved);
        return Deploying;
      }
      var ok := Compose(c.now, c.commandOk);
      if !ok {
        SaveState(state, c.saved);
        v := CommandFailed;
      } else {
        recoveries := recoveries + [c.now];
        SaveState(State(0, recoveries, c.now), c.saved);
        v := Recovered;
      }
      ReleaseDeployGuard();
    }
  }

  // ---- Whole runs ------------------------------------------------------------------------------

  /**
   One check of a run. It decides on the file as the first `version` turns of the run left it: all of them when checks
   take turns, fewer when they overlap, none when the file has been lost.
   */
  datatype Turn = Turn(check: Check, version: nat)

  /** The turns whose file turn `k` has loaded. */
  function Seen(run: seq<Turn>, k: nat): (seen: seq<Turn>)
    requires k < |run|
    ensures |seen| <= k
  {
    run[..Min(run[k].version, k)]
  }

  function FileAt(run: seq<Turn>): Option<State> {
    if |run| == 0 then None
    else
      var k := |run| - 1;
      if run[k].check.saved then Some(Decided(Loaded(FileAt(Seen(run, k))), run[k].check)) else FileAt(run[..k])
  }

  function LoadedBy(run: seq<Turn>, k: nat): State
    requires k < |run|
  {
    Loaded(FileAt(Seen(run, k)))
  }

  predicate RecoversAt(run: seq<Turn>, k: nat)
    requires k < |run|
  {
    Recovers(LoadedBy(run, k), run[k].check)
  }

  /** The recovery command goes out, whether or not it succeeds. */
  predicate Commands(s: State, c: Check) {
    VerdictOf(Pruned(s, c), c).Recovered? || VerdictOf(Pruned(s, c), c).CommandFailed?
  }

  predicate IssuesAt(run: seq<Turn>, k: nat)
    requires k < |run|
  {
    Commands(LoadedBy(run, k), run[k].check)
  }

  /** The times of all recoveries of the run, whatever the state file remembers. */
  function History(run: seq<Turn>): seq<real> {
    if |run| == 0 then []
    else
      var before, k := History(run[..|run| - 1]), |run| - 1;
      if RecoversAt(run, k) then before + [run[k].check.now] else before
  }

  /** The times at which the recovery command went out. */
  function Issued(run: seq<Turn>): seq<real> {
    if |run| == 0 then []
    else
      var before, k := Issued(run[..|run| - 1]), |run| - 1;
      if IssuesAt(run, k) then before + [run[k].check.now] else before
  }

  /** A check that is healthy or recovers starts the count of failures over. */
  predicate Resets(run: seq<Turn>, k: nat)
    requires k < |run|
  {
    run[k].check.healthy || RecoversAt(run, k)
  }

  /** Unhealthy checks since the last healthy one or recovery. */
  function Streak(run: seq<Turn>): nat {
    if |run| == 0 then 0 else if Resets(run, |run| - 1) then 0 else Streak(run[..|run| - 1]) + 1
  }

  /** The clock never goes back. */
  ghost predicate Timely(run: seq<Turn>) { forall i, j :: 0 <= i < j < |run| ==> run[i].check.now <= run[j].check.now }

  /** Checks take turns: each loads what the one before it has left. */
  ghost predicate InTurn(run: seq<Turn>) { forall k :: 0 <= k < |run| ==> run[k].version == k }

  predicate RealOrder(a: real, b: real) { a <= b }

  function LastOf(h: seq<real>): real { if |h| == 0 then 0.0 else h[|h| - 1] }

  /** Any two at least ten minutes apart, and every fourth at least an hour after the first: no hour holds more than three. */
  ghost predicate Bounded(h: seq<real>) {
    && (forall i, j :: 0 <= i < j < |h| ==> h[j] - h[i] >= 600.0)
    && forall i, j :: 0 <= i && i + 3 <= j < |h| ==> h[j] - h[i] >= 3600.0
  }

  /** Turn `k` is the third or later unhealthy check in a row, with no recovery in between. */
  ghost predicate FollowsThree(run: seq<Turn>, k: nat)
    requires k < |run|
  {
    k >= 2 && !run[k].check.healthy && forall i :: k - 2 <= i < k ==> !Resets(run, i)
  }

  /** What a turn loads and does depends on nothing after it. */
  lemma PrefixDecides(run: seq<Turn>, longer: seq<Turn>, k: nat)
    requires k < |run| <= |longer| && longer[..|run|] == run
    ensures longer[k] == run[k] && Seen(longer, k) == Seen(run, k)
    ensures RecoversAt(longer, k) == RecoversAt(run, k) && IssuesAt(longer, k) == IssuesAt(run, k)
  {
    assert longer[k] == longer[..|run|][k];
    assert longer[..Min(run[k].version, k)] == longer[..|run|][..Min(run[k].version, k)];
  }
}
