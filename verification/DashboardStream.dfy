/** Server-sent dashboard events: the replay buffer, the bounded latest-wins queue per client, and what a client receives. */
module DashboardStream {
  import opened Wrappers
  import opened Sequences

  const QUEUE_LIMIT := 2

  /** `full` marks an event that carries the complete dashboard state. */
  datatype Event = Event(id: nat, full: bool)

  ghost predicate Ascending(events: seq<Event>) {
    forall i, j :: 0 <= i < j < |events| ==> events[i].id < events[j].id
  }

  // ---- The replay buffer ---------------------------------------------------------------

  function After(id: nat): Event -> bool { (e: Event) => e.id > id }

  /** A complete state newer than `seen`. */
  predicate Replaces(e: Event, seen: nat) { e.full && e.id > seen }

  /** The first full event after `id`, counted from `i`. */
  function FirstFull(events: seq<Event>, id: nat, i: nat): (n: nat)
    requires i <= |events|
    ensures i <= n <= |events|
    ensures n < |events| ==> Replaces(events[n], id)
    ensures forall k :: i <= k < n ==> !Replaces(events[k], id)
    decreases |events| - i
  {
    if i == |events| || Replaces(events[i], id) then i else FirstFull(events, id, i + 1)
  }

  class EventBuffer {
    const limit: nat
    var events: seq<Event>
    var sequence: nat

    /** The retained events are the most recent ones, without a gap. */
    ghost predicate Valid()
      reads this
    {
      && 1 <= limit && |events| <= limit && |events| <= sequence
      && forall i :: 0 <= i < |events| ==> events[i].id == sequence - |events| + 1 + i
    }

    constructor (limit: nat)
      requires limit >= 1
      ensures Valid() && sequence == 0 && this.limit == limit
    {
      this.limit := limit;
      events := [];
      sequence := 0;
    }

    /** A full event supersedes everything before it; a `deque` past its limit drops its oldest. */
    method Append(full: bool) returns (e: Event)
      requires Valid()
      modifies this
      ensures Valid() && sequence == old(sequence) + 1 && e == Event(sequence, full)
      ensures full ==> events == [e]
      ensures !full ==> events == if old(|events|) < limit then old(events) + [e] else old(events)[1..] + [e]
    {
      if full { events := []; }
      sequence := sequence + 1;
      e := Event(sequence, full);
      if |events| == limit { events := events[1..]; }
      events := events + [e];
    }

    /** The last events up to now without a gap: all that follow `seen`, or from a complete state on. */
    ghost predicate CatchesUp(replay: seq<Event>, seen: nat)
      reads this
    {
      && |replay| <= |events| && replay == events[|events| - |replay|..]
      && (|replay| == 0 ==> seen == sequence)
      && (|replay| > 0 ==> replay[0].id == seen + 1 || (replay[0].full && replay[0].id > seen))
    }

    ghost predicate Retained(id: nat)
      reads this
    {
      exists k :: 0 <= k < |events| && events[k].id == id
    }

    /** Such a replay is what a client expects: ascending, newer than what it has seen, ending at the latest event. */
    lemma CatchingUpAscends(replay: seq<Event>, seen: nat)
      requires Valid() && CatchesUp(replay, seen)
      ensures Ascending(replay) && forall i :: 0 <= i < |replay| ==> seen < replay[i].id <= sequence
      ensures |replay| > 0 ==> replay[|replay| - 1].id == sequence
    {
      var k := |events| - |replay|;
      assert forall i :: 0 <= i < |replay| ==> replay[i] == events[k + i];
    }

    /**
     What a client that has seen `last` must be sent: everything after it without a gap, or the first complete state
     after it and everything after that. It is asked to fetch a fresh snapshot exactly when neither is retained.
     */
    method ReplayAfter(last: Option<nat>) returns (replay: Option<seq<Event>>)
      requires Valid()
      ensures replay.Some? <==>
                && last.Some? && last.value >= 1
                && (last.value == sequence || Retained(last.value) || exists e :: e in events && Replaces(e, last.value))
      ensures replay.Some? ==> CatchesUp(replay.value, last.value)
      ensures replay.Some? && last.value != sequence && !Retained(last.value) ==>
                replay.value != [] && forall e :: e in events && Replaces(e, last.value) ==> replay.value[0].id <= e.id
    {
      if last.None? || last.value < 1 { return None; }
      var requested := last.value;
      if requested == sequence { return Some([]); }
      var known := exists i :: 0 <= i < |events| && events[i].id == requested;
      assert known == Retained(requested);
      if known {
        ghost var k :| 0 <= k < |events| && events[k].id == requested;
        LaterEvents(requested, k);
        return Some(Filter(events, After(requested)));
      }
      var start := FirstFull(events, requested, 0);
      assert forall e :: e in events && Replaces(e, requested) ==> exists k :: start <= k < |events| && events[k] == e;
      if start == |events| { return None; }
      assert events[start] in events;
      return Some(events[start..]);
    }

    lemma LaterEvents(requested: nat, k: nat)
      requires Valid() && k < |events| && events[k].id == requested
      ensures Filter(events, After(requested)) == events[k + 1..]
    {
      assert events == events[..k + 1] + events[k + 1..];
      FilterConcat(events[..k + 1], events[k + 1..], After(requested));
      FilterNone(events[..k + 1], After(requested));
      FilterAll(events[k + 1..], After(requested));
    }
  }

  // ---- One client's queue ------------------------------------------------------------------

  /** `put_nowait`, discarding the oldest entry of a full queue. */
  function Offered(queue: seq<Event>, e: Event): (q: seq<Event>)
    requires |queue| <= QUEUE_LIMIT
    ensures 0 < |q| <= QUEUE_LIMIT && q[|q| - 1] == e
    ensures forall i :: 0 <= i < |q| - 1 ==> q[i] in queue
  {
    if |queue| == QUEUE_LIMIT then queue[1..] + [e] else queue + [e]
  }

  /** A queue keeps the latest two of what it is offered. */
  lemma OfferedKeepsTheLatest(queue: seq<Event>, e: Event)
    requires |queue| <= 2
    ensures var all := queue + [e]; Offered(queue, e) == if |all| <= 2 then all else all[|all| - 2..]
  {}

  /** The event of each id that comes last, by ascending id: the dictionary by id, sorted. */
  function Merged(events: seq<Event>): seq<Event> {
    if |events| == 0 then [] else InsertById(Merged(events[..|events| - 1]), events[|events| - 1])
  }

  function InsertById(s: seq<Event>, e: Event): seq<Event> {
    if |s| == 0 || s[|s| - 1].id < e.id then s + [e]
    else if s[|s| - 1].id == e.id then s[..|s| - 1] + [e]
    else InsertById(s[..|s| - 1], e) + [s[|s| - 1]]
  }

  function IdsOf(events: seq<Event>): set<nat> { set e | e in events :: e.id }

  lemma IdsOfAppended(s: seq<Event>, e: Event)
    ensures IdsOf(s + [e]) == IdsOf(s) + {e.id}
  {
    assert forall x :: x in s + [e] <==> x in s || x == e;
    assert forall x :: x in s ==> x in s + [e];
    assert e in s + [e];
    forall id | id in IdsOf(s) + {e.id} ensures id in IdsOf(s + [e]) {
      if id in IdsOf(s) {
        var x :| x in s && x.id == id;
        assert x in s + [e];
      }
    }
  }

  lemma AppendAscends(s: seq<Event>, e: Event)
    requires Ascending(s) && forall id :: id in IdsOf(s) ==> id < e.id
    ensures Ascending(s + [e])
  {
    forall i | 0 <= i < |s| ensures s[i].id < e.id {
      assert s[i] in s;
      assert s[i].id in IdsOf(s);
    }
  }

  lemma BelowLast(s: seq<Event>, init: seq<Event>, last: Event)
    requires s == init + [last] && Ascending(s)
    ensures forall id :: id in IdsOf(init) ==> id < last.id
  {
    forall id | id in IdsOf(init) ensures id < last.id {
      var x :| x in init && x.id == id;
      var k :| 0 <= k < |init| && init[k] == x;
      assert s[k].id < s[|init|].id;
    }
  }

  lemma {:induction false} InsertByIdAscends(s: seq<Event>, e: Event)
    requires Ascending(s)
    ensures Ascending(InsertById(s, e)) && IdsOf(InsertById(s, e)) == IdsOf(s) + {e.id}
  {
    hide IdsOf;
    if |s| == 0 {
      assert s == [];
      IdsOfAppended(s, e);
      return;
    }
    var init, last := s[..|s| - 1], s[|s| - 1];
    assert s == init + [last];
    IdsOfAppended(init, last);
    BelowLast(s, init, last);
    if last.id < e.id {
      AppendAscends(s, e);
      IdsOfAppended(s, e);
    } else if last.id == e.id {
      AppendAscends(init, e);
      IdsOfAppended(init, e);
    } else {
      InsertByIdAscends(init, e);
      AppendAscends(InsertById(init, e), last);
      IdsOfAppended(InsertById(init, e), last);
    }
  }

  /** Merging loses no id, invents none, and orders what it has. */
  lemma {:induction false} MergedAscends(events: seq<Event>)
    ensures Ascending(Merged(events)) && IdsOf(Merged(events)) == IdsOf(events)
  {
    hide IdsOf, InsertById;
    if |events| > 0 {
      var init, last := events[..|events| - 1], events[|events| - 1];
      MergedAscends(init);
      InsertByIdAscends(Merged(init), last);
      IdsOfAppended(init, last);
      assert events == init + [last];
    } else {
      assert events == [];
    }
  }

  /** Entry `k` is the last of its id. */
  ghost predicate LastOfItsId(events: seq<Event>, k: int) {
    0 <= k < |events| && forall j :: k < j < |events| ==> events[j].id != events[k].id
  }

  lemma {:induction false} InsertByIdMembers(s: seq<Event>, e: Event)
    requires Ascending(s)
    ensures forall x :: x in InsertById(s, e) <==> x == e || (x in s && x.id != e.id)
  {
    if |s| > 0 {
      var init, last := s[..|s| - 1], s[|s| - 1];
      assert s == init + [last];
      assert forall i :: 0 <= i < |init| ==> init[i] == s[i] && s[i].id < last.id;
      if last.id > e.id {
        InsertByIdMembers(init, e);
      } else {
        forall x | x in init ensures x.id < last.id {
          var k :| 0 <= k < |init| && init[k] == x;
        }
      }
    }
  }

  /** Of several events of an id the last one survives. */
  lemma {:induction false} MergedTakesTheLast(events: seq<Event>, x: Event)
    ensures x in Merged(events) <==> exists k :: LastOfItsId(events, k) && events[k] == x
  {
    hide InsertById;
    if |events| > 0 {
      var init, n := events[..|events| - 1], |events| - 1;
      MergedTakesTheLast(init, x);
      MergedAscends(init);
      InsertByIdMembers(Merged(init), events[n]);
      assert LastOfItsId(events, n);
      if x in Merged(init) && x.id != events[n].id {
        var k :| LastOfItsId(init, k) && init[k] == x;
        assert LastOfItsId(events, k);
      }
      forall k | LastOfItsId(events, k) && k < n && events[k] == x ensures x in Merged(init) && x.id != events[n].id {
        assert LastOfItsId(init, k) && init[k] == x;
      }
    }
  }

  lemma MergedHolds(events: seq<Event>, k: nat)
    requires k < |events|
    ensures exists i :: 0 <= i < |Merged(events)| && Merged(events)[i].id == events[k].id
  {
    MergedAscends(events);
    assert events[k] in events;
    assert events[k].id in IdsOf(Merged(events));
    var y :| y in Merged(events) && y.id == events[k].id;
    var i :| 0 <= i < |Merged(events)| && Merged(events)[i] == y;
  }

  lemma MergedPositive(events: seq<Event>)
    requires forall i :: 0 <= i < |events| ==> events[i].id >= 1
    ensures forall i :: 0 <= i < |Merged(events)| ==> Merged(events)[i].id >= 1
  {
    MergedAscends(events);
    forall i | 0 <= i < |Merged(events)| ensures Merged(events)[i].id >= 1 {
      assert Merged(events)[i] in Merged(events);
      assert Merged(events)[i].id in IdsOf(events);
      var x :| x in events && x.id == Merged(events)[i].id;
    }
  }

  /**
   A client as its stream sees it: `pending` is what is left of the replay, `sent` the ids delivered so far, and `last`
   the latest broadcast since it subscribed.
   */
  datatype View = View(queue: seq<Event>, joined: bool, pending: seq<Event>, delivered: nat, sent: seq<nat>, last: Option<nat>)

  const SUBSCRIBED := View([], false, [], 0, [], None)

  function Broadcasted(v: View, e: Event): View
    requires |v.queue| <= QUEUE_LIMIT
  {
    v.(queue := Offered(v.queue, e), last := Some(e.id))
  }

  function Resumed(v: View, replay: seq<Event>): View { v.(joined := true, pending := replay) }

  /** The whole queue is drained and merged with the snapshot published for this client. */
  function Snapshotted(v: View, full: Event): View {
    v.(joined := true, queue := [], pending := Merged(v.queue + [full]))
  }

  /** The generator's next turn: the rest of the replay first, then the queue, skipping what is not newer. */
  function Turned(v: View): View {
    if !v.joined then v
    else if |v.pending| > 0 then
      v.(pending := v.pending[1..], delivered := Max(v.delivered, v.pending[0].id), sent := v.sent + [v.pending[0].id])
    else if |v.queue| == 0 then v
    else if v.queue[0].id <= v.delivered then v.(queue := v.queue[1..])
    else v.(queue := v.queue[1..], delivered := v.queue[0].id, sent := v.sent + [v.queue[0].id])
  }

  class Client {
    var queue: seq<Event>
    var joined: bool
    var pending: seq<Event>
    var delivered: nat
    ghost var sent: seq<nat>
    ghost var last: Option<nat>

    ghost function AsView(): View
      reads this
    {
      View(queue, joined, pending, delivered, sent, last)
    }

    constructor ()
      ensures AsView() == SUBSCRIBED
    {
      queue, joined, pending, delivered, sent, last := [], false, [], 0, [], None;
    }

    method Resume(replay: seq<Event>)
      modifies this
      ensures AsView() == Resumed(old(AsView()), replay)
    {
      joined, pending := true, replay;
    }

    method Snapshot(full: Event)
      modifies this
      ensures AsView() == Snapshotted(old(AsView()), full)
    {
      var queued: seq<Event> := [];
      while |queue| > 0
        invariant queued + queue == old(queue)
        invariant joined == old(joined) && pending == old(pending) && delivered == old(delivered)
          && sent == old(sent) && last == old(last)
      {
        queued := queued + [queue[0]];
        queue := queue[1..];
      }
      assert queued == old(queue);
      joined, pending := true, Merged(queued + [full]);
    }

    /** What the generator yields at its next turn, if anything. */
    method Turn() returns (yielded: Option<Event>)
      modifies this
      ensures AsView() == Turned(old(AsView()))
      ensures sent == old(sent) + if yielded.Some? then [yielded.value.id] else []
    {
      yielded := None;
      if !joined { return; }
      if |pending| > 0 {
        var event := pending[0];
        pending := pending[1..];
        delivered := Max(delivered, event.id);
        sent := sent + [event.id];
        return Some(event);
      }
      if |queue| == 0 { return; }
      var event := queue[0];
      queue := queue[1..];
      if event.id <= delivered { return; }
      delivered := event.id;
      sent := sent + [event.id];
      return Some(event);
    }
  }

  /** Every subscribed queue is offered the event; nothing else about any client changes. */
  method Broadcast(clients: set<Client>, e: Event)
    requires forall c :: c in clients ==> |c.queue| <= QUEUE_LIMIT
    modifies clients
    ensures forall c :: c in clients ==> old(|c.queue|) <= QUEUE_LIMIT && c.AsView() == Broadcasted(old(c.AsView()), e)
  {
    var waiting := clients;
    while waiting != {}
      invariant waiting <= clients
      invariant forall c :: c in waiting ==> c.AsView() == old(c.AsView())
      invariant forall c :: c in clients - waiting ==> c.AsView() == Broadcasted(old(c.AsView()), e)
      decreases waiting
    {
      var c :| c in waiting;
      waiting := waiting - {c};
      if |c.queue| == QUEUE_LIMIT { c.queue := c.queue[1..]; }
      c.queue := c.queue + [e];
      c.last := Some(e.id);
    }
  }

  // ---- Runs ----------------------------------------------------------------------------------------

  datatype Action = Offer(event: Event) | ResumeFrom(replay: seq<Event>) | SnapshotWith(full: Event) | Turn

  function Acted(v: View, a: Action): View
    requires |v.queue| <= QUEUE_LIMIT
  {
    match a
    case Offer(e) => Broadcasted(v, e)
    case ResumeFrom(replay) => if v.joined then v else Resumed(v, replay)
    case SnapshotWith(full) => if v.joined then v else Snapshotted(v, full)
    case Turn => Turned(v)
  }

  function AfterRun(run: seq<Action>): (v: View)
    ensures |v.queue| <= QUEUE_LIMIT
  {
    if |run| == 0 then SUBSCRIBED else Acted(AfterRun(run[..|run| - 1]), run[|run| - 1])
  }

  /** Ids start at one, and a replay is in ascending order. */
  ghost predicate Numbered(a: Action) {
    match a
    case Offer(e) => e.id >= 1
    case ResumeFrom(replay) => Ascending(replay) && forall i :: 0 <= i < |replay| ==> replay[i].id >= 1
    case SnapshotWith(full) => full.id >= 1
    case Turn => true
  }

  ghost predicate Increasing(ids: seq<nat>) { forall i, j :: 0 <= i < j < |ids| ==> ids[i] < ids[j] }

  /** The latest broadcast is waiting, about to be replayed, or delivered or superseded. */
  ghost predicate Reaches(v: View, id: nat) {
    || (|v.queue| > 0 && v.queue[|v.queue| - 1].id == id)
    || (|v.queue| == 0 && (v.delivered >= id || exists i :: 0 <= i < |v.pending| && v.pending[i].id >= id))
  }

  ghost predicate Sound(v: View) {
    && Increasing(v.sent) && v.delivered == (if |v.sent| == 0 then 0 else v.sent[|v.sent| - 1])
    && (forall i :: 0 <= i < |v.queue| ==> v.queue[i].id >= 1)
    && Ascending(v.pending) && (forall i :: 0 <= i < |v.pending| ==> v.pending[i].id > v.delivered)
    && (!v.joined ==> v.delivered == 0 && v.pending == [])
    && (v.last.Some? ==> Reaches(v, v.last.value))
  }

  lemma SnapshotKeeps(v: View, full: Event)
    requires Sound(v) && !v.joined && full.id >= 1
    ensures Sound(Snapshotted(v, full))
  {
    hide Merged, IdsOf, Increasing;
    var events := v.queue + [full];
    MergedAscends(events);
    MergedPositive(events);
    if v.last.Some? && |v.queue| > 0 {
      assert events[|v.queue| - 1] == v.queue[|v.queue| - 1];
      MergedHolds(events, |v.queue| - 1);
    }
  }

  lemma TurnKeeps(v: View)
    requires Sound(v)
    ensures Sound(Turned(v))
  {
    if v.joined && |v.pending| > 0 {
      var w := Turned(v);
      if v.last.Some? && |v.queue| == 0 && v.delivered < v.last.value {
        var i :| 0 <= i < |v.pending| && v.pending[i].id >= v.last.value;
        if i > 0 { assert w.pending[i - 1].id >= v.last.value; }
      }
    }
  }

  lemma StartsSound()
    ensures Sound(SUBSCRIBED)
  {}

  lemma OfferKeeps(v: View, e: Event)
    requires Sound(v) && |v.queue| <= QUEUE_LIMIT && e.id >= 1
    ensures Sound(Broadcasted(v, e))
  {
    hide Ascending, Increasing;
  }

  lemma ResumeKeeps(v: View, replay: seq<Event>)
    requires Sound(v) && !v.joined && Numbered(ResumeFrom(replay))
    ensures Sound(Resumed(v, replay))
  {
    hide Ascending, Increasing;
  }

  lemma ActionKeeps(v: View, a: Action)
    requires Sound(v) && |v.queue| <= QUEUE_LIMIT && Numbered(a)
    ensures Sound(Acted(v, a))
  {
    hide Sound, Broadcasted, Resumed, Snapshotted, Turned;
    match a
    case Offer(e) => OfferKeeps(v, e);
    case ResumeFrom(replay) => if !v.joined { ResumeKeeps(v, replay); }
    case SnapshotWith(full) => if !v.joined { SnapshotKeeps(v, full); }
    case Turn => TurnKeeps(v);
  }

  lemma {:induction false} RunsAreSound(run: seq<Action>)
    requires forall k :: 0 <= k < |run| ==> Numbered(run[k])
    ensures Sound(AfterRun(run))
  {
    hide Sound, Acted, Numbered;
    if |run| > 0 {
      RunsAreSound(run[..|run| - 1]);
      ActionKeeps(AfterRun(run[..|run| - 1]), run[|run| - 1]);
    } else {
      StartsSound();
    }
  }

  /**
   Whatever is broadcast in whatever order, and however the client resumes: its queue stays within its bound, right
   after a broadcast it ends with that event, ids are delivered strictly upwards, and once everything is drained the
   last id delivered is at least that of the last broadcast.
   */
  lemma LatestWins(run: seq<Action>)
    requires forall k :: 0 <= k < |run| ==> Numbered(run[k])
    ensures var v := AfterRun(run);
            && |v.queue| <= QUEUE_LIMIT
            && (|run| > 0 && run[|run| - 1].Offer? ==> |v.queue| > 0 && v.queue[|v.queue| - 1] == run[|run| - 1].event)
            && Increasing(v.sent)
            && (v.joined && v.pending == [] && v.queue == [] && v.last.Some? ==> v.delivered >= v.last.value)
  {
    RunsAreSound(run);
  }
}
