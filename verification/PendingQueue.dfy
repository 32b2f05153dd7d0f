/** The pending queues of libev, one per priority: events are appended at the end and invoked
    from the end, highest priority first. */
module PendingQueue {
  import opened Common
  import opened TimerHeap

  const NUMPRI: nat := 5
  const EV_TIMER: nat := 0x100

  /** `None` stands for the dummy watcher that replaces one whose event was cleared. */
  datatype Slot = Slot(w: Option<Watcher>, events: set<nat>)

  /** `pending[w]` is one more than the slot of `w` in the queue of its priority, or 0. */
  datatype Queue = Queue(slots: seq<seq<Slot>>, pending: map<Watcher, nat>)

  type Priorities = map<Watcher, nat>

  /** A pending watcher is in the slot it names. */
  predicate WatcherQueued(q: Queue, pri: Priorities, w: Watcher)
    requires |q.slots| == NUMPRI && w in pri && w in q.pending
  {
    && pri[w] < NUMPRI
    && (q.pending[w] != 0 ==>
          q.pending[w] <= |q.slots[pri[w]]| && q.slots[pri[w]][q.pending[w] - 1].w == Some(w))
  }

  /** A slot's watcher names that slot. */
  predicate SlotNamed(q: Queue, pri: Priorities, p: nat, i: nat)
    requires p < |q.slots| && i < |q.slots[p]|
  {
    q.slots[p][i].w.Some? ==>
      var w := q.slots[p][i].w.value; w in pri && pri[w] == p && w in q.pending && q.pending[w] == i + 1
  }

  ghost predicate QueueOk(q: Queue, pri: Priorities) {
    && |q.slots| == NUMPRI && q.pending.Keys == pri.Keys
    && (forall w | w in pri :: WatcherQueued(q, pri, w))
    && (forall p: nat, i: nat | p < NUMPRI && i < |q.slots[p]| :: SlotNamed(q, pri, p, i))
  }

  /** `ev_feed_event` */
  function Feed(q: Queue, pri: Priorities, w: Watcher, event: nat): Queue
    requires |q.slots| == NUMPRI && w in pri && w in q.pending && WatcherQueued(q, pri, w)
  {
    var p := pri[w];
    var l := q.slots[p];
    if q.pending[w] != 0 then
      var s := l[q.pending[w] - 1];
      q.(slots := q.slots[p := l[q.pending[w] - 1 := s.(events := s.events + {event})]])
    else
      Queue(q.slots[p := l + [Slot(Some(w), {event})]], q.pending[w := |l| + 1])
  }

  lemma {:induction false} FeedKeeps(q: Queue, pri: Priorities, w: Watcher, event: nat)
    requires QueueOk(q, pri) && w in pri
    ensures WatcherQueued(q, pri, w)
    ensures QueueOk(Feed(q, pri, w, event), pri) && Feed(q, pri, w, event).pending[w] != 0
  {
    assert WatcherQueued(q, pri, w);
    var q' := Feed(q, pri, w, event);
    forall x | x in pri ensures WatcherQueued(q', pri, x) {
      assert WatcherQueued(q, pri, x);
    }
    forall p: nat, i: nat | p < NUMPRI && i < |q'.slots[p]| ensures SlotNamed(q', pri, p, i) {
      if i < |q.slots[p]| { assert SlotNamed(q, pri, p, i); }
    }
  }

  /** `clear_pending` */
  function Clear(q: Queue, pri: Priorities, w: Watcher): Queue
    requires |q.slots| == NUMPRI && w in pri && w in q.pending && WatcherQueued(q, pri, w)
  {
    if q.pending[w] == 0 then q else
      var p, i := pri[w], q.pending[w] - 1;
      Queue(q.slots[p := q.slots[p][i := q.slots[p][i].(w := None)]], q.pending[w := 0])
  }

  lemma {:induction false} ClearKeeps(q: Queue, pri: Priorities, w: Watcher)
    requires QueueOk(q, pri) && w in pri
    ensures WatcherQueued(q, pri, w)
    ensures QueueOk(Clear(q, pri, w), pri)
  {
    assert WatcherQueued(q, pri, w);
    var q' := Clear(q, pri, w);
    forall x | x in pri ensures WatcherQueued(q', pri, x) {
      assert WatcherQueued(q, pri, x);
    }
    forall p: nat, i: nat | p < NUMPRI && i < |q'.slots[p]| ensures SlotNamed(q', pri, p, i) {
      assert SlotNamed(q, pri, p, i);
    }
  }

  /** The events that `w` has pending. */
  ghost function Events(q: Queue, pri: Priorities, w: Watcher): set<nat>
    requires QueueOk(q, pri) && w in pri
  {
    assert WatcherQueued(q, pri, w);
    if q.pending[w] == 0 then {} else q.slots[pri[w]][q.pending[w] - 1].events
  }

  /** `w` has the same events pending, in the same slot. */
  ghost predicate SamePending(q: Queue, q': Queue, pri: Priorities, w: Watcher)
    requires QueueOk(q, pri) && QueueOk(q', pri) && w in pri
  {
    q'.pending[w] == q.pending[w] && Events(q', pri, w) == Events(q, pri, w)
  }

  /** `w` has one more event pending, in the slot it had if it had one. */
  ghost predicate OneMore(q: Queue, q': Queue, pri: Priorities, w: Watcher, event: nat)
    requires QueueOk(q, pri) && QueueOk(q', pri) && w in pri
  {
    && q'.pending[w] != 0 && (q.pending[w] != 0 ==> q'.pending[w] == q.pending[w])
    && Events(q', pri, w) == Events(q, pri, w) + {event}
  }

  lemma {:induction false} FeedAdds(q: Queue, pri: Priorities, w: Watcher, event: nat)
    requires QueueOk(q, pri) && w in pri
    ensures WatcherQueued(q, pri, w) && QueueOk(Feed(q, pri, w, event), pri)
    ensures OneMore(q, Feed(q, pri, w, event), pri, w, event)
    ensures forall u | u in pri && u != w :: SamePending(q, Feed(q, pri, w, event), pri, u)
  {
    FeedKeeps(q, pri, w, event);
    var q' := Feed(q, pri, w, event);
    forall u | u in pri && u != w ensures SamePending(q, q', pri, u) {
      assert WatcherQueued(q, pri, u);
    }
  }

  lemma {:induction false} ClearRemoves(q: Queue, pri: Priorities, w: Watcher)
    requires QueueOk(q, pri) && w in pri
    ensures WatcherQueued(q, pri, w) && QueueOk(Clear(q, pri, w), pri)
    ensures Clear(q, pri, w).pending[w] == 0
    ensures forall u | u in pri && u != w :: SamePending(q, Clear(q, pri, w), pri, u)
  {
    ClearKeeps(q, pri, w);
    var q' := Clear(q, pri, w);
    forall u | u in pri && u != w ensures SamePending(q, q', pri, u) {
      assert WatcherQueued(q, pri, u);
    }
  }

  predicate AllDistinct(ws: seq<Watcher>) {
    forall i, j | 0 <= i < j < |ws| :: ws[i] != ws[j]
  }

  /** Events for several watchers, fed in order. */
  ghost function FeedAll(q: Queue, pri: Priorities, ws: seq<Watcher>, event: nat): (r: Queue)
    requires QueueOk(q, pri) && forall w | w in ws :: w in pri
    ensures QueueOk(r, pri) && forall w | w in ws :: r.pending[w] != 0
  {
    if ws == [] then q else
      var q1, w := FeedAll(q, pri, ws[..|ws| - 1], event), ws[|ws| - 1];
      FeedKeeps(q1, pri, w, event);
      assert forall x | x in ws :: x == w || x in ws[..|ws| - 1];
      Feed(q1, pri, w, event)
  }

  // ---------- the order in which events run ----------

  function Rev<T>(s: seq<T>): seq<T> {
    if s == [] then [] else Rev(s[1..]) + [s[0]]
  }

  lemma {:induction false} RevSnoc<T>(s: seq<T>, x: T)
    ensures Rev(s + [x]) == [x] + Rev(s)
  {
    if s != [] {
      RevSnoc(s[1..], x);
      assert (s + [x])[1..] == s[1..] + [x];
    } else {
      assert s + [x] == [x];
    }
  }

  /** The watchers of one priority, in order. */
  function AtPriority(ws: seq<Watcher>, pri: Priorities, p: nat): seq<Watcher>
    requires forall w | w in ws :: w in pri
  {
    if ws == [] then [] else
      var rest := AtPriority(ws[..|ws| - 1], pri, p);
      if pri[ws[|ws| - 1]] == p then rest + [ws[|ws| - 1]] else rest
  }

  predicate Empty(q: Queue) {
    (forall p | 0 <= p < |q.slots| :: q.slots[p] == []) && (forall w | w in q.pending :: q.pending[w] == 0)
  }

  /** What `q'` has pending differs from `q` by one more event for each of `ws`. */
  ghost predicate Adds(q: Queue, q': Queue, pri: Priorities, ws: seq<Watcher>, event: nat)
    requires QueueOk(q, pri) && QueueOk(q', pri)
  {
    && (forall w | w in ws && w in pri :: OneMore(q, q', pri, w, event))
    && (forall w | w in pri && w !in ws :: SamePending(q, q', pri, w))
  }

  lemma {:induction false} AddsOne(q: Queue, q1: Queue, q2: Queue, pri: Priorities, ws: seq<Watcher>, w: Watcher,
      event: nat)
    requires QueueOk(q, pri) && QueueOk(q1, pri) && QueueOk(q2, pri) && w in pri && w !in ws
    requires Adds(q, q1, pri, ws, event) && OneMore(q1, q2, pri, w, event)
    requires forall u | u in pri && u != w :: SamePending(q1, q2, pri, u)
    ensures Adds(q, q2, pri, ws + [w], event)
  {
    hide QueueOk, Events;
    assert SamePending(q, q1, pri, w);
  }

  /** Feeding distinct watchers gives each of them the event, and leaves what others have pending. */
  lemma {:induction false} FeedAllAdds(q: Queue, pri: Priorities, ws: seq<Watcher>, event: nat)
    requires QueueOk(q, pri) && (forall w | w in ws :: w in pri) && AllDistinct(ws)
    ensures Adds(q, FeedAll(q, pri, ws, event), pri, ws, event)
  {
    if ws != [] {
      var init, w := ws[..|ws| - 1], ws[|ws| - 1];
      var q1 := FeedAll(q, pri, init, event);
      assert w !in init && ws == init + [w];
      FeedAllAdds(q, pri, init, event);
      hide QueueOk, Feed, Adds, AllDistinct;
      FeedAdds(q1, pri, w, event);
      AddsOne(q, q1, Feed(q1, pri, w, event), pri, init, w, event);
    }
  }

  /** The watchers among `ws` that have nothing pending, in order. */
  function Fresh(q: Queue, ws: seq<Watcher>): seq<Watcher> {
    if ws == [] then [] else
      var rest, w := Fresh(q, ws[..|ws| - 1]), ws[|ws| - 1];
      if w in q.pending && q.pending[w] == 0 then rest + [w] else rest
  }

  lemma {:induction false} FreshMembers(q: Queue, ws: seq<Watcher>)
    ensures forall w :: w in Fresh(q, ws) <==> w in ws && w in q.pending && q.pending[w] == 0
  {
    if ws != [] {
      FreshMembers(q, ws[..|ws| - 1]);
      assert ws == ws[..|ws| - 1] + [ws[|ws| - 1]];
    }
  }

  lemma {:induction false} FreshCons(q: Queue, w: Watcher, ws: seq<Watcher>)
    ensures Fresh(q, [w] + ws) == (if w in q.pending && q.pending[w] == 0 then [w] else []) + Fresh(q, ws)
  {
    if ws != [] {
      FreshCons(q, w, ws[..|ws| - 1]);
      assert ([w] + ws)[..|ws|] == [w] + ws[..|ws| - 1];
    } else {
      assert [w] + ws == [w] && [w][..0] == [];
    }
  }

  lemma {:induction false} FreshRev(q: Queue, ws: seq<Watcher>)
    ensures Fresh(q, Rev(ws)) == Rev(Fresh(q, ws))
  {
    if ws != [] {
      FreshRev(q, ws[1..]);
      FreshCons(q, ws[0], ws[1..]);
      assert ws == [ws[0]] + ws[1..];
      var r := Rev(ws[1..]);
      assert Rev(ws) == r + [ws[0]] && (r + [ws[0]])[..|r|] == r;
      var f := Fresh(q, ws[1..]);
      assert ([ws[0]] + f)[1..] == f && [] + f == f;
    }
  }

  /** The watchers that `ev_invoke_pending` calls for one queue: from its end, skipping dummies. */
  function Called(slots: seq<Slot>): seq<Watcher> {
    if slots == [] then [] else
      var s := slots[|slots| - 1];
      (if s.w.Some? then [s.w.value] else []) + Called(slots[..|slots| - 1])
  }

  /** ... and for all queues below priority `p`, highest first. */
  function CalledBelow(slots: seq<seq<Slot>>, p: nat): seq<Watcher>
    requires p <= |slots|
  {
    if p == 0 then [] else Called(slots[p - 1]) + CalledBelow(slots, p - 1)
  }

  /** The given order, stably sorted by descending priority. */
  function ByPriority(ws: seq<Watcher>, pri: Priorities, p: nat): seq<Watcher>
    requires forall w | w in ws :: w in pri
  {
    if p == 0 then [] else AtPriority(ws, pri, p - 1) + ByPriority(ws, pri, p - 1)
  }

  /** Priority by priority, highest first: the watchers `ws` in order, then those waiting in `q`,
      the last one first. */
  function AheadOf(ws: seq<Watcher>, q: Queue, pri: Priorities, p: nat): seq<Watcher>
    requires p <= |q.slots| && forall w | w in ws :: w in pri
  {
    if p == 0 then [] else AtPriority(ws, pri, p - 1) + Called(q.slots[p - 1]) + AheadOf(ws, q, pri, p - 1)
  }

  lemma {:induction false} AheadOfNone(ws: seq<Watcher>, q: Queue, pri: Priorities, p: nat)
    requires p <= |q.slots| && Empty(q) && forall w | w in ws :: w in pri
    ensures AheadOf(ws, q, pri, p) == ByPriority(ws, pri, p)
  {
    if p > 0 { AheadOfNone(ws, q, pri, p - 1); }
  }

  /** Who is called depends on the slots' watchers alone. */
  lemma {:induction false} CalledNames(s: seq<Slot>, t: seq<Slot>)
    requires |s| == |t| && forall i | 0 <= i < |s| :: s[i].w == t[i].w
    ensures Called(s) == Called(t)
  {
    if s != [] { CalledNames(s[..|s| - 1], t[..|t| - 1]); }
  }

  lemma {:induction false} FeedCalls(q: Queue, pri: Priorities, w: Watcher, event: nat, p: nat)
    requires QueueOk(q, pri) && w in pri && p < NUMPRI
    ensures WatcherQueued(q, pri, w)
    ensures Called(Feed(q, pri, w, event).slots[p]) ==
            (if q.pending[w] == 0 && pri[w] == p then [w] else []) + Called(q.slots[p])
  {
    assert WatcherQueued(q, pri, w);
    var l, l' := q.slots[p], Feed(q, pri, w, event).slots[p];
    if pri[w] == p && q.pending[w] == 0 {
      assert l'[..|l|] == l;
    } else {
      CalledNames(l, l');
    }
  }

  /** The last of several distinct watchers is fed with what it had pending at the start. */
  lemma {:induction false} FeedLastCalls(q: Queue, pri: Priorities, ws: seq<Watcher>, w: Watcher, event: nat, p: nat)
    requires QueueOk(q, pri) && w in pri && (forall x | x in ws :: x in pri) && AllDistinct(ws) && w !in ws &&
             p < NUMPRI
    ensures Called(FeedAll(q, pri, ws + [w], event).slots[p]) ==
            (if q.pending[w] == 0 && pri[w] == p then [w] else []) + Called(FeedAll(q, pri, ws, event).slots[p])
  {
    hide Called, Feed, Events, AllDistinct;
    var q1 := FeedAll(q, pri, ws, event);
    FeedCalls(q1, pri, w, event, p);
    FeedAllAdds(q, pri, ws, event);
    assert SamePending(q, q1, pri, w);
    assert (ws + [w])[..|ws|] == ws;
  }

  /** Watchers fed into any queues are called before those that wait there, the last one first;
      one that has something pending keeps its turn. */
  lemma {:induction false} FeedAllCalls(q: Queue, pri: Priorities, ws: seq<Watcher>, event: nat, p: nat)
    requires QueueOk(q, pri) && (forall w | w in ws :: w in pri) && AllDistinct(ws) && p < NUMPRI
    ensures forall w | w in Fresh(q, ws) :: w in pri
    ensures Called(FeedAll(q, pri, ws, event).slots[p]) == Rev(AtPriority(Fresh(q, ws), pri, p)) + Called(q.slots[p])
  {
    hide Called, QueueOk;
    FreshMembers(q, ws);
    if ws == [] {
      assert Fresh(q, ws) == [];
      assert Rev(AtPriority(Fresh(q, ws), pri, p)) == [];
    } else {
      var init, w := ws[..|ws| - 1], ws[|ws| - 1];
      assert w !in init && ws == init + [w];
      FeedAllCalls(q, pri, init, event, p);
      PendingKeys(q, pri);
      hide FeedAll, Rev, AllDistinct, AtPriority;
      FeedLastCalls(q, pri, init, w, event, p);
      assert Fresh(q, ws) == if q.pending[w] == 0 then Fresh(q, init) + [w] else Fresh(q, init);
      var f, c := Fresh(q, init), Called(q.slots[p]);
      hide Fresh;
      if q.pending[w] == 0 {
        AtPrioritySnoc(f, w, pri, p);
        Regroup(if pri[w] == p then [w] else [], Rev(AtPriority(f, pri, p)), c);
      }
    }
  }

  lemma Regroup<T>(x: seq<T>, y: seq<T>, z: seq<T>)
    ensures x + (y + z) == x + y + z
  {
  }

  lemma {:induction false} AtPrioritySnoc(ws: seq<Watcher>, w: Watcher, pri: Priorities, p: nat)
    requires w in pri && forall x | x in ws :: x in pri
    ensures Rev(AtPriority(ws + [w], pri, p)) == (if pri[w] == p then [w] else []) + Rev(AtPriority(ws, pri, p))
  {
    assert (ws + [w])[..|ws|] == ws;
    RevSnoc(AtPriority(ws, pri, p), w);
  }

  lemma {:induction false} AtPriorityCons(w: Watcher, ws: seq<Watcher>, pri: Priorities, p: nat)
    requires w in pri && forall x | x in ws :: x in pri
    ensures AtPriority([w] + ws, pri, p) == (if pri[w] == p then [w] else []) + AtPriority(ws, pri, p)
  {
    if ws != [] {
      var init := ws[..|ws| - 1];
      AtPriorityCons(w, init, pri, p);
      assert ([w] + ws)[..|ws|] == [w] + init;
    } else {
      assert [w] + ws == [w] && [w][..0] == [];
    }
  }

  lemma {:induction false} RevMembers(ws: seq<Watcher>)
    ensures |Rev(ws)| == |ws| && forall w :: w in Rev(ws) <==> w in ws
  {
    if ws != [] {
      RevMembers(ws[1..]);
      assert forall w :: w in ws <==> w == ws[0] || w in ws[1..];
    }
  }

  lemma {:induction false} RevAtPriority(ws: seq<Watcher>, pri: Priorities, p: nat)
    requires (forall w | w in ws :: w in pri) && (forall w | w in Rev(ws) :: w in pri)
    ensures Rev(AtPriority(Rev(ws), pri, p)) == AtPriority(ws, pri, p)
  {
    if ws != [] {
      RevMembers(ws[1..]);
      RevAtPriority(ws[1..], pri, p);
      AtPriorityCons(ws[0], ws[1..], pri, p);
      assert ws == [ws[0]] + ws[1..];
      var r := Rev(ws[1..]);
      assert Rev(ws) == r + [ws[0]] && (r + [ws[0]])[..|r|] == r;
      RevSnoc(AtPriority(r, pri, p), ws[0]);
    }
  }

  lemma {:induction false} FedBackCalls(q: Queue, pri: Priorities, ws: seq<Watcher>, event: nat, p: nat)
    requires QueueOk(q, pri) && (forall w | w in ws :: w in pri) && (forall w | w in Rev(ws) :: w in pri)
    requires AllDistinct(Rev(ws)) && p < NUMPRI && forall w | w in Fresh(q, ws) :: w in pri
    ensures Called(FeedAll(q, pri, Rev(ws), event).slots[p]) == AtPriority(Fresh(q, ws), pri, p) + Called(q.slots[p])
  {
    hide QueueOk, Called, FeedAll, Fresh, AtPriority, Rev;
    FeedAllCalls(q, pri, Rev(ws), event, p);
    FreshRev(q, ws);
    RevAtPriority(Fresh(q, ws), pri, p);
  }

  /** The two reversals cancel: watchers fed back to front are called front to back within each
      priority, ahead of what was waiting there, highest priority first. */
  lemma {:induction false} ReversalsCancel(q: Queue, pri: Priorities, ws: seq<Watcher>, event: nat, p: nat)
    requires QueueOk(q, pri) && (forall w | w in ws :: w in pri) && (forall w | w in Rev(ws) :: w in pri)
    requires AllDistinct(Rev(ws)) && p <= NUMPRI
    ensures forall w | w in Fresh(q, ws) :: w in pri
    ensures CalledBelow(FeedAll(q, pri, Rev(ws), event).slots, p) == AheadOf(Fresh(q, ws), q, pri, p)
  {
    hide FeedAll, AtPriority, Called, Rev, AllDistinct;
    FreshMembers(q, ws);
    hide Fresh;
    if p > 0 {
      ReversalsCancel(q, pri, ws, event, p - 1);
      FedBackCalls(q, pri, ws, event, p - 1);
    }
  }

  // ---------- who is called ----------

  ghost predicate Queued(s: seq<Slot>, w: Watcher) {
    exists i :: 0 <= i < |s| && s[i].w == Some(w)
  }

  lemma {:induction false} QueuedLast(s: seq<Slot>, w: Watcher)
    requires s != []
    ensures Queued(s, w) <==> s[|s| - 1].w == Some(w) || Queued(s[..|s| - 1], w)
  {
    var init := s[..|s| - 1];
    if Queued(init, w) {
      var i :| 0 <= i < |init| && init[i].w == Some(w);
      assert s[i].w == Some(w);
    }
    if Queued(s, w) {
      var i :| 0 <= i < |s| && s[i].w == Some(w);
      assert i < |init| ==> init[i].w == Some(w);
    }
  }

  lemma {:induction false} CalledOnes(s: seq<Slot>, w: Watcher)
    ensures w in Called(s) <==> Queued(s, w)
  {
    if s != [] {
      CalledOnes(s[..|s| - 1], w);
      QueuedLast(s, w);
      hide Queued;
    }
  }

  /** Exactly the watchers with something pending are called. */
  lemma {:induction false} CalledPending(q: Queue, pri: Priorities, p: nat)
    requires QueueOk(q, pri) && p <= NUMPRI
    ensures forall w :: w in CalledBelow(q.slots, p) <==> w in pri && q.pending[w] != 0 && pri[w] < p
  {
    if p > 0 {
      CalledPending(q, pri, p - 1);
      forall w ensures w in Called(q.slots[p - 1]) <==> w in pri && q.pending[w] != 0 && pri[w] == p - 1 {
        CalledOnes(q.slots[p - 1], w);
        QueuedPending(q, pri, p - 1, w);
      }
      hide Called, QueueOk;
    }
  }

  lemma {:induction false} QueuedPending(q: Queue, pri: Priorities, p: nat, w: Watcher)
    requires QueueOk(q, pri) && p < NUMPRI
    ensures Queued(q.slots[p], w) <==> w in pri && q.pending[w] != 0 && pri[w] == p
  {
    if w in pri { assert WatcherQueued(q, pri, w); }
    if Queued(q.slots[p], w) {
      var i :| 0 <= i < |q.slots[p]| && q.slots[p][i].w == Some(w);
      assert SlotNamed(q, pri, p, i);
    }
  }

  /** No watcher is called twice. */
  lemma {:induction false} CalledDistinct(q: Queue, pri: Priorities, p: nat)
    requires QueueOk(q, pri) && p <= NUMPRI
    ensures AllDistinct(CalledBelow(q.slots, p))
  {
    if p > 0 {
      CalledDistinct(q, pri, p - 1);
      CalledPending(q, pri, p - 1);
      var s, rest := q.slots[p - 1], CalledBelow(q.slots, p - 1);
      forall i, j | 0 <= i < j < |s| && s[i].w.Some? ensures s[i].w != s[j].w {
        assert SlotNamed(q, pri, p - 1, i) && SlotNamed(q, pri, p - 1, j);
      }
      SlotsDistinct(s);
      forall w | w in Called(s) ensures w !in rest {
        CalledOnes(s, w);
        QueuedPending(q, pri, p - 1, w);
      }
      hide QueueOk, Called, AllDistinct;
      DistinctAppend(Called(s), rest);
    }
  }

  lemma {:induction false} SlotsDistinct(s: seq<Slot>)
    requires forall i, j | 0 <= i < j < |s| && s[i].w.Some? :: s[i].w != s[j].w
    ensures AllDistinct(Called(s))
  {
    if s != [] {
      var init, l := s[..|s| - 1], s[|s| - 1];
      SlotsDistinct(init);
      if l.w.Some? {
        CalledOnes(init, l.w.value);
        hide Called;
        DistinctAppend([l.w.value], Called(init));
      }
    }
  }

  lemma {:induction false} DistinctAppend(x: seq<Watcher>, y: seq<Watcher>)
    requires AllDistinct(x) && AllDistinct(y) && forall w | w in x :: w !in y
    ensures AllDistinct(x + y)
  {
    forall i, j | 0 <= i < j < |x + y| ensures (x + y)[i] != (x + y)[j] {
      if i < |x| <= j { assert x[i] in x && y[j - |x|] in y; }
    }
  }

  /** Higher priority first, and earlier expiry first within a priority. */
  predicate Before(pri: Priorities, at: map<Watcher, real>, x: Watcher, y: Watcher) {
    x in pri && y in pri && x in at && y in at && (pri[x] > pri[y] || (pri[x] == pri[y] && at[x] <= at[y]))
  }

  ghost predicate InCallOrder(pri: Priorities, at: map<Watcher, real>, ws: seq<Watcher>) {
    forall i, j | 0 <= i < j < |ws| :: Before(pri, at, ws[i], ws[j])
  }

  lemma InCallOrderAppend(pri: Priorities, at: map<Watcher, real>, x: seq<Watcher>, y: seq<Watcher>)
    requires InCallOrder(pri, at, x) && InCallOrder(pri, at, y)
    requires forall v, w | v in x && w in y :: Before(pri, at, v, w)
    ensures InCallOrder(pri, at, x + y)
  {
    hide Before;
    forall i, j | 0 <= i < j < |x + y| ensures Before(pri, at, (x + y)[i], (x + y)[j]) {
      if i < |x| <= j {
        assert x[i] in x && y[j - |x|] in y;
      }
    }
  }

  predicate ExpirySorted(at: map<Watcher, real>, ws: seq<Watcher>)
    requires forall w | w in ws :: w in at
  {
    forall i, j | 0 <= i < j < |ws| :: at[ws[i]] <= at[ws[j]]
  }

  lemma LastExpiresLast(at: map<Watcher, real>, ws: seq<Watcher>, v: Watcher)
    requires ws != [] && (forall w | w in ws :: w in at) && ExpirySorted(at, ws)
    requires v in ws[..|ws| - 1]
    ensures at[v] <= at[ws[|ws| - 1]]
  {
  }

  lemma {:induction false} AtPriorityOrder(ws: seq<Watcher>, pri: Priorities, at: map<Watcher, real>, p: nat)
    requires forall w | w in ws :: w in pri
    requires (forall w | w in ws :: w in at) && ExpirySorted(at, ws)
    ensures forall w :: w in AtPriority(ws, pri, p) <==> w in ws && pri[w] == p
    ensures InCallOrder(pri, at, AtPriority(ws, pri, p))
  {
    if ws != [] {
      var init, w := ws[..|ws| - 1], ws[|ws| - 1];
      AtPriorityOrder(init, pri, at, p);
      assert ws == init + [w];
      var r := AtPriority(init, pri, p);
      if pri[w] == p {
        forall v | v in r ensures Before(pri, at, v, w) { LastExpiresLast(at, ws, v); }
        InCallOrderAppend(pri, at, r, [w]);
      }
    }
  }

  lemma {:induction false} ByPriorityOrder(ws: seq<Watcher>, pri: Priorities, at: map<Watcher, real>, p: nat)
    requires forall w | w in ws :: w in pri
    requires (forall w | w in ws :: w in at) && ExpirySorted(at, ws)
    ensures forall w :: w in ByPriority(ws, pri, p) <==> w in ws && pri[w] < p
    ensures InCallOrder(pri, at, ByPriority(ws, pri, p))
  {
    hide AtPriority, InCallOrder, ExpirySorted;
    if p > 0 {
      AtPriorityOrder(ws, pri, at, p - 1);
      ByPriorityOrder(ws, pri, at, p - 1);
      InCallOrderAppend(pri, at, AtPriority(ws, pri, p - 1), ByPriority(ws, pri, p - 1));
    } else {
      NoneInCallOrder(pri, at);
    }
  }

  lemma NoneInCallOrder(pri: Priorities, at: map<Watcher, real>)
    ensures InCallOrder(pri, at, [])
  {
  }

  /** The last event of one queue is taken out. */
  function Pop(q: Queue, p: nat): Queue
    requires p < |q.slots| && q.slots[p] != []
  {
    var l := q.slots[p];
    var s := l[|l| - 1];
    Queue(q.slots[p := l[..|l| - 1]],
          if s.w.Some? && s.w.value in q.pending then q.pending[s.w.value := 0] else q.pending)
  }

  lemma {:induction false} PopKeeps(q: Queue, pri: Priorities, p: nat)
    requires QueueOk(q, pri) && p < NUMPRI && q.slots[p] != []
    ensures QueueOk(Pop(q, p), pri)
  {
    var q' := Pop(q, p);
    assert SlotNamed(q, pri, p, |q.slots[p]| - 1);
    forall x | x in pri ensures WatcherQueued(q', pri, x) {
      assert WatcherQueued(q, pri, x);
    }
    forall r: nat, i: nat | r < NUMPRI && i < |q'.slots[r]| ensures SlotNamed(q', pri, r, i) {
      assert SlotNamed(q, pri, r, i);
    }
  }

  lemma PendingKeys(q: Queue, pri: Priorities)
    requires QueueOk(q, pri)
    ensures |q.slots| == NUMPRI && q.pending.Keys == pri.Keys
  {
  }

  lemma PriorityBound(q: Queue, pri: Priorities)
    requires QueueOk(q, pri)
    ensures forall w | w in pri :: pri[w] < NUMPRI
  {
    forall w | w in pri ensures pri[w] < NUMPRI { assert WatcherQueued(q, pri, w); }
  }

  lemma CalledBelowStep(s: seq<seq<Slot>>, p: nat, before: seq<Watcher>)
    requires p < |s|
    ensures before + CalledBelow(s, p + 1) == before + Called(s[p]) + CalledBelow(s, p)
    ensures CalledBelow(s, 0) == []
  {
  }

  lemma {:induction false} CalledBelowSame(s: seq<seq<Slot>>, t: seq<seq<Slot>>, p: nat)
    requires p <= |s| == |t| && forall x | 0 <= x < p :: s[x] == t[x]
    ensures CalledBelow(s, p) == CalledBelow(t, p)
  {
    if p > 0 { CalledBelowSame(s, t, p - 1); }
  }

  lemma {:induction false} DrainedEmpty(q: Queue, pri: Priorities)
    requires QueueOk(q, pri) && forall x | 0 <= x < NUMPRI :: q.slots[x] == []
    ensures Empty(q)
  {
    forall w | w in q.pending ensures q.pending[w] == 0 {
      assert WatcherQueued(q, pri, w);
    }
  }

  lemma {:induction false} RevAt<T>(s: seq<T>, i: nat)
    requires i < |s|
    ensures |Rev(s)| == |s| && Rev(s)[|s| - 1 - i] == s[i]
  {
    if |s| > 1 { RevAt(s[1..], if i == 0 then 0 else i - 1); }
  }

  lemma {:induction false} RevDistinct(s: seq<Watcher>)
    requires AllDistinct(s)
    ensures AllDistinct(Rev(s))
  {
    RevMembers(s);
    forall i, j | 0 <= i < j < |Rev(s)| ensures Rev(s)[i] != Rev(s)[j] {
      RevAt(s, |s| - 1 - i);
      RevAt(s, |s| - 1 - j);
    }
  }
}
