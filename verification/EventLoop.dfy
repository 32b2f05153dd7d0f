/** Timers of a libev loop: start, stop, restart, and turning due timers into pending events. */
module EventLoop {
  import opened Common
  import opened TimerHeap
  import opened PendingQueue

  /** `fed` lists exactly the timers that are due, each once, in order of expiry. */
  ghost predicate DueInOrder(fed: seq<Watcher>, active: map<Watcher, int>, at: map<Watcher, real>, now: real)
    requires active.Keys == at.Keys
  {
    && (forall w :: w in fed <==> w in active && active[w] != 0 && at[w] < now)
    && AllDistinct(fed)
    && (forall i, j | 0 <= i < j < |fed| && fed[i] in at && fed[j] in at :: at[fed[i]] <= at[fed[j]])
  }

  function Elements(ws: seq<Watcher>): set<Watcher> {
    set w | w in ws
  }

  function Max(x: real, y: real): real {
    if x < y then y else x
  }

  lemma FewerLeft(all: set<Watcher>, ws: seq<Watcher>, w: Watcher)
    requires w in all && w !in ws
    ensures all - Elements(ws + [w]) < all - Elements(ws)
  {
    assert w in all - Elements(ws) && w !in all - Elements(ws + [w]);
  }

  /** What a round of `timers_reify` has done to timer `w`, given the timers fed so far. */
  ghost predicate Handled(w: Watcher, fed: seq<Watcher>, repeat: real, now: real, wasActive: int, wasAt: real,
      active: int, at: real)
  {
    if w !in fed then at == wasAt && (active != 0 <==> wasActive != 0)
    else if repeat != 0.0 then at == Max(wasAt + repeat, now) && active != 0
    else at == wasAt - now && active == 0
  }

  /** The progress of `timers_reify`: the timers fed so far were due, are distinct, expired in
      that order and no later than any timer that is still due. */
  ghost predicate Progress(fed: seq<Watcher>, repeating: map<Watcher, real>, now: real, a0: map<Watcher, int>,
      at0: map<Watcher, real>, a: map<Watcher, int>, at: map<Watcher, real>)
    requires a0.Keys == at0.Keys == a.Keys == at.Keys == repeating.Keys
  {
    && (forall w | w in fed :: w in a0 && a0[w] != 0 && at0[w] < now)
    && (forall i, j | 0 <= i < j < |fed| :: fed[i] != fed[j] && at0[fed[i]] <= at0[fed[j]])
    && (forall w | w in a :: Handled(w, fed, repeating[w], now, a0[w], at0[w], a[w], at[w]))
    && (forall f, u | f in fed && u in a && u !in fed && a[u] != 0 && at[u] < now :: at0[f] <= at0[u])
  }

  lemma ProgressStart(repeating: map<Watcher, real>, now: real, a: map<Watcher, int>, at: map<Watcher, real>)
    requires a.Keys == at.Keys == repeating.Keys
    ensures Progress([], repeating, now, a, at, a, at)
  {
  }

  lemma {:induction false} RootFacts(h: seq<Entry>, n: nat, a: map<Watcher, int>, at: map<Watcher, real>)
    requires HeapOk(h, n, a, at) && n > 0
    ensures var w := h[HEAP0].w;
            w in a && a[w] != 0 && at[w] == h[HEAP0].at && forall u | u in a && a[u] != 0 :: at[w] <= at[u]
  {
    hide Ordered;
    assert Pos(n, HEAP0);
    forall u | u in a && a[u] != 0 ensures h[HEAP0].at <= at[u] {
      ActiveIsInHeap(h, n, a, at, u);
      RootIsLeast(h, n, a[u]);
    }
  }

  lemma {:induction false} NoneDue(h: seq<Entry>, n: nat, a: map<Watcher, int>, at: map<Watcher, real>, now: real)
    requires HeapOk(h, n, a, at) && (n == 0 || h[HEAP0].at >= now)
    ensures forall u | u in a && a[u] != 0 :: at[u] >= now
  {
    hide Ordered;
    forall u | u in a && a[u] != 0 ensures at[u] >= now {
      ActiveIsInHeap(h, n, a, at, u);
      RootIsLeast(h, n, a[u]);
    }
  }

  lemma {:induction false} RootNotFed(fed: seq<Watcher>, repeating: map<Watcher, real>, now: real,
      a0: map<Watcher, int>, at0: map<Watcher, real>, a: map<Watcher, int>, at: map<Watcher, real>, w: Watcher)
    requires a0.Keys == at0.Keys == a.Keys == at.Keys == repeating.Keys
    requires Progress(fed, repeating, now, a0, at0, a, at) && w in a && a[w] != 0 && at[w] < now
    ensures w !in fed && at[w] == at0[w] && a0[w] != 0
  {
    assert Handled(w, fed, repeating[w], now, a0[w], at0[w], a[w], at[w]);
  }

  /** The parts of `Progress` after one more timer. */
  lemma {:induction false} HandledStep(fed: seq<Watcher>, repeating: map<Watcher, real>, now: real,
      a0: map<Watcher, int>, at0: map<Watcher, real>, a: map<Watcher, int>, at: map<Watcher, real>,
      a': map<Watcher, int>, at': map<Watcher, real>, w: Watcher)
    requires a0.Keys == at0.Keys == a.Keys == at.Keys == repeating.Keys == a'.Keys == at'.Keys
    requires Progress(fed, repeating, now, a0, at0, a, at)
    requires w in a && w !in fed && a0[w] != 0 && at[w] == at0[w] < now
    requires forall u | u in a && a[u] != 0 :: at[w] <= at[u]
    requires at' == at[w := at'[w]] && forall u | u in a && u != w :: a'[u] != 0 <==> a[u] != 0
    requires Handled(w, fed + [w], repeating[w], now, a0[w], at0[w], a'[w], at'[w])
    ensures forall u | u in a' :: Handled(u, fed + [w], repeating[u], now, a0[u], at0[u], a'[u], at'[u])
  {
    forall u | u in a' && u != w ensures Handled(u, fed + [w], repeating[u], now, a0[u], at0[u], a'[u], at'[u]) {
      StillHandled(u, fed, w, repeating[u], now, a0[u], at0[u], a[u], at[u], a'[u]);
    }
  }

  lemma {:induction false} OrderStep(fed: seq<Watcher>, repeating: map<Watcher, real>, now: real,
      a0: map<Watcher, int>, at0: map<Watcher, real>, a: map<Watcher, int>, at: map<Watcher, real>,
      a': map<Watcher, int>, at': map<Watcher, real>, w: Watcher)
    requires a0.Keys == at0.Keys == a.Keys == at.Keys == repeating.Keys == a'.Keys == at'.Keys
    requires Progress(fed, repeating, now, a0, at0, a, at)
    requires w in a && w !in fed && a0[w] != 0 && at[w] == at0[w] < now
    requires forall u | u in a && a[u] != 0 :: at[w] <= at[u]
    requires at' == at[w := at'[w]] && forall u | u in a && u != w :: a'[u] != 0 <==> a[u] != 0
    requires Handled(w, fed + [w], repeating[w], now, a0[w], at0[w], a'[w], at'[w])
    ensures var fed' := fed + [w];
            && (forall u | u in fed' :: u in a0 && a0[u] != 0 && at0[u] < now)
            && (forall i, j | 0 <= i < j < |fed'| :: fed'[i] != fed'[j] && at0[fed'[i]] <= at0[fed'[j]])
  {
    hide Handled;
    var fed' := fed + [w];
    assert forall u | u in fed' :: u in fed || u == w;
    forall i, j | 0 <= i < j < |fed'| ensures fed'[i] != fed'[j] && at0[fed'[i]] <= at0[fed'[j]] {
      if j == |fed| { EarlierThan(fed, repeating, now, a0, at0, a, at, w, fed[i]); }
    }
  }

  /** A timer that has been fed expired no later than the one that is due now. */
  lemma EarlierThan(fed: seq<Watcher>, repeating: map<Watcher, real>, now: real, a0: map<Watcher, int>,
      at0: map<Watcher, real>, a: map<Watcher, int>, at: map<Watcher, real>, w: Watcher, f: Watcher)
    requires a0.Keys == at0.Keys == a.Keys == at.Keys == repeating.Keys
    requires Progress(fed, repeating, now, a0, at0, a, at)
    requires w in a && w !in fed && a0[w] != 0 && at[w] == at0[w] < now && f in fed
    ensures f != w && f in at0 && at0[f] <= at0[w]
  {
    assert Handled(w, fed, repeating[w], now, a0[w], at0[w], a[w], at[w]);
  }

  lemma {:induction false} EarlierStep(fed: seq<Watcher>, repeating: map<Watcher, real>, now: real,
      a0: map<Watcher, int>, at0: map<Watcher, real>, a: map<Watcher, int>, at: map<Watcher, real>,
      a': map<Watcher, int>, at': map<Watcher, real>, w: Watcher)
    requires a0.Keys == at0.Keys == a.Keys == at.Keys == repeating.Keys == a'.Keys == at'.Keys
    requires Progress(fed, repeating, now, a0, at0, a, at)
    requires w in a && w !in fed && a0[w] != 0 && at[w] == at0[w] < now
    requires forall u | u in a && a[u] != 0 :: at[w] <= at[u]
    requires at' == at[w := at'[w]] && forall u | u in a && u != w :: a'[u] != 0 <==> a[u] != 0
    requires Handled(w, fed + [w], repeating[w], now, a0[w], at0[w], a'[w], at'[w])
    ensures forall f, u | f in fed + [w] && u in a' && u !in fed + [w] && a'[u] != 0 && at'[u] < now ::
            f in at0 && at0[f] <= at0[u]
  {
    forall f, u | f in fed + [w] && u in a' && u !in fed + [w] && a'[u] != 0 && at'[u] < now
      ensures f in at0 && at0[f] <= at0[u] {
      assert Handled(u, fed, repeating[u], now, a0[u], at0[u], a[u], at[u]);
      if f != w { EarlierThan(fed, repeating, now, a0, at0, a, at, u, f); }
    }
  }

  lemma {:induction false} ProgressStep(fed: seq<Watcher>, repeating: map<Watcher, real>, now: real,
      a0: map<Watcher, int>, at0: map<Watcher, real>, a: map<Watcher, int>, at: map<Watcher, real>,
      a': map<Watcher, int>, at': map<Watcher, real>, w: Watcher)
    requires a0.Keys == at0.Keys == a.Keys == at.Keys == repeating.Keys == a'.Keys == at'.Keys
    requires Progress(fed, repeating, now, a0, at0, a, at)
    requires w in a && w !in fed && a0[w] != 0 && at[w] == at0[w] < now
    requires forall u | u in a && a[u] != 0 :: at[w] <= at[u]
    requires at' == at[w := at'[w]] && forall u | u in a && u != w :: a'[u] != 0 <==> a[u] != 0
    requires Handled(w, fed + [w], repeating[w], now, a0[w], at0[w], a'[w], at'[w])
    ensures Progress(fed + [w], repeating, now, a0, at0, a', at')
  {
    HandledStep(fed, repeating, now, a0, at0, a, at, a', at', w);
    OrderStep(fed, repeating, now, a0, at0, a, at, a', at', w);
    EarlierStep(fed, repeating, now, a0, at0, a, at, a', at', w);
    hide Handled;
  }

  lemma StillHandled(u: Watcher, fed: seq<Watcher>, w: Watcher, repeat: real, now: real, wasActive: int, wasAt: real,
      active: int, at: real, active': int)
    requires Handled(u, fed, repeat, now, wasActive, wasAt, active, at) && u != w && (active' != 0 <==> active != 0)
    ensures Handled(u, fed + [w], repeat, now, wasActive, wasAt, active', at)
  {
  }

  lemma {:induction false} ProgressDone(fed: seq<Watcher>, repeating: map<Watcher, real>, now: real,
      a0: map<Watcher, int>, at0: map<Watcher, real>, a: map<Watcher, int>, at: map<Watcher, real>)
    requires a0.Keys == at0.Keys == a.Keys == at.Keys == repeating.Keys
    requires Progress(fed, repeating, now, a0, at0, a, at)
    requires forall u | u in a && a[u] != 0 :: at[u] >= now
    ensures DueInOrder(fed, a0, at0, now)
    ensures forall w | w in a :: Handled(w, fed, repeating[w], now, a0[w], at0[w], a[w], at[w])
    ensures forall w | w in fed :: w in a
  {
    forall w | w in a0 && a0[w] != 0 && at0[w] < now ensures w in fed {
      assert Handled(w, fed, repeating[w], now, a0[w], at0[w], a[w], at[w]);
    }
  }

  // ---------- what becomes of the pending events ----------

  /** The queue after those of `ws` that do not repeat have been stopped. */
  ghost function ClearStopped(q: Queue, pri: Priorities, repeating: map<Watcher, real>, ws: seq<Watcher>): (r: Queue)
    requires QueueOk(q, pri) && pri.Keys == repeating.Keys && forall w | w in ws :: w in pri
    ensures QueueOk(r, pri)
  {
    if ws == [] then q else
      var q1, w := ClearStopped(q, pri, repeating, ws[..|ws| - 1]), ws[|ws| - 1];
      ClearKeeps(q1, pri, w);
      if repeating[w] != 0.0 then q1 else Clear(q1, pri, w)
  }

  lemma {:induction false} ClearStoppedIs(q: Queue, pri: Priorities, repeating: map<Watcher, real>, ws: seq<Watcher>)
    requires QueueOk(q, pri) && pri.Keys == repeating.Keys && forall w | w in ws :: w in pri
    ensures forall w | w in pri && (w !in ws || repeating[w] != 0.0) ::
            SamePending(q, ClearStopped(q, pri, repeating, ws), pri, w)
    ensures forall w | w in ws && repeating[w] == 0.0 :: ClearStopped(q, pri, repeating, ws).pending[w] == 0
  {
    hide QueueOk, Clear, Events;
    if ws != [] {
      var init, w := ws[..|ws| - 1], ws[|ws| - 1];
      ClearStoppedIs(q, pri, repeating, init);
      ClearRemoves(ClearStopped(q, pri, repeating, init), pri, w);
      assert ws == init + [w];
    }
  }

  lemma {:induction false} ClearStoppedSnoc(q: Queue, pri: Priorities, repeating: map<Watcher, real>,
      ws: seq<Watcher>, w: Watcher)
    requires QueueOk(q, pri) && pri.Keys == repeating.Keys && w in pri && forall x | x in ws :: x in pri
    ensures var q1 := ClearStopped(q, pri, repeating, ws);
            && WatcherQueued(q1, pri, w)
            && ClearStopped(q, pri, repeating, ws + [w]) == if repeating[w] != 0.0 then q1 else Clear(q1, pri, w)
  {
    ClearKeeps(ClearStopped(q, pri, repeating, ws), pri, w);
    assert (ws + [w])[..|ws|] == ws;
  }

  lemma {:induction false} ClearStoppedEmpty(q: Queue, pri: Priorities, repeating: map<Watcher, real>, ws: seq<Watcher>)
    requires QueueOk(q, pri) && pri.Keys == repeating.Keys && (forall w | w in ws :: w in pri) && Empty(q)
    ensures ClearStopped(q, pri, repeating, ws) == q
  {
    if ws != [] { ClearStoppedEmpty(q, pri, repeating, ws[..|ws| - 1]); }
  }

  lemma ClearStoppedNone(q: Queue, pri: Priorities, repeating: map<Watcher, real>)
    requires QueueOk(q, pri) && pri.Keys == repeating.Keys
    ensures ClearStopped(q, pri, repeating, []) == q
  {
  }

  /** The queue that `timers_reify` leaves: the stopped timers cleared, then all of `fed` from
      last to first. */
  ghost function ReifiedQueue(q: Queue, pri: Priorities, repeating: map<Watcher, real>, fed: seq<Watcher>): (r: Queue)
    requires QueueOk(q, pri) && pri.Keys == repeating.Keys && forall w | w in fed :: w in pri
    ensures QueueOk(r, pri)
  {
    RevMembers(fed);
    FeedAll(ClearStopped(q, pri, repeating, fed), pri, Rev(fed), EV_TIMER)
  }

  /** Each timer in `fed` has `EV_TIMER` pending, and besides only what it had before if it
      repeats; every other watcher has what it had, where it had it. */
  ghost predicate Reified(q: Queue, q': Queue, pri: Priorities, repeating: map<Watcher, real>, fed: seq<Watcher>)
    requires QueueOk(q, pri) && QueueOk(q', pri) && pri.Keys == repeating.Keys
  {
    forall w | w in pri ::
      if w !in fed then SamePending(q, q', pri, w)
      else if repeating[w] != 0.0 then OneMore(q, q', pri, w, EV_TIMER)
      else q'.pending[w] != 0 && Events(q', pri, w) == {EV_TIMER}
  }

  lemma {:induction false} ReifiedIs(q: Queue, pri: Priorities, repeating: map<Watcher, real>, fed: seq<Watcher>)
    requires QueueOk(q, pri) && pri.Keys == repeating.Keys && (forall w | w in fed :: w in pri) && AllDistinct(fed)
    ensures Reified(q, ReifiedQueue(q, pri, repeating, fed), pri, repeating, fed)
  {
    var q1, q2 := ClearStopped(q, pri, repeating, fed), ReifiedQueue(q, pri, repeating, fed);
    RevMembers(fed);
    RevDistinct(fed);
    PendingKeys(q1, pri);
    PendingKeys(q2, pri);
    hide QueueOk, Rev, AllDistinct, ClearStopped, Events;
    FeedAllAdds(q1, pri, Rev(fed), EV_TIMER);
    hide FeedAll;
    ClearStoppedIs(q, pri, repeating, fed);
    assert q2 == FeedAll(q1, pri, Rev(fed), EV_TIMER);
    hide ReifiedQueue;
    ReifiedFrom(q, q1, q2, pri, repeating, fed);
  }

  lemma {:induction false} ReifiedFrom(q: Queue, q1: Queue, q2: Queue, pri: Priorities, repeating: map<Watcher, real>,
      fed: seq<Watcher>)
    requires QueueOk(q, pri) && QueueOk(q1, pri) && QueueOk(q2, pri) && pri.Keys == repeating.Keys
    requires Adds(q1, q2, pri, Rev(fed), EV_TIMER) && forall w :: w in Rev(fed) <==> w in fed
    requires forall w | w in pri && (w !in fed || repeating[w] != 0.0) :: SamePending(q, q1, pri, w)
    requires forall w | w in pri && w in fed && repeating[w] == 0.0 :: q1.pending[w] == 0
    ensures Reified(q, q2, pri, repeating, fed)
  {
    hide QueueOk, Rev, Events, OneMore, SamePending;
    PendingKeys(q, pri);
    PendingKeys(q1, pri);
    PendingKeys(q2, pri);
    forall w | w in pri
      ensures if w !in fed then SamePending(q, q2, pri, w)
              else if repeating[w] != 0.0 then OneMore(q, q2, pri, w, EV_TIMER)
              else q2.pending[w] != 0 && Events(q2, pri, w) == {EV_TIMER}
    {
      assert w in Rev(fed) <==> w in fed;
      if w in fed && repeating[w] == 0.0 { FedAlone(q1, q2, pri, w); } else { FedAfter(q, q1, q2, pri, w); }
    }
  }

  lemma FedAlone(q: Queue, q': Queue, pri: Priorities, w: Watcher)
    requires QueueOk(q, pri) && QueueOk(q', pri) && w in pri && w in q.pending && q.pending[w] == 0 &&
             OneMore(q, q', pri, w, EV_TIMER)
    ensures q'.pending[w] != 0 && Events(q', pri, w) == {EV_TIMER}
  {
    assert Events(q, pri, w) == {};
  }

  lemma FedAfter(q: Queue, q1: Queue, q2: Queue, pri: Priorities, w: Watcher)
    requires QueueOk(q, pri) && QueueOk(q1, pri) && QueueOk(q2, pri) && w in pri && SamePending(q, q1, pri, w)
    ensures SamePending(q1, q2, pri, w) ==> SamePending(q, q2, pri, w)
    ensures OneMore(q1, q2, pri, w, EV_TIMER) ==> OneMore(q, q2, pri, w, EV_TIMER)
  {
    hide Events;
  }

  lemma FedNone(q: Queue, pri: Priorities, event: nat)
    requires QueueOk(q, pri)
    ensures Rev<Watcher>([]) == [] && FeedAll(q, pri, [], event) == q
  {
  }

  lemma {:induction false} FedOneMore(q: Queue, pri: Priorities, done: seq<Watcher>, w: Watcher, event: nat)
    requires QueueOk(q, pri) && w in pri && (forall x | x in done :: x in pri) && forall x | x in Rev(done) :: x in pri
    ensures forall x | x in Rev([w] + done) :: x in pri
    ensures var q1 := FeedAll(q, pri, Rev(done), event);
            WatcherQueued(q1, pri, w) && FeedAll(q, pri, Rev([w] + done), event) == Feed(q1, pri, w, event)
  {
    RevMembers([w] + done);
    assert Rev([w] + done) == Rev(done) + [w];
    assert (Rev(done) + [w])[..|Rev(done)|] == Rev(done);
    FeedKeeps(FeedAll(q, pri, Rev(done), event), pri, w, event);
  }

  // ---------- clock ----------

  const MIN_TIMEJUMP := 1.0

  /** Without a monotonic clock, a step back or a step beyond the time spent waiting is a jump. */
  predicate Jumped(was: real, clock: real, maxBlock: real) {
    was > clock || clock > was + maxBlock + MIN_TIMEJUMP
  }

  /** The first `i` timers of the heap have been moved by `adjust`, with their cached times. */
  ghost predicate Moved(h: seq<Entry>, n: nat, a: map<Watcher, int>, at: map<Watcher, real>, adjust: real, i: nat,
      h': seq<Entry>, at': map<Watcher, real>)
    requires a.Keys == at.Keys
  {
    && |h'| == |h| && at'.Keys == at.Keys
    && (forall p | 0 <= p < |h| :: h'[p] == if HEAP0 <= p < i + HEAP0 then Entry(h[p].w, h[p].at + adjust) else h[p])
    && (forall w | w in at :: at'[w] == if HEAP0 <= a[w] < i + HEAP0 then at[w] + adjust else at[w])
  }

  lemma MovedNone(h: seq<Entry>, n: nat, a: map<Watcher, int>, at: map<Watcher, real>, adjust: real)
    requires a.Keys == at.Keys
    ensures Moved(h, n, a, at, adjust, 0, h, at)
  {
  }

  lemma {:induction false} AtPosition(h: seq<Entry>, n: nat, a: map<Watcher, int>, at: map<Watcher, real>, k: int)
    requires HeapOk(h, n, a, at) && Pos(n, k)
    ensures h[k].w in a && a[h[k].w] == k && at[h[k].w] == h[k].at && forall u | u in a && a[u] == k :: u == h[k].w
  {
    hide Ordered;
    forall u | u in a && a[u] == k ensures u == h[k].w { ActiveIsInHeap(h, n, a, at, u); }
  }

  lemma {:induction false} MovedOne(h: seq<Entry>, n: nat, a: map<Watcher, int>, at: map<Watcher, real>, adjust: real,
      i: nat, h': seq<Entry>, at': map<Watcher, real>)
    requires HeapOk(h, n, a, at) && Moved(h, n, a, at, adjust, i, h', at') && i < n
    ensures var k := i + HEAP0;
            var w := h'[k].w;
            && w in at'
            && Moved(h, n, a, at, adjust, i + 1, h'[k := Entry(w, at'[w] + adjust)], at'[w := at'[w] + adjust])
  {
    hide HeapOk;
    HeapShape(h, n, a, at);
    AtPosition(h, n, a, at, i + HEAP0);
    var k := i + HEAP0;
    var w := h[k].w;
    assert h'[k] == h[k] && at'[w] == at[w];
  }

  lemma {:induction false} MovedOk(h: seq<Entry>, n: nat, a: map<Watcher, int>, at: map<Watcher, real>, adjust: real,
      h': seq<Entry>, at': map<Watcher, real>)
    requires HeapOk(h, n, a, at) && Moved(h, n, a, at, adjust, n, h', at')
    ensures HeapOk(h', n, a, at')
    ensures forall w | w in a :: at'[w] == if a[w] != 0 then at[w] + adjust else at[w]
  {
    forall i | Pos(n, i) ensures h'[i].w == h[i].w && h'[i].at == h[i].at + adjust {}
    forall i | Pos(n, i) && i != HEAP0 ensures h'[Parent(i)].at <= h'[i].at {
      ParentIsAbove(n, i);
      assert h[Parent(i)].at <= h[i].at;
    }
    forall w | w in a ensures at'[w] == if a[w] != 0 then at[w] + adjust else at[w] {
      ActiveIsInHeap(h, n, a, at, w);
    }
    forall w ensures InHeap(h', n, w) <==> InHeap(h, n, w) {
      if i :| Pos(n, i) && h'[i].w == w { assert h[i].w == w; }
      if i :| Pos(n, i) && h[i].w == w { assert h'[i].w == w; }
    }
  }

  class Loop {
    var timers: seq<Entry>
    var count: nat
    var active: map<Watcher, int>
    var at: map<Watcher, real>
    const repeating: map<Watcher, real>
    const pri: Priorities
    var queue: Queue
    var rfeeds: seq<Watcher>
    var now: real

    /** A loop without active timers; `after` holds the relative times of the watchers. */
    constructor (after: map<Watcher, real>, repeating: map<Watcher, real>, pri: Priorities, now: real)
      requires after.Keys == repeating.Keys == pri.Keys
      requires forall w | w in pri :: repeating[w] >= 0.0 && pri[w] < NUMPRI
      ensures Valid() && rfeeds == [] && Empty(queue)
      ensures this.repeating == repeating && this.pri == pri && this.now == now && at == after
      ensures active.Keys == pri.Keys && forall w | w in active :: active[w] == 0
    {
      timers, count := seq(HEAP0, _ => Entry(0, 0.0)), 0;
      active, at := map w | w in pri :: 0, after;
      this.repeating, this.pri, this.now := repeating, pri, now;
      queue := Queue(seq(NUMPRI, _ => []), map w | w in pri :: 0);
      rfeeds := [];
    }

    ghost predicate Valid()
      reads this
    {
      && HeapOk(timers, count, active, at)
      && QueueOk(queue, pri) && pri.Keys == repeating.Keys == active.Keys
      && (forall w | w in repeating :: repeating[w] >= 0.0)
    }

    /** `upheap`: the entry at `start` rises until its parent is no larger; each entry it passes
        moves down one level and is told its new position. */
    method UpHeap(start: int)
      requires count + HEAP0 <= |timers| && Pos(count, start) && Distinct(timers, count)
      requires OrderedButUp(timers, count, start)
      requires BackPointers(timers, count, active, start) && timers[start].w in active
      modifies this`timers, this`active
      ensures |timers| == old(|timers|) && Ordered(timers, count) && Distinct(timers, count)
      ensures SameEntries(old(timers), timers, count)
      ensures BackPointers(timers, count, active, -1)
      ensures OnlyHeapMoved(old(timers), count, old(active), active)
    {
      hide SameEntries, BackPointers, OnlyHeapMoved, Distinct, OrderedButUp, Ordered, Parent;
      SiftStart(timers, count, active);
      var he, k := timers[start], start;
      ghost var h := timers;
      while true
        invariant Pos(count, k) && |timers| == |old(timers)|
        invariant h == timers[k := he]
        invariant OrderedButUp(h, count, k) && Distinct(h, count)
        invariant SameEntries(old(timers), h, count)
        invariant BackPointers(h, count, active, k)
        invariant OnlyHeapMoved(old(timers), count, old(active), active) && he.w in active
        decreases k
      {
        var p := Parent(k);
        ParentIsAbove(count, k);
        if p == k || timers[p].at <= he.at { break; }
        SwapUp(h, count, k);
        SwapKeeps(old(timers), h, count, k, p);
        MoveIntoHole(old(timers), h, count, old(active), active, k, p);
        timers := timers[k := timers[p]];
        active := active[timers[k].w := k];
        h := Swap(h, k, p);
        k := p;
      }
      UpDone(h, count, k);
      FillHole(old(timers), h, count, old(active), active, k);
      timers := timers[k := he];
      active := active[he.w := k];
    }

    /** `downheap`: the entry at `start` sinks until no child is smaller. */
    method DownHeap(start: int)
      requires count + HEAP0 <= |timers| && Pos(count, start) && Distinct(timers, count)
      requires OrderedButDown(timers, count, start)
      requires BackPointers(timers, count, active, start) && timers[start].w in active
      modifies this`timers, this`active
      ensures |timers| == old(|timers|) && Ordered(timers, count) && Distinct(timers, count)
      ensures SameEntries(old(timers), timers, count)
      ensures BackPointers(timers, count, active, -1)
      ensures OnlyHeapMoved(old(timers), count, old(active), active)
    {
      hide SameEntries, BackPointers, OnlyHeapMoved, Distinct, OrderedButDown, Ordered, Parent;
      SiftStart(timers, count, active);
      var he, k := timers[start], start;
      ghost var h := timers;
      while true
        invariant Pos(count, k) && |timers| == |old(timers)|
        invariant h == timers[k := he]
        invariant OrderedButDown(h, count, k) && Distinct(h, count)
        invariant SameEntries(old(timers), h, count)
        invariant BackPointers(h, count, active, k)
        invariant OnlyHeapMoved(old(timers), count, old(active), active) && he.w in active
        decreases count + HEAP0 - k
      {
        var m := MinChild(timers[k := he], count, k);
        if m == -1 { break; }
        if he.at <= timers[m].at { break; }
        SwapDown(h, count, k, m);
        SwapKeeps(old(timers), h, count, k, m);
        MoveIntoHole(old(timers), h, count, old(active), active, k, m);
        timers := timers[k := timers[m]];
        active := active[timers[k].w := k];
        h := Swap(h, k, m);
        k := m;
      }
      DownDone(h, count, k);
      FillHole(old(timers), h, count, old(active), active, k);
      timers := timers[k := he];
      active := active[he.w := k];
    }

    /** `adjustheap`: the entry at `k` has been replaced by an arbitrary one. */
    method AdjustHeap(k: int)
      requires count + HEAP0 <= |timers| && Pos(count, k) && Distinct(timers, count)
      requires OrderedBut(timers, count, k)
      requires BackPointers(timers, count, active, k) && timers[k].w in active
      modifies this`timers, this`active
      ensures |timers| == old(|timers|) && Ordered(timers, count) && Distinct(timers, count)
      ensures SameEntries(old(timers), timers, count)
      ensures BackPointers(timers, count, active, -1)
      ensures OnlyHeapMoved(old(timers), count, old(active), active)
    {
      hide SameEntries, BackPointers, OnlyHeapMoved, Distinct;
      ParentIsAbove(count, k);
      if k > HEAP0 && timers[k].at <= timers[Parent(k)].at {
        UpHeap(k);
      } else {
        DownHeap(k);
      }
    }

    /** `ev_timer_start`: an inactive timer becomes active at its relative time from now. */
    method TimerStart(w: Watcher)
      requires Valid() && w in active
      modifies this`timers, this`count, this`active, this`at
      ensures Valid()
      ensures old(active)[w] != 0 ==> active == old(active) && at == old(at)
      ensures old(active)[w] == 0 ==> at == old(at)[w := old(at)[w] + now]
      ensures active[w] != 0 && forall u | u in active && u != w :: active[u] != 0 <==> old(active)[u] != 0
    {
      hide HeapOk, Ordered, OrderedButUp, Distinct, BackPointers, SameEntries, OnlyHeapMoved, QueueOk, Cached,
           OthersInactive;
      if active[w] != 0 { return; }
      HeapShape(timers, count, active, at);
      ghost var h, n, a, t := timers, count, active, at;
      at := at[w := at[w] + now];
      count := count + 1;
      var k := count + HEAP0 - 1;
      active := active[w := k];
      var e := Entry(w, at[w]);
      timers := if k < |timers| then timers[k := e] else timers + [e];
      AppendOk(h, n, a, t, timers, w, at[w]);
      ghost var h1 := timers;
      UpHeap(k);
      StartedOk(h, n, a, t, w, at[w], h1, timers, active);
      HeapShape(timers, count, active, at);
    }

    /** `clear_pending` */
    method ClearPending(w: Watcher)
      requires QueueOk(queue, pri) && w in pri
      modifies this`queue
      ensures QueueOk(queue, pri)
      ensures w in old(queue).pending && WatcherQueued(old(queue), pri, w) && queue == Clear(old(queue), pri, w)
    {
      ClearKeeps(queue, pri, w);
      if queue.pending[w] != 0 {
        var p, i := pri[w], queue.pending[w] - 1;
        var slots := queue.slots[p := queue.slots[p][i := queue.slots[p][i].(w := None)]];
        queue := Queue(slots, queue.pending[w := 0]);
      }
    }

    /** The heap part of `ev_timer_stop`: the last entry fills the gap that `w` leaves. */
    method RemoveEntry(w: Watcher, ghost t: real)
      requires HeapOk(timers, count, active, at) && w in active && active[w] != 0
      modifies this`timers, this`count, this`active
      ensures active.Keys == old(active).Keys
      ensures HeapOk(timers, count, active[w := 0], at[w := t])
      ensures forall u | u in active && u != w :: active[u] != 0 <==> old(active)[u] != 0
    {
      hide Ordered, OrderedBut, Distinct, SameEntries, Cached, OthersInactive, BackPointers;
      ActiveIsInHeap(timers, count, active, at, w);
      var k := active[w];
      ghost var h, n, a := timers, count, active;
      RemoveOk(h, n, a, at, k);
      hide HeapOk;
      count := count - 1;
      ghost var h1 := h[k := h[n - 1 + HEAP0]];
      SiftStart(h1, count, active);
      if k < count + HEAP0 {
        timers := timers[k := timers[count + HEAP0]];
        AdjustHeap(k);
      } else {
        assert h1 == timers;
      }
      StoppedOk(h, n, a, at, w, t, timers, active);
    }

    /** `ev_timer_stop`: pending events are cleared; an active timer leaves the heap and keeps the
        time it had left. */
    method TimerStop(w: Watcher)
      requires Valid() && w in active
      modifies this`timers, this`count, this`active, this`at, this`queue
      ensures Valid()
      ensures w in old(queue).pending && WatcherQueued(old(queue), pri, w) && queue == Clear(old(queue), pri, w)
      ensures old(active)[w] == 0 ==> active == old(active) && at == old(at)
      ensures old(active)[w] != 0 ==> at == old(at)[w := old(at)[w] - now]
      ensures active[w] == 0 && forall u | u in active && u != w :: active[u] != 0 <==> old(active)[u] != 0
    {
      hide HeapOk, QueueOk, WatcherQueued;
      ClearPending(w);
      if active[w] == 0 { return; }
      HeapShape(timers, count, active, at);
      var left := at[w] - now;
      RemoveEntry(w, left);
      at := at[w := left];
      active := active[w := 0];
    }

    /** `ev_timer_again`: a repeating timer runs again from now, another one is stopped. */
    method TimerAgain(w: Watcher)
      requires Valid() && w in active
      modifies this`timers, this`count, this`active, this`at, this`queue
      ensures Valid()
      ensures active[w] != 0 <==> repeating[w] != 0.0
      ensures repeating[w] != 0.0 ==> at == old(at)[w := now + repeating[w]] && queue == old(queue)
      ensures repeating[w] == 0.0 && old(active)[w] == 0 ==>
                active == old(active) && at == old(at) && timers == old(timers) && queue == old(queue)
      ensures repeating[w] == 0.0 && old(active)[w] != 0 ==>
                && at == old(at)[w := old(at)[w] - now]
                && w in old(queue).pending && WatcherQueued(old(queue), pri, w) && queue == Clear(old(queue), pri, w)
      ensures forall u | u in active && u != w :: at[u] == old(at)[u] && (active[u] != 0 <==> old(active)[u] != 0)
    {
      hide HeapOk, QueueOk, WatcherQueued;
      HeapShape(timers, count, active, at);
      if active[w] != 0 {
        if repeating[w] != 0.0 {
          Rekey(w, now + repeating[w]);
        } else {
          TimerStop(w);
        }
      } else if repeating[w] != 0.0 {
        at := at[w := repeating[w]];
        InactiveRekey(timers, count, active, old(at), w, repeating[w]);
        TimerStart(w);
      }
      HeapShape(timers, count, active, at);
    }

    /** An active timer gets another expiry time and moves to its place. */
    method Rekey(w: Watcher, t: real)
      requires HeapOk(timers, count, active, at) && w in active && active[w] != 0
      modifies this`timers, this`active, this`at
      ensures HeapOk(timers, count, active, at) && active.Keys == old(active).Keys && at == old(at)[w := t]
      ensures forall u | u in active :: active[u] != 0 <==> old(active)[u] != 0
    {
      hide Ordered, OrderedBut, Distinct, SameEntries, Cached, OthersInactive, BackPointers;
      ghost var h, n, a, at0 := timers, count, active, at;
      RekeyOk(timers, count, active, at, w, t);
      var k := active[w];
      hide HeapOk;
      at := at[w := t];
      timers := timers[k := Entry(timers[k].w, at[w])];
      AdjustHeap(k);
      RekeyedOk(h, n, a, at0, w, t, timers, active);
    }

    /** `timers_reschedule`: all active timers move by the same amount, so the heap stays a heap. */
    method TimersReschedule(adjust: real)
      requires Valid()
      modifies this`timers, this`at
      ensures Valid() && at.Keys == old(at).Keys == active.Keys
      ensures forall w | w in active :: at[w] == if active[w] != 0 then old(at)[w] + adjust else old(at)[w]
    {
      hide QueueOk, HeapOk, Moved;
      HeapShape(timers, count, active, at);
      MovedNone(timers, count, active, at, adjust);
      var i := 0;
      while i < count
        invariant 0 <= i <= count && |timers| == |old(timers)|
        invariant Moved(old(timers), count, active, old(at), adjust, i, timers, at)
      {
        MovedOne(old(timers), count, active, old(at), adjust, i, timers, at);
        var k := i + HEAP0;
        var w := timers[k].w;
        at := at[w := at[w] + adjust];
        timers := timers[k := Entry(w, at[w])];
        i := i + 1;
      }
      MovedOk(old(timers), count, active, old(at), adjust, timers, at);
    }

    /** `time_update`: the loop's time becomes that of the clock.  A monotonic clock moves no timer;
        if the time of day has jumped, every active timer keeps the time it has left. */
    method TimeUpdate(clock: real, monotonic: bool, maxBlock: real)
      requires Valid()
      modifies this`timers, this`at, this`now
      ensures Valid() && now == clock && at.Keys == old(at).Keys == active.Keys
      ensures !monotonic && Jumped(old(now), clock, maxBlock) ==>
                forall w | w in active ::
                  if active[w] != 0 then at[w] - now == old(at)[w] - old(now) else at[w] == old(at)[w]
      ensures monotonic || !Jumped(old(now), clock, maxBlock) ==> at == old(at)
    {
      hide HeapOk, QueueOk;
      HeapShape(timers, count, active, at);
      if !monotonic && (now > clock || clock > now + maxBlock + MIN_TIMEJUMP) {
        TimersReschedule(clock - now);
      }
      now := clock;
    }

    /** One round of the loop in `timers_reify`: the root is rescheduled or stopped, and noted. */
    method FireRoot(ghost active0: map<Watcher, int>, ghost at0: map<Watcher, real>, ghost queue0: Queue)
      requires Valid() && count > 0 && count + HEAP0 <= |timers| && timers[HEAP0].at < now
      requires active0.Keys == at0.Keys == active.Keys == at.Keys
      requires Progress(rfeeds, repeating, now, active0, at0, active, at)
      requires QueueOk(queue0, pri) && forall w | w in rfeeds :: w in pri
      requires queue == ClearStopped(queue0, pri, repeating, rfeeds)
      modifies this`timers, this`count, this`active, this`at, this`queue, this`rfeeds
      ensures Valid() && active.Keys == old(active).Keys == at.Keys && count + HEAP0 <= |timers|
      ensures Progress(rfeeds, repeating, now, active0, at0, active, at)
      ensures rfeeds == old(rfeeds) + [old(timers[HEAP0].w)] && forall w | w in rfeeds :: w in pri
      ensures queue == ClearStopped(queue0, pri, repeating, rfeeds)
      ensures active.Keys - Elements(rfeeds) < active.Keys - Elements(old(rfeeds))
    {
      hide HeapOk, QueueOk, Progress, WatcherQueued, Clear, ClearStopped, Elements;
      var w := timers[HEAP0].w;
      ghost var a, t := active, at;
      RootFacts(timers, count, active, at);
      RootNotFed(rfeeds, repeating, now, active0, at0, active, at, w);
      ClearStoppedSnoc(queue0, pri, repeating, rfeeds, w);
      FewerLeft(active.Keys, rfeeds, w);
      if repeating[w] != 0.0 {
        var next := at[w] + repeating[w];
        if next < now { next := now; }
        Rekey(w, next);
      } else {
        TimerStop(w);
      }
      HeapShape(timers, count, active, at);
      ProgressStep(rfeeds, repeating, now, active0, at0, a, t, active, at, w);
      rfeeds := rfeeds + [w];
    }

    /** `feed_reverse_done`: from the last noted timer to the first. */
    method FeedReverseDone(event: nat)
      requires QueueOk(queue, pri) && forall w | w in rfeeds :: w in pri
      modifies this`rfeeds, this`queue
      ensures rfeeds == [] && QueueOk(queue, pri)
      ensures (forall w | w in Rev(old(rfeeds)) :: w in pri) && QueueOk(old(queue), pri)
      ensures queue == FeedAll(old(queue), pri, Rev(old(rfeeds)), event)
      ensures forall w | w in old(rfeeds) :: w in queue.pending && queue.pending[w] != 0
    {
      hide QueueOk, WatcherQueued, FeedAll, Feed, Rev;
      ghost var all, done := rfeeds, [];
      RevMembers(all);
      FedNone(queue, pri, event);
      while rfeeds != []
        invariant all == rfeeds + done && QueueOk(queue, pri) && (forall w | w in done :: w in pri)
        invariant (forall w | w in Rev(done) :: w in pri) && queue == FeedAll(old(queue), pri, Rev(done), event)
        decreases |rfeeds|
      {
        var w := rfeeds[|rfeeds| - 1];
        rfeeds := rfeeds[..|rfeeds| - 1];
        FedOneMore(old(queue), pri, done, w, event);
        FeedEvent(w, event);
        done := [w] + done;
      }
      assert all == done;
      PendingKeys(queue, pri);
    }

    /** `ev_feed_event` */
    method FeedEvent(w: Watcher, event: nat)
      requires QueueOk(queue, pri) && w in pri
      modifies this`queue
      ensures QueueOk(queue, pri)
      ensures w in old(queue).pending && |old(queue).slots| == NUMPRI && WatcherQueued(old(queue), pri, w)
      ensures queue == Feed(old(queue), pri, w, event)
    {
      FeedKeeps(queue, pri, w, event);
      var p := pri[w];
      var l, i := queue.slots[p], queue.pending[w];
      if i != 0 {
        queue := queue.(slots := queue.slots[p := l[i - 1 := l[i - 1].(events := l[i - 1].events + {event})]]);
      } else {
        queue := Queue(queue.slots[p := l + [Slot(Some(w), {event})]], queue.pending[w := |l| + 1]);
      }
    }

    /** `timers_reify`: feeds exactly the due timers, once each and in order of expiry; a repeating
        one is rescheduled, another one stopped; none that remains is due.  Whatever was pending
        before stays as it was, except that a stopped timer has only the new event. */
    method TimersReify() returns (ghost fed: seq<Watcher>)
      requires Valid() && rfeeds == []
      modifies this`timers, this`count, this`active, this`at, this`queue, this`rfeeds
      ensures Valid() && rfeeds == [] && active.Keys == old(active).Keys == at.Keys == old(at).Keys
      ensures DueInOrder(fed, old(active), old(at), now)
      ensures forall w | w in active ::
                Handled(w, fed, repeating[w], now, old(active)[w], old(at)[w], active[w], at[w])
      ensures forall w | w in active && active[w] != 0 :: at[w] >= now
      ensures QueueOk(old(queue), pri) && (forall w | w in fed :: w in pri)
      ensures queue == ReifiedQueue(old(queue), pri, repeating, fed)
      ensures Reified(old(queue), queue, pri, repeating, fed)
    {
      hide HeapOk, QueueOk, Progress, ClearStopped, Elements, Reified;
      ClearStoppedNone(queue, pri, repeating);
      HeapShape(timers, count, active, at);
      ProgressStart(repeating, now, active, at);
      while count > 0 && timers[HEAP0].at < now
        invariant Valid() && active.Keys == old(active).Keys == at.Keys && count + HEAP0 <= |timers|
        invariant Progress(rfeeds, repeating, now, old(active), old(at), active, at)
        invariant forall w | w in rfeeds :: w in pri
        invariant QueueOk(old(queue), pri) && queue == ClearStopped(old(queue), pri, repeating, rfeeds)
        decreases active.Keys - Elements(rfeeds)
      {
        FireRoot(old(active), old(at), old(queue));
      }
      fed := rfeeds;
      NoneDue(timers, count, active, at, now);
      ProgressDone(fed, repeating, now, old(active), old(at), active, at);
      RevMembers(fed);
      if rfeeds != [] {
        FeedReverseDone(EV_TIMER);
      }
      ReifiedIs(old(queue), pri, repeating, fed);
    }

    /** The inner loop of `ev_invoke_pending`: one queue is emptied from its end. */
    method DrainQueue(p: nat) returns (called: seq<Watcher>)
      requires QueueOk(queue, pri) && p < NUMPRI && |queue.slots| == NUMPRI
      modifies this`queue
      ensures called == Called(old(queue).slots[p])
      ensures QueueOk(queue, pri) && |queue.slots| == NUMPRI && queue.slots == old(queue).slots[p := []]
    {
      hide QueueOk;
      called := [];
      while queue.slots[p] != []
        invariant QueueOk(queue, pri) && |queue.slots| == NUMPRI
        invariant queue.slots == old(queue).slots[p := queue.slots[p]]
        invariant called + Called(queue.slots[p]) == Called(old(queue).slots[p])
        decreases |queue.slots[p]|
      {
        PopKeeps(queue, pri, p);
        var l := queue.slots[p];
        queue := Pop(queue, p);
        if l[|l| - 1].w.Some? { called := called + [l[|l| - 1].w.value]; }
      }
    }

    /** `ev_invoke_pending`, with callbacks that leave the loop alone: returns the watchers in the
        order in which their callbacks run. */
    method InvokePending() returns (called: seq<Watcher>)
      requires QueueOk(queue, pri)
      modifies this`queue
      ensures |old(queue).slots| == NUMPRI && called == CalledBelow(old(queue).slots, NUMPRI)
      ensures QueueOk(queue, pri) && Empty(queue)
    {
      hide QueueOk, Called, CalledBelow, Empty;
      PendingKeys(queue, pri);
      called := [];
      var p: nat := NUMPRI;
      while p > 0
        invariant p <= NUMPRI && QueueOk(queue, pri) && |queue.slots| == NUMPRI
        invariant forall x | p <= x < NUMPRI :: queue.slots[x] == []
        invariant called + CalledBelow(queue.slots, p) == CalledBelow(old(queue).slots, NUMPRI)
      {
        p := p - 1;
        CalledBelowStep(queue.slots, p, called);
        ghost var slots := queue.slots;
        var c := DrainQueue(p);
        CalledBelowSame(slots, queue.slots, p);
        called := called + c;
      }
      CalledBelowStep(queue.slots, 0, called);
      DrainedEmpty(queue, pri);
    }

    /** One `timers_reify` and one `ev_invoke_pending` run the callbacks of exactly the due timers
        and the watchers that had something pending, once each.  In each priority, highest first,
        the due timers come in order of expiry and ahead of what was waiting; a repeating timer that
        was waiting keeps its turn.  With nothing waiting, only the due timers run. */
    method RunDueTimers() returns (called: seq<Watcher>, ghost fed: seq<Watcher>)
      requires Valid() && rfeeds == []
      modifies this`timers, this`count, this`active, this`at, this`queue, this`rfeeds
      ensures Valid() && Empty(queue) && QueueOk(old(queue), pri)
      ensures old(active).Keys == old(at).Keys && DueInOrder(fed, old(active), old(at), now)
      ensures AllDistinct(called) && forall w :: w in called <==> w in fed || (w in pri && old(queue).pending[w] != 0)
      ensures (forall w | w in fed :: w in pri) && CallsOf(called, old(queue), pri, repeating, fed)
      ensures Empty(old(queue)) ==> called == ByPriority(fed, pri, NUMPRI) && InCallOrder(pri, old(at), called)
    {
      hide HeapOk, QueueOk, Empty, ByPriority, InCallOrder, ReifiedQueue, CallsOf;
      HeapShape(timers, count, active, at);
      ghost var q := queue;
      fed := TimersReify();
      PendingKeys(q, pri);
      ReifiedCalls(q, pri, repeating, fed);
      hide DueInOrder;
      called := InvokePending();
      if Empty(q) {
        NothingWaiting(q, pri, repeating, fed, old(active), old(at), now, called);
      }
    }
  }

  /** The order of calls: see `AheadOf`; the queue ahead of which the timers come is the old one
      without the stopped timers. */
  ghost predicate CallsOf(called: seq<Watcher>, q: Queue, pri: Priorities, repeating: map<Watcher, real>,
      fed: seq<Watcher>)
    requires QueueOk(q, pri) && pri.Keys == repeating.Keys && forall w | w in fed :: w in pri
  {
    var q1 := ClearStopped(q, pri, repeating, fed);
    (forall w | w in Fresh(q1, fed) :: w in pri) && called == AheadOf(Fresh(q1, fed), q1, pri, NUMPRI)
  }

  lemma {:induction false} ReifiedOrder(q: Queue, pri: Priorities, repeating: map<Watcher, real>, fed: seq<Watcher>)
    requires QueueOk(q, pri) && pri.Keys == repeating.Keys && (forall w | w in fed :: w in pri) && AllDistinct(fed)
    ensures |ReifiedQueue(q, pri, repeating, fed).slots| == NUMPRI
    ensures CallsOf(CalledBelow(ReifiedQueue(q, pri, repeating, fed).slots, NUMPRI), q, pri, repeating, fed)
  {
    hide QueueOk, ClearStopped, FeedAll, CalledBelow, AheadOf, Rev, Fresh;
    PendingKeys(ReifiedQueue(q, pri, repeating, fed), pri);
    RevMembers(fed);
    RevDistinct(fed);
    ReversalsCancel(ClearStopped(q, pri, repeating, fed), pri, fed, EV_TIMER, NUMPRI);
  }

  /** Who is called after `timers_reify`, and in which order. */
  lemma {:induction false} ReifiedCalls(q: Queue, pri: Priorities, repeating: map<Watcher, real>, fed: seq<Watcher>)
    requires QueueOk(q, pri) && pri.Keys == repeating.Keys && (forall w | w in fed :: w in pri) && AllDistinct(fed)
    ensures |ReifiedQueue(q, pri, repeating, fed).slots| == NUMPRI && q.pending.Keys == pri.Keys
    ensures var called := CalledBelow(ReifiedQueue(q, pri, repeating, fed).slots, NUMPRI);
            && CallsOf(called, q, pri, repeating, fed) && AllDistinct(called)
            && forall w :: w in called <==> w in fed || (w in pri && q.pending[w] != 0)
  {
    hide QueueOk, ReifiedQueue, CallsOf, CalledBelow, AllDistinct;
    ReifiedOrder(q, pri, repeating, fed);
    ReifiedIs(q, pri, repeating, fed);
    var q' := ReifiedQueue(q, pri, repeating, fed);
    PendingKeys(q, pri);
    PriorityBound(q, pri);
    CalledPending(q', pri, NUMPRI);
    CalledDistinct(q', pri, NUMPRI);
    hide Events;
  }

  lemma {:induction false} NothingWaiting(q: Queue, pri: Priorities, repeating: map<Watcher, real>, fed: seq<Watcher>,
      active: map<Watcher, int>, at: map<Watcher, real>, now: real, called: seq<Watcher>)
    requires QueueOk(q, pri) && pri.Keys == repeating.Keys && (forall w | w in fed :: w in pri) && Empty(q)
    requires active.Keys == at.Keys && DueInOrder(fed, active, at, now)
    requires CallsOf(called, q, pri, repeating, fed)
    ensures called == ByPriority(fed, pri, NUMPRI) && InCallOrder(pri, at, called)
  {
    PendingKeys(q, pri);
    hide InCallOrder, ByPriority, AheadOf, Fresh;
    ClearStoppedEmpty(q, pri, repeating, fed);
    FreshAll(q, fed);
    AheadOfNone(fed, q, pri, NUMPRI);
    ByPriorityOrder(fed, pri, at, NUMPRI);
  }

  lemma {:induction false} FreshAll(q: Queue, ws: seq<Watcher>)
    requires forall w | w in ws :: w in q.pending && q.pending[w] == 0
    ensures Fresh(q, ws) == ws
  {
    if ws != [] { FreshAll(q, ws[..|ws| - 1]); }
  }
}
