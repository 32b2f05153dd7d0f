/** The timer store of libev: a 4-ary heap whose entries cache the expiry time and whose
    watchers hold their own position, kept by sifting a hole up or down. */
module TimerHeap {

  type Watcher = nat
  const DHEAP := 4
  const HEAP0 := 3

  /** One heap slot: the watcher and a cached copy of its expiry time. */
  datatype Entry = Entry(w: Watcher, at: real)

  /** `HPARENT`; the division truncates, so the root is its own parent. */
  function Parent(k: int): int {
    if k <= HEAP0 then HEAP0 else (k - HEAP0 - 1) / DHEAP + HEAP0
  }

  predicate Pos(n: nat, i: int) {
    HEAP0 <= i < n + HEAP0
  }

  ghost predicate Ordered(h: seq<Entry>, n: nat)
    requires n + HEAP0 <= |h|
  {
    forall i | Pos(n, i) && i != HEAP0 :: h[Parent(i)].at <= h[i].at
  }

  /** No two slots hold the same watcher. */
  ghost predicate Distinct(h: seq<Entry>, n: nat)
    requires n + HEAP0 <= |h|
  {
    forall i, j | Pos(n, i) && Pos(n, j) && i != j :: h[i].w != h[j].w
  }

  /** Heap order, except that the entry at `k` may be smaller than its parent. */
  ghost predicate OrderedButUp(h: seq<Entry>, n: nat, k: int)
    requires n + HEAP0 <= |h| && Pos(n, k)
  {
    && (forall i | Pos(n, i) && i != HEAP0 && i != k :: h[Parent(i)].at <= h[i].at)
    && (forall i | Pos(n, i) && i != HEAP0 && Parent(i) == k && k != HEAP0 :: h[Parent(k)].at <= h[i].at)
  }

  /** Heap order, except that the entry at `k` may be larger than its children. */
  ghost predicate OrderedButDown(h: seq<Entry>, n: nat, k: int)
    requires n + HEAP0 <= |h| && Pos(n, k)
  {
    && (forall i | Pos(n, i) && i != HEAP0 && Parent(i) != k :: h[Parent(i)].at <= h[i].at)
    && (forall i | Pos(n, i) && i != HEAP0 && Parent(i) == k && k != HEAP0 :: h[Parent(k)].at <= h[i].at)
  }

  ghost predicate Holds(h: seq<Entry>, n: nat, e: Entry)
    requires n + HEAP0 <= |h|
  {
    exists j :: Pos(n, j) && h[j] == e
  }

  /** Heap order, whatever the entry at `k` is: its children are no smaller than its parent. */
  ghost predicate OrderedBut(h: seq<Entry>, n: nat, k: int)
    requires n + HEAP0 <= |h| && Pos(n, k)
  {
    && (forall i | Pos(n, i) && i != HEAP0 && i != k && Parent(i) != k :: h[Parent(i)].at <= h[i].at)
    && (forall i | Pos(n, i) && i != HEAP0 && Parent(i) == k && k != HEAP0 :: h[Parent(k)].at <= h[i].at)
  }

  /** The same entries, in any order; slots outside the heap untouched. */
  ghost predicate SameEntries(h: seq<Entry>, h': seq<Entry>, n: nat)
    requires n + HEAP0 <= |h| == |h'|
  {
    && (forall i | 0 <= i < |h| && !Pos(n, i) :: h'[i] == h[i])
    && (forall e :: Holds(h, n, e) <==> Holds(h', n, e))
  }

  /** The root expires first. */
  lemma {:induction false} RootIsLeast(h: seq<Entry>, n: nat, i: int)
    requires n + HEAP0 <= |h| && Ordered(h, n) && Pos(n, i)
    ensures h[HEAP0].at <= h[i].at
    decreases i
  {
    if i > HEAP0 { RootIsLeast(h, n, Parent(i)); }
  }

  /** Watchers' positions: every slot other than `hole` is where its watcher says. */
  ghost predicate BackPointers(h: seq<Entry>, n: nat, active: map<Watcher, int>, hole: int)
    requires n + HEAP0 <= |h|
  {
    forall i | Pos(n, i) && i != hole :: h[i].w in active && active[h[i].w] == i
  }

  ghost predicate InHeap(h: seq<Entry>, n: nat, w: Watcher)
    requires n + HEAP0 <= |h|
  {
    exists i :: Pos(n, i) && h[i].w == w
  }

  /** Only watchers in the heap changed their position. */
  ghost predicate OnlyHeapMoved(h: seq<Entry>, n: nat, active: map<Watcher, int>, active': map<Watcher, int>)
    requires n + HEAP0 <= |h|
  {
    && active'.Keys == active.Keys
    && forall w | w in active && !InHeap(h, n, w) :: active'[w] == active[w]
  }

  function Swap(h: seq<Entry>, i: int, j: int): seq<Entry>
    requires 0 <= i < |h| && 0 <= j < |h|
  {
    h[i := h[j]][j := h[i]]
  }

  lemma {:induction false} SwapKeeps(h0: seq<Entry>, h: seq<Entry>, n: nat, i: int, j: int)
    requires n + HEAP0 <= |h| == |h0| && Pos(n, i) && Pos(n, j) && Distinct(h, n) && SameEntries(h0, h, n)
    ensures Distinct(Swap(h, i, j), n) && SameEntries(h0, Swap(h, i, j), n)
  {
    var s := Swap(h, i, j);
    forall e ensures Holds(h, n, e) <==> Holds(s, n, e) {
      if Holds(h, n, e) {
        var y :| Pos(n, y) && h[y] == e;
        assert s[if y == i then j else if y == j then i else y] == e;
      }
      if Holds(s, n, e) {
        var y :| Pos(n, y) && s[y] == e;
        assert h[if y == i then j else if y == j then i else y] == e;
      }
    }
  }

  /** An entry smaller than its parent changes places with it. */
  lemma {:induction false} SwapUp(h: seq<Entry>, n: nat, k: int)
    requires n + HEAP0 <= |h| && Pos(n, k) && k != HEAP0 && OrderedButUp(h, n, k)
    requires h[k].at <= h[Parent(k)].at
    ensures OrderedButUp(Swap(h, k, Parent(k)), n, Parent(k))
  {
    var p, s := Parent(k), Swap(h, k, Parent(k));
    forall i | Pos(n, i) && i != HEAP0 && i != p ensures s[Parent(i)].at <= s[i].at {
      if i == k {
      } else if Parent(i) == k {
        assert h[Parent(k)].at <= h[i].at;
      } else if Parent(i) == p {
        assert h[p].at <= h[i].at;
      }
    }
  }

  /** The position of the first child. */
  function FirstChild(k: int): int {
    DHEAP * (k - HEAP0) + HEAP0 + 1
  }

  lemma {:induction false} ChildrenOf(n: nat, k: int, i: int)
    requires Pos(n, k) && Pos(n, i)
    ensures i != HEAP0 && Parent(i) == k <==> FirstChild(k) <= i <= FirstChild(k) + DHEAP - 1
  {
  }

  /** `m` is the child of `k` that expires first. */
  ghost predicate IsMinChild(h: seq<Entry>, n: nat, k: int, m: int)
    requires n + HEAP0 <= |h| && Pos(n, k)
  {
    && Pos(n, m) && m > k && Parent(m) == k
    && forall i | Pos(n, i) && i != HEAP0 && Parent(i) == k :: h[m].at <= h[i].at
  }

  /** An entry larger than its smallest child changes places with it. */
  lemma {:induction false} SwapDown(h: seq<Entry>, n: nat, k: int, m: int)
    requires n + HEAP0 <= |h| && Pos(n, k) && OrderedButDown(h, n, k) && IsMinChild(h, n, k, m)
    requires h[m].at <= h[k].at
    ensures OrderedButDown(Swap(h, k, m), n, m)
  {
    var s := Swap(h, k, m);
    forall i | Pos(n, i) && i != HEAP0 && Parent(i) != m ensures s[Parent(i)].at <= s[i].at {
      if i == k {
        assert h[Parent(k)].at <= h[m].at;
      } else if i == m {
      } else if Parent(i) == k {
        assert h[m].at <= h[i].at;
      } else {
        assert h[Parent(i)].at <= h[i].at;
      }
    }
    forall i | Pos(n, i) && i != HEAP0 && Parent(i) == m ensures s[Parent(m)].at <= s[i].at {
      assert h[m].at <= h[i].at;
    }
  }

  lemma {:induction false} DownDone(h: seq<Entry>, n: nat, k: int)
    requires n + HEAP0 <= |h| && Pos(n, k) && OrderedButDown(h, n, k)
    requires forall i | Pos(n, i) && i != HEAP0 && Parent(i) == k :: h[k].at <= h[i].at
    ensures Ordered(h, n)
  {
  }

  /** The choice of the smallest child in `downheap`: a fast path when all four children exist,
      a slow path when only some do, and none for a leaf. */
  method MinChild(h: seq<Entry>, n: nat, k: int) returns (m: int)
    requires n + HEAP0 <= |h| && Pos(n, k)
    ensures m == -1 <==> forall i | Pos(n, i) && i != HEAP0 :: Parent(i) != k
    ensures m != -1 ==> IsMinChild(h, n, k, m)
  {
    var pos, e := FirstChild(k), n + HEAP0;
    if pos + DHEAP - 1 < e {
      m := pos;
      if h[pos + 1].at < h[m].at { m := pos + 1; }
      if h[pos + 2].at < h[m].at { m := pos + 2; }
      if h[pos + 3].at < h[m].at { m := pos + 3; }
    } else if pos < e {
      m := pos;
      if pos + 1 < e && h[pos + 1].at < h[m].at { m := pos + 1; }
      if pos + 2 < e && h[pos + 2].at < h[m].at { m := pos + 2; }
      // a fourth child would have taken the fast path
    } else {
      m := -1;
    }
    if m != -1 { ChildrenOf(n, k, m); }
    forall i | Pos(n, i) && i != HEAP0 && Parent(i) == k
      ensures m != -1 && h[m].at <= h[i].at
    {
      ChildrenOf(n, k, i);
    }
  }

  lemma SiftStart(h: seq<Entry>, n: nat, a: map<Watcher, int>)
    requires n + HEAP0 <= |h|
    ensures SameEntries(h, h, n) && OnlyHeapMoved(h, n, a, a)
  {
  }

  lemma {:induction false} UpDone(h: seq<Entry>, n: nat, k: int)
    requires n + HEAP0 <= |h| && Pos(n, k) && OrderedButUp(h, n, k)
    requires Parent(k) == k || h[Parent(k)].at <= h[k].at
    ensures Ordered(h, n)
  {
  }

  lemma {:induction false} ParentIsAbove(n: nat, k: int)
    requires Pos(n, k)
    ensures Pos(n, Parent(k)) && Parent(k) <= k && (Parent(k) == k <==> k == HEAP0)
  {
  }

  /** The entry at `p` moves into the hole at `k` and its watcher is told. */
  lemma {:induction false} MoveIntoHole(h0: seq<Entry>, h: seq<Entry>, n: nat, a0: map<Watcher, int>,
      a: map<Watcher, int>, k: int, p: int)
    requires n + HEAP0 <= |h| == |h0| && Pos(n, k) && Pos(n, p) && k != p && Distinct(h, n) && SameEntries(h0, h, n)
    requires BackPointers(h, n, a, k) && OnlyHeapMoved(h0, n, a0, a)
    ensures BackPointers(Swap(h, k, p), n, a[h[p].w := k], p)
    ensures OnlyHeapMoved(h0, n, a0, a[h[p].w := k])
  {
    assert Holds(h, n, h[p]);
    assert InHeap(h0, n, h[p].w);
  }

  /** The entry that left the hole is put back into it. */
  lemma {:induction false} FillHole(h0: seq<Entry>, h: seq<Entry>, n: nat, a0: map<Watcher, int>,
      a: map<Watcher, int>, k: int)
    requires n + HEAP0 <= |h| == |h0| && Pos(n, k) && Distinct(h, n) && SameEntries(h0, h, n)
    requires BackPointers(h, n, a, k) && OnlyHeapMoved(h0, n, a0, a) && h[k].w in a
    ensures BackPointers(h, n, a[h[k].w := k], -1)
    ensures OnlyHeapMoved(h0, n, a0, a[h[k].w := k])
  {
    assert Holds(h, n, h[k]);
    assert InHeap(h0, n, h[k].w);
  }

  // ---------- what `verify_heap` checks ----------

  ghost predicate Cached(h: seq<Entry>, n: nat, at: map<Watcher, real>)
    requires n + HEAP0 <= |h|
  {
    forall i | Pos(n, i) :: h[i].w in at && h[i].at == at[h[i].w]
  }

  /** Watchers outside the heap are inactive, `x` aside. */
  ghost predicate OthersInactive(h: seq<Entry>, n: nat, active: map<Watcher, int>, x: int)
    requires n + HEAP0 <= |h|
  {
    forall w | w in active && w != x && !InHeap(h, n, w) :: active[w] == 0
  }

  /** Heap order, positions, cached keys, and exactly the active watchers in the heap. */
  ghost predicate HeapOk(h: seq<Entry>, n: nat, active: map<Watcher, int>, at: map<Watcher, real>) {
    && n + HEAP0 <= |h| && active.Keys == at.Keys
    && Ordered(h, n) && BackPointers(h, n, active, -1) && Cached(h, n, at) && OthersInactive(h, n, active, -1)
  }

  lemma {:induction false} PointersDistinct(h: seq<Entry>, n: nat, active: map<Watcher, int>)
    requires n + HEAP0 <= |h| && BackPointers(h, n, active, -1)
    ensures Distinct(h, n)
  {
  }

  lemma {:induction false} ActiveIsInHeap(h: seq<Entry>, n: nat, active: map<Watcher, int>, at: map<Watcher, real>,
      w: Watcher)
    requires HeapOk(h, n, active, at) && w in active
    ensures active[w] != 0 <==> InHeap(h, n, w)
    ensures active[w] != 0 ==> Pos(n, active[w]) && h[active[w]].w == w
  {
  }

  ghost predicate SameWatchers(h1: seq<Entry>, h2: seq<Entry>, n: nat)
    requires n + HEAP0 <= |h1| == |h2|
  {
    forall w :: InHeap(h2, n, w) <==> InHeap(h1, n, w)
  }

  /** A sift that starts from the right entries ends in a verified heap. */
  lemma {:induction false} SiftedOk(h1: seq<Entry>, n: nat, a1: map<Watcher, int>, h2: seq<Entry>,
      a2: map<Watcher, int>, at: map<Watcher, real>, x: int)
    requires n + HEAP0 <= |h1| == |h2| && SameEntries(h1, h2, n) && OnlyHeapMoved(h1, n, a1, a2)
    requires Cached(h1, n, at) && OthersInactive(h1, n, a1, x)
    ensures Cached(h2, n, at) && OthersInactive(h2, n, a2, x) && SameWatchers(h1, h2, n)
  {
    forall w ensures InHeap(h2, n, w) <==> InHeap(h1, n, w) {
      if InHeap(h1, n, w) {
        var i :| Pos(n, i) && h1[i].w == w;
        assert Holds(h1, n, h1[i]);
      }
      if InHeap(h2, n, w) {
        var i :| Pos(n, i) && h2[i].w == w;
        assert Holds(h2, n, h2[i]);
      }
    }
    forall i | Pos(n, i) ensures h2[i].w in at && h2[i].at == at[h2[i].w] {
      assert Holds(h2, n, h2[i]);
      assert Holds(h1, n, h2[i]);
    }
  }

  /** `w` is appended behind the heap. */
  lemma {:induction false} AppendOk(h: seq<Entry>, n: nat, a: map<Watcher, int>, at: map<Watcher, real>,
      h1: seq<Entry>, w: Watcher, t: real)
    requires HeapOk(h, n, a, at) && w in a && a[w] == 0
    requires n + HEAP0 < |h1| && h1[..n + HEAP0] == h[..n + HEAP0] && h1[n + HEAP0] == Entry(w, t)
    ensures OrderedButUp(h1, n + 1, n + HEAP0) && Distinct(h1, n + 1)
    ensures BackPointers(h1, n + 1, a[w := n + HEAP0], n + HEAP0)
    ensures Cached(h1, n + 1, at[w := t]) && OthersInactive(h1, n + 1, a[w := n + HEAP0], -1)
  {
    hide Ordered, OrderedButUp, Distinct, BackPointers, Cached, OthersInactive, InHeap;
    PrefixSame(h, h1, n);
    ActiveIsInHeap(h, n, a, at, w);
    AppendOrdered(h, n, h1);
    AppendPointers(h, n, a, at, h1, w, t);
    AppendInactive(h, n, a, h1, w);
  }

  lemma {:induction false} PrefixSame(h: seq<Entry>, h1: seq<Entry>, n: nat)
    requires n + HEAP0 <= |h| && n + HEAP0 <= |h1| && h1[..n + HEAP0] == h[..n + HEAP0]
    ensures forall i | Pos(n, i) :: h1[i] == h[i]
  {
    forall i | Pos(n, i) ensures h1[i] == h[i] { assert h1[..n + HEAP0][i] == h[..n + HEAP0][i]; }
  }

  lemma {:induction false} AppendPointers(h: seq<Entry>, n: nat, a: map<Watcher, int>, at: map<Watcher, real>,
      h1: seq<Entry>, w: Watcher, t: real)
    requires n + HEAP0 <= |h| && n + HEAP0 < |h1| && BackPointers(h, n, a, -1) && Cached(h, n, at) && !InHeap(h, n, w)
    requires h1[n + HEAP0] == Entry(w, t) && forall i | Pos(n, i) :: h1[i] == h[i]
    ensures Distinct(h1, n + 1) && BackPointers(h1, n + 1, a[w := n + HEAP0], n + HEAP0) &&
            Cached(h1, n + 1, at[w := t])
  {
    assert forall i | Pos(n, i) :: h[i].w != w;
  }

  lemma {:induction false} AppendOrdered(h: seq<Entry>, n: nat, h1: seq<Entry>)
    requires n + HEAP0 <= |h| && n + HEAP0 < |h1| && Ordered(h, n) && forall i | Pos(n, i) :: h1[i] == h[i]
    ensures OrderedButUp(h1, n + 1, n + HEAP0)
  {
    forall i | Pos(n + 1, i) && i != HEAP0 && i != n + HEAP0 ensures h1[Parent(i)].at <= h1[i].at {
      ParentIsAbove(n, i);
    }
    forall i | Pos(n + 1, i) && i != HEAP0 ensures Parent(i) < i {
      ParentIsAbove(n + 1, i);
    }
  }

  lemma {:induction false} AppendInactive(h: seq<Entry>, n: nat, a: map<Watcher, int>, h1: seq<Entry>, w: Watcher)
    requires n + HEAP0 <= |h| && n + HEAP0 < |h1| && OthersInactive(h, n, a, -1)
    requires h1[n + HEAP0].w == w && forall i | Pos(n, i) :: h1[i] == h[i]
    ensures OthersInactive(h1, n + 1, a[w := n + HEAP0], -1)
  {
    assert Pos(n + 1, n + HEAP0) && InHeap(h1, n + 1, w);
    forall u | InHeap(h, n, u) ensures InHeap(h1, n + 1, u) {
      var i :| Pos(n, i) && h[i].w == u;
      assert Pos(n + 1, i) && h1[i].w == u;
    }
  }

  /** The last entry takes the place of the one at `k`, which leaves the heap. */
  lemma {:induction false} RemoveOk(h: seq<Entry>, n: nat, a: map<Watcher, int>, at: map<Watcher, real>, k: int)
    requires n > 0 && HeapOk(h, n, a, at) && Pos(n, k)
    ensures var h1 := h[k := h[n - 1 + HEAP0]];
            && Cached(h1, n - 1, at) && OthersInactive(h1, n - 1, a, h[k].w) && !InHeap(h1, n - 1, h[k].w)
            && (k < n - 1 + HEAP0 ==>
                  OrderedBut(h1, n - 1, k) && Distinct(h1, n - 1) && BackPointers(h1, n - 1, a, k) && h1[k].w in a)
            && (k == n - 1 + HEAP0 ==> Ordered(h1, n - 1) && BackPointers(h1, n - 1, a, -1))
  {
    hide Ordered, OrderedBut, OthersInactive, Parent;
    RemoveOrdered(h, n, k);
    PointersDistinct(h, n, a);
    RemoveInactive(h, n, a, k);
  }

  lemma {:induction false} RemoveInactive(h: seq<Entry>, n: nat, a: map<Watcher, int>, k: int)
    requires n > 0 && n + HEAP0 <= |h| && Pos(n, k) && OthersInactive(h, n, a, -1)
    ensures OthersInactive(h[k := h[n - 1 + HEAP0]], n - 1, a, h[k].w)
  {
    var h1, last := h[k := h[n - 1 + HEAP0]], n - 1 + HEAP0;
    forall u | InHeap(h, n, u) && u != h[k].w ensures InHeap(h1, n - 1, u) {
      var i :| Pos(n, i) && h[i].w == u;
      var j := if i == last then k else i;
      assert Pos(n - 1, j) && h1[j].w == u;
    }
  }

  lemma {:induction false} RemoveOrdered(h: seq<Entry>, n: nat, k: int)
    requires n > 0 && n + HEAP0 <= |h| && Ordered(h, n) && Pos(n, k)
    ensures var h1 := h[k := h[n - 1 + HEAP0]];
            && (k < n - 1 + HEAP0 ==> OrderedBut(h1, n - 1, k))
            && (k == n - 1 + HEAP0 ==> Ordered(h1, n - 1))
  {
    var h1 := h[k := h[n - 1 + HEAP0]];
    forall i | Pos(n - 1, i) && i != HEAP0 && Parent(i) == k && k != HEAP0 ensures h1[Parent(k)].at <= h1[i].at {
      ParentIsAbove(n, i);
      ParentIsAbove(n, k);
      assert h[Parent(k)].at <= h[k].at <= h[i].at;
    }
    forall i | Pos(n - 1, i) && i != HEAP0 ensures Parent(i) < i {
      ParentIsAbove(n, i);
    }
  }

  /** After `w` joined the heap, it is active and the others are as active as before. */
  lemma {:induction false} StartedOk(h: seq<Entry>, n: nat, a: map<Watcher, int>, at: map<Watcher, real>, w: Watcher,
      t: real, h1: seq<Entry>, h2: seq<Entry>, a2: map<Watcher, int>)
    requires HeapOk(h, n, a, at) && w in a && a[w] == 0
    requires n + HEAP0 < |h1| == |h2| && h1[..n + HEAP0] == h[..n + HEAP0] && h1[n + HEAP0] == Entry(w, t)
    requires SameEntries(h1, h2, n + 1) && Ordered(h2, n + 1) && BackPointers(h2, n + 1, a2, -1)
    requires OnlyHeapMoved(h1, n + 1, a[w := n + HEAP0], a2)
    ensures HeapOk(h2, n + 1, a2, at[w := t])
    ensures a2[w] != 0 && forall u | u in a && u != w :: a2[u] != 0 <==> a[u] != 0
  {
    hide Ordered, OrderedButUp, Distinct, BackPointers, Cached, OthersInactive, SameEntries;
    var m, at2 := n + 1, at[w := t];
    AppendOk(h, n, a, at, h1, w, t);
    SiftedOk(h1, m, a[w := n + HEAP0], h2, a2, at2, -1);
    hide OnlyHeapMoved;
    assert Pos(m, n + HEAP0) && InHeap(h1, m, w);
    assert HeapOk(h2, m, a2, at2);
    ActiveIsInHeap(h2, m, a2, at2, w);
    forall u | u in a && u != w ensures a2[u] != 0 <==> a[u] != 0 {
      ActiveIsInHeap(h, n, a, at, u);
      ActiveIsInHeap(h2, m, a2, at2, u);
      PrefixInHeap(h, h1, n, u);
      assert InHeap(h2, m, u) <==> InHeap(h1, m, u);
    }
  }

  lemma {:induction false} PrefixInHeap(h: seq<Entry>, h1: seq<Entry>, n: nat, u: Watcher)
    requires n + HEAP0 <= |h| && n + HEAP0 < |h1| && h1[..n + HEAP0] == h[..n + HEAP0] && h1[n + HEAP0].w != u
    ensures InHeap(h, n, u) <==> InHeap(h1, n + 1, u)
  {
    PrefixSame(h, h1, n);
    if InHeap(h, n, u) {
      var i :| Pos(n, i) && h[i].w == u;
      assert Pos(n + 1, i) && h1[i].w == u;
    }
  }

  lemma HeapShape(h: seq<Entry>, n: nat, a: map<Watcher, int>, at: map<Watcher, real>)
    requires HeapOk(h, n, a, at)
    ensures n + HEAP0 <= |h| && a.Keys == at.Keys
  {
  }

  /** After `w` left the heap, it is inactive and the others are as active as before. */
  lemma {:induction false} StoppedOk(h: seq<Entry>, n: nat, a: map<Watcher, int>, at: map<Watcher, real>, w: Watcher,
      t: real, h2: seq<Entry>, a2: map<Watcher, int>)
    requires n > 0 && HeapOk(h, n, a, at) && w in a && a[w] != 0 && Pos(n, a[w]) && |h2| == |h|
    requires var h1 := h[a[w] := h[n - 1 + HEAP0]];
             SameEntries(h1, h2, n - 1) && OnlyHeapMoved(h1, n - 1, a, a2)
    requires Ordered(h2, n - 1) && BackPointers(h2, n - 1, a2, -1)
    ensures HeapOk(h2, n - 1, a2[w := 0], at[w := t])
    ensures forall u | u in a && u != w :: a2[u] != 0 <==> a[u] != 0
  {
    hide Ordered, OrderedBut, Distinct, SameEntries, BackPointers, Cached, OthersInactive, InHeap;
    ActiveIsInHeap(h, n, a, at, w);
    var m, h1 := n - 1, h[a[w] := h[n - 1 + HEAP0]];
    RemoveOk(h, n, a, at, a[w]);
    SiftedOk(h1, m, a, h2, a2, at, w);
    assert !InHeap(h2, m, w);
    hide OnlyHeapMoved, SameWatchers;
    assert HeapOk(h2, m, a2[w := 0], at[w := t]) by { LeaveOk(h2, m, a2, at, w, t); }
    StoppedSame(h, n, a, at, w, h1, h2, a2[w := 0], at[w := t]);
  }

  lemma {:induction false} LeaveOk(h: seq<Entry>, n: nat, a: map<Watcher, int>, at: map<Watcher, real>, w: Watcher,
      t: real)
    requires n + HEAP0 <= |h| && a.Keys == at.Keys && w in a && !InHeap(h, n, w)
    requires Ordered(h, n) && BackPointers(h, n, a, -1) && Cached(h, n, at) && OthersInactive(h, n, a, w)
    ensures HeapOk(h, n, a[w := 0], at[w := t])
  {
    hide Ordered;
    assert forall i | Pos(n, i) :: h[i].w != w;
  }

  lemma {:induction false} StoppedSame(h: seq<Entry>, n: nat, a: map<Watcher, int>, at: map<Watcher, real>,
      w: Watcher, h1: seq<Entry>, h2: seq<Entry>, a2: map<Watcher, int>, at2: map<Watcher, real>)
    requires n > 0 && HeapOk(h, n, a, at) && w in a && a[w] != 0 && Pos(n, a[w]) && h[a[w]].w == w
    requires h1 == h[a[w] := h[n - 1 + HEAP0]] && |h2| == |h| && SameWatchers(h1, h2, n - 1)
    requires HeapOk(h2, n - 1, a2, at2) && a2.Keys == a.Keys
    ensures forall u | u in a && u != w :: a2[u] != 0 <==> a[u] != 0
  {
    hide Ordered, BackPointers, Cached, OthersInactive;
    var m, last := n - 1, n - 1 + HEAP0;
    forall u | u in a && u != w ensures a2[u] != 0 <==> a[u] != 0 {
      ActiveIsInHeap(h, n, a, at, u);
      ActiveIsInHeap(h2, m, a2, at2, u);
      if InHeap(h, n, u) {
        var i :| Pos(n, i) && h[i].w == u;
        var j := if i == last then a[w] else i;
        assert Pos(m, j) && h1[j].w == u;
      }
      if InHeap(h1, m, u) {
        var j :| Pos(m, j) && h1[j].w == u;
        var i := if j == a[w] then last else j;
        assert Pos(n, i) && h[i].w == u;
      }
      assert InHeap(h2, m, u) <==> InHeap(h1, m, u);
    }
  }

  /** A timer in the heap is given another expiry time. */
  lemma {:induction false} RekeyOk(h: seq<Entry>, n: nat, a: map<Watcher, int>, at: map<Watcher, real>, w: Watcher,
      t: real)
    requires HeapOk(h, n, a, at) && w in a && a[w] != 0
    ensures Pos(n, a[w]) && h[a[w]].w == w
    ensures var h1 := h[a[w] := Entry(w, t)];
            && OrderedBut(h1, n, a[w]) && Distinct(h1, n) && BackPointers(h1, n, a, a[w])
            && Cached(h1, n, at[w := t]) && OthersInactive(h1, n, a, -1) && SameWatchers(h, h1, n)
  {
    hide Ordered, OrderedBut;
    ActiveIsInHeap(h, n, a, at, w);
    var k := a[w];
    var h1 := h[k := Entry(w, t)];
    PointersDistinct(h, n, a);
    RekeyOrdered(h, n, k, Entry(w, t));
    assert forall i | Pos(n, i) :: h1[i].w == h[i].w;
    forall u ensures InHeap(h1, n, u) <==> InHeap(h, n, u) {
      if InHeap(h, n, u) { var i :| Pos(n, i) && h[i].w == u; assert h1[i].w == u; }
      if InHeap(h1, n, u) { var i :| Pos(n, i) && h1[i].w == u; assert h[i].w == u; }
    }
    hide InHeap;
  }

  lemma {:induction false} RekeyOrdered(h: seq<Entry>, n: nat, k: int, e: Entry)
    requires n + HEAP0 <= |h| && Ordered(h, n) && Pos(n, k)
    ensures OrderedBut(h[k := e], n, k)
  {
    var h1 := h[k := e];
    forall i | Pos(n, i) && i != HEAP0 && Parent(i) == k && k != HEAP0 ensures h1[Parent(k)].at <= h1[i].at {
      ParentIsAbove(n, i);
      ParentIsAbove(n, k);
      assert h[Parent(k)].at <= h[k].at <= h[i].at;
    }
  }

  lemma {:induction false} RekeyedOk(h: seq<Entry>, n: nat, a: map<Watcher, int>, at: map<Watcher, real>, w: Watcher,
      t: real, h2: seq<Entry>, a2: map<Watcher, int>)
    requires HeapOk(h, n, a, at) && w in a && a[w] != 0 && Pos(n, a[w]) && |h2| == |h|
    requires var h1 := h[a[w] := Entry(w, t)]; SameEntries(h1, h2, n) && OnlyHeapMoved(h1, n, a, a2)
    requires Ordered(h2, n) && BackPointers(h2, n, a2, -1)
    ensures HeapOk(h2, n, a2, at[w := t])
    ensures forall u | u in a :: a2[u] != 0 <==> a[u] != 0
  {
    hide Ordered, OrderedBut, Distinct, SameEntries, BackPointers, Cached, OthersInactive;
    var h1, at2 := h[a[w] := Entry(w, t)], at[w := t];
    RekeyOk(h, n, a, at, w, t);
    SiftedOk(h1, n, a, h2, a2, at2, -1);
    assert HeapOk(h2, n, a2, at2);
    hide OnlyHeapMoved;
    forall u | u in a ensures a2[u] != 0 <==> a[u] != 0 {
      ActiveIsInHeap(h, n, a, at, u);
      ActiveIsInHeap(h2, n, a2, at2, u);
      assert InHeap(h1, n, u) <==> InHeap(h, n, u);
      assert InHeap(h2, n, u) <==> InHeap(h1, n, u);
    }
  }

  /** The relative time of an inactive timer is not the heap's business. */
  lemma {:induction false} InactiveRekey(h: seq<Entry>, n: nat, a: map<Watcher, int>, at: map<Watcher, real>,
      w: Watcher, t: real)
    requires HeapOk(h, n, a, at) && w in a && a[w] == 0
    ensures HeapOk(h, n, a, at[w := t])
  {
    ActiveIsInHeap(h, n, a, at, w);
    LeaveOk(h, n, a, at, w, t);
    assert a[w := 0] == a;
  }
}
