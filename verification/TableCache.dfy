/** The tables that a thread has open, round after round: opened on demand, found again through a
    hash table, locked together, and kept for the next round if there are few of them. */
module TableCache {
  import opened Common

  const MAX_LOCK := 128

  type Name = string

  /** A table handle; opening a name twice gives two handles. */
  datatype Table = Table(name: Name, serial: nat)

  datatype Node = Node(key: nat, table: Table)

  // ---- collections of handles, one per name

  predicate NoTwice(ts: seq<Table>) { forall i, j | 0 <= i < j < |ts| :: ts[i].name != ts[j].name }

  /** `ts` lists the handles of `m`, each once, in some order. */
  ghost predicate Lists(ts: seq<Table>, m: map<Name, Table>) {
    && NoTwice(ts)
    && (forall i | 0 <= i < |ts| :: ts[i].name in m && m[ts[i].name] == ts[i])
    && (forall n | n in m :: m[n] in ts)
  }

  lemma ListsAppend(ts: seq<Table>, m: map<Name, Table>, t: Table)
    requires Lists(ts, m) && t.name !in m
    ensures Lists(ts + [t], m[t.name := t])
  {
    var us, m' := ts + [t], m[t.name := t];
    forall n | n in m' ensures m'[n] in us {
      if n != t.name { assert m[n] in ts; } else { assert us[|ts|] == t; }
    }
  }

  lemma {:induction false} ListsCount(ts: seq<Table>, m: map<Name, Table>)
    requires Lists(ts, m) && forall n | n in m :: m[n].name == n
    ensures |ts| == |m|
  {
    if ts == [] {
      assert m == map[];
    } else {
      var init, t := ts[..|ts| - 1], ts[|ts| - 1];
      var m' := m - {t.name};
      forall n | n in m' ensures m'[n] in init { assert m[n] in ts; }
      ListsCount(init, m');
      assert m == m'[t.name := t];
    }
  }

  // ---- the hash table

  function Flat(buckets: seq<seq<Node>>): seq<Node> {
    if buckets == [] then [] else Flat(buckets[..|buckets| - 1]) + buckets[|buckets| - 1]
  }

  function Tables(nodes: seq<Node>): (ts: seq<Table>)
    ensures |ts| == |nodes| && forall i | 0 <= i < |ts| :: ts[i] == nodes[i].table
  {
    seq(|nodes|, i requires 0 <= i < |nodes| => nodes[i].table)
  }

  ghost predicate InBucket(bucket: seq<Node>, t: Table) { exists i :: 0 <= i < |bucket| && bucket[i].table == t }

  /** A chain holds handles of `m` whose key leads to it, no name twice. */
  ghost predicate ChainOk(bucket: seq<Node>, b: nat, n: nat, m: map<Name, Table>, code: Name -> nat, slot: nat -> nat)
    requires n > 0
  {
    && (forall i | 0 <= i < |bucket| ::
          var x := bucket[i];
            x.key == code(x.table.name) && slot(x.key) % n == b && x.table.name in m && m[x.table.name] == x.table)
    && (forall i, j | 0 <= i < j < |bucket| :: bucket[i].table.name != bucket[j].table.name)
  }

  ghost predicate Found(buckets: seq<seq<Node>>, t: Table, code: Name -> nat, slot: nat -> nat)
    requires buckets != []
  {
    InBucket(buckets[slot(code(t.name)) % |buckets|], t)
  }

  /** The chains hold exactly the handles of `m`. */
  ghost predicate Holds(buckets: seq<seq<Node>>, m: map<Name, Table>, code: Name -> nat, slot: nat -> nat) {
    && buckets != []
    && (forall b | 0 <= b < |buckets| :: ChainOk(buckets[b], b, |buckets|, m, code, slot))
    && (forall n | n in m :: m[n].name == n && Found(buckets, m[n], code, slot))
  }

  lemma AddChain(bucket: seq<Node>, b: nat, n: nat, m: map<Name, Table>, code: Name -> nat, slot: nat -> nat, t: Table)
    requires n > 0 && ChainOk(bucket, b, n, m, code, slot) && t.name !in m
    ensures ChainOk(bucket, b, n, m[t.name := t], code, slot)
    ensures slot(code(t.name)) % n == b ==> ChainOk([Node(code(t.name), t)] + bucket, b, n, m[t.name := t], code, slot)
  {
    var bs := [Node(code(t.name), t)] + bucket;
    assert forall i | 0 < i < |bs| :: bs[i] == bucket[i - 1];
  }

  lemma AddFound(buckets: seq<seq<Node>>, b: nat, x: Node, t: Table, code: Name -> nat, slot: nat -> nat)
    requires b < |buckets| && Found(buckets, t, code, slot)
    ensures Found(buckets[b := [x] + buckets[b]], t, code, slot)
  {
    var c := slot(code(t.name)) % |buckets|;
    var i :| 0 <= i < |buckets[c]| && buckets[c][i].table == t;
    if c == b { assert ([x] + buckets[c])[i + 1].table == t; }
  }

  lemma AddHolds(buckets: seq<seq<Node>>, m: map<Name, Table>, code: Name -> nat, slot: nat -> nat, t: Table)
    requires Holds(buckets, m, code, slot) && t.name !in m
    ensures var b := slot(code(t.name)) % |buckets|;
            Holds(buckets[b := [Node(code(t.name), t)] + buckets[b]], m[t.name := t], code, slot)
  {
    var b := slot(code(t.name)) % |buckets|;
    var x := Node(code(t.name), t);
    var bs, m' := buckets[b := [x] + buckets[b]], m[t.name := t];
    forall c | 0 <= c < |bs| ensures ChainOk(bs[c], c, |bs|, m', code, slot) {
      AddChain(buckets[c], c, |buckets|, m, code, slot, t);
    }
    hide ChainOk;
    forall n | n in m' ensures m'[n].name == n && Found(bs, m'[n], code, slot) {
      if n == t.name { assert bs[b][0].table == t; } else { AddFound(buckets, b, x, m[n], code, slot); }
    }
  }

  /** `easy_hash_find_ex` on one chain */
  method FindIn(bucket: seq<Node>, key: nat, name: Name) returns (r: Option<Table>)
    ensures r.Some? ==> InBucket(bucket, r.value) && r.value.name == name
    ensures r.None? ==> forall i | 0 <= i < |bucket| :: !(bucket[i].key == key && bucket[i].table.name == name)
  {
    var i := 0;
    while i < |bucket|
      invariant i <= |bucket| && forall k | 0 <= k < i :: !(bucket[k].key == key && bucket[k].table.name == name)
    {
      if bucket[i].key == key && bucket[i].table.name == name { return Some(bucket[i].table); }
      i := i + 1;
    }
    r := None;
  }

  lemma {:induction false} FlatIn(buckets: seq<seq<Node>>, k: nat)
    requires k <= |buckets|
    ensures forall x :: x in Flat(buckets[..k]) ==> exists b :: 0 <= b < k && x in buckets[b]
    ensures forall b, i | 0 <= b < k && 0 <= i < |buckets[b]| :: buckets[b][i] in Flat(buckets[..k])
  {
    if k > 0 {
      FlatIn(buckets, k - 1);
      assert buckets[..k][..k - 1] == buckets[..k - 1];
    }
  }

  /** Equal names have equal keys, hence equal chains. */
  lemma ChainsApart(buckets: seq<seq<Node>>, m: map<Name, Table>, code: Name -> nat, slot: nat -> nat, b: nat, c: nat,
      x: Node, y: Node)
    requires Holds(buckets, m, code, slot) && b < |buckets| && c < |buckets| && b != c && x in buckets[b] &&
             y in buckets[c]
    ensures x.table.name != y.table.name
  {
    assert ChainOk(buckets[b], b, |buckets|, m, code, slot) && ChainOk(buckets[c], c, |buckets|, m, code, slot);
  }

  lemma NoTwiceAppend(xs: seq<Node>, ys: seq<Node>)
    requires NoTwice(Tables(xs)) && NoTwice(Tables(ys))
    requires forall x, y | x in xs && y in ys :: x.table.name != y.table.name
    ensures NoTwice(Tables(xs + ys))
  {
    var ts := Tables(xs + ys);
    forall i, j | 0 <= i < j < |ts| ensures ts[i].name != ts[j].name {
      if j < |xs| {
        assert ts[i] == Tables(xs)[i] && ts[j] == Tables(xs)[j];
      } else if i < |xs| {
        assert xs[i] in xs && ys[j - |xs|] in ys;
      } else {
        assert ts[i] == Tables(ys)[i - |xs|] && ts[j] == Tables(ys)[j - |xs|];
      }
    }
  }

  lemma {:induction false} FlatNoTwice(buckets: seq<seq<Node>>, m: map<Name, Table>, code: Name -> nat,
      slot: nat -> nat, k: nat)
    requires Holds(buckets, m, code, slot) && k <= |buckets|
    ensures NoTwice(Tables(Flat(buckets[..k])))
  {
    hide Holds;
    if k > 0 {
      FlatNoTwice(buckets, m, code, slot, k - 1);
      FlatIn(buckets, k - 1);
      assert buckets[..k][..k - 1] == buckets[..k - 1];
      var xs, ys := Flat(buckets[..k - 1]), buckets[k - 1];
      ChainNoTwice(buckets, m, code, slot, k - 1);
      forall x, y | x in xs && y in ys ensures x.table.name != y.table.name {
        var b :| 0 <= b < k - 1 && x in buckets[b];
        ChainsApart(buckets, m, code, slot, b, k - 1, x, y);
      }
      NoTwiceAppend(xs, ys);
    }
  }

  lemma ChainNoTwice(buckets: seq<seq<Node>>, m: map<Name, Table>, code: Name -> nat, slot: nat -> nat, b: nat)
    requires Holds(buckets, m, code, slot) && b < |buckets|
    ensures NoTwice(Tables(buckets[b]))
  {
    assert ChainOk(buckets[b], b, |buckets|, m, code, slot);
  }

  lemma FlatMember(buckets: seq<seq<Node>>, m: map<Name, Table>, code: Name -> nat, slot: nat -> nat, x: Node)
    requires Holds(buckets, m, code, slot) && x in Flat(buckets)
    ensures x.table.name in m && m[x.table.name] == x.table
  {
    FlatIn(buckets, |buckets|);
    assert buckets[..|buckets|] == buckets;
    var b :| 0 <= b < |buckets| && x in buckets[b];
    assert ChainOk(buckets[b], b, |buckets|, m, code, slot);
  }

  lemma FlatFound(buckets: seq<seq<Node>>, t: Table, code: Name -> nat, slot: nat -> nat)
    requires buckets != [] && Found(buckets, t, code, slot)
    ensures t in Tables(Flat(buckets))
  {
    FlatIn(buckets, |buckets|);
    assert buckets[..|buckets|] == buckets;
    var b := slot(code(t.name)) % |buckets|;
    var i :| 0 <= i < |buckets[b]| && buckets[b][i].table == t;
    var xs := Flat(buckets);
    var j :| 0 <= j < |xs| && xs[j] == buckets[b][i];
    assert Tables(xs)[j] == t;
  }

  /** Going through all chains meets every handle once. */
  lemma FlatLists(buckets: seq<seq<Node>>, m: map<Name, Table>, code: Name -> nat, slot: nat -> nat)
    requires Holds(buckets, m, code, slot)
    ensures Lists(Tables(Flat(buckets)), m)
  {
    FlatNoTwice(buckets, m, code, slot, |buckets|);
    assert buckets[..|buckets|] == buckets;
    var xs := Flat(buckets);
    var ts := Tables(xs);
    forall i | 0 <= i < |ts| ensures ts[i].name in m && m[ts[i].name] == ts[i] {
      FlatMember(buckets, m, code, slot, xs[i]);
    }
    forall n | n in m ensures m[n] in ts { FlatFound(buckets, m[n], code, slot); }
  }

  /** A search of the right chain finds the handle of a name, if there is one. */
  lemma SearchIsRight(buckets: seq<seq<Node>>, m: map<Name, Table>, code: Name -> nat, slot: nat -> nat, name: Name,
      r: Option<Table>)
    requires Holds(buckets, m, code, slot)
    requires var bucket := buckets[slot(code(name)) % |buckets|];
             && (r.Some? ==> InBucket(bucket, r.value) && r.value.name == name)
             && (r.None? ==>
               forall i | 0 <= i < |bucket| :: !(bucket[i].key == code(name) && bucket[i].table.name == name))
    ensures r == if name in m then Some(m[name]) else None
  {
    var b := slot(code(name)) % |buckets|;
    assert ChainOk(buckets[b], b, |buckets|, m, code, slot);
    if name in m { assert Found(buckets, m[name], code, slot); }
  }

  // ---- the thread

  ghost function Handles(m: map<Name, Table>): set<Table> { set n | n in m :: m[n] }

  lemma HandlesAdd(m: map<Name, Table>, t: Table)
    requires t.name !in m
    ensures Handles(m[t.name := t]) == Handles(m) + {t}
  {
    var m' := m[t.name := t];
    assert m'[t.name] == t;
    forall x | x in Handles(m) ensures x in Handles(m') {
      var n :| n in m && m[n] == x;
      assert m'[n] == x;
    }
  }

  lemma HandlesDrop(m: map<Name, Table>, t: Table)
    requires t.name in m && m[t.name] == t
    ensures Handles(m) == Handles(m - {t.name}) + {t}
  {
    var m' := m - {t.name};
    forall x | x in Handles(m) ensures x in Handles(m') + {t} {
      var n :| n in m && m[n] == x;
      if n != t.name { assert m'[n] == x; }
    }
    forall x | x in Handles(m') ensures x in Handles(m) {
      var n :| n in m' && m'[n] == x;
      assert m[n] == x;
    }
  }

  lemma Moved(m: map<Name, Table>, k: map<Name, Table>, t: Table)
    requires t.name in k && k[t.name] == t && m.Keys !! k.Keys
    ensures m[t.name := t].Keys !! (k - {t.name}).Keys && m[t.name := t] + (k - {t.name}) == m + k
    ensures Handles(m[t.name := t]) + Handles(k - {t.name}) == Handles(m) + Handles(k)
  {
    HandlesDrop(k, t);
    HandlesAdd(m, t);
  }

  lemma ListsTail(ts: seq<Table>, m: map<Name, Table>)
    requires ts != [] && Lists(ts, m) && forall n | n in m :: m[n].name == n
    ensures ts[0].name in m && m[ts[0].name] == ts[0] && Lists(ts[1..], m - {ts[0].name})
  {
    var us, m' := ts[1..], m - {ts[0].name};
    forall i | 0 <= i < |us| ensures us[i].name in m' && m'[us[i].name] == us[i] { assert us[i] == ts[i + 1]; }
    forall n | n in m' ensures m'[n] in us {
      assert m[n] in ts;
      var i :| 0 <= i < |ts| && ts[i] == m[n];
      if i > 0 { assert us[i - 1] == m[n]; }
    }
  }

  /** The table part of a thread's database context. `live` are the handles that MySQL has open for
      the thread; `inUse` and `kept` say what the chains and the cache stand for. */
  class Context {
    const code: Name -> nat
    const slot: nat -> nat
    const cacheMax: nat
    var buckets: seq<seq<Node>>
    var openedNum: nat
    var needLock: seq<Table>
    var cached: seq<Table>
    var serial: nat
    var needClose: bool
    ghost var inUse: map<Name, Table>
    ghost var kept: map<Name, Table>
    ghost var live: set<Table>

    /** The tables of this round. */
    ghost predicate RoundOk()
      reads this`buckets, this`inUse, this`openedNum, this`needLock
    {
      && Holds(buckets, inUse, code, slot) && openedNum == |inUse|
      && (openedNum <= MAX_LOCK ==> Lists(needLock, inUse))
      && |needLock| == if openedNum <= MAX_LOCK then openedNum else MAX_LOCK
    }

    /** The tables kept from the round before. */
    ghost predicate CacheOk()
      reads this`cached, this`kept
    {
      && Lists(cached, kept) && (forall n | n in kept :: kept[n].name == n) && |cached| <= cacheMax
    }

    ghost predicate Valid()
      reads this
    {
      RoundOk() && CacheOk() && (inUse == map[] || kept == map[]) && live == Handles(inUse) + Handles(kept)
    }

    constructor (code: Name -> nat, slot: nat -> nat, size: nat, cacheMax: nat)
      requires size > 0
      ensures Valid() && live == {} && inUse == map[] && !needClose
    {
      this.code, this.slot, this.cacheMax := code, slot, cacheMax;
      buckets := seq(size, _ => []);
      openedNum, needLock, cached, serial, needClose := 0, [], [], 0, false;
      inUse, kept, live := map[], map[], {};
    }

    /** `easy_hash_add` and the entry in the lock array */
    method Enter(t: Table)
      requires RoundOk() && t.name !in inUse
      modifies this`buckets, this`openedNum, this`needLock, this`inUse
      ensures RoundOk() && inUse == old(inUse)[t.name := t]
    {
      hide Holds, Lists;
      HoldsSome(buckets, inUse, code, slot);
      AddHolds(buckets, inUse, code, slot, t);
      var key := code(t.name);
      var b := slot(key) % |buckets|;
      buckets := buckets[b := [Node(key, t)] + buckets[b]];
      if openedNum < MAX_LOCK {
        ListsAppend(needLock, inUse, t);
        needLock := needLock + [t];
      }
      openedNum := openedNum + 1;
      inUse := inUse[t.name := t];
    }

    /** `easy_hash_find_ex` */
    method Find(name: Name) returns (r: Option<Table>)
      requires RoundOk()
      ensures r == if name in inUse then Some(inUse[name]) else None
    {
      hide Lists;
      var key := code(name);
      r := FindIn(buckets[slot(key) % |buckets|], key, name);
      SearchIsRight(buckets, inUse, code, slot, name, r);
    }

    method RestoreOne()
      requires RoundOk() && CacheOk() && cached != [] && inUse.Keys !! kept.Keys &&
               live == Handles(inUse) + Handles(kept)
      modifies this`buckets, this`openedNum, this`needLock, this`cached, this`inUse, this`kept
      ensures RoundOk() && CacheOk() && cached == old(cached)[1..] && inUse.Keys !! kept.Keys
      ensures live == Handles(inUse) + Handles(kept) && inUse + kept == old(inUse) + old(kept)
    {
      hide Lists, Holds, Handles, RoundOk;
      var t := cached[0];
      ListsTail(cached, kept);
      Moved(inUse, kept, t);
      Enter(t);
      cached := cached[1..];
      kept := kept - {t.name};
    }

    /** The first table opened in a round brings back all that were kept. */
    method Restore()
      requires Valid()
      modifies this`buckets, this`openedNum, this`needLock, this`cached, this`inUse, this`kept
      ensures Valid() && kept == map[] && live == old(live)
      ensures inUse == if old(kept) == map[] then old(inUse) else old(kept)
    {
      hide Lists, Holds, Handles, RoundOk;
      ghost var all := inUse + kept;
      assert all == if kept == map[] then inUse else kept;
      while cached != []
        invariant RoundOk() && CacheOk() && live == Handles(inUse) + Handles(kept)
        invariant inUse.Keys !! kept.Keys && inUse + kept == all
        decreases |cached|
      {
        RestoreOne();
      }
      NothingKept(cached, kept);
    }

    /** `open_table`: a request gets the handle of its own name, opened at most once. `openable` is
        the answer of MySQL, which is asked only for a name that the thread does not have open; if
        it refuses, the thread will close all its tables after the round. */
    method OpenTable(name: Name, openable: bool) returns (r: Option<Table>, ghost asked: bool)
      requires Valid()
      modifies this
      ensures Valid() && kept == map[]
      ensures var before := if old(kept) == map[] then old(inUse) else old(kept);
              && asked == (name !in before)
              && inUse == (if r.Some? && asked then before[name := r.value] else before)
              && r == (if name in inUse then Some(inUse[name]) else None)
              && (r.Some? <==> name in before || openable)
      ensures r.Some? ==> r.value.name == name && r.value in live
      ensures live == old(live) + if asked && r.Some? then {r.value} else {}
      ensures needClose == (old(needClose) || r.None?)
    {
      hide Lists, Holds, Handles, RoundOk, CacheOk;
      Restore();
      r := Find(name);
      asked := r.None?;
      if r.Some? {
        NamedRight(name);
      } else if openable {
        var t := OpenNew(name);
        r := Some(t);
      } else {
        needClose := true;
      }
      HandleIn(inUse, name);
    }

    lemma NamedRight(name: Name)
      requires RoundOk() && name in inUse
      ensures inUse[name].name == name
    {
      hide Lists, Holds;
      HoldsName(buckets, inUse, code, slot, name);
    }

    /** A name that the thread does not have open gets a new handle. */
    method OpenNew(name: Name) returns (t: Table)
      requires Valid() && kept == map[] && name !in inUse
      modifies this`buckets, this`openedNum, this`needLock, this`inUse, this`serial, this`live
      ensures Valid() && t.name == name && inUse == old(inUse)[name := t] && live == old(live) + {t}
    {
      hide Lists, Holds, Handles, RoundOk, CacheOk;
      t := Table(name, serial);
      serial := serial + 1;
      HandlesAdd(inUse, t);
      Enter(t);
      live := live + {t};
    }

    /** `lock_table`: what is locked are the tables in use, each once. */
    method LockTables() returns (tables: seq<Table>)
      requires RoundOk()
      ensures Lists(tables, inUse) && |tables| == openedNum
    {
      hide Lists, Holds;
      if openedNum <= MAX_LOCK {
        tables := needLock;
      } else {
        tables := Collect();
      }
      HoldsNames(buckets, inUse, code, slot);
      ListsCount(tables, inUse);
    }

    /** `easy_hash_for_each` */
    method Collect() returns (tables: seq<Table>)
      requires RoundOk()
      ensures Lists(tables, inUse)
    {
      hide Holds, Lists;
      FlatLists(buckets, inUse, code, slot);
      tables := [];
      var b := 0;
      assert buckets[..0] == [];
      while b < |buckets|
        invariant b <= |buckets| && tables == Tables(Flat(buckets[..b]))
      {
        assert buckets[..b + 1][..b] == buckets[..b];
        tables := tables + Tables(buckets[b]);
        assert tables == Tables(Flat(buckets[..b + 1]));
        b := b + 1;
      }
      assert buckets[..b] == buckets;
    }

    /** All chains are emptied. */
    method CleanHash()
      requires RoundOk()
      modifies this`buckets, this`openedNum, this`needLock, this`inUse
      ensures RoundOk() && inUse == map[]
    {
      hide Lists, Holds;
      HoldsSome(buckets, inUse, code, slot);
      buckets := seq(|buckets|, _ => []);
      openedNum, needLock, inUse := 0, [], map[];
      NothingHeld(|buckets|, code, slot);
    }

    method KeepAll()
      requires RoundOk() && openedNum <= cacheMax
      modifies this`cached, this`kept
      ensures CacheOk() && kept == inUse
    {
      hide Lists, Holds;
      HoldsNames(buckets, inUse, code, slot);
      cached := Collect();
      ListsCount(cached, inUse);
      kept := inUse;
    }

    /** `close_table`: a few tables are kept for the next round, more are all closed. */
    method CloseTables(cacheOn: bool)
      requires Valid()
      modifies this`buckets, this`openedNum, this`needLock, this`inUse, this`cached, this`kept, this`live
      ensures Valid() && inUse == map[]
      ensures var keep := old(inUse) == map[] || (cacheOn && |old(inUse)| <= cacheMax);
              && kept == (if old(inUse) == map[] then old(kept) else if keep then old(inUse) else map[])
              && live == if keep then old(live) else {}
    {
      hide Lists, Holds, Handles;
      NoHandles();
      if openedNum == 0 { assert inUse == map[]; return; }
      hide RoundOk, CacheOk;
      OpenedNum();
      if cacheOn && openedNum <= cacheMax {
        KeepAll();
      } else {
        live := {};
      }
      CleanHash();
    }

    lemma OpenedNum()
      requires RoundOk()
      ensures openedNum == |inUse|
    {
    }

    /** What the thread has open, in the hash or kept for it. */
    ghost function Opened(): map<Name, Table>
      reads this`inUse, this`kept
    {
      if kept == map[] then inUse else kept
    }

    /** The packets of one request open their tables. */
    method OpenJob(asks: seq<Ask>) returns (bound: seq<Option<Table>>)
      requires Valid()
      modifies this
      ensures Valid() && live >= old(live) && Within(old(Opened()), Opened())
      ensures asks == [] ==> inUse == old(inUse) && kept == old(kept)
      ensures asks != [] ==> kept == map[]
      ensures Opened().Keys == Names(old(Opened()).Keys, asks)
      ensures BoundTo(bound, asks, old(Opened()).Keys, Opened()) && needClose == (old(needClose) || None in bound)
    {
      hide Lists, Holds, Handles, RoundOk, CacheOk, BoundTo, Names;
      bound := [];
      NoneBound(Opened());
      assert asks[..0] == [];
      while |bound| < |asks|
        invariant |bound| <= |asks| && Valid() && live >= old(live) && Within(old(Opened()), Opened())
        invariant bound == [] ==> inUse == old(inUse) && kept == old(kept)
        invariant bound != [] ==> kept == map[]
        invariant Opened().Keys == Names(old(Opened()).Keys, asks[..|bound|])
        invariant BoundTo(bound, asks[..|bound|], old(Opened()).Keys, Opened()) &&
                  needClose == (old(needClose) || None in bound)
      {
        var ask := asks[|bound|];
        ghost var asked;
        ghost var was := Opened();
        var r;
        r, asked := OpenTable(ask.name, ask.openable);
        assert asks[..|bound| + 1] == asks[..|bound|] + [ask];
        BoundOn(bound, asks[..|bound|], old(Opened()).Keys, was, Opened());
        BoundOneMore(bound, asks[..|bound|], old(Opened()).Keys, Opened(), ask, r);
        bound := bound + [r];
      }
      assert asks[..|bound|] == asks;
    }

    /** All requests of a round open their tables, in order. */
    method OpenAll(jobs: seq<Job>) returns (bound: seq<seq<Option<Table>>>)
      requires Valid()
      modifies this
      ensures Valid() && live >= old(live) && Within(old(Opened()), Opened())
      ensures Opened().Keys == NamesAfter(old(Opened()).Keys, jobs)
      ensures AllBound(bound, jobs, old(Opened()).Keys, Opened())
      ensures needClose == (old(needClose) || Refused(bound))
      ensures if NoAsks(jobs) then inUse == old(inUse) && kept == old(kept) else kept == map[]
    {
      hide Lists, Holds, Handles, RoundOk, CacheOk, BoundTo, AllBound, Names;
      bound := [];
      NoJobBound(Opened());
      assert jobs[..0] == [];
      while |bound| < |jobs|
        invariant |bound| <= |jobs| && Valid() && live >= old(live) && Within(old(Opened()), Opened())
        invariant Opened().Keys == NamesAfter(old(Opened()).Keys, jobs[..|bound|])
        invariant AllBound(bound, jobs[..|bound|], old(Opened()).Keys, Opened())
        invariant needClose == (old(needClose) || Refused(bound))
        invariant if NoAsks(jobs[..|bound|]) then inUse == old(inUse) && kept == old(kept) else kept == map[]
      {
        var n := |bound|;
        var job := jobs[n];
        ghost var was := Opened();
        var b := OpenJob(job.Asks());
        assert jobs[..n + 1] == jobs[..n] + [job];
        NoAsksOn(jobs[..n], job);
        AllBoundOn(bound, jobs[..n], old(Opened()).Keys, was, Opened());
        AllBoundOneMore(bound, jobs[..n], old(Opened()).Keys, Opened(), job, b);
        RefusedOn(bound, b);
        bound := bound + [b];
      }
      assert jobs[..|bound|] == jobs;
    }

    /** The tables that are locked while each request of a round runs: with group commit those of the
        whole round, else its own. */
    method LockAll(group: bool, jobs: seq<Job>, bound: seq<seq<Option<Table>>>, ghost before: set<Name>,
        address: Table -> nat)
      returns (held: seq<seq<Table>>)
      requires RoundOk() && AllBound(bound, jobs, before, inUse)
      ensures |held| == |jobs| && forall i | 0 <= i < |held| :: LockedFor(held[i], bound[i], group, inUse)
    {
      hide Holds, Lists, BoundTo, NamesAfter;
      held := [];
      HoldsNames(buckets, inUse, code, slot);
      var tables := [];
      if group {
        tables := LockTables();
        LockedAre(tables, inUse);
      }
      while |held| < |jobs|
        invariant |held| <= |jobs| && forall i | 0 <= i < |held| :: LockedFor(held[i], bound[i], group, inUse)
      {
        var i := |held|;
        ghost var known := NamesAfter(before, jobs[..i]);
        assert BoundTo(bound[i], jobs[i].Asks(), known, inUse);
        BoundLength(bound[i], jobs[i].Asks(), known, inUse);
        var own := tables;
        if !group {
          match jobs[i] {
            case Single(_) => own := if bound[i][0].Some? then [bound[i][0].value] else [];
            case Batch(_) => own := BatchTables(bound[i], address);
          }
        }
        OwnLock(own, bound[i], jobs[i].Asks(), known, group, inUse);
        held := held + [own];
      }
    }

    /** A round: every request opens its tables, runs with its tables locked, and the tables are
        closed or kept. `used` are the tables of the round: those kept from the round before and
        those that a packet asked for and MySQL opened, each under its own name. A packet has a
        table exactly if its name was kept, or opened for it or a packet before it. */
    method Round(group: bool, jobs: seq<Job>, cacheOn: bool, address: Table -> nat)
      returns (bound: seq<seq<Option<Table>>>, held: seq<seq<Table>>, ghost used: map<Name, Table>)
      requires Valid() && inUse == map[]
      modifies this
      ensures Valid() && inUse == map[] && AllBound(bound, jobs, old(kept).Keys, used)
      ensures used.Keys == (if NoAsks(jobs) then {} else NamesAfter(old(kept).Keys, jobs))
      ensures forall n | n in used :: used[n].name == n
      ensures |held| == |jobs| && forall i | 0 <= i < |held| :: LockedFor(held[i], bound[i], group, used)
      ensures needClose == (old(needClose) || Refused(bound))
      ensures !NoAsks(jobs) ==> Within(old(kept), used) && old(live) <= Handles(used)
      ensures live == if NoAsks(jobs) then old(live) else if cacheOn && |used| <= cacheMax then Handles(used) else {}
    {
      hide Lists, Holds, Handles, RoundOk, CacheOk, AllBound, LockedFor, Refused, NamesAfter;
      NoHandles();
      bound := OpenAll(jobs);
      if NoAsks(jobs) { AllBoundNone(bound, jobs, old(kept).Keys, Opened(), inUse); }
      used := inUse;
      NamesRight();
      held := LockAll(group, jobs, bound, old(kept).Keys, address);
      CloseTables(cacheOn);
    }

    lemma NamesRight()
      requires RoundOk()
      ensures forall n | n in inUse :: inUse[n].name == n
    {
      hide Lists, Holds;
      HoldsNames(buckets, inUse, code, slot);
    }

    /** One wake-up of the thread: nothing is kept while caching is off, nor after a table could not
        be opened. */
    method WakeUp(group: bool, jobs: seq<Job>, cacheOn: bool, address: Table -> nat)
      returns (bound: seq<seq<Option<Table>>>, held: seq<seq<Table>>, ghost used: map<Name, Table>)
      requires Valid() && inUse == map[] && !needClose
      modifies this
      ensures Valid() && inUse == map[] && !needClose
      ensures var before := if cacheOn then old(kept) else map[];
              && AllBound(bound, jobs, before.Keys, used)
              && used.Keys == (if NoAsks(jobs) then {} else NamesAfter(before.Keys, jobs)) &&
                (forall n | n in used :: used[n].name == n)
              && (!NoAsks(jobs) ==> Within(before, used))
      ensures |held| == |jobs| && forall i | 0 <= i < |held| :: LockedFor(held[i], bound[i], group, used)
      ensures live == if !cacheOn || Refused(bound) then {}
                      else if NoAsks(jobs) then old(live)
                      else if |used| <= cacheMax then Handles(used) else {}
      ensures cacheOn && !NoAsks(jobs) ==> old(live) <= Handles(used)
    {
      hide Lists, Holds, Handles, RoundOk, CacheOk, AllBound, LockedFor, Refused, NamesAfter, Within;
      if !cacheOn { CloseCached(); }
      bound, held, used := Round(group, jobs, cacheOn, address);
      if needClose {
        CloseCached();
        needClose := false;
      }
    }

    /** `close_cached_table`, between rounds */
    method CloseCached()
      requires Valid() && inUse == map[]
      modifies this`cached, this`kept, this`live
      ensures Valid() && live == {} && kept == map[]
    {
      hide Holds, Handles;
      NoHandles();
      live, cached, kept := {}, [], map[];
    }
  }

  // ---- requests, their tables and their locks

  /** A packet asks for a table; `openable` is what MySQL would answer. */
  datatype Ask = Ask(name: Name, openable: bool)

  /** A request: one packet, or a batch of them. */
  datatype Job = Single(ask: Ask) | Batch(members: seq<Ask>) {
    function Asks(): seq<Ask> { match this case Single(a) => [a] case Batch(m) => m }
  }

  /** The names that are open after some packets, of those open before and those that MySQL opens. */
  function Names(before: set<Name>, asks: seq<Ask>): set<Name> {
    if asks == [] then before else
      var ask, names := asks[|asks| - 1], Names(before, asks[..|asks| - 1]);
      if ask.openable then names + {ask.name} else names
  }

  function NamesAfter(before: set<Name>, jobs: seq<Job>): set<Name> {
    if jobs == [] then before else Names(NamesAfter(before, jobs[..|jobs| - 1]), jobs[|jobs| - 1].Asks())
  }

  /** A packet has a table exactly if its name is open when its turn comes or is opened for it, and
      then it has the one handle of its own name. */
  ghost predicate BoundTo(bound: seq<Option<Table>>, asks: seq<Ask>, before: set<Name>, m: map<Name, Table>) {
    && |bound| == |asks|
    && (forall k | 0 <= k < |bound| :: bound[k].Some? <==> asks[k].name in Names(before, asks[..k + 1]))
    && forall k | 0 <= k < |bound| && bound[k].Some? ::
         bound[k].value.name == asks[k].name && asks[k].name in m && m[asks[k].name] == bound[k].value
  }

  ghost predicate AllBound(bound: seq<seq<Option<Table>>>, jobs: seq<Job>, before: set<Name>, m: map<Name, Table>) {
    && |bound| == |jobs|
    && forall i | 0 <= i < |bound| :: BoundTo(bound[i], jobs[i].Asks(), NamesAfter(before, jobs[..i]), m)
  }

  ghost predicate Refused(bound: seq<seq<Option<Table>>>) { exists i :: 0 <= i < |bound| && None in bound[i] }

  ghost predicate NoAsks(jobs: seq<Job>) { forall i | 0 <= i < |jobs| :: jobs[i].Asks() == [] }

  ghost predicate Within(a: map<Name, Table>, b: map<Name, Table>) { forall n | n in a :: n in b && b[n] == a[n] }

  /** The tables locked while a request runs: no table twice, all that the request has, and no
      others unless the whole round shares the lock. */
  ghost predicate LockedFor(locked: seq<Table>, bound: seq<Option<Table>>, group: bool, m: map<Name, Table>) {
    && NoTwice(locked)
    && (forall k | 0 <= k < |bound| && bound[k].Some? :: bound[k].value in locked)
    && (!group ==> forall t | t in locked :: Some(t) in bound)
    && (group ==> Lists(locked, m))
  }

  /** In plain words: a name is open after some packets exactly if it was before or one of them
      asked for it and MySQL opened it. */
  lemma {:induction false} NamesAre(before: set<Name>, asks: seq<Ask>, name: Name)
    ensures name in Names(before, asks) <==> name in before || Ask(name, true) in asks
  {
    if asks != [] {
      NamesAre(before, asks[..|asks| - 1], name);
      assert asks == asks[..|asks| - 1] + [asks[|asks| - 1]];
    }
  }

  ghost predicate Asked(jobs: seq<Job>, name: Name) { exists i :: 0 <= i < |jobs| && Ask(name, true) in jobs[i].Asks() }

  lemma {:induction false} NamesAfterAre(before: set<Name>, jobs: seq<Job>, name: Name)
    ensures name in NamesAfter(before, jobs) <==> name in before || Asked(jobs, name)
  {
    if jobs != [] {
      var init, job := jobs[..|jobs| - 1], jobs[|jobs| - 1];
      NamesAfterAre(before, init, name);
      NamesAre(NamesAfter(before, init), job.Asks(), name);
      assert jobs[|jobs| - 1] == job && forall i | 0 <= i < |init| :: jobs[i] == init[i];
      hide Names, NamesAfter;
      if Asked(init, name) {
        var i :| 0 <= i < |init| && Ask(name, true) in init[i].Asks();
        assert Ask(name, true) in jobs[i].Asks();
      }
    }
  }

  /** Which packets of a round have a table, told without `Names`. */
  lemma {:induction false} WhoHasTables(bound: seq<seq<Option<Table>>>, jobs: seq<Job>, before: set<Name>,
      m: map<Name, Table>, i: nat, k: nat)
    requires AllBound(bound, jobs, before, m) && i < |jobs| && k < |jobs[i].Asks()|
    ensures |bound| == |jobs| && |bound[i]| == |jobs[i].Asks()|
    ensures var asks := jobs[i].Asks();
            var name := asks[k].name;
            bound[i][k].Some? <==> name in before || Asked(jobs[..i], name) || Ask(name, true) in asks[..k + 1]
  {
    var known := NamesAfter(before, jobs[..i]);
    assert BoundTo(bound[i], jobs[i].Asks(), known, m);
    hide Names, NamesAfter, Asked;
    var asks := jobs[i].Asks();
    NamesAfterAre(before, jobs[..i], asks[k].name);
    NamesAre(known, asks[..k + 1], asks[k].name);
  }

  lemma BoundLength(bound: seq<Option<Table>>, asks: seq<Ask>, before: set<Name>, m: map<Name, Table>)
    requires BoundTo(bound, asks, before, m)
    ensures |bound| == |asks|
  {
  }

  lemma NoneBound(m: map<Name, Table>)
    ensures Names(m.Keys, []) == m.Keys && BoundTo([], [], m.Keys, m)
  {
  }

  lemma BoundOn(bound: seq<Option<Table>>, asks: seq<Ask>, before: set<Name>, m: map<Name, Table>, m': map<Name, Table>)
    requires BoundTo(bound, asks, before, m) && Within(m, m')
    ensures BoundTo(bound, asks, before, m')
  {
    hide Names;
  }

  lemma {:induction false} BoundOneMore(bound: seq<Option<Table>>, asks: seq<Ask>, before: set<Name>,
      m: map<Name, Table>, ask: Ask, r: Option<Table>)
    requires BoundTo(bound, asks, before, m)
    requires r == (if ask.name in m then Some(m[ask.name]) else None) && (r.Some? ==> r.value.name == ask.name)
    requires m.Keys == Names(before, asks) + (if ask.openable then {ask.name} else {})
    ensures BoundTo(bound + [r], asks + [ask], before, m) && m.Keys == Names(before, asks + [ask])
  {
    var asks', bound' := asks + [ask], bound + [r];
    assert asks'[..|asks|] == asks && asks'[..|asks'|] == asks';
    assert Names(before, asks') == m.Keys;
    hide Names;
    forall k | 0 <= k < |bound'| ensures bound'[k].Some? <==> asks'[k].name in Names(before, asks'[..k + 1]) {
      if k < |bound| { assert asks'[..k + 1] == asks[..k + 1]; }
    }
  }

  lemma NoJobBound(m: map<Name, Table>)
    ensures NamesAfter(m.Keys, []) == m.Keys && AllBound([], [], m.Keys, m)
  {
  }

  lemma AllBoundOn(bound: seq<seq<Option<Table>>>, jobs: seq<Job>, before: set<Name>, m: map<Name, Table>,
      m': map<Name, Table>)
    requires AllBound(bound, jobs, before, m) && Within(m, m')
    ensures AllBound(bound, jobs, before, m')
  {
    hide BoundTo, Within, NamesAfter;
    forall i | 0 <= i < |bound| ensures BoundTo(bound[i], jobs[i].Asks(), NamesAfter(before, jobs[..i]), m') {
      BoundOn(bound[i], jobs[i].Asks(), NamesAfter(before, jobs[..i]), m, m');
    }
  }

  lemma {:induction false} AllBoundOneMore(bound: seq<seq<Option<Table>>>, jobs: seq<Job>, before: set<Name>,
      m: map<Name, Table>, job: Job, b: seq<Option<Table>>)
    requires AllBound(bound, jobs, before, m) && BoundTo(b, job.Asks(), NamesAfter(before, jobs), m)
    ensures AllBound(bound + [b], jobs + [job], before, m)
    ensures NamesAfter(before, jobs + [job]) == Names(NamesAfter(before, jobs), job.Asks())
  {
    var jobs', bound' := jobs + [job], bound + [b];
    assert jobs'[..|jobs|] == jobs;
    hide BoundTo, Names;
    assert NamesAfter(before, jobs') == Names(NamesAfter(before, jobs), job.Asks());
    hide NamesAfter;
    forall i | 0 <= i < |bound'| ensures BoundTo(bound'[i], jobs'[i].Asks(), NamesAfter(before, jobs'[..i]), m) {
      if i < |bound| { assert jobs'[..i] == jobs[..i]; }
    }
  }

  lemma AllBoundNone(bound: seq<seq<Option<Table>>>, jobs: seq<Job>, before: set<Name>, m: map<Name, Table>,
      m': map<Name, Table>)
    requires AllBound(bound, jobs, before, m) && NoAsks(jobs)
    ensures AllBound(bound, jobs, before, m')
  {
    hide NamesAfter;
    forall i | 0 <= i < |bound| ensures BoundTo(bound[i], jobs[i].Asks(), NamesAfter(before, jobs[..i]), m') {
      assert BoundTo(bound[i], jobs[i].Asks(), NamesAfter(before, jobs[..i]), m);
    }
  }

  lemma NoAsksOn(jobs: seq<Job>, job: Job)
    ensures NoAsks(jobs + [job]) <==> NoAsks(jobs) && job.Asks() == []
  {
    var js := jobs + [job];
    assert js[|jobs|] == job && forall i | 0 <= i < |jobs| :: js[i] == jobs[i];
  }

  lemma RefusedOn(bound: seq<seq<Option<Table>>>, b: seq<Option<Table>>)
    ensures Refused(bound + [b]) <==> Refused(bound) || None in b
  {
    var bs := bound + [b];
    assert bs[|bound|] == b && forall i | 0 <= i < |bound| :: bs[i] == bound[i];
  }

  lemma OwnLock(locked: seq<Table>, bound: seq<Option<Table>>, asks: seq<Ask>, before: set<Name>, group: bool,
      m: map<Name, Table>)
    requires BoundTo(bound, asks, before, m)
    requires if group then Lists(locked, m) else EachOnce(locked, bound)
    ensures LockedFor(locked, bound, group, m)
  {
    hide Names;
    if !group {
      forall i, j | 0 <= i < j < |locked| ensures locked[i].name != locked[j].name {
        assert locked[i] in locked && locked[j] in locked;
        assert Some(locked[i]) in bound && Some(locked[j]) in bound;
      }
    }
  }

  // ---- the tables of a batch

  const BLOOM_SIZE := 32

  /** The list holds exactly the tables bound, and none twice. */
  ghost predicate EachOnce(list: seq<Table>, bound: seq<Option<Table>>) {
    && (forall i, j | 0 <= i < j < |list| :: list[i] != list[j])
    && (forall t :: t in list <==> Some(t) in bound)
  }

  /** `do_batch_with_lock`, where it lists the tables to lock. The list is searched only for a table
      whose bit is set. */
  method BatchTables(bound: seq<Option<Table>>, address: Table -> nat) returns (list: seq<Table>)
    ensures EachOnce(list, bound) && |list| <= |bound|
  {
    list := [];
    var bloom := seq(BLOOM_SIZE, _ => false);
    var n := 0;
    while n < |bound|
      invariant n <= |bound| && |list| <= n && |bloom| == BLOOM_SIZE
      invariant EachOnce(list, bound[..n])
      invariant forall t | t in list :: bloom[address(t) % BLOOM_SIZE]
    {
      assert bound[..n + 1] == bound[..n] + [bound[n]];
      if bound[n].Some? {
        var t := bound[n].value;
        var contained := false;
        if bloom[address(t) % BLOOM_SIZE] { contained := Contains(list, t); }
        assert contained <==> t in list;
        if !contained {
          EachOnceNew(list, bound[..n], t);
          list := list + [t];
          bloom := bloom[address(t) % BLOOM_SIZE := true];
        }
      }
      n := n + 1;
    }
    assert bound[..n] == bound;
  }

  lemma EachOnceNew(list: seq<Table>, bound: seq<Option<Table>>, t: Table)
    requires EachOnce(list, bound) && t !in list
    ensures EachOnce(list + [t], bound + [Some(t)])
  {
  }

  method Contains(list: seq<Table>, t: Table) returns (found: bool)
    ensures found <==> t in list
  {
    var j := 0;
    while j < |list|
      invariant j <= |list| && t !in list[..j]
    {
      if list[j] == t { return true; }
      j := j + 1;
    }
    found := false;
  }

  lemma LockedAre(ts: seq<Table>, m: map<Name, Table>)
    requires Lists(ts, m)
    ensures NoTwice(ts) && Handles(m) == (set t | t in ts) && forall n | n in m :: m[n] in ts
  {
    forall t | t in ts ensures t in Handles(m) {
      var i :| 0 <= i < |ts| && ts[i] == t;
      assert m[t.name] == t;
    }
  }

  lemma HoldsSome(buckets: seq<seq<Node>>, m: map<Name, Table>, code: Name -> nat, slot: nat -> nat)
    requires Holds(buckets, m, code, slot)
    ensures buckets != []
  {
  }

  lemma HoldsNames(buckets: seq<seq<Node>>, m: map<Name, Table>, code: Name -> nat, slot: nat -> nat)
    requires Holds(buckets, m, code, slot)
    ensures forall n | n in m :: m[n].name == n
  {
  }

  lemma HoldsName(buckets: seq<seq<Node>>, m: map<Name, Table>, code: Name -> nat, slot: nat -> nat, n: Name)
    requires Holds(buckets, m, code, slot) && n in m
    ensures m[n].name == n
  {
  }

  lemma HandleIn(m: map<Name, Table>, n: Name)
    ensures n in m ==> m[n] in Handles(m)
  {
  }

  lemma NoHandles()
    ensures Handles(map[]) == {}
  {
  }

  lemma NothingKept(ts: seq<Table>, m: map<Name, Table>)
    requires Lists(ts, m)
    ensures ts == [] <==> m == map[]
  {
    if ts == [] { assert m == map[]; } else { assert ts[0].name in m; }
  }

  lemma NothingHeld(n: nat, code: Name -> nat, slot: nat -> nat)
    requires n > 0
    ensures Holds(seq(n, _ => []), map[], code, slot) && Lists([], map[])
  {
  }
}
