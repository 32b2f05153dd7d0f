/** The slab layer of libeasy: caches of equal-sized objects cut from page blocks, the free
    chain threaded through each slab's index array, and the lookup of an object's owner. */
module SlabCache {
  import opened Common
  import opened Bits
  import opened PageZone

  const SLAB_HEADER: nat := 32     // sizeof(easy_mem_slab_t)
  const INDEX_OFFSET: nat := 30    // offsetof(easy_mem_slab_t, next_pos)
  const POS_END: nat := 0xFFFF

  // ---------- one slab ----------

  /** `free` heads the chain of free indices; each index names the next through `nextPos`. */
  datatype Slab = Slab(cacheIdx: nat, inuse: nat, free: nat, nextPos: seq<nat>)

  ghost predicate Chain(next: seq<nat>, start: nat, c: seq<nat>)
    decreases c
  {
    if c == [] then start == POS_END
    else start == c[0] && start < |next| && Chain(next, next[start], c[1..])
  }

  /** The chain visits exactly the indices that are not handed out, once each. */
  ghost predicate IsFreeChain(s: Slab, out: set<nat>, c: seq<nat>) {
    && Chain(s.nextPos, s.free, c) && NoDup(c)
    && |c| + s.inuse == |s.nextPos|
    && (forall i: nat :: i in c <==> i < |s.nextPos| && i !in out)
  }

  ghost predicate SlabOk(s: Slab, num: nat, out: set<nat>) {
    && |s.nextPos| == num < POS_END && s.inuse == |out|
    && (forall i | i in out :: i < num)
    && exists c: seq<nat> :: IsFreeChain(s, out, c)
  }

  lemma {:induction false} ChainUpdate(next: seq<nat>, start: nat, c: seq<nat>, i: nat, v: nat)
    requires Chain(next, start, c) && i < |next| && i !in c
    ensures Chain(next[i := v], start, c)
    decreases c
  {
    if c != [] { ChainUpdate(next, next[start], c[1..], i, v); }
  }

  /** `easy_mem_slab_get_obj` */
  function GetObj(s: Slab): Slab
    requires s.free < |s.nextPos|
  {
    s.(inuse := s.inuse + 1, free := s.nextPos[s.free])
  }

  /** `easy_mem_slab_put_obj` */
  function PutObj(s: Slab, i: nat): Slab
    requires i < |s.nextPos| && s.inuse > 0
  {
    s.(nextPos := s.nextPos[i := s.free], free := i, inuse := s.inuse - 1)
  }

  lemma {:induction false} GetObjKeeps(s: Slab, num: nat, out: set<nat>)
    requires SlabOk(s, num, out)
    ensures s.free == POS_END <==> s.inuse == num
    ensures s.free != POS_END ==>
              && s.free < num && s.free !in out
              && SlabOk(GetObj(s), num, out + {s.free})
  {
    var c: seq<nat> :| IsFreeChain(s, out, c);
    if c != [] {
      var t := c[1..];
      assert c == [c[0]] + t && c[0] in c && c[0] !in t;
      assert forall i: nat :: i in c <==> i == c[0] || i in t;
      assert IsFreeChain(GetObj(s), out + {s.free}, t);
    }
  }

  lemma {:induction false} PutObjKeeps(s: Slab, num: nat, out: set<nat>, i: nat)
    requires SlabOk(s, num, out) && i in out
    ensures s.inuse > 0 && SlabOk(PutObj(s, i), num, out - {i})
  {
    var c: seq<nat> :| IsFreeChain(s, out, c);
    assert out == (out - {i}) + {i};
    assert i !in c;
    ChainUpdate(s.nextPos, s.free, c, i, s.free);
    var t := [i] + c;
    assert t[1..] == c;
    assert forall j: nat :: j in t <==> j == i || j in c;
    assert IsFreeChain(PutObj(s, i), out - {i}, t);
  }

  /** The index array of a new slab links 0, 1, ..., num - 1. */
  function FreshIndex(num: nat): seq<nat> {
    seq(num, i requires 0 <= i < num => if i == num - 1 then POS_END else i + 1)
  }

  function FreshSlab(cacheIdx: nat, num: nat): Slab {
    Slab(cacheIdx, 0, 0, FreshIndex(num))
  }

  lemma {:induction false} FreshSlabOk(cacheIdx: nat, num: nat)
    requires 0 < num < POS_END
    ensures SlabOk(FreshSlab(cacheIdx, num), num, {})
  {
    var s, c := FreshSlab(cacheIdx, num), Count(0, num);
    CountChain(num, 0);
    forall i: nat ensures i in c <==> i < num {
      if i < num { assert c[i] == i; }
    }
    assert IsFreeChain(s, {}, c);
  }

  function Count(lo: nat, hi: nat): (c: seq<nat>)
    requires lo <= hi
    ensures |c| == hi - lo && forall k | 0 <= k < |c| :: c[k] == lo + k
    decreases hi - lo
  {
    if lo == hi then [] else [lo] + Count(lo + 1, hi)
  }

  lemma {:induction false} CountChain(num: nat, lo: nat)
    requires lo < num < POS_END
    ensures Chain(FreshIndex(num), lo, Count(lo, num))
    decreases num - lo
  {
    assert Count(lo, num) == [lo] + Count(lo + 1, num);
    assert Count(lo, num)[1..] == Count(lo + 1, num);
    if lo + 1 < num { CountChain(num, lo + 1); }
  }

  // ---------- the geometry of a cache ----------

  /** Objects in a block of this order: each takes its buffer and a 16-bit index. */
  function ObjectsAt(bufferSize: nat, order: nat): (n: nat)
    requires bufferSize > 0
    ensures n * (bufferSize + 2) <= PAGE_SIZE * Pow2(order) - SLAB_HEADER < (n + 1) * (bufferSize + 2)
  {
    var room, each := PAGE_SIZE * Pow2(order) - SLAB_HEADER, bufferSize + 2;
    assert room == each * (room / each) + room % each;
    room / each
  }

  function LeftOver(bufferSize: nat, order: nat): int
    requires bufferSize > 0
  {
    PAGE_SIZE * Pow2(order) - ObjectsAt(bufferSize, order) * bufferSize - SLAB_HEADER
  }

  /** At most a quarter of a block of this order is wasted. */
  predicate Tight(bufferSize: nat, order: nat)
    requires bufferSize > 0
  {
    LeftOver(bufferSize, order) * 4 <= PAGE_SIZE * Pow2(order)
  }

  /** The order search of `easy_mem_cache_create`: the first tight order, and `MAX_ORDER` when
      there is none. */
  function SearchOrder(bufferSize: nat, order: nat): (k: nat)
    requires bufferSize > 0 && order <= MAX_ORDER
    ensures order <= k <= MAX_ORDER && (k < MAX_ORDER ==> Tight(bufferSize, k))
    ensures forall j | order <= j < k :: !Tight(bufferSize, j)
    decreases MAX_ORDER - order
  {
    if Tight(bufferSize, order) || order == MAX_ORDER then order else SearchOrder(bufferSize, order + 1)
  }

  /** Block order, object size, objects per slab and where the first object starts. */
  datatype Geo = Geo(order: nat, bufferSize: nat, num: nat, offset: int)

  function CacheGeo(bufferSize: nat): Geo
    requires bufferSize > 0
  {
    var k := SearchOrder(bufferSize, 0);
    var num := ObjectsAt(bufferSize, k);
    Geo(k, bufferSize, num, PAGE_SIZE * Pow2(k) - num * bufferSize)
  }

  /** What the slab code relies on: objects fit behind the header and the index array, there is
      at least one, and an index fits in 16 bits beside the end marker. */
  predicate GeometryOk(g: Geo) {
    && g.bufferSize > 0 && 0 < g.num < POS_END
    && g.offset + g.num * g.bufferSize == PAGE_SIZE * Pow2(g.order)
    && SLAB_HEADER + 2 * g.num <= g.offset
  }

  /** The search never settles below `MAX_ORDER` on a geometry that the slab code cannot use;
      at `MAX_ORDER` itself a cache can never get pages. */
  lemma {:induction false} SearchGeometryOk(bufferSize: nat)
    requires bufferSize > 0
    ensures CacheGeo(bufferSize).order < MAX_ORDER ==> GeometryOk(CacheGeo(bufferSize))
  {
    hide ObjectsAt;
    var k := SearchOrder(bufferSize, 0);
    if k < MAX_ORDER {
      assert Tight(bufferSize, k) && (k > 0 ==> !Tight(bufferSize, 0));
      hide SearchOrder;
      var n, size := ObjectsAt(bufferSize, k), PAGE_SIZE * Pow2(k);
      Pow2Mono(k, 11);
      assert Pow2(11) == 0x800 && Pow2(0) == 1;
      hide Pow2;
      if k > 0 {
        assert n * (bufferSize + 2) == n * bufferSize + 2 * n;
        AtLeastSix(n, bufferSize, size);
        WideObjects(bufferSize);
      }
      hide Tight;
      CountFits(n, bufferSize, size, k == 0);
    }
  }

  /** At least one object, and few enough for 16-bit indices. */
  lemma {:induction false} CountFits(n: nat, b: nat, size: nat, onePage: bool)
    requires b > 0 && n * (b + 2) <= size - SLAB_HEADER < (n + 1) * (b + 2) && (size - n * b - SLAB_HEADER) * 4 <= size
    requires if onePage then size == PAGE_SIZE else PAGE_SIZE <= size <= PAGE_SIZE * 0x800 && b + 2 >= 16377
    ensures 0 < n < POS_END && n * (b + 2) == n * b + 2 * n
  {
    assert n * (b + 2) == n * b + 2 * n;
    if onePage { MulLe(n, 3, b + 2); } else { MulLe(n, 16377, b + 2); }
  }

  lemma MulLe(n: nat, a: int, b: int)
    requires a <= b
    ensures n * a <= n * b
  {
    assert n * b - n * a == n * (b - a);
  }

  lemma {:induction false} AtLeastSix(n: nat, b: nat, size: nat)
    requires size >= PAGE_SIZE && n * b + 2 * n <= size - SLAB_HEADER
    requires (size - n * b - SLAB_HEADER) * 4 <= size
    ensures b >= 6
  {
    if b <= 5 { MulLe(n, b, 5); }
  }

  /** When one page is not tight but a larger block is, an object takes about a quarter of a page. */
  lemma {:induction false} WideObjects(b: nat)
    requires b >= 6 && !Tight(b, 0)
    ensures b + 2 >= 16377
  {
    hide ObjectsAt;
    var x, q := b + 2, ObjectsAt(b, 0);
    assert Pow2(0) == 1;
    assert q * x == q * b + 2 * q && (q + 1) * x == q * x + x && x * (2 * q) == 2 * (q * x);
    if x <= 16376 {
      Parabola(x);
      MulLe(x, 16384 - x + 1, 2 * q);
    }
  }

  lemma {:induction false} Parabola(x: nat)
    requires 8 <= x <= 16376
    ensures x * (16384 - x + 1) >= 131008 + x
  {
    MulLe(x - 8, 0, 16376 - x);
    assert (x - 8) * (16376 - x) == x * (16384 - x) - 131008;
    assert x * (16384 - x + 1) == x * (16384 - x) + x;
  }

  // ---------- the manager ----------

  /** The three lists name slabs by the page that heads them. */
  datatype Cache = Cache(
    geo: Geo, freeObjects: int, freeLimit: int,
    partial: seq<nat>, full: seq<nat>, spare: seq<nat>)

  /** `start` is the address of page 0.  `out` records which indices of each slab are handed out,
      and is not stored by the source. */
  datatype Mgr = Mgr(start: nat, cacheMax: nat, zone: Zone, caches: seq<Cache>, slabs: map<nat, Slab>,
      out: map<nat, set<nat>>)

  predicate NoDups(c: Cache) {
    NoDup(c.partial) && NoDup(c.full) && NoDup(c.spare)
  }

  function Population(c: Cache): nat {
    |c.partial| + |c.full| + |c.spare|
  }

  predicate CacheOk(c: Cache) {
    && (c.geo.order < MAX_ORDER ==> GeometryOk(c.geo))
    && c.freeObjects == c.geo.num * Population(c) && c.freeLimit == 2 * c.geo.num
    && NoDups(c)
  }

  /** A slab is on the list that its fill level calls for. */
  ghost predicate ListsOk(c: Cache, ci: nat, slabs: map<nat, Slab>) {
    && (forall h: nat :: h in c.spare <==> h in slabs && slabs[h].cacheIdx == ci && slabs[h].inuse == 0)
    && (forall h: nat :: h in c.full <==> h in slabs && slabs[h].cacheIdx == ci && slabs[h].inuse == c.geo.num)
    && (forall h: nat :: h in c.partial <==> h in slabs && slabs[h].cacheIdx == ci && 0 < slabs[h].inuse < c.geo.num)
  }

  /** Address of object `i` of the slab headed by page `h`. */
  function ObjAddr(start: nat, h: nat, g: Geo, i: nat): int {
    start + PAGE_SIZE * h + g.offset + g.bufferSize * i
  }

  /** The page in which that object starts. */
  function ObjPage(h: nat, g: Geo, i: nat): int {
    h + (g.offset + g.bufferSize * i) / PAGE_SIZE
  }

  /** Every page in which an object of the slab starts carries the flag of the slab's order. */
  predicate FlagsSet(flags: seq<nat>, h: nat, g: Geo) {
    forall i | 0 <= i < g.num ::
      0 <= ObjPage(h, g, i) < |flags| && flags[ObjPage(h, g, i)] == USED + g.order
  }

  ghost predicate SlabPlaced(m: Mgr, h: nat)
    requires h in m.slabs
  {
    && m.slabs[h].cacheIdx < |m.caches| && h in m.out
    && var g := m.caches[m.slabs[h].cacheIdx].geo;
    && LiveAt(m.zone.blocks, h, g.order)
    && SlabOk(m.slabs[h], g.num, m.out[h])
    && FlagsSet(m.zone.flags, h, g)
  }

  ghost predicate MgrOk(m: Mgr) {
    && Inv(m.zone) && Aligned(m.start, PAGE_SHIFT + m.zone.maxOrder)
    && m.out.Keys == m.slabs.Keys
    && (forall h | h in m.slabs :: SlabPlaced(m, h))
    && (forall ci | 0 <= ci < |m.caches| :: CacheOk(m.caches[ci]) && ListsOk(m.caches[ci], ci, m.slabs))
  }

  /** Object `i` of slab `h` is in a client's hands. */
  predicate IsOut(m: Mgr, h: nat, i: nat) {
    h in m.slabs && h in m.out && i in m.out[h] && m.slabs[h].cacheIdx < |m.caches|
  }

  function GeoOf(m: Mgr, h: nat): Geo
    requires h in m.slabs && m.slabs[h].cacheIdx < |m.caches|
  {
    m.caches[m.slabs[h].cacheIdx].geo
  }

  /** `easy_mem_virt_to_slab`, as a page index. */
  function SlabAt(start: nat, order: nat, addr: nat): int {
    (addr - addr % Pow2(PAGE_SHIFT + order) - start) / PAGE_SIZE
  }

  /** `easy_mem_get_cache`: the order found in the page flag locates the slab header, which names the cache. */
  function OwnerOf(m: Mgr, addr: nat): Option<nat>
    requires m.start <= addr && (addr - m.start) / PAGE_SIZE < |m.zone.flags|
  {
    var order := m.zone.flags[(addr - m.start) / PAGE_SIZE] % 16;
    var head := SlabAt(m.start, order, addr);
    if head in m.slabs then Some(m.slabs[head].cacheIdx) else None
  }

  /** Every object lies behind the header and the index array and inside the block. */
  lemma {:induction false} ObjectInside(g: Geo, i: nat)
    requires GeometryOk(g) && i < g.num
    ensures INDEX_OFFSET + 2 * g.num <= SLAB_HEADER + 2 * g.num <= g.offset + g.bufferSize * i
    ensures g.offset + g.bufferSize * i + g.bufferSize <= PAGE_SIZE * Pow2(g.order)
  {
    hide Pow2;
    MulLe(g.bufferSize, i + 1, g.num);
    assert g.bufferSize * (i + 1) == g.bufferSize * i + g.bufferSize;
    MulLe(g.bufferSize, 0, i);
  }

  /** What is known of a slab, whether or not objects of it are out. */
  lemma {:induction false} SlabFacts(m: Mgr, h: nat)
    requires MgrOk(m) && h in m.slabs
    ensures m.slabs[h].cacheIdx < |m.caches|
    ensures var g := GeoOf(m, h);
            && GeometryOk(g) && FlagsSet(m.zone.flags, h, g)
            && LiveAt(m.zone.blocks, h, g.order) && g.order <= m.zone.maxOrder < MAX_ORDER
            && Aligned(h, g.order) && Aligned(m.start, PAGE_SHIFT + m.zone.maxOrder)
            && h + Pow2(g.order) <= |m.zone.flags| && Disjoint(m.zone.blocks)
  {
    hide Inv, SlabOk, ListsOk, FlagsSet, GeometryOk, Aligned, Pow2;
    assert SlabPlaced(m, h);
    assert CacheOk(m.caches[m.slabs[h].cacheIdx]);
    BlockFacts(m.zone, h, GeoOf(m, h).order);
  }

  /** What is known of an object in a client's hands. */
  lemma {:induction false} OutFacts(m: Mgr, h: nat, i: nat)
    requires MgrOk(m) && IsOut(m, h, i)
    ensures var g := GeoOf(m, h);
            && i < g.num && GeometryOk(g)
            && FlagsSet(m.zone.flags, h, g)
            && LiveAt(m.zone.blocks, h, g.order) && g.order <= m.zone.maxOrder < MAX_ORDER
            && Aligned(h, g.order) && Aligned(m.start, PAGE_SHIFT + m.zone.maxOrder)
            && h + Pow2(g.order) <= |m.zone.flags| && Disjoint(m.zone.blocks)
  {
    assert SlabPlaced(m, h);
    hide ListsOk, FlagsSet, GeometryOk, Aligned, Pow2, Inv;
    SlabFacts(m, h);
  }

  /** The flag of the page an object starts in, and masking its address, find the slab and the
      cache that issued it. */
  lemma {:induction false} LookupFindsOwner(m: Mgr, h: nat, i: nat)
    requires MgrOk(m) && IsOut(m, h, i)
    ensures var g := GeoOf(m, h);
            var addr := ObjAddr(m.start, h, g, i);
            && m.start <= addr && (addr - m.start) / PAGE_SIZE < |m.zone.flags|
            && SlabAt(m.start, g.order, addr) == h
            && OwnerOf(m, addr) == Some(m.slabs[h].cacheIdx)
  {
    hide MgrOk, Aligned, Pow2, SlabAt;
    OutFacts(m, h, i);
    var g := GeoOf(m, h);
    ObjectInside(g, i);
    var t := g.offset + g.bufferSize * i;
    MaskFindsSlab(m.start, m.zone.maxOrder, h, g.order, t);
    var addr := ObjAddr(m.start, h, g, i);
    assert addr == m.start + PAGE_SIZE * h + t && (addr - m.start) / PAGE_SIZE == ObjPage(h, g, i);
    assert m.zone.flags[ObjPage(h, g, i)] == USED + g.order;
    hide FlagsSet, ObjAddr, ObjPage, GeometryOk;
    assert (USED + g.order) % 16 == g.order;
  }

  lemma {:induction false} MaskFindsSlab(start: nat, maxOrder: nat, h: nat, order: nat, t: nat)
    requires order <= maxOrder && Aligned(start, PAGE_SHIFT + maxOrder) && Aligned(h, order)
    requires t < PAGE_SIZE * Pow2(order)
    ensures SlabAt(start, order, start + PAGE_SIZE * h + t) == h
    ensures (PAGE_SIZE * h + t) / PAGE_SIZE == h + t / PAGE_SIZE < h + Pow2(order)
  {
    hide Aligned, Pow2;
    BlockAddressAligned(start, maxOrder, h, order);
    Pow2Of16(order);
    MaskFindsBlock(start + PAGE_SIZE * h, PAGE_SHIFT + order, start + PAGE_SIZE * h + t);
  }

  lemma {:induction false} BlockFacts(z: Zone, h: nat, order: nat)
    requires Inv(z) && LiveAt(z.blocks, h, order)
    ensures order <= z.maxOrder < MAX_ORDER && Aligned(h, order) && h + Pow2(order) <= z.last <= |z.flags|
    ensures Disjoint(z.blocks)
  {
  }

  lemma {:induction false} BlockAddressAligned(start: nat, maxOrder: nat, h: nat, order: nat)
    requires order <= maxOrder && Aligned(start, PAGE_SHIFT + maxOrder) && Aligned(h, order)
    ensures Aligned(start + PAGE_SIZE * h, PAGE_SHIFT + order)
  {
    hide Aligned;
    AlignedWeaken(start, PAGE_SHIFT + order, PAGE_SHIFT + maxOrder);
    Pow2Of16(0);
    assert Pow2(0) == 1;
    AlignedShift(h, order, 16);
    AlignedSum(start, PAGE_SIZE * h, PAGE_SHIFT + order);
  }

  /** An object in a client's hands never overlaps another one, nor the header or index array of
      any slab, whether or not objects of that slab are out. */
  lemma {:induction false} ObjectsDisjoint(m: Mgr, h: nat, i: nat, h': nat, i': nat)
    requires MgrOk(m) && IsOut(m, h, i) && h' in m.slabs
    ensures m.slabs[h'].cacheIdx < |m.caches|
    ensures var g, g' := GeoOf(m, h), GeoOf(m, h');
            var a, a' := ObjAddr(m.start, h, g, i), ObjAddr(m.start, h', g', i');
            var hdr' := m.start + PAGE_SIZE * h';
            && (IsOut(m, h', i') && (h, i) != (h', i') ==> a + g.bufferSize <= a' || a' + g'.bufferSize <= a)
            && (a + g.bufferSize <= hdr' || hdr' + SLAB_HEADER + 2 * g'.num <= a)
  {
    hide MgrOk, Aligned, Pow2, FlagsSet;
    OutFacts(m, h, i);
    SlabFacts(m, h');
    var g, g' := GeoOf(m, h), GeoOf(m, h');
    assert h < h' ==> h + Pow2(g.order) <= h';
    assert h' < h ==> h' + Pow2(g'.order) <= h;
    hide Disjoint;
    ObjectInside(g, i);
    ObjectInside(g', 0);
    if IsOut(m, h', i') {
      OutFacts(m, h', i');
      ObjectInside(g', i');
      if h == h' {
        if i < i' { MulLe(g.bufferSize, i + 1, i'); }
        if i' < i { MulLe(g.bufferSize, i' + 1, i); }
        assert g.bufferSize * (i + 1) == g.bufferSize * i + g.bufferSize;
        assert g.bufferSize * (i' + 1) == g.bufferSize * i' + g.bufferSize;
      }
    }
  }

  // ---------- moving a slab between the lists of its cache ----------

  /** `easy_list_del(&slab->list)`: the slab leaves whichever list holds it. */
  function DelSlab(c: Cache, h: nat): Cache {
    c.(partial := Without(c.partial, h), full := Without(c.full, h), spare := Without(c.spare, h))
  }

  lemma {:induction false} WithoutMiss(s: seq<nat>, x: nat)
    requires x !in s
    ensures Without(s, x) == s
  {
    if s != [] { WithoutMiss(s[1..], x); }
  }

  /** The list that a slab with this many objects handed out belongs on. */
  function AddSlab(c: Cache, h: nat, inuse: nat, tail: bool): Cache {
    if inuse == 0 then c.(spare := [h] + c.spare)
    else if inuse == c.geo.num then c.(full := [h] + c.full)
    else if tail then c.(partial := c.partial + [h])
    else c.(partial := [h] + c.partial)
  }

  lemma {:induction false} DelSlabOk(c: Cache, ci: nat, slabs: map<nat, Slab>, h: nat)
    requires NoDups(c) && ListsOk(c, ci, slabs) && c.geo.num > 0
    requires h in slabs && slabs[h].cacheIdx == ci && slabs[h].inuse <= c.geo.num
    ensures var d := DelSlab(c, h);
            NoDups(d) && ListsOk(d, ci, slabs - {h}) && Population(d) + 1 == Population(c)
  {
    hide Without;
    if slabs[h].inuse == 0 {
      WithoutIs(c.spare, h); WithoutMiss(c.full, h); WithoutMiss(c.partial, h);
    } else if slabs[h].inuse == c.geo.num {
      WithoutIs(c.full, h); WithoutMiss(c.spare, h); WithoutMiss(c.partial, h);
    } else {
      WithoutIs(c.partial, h); WithoutMiss(c.spare, h); WithoutMiss(c.full, h);
    }
  }

  lemma {:induction false} AddSlabOk(c: Cache, ci: nat, slabs: map<nat, Slab>, h: nat, s: Slab, tail: bool)
    requires NoDups(c) && ListsOk(c, ci, slabs) && c.geo.num > 0
    requires h !in slabs && s.cacheIdx == ci && s.inuse <= c.geo.num
    ensures var d := AddSlab(c, h, s.inuse, tail);
            NoDups(d) && ListsOk(d, ci, slabs[h := s]) && Population(d) == Population(c) + 1
  {
  }

  /** The lists of another cache do not notice. */
  lemma {:induction false} OtherLists(c: Cache, cj: nat, slabs: map<nat, Slab>, slabs': map<nat, Slab>, h: nat)
    requires ListsOk(c, cj, slabs)
    requires h in slabs ==> slabs[h].cacheIdx != cj
    requires h in slabs' ==> slabs'[h].cacheIdx != cj
    requires slabs' - {h} == slabs - {h}
    ensures ListsOk(c, cj, slabs')
  {
    assert forall x | x != h :: (x in slabs <==> x in slabs - {h}) && (x in slabs' <==> x in slabs' - {h});
    assert forall x | x in slabs - {h} :: slabs'[x] == slabs[x];
  }

  // ---------- allocation from a slab ----------

  /** The list step of `easy_mem_cache_alloc`, which tests the chain rather than the counter. */
  function AfterGet(c: Cache, h: nat, s: Slab): Cache {
    var d := DelSlab(c, h);
    if s.free == POS_END then d.(full := [h] + d.full) else d.(partial := [h] + d.partial)
  }

  /** The object at the head of the chain of slab `h` goes to a client. */
  function TakeFrom(m: Mgr, ci: nat, h: nat): Mgr
    requires ci < |m.caches| && h in m.slabs && h in m.out && m.slabs[h].free < |m.slabs[h].nextPos|
  {
    var s := GetObj(m.slabs[h]);
    m.(slabs := m.slabs[h := s], caches := m.caches[ci := AfterGet(m.caches[ci], h, s)],
       out := m.out[h := m.out[h] + {m.slabs[h].free}])
  }

  /** Cache `ci` has issued object `i` of slab `h`, and nothing else is in different hands. */
  ghost predicate Issued(m: Mgr, m': Mgr, ci: nat, h: nat, i: nat) {
    && MgrOk(m') && ci < |m.caches| == |m'.caches| && m'.start == m.start
    && (forall cj | 0 <= cj < |m.caches| :: m'.caches[cj].geo == m.caches[cj].geo)
    && h in m'.slabs && m'.slabs[h].cacheIdx == ci
    && !IsOut(m, h, i)
    && m'.out == m.out[h := (if h in m.out then m.out[h] else {}) + {i}]
    && (forall x | x in m.slabs :: x in m'.slabs && m'.slabs[x].cacheIdx == m.slabs[x].cacheIdx)
  }

  /** Only slab `h` and its owner's lists differ. */
  predicate SlabReplaced(m: Mgr, m': Mgr, ci: nat, h: nat) {
    && m'.zone == m.zone && m'.start == m.start
    && ci < |m.caches| && |m'.caches| == |m.caches| && m'.caches == m.caches[ci := m'.caches[ci]]
    && m'.caches[ci].geo == m.caches[ci].geo
    && h in m.slabs && m.slabs[h].cacheIdx == ci
    && h in m'.slabs && m'.slabs == m.slabs[h := m'.slabs[h]] && m'.slabs[h].cacheIdx == ci
    && h in m'.out && m'.out == m.out[h := m'.out[h]]
  }

  lemma {:induction false} ReplaceSlab(m: Mgr, m': Mgr, ci: nat, h: nat)
    requires MgrOk(m) && SlabReplaced(m, m', ci, h)
    requires SlabOk(m'.slabs[h], m.caches[ci].geo.num, m'.out[h])
    requires CacheOk(m'.caches[ci]) && ListsOk(m'.caches[ci], ci, m'.slabs)
    ensures MgrOk(m')
  {
    hide Inv, SlabOk, FlagsSet, LiveAt, Aligned, CacheOk, ListsOk;
    ReplacePlaced(m, m', ci, h);
    hide SlabPlaced;
    forall cj | 0 <= cj < |m'.caches| ensures CacheOk(m'.caches[cj]) && ListsOk(m'.caches[cj], cj, m'.slabs) {
      if cj != ci {
        assert CacheOk(m.caches[cj]) && ListsOk(m.caches[cj], cj, m.slabs);
        OtherLists(m.caches[cj], cj, m.slabs, m'.slabs, h);
      }
    }
  }

  lemma {:induction false} ReplacePlaced(m: Mgr, m': Mgr, ci: nat, h: nat)
    requires (forall x | x in m.slabs :: SlabPlaced(m, x)) && SlabReplaced(m, m', ci, h)
    requires SlabOk(m'.slabs[h], m.caches[ci].geo.num, m'.out[h])
    ensures forall x | x in m'.slabs :: SlabPlaced(m', x)
  {
    hide Inv, SlabOk, FlagsSet, LiveAt;
    forall x | x in m'.slabs ensures SlabPlaced(m', x) {
      assert SlabPlaced(m, x);
    }
  }

  /** The slab's new fill level puts it on the right list. */
  lemma {:induction false} RelistOk(c: Cache, ci: nat, slabs: map<nat, Slab>, h: nat, s: Slab, tail: bool)
    requires CacheOk(c) && ListsOk(c, ci, slabs) && c.geo.num > 0
    requires h in slabs && slabs[h].cacheIdx == ci && slabs[h].inuse <= c.geo.num
    requires s.cacheIdx == ci && s.inuse <= c.geo.num
    ensures var d := AddSlab(DelSlab(c, h), h, s.inuse, tail);
            CacheOk(d) && ListsOk(d, ci, slabs[h := s])
  {
    DelSlabOk(c, ci, slabs, h);
    AddSlabOk(DelSlab(c, h), ci, slabs - {h}, h, s, tail);
    assert (slabs - {h})[h := s] == slabs[h := s];
    hide ListsOk, Without;
  }

  lemma {:induction false} GetRelists(c: Cache, ci: nat, slabs: map<nat, Slab>, h: nat, out: set<nat>)
    requires CacheOk(c) && ListsOk(c, ci, slabs) && h in slabs && slabs[h].cacheIdx == ci
    requires SlabOk(slabs[h], c.geo.num, out) && slabs[h].inuse < c.geo.num
    ensures slabs[h].free < |slabs[h].nextPos| && slabs[h].free !in out
    ensures var s := GetObj(slabs[h]);
            && SlabOk(s, c.geo.num, out + {slabs[h].free})
            && CacheOk(AfterGet(c, h, s)) && ListsOk(AfterGet(c, h, s), ci, slabs[h := s])
  {
    hide CacheOk, ListsOk, Without;
    GetObjKeeps(slabs[h], c.geo.num, out);
    var s := GetObj(slabs[h]);
    GetObjKeeps(s, c.geo.num, out + {slabs[h].free});
    RelistOk(c, ci, slabs, h, s, false);
  }

  lemma {:induction false} TakeFromKeeps(m: Mgr, ci: nat, h: nat)
    requires MgrOk(m) && ci < |m.caches| && h in m.slabs && m.slabs[h].cacheIdx == ci
    requires m.slabs[h].inuse < m.caches[ci].geo.num
    ensures m.slabs[h].free < |m.slabs[h].nextPos| && !IsOut(m, h, m.slabs[h].free) && h in m.out
    ensures MgrOk(TakeFrom(m, ci, h))
  {
    hide Inv, ListsOk, FlagsSet, LiveAt, Aligned, CacheOk, SlabOk, Without;
    assert SlabPlaced(m, h) && ListsOk(m.caches[ci], ci, m.slabs);
    GetRelists(m.caches[ci], ci, m.slabs, h, m.out[h]);
    ReplaceSlab(m, TakeFrom(m, ci, h), ci, h);
    hide MgrOk;
  }

  lemma {:induction false} TakeFromIssues(m: Mgr, ci: nat, h: nat)
    requires MgrOk(m) && ci < |m.caches| && h in m.slabs && m.slabs[h].cacheIdx == ci
    requires m.slabs[h].inuse < m.caches[ci].geo.num
    ensures m.slabs[h].free < |m.slabs[h].nextPos|
    ensures Issued(m, TakeFrom(m, ci, h), ci, h, m.slabs[h].free)
  {
    hide MgrOk, Without;
    TakeFromKeeps(m, ci, h);
  }

  // ---------- a new slab ----------

  /** Where `easy_mem_cache_grow` writes flags: every page of the block, or, for objects larger
      than a page, the pages in which an object starts. */
  ghost predicate Marked(h: nat, g: Geo, p: int) {
    if g.bufferSize > PAGE_SIZE then exists i :: 0 <= i < g.num && ObjPage(h, g, i) == p
    else h <= p < h + Pow2(g.order)
  }

  ghost function MarkSlab(z: Zone, h: nat, g: Geo): Zone {
    z.(flags := seq(|z.flags|, p requires 0 <= p < |z.flags| => if Marked(h, g, p) then USED + g.order else z.flags[p]))
  }

  lemma {:induction false} ObjPageInside(h: nat, g: Geo, i: nat)
    requires GeometryOk(g) && i < g.num
    ensures h <= ObjPage(h, g, i) < h + Pow2(g.order)
  {
    hide Pow2;
    ObjectInside(g, i);
  }

  /** Writing the flags of a block in use keeps the zone's invariant, sets the flags that the
      lookup reads, and leaves the pages of every other block alone. */
  lemma {:induction false} MarkSlabKeeps(z: Zone, h: nat, g: Geo)
    requires Inv(z) && LiveAt(z.blocks, h, g.order) && GeometryOk(g)
    ensures Inv(MarkSlab(z, h, g)) && FlagsSet(MarkSlab(z, h, g).flags, h, g)
    ensures Spares(z, h, MarkSlab(z, h, g), h)
  {
    BlockFacts(z, h, g.order);
    hide GeometryOk, Aligned, FreeSum, Listed, Tiling, Pow2, Disjoint, Flagged;
    var z' := MarkSlab(z, h, g);
    forall p | Marked(h, g, p) ensures h <= p < h + Pow2(g.order) {
      if g.bufferSize > PAGE_SIZE {
        var i :| 0 <= i < g.num && ObjPage(h, g, i) == p;
        ObjPageInside(h, g, i);
      }
    }
    forall i | 0 <= i < g.num ensures Marked(h, g, ObjPage(h, g, i)) && 0 <= ObjPage(h, g, i) < |z'.flags| {
      ObjPageInside(h, g, i);
    }
    hide ObjPage, Marked;
    MarkSpares(z, h, g.order, z');
  }

  /** Only flags of pages of the block change, and only to the flag of its head. */
  lemma {:induction false} MarkSpares(z: Zone, h: nat, order: nat, z': Zone)
    requires Disjoint(z.blocks) && Flagged(z.flags, z.blocks, {}) && LiveAt(z.blocks, h, order) &&
             |z'.flags| == |z.flags|
    requires z'.blocks == z.blocks
    requires forall p | 0 <= p < |z.flags| ::
             z'.flags[p] == z.flags[p] || (h <= p < h + Pow2(order) && z'.flags[p] == USED + order)
    ensures Flagged(z'.flags, z.blocks, {}) && Spares(z, h, z', h)
  {
    hide Pow2;
    forall i | i in z.blocks ensures i < |z'.flags| && z'.flags[i] == FlagOf(z.blocks[i]) {
      assert h < i ==> h + Pow2(z.blocks[h].order) <= i;
    }
    forall i: nat, k: nat, p: nat | LiveAt(z.blocks, i, k) && i != h && i <= p < i + Pow2(k) && p < |z.flags|
      ensures z'.flags[p] == z.flags[p]
    {
      assert i < h ==> i + Pow2(z.blocks[i].order) <= h;
      assert h < i ==> h + Pow2(z.blocks[h].order) <= i;
    }
  }

  /** Whatever the zone does for others leaves a slab's block, and the flags its lookup reads. */
  lemma {:induction false} SlabSpared(z: Zone, page: nat, z': Zone, h: nat, g: Geo)
    requires Inv(z) && FlagsSpared(z, page, z') && LiveAt(z.blocks, h, g.order) && h != page
    requires GeometryOk(g) && FlagsSet(z.flags, h, g)
    ensures FlagsSet(z'.flags, h, g)
  {
    hide Inv, GeometryOk, Pow2;
    forall i | 0 <= i < g.num
      ensures 0 <= ObjPage(h, g, i) < |z'.flags| && z'.flags[ObjPage(h, g, i)] == USED + g.order
    {
      ObjPageInside(h, g, i);
    }
  }

  /** Slabs other than `page` stay placed when the zone changes elsewhere. */
  lemma {:induction false} SlabsSpared(m: Mgr, page: nat, m': Mgr, h: nat)
    requires MgrOk(m) && h in m.slabs && h != page && FlagsSpared(m.zone, page, m'.zone)
    requires LiveAt(m'.zone.blocks, h, m.zone.blocks[h].order)
    requires h in m'.slabs && m'.slabs[h] == m.slabs[h] && h in m'.out && m'.out[h] == m.out[h]
    requires |m'.caches| == |m.caches| && m.slabs[h].cacheIdx < |m.caches|
    requires m'.caches[m.slabs[h].cacheIdx].geo == m.caches[m.slabs[h].cacheIdx].geo
    ensures SlabPlaced(m', h)
  {
    hide SlabOk, FlagsSet, GeometryOk, ListsOk;
    assert SlabPlaced(m, h);
    var g := m.caches[m.slabs[h].cacheIdx].geo;
    assert CacheOk(m.caches[m.slabs[h].cacheIdx]);
    BlockFacts(m.zone, h, g.order);
    hide Inv, CacheOk;
    SlabSpared(m.zone, page, m'.zone, h, g);
  }

  /** The cache after a slab with one object handed out has been added. */
  function AfterGrow(c: Cache, h: nat, s: Slab): Cache {
    var d := c.(freeObjects := c.freeObjects + c.geo.num);
    if s.free == POS_END then d.(full := [h] + d.full) else d.(partial := [h] + d.partial)
  }

  lemma {:induction false} FirstObject(ci: nat, num: nat)
    requires 0 < num < POS_END
    ensures var s := GetObj(FreshSlab(ci, num));
            && SlabOk(s, num, {0}) && s.cacheIdx == ci && s.inuse == 1
            && (s.free == POS_END <==> s.inuse == num)
  {
    hide SlabOk, FreshIndex;
    FreshSlabOk(ci, num);
    GetObjKeeps(FreshSlab(ci, num), num, {});
    assert {} + {0} == {0};
    GetObjKeeps(GetObj(FreshSlab(ci, num)), num, {0});
  }

  lemma {:induction false} GrowRelists(c: Cache, ci: nat, slabs: map<nat, Slab>, h: nat, s: Slab)
    requires CacheOk(c) && c.geo.num > 0 && ListsOk(c, ci, slabs) && h !in slabs
    requires s.cacheIdx == ci && s.inuse == 1 && (s.free == POS_END <==> s.inuse == c.geo.num)
    ensures CacheOk(AfterGrow(c, h, s)) && ListsOk(AfterGrow(c, h, s), ci, slabs[h := s])
  {
    hide ListsOk, GeometryOk, NoDups;
    AddSlabOk(c, ci, slabs, h, s, false);
    var d := AddSlab(c, h, s.inuse, false);
    assert AfterGrow(c, h, s) == d.(freeObjects := c.freeObjects + c.geo.num);
    hide AfterGrow, AddSlab;
    ListsIgnoreCount(d, ci, slabs[h := s], c.freeObjects + c.geo.num);
    assert c.geo.num * (Population(c) + 1) == c.geo.num * Population(c) + c.geo.num;
  }

  /** The lists do not depend on the object counter. */
  lemma {:induction false} ListsIgnoreCount(c: Cache, ci: nat, slabs: map<nat, Slab>, count: int)
    requires ListsOk(c, ci, slabs) && NoDups(c)
    ensures ListsOk(c.(freeObjects := count), ci, slabs) && NoDups(c.(freeObjects := count))
    ensures Population(c.(freeObjects := count)) == Population(c)
  {
  }

  /** `easy_mem_cache_grow` after its pages have been allocated at `page`. */
  ghost function Grown(m: Mgr, ci: nat, z: Zone, page: nat): Mgr
    requires ci < |m.caches| && m.caches[ci].geo.num > 0
  {
    var c := m.caches[ci];
    var s := GetObj(FreshSlab(ci, c.geo.num));
    m.(zone := MarkSlab(z, page, c.geo), slabs := m.slabs[page := s],
       caches := m.caches[ci := AfterGrow(c, page, s)], out := m.out[page := {0}])
  }

  /** A slab at `page` joins cache `ci`. */
  predicate SlabAdded(m: Mgr, m': Mgr, ci: nat, page: nat) {
    && m'.start == m.start && m'.zone.maxOrder == m.zone.maxOrder
    && ci < |m.caches| && |m'.caches| == |m.caches| && m'.caches == m.caches[ci := m'.caches[ci]]
    && m'.caches[ci].geo == m.caches[ci].geo
    && page !in m.slabs && page in m'.slabs && m'.slabs == m.slabs[page := m'.slabs[page]]
    && m'.slabs[page].cacheIdx == ci
    && page in m'.out && m'.out == m.out[page := m'.out[page]]
  }

  lemma {:induction false} AddSlabMgr(m: Mgr, m': Mgr, ci: nat, page: nat)
    requires MgrOk(m) && SlabAdded(m, m', ci, page) && Inv(m'.zone) && Spares(m.zone, page, m'.zone, page)
    requires SlabPlaced(m', page)
    requires CacheOk(m'.caches[ci]) && ListsOk(m'.caches[ci], ci, m'.slabs)
    ensures MgrOk(m')
  {
    hide Inv, ListsOk, CacheOk, SlabOk, FlagsSet, FlagsSpared, Aligned;
    forall h | h in m'.slabs && h != page ensures SlabPlaced(m', h) {
      assert SlabPlaced(m, h);
      SlabsSpared(m, page, m', h);
    }
    hide SlabPlaced;
    forall cj | 0 <= cj < |m'.caches| ensures CacheOk(m'.caches[cj]) && ListsOk(m'.caches[cj], cj, m'.slabs) {
      if cj != ci {
        assert CacheOk(m.caches[cj]) && ListsOk(m.caches[cj], cj, m.slabs);
        OtherLists(m.caches[cj], cj, m.slabs, m'.slabs, page);
      }
    }
  }

  lemma {:induction false} HandedOutIsNew(m: Mgr, z: Zone, page: nat, order: nat)
    requires MgrOk(m) && Inv(z) && HandedOut(m.zone, z, page, order)
    ensures page !in m.slabs && page !in m.out && order < MAX_ORDER
  {
    BlockFacts(z, page, order);
  }

  lemma {:induction false} GrownIssues(m: Mgr, ci: nat, z: Zone, page: nat)
    requires MgrOk(m) && ci < |m.caches|
    requires Inv(z) && HandedOut(m.zone, z, page, m.caches[ci].geo.order)
    ensures m.caches[ci].geo.num > 0 && Issued(m, Grown(m, ci, z, page), ci, page, 0)
  {
    hide ListsOk, FlagsSet, SlabOk, Inv, Aligned, SlabPlaced;
    var c := m.caches[ci];
    assert CacheOk(c) && ListsOk(c, ci, m.slabs);
    HandedOutIsNew(m, z, page, c.geo.order);
    GrownMgr(m, ci, z, page);
    assert {} + {0} == {0};
    hide MgrOk, MarkSlab;
  }

  lemma {:induction false} GrownMgr(m: Mgr, ci: nat, z: Zone, page: nat)
    requires MgrOk(m) && ci < |m.caches| && page !in m.slabs && GeometryOk(m.caches[ci].geo)
    requires Inv(z) && HandedOut(m.zone, z, page, m.caches[ci].geo.order)
    ensures MgrOk(Grown(m, ci, z, page))
  {
    hide ListsOk, FlagsSet, SlabOk, Inv, Aligned, CacheOk, FlagsSpared;
    var c := m.caches[ci];
    assert CacheOk(c) && ListsOk(c, ci, m.slabs);
    FirstObject(ci, c.geo.num);
    var s := GetObj(FreshSlab(ci, c.geo.num));
    hide FreshSlab, GetObj;
    GrowRelists(c, ci, m.slabs, page, s);
    MarkSlabKeeps(z, page, c.geo);
    var m' := Grown(m, ci, z, page);
    SparesTrans(m.zone, page, z, page, m'.zone, page);
    assert SlabPlaced(m', page);
    hide Spares, SlabPlaced;
    AddSlabMgr(m, m', ci, page);
  }

  lemma {:induction false} HeadHasRoom(m: Mgr, ci: nat)
    requires MgrOk(m) && ci < |m.caches| && (m.caches[ci].partial != [] || m.caches[ci].spare != [])
    ensures var c := m.caches[ci];
            var h := if c.partial != [] then c.partial[0] else c.spare[0];
            h in m.slabs && m.slabs[h].cacheIdx == ci && m.slabs[h].inuse < c.geo.num
  {
    hide Inv, SlabOk, FlagsSet;
    var c := m.caches[ci];
    assert ListsOk(c, ci, m.slabs) && CacheOk(c);
    var h := if c.partial != [] then c.partial[0] else c.spare[0];
    assert h in c.partial || h in c.spare;
    assert SlabPlaced(m, h);
    BlockFacts(m.zone, h, c.geo.order);
  }

  /** Where an allocation takes its object from: the head of the chain of the first partial slab, else
      of the first spare one; only if every slab is full, the first object of a new slab. */
  ghost predicate TakesFrom(m: Mgr, ci: nat, h: nat, i: nat)
    requires ci < |m.caches| && Inv(m.zone)
  {
    var c := m.caches[ci];
    if c.partial != [] then h == c.partial[0] && h in m.slabs && i == m.slabs[h].free
    else if c.spare != [] then h == c.spare[0] && h in m.slabs && i == m.slabs[h].free
    else h !in m.slabs && i == 0 && Alloc(m.zone, c.geo.order).1 == Some(h)
  }

  /** Slab `h` heads the list it is on, so that the next allocation finds it first. */
  predicate Foremost(c: Cache, h: nat) { (c.partial != [] && c.partial[0] == h) || (c.full != [] && c.full[0] == h) }

  /** `addr` is an object that cache `ci` has just issued. */
  ghost predicate IssuedAt(m: Mgr, m': Mgr, ci: nat, addr: int)
    requires ci < |m.caches| && Inv(m.zone)
  {
    exists h: nat, i: nat ::
      && Issued(m, m', ci, h, i) && addr == ObjAddr(m.start, h, m.caches[ci].geo, i)
      && TakesFrom(m, ci, h, i) && Foremost(m'.caches[ci], h)
  }

  lemma {:induction false} ListedIssues(m: Mgr, ci: nat)
    requires MgrOk(m) && ci < |m.caches| && (m.caches[ci].partial != [] || m.caches[ci].spare != [])
    ensures var c := m.caches[ci];
            var h := if c.partial != [] then c.partial[0] else c.spare[0];
            && h in m.slabs && h in m.out && m.slabs[h].free < |m.slabs[h].nextPos|
            && IssuedAt(m, TakeFrom(m, ci, h), ci, ObjAddr(m.start, h, c.geo, m.slabs[h].free))
  {
    hide Inv, ListsOk, SlabOk, FlagsSet, Aligned, CacheOk, SlabPlaced, Issued, Without, ObjAddr;
    var c := m.caches[ci];
    var h := if c.partial != [] then c.partial[0] else c.spare[0];
    HeadHasRoom(m, ci);
    TakeFromIssues(m, ci, h);
    HasOut(m, h);
    hide MgrOk;
    var i := m.slabs[h].free;
    assert TakesFrom(m, ci, h, i) && Foremost(TakeFrom(m, ci, h).caches[ci], h);
    assert Issued(m, TakeFrom(m, ci, h), ci, h, i);
  }

  /** From the first partial slab, else the first spare one. */
  ghost function AllocListed(m: Mgr, ci: nat): (r: (Mgr, Option<int>))
    requires MgrOk(m) && ci < |m.caches| && (m.caches[ci].partial != [] || m.caches[ci].spare != [])
    ensures r.1.Some? && IssuedAt(m, r.0, ci, r.1.value) && r.0.zone == m.zone
  {
    hide IssuedAt, ListsOk, SlabOk, CacheOk, SlabPlaced, GetObj;
    var c := m.caches[ci];
    var h := if c.partial != [] then c.partial[0] else c.spare[0];
    ListedIssues(m, ci);
    (TakeFrom(m, ci, h), Some(ObjAddr(m.start, h, c.geo, m.slabs[h].free)))
  }

  lemma {:induction false} NewIssues(m: Mgr, ci: nat)
    requires MgrOk(m) && ci < |m.caches| && Alloc(m.zone, m.caches[ci].geo.order).1.Some?
    ensures m.caches[ci].geo.num > 0
    ensures var c, r := m.caches[ci], Alloc(m.zone, m.caches[ci].geo.order);
            c.partial == c.spare == [] ==>
              IssuedAt(m, Grown(m, ci, r.0, r.1.value), ci, ObjAddr(m.start, r.1.value, c.geo, 0))
  {
    hide Inv, ListsOk, SlabOk, FlagsSet, Aligned, CacheOk, SlabPlaced, Issued, Without, ObjAddr, HandedOut, CutFrom,
         MarkSlab;
    var c, r := m.caches[ci], Alloc(m.zone, m.caches[ci].geo.order);
    GrownIssues(m, ci, r.0, r.1.value);
    HandedOutIsNew(m, r.0, r.1.value, c.geo.order);
    hide MgrOk, Alloc, GetObj, FreshSlab;
    if c.partial == c.spare == [] {
      var m' := Grown(m, ci, r.0, r.1.value);
      assert TakesFrom(m, ci, r.1.value, 0) && Foremost(m'.caches[ci], r.1.value);
      assert Issued(m, m', ci, r.1.value, 0);
    }
  }

  /** `easy_mem_cache_grow` */
  ghost function AllocNew(m: Mgr, ci: nat): (r: (Mgr, Option<int>))
    requires MgrOk(m) && ci < |m.caches|
    ensures r.1 == None <==> Alloc(m.zone, m.caches[ci].geo.order).1 == None
    ensures r.1 == None ==> r.0 == m
    ensures r.1.Some? && m.caches[ci].partial == m.caches[ci].spare == [] ==> IssuedAt(m, r.0, ci, r.1.value)
  {
    hide IssuedAt, ListsOk, SlabOk, CacheOk, SlabPlaced, HandedOut, CutFrom, Grown;
    var r := Alloc(m.zone, m.caches[ci].geo.order);
    if r.1 == None then (m, None) else
      NewIssues(m, ci);
      (Grown(m, ci, r.0, r.1.value), Some(ObjAddr(m.start, r.1.value, m.caches[ci].geo, 0)))
  }

  /** `easy_mem_cache_alloc`: fails exactly when no slab of the cache has room and the zone has no pages.
      The zone is asked only if no slab has room. */
  ghost function CacheAlloc(m: Mgr, ci: nat): (r: (Mgr, Option<int>))
    requires MgrOk(m) && ci < |m.caches|
    ensures r.1 == None <==>
              m.caches[ci].partial == m.caches[ci].spare == [] && Alloc(m.zone, m.caches[ci].geo.order).1 == None
    ensures r.1 == None ==> r.0 == m
    ensures r.1.Some? ==> IssuedAt(m, r.0, ci, r.1.value)
    ensures m.caches[ci].partial != [] || m.caches[ci].spare != [] ==> r.0.zone == m.zone
  {
    if m.caches[ci].partial != [] || m.caches[ci].spare != [] then AllocListed(m, ci) else AllocNew(m, ci)
  }

  // ---------- freeing an object ----------

  /** The list step of `easy_mem_cache_free` when the slab is kept. */
  function AfterPut(c: Cache, h: nat, s: Slab): Cache {
    var d := DelSlab(c, h);
    if s.inuse == 0 then d.(spare := [h] + d.spare) else d.(partial := d.partial + [h])
  }

  /** The slab is given back to the zone. */
  predicate GivesBack(c: Cache, s: Slab) {
    s.inuse == 0 && c.freeObjects > c.freeLimit
  }

  function AfterDrop(c: Cache, h: nat): Cache {
    DelSlab(c, h).(freeObjects := c.freeObjects - c.geo.num)
  }

  /** `easy_mem_cache_free` for object `i` of slab `h` */
  ghost function FreeObj(m: Mgr, ci: nat, h: nat, i: nat): (m': Mgr)
    requires MgrOk(m) && IsOut(m, h, i) && m.slabs[h].cacheIdx == ci
  {
    assert SlabPlaced(m, h);
    PutObjKeeps(m.slabs[h], m.caches[ci].geo.num, m.out[h], i);
    var c, s := m.caches[ci], PutObj(m.slabs[h], i);
    if GivesBack(c, s) then
      m.(zone := Free(m.zone, h), slabs := m.slabs - {h}, out := m.out - {h}, caches := m.caches[ci := AfterDrop(c, h)])
    else
      m.(slabs := m.slabs[h := s], out := m.out[h := m.out[h] - {i}], caches := m.caches[ci := AfterPut(c, h, s)])
  }

  /** Object `i` of slab `h` alone has come back. */
  ghost predicate Returned(m: Mgr, m': Mgr, h: nat, i: nat) {
    && MgrOk(m') && |m'.caches| == |m.caches| && m'.start == m.start
    && (forall cj | 0 <= cj < |m.caches| :: m'.caches[cj].geo == m.caches[cj].geo)
    && (forall x: nat, j: nat :: IsOut(m', x, j) <==> IsOut(m, x, j) && (x, j) != (h, i))
    && (forall x | x in m'.slabs :: x in m.slabs && m'.slabs[x].cacheIdx == m.slabs[x].cacheIdx)
  }

  /** The slabs of a cache. */
  function SlabsOf(slabs: map<nat, Slab>, ci: nat): set<nat> { set h | h in slabs && slabs[h].cacheIdx == ci }

  function Members(s: seq<nat>): set<nat> { set x | x in s }

  lemma {:induction false} MembersCount(s: seq<nat>)
    requires NoDup(s)
    ensures |Members(s)| == |s|
  {
    if s != [] {
      var init, x := s[..|s| - 1], s[|s| - 1];
      MembersCount(init);
      assert s == init + [x] && x !in init;
      assert Members(s) == Members(init) + {x};
    }
  }

  /** The lists of a cache hold each of its slabs once. */
  lemma {:induction false} PopulationIs(m: Mgr, ci: nat)
    requires MgrOk(m) && ci < |m.caches|
    ensures Population(m.caches[ci]) == |SlabsOf(m.slabs, ci)|
  {
    hide Inv, SlabOk, FlagsSet, Aligned, LiveAt, GeometryOk, ListsOk, SlabPlaced;
    var c := m.caches[ci];
    assert CacheOk(c) && ListsOk(c, ci, m.slabs);
    forall h | h in SlabsOf(m.slabs, ci) ensures m.slabs[h].inuse <= c.geo.num && c.geo.num > 0 { SlabFill(m, h); }
    hide MgrOk, CacheOk;
    MembersCount(c.partial);
    MembersCount(c.full);
    MembersCount(c.spare);
    ListsCover(c, ci, m.slabs);
  }

  /** The three lists share no slab and leave none out. */
  lemma {:induction false} ListsCover(c: Cache, ci: nat, slabs: map<nat, Slab>)
    requires ListsOk(c, ci, slabs)
    requires forall h | h in slabs && slabs[h].cacheIdx == ci :: slabs[h].inuse <= c.geo.num && c.geo.num > 0
    ensures |SlabsOf(slabs, ci)| == |Members(c.partial)| + |Members(c.full)| + |Members(c.spare)|
  {
    var a, b, d := Members(c.partial), Members(c.full), Members(c.spare);
    assert SlabsOf(slabs, ci) == a + b + d;
    assert forall x | x in a :: x !in b && x !in d;
    assert forall x | x in b :: x !in d;
    assert a !! b && a + b !! d;
  }

  lemma {:induction false} SlabFill(m: Mgr, h: nat)
    requires MgrOk(m) && h in m.slabs
    ensures m.slabs[h].cacheIdx < |m.caches| && 0 < GeoOf(m, h).num && m.slabs[h].inuse <= GeoOf(m, h).num
  {
    hide Inv, FlagsSet, Aligned, ListsOk;
    SlabFacts(m, h);
    assert SlabPlaced(m, h);
    GetObjKeeps(m.slabs[h], GeoOf(m, h).num, m.out[h]);
  }

  /** What becomes of the slab of an object that is freed. While other objects of it are out, it goes to
      the end of the partial list. When its last object is freed it is kept as the first spare slab if
      its cache has at most two slabs, and its pages go back to the zone if it has more. A slab that is
      kept will hand this object out next. */
  ghost predicate SlabAfterFree(m: Mgr, m': Mgr, ci: nat, h: nat, i: nat)
    requires ci < |m.caches| && h in m.out
  {
    && |m'.caches| == |m.caches|
    && (h in m'.slabs <==> m.out[h] != {i} || |SlabsOf(m.slabs, ci)| <= 2)
    && (h in m'.slabs ==> m'.zone == m.zone && m'.slabs[h].free == i)
    && (h in m'.slabs && m.out[h] != {i} ==>
      m'.caches[ci].partial != [] && m'.caches[ci].partial[|m'.caches[ci].partial| - 1] == h)
    && (h in m'.slabs && m.out[h] == {i} ==> m'.caches[ci].spare != [] && m'.caches[ci].spare[0] == h)
    && (h !in m'.slabs ==> forall k: nat :: !LiveAt(m'.zone.blocks, h, k))
  }

  lemma {:induction false} FreeObjSlab(m: Mgr, ci: nat, h: nat, i: nat)
    requires MgrOk(m) && IsOut(m, h, i) && m.slabs[h].cacheIdx == ci
    ensures SlabAfterFree(m, FreeObj(m, ci, h, i), ci, h, i)
  {
    hide Inv, ListsOk, SlabOk, FlagsSet, FlagsSpared, Aligned, Without, Disjoint, GeometryOk, SlabsOf;
    var c := m.caches[ci];
    assert CacheOk(c) && ListsOk(c, ci, m.slabs) && SlabPlaced(m, h);
    PopulationIs(m, ci);
    SlabFill(m, h);
    PutRelists(c, ci, m.slabs, h, m.out[h], i);
    EmptiedIs(m.slabs[h], c.geo.num, m.out[h], i);
    MoreThanTwo(c.geo.num, Population(c));
    LiveSlab(m, h);
    hide MgrOk, CacheOk, SlabPlaced, Released;
    if GivesBack(c, PutObj(m.slabs[h], i)) { NotLive(m.zone, h); }
  }

  lemma EmptiedIs(s: Slab, num: nat, out: set<nat>, i: nat)
    requires SlabOk(s, num, out) && i in out && s.inuse > 0 && i < |s.nextPos|
    ensures PutObj(s, i).inuse == 0 <==> out == {i}
    ensures PutObj(s, i).free == i
  {
    PutObjKeeps(s, num, out, i);
    if out == {i} { assert out - {i} == {}; }
    if PutObj(s, i).inuse == 0 { assert |out - {i}| == 0; assert out == (out - {i}) + {i}; }
  }

  lemma MoreThanTwo(num: nat, n: nat)
    requires num > 0
    ensures num * n > 2 * num <==> n > 2
  {
    if n > 2 { MulLe(num, 3, n); } else { MulLe(num, n, 2); }
  }

  lemma LiveSlab(m: Mgr, h: nat)
    requires MgrOk(m) && h in m.slabs
    ensures Inv(m.zone) && h in m.zone.blocks && m.zone.blocks[h].used
  {
    hide Inv, ListsOk, SlabOk, FlagsSet, CacheOk;
    assert SlabPlaced(m, h);
  }

  lemma NotLive(z: Zone, h: nat)
    requires Inv(z) && h in z.blocks && z.blocks[h].used
    ensures forall k: nat :: !LiveAt(Free(z, h).blocks, h, k)
  {
    hide Inv, Free, FlagsSpared;
    assert Released(z, h, Free(z, h));
  }

  lemma {:induction false} PutRelists(c: Cache, ci: nat, slabs: map<nat, Slab>, h: nat, out: set<nat>, i: nat)
    requires CacheOk(c) && ListsOk(c, ci, slabs) && h in slabs && slabs[h].cacheIdx == ci
    requires SlabOk(slabs[h], c.geo.num, out) && i in out && c.geo.num > 0
    ensures slabs[h].inuse > 0 && i < |slabs[h].nextPos|
    ensures var s := PutObj(slabs[h], i);
            && SlabOk(s, c.geo.num, out - {i}) && (s.inuse == 0 ==> out == {i})
            && CacheOk(AfterPut(c, h, s)) && ListsOk(AfterPut(c, h, s), ci, slabs[h := s])
            && CacheOk(AfterDrop(c, h)) && ListsOk(AfterDrop(c, h), ci, slabs - {h})
  {
    PutObjKeeps(slabs[h], c.geo.num, out, i);
    GetObjKeeps(slabs[h], c.geo.num, out);
    var s := PutObj(slabs[h], i);
    assert s.inuse < slabs[h].inuse <= c.geo.num;
    assert s.inuse == 0 ==> out == {i} by {
      if s.inuse == 0 { assert |out - {i}| == 0; assert out == (out - {i}) + {i}; }
    }
    hide CacheOk, ListsOk, Without, SlabOk;
    RelistOk(c, ci, slabs, h, s, true);
    DropRelists(c, ci, slabs, h);
  }

  lemma {:induction false} DropRelists(c: Cache, ci: nat, slabs: map<nat, Slab>, h: nat)
    requires CacheOk(c) && ListsOk(c, ci, slabs) && c.geo.num > 0
    requires h in slabs && slabs[h].cacheIdx == ci && slabs[h].inuse <= c.geo.num
    ensures CacheOk(AfterDrop(c, h)) && ListsOk(AfterDrop(c, h), ci, slabs - {h})
  {
    hide ListsOk, Without, GeometryOk, NoDups;
    DelSlabOk(c, ci, slabs, h);
    var d := DelSlab(c, h);
    ListsIgnoreCount(d, ci, slabs - {h}, c.freeObjects - c.geo.num);
    assert c.geo.num * Population(c) == c.geo.num * Population(d) + c.geo.num;
  }

  /** Slab `h` leaves cache `ci` and its block goes back to the zone. */
  predicate SlabDropped(m: Mgr, m': Mgr, ci: nat, h: nat) {
    && m'.start == m.start
    && ci < |m.caches| && |m'.caches| == |m.caches| && m'.caches == m.caches[ci := m'.caches[ci]]
    && m'.caches[ci].geo == m.caches[ci].geo
    && h in m.slabs && m.slabs[h].cacheIdx == ci
    && m'.slabs == m.slabs - {h} && m'.out == m.out - {h}
  }

  lemma {:induction false} DropSlabMgr(m: Mgr, m': Mgr, ci: nat, h: nat)
    requires MgrOk(m) && SlabDropped(m, m', ci, h) && Inv(m'.zone) && Released(m.zone, h, m'.zone)
    requires CacheOk(m'.caches[ci]) && ListsOk(m'.caches[ci], ci, m'.slabs)
    ensures MgrOk(m')
  {
    hide Inv, ListsOk, CacheOk, SlabOk, FlagsSet, FlagsSpared, Aligned;
    forall x | x in m'.slabs ensures SlabPlaced(m', x) {
      assert SlabPlaced(m, x);
      SlabsSpared(m, h, m', x);
    }
    hide SlabPlaced;
    forall cj | 0 <= cj < |m'.caches| ensures CacheOk(m'.caches[cj]) && ListsOk(m'.caches[cj], cj, m'.slabs) {
      if cj != ci {
        assert CacheOk(m.caches[cj]) && ListsOk(m.caches[cj], cj, m.slabs);
        OtherLists(m.caches[cj], cj, m.slabs, m'.slabs, h);
      }
    }
  }

  /** Freeing an object returns it and nothing else, and keeps the manager's invariant. */
  lemma {:induction false} FreeObjReturns(m: Mgr, ci: nat, h: nat, i: nat)
    requires MgrOk(m) && IsOut(m, h, i) && m.slabs[h].cacheIdx == ci
    ensures Returned(m, FreeObj(m, ci, h, i), h, i)
  {
    hide Inv, ListsOk, CacheOk, SlabOk, FlagsSet, FlagsSpared, Aligned, Without, Disjoint;
    OutFacts(m, h, i);
    hide GeometryOk;
    var c := m.caches[ci];
    assert CacheOk(c) && ListsOk(c, ci, m.slabs) && SlabPlaced(m, h);
    PutRelists(c, ci, m.slabs, h, m.out[h], i);
    hide SlabPlaced, AfterPut, AfterDrop;
    if GivesBack(c, PutObj(m.slabs[h], i)) {
      DropReturns(m, ci, h, i);
    } else {
      KeepReturns(m, ci, h, i);
    }
  }

  lemma {:induction false} DropReturns(m: Mgr, ci: nat, h: nat, i: nat)
    requires MgrOk(m) && IsOut(m, h, i) && m.slabs[h].cacheIdx == ci
    requires m.slabs[h].inuse > 0 && i < |m.slabs[h].nextPos|
    requires GivesBack(m.caches[ci], PutObj(m.slabs[h], i)) && m.out[h] == {i}
    requires CacheOk(AfterDrop(m.caches[ci], h)) && ListsOk(AfterDrop(m.caches[ci], h), ci, m.slabs - {h})
    requires LiveAt(m.zone.blocks, h, m.caches[ci].geo.order)
    ensures Returned(m, FreeObj(m, ci, h, i), h, i)
  {
    hide Inv, ListsOk, CacheOk, SlabOk, FlagsSpared, Aligned, Without, SlabPlaced;
    var m' := FreeObj(m, ci, h, i);
    DropSlabMgr(m, m', ci, h);
    hide MgrOk;
  }

  lemma {:induction false} KeepReturns(m: Mgr, ci: nat, h: nat, i: nat)
    requires MgrOk(m) && IsOut(m, h, i) && m.slabs[h].cacheIdx == ci
    requires m.slabs[h].inuse > 0 && i < |m.slabs[h].nextPos|
    requires !GivesBack(m.caches[ci], PutObj(m.slabs[h], i))
    requires var s := PutObj(m.slabs[h], i);
             && SlabOk(s, m.caches[ci].geo.num, m.out[h] - {i})
             && CacheOk(AfterPut(m.caches[ci], h, s)) && ListsOk(AfterPut(m.caches[ci], h, s), ci, m.slabs[h := s])
    ensures Returned(m, FreeObj(m, ci, h, i), h, i)
  {
    hide Inv, ListsOk, CacheOk, SlabOk, Aligned, Without, SlabPlaced;
    var m' := FreeObj(m, ci, h, i);
    ReplaceSlab(m, m', ci, h);
    hide MgrOk;
  }

  /** `addr` is the address of object `i` of slab `h`, issued by cache `ci`. */
  predicate OutAt(m: Mgr, ci: nat, addr: int, h: nat, i: nat) {
    IsOut(m, h, i) && m.slabs[h].cacheIdx == ci && addr == ObjAddr(m.start, h, GeoOf(m, h), i)
  }

  function IndexAt(start: nat, g: Geo, h: int, addr: int): int {
    if g.bufferSize == 0 then 0 else (addr - (start + PAGE_SIZE * h + g.offset)) / g.bufferSize
  }

  /** Masking and dividing an issued address gives back its slab and index. */
  lemma {:induction false} AddressDecodes(m: Mgr, ci: nat, addr: int, h: nat, i: nat)
    requires MgrOk(m) && OutAt(m, ci, addr, h, i)
    ensures addr >= 0 && SlabAt(m.start, GeoOf(m, h).order, addr) == h && IndexAt(m.start, GeoOf(m, h), h, addr) == i
  {
    hide MgrOk, SlabAt;
    LookupFindsOwner(m, h, i);
    OutFacts(m, h, i);
    var g := GeoOf(m, h);
    hide FlagsSet, Aligned, Pow2, Disjoint;
    DivModUnique(g.bufferSize * i, g.bufferSize, i, 0);
  }

  /** `easy_mem_cache_free` finds the object it is given by masking and dividing its address. */
  ghost function CacheFree(m: Mgr, ci: nat, addr: int): (m': Mgr)
    requires MgrOk(m) && ci < |m.caches| && exists h: nat, i: nat :: OutAt(m, ci, addr, h, i)
    ensures forall h: nat, i: nat | OutAt(m, ci, addr, h, i) ::
              Returned(m, m', h, i) && SlabAfterFree(m, m', ci, h, i)
  {
    assert forall h: nat, i: nat | OutAt(m, ci, addr, h, i) ::
        && SlabAt(m.start, m.caches[ci].geo.order, addr) == h
        && IndexAt(m.start, m.caches[ci].geo, h, addr) == i by {
      forall h: nat, i: nat | OutAt(m, ci, addr, h, i) { AddressDecodes(m, ci, addr, h, i); }
    }
    var h := SlabAt(m.start, m.caches[ci].geo.order, addr);
    var i := IndexAt(m.start, m.caches[ci].geo, h, addr);
    FreeObjReturns(m, ci, h, i);
    FreeObjSlab(m, ci, h, i);
    FreeObj(m, ci, h, i)
  }

  // ---------- facts the updating code relies on ----------

  lemma {:induction false} HasOut(m: Mgr, h: nat)
    requires MgrOk(m) && h in m.slabs
    ensures h in m.out
  {
  }

  lemma {:induction false} OutIndex(m: Mgr, h: nat, i: nat)
    requires MgrOk(m) && IsOut(m, h, i)
    ensures i < |m.slabs[h].nextPos| && m.slabs[h].inuse > 0 && h in m.zone.blocks
  {
    assert SlabPlaced(m, h);
    PutObjKeeps(m.slabs[h], m.caches[m.slabs[h].cacheIdx].geo.num, m.out[h], i);
  }

  lemma {:induction false} GrowGeometry(m: Mgr, ci: nat, z: Zone, page: nat)
    requires MgrOk(m) && ci < |m.caches| && Inv(z) && HandedOut(m.zone, z, page, m.caches[ci].geo.order)
    ensures GeometryOk(m.caches[ci].geo)
  {
    BlockFacts(z, page, m.caches[ci].geo.order);
    assert CacheOk(m.caches[ci]);
  }

  // ---------- runs ----------

  function NewCache(bufferSize: nat): Cache
    requires bufferSize > 0
  {
    var g := CacheGeo(bufferSize);
    Cache(g, 0, 2 * g.num, [], [], [])
  }

  /** `easy_mem_cache_create`, while there is room for another cache */
  function CreateCache(m: Mgr, bufferSize: nat): Mgr
    requires bufferSize > 0
  {
    if |m.caches| < m.cacheMax then m.(caches := m.caches + [NewCache(bufferSize)]) else m
  }

  lemma {:induction false} AddCacheKeeps(m: Mgr, bufferSize: nat)
    requires MgrOk(m) && bufferSize > 0
    ensures MgrOk(m.(caches := m.caches + [NewCache(bufferSize)]))
  {
    hide Inv, SlabOk, FlagsSet, Aligned, CacheGeo, GeometryOk;
    SearchGeometryOk(bufferSize);
    var m', n := m.(caches := m.caches + [NewCache(bufferSize)]), |m.caches|;
    assert CacheOk(m'.caches[n]);
    forall h | h in m'.slabs ensures SlabPlaced(m', h) && m'.slabs[h].cacheIdx < n {
      assert SlabPlaced(m, h);
    }
    hide SlabPlaced;
    assert ListsOk(m'.caches[n], n, m'.slabs);
    hide CacheOk, ListsOk;
    forall cj | 0 <= cj < n ensures CacheOk(m'.caches[cj]) && ListsOk(m'.caches[cj], cj, m'.slabs) {
      assert CacheOk(m.caches[cj]) && ListsOk(m.caches[cj], cj, m.slabs);
    }
  }

  lemma {:induction false} CreateCacheKeeps(m: Mgr, bufferSize: nat)
    requires MgrOk(m) && bufferSize > 0
    ensures MgrOk(CreateCache(m, bufferSize))
  {
    hide MgrOk, NewCache;
    AddCacheKeeps(m, bufferSize);
  }

  /** Blocks allocated and freed by others leave every slab alone. */
  lemma {:induction false} ZoneChangeKeeps(m: Mgr, z: Zone, page: nat)
    requires MgrOk(m) && Inv(z) && z.maxOrder == m.zone.maxOrder && page !in m.slabs
    requires FlagsSpared(m.zone, page, z)
    requires forall i: nat, k: nat | LiveAt(m.zone.blocks, i, k) && i != page :: LiveAt(z.blocks, i, k)
    ensures MgrOk(m.(zone := z))
  {
    hide Inv, SlabOk, FlagsSet, Aligned, CacheOk, ListsOk, FlagsSpared;
    var m' := m.(zone := z);
    forall h | h in m'.slabs ensures SlabPlaced(m', h) {
      assert SlabPlaced(m, h);
      SlabsSpared(m, page, m', h);
    }
  }

  datatype MgrOp =
    | Create(bufferSize: nat)
    | AllocObject(cache: nat)
    | FreeObject(addr: int)
    | AllocBlock(order: nat)
    | FreeBlock(page: nat)

  /** One operation by a client that frees only what it holds; anything else is not issued.
      An object is freed through the cache that the lookup finds for its address. */
  ghost function MgrStep(m: Mgr, op: MgrOp): (m': Mgr)
    requires MgrOk(m)
    ensures MgrOk(m')
  {
    match op
    case Create(size) => if size == 0 then m else CreateCacheKeeps(m, size); CreateCache(m, size)
    case AllocObject(ci) => if ci >= |m.caches| then m else CacheAlloc(m, ci).0
    case FreeObject(addr) =>
      if exists ci: nat, h: nat, i: nat :: OutAt(m, ci, addr, h, i) then FreeAddress(m, addr) else m
    case AllocBlock(order) =>
      var r := Alloc(m.zone, order);
      if r.1 == None then m else
        HandedOutIsNew(m, r.0, r.1.value, order);
        ZoneChangeKeeps(m, r.0, r.1.value);
        m.(zone := r.0)
    case FreeBlock(page) =>
      if page in m.slabs || page !in m.zone.blocks || !m.zone.blocks[page].used then m else
        ZoneChangeKeeps(m, Free(m.zone, page), page);
        m.(zone := Free(m.zone, page))
  }

  /** `easy_mem_slab_realloc(ptr, 0)`: look the cache up, then free through it. */
  ghost function FreeAddress(m: Mgr, addr: int): (m': Mgr)
    requires MgrOk(m) && exists ci: nat, h: nat, i: nat :: OutAt(m, ci, addr, h, i)
    ensures MgrOk(m')
    ensures forall ci: nat, h: nat, i: nat | OutAt(m, ci, addr, h, i) :: Returned(m, m', h, i)
  {
    assert forall ci: nat, h: nat, i: nat | OutAt(m, ci, addr, h, i) ::
        && m.start <= addr && (addr - m.start) / PAGE_SIZE < |m.zone.flags|
        && OwnerOf(m, addr) == Some(ci) by {
      forall ci: nat, h: nat, i: nat | OutAt(m, ci, addr, h, i) { LookupFindsOwner(m, h, i); }
    }
    var ci := OwnerOf(m, addr).value;
    CacheFree(m, ci, addr)
  }

  ghost function MgrRun(m: Mgr, ops: seq<MgrOp>): (m': Mgr)
    requires MgrOk(m)
    ensures MgrOk(m')
  {
    if ops == [] then m else MgrStep(MgrRun(m, ops[..|ops| - 1]), ops[|ops| - 1])
  }

  /** In every state that any run reaches, each object in a client's hands is found again by its
      address, slab and cache, and shares no byte with any other nor with the header or index array
      of any slab. */
  lemma {:induction false} RunKeepsObjects(m0: Mgr, ops: seq<MgrOp>, h: nat, i: nat, h': nat, i': nat)
    requires MgrOk(m0) && IsOut(MgrRun(m0, ops), h, i) && h' in MgrRun(m0, ops).slabs
    ensures MgrRun(m0, ops).slabs[h'].cacheIdx < |MgrRun(m0, ops).caches|
    ensures var m := MgrRun(m0, ops);
            var g, g' := GeoOf(m, h), GeoOf(m, h');
            var a, a' := ObjAddr(m.start, h, g, i), ObjAddr(m.start, h', g', i');
            var hdr' := m.start + PAGE_SIZE * h';
            && m.start <= a && (a - m.start) / PAGE_SIZE < |m.zone.flags|
            && SlabAt(m.start, g.order, a) == h && OwnerOf(m, a) == Some(m.slabs[h].cacheIdx)
            && (IsOut(m, h', i') && (h, i) != (h', i') ==> a + g.bufferSize <= a' || a' + g'.bufferSize <= a)
            && (a + g.bufferSize <= hdr' || hdr' + SLAB_HEADER + 2 * g'.num <= a)
  {
    hide MgrOk, MgrRun;
    LookupFindsOwner(MgrRun(m0, ops), h, i);
    ObjectsDisjoint(MgrRun(m0, ops), h, i, h', i');
  }

  /** Object `i` of slab `h` is in a client's hands before and after, from the same cache and at
      the same address. */
  predicate StillOut(m: Mgr, m': Mgr, h: nat, i: nat)
    requires IsOut(m, h, i)
  {
    && IsOut(m', h, i) && m'.start == m.start
    && m'.slabs[h].cacheIdx == m.slabs[h].cacheIdx && GeoOf(m', h) == GeoOf(m, h)
  }

  function AddrOf(m: Mgr, h: nat, i: nat): int
    requires IsOut(m, h, i)
  {
    ObjAddr(m.start, h, GeoOf(m, h), i)
  }

  lemma IssueKeepsHeld(m: Mgr, m': Mgr, ci: nat, h: nat, i: nat)
    requires IsOut(m, h, i) && exists x: nat, j: nat :: Issued(m, m', ci, x, j)
    ensures StillOut(m, m', h, i)
  {
    hide MgrOk, ObjAddr;
    var x: nat, j: nat :| Issued(m, m', ci, x, j);
  }

  lemma {:induction false} StepKeepsHeld(m: Mgr, op: MgrOp, h: nat, i: nat)
    requires MgrOk(m) && IsOut(m, h, i) && op != FreeObject(AddrOf(m, h, i))
    ensures StillOut(m, MgrStep(m, op), h, i)
  {
    hide MgrOk, CacheAlloc, FreeAddress, ObjAddr;
    var m' := MgrStep(m, op);
    match op
    case AllocObject(ci) => if ci < |m.caches| && CacheAlloc(m, ci).1.Some? { IssueKeepsHeld(m, m', ci, h, i); }
    case FreeObject(addr) =>
      if ci: nat, x: nat, j: nat :| OutAt(m, ci, addr, x, j) {
        assert Returned(m, m', x, j);
        assert (x, j) != (h, i);
        assert IsOut(m', h, i);
      }
    case _ =>
  }

  /** Through any run, an object stays in the client's hands, in the same cache and at the same
      address, until that address is freed. */
  lemma {:induction false} HeldUntilFreed(m: Mgr, ops: seq<MgrOp>, h: nat, i: nat)
    requires MgrOk(m) && IsOut(m, h, i) && FreeObject(AddrOf(m, h, i)) !in ops
    ensures StillOut(m, MgrRun(m, ops), h, i)
  {
    if ops != [] {
      var init, op := ops[..|ops| - 1], ops[|ops| - 1];
      HeldUntilFreed(m, init, h, i);
      hide MgrOk, MgrStep;
      StepKeepsHeld(MgrRun(m, init), op, h, i);
    }
  }
}
