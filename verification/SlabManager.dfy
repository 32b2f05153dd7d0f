/** The slab caches as libeasy keeps them, updated in place over a page allocator.  Every method
    is proved equal to its function on managers in `SlabCache`. */
module SlabManager {
  import opened Common
  import opened Bits
  import opened PageZone
  import opened PageAllocator
  import S = SlabCache
  import opened SlabCache

  /** The order search of `easy_mem_cache_create`. */
  method ComputeGeometry(bufferSize: nat) returns (g: Geo)
    requires bufferSize > 0
    ensures g == CacheGeo(bufferSize)
  {
    hide ObjectsAt, Pow2;
    var order, size, num := 0, 0, 0;
    while true
      invariant order <= MAX_ORDER && SearchOrder(bufferSize, order) == SearchOrder(bufferSize, 0)
      decreases MAX_ORDER - order
    {
      size := PAGE_SIZE * Pow2(order);
      num := ObjectsAt(bufferSize, order);
      var leftOver := size - num * bufferSize - SLAB_HEADER;
      if leftOver * 4 <= size || order == MAX_ORDER { break; }
      order := order + 1;
    }
    g := Geo(order, bufferSize, num, size - num * bufferSize);
  }

  /** The index array of a new slab. */
  method LinkIndices(num: nat) returns (next: seq<nat>)
    requires num > 0
    ensures next == FreshIndex(num)
  {
    next := [];
    for i := 0 to num
      invariant |next| == i && forall j | 0 <= j < i :: next[j] == j + 1
    {
      next := next + [i + 1];
    }
    next := next[num - 1 := POS_END];
  }

  class Manager {
    const zone: Allocator
    const cacheMax: nat
    var caches: seq<Cache>
    var slabs: map<nat, Slab>
    ghost var out: map<nat, set<nat>>

    ghost function View(): Mgr
      reads this, zone, zone.flags
    {
      Mgr(zone.memStart, cacheMax, zone.View(), caches, slabs, out)
    }

    ghost predicate Valid()
      reads this, zone, zone.flags
    {
      MgrOk(View())
    }

    lemma ZoneIsValid()
      requires Valid()
      ensures zone.Valid()
    {
    }

    constructor (z: Allocator, cacheMax: nat)
      requires z.Valid()
      ensures Valid() && zone == z && this.cacheMax == cacheMax && caches == [] && slabs == map[]
    {
      zone, caches, slabs, out := z, [], map[], map[];
      this.cacheMax := cacheMax;
    }

    /** `easy_mem_cache_create`: the index of the new cache, or none if there are too many. */
    method CreateCache(bufferSize: nat) returns (ci: Option<nat>)
      requires Valid() && bufferSize > 0
      modifies this`caches
      ensures Valid() && View() == S.CreateCache(old(View()), bufferSize)
      ensures ci == if |old(caches)| < cacheMax then Some(|old(caches)|) else None
      ensures old(caches) <= caches &&
              (ci.Some? ==> |caches| == ci.value + 1 && caches[ci.value] == NewCache(bufferSize))
    {
      hide MgrOk, CacheGeo;
      CreateCacheKeeps(View(), bufferSize);
      ci := None;
      if |caches| < cacheMax {
        ci := Some(|caches|);
        var g := ComputeGeometry(bufferSize);
        caches := caches + [Cache(g, 0, 2 * g.num, [], [], [])];
      }
    }

    /** The flag writes of `easy_mem_cache_grow`. */
    method MarkFlags(h: nat, g: Geo)
      requires zone.Valid() && LiveAt(zone.blocks, h, g.order) && GeometryOk(g)
      modifies zone.flags
      ensures zone.View() == MarkSlab(old(zone.View()), h, g)
    {
      BlockFacts(zone.View(), h, g.order);
      hide Inv, Aligned;
      if g.bufferSize > PAGE_SIZE {
        MarkObjectPages(h, g);
      } else {
        MarkBlockPages(h, g);
      }
      assert zone.flags[..] == MarkSlab(old(zone.View()), h, g).flags;
    }

    /** Large objects: the page in which each one starts. */
    method MarkObjectPages(h: nat, g: Geo)
      requires GeometryOk(g) && h + Pow2(g.order) <= zone.flags.Length
      modifies zone.flags
      ensures forall p | 0 <= p < zone.flags.Length ::
                zone.flags[p] ==
                  if exists j :: 0 <= j < g.num && ObjPage(h, g, j) == p then USED + g.order else old(zone.flags[p])
    {
      for i := 0 to g.num
        invariant forall p | 0 <= p < zone.flags.Length ::
          zone.flags[p] ==
            if exists j :: 0 <= j < i && ObjPage(h, g, j) == p then USED + g.order else old(zone.flags[p])
      {
        ObjPageInside(h, g, i);
        hide ObjPage, GeometryOk;
        zone.flags[ObjPage(h, g, i)] := USED + g.order;
      }
    }

    /** Small objects: every page of the block. */
    method MarkBlockPages(h: nat, g: Geo)
      requires h + Pow2(g.order) <= zone.flags.Length
      modifies zone.flags
      ensures forall p | 0 <= p < zone.flags.Length ::
                zone.flags[p] == if h <= p < h + Pow2(g.order) then USED + g.order else old(zone.flags[p])
    {
      for i := 0 to Pow2(g.order)
        invariant forall p | 0 <= p < zone.flags.Length ::
          zone.flags[p] == if h <= p < h + i then USED + g.order else old(zone.flags[p])
      {
        zone.flags[h + i] := USED + g.order;
      }
    }

    /** `easy_mem_slab_get_obj` on the slab headed by page `h`. */
    method GetObject(h: nat) returns (i: nat)
      requires h in slabs && h in out && slabs[h].free < |slabs[h].nextPos|
      modifies this`slabs, this`out
      ensures i == old(slabs[h].free)
      ensures slabs == old(slabs)[h := GetObj(old(slabs)[h])] && out == old(out)[h := old(out)[h] + {i}]
    {
      var s := slabs[h];
      i := s.free;
      slabs := slabs[h := s.(inuse := s.inuse + 1, free := s.nextPos[s.free])];
      out := out[h := out[h] + {i}];
    }

    /** The new slab at page `h`, its first object handed out, joins the lists of its cache. */
    method InstallSlab(ci: nat, h: nat) returns (i: nat)
      requires ci < |caches| && caches[ci].geo.num > 0
      modifies this`caches, this`slabs, this`out
      ensures i == 0
      ensures var s := GetObj(FreshSlab(ci, old(caches)[ci].geo.num));
              && slabs == old(slabs)[h := s] && out == old(out)[h := {0}]
              && caches == old(caches)[ci := AfterGrow(old(caches)[ci], h, s)]
    {
      var c := caches[ci];
      var next := LinkIndices(c.geo.num);
      slabs := slabs[h := Slab(ci, 0, 0, next)];
      out := out[h := {}];
      i := GetObject(h);
      assert {} + {0} == {0};
      c := c.(freeObjects := c.freeObjects + c.geo.num);
      if slabs[h].free == POS_END {
        c := c.(full := [h] + c.full);
      } else {
        c := c.(partial := [h] + c.partial);
      }
      caches := caches[ci := c];
    }

    method CacheGrow(ci: nat) returns (obj: Option<int>)
      requires Valid() && ci < |caches|
      modifies this`caches, this`slabs, this`out, zone, zone.flags
      ensures Valid() && (View(), obj) == AllocNew(old(View()), ci)
    {
      hide MgrOk, Inv, Aligned, Alloc, Spares, GeometryOk, FreshSlab, GetObj, AfterGrow;
      ghost var m := View();
      ZoneIsValid();
      var g := caches[ci].geo;
      var page := zone.AllocPages(g.order);
      if page == None { return None; }
      var h := page.value;
      ghost var z := zone.View();
      GrownIssues(m, ci, z, h);
      GrowGeometry(m, ci, z, h);
      MarkFlags(h, g);
      hide MarkSlab;
      var i := InstallSlab(ci, h);
      assert View() == Grown(m, ci, z, h);
      obj := Some(zone.memStart + PAGE_SIZE * h + g.offset + g.bufferSize * i);
    }

    /** The list step after an object was taken from a slab. */
    method RelistTaken(ci: nat, h: nat)
      requires ci < |caches| && h in slabs
      modifies this`caches
      ensures caches == old(caches)[ci := AfterGet(old(caches)[ci], h, slabs[h])]
    {
      var c := caches[ci];
      c := c.(partial := Without(c.partial, h), full := Without(c.full, h), spare := Without(c.spare, h));
      if slabs[h].free == POS_END {
        c := c.(full := [h] + c.full);
      } else {
        c := c.(partial := [h] + c.partial);
      }
      caches := caches[ci := c];
    }

    method CacheAlloc(ci: nat) returns (obj: Option<int>)
      requires Valid() && ci < |caches|
      modifies this`caches, this`slabs, this`out, zone, zone.flags
      ensures Valid() && (View(), obj) == S.CacheAlloc(old(View()), ci)
    {
      hide MgrOk, Inv, Aligned, Alloc, AfterGet, GetObj;
      ghost var m := View();
      var c := caches[ci];
      if c.partial == [] && c.spare == [] {
        obj := CacheGrow(ci);
        return;
      }
      var h := if c.partial != [] then c.partial[0] else c.spare[0];
      HeadHasRoom(m, ci);
      TakeFromIssues(m, ci, h);
      HasOut(m, h);
      var i := GetObject(h);
      RelistTaken(ci, h);
      assert View() == TakeFrom(m, ci, h);
      obj := Some(zone.memStart + PAGE_SIZE * h + c.geo.offset + c.geo.bufferSize * i);
    }

    /** The object goes back on the chain of its slab, and the slab to the right list. */
    method PutObject(ci: nat, h: nat, i: nat)
      requires ci < |caches| && h in slabs && h in out && i < |slabs[h].nextPos| && slabs[h].inuse > 0
      requires !GivesBack(caches[ci], PutObj(slabs[h], i))
      modifies this`caches, this`slabs, this`out
      ensures var s := PutObj(old(slabs)[h], i);
              && slabs == old(slabs)[h := s] && out == old(out)[h := old(out)[h] - {i}]
              && caches == old(caches)[ci := AfterPut(old(caches)[ci], h, s)]
    {
      var c, s := caches[ci], slabs[h];
      s := s.(nextPos := s.nextPos[i := s.free], free := i, inuse := s.inuse - 1);
      c := c.(partial := Without(c.partial, h), full := Without(c.full, h), spare := Without(c.spare, h));
      if s.inuse == 0 {
        c := c.(spare := [h] + c.spare);
      } else {
        c := c.(partial := c.partial + [h]);
      }
      caches, slabs, out := caches[ci := c], slabs[h := s], out[h := out[h] - {i}];
    }

    /** The slab leaves its cache. */
    method DropSlab(ci: nat, h: nat)
      requires ci < |caches| && h in slabs
      modifies this`caches, this`slabs, this`out
      ensures slabs == old(slabs) - {h} && out == old(out) - {h}
      ensures caches == old(caches)[ci := AfterDrop(old(caches)[ci], h)]
    {
      var c := caches[ci];
      c := c.(partial := Without(c.partial, h), full := Without(c.full, h), spare := Without(c.spare, h));
      c := c.(freeObjects := c.freeObjects - c.geo.num);
      caches, slabs, out := caches[ci := c], slabs - {h}, out - {h};
    }

    /** `easy_mem_cache_free`, for an address that this cache has issued. */
    method CacheFree(ci: nat, addr: int)
      requires Valid() && ci < |caches| && exists h: nat, i: nat :: OutAt(View(), ci, addr, h, i)
      modifies this`caches, this`slabs, this`out, zone, zone.flags
      ensures Valid() && View() == S.CacheFree(old(View()), ci, addr)
    {
      hide MgrOk, Inv, Aligned, SlabAt, IndexAt, AfterPut, AfterDrop, Free;
      ghost var m := View();
      ghost var h0: nat, i0: nat :| OutAt(m, ci, addr, h0, i0);
      ZoneIsValid();
      AddressDecodes(m, ci, addr, h0, i0);
      FreeObjReturns(m, ci, h0, i0);
      OutIndex(m, h0, i0);
      var c := caches[ci];
      var h := SlabAt(zone.memStart, c.geo.order, addr);
      var i := IndexAt(zone.memStart, c.geo, h, addr);
      if slabs[h].inuse == 1 && c.freeObjects > c.freeLimit {
        DropSlab(ci, h);
        FreeBlockAt(h);
      } else {
        PutObject(ci, h, i);
      }
      assert View() == FreeObj(m, ci, h, i);
    }

    method FreeBlockAt(h: nat)
      requires zone.Valid() && h in zone.blocks
      modifies zone, zone.flags
      ensures zone.View() == Free(old(zone.View()), h)
    {
      assert h + 1 <= zone.last;
      hide Inv, Aligned, Free;
      zone.FreePages(zone.memStart + PAGE_SIZE * h);
    }
  }
}
