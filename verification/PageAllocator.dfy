/** The zone as libeasy keeps it: free lists, counters and the flag array, updated in place.
    Every method is proved equal to its function on zones in `PageZone`. */
module PageAllocator {
  import opened Common
  import opened Bits
  import Z = PageZone
  import opened PageZone

  const ZONE_STRUCT_SIZE: nat := 336

  /** `easy_align` for a power of two. */
  function AlignUp(x: nat, a: nat): (r: nat)
    requires a > 0
    ensures x <= r < x + a && r % a == 0
  {
    var y := x + (a - 1);
    DivModUnique(y - y % a, a, y / a, 0);
    y - y % a
  }

  lemma {:induction false} OrderBound(order: nat)
    requires Pow2(order) < 0x10000
    ensures order < 16 && Pow2(order) <= 0x8000
    ensures order >= 11 ==> Pow2(order) >= 0x800
    ensures order <= 11 ==> Pow2(order) <= 0x800
    ensures Pow2(11) == 0x800
  {
    assert Pow2(16) == 0x10000 && Pow2(15) == 0x8000 && Pow2(11) == 0x800;
    hide Pow2;
    if order >= 16 { Pow2Mono(16, order); }
    if order <= 15 { Pow2Mono(order, 15); }
    if order >= 11 { Pow2Mono(11, order); }
    if order <= 11 { Pow2Mono(order, 11); }
  }

  lemma {:induction false} PowerAligned(order: nat, k: nat)
    requires k <= order
    ensures Aligned(Pow2(order), k)
  {
    hide Pow2, Aligned;
    if k == 0 {
      LowestBit(Pow2(order));
    } else {
      PowerAligned(order - 1, k - 1);
      Doubled(Pow2(order - 1), k - 1);
      Pow2Next(order - 1);
    }
  }

  lemma {:induction false} StartAligned(memptr: nat, maxOrder: nat, start: nat)
    requires memptr % PAGE_SIZE == 0 && start % (PAGE_SIZE * Pow2(maxOrder)) == 0
    requires start < memptr + PAGE_SIZE + PAGE_SIZE * Pow2(maxOrder)
    ensures Aligned(start, PAGE_SHIFT + maxOrder) && start <= memptr + PAGE_SIZE * Pow2(maxOrder)
  {
    hide Aligned, Pow2;
    Pow2Of16(maxOrder);
    AlignedIsMultiple(start, PAGE_SHIFT + maxOrder);
    MultipleOfPages(start, Pow2(maxOrder));
  }

  lemma {:induction false} MultipleOfPages(x: nat, a: nat)
    requires a > 0 && x % (PAGE_SIZE * a) == 0
    ensures x % PAGE_SIZE == 0
  {
    var m := x / (PAGE_SIZE * a);
    assert x == (PAGE_SIZE * a) * m == PAGE_SIZE * (a * m);
  }

  /** The size computation of `easy_mem_zone_create`: the zone has the least power of two of
      pages that holds `maxSize`, starts behind its own header and flag bytes on a multiple of its
      largest block, and ends inside the memory that was requested.  A zone is documented to hold
      at most 2G. */
  method ZoneGeometry(maxSize: int, memptr: nat) returns (pages: nat, maxOrder: nat, memStart: nat)
    requires memptr % PAGE_SIZE == 0 && maxSize <= 0x8000_0000
    ensures maxOrder < MAX_ORDER && Aligned(pages, maxOrder)
    ensures maxSize <= PAGE_SIZE * pages && (pages == 1 || PAGE_SIZE * pages < 2 * maxSize)
    ensures memptr + ZONE_STRUCT_SIZE + pages <= memStart <= memptr + PAGE_SIZE * Pow2(maxOrder)
    ensures Aligned(memStart, PAGE_SHIFT + maxOrder)
  {
    hide Pow2, Aligned;
    Pow2Next(0);
    var order, size := 0, PAGE_SIZE;
    while size < maxSize
      invariant size == PAGE_SIZE * Pow2(order)
      invariant order > 0 ==> size < 2 * maxSize
    {
      Pow2Next(order);
      size := size * 2;
      order := order + 1;
    }
    OrderBound(order);
    pages := size / PAGE_SIZE;
    var pos := pages + ZONE_STRUCT_SIZE;
    var pageSize := AlignUp(pos, PAGE_SIZE);
    var asize := Pow2(MAX_ORDER + PAGE_SHIFT - 1);
    asize := if asize < size then asize else size;
    asize := if pageSize > asize then pageSize else asize;
    maxOrder := if order >= MAX_ORDER then MAX_ORDER - 1 else order;
    Pow2Of16(11);
    PowerAligned(order, maxOrder);
    assert pageSize == PAGE_SIZE && asize == PAGE_SIZE * Pow2(maxOrder);
    memStart := AlignUp(memptr + pageSize, asize);
    StartAligned(memptr, maxOrder, memStart);
  }

  class Allocator {
    const memStart: nat
    const maxOrder: nat
    const end: nat
    const flags: array<nat>
    var last: nat
    var free: Lists
    var nrFree: seq<int>
    var freePages: int
    ghost var blocks: Blocks

    ghost function View(): Zone
      reads this, flags
    {
      Zone(maxOrder, last, end, free, nrFree, freePages, flags[..], blocks)
    }

    /** The zone starts on a multiple of its largest block. */
    ghost predicate Valid()
      reads this, flags
    {
      Inv(View()) && Aligned(memStart, PAGE_SHIFT + maxOrder)
    }

    /** `easy_mem_zone_create` on memory that `memalign` returned at `memptr`; the flag bytes are
        not initialised. */
    constructor (maxSize: int, memptr: nat)
      requires memptr % PAGE_SIZE == 0 && maxSize <= 0x8000_0000
      ensures Valid() && Created(View()) && fresh(flags)
      ensures maxSize <= PAGE_SIZE * end && (end == 1 || PAGE_SIZE * end < 2 * maxSize)
      ensures memptr + ZONE_STRUCT_SIZE + end <= memStart <= memptr + PAGE_SIZE * Pow2(maxOrder)
    {
      var pages, top, start := ZoneGeometry(maxSize, memptr);
      maxOrder, memStart, last, end, freePages := top, start, 0, pages, 0;
      flags := new nat[pages];
      free := seq(top + 1, _ => []);
      nrFree := seq(top + 1, _ => 0);
      blocks := map[];
      new;
      hide Tiling, Listed, Flagged, FreeSum, Aligned;
      CreatedInv(View());
    }

    method SplitOnce(page: nat, h: nat)
      requires Transit(View(), page, h + 1)
      modifies this`free, this`nrFree, this`blocks, flags
      ensures View() == Split(old(View()), page, h + 1)
    {
      hide Tiling, Listed, Flagged, Aligned;
      var newPage := page + Pow2(h);
      free := free[h := [newPage] + free[h]];
      nrFree := nrFree[h := nrFree[h] + 1];
      flags[newPage] := h % 16;
      blocks := SplitBlocks(blocks, page, h);
    }

    method Expand(page: nat, low: nat, high: nat)
      requires low <= high && Transit(View(), page, high)
      modifies this`free, this`nrFree, this`blocks, flags
      ensures View() == Z.Expand(old(View()), page, low, high)
    {
      hide Tiling, Listed, Flagged, Spares, FreeSum, Aligned, Split;
      var h := high;
      while h > low
        invariant low <= h <= high && Transit(View(), page, h)
        invariant Z.Expand(View(), page, low, h) == Z.Expand(old(View()), page, low, high)
      {
        SplitKeeps(View(), page, h);
        h := h - 1;
        SplitOnce(page, h);
      }
    }

    method TakeHead(order: nat, n: nat) returns (head: nat)
      requires n < |free| == |nrFree| && free[n] != []
      modifies this`free, this`nrFree, this`freePages, this`blocks
      ensures head == old(free[n][0])
      ensures View() == Take(old(View()), n).(freePages := old(freePages) - Pow2(order))
    {
      head := free[n][0];
      free := free[n := free[n][1..]];
      nrFree := nrFree[n := nrFree[n] - 1];
      freePages := freePages - Pow2(order);
      blocks := blocks[head := Block(n, true)];
    }

    method GrabHead(order: nat, n: nat, ghost grown: bool) returns (head: nat)
      requires Searchable(View(), order, grown) && order <= n <= maxOrder && free[n] != []
      modifies this`free, this`nrFree, this`freePages, this`blocks, flags
      ensures head == old(free[n][0]) && View() == Grabbed(old(View()), order, n, grown)
    {
      hide Tiling, Listed, Flagged, Spares, FreeSum, Aligned, Z.Expand;
      ghost var z := View();
      TakeKeeps(z, n, if grown then {z.free[n][0]} else {});
      head := TakeHead(order, n);
      Expand(head, order, n);
      assert View() == Carved(z, order, n, grown);
      flags[head] := USED + order;
    }

    method RmQueue(order: nat, ghost grown: bool) returns (page: Option<nat>)
      requires Searchable(View(), order, grown) && order <= maxOrder
      modifies this`free, this`nrFree, this`freePages, this`blocks, flags
      ensures (View(), page) == Z.RmQueue(old(View()), order, order, grown)
    {
      hide Tiling, Listed, Flagged, Spares, FreeSum, Aligned, Allocated, Grabbed;
      var n := order;
      while n <= maxOrder
        invariant order <= n <= maxOrder + 1 && View() == old(View())
        invariant Z.RmQueue(View(), order, n, grown) == Z.RmQueue(View(), order, order, grown)
      {
        if free[n] != [] {
          var head := GrabHead(order, n, grown);
          return Some(head);
        }
        n := n + 1;
      }
      return None;
    }

    /** The result and the new zone are those of `PageZone.Alloc`. */
    method AllocPages(order: nat) returns (page: Option<nat>)
      requires Valid()
      modifies this, flags
      ensures Valid()
      ensures (View(), page) == Z.Alloc(old(View()), order)
    {
      hide Tiling, Listed, Flagged, Spares, FreeSum, Aligned, Z.RmQueue;
      if order > maxOrder { return None; }
      EnoughPages(View(), order);
      if freePages >= Pow2(order) {
        page := RmQueue(order, false);
        if page.Some? { return; }
      }
      if last < end {
        ExtendKeeps(View(), order);
        ExtendZone();
        page := RmQueue(order, true);
        return;
      }
      return None;
    }

    /** The next block of the largest order comes into play. */
    method ExtendZone()
      requires |free| == |nrFree| == maxOrder + 1
      modifies this`free, this`nrFree, this`blocks, this`last, this`freePages
      ensures View() == Extend(old(View()))
    {
      free := free[maxOrder := [last] + free[maxOrder]];
      nrFree := nrFree[maxOrder := nrFree[maxOrder] + 1];
      blocks := blocks[last := Block(maxOrder, false)];
      last := last + Pow2(maxOrder);
      freePages := freePages + Pow2(maxOrder);
    }

    method JoinOnce(page: nat, k: nat)
      requires Transit(View(), page, k) && k < maxOrder && FlipBit(page, k) < flags.Length
      modifies this`free, this`nrFree, this`blocks, flags
      ensures View() == Join(old(View()), page, k)
    {
      hide Tiling, Listed, Flagged, Aligned, FlipBit, ClearBit, Without;
      var bud := FlipBit(page, k);
      free := free[k := Without(free[k], bud)];
      nrFree := nrFree[k := nrFree[k] - 1];
      flags[bud] := 0;
      blocks := JoinBlocks(blocks, page, k);
    }

    method ReleaseBlock(page: nat, k: nat)
      requires Transit(View(), page, k)
      modifies this`free, this`nrFree, this`blocks, flags
      ensures View() == Release(old(View()), page, k)
    {
      hide Tiling, Listed, Flagged, Aligned;
      flags[page] := k % 16;
      free := free[k := [page] + free[k]];
      nrFree := nrFree[k := nrFree[k] + 1];
      blocks := blocks[page := Block(k, false)];
    }

    method MergeBuddyPage(page: nat, order: nat)
      requires Transit(View(), page, order)
      modifies this`free, this`nrFree, this`freePages, this`blocks, flags
      ensures View() == Z.Merge(old(View()).(freePages := old(freePages) + Pow2(order)), page, order)
    {
      hide Tiling, Listed, Flagged, Spares, Released, FreeSum, Aligned, FlipBit, ClearBit, Join, Release;
      ghost var z0 := View().(freePages := freePages + Pow2(order));
      freePages := freePages + Pow2(order);
      assert View() == z0;
      var idx, k := page, order;
      while k < maxOrder
        invariant order <= k <= maxOrder && Transit(View(), idx, k)
        invariant Z.Merge(View(), idx, k) == Z.Merge(z0, page, order)
      {
        MergeTest(View(), idx, k);
        if flags[FlipBit(idx, k)] != k { break; }
        JoinKeeps(View(), idx, k);
        JoinOnce(idx, k);
        idx := ClearBit(idx, k);
        k := k + 1;
      }
      ReleaseBlock(idx, k);
    }

    /** `easy_mem_free_pages`: an address outside the zone is ignored, otherwise it is that of a block. */
    method FreePages(ptr: int)
      requires Valid()
      requires memStart <= ptr <= memStart + PAGE_SIZE * last - PAGE_SIZE ==>
                 (ptr - memStart) % PAGE_SIZE == 0 && (ptr - memStart) / PAGE_SIZE in blocks
      modifies this, flags
      ensures Valid()
      ensures View() == if memStart <= ptr <= memStart + PAGE_SIZE * old(last) - PAGE_SIZE
                        then Z.Free(old(View()), (ptr - memStart) / PAGE_SIZE) else old(View())
    {
      hide Listed, Spares, Released, FreeSum, Aligned, Z.Merge;
      if ptr < memStart || ptr > memStart + PAGE_SIZE * last - PAGE_SIZE { return; }
      var idx := (ptr - memStart) / PAGE_SIZE;
      if flags[idx] >= USED {
        MergeBuddyPage(idx, flags[idx] % 16);
      }
    }
  }
}
