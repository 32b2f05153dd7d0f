/** The binary buddy allocator of libeasy: free lists per order, one flag byte per page,
    split on allocation and coalesce on free.  Pages are named by their index from `mem_start`. */
module PageZone {
  import opened Common
  import opened Bits

  const PAGE_SHIFT: nat := 16
  const PAGE_SIZE: nat := 0x10000
  const MAX_ORDER: nat := 12
  const USED: nat := 0x80

  /** A block of 2^order pages, free or handed out. */
  datatype Block = Block(order: nat, used: bool)
  type Blocks = map<nat, Block>

  // ---------- how blocks tile the pages ----------

  predicate Covers(b: Blocks, i: nat, p: nat) {
    i in b && i <= p < i + Pow2(b[i].order)
  }

  ghost predicate InSomeBlock(b: Blocks, p: nat) {
    exists i: nat :: Covers(b, i, p)
  }

  /** Every block is aligned to its size and ends at or below `last`. */
  predicate Placed(b: Blocks, last: nat, max: nat) {
    forall i | i in b :: b[i].order <= max && Aligned(i, b[i].order) && i + Pow2(b[i].order) <= last
  }

  predicate Disjoint(b: Blocks) {
    forall i, j | i in b && j in b && i < j :: i + Pow2(b[i].order) <= j
  }

  ghost predicate Covered(b: Blocks, last: nat) {
    forall p: nat | p < last :: InSomeBlock(b, p)
  }

  /** No free block below the largest order has a free buddy of the same order. */
  predicate Coalesced(b: Blocks, max: nat) {
    forall i, j | i in b && j in b && !b[i].used && b[i].order < max && j == FlipBit(i, b[i].order) :: b[j] != b[i]
  }

  /** The blocks cut the pages below `last` into aligned, fully coalesced blocks. */
  ghost predicate Tiling(b: Blocks, last: nat, max: nat) {
    && Aligned(last, max)
    && Placed(b, last, max) && Disjoint(b) && Covered(b, last) && Coalesced(b, max)
  }

  function SplitBlocks(b: Blocks, page: nat, k: nat): Blocks {
    b[page := Block(k, true)][page + Pow2(k) := Block(k, false)]
  }

  lemma {:induction false} SplitTiling(b: Blocks, last: nat, max: nat, page: nat, k: nat)
    requires Tiling(b, last, max) && page in b && b[page] == Block(k + 1, true)
    ensures page + Pow2(k) !in b
    ensures Tiling(SplitBlocks(b, page, k), last, max)
  {
    hide Aligned, FlipBit, Pow2, Placed, Disjoint, Covered, Coalesced;
    SplitDisjoint(b, page, k);
    SplitPlaced(b, last, max, page, k);
    SplitCovered(b, last, page, k);
    SplitCoalesced(b, last, max, page, k);
  }

  lemma {:induction false} SplitPlaced(b: Blocks, last: nat, max: nat, page: nat, k: nat)
    requires Placed(b, last, max) && page in b && b[page].order == k + 1
    ensures Placed(SplitBlocks(b, page, k), last, max)
  {
    Halves(page, k);
    assert Pow2(k + 1) == 2 * Pow2(k);
    hide Aligned, Pow2;
  }

  lemma {:induction false} SplitDisjoint(b: Blocks, page: nat, k: nat)
    requires Disjoint(b) && page in b && b[page].order == k + 1
    ensures page + Pow2(k) !in b
    ensures Disjoint(SplitBlocks(b, page, k))
  {
    var upper, b' := page + Pow2(k), SplitBlocks(b, page, k);
    assert Pow2(k + 1) == 2 * Pow2(k);
    forall i, j | i in b' && j in b' && i < j ensures i + Pow2(b'[i].order) <= j {
      if i != page && i != upper {
        assert i < page ==> i + Pow2(b[i].order) <= page;
      } else if j != page && j != upper {
        assert page + Pow2(b[page].order) <= j;
      }
    }
  }

  lemma {:induction false} SplitCovered(b: Blocks, last: nat, page: nat, k: nat)
    requires Covered(b, last) && page in b && b[page].order == k + 1 && page + Pow2(k) !in b
    ensures Covered(SplitBlocks(b, page, k), last)
  {
    var upper, b' := page + Pow2(k), SplitBlocks(b, page, k);
    forall p: nat | p < last ensures InSomeBlock(b', p) {
      assert InSomeBlock(b, p);
      var i: nat :| Covers(b, i, p);
      assert Covers(b', if i != page then i else if p < upper then page else upper, p);
    }
  }

  lemma {:induction false} SplitCoalesced(b: Blocks, last: nat, max: nat, page: nat, k: nat)
    requires Coalesced(b, max) && Placed(b, last, max) && page in b && b[page] == Block(k + 1, true)
    ensures Coalesced(SplitBlocks(b, page, k), max)
  {
    var upper, b' := page + Pow2(k), SplitBlocks(b, page, k);
    Halves(page, k);
    hide Aligned, FlipBit, Pow2;
    forall i, j | i in b' && j in b' && !b'[i].used && b'[i].order < max && j == FlipBit(i, b'[i].order)
      ensures b'[j] != b'[i]
    {
      if i != upper {
        Buddies(i, b[i].order);
      }
    }
  }

  function JoinBlocks(b: Blocks, page: nat, k: nat): Blocks {
    (b - {page, FlipBit(page, k)})[ClearBit(page, k) := Block(k + 1, true)]
  }

  lemma {:induction false} JoinTiling(b: Blocks, last: nat, max: nat, page: nat, k: nat)
    requires Tiling(b, last, max) && page in b && b[page] == Block(k, true) && k < max
    requires FlipBit(page, k) in b && b[FlipBit(page, k)].order == k
    ensures Tiling(JoinBlocks(b, page, k), last, max)
  {
    Buddies(page, k);
    JoinDisjoint(b, page, k);
    JoinCovered(b, last, page, k);
    JoinPlaced(b, last, max, page, k);
    hide Disjoint, Covered, Placed, Aligned, FlipBit, ClearBit;
  }

  lemma {:induction false} JoinPlaced(b: Blocks, last: nat, max: nat, page: nat, k: nat)
    requires Placed(b, last, max) && page in b && b[page].order == k < max
    requires FlipBit(page, k) in b && b[FlipBit(page, k)].order == k
    ensures Placed(JoinBlocks(b, page, k), last, max)
  {
    Buddies(page, k);
    hide Aligned, FlipBit, ClearBit;
    assert Pow2(k + 1) == 2 * Pow2(k);
  }

  lemma {:induction false} JoinCovered(b: Blocks, last: nat, page: nat, k: nat)
    requires Covered(b, last) && page in b && b[page].order == k && Aligned(page, k)
    requires FlipBit(page, k) in b && b[FlipBit(page, k)].order == k
    ensures Covered(JoinBlocks(b, page, k), last)
  {
    var bud, c, b' := FlipBit(page, k), ClearBit(page, k), JoinBlocks(b, page, k);
    Buddies(page, k);
    forall p: nat | p < last ensures InSomeBlock(b', p) {
      assert InSomeBlock(b, p);
      var i: nat :| Covers(b, i, p);
      assert Covers(b', if i == page || i == bud then c else i, p);
    }
  }

  lemma {:induction false} JoinDisjoint(b: Blocks, page: nat, k: nat)
    requires Disjoint(b) && page in b && b[page].order == k && Aligned(page, k)
    requires FlipBit(page, k) in b && b[FlipBit(page, k)].order == k
    ensures Disjoint(JoinBlocks(b, page, k))
  {
    hide Aligned, FlipBit, ClearBit, Pow2, Disjoint;
    Buddies(page, k);
    var c := ClearBit(page, k);
    HalvesJoin(b, c, k);
    assert {page, FlipBit(page, k)} == {c, c + Pow2(k)};
  }

  /** Two neighbours of the same order become one block. */
  lemma {:induction false} HalvesJoin(b: Blocks, c: nat, k: nat)
    requires Disjoint(b) && c in b && b[c].order == k && c + Pow2(k) in b && b[c + Pow2(k)].order == k
    ensures Disjoint((b - {c, c + Pow2(k)})[c := Block(k + 1, true)])
  {
    Pow2Next(k);
    hide Pow2;
    var upper := c + Pow2(k);
    var b' := (b - {c, upper})[c := Block(k + 1, true)];
    forall j | j in b' && c < j ensures c + Pow2(k + 1) <= j {
      assert j in b && c + Pow2(b[c].order) <= j && j != upper;
      assert upper + Pow2(b[upper].order) <= j;
    }
    forall i, j | i in b' && j in b' && i < j ensures i + Pow2(b'[i].order) <= j {
      if i != c { assert i in b && b'[i] == b[i] && j in b; }
    }
  }

  /** Handing a free block out keeps the tiling. */
  lemma {:induction false} UseTiling(b: Blocks, last: nat, max: nat, page: nat)
    requires Tiling(b, last, max) && page in b
    ensures Tiling(b[page := Block(b[page].order, true)], last, max)
  {
    hide Aligned, FlipBit, Pow2, Covered;
    UseCovered(b, last, page, Block(b[page].order, true));
  }

  lemma {:induction false} UseCovered(b: Blocks, last: nat, page: nat, block: Block)
    requires Covered(b, last) && page in b && b[page].order == block.order
    ensures Covered(b[page := block], last)
  {
    hide Pow2;
    var b' := b[page := block];
    forall p: nat | p < last ensures InSomeBlock(b', p) {
      assert InSomeBlock(b, p);
      var i: nat :| Covers(b, i, p);
      assert Covers(b', i, p);
    }
  }

  /** So does freeing one whose buddy is not free at the same order. */
  lemma {:induction false} UnuseTiling(b: Blocks, last: nat, max: nat, page: nat, k: nat)
    requires Tiling(b, last, max) && page in b && b[page] == Block(k, true)
    requires k < max && FlipBit(page, k) in b ==> b[FlipBit(page, k)] != Block(k, false)
    ensures Tiling(b[page := Block(k, false)], last, max)
  {
    hide Aligned, FlipBit, Pow2, Covered, Coalesced;
    UseCovered(b, last, page, Block(k, false));
    UnuseCoalesced(b, last, max, page, k);
  }

  lemma {:induction false} UnuseCoalesced(b: Blocks, last: nat, max: nat, page: nat, k: nat)
    requires Coalesced(b, max) && Placed(b, last, max) && page in b && b[page] == Block(k, true)
    requires k < max && FlipBit(page, k) in b ==> b[FlipBit(page, k)] != Block(k, false)
    ensures Coalesced(b[page := Block(k, false)], max)
  {
    hide Aligned, FlipBit, Pow2;
    var b' := b[page := Block(k, false)];
    forall i, j | i in b' && j in b' && !b'[i].used && b'[i].order < max && j == FlipBit(i, b'[i].order)
      ensures b'[j] != b'[i]
    {
      Buddies(i, b[i].order);
    }
  }

  /** The page that a merge looks at is always the head of some block, of at most the same
      order: this is why stale flag bytes inside blocks are never read. */
  lemma {:induction false} BuddyIsHead(b: Blocks, last: nat, max: nat, page: nat)
    requires Tiling(b, last, max) && page in b && b[page].order < max
    ensures var bud := FlipBit(page, b[page].order);
            bud < last && bud in b && b[bud].order <= b[page].order
  {
    var k := b[page].order;
    var bud, c := FlipBit(page, k), ClearBit(page, k);
    assert Pow2(k + 1) == 2 * Pow2(k);
    hide Aligned, FlipBit, ClearBit, Pow2, Disjoint, Coalesced;
    Buddies(page, k);
    BelowBound(last, max, c, k + 1);
    assert InSomeBlock(b, bud);
    var j: nat :| Covers(b, j, bud);
    if b[j].order <= k {
      AlignedWeaken(bud, b[j].order, k);
      SameStart(j, bud, b[j].order);
    } else {
      LargerHoldsBoth(j, b[j].order, c, k, bud);
    }
  }

  /** A larger block that holds one of two buddies holds their common start. */
  lemma {:induction false} LargerHoldsBoth(j: nat, m: nat, c: nat, k: nat, bud: nat)
    requires k < m && Aligned(j, m) && Aligned(c, k + 1) && c <= bud < c + Pow2(k + 1) && j <= bud < j + Pow2(m)
    ensures j <= c && c + Pow2(k + 1) <= j + Pow2(m)
  {
    hide Aligned, Pow2;
    if c < j { AlignedWeaken(j, k + 1, m); SameStart(c, j, k + 1); }
    Nested(j, m, c, k + 1);
  }

  /** With nothing handed out, the zone has coalesced into blocks of the largest order. */
  lemma {:induction false} AllFreeIsCoalesced(b: Blocks, last: nat, max: nat, page: nat)
    requires Tiling(b, last, max) && page in b
    requires forall i | i in b :: !b[i].used
    ensures b[page].order == max
    decreases b[page].order
  {
    if b[page].order < max {
      BuddyIsHead(b, last, max, page);
      var bud := FlipBit(page, b[page].order);
      assert b[bud] != b[page];
      AllFreeIsCoalesced(b, last, max, bud);
      assert false;
    }
  }

  // ---------- free lists and flags ----------

  predicate NoDup(s: seq<nat>) {
    forall i, j | 0 <= i < j < |s| :: s[i] != s[j]
  }

  type Lists = seq<seq<nat>>

  /** The free list of order k holds exactly the free blocks of order k, once each. */
  ghost predicate Listed(free: Lists, b: Blocks) {
    && (forall k | 0 <= k < |free| :: NoDup(free[k]))
    && (forall k, i: nat | 0 <= k < |free| :: i in free[k] <==> i in b && b[i] == Block(k, false))
  }

  function FlagOf(b: Block): nat {
    if b.used then USED + b.order else b.order
  }

  predicate Flagged(flags: seq<nat>, b: Blocks, except: set<nat>) {
    forall i | i in b && i !in except :: i < |flags| && flags[i] == FlagOf(b[i])
  }

  /** Pages on the free lists, counted from the lists. */
  function FreeSum(free: Lists): nat {
    if free == [] then 0 else FreeSum(free[..|free| - 1]) + |free[|free| - 1]| * Pow2(|free| - 1)
  }

  function Without(s: seq<nat>, x: nat): seq<nat> {
    if s == [] then [] else if s[0] == x then s[1..] else [s[0]] + Without(s[1..], x)
  }

  lemma {:induction false} WithoutIs(s: seq<nat>, x: nat)
    requires NoDup(s) && x in s
    ensures |Without(s, x)| == |s| - 1 && NoDup(Without(s, x))
    ensures forall y :: y in Without(s, x) <==> y in s && y != x
  {
    assert forall y :: y in s <==> y == s[0] || y in s[1..];
    if s[0] != x {
      WithoutIs(s[1..], x);
      var t := Without(s[1..], x);
      assert s[0] !in s[1..];
      assert Without(s, x) == [s[0]] + t;
    } else {
      assert Without(s, x) == s[1..];
    }
  }

  /** A list that grows by one block of order k adds 2^k pages to the sum. */
  lemma {:induction false} FreeSumGrow(free: Lists, k: nat, l: seq<nat>)
    requires k < |free| && |l| == |free[k]| + 1
    ensures FreeSum(free[k := l]) == FreeSum(free) + Pow2(k)
  {
    var n := |free| - 1;
    if k == n {
      assert free[k := l][..n] == free[..n];
      assert |l| * Pow2(k) == |free[k]| * Pow2(k) + Pow2(k);
    } else {
      FreeSumGrow(free[..n], k, l);
      assert free[k := l][..n] == free[..n][k := l];
    }
  }

  lemma {:induction false} FreeSumShrink(free: Lists, k: nat, l: seq<nat>)
    requires k < |free| && |l| + 1 == |free[k]|
    ensures FreeSum(free[k := l]) + Pow2(k) == FreeSum(free)
  {
    FreeSumGrow(free[k := l], k, free[k]);
    assert free[k := l][k := free[k]] == free;
  }

  lemma {:induction false} FreeSumBound(free: Lists, k: nat)
    requires k < |free| && free[k] != []
    ensures FreeSum(free) >= Pow2(k)
  {
    var n := |free| - 1;
    var p, c := Pow2(n), |free[n]|;
    assert FreeSum(free) == FreeSum(free[..n]) + c * p;
    hide FreeSum, Pow2;
    if k < n {
      FreeSumBound(free[..n], k);
      MulNat(c, p);
    } else {
      MulAwayFromZero(p, c);
    }
  }

  // ---------- the zone ----------

  /** `last` and `end` are `mem_last` and `mem_end` in pages; `blocks` records how the pages
      below `last` are cut up, and is not stored by the source. */
  datatype Zone = Zone(
    maxOrder: nat, last: nat, end: nat,
    free: Lists, nrFree: seq<int>, freePages: int, flags: seq<nat>,
    blocks: Blocks)

  predicate Shape(z: Zone) {
    && z.maxOrder < MAX_ORDER
    && |z.free| == |z.nrFree| == z.maxOrder + 1
    && z.last <= z.end == |z.flags|
    && Aligned(z.end, z.maxOrder)
    && forall k | 0 <= k <= z.maxOrder :: z.nrFree[k] == |z.free[k]|
  }

  /** The invariant, with the flags of the blocks in `except` left open and `freePages` unchecked. */
  ghost predicate InvExcept(z: Zone, except: set<nat>) {
    && Shape(z)
    && Tiling(z.blocks, z.last, z.maxOrder)
    && Listed(z.free, z.blocks)
    && Flagged(z.flags, z.blocks, except)
  }

  ghost predicate Inv(z: Zone) {
    InvExcept(z, {}) && z.freePages == FreeSum(z.free)
  }

  /** A block that is on no list and whose flag is about to be written. */
  ghost predicate Transit(z: Zone, page: nat, order: nat) {
    && InvExcept(z, {page})
    && page in z.blocks && z.blocks[page] == Block(order, true)
    && order <= z.maxOrder && page + Pow2(order) <= |z.flags|
  }

  /** `i` heads a block in use of the given order. */
  predicate LiveAt(b: Blocks, i: nat, order: nat) {
    i in b && b[i] == Block(order, true)
  }

  /** The same blocks are in use, except for `page` before and `page'` after. */
  ghost predicate SameLive(b: Blocks, page: nat, b': Blocks, page': nat) {
    && (forall i: nat, k: nat | LiveAt(b, i, k) && i != page :: LiveAt(b', i, k) && i != page')
    && (forall i: nat, k: nat | LiveAt(b', i, k) && i != page' :: LiveAt(b, i, k) && i != page)
  }

  /** No flag of any page of a block in use other than `page` has changed. */
  ghost predicate FlagsSpared(z: Zone, page: nat, z': Zone) {
    && |z'.flags| == |z.flags|
    && (forall i: nat, k: nat, p: nat | LiveAt(z.blocks, i, k) && i != page && i <= p < i + Pow2(k) && p < |z.flags| ::
          z'.flags[p] == z.flags[p])
  }

  /** Apart from the block in transit, which moves from `page` to `page'`, the blocks in use are
      the same and no flag of any of their pages has changed. */
  ghost predicate Spares(z: Zone, page: nat, z': Zone, page': nat) {
    SameLive(z.blocks, page, z'.blocks, page') && FlagsSpared(z, page, z')
  }

  lemma SparesTrans(z: Zone, page: nat, z1: Zone, page1: nat, z2: Zone, page2: nat)
    requires Spares(z, page, z1, page1) && Spares(z1, page1, z2, page2)
    ensures Spares(z, page, z2, page2)
  {
    forall i: nat, k: nat, p: nat | LiveAt(z.blocks, i, k) && i != page && i <= p < i + Pow2(k) && p < |z.flags|
      ensures z2.flags[p] == z.flags[p]
    {
      assert LiveAt(z1.blocks, i, k);
    }
  }

  function SetFlag(z: Zone, i: nat, v: nat): Zone
    requires i < |z.flags|
  {
    z.(flags := z.flags[i := v])
  }

  function Push(z: Zone, k: nat, i: nat): Zone
    requires k < |z.free| == |z.nrFree|
  {
    z.(free := z.free[k := [i] + z.free[k]], nrFree := z.nrFree[k := z.nrFree[k] + 1])
  }

  function Unlink(z: Zone, k: nat, i: nat): Zone
    requires k < |z.free| == |z.nrFree|
  {
    z.(free := z.free[k := Without(z.free[k], i)], nrFree := z.nrFree[k := z.nrFree[k] - 1])
  }

  /** One iteration of `easy_mem_expand`: the upper half goes to the next lower free list. */
  function Split(z: Zone, page: nat, high: nat): Zone
    requires 0 < high < |z.free| == |z.nrFree| && page + Pow2(high) <= |z.flags|
  {
    var upper := page + Pow2(high - 1);
    SetFlag(Push(z, high - 1, upper), upper, high - 1).(blocks := SplitBlocks(z.blocks, page, high - 1))
  }

  lemma {:induction false} SplitKeeps(z: Zone, page: nat, high: nat)
    requires high > 0 && Transit(z, page, high)
    ensures Transit(Split(z, page, high), page, high - 1)
  {
    hide Tiling, Listed, Flagged, Aligned, FlipBit;
    var k := high - 1;
    var upper, z' := page + Pow2(k), Split(z, page, high);
    assert page < upper < |z.flags|;
    hide Pow2;
    SplitTiling(z.blocks, z.last, z.maxOrder, page, k);
    PushListed(z.free, z.blocks, z'.blocks, k, upper);
    WriteFlagged(z.flags, z.blocks, z'.blocks, page, upper, k);
  }

  lemma {:induction false} SplitSpares(z: Zone, page: nat, high: nat)
    requires high > 0 && Transit(z, page, high)
    ensures Spares(z, page, Split(z, page, high), page)
  {
    hide Listed, Flagged, Aligned, FlipBit;
    var upper, z' := page + Pow2(high - 1), Split(z, page, high);
    assert Disjoint(z.blocks) && Covers(z.blocks, page, upper);
    hide Tiling;
    SplitDisjoint(z.blocks, page, high - 1);
    hide Disjoint, Pow2;
    WriteSpares(z, page, z', page, page, upper, high - 1);
  }

  lemma {:induction false} SplitSum(z: Zone, page: nat, high: nat)
    requires high > 0 && Transit(z, page, high)
    ensures FreeSum(Split(z, page, high).free) == FreeSum(z.free) + Pow2(high - 1)
  {
    FreeSumGrow(z.free, high - 1, Split(z, page, high).free[high - 1]);
  }

  /** A flag written inside `page`, or inside a free block, spares the other blocks in use. */
  lemma {:induction false} WriteSpares(z: Zone, page: nat, z': Zone, page': nat, inside: nat, at: nat, v: nat)
    requires Disjoint(z.blocks) && at < |z.flags| && z'.flags == z.flags[at := v]
    requires Covers(z.blocks, inside, at) && (inside == page || !z.blocks[inside].used)
    requires SameLive(z.blocks, page, z'.blocks, page')
    ensures Spares(z, page, z', page')
  {
    forall i: nat, k: nat, p: nat | LiveAt(z.blocks, i, k) && i != page && i <= p < i + Pow2(k) && p < |z.flags|
      ensures z'.flags[p] == z.flags[p]
    {
      assert i != inside;
      assert i < inside ==> i + Pow2(z.blocks[i].order) <= inside;
      assert inside < i ==> inside + Pow2(z.blocks[inside].order) <= i;
    }
  }

  lemma {:induction false} WriteFlagged(flags: seq<nat>, b: Blocks, b': Blocks, page: nat, at: nat, v: nat)
    requires Flagged(flags, b, {page}) && at < |flags|
    requires forall i | i in b' && i != page && i != at :: i in b && b'[i] == b[i]
    requires at in b' && at != page ==> v == FlagOf(b'[at])
    ensures Flagged(flags[at := v], b', {page})
  {
  }

  lemma {:induction false} PushListed(free: Lists, b: Blocks, b': Blocks, k: nat, page: nat)
    requires Listed(free, b) && k < |free|
    requires page in b ==> b[page].used
    requires page in b' && b'[page] == Block(k, false)
    requires forall i | i != page :: (i in b && !b[i].used) == (i in b' && !b'[i].used)
    requires forall i | i != page && i in b && i in b' && !b[i].used :: b[i] == b'[i]
    ensures Listed(free[k := [page] + free[k]], b')
  {
  }

  /** `easy_mem_expand` */
  ghost function Expand(z: Zone, page: nat, low: nat, high: nat): (r: Zone)
    requires low <= high && Transit(z, page, high)
    ensures Transit(r, page, low) && Spares(z, page, r, page)
    ensures FreeSum(r.free) + Pow2(low) == FreeSum(z.free) + Pow2(high)
    ensures r.last == z.last && r.end == z.end && r.maxOrder == z.maxOrder && r.freePages == z.freePages
    decreases high - low
  {
    if low == high then z else
      SplitKeeps(z, page, high);
      SplitSpares(z, page, high);
      SplitSum(z, page, high);
      var z1 := Split(z, page, high);
      var r := Expand(z1, page, low, high - 1);
      SparesTrans(z, page, z1, page, r, page);
      r
  }

  /** Each order from `low` up to `high` has got the upper half that is split off there, at the head of
      its list; no other list has changed. */
  predicate Halved(free: Lists, free': Lists, page: nat, low: nat, high: nat) {
    && |free'| == |free|
    && forall j | 0 <= j < |free| :: free'[j] == if low <= j < high then [page + Pow2(j)] + free[j] else free[j]
  }

  lemma HalvedOn(free: Lists, free1: Lists, free': Lists, page: nat, low: nat, h: nat)
    requires low <= h < |free| && free1 == free[h := [page + Pow2(h)] + free[h]] && Halved(free1, free', page, low, h)
    ensures Halved(free, free', page, low, h + 1)
  {
    hide Pow2;
  }

  /** Outside the block of order `k` at `page`, blocks and flags are the same. */
  ghost predicate SameOutside(z: Zone, r: Zone, page: nat, k: nat) {
    && |r.flags| == |z.flags|
    && (forall i: nat | i < page || page + Pow2(k) <= i ::
          (i in r.blocks <==> i in z.blocks) && (i in z.blocks ==> r.blocks[i] == z.blocks[i]))
    && (forall p: nat | p < |z.flags| && (p < page || page + Pow2(k) <= p) :: r.flags[p] == z.flags[p])
  }

  /** Splitting a block touches the lists of the orders in between, and nothing outside the block. */
  lemma {:induction false} ExpandIs(z: Zone, page: nat, low: nat, high: nat)
    requires low <= high && Transit(z, page, high)
    ensures var r := Expand(z, page, low, high);
            Halved(z.free, r.free, page, low, high) && SameOutside(z, r, page, high)
    decreases high - low
  {
    hide Tiling, Listed, Flagged, Aligned, FreeSum, Spares, Pow2, Halved, SameOutside, Split, Transit;
    if low == high {
      NothingSplit(z, page, low);
    } else {
      SplitKeeps(z, page, high);
      TransitShape(z, page, high);
      var z1, h := Split(z, page, high), high - 1;
      ExpandIs(z1, page, low, h);
      SplitOutside(z, page, high);
      Pow2Next(h);
      var r := Expand(z1, page, low, h);
      OutsideTrans(z, z1, r, page, high, h);
      HalvedOn(z.free, z1.free, r.free, page, low, h);
      assert h + 1 == high;
    }
  }

  lemma NothingSplit(z: Zone, page: nat, k: nat)
    ensures Halved(z.free, z.free, page, k, k) && SameOutside(z, z, page, k)
  {
  }

  lemma TransitShape(z: Zone, page: nat, k: nat)
    requires Transit(z, page, k)
    ensures k < |z.free| == |z.nrFree| && page + Pow2(k) <= |z.flags|
  {
    hide Tiling, Listed, Flagged, Aligned, Pow2;
  }

  lemma {:induction false} SplitOutside(z: Zone, page: nat, high: nat)
    requires 0 < high < |z.free| == |z.nrFree| && page + Pow2(high) <= |z.flags|
    ensures var z1, h := Split(z, page, high), high - 1;
            SameOutside(z, z1, page, high) && z1.free == z.free[h := [page + Pow2(h)] + z.free[h]]
  {
    Pow2Next(high - 1);
    hide Pow2;
  }

  lemma {:induction false} OutsideTrans(z: Zone, z1: Zone, r: Zone, page: nat, high: nat, h: nat)
    requires SameOutside(z, z1, page, high) && SameOutside(z1, r, page, h) && Pow2(h) <= Pow2(high)
    ensures SameOutside(z, r, page, high)
  {
    hide Pow2;
  }

  /** The head of the free list of order n leaves its list. */
  function Take(z: Zone, n: nat): Zone
    requires n < |z.free| == |z.nrFree| && z.free[n] != []
  {
    z.(free := z.free[n := z.free[n][1..]], nrFree := z.nrFree[n := z.nrFree[n] - 1],
       blocks := z.blocks[z.free[n][0] := Block(n, true)])
  }

  lemma {:induction false} TakeKeeps(z: Zone, n: nat, except: set<nat>)
    requires InvExcept(z, except) && n <= z.maxOrder && z.free[n] != []
    requires except <= {z.free[n][0]}
    ensures z.free[n][0] in z.blocks && z.blocks[z.free[n][0]] == Block(n, false)
    ensures Transit(Take(z, n), z.free[n][0], n)
    ensures Spares(z, z.free[n][0], Take(z, n), z.free[n][0])
    ensures FreeSum(Take(z, n).free) + Pow2(n) == FreeSum(z.free)
  {
    var page, z' := z.free[n][0], Take(z, n);
    hide Tiling, FreeSum;
    assert page in z.free[n];
    UseTiling(z.blocks, z.last, z.maxOrder, page);
    PopListed(z.free, z.blocks, n);
    hide Listed;
    FreeSumShrink(z.free, n, z.free[n][1..]);
  }

  lemma {:induction false} PopListed(free: Lists, b: Blocks, n: nat)
    requires Listed(free, b) && n < |free| && free[n] != []
    ensures Listed(free[n := free[n][1..]], b[free[n][0] := Block(n, true)])
  {
    var page, t := free[n][0], free[n][1..];
    assert free[n] == [page] + t && page in free[n] && page !in t;
    var free', b' := free[n := t], b[page := Block(n, true)];
    forall k, i: nat | 0 <= k < |free'| ensures i in free'[k] <==> i in b' && b'[i] == Block(k, false) {
      assert i in free[n] <==> i == page || i in t;
      assert i in free[k] <==> i in b && b[i] == Block(k, false);
      assert page in b && b[page] == Block(n, false);
    }
  }

  /** The block in transit becomes a block in use. */
  lemma {:induction false} MarkUsedKeeps(z: Zone, page: nat, order: nat)
    requires Transit(z, page, order)
    ensures InvExcept(SetFlag(z, page, USED + order), {})
    ensures Spares(z, page, SetFlag(z, page, USED + order), page)
  {
    assert Disjoint(z.blocks) && Covers(z.blocks, page, page);
    hide Tiling;
    WriteSpares(z, page, SetFlag(z, page, USED + order), page, page, page, USED + order);
  }

  /** Before the search for a block of `order`: either the invariant holds, or a fresh block of
      the largest order, whose flag nobody has written, is the only one that can be found. */
  ghost predicate Searchable(z: Zone, order: nat, grown: bool) {
    if grown then
      && Shape(z) && z.free[z.maxOrder] != [] && InvExcept(z, {z.free[z.maxOrder][0]})
      && forall k | order <= k < z.maxOrder :: z.free[k] == []
    else InvExcept(z, {})
  }

  ghost predicate NoBlock(z: Zone, order: nat)
    requires |z.free| == z.maxOrder + 1
  {
    forall k | order <= k <= z.maxOrder :: z.free[k] == []
  }

  /** `k` is the smallest order from `n` on with a free block. */
  predicate Least(z: Zone, n: nat, k: nat) {
    && n <= k < |z.free| && z.free[k] != [] && forall j | n <= j < k :: z.free[j] == []
  }

  /** The first block of order `k` was taken and cut down to `order`: `page` is its start, its upper
      halves head the lists of the orders in between, all other lists are unchanged, and outside the
      block so is everything else. */
  ghost predicate CutFrom(z: Zone, r: Zone, page: nat, order: nat, k: nat) {
    && order <= k < |z.free| == |r.free| && z.free[k] != [] && page == z.free[k][0] && r.last == z.last
    && r.free[k] == z.free[k][1..]
    && (forall j | 0 <= j < |z.free| && j != k ::
          r.free[j] == if order <= j < k then [page + Pow2(j)] + z.free[j] else z.free[j])
    && SameOutside(z, r, page, k)
  }

  /** What a successful allocation of `page` means. */
  ghost predicate Allocated(z: Zone, r: Zone, page: nat, order: nat) {
    && InvExcept(r, {})
    && LiveAt(r.blocks, page, order) && (page in z.blocks ==> !z.blocks[page].used)
    && Spares(z, page, r, page)
    && FreeSum(r.free) + Pow2(order) == FreeSum(z.free)
    && r.freePages == z.freePages - Pow2(order)
    && r.last == z.last && r.end == z.end && r.maxOrder == z.maxOrder
  }

  /** `easy_mem_rmqueue`, from its loop at order n on. */
  ghost function RmQueue(z: Zone, order: nat, n: nat, grown: bool): (r: (Zone, Option<nat>))
    requires Searchable(z, order, grown) && order <= n <= z.maxOrder + 1
    ensures r.1 == None <==> NoBlock(z, n)
    ensures r.1 == None ==> r.0 == z
    ensures r.1.Some? ==> Allocated(z, r.0, r.1.value, order)
    ensures forall k: nat | Least(z, n, k) :: r.1.Some? && CutFrom(z, r.0, r.1.value, order, k)
    decreases z.maxOrder + 1 - n
  {
    if n > z.maxOrder then (z, None)
    else if z.free[n] == [] then RmQueue(z, order, n + 1, grown)
    else
      var page := z.free[n][0];
      assert z.free[n] != [];
      Grab(z, order, n, grown);
      GrabCuts(z, order, n, grown);
      (Grabbed(z, order, n, grown), Some(page))
  }

  lemma {:induction false} TakeCarves(z: Zone, order: nat, n: nat, grown: bool)
    requires Searchable(z, order, grown) && order <= n <= z.maxOrder && z.free[n] != []
    ensures var page, z1 := z.free[n][0], Take(z, n).(freePages := z.freePages - Pow2(order));
            && page in z.blocks && z.blocks[page] == Block(n, false)
            && Transit(z1, page, n) && Spares(z, page, z1, page) && FreeSum(z1.free) + Pow2(n) == FreeSum(z.free)
  {
    hide Tiling, Listed, Flagged, Pow2, FreeSum;
    TakeKeeps(z, n, if grown then {z.free[n][0]} else {});
  }

  /** The taken block, cut down to the requested order. */
  ghost function Carved(z: Zone, order: nat, n: nat, grown: bool): (r: Zone)
    requires Searchable(z, order, grown) && order <= n <= z.maxOrder && z.free[n] != []
    ensures var page := z.free[n][0];
            && z.blocks[page] == Block(n, false) && Transit(r, page, order) && Spares(z, page, r, page)
    ensures FreeSum(r.free) + Pow2(order) == FreeSum(z.free) && r.freePages == z.freePages - Pow2(order)
    ensures r.last == z.last && r.end == z.end && r.maxOrder == z.maxOrder
  {
    hide Tiling, Listed, Flagged, Pow2, FreeSum, Spares;
    TakeCarves(z, order, n, grown);
    var page := z.free[n][0];
    var z1 := Take(z, n).(freePages := z.freePages - Pow2(order));
    var r := Expand(z1, page, order, n);
    SparesTrans(z, page, z1, page, r, page);
    r
  }

  ghost function Grabbed(z: Zone, order: nat, n: nat, grown: bool): (r: Zone)
    requires Searchable(z, order, grown) && order <= n <= z.maxOrder && z.free[n] != []
  {
    SetFlag(Carved(z, order, n, grown), z.free[n][0], USED + order)
  }

  lemma {:induction false} Grab(z: Zone, order: nat, n: nat, grown: bool)
    requires Searchable(z, order, grown) && order <= n <= z.maxOrder && z.free[n] != []
    ensures Allocated(z, Grabbed(z, order, n, grown), z.free[n][0], order)
  {
    var page, z2 := z.free[n][0], Carved(z, order, n, grown);
    hide Carved, Tiling, Listed, Flagged, Spares, FreeSum;
    MarkUsedKeeps(z2, page, order);
    SparesTrans(z, page, z2, page, SetFlag(z2, page, USED + order), page);
  }

  lemma {:induction false} GrabCuts(z: Zone, order: nat, n: nat, grown: bool)
    requires Searchable(z, order, grown) && order <= n <= z.maxOrder && z.free[n] != []
    ensures CutFrom(z, Grabbed(z, order, n, grown), z.free[n][0], order, n)
    ensures forall k: nat | Least(z, n, k) :: k == n
  {
    hide Tiling, Listed, Flagged, FreeSum, Spares, Expand, Aligned, Pow2, InvExcept, SameOutside, Halved, Transit;
    SearchShape(z, order, grown);
    TakeCarves(z, order, n, grown);
    var page := z.free[n][0];
    var z1 := Take(z, n).(freePages := z.freePages - Pow2(order));
    ExpandIs(z1, page, order, n);
    var r := Expand(z1, page, order, n);
    assert Carved(z, order, n, grown) == r;
    hide Carved;
    TransitShape(r, page, order);
    CutLists(z, z1, r, page, order, n);
    CutOutside(z, z1, r, page, order, n);
  }

  lemma SearchShape(z: Zone, order: nat, grown: bool)
    requires Searchable(z, order, grown)
    ensures |z.free| == |z.nrFree| == z.maxOrder + 1
  {
    hide Tiling, Listed, Flagged, Aligned;
  }

  lemma CutLists(z: Zone, z1: Zone, r: Zone, page: nat, order: nat, n: nat)
    requires order <= n < |z.free| && z.free[n] != [] && z1.free == z.free[n := z.free[n][1..]]
    requires Halved(z1.free, r.free, page, order, n)
    ensures |r.free| == |z.free| && r.free[n] == z.free[n][1..]
    ensures forall j | 0 <= j < |z.free| && j != n ::
              r.free[j] == if order <= j < n then [page + Pow2(j)] + z.free[j] else z.free[j]
  {
    hide Pow2;
  }

  lemma CutOutside(z: Zone, z1: Zone, r: Zone, page: nat, order: nat, n: nat)
    requires z1.flags == z.flags && z1.blocks == z.blocks[page := Block(n, true)] && page < |r.flags|
    requires SameOutside(z1, r, page, n)
    ensures SameOutside(z, SetFlag(r, page, USED + order), page, n)
  {
    hide Pow2;
  }

  /** The zone grows by one block of the largest order, whose flag is not written. */
  function Extend(z: Zone): Zone
    requires |z.free| == |z.nrFree| == z.maxOrder + 1
  {
    Push(z, z.maxOrder, z.last).(
      last := z.last + Pow2(z.maxOrder), freePages := z.freePages + Pow2(z.maxOrder),
      blocks := z.blocks[z.last := Block(z.maxOrder, false)])
  }

  lemma {:induction false} ExtendTiling(b: Blocks, last: nat, max: nat)
    requires Tiling(b, last, max)
    ensures last !in b && Tiling(b[last := Block(max, false)], last + Pow2(max), max)
  {
    var b' := b[last := Block(max, false)];
    AlignedAdd(last, max);
    hide Aligned, FlipBit, Pow2;
    forall p: nat | p < last + Pow2(max) ensures InSomeBlock(b', p) {
      if p < last {
        assert InSomeBlock(b, p);
        var i: nat :| Covers(b, i, p);
        assert Covers(b', i, p);
      } else {
        assert Covers(b', last, p);
      }
    }
  }

  lemma {:induction false} ExtendKeeps(z: Zone, order: nat)
    requires InvExcept(z, {}) && order <= z.maxOrder && NoBlock(z, order) && z.last < z.end
    ensures Searchable(Extend(z), order, true)
    ensures FreeSum(Extend(z).free) == FreeSum(z.free) + Pow2(z.maxOrder)
    ensures forall page: nat :: Spares(z, page, Extend(z), page)
  {
    hide FreeSum, Aligned, FlipBit, Pow2, Placed, Disjoint, Covered, Coalesced, Listed, Flagged, Spares;
    BelowBound(z.end, z.maxOrder, z.last, z.maxOrder);
    ExtendTiling(z.blocks, z.last, z.maxOrder);
    hide Tiling;
    PushListed(z.free, z.blocks, Extend(z).blocks, z.maxOrder, z.last);
    ExtendFlagged(z.flags, z.blocks, z.last, z.maxOrder);
    FreeSumGrow(z.free, z.maxOrder, [z.last] + z.free[z.maxOrder]);
    forall page: nat ensures Spares(z, page, Extend(z), page) { ExtendSpares(z, page); }
  }

  lemma {:induction false} ExtendFlagged(flags: seq<nat>, b: Blocks, last: nat, max: nat)
    requires Flagged(flags, b, {})
    ensures Flagged(flags, b[last := Block(max, false)], {last})
  {
  }

  lemma {:induction false} ExtendSpares(z: Zone, page: nat)
    requires |z.free| == |z.nrFree| == z.maxOrder + 1 && z.last !in z.blocks
    ensures Spares(z, page, Extend(z), page)
  {
  }

  /** The second half of `easy_mem_alloc_pages`: take from a fresh block of the largest order. */
  ghost function AllocGrown(z: Zone, order: nat): (r: (Zone, Option<nat>))
    requires Inv(z) && order <= z.maxOrder && NoBlock(z, order) && z.last < z.end
    ensures r.1.Some? && Inv(r.0) && HandedOut(z, r.0, r.1.value, order)
    ensures r.1.value == z.last && CutFrom(Extend(z), r.0, z.last, order, z.maxOrder)
  {
    ExtendKeeps(z, order);
    var z1 := Extend(z);
    var r := RmQueue(z1, order, order, true);
    assert Least(z1, order, z1.maxOrder);
    SparesTrans(z, r.1.value, z1, r.1.value, r.0, r.1.value);
    r
  }

  /** `page` was not in use and now is, at the given order; every other block in use is spared. */
  ghost predicate HandedOut(z: Zone, r: Zone, page: nat, order: nat) {
    && r.maxOrder == z.maxOrder && r.end == z.end
    && LiveAt(r.blocks, page, order) && (page in z.blocks ==> !z.blocks[page].used)
    && Spares(z, page, r, page)
  }

  /** `easy_mem_alloc_pages`: fails exactly when the order is illegal, or no free block is large
      enough and the zone is used up. A smallest block that is large enough is cut, the one at the
      head of its list; only if there is none does the zone grow, by one block that is cut. */
  ghost function Alloc(z: Zone, order: nat): (r: (Zone, Option<nat>))
    requires Inv(z)
    ensures r.1 == None <==> order > z.maxOrder || (NoBlock(z, order) && z.last == z.end)
    ensures r.1 == None ==> r.0 == z
    ensures r.1.Some? ==> Inv(r.0) && HandedOut(z, r.0, r.1.value, order)
    ensures forall k: nat | Least(z, order, k) :: r.1.Some? && CutFrom(z, r.0, r.1.value, order, k)
    ensures order <= z.maxOrder && NoBlock(z, order) && z.last < z.end ==>
              r.1 == Some(z.last) && CutFrom(Extend(z), r.0, z.last, order, z.maxOrder)
  {
    if order > z.maxOrder then (z, None) else
      var r := if z.freePages >= Pow2(order) then RmQueue(z, order, order, false) else (z, None);
      EnoughPages(z, order);
      if r.1.Some? then r
      else if z.last < z.end then AllocGrown(z, order)
      else (z, None)
  }

  /** The page-count guard in front of the search never hides a block that is large enough. */
  lemma {:induction false} EnoughPages(z: Zone, order: nat)
    requires Inv(z) && order <= z.maxOrder
    ensures z.freePages < Pow2(order) ==> NoBlock(z, order)
  {
    if k :| order <= k <= z.maxOrder && z.free[k] != [] {
      FreeSumBound(z.free, k);
      Pow2Mono(order, k);
    }
  }

  /** One iteration of `easy_mem_merge_buddy_page`: the free buddy leaves its list. */
  function Join(z: Zone, page: nat, k: nat): Zone
    requires k < |z.free| == |z.nrFree| && FlipBit(page, k) < |z.flags|
  {
    var bud := FlipBit(page, k);
    SetFlag(Unlink(z, k, bud), bud, 0).(blocks := JoinBlocks(z.blocks, page, k))
  }

  /** The loop test of the merge: the flag of the buddy page equals the order exactly when the
      buddy is a free block of that order. */
  lemma {:induction false} MergeTest(z: Zone, page: nat, k: nat)
    requires Transit(z, page, k) && k < z.maxOrder
    ensures var bud := FlipBit(page, k);
            && bud < z.last && bud in z.blocks && bud != page
            && (z.flags[bud] == k <==> z.blocks[bud] == Block(k, false))
  {
    BuddyIsHead(z.blocks, z.last, z.maxOrder, page);
    Buddies(page, k);
  }

  lemma {:induction false} JoinKeeps(z: Zone, page: nat, k: nat)
    requires Transit(z, page, k) && k < z.maxOrder
    requires FlipBit(page, k) < |z.flags| && z.flags[FlipBit(page, k)] == k
    ensures Transit(Join(z, page, k), ClearBit(page, k), k + 1)
  {
    var bud, c, z' := FlipBit(page, k), ClearBit(page, k), Join(z, page, k);
    hide FlipBit, ClearBit, Aligned, Tiling, Listed, Flagged, Without, Pow2, InvExcept;
    MergeTest(z, page, k);
    TransitFacts(z, page, k);
    Buddies(page, k);
    JoinTiling(z.blocks, z.last, z.maxOrder, page, k);
    JoinedBlock(z.blocks, z.last, z.maxOrder, page, k);
    ListedNoDup(z.free, z.blocks, k, bud);
    WithoutIs(z.free[k], bud);
    UnlinkListed(z.free, z.blocks, page, k);
    JoinFlagged(z.flags, z.blocks, page, k);
    assert Shape(z');
    InvExceptIs(z', c);
  }

  lemma TransitFacts(z: Zone, page: nat, k: nat)
    requires Transit(z, page, k)
    ensures Shape(z) && Tiling(z.blocks, z.last, z.maxOrder) && Listed(z.free, z.blocks) &&
            Flagged(z.flags, z.blocks, {page})
    ensures Aligned(page, k)
  {
    hide Listed, Flagged, Aligned, Pow2, Covered, Coalesced, Disjoint;
  }

  lemma InvExceptIs(z: Zone, page: nat)
    requires Shape(z) && Tiling(z.blocks, z.last, z.maxOrder) && Listed(z.free, z.blocks) &&
             Flagged(z.flags, z.blocks, {page})
    ensures InvExcept(z, {page})
  {
  }

  lemma ListedNoDup(free: Lists, b: Blocks, k: nat, i: nat)
    requires Listed(free, b) && k < |free| && i in b && b[i] == Block(k, false)
    ensures NoDup(free[k]) && i in free[k]
  {
  }

  lemma JoinedBlock(b: Blocks, last: nat, max: nat, page: nat, k: nat)
    requires Tiling(JoinBlocks(b, page, k), last, max)
    ensures var c := ClearBit(page, k);
            JoinBlocks(b, page, k)[c] == Block(k + 1, true) && c + Pow2(k + 1) <= last && k + 1 <= max
  {
    hide Disjoint, Covered, Coalesced, Aligned, FlipBit, ClearBit, Pow2;
    assert ClearBit(page, k) in JoinBlocks(b, page, k);
  }

  lemma {:induction false} JoinFlagged(flags: seq<nat>, b: Blocks, page: nat, k: nat)
    requires Flagged(flags, b, {page}) && FlipBit(page, k) < |flags|
    ensures Flagged(flags[FlipBit(page, k) := 0], JoinBlocks(b, page, k), {ClearBit(page, k)})
  {
    hide FlipBit, ClearBit;
  }

  lemma {:induction false} UnlinkListed(free: Lists, b: Blocks, page: nat, k: nat)
    requires Listed(free, b) && k < |free|
    requires LiveAt(b, page, k) && FlipBit(page, k) in b && b[FlipBit(page, k)] == Block(k, false)
    requires ClearBit(page, k) in {page, FlipBit(page, k)}
    ensures Listed(free[k := Without(free[k], FlipBit(page, k))], JoinBlocks(b, page, k))
  {
    hide FlipBit, ClearBit, Without;
    WithoutIs(free[k], FlipBit(page, k));
  }

  lemma {:induction false} JoinSpares(z: Zone, page: nat, k: nat)
    requires Transit(z, page, k) && k < z.maxOrder
    requires FlipBit(page, k) < |z.flags| && z.flags[FlipBit(page, k)] == k
    ensures Spares(z, page, Join(z, page, k), ClearBit(page, k))
    ensures FreeSum(Join(z, page, k).free) + Pow2(k) == FreeSum(z.free)
  {
    var bud, c, z' := FlipBit(page, k), ClearBit(page, k), Join(z, page, k);
    hide FlipBit, ClearBit, Aligned, FreeSum, Listed, Flagged, Without, Covered, Coalesced, Placed, Disjoint;
    MergeTest(z, page, k);
    TransitFacts(z, page, k);
    Buddies(page, k);
    hide Tiling;
    ListedNoDup(z.free, z.blocks, k, bud);
    WithoutIs(z.free[k], bud);
    FreeSumShrink(z.free, k, Without(z.free[k], bud));
    WriteSpares(z, page, z', c, bud, bud, 0);
  }

  /** What freeing `page` means: it alone is no longer in use, and no flag of a page of any
      other block in use has changed. */
  ghost predicate Released(z: Zone, page: nat, z': Zone) {
    && z'.maxOrder == z.maxOrder && z'.end == z.end
    && (forall i: nat, k: nat :: LiveAt(z'.blocks, i, k) <==> LiveAt(z.blocks, i, k) && i != page)
    && FlagsSpared(z, page, z')
  }

  function Release(z: Zone, page: nat, k: nat): Zone
    requires k < |z.free| == |z.nrFree| && page < |z.flags|
  {
    Push(SetFlag(z, page, k % 16), k, page).(blocks := z.blocks[page := Block(k, false)])
  }

  lemma {:induction false} ReleaseFlagged(flags: seq<nat>, b: Blocks, page: nat, k: nat)
    requires Flagged(flags, b, {page}) && page < |flags| && k < MAX_ORDER
    ensures Flagged(flags[page := k % 16], b[page := Block(k, false)], {})
  {
  }

  lemma {:induction false} ReleaseKeeps(z: Zone, page: nat, k: nat)
    requires Transit(z, page, k)
    requires k < z.maxOrder ==> FlipBit(page, k) < |z.flags| && z.flags[FlipBit(page, k)] != k
    ensures InvExcept(Release(z, page, k), {})
  {
    var z' := Release(z, page, k);
    hide FlipBit, Aligned, Pow2, Tiling, Listed, Flagged;
    if k < z.maxOrder { MergeTest(z, page, k); }
    UnuseTiling(z.blocks, z.last, z.maxOrder, page, k);
    PushListed(z.free, z.blocks, z'.blocks, k, page);
    ReleaseFlagged(z.flags, z.blocks, page, k);
  }

  lemma {:induction false} ReleaseEffect(z: Zone, page: nat, k: nat)
    requires Transit(z, page, k)
    ensures Released(z, page, Release(z, page, k))
    ensures FreeSum(Release(z, page, k).free) == FreeSum(z.free) + Pow2(k)
  {
    hide Listed, Flagged, Aligned, FlipBit, FreeSum;
    assert Disjoint(z.blocks) && Covers(z.blocks, page, page);
    hide Tiling;
    FreeSumGrow(z.free, k, [page] + z.free[k]);
    WriteSpares(z, page, Release(z, page, k), page, page, page, k % 16);
  }

  /** `easy_mem_merge_buddy_page`, after `free_pages` has been raised. */
  ghost function Merge(z: Zone, page: nat, k: nat): (r: Zone)
    requires Transit(z, page, k)
    ensures InvExcept(r, {}) && Released(z, page, r)
    ensures FreeSum(r.free) == FreeSum(z.free) + Pow2(k)
    ensures r.last == z.last && r.end == z.end && r.maxOrder == z.maxOrder && r.freePages == z.freePages
    decreases z.maxOrder - k
  {
    hide Tiling, Listed, Flagged, FlipBit, ClearBit, Aligned, Pow2, FreeSum, FlagsSpared;
    if k < z.maxOrder && (MergeTest(z, page, k); z.flags[FlipBit(page, k)] == k) then
      JoinKeeps(z, page, k);
      JoinSpares(z, page, k);
      var z1 := Join(z, page, k);
      var r := Merge(z1, ClearBit(page, k), k + 1);
      JoinReleased(z, page, z1, ClearBit(page, k), r);
      Pow2Next(k);
      r
    else
      ReleaseKeeps(z, page, k);
      ReleaseEffect(z, page, k);
      Release(z, page, k)
  }

  /** One block has left the list and the others keep their order. */
  ghost predicate OneLess(before: seq<nat>, after: seq<nat>) {
    exists b: nat :: b in before && after == Without(before, b)
  }

  /** Freeing `page` ends in one block of order `f` at `h` around it, at the head of its list; each
      order on the way has lost the buddy that was joined, and all other lists are unchanged. */
  ghost predicate Filed(z: Zone, r: Zone, page: nat, k: nat, f: nat, h: nat) {
    && k <= f < |z.free| == |r.free| && h <= page < h + Pow2(f) && h in r.blocks && r.blocks[h] == Block(f, false)
    && r.free[f] == [h] + z.free[f]
    && (forall j | k <= j < f :: OneLess(z.free[j], r.free[j]))
    && (forall j | 0 <= j < |z.free| && (j < k || f < j) :: r.free[j] == z.free[j])
  }

  lemma BlockAligned(z: Zone, h: nat)
    requires InvExcept(z, {}) && h in z.blocks
    ensures Aligned(h, z.blocks[h].order)
  {
    hide Listed, Flagged, Aligned, Pow2, Covered, Coalesced, Disjoint;
  }

  lemma {:induction false} MergeFiles(z: Zone, page: nat, k: nat) returns (f: nat, h: nat)
    requires Transit(z, page, k)
    ensures Filed(z, Merge(z, page, k), page, k, f, h)
    decreases z.maxOrder - k
  {
    hide Tiling, Listed, Flagged, FlipBit, ClearBit, Aligned, Pow2, FreeSum, FlagsSpared, Released, Spares, Without;
    if k < z.maxOrder { MergeTest(z, page, k); }
    if k < z.maxOrder && z.flags[FlipBit(page, k)] == k {
      JoinKeeps(z, page, k);
      var z1, c := Join(z, page, k), ClearBit(page, k);
      f, h := MergeFiles(z1, c, k + 1);
      TransitFacts(z, page, k);
      Buddies(page, k);
      ListedNoDup(z.free, z.blocks, k, FlipBit(page, k));
      Pow2Next(k);
      Pow2Mono(k + 1, f);
      assert Merge(z, page, k) == Merge(z1, c, k + 1);
      BlockAligned(Merge(z1, c, k + 1), h);
      Nested(h, f, c, k + 1);
      assert OneLess(z.free[k], z1.free[k]);
      forall j | k <= j < f ensures OneLess(z.free[j], Merge(z, page, k).free[j]) {
        if j > k { assert OneLess(z1.free[j], Merge(z, page, k).free[j]); }
      }
    } else {
      f, h := k, page;
    }
  }

  lemma JoinReleased(z: Zone, page: nat, z1: Zone, page1: nat, r: Zone)
    requires Spares(z, page, z1, page1) && Released(z1, page1, r)
    requires z1.maxOrder == z.maxOrder && z1.end == z.end
    ensures Released(z, page, r)
  {
    forall i: nat, k: nat, p: nat | LiveAt(z.blocks, i, k) && i != page && i <= p < i + Pow2(k) && p < |z.flags|
      ensures r.flags[p] == z.flags[p]
    {
      assert LiveAt(z1.blocks, i, k);
    }
  }

  /** `easy_mem_free_pages` for a block head. */
  ghost function Free(z: Zone, page: nat): (r: Zone)
    requires Inv(z) && page in z.blocks
    ensures Inv(r)
    ensures z.blocks[page].used ==> Released(z, page, r)
    ensures !z.blocks[page].used ==> r == z
  {
    assert page < z.last;
    if z.flags[page] >= USED then
      assert Placed(z.blocks, z.last, z.maxOrder);
      var order := z.flags[page] % 16;
      Merge(z.(freePages := z.freePages + Pow2(order)), page, order)
    else z
  }

  // ---------- runs ----------

  datatype Request = AllocReq(order: nat) | FreeReq(page: nat)

  /** A zone as it is created: no page in play yet, flag bytes arbitrary. */
  predicate Created(z: Zone) {
    && Shape(z) && z.last == 0 && z.freePages == 0 && z.blocks == map[]
    && forall k | 0 <= k <= z.maxOrder :: z.free[k] == []
  }

  lemma {:induction false} CreatedInv(z: Zone)
    requires Created(z)
    ensures Inv(z)
  {
    EmptySum(z.free);
    AlignedZero(z.maxOrder);
  }

  lemma {:induction false} EmptySum(free: Lists)
    requires forall k | 0 <= k < |free| :: free[k] == []
    ensures FreeSum(free) == 0
  {
    if free != [] { EmptySum(free[..|free| - 1]); }
  }

  lemma {:induction false} AlignedZero(k: nat)
    ensures Aligned(0, k)
  {
    if k > 0 { AlignedZero(k - 1); }
  }

  /** A run of requests in which only block heads are freed; other frees are not issued. */
  ghost function Run(z: Zone, reqs: seq<Request>): (r: Zone)
    requires Inv(z)
    ensures Inv(r)
  {
    if reqs == [] then z else
      var z1 := Run(z, reqs[..|reqs| - 1]);
      match reqs[|reqs| - 1]
      case AllocReq(order) => Alloc(z1, order).0
      case FreeReq(page) => if page in z1.blocks then Free(z1, page) else z1
  }

  /** Every page below `last` lies in exactly one block, whose head flag gives its order and
      whether it is in use, and which is listed exactly when it is free. */
  ghost predicate PageAccounted(z: Zone, p: nat)
    requires |z.free| == z.maxOrder + 1
  {
    exists i: nat ::
      && Covers(z.blocks, i, p)
      && z.blocks[i].order <= z.maxOrder && Aligned(i, z.blocks[i].order)
      && i < |z.flags| && z.flags[i] == FlagOf(z.blocks[i])
      && (!z.blocks[i].used <==> i in z.free[z.blocks[i].order])
      && (forall j: nat | Covers(z.blocks, j, p) :: j == i)
  }

  lemma {:induction false} InvAccounts(z: Zone, p: nat)
    requires Inv(z) && p < z.last
    ensures PageAccounted(z, p)
  {
    hide Aligned, FlipBit, FreeSum, Pow2;
    assert InSomeBlock(z.blocks, p);
    var i: nat :| Covers(z.blocks, i, p);
    assert z.blocks[i].order <= z.maxOrder;
    assert i in z.free[z.blocks[i].order] <==> z.blocks[i] == Block(z.blocks[i].order, false);
    forall j: nat | Covers(z.blocks, j, p) ensures j == i {
    }
  }

  /** After any run from any created zone, whatever its flag bytes were: every page is accounted
      for, and when nothing is in use every page is in a block of the largest order. */
  lemma {:induction false} RunPartitions(z0: Zone, reqs: seq<Request>, p: nat)
    requires Created(z0) && Inv(z0) && p < Run(z0, reqs).last
    ensures var z := Run(z0, reqs);
            && PageAccounted(z, p)
            && z.freePages == FreeSum(z.free)
            && ((forall j | j in z.blocks :: !z.blocks[j].used) ==>
                  exists i: nat :: Covers(z.blocks, i, p) && z.blocks[i] == Block(z.maxOrder, false))
  {
    var z := Run(z0, reqs);
    hide Run, Aligned, FlipBit, FreeSum, Pow2, Listed, Flagged;
    InvAccounts(z, p);
    if forall j | j in z.blocks :: !z.blocks[j].used {
      var i: nat :| Covers(z.blocks, i, p);
      AllFreeIsCoalesced(z.blocks, z.last, z.maxOrder, i);
      assert z.blocks[i] == Block(z.maxOrder, false);
    }
  }
}
