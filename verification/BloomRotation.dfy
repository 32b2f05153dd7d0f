/** The rotating bloom filters that guess which reads are hot, over any sequential run. */
module BloomRotation {
  import Bits

  // ---- a group of filters, as the sets of their bits

  /** The filters and the number of rotations so far. */
  datatype Group = Group(index: nat, sets: seq<set<nat>>)

  /** The filter that is current after `k` more rotations. */
  function At(g: Group, k: nat): set<nat>
    requires g.sets != []
  {
    g.sets[(g.index + k) % |g.sets|]
  }

  /** In rotation order each filter remembers no more than the one before it. */
  ghost predicate Chain(g: Group) {
    g.sets != [] && forall j, k | 0 <= j <= k < |g.sets| :: At(g, k) <= At(g, j)
  }

  function Rotate(g: Group): Group
    requires g.sets != []
  {
    Group(g.index + 1, g.sets[g.index % |g.sets| := {}])
  }

  /** The current filter is full: the next one takes over, the old one starts again as the last. */
  function Rotated(g: Group, hot: nat): Group
    requires g.sets != []
  {
    if |At(g, 0)| > hot then Rotate(g) else g
  }

  function Put(g: Group, k: nat, x: nat): Group
    requires g.sets != []
  {
    g.(sets := g.sets[(g.index + k) % |g.sets| := At(g, k) + {x}])
  }

  /** `x` goes into the filters from position `k` on, until one has it or is still too empty to
      share. */
  function Insert(g: Group, x: nat, k: nat, quota: nat): (h: Group)
    requires g.sets != [] && k <= |g.sets|
    ensures |h.sets| == |g.sets| && h.index == g.index
    decreases |g.sets| - k
  {
    if k == |g.sets| || x in At(g, k) then g
    else if |At(g, k)| + 1 < quota then Put(g, k, x)
    else Insert(Put(g, k, x), x, k + 1, quota)
  }

  function Added(g: Group, x: nat, hot: nat): Group
    requires g.sets != []
  {
    Insert(Rotated(g, hot), x, 0, hot / |g.sets|)
  }

  function Empty(n: nat): Group { Group(0, seq(n, _ => {})) }

  // ---- what every step keeps

  lemma SlotIs(index: nat, n: nat, j: nat, k: nat)
    requires 0 < n && j < n && k < n
    ensures (index + j) % n == (index + k) % n <==> j == k
  {
    if j < k { Apart(index + j, k - j, n); }
    if k < j { Apart(index + k, j - k, n); }
  }

  lemma Apart(a: nat, d: nat, n: nat)
    requires 0 < d < n
    ensures (a + d) % n != a % n
  {
    var q, r := a / n, a % n;
    if r + d < n { Bits.DivModUnique(a + d, n, q, r + d); } else { Bits.DivModUnique(a + d, n, q + 1, r + d - n); }
  }

  lemma NextSlot(index: nat, n: nat, k: nat)
    requires 0 < n && k < n
    ensures (index + 1 + k) % n == if k + 1 < n then (index + (k + 1)) % n else index % n
  {
    if k + 1 == n {
      Bits.DivModUnique(index + n, n, index / n + 1, index % n);
    }
  }

  lemma PutAt(g: Group, k: nat, x: nat, j: nat)
    requires g.sets != [] && k < |g.sets| && j < |g.sets|
    ensures At(Put(g, k, x), j) == if j == k then At(g, k) + {x} else At(g, j)
  {
    SlotIs(g.index, |g.sets|, j, k);
  }

  lemma RotateAt(g: Group, k: nat)
    requires g.sets != [] && k < |g.sets|
    ensures At(Rotate(g), k) == if k + 1 < |g.sets| then At(g, k + 1) else {}
  {
    var n := |g.sets|;
    NextSlot(g.index, n, k);
    if k + 1 < n { SlotIs(g.index, n, k + 1, 0); }
  }

  lemma RotateChain(g: Group)
    requires Chain(g)
    ensures Chain(Rotate(g))
  {
    hide At;
    var r := Rotate(g);
    forall j, k | 0 <= j <= k < |r.sets| ensures At(r, k) <= At(r, j) {
      RotateAt(g, j);
      RotateAt(g, k);
      if k + 1 < |g.sets| { assert At(g, k + 1) <= At(g, j + 1); }
    }
  }

  /** In the middle of an insertion: the filters before `k` have `x`, the others do not. */
  ghost predicate Half(g: Group, x: nat, k: nat) {
    Chain(g) && k <= |g.sets| && (forall j | 0 <= j < |g.sets| :: x in At(g, j) <==> j < k)
  }

  lemma PutHalf(g: Group, x: nat, k: nat)
    requires Half(g, x, k) && k < |g.sets|
    ensures Half(Put(g, k, x), x, k + 1)
  {
    hide At;
    var p := Put(g, k, x);
    forall i, j | 0 <= i <= j < |p.sets| ensures At(p, j) <= At(p, i) {
      PutAt(g, k, x, i);
      PutAt(g, k, x, j);
      assert At(g, j) <= At(g, i) && (x in At(g, i) <==> i < k);
    }
    forall j | 0 <= j < |p.sets| ensures x in At(p, j) <==> j < k + 1 { PutAt(g, k, x, j); }
  }

  /** Each filter gains `x` or stays as it is. */
  ghost predicate Grown(g: Group, h: Group, x: nat) {
    |h.sets| == |g.sets| && h.index == g.index &&
    forall j | 0 <= j < |g.sets| :: h.sets[j] == g.sets[j] || h.sets[j] == g.sets[j] + {x}
  }

  lemma {:induction false} InsertKeeps(g: Group, x: nat, k: nat, quota: nat)
    requires Half(g, x, k)
    ensures var h := Insert(g, x, k, quota);
            Chain(h) && Grown(g, h, x) && (k < |g.sets| ==> x in At(h, k)) &&
              (forall j | 0 <= j < k :: At(h, j) == At(g, j))
    decreases |g.sets| - k
  {
    hide At, Put;
    if k < |g.sets| {
      PutHalf(g, x, k);
      PutGrown(g, x, k);
      var p := Put(g, k, x);
      InsertKeeps(p, x, k + 1, quota);
      forall j | 0 <= j <= k ensures At(p, j) == if j == k then At(g, k) + {x} else At(g, j) { PutAt(g, k, x, j); }
      GrownOn(g, p, Insert(p, x, k + 1, quota), x);
      hide Grown;
    }
  }

  lemma PutGrown(g: Group, x: nat, k: nat)
    requires g.sets != []
    ensures |Put(g, k, x).sets| == |g.sets| && Put(g, k, x).index == g.index && Grown(g, Put(g, k, x), x)
  {
  }

  lemma GrownOn(g: Group, p: Group, h: Group, x: nat)
    requires Grown(g, p, x) && Grown(p, h, x)
    ensures Grown(g, h, x)
  {
    forall j | 0 <= j < |g.sets| ensures h.sets[j] == g.sets[j] || h.sets[j] == g.sets[j] + {x} {
      assert g.sets[j] + {x} + {x} == g.sets[j] + {x};
    }
  }

  /** A hash that the current filter does not have is in no filter, so that the search for a filter
      that has it can end only at the first. */
  lemma AbsentEverywhere(g: Group, x: nat)
    requires Chain(g) && x !in At(g, 0)
    ensures Half(g, x, 0)
  {
    hide At;
    forall j | 0 <= j < |g.sets| ensures x !in At(g, j) { assert At(g, j) <= At(g, 0); }
  }

  /** One request keeps the filters nested, and is remembered by the current one. */
  lemma AddedKeeps(g: Group, x: nat, hot: nat)
    requires Chain(g)
    ensures Chain(Added(g, x, hot)) && |Added(g, x, hot).sets| == |g.sets| && x in At(Added(g, x, hot), 0)
  {
    hide At, Chain, Half;
    HasFilter(g);
    if |At(g, 0)| > hot { RotateChain(g); }
    var r := Rotated(g, hot);
    if x !in At(r, 0) {
      AbsentEverywhere(r, x);
      InsertKeeps(r, x, 0, hot / |g.sets|);
    }
  }

  lemma HasFilter(g: Group)
    requires Chain(g)
    ensures g.sets != []
  {
  }

  lemma InsertFirst(g: Group, x: nat, quota: nat)
    requires Chain(g)
    ensures At(Insert(g, x, 0, quota), 0) == At(g, 0) + {x}
  {
    hide Chain, Half;
    HasFilter(g);
    if x in At(g, 0) {
      assert At(g, 0) + {x} == At(g, 0);
    } else {
      AbsentEverywhere(g, x);
      InsertKeeps(g, x, 0, quota);
    }
  }

  /** Whatever the current filter knows, it still knows after a request that does not rotate; after
      one that does, the new current filter knows what the second one knew, and the new hash. */
  lemma AddedRemembers(g: Group, x: nat, hot: nat)
    requires Chain(g)
    ensures At(Added(g, x, hot), 0) ==
            (if |At(g, 0)| <= hot then At(g, 0) else if |g.sets| > 1 then At(g, 1) else {}) + {x}
  {
    hide At, Chain, Half, Insert;
    HasFilter(g);
    if |At(g, 0)| > hot { RotateChain(g); RotateAt(g, 0); }
    var r := Rotated(g, hot);
    InsertFirst(r, x, hot / |g.sets|);
  }

  /** The filters from `k` up to `j` have at least `quota` bits once they get one more. */
  ghost predicate FullEnough(g: Group, k: nat, j: nat, quota: nat)
    requires g.sets != []
  {
    forall i | k <= i < j :: |At(g, i)| + 1 >= quota
  }

  lemma {:induction false} InsertReaches(g: Group, x: nat, k: nat, quota: nat, j: nat)
    requires Half(g, x, k) && k <= j < |g.sets|
    ensures At(Insert(g, x, k, quota), j) == At(g, j) + if FullEnough(g, k, j, quota) then {x} else {}
    decreases |g.sets| - k
  {
    hide At, Chain, Put;
    var p := Put(g, k, x);
    PutHalf(g, x, k);
    PutGrown(g, x, k);
    PutAt(g, k, x, j);
    assert At(g, j) + {} == At(g, j);
    if |At(g, k)| + 1 < quota {
      assert j > k ==> !FullEnough(g, k, j, quota);
    } else {
      forall i | k < i < j ensures At(p, i) == At(g, i) { PutAt(g, k, x, i); }
      if j > k {
        InsertReaches(p, x, k + 1, quota, j);
        assert FullEnough(p, k + 1, j, quota) <==> FullEnough(g, k, j, quota);
      } else {
        InsertKeeps(p, x, k + 1, quota);
      }
    }
  }

  /** What each filter knows after a request, in rotation order: what it knew, or after a rotation what
      the next one knew, and the new hash exactly if no filter before it is still below its share. */
  lemma {:induction false} AddedReaches(g: Group, x: nat, hot: nat, j: nat)
    requires Chain(g) && j < |g.sets|
    ensures var r, a := Rotated(g, hot), Added(g, x, hot);
            && At(r, j) == (if |At(g, 0)| <= hot then At(g, j) else if j + 1 < |g.sets| then At(g, j + 1) else {})
            && At(a, j) == At(r, j) +
                 if x !in At(r, 0) && FullEnough(r, 0, j, hot / |g.sets|) then {x} else {}
  {
    hide At, Chain, Half, FullEnough;
    HasFilter(g);
    if |At(g, 0)| > hot { RotateChain(g); RotateAt(g, j); }
    var r := Rotated(g, hot);
    if x !in At(r, 0) {
      AbsentEverywhere(r, x);
      InsertReaches(r, x, 0, hot / |g.sets|, j);
    } else {
      assert At(r, j) + {} == At(r, j);
    }
  }

  function Run(g: Group, xs: seq<nat>, hot: nat): (h: Group)
    requires g.sets != []
    ensures |h.sets| == |g.sets|
  {
    if xs == [] then g else Added(Run(g, xs[..|xs| - 1], hot), xs[|xs| - 1], hot)
  }

  lemma EmptyChain(n: nat)
    requires n > 0
    ensures Chain(Empty(n))
  {
  }

  /** After any run the filters are nested and the last request is hot. */
  lemma {:induction false} RunKeeps(n: nat, xs: seq<nat>, hot: nat)
    requires n > 0
    ensures var g := Run(Empty(n), xs, hot);
            Chain(g) && |g.sets| == n && (xs != [] ==> xs[|xs| - 1] in At(g, 0))
  {
    hide Chain, At, Added;
    EmptyChain(n);
    if xs != [] {
      RunKeeps(n, xs[..|xs| - 1], hot);
      AddedKeeps(Run(Empty(n), xs[..|xs| - 1], hot), xs[|xs| - 1], hot);
    }
  }

  // ---- one filter, bit by bit

  /** `1 << i` */
  function Mask(i: nat): bv8
    requires i < 8
  {
    match i case 0 => 1 case 1 => 2 case 2 => 4 case 3 => 8 case 4 => 16 case 5 => 32 case 6 => 64 case 7 => 128
  }

  lemma MaskBits(x: bv8, i: nat, j: nat)
    requires i < 8 && j < 8
    ensures (x | Mask(i)) & Mask(j) != 0 <==> i == j || x & Mask(j) != 0
    ensures 0 as bv8 & Mask(j) == 0
  {
  }

  predicate IsSet(a: seq<bv8>, n: nat)
    requires n / 8 < |a|
  {
    a[n / 8] & Mask(n % 8) != 0
  }

  function Members(a: seq<bv8>, size: nat): set<nat>
    requires size <= 8 * |a|
  {
    set n: nat | n < size && IsSet(a, n)
  }

  lemma SetBit(a: seq<bv8>, size: nat, n: nat)
    requires n < size <= 8 * |a|
    ensures var b := a[n / 8 := a[n / 8] | Mask(n % 8)]; Members(b, size) == Members(a, size) + {n}
  {
    var b := a[n / 8 := a[n / 8] | Mask(n % 8)];
    forall m: nat | m < size ensures IsSet(b, m) <==> m == n || IsSet(a, m) {
      if m / 8 == n / 8 { MaskBits(a[n / 8], n % 8, m % 8); }
    }
  }

  lemma ClearBits(a: seq<bv8>, size: nat)
    requires size <= 8 * |a| && forall i | 0 <= i < |a| :: a[i] == 0
    ensures Members(a, size) == {}
  {
    forall m: nat | m < size ensures !IsSet(a, m) { MaskBits(0, 0, m % 8); }
  }

  /** `tdhs_bloom_filter_t` with its bit array */
  class Filter {
    const size: nat
    const a: array<bv8>
    var num: nat

    ghost predicate Valid()
      reads this, a
    {
      0 < size <= 8 * a.Length && num == |Bits()|
    }

    ghost function Bits(): set<nat>
      reads this, a
    {
      if size <= 8 * a.Length then Members(a[..], size) else {}
    }

    constructor (size: nat)
      requires size > 0
      ensures Valid() && this.size == size && Bits() == {} && fresh(a)
    {
      this.size := size;
      var bytes := new bv8[(size + 7) / 8](_ => 0);
      a := bytes;
      num := 0;
      new;
      ClearBits(a[..], size);
    }

    /** `resest` */
    method Reset()
      requires Valid()
      modifies this`num, a
      ensures Valid() && Bits() == {}
    {
      var i := 0;
      while i < a.Length
        invariant i <= a.Length && forall k | 0 <= k < i :: a[k] == 0
      {
        a[i] := 0;
        i := i + 1;
      }
      num := 0;
      ClearBits(a[..], size);
    }

    /** `bfilter_check` */
    method Check(hash: nat) returns (found: bool)
      requires Valid()
      ensures found == (hash % size in Bits())
    {
      var n := hash % size;
      found := a[n / 8] & Mask(n % 8) != 0;
      assert found == IsSet(a[..], n);
    }

    /** `add_hash` */
    method AddHash(hash: nat) returns (isNew: bool)
      requires Valid()
      modifies this`num, a
      ensures Valid() && Bits() == old(Bits()) + {hash % size} && isNew == (hash % size !in old(Bits()))
    {
      var found := Check(hash);
      isNew := !found;
      if !found {
        var n := hash % size;
        SetBit(a[..], size, n);
        ghost var b := a[..];
        a[n / 8] := a[n / 8] | Mask(n % 8);
        assert a[..] == b[n / 8 := b[n / 8] | Mask(n % 8)];
        num := num + 1;
      }
    }
  }

  /** The group of filters of `add_optimize` and `optimize`. */
  class Optimizer {
    const filters: seq<Filter>
    const size: nat
    const hot: nat
    var index: nat

    ghost predicate Valid()
      reads this, filters, set f: Filter | f in filters :: f.a
    {
      && filters != [] && size > 0
      && (forall i | 0 <= i < |filters| :: filters[i].Valid() && filters[i].size == size)
      && (forall i, j | 0 <= i < j < |filters| :: filters[i] != filters[j] && filters[i].a != filters[j].a)
    }

    ghost function View(): (g: Group)
      reads this, filters, set f: Filter | f in filters :: f.a
      ensures |g.sets| == |filters| && g.index == index
      ensures forall i | 0 <= i < |filters| :: g.sets[i] == filters[i].Bits()
    {
      Group(index,
            seq(|filters|, i requires 0 <= i < |filters| reads filters, set f: Filter | f in filters :: f.a =>
              filters[i].Bits()))
    }

    /** `init_optimize` */
    constructor (n: nat, buckets: nat, hot: nat)
      requires n > 0 && buckets > 0
      ensures Valid() && View() == Empty(n) && size == buckets && this.hot == hot
      ensures fresh(filters) && forall f | f in filters :: fresh(f.a)
    {
      var fs: seq<Filter> := [];
      while |fs| < n
        invariant |fs| <= n && fresh(fs)
        invariant forall i | 0 <= i < |fs| ::
                  fresh(fs[i].a) && fs[i].Valid() && fs[i].size == buckets && fs[i].Bits() == {}
        invariant forall i, j | 0 <= i < j < |fs| :: fs[i] != fs[j] && fs[i].a != fs[j].a
      {
        var f := new Filter(buckets);
        fs := fs + [f];
      }
      filters, size, this.hot, index := fs, buckets, hot, 0;
      new;
      assert View().sets == Empty(n).sets;
    }

    /** Adds a hash to the filter at position `k` of the rotation. */
    method AddTo(k: nat, hash: nat) returns (isNew: bool, num: nat)
      requires Valid() && k < |filters|
      modifies filters, set f: Filter | f in filters :: f.a
      ensures Valid() && View() == Put(old(View()), k, hash % size)
      ensures isNew == (hash % size !in At(old(View()), k)) && num == |At(View(), k)|
    {
      hide Members;
      var slot := (index + k) % |filters|;
      isNew := filters[slot].AddHash(hash);
      num := filters[slot].num;
      assert forall j | 0 <= j < |filters| && j != slot :: filters[j].Bits() == old(filters[j].Bits());
      assert View().sets == Put(old(View()), k, hash % size).sets;
    }

    method Turn()
      requires Valid()
      modifies this`index, filters, set f: Filter | f in filters :: f.a
      ensures Valid() && View() == Rotate(old(View()))
    {
      var slot := index % |filters|;
      index := index + 1;
      filters[slot].Reset();
      assert forall j | 0 <= j < |filters| && j != slot :: filters[j].Bits() == old(filters[j].Bits());
      assert View().sets == Rotate(old(View())).sets;
    }

    /** The loop over the filters, from the current one on. */
    method InsertFrom(hash: nat, quota: nat)
      requires Valid()
      modifies filters, set f: Filter | f in filters :: f.a
      ensures Valid() && View() == Insert(old(View()), hash % size, 0, quota)
    {
      hide Put, At, Insert, Valid, View;
      ghost var r := View();
      var k := 0;
      GroupSize();
      while k < |filters|
        invariant k <= |filters| && Valid() && |View().sets| == |filters| > 0 && size > 0
        invariant Insert(View(), hash % size, k, quota) == Insert(r, hash % size, 0, quota)
      {
        ghost var v := View();
        var isNew, num := AddTo(k, hash);
        GroupSize();
        InsertStep(v, hash % size, k, quota);
        if !isNew || num < quota { return; }
        k := k + 1;
      }
      InsertEnd(View(), hash % size, quota);
    }

    lemma GroupSize()
      requires Valid()
      ensures |View().sets| == |filters| > 0 && size > 0
    {
    }

    /** `add_optimize`, for one request at a time */
    method AddOptimize(hash: nat)
      requires Valid()
      modifies this`index, filters, set f: Filter | f in filters :: f.a
      ensures Valid() && View() == Added(old(View()), hash % size, hot)
    {
      hide Put, At, Rotate, Insert;
      CurrentIs(View());
      if filters[index % |filters|].num > hot { Turn(); }
      InsertFrom(hash, hot / |filters|);
    }

    /** `optimize`: a read is quick when the current filter has its hash. */
    method IsQuick(hash: nat) returns (quick: bool)
      requires Valid()
      ensures quick == (hash % size in At(View(), 0))
    {
      quick := filters[index % |filters|].Check(hash);
    }
  }

  lemma CurrentIs(g: Group)
    requires g.sets != []
    ensures At(g, 0) == g.sets[g.index % |g.sets|]
  {
  }

  lemma PutCount(g: Group, k: nat, x: nat)
    requires g.sets != [] && k < |g.sets|
    ensures At(Put(g, k, x), k) == At(g, k) + {x}
    ensures x !in At(g, k) ==> |At(Put(g, k, x), k)| == |At(g, k)| + 1
    ensures x in At(g, k) ==> Put(g, k, x) == g
  {
    PutAt(g, k, x, k);
    if x in At(g, k) { assert At(g, k) + {x} == At(g, k); }
  }

  lemma InsertStep(g: Group, x: nat, k: nat, quota: nat)
    requires g.sets != [] && k < |g.sets|
    ensures var p := Put(g, k, x);
            if x in At(g, k) || |At(p, k)| < quota then Insert(g, x, k, quota) == p
            else Insert(g, x, k, quota) == Insert(p, x, k + 1, quota)
  {
    PutCount(g, k, x);
  }

  lemma InsertEnd(g: Group, x: nat, quota: nat)
    requires g.sets != []
    ensures Insert(g, x, |g.sets|, quota) == g
  {
  }
}
